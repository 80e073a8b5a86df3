/** The four notification checks inside `check_events_loop`
    (cogs/notification_service.py), taken out of the loop as one pure function
    from a stored row and the current time to the kinds that are due. */
module Evaluator {
  import opened Wrappers
  import opened Records

  const Minute: int := 60
  const Hour: int := 60 * Minute

  /** `NOTIFICATION_CHECK_INTERVAL_SECONDS`. */
  const CheckIntervalSeconds: int := 20

  /** A half-open window of instants [opens, closes); no closing instant means
      the window never closes. */
  datatype Window = Window(opens: int, closes: Option<int>)
  {
    predicate Contains(now: int) {
      opens <= now && (closes.None? || now < closes.value)
    }
  }

  /** When each kind may fire: the hour-before marks open five-minute windows,
      the start opens a one-minute window, the end opens a window that never
      closes. */
  function TriggerWindow(k: Kind, r: Record): Window {
    match k
    case Reminder => Window(r.start_time - Hour, Some(r.start_time - Hour + 5 * Minute))
    case GoodLuck => Window(r.start_time, Some(r.start_time + Minute))
    case EndingSoon => Window(r.end_time - Hour, Some(r.end_time - Hour + 5 * Minute))
    case Congratulations => Window(r.end_time, None)
  }

  /** The kinds due for row `r` at `now`: those whose flag is still 0 and whose
      window holds `now`. The four checks are independent, so several kinds
      can be due at once. */
  function DueKinds(r: Record, now: int): (due: set<Kind>)
    ensures due <= AllKinds
    ensures Reminder in due <==> !r.sent.reminder && r.start_time - 3600 <= now < r.start_time - 3600 + 300
    ensures GoodLuck in due <==> !r.sent.goodLuck && r.start_time <= now < r.start_time + 60
    ensures EndingSoon in due <==> !r.sent.endingSoon && r.end_time - 3600 <= now < r.end_time - 3600 + 300
    ensures Congratulations in due <==> !r.sent.congratulations && now >= r.end_time
  {
    set k | k in AllKinds && !r.sent.Get(k) && TriggerWindow(k, r).Contains(now)
  }

  /** A kind whose flag is clear is due anywhere inside its window. */
  lemma OpenWindowIsDue(r: Record, k: Kind, now: int)
    requires !r.sent.Get(k) && TriggerWindow(k, r).Contains(now)
    ensures k in DueKinds(r, now)
  {
    assert k in AllKinds;
  }

  /** Once a kind's flag is set it is never due again, whatever the time. */
  lemma SentIsNeverDue(r: Record, k: Kind, now: int)
    requires r.sent.Get(k)
    ensures k !in DueKinds(r, now)
  {
  }

  /** Congratulations stays due from the end onwards until its flag is set:
      a late check still sends it. */
  lemma CongratulationsNeverExpires(r: Record, now: int, later: int)
    requires Congratulations in DueKinds(r, now) && now <= later
    ensures Congratulations in DueKinds(r, later)
  {
  }

  /** The first check of a polling schedule started at `origin` that lands at or
      after `t`. */
  function FirstTickFrom(origin: int, t: int): (tick: int)
    requires origin <= t
    ensures t <= tick < t + CheckIntervalSeconds
    ensures (tick - origin) % CheckIntervalSeconds == 0
  {
    var n := (t - origin + CheckIntervalSeconds - 1) / CheckIntervalSeconds;
    assert n * CheckIntervalSeconds <= t - origin + CheckIntervalSeconds - 1;
    origin + n * CheckIntervalSeconds
  }

  /** With checks every 20 seconds, every trigger window (the narrowest is one
      minute) holds at least one check, so a kind whose flag is clear is due at
      some check of any schedule that started before its window opened. */
  lemma {:induction false} EveryWindowHoldsACheck(r: Record, k: Kind, origin: int)
    requires origin <= TriggerWindow(k, r).opens
    requires !r.sent.Get(k)
    ensures var tick := FirstTickFrom(origin, TriggerWindow(k, r).opens);
      k in DueKinds(r, tick)
  {
    var w := TriggerWindow(k, r);
    var tick := FirstTickFrom(origin, w.opens);
    assert w.closes.Some? ==> w.opens + CheckIntervalSeconds <= w.closes.value;
    assert w.Contains(tick);
  }

  /** An event added at `t` that starts an hour later: two minutes before
      the start nothing is due (the reminder window closed at t + 5 minutes);
      at `t` only the reminder is due; once its flag is written nothing is due
      a minute later; at the start only good luck is due. */
  lemma {:induction false} ReminderThenGoodLuck(r: Record, t: int)
    requires r.start_time == t + Hour && r.end_time == t + 3 * Hour && r.sent == NoneSent
    ensures DueKinds(r, t + Hour - 2 * Minute) == {}
    ensures DueKinds(r, t) == {Reminder}
    ensures DueKinds(r.(sent := r.sent.Set(Reminder, true)), t + Minute) == {}
    ensures DueKinds(r.(sent := r.sent.Set(Reminder, true)), t + Hour) == {GoodLuck}
  {
    var r' := r.(sent := r.sent.Set(Reminder, true));
    var early, mark := DueKinds(r, t + Hour - 2 * Minute), DueKinds(r, t);
    var later, start := DueKinds(r', t + Minute), DueKinds(r', t + Hour);
    assert forall k | k in early :: false;
    assert forall k | k in mark :: k == Reminder;
    assert forall k | k in later :: false;
    assert forall k | k in start :: k == GoodLuck;
  }
}
