/** One run of `check_events_loop` and of `cleanup_past_events_loop`
    (cogs/notification_service.py). What Discord and SQLite do during a run is
    an `Oracle`; the run itself is a method over the `EventStore`, specified by
    the function `RunCycle`, and the properties of the scheduler are lemmas
    about `RunCycle`. */
module NotificationService {
  import opened Wrappers
  import opened Records
  import opened Database
  import opened Evaluator

  /** After a failed run the loop sleeps five check intervals. */
  const BackoffSeconds: int := CheckIntervalSeconds * 5

  /** The back-off is longer than the one-minute good-luck window. When a run
      fails a second before an event starts, every check until the back-off
      is over falls outside the window, so good luck is skipped for good even
      though its flag stays clear. */
  lemma BackoffCanSkipGoodLuck(r: Record, next: int)
    requires next >= r.start_time - 1 + BackoffSeconds
    ensures GoodLuck !in DueKinds(r, r.start_time - 1)
    ensures GoodLuck !in DueKinds(r, next)
    ensures forall t | TriggerWindow(GoodLuck, r).Contains(t) :: r.start_time - 1 < t < next
  {
  }

  /** The outcomes of the calls a run makes, decided outside the model:
      - fetchOk: `get_all_events_for_notifications` returned (no top-level error);
      - parses(key): the stored start_time and end_time of that row parse;
      - resolves(key): `get_user` or `fetch_user` produced the row's user when
        that row was handled (a lookup can fail for one row and succeed for the next);
      - delivers(key, kind): `user.send` of that notification succeeded;
      - persists(key, kind): the `update_notification_flag` that follows it did not raise. */
  datatype Oracle = Oracle(
    fetchOk: bool,
    parses: Key -> bool,
    resolves: Key -> bool,
    delivers: (Key, Kind) -> bool,
    persists: (Key, Kind) -> bool)

  /** A direct message that reached its user. */
  datatype Delivery = Delivery(key: Key, kind: Kind)

  /** The table as the run has left it so far, and the messages sent so far. */
  datatype CycleState = CycleState(table: Table, delivered: seq<Delivery>)

  /** Where a run ended: after the last row, or in the top-level handler (a
      row whose times do not parse aborts the rest of the run). */
  datatype CycleReport = CycleReport(state: CycleState, completed: bool)

  datatype CycleOutcome = Completed | BackedOff(delay: int)

  /** One `if not flag and window: try: send; update flag` block. The flag is
      written only after a successful send, and a failed write (caught by the
      same `except Exception`) leaves it clear. */
  function Notify(st: CycleState, r: Record, kind: Kind, due: set<Kind>, o: Oracle): (s: CycleState)
    ensures s.table.Keys == st.table.Keys
    ensures forall k | k in st.table && k != KeyOf(r) :: s.table[k] == st.table[k]
    ensures s.delivered == st.delivered || s.delivered == st.delivered + [Delivery(KeyOf(r), kind)]
  {
    var k := KeyOf(r);
    if kind in due && o.delivers(k, kind) then
      CycleState(if o.persists(k, kind) then SetFlag(st.table, k, kind, true) else st.table,
                 st.delivered + [Delivery(k, kind)])
    else st
  }

  /** The body of the loop for one row whose times parsed: skip it if the user
      cannot be resolved, otherwise run the four blocks in source order, all
      judged on the flags of the row as it was read. */
  function ProcessRecord(st: CycleState, r: Record, now: int, o: Oracle): (s: CycleState)
    ensures s.table.Keys == st.table.Keys
    ensures forall k | k in st.table && k != KeyOf(r) :: s.table[k] == st.table[k]
    ensures |st.delivered| <= |s.delivered| <= |st.delivered| + 4
  {
    if !o.resolves(KeyOf(r)) then st
    else
      var due := DueKinds(r, now);
      Notify(Notify(Notify(Notify(st, r, Reminder, due, o), r, GoodLuck, due, o), r, EndingSoon, due, o),
             r, Congratulations, due, o)
  }

  /** The `for event in all_events` loop over a snapshot of the rows. */
  function RunCycle(st: CycleState, snapshot: seq<Record>, now: int, o: Oracle): (report: CycleReport)
    ensures report.state.table.Keys == st.table.Keys
    decreases |snapshot|
  {
    if snapshot == [] then CycleReport(st, true)
    else if !o.parses(KeyOf(snapshot[0])) then CycleReport(st, false)
    else RunCycle(ProcessRecord(st, snapshot[0], now, o), snapshot[1..], now, o)
  }

  /** The snapshot is what `get_all_events_for_notifications` returns for `t`. */
  ghost predicate IsFullListing(snapshot: seq<Record>, t: Table) {
    && multiset(snapshot) == multiset(Selected(t, t.Keys, None))
    && Ordered(snapshot)
    && forall i | 0 <= i < |snapshot| :: KeyOf(snapshot[i]) in t && t[KeyOf(snapshot[i])] == snapshot[i]
  }

  /** One notification block against the store. */
  method SendIfDue(store: EventStore, r: Record, kind: Kind, due: set<Kind>, o: Oracle) returns (sent: bool)
    requires store.Valid()
    modifies store
    ensures store.Valid()
    ensures sent <==> kind in due && o.delivers(KeyOf(r), kind)
    ensures Notify(CycleState(old(store.table), []), r, kind, due, o).table == store.table
  {
    sent := false;
    if kind in due {
      sent := o.delivers(KeyOf(r), kind);
      if sent && o.persists(KeyOf(r), kind) {
        FlagColumnRoundTrip(kind);
        var _ := store.UpdateNotificationFlag(r.user_id, r.event_name, FlagColumn(kind), true);
      }
    }
  }

  /** The body of the loop for a row whose times parsed. */
  method HandleRow(store: EventStore, r: Record, now: int, o: Oracle, delivered: seq<Delivery>)
    returns (delivered': seq<Delivery>)
    requires store.Valid()
    modifies store
    ensures store.Valid()
    ensures CycleState(store.table, delivered') == ProcessRecord(CycleState(old(store.table), delivered), r, now, o)
  {
    delivered' := delivered;
    if !o.resolves(KeyOf(r)) {
      return;
    }
    var due := DueKinds(r, now);
    ghost var s0 := CycleState(store.table, delivered);
    var sent := SendIfDue(store, r, Reminder, due, o);
    if sent { delivered' := delivered' + [Delivery(KeyOf(r), Reminder)]; }
    ghost var s1 := CycleState(store.table, delivered');
    assert s1 == Notify(s0, r, Reminder, due, o);
    sent := SendIfDue(store, r, GoodLuck, due, o);
    if sent { delivered' := delivered' + [Delivery(KeyOf(r), GoodLuck)]; }
    ghost var s2 := CycleState(store.table, delivered');
    assert s2 == Notify(s1, r, GoodLuck, due, o);
    sent := SendIfDue(store, r, EndingSoon, due, o);
    if sent { delivered' := delivered' + [Delivery(KeyOf(r), EndingSoon)]; }
    ghost var s3 := CycleState(store.table, delivered');
    assert s3 == Notify(s2, r, EndingSoon, due, o);
    sent := SendIfDue(store, r, Congratulations, due, o);
    if sent { delivered' := delivered' + [Delivery(KeyOf(r), Congratulations)]; }
    assert CycleState(store.table, delivered') == Notify(s3, r, Congratulations, due, o);
  }

  /** One run of `check_events_loop`. A failure to read the table, or a row
      whose times do not parse, ends the run in the top-level handler, which
      backs off; rows handled before that keep their effects. */
  method CheckEventsCycle(store: EventStore, now: int, o: Oracle)
    returns (snapshot: seq<Record>, delivered: seq<Delivery>, outcome: CycleOutcome)
    requires store.Valid()
    modifies store
    ensures store.Valid()
    ensures outcome.BackedOff? ==> outcome.delay == BackoffSeconds
    ensures !o.fetchOk ==> outcome.BackedOff? && snapshot == [] && delivered == [] && store.table == old(store.table)
    ensures o.fetchOk ==> IsFullListing(snapshot, old(store.table))
    ensures o.fetchOk ==>
      var report := RunCycle(CycleState(old(store.table), []), snapshot, now, o);
      && store.table == report.state.table
      && delivered == report.state.delivered
      && (outcome == Completed <==> report.completed)
  {
    delivered := [];
    if !o.fetchOk {
      snapshot := [];
      outcome := BackedOff(BackoffSeconds);
      return;
    }
    snapshot := store.GetAllEventsForNotifications();
    ghost var whole := RunCycle(CycleState(store.table, []), snapshot, now, o);
    var i := 0;
    while i < |snapshot|
      invariant 0 <= i <= |snapshot|
      invariant store.Valid()
      invariant whole == RunCycle(CycleState(store.table, delivered), snapshot[i..], now, o)
    {
      var r := snapshot[i];
      assert snapshot[i..][0] == r && snapshot[i..][1..] == snapshot[i + 1..];
      if !o.parses(KeyOf(r)) {
        outcome := BackedOff(BackoffSeconds);
        return;
      }
      delivered := HandleRow(store, r, now, o, delivered);
      i := i + 1;
    }
    outcome := Completed;
  }

  datatype CleanupOutcome = Cleaned(count: nat) | CleanupFailed

  /** One run of `cleanup_past_events_loop`: delete the rows that ended more
      than a day ago; a failing store is logged and nothing is raised. */
  method CleanupPastEvents(store: EventStore, now: int, storeOk: bool) returns (outcome: CleanupOutcome)
    requires store.Valid()
    modifies store
    ensures store.Valid()
    ensures !storeOk ==> outcome == CleanupFailed && store.table == old(store.table)
    ensures storeOk ==>
      && store.table == old(store.table) - EndedBefore(old(store.table), now - RetentionSeconds)
      && outcome == Cleaned(|EndedBefore(old(store.table), now - RetentionSeconds)|)
  {
    if !storeOk {
      return CleanupFailed;
    }
    var count := store.RemovePastEvents(now);
    outcome := Cleaned(count);
  }
}
