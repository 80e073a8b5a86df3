/** What one run of `check_events_loop` guarantees, as lemmas about
    `RunCycle` (see NotificationService.dfy). Each lemma is stated for an
    arbitrary starting state so that it can be proved by induction over the
    snapshot; a run starts from `CycleState(table, [])`. */
module CycleProperties {
  import opened Wrappers
  import opened Records
  import opened Database
  import opened Evaluator
  import opened NotificationService

  /** Every flag set in `f` is set in `g`. */
  predicate FlagsRaised(f: Flags, g: Flags) {
    forall kind: Kind :: f.Get(kind) ==> g.Get(kind)
  }

  /** `t'` has the same rows as `t`, differing at most by flags going from 0 to 1. */
  ghost predicate OnlyRaised(t: Table, t': Table) {
    && t'.Keys == t.Keys
    && forall k | k in t :: t'[k] == t[k].(sent := t'[k].sent) && FlagsRaised(t[k].sent, t'[k].sent)
  }

  lemma OnlyRaisedTransitive(t1: Table, t2: Table, t3: Table)
    requires OnlyRaised(t1, t2) && OnlyRaised(t2, t3)
    ensures OnlyRaised(t1, t3)
  {
    forall k | k in t1
      ensures t3[k] == t1[k].(sent := t3[k].sent) && FlagsRaised(t1[k].sent, t3[k].sent)
    {
      assert FlagsRaised(t1[k].sent, t2[k].sent) && FlagsRaised(t2[k].sent, t3[k].sent);
    }
  }

  lemma NotifyOnlyRaises(st: CycleState, r: Record, kind: Kind, due: set<Kind>, o: Oracle)
    ensures OnlyRaised(st.table, Notify(st, r, kind, due, o).table)
  {
  }

  lemma ProcessRecordOnlyRaises(st: CycleState, r: Record, now: int, o: Oracle)
    ensures OnlyRaised(st.table, ProcessRecord(st, r, now, o).table)
  {
    if o.resolves(KeyOf(r)) {
      var due := DueKinds(r, now);
      var s1 := Notify(st, r, Reminder, due, o);
      var s2 := Notify(s1, r, GoodLuck, due, o);
      var s3 := Notify(s2, r, EndingSoon, due, o);
      NotifyOnlyRaises(st, r, Reminder, due, o);
      NotifyOnlyRaises(s1, r, GoodLuck, due, o);
      NotifyOnlyRaises(s2, r, EndingSoon, due, o);
      NotifyOnlyRaises(s3, r, Congratulations, due, o);
      OnlyRaisedTransitive(st.table, s1.table, s2.table);
      OnlyRaisedTransitive(st.table, s2.table, s3.table);
      OnlyRaisedTransitive(st.table, s3.table, ProcessRecord(st, r, now, o).table);
    }
  }

  /** A run deletes and inserts nothing, changes no field but the flags, and
      only ever writes 1 to a flag: flags are monotone. */
  lemma {:induction false} CycleOnlyRaisesFlags(st: CycleState, snapshot: seq<Record>, now: int, o: Oracle)
    ensures OnlyRaised(st.table, RunCycle(st, snapshot, now, o).state.table)
    decreases |snapshot|
  {
    if snapshot != [] && o.parses(KeyOf(snapshot[0])) {
      var st' := ProcessRecord(st, snapshot[0], now, o);
      ProcessRecordOnlyRaises(st, snapshot[0], now, o);
      CycleOnlyRaisesFlags(st', snapshot[1..], now, o);
      OnlyRaisedTransitive(st.table, st'.table, RunCycle(st', snapshot[1..], now, o).state.table);
    }
  }

  /** The messages sent so far are never taken back. */
  lemma {:induction false} CycleOnlyAppends(st: CycleState, snapshot: seq<Record>, now: int, o: Oracle)
    ensures var ds := RunCycle(st, snapshot, now, o).state.delivered;
      |st.delivered| <= |ds| && ds[..|st.delivered|] == st.delivered
    decreases |snapshot|
  {
    if snapshot != [] && o.parses(KeyOf(snapshot[0])) {
      var st' := ProcessRecord(st, snapshot[0], now, o);
      CycleOnlyAppends(st', snapshot[1..], now, o);
      var ds := RunCycle(st', snapshot[1..], now, o).state.delivered;
      assert ds[..|st.delivered|] == ds[..|st'.delivered|][..|st.delivered|];
    }
  }

  /** The flag that one notification block can newly set is its own kind of
      its own row, and only after the message went out and the write held. */
  lemma NotifyNewFlag(st: CycleState, r: Record, kind: Kind, due: set<Kind>, o: Oracle, k: Key, j: Kind)
    requires k in st.table && !st.table[k].sent.Get(j)
    requires Notify(st, r, kind, due, o).table[k].sent.Get(j)
    ensures k == KeyOf(r) && j == kind && o.persists(k, j)
    ensures Notify(st, r, kind, due, o).delivered == st.delivered + [Delivery(k, j)]
  {
  }

  lemma ProcessRecordNewFlag(st: CycleState, r: Record, now: int, o: Oracle, k: Key, j: Kind)
    requires k in st.table && !st.table[k].sent.Get(j)
    requires ProcessRecord(st, r, now, o).table[k].sent.Get(j)
    ensures k == KeyOf(r) && o.resolves(k) && o.persists(k, j)
    ensures Delivery(k, j) in ProcessRecord(st, r, now, o).delivered
  {
    if k != KeyOf(r) {
      assert false;
    }
    ProcessRecordRowEffect(st, r, now, o);
    assert Fires(r, j, now, o);
    DueIsDelivered(st, r, j, now, o);
  }

  /** A message that is due, for a resolved user, and goes out is among the
      row's deliveries. */
  lemma DueIsDelivered(st: CycleState, r: Record, kind: Kind, now: int, o: Oracle)
    requires o.resolves(KeyOf(r)) && kind in DueKinds(r, now) && o.delivers(KeyOf(r), kind)
    ensures Delivery(KeyOf(r), kind) in ProcessRecord(st, r, now, o).delivered
  {
    var due := DueKinds(r, now);
    var s1 := Notify(st, r, Reminder, due, o);
    var s2 := Notify(s1, r, GoodLuck, due, o);
    var s3 := Notify(s2, r, EndingSoon, due, o);
    var s4 := Notify(s3, r, Congratulations, due, o);
    assert ProcessRecord(st, r, now, o) == s4;
    var d := Delivery(KeyOf(r), kind);
    match kind
    case Reminder =>
      assert d in s1.delivered;
      StaysListed(d, s1.delivered, Delivery(KeyOf(r), GoodLuck), s2.delivered);
      StaysListed(d, s2.delivered, Delivery(KeyOf(r), EndingSoon), s3.delivered);
      StaysListed(d, s3.delivered, Delivery(KeyOf(r), Congratulations), s4.delivered);
    case GoodLuck =>
      assert d in s2.delivered;
      StaysListed(d, s2.delivered, Delivery(KeyOf(r), EndingSoon), s3.delivered);
      StaysListed(d, s3.delivered, Delivery(KeyOf(r), Congratulations), s4.delivered);
    case EndingSoon =>
      assert d in s3.delivered;
      StaysListed(d, s3.delivered, Delivery(KeyOf(r), Congratulations), s4.delivered);
    case Congratulations =>
      assert d in s4.delivered;
  }

  lemma StaysListed<T>(x: T, a: seq<T>, y: T, b: seq<T>)
    requires x in a
    requires b == a || b == a + [y]
    ensures x in b
  {
  }

  /** A flag that a run turns from 0 to 1 belongs to a message that the run
      delivered, to a resolved user, for a row whose times parsed, and whose
      flag write held. */
  lemma {:induction false} NewFlagMeansDelivered(st: CycleState, snapshot: seq<Record>, now: int, o: Oracle, k: Key, j: Kind)
    requires k in st.table && !st.table[k].sent.Get(j)
    requires RunCycle(st, snapshot, now, o).state.table[k].sent.Get(j)
    ensures Delivery(k, j) in RunCycle(st, snapshot, now, o).state.delivered
    ensures o.resolves(k) && o.parses(k) && o.persists(k, j)
    decreases |snapshot|
  {
    var r := snapshot[0];
    var st' := ProcessRecord(st, r, now, o);
    var final := RunCycle(st', snapshot[1..], now, o).state;
    ProcessRecordOnlyRaises(st, r, now, o);
    if st'.table[k].sent.Get(j) {
      ProcessRecordNewFlag(st, r, now, o, k, j);
      CycleOnlyAppends(st', snapshot[1..], now, o);
      var n := |st'.delivered|;
      assert Delivery(k, j) in final.delivered[..n];
    } else {
      NewFlagMeansDelivered(st', snapshot[1..], now, o, k, j);
    }
  }

  /** Handling row `r` leaves every other row alone and sends only for `r`. */
  lemma ProcessRecordFrame(st: CycleState, r: Record, now: int, o: Oracle)
    ensures var s := ProcessRecord(st, r, now, o);
      && (!o.resolves(KeyOf(r)) ==> s == st)
      && s.table.Keys == st.table.Keys
      && (forall k | k in st.table && k != KeyOf(r) :: s.table[k] == st.table[k])
      && |st.delivered| <= |s.delivered| && s.delivered[..|st.delivered|] == st.delivered
      && (forall j | |st.delivered| <= j < |s.delivered| :: s.delivered[j].key == KeyOf(r))
  {
    if o.resolves(KeyOf(r)) {
      var due := DueKinds(r, now);
      var s1 := Notify(st, r, Reminder, due, o);
      var s2 := Notify(s1, r, GoodLuck, due, o);
      var s3 := Notify(s2, r, EndingSoon, due, o);
      var s4 := Notify(s3, r, Congratulations, due, o);
      assert ProcessRecord(st, r, now, o) == s4;
      PrefixOfPrefix(st.delivered, s1.delivered, s2.delivered);
      PrefixOfPrefix(st.delivered, s2.delivered, s3.delivered);
      PrefixOfPrefix(st.delivered, s3.delivered, s4.delivered);
    }
  }

  /** A run never sends for, nor writes to, a row whose user cannot be
      resolved; the rows after it are still processed. */
  lemma {:induction false} UnresolvedUserIsSkipped(st: CycleState, snapshot: seq<Record>, now: int, o: Oracle, k: Key)
    requires k in st.table && !o.resolves(k)
    ensures RunCycle(st, snapshot, now, o).state.table[k] == st.table[k]
    ensures forall d | d in RunCycle(st, snapshot, now, o).state.delivered && d !in st.delivered :: d.key != k
    decreases |snapshot|
  {
    if snapshot != [] && o.parses(KeyOf(snapshot[0])) {
      var r := snapshot[0];
      var st' := ProcessRecord(st, r, now, o);
      ProcessRecordFrame(st, r, now, o);
      UnresolvedUserIsSkipped(st', snapshot[1..], now, o, k);
      var final := RunCycle(st', snapshot[1..], now, o).state;
      assert final == RunCycle(st, snapshot, now, o).state;
      forall d | d in final.delivered && d !in st.delivered
        ensures d.key != k
      {
        if d in st'.delivered {
          var j :| 0 <= j < |st'.delivered| && st'.delivered[j] == d;
        }
      }
    }
  }

  /** A run reaches the end of the snapshot exactly when every row's times
      parse; otherwise it stops at the first row that does not. */
  lemma {:induction false} CompletesIffAllParse(st: CycleState, snapshot: seq<Record>, now: int, o: Oracle)
    ensures RunCycle(st, snapshot, now, o).completed <==>
      forall i | 0 <= i < |snapshot| :: o.parses(KeyOf(snapshot[i]))
    decreases |snapshot|
  {
    if snapshot != [] && o.parses(KeyOf(snapshot[0])) {
      CompletesIffAllParse(ProcessRecord(st, snapshot[0], now, o), snapshot[1..], now, o);
      assert forall i | 1 <= i < |snapshot| :: snapshot[i] == snapshot[1..][i - 1];
    }
  }

  // ---- what is sent, and how often ----

  function Rank(k: Kind): nat {
    match k
    case Reminder => 0
    case GoodLuck => 1
    case EndingSoon => 2
    case Congratulations => 3
  }

  /** Message `d` answers row `r` at `now`: its kind was due on the row as read,
      the user resolved and the send succeeded. */
  ghost predicate Justified(d: Delivery, r: Record, now: int, o: Oracle) {
    d.key == KeyOf(r) && d.kind in DueKinds(r, now) && o.resolves(KeyOf(r)) && o.delivers(d.key, d.kind)
  }

  /** From index `from` on, `ds` holds messages answering row `r`, in strictly
      increasing kind order, all of kinds ranked below `bound`. */
  ghost predicate RowBatch(ds: seq<Delivery>, from: nat, r: Record, now: int, o: Oracle, bound: nat) {
    && from <= |ds|
    && (forall j | from <= j < |ds| :: Justified(ds[j], r, now, o) && Rank(ds[j].kind) < bound)
    && (forall i, j | from <= i < j < |ds| :: Rank(ds[i].kind) < Rank(ds[j].kind))
  }

  lemma NotifyBatch(st: CycleState, r: Record, kind: Kind, now: int, o: Oracle, from: nat)
    requires o.resolves(KeyOf(r))
    requires RowBatch(st.delivered, from, r, now, o, Rank(kind))
    ensures var ds := Notify(st, r, kind, DueKinds(r, now), o).delivered;
      RowBatch(ds, from, r, now, o, Rank(kind) + 1) && |st.delivered| <= |ds| &&
      ds[..|st.delivered|] == st.delivered
  {
  }

  /** The messages one row yields: each answers the row, and no kind twice. */
  lemma ProcessRecordBatch(st: CycleState, r: Record, now: int, o: Oracle)
    ensures var ds := ProcessRecord(st, r, now, o).delivered;
      RowBatch(ds, |st.delivered|, r, now, o, 4) && |st.delivered| <= |ds| &&
      ds[..|st.delivered|] == st.delivered
  {
    if o.resolves(KeyOf(r)) {
      var due := DueKinds(r, now);
      var n := |st.delivered|;
      var s1 := Notify(st, r, Reminder, due, o);
      var s2 := Notify(s1, r, GoodLuck, due, o);
      var s3 := Notify(s2, r, EndingSoon, due, o);
      NotifyBatch(st, r, Reminder, now, o, n);
      NotifyBatch(s1, r, GoodLuck, now, o, n);
      NotifyBatch(s2, r, EndingSoon, now, o, n);
      NotifyBatch(s3, r, Congratulations, now, o, n);
      var s4 := Notify(s3, r, Congratulations, due, o);
      assert ProcessRecord(st, r, now, o) == s4;
      PrefixOfPrefix(st.delivered, s1.delivered, s2.delivered);
      PrefixOfPrefix(st.delivered, s2.delivered, s3.delivered);
      PrefixOfPrefix(st.delivered, s3.delivered, s4.delivered);
    }
  }

  lemma PrefixOfPrefix<T>(a: seq<T>, b: seq<T>, c: seq<T>)
    requires |a| <= |b| <= |c| && b[..|a|] == a && c[..|b|] == b
    ensures c[..|a|] == a
  {
    assert c[..|b|][..|a|] == c[..|a|];
  }

  /** Every message a run sends answers some row of the snapshot whose times
      parsed: its kind was due, its user resolved, and the send succeeded. */
  lemma {:induction false} DeliveriesWereDue(st: CycleState, snapshot: seq<Record>, now: int, o: Oracle)
    ensures var ds := RunCycle(st, snapshot, now, o).state.delivered;
      forall j | |st.delivered| <= j < |ds| :: exists i | 0 <= i < |snapshot| ::
        Justified(ds[j], snapshot[i], now, o) && o.parses(KeyOf(snapshot[i]))
    decreases |snapshot|
  {
    CycleOnlyAppends(st, snapshot, now, o);
    if snapshot != [] && o.parses(KeyOf(snapshot[0])) {
      var st' := ProcessRecord(st, snapshot[0], now, o);
      ProcessRecordBatch(st, snapshot[0], now, o);
      DeliveriesWereDue(st', snapshot[1..], now, o);
      CycleOnlyAppends(st', snapshot[1..], now, o);
      var ds := RunCycle(st', snapshot[1..], now, o).state.delivered;
      forall j | |st.delivered| <= j < |ds|
        ensures exists i | 0 <= i < |snapshot| :: Justified(ds[j], snapshot[i], now, o) && o.parses(KeyOf(snapshot[i]))
      {
        if j < |st'.delivered| {
          assert ds[j] == ds[..|st'.delivered|][j] == st'.delivered[j];
          assert Justified(ds[j], snapshot[0], now, o);
        } else {
          var i :| 0 <= i < |snapshot[1..]| && Justified(ds[j], snapshot[1..][i], now, o) && o.parses(KeyOf(snapshot[1..][i]));
          assert snapshot[1..][i] == snapshot[i + 1];
        }
      }
    }
  }

  predicate DistinctKeys(snapshot: seq<Record>) {
    forall i, j | 0 <= i < j < |snapshot| :: KeyOf(snapshot[i]) != KeyOf(snapshot[j])
  }

  predicate NoRepeats(ds: seq<Delivery>) {
    forall i, j | 0 <= i < j < |ds| :: ds[i] != ds[j]
  }

  /** Over a snapshot with one row per key, a run sends each kind at most once
      per row. */
  lemma {:induction false} AtMostOncePerRow(st: CycleState, snapshot: seq<Record>, now: int, o: Oracle)
    requires DistinctKeys(snapshot) && NoRepeats(st.delivered)
    requires forall d, i | d in st.delivered && 0 <= i < |snapshot| :: d.key != KeyOf(snapshot[i])
    ensures NoRepeats(RunCycle(st, snapshot, now, o).state.delivered)
    decreases |snapshot|
  {
    if snapshot != [] && o.parses(KeyOf(snapshot[0])) {
      var r := snapshot[0];
      var st' := ProcessRecord(st, r, now, o);
      var n := |st.delivered|;
      ProcessRecordBatch(st, r, now, o);
      var ds := st'.delivered;
      forall i, j | 0 <= i < j < |ds| ensures ds[i] != ds[j] {
        if j < n {
          assert ds[i] == st.delivered[i] && ds[j] == st.delivered[j];
        } else if i < n {
          assert ds[i] == ds[..n][i] && ds[i] in st.delivered;
          assert ds[j].key == KeyOf(r);
        }
      }
      forall d, i | d in ds && 0 <= i < |snapshot[1..]| ensures d.key != KeyOf(snapshot[1..][i]) {
        var m :| 0 <= m < |ds| && ds[m] == d;
        assert snapshot[1..][i] == snapshot[i + 1];
        if m < n {
          assert ds[m] == ds[..n][m] && d in st.delivered;
        } else {
          assert d.key == KeyOf(snapshot[0]);
        }
      }
      AtMostOncePerRow(st', snapshot[1..], now, o);
    }
  }

  // ---- the effect of a completed run ----

  /** Whether a run writes flag `kind` of row `r`. */
  ghost predicate Fires(r: Record, kind: Kind, now: int, o: Oracle) {
    o.resolves(KeyOf(r)) && kind in DueKinds(r, now) && o.delivers(KeyOf(r), kind) && o.persists(KeyOf(r), kind)
  }

  /** Row `r` after a run that reached it. */
  ghost function AfterRun(r: Record, now: int, o: Oracle): Record {
    r.(sent := Flags(
      r.sent.reminder || Fires(r, Reminder, now, o),
      r.sent.goodLuck || Fires(r, GoodLuck, now, o),
      r.sent.endingSoon || Fires(r, EndingSoon, now, o),
      r.sent.congratulations || Fires(r, Congratulations, now, o)))
  }

  lemma NotifyEffect(st: CycleState, r: Record, kind: Kind, now: int, o: Oracle)
    requires o.resolves(KeyOf(r)) && KeyOf(r) in st.table
    ensures var row := st.table[KeyOf(r)];
      Notify(st, r, kind, DueKinds(r, now), o).table ==
        st.table[KeyOf(r) := row.(sent := row.sent.Set(kind, row.sent.Get(kind) || Fires(r, kind, now, o)))]
  {
    var row := st.table[KeyOf(r)];
    if !Fires(r, kind, now, o) {
      assert row.sent.Set(kind, row.sent.Get(kind)) == row.sent;
      assert st.table[KeyOf(r) := row] == st.table;
    }
  }

  lemma RowRewritten(t: Table, k: Key, base: Record, f: Flags, g: Flags)
    ensures t[k := base.(sent := f)][k := base.(sent := f).(sent := g)] == t[k := base.(sent := g)]
  {
  }

  /** The stored row `base` after the first `n` blocks for row `r`, in source
      order, have run. */
  ghost function PartialRun(base: Record, r: Record, now: int, o: Oracle, n: nat): Record {
    base.(sent := Flags(
      base.sent.reminder || (n > 0 && Fires(r, Reminder, now, o)),
      base.sent.goodLuck || (n > 1 && Fires(r, GoodLuck, now, o)),
      base.sent.endingSoon || (n > 2 && Fires(r, EndingSoon, now, o)),
      base.sent.congratulations || (n > 3 && Fires(r, Congratulations, now, o))))
  }

  /** Block number `Rank(kind)` takes the row from `PartialRun` at that rank
      to the next. */
  lemma NotifyStep(t: Table, st: CycleState, base: Record, r: Record, kind: Kind, now: int, o: Oracle)
    requires o.resolves(KeyOf(r)) && KeyOf(r) in t
    requires st.table == t[KeyOf(r) := PartialRun(base, r, now, o, Rank(kind))]
    ensures Notify(st, r, kind, DueKinds(r, now), o).table == t[KeyOf(r) := PartialRun(base, r, now, o, Rank(kind) + 1)]
  {
    var before := PartialRun(base, r, now, o, Rank(kind));
    var after := PartialRun(base, r, now, o, Rank(kind) + 1);
    NotifyEffect(st, r, kind, now, o);
    assert after.sent == before.sent.Set(kind, before.sent.Get(kind) || Fires(r, kind, now, o));
    RowRewritten(t, KeyOf(r), base, before.sent, after.sent);
  }

  /** Handling row `r` rewrites only the flags of its key: each flag whose
      block fired and whose write held is raised. */
  lemma {:induction false} ProcessRecordRowEffect(st: CycleState, r: Record, now: int, o: Oracle)
    requires KeyOf(r) in st.table
    ensures ProcessRecord(st, r, now, o).table ==
      st.table[KeyOf(r) := PartialRun(st.table[KeyOf(r)], r, now, o, 4)]
  {
    var k := KeyOf(r);
    var t := st.table;
    var base := t[k];
    if o.resolves(KeyOf(r)) {
      var due := DueKinds(r, now);
      var s1 := Notify(st, r, Reminder, due, o);
      var s2 := Notify(s1, r, GoodLuck, due, o);
      var s3 := Notify(s2, r, EndingSoon, due, o);
      assert ProcessRecord(st, r, now, o) == Notify(s3, r, Congratulations, due, o);
      assert PartialRun(base, r, now, o, 0) == base;
      assert t == t[k := PartialRun(base, r, now, o, 0)];
      NotifyStep(t, st, base, r, Reminder, now, o);
      NotifyStep(t, s1, base, r, GoodLuck, now, o);
      NotifyStep(t, s2, base, r, EndingSoon, now, o);
      NotifyStep(t, s3, base, r, Congratulations, now, o);
    } else {
      assert PartialRun(base, r, now, o, 4) == base;
      assert t[k := base] == t;
    }
  }

  lemma ProcessRecordEffect(st: CycleState, r: Record, now: int, o: Oracle)
    requires KeyOf(r) in st.table && st.table[KeyOf(r)] == r
    ensures ProcessRecord(st, r, now, o).table == st.table[KeyOf(r) := AfterRun(r, now, o)]
  {
    ProcessRecordRowEffect(st, r, now, o);
    assert PartialRun(r, r, now, o, 4) == AfterRun(r, now, o);
  }

  function KeysOf(snapshot: seq<Record>): set<Key> {
    set i | 0 <= i < |snapshot| :: KeyOf(snapshot[i])
  }

  /** `t` with every row whose key is in `keys` as `AfterRun` leaves it. */
  ghost function AfterRunOn(t: Table, keys: set<Key>, now: int, o: Oracle): Table {
    map k | k in t :: if k in keys then AfterRun(t[k], now, o) else t[k]
  }

  lemma AfterRunOnStep(t: Table, r: Record, keys: set<Key>, now: int, o: Oracle)
    requires KeyOf(r) in t && t[KeyOf(r)] == r && KeyOf(r) !in keys
    ensures AfterRunOn(t[KeyOf(r) := AfterRun(r, now, o)], keys, now, o) == AfterRunOn(t, {KeyOf(r)} + keys, now, o)
  {
  }

  lemma KeysOfCons(snapshot: seq<Record>)
    requires snapshot != []
    ensures KeysOf(snapshot) == {KeyOf(snapshot[0])} + KeysOf(snapshot[1..])
  {
    forall i | 0 <= i < |snapshot[1..]| ensures snapshot[1..][i] == snapshot[i + 1] {}
    forall k | k in KeysOf(snapshot) ensures k == KeyOf(snapshot[0]) || k in KeysOf(snapshot[1..]) {
      var i :| 0 <= i < |snapshot| && KeyOf(snapshot[i]) == k;
      if i > 0 { assert snapshot[1..][i - 1] == snapshot[i]; }
    }
  }

  /** A run over rows read from the table, with one row per key, that reaches
      the end leaves every row it read as `AfterRun` and every other row as it
      was: the order in which rows are visited does not matter. */
  lemma {:induction false} CompletedRunEffect(st: CycleState, snapshot: seq<Record>, now: int, o: Oracle)
    requires DistinctKeys(snapshot)
    requires forall i | 0 <= i < |snapshot| :: KeyOf(snapshot[i]) in st.table && st.table[KeyOf(snapshot[i])] == snapshot[i]
    requires RunCycle(st, snapshot, now, o).completed
    ensures RunCycle(st, snapshot, now, o).state.table == AfterRunOn(st.table, KeysOf(snapshot), now, o)
    decreases |snapshot|
  {
    if snapshot == [] {
      assert KeysOf(snapshot) == {};
      assert AfterRunOn(st.table, {}, now, o) == st.table;
    } else {
      var r := snapshot[0];
      var rest := snapshot[1..];
      var st' := ProcessRecord(st, r, now, o);
      ProcessRecordEffect(st, r, now, o);
      forall i | 0 <= i < |rest|
        ensures KeyOf(rest[i]) in st'.table && st'.table[KeyOf(rest[i])] == rest[i]
      {
        assert rest[i] == snapshot[i + 1];
      }
      assert DistinctKeys(rest) by {
        forall i | 0 <= i < |rest| ensures rest[i] == snapshot[i + 1] {}
      }
      CompletedRunEffect(st', rest, now, o);
      KeysOfCons(snapshot);
      assert KeyOf(r) !in KeysOf(rest) by {
        forall i | 0 <= i < |rest| ensures KeyOf(rest[i]) != KeyOf(r) {
          assert rest[i] == snapshot[i + 1];
        }
      }
      AfterRunOnStep(st.table, r, KeysOf(rest), now, o);
    }
  }

  lemma TwoOccurrences(s: seq<Record>, i: int, j: int)
    requires 0 <= i < j < |s| && s[i] == s[j]
    ensures multiset(s)[s[i]] >= 2
  {
    assert s == s[..j] + s[j..];
    assert s[i] in s[..j] && s[j] in s[j..];
  }

  /** The snapshot `get_all_events_for_notifications` returns holds every key
      of the table exactly once. */
  lemma {:induction false} FullListingKeys(snapshot: seq<Record>, t: Table)
    requires WellKeyed(t) && IsFullListing(snapshot, t)
    ensures DistinctKeys(snapshot) && KeysOf(snapshot) == t.Keys
  {
    var all := Selected(t, t.Keys, None);
    forall i, j | 0 <= i < j < |snapshot| ensures KeyOf(snapshot[i]) != KeyOf(snapshot[j]) {
      if KeyOf(snapshot[i]) == KeyOf(snapshot[j]) {
        TwoOccurrences(snapshot, i, j);
        assert false;
      }
    }
    forall k | k in t ensures k in KeysOf(snapshot) {
      assert t[k] in all;
      assert t[k] in multiset(snapshot);
      var i :| 0 <= i < |snapshot| && snapshot[i] == t[k];
    }
  }

  /** A run that reaches the end of the table's snapshot sets, in every row,
      exactly the flags whose message was due, delivered to a resolved user
      and written back. */
  lemma CompletedRunSetsExactly(t: Table, snapshot: seq<Record>, now: int, o: Oracle)
    requires WellKeyed(t) && IsFullListing(snapshot, t)
    requires RunCycle(CycleState(t, []), snapshot, now, o).completed
    ensures RunCycle(CycleState(t, []), snapshot, now, o).state.table == map k | k in t :: AfterRun(t[k], now, o)
  {
    FullListingKeys(snapshot, t);
    CompletedRunEffect(CycleState(t, []), snapshot, now, o);
    assert AfterRunOn(t, t.Keys, now, o) == map k | k in t :: AfterRun(t[k], now, o);
  }

  // ---- across runs ----

  lemma ProcessRecordMarks(st: CycleState, r: Record, now: int, o: Oracle, j: int)
    requires KeyOf(r) in st.table
    requires |st.delivered| <= j < |ProcessRecord(st, r, now, o).delivered|
    requires o.persists(ProcessRecord(st, r, now, o).delivered[j].key, ProcessRecord(st, r, now, o).delivered[j].kind)
    ensures var d := ProcessRecord(st, r, now, o).delivered[j];
      d.key == KeyOf(r) && ProcessRecord(st, r, now, o).table[d.key].sent.Get(d.kind)
  {
    var s := ProcessRecord(st, r, now, o);
    ProcessRecordBatch(st, r, now, o);
    ProcessRecordRowEffect(st, r, now, o);
    var d := s.delivered[j];
    assert Justified(d, r, now, o);
    assert Fires(r, d.kind, now, o);
  }

  /** A message whose flag write held is recorded: after the run its flag is
      set, so no later run sends it again. */
  lemma {:induction false} WrittenDeliveriesAreMarked(st: CycleState, snapshot: seq<Record>, now: int, o: Oracle)
    requires forall i | 0 <= i < |snapshot| :: KeyOf(snapshot[i]) in st.table
    ensures var rep := RunCycle(st, snapshot, now, o).state;
      forall j | |st.delivered| <= j < |rep.delivered| && o.persists(rep.delivered[j].key, rep.delivered[j].kind) ::
        rep.delivered[j].key in rep.table && rep.table[rep.delivered[j].key].sent.Get(rep.delivered[j].kind)
    decreases |snapshot|
  {
    if snapshot != [] && o.parses(KeyOf(snapshot[0])) {
      var r := snapshot[0];
      var st' := ProcessRecord(st, r, now, o);
      var rep := RunCycle(st', snapshot[1..], now, o).state;
      ProcessRecordOnlyRaises(st, r, now, o);
      CycleOnlyRaisesFlags(st', snapshot[1..], now, o);
      CycleOnlyAppends(st', snapshot[1..], now, o);
      forall i | 0 <= i < |snapshot[1..]| ensures KeyOf(snapshot[1..][i]) in st'.table {
        assert snapshot[1..][i] == snapshot[i + 1];
      }
      WrittenDeliveriesAreMarked(st', snapshot[1..], now, o);
      forall j | |st.delivered| <= j < |st'.delivered| && o.persists(rep.delivered[j].key, rep.delivered[j].kind)
        ensures rep.delivered[j].key in rep.table && rep.table[rep.delivered[j].key].sent.Get(rep.delivered[j].kind)
      {
        assert rep.delivered[j] == rep.delivered[..|st'.delivered|][j] == st'.delivered[j];
        ProcessRecordMarks(st, r, now, o, j);
        assert FlagsRaised(st'.table[KeyOf(r)].sent, rep.table[KeyOf(r)].sent);
      }
    }
  }

  /** At most once across runs, when the flag write holds: a message that a run
      delivered and recorded is not due in any later run. */
  lemma RecordedMessageIsNotResent(t: Table, snapshot: seq<Record>, now: int, o: Oracle, d: Delivery, later: int)
    requires WellKeyed(t) && IsFullListing(snapshot, t)
    requires d in RunCycle(CycleState(t, []), snapshot, now, o).state.delivered && o.persists(d.key, d.kind)
    ensures var t' := RunCycle(CycleState(t, []), snapshot, now, o).state.table;
      d.key in t' && d.kind !in DueKinds(t'[d.key], later)
  {
    WrittenDeliveriesAreMarked(CycleState(t, []), snapshot, now, o);
    var ds := RunCycle(CycleState(t, []), snapshot, now, o).state.delivered;
    var j :| 0 <= j < |ds| && ds[j] == d;
  }

  /** The converse when the write fails: a message that went out but whose
      flag write raised leaves the flag clear, so the next run inside the same
      window sends it again. */
  lemma FailedWriteAllowsResend(t: Table, snapshot: seq<Record>, now: int, o: Oracle, k: Key, kind: Kind, later: int)
    requires k in t && !t[k].sent.Get(kind) && !o.persists(k, kind)
    requires TriggerWindow(kind, t[k]).Contains(later)
    ensures var t' := RunCycle(CycleState(t, []), snapshot, now, o).state.table;
      k in t' && kind in DueKinds(t'[k], later)
  {
    var t' := RunCycle(CycleState(t, []), snapshot, now, o).state.table;
    CycleOnlyRaisesFlags(CycleState(t, []), snapshot, now, o);
    if t'[k].sent.Get(kind) {
      NewFlagMeansDelivered(CycleState(t, []), snapshot, now, o, k, kind);
      assert false;
    }
    var row := t'[k];
    assert row.start_time == t[k].start_time && row.end_time == t[k].end_time;
    assert TriggerWindow(kind, row) == TriggerWindow(kind, t[k]);
    OpenWindowIsDue(row, kind, later);
  }
}
