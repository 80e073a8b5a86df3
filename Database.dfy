/** The `user_events` table of utils/database.py as an object holding a map
    from the primary key (user_id, event_name) to the row. Each store
    operation of the module is a method of `EventStore`. */
module Database {
  import opened Wrappers
  import opened Records

  type Table = map<Key, Record>

  /** `remove_past_events` keeps events for one day after their end. */
  const RetentionSeconds: int := 24 * 60 * 60

  /** Every row sits under its own primary key. */
  ghost predicate WellKeyed(t: Table) {
    forall k | k in t :: KeyOf(t[k]) == k
  }

  /** The UPDATE of one flag column of one row; a missing key updates nothing. */
  function SetFlag(t: Table, k: Key, kind: Kind, v: bool): (t': Table)
    ensures t'.Keys == t.Keys
    ensures forall j | j in t && j != k :: t'[j] == t[j]
    ensures k in t ==> t'[k] == t[k].(sent := t'[k].sent)
    ensures k in t ==> t'[k].sent.Get(kind) == v
    ensures k in t ==> forall other: Kind | other != kind :: t'[k].sent.Get(other) == t[k].sent.Get(other)
  {
    if k in t then t[k := t[k].(sent := t[k].sent.Set(kind, v))] else t
  }

  /** The keys a `DELETE ... WHERE user_id = ?` removes. */
  function UserKeys(t: Table, user: int): set<Key> {
    set k | k in t && k.0 == user
  }

  /** The keys a `DELETE ... WHERE end_time < cutoff` removes. */
  function EndedBefore(t: Table, cutoff: int): set<Key> {
    set k | k in t && t[k].end_time < cutoff
  }

  /** Deleting a set of existing keys shrinks the table by exactly that many
      rows, which is the `rowcount` the deletes report. */
  lemma {:induction false} DeleteCount(t: Table, gone: set<Key>)
    requires gone <= t.Keys
    ensures |t - gone| == |t| - |gone|
  {
    var rest := t - gone;
    assert rest.Keys == t.Keys - gone;
    assert t.Keys == rest.Keys + gone;
    assert rest.Keys !! gone;
  }

  // ---- ordering of the listings ----

  /** ORDER BY user_id, start_time ASC. Ties are left in no particular order,
      as SQL leaves them. */
  predicate ListedBefore(a: Record, b: Record) {
    a.user_id < b.user_id || (a.user_id == b.user_id && a.start_time <= b.start_time)
  }

  predicate Ordered(s: seq<Record>) {
    forall i, j | 0 <= i < j < |s| :: ListedBefore(s[i], s[j])
  }

  /** A row listed before every row of an ordered listing can head it. */
  lemma PrependOrdered(x: Record, s: seq<Record>)
    requires Ordered(s)
    requires forall y | y in s :: ListedBefore(x, y)
    ensures Ordered([x] + s)
  {
    forall i, j | 0 <= i < j < |[x] + s| ensures ListedBefore(([x] + s)[i], ([x] + s)[j]) {
      assert ([x] + s)[j] == s[j - 1];
      if i > 0 {
        assert ([x] + s)[i] == s[i - 1];
      }
    }
  }

  /** Places one row into an ordered listing. */
  function InsertOrdered(s: seq<Record>, x: Record): (r: seq<Record>)
    requires Ordered(s)
    ensures Ordered(r)
    ensures multiset(r) == multiset(s) + multiset{x}
    ensures forall y | y in r :: y == x || y in s
  {
    if s == [] then [x]
    else if ListedBefore(x, s[0]) then
      PrependOrdered(x, s);
      [x] + s
    else
      var tail := InsertOrdered(s[1..], x);
      assert s == [s[0]] + s[1..];
      assert forall y | y in s[1..] :: ListedBefore(s[0], y);
      PrependOrdered(s[0], tail);
      [s[0]] + tail
  }

  /** The rows selected from the keys `keys`, all of them when `owner` is None,
      only those of one user otherwise. */
  function Selected(t: Table, keys: set<Key>, owner: Option<int>): set<Record> {
    set k | k in keys && k in t && Owns(owner, k) :: t[k]
  }

  predicate Owns(owner: Option<int>, k: Key) {
    owner.None? || k.0 == owner.value
  }

  /** Selecting one more key adds its row exactly when the owner matches. */
  lemma SelectOneMore(t: Table, keys: set<Key>, k: Key, owner: Option<int>)
    requires WellKeyed(t) && k in t && k !in keys
    ensures multiset(Selected(t, keys + {k}, owner)) ==
      multiset(Selected(t, keys, owner)) + (if Owns(owner, k) then multiset{t[k]} else multiset{})
  {
    if Owns(owner, k) {
      assert t[k] !in Selected(t, keys, owner);
      assert Selected(t, keys + {k}, owner) == Selected(t, keys, owner) + {t[k]};
    } else {
      assert Selected(t, keys + {k}, owner) == Selected(t, keys, owner);
    }
  }

  class EventStore {
    var table: Table

    ghost predicate Valid()
      reads this
    {
      WellKeyed(table)
    }

    /** `initialize_database` on a fresh database: an empty table (`CREATE TABLE IF NOT EXISTS` keeps the rows of an existing one). */
    constructor ()
      ensures Valid() && table == map[]
    {
      table := map[];
    }

    /** `add_event_to_user`: INSERT, failing on the primary key. A new row has
        all four flags at 0; a duplicate leaves the stored row as it was. */
    method AddEventToUser(user: int, d: EventData) returns (added: bool)
      requires Valid()
      modifies this
      ensures Valid()
      ensures added <==> (user, d.event_name) !in old(table)
      ensures added ==> table == old(table)[(user, d.event_name) := NewRecord(user, d)]
      ensures !added ==> table == old(table)
    {
      var key := (user, d.event_name);
      if key in table {
        added := false;
      } else {
        table := table[key := NewRecord(user, d)];
        added := true;
      }
    }

    /** `get_event_details`: the row under the key, or None. */
    method GetEventDetails(user: int, name: string) returns (r: Option<Record>)
      requires Valid()
      ensures r.Some? <==> (user, name) in table
      ensures r.Some? ==> r.value == table[(user, name)]
      ensures r.Some? ==> r.value.user_id == user && r.value.event_name == name
    {
      var key := (user, name);
      if key in table {
        r := Some(table[key]);
      } else {
        r := None;
      }
    }

    /** The SELECT shared by both listings: every selected row exactly once, in
        (user_id, start_time) order. */
    method Scan(owner: Option<int>) returns (rs: seq<Record>)
      requires Valid()
      ensures Ordered(rs)
      ensures multiset(rs) == multiset(Selected(table, table.Keys, owner))
    {
      rs := [];
      var rest := table.Keys;
      while rest != {}
        invariant rest <= table.Keys
        invariant Ordered(rs)
        invariant multiset(rs) == multiset(Selected(table, table.Keys - rest, owner))
        decreases |rest|
      {
        var k :| k in rest;
        SelectOneMore(table, table.Keys - rest, k, owner);
        assert table.Keys - (rest - {k}) == (table.Keys - rest) + {k};
        if Owns(owner, k) {
          rs := InsertOrdered(rs, table[k]);
        }
        rest := rest - {k};
      }
      assert table.Keys - rest == table.Keys;
    }

    /** `get_user_events`: exactly the user's rows, each once, by start_time. */
    method GetUserEvents(user: int) returns (rs: seq<Record>)
      requires Valid()
      ensures multiset(rs) == multiset(Selected(table, table.Keys, Some(user)))
      ensures forall i | 0 <= i < |rs| :: KeyOf(rs[i]) in table && table[KeyOf(rs[i])] == rs[i] && rs[i].user_id == user
      ensures forall i, j | 0 <= i < j < |rs| :: rs[i].start_time <= rs[j].start_time
    {
      rs := Scan(Some(user));
      forall i | 0 <= i < |rs|
        ensures KeyOf(rs[i]) in table && table[KeyOf(rs[i])] == rs[i] && rs[i].user_id == user
      {
        assert rs[i] in multiset(rs);
      }
    }

    /** `get_all_events_for_notifications`: every row exactly once, by
        (user_id, start_time). */
    method GetAllEventsForNotifications() returns (rs: seq<Record>)
      requires Valid()
      ensures multiset(rs) == multiset(Selected(table, table.Keys, None))
      ensures Ordered(rs)
      ensures forall i | 0 <= i < |rs| :: KeyOf(rs[i]) in table && table[KeyOf(rs[i])] == rs[i]
    {
      rs := Scan(None);
      forall i | 0 <= i < |rs|
        ensures KeyOf(rs[i]) in table && table[KeyOf(rs[i])] == rs[i]
      {
        assert rs[i] in multiset(rs);
      }
    }

    /** `remove_event_from_user`: DELETE one key; true iff a row went. */
    method RemoveEventFromUser(user: int, name: string) returns (removed: bool)
      requires Valid()
      modifies this
      ensures Valid()
      ensures removed <==> (user, name) in old(table)
      ensures table == old(table) - {(user, name)}
    {
      removed := (user, name) in table;
      table := table - {(user, name)};
    }

    /** `clear_user_events`: DELETE all of one user's rows, returning how many. */
    method ClearUserEvents(user: int) returns (count: nat)
      requires Valid()
      modifies this
      ensures Valid()
      ensures table == old(table) - UserKeys(old(table), user)
      ensures count == |UserKeys(old(table), user)| == |old(table)| - |table|
    {
      var gone := UserKeys(table, user);
      DeleteCount(table, gone);
      table := table - gone;
      count := |gone|;
    }

    /** `update_notification_flag`: an unknown column name is refused before
        the table is touched; otherwise one flag of one row is written, and a
        missing key changes nothing. */
    method UpdateNotificationFlag(user: int, name: string, column: string, value: bool)
      returns (r: Result<(), string>)
      requires Valid()
      modifies this
      ensures Valid()
      ensures r.Err? <==> KindOfColumn(column).None?
      ensures r.Err? ==> table == old(table)
      ensures r.Ok? ==> table == SetFlag(old(table), (user, name), KindOfColumn(column).value, value)
    {
      var kind := KindOfColumn(column);
      if kind.None? {
        return Err("Invalid flag name");
      }
      table := SetFlag(table, (user, name), kind.value, value);
      r := Ok(());
    }

    /** `remove_past_events`: DELETE the rows that ended more than a day
        before `now`, returning how many. */
    method RemovePastEvents(now: int) returns (count: nat)
      requires Valid()
      modifies this
      ensures Valid()
      ensures table == old(table) - EndedBefore(old(table), now - RetentionSeconds)
      ensures count == |EndedBefore(old(table), now - RetentionSeconds)| == |old(table)| - |table|
    {
      var gone := EndedBefore(table, now - RetentionSeconds);
      DeleteCount(table, gone);
      table := table - gone;
      count := |gone|;
    }
  }

  /** Retention never drops a row that ended within the last day, and drops
      every row that ended before that. */
  lemma RetentionBoundary(t: Table, now: int, k: Key)
    requires k in t
    ensures k in t - EndedBefore(t, now - RetentionSeconds) <==> t[k].end_time + RetentionSeconds >= now
  {
  }

  /** Inserting a fresh key then reading it back gives the dictionary's data
      with all flags clear; a duplicate insert leaves the earlier row readable. */
  lemma InsertThenLookup(t: Table, user: int, d: EventData)
    ensures (user, d.event_name) !in t ==>
      var r := t[(user, d.event_name) := NewRecord(user, d)][(user, d.event_name)];
      r.ctftime_url == d.ctftime_url && r.event_url == d.url && r.start_time == d.start &&
      r.end_time == d.finish && r.format == d.format && r.organizers == d.organizers &&
      r.weight == d.weight && r.description == d.description && r.participants == d.participants &&
      r.sent == NoneSent
  {
  }
}
