/** The decisions of the slash commands in cogs/event_commands.py: reading an
    event id out of a CTFtime URL, refusing finished events and custom events
    that end before they start, building the rows that `/custom` and `/share`
    insert, and the autocomplete filter. Discord interactions, embeds and
    direct messages are outside the model. */
module EventCommands {
  import opened Wrappers
  import opened Records
  import Decimal
  import Database
  import CtftimeApi

  // ---- the CTFtime URL pattern `https?://ctftime.org/event/(\d+)` ----

  /** What follows `https://` or `http://` at the start of the URL. */
  function AfterScheme(url: string): (rest: Option<string>)
    ensures rest.Some? ==> url == "https://" + rest.value || url == "http://" + rest.value
    ensures rest.Some? ==> |rest.value| < |url| && rest.value == url[|url| - |rest.value|..]
    ensures rest.None? <==>
      !(|url| >= 8 && url[..8] == "https://") && !(|url| >= 7 && url[..7] == "http://")
  {
    if |url| >= 8 && url[..8] == "https://" then
      assert url == url[..8] + url[8..];
      Some(url[8..])
    else if |url| >= 7 && url[..7] == "http://" then
      assert url == url[..7] + url[7..];
      Some(url[7..])
    else None
  }

  /** `ctftime.org/event/` with the unescaped `.` matching any character but a
      newline, as `re` reads it. */
  const HostPathLength: nat := 18

  /** The 18 characters after the scheme. */
  predicate HostPathMatches(host: string) {
    |host| == HostPathLength && host[..7] == "ctftime" && host[7] != '\n' && host[8..] == "org/event/"
  }

  /** The id read from what follows the scheme: host and path, then the
      greedy run of digits. */
  function IdAfterScheme(rest: string): Option<nat> {
    if |rest| < HostPathLength || !HostPathMatches(rest[..HostPathLength]) then None
    else
      var digits := Decimal.LeadingDigits(rest[HostPathLength..]);
      if digits == [] then None else Some(Decimal.DigitsValue(digits))
  }

  /** `int(re.match(CTFTIME_EVENT_URL_REGEX, url).group(1))`: the pattern is
      anchored at the start only, `\d+` takes every digit that follows, and
      anything after the digits is ignored. None when the URL does not match. */
  function ExtractEventId(url: string): (id: Option<nat>)
    ensures id.Some? ==> AfterScheme(url).Some?
  {
    match AfterScheme(url)
    case None => None
    case Some(rest) => IdAfterScheme(rest)
  }

  lemma SchemeIsStripped(secure: bool, after: string)
    ensures AfterScheme((if secure then "https://" else "http://") + after) == Some(after)
  {
    var scheme := if secure then "https://" else "http://";
    var url := scheme + after;
    assert url[..|scheme|] == scheme;
    assert url[|scheme|..] == after;
    if !secure {
      assert url[4] == ':';
    }
  }

  /** After a matching host and path, the id is the numeral that follows. */
  lemma HostThenNumeral(host: string, digits: string, tail: string)
    requires HostPathMatches(host)
    requires digits != [] && Decimal.AllDigits(digits)
    requires tail == [] || !Decimal.IsDigit(tail[0])
    ensures IdAfterScheme(host + digits + tail) == Some(Decimal.DigitsValue(digits))
  {
    var rest := host + digits + tail;
    assert rest[..HostPathLength] == host;
    assert rest[HostPathLength..] == digits + tail;
    Decimal.LeadingDigitsOfNumeral(digits, tail);
  }

  /** Because the dot of `ctftime.org` is not escaped, any character but a
      newline is accepted in its place, and the id is still the numeral that
      follows the path. */
  lemma DotMatchesAnyCharacter(secure: bool, c: char, n: nat, rest: string)
    requires c != '\n'
    requires rest == [] || !Decimal.IsDigit(rest[0])
    ensures var scheme := if secure then "https://" else "http://";
      ExtractEventId(scheme + "ctftime" + [c] + "org/event/" + Decimal.NatToString(n) + rest) == Some(n)
  {
    var scheme := if secure then "https://" else "http://";
    var host := "ctftime" + [c] + "org/event/";
    var digits := Decimal.NatToString(n);
    assert host[..7] == "ctftime" && host[7] == c && host[8..] == "org/event/";
    var after := host + digits + rest;
    assert scheme + "ctftime" + [c] + "org/event/" + digits + rest == scheme + after;
    SchemeIsStripped(secure, after);
    HostThenNumeral(host, digits, rest);
  }

  /** A newline is the one character the unescaped dot does not match. */
  lemma NewlineInHostIsRefused(secure: bool, tail: string)
    ensures var scheme := if secure then "https://" else "http://";
      ExtractEventId(scheme + "ctftime" + ['\n'] + tail) == None
  {
    var scheme := if secure then "https://" else "http://";
    var after := "ctftime" + ['\n'] + tail;
    assert scheme + "ctftime" + ['\n'] + tail == scheme + after;
    SchemeIsStripped(secure, after);
    if |after| >= HostPathLength {
      assert after[..HostPathLength][7] == '\n';
    }
  }

  /** The canonical event URL (either scheme), optionally followed by text that
      does not start with a digit, yields the id it was written with. */
  lemma EventUrlRoundTrip(secure: bool, n: nat, rest: string)
    requires rest == [] || !Decimal.IsDigit(rest[0])
    ensures var scheme := if secure then "https://" else "http://";
      ExtractEventId(scheme + "ctftime.org/event/" + Decimal.NatToString(n) + rest) == Some(n)
  {
    var scheme := if secure then "https://" else "http://";
    var digits := Decimal.NatToString(n);
    var after := "ctftime.org/event/" + digits + rest;
    assert scheme + "ctftime.org/event/" + digits + rest == scheme + after;
    SchemeIsStripped(secure, after);
    CanonicalHostMatches();
    HostThenNumeral("ctftime.org/event/", digits, rest);
  }

  lemma CanonicalHostMatches()
    ensures HostPathMatches("ctftime.org/event/")
  {
    var host := "ctftime.org/event/";
    assert host[..7] == "ctftime";
    assert host[8..] == "org/event/";
  }

  /** `ctftime`, the character standing for the dot, `org/event/`. */
  function Host(c: char): string {
    "ctftime" + [c] + "org/event/"
  }

  lemma HostMatches(c: char)
    requires c != '\n'
    ensures HostPathMatches(Host(c))
  {
    var host := Host(c);
    assert host[..7] == "ctftime" && host[7] == c && host[8..] == "org/event/";
  }

  lemma MatchingHostIsHost(host: string)
    requires HostPathMatches(host)
    ensures host == Host(host[7])
  {
    assert host == host[..7] + [host[7]] + host[8..];
  }

  /** `url` is a scheme, `ctftime`, one character other than a newline,
      `org/event/`, a numeral and a tail that does not continue it. */
  predicate IsEventUrl(url: string, scheme: string, c: char, digits: string, tail: string) {
    && (scheme == "https://" || scheme == "http://")
    && c != '\n'
    && digits != [] && Decimal.AllDigits(digits)
    && (tail == [] || !Decimal.IsDigit(tail[0]))
    && url == scheme + (Host(c) + (digits + tail))
  }

  /** Every URL of that shape yields the value of its numeral. */
  lemma EventUrlYieldsItsId(url: string, scheme: string, c: char, digits: string, tail: string)
    requires IsEventUrl(url, scheme, c, digits, tail)
    ensures ExtractEventId(url) == Some(Decimal.DigitsValue(digits))
  {
    var after := Host(c) + (digits + tail);
    SchemeIsStripped(scheme == "https://", after);
    HostMatches(c);
    assert after == Host(c) + digits + tail;
    HostThenNumeral(Host(c), digits, tail);
  }

  /** Conversely, a URL the pattern accepts has that shape, and its id is the
      value of the numeral in it. */
  lemma ExtractedIdComesFromEventUrl(url: string)
    requires ExtractEventId(url).Some?
    ensures exists scheme, c, digits, tail | IsEventUrl(url, scheme, c, digits, tail) ::
      ExtractEventId(url) == Some(Decimal.DigitsValue(digits))
  {
    var rest := AfterScheme(url).value;
    var scheme := if url == "https://" + rest then "https://" else "http://";
    assert url == scheme + rest;
    var host := rest[..HostPathLength];
    MatchingHostIsHost(host);
    var c := host[7];
    var after := rest[HostPathLength..];
    var digits := Decimal.LeadingDigits(after);
    var tail := after[|digits|..];
    assert after == digits + tail;
    assert rest == host + after;
    assert IsEventUrl(url, scheme, c, digits, tail);
  }

  /** The two directions together: the pattern accepts exactly the URLs of
      that shape. */
  lemma AcceptedIffEventUrl(url: string)
    ensures ExtractEventId(url).Some? <==> exists scheme, c, digits, tail :: IsEventUrl(url, scheme, c, digits, tail)
  {
    if ExtractEventId(url).Some? {
      ExtractedIdComesFromEventUrl(url);
    } else if exists scheme, c, digits, tail :: IsEventUrl(url, scheme, c, digits, tail) {
      var scheme, c, digits, tail :| IsEventUrl(url, scheme, c, digits, tail);
      EventUrlYieldsItsId(url, scheme, c, digits, tail);
      assert false;
    }
  }

  /** A URL whose id is not there is refused. */
  lemma MissingIdIsRefused(secure: bool, rest: string)
    requires rest == [] || !Decimal.IsDigit(rest[0])
    ensures var scheme := if secure then "https://" else "http://";
      ExtractEventId(scheme + "ctftime.org/event/" + rest) == None
  {
    var scheme := if secure then "https://" else "http://";
    var after := "ctftime.org/event/" + rest;
    SchemeIsStripped(secure, after);
    assert scheme + "ctftime.org/event/" + rest == scheme + after;
    assert after[HostPathLength..] == rest;
    if rest != [] {
      assert Decimal.LeadingDigits(rest) == [];
    }
  }

  // ---- /add ----

  datatype AddError = InvalidUrl | FetchFailed | AlreadyFinished

  /** The checks of `add_event` before the insert. `catalog` stands for the
      CTFtime response for an id (None when the request fails); the event is
      what `fetch_event_details` makes of it, and an event that finished
      strictly before `now` is refused. */
  function PrepareAddEvent(url: string, catalog: nat -> Option<CtftimeApi.ApiEvent>, now: int)
    : (r: Result<EventData, AddError>)
    ensures r == Err(InvalidUrl) <==> ExtractEventId(url).None?
    ensures r == Err(FetchFailed) <==>
      ExtractEventId(url).Some? && CtftimeApi.FetchEventDetails(catalog(ExtractEventId(url).value)).None?
    ensures r == Err(AlreadyFinished) <==>
      && ExtractEventId(url).Some?
      && CtftimeApi.FetchEventDetails(catalog(ExtractEventId(url).value)).Some?
      && CtftimeApi.FetchEventDetails(catalog(ExtractEventId(url).value)).value.finish < now
    ensures r.Ok? ==>
      && ExtractEventId(url).Some?
      && CtftimeApi.FetchEventDetails(catalog(ExtractEventId(url).value)) == Some(r.value)
      && r.value.finish >= now
  {
    match ExtractEventId(url)
    case None => Err(InvalidUrl)
    case Some(id) =>
      match CtftimeApi.FetchEventDetails(catalog(id))
      case None => Err(FetchFailed)
      case Some(d) => if d.finish < now then Err(AlreadyFinished) else Ok(d)
  }

  datatype AddOutcome = Refused(error: AddError) | Added(data: EventData) | AlreadyInAgenda(data: EventData)

  /** `add_event`: a refused URL or event never reaches the store. */
  method AddEvent(store: Database.EventStore, user: int, url: string,
                  catalog: nat -> Option<CtftimeApi.ApiEvent>, now: int)
    returns (outcome: AddOutcome)
    requires store.Valid()
    modifies store
    ensures store.Valid()
    ensures PrepareAddEvent(url, catalog, now).Err? ==>
      outcome == Refused(PrepareAddEvent(url, catalog, now).error) && store.table == old(store.table)
    ensures PrepareAddEvent(url, catalog, now).Ok? ==>
      var d := PrepareAddEvent(url, catalog, now).value;
      && (outcome == Added(d) <==> (user, d.event_name) !in old(store.table))
      && (outcome.Added? ==> store.table == old(store.table)[(user, d.event_name) := NewRecord(user, d)])
      && (!outcome.Added? ==> outcome == AlreadyInAgenda(d) && store.table == old(store.table))
  {
    var prepared := PrepareAddEvent(url, catalog, now);
    if prepared.Err? {
      return Refused(prepared.error);
    }
    var added := store.AddEventToUser(user, prepared.value);
    outcome := if added then Added(prepared.value) else AlreadyInAgenda(prepared.value);
  }

  // ---- /custom ----

  datatype CustomError = InvalidDateFormat | StartNotBeforeEnd

  /** The checks and the dictionary of `create_custom_event`. `start` and
      `end` are what `datetime.fromisoformat` makes of the two texts (None when
      it raises ValueError). */
  function BuildCustomEvent(name: string, start: Option<int>, end: Option<int>,
                            description: Option<string>, url: Option<string>)
    : (r: Result<EventData, CustomError>)
    ensures r == Err(InvalidDateFormat) <==> start.None? || end.None?
    ensures r == Err(StartNotBeforeEnd) <==> start.Some? && end.Some? && start.value >= end.value
    ensures r.Ok? ==>
      && start.Some? && end.Some?
      && r.value.event_name == name && r.value.start == start.value && r.value.finish == end.value
      && r.value.start < r.value.finish
      && r.value.url == url && r.value.description == description
      && r.value.ctftime_url.None? && r.value.format.None? && r.value.organizers.None?
      && r.value.weight.None? && r.value.participants.None?
  {
    if start.None? || end.None? then Err(InvalidDateFormat)
    else if start.value >= end.value then Err(StartNotBeforeEnd)
    else Ok(EventData(name, None, url, start.value, end.value, None, None, None, description, None))
  }

  datatype CustomOutcome = CustomRefused(error: CustomError) | CustomAdded | CustomAlreadyInAgenda

  /** `create_custom_event`: a refused event never reaches the store. */
  method CreateCustomEvent(store: Database.EventStore, user: int, name: string,
                           start: Option<int>, end: Option<int>,
                           description: Option<string>, url: Option<string>)
    returns (outcome: CustomOutcome)
    requires store.Valid()
    modifies store
    ensures store.Valid()
    ensures var built := BuildCustomEvent(name, start, end, description, url);
      && (built.Err? ==> outcome == CustomRefused(built.error) && store.table == old(store.table))
      && (built.Ok? ==>
            && (outcome == CustomAdded <==> (user, name) !in old(store.table))
            && (outcome == CustomAdded ==> store.table == old(store.table)[(user, name) := NewRecord(user, built.value)])
            && (outcome != CustomAdded ==> outcome == CustomAlreadyInAgenda && store.table == old(store.table)))
  {
    var built := BuildCustomEvent(name, start, end, description, url);
    if built.Err? {
      return CustomRefused(built.error);
    }
    var added := store.AddEventToUser(user, built.value);
    outcome := if added then CustomAdded else CustomAlreadyInAgenda;
  }

  // ---- /share ----

  /** The dictionary `share_event` builds from a stored row: stored under
      any owner, it is the row itself under that owner with its flags
      cleared, so every column but the owner and the flags survives. */
  function ShareData(r: Record): (d: EventData)
    ensures d.event_name == r.event_name
    ensures forall u :: NewRecord(u, d) == r.(user_id := u, sent := NoneSent)
  {
    EventData(r.event_name, r.ctftime_url, r.event_url, r.start_time, r.end_time,
              r.format, r.organizers, r.weight, r.description, r.participants)
  }

  datatype ShareOutcome = NotInAgenda | Shared | TargetAlreadyHasIt

  /** `share_event`: copy the sender's row under the target user, unless the
      sender has no such event or the target already has one of that name. */
  method ShareEvent(store: Database.EventStore, sender: int, name: string, target: int)
    returns (outcome: ShareOutcome)
    requires store.Valid()
    modifies store
    ensures store.Valid()
    ensures (sender, name) !in old(store.table) ==> outcome == NotInAgenda && store.table == old(store.table)
    ensures (sender, name) in old(store.table) ==>
      && (outcome == Shared <==> (target, name) !in old(store.table))
      && (outcome == Shared ==>
            store.table == old(store.table)[(target, name) := old(store.table)[(sender, name)].(user_id := target, sent := NoneSent)])
      && (outcome != Shared ==> outcome == TargetAlreadyHasIt && store.table == old(store.table))
  {
    var event := store.GetEventDetails(sender, name);
    if event.None? {
      return NotInAgenda;
    }
    var d := ShareData(event.value);
    var added := store.AddEventToUser(target, d);
    outcome := if added then Shared else TargetAlreadyHasIt;
  }

  // ---- autocomplete ----

  datatype Choice = Choice(name: string, value: string)

  /** Discord's limits: 25 choices, and the display names are cut to 99
      characters. */
  const MaxChoices: nat := 25
  const MaxDisplayLength: nat := 99

  predicate OccursAt(p: string, s: string, i: nat) {
    i + |p| <= |s| && s[i..i + |p|] == p
  }

  /** Python's `p in s` on strings. */
  predicate IsSubstring(p: string, s: string) {
    exists i: nat | i <= |s| :: OccursAt(p, s, i)
  }

  /** `s[:99]`. */
  function Truncate(s: string): (t: string)
    ensures |t| <= MaxDisplayLength && |t| <= |s| && t == s[..|t|]
    ensures |s| <= MaxDisplayLength ==> t == s
  {
    if |s| <= MaxDisplayLength then s else s[..MaxDisplayLength]
  }

  /** `current.lower() in name.lower()`, with `lower` left abstract. */
  predicate Matches(current: string, name: string, lower: string -> string) {
    IsSubstring(lower(current), lower(name))
  }

  function ChoiceFor(name: string): Choice {
    Choice(Truncate(name), name)
  }

  /** Every matching event, in order, without the limit. */
  function MatchingChoices(events: seq<Record>, current: string, lower: string -> string)
    : (cs: seq<Choice>)
    ensures |cs| <= |events|
    ensures forall c | c in cs ::
      c == ChoiceFor(c.value) && Matches(current, c.value, lower)
      && exists e | e in events :: e.event_name == c.value
  {
    if events == [] then []
    else
      var tail := MatchingChoices(events[1..], current, lower);
      assert forall c | c in tail :: exists e | e in events :: e.event_name == c.value by {
        forall c | c in tail
          ensures exists e | e in events :: e.event_name == c.value
        {
          var e :| e in events[1..] && e.event_name == c.value;
          assert e in events;
        }
      }
      (if Matches(current, events[0].event_name, lower) then [ChoiceFor(events[0].event_name)] else [])
      + tail
  }

  lemma {:induction false} MatchingChoicesConcat(a: seq<Record>, b: seq<Record>, current: string, lower: string -> string)
    ensures MatchingChoices(a + b, current, lower) == MatchingChoices(a, current, lower) + MatchingChoices(b, current, lower)
  {
    if a == [] {
      assert a + b == b;
    } else {
      assert (a + b)[1..] == a[1..] + b;
      MatchingChoicesConcat(a[1..], b, current, lower);
    }
  }

  /** An event that matches is offered unless 25 earlier events were offered. */
  lemma {:induction false} MatchingEventIsOffered(events: seq<Record>, i: nat, current: string, lower: string -> string)
    requires i < |events| && Matches(current, events[i].event_name, lower)
    ensures ChoiceFor(events[i].event_name) in MatchingChoices(events, current, lower)
    ensures |MatchingChoices(events[..i], current, lower)| < |MatchingChoices(events[..i + 1], current, lower)|
  {
    assert events == events[..i] + ([events[i]] + events[i + 1..]);
    assert events[..i + 1] == events[..i] + [events[i]];
    MatchingChoicesConcat(events[..i], [events[i]] + events[i + 1..], current, lower);
    MatchingChoicesConcat([events[i]], events[i + 1..], current, lower);
    MatchingChoicesConcat(events[..i], [events[i]], current, lower);
    assert [events[i]][1..] == [];
  }

  lemma MatchingStep(events: seq<Record>, i: nat, current: string, lower: string -> string)
    requires i < |events|
    ensures MatchingChoices(events[..i + 1], current, lower) ==
      MatchingChoices(events[..i], current, lower)
      + (if Matches(current, events[i].event_name, lower) then [ChoiceFor(events[i].event_name)] else [])
  {
    MatchingChoicesConcat(events[..i], [events[i]], current, lower);
    assert events[..i + 1] == events[..i] + [events[i]];
    assert [events[i]][1..] == [];
  }

  /** Once the choices from a prefix reach the limit, the rest is cut off. */
  lemma CappedAtPrefix(events: seq<Record>, i: nat, current: string, lower: string -> string)
    requires i <= |events|
    requires |MatchingChoices(events[..i], current, lower)| == MaxChoices
    ensures Capped(MatchingChoices(events, current, lower)) == MatchingChoices(events[..i], current, lower)
  {
    MatchingChoicesConcat(events[..i], events[i..], current, lower);
    assert events[..i] + events[i..] == events;
  }

  /** The first `MaxChoices` choices, or all of them. */
  function Capped(cs: seq<Choice>): (r: seq<Choice>)
    ensures |r| <= MaxChoices && |r| <= |cs| && r == cs[..|r|]
    ensures |cs| <= MaxChoices ==> r == cs
  {
    if |cs| <= MaxChoices then cs else cs[..MaxChoices]
  }

  /** The loop of `event_autocomplete` over the user's events: collect the
      matching ones and stop as soon as 25 are collected. */
  method FilterChoices(events: seq<Record>, current: string, lower: string -> string)
    returns (choices: seq<Choice>)
    ensures choices == Capped(MatchingChoices(events, current, lower))
  {
    choices := [];
    var i := 0;
    while i < |events|
      invariant 0 <= i <= |events|
      invariant choices == MatchingChoices(events[..i], current, lower)
      invariant |choices| < MaxChoices
    {
      var name := events[i].event_name;
      MatchingStep(events, i, current, lower);
      if Matches(current, name, lower) {
        choices := choices + [Choice(Truncate(name), name)];
      }
      i := i + 1;
      if |choices| >= MaxChoices {
        CappedAtPrefix(events, i, current, lower);
        return;
      }
    }
    assert events[..i] == events;
  }

  /** `event_autocomplete`: the user's events as `get_user_events` lists
      them (`listing`), filtered and capped. So every choice is one of the
      user's stored events whose name contains `current` ignoring case,
      labelled with the first 99 characters of the name, and the first 25
      matching events, in listing order, are all offered. */
  method EventAutocomplete(store: Database.EventStore, user: int, current: string, lower: string -> string)
    returns (choices: seq<Choice>, ghost listing: seq<Record>)
    requires store.Valid()
    ensures multiset(listing) == multiset(Database.Selected(store.table, store.table.Keys, Some(user)))
    ensures forall i, j | 0 <= i < j < |listing| :: listing[i].start_time <= listing[j].start_time
    ensures choices == Capped(MatchingChoices(listing, current, lower))
    ensures |choices| <= MaxChoices
    ensures forall c | c in choices ::
      && Matches(current, c.value, lower)
      && c.name == Truncate(c.value)
      && (user, c.value) in store.table
  {
    var events := store.GetUserEvents(user);
    listing := events;
    choices := FilterChoices(events, current, lower);
    forall c | c in choices
      ensures (user, c.value) in store.table
    {
      var all := MatchingChoices(events, current, lower);
      assert c in all;
      var e :| e in events && e.event_name == c.value;
      var i :| 0 <= i < |events| && events[i] == e;
    }
  }
}
