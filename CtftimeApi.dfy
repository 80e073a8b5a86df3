/** What utils/ctftime_api.py does with a CTFtime response once it has one:
    the checks and rewrites in `fetch_event_details` and the filtering loop of
    `fetch_upcoming_events`. The HTTP request, the JSON decoding and
    `datetime.fromisoformat` are outside the model: a date field arrives as
    the instant it parses to, or None when it does not parse. */
module CtftimeApi {
  import opened Wrappers
  import opened Records

  /** A key of the JSON object: absent, or present with a value. */
  datatype Field<T> = Missing | Given(value: T)

  /** One entry of the "organizers" list; `name` is None when the entry has
      no "name" key. */
  datatype Organizer = Organizer(name: Option<string>)

  /** The "organizers" value: a list, or anything else. */
  datatype OrganizersValue = OrganizerList(items: seq<Organizer>) | NotAList

  /** The event object returned for `/events/<id>/`. Values that may be JSON
      null are Options. */
  datatype ApiEvent = ApiEvent(
    title: Field<string>,
    start: Field<Option<int>>,
    finish: Field<Option<int>>,
    ctftime_url: Field<Option<string>>,
    url: Field<Option<string>>,
    format: Field<Option<string>>,
    organizers: Field<OrganizersValue>,
    weight: Field<Option<real>>,
    description: Field<Option<string>>,
    participants: Field<Option<int>>)

  /** The ten `required_keys` are all present. */
  predicate HasRequiredKeys(e: ApiEvent) {
    && e.title.Given? && e.start.Given? && e.finish.Given? && e.ctftime_url.Given?
    && e.url.Given? && e.format.Given? && e.organizers.Given? && e.weight.Given?
    && e.description.Given? && e.participants.Given?
  }

  // ---- organizers ----

  function OrganizerName(o: Organizer): string {
    match o.name
    case Some(n) => n
    case None => "Unknown"
  }

  /** `", ".join(names)`. */
  function Join(names: seq<string>, sep: string): (s: string)
    ensures |names| == 0 ==> s == ""
    ensures |names| == 1 ==> s == names[0]
  {
    if |names| == 0 then ""
    else if |names| == 1 then names[0]
    else names[0] + sep + Join(names[1..], sep)
  }

  function SumLengths(names: seq<string>): nat {
    if names == [] then 0 else |names[0]| + SumLengths(names[1..])
  }

  /** Joining one more name appends the separator and that name. */
  lemma {:induction false} JoinSnoc(names: seq<string>, x: string, sep: string)
    requires |names| >= 1
    ensures Join(names + [x], sep) == Join(names, sep) + sep + x
  {
    if |names| == 1 {
      assert (names + [x])[1..] == [x];
    } else {
      assert (names + [x])[1..] == names[1..] + [x];
      JoinSnoc(names[1..], x, sep);
    }
  }

  lemma {:induction false} JoinLength(names: seq<string>, sep: string)
    requires |names| >= 1
    ensures |Join(names, sep)| == SumLengths(names) + (|names| - 1) * |sep|
  {
    if |names| > 1 {
      JoinLength(names[1..], sep);
    }
  }

  function Names(items: seq<Organizer>): (names: seq<string>)
    ensures |names| == |items|
    ensures forall i | 0 <= i < |items| :: names[i] == OrganizerName(items[i])
  {
    if items == [] then [] else [OrganizerName(items[0])] + Names(items[1..])
  }

  /** The organizers cleanup: a list becomes its names joined by ", " (an
      entry without a name counts as "Unknown", an empty list gives ""),
      anything else becomes "Unknown". */
  function JoinOrganizers(v: OrganizersValue): (s: string)
    ensures v.NotAList? ==> s == "Unknown"
    ensures v.OrganizerList? && v.items == [] ==> s == ""
    ensures v.OrganizerList? && |v.items| == 1 ==> s == OrganizerName(v.items[0])
  {
    match v
    case OrganizerList(items) => Join(Names(items), ", ")
    case NotAList => "Unknown"
  }

  lemma NamesSnoc(items: seq<Organizer>, x: Organizer)
    ensures Names(items + [x]) == Names(items) + [OrganizerName(x)]
  {
  }

  /** One more organizer after a non-empty list adds ", " and its name. */
  lemma JoinOrganizersSnoc(items: seq<Organizer>, x: Organizer)
    requires |items| >= 1
    ensures JoinOrganizers(OrganizerList(items + [x])) == JoinOrganizers(OrganizerList(items)) + ", " + OrganizerName(x)
  {
    NamesSnoc(items, x);
    JoinSnoc(Names(items), OrganizerName(x), ", ");
  }

  /** The joined text has the names' lengths plus one ", " between each pair. */
  lemma JoinOrganizersLength(items: seq<Organizer>)
    requires |items| >= 1
    ensures |JoinOrganizers(OrganizerList(items))| == SumLengths(Names(items)) + 2 * (|items| - 1)
  {
    JoinLength(Names(items), ", ");
  }

  // ---- the event_name slug ----

  /** The characters Python's `str.strip()` removes (`str.isspace`). */
  predicate IsPyWhitespace(c: char) {
    c == ' ' || ('\U{9}' <= c <= '\U{D}') || ('\U{1C}' <= c <= '\U{1F}')
    || c == '\U{85}' || c == '\U{A0}' || c == '\U{1680}'
    || ('\U{2000}' <= c <= '\U{200A}') || c == '\U{2028}' || c == '\U{2029}'
    || c == '\U{202F}' || c == '\U{205F}' || c == '\U{3000}'
  }

  /** Every character of `x` is whitespace. */
  predicate AllWhitespace(x: string) {
    x == [] || (IsPyWhitespace(x[0]) && AllWhitespace(x[1..]))
  }

  lemma AllWhitespaceCons(c: char, x: string)
    requires IsPyWhitespace(c) && AllWhitespace(x)
    ensures AllWhitespace([c] + x)
  {
    assert ([c] + x)[1..] == x;
  }

  lemma AllWhitespaceSnoc(x: string, c: char)
    requires AllWhitespace(x) && IsPyWhitespace(c)
    ensures AllWhitespace(x + [c])
    decreases |x|
  {
    if x != [] {
      assert (x + [c])[1..] == x[1..] + [c];
      AllWhitespaceSnoc(x[1..], c);
    }
  }

  function StripLeft(s: string): (r: string)
    ensures |r| <= |s| && r == s[|s| - |r|..]
    ensures AllWhitespace(s[..|s| - |r|])
    ensures r != [] ==> !IsPyWhitespace(r[0])
  {
    if s != [] && IsPyWhitespace(s[0]) then
      var r := StripLeft(s[1..]);
      assert s[..|s| - |r|] == [s[0]] + s[1..][..|s| - 1 - |r|];
      AllWhitespaceCons(s[0], s[1..][..|s| - 1 - |r|]);
      r
    else s
  }

  function StripRight(s: string): (r: string)
    ensures |r| <= |s| && r == s[..|r|]
    ensures AllWhitespace(s[|r|..])
    ensures r != [] ==> !IsPyWhitespace(r[|r| - 1])
  {
    if s != [] && IsPyWhitespace(s[|s| - 1]) then
      var r := StripRight(s[..|s| - 1]);
      assert s[|r|..] == s[..|s| - 1][|r|..] + [s[|s| - 1]];
      AllWhitespaceSnoc(s[..|s| - 1][|r|..], s[|s| - 1]);
      r
    else s
  }

  /** `s.strip()`. */
  function Strip(s: string): (r: string)
    ensures |r| <= |s|
    ensures r != [] ==> !IsPyWhitespace(r[0]) && !IsPyWhitespace(r[|r| - 1])
  {
    var l := StripLeft(s);
    var r := StripRight(l);
    assert r != [] ==> r[0] == l[0];
    r
  }

  /** `strip()` removes whitespace only, and only at the ends: the result is
      the slice of `s` between a whitespace prefix and a whitespace suffix. */
  lemma StripRemovesOnlyEnds(s: string, i: int, r: string)
    requires r == Strip(s) && i == |s| - |StripLeft(s)|
    ensures 0 <= i <= i + |r| <= |s| && r == s[i..i + |r|]
    ensures AllWhitespace(s[..i]) && AllWhitespace(s[i + |r|..])
  {
    var l := StripLeft(s);
    assert r == StripRight(l);
    BetweenWhitespaceRuns(s, i, l, r);
  }

  /** A prefix `r` of the suffix `l` of `s` that starts at `i`, with
      whitespace before `l` and after `r` in `l`, is a slice of `s` with
      whitespace on both sides. */
  lemma BetweenWhitespaceRuns(s: string, i: int, l: string, r: string)
    requires |l| <= |s| && i == |s| - |l| && l == s[|s| - |l|..] && AllWhitespace(s[..|s| - |l|])
    requires |r| <= |l| && r == l[..|r|] && AllWhitespace(l[|r|..])
    ensures 0 <= i <= i + |r| <= |s| && r == s[i..i + |r|]
    ensures AllWhitespace(s[..i]) && AllWhitespace(s[i + |r|..])
  {
    assert s[i + |r|..] == l[|r|..];
  }

  /** `s.replace(a, b)` for a one-character `a`. */
  function ReplaceChar(s: string, a: char, b: string): (r: string)
    ensures a !in b ==> a !in r
    ensures forall c | c in r :: c in s || c in b
  {
    if s == [] then []
    else (if s[0] == a then b else [s[0]]) + ReplaceChar(s[1..], a, b)
  }

  /** Replacing in a concatenation replaces in each part: every character of
      `s` other than `a` is kept, in place. */
  lemma {:induction false} ReplaceConcat(s: string, t: string, a: char, b: string)
    ensures ReplaceChar(s + t, a, b) == ReplaceChar(s, a, b) + ReplaceChar(t, a, b)
  {
    if s == [] {
      assert s + t == t;
    } else {
      assert (s + t)[1..] == s[1..] + t;
      ReplaceConcat(s[1..], t, a, b);
    }
  }

  /** `event_name`: the stripped title with spaces turned into dashes and
      double quotes removed (the source removes '"' twice; the second pass
      finds nothing). */
  function EventNameSlug(title: string): (name: string)
    ensures ' ' !in name && '"' !in name
  {
    ReplaceChar(ReplaceChar(ReplaceChar(Strip(title), ' ', "-"), '"', ""), '"', "")
  }

  lemma {:induction false} ReplaceAbsent(s: string, a: char, b: string)
    requires a !in s
    ensures ReplaceChar(s, a, b) == s
  {
    if s != [] {
      ReplaceAbsent(s[1..], a, b);
    }
  }

  /** A title that is already a clean name is its own slug. */
  lemma CleanTitleIsItsOwnSlug(title: string)
    requires ' ' !in title && '"' !in title
    requires title != [] ==> !IsPyWhitespace(title[0]) && !IsPyWhitespace(title[|title| - 1])
    ensures EventNameSlug(title) == title
  {
    assert StripLeft(title) == title;
    assert StripRight(title) == title;
    ReplaceAbsent(title, ' ', "-");
    ReplaceAbsent(title, '"', "");
  }

  // ---- fetch_event_details ----

  /** The checks and rewrites after the response decoded: any required key
      missing, or a date that does not parse, gives None; otherwise the
      organizers are joined and `event_name` is derived from the title. */
  function NormalizeEventDetails(e: ApiEvent): (r: Option<EventData>)
    ensures r.Some? <==> HasRequiredKeys(e) && e.start.value.Some? && e.finish.value.Some?
    ensures r.Some? ==>
      && r.value.event_name == EventNameSlug(e.title.value)
      && r.value.start == e.start.value.value && r.value.finish == e.finish.value.value
      && r.value.organizers == Some(JoinOrganizers(e.organizers.value))
      && r.value.ctftime_url == e.ctftime_url.value && r.value.url == e.url.value
      && r.value.format == e.format.value && r.value.weight == e.weight.value
      && r.value.description == e.description.value && r.value.participants == e.participants.value
  {
    if !HasRequiredKeys(e) then None
    else if e.start.value.None? || e.finish.value.None? then None
    else Some(EventData(
      EventNameSlug(e.title.value), e.ctftime_url.value, e.url.value,
      e.start.value.value, e.finish.value.value, e.format.value,
      Some(JoinOrganizers(e.organizers.value)), e.weight.value,
      e.description.value, e.participants.value))
  }

  /** `fetch_event_details`: None when the request or the decoding failed
      (`response` is None), else the normalised event. */
  function FetchEventDetails(response: Option<ApiEvent>): (r: Option<EventData>)
    ensures response.None? ==> r.None?
    ensures r.Some? ==> ' ' !in r.value.event_name && '"' !in r.value.event_name
  {
    match response
    case None => None
    case Some(e) => NormalizeEventDetails(e)
  }

  // ---- fetch_upcoming_events ----

  /** An entry of the `/events/` list, with the keys the filter reads. */
  datatype ListedEvent = ListedEvent(
    title: Field<string>,
    start: Field<Option<int>>,
    finish: Field<Option<int>>,
    ctftime_url: Field<string>)

  /** An entry kept by the filter, with the `start_dt`/`finish_dt` it adds. */
  datatype UpcomingEvent = UpcomingEvent(event: ListedEvent, start_dt: int, finish_dt: int)

  /** An entry survives when it has title, start, finish and ctftime_url and
      both dates parse. */
  predicate Usable(e: ListedEvent) {
    e.title.Given? && e.start.Given? && e.finish.Given? && e.ctftime_url.Given?
    && e.start.value.Some? && e.finish.value.Some?
  }

  function Filter(events: seq<ListedEvent>): seq<ListedEvent> {
    if events == [] then []
    else (if Usable(events[0]) then [events[0]] else []) + Filter(events[1..])
  }

  /** The filter keeps exactly the usable entries. */
  lemma {:induction false} FilterMembers(events: seq<ListedEvent>, e: ListedEvent)
    ensures e in Filter(events) <==> e in events && Usable(e)
  {
    if events != [] {
      FilterMembers(events[1..], e);
      assert events == [events[0]] + events[1..];
    }
  }

  /** ... and keeps their order: filtering a concatenation filters each part. */
  lemma {:induction false} FilterConcat(a: seq<ListedEvent>, b: seq<ListedEvent>)
    ensures Filter(a + b) == Filter(a) + Filter(b)
  {
    if a != [] {
      assert (a + b)[1..] == a[1..] + b;
      FilterConcat(a[1..], b);
    } else {
      assert a + b == b;
    }
  }

  function Entries(us: seq<UpcomingEvent>): (es: seq<ListedEvent>)
    ensures |es| == |us| && forall i | 0 <= i < |us| :: es[i] == us[i].event
  {
    if us == [] then [] else [us[0].event] + Entries(us[1..])
  }

  /** A kept entry carries the dates it was parsed with. */
  predicate Converted(u: UpcomingEvent) {
    Usable(u.event) && u.start_dt == u.event.start.value.value && u.finish_dt == u.event.finish.value.value
  }

  lemma EntriesSnoc(us: seq<UpcomingEvent>, u: UpcomingEvent)
    ensures Entries(us + [u]) == Entries(us) + [u.event]
  {
  }

  lemma FilterOne(e: ListedEvent)
    ensures Filter([e]) == if Usable(e) then [e] else []
  {
    assert [e][1..] == [];
  }

  /** The loop of `fetch_upcoming_events` over a decoded list. */
  method ProcessUpcoming(events: seq<ListedEvent>) returns (processed: seq<UpcomingEvent>)
    ensures Entries(processed) == Filter(events)
    ensures forall i | 0 <= i < |processed| :: Converted(processed[i])
  {
    processed := [];
    var i := 0;
    while i < |events|
      invariant 0 <= i <= |events|
      invariant Entries(processed) == Filter(events[..i])
      invariant forall j | 0 <= j < |processed| :: Converted(processed[j])
    {
      var e := events[i];
      FilterConcat(events[..i], [e]);
      FilterOne(e);
      assert events[..i + 1] == events[..i] + [e];
      // An entry missing a key, or whose dates do not parse, is skipped.
      if e.title.Given? && e.start.Given? && e.finish.Given? && e.ctftime_url.Given? {
        if e.start.value.Some? && e.finish.value.Some? {
          var item := UpcomingEvent(e, e.start.value.value, e.finish.value.value);
          EntriesSnoc(processed, item);
          processed := processed + [item];
        }
      }
      i := i + 1;
    }
    assert events[..i] == events;
  }

  /** `fetch_upcoming_events`: an empty list when the request or the decoding
      failed (`response` is None). */
  method FetchUpcomingEvents(response: Option<seq<ListedEvent>>) returns (processed: seq<UpcomingEvent>)
    ensures response.None? ==> processed == []
    ensures response.Some? ==> Entries(processed) == Filter(response.value)
    ensures forall i | 0 <= i < |processed| :: Converted(processed[i])
  {
    if response.None? {
      return [];
    }
    processed := ProcessUpcoming(response.value);
  }
}
