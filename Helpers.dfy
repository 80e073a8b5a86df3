/** `format_discord_timestamp` (utils/helpers.py): the `<t:SECONDS:STYLE>`
    token Discord renders as a localised date. */
module Helpers {
  import opened Wrappers
  import Decimal

  const MicrosPerSecond: int := 1000000

  type Micros = m: int | 0 <= m < MicrosPerSecond

  /** An instant to microsecond precision: `seconds` is the floor of the
      POSIX time, `micros` the fraction. */
  datatype Instant = Instant(seconds: int, micros: Micros)

  /** A Python datetime: its wall-clock reading and its UTC offset in seconds,
      or no offset for a naive datetime. */
  datatype DateTime = DateTime(wall: Instant, utcOffset: Option<int>)

  /** The UTC instant: a naive datetime is read as UTC (`pytz.utc.localize`),
      an aware one is shifted by its offset (`astimezone(pytz.utc)`). */
  function ToUtc(dt: DateTime): (r: Instant)
    ensures r.micros == dt.wall.micros
    ensures dt.utcOffset.None? ==> r == dt.wall
    ensures dt.utcOffset.Some? ==> r.seconds + dt.utcOffset.value == dt.wall.seconds
  {
    match dt.utcOffset
    case None => dt.wall
    case Some(offset) => Instant(dt.wall.seconds - offset, dt.wall.micros)
  }

  /** `int(dt.timestamp())`: the POSIX time truncated toward zero, so a
      fractional instant before 1970 rounds up, not down. */
  function TruncatedSeconds(i: Instant): (s: int)
    ensures var exact := i.seconds * MicrosPerSecond + i.micros;
      && (exact >= 0 ==> 0 <= exact - s * MicrosPerSecond < MicrosPerSecond)
      && (exact < 0 ==> -MicrosPerSecond < exact - s * MicrosPerSecond <= 0)
  {
    if i.seconds < 0 && i.micros > 0 then i.seconds + 1 else i.seconds
  }

  const DefaultStyle: string := "F"

  /** The token carries exactly the truncated UTC seconds and the style, for
      every style. */
  function FormatDiscordTimestamp(dt: DateTime, style: string := DefaultStyle): (t: string)
    ensures ParseDiscordTimestamp(t) == Some((TruncatedSeconds(ToUtc(dt)), style))
  {
    var seconds := TruncatedSeconds(ToUtc(dt));
    TokenRoundTrip(seconds, style);
    Token(seconds, style)
  }

  function Token(seconds: int, style: string): string {
    "<t:" + Decimal.IntToString(seconds) + ":" + style + ">"
  }

  /** Reads a token back: the seconds and the style. */
  function ParseDiscordTimestamp(token: string): Option<(int, string)> {
    if |token| < 4 || token[..3] != "<t:" || token[|token| - 1] != '>' then None
    else
      var body := token[3..|token| - 1];
      var colon := IndexOf(body, ':');
      if colon == |body| then None
      else
        match Decimal.ParseInt(body[..colon])
        case None => None
        case Some(seconds) => Some((seconds, body[colon + 1..]))
  }

  /** Position of the first `c` in `s`, or |s| if there is none. */
  function IndexOf(s: string, c: char): (i: nat)
    ensures i <= |s|
    ensures forall j | 0 <= j < i :: s[j] != c
    ensures i < |s| ==> s[i] == c
  {
    if s == [] || s[0] == c then 0 else 1 + IndexOf(s[1..], c)
  }

  /** The seconds never contain a colon, and only the last `>` closes the
      token, so parsing recovers both parts. */
  lemma TokenRoundTrip(seconds: int, style: string)
    ensures ParseDiscordTimestamp(Token(seconds, style)) == Some((seconds, style))
  {
    var n := Decimal.IntToString(seconds);
    var token := Token(seconds, style);
    Decimal.IntToStringRoundTrip(seconds);
    assert token[..3] == "<t:";
    var body := token[3..|token| - 1];
    assert body == n + ":" + style;
    FirstColonAfterNumeral(n, style);
  }

  /** In `n + ":" + style`, with no colon in `n`, the first colon is the one
      after `n`. */
  lemma FirstColonAfterNumeral(n: string, style: string)
    requires ':' !in n
    ensures var body := n + ":" + style;
      IndexOf(body, ':') == |n| && body[..|n|] == n && body[|n| + 1..] == style
  {
    var body := n + ":" + style;
    assert body[|n|] == ':';
    assert forall j | 0 <= j < |n| :: body[j] == n[j];
    assert body[..|n|] == n;
    assert body[|n| + 1..] == style;
  }

  /** A naive datetime formats exactly like the aware UTC datetime with the
      same reading, and like every aware datetime naming the same instant. */
  lemma NaiveIsUtc(wall: Instant, offset: int, style: string)
    ensures FormatDiscordTimestamp(DateTime(wall, None), style) == FormatDiscordTimestamp(DateTime(wall, Some(0)), style)
    ensures FormatDiscordTimestamp(DateTime(wall, Some(offset)), style) ==
      FormatDiscordTimestamp(DateTime(Instant(wall.seconds - offset, wall.micros), None), style)
  {
  }
}
