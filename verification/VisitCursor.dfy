/**
 The page cursor of the visit list: a start time in RFC 3339 and a visit id, in base64url.

 Go strings are byte sequences, so a string here is one character per byte.
 */
module VisitCursor {
  import opened Wrappers
  import opened Strings
  import Base64Url

  /** A UTC timestamp by its calendar fields. */
  datatype Instant = Instant(year: nat, month: nat, day: nat, hour: nat, minute: nat, second: nat, nanos: nat)

  type VisitId = string

  predicate IsLeapYear(year: nat) {
    year % 4 == 0 && (year % 100 != 0 || year % 400 == 0)
  }

  function DaysIn(month: nat, year: nat): nat {
    if month == 2 then if IsLeapYear(year) then 29 else 28
    else if month in {4, 6, 9, 11} then 30
    else 31
  }

  /** The Gregorian calendar. */
  lemma CalendarMeans(month: nat, year: nat)
    requires 1 <= month <= 12
    ensures IsLeapYear(year) <==> year % 4 == 0 && (year % 100 == 0 ==> year % 400 == 0)
    ensures DaysIn(month, year) == if month in {1, 3, 5, 7, 8, 10, 12} then 31
                                   else if month != 2 then 30
                                   else if IsLeapYear(year) then 29
                                   else 28
  {
  }

  /** A time that the calendar and the clock have, up to the year 9999. */
  lemma InstantMeans(t: Instant)
    ensures IsInstant(t) <==>
            && t.year < 10000 && 0 < t.month < 13 && 0 < t.day < DaysIn(t.month, t.year) + 1
            && t.hour < 24 && t.minute < 60 && t.second < 60 && t.nanos < 1_000_000_000
  {
  }

  /** The timestamps that RFC 3339 can write: years have four digits. */
  predicate IsInstant(t: Instant) {
    && t.year <= 9999 && 1 <= t.month <= 12 && 1 <= t.day <= DaysIn(t.month, t.year)
    && t.hour < 24 && t.minute < 60 && t.second < 60 && t.nanos < 1_000_000_000
  }

  predicate IsByteString(s: string) {
    forall i :: 0 <= i < |s| ==> s[i] as int < 256
  }

  // ---------------------------------------------------------------------------
  // Numbers of fixed width
  // ---------------------------------------------------------------------------

  function Power10(width: nat): nat {
    if width == 0 then 1 else 10 * Power10(width - 1)
  }

  function Fixed(n: nat, width: nat): (s: string)
    ensures |s| == width && AllDigits(s)
  {
    if width == 0 then "" else Fixed(n / 10, width - 1) + [Digit(n % 10)]
  }

  lemma {:induction false} FixedValue(n: nat, width: nat)
    requires n < Power10(width)
    ensures Value(Fixed(n, width)) == n
  {
    if width > 0 {
      var s := Fixed(n, width);
      assert s[..|s| - 1] == Fixed(n / 10, width - 1);
      FixedValue(n / 10, width - 1);
    }
  }

  // ---------------------------------------------------------------------------
  // RFC 3339 with a fraction of up to nine digits, in UTC
  // ---------------------------------------------------------------------------

  /** The width of a field and the character behind it. */
  type Layout = seq<(nat, char)>

  const LAYOUT: Layout := [(4, '-'), (2, '-'), (2, 'T'), (2, ':'), (2, ':')]

  function PrintFields(fields: seq<nat>, layout: Layout): string
    requires |fields| == |layout|
  {
    if layout == [] then ""
    else Fixed(fields[0], layout[0].0) + ([layout[0].1] + PrintFields(fields[1..], layout[1..]))
  }

  function TakeNumber(s: string, width: nat): Option<(nat, string)> {
    if |s| >= width && AllDigits(s[..width]) then Some((Value(s[..width]), s[width..])) else None
  }

  function ParseFields(s: string, layout: Layout): Option<(seq<nat>, string)> {
    if layout == [] then Some(([], s))
    else match TakeNumber(s, layout[0].0)
      case None => None
      case Some((n, rest)) =>
        if rest == "" || rest[0] != layout[0].1 then None
        else match ParseFields(rest[1..], layout[1..])
          case None => None
          case Some((more, left)) => Some(([n] + more, left))
  }

  function PrintFraction(nanos: nat): string {
    if nanos == 0 then "" else "." + TrimRight(Fixed(nanos, 9), '0')
  }

  /** Digits after the ninth are dropped. */
  function ParseFraction(digits: string): nat
    requires AllDigits(digits)
  {
    if |digits| <= 9 then Value(digits) * Power10(9 - |digits|) else Value(digits[..9])
  }

  /** A fraction, if any, and the letter for UTC. */
  function ParseTail(s: string): Option<nat> {
    if s == "Z" then Some(0)
    else if |s| >= 3 && s[0] == '.' && s[|s| - 1] == 'Z' && AllDigits(s[1..|s| - 1]) then
      Some(ParseFraction(s[1..|s| - 1]))
    else None
  }

  function FormatTime(t: Instant): string {
    PrintFields([t.year, t.month, t.day, t.hour, t.minute], LAYOUT)
    + (Fixed(t.second, 2) + (PrintFraction(t.nanos) + "Z"))
  }

  function ParseTime(s: string): Option<Instant> {
    match ParseFields(s, LAYOUT)
    case None => None
    case Some((fields, rest)) =>
      match TakeNumber(rest, 2)
      case None => None
      case Some((second, tail)) =>
        match ParseTail(tail)
        case None => None
        case Some(nanos) =>
          if |fields| != 5 then None
          else
            var t := Instant(fields[0], fields[1], fields[2], fields[3], fields[4], second, nanos);
            if IsInstant(t) then Some(t) else None
  }

  lemma TakeFixed(n: nat, width: nat, rest: string)
    requires n < Power10(width)
    ensures TakeNumber(Fixed(n, width) + rest, width) == Some((n, rest))
  {
    FixedValue(n, width);
    assert (Fixed(n, width) + rest)[..width] == Fixed(n, width);
  }

  lemma TakeField(n: nat, layout: Layout, rest: string)
    requires layout != [] && n < Power10(layout[0].0)
    ensures
      var whole := ParseFields(Fixed(n, layout[0].0) + ([layout[0].1] + rest), layout);
      var behind := ParseFields(rest, layout[1..]);
      && (whole.Some? <==> behind.Some?)
      && (whole.Some? ==> whole.value == ([n] + behind.value.0, behind.value.1))
  {
    TakeFixed(n, layout[0].0, [layout[0].1] + rest);
    assert ([layout[0].1] + rest)[1..] == rest;
  }

  ghost predicate Fit(fields: seq<nat>, layout: Layout) {
    |fields| == |layout| && forall i :: 0 <= i < |fields| ==> fields[i] < Power10(layout[i].0)
  }

  lemma FieldInFront(fields: seq<nat>, layout: Layout, rest: string)
    requires Fit(fields, layout) && layout != []
    ensures
      var more := PrintFields(fields[1..], layout[1..]);
      PrintFields(fields, layout) + rest == Fixed(fields[0], layout[0].0) + ([layout[0].1] + (more + rest))
  {
  }

  lemma FieldBack(fields: seq<nat>, layout: Layout, text: string, rest: string)
    requires Fit(fields, layout) && layout != []
    requires ParseFields(text, layout[1..]) == Some((fields[1..], rest))
    ensures ParseFields(Fixed(fields[0], layout[0].0) + ([layout[0].1] + text), layout) == Some((fields, rest))
  {
    TakeField(fields[0], layout, text);
    assert [fields[0]] + fields[1..] == fields;
  }

  lemma {:induction false} FieldsRoundTrip(fields: seq<nat>, layout: Layout, rest: string)
    requires Fit(fields, layout)
    ensures ParseFields(PrintFields(fields, layout) + rest, layout) == Some((fields, rest))
    decreases |layout|
  {
    if layout == [] {
      assert PrintFields(fields, layout) + rest == rest;
    } else {
      FieldsRoundTrip(fields[1..], layout[1..], rest);
      FieldBack(fields, layout, PrintFields(fields[1..], layout[1..]) + rest, rest);
      FieldInFront(fields, layout, rest);
    }
  }

  /** Zeros dropped at the end are put back by the scale. */
  lemma {:induction false} TrimmedValue(s: string)
    requires AllDigits(s)
    ensures
      var r := TrimRight(s, '0');
      AllDigits(r) && |r| <= |s| && Value(s) == Value(r) * Power10(|s| - |r|)
  {
    if s != "" && s[|s| - 1] == '0' {
      var shorter := s[..|s| - 1];
      TrimmedValue(shorter);
      var r := TrimRight(shorter, '0');
      assert Power10(|s| - |r|) == 10 * Power10(|shorter| - |r|);
      ScaleUp(Value(r), Power10(|shorter| - |r|));
    }
  }

  lemma ScaleUp(a: nat, b: nat)
    ensures a * b * 10 == a * (10 * b)
  {
  }

  lemma TailRoundTrip(nanos: nat)
    requires nanos < 1_000_000_000
    ensures ParseTail(PrintFraction(nanos) + "Z") == Some(nanos)
  {
    if nanos == 0 {
      assert PrintFraction(nanos) + "Z" == "Z";
    } else {
      var padded := Fixed(nanos, 9);
      var digits := TrimRight(padded, '0');
      assert Power10(9) == 1_000_000_000 by { PowerOfNine(); }
      FixedValue(nanos, 9);
      TrimmedValue(padded);
      assert digits != "";
      var s := PrintFraction(nanos) + "Z";
      assert s[1..|s| - 1] == digits;
    }
  }

  lemma PowerOfNine()
    ensures Power10(2) == 100 && Power10(4) == 10_000 && Power10(9) == 1_000_000_000
  {
    assert Power10(3) == 1000 && Power10(5) == 100_000 && Power10(7) == 10_000_000;
  }

  /** Every timestamp is read back from its text. */
  lemma TimeRoundTrip(t: Instant)
    requires IsInstant(t)
    ensures ParseTime(FormatTime(t)) == Some(t)
  {
    PowerOfNine();
    var fields := [t.year, t.month, t.day, t.hour, t.minute];
    var tail := PrintFraction(t.nanos) + "Z";
    FieldsRoundTrip(fields, LAYOUT, Fixed(t.second, 2) + tail);
    TakeFixed(t.second, 2, tail);
    TailRoundTrip(t.nanos);
  }

  // ---------------------------------------------------------------------------
  // The cursor
  // ---------------------------------------------------------------------------

  function Bytes(s: string): seq<Byte>
    requires IsByteString(s)
  {
    seq(|s|, i requires 0 <= i < |s| => s[i] as int)
  }

  function Text(bytes: seq<Byte>): string {
    seq(|bytes|, i requires 0 <= i < |bytes| => bytes[i] as char)
  }

  function EncodeCursor(startAt: Instant, id: VisitId): string
    requires IsByteString(id)
  {
    PlainTimeText(startAt);
    Base64Url.Encode(Bytes(FormatTime(startAt) + "|" + id))
  }

  function DecodeCursor(cursor: string): Option<(Instant, VisitId)> {
    if cursor == "" then None
    else match Base64Url.Decode(cursor)
      case None => None
      case Some(raw) =>
        var (timestamp, id, found) := Cut(Text(raw), '|');
        if !found || id == "" then None
        else match ParseTime(timestamp)
          case None => None
          case Some(startAt) => Some((startAt, id))
  }

  predicate IsTimeChar(c: char) {
    IsDigit(c) || c in {'-', 'T', ':', '.', 'Z'}
  }

  lemma {:induction false} FieldsText(fields: seq<nat>, layout: Layout)
    requires |fields| == |layout|
    requires forall i :: 0 <= i < |layout| ==> IsTimeChar(layout[i].1)
    ensures forall i :: 0 <= i < |PrintFields(fields, layout)| ==> IsTimeChar(PrintFields(fields, layout)[i])
    decreases |layout|
  {
    if layout != [] {
      FieldsText(fields[1..], layout[1..]);
    }
  }

  lemma PlainTimeText(t: Instant)
    ensures IsByteString(FormatTime(t)) && '|' !in FormatTime(t) && FormatTime(t) != ""
  {
    FieldsText([t.year, t.month, t.day, t.hour, t.minute], LAYOUT);
    var tail := Fixed(t.second, 2) + (PrintFraction(t.nanos) + "Z");
    assert forall i :: 0 <= i < |tail| ==> IsTimeChar(tail[i]);
    assert forall i :: 0 <= i < |FormatTime(t)| ==> IsTimeChar(FormatTime(t)[i]);
  }

  /** A cursor leads back to the position it was made from, unless the id is empty. */
  lemma CursorRoundTrip(startAt: Instant, id: VisitId)
    requires IsInstant(startAt) && IsByteString(id)
    ensures EncodeCursor(startAt, id) != ""
    ensures DecodeCursor(EncodeCursor(startAt, id)) == if id == "" then None else Some((startAt, id))
  {
    PlainTimeText(startAt);
    var text := FormatTime(startAt) + "|" + id;
    Base64Url.RoundTrip(Bytes(text));
    assert Text(Bytes(text)) == text;
    assert text == FormatTime(startAt) + ['|'] + id;
    CutAt(FormatTime(startAt), '|', id);
    TimeRoundTrip(startAt);
  }
}
