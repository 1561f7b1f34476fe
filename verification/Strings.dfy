/** The pieces of Go's strings, strconv and encoding/hex packages that several components use. */
module Strings {
  import opened Wrappers

  // ---------------------------------------------------------------------------
  // Searching and cutting
  // ---------------------------------------------------------------------------

  /** The first position of `c`, or the length when there is none. */
  function Find(s: string, c: char): (i: nat)
    ensures i <= |s| && (i < |s| ==> s[i] == c)
  {
    if s == "" || s[0] == c then 0 else Find(s[1..], c) + 1
  }

  lemma {:induction false} FindIsFirst(s: string, c: char)
    ensures c !in s[..Find(s, c)]
  {
    if s != "" && s[0] != c {
      FindIsFirst(s[1..], c);
      assert s[..Find(s, c)] == [s[0]] + s[1..][..Find(s[1..], c)];
    }
  }

  lemma {:induction false} FindAt(a: string, c: char, b: string)
    requires c !in a
    ensures Find(a + [c] + b, c) == |a|
  {
    if a != "" {
      assert (a + [c] + b)[1..] == a[1..] + [c] + b;
      FindAt(a[1..], c, b);
    }
  }

  lemma FindNone(s: string, c: char)
    requires c !in s
    ensures Find(s, c) == |s|
  {
  }

  /** What is before and after the first `c`; all of `s` and nothing when there is none. */
  function Cut(s: string, c: char): (string, string, bool) {
    var i := Find(s, c);
    if i == |s| then (s, "", false) else (s[..i], s[i + 1..], true)
  }

  lemma CutAt(a: string, c: char, b: string)
    requires c !in a
    ensures Cut(a + [c] + b, c) == (a, b, true)
  {
    FindAt(a, c, b);
    assert (a + [c] + b)[..|a|] == a && (a + [c] + b)[|a| + 1..] == b;
  }

  lemma CutNone(s: string, c: char)
    requires c !in s
    ensures Cut(s, c) == (s, "", false)
  {
    FindNone(s, c);
  }

  function Split(s: string, c: char): seq<string>
    decreases |s|
  {
    var i := Find(s, c);
    if i == |s| then [s] else [s[..i]] + Split(s[i + 1..], c)
  }

  lemma SplitFirst(a: string, c: char, b: string)
    requires c !in a
    ensures Split(a + [c] + b, c) == [a] + Split(b, c)
  {
    CutAt(a, c, b);
  }

  lemma {:induction false} SplitAt(a: string, c: char, b: string)
    ensures Split(a + [c] + b, c) == Split(a, c) + Split(b, c)
    decreases |a|
  {
    var (first, rest, found) := Cut(a, c);
    FindIsFirst(a, c);
    if found {
      assert a + [c] + b == first + [c] + (rest + [c] + b);
      SplitFirst(first, c, rest + [c] + b);
      SplitAt(rest, c, b);
    } else {
      SplitFirst(a, c, b);
    }
  }

  function TrimLeft(s: string, c: char): string {
    if s != "" && s[0] == c then TrimLeft(s[1..], c) else s
  }

  function TrimRight(s: string, c: char): (r: string)
    ensures r <= s
    ensures r != "" ==> r[|r| - 1] != c
  {
    if s != "" && s[|s| - 1] == c then TrimRight(s[..|s| - 1], c) else s
  }

  lemma {:induction false} TrimLeftKeepsTail(a: string, c: char, b: string)
    requires b != "" && b[0] != c
    ensures TrimLeft(a + b, c) == TrimLeft(a, c) + b
  {
    if a == "" {
      assert a + b == b;
    } else if a[0] == c {
      assert (a + b)[1..] == a[1..] + b;
      TrimLeftKeepsTail(a[1..], c, b);
    }
  }

  predicate IsSpace(c: char) {
    || c in {' ', '\t', '\n', '\r'}
    || c as int in {0x0B, 0x0C, 0x85, 0xA0, 0x1680, 0x2028, 0x2029, 0x202F, 0x205F, 0x3000}
    || 0x2000 <= c as int <= 0x200A
  }

  function TrimSpaceLeft(s: string): string {
    if s != "" && IsSpace(s[0]) then TrimSpaceLeft(s[1..]) else s
  }

  function TrimSpaceRight(s: string): string {
    if s != "" && IsSpace(s[|s| - 1]) then TrimSpaceRight(s[..|s| - 1]) else s
  }

  function TrimSpace(s: string): string {
    TrimSpaceRight(TrimSpaceLeft(s))
  }

  // ---------------------------------------------------------------------------
  // Numbers in decimal
  // ---------------------------------------------------------------------------

  predicate IsLetter(c: char) {
    'a' <= c <= 'z' || 'A' <= c <= 'Z'
  }

  predicate IsDigit(c: char) {
    '0' <= c <= '9'
  }

  predicate AllDigits(s: string) {
    forall i :: 0 <= i < |s| ==> IsDigit(s[i])
  }

  function Digit(n: nat): char
    requires n < 10
  {
    '0' + n as char
  }

  function DigitValue(c: char): nat
    requires IsDigit(c)
  {
    c as int - '0' as int
  }

  function PrintNat(n: nat): (s: string)
    ensures s != "" && AllDigits(s)
  {
    if n < 10 then [Digit(n)] else PrintNat(n / 10) + [Digit(n % 10)]
  }

  function Value(s: string): nat
    requires AllDigits(s)
  {
    if s == "" then 0 else Value(s[..|s| - 1]) * 10 + DigitValue(s[|s| - 1])
  }

  lemma {:induction false} PrintNatValue(n: nat)
    ensures Value(PrintNat(n)) == n
  {
    var s := PrintNat(n);
    if n < 10 {
      assert s[..0] == "";
    } else {
      PrintNatValue(n / 10);
      assert s[..|s| - 1] == PrintNat(n / 10);
    }
  }

  const MIN_INT64: int := -0x8000_0000_0000_0000
  const MAX_INT64: int := 0x7FFF_FFFF_FFFF_FFFF

  predicate IsInt64(n: int) {
    MIN_INT64 <= n <= MAX_INT64
  }

  /** strconv.FormatInt with base ten. */
  function PrintInt(n: int): string {
    if n < 0 then "-" + PrintNat(-n) else PrintNat(n)
  }

  /** strconv.ParseInt with base ten and 64 bits. */
  function ParseInt(s: string): Option<int> {
    if s == "" then None
    else
      var signed := s[0] == '+' || s[0] == '-';
      var digits := if signed then s[1..] else s;
      if digits == "" || !AllDigits(digits) then None
      else
        var n := (if s[0] == '-' then -1 else 1) * Value(digits);
        if IsInt64(n) then Some(n) else None
  }

  /** Every 64-bit number is read back from its text. */
  lemma ParsePrint(n: int)
    requires IsInt64(n)
    ensures ParseInt(PrintInt(n)) == Some(n)
  {
    if n < 0 {
      PrintNatValue(-n);
      assert PrintInt(n)[1..] == PrintNat(-n);
    } else {
      PrintNatValue(n);
      assert IsDigit(PrintNat(n)[0]);
    }
  }

  // ---------------------------------------------------------------------------
  // Hexadecimal
  // ---------------------------------------------------------------------------

  type Byte = n: nat | n < 256

  predicate IsHexChar(c: char) {
    IsDigit(c) || 'a' <= c <= 'f'
  }

  function HexChar(n: nat): (c: char)
    requires n < 16
    ensures IsHexChar(c)
  {
    if n < 10 then Digit(n) else 'a' + (n - 10) as char
  }

  function Hex(bytes: seq<Byte>): (s: string)
    ensures |s| == 2 * |bytes|
    ensures forall i :: 0 <= i < |s| ==> IsHexChar(s[i])
  {
    if bytes == [] then ""
    else [HexChar(bytes[0] / 16), HexChar(bytes[0] % 16)] + Hex(bytes[1..])
  }
}
