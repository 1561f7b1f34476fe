/** Unpadded base64url (section 5 of RFC 4648), as base64.RawURLEncoding reads and writes it. */
module Base64Url {
  import opened Wrappers
  import opened Strings

  type Sextet = n: nat | n < 64

  predicate IsCode(c: char) {
    IsLetter(c) || IsDigit(c) || c == '-' || c == '_'
  }

  function Code(n: Sextet): (c: char)
    ensures IsCode(c) && SextetOf(c) == n
  {
    if n < 26 then 'A' + n as char
    else if n < 52 then 'a' + (n - 26) as char
    else if n < 62 then Digit(n - 52)
    else if n == 62 then '-'
    else '_'
  }

  function SextetOf(c: char): Sextet
    requires IsCode(c)
  {
    if 'A' <= c <= 'Z' then c as int - 'A' as int
    else if 'a' <= c <= 'z' then c as int - 'a' as int + 26
    else if IsDigit(c) then DigitValue(c) + 52
    else if c == '-' then 62
    else 63
  }

  function Group(a: Byte, b: Byte, c: Byte): (s: string)
    ensures |s| == 4 && AllCodes(s)
  {
    [Code(a / 4), Code(a % 4 * 16 + b / 16), Code(b % 16 * 4 + c / 64), Code(c % 64)]
  }

  function Pair(a: Byte, b: Byte): (s: string)
    ensures |s| == 3 && AllCodes(s)
  {
    [Code(a / 4), Code(a % 4 * 16 + b / 16), Code(b % 16 * 4)]
  }

  function Single(a: Byte): (s: string)
    ensures |s| == 2 && AllCodes(s)
  {
    [Code(a / 4), Code(a % 4 * 16)]
  }

  /** The bits of a group are those of its bytes in their order, filled up with zeros. */
  lemma GroupsKeepBits(a: Byte, b: Byte, c: Byte)
    ensures
      var s := Group(a, b, c);
      SextetOf(s[0]) * 262144 + SextetOf(s[1]) * 4096 + SextetOf(s[2]) * 64 + SextetOf(s[3]) == a * 65536 + b * 256 + c
    ensures
      var s := Pair(a, b);
      SextetOf(s[0]) * 4096 + SextetOf(s[1]) * 64 + SextetOf(s[2]) == (a * 256 + b) * 4
    ensures SextetOf(Single(a)[0]) * 64 + SextetOf(Single(a)[1]) == a * 16
  {
  }

  function Encode(bytes: seq<Byte>): string {
    if |bytes| == 0 then ""
    else if |bytes| == 1 then Single(bytes[0])
    else if |bytes| == 2 then Pair(bytes[0], bytes[1])
    else Group(bytes[0], bytes[1], bytes[2]) + Encode(bytes[3..])
  }

  /** Line breaks are skipped; every other character outside the alphabet is an error. */
  function WithoutLineBreaks(s: string): string {
    if s == "" then ""
    else (if s[0] in {'\r', '\n'} then "" else [s[0]]) + WithoutLineBreaks(s[1..])
  }

  predicate AllCodes(s: string) {
    forall i :: 0 <= i < |s| ==> IsCode(s[i])
  }

  /** The bits left over in a final short group are not checked. */
  function DecodeCodes(s: string): Option<seq<Byte>>
    requires AllCodes(s)
  {
    if |s| == 0 then Some([])
    else if |s| == 1 then None
    else
      var x, y := SextetOf(s[0]), SextetOf(s[1]);
      if |s| == 2 then Some([x * 4 + y / 16])
      else
        var z := SextetOf(s[2]);
        if |s| == 3 then Some([x * 4 + y / 16, y % 16 * 16 + z / 4])
        else
          match DecodeCodes(s[4..])
          case None => None
          case Some(rest) => Some([x * 4 + y / 16, y % 16 * 16 + z / 4, z % 4 * 64 + SextetOf(s[3])] + rest)
  }

  function Decode(s: string): Option<seq<Byte>> {
    var codes := WithoutLineBreaks(s);
    if AllCodes(codes) then DecodeCodes(codes) else None
  }

  lemma {:induction false} EncodedIsCodes(bytes: seq<Byte>)
    ensures AllCodes(Encode(bytes))
  {
    if |bytes| >= 3 {
      EncodedIsCodes(bytes[3..]);
    }
  }

  lemma {:induction false} NothingToSkip(s: string)
    requires AllCodes(s)
    ensures WithoutLineBreaks(s) == s
  {
    if s != "" {
      NothingToSkip(s[1..]);
    }
  }

  /** The bits of three bytes, regrouped by six and back. */
  lemma Regroup(a: Byte, b: Byte, c: Byte)
    ensures a / 4 * 4 + (a % 4 * 16 + b / 16) / 16 == a
    ensures (a % 4 * 16 + b / 16) % 16 * 16 + (b % 16 * 4 + c / 64) / 4 == b
    ensures (b % 16 * 4 + c / 64) % 4 * 64 + c % 64 == c
  {
  }

  lemma DecodeGroup(a: Byte, b: Byte, c: Byte, rest: string)
    requires AllCodes(rest)
    ensures
      var s := Group(a, b, c) + rest;
      && AllCodes(s)
      && DecodeCodes(s) == match DecodeCodes(rest) case None => None case Some(bytes) => Some([a, b, c] + bytes)
  {
    var s := Group(a, b, c) + rest;
    assert s[4..] == rest;
    assert s[0] == Group(a, b, c)[0] && s[1] == Group(a, b, c)[1] && s[2] == Group(a, b, c)[2] && s[3] == Group(a, b, c)[3];
    GroupSextets(a, b, c);
    Regroup(a, b, c);
    FirstGroup(s, a, b, c);
  }

  lemma GroupSextets(a: Byte, b: Byte, c: Byte)
    ensures
      var s := Group(a, b, c);
      && SextetOf(s[0]) == a / 4 && SextetOf(s[1]) == a % 4 * 16 + b / 16
      && SextetOf(s[2]) == b % 16 * 4 + c / 64 && SextetOf(s[3]) == c % 64
  {
  }

  lemma FirstGroup(s: string, a: Byte, b: Byte, c: Byte)
    requires AllCodes(s) && |s| >= 4
    requires
      var x, y, z, w := SextetOf(s[0]), SextetOf(s[1]), SextetOf(s[2]), SextetOf(s[3]);
      x * 4 + y / 16 == a && y % 16 * 16 + z / 4 == b && z % 4 * 64 + w == c
    ensures DecodeCodes(s) ==
            match DecodeCodes(s[4..]) case None => None case Some(bytes) => Some([a, b, c] + bytes)
  {
  }

  lemma DecodeOne(a: Byte)
    ensures DecodeCodes(Single(a)) == Some([a])
  {
    Regroup(a, 0, 0);
  }

  lemma DecodeTwo(a: Byte, b: Byte)
    ensures DecodeCodes(Pair(a, b)) == Some([a, b])
  {
    Regroup(a, b, 0);
  }

  lemma SplitBytes(bytes: seq<Byte>)
    ensures |bytes| == 1 ==> bytes == [bytes[0]]
    ensures |bytes| == 2 ==> bytes == [bytes[0], bytes[1]]
    ensures |bytes| >= 3 ==> bytes == [bytes[0], bytes[1], bytes[2]] + bytes[3..]
  {
  }

  lemma {:induction false} DecodeEncoded(bytes: seq<Byte>)
    ensures AllCodes(Encode(bytes)) && DecodeCodes(Encode(bytes)) == Some(bytes)
  {
    EncodedIsCodes(bytes);
    if |bytes| == 1 {
      DecodeOne(bytes[0]);
    } else if |bytes| == 2 {
      DecodeTwo(bytes[0], bytes[1]);
    } else if |bytes| >= 3 {
      DecodeEncoded(bytes[3..]);
      DecodeGroup(bytes[0], bytes[1], bytes[2], Encode(bytes[3..]));
    }
    SplitBytes(bytes);
  }

  /** Every byte sequence comes back. */
  lemma RoundTrip(bytes: seq<Byte>)
    ensures Decode(Encode(bytes)) == Some(bytes)
  {
    DecodeEncoded(bytes);
    NothingToSkip(Encode(bytes));
  }
}
