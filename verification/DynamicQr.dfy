/**
 QR links: how they are printed, how a scanner's text is taken apart again, and for how long the
 signature of a dynamic link is accepted.
 */
module DynamicQr {
  import opened Wrappers
  import opened Strings

  type Time = int // seconds since 1970

  /** A keyed digest; nothing is assumed about it except its length. */
  type Digest = string -> seq<Byte>

  ghost predicate IsDigest(digest: Digest) {
    forall message :: |digest(message)| == 32
  }

  /** Which authorities Go's URL parser accepts; everything else about URLs is spelled out below. */
  type HostCheck = string -> bool

  // ---------------------------------------------------------------------------
  // Signatures
  // ---------------------------------------------------------------------------

  /** Go's integer division truncates toward zero. */
  function Quotient(a: int, b: int): int
    requires b > 0
  {
    if a >= 0 then a / b else -((-a) / b)
  }

  function Window(t: Time, period: int): int
    requires period > 0
  {
    Quotient(t, period)
  }

  function Short(bytes: seq<Byte>): string {
    var text := Hex(bytes);
    if |text| < 24 then text else text[..24]
  }

  function StaticSignature(digest: Digest, raw: string): string {
    Short(digest("qr-static:" + raw))
  }

  function DynamicSignature(digest: Digest, raw: string, ts: string): string {
    Short(digest("dynamic:" + raw + ":" + ts))
  }

  predicate ValidateQrSignature(digest: Digest, raw: string, ts: string, sig: string, seconds: int, now: Time) {
    if seconds <= 0 then true
    else if ts == "static" then sig != "" && sig == StaticSignature(digest, raw)
    else match ParseInt(ts)
      case None => false
      case Some(window) =>
        var current := Window(now, seconds);
        && sig != ""
        && current - 1 <= window <= current + 1
        && sig == DynamicSignature(digest, raw, ts)
  }

  // ---------------------------------------------------------------------------
  // Printing links
  // ---------------------------------------------------------------------------

  function Link(base: string, raw: string): string {
    TrimRight(base, '/') + "/q/" + raw
  }

  function Piece(name: string, value: string): string {
    name + "=" + value
  }

  function Query(ts: string, sig: string): string {
    Piece("ts", ts) + "&" + Piece("sig", sig)
  }

  function SignedLink(base: string, raw: string, ts: string, sig: string): string {
    Link(base, raw) + "?" + Query(ts, sig)
  }

  function QrUrl(digest: Digest, base: string, raw: string, seconds: int, now: Time): string {
    if seconds <= 0 then Link(base, raw)
    else
      var ts := PrintInt(Window(now, seconds));
      SignedLink(base, raw, ts, DynamicSignature(digest, raw, ts))
  }

  function StaticQrUrl(digest: Digest, base: string, raw: string): string {
    SignedLink(base, raw, "static", StaticSignature(digest, raw))
  }

  // ---------------------------------------------------------------------------
  // Taking links apart
  // ---------------------------------------------------------------------------

  datatype Scheme = Absent | Present(rest: string) | Broken

  predicate ContinuesScheme(c: char, i: nat) {
    IsLetter(c) || (i > 0 && (IsDigit(c) || c in {'+', '-', '.'}))
  }

  /** Reads a scheme that starts at 0 and goes on at `i`. */
  function SchemeFrom(s: string, i: nat): Scheme
    requires i <= |s|
    decreases |s| - i
  {
    if i == |s| then Absent
    else if ContinuesScheme(s[i], i) then SchemeFrom(s, i + 1)
    else if s[i] != ':' then Absent
    else if i == 0 then Broken
    else Present(s[i + 1..])
  }

  /** The path behind an optional scheme: opaque addresses have none, a bad authority is an error. */
  /** No scheme starts with anything but a letter, and a colon in front is an error. */
  lemma SchemeNeedsLetter(s: string)
    requires s != "" && !IsLetter(s[0])
    ensures SchemeFrom(s, 0) == if s[0] == ':' then Broken else Absent
  {
  }

  function PathBehind(hasScheme: bool, rest: string, hostOk: HostCheck): Option<string> {
    if rest == "" || rest[0] != '/' then
      if hasScheme then Some("")
      else if ':' in Cut(rest, '/').0 then None
      else Some(rest)
    else if "//" <= rest && (hasScheme || !("///" <= rest)) then
      var i := Find(rest[2..], '/');
      if hostOk(rest[2..][..i]) then Some(rest[2..][i..]) else None
    else Some(rest)
  }

  function PathOf(address: string, hostOk: HostCheck): Option<string> {
    match SchemeFrom(address, 0)
    case Absent => PathBehind(false, address, hostOk)
    case Present(rest) => PathBehind(true, rest, hostOk)
    case Broken => None
  }

  predicate IsControl(c: char) {
    c as int < 0x20 || c as int == 0x7F
  }

  datatype Url = Url(path: string, query: string)

  function ParseUrl(value: string, hostOk: HostCheck): Option<Url> {
    if exists i :: 0 <= i < |value| && IsControl(value[i]) then None
    else
      var withoutFragment := Cut(value, '#').0;
      var (address, query, _) := Cut(withoutFragment, '?');
      match PathOf(address, hostOk)
      case None => None
      case Some(path) => Some(Url(path, query))
  }

  /** Text with a control character is no address; a space is none. */
  lemma ControlIsRefused(value: string, hostOk: HostCheck, i: nat)
    requires i < |value| && (value[i] < ' ' || value[i] as int == 127)
    ensures ParseUrl(value, hostOk) == None && !IsControl(' ')
  {
    assert IsControl(value[i]);
  }

  function PlusToSpace(s: string): string {
    seq(|s|, i requires 0 <= i < |s| => if s[i] == '+' then ' ' else s[i])
  }

  /** The value of the first piece with this key; empty pieces and pieces with a semicolon do not count. */
  function FirstValue(pieces: seq<string>, key: string): string {
    if pieces == [] then ""
    else
      var (name, value, _) := Cut(pieces[0], '=');
      if pieces[0] != "" && ';' !in pieces[0] && PlusToSpace(name) == key then PlusToSpace(value)
      else FirstValue(pieces[1..], key)
  }

  function QueryGet(query: string, key: string): string {
    FirstValue(Split(query, '&'), key)
  }

  /** What a parsed URL says, if it is a link at all. */
  function ReadLink(url: Url): Option<(string, string, string)> {
    var parts := Split(TrimRight(TrimLeft(url.path, '/'), '/'), '/');
    if url.path != "" && |parts| >= 2 && parts[|parts| - 2] == "q" then
      Some((parts[|parts| - 1], QueryGet(url.query, "ts"), QueryGet(url.query, "sig")))
    else None
  }

  /** The token, timestamp and signature in what a scanner read; other text is taken for a token. */
  function ParseQrValue(value: string, hostOk: HostCheck): (string, string, string) {
    var text := TrimSpace(value);
    match ParseUrl(text, hostOk)
    case None => (text, "", "")
    case Some(url) =>
      match ReadLink(url)
      case None => (text, "", "")
      case Some(found) => found
  }

  // ---------------------------------------------------------------------------
  // What may appear where
  // ---------------------------------------------------------------------------

  /** Characters that survive in an address as they are. */
  predicate IsPlainChar(c: char) {
    !IsSpace(c) && !IsControl(c) && c !in {'?', '#', '%'}
  }

  predicate IsPlain(s: string) {
    forall i :: 0 <= i < |s| ==> IsPlainChar(s[i])
  }

  /** The alphabet of section 5 of RFC 4648, which covers tokens, numbers and hexadecimal digits. */
  predicate IsTokenChar(c: char) {
    IsLetter(c) || IsDigit(c) || c == '-' || c == '_'
  }

  predicate IsToken(s: string) {
    forall i :: 0 <= i < |s| ==> IsTokenChar(s[i])
  }

  lemma PlainLacks(s: string)
    requires IsPlain(s)
    ensures '?' !in s && '#' !in s
  {
    assert forall i :: 0 <= i < |s| ==> IsPlainChar(s[i]);
  }

  lemma TokenLacks(s: string)
    requires IsToken(s)
    ensures IsPlain(s)
    ensures '/' !in s && '?' !in s && '#' !in s && '&' !in s && '=' !in s && ';' !in s
    ensures PlusToSpace(s) == s
  {
  }

  /**
   A base address that a link can be built on: after the slashes at its end are gone, it parses, and
   it is not a scheme followed by something other than a slash.
   */
  predicate Linkable(base: string, hostOk: HostCheck) {
    var stem := TrimRight(base, '/');
    match SchemeFrom(stem, 0)
    case Absent => PathBehind(false, stem, hostOk).Some?
    case Present(rest) => PathBehind(true, rest, hostOk).Some? && (rest == "" || rest[0] == '/')
    case Broken => false
  }

  // ---------------------------------------------------------------------------
  // Round trip
  // ---------------------------------------------------------------------------

  lemma {:induction false} SchemeExtends(stem: string, more: string, i: nat)
    requires i <= |stem| && more != "" && more[0] == '/'
    ensures SchemeFrom(stem + more, i) ==
            match SchemeFrom(stem, i)
            case Absent => Absent
            case Present(rest) => Present(rest + more)
            case Broken => Broken
    ensures SchemeFrom(stem, i).Present? ==>
              && |SchemeFrom(stem, i).rest| < |stem|
              && SchemeFrom(stem, i).rest == stem[|stem| - |SchemeFrom(stem, i).rest|..]
    decreases |stem| - i
  {
    if i < |stem| {
      assert (stem + more)[i] == stem[i];
      if ContinuesScheme(stem[i], i) {
        SchemeExtends(stem, more, i + 1);
      } else {
        assert (stem + more)[i + 1..] == stem[i + 1..] + more;
      }
    } else {
      assert (stem + more)[i] == '/';
    }
  }

  /** Where the first slash is when the text goes on with one. */
  lemma {:induction false} FirstSlash(s: string, more: string)
    requires more != "" && more[0] == '/'
    ensures Find(s + more, '/') == Find(s, '/')
  {
    if s == "" {
      assert s + more == more;
    } else if s[0] != '/' {
      assert (s + more)[1..] == s[1..] + more;
      FirstSlash(s[1..], more);
    }
  }

  lemma PathExtends(hasScheme: bool, rest: string, more: string, hostOk: HostCheck)
    requires rest == "" || rest[|rest| - 1] != '/'
    requires |more| >= 2 && more[0] == '/' && more[1] != '/'
    ensures PathBehind(hasScheme, rest + more, hostOk) ==
            if hasScheme && rest != "" && rest[0] != '/' then Some("")
            else match PathBehind(hasScheme, rest, hostOk)
              case None => None
              case Some(path) => Some(path + more)
  {
    var whole := rest + more;
    if rest == "" {
      assert whole == more;
    } else if rest[0] != '/' {
      FirstSlash(rest, more);
      assert whole[..Find(rest, '/')] == rest[..Find(rest, '/')];
    } else {
      assert "//" <= rest <==> "//" <= whole;
      assert "///" <= rest <==> "///" <= whole;
      if "//" <= rest {
        AuthorityExtends(rest[2..], more);
        assert whole[2..] == rest[2..] + more;
      }
    }
  }

  lemma AuthorityExtends(s: string, more: string)
    requires more != "" && more[0] == '/'
    ensures
      var i := Find(s, '/');
      Find(s + more, '/') == i && (s + more)[..i] == s[..i] && (s + more)[i..] == s[i..] + more
  {
    FirstSlash(s, more);
  }

  function OrEmpty(path: Option<string>): string {
    match path
    case None => ""
    case Some(text) => text
  }

  /** What is in front of the appended segments, when the base is linkable. */
  function PathBefore(base: string, hostOk: HostCheck): string {
    var stem := TrimRight(base, '/');
    match SchemeFrom(stem, 0)
    case Absent => OrEmpty(PathBehind(false, stem, hostOk))
    case Present(rest) => OrEmpty(PathBehind(true, rest, hostOk))
    case Broken => ""
  }

  lemma StemPath(stem: string, more: string, hostOk: HostCheck)
    requires stem == "" || stem[|stem| - 1] != '/'
    requires |more| >= 2 && more[0] == '/' && more[1] != '/'
    ensures SchemeFrom(stem, 0).Absent? ==>
              PathOf(stem + more, hostOk) == match PathBehind(false, stem, hostOk)
              case None => None
              case Some(path) => Some(path + more)
    ensures SchemeFrom(stem, 0).Present? ==>
              var rest := SchemeFrom(stem, 0).rest;
              PathOf(stem + more, hostOk) ==
              if rest != "" && rest[0] != '/' then Some("")
              else match PathBehind(true, rest, hostOk)
                case None => None
                case Some(path) => Some(path + more)
    ensures SchemeFrom(stem, 0).Broken? ==> PathOf(stem + more, hostOk) == None
  {
    SchemeExtends(stem, more, 0);
    match SchemeFrom(stem, 0) {
      case Absent => PathExtends(false, stem, more, hostOk);
      case Present(rest) =>
        assert rest != "" ==> rest[|rest| - 1] == stem[|stem| - 1];
        PathExtends(true, rest, more, hostOk);
      case Broken =>
    }
  }

  /** The path of a link ends with what `Link` appended, when the base is linkable. */
  lemma LinkPath(base: string, raw: string, hostOk: HostCheck)
    ensures PathOf(Link(base, raw), hostOk) in
            if Linkable(base, hostOk) then {Some(PathBefore(base, hostOk) + "/q/" + raw)} else {None, Some("")}
  {
    var stem, more := TrimRight(base, '/'), "/q/" + raw;
    assert Link(base, raw) == stem + more;
    assert PathBefore(base, hostOk) + more == PathBefore(base, hostOk) + "/q/" + raw;
    StemPath(stem, more, hostOk);
  }

  lemma {:induction false} TrimLeftIsSuffix(s: string, c: char)
    ensures |TrimLeft(s, c)| <= |s| && TrimLeft(s, c) == s[|s| - |TrimLeft(s, c)|..]
  {
    if s != "" && s[0] == c {
      TrimLeftIsSuffix(s[1..], c);
    }
  }

  /** What is left of the slashes and segments before the token. */
  lemma TrimmedPath(before: string, raw: string) returns (head: string)
    requires IsToken(raw) && raw != ""
    ensures TrimRight(TrimLeft(before + "/q/" + raw, '/'), '/') == head + ("q/" + raw)
    ensures head == "" || head[|head| - 1] == '/'
  {
    var start, tail := before + "/", "q/" + raw;
    head := TrimLeft(start, '/');
    TrimLeftKeepsTail(start, '/', tail);
    TrimLeftIsSuffix(start, '/');
    assert before + "/q/" + raw == start + tail;
    TokenLacks(raw);
    assert raw[|raw| - 1] in raw;
    assert (head + tail)[|head + tail| - 1] == raw[|raw| - 1];
  }

  lemma SplitTail(raw: string)
    requires IsToken(raw)
    ensures Split("q/" + raw, '/') == ["q", raw]
  {
    TokenLacks(raw);
    FindNone(raw, '/');
    SplitFirst("q", '/', raw);
    assert "q" + ['/'] + raw == "q/" + raw;
  }

  lemma SplitBehind(head: string, tail: string) returns (more: seq<string>)
    requires head == "" || head[|head| - 1] == '/'
    ensures Split(head + tail, '/') == more + Split(tail, '/')
  {
    if head == "" {
      more := [];
      assert head + tail == tail;
    } else {
      more := Split(head[..|head| - 1], '/');
      SplitAt(head[..|head| - 1], '/', tail);
      assert head == head[..|head| - 1] + ['/'];
    }
  }

  /** The last two segments of a path. */
  lemma LastSegments(before: string, raw: string)
    requires IsToken(raw) && raw != ""
    ensures
      var parts := Split(TrimRight(TrimLeft(before + "/q/" + raw, '/'), '/'), '/');
      |parts| >= 2 && parts[|parts| - 2] == "q" && parts[|parts| - 1] == raw
  {
    var head := TrimmedPath(before, raw);
    SplitTail(raw);
    var more := SplitBehind(head, "q/" + raw);
  }

  lemma PieceValue(name: string, value: string, rest: seq<string>, key: string)
    requires IsToken(name) && IsToken(value)
    ensures FirstValue([Piece(name, value)] + rest, key) == if name == key then value else FirstValue(rest, key)
    ensures '&' !in Piece(name, value)
  {
    TokenLacks(name);
    TokenLacks(value);
    CutAt(name, '=', value);
    assert Piece(name, value) == name + ['='] + value;
    assert ([Piece(name, value)] + rest)[1..] == rest;
  }

  lemma SplitPieces(first: string, second: string)
    requires '&' !in first && '&' !in second
    ensures Split(first + "&" + second, '&') == [first] + [second]
  {
    FindNone(second, '&');
    SplitFirst(first, '&', second);
    assert first + ['&'] + second == first + "&" + second;
  }

  /** The two values of a query. */
  lemma PairValues(name: string, value: string, name': string, value': string)
    requires IsToken(name) && IsToken(value) && IsToken(name') && IsToken(value') && name != name'
    ensures QueryGet(Piece(name, value) + "&" + Piece(name', value'), name) == value
    ensures QueryGet(Piece(name, value) + "&" + Piece(name', value'), name') == value'
  {
    PieceValue(name, value, [Piece(name', value')], name);
    PieceValue(name, value, [Piece(name', value')], name');
    PieceValue(name', value', [], name');
    assert [Piece(name', value')] + [] == [Piece(name', value')];
    SplitPieces(Piece(name, value), Piece(name', value'));
  }

  lemma QueryValues(ts: string, sig: string)
    requires IsToken(ts) && IsToken(sig)
    ensures QueryGet(Query(ts, sig), "ts") == ts && QueryGet(Query(ts, sig), "sig") == sig
  {
    PairValues("ts", ts, "sig", sig);
  }

  lemma TrimSpaceKeeps(s: string)
    requires s != "" && !IsSpace(s[0]) && !IsSpace(s[|s| - 1])
    ensures TrimSpace(s) == s
  {
  }

  lemma LinkIsPlain(base: string, raw: string)
    requires IsPlain(base) && IsToken(raw) && raw != ""
    ensures IsPlain(Link(base, raw)) && |Link(base, raw)| > |raw|
  {
    TokenLacks(raw);
    assert |Link(base, raw)| > |raw|;
    assert IsPlain("/q/");
  }

  /** Text that neither trimming nor the parser's first checks touch. */
  predicate IsClean(s: string) {
    forall i :: 0 <= i < |s| ==> !IsControl(s[i]) && !IsSpace(s[i]) && s[i] != '#'
  }

  lemma PlainIsClean(s: string)
    requires IsPlain(s)
    ensures IsClean(s)
  {
    assert forall i :: 0 <= i < |s| ==> IsPlainChar(s[i]);
  }

  lemma ParsedLink(base: string, raw: string, text: string, query: string, hostOk: HostCheck)
    requires IsClean(text) && Cut(text, '?').0 == Link(base, raw) && Cut(text, '?').1 == query
    ensures ParseUrl(text, hostOk) in
            if Linkable(base, hostOk) then {Some(Url(PathBefore(base, hostOk) + "/q/" + raw, query))}
            else {None, Some(Url("", query))}
  {
    CutNone(text, '#');
    LinkPath(base, raw, hostOk);
  }

  lemma ReadsToken(before: string, raw: string, query: string)
    requires IsToken(raw) && raw != ""
    ensures ReadLink(Url(before + "/q/" + raw, query)) == Some((raw, QueryGet(query, "ts"), QueryGet(query, "sig")))
  {
    LastSegments(before, raw);
  }

  /** A scanned text is recovered exactly when its address is that of a link. */
  lemma ScanAddress(base: string, raw: string, text: string, query: string, hostOk: HostCheck)
    requires IsPlain(base) && IsToken(raw) && raw != ""
    requires text != "" && IsClean(text) && Cut(text, '?').0 == Link(base, raw) && Cut(text, '?').1 == query
    ensures ParseQrValue(text, hostOk) ==
            if Linkable(base, hostOk) then (raw, QueryGet(query, "ts"), QueryGet(query, "sig")) else (text, "", "")
  {
    TrimSpaceKeeps(text);
    ParsedLink(base, raw, text, query, hostOk);
    ReadsToken(PathBefore(base, hostOk), raw, query);
  }

  lemma QueryIsClean(ts: string, sig: string)
    requires IsToken(ts) && IsToken(sig)
    ensures IsClean(Query(ts, sig))
  {
  }

  lemma CleanJoin(a: string, b: string)
    requires IsClean(a) && IsClean(b)
    ensures IsClean(a + "?" + b)
  {
  }

  /**
   A signed link gives back its token, timestamp and signature exactly when it was built on a
   linkable base.
   */
  lemma SignedLinkRoundTrip(base: string, raw: string, ts: string, sig: string, hostOk: HostCheck)
    requires IsPlain(base) && IsToken(raw) && raw != "" && IsToken(ts) && IsToken(sig)
    ensures ParseQrValue(SignedLink(base, raw, ts, sig), hostOk) == (raw, ts, sig) <==> Linkable(base, hostOk)
  {
    var link, query := Link(base, raw), Query(ts, sig);
    LinkIsPlain(base, raw);
    PlainLacks(link);
    PlainIsClean(link);
    QueryIsClean(ts, sig);
    CleanJoin(link, query);
    CutAt(link, '?', query);
    QueryValues(ts, sig);
    assert |SignedLink(base, raw, ts, sig)| > |link|;
    ScanAddress(base, raw, link + "?" + query, query, hostOk);
  }

  /** Without dynamic QR codes the link carries the token alone. */
  lemma BareLinkRoundTrip(base: string, raw: string, hostOk: HostCheck)
    requires IsPlain(base) && IsToken(raw) && raw != ""
    ensures ParseQrValue(Link(base, raw), hostOk) == (raw, "", "") <==> Linkable(base, hostOk)
  {
    var link := Link(base, raw);
    LinkIsPlain(base, raw);
    PlainLacks(link);
    PlainIsClean(link);
    CutNone(link, '?');
    assert Split("", '&') == [""];
    assert QueryGet("", "ts") == "" && QueryGet("", "sig") == "";
    ScanAddress(base, raw, link, "", hostOk);
  }

  /** The usual bases, a scheme such as https and a host, are linkable. */
  lemma HostIsLinkable(scheme: string, host: string, hostOk: HostCheck)
    requires scheme != "" && forall i :: 0 <= i < |scheme| ==> IsLetter(scheme[i])
    requires host != "" && '/' !in host && hostOk(host)
    ensures Linkable(scheme + "://" + host, hostOk)
  {
    StopsAtColon(scheme, "//" + host);
    assert scheme + "://" + host == scheme + ":" + ("//" + host);
    assert host[|host| - 1] in host;
    HostPath(host, hostOk);
  }

  lemma StopsAtColon(scheme: string, rest: string)
    requires scheme != "" && forall i :: 0 <= i < |scheme| ==> IsLetter(scheme[i])
    ensures SchemeFrom(scheme + ":" + rest, 0) == Present(rest)
  {
    var s := scheme + ":" + rest;
    assert s[|scheme| + 1..] == rest;
    SchemeStops(s, |scheme|, 0);
  }

  lemma HostPath(host: string, hostOk: HostCheck)
    requires '/' !in host && hostOk(host)
    ensures PathBehind(true, "//" + host, hostOk) == Some("")
  {
    var rest := "//" + host;
    assert rest[2..] == host;
    FindNone(host, '/');
    assert host[..|host|] == host;
  }

  lemma {:induction false} SchemeStops(s: string, n: nat, i: nat)
    requires i <= n < |s| && n > 0 && s[n] == ':'
    requires forall k :: 0 <= k < n ==> IsLetter(s[k])
    ensures SchemeFrom(s, i) == Present(s[n + 1..])
    decreases n - i
  {
    if i < n {
      SchemeStops(s, n, i + 1);
    }
  }

  // ---------------------------------------------------------------------------
  // The time arithmetic
  // ---------------------------------------------------------------------------

  lemma SignatureIsToken(digest: Digest, message: string)
    requires IsDigest(digest)
    ensures IsToken(Short(digest(message))) && |Short(digest(message))| == 24
  {
    assert |digest(message)| == 32;
  }

  lemma PrintedIsToken(n: int)
    ensures IsToken(PrintInt(n)) && PrintInt(n) != "static"
  {
    assert PrintInt(n)[0] != 's';
  }

  /** Scanning the link printed at `made` and checking it at `now`. */
  predicate AcceptedAt(
      digest: Digest, hostOk: HostCheck, base: string, raw: string, period: int, made: Time, now: Time) {
    var (token, ts, sig) := ParseQrValue(QrUrl(digest, base, raw, period, made), hostOk);
    token == raw && ValidateQrSignature(digest, token, ts, sig, period, now)
  }

  /** From printing to scanning, a dynamic link is accepted exactly while its window is next to the current one. */
  lemma AcceptedInAdjacentWindows(
      digest: Digest, hostOk: HostCheck, base: string, raw: string, period: int, made: Time, now: Time)
    requires IsDigest(digest) && IsPlain(base) && Linkable(base, hostOk) && IsToken(raw) && raw != ""
    requires period > 0 && IsInt64(Window(made, period))
    ensures AcceptedAt(digest, hostOk, base, raw, period, made, now) <==>
            -1 <= Window(now, period) - Window(made, period) <= 1
  {
    var ts := PrintInt(Window(made, period));
    ParsePrint(Window(made, period));
    PrintedIsToken(Window(made, period));
    SignatureIsToken(digest, "dynamic:" + raw + ":" + ts);
    SignedLinkRoundTrip(base, raw, ts, DynamicSignature(digest, raw, ts), hostOk);
  }

  lemma QuotientBounds(n: int, period: int)
    requires period > 0
    ensures (n / period) * period <= n < (n / period) * period + period
  {
  }

  lemma {:induction false} LessProduct(m: int, n: int, period: int)
    requires period > 0
    ensures m < n ==> m * period + period <= n * period
    decreases n - m
  {
    if m < n {
      LessProduct(m, n - 1, period);
      assert n * period == (n - 1) * period + period;
    }
  }

  /** The quotient is the only multiple of the period within one period. */
  lemma WindowIs(t: Time, period: int, q: int)
    requires period > 0 && t >= 0 && q * period <= t < q * period + period
    ensures Window(t, period) == q
  {
    QuotientBounds(t, period);
    LessProduct(q, t / period, period);
    LessProduct(t / period, q, period);
  }

  lemma QuotientSteps(a: int, b: int, period: int)
    requires period > 0 && 0 <= a <= b
    ensures b - a <= period ==> b / period - a / period <= 1
    ensures b - a >= 2 * period ==> b / period - a / period >= 2
    ensures 0 <= b / period - a / period
  {
    var p, q := a / period, b / period;
    QuotientBounds(a, period);
    QuotientBounds(b, period);
    LessProduct(q, p, period);
    assert (p + 1) * period == p * period + period;
    LessProduct(p + 1, q, period);
    assert (p + 2) * period == p * period + 2 * period;
    LessProduct(q, p + 2, period);
  }

  /** A link stays good for one period and is dead after two, for every period. */
  lemma GoodForOneDeadAfterTwo(
      digest: Digest, hostOk: HostCheck, base: string, raw: string, period: int, made: Time, now: Time)
    requires IsDigest(digest) && IsPlain(base) && Linkable(base, hostOk) && IsToken(raw) && raw != ""
    requires period > 0 && 0 <= made <= now && IsInt64(made)
    ensures now - made <= period ==> AcceptedAt(digest, hostOk, base, raw, period, made, now)
    ensures now - made >= 2 * period ==> !AcceptedAt(digest, hostOk, base, raw, period, made, now)
  {
    QuotientSteps(made, now, period);
    WindowFits(made, period);
    AcceptedInAdjacentWindows(digest, hostOk, base, raw, period, made, now);
  }

  lemma WindowFits(t: Time, period: int)
    requires period > 0 && t >= 0 && IsInt64(t)
    ensures IsInt64(Window(t, period))
  {
    var q := t / period;
    QuotientBounds(t, period);
    LessProduct(q, 0, period);
    LessProduct(0, q, period);
    QuotientAtMost(q, period);
  }

  lemma QuotientAtMost(q: int, period: int)
    requires period > 0
    ensures q >= 0 ==> q <= q * period
  {
    assert q * period - q == q * (period - 1);
  }

  /** The first bound is tight: some link dies one second after its period is over. */
  lemma PeriodIsTight(digest: Digest, hostOk: HostCheck, base: string, raw: string, period: int)
    requires IsDigest(digest) && IsPlain(base) && Linkable(base, hostOk) && IsToken(raw) && raw != ""
    requires period > 0
    ensures exists made: Time, now: Time ::
              0 <= made && now == made + period + 1 && !AcceptedAt(digest, hostOk, base, raw, period, made, now)
  {
    var made: Time, now: Time := period - 1, 2 * period;
    TightWindows(period);
    AcceptedByWindows(digest, hostOk, base, raw, period, made, now, 0, 2);
  }

  /** The second bound is tight: some link lives until one second before two periods are over. */
  lemma TwoPeriodsAreTight(digest: Digest, hostOk: HostCheck, base: string, raw: string, period: int)
    requires IsDigest(digest) && IsPlain(base) && Linkable(base, hostOk) && IsToken(raw) && raw != ""
    requires period > 0
    ensures exists made: Time, now: Time ::
              0 <= made && now == made + 2 * period - 1 && AcceptedAt(digest, hostOk, base, raw, period, made, now)
  {
    var made: Time, now: Time := 0, 2 * period - 1;
    TightWindows(period);
    AcceptedByWindows(digest, hostOk, base, raw, period, made, now, 0, 1);
  }

  lemma TightWindows(period: int)
    requires period > 0
    ensures Window(0, period) == 0 && Window(period - 1, period) == 0
    ensures Window(2 * period, period) == 2 && Window(2 * period - 1, period) == 1
  {
    WindowIs(0, period, 0);
    WindowIs(period - 1, period, 0);
    WindowIs(2 * period, period, 2);
    WindowIs(2 * period - 1, period, 1);
  }

  lemma AcceptedByWindows(digest: Digest, hostOk: HostCheck, base: string, raw: string, period: int,
                          made: Time, now: Time, w: int, w': int)
    requires IsDigest(digest) && IsPlain(base) && Linkable(base, hostOk) && IsToken(raw) && raw != ""
    requires period > 0 && Window(made, period) == w && Window(now, period) == w' && IsInt64(w)
    ensures AcceptedAt(digest, hostOk, base, raw, period, made, now) <==> -1 <= w' - w <= 1
  {
    AcceptedInAdjacentWindows(digest, hostOk, base, raw, period, made, now);
  }

  /** A static link is accepted whatever the period is and whenever it is scanned. */
  lemma StaticLinkAlwaysAccepted(digest: Digest, hostOk: HostCheck, base: string, raw: string, seconds: int, now: Time)
    requires IsDigest(digest) && IsPlain(base) && Linkable(base, hostOk) && IsToken(raw) && raw != ""
    ensures
      var (token, ts, sig) := ParseQrValue(StaticQrUrl(digest, base, raw), hostOk);
      token == raw && ValidateQrSignature(digest, token, ts, sig, seconds, now)
  {
    SignatureIsToken(digest, "qr-static:" + raw);
    SignedLinkRoundTrip(base, raw, "static", StaticSignature(digest, raw), hostOk);
  }

  ghost predicate Injective(digest: Digest) {
    forall m, n :: Short(digest(m)) == Short(digest(n)) ==> m == n
  }

  lemma NoColon(s: string)
    requires IsToken(s)
    ensures ':' !in s
  {
  }

  /** With an injective digest, a dynamic signature vouches for one token and one timestamp only. */
  lemma SignatureBinds(digest: Digest, raw: string, ts: string, raw': string, ts': string, period: int, now: Time)
    requires Injective(digest) && IsToken(raw) && IsToken(raw') && period > 0
    requires ValidateQrSignature(digest, raw', ts', DynamicSignature(digest, raw, ts), period, now)
    ensures raw' == raw && ts' == ts
  {
    SignedText(raw, ts, raw', ts');
  }

  lemma SignedText(raw: string, ts: string, raw': string, ts': string)
    requires IsToken(raw) && IsToken(raw')
    ensures "dynamic:" + raw + ":" + ts != "qr-static:" + raw'
    ensures "dynamic:" + raw + ":" + ts == "dynamic:" + raw' + ":" + ts' ==> raw == raw' && ts == ts'
  {
    var signed, other := "dynamic:" + raw + ":" + ts, "dynamic:" + raw' + ":" + ts';
    assert signed[0] == 'd' && ("qr-static:" + raw')[0] == 'q';
    assert signed[8..] == raw + [':'] + ts && other[8..] == raw' + [':'] + ts';
    NoColon(raw);
    NoColon(raw');
    CutAt(raw, ':', ts);
    CutAt(raw', ':', ts');
  }

  /** A static signature vouches for one token only, and no dynamic one passes for it. */
  lemma StaticSignatureBinds(digest: Digest, raw: string, ts: string, raw': string, period: int, now: Time)
    requires Injective(digest) && IsToken(raw) && IsToken(raw') && period > 0
    ensures ValidateQrSignature(digest, raw', "static", StaticSignature(digest, raw), period, now) ==> raw' == raw
    ensures !ValidateQrSignature(digest, raw', "static", DynamicSignature(digest, raw, ts), period, now)
  {
    SignedText(raw, ts, raw', ts);
    StaticText(raw, raw');
  }

  lemma StaticText(raw: string, raw': string)
    ensures "qr-static:" + raw == "qr-static:" + raw' ==> raw == raw'
  {
    assert ("qr-static:" + raw)[10..] == raw && ("qr-static:" + raw')[10..] == raw';
  }
}
