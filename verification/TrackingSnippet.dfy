/** Reading the origins a tracking snippet names, and placing the snippet in a page. */
module TrackingSnippet {
  import opened ScriptNonce
  import opened Strings

  /** Characters that cannot appear in an address inside HTML or JavaScript. */
  predicate IsUrlBoundary(c: char) {
    c in {'"', '\'', '`', '<', '>', ' ', '\t', '\n', '\r', ')', ',', ';', '\\', '+'}
  }

  /** A stretch that starts like an http address and goes on to the next boundary. */
  ghost predicate IsAddress(s: string, start: nat, end: nat) {
    && start < end <= |s|
    && MatchesAt(s, "http", start)
    && (forall i :: start <= i < end ==> !IsUrlBoundary(s[i]))
    && (end == |s| || IsUrlBoundary(s[end]))
  }

  /** The origin of the address that contains position `p` is listed, unless it has none. */
  ghost predicate Listed(s: string, p: nat, originOf: string -> string, origins: seq<string>) {
    exists start: nat, end: nat ::
      && IsAddress(s, start, end) && start <= p < end
      && (originOf(s[start..end]) == "" || originOf(s[start..end]) in origins)
  }

  predicate Distinct(origins: seq<string>) {
    forall i, j :: 0 <= i < j < |origins| ==> origins[i] != origins[j]
  }

  /** An address starts with a letter, so scanning it always moves forward. */
  lemma AddressStarts(s: string, start: nat)
    requires MatchesAt(s, "http", start)
    ensures start < |s| && !IsUrlBoundary(s[start])
  {
    assert Fold(s[start + 0]) == Fold("http"[0]);
  }

  lemma StillListed(s: string, p: nat, originOf: string -> string, origins: seq<string>, origin: string)
    requires Listed(s, p, originOf, origins)
    ensures Listed(s, p, originOf, origins + [origin])
  {
    var start: nat, end: nat :|
      && IsAddress(s, start, end) && start <= p < end
      && (originOf(s[start..end]) == "" || originOf(s[start..end]) in origins);
    assert IsAddress(s, start, end);
  }

  /** The scan reads an address from here: every "http" before it is in an address that has ended. */
  ghost predicate Leading(s: string, start: nat) {
    forall q :: 0 <= q < start <= |s| && MatchesAt(s, "http", q) ==> EndsBetween(s, q, start)
  }

  predicate EndsBetween(s: string, from: nat, until: nat)
    requires until <= |s|
  {
    exists b :: from <= b < until && IsUrlBoundary(s[b])
  }

  /** The first address the scan reads that has this origin starts here. */
  ghost predicate FirstNamed(s: string, start: nat, origin: string, originOf: string -> string) {
    && Leading(s, start)
    && (exists end: nat :: IsAddress(s, start, end) && originOf(s[start..end]) == origin)
    && forall p: nat, end: nat :: p < start && Leading(s, p) && IsAddress(s, p, end) ==> originOf(s[p..end]) != origin
  }

  /** An address the scan reads is not inside another one, so it is its own origin that is listed. */
  lemma LeadingIsListed(s: string, p: nat, end: nat, originOf: string -> string, origins: seq<string>)
    requires Listed(s, p, originOf, origins) && Leading(s, p) && IsAddress(s, p, end)
    ensures originOf(s[p..end]) == "" || originOf(s[p..end]) in origins
  {
    var start: nat, until: nat :|
      && IsAddress(s, start, until) && start <= p < until
      && (originOf(s[start..until]) == "" || originOf(s[start..until]) in origins);
    assert MatchesAt(s, "http", start) && !EndsBetween(s, start, p);
    assert start == p && until == end;
  }

  lemma NewIsFirst(s: string, start: nat, end: nat, originOf: string -> string, origins: seq<string>)
    requires Leading(s, start) && IsAddress(s, start, end)
    requires originOf(s[start..end]) != "" && originOf(s[start..end]) !in origins
    requires forall p: nat :: p < start && MatchesAt(s, "http", p) ==> Listed(s, p, originOf, origins)
    ensures FirstNamed(s, start, originOf(s[start..end]), originOf)
  {
    forall p: nat, until: nat | p < start && Leading(s, p) && IsAddress(s, p, until)
      ensures originOf(s[p..until]) != originOf(s[start..end])
    {
      LeadingIsListed(s, p, until, originOf, origins);
    }
  }

  lemma NextLeads(s: string, index: nat, start: nat)
    requires index <= start < |s| && MatchesAt(s, "http", start)
    requires index == 0 || IsUrlBoundary(s[index])
    requires forall p: nat :: index <= p < start ==> !MatchesAt(s, "http", p)
    ensures Leading(s, start)
  {
    AddressStarts(s, start);
  }

  ghost predicate Ascending(starts: seq<nat>) {
    forall i, j :: 0 <= i < j < |starts| ==> starts[i] < starts[j]
  }

  /** Every address before `index` has been read: its origin is listed, with the place where it is named first. */
  ghost predicate Scanned(s: string, index: nat, originOf: string -> string, origins: seq<string>, starts: seq<nat>) {
    && index <= |s| && (index == 0 || index == |s| || IsUrlBoundary(s[index]))
    && "" !in origins && Distinct(origins)
    && |starts| == |origins| && Ascending(starts) && (forall i :: 0 <= i < |starts| ==> starts[i] < index)
    && (forall i :: 0 <= i < |origins| ==> FirstNamed(s, starts[i], origins[i], originOf))
    && (forall p: nat :: p < index && MatchesAt(s, "http", p) ==> Listed(s, p, originOf, origins))
  }

  /** The next address, and the list with its origin if that is new. */
  lemma OneMoreRead(
      s: string, index: nat, start: nat, end: nat, originOf: string -> string, origins: seq<string>, starts: seq<nat>)
    requires Scanned(s, index, originOf, origins, starts) && index <= start && IsAddress(s, start, end)
    requires forall p: nat :: index <= p < start ==> !MatchesAt(s, "http", p)
    ensures
      var origin := originOf(s[start..end]);
      if origin == "" || origin in origins then Scanned(s, end, originOf, origins, starts)
      else Scanned(s, end, originOf, origins + [origin], starts + [start])
  {
    var origin := originOf(s[start..end]);
    if origin == "" || origin in origins {
      assert forall p: nat :: start <= p < end ==> Listed(s, p, originOf, origins);
    } else {
      NextLeads(s, index, start);
      NewIsFirst(s, start, end, originOf, origins);
      forall p: nat | p < end && MatchesAt(s, "http", p) ensures Listed(s, p, originOf, origins + [origin]) {
        if p < index {
          StillListed(s, p, originOf, origins, origin);
        }
      }
    }
  }

  /**
   Every origin named in the snippet, once, in the order of appearance: `starts` holds where each of them
   is named first. `originOf` reduces an address to its origin, or to nothing when it is not an absolute
   http address.
   */
  method SnippetOrigins(snippet: string, originOf: string -> string)
    returns (origins: seq<string>, ghost starts: seq<nat>)
    ensures "" !in origins && Distinct(origins)
    ensures |starts| == |origins| && Ascending(starts)
    ensures forall i :: 0 <= i < |origins| ==> FirstNamed(snippet, starts[i], origins[i], originOf)
    ensures forall p: nat :: MatchesAt(snippet, "http", p) ==> Listed(snippet, p, originOf, origins)
  {
    origins, starts := [], [];
    var index := 0;
    while index < |snippet|
      invariant Scanned(snippet, index, originOf, origins, starts)
      decreases |snippet| - index
    {
      var found := IndexFold(snippet[index..], "http");
      if found < 0 {
        forall p: nat | index <= p ensures !MatchesAt(snippet, "http", p) {
          HttpInRest(snippet, index, p - index);
        }
        break;
      }
      var start := index + found;
      forall p: nat | index <= p <= start ensures MatchesAt(snippet, "http", p) <==> p == start {
        HttpInRest(snippet, index, p - index);
      }
      var end := EndOfAddress(snippet, start);
      OneMoreRead(snippet, index, start, end, originOf, origins, starts);
      index := end;
      var origin := originOf(snippet[start..end]);
      if origin == "" || origin in origins {
        continue;
      }
      origins, starts := origins + [origin], starts + [start];
    }
  }

  method EndOfAddress(s: string, start: nat) returns (end: nat)
    requires MatchesAt(s, "http", start)
    ensures IsAddress(s, start, end)
  {
    AddressStarts(s, start);
    end := start;
    while end < |s| && !IsUrlBoundary(s[end])
      invariant start <= end <= |s|
      invariant forall i :: start <= i < end ==> !IsUrlBoundary(s[i])
    {
      end := end + 1;
    }
  }

  lemma HttpInRest(s: string, start: nat, i: nat)
    requires start <= |s|
    ensures MatchesAt(s[start..], "http", i) <==> MatchesAt(s, "http", start + i)
  {
    if start + i + 4 <= |s| {
      if MatchesAt(s, "http", start + i) {
        forall j | 0 <= j < 4 ensures Fold(s[start..][i + j]) == Fold("http"[j]) {
          assert Fold(s[start + i + j]) == Fold("http"[j]);
        }
      }
      if MatchesAt(s[start..], "http", i) {
        forall j | 0 <= j < 4 ensures Fold(s[start + i + j]) == Fold("http"[j]) {
          assert Fold(s[start..][i + j]) == Fold("http"[j]);
        }
      }
    }
  }

  // ---------------------------------------------------------------------------
  // Placement
  // ---------------------------------------------------------------------------

  /** The closing tags in order of preference. */
  function Closers(placement: string): (closers: seq<string>)
    ensures |closers| == 2
  {
    if placement == "body" then ["</body>", "</head>"] else ["</head>", "</body>"]
  }

  /** The snippet on a line of its own in front of position `at`. */
  function InsertedAt(document: string, snippet: string, at: nat): string
    requires at <= |document|
  {
    document[..at] + snippet + "\n" + document[at..]
  }

  /** `at` is where the first closing tag is that the document has, by preference. */
  ghost predicate IsPlacement(document: string, closers: seq<string>, at: nat) {
    exists k :: 0 <= k < |closers| && IsFirstMatch(document, closers[k], at)
                && forall j :: 0 <= j < k ==> !ContainsFold(document, closers[j])
  }

  method InjectTrackingSnippet(document: string, snippet: string, placement: string)
    returns (result: string, placed: bool)
    ensures placed <==>
              TrimSpace(snippet) != "" && (ContainsFold(document, "</head>") || ContainsFold(document, "</body>"))
    ensures !placed ==> result == document
    ensures placed ==> exists at: nat :: at <= |document| && IsPlacement(document, Closers(placement), at)
                                         && result == document[..at] + snippet + "\n" + document[at..]
  {
    if TrimSpace(snippet) == "" {
      return document, false;
    }
    var closers := ["</head>", "</body>"];
    if placement == "body" {
      closers := ["</body>", "</head>"];
    }
    for k := 0 to 2
      invariant closers == Closers(placement)
      invariant forall j :: 0 <= j < k ==> !ContainsFold(document, closers[j])
    {
      var index := IndexFold(document, closers[k]);
      if index >= 0 {
        assert ContainsFold(document, closers[k]) && closers[k] in {"</head>", "</body>"};
        assert IsPlacement(document, closers, index);
        return InsertedAt(document, snippet, index), true;
      }
    }
    assert closers[0] in {"</head>", "</body>"} && closers[1] in {"</head>", "</body>"} && closers[0] != closers[1];
    return document, false;
  }
}
