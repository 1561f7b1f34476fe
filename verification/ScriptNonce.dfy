/**
 Tracking snippets: adding the request's nonce to pasted script tags, reading the origins a snippet
 names, and placing it in a page.

 Go strings are byte sequences and every needle here is ASCII, so a string is one character per byte.
 */
module ScriptNonce {
  import opened Strings

  // ---------------------------------------------------------------------------
  // Searching without regard to ASCII case
  // ---------------------------------------------------------------------------

  function Fold(c: char): char {
    if 'A' <= c <= 'Z' then 'a' + (c as int - 'A' as int) as char else c
  }

  /** Capital letters are 32 before small ones; nothing else is touched. */
  lemma FoldMeans(c: char)
    ensures 'A' <= c <= 'Z' ==> 'a' <= Fold(c) <= 'z' && Fold(c) as int == c as int + 32
    ensures !('A' <= c <= 'Z') ==> Fold(c) == c
  {
  }

  predicate MatchesAt(s: string, needle: string, i: int) {
    0 <= i && i + |needle| <= |s| && forall j :: 0 <= j < |needle| ==> Fold(s[i + j]) == Fold(needle[j])
  }

  predicate ContainsFold(s: string, needle: string) {
    exists i :: 0 <= i <= |s| && MatchesAt(s, needle, i)
  }

  predicate IsFirstMatch(s: string, needle: string, index: int) {
    MatchesAt(s, needle, index) && forall i :: 0 <= i < index ==> !MatchesAt(s, needle, i)
  }

  /** The least position of the needle, or -1. */
  method IndexFold(s: string, needle: string) returns (index: int)
    ensures index >= 0 ==> IsFirstMatch(s, needle, index)
    ensures index < 0 ==> index == -1 && !ContainsFold(s, needle)
  {
    if |needle| == 0 {
      return 0;
    }
    var i := 0;
    while i + |needle| <= |s|
      invariant forall k :: 0 <= k < i ==> !MatchesAt(s, needle, k)
    {
      var matched := true;
      var j := 0;
      while j < |needle|
        invariant 0 <= j <= |needle|
        invariant matched
        invariant forall k :: 0 <= k < j ==> Fold(s[i + k]) == Fold(needle[k])
      {
        if Fold(s[i + j]) != Fold(needle[j]) {
          matched := false;
          break;
        }
        j := j + 1;
      }
      if matched {
        return i;
      }
      i := i + 1;
    }
    return -1;
  }

  // ---------------------------------------------------------------------------
  // Where nonces go
  // ---------------------------------------------------------------------------

  function ScriptChar(j: nat): char {
    if j == 0 then '<' else if j == 1 then 's' else if j == 2 then 'c' else if j == 3 then 'r'
    else if j == 4 then 'i' else if j == 5 then 'p' else 't'
  }

  function NonceChar(j: nat): char {
    if j == 0 || j == 2 then 'n' else if j == 1 then 'o' else if j == 3 then 'c' else if j == 4 then 'e' else '='
  }

  /** "<script" at position `i`, from its letter `j` on. */
  predicate SpellsScript(s: string, i: nat, j: nat)
    requires i + 7 <= |s| && j <= 7
    decreases |s| - i - j
  {
    j == 7 || (Fold(s[i + j]) == ScriptChar(j) && SpellsScript(s, i, j + 1))
  }

  /** "nonce=" at position `i`, from its letter `j` on. */
  predicate SpellsNonce(s: string, i: nat, j: nat)
    requires i + 6 <= |s| && j <= 6
    decreases |s| - i - j
  {
    j == 6 || (Fold(s[i + j]) == NonceChar(j) && SpellsNonce(s, i, j + 1))
  }

  predicate ScriptAt(s: string, i: int) {
    0 <= i && i + 7 <= |s| && SpellsScript(s, i, 0)
  }

  predicate NonceAt(s: string, i: int) {
    0 <= i && i + 6 <= |s| && SpellsNonce(s, i, 0)
  }

  predicate HasNonce(tag: string) {
    exists i :: 0 <= i < |tag| && NonceAt(tag, i)
  }

  lemma {:induction false} ScriptLetters(s: string, i: nat, j: nat)
    requires i + 7 <= |s| && j <= 7
    ensures SpellsScript(s, i, j) <==> forall d :: j <= d < 7 ==> Fold(s[i + d]) == ScriptChar(d)
    decreases 7 - j
  {
    if j < 7 {
      ScriptLetters(s, i, j + 1);
    }
  }

  lemma {:induction false} NonceLetters(s: string, i: nat, j: nat)
    requires i + 6 <= |s| && j <= 6
    ensures SpellsNonce(s, i, j) <==> forall d :: j <= d < 6 ==> Fold(s[i + d]) == NonceChar(d)
    decreases 6 - j
  {
    if j < 6 {
      NonceLetters(s, i, j + 1);
    }
  }

  lemma ScriptAtIsMatch(s: string, i: int)
    ensures ScriptAt(s, i) <==> MatchesAt(s, "<script", i)
  {
    assert forall j :: 0 <= j < 7 ==> Fold("<script"[j]) == ScriptChar(j);
    if 0 <= i && i + 7 <= |s| {
      ScriptLetters(s, i, 0);
    }
  }

  lemma NonceAtIsMatch(s: string, i: int)
    ensures NonceAt(s, i) <==> MatchesAt(s, "nonce=", i)
  {
    assert forall j :: 0 <= j < 6 ==> Fold("nonce="[j]) == NonceChar(j);
    if 0 <= i && i + 6 <= |s| {
      NonceLetters(s, i, 0);
    }
  }

  ghost predicate IsFirstScript(s: string, index: int) {
    ScriptAt(s, index) && forall i :: i < index ==> !ScriptAt(s, i)
  }

  ghost predicate NoScript(s: string) {
    forall i :: !ScriptAt(s, i)
  }

  method IndexScript(s: string) returns (index: int)
    ensures if index < 0 then NoScript(s) else IsFirstScript(s, index)
  {
    index := IndexFold(s, "<script");
    forall i: int ensures ScriptAt(s, i) <==> MatchesAt(s, "<script", i) {
      ScriptAtIsMatch(s, i);
    }
  }

  method IndexNonce(tag: string) returns (index: int)
    ensures index >= 0 <==> HasNonce(tag)
  {
    index := IndexFold(tag, "nonce=");
    forall i: int ensures NonceAt(tag, i) <==> MatchesAt(tag, "nonce=", i) {
      NonceAtIsMatch(tag, i);
    }
  }

  /** What is left of a tag: up to the next '>', or everything. */
  function Tag(rest: string): string {
    rest[..Find(rest, '>')]
  }

  function TagAt(s: string, i: nat): string
    requires i <= |s|
  {
    Tag(s[i..])
  }

  /** The name of a script tag without a nonce ends right before position `k`. */
  predicate NeedsNonce(s: string, k: int) {
    k <= |s| && ScriptAt(s, k - 7) && !HasNonce(TagAt(s, k))
  }

  /** The positions where a nonce is missing. */
  function Places(s: string): set<nat> {
    set k: nat | k <= |s| && NeedsNonce(s, k)
  }

  /** The first `k` characters with `added` at every one of the places. */
  function Woven(s: string, added: string, places: set<nat>, k: nat): string
    requires k <= |s|
  {
    if k == 0 then ""
    else
      var copied := Woven(s, added, places, k - 1) + [s[k - 1]];
      if k in places then copied + added else copied
  }

  /** `added` behind the name of every script tag without a nonce, and nowhere else. */
  function Weave(s: string, added: string): string {
    Woven(s, added, Places(s), |s|)
  }

  function EscapeChar(c: char): string {
    match c
    case '<' => "&lt;"
    case '>' => "&gt;"
    case '&' => "&amp;"
    case '\'' => "&#39;"
    case '"' => "&#34;"
    case _ => [c]
  }

  /** html.EscapeString. */
  function Escape(s: string): string {
    if s == "" then "" else EscapeChar(s[0]) + Escape(s[1..])
  }

  /** Quotes become references to their own code, the other three their names. */
  lemma EscapeMeans(c: char)
    ensures c in {'\'', '"'} ==> EscapeChar(c) == "&#" + PrintNat(c as nat) + ";"
    ensures c == '<' ==> EscapeChar(c) == "&lt;"
    ensures c == '>' ==> EscapeChar(c) == "&gt;"
    ensures c == '&' ==> EscapeChar(c) == "&amp;"
    ensures c !in {'\'', '"', '<', '>', '&'} ==> EscapeChar(c) == [c]
  {
    assert PrintNat(3) == "3" && PrintNat(39) == "39" && PrintNat(34) == "34";
  }

  lemma {:induction false} EscapedIsSafe(s: string)
    ensures '<' !in Escape(s) && '>' !in Escape(s) && '"' !in Escape(s)
  {
    if s != "" {
      EscapedIsSafe(s[1..]);
    }
  }

  function Attribute(nonce: string): string {
    " nonce=\"" + Escape(nonce) + "\""
  }

  function AddNonce(snippet: string, nonce: string): string {
    if nonce == "" then snippet else Weave(snippet, Attribute(nonce))
  }

  /** Between two places text is copied. */
  lemma {:induction false} WovenStep(s: string, added: string, places: set<nat>, start: nat, end: nat)
    requires start < end <= |s|
    requires forall k :: start < k < end ==> k !in places
    ensures Woven(s, added, places, end) ==
            Woven(s, added, places, start) + s[start..end] + if end in places then added else ""
    decreases end
  {
    if start + 1 < end {
      WovenStep(s, added, places, start, end - 1);
      assert s[start..end] == s[start..end - 1] + [s[end - 1]];
    } else {
      assert s[start..end] == [s[start]];
    }
  }

  lemma SameScript(s: string, t: string, i: nat, j: nat)
    requires i + 7 <= |s| && j + 7 <= |t| && s[i..i + 7] == t[j..j + 7]
    ensures ScriptAt(s, i) <==> ScriptAt(t, j)
  {
    ScriptLetters(s, i, 0);
    ScriptLetters(t, j, 0);
    forall d: nat | d < 7
      ensures Fold(s[i + d]) == ScriptChar(d) <==> Fold(t[j + d]) == ScriptChar(d)
    {
      assert s[i..i + 7][d] == t[j..j + 7][d];
    }
  }

  lemma SameNonce(s: string, t: string, i: nat, j: nat)
    requires i + 6 <= |s| && j + 6 <= |t| && s[i..i + 6] == t[j..j + 6]
    ensures NonceAt(s, i) <==> NonceAt(t, j)
  {
    NonceLetters(s, i, 0);
    NonceLetters(t, j, 0);
    forall d: nat | d < 6
      ensures Fold(s[i + d]) == NonceChar(d) <==> Fold(t[j + d]) == NonceChar(d)
    {
      assert s[i..i + 6][d] == t[j..j + 6][d];
    }
  }

  lemma ScriptInRest(s: string, start: nat, i: nat)
    requires start <= |s|
    ensures ScriptAt(s[start..], i) <==> ScriptAt(s, start + i)
  {
    if start + i + 7 <= |s| {
      assert s[start..][i..i + 7] == s[start + i..start + i + 7];
      SameScript(s[start..], s, i, start + i);
    }
  }

  lemma NonceInRest(s: string, start: nat, i: nat)
    requires start <= |s|
    ensures NonceAt(s[start..], i) <==> NonceAt(s, start + i)
  {
    if start + i + 6 <= |s| {
      assert s[start..][i..i + 6] == s[start + i..start + i + 6];
      SameNonce(s[start..], s, i, start + i);
    }
  }

  /** A name has one '<', at its start. */
  lemma NameChars(s: string, i: int, d: nat)
    requires ScriptAt(s, i) && d < 7
    ensures Fold(s[i + d]) == '<' <==> d == 0
    ensures d == 6 ==> Fold(s[i + d]) == 't'
  {
    ScriptLetters(s, i, 0);
    assert Fold(s[i + d]) == ScriptChar(d);
  }

  lemma NameEnd(s: string, k: int)
    requires 0 < k <= |s|
    ensures ScriptAt(s, k - 7) ==> Fold(s[k - 1]) == 't'
  {
    if ScriptAt(s, k - 7) {
      NameChars(s, k - 7, 6);
    }
  }

  lemma NameStart(s: string, i: int)
    requires 0 <= i < |s|
    ensures ScriptAt(s, i) ==> Fold(s[i]) == '<'
  {
    if ScriptAt(s, i) {
      NameChars(s, i, 0);
    }
  }

  /** So two names never overlap. */
  lemma NamesDoNotOverlap(s: string, i: int, j: int)
    requires ScriptAt(s, i) && i < j < i + 7
    ensures !ScriptAt(s, j)
  {
    NameChars(s, i, j - i);
    NameStart(s, j);
  }

  /** Up to the end of the next name there is no other place to add anything. */
  lemma NothingBefore(s: string, pos: nat, next: nat)
    requires pos <= next <= |s|
    requires pos == 0 || ScriptAt(s, pos - 7)
    requires forall i :: pos <= i < next - 7 ==> !ScriptAt(s, i)
    ensures forall k :: pos < k < next ==> k !in Places(s)
  {
    forall k | pos < k < next ensures !NeedsNonce(s, k) {
      if k - 7 < pos && pos > 0 {
        NamesDoNotOverlap(s, pos - 7, k - 7);
      }
    }
  }

  /** The text built so far, with the addition if the tag that goes on with `rest` needs it. */
  function WithAddition(built: string, rest: string, added: string): string {
    if HasNonce(Tag(rest)) then built else built + added
  }

  /** What the loop has done when `remaining` is left: everything before it is woven into `built`. */
  ghost predicate WovenUpTo(s: string, added: string, pos: nat, built: string, remaining: string) {
    && pos <= |s| && remaining == s[pos..] && (pos == 0 || ScriptAt(s, pos - 7))
    && built == Woven(s, added, Places(s), pos)
  }

  method WithScriptNonce(snippet: string, nonce: string) returns (result: string)
    ensures result == AddNonce(snippet, nonce)
  {
    if nonce == "" || snippet == "" {
      return snippet;
    }
    result := AddAttribute(snippet, Attribute(nonce));
  }

  /** The rewriting loop: a builder and the part of the snippet not read yet. */
  method AddAttribute(snippet: string, attribute: string) returns (result: string)
    ensures result == Weave(snippet, attribute)
  {
    var builder := "";
    var remaining := snippet;
    ghost var pos := 0;
    while true
      invariant WovenUpTo(snippet, attribute, pos, builder, remaining)
      decreases |remaining|
    {
      var index := IndexScript(remaining);
      if index < 0 {
        Finished(snippet, attribute, pos, builder, remaining);
        return builder + remaining;
      }
      var end := index + 7; // the length of the needle
      Turned(snippet, attribute, pos, builder, remaining, end);
      builder := builder + remaining[..end];
      var found := IndexNonce(Tag(remaining[end..]));
      if found < 0 {
        builder := builder + attribute;
      }
      remaining := remaining[end..];
      pos := pos + end;
    }
  }

  lemma Finished(s: string, added: string, pos: nat, built: string, remaining: string)
    requires WovenUpTo(s, added, pos, built, remaining) && NoScript(remaining)
    ensures built + remaining == Weave(s, added)
  {
    NoMatchLeft(s, added, pos);
  }

  /** One turn of the loop, up to the end of the next name. */
  lemma Turned(s: string, added: string, pos: nat, built: string, remaining: string, end: nat)
    requires WovenUpTo(s, added, pos, built, remaining)
    requires 7 <= end <= |remaining| && IsFirstScript(remaining, end - 7)
    ensures WovenUpTo(
      s, added, pos + end, WithAddition(built + remaining[..end], remaining[end..], added), remaining[end..])
  {
    NextName(s, pos, end - 7);
    NextMatch(s, added, pos, pos + end);
    SliceBehind(s, pos, end);
  }

  lemma NoPlaceLeft(s: string, pos: nat)
    requires pos <= |s| && (pos == 0 || ScriptAt(s, pos - 7))
    requires forall i :: pos <= i ==> !ScriptAt(s, i)
    ensures forall k :: pos < k ==> k !in Places(s)
  {
    forall k | pos < k <= |s| ensures !NeedsNonce(s, k) {
      if pos > 0 && k - 7 < pos {
        NamesDoNotOverlap(s, pos - 7, k - 7);
      }
    }
  }

  /** When no name is left, what remains is copied. */
  lemma NoMatchLeft(s: string, added: string, pos: nat)
    requires pos <= |s| && (pos == 0 || ScriptAt(s, pos - 7))
    requires NoScript(s[pos..])
    ensures Weave(s, added) == Woven(s, added, Places(s), pos) + s[pos..]
  {
    forall i | pos <= i ensures !ScriptAt(s, i) {
      ScriptInRest(s, pos, i - pos);
    }
    NoPlaceLeft(s, pos);
    if pos < |s| {
      WovenStep(s, added, Places(s), pos, |s|);
    }
  }

  /** The first name of what remains, as a position of the snippet. */
  lemma NextName(s: string, pos: nat, index: nat)
    requires pos <= |s| && IsFirstScript(s[pos..], index)
    ensures ScriptAt(s, pos + index)
    ensures forall i :: pos <= i < pos + index ==> !ScriptAt(s, i)
  {
    ScriptInRest(s, pos, index);
    forall i | pos <= i < pos + index ensures !ScriptAt(s, i) {
      ScriptInRest(s, pos, i - pos);
    }
  }

  /** The end of a name is a place exactly when the tag has no nonce. */
  lemma PlaceAtName(s: string, end: nat)
    requires end <= |s| && ScriptAt(s, end - 7)
    ensures end in Places(s) <==> !HasNonce(TagAt(s, end))
  {
  }

  /** The next name is copied, and its end gets an addition if its tag has no nonce. */
  lemma NextMatch(s: string, added: string, pos: nat, end: nat)
    requires pos <= end - 7 && end <= |s| && (pos == 0 || ScriptAt(s, pos - 7))
    requires ScriptAt(s, end - 7) && forall i :: pos <= i < end - 7 ==> !ScriptAt(s, i)
    ensures Woven(s, added, Places(s), end) ==
            WithAddition(Woven(s, added, Places(s), pos) + s[pos..end], s[end..], added)
  {
    PlaceAtName(s, end);
    NothingBefore(s, pos, end);
    WovenStep(s, added, Places(s), pos, end);
  }

  lemma SliceBehind(s: string, pos: nat, n: nat)
    requires pos + n <= |s|
    ensures s[pos..][n..] == s[pos + n..] && s[pos..][..n] == s[pos..pos + n]
  {
  }

  // ---------------------------------------------------------------------------
  // What the rewriting does to a snippet
  // ---------------------------------------------------------------------------

  /** A text in the making: what was kept and what was added, in order. */
  datatype Draft = Blank | Kept(before: Draft, c: char) | Added(before: Draft, text: string)

  function Print(draft: Draft): string {
    match draft
    case Blank => ""
    case Kept(before, c) => Print(before) + [c]
    case Added(before, text) => Print(before) + text
  }

  /** The text with the additions erased. */
  function Erase(draft: Draft): string {
    match draft
    case Blank => ""
    case Kept(before, c) => Erase(before) + [c]
    case Added(before, _) => Erase(before)
  }

  /** Every addition is this one. */
  predicate AddsOnly(draft: Draft, added: string) {
    match draft
    case Blank => true
    case Kept(before, _) => AddsOnly(before, added)
    case Added(before, text) => text == added && AddsOnly(before, added)
  }

  /** The woven text as a draft. */
  function Drafted(s: string, added: string, places: set<nat>, k: nat): Draft
    requires k <= |s|
  {
    if k == 0 then Blank
    else
      var kept := Kept(Drafted(s, added, places, k - 1), s[k - 1]);
      if k in places then Added(kept, added) else kept
  }

  lemma {:induction false} DraftPrints(s: string, added: string, places: set<nat>, k: nat)
    requires k <= |s|
    ensures Print(Drafted(s, added, places, k)) == Woven(s, added, places, k)
    ensures AddsOnly(Drafted(s, added, places, k), added)
  {
    if k > 0 {
      DraftPrints(s, added, places, k - 1);
    }
  }

  lemma {:induction false} DraftErases(s: string, added: string, places: set<nat>, k: nat)
    requires k <= |s|
    ensures Erase(Drafted(s, added, places, k)) == s[..k]
  {
    if k > 0 {
      DraftErases(s, added, places, k - 1);
      assert s[..k] == s[..k - 1] + [s[k - 1]];
    }
  }

  /** The result is the snippet with additions: erase them and the snippet is back. */
  lemma OnlyInserts(snippet: string, nonce: string) returns (draft: Draft)
    ensures Print(draft) == AddNonce(snippet, nonce) && Erase(draft) == snippet
    ensures AddsOnly(draft, Attribute(nonce))
  {
    var places := if nonce == "" then {} else Places(snippet);
    draft := Drafted(snippet, Attribute(nonce), places, |snippet|);
    DraftPrints(snippet, Attribute(nonce), places, |snippet|);
    DraftErases(snippet, Attribute(nonce), places, |snippet|);
    assert snippet[..|snippet|] == snippet;
    NothingWoven(snippet, Attribute(nonce), |snippet|);
  }

  lemma {:induction false} NothingWoven(s: string, added: string, k: nat)
    requires k <= |s|
    ensures Woven(s, added, {}, k) == s[..k]
  {
    if k > 0 {
      NothingWoven(s, added, k - 1);
      assert s[..k] == s[..k - 1] + [s[k - 1]];
    }
  }

  // ---------------------------------------------------------------------------
  // Positions before and after
  // ---------------------------------------------------------------------------

  /** Where character `k` of the snippet ends up. */
  function Shift(s: string, added: string, places: set<nat>, k: nat): nat
    requires k <= |s|
  {
    |Woven(s, added, places, k)|
  }

  lemma {:induction false} WovenPrefix(s: string, added: string, places: set<nat>, k: nat, n: nat)
    requires k <= n <= |s|
    ensures Woven(s, added, places, k) <= Woven(s, added, places, n)
    ensures k < n ==> Shift(s, added, places, k) < Shift(s, added, places, n)
    ensures k < n ==> Woven(s, added, places, n)[Shift(s, added, places, k)] == s[k]
    decreases n
  {
    if k < n {
      WovenPrefix(s, added, places, k, n - 1);
    }
  }

  /** Every character of the woven text comes from the snippet or from an addition. */
  lemma {:induction false} Origin(s: string, added: string, places: set<nat>, n: nat, i: nat) returns (k: nat)
    requires n <= |s| && i < Shift(s, added, places, n)
    ensures k < n
    ensures i == Shift(s, added, places, k) || Woven(s, added, places, n)[i] in added
  {
    if i < Shift(s, added, places, n - 1) {
      k := Origin(s, added, places, n - 1, i);
      WovenPrefix(s, added, places, n - 1, n);
    } else {
      k := n - 1;
    }
  }

  /** Without places in between, a stretch of the snippet stays in one piece. */
  lemma StaysTogether(s: string, added: string, places: set<nat>, start: nat, end: nat)
    requires start < end <= |s|
    requires forall k :: start < k < end ==> k !in places
    ensures
      var woven, at := Woven(s, added, places, |s|), Shift(s, added, places, start);
      at + (end - start) <= |woven| && woven[at..at + (end - start)] == s[start..end]
  {
    WovenStep(s, added, places, start, end);
    WovenPrefix(s, added, places, end, |s|);
  }

  /** No addition falls inside a name or behind its first characters. */
  lemma NoPlaceBehind(s: string, p: nat)
    requires p < |s| && s[p] == '<'
    ensures forall k :: p < k < p + 7 ==> k !in Places(s)
  {
    forall k | p < k < p + 7 ensures !(k <= |s| && NeedsNonce(s, k)) {
      if k <= |s| && ScriptAt(s, k - 7) && k < p + 7 {
        NameChars(s, k - 7, p - (k - 7));
      }
    }
  }

  /** Every name of the snippet is still a name. */
  lemma NameSurvives(s: string, added: string, p: nat)
    requires ScriptAt(s, p)
    ensures ScriptAt(Weave(s, added), Shift(s, added, Places(s), p))
  {
    NameChars(s, p, 0);
    NoPlaceBehind(s, p);
    StaysTogether(s, added, Places(s), p, p + 7);
    SameScript(s, Weave(s, added), p, Shift(s, added, Places(s), p));
  }

  /** And no other name has appeared. */
  lemma NameIsOld(s: string, added: string, i: nat) returns (p: nat)
    requires '<' !in added && ScriptAt(Weave(s, added), i)
    ensures p < |s| && i == Shift(s, added, Places(s), p) && ScriptAt(s, p)
  {
    var woven := Weave(s, added);
    NameChars(woven, i, 0);
    p := Origin(s, added, Places(s), |s|, i);
    WovenPrefix(s, added, Places(s), p, |s|);
    NoPlaceBehind(s, p);
    var end := if p + 7 <= |s| then p + 7 else |s|;
    StaysTogether(s, added, Places(s), p, end);
    if end < p + 7 {
      WovenStep(s, added, Places(s), p, |s|);
    }
    SameScript(s, woven, p, i);
  }

  // ---------------------------------------------------------------------------
  // Every tag has a nonce
  // ---------------------------------------------------------------------------

  lemma AttributeHasNonce(nonce: string)
    ensures NonceAt(Attribute(nonce), 1)
    ensures '<' !in Attribute(nonce) && '>' !in Attribute(nonce)
  {
    EscapedIsSafe(nonce);
    NonceText(Attribute(nonce));
  }

  lemma NonceText(s: string)
    requires |s| >= 7 && s[1..7] == "nonce="
    ensures NonceAt(s, 1)
  {
    NonceLetters(s, 1, 0);
    forall d: nat | d < 6 ensures Fold(s[1 + d]) == NonceChar(d) {
      assert s[1 + d] == s[1..7][d];
    }
  }

  lemma SliceOfPrefix(s: string, n: nat, i: nat, j: nat)
    requires i <= j <= n <= |s|
    ensures s[..n][i..j] == s[i..j]
  {
  }

  /** A nonce that ends before the first '>' is inside the tag. */
  lemma NonceInTag(rest: string, i: nat)
    requires NonceAt(rest, i)
    requires forall k :: 0 <= k < i + 6 ==> rest[k] != '>'
    ensures HasNonce(Tag(rest))
  {
    FindIsFirst(rest, '>');
    var n := Find(rest, '>');
    assert n >= i + 6;
    SliceOfPrefix(rest, n, i, i + 6);
    SameNonce(rest[..n], rest, i, i);
  }

  /** No '>' appears where there was none. */
  lemma {:induction false} NoClosing(s: string, added: string, places: set<nat>, start: nat, end: nat)
    requires start <= end <= |s| && '>' !in added
    requires forall k :: start <= k < end ==> s[k] != '>'
    ensures Shift(s, added, places, start) <= Shift(s, added, places, end)
    ensures forall i :: Shift(s, added, places, start) <= i < Shift(s, added, places, end) ==>
              Woven(s, added, places, end)[i] != '>'
    decreases end
  {
    if start < end {
      NoClosing(s, added, places, start, end - 1);
      assert '>' !in if end in places then added else "";
    }
  }

  lemma NoTInNonce(s: string, q: nat, d: nat)
    requires NonceAt(s, q) && d < 6
    ensures Fold(s[q + d]) != 't'
  {
    NonceLetters(s, q, 0);
    assert Fold(s[q + d]) == NonceChar(d);
  }

  /** A nonce that was there stays in one piece: no addition falls inside it. */
  lemma NoPlaceInNonce(s: string, q: nat)
    requires NonceAt(s, q)
    ensures forall k :: q < k < q + 6 ==> k !in Places(s)
  {
    forall k | q < k < q + 6 ensures !NeedsNonce(s, k) {
      NoTInNonce(s, q, k - 1 - q);
      NameEnd(s, k);
    }
  }

  /** A nonce of the snippet is a nonce of the result. */
  lemma NonceSurvives(s: string, added: string, q: nat)
    requires NonceAt(s, q)
    ensures
      var woven, at := Weave(s, added), Shift(s, added, Places(s), q);
      at + 6 <= |woven| && woven[at..at + 6] == s[q..q + 6] && NonceAt(woven, at)
  {
    NoPlaceInNonce(s, q);
    StaysTogether(s, added, Places(s), q, q + 6);
    SameNonce(s, Weave(s, added), q, Shift(s, added, Places(s), q));
  }

  /** Up to the end of that nonce the result has no '>' either. */
  lemma OpenUntil(s: string, added: string, end: nat, q: nat)
    requires end <= q && NonceAt(s, q) && '>' !in added
    requires forall k :: end <= k < q + 6 ==> s[k] != '>'
    ensures
      var woven, start, at := Weave(s, added), Shift(s, added, Places(s), end), Shift(s, added, Places(s), q);
      start <= at && at + 6 <= |woven| && forall i :: start <= i < at + 6 ==> woven[i] != '>'
  {
    var woven, at := Weave(s, added), Shift(s, added, Places(s), q);
    NonceSurvives(s, added, q);
    NoClosing(s, added, Places(s), end, q);
    WovenPrefix(s, added, Places(s), q, |s|);
    forall i | at <= i < at + 6 ensures woven[i] != '>' {
      assert woven[at..at + 6][i - at] == s[q..q + 6][i - at];
    }
  }

  /** The nonce that was in the tag is still in the tag. */
  lemma OldNonceStays(s: string, added: string, end: nat)
    requires end <= |s| && '>' !in added
    requires HasNonce(TagAt(s, end))
    ensures HasNonce(TagAt(Weave(s, added), ShiftIn(s, added, end)))
  {
    var j :| 0 <= j < |TagAt(s, end)| && NonceAt(TagAt(s, end), j);
    NonceInSnippet(s, end, j);
    OldNonceAt(s, added, end, end + j);
  }

  lemma OldNonceAt(s: string, added: string, end: nat, q: nat)
    requires end <= q && NonceAt(s, q) && '>' !in added
    requires forall k :: end <= k < q + 6 ==> s[k] != '>'
    ensures HasNonce(TagAt(Weave(s, added), ShiftIn(s, added, end)))
  {
    NonceSurvives(s, added, q);
    OpenUntil(s, added, end, q);
    MatchBehind(Weave(s, added), ShiftIn(s, added, end), Shift(s, added, Places(s), q));
  }

  lemma MatchBehind(s: string, start: nat, at: nat)
    requires start <= at && NonceAt(s, at)
    requires forall k :: start <= k < at + 6 ==> s[k] != '>'
    ensures HasNonce(TagAt(s, start))
  {
    NonceInRest(s, start, at - start);
    NonceInTag(s[start..], at - start);
  }

  function ShiftIn(s: string, added: string, k: nat): (at: nat)
    requires k <= |s|
    ensures at <= |Weave(s, added)|
  {
    WovenPrefix(s, added, Places(s), k, |s|);
    Shift(s, added, Places(s), k)
  }

  lemma NonceInSnippet(s: string, end: nat, j: nat)
    requires end <= |s| && NonceAt(TagAt(s, end), j)
    ensures NonceAt(s, end + j)
    ensures forall k :: end <= k < end + j + 6 ==> s[k] != '>'
  {
    var rest := s[end..];
    var tag := Tag(rest);
    FindIsFirst(rest, '>');
    assert tag[j..j + 6] == s[end + j..end + j + 6];
    SameNonce(tag, s, j, end + j);
    forall k | end <= k < end + j + 6 ensures s[k] != '>' {
      assert tag[k - end] == s[k];
    }
  }

  /** An added nonce is in the tag it was added to. */
  lemma NewNonceIsThere(s: string, added: string, end: nat)
    requires end in Places(s) && end > 0 && NonceAt(added, 1) && '>' !in added
    ensures
      var behind := Shift(s, added, Places(s), end - 1) + 1;
      behind <= |Weave(s, added)| && HasNonce(TagAt(Weave(s, added), behind))
  {
    AddedAt(s, added, end);
    AddedIsInTag(Weave(s, added), added, Shift(s, added, Places(s), end - 1) + 1);
  }

  lemma AddedAt(s: string, added: string, end: nat)
    requires end in Places(s) && end > 0
    ensures
      var behind := Shift(s, added, Places(s), end - 1) + 1;
      behind + |added| <= |Weave(s, added)| && Weave(s, added)[behind..behind + |added|] == added
  {
    var before := Woven(s, added, Places(s), end - 1) + [s[end - 1]];
    assert Woven(s, added, Places(s), end) == before + added;
    WovenPrefix(s, added, Places(s), end, |s|);
    assert (before + added)[|before|..] == added;
  }

  lemma AddedIsInTag(woven: string, added: string, behind: nat)
    requires behind + |added| <= |woven| && woven[behind..behind + |added|] == added
    requires NonceAt(added, 1) && '>' !in added
    ensures HasNonce(TagAt(woven, behind))
  {
    forall k | 0 <= k < |added| ensures woven[behind + k] == added[k] {
      assert woven[behind..behind + |added|][k] == added[k];
    }
    assert woven[behind + 1..behind + 7] == added[1..7];
    SameNonce(added, woven, 1, behind + 1);
    forall k | behind <= k < behind + 7 ensures woven[k] != '>' {
      assert woven[k] == added[k - behind];
    }
    MatchBehind(woven, behind, behind + 1);
  }

  lemma ShiftOfName(s: string, added: string, p: nat)
    requires ScriptAt(s, p)
    ensures Shift(s, added, Places(s), p + 6) == Shift(s, added, Places(s), p) + 6
    ensures p + 7 !in Places(s) ==> Shift(s, added, Places(s), p + 7) == Shift(s, added, Places(s), p) + 7
  {
    NameChars(s, p, 0);
    NoPlaceBehind(s, p);
    WovenStep(s, added, Places(s), p, p + 6);
  }

  lemma TagBehindName(s: string, added: string, p: nat)
    requires ScriptAt(s, p) && NonceAt(added, 1) && '>' !in added
    ensures
      var behind := Shift(s, added, Places(s), p) + 7;
      behind <= |Weave(s, added)| && HasNonce(TagAt(Weave(s, added), behind))
  {
    ShiftOfName(s, added, p);
    if p + 7 in Places(s) {
      NewNonceIsThere(s, added, p + 7);
    } else {
      OldNonceStays(s, added, p + 7);
    }
  }

  lemma EveryTagHasAdded(s: string, added: string, i: nat)
    requires NonceAt(added, 1) && '<' !in added && '>' !in added
    requires ScriptAt(Weave(s, added), i)
    ensures HasNonce(TagAt(Weave(s, added), i + 7))
  {
    var p := NameIsOld(s, added, i);
    TagBehindName(s, added, p);
  }

  /** After the rewriting every script tag carries a nonce. */
  lemma EveryTagHasNonce(s: string, nonce: string, i: nat)
    requires ScriptAt(Weave(s, Attribute(nonce)), i)
    ensures HasNonce(TagAt(Weave(s, Attribute(nonce)), i + 7))
  {
    AttributeHasNonce(nonce);
    EveryTagHasAdded(s, Attribute(nonce), i);
  }

  /** So a second pass finds nothing to do. */
  lemma SecondPassAddsNothing(s: string, nonce: string, other: string)
    requires nonce != ""
    ensures AddNonce(AddNonce(s, nonce), other) == AddNonce(s, nonce)
  {
    var once := AddNonce(s, nonce);
    forall i | ScriptAt(once, i) ensures HasNonce(TagAt(once, i + 7)) {
      EveryTagHasNonce(s, nonce, i);
    }
    NothingToDo(once);
    NothingWoven(once, Attribute(other), |once|);
    assert once[..|once|] == once;
  }

  lemma NothingToDo(s: string)
    requires forall i :: ScriptAt(s, i) ==> HasNonce(TagAt(s, i + 7))
    ensures Places(s) == {}
  {
    forall k: nat | k <= |s| ensures !NeedsNonce(s, k) {
      assert ScriptAt(s, k - 7) ==> HasNonce(TagAt(s, k - 7 + 7));
    }
  }
}
