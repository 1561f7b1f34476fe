/**
 Message templates: validation, the strict one-pass renderer, and the older renderer that replaces one
 placeholder after another in whatever order Go iterates the map.
 */
module Templates {
  import opened Wrappers
  import opened Strings

  // ---------------------------------------------------------------------------
  // Placeholders
  // ---------------------------------------------------------------------------

  predicate Alphanumeric(c: char) {
    IsLetter(c) || IsDigit(c)
  }

  /** A name the placeholder pattern accepts: a letter, then letters and digits. */
  predicate Name(key: string) {
    key != [] && IsLetter(key[0]) && forall i :: 0 <= i < |key| ==> Alphanumeric(key[i])
  }

  const KNOWN_KEYS: set<string> := {
    "recipient", "message", "channel", "idempotencyKey", "notificationId",
    "company", "visitorCompany", "visitor", "host", "start", "end",
    "place", "lobby", "checkedIn", "checkedOut", "requestNo",
    "passUrl", "qrcodeFileSeq", "qrcodePath", "qrcodeUrl", "visitId", "visitorVisitId",
    "locale", "visitType", "badgeNo", "siteCode", "delegate"}

  function Placeholder(key: string): string {
    "{{" + key + "}}"
  }

  /** The longest run of letters and digits at the front. */
  function Run(s: string): nat
    ensures Run(s) <= |s|
  {
    if s == [] || !Alphanumeric(s[0]) then 0 else 1 + Run(s[1..])
  }

  /** The pattern anchored at the front of `s`: the key of the placeholder that starts here. */
  function MatchAt(s: string): Option<string> {
    if |s| < 3 || s[..2] != "{{" || !IsLetter(s[2]) then None
    else
      var n := Run(s[2..]);
      if 2 + n + 2 <= |s| && s[2 + n..2 + n + 2] == "}}" then Some(s[2..2 + n]) else None
  }

  /** A template cut into placeholders and single characters, scanning from the left. */
  datatype Piece = Text(c: char) | Slot(key: string)

  function Parse(s: string): seq<Piece>
    decreases |s|
  {
    if s == [] then []
    else match MatchAt(s)
      case Some(key) => [Slot(key)] + Parse(s[|key| + 4..])
      case None => [Text(s[0])] + Parse(s[1..])
  }

  function Unparse(ps: seq<Piece>): string {
    if ps == [] then ""
    else (match ps[0] case Text(c) => [c] case Slot(key) => Placeholder(key)) + Unparse(ps[1..])
  }

  /** What is left when every placeholder is deleted. */
  function Literal(ps: seq<Piece>): string {
    if ps == [] then ""
    else (match ps[0] case Text(c) => [c] case Slot(_) => "") + Literal(ps[1..])
  }

  function Slots(ps: seq<Piece>): set<string> {
    set p | p in ps && p.Slot? :: p.key
  }

  predicate Contains(s: string, sub: string) {
    exists i :: 0 <= i <= |s| && sub <= s[i..]
  }

  datatype TemplateError = UnknownVariable | BadForm | MissingValue

  /** validateNotificationTemplate: unknown names first, then stray double braces. */
  function Validate(s: string): Result<(), TemplateError> {
    var ps := Parse(s);
    if !(Slots(ps) <= KNOWN_KEYS) then Err(UnknownVariable)
    else if Contains(Literal(ps), "{{") || Contains(Literal(ps), "}}") then Err(BadForm)
    else Ok(())
  }

  predicate DoubledAt(s: string, i: nat, c: char) {
    i + 1 < |s| && s[i] == c && s[i + 1] == c
  }

  lemma DoubledInside(s: string, c: char)
    ensures Contains(s, [c, c]) <==> exists i: nat :: DoubledAt(s, i, c)
  {
    if Contains(s, [c, c]) {
      var i :| 0 <= i <= |s| && [c, c] <= s[i..];
      assert s[i..][0] == s[i] && s[i..][1] == s[i + 1];
      assert DoubledAt(s, i, c);
    }
    if i: nat :| DoubledAt(s, i, c) {
      assert [c, c] == s[i..][..2];
    }
  }

  ghost predicate HasDoubled(s: string) {
    exists i: nat :: DoubledAt(s, i, '{') || DoubledAt(s, i, '}')
  }

  lemma DoubledMeans(s: string)
    ensures HasDoubled(s) <==> Contains(s, "{{") || Contains(s, "}}")
  {
    DoubledInside(s, '{');
    DoubledInside(s, '}');
    assert "{{" == ['{', '{'] && "}}" == ['}', '}'];
    if HasDoubled(s) {
      var i: nat :| DoubledAt(s, i, '{') || DoubledAt(s, i, '}');
      assert DoubledAt(s, i, '{') || DoubledAt(s, i, '}');
    }
  }

  /** Accepted are known names and no double brace anywhere else; an unknown name is reported first. */
  lemma ValidateMeans(s: string)
    ensures (exists key :: key in Slots(Parse(s)) && key !in KNOWN_KEYS) ==> Validate(s) == Err(UnknownVariable)
    ensures (forall key :: key in Slots(Parse(s)) ==> key in KNOWN_KEYS) ==>
              Validate(s) == if HasDoubled(Literal(Parse(s))) then Err(BadForm) else Ok(())
  {
    DoubledMeans(Literal(Parse(s)));
  }

  // ---------------------------------------------------------------------------
  // The two renderers
  // ---------------------------------------------------------------------------

  /** One pass over the pieces. */
  function Fill(ps: seq<Piece>, values: map<string, string>): string {
    if ps == [] then ""
    else (match ps[0]
          case Text(c) => [c]
          case Slot(key) => if key in values then values[key] else "") + Fill(ps[1..], values)
  }

  /** renderNotificationTemplate. */
  function Render(s: string, values: map<string, string>): Result<string, TemplateError> {
    match Validate(s)
    case Err(e) => Err(e)
    case Ok(_) => if Slots(Parse(s)) <= values.Keys then Ok(Fill(Parse(s), values)) else Err(MissingValue)
  }

  /** strings.ReplaceAll for a non-empty `what`: leftmost occurrences, not overlapping. */
  function ReplaceAll(s: string, what: string, put: string): string
    requires what != []
    decreases |s|
  {
    if s == [] then ""
    else if what <= s then put + ReplaceAll(s[|what|..], what, put)
    else [s[0]] + ReplaceAll(s[1..], what, put)
  }

  /** renderTemplate for one iteration order of the map. */
  function ReplaceEach(s: string, values: map<string, string>, order: seq<string>): string
    requires forall i :: 0 <= i < |order| ==> order[i] in values
    decreases |order|
  {
    if order == [] then s
    else ReplaceEach(ReplaceAll(s, Placeholder(order[0]), values[order[0]]), values, order[1..])
  }

  // ---------------------------------------------------------------------------
  // Parsing
  // ---------------------------------------------------------------------------

  lemma MatchedText(s: string)
    requires MatchAt(s).Some?
    ensures var key := MatchAt(s).value; Name(key) && Placeholder(key) <= s
  {
    var n := Run(s[2..]);
    RunIsAlphanumeric(s[2..]);
    var key := s[2..2 + n];
    assert key == s[2..][..n];
    assert n > 0 by { assert s[2..][0] == s[2]; }
    assert s[..|key| + 4] == Placeholder(key) by {
      assert s[..|key| + 4] == s[..2] + s[2..2 + n] + s[2 + n..2 + n + 2];
    }
  }

  lemma {:induction false} RunIsAlphanumeric(s: string)
    ensures forall i :: 0 <= i < Run(s) ==> Alphanumeric(s[i])
    ensures Run(s) < |s| ==> !Alphanumeric(s[Run(s)])
  {
    if s != [] && Alphanumeric(s[0]) {
      RunIsAlphanumeric(s[1..]);
      assert forall i :: 0 < i < Run(s) ==> s[i] == s[1..][i - 1];
    }
  }

  /** Every slot of a parsed template has a proper name. */
  ghost predicate Proper(ps: seq<Piece>) {
    forall i :: 0 <= i < |ps| && ps[i].Slot? ==> Name(ps[i].key)
  }

  lemma SlotInFront(key: string, ps: seq<Piece>)
    ensures Unparse([Slot(key)] + ps) == Placeholder(key) + Unparse(ps)
    ensures Name(key) && Proper(ps) ==> Proper([Slot(key)] + ps)
  {
    assert ([Slot(key)] + ps)[1..] == ps;
  }

  lemma TextInFront(c: char, ps: seq<Piece>)
    ensures Unparse([Text(c)] + ps) == [c] + Unparse(ps)
    ensures Proper(ps) ==> Proper([Text(c)] + ps)
  {
    assert ([Text(c)] + ps)[1..] == ps;
  }

  /** Cutting a template loses nothing. */
  lemma {:induction false} ParseUnparse(s: string)
    ensures Unparse(Parse(s)) == s
    ensures Proper(Parse(s))
    decreases |s|
  {
    if s != [] {
      match MatchAt(s) {
        case Some(key) =>
          MatchedText(s);
          ParseUnparse(s[|key| + 4..]);
          SlotInFront(key, Parse(s[|key| + 4..]));
        case None =>
          ParseUnparse(s[1..]);
          TextInFront(s[0], Parse(s[1..]));
      }
    }
  }

  // ---------------------------------------------------------------------------
  // Replacing one placeholder
  // ---------------------------------------------------------------------------

  predicate BraceFree(s: string) {
    '{' !in s && '}' !in s
  }

  /** No two literal opening braces meet, even once every placeholder is gone. */
  predicate NoStray(ps: seq<Piece>) {
    !Contains(Literal(ps), "{{")
  }

  lemma NoStrayTail(ps: seq<Piece>)
    requires ps != [] && NoStray(ps)
    ensures NoStray(ps[1..])
  {
    var head := match ps[0] case Text(c) => [c] case Slot(_) => "";
    assert Literal(ps) == head + Literal(ps[1..]);
    ContainsConcat(head, Literal(ps[1..]));
  }

  /** The pieces that stand for a piece of text. */
  function Texts(s: string): seq<Piece> {
    seq(|s|, i requires 0 <= i < |s| => Text(s[i]))
  }

  function Substitute(ps: seq<Piece>, key: string, value: string): seq<Piece> {
    if ps == [] then []
    else (if ps[0] == Slot(key) then Texts(value) else [ps[0]]) + Substitute(ps[1..], key, value)
  }

  lemma {:induction false} UnparseAppend(a: seq<Piece>, b: seq<Piece>)
    ensures Unparse(a + b) == Unparse(a) + Unparse(b)
  {
    if a == [] {
      assert a + b == b;
    } else {
      assert (a + b)[1..] == a[1..] + b && (a + b)[0] == a[0];
      UnparseAppend(a[1..], b);
    }
  }

  lemma {:induction false} LiteralAppend(a: seq<Piece>, b: seq<Piece>)
    ensures Literal(a + b) == Literal(a) + Literal(b)
  {
    if a == [] {
      assert a + b == b;
    } else {
      assert (a + b)[1..] == a[1..] + b && (a + b)[0] == a[0];
      LiteralAppend(a[1..], b);
    }
  }

  lemma {:induction false} UnparseTexts(s: string)
    ensures Unparse(Texts(s)) == s
    ensures Literal(Texts(s)) == s
  {
    if s != [] {
      assert Texts(s)[1..] == Texts(s[1..]);
      UnparseTexts(s[1..]);
      assert s == [s[0]] + s[1..];
    }
  }

  /** After a literal brace, a second one can only be the opening of a slot, which brings a third. */
  lemma BraceAfterText(ps: seq<Piece>)
    requires ps != [] && ps[0].Text? && NoStray(ps)
    ensures
      var s := Unparse(ps);
      |s| >= 3 && s[0] == '{' && s[1] == '{' ==> s[2] == '{'
  {
    assert Unparse(ps) == [ps[0].c] + Unparse(ps[1..]);
    if |ps| > 1 {
      var rest := ps[1..][1..];
      ContainsConcat([ps[0].c], Literal(ps[1..]));
      match ps[1] {
        case Text(c) => assert Unparse(ps[1..]) == [c] + Unparse(rest) && Literal(ps[1..]) == [c] + Literal(rest);
        case Slot(other) => assert Unparse(ps[1..]) == Placeholder(other) + Unparse(rest);
      }
    }
  }

  /** A literal character never starts an occurrence of a placeholder. */
  lemma TextStartsNoPlaceholder(ps: seq<Piece>, key: string)
    requires ps != [] && ps[0].Text? && NoStray(ps) && Name(key)
    ensures !(Placeholder(key) <= Unparse(ps))
  {
    BraceAfterText(ps);
    PrefixAt(Placeholder(key), Unparse(ps), 0);
    PrefixAt(Placeholder(key), Unparse(ps), 1);
    PrefixAt(Placeholder(key), Unparse(ps), 2);
  }

  lemma PrefixAt(a: string, b: string, i: nat)
    requires i < |a|
    ensures a <= b ==> i < |b| && b[i] == a[i]
  {
  }

  lemma PlaceholderAt(key: string, rest: string, i: nat)
    requires i <= |key|
    ensures (Placeholder(key) + rest)[2 + i] == if i < |key| then key[i] else '}'
  {
  }

  lemma PrefixMeansSame(other: string, rest: string, key: string)
    requires Name(other) && Name(key)
    requires Placeholder(key) <= Placeholder(other) + rest
    ensures key == other
  {
    var k := if |key| < |other| then |key| else |other|;
    PlaceholderAt(key, [], k);
    PlaceholderAt(other, rest, k);
    assert |key| == |other|;
    forall i | 0 <= i < |key| ensures key[i] == other[i] {
      PlaceholderAt(key, [], i);
      PlaceholderAt(other, rest, i);
    }
  }

  /** A placeholder only starts an occurrence of itself. */
  lemma SlotStartsOnlyItself(other: string, rest: string, key: string)
    requires Name(other) && Name(key)
    ensures Placeholder(key) <= Placeholder(other) + rest <==> key == other
  {
    if Placeholder(key) <= Placeholder(other) + rest {
      PrefixMeansSame(other, rest, key);
    }
    assert (Placeholder(other) + rest)[..|Placeholder(other)|] == Placeholder(other);
  }

  /** Replacing skips over characters that cannot start an occurrence. */
  lemma {:induction false} SkipPlain(plain: string, rest: string, key: string, value: string)
    requires Name(key)
    requires forall i :: 0 <= i < |plain| ==> plain[i] != '{'
    ensures ReplaceAll(plain + rest, Placeholder(key), value) == plain + ReplaceAll(rest, Placeholder(key), value)
    decreases |plain|
  {
    if plain == [] {
      assert plain + rest == rest;
    } else {
      var s := plain + rest;
      assert s[0] == plain[0] && Placeholder(key)[0] == '{';
      assert s[1..] == plain[1..] + rest;
      SkipPlain(plain[1..], rest, key, value);
    }
  }

  /** Replacing one placeholder leaves every other placeholder in place. */
  lemma SkipSlot(other: string, rest: string, key: string, value: string)
    requires Name(other) && Name(key) && key != other
    ensures ReplaceAll(Placeholder(other) + rest, Placeholder(key), value)
         == Placeholder(other) + ReplaceAll(rest, Placeholder(key), value)
  {
    var what := Placeholder(key);
    var s := Placeholder(other) + rest;
    SlotStartsOnlyItself(other, rest, key);
    assert s[1..] == "{" + ((other + "}}") + rest);
    var inner := s[1..];
    assert inner[1] == other[0] && what[1] == '{';
    assert !(what <= inner);
    assert inner[1..] == (other + "}}") + rest;
    SkipPlain(other + "}}", rest, key, value);
    calc {
      ReplaceAll(s, what, value);
      [s[0]] + ReplaceAll(inner, what, value);
      [s[0]] + ([inner[0]] + ReplaceAll(inner[1..], what, value));
      "{" + ("{" + ((other + "}}") + ReplaceAll(rest, what, value)));
      Placeholder(other) + ReplaceAll(rest, what, value);
    }
  }

  /** On well-formed text, replacing a placeholder in the string is substituting it in the pieces. */
  lemma {:induction false} ReplaceIsSubstitute(ps: seq<Piece>, key: string, value: string)
    requires Proper(ps) && NoStray(ps) && Name(key)
    ensures ReplaceAll(Unparse(ps), Placeholder(key), value) == Unparse(Substitute(ps, key, value))
    decreases |ps|
  {
    if ps != [] {
      var rest := Unparse(ps[1..]);
      NoStrayTail(ps);
      ReplaceIsSubstitute(ps[1..], key, value);
      match ps[0] {
        case Text(c) =>
          TextStartsNoPlaceholder(ps, key);
          assert Unparse(ps)[1..] == rest;
          UnparseAppend([ps[0]], Substitute(ps[1..], key, value));
        case Slot(other) =>
          SlotStartsOnlyItself(other, rest, key);
          if other == key {
            assert Unparse(ps)[|Placeholder(key)|..] == rest;
            UnparseTexts(value);
            UnparseAppend(Texts(value), Substitute(ps[1..], key, value));
          } else {
            SkipSlot(other, rest, key, value);
            UnparseAppend([ps[0]], Substitute(ps[1..], key, value));
          }
      }
    }
  }

  // ---------------------------------------------------------------------------
  // Brace-free values cannot create placeholders
  // ---------------------------------------------------------------------------

  predicate StartsBrace(s: string) {
    s != [] && s[0] == '{'
  }

  /** The double brace of a concatenation sits in one side or across the seam. */
  lemma ContainsConcat(a: string, b: string)
    requires |a| <= 1
    ensures Contains(a + b, "{{") <==> Contains(b, "{{") || (StartsBrace(a) && StartsBrace(b))
  {
    if Contains(b, "{{") {
      var i :| 0 <= i <= |b| && "{{" <= b[i..];
      assert (a + b)[i + |a|..] == b[i..];
    }
    if StartsBrace(a) && StartsBrace(b) {
      assert "{{" <= (a + b)[0..];
    }
    if Contains(a + b, "{{") {
      var i :| 0 <= i <= |a + b| && "{{" <= (a + b)[i..];
      if i >= |a| {
        assert (a + b)[i..] == b[i - |a|..];
      } else {
        assert (a + b)[i..][0] == a[0] && (a + b)[i..][1] == b[0];
      }
    }
  }

  lemma {:induction false} ContainsAfterPlain(plain: string, b: string)
    requires BraceFree(plain)
    ensures Contains(plain + b, "{{") <==> Contains(b, "{{")
    ensures StartsBrace(plain + b) ==> StartsBrace(b)
    decreases |plain|
  {
    if plain == [] {
      assert plain + b == b;
    } else {
      assert plain + b == [plain[0]] + (plain[1..] + b);
      ContainsConcat([plain[0]], plain[1..] + b);
      ContainsAfterPlain(plain[1..], b);
    }
  }

  /** Filling a slot with a brace-free value keeps the pieces well formed. */
  lemma {:induction false} SubstituteKeepsForm(ps: seq<Piece>, key: string, value: string)
    requires Proper(ps) && NoStray(ps) && BraceFree(value)
    ensures Proper(Substitute(ps, key, value)) && NoStray(Substitute(ps, key, value))
    ensures StartsBrace(Literal(Substitute(ps, key, value))) ==> StartsBrace(Literal(ps))
    decreases |ps|
  {
    if ps != [] {
      var rest := Substitute(ps[1..], key, value);
      NoStrayTail(ps);
      SubstituteKeepsForm(ps[1..], key, value);
      if ps[0] == Slot(key) {
        LiteralAppend(Texts(value), rest);
        UnparseTexts(value);
        ContainsAfterPlain(value, Literal(rest));
      } else {
        LiteralAppend([ps[0]], rest);
        match ps[0] {
          case Text(c) =>
            assert Literal([ps[0]]) == [c];
            ContainsConcat([c], Literal(ps[1..]));
            ContainsConcat([c], Literal(rest));
          case Slot(_) =>
            assert Literal([ps[0]]) == "";
            assert "" + Literal(rest) == Literal(rest);
        }
      }
    }
  }

  lemma SlotsAppend(a: seq<Piece>, b: seq<Piece>)
    ensures Slots(a + b) == Slots(a) + Slots(b)
  {
  }

  lemma {:induction false} SubstituteRemovesSlot(ps: seq<Piece>, key: string, value: string)
    ensures Slots(Substitute(ps, key, value)) == Slots(ps) - {key}
    decreases |ps|
  {
    if ps != [] {
      SubstituteRemovesSlot(ps[1..], key, value);
      var head := if ps[0] == Slot(key) then Texts(value) else [ps[0]];
      SlotsAppend(head, Substitute(ps[1..], key, value));
      SlotsAppend([ps[0]], ps[1..]);
      assert ps == [ps[0]] + ps[1..];
      assert Slots(head) == Slots([ps[0]]) - {key};
    }
  }

  /** A value filled in early is the value filled in at the end. */
  lemma {:induction false} FillSubstituted(ps: seq<Piece>, key: string, values: map<string, string>)
    requires key in values
    ensures Fill(Substitute(ps, key, values[key]), values) == Fill(ps, values)
    decreases |ps|
  {
    if ps != [] {
      FillSubstituted(ps[1..], key, values);
      var rest := Substitute(ps[1..], key, values[key]);
      if ps[0] == Slot(key) {
        FillTexts(values[key], rest, values);
      } else {
        assert ([ps[0]] + rest)[1..] == rest;
      }
    }
  }

  lemma {:induction false} FillTexts(s: string, rest: seq<Piece>, values: map<string, string>)
    ensures Fill(Texts(s) + rest, values) == s + Fill(rest, values)
  {
    if s == [] {
      assert Texts(s) + rest == rest;
    } else {
      assert (Texts(s) + rest)[0] == Text(s[0]);
      assert (Texts(s) + rest)[1..] == Texts(s[1..]) + rest;
      FillTexts(s[1..], rest, values);
      assert s == [s[0]] + s[1..];
    }
  }

  lemma SlotShows(ps: seq<Piece>, i: nat)
    requires i < |ps|
    ensures ps[i].Slot? ==> ps[i].key in Slots(ps)
  {
    assert ps[i] in ps;
  }

  lemma {:induction false} FillWithoutSlots(ps: seq<Piece>, values: map<string, string>)
    requires Slots(ps) == {}
    ensures Fill(ps, values) == Unparse(ps)
  {
    if ps != [] {
      SlotShows(ps, 0);
      assert Slots(ps[1..]) <= Slots(ps);
      FillWithoutSlots(ps[1..], values);
    }
  }

  // ---------------------------------------------------------------------------
  // Order does not matter
  // ---------------------------------------------------------------------------

  /** Values that fill a template without braces, under names the pattern knows. */
  ghost predicate PlainValues(values: map<string, string>) {
    forall key :: key in values ==> Name(key) && BraceFree(values[key])
  }

  lemma {:induction false} ReplaceEachIsFill(ps: seq<Piece>, values: map<string, string>, order: seq<string>)
    requires Proper(ps) && NoStray(ps) && PlainValues(values)
    requires forall i :: 0 <= i < |order| ==> order[i] in values
    requires forall key :: key in Slots(ps) ==> key in order
    ensures ReplaceEach(Unparse(ps), values, order) == Fill(ps, values)
    decreases |order|
  {
    if order == [] {
      FillWithoutSlots(ps, values);
    } else {
      var key := order[0];
      ReplaceIsSubstitute(ps, key, values[key]);
      SubstituteKeepsForm(ps, key, values[key]);
      SubstituteRemovesSlot(ps, key, values[key]);
      FillSubstituted(ps, key, values);
      forall other | other in Slots(Substitute(ps, key, values[key])) ensures other in order[1..] {
        assert other in order && other != key;
      }
      ReplaceEachIsFill(Substitute(ps, key, values[key]), values, order[1..]);
    }
  }

  /**
   For every accepted template whose variables are all present with brace-free values, replacing them
   one after another gives the same text in every order, and it is the text of the one-pass renderer.
   */
  lemma AnyOrderIsOnePass(s: string, values: map<string, string>, order: seq<string>)
    requires Validate(s).Ok? && Slots(Parse(s)) <= values.Keys && PlainValues(values)
    requires forall i :: 0 <= i < |order| ==> order[i] in values
    requires forall key :: key in values ==> key in order
    ensures Render(s, values) == Ok(ReplaceEach(s, values, order))
  {
    ParseUnparse(s);
    ReplaceEachIsFill(Parse(s), values, order);
  }

  /** renderTemplate: a loop over the map in an order nobody chose. */
  method RenderTemplate(tmpl: string, values: map<string, string>) returns (text: string)
    ensures exists order: seq<string> ::
              (forall i :: 0 <= i < |order| ==> order[i] in values)
              && (forall key :: key in values ==> key in order)
              && text == ReplaceEach(tmpl, values, order)
    ensures Validate(tmpl).Ok? && Slots(Parse(tmpl)) <= values.Keys && PlainValues(values) ==>
              Render(tmpl, values) == Ok(text)
  {
    text := tmpl;
    var todo := values.Keys;
    ghost var order: seq<string> := [];
    while todo != {}
      invariant todo <= values.Keys
      invariant forall i :: 0 <= i < |order| ==> order[i] in values
      invariant forall key :: key in values ==> key in todo || key in order
      invariant text == ReplaceEach(tmpl, values, order)
    {
      var key :| key in todo;
      text := ReplaceAll(text, Placeholder(key), values[key]);
      ReplaceEachSnoc(tmpl, values, order, key);
      order := order + [key];
      todo := todo - {key};
    }
    if Validate(tmpl).Ok? && Slots(Parse(tmpl)) <= values.Keys && PlainValues(values) {
      AnyOrderIsOnePass(tmpl, values, order);
    }
  }

  lemma {:induction false} ReplaceEachSnoc(s: string, values: map<string, string>, order: seq<string>, key: string)
    requires forall i :: 0 <= i < |order| ==> order[i] in values
    requires key in values
    ensures ReplaceEach(s, values, order + [key]) ==
            ReplaceAll(ReplaceEach(s, values, order), Placeholder(key), values[key])
    decreases |order|
  {
    if order == [] {
      assert (order + [key])[1..] == [];
    } else {
      assert (order + [key])[1..] == order[1..] + [key];
      ReplaceEachSnoc(ReplaceAll(s, Placeholder(order[0]), values[order[0]]), values, order[1..], key);
    }
  }

  const SMUGGLED: map<string, string> := map["host" := "{{place}}", "place" := "B1"]

  /** With a brace in a value the order shows: the host's name can smuggle in another placeholder. */
  lemma BracesMakeOrderVisible()
    ensures Validate("{{host}}").Ok?
    ensures ReplaceEach("{{host}}", SMUGGLED, ["host", "place"]) == "B1"
    ensures ReplaceEach("{{host}}", SMUGGLED, ["place", "host"]) == "{{place}}"
  {
    HostIsAccepted();
    HostThenPlace();
    PlaceThenHost();
  }

  lemma HostIsKnown()
    ensures "host" in KNOWN_KEYS
  {
  }

  lemma OneSlot(key: string)
    ensures Literal([Slot(key)]) == "" && Slots([Slot(key)]) == {key}
  {
    assert [Slot(key)][1..] == [];
  }

  lemma HostIsAccepted()
    ensures Validate("{{host}}").Ok?
  {
    ParseSlot("host");
    assert Placeholder("host") == "{{host}}";
    OneSlot("host");
    HostIsKnown();
  }

  lemma HostThenPlace()
    ensures ReplaceEach("{{host}}", SMUGGLED, ["host", "place"]) == "B1"
  {
    assert Placeholder("host") == "{{host}}" && Placeholder("place") == "{{place}}";
    EachOfTwo("{{host}}", SMUGGLED, "host", "place");
    WholeReplaced("{{host}}", "{{place}}");
    WholeReplaced("{{place}}", "B1");
  }

  lemma PlaceThenHost()
    ensures ReplaceEach("{{host}}", SMUGGLED, ["place", "host"]) == "{{place}}"
  {
    assert Placeholder("host") == "{{host}}" && Placeholder("host") + "" == "{{host}}";
    EachOfTwo("{{host}}", SMUGGLED, "place", "host");
    SkipSlot("host", "", "place", "B1");
    WholeReplaced("{{host}}", "{{place}}");
  }

  lemma EachOfTwo(s: string, values: map<string, string>, a: string, b: string)
    requires a in values && b in values
    ensures ReplaceEach(s, values, [a, b])
         == ReplaceAll(ReplaceAll(s, Placeholder(a), values[a]), Placeholder(b), values[b])
  {
    assert [a, b][1..] == [b] && [b][1..] == [];
    var t := ReplaceAll(s, Placeholder(a), values[a]);
    assert ReplaceEach(t, values, [b]) == ReplaceEach(ReplaceAll(t, Placeholder(b), values[b]), values, []);
  }

  lemma WholeReplaced(what: string, put: string)
    requires what != []
    ensures ReplaceAll(what, what, put) == put
  {
    assert what[|what|..] == [];
    assert put + ReplaceAll([], what, put) == put;
  }

  lemma ParseSlot(key: string)
    requires Name(key)
    ensures Parse(Placeholder(key)) == [Slot(key)]
  {
    var s := Placeholder(key);
    RunOfName(key, "}}");
    assert s[2..] == key + "}}";
    assert s[2..2 + |key|] == key && s[2 + |key|..2 + |key| + 2] == "}}";
    assert MatchAt(s) == Some(key);
    assert s[|key| + 4..] == [];
  }

  lemma {:induction false} RunOfName(key: string, rest: string)
    requires forall i :: 0 <= i < |key| ==> Alphanumeric(key[i])
    requires rest != [] && !Alphanumeric(rest[0])
    ensures Run(key + rest) == |key|
  {
    if key == [] {
      assert key + rest == rest;
    } else {
      assert (key + rest)[1..] == key[1..] + rest;
      RunOfName(key[1..], rest);
    }
  }
}
