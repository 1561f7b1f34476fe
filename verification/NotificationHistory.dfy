/**
 The trace one notification row leaves behind, and what a well-behaved trace guarantees.

 Nothing here mentions rows, workers or SQL: `WellBehaved` says, event by event, what may come
 next, and the lemmas say what that buys over a whole trace. `NotificationSafety` proves that every
 row of every reachable state has a well-behaved trace.
 */
module NotificationHistory {
  import opened Wrappers

  type Token = nat

  datatype Event =
    | Reset                                 // inserted, requeued or refreshed: attempts is 0
    | Claimed(token: Token)                 // a worker took the row under a fresh token
    | Called(token: Token)                  // the provider call of that claim started
    | Recorded(token: Token, sent: bool)    // the result of a provider call was committed
    | Withdrawn                             // the row was cancelled

  const MAX_ATTEMPTS: nat := 5

  /** Claims since the last reset. */
  function Claims(h: seq<Event>): nat {
    if h == [] then 0
    else match h[|h| - 1]
      case Reset => 0
      case Claimed(_) => Claims(h[..|h| - 1]) + 1
      case _ => Claims(h[..|h| - 1])
  }

  /** The token of the last claim since the last reset. */
  function LastClaim(h: seq<Event>): Option<Token> {
    if h == [] then None
    else match h[|h| - 1]
      case Reset => None
      case Claimed(t) => Some(t)
      case _ => LastClaim(h[..|h| - 1])
  }

  /** Whether the row was cancelled after its last reset. */
  predicate IsWithdrawn(h: seq<Event>) {
    h != [] && match h[|h| - 1]
      case Reset => false
      case Withdrawn => true
      case _ => IsWithdrawn(h[..|h| - 1])
  }

  /** Provider calls in a trace, resets or not. */
  function Calls(h: seq<Event>): nat {
    if h == [] then 0
    else Calls(h[..|h| - 1]) + if h[|h| - 1].Called? then 1 else 0
  }

  /** Claims in a trace, resets or not. */
  function ClaimsIn(h: seq<Event>): nat {
    if h == [] then 0
    else ClaimsIn(h[..|h| - 1]) + if h[|h| - 1].Claimed? then 1 else 0
  }

  /** What may follow the trace `before`. */
  predicate MayFollow(before: seq<Event>, e: Event) {
    match e
    case Reset => true
    case Withdrawn => true
    case Claimed(t) =>
      && !IsWithdrawn(before)
      && Claims(before) < MAX_ATTEMPTS
      && Claimed(t) !in before
      && Called(t) !in before
    case Called(t) =>
      && !IsWithdrawn(before)
      && LastClaim(before) == Some(t)
      && Called(t) !in before
    case Recorded(t, _) =>
      before != [] && before[|before| - 1] == Called(t)
  }

  ghost predicate WellBehaved(h: seq<Event>) {
    forall i :: 0 <= i < |h| ==> MayFollow(h[..i], h[i])
  }

  lemma ExtendWellBehaved(h: seq<Event>, e: Event)
    requires WellBehaved(h)
    requires MayFollow(h, e)
    ensures WellBehaved(h + [e])
  {
    var g := h + [e];
    forall i | 0 <= i < |g| ensures MayFollow(g[..i], g[i]) {
      if i < |h| {
        assert g[..i] == h[..i];
      } else {
        assert g[..i] == h;
      }
    }
  }

  lemma PrefixWellBehaved(h: seq<Event>, n: nat)
    requires WellBehaved(h)
    requires n <= |h|
    ensures WellBehaved(h[..n])
  {
    var g := h[..n];
    forall i | 0 <= i < |g| ensures MayFollow(g[..i], g[i]) {
      assert g[..i] == h[..i];
    }
  }

  /** What one more event does to each count. */
  lemma Snoc(h: seq<Event>, e: Event)
    ensures Claims(h + [e]) == if e.Reset? then 0 else Claims(h) + if e.Claimed? then 1 else 0
    ensures LastClaim(h + [e]) == if e.Reset? then None else if e.Claimed? then Some(e.token) else LastClaim(h)
    ensures IsWithdrawn(h + [e]) <==> (e.Withdrawn? || (!e.Reset? && IsWithdrawn(h)))
    ensures Calls(h + [e]) == Calls(h) + if e.Called? then 1 else 0
    ensures ClaimsIn(h + [e]) == ClaimsIn(h) + if e.Claimed? then 1 else 0
  {
    assert (h + [e])[..|h + [e]| - 1] == h;
  }

  /** Calls since the last reset. */
  function CallsSinceReset(h: seq<Event>): nat {
    if h == [] || h[|h| - 1].Reset? then 0
    else CallsSinceReset(h[..|h| - 1]) + if h[|h| - 1].Called? then 1 else 0
  }

  /** A claim that has not made its call yet still has one call to its credit. */
  function Credit(h: seq<Event>): nat {
    match LastClaim(h)
    case None => 0
    case Some(t) => if Called(t) in h then 0 else 1
  }

  /** A claim earns a call, its call spends it, and a reset starts over. */
  lemma CreditAfter(h: seq<Event>, e: Event)
    ensures Credit(h + [e]) ==
            if e.Reset? then 0
            else if e.Claimed? then if Called(e.token) in h then 0 else 1
            else if e.Called? && LastClaim(h) == Some(e.token) then 0
            else Credit(h)
  {
    Snoc(h, e);
    assert e in h + [e];
    assert forall t :: Called(t) in h + [e] <==> Called(t) in h || e == Called(t);
  }

  lemma CallsSinceResetAfter(h: seq<Event>, e: Event)
    ensures CallsSinceReset(h + [e]) == if e.Reset? then 0 else CallsSinceReset(h) + if e.Called? then 1 else 0
  {
    assert (h + [e])[..|h + [e]| - 1] == h;
  }

  /** Every call is paid for by a claim of its own, and there are at most five claims. */
  lemma {:induction false} CallsPaidByClaims(h: seq<Event>)
    requires WellBehaved(h)
    ensures CallsSinceReset(h) + Credit(h) <= Claims(h) <= MAX_ATTEMPTS
    decreases |h|
  {
    if h != [] {
      var before, e := h[..|h| - 1], h[|h| - 1];
      PrefixWellBehaved(h, |h| - 1);
      CallsPaidByClaims(before);
      assert h == before + [e];
      assert MayFollow(before, e);
      Snoc(before, e);
      CreditAfter(before, e);
      CallsSinceResetAfter(before, e);
    }
  }

  lemma {:induction false} CallsOfSuffix(h: seq<Event>, i: nat, j: nat)
    requires i <= j <= |h|
    requires Reset !in h[i..j]
    ensures Calls(h[i..j]) <= CallsSinceReset(h[..j])
    decreases j
  {
    if i < j {
      assert h[i..j][j - 1 - i] == h[j - 1];
      assert h[i..j - 1] == h[i..j][..j - 1 - i];
      assert h[..j - 1] == h[..j][..j - 1];
      assert Reset !in h[i..j - 1];
      CallsOfSuffix(h, i, j - 1);
    }
  }

  lemma {:induction false} ClaimsOfSuffix(h: seq<Event>, i: nat)
    requires i <= |h|
    requires Reset !in h[i..]
    ensures Claims(h) == Claims(h[..i]) + ClaimsIn(h[i..])
    decreases |h|
  {
    if i < |h| {
      var before := h[..|h| - 1];
      assert h[i..][|h| - 1 - i] == h[|h| - 1];
      assert before[i..] == h[i..][..|h| - 1 - i];
      assert before[..i] == h[..i];
      assert Reset !in before[i..];
      ClaimsOfSuffix(before, i);
    } else {
      assert h[..i] == h;
    }
  }

  /** At most five provider calls between two consecutive resets, in any stretch of the trace. */
  lemma AtMostFiveCalls(h: seq<Event>, i: nat, j: nat)
    requires WellBehaved(h)
    requires i <= j <= |h|
    requires Reset !in h[i..j]
    ensures Calls(h[i..j]) <= MAX_ATTEMPTS
  {
    PrefixWellBehaved(h, j);
    CallsPaidByClaims(h[..j]);
    CallsOfSuffix(h, i, j);
  }

  /** A cancelled row stays withdrawn until something resets it. */
  lemma {:induction false} WithdrawnUntilReset(h: seq<Event>, i: nat, j: nat)
    requires i < j <= |h|
    requires h[i] == Withdrawn
    requires Reset !in h[i..j]
    ensures IsWithdrawn(h[..j])
    decreases j
  {
    assert h[..j][..j - 1] == h[..j - 1];
    assert h[..j][j - 1] == h[j - 1];
    if i < j - 1 {
      assert h[i..j][j - 1 - i] == h[j - 1];
      assert forall e :: e in h[i..j - 1] ==> e in h[i..j];
      WithdrawnUntilReset(h, i, j - 1);
    }
  }

  /** After a cancellation no claim is taken and no call starts until a reset. */
  lemma NothingStartsAfterWithdrawal(h: seq<Event>, i: nat, j: nat)
    requires WellBehaved(h)
    requires i < j < |h|
    requires h[i] == Withdrawn
    requires h[j].Called? || h[j].Claimed?
    ensures Reset in h[i..j]
  {
    assert MayFollow(h[..j], h[j]);
    if Reset !in h[i..j] {
      WithdrawnUntilReset(h, i, j);
    }
  }

  /** A recorded result directly follows the call of the same claim. */
  lemma ResultFollowsItsCall(h: seq<Event>, j: nat)
    requires WellBehaved(h)
    requires j < |h| && h[j].Recorded?
    ensures 0 < j && h[j - 1] == Called(h[j].token)
  {
    assert MayFollow(h[..j], h[j]);
  }

  /** `LastClaim` really is a position in the trace with no claim or reset after it. */
  lemma {:induction false} LastClaimPosition(h: seq<Event>) returns (i: nat)
    requires LastClaim(h).Some?
    ensures i < |h| && h[i] == Claimed(LastClaim(h).value)
    ensures forall k :: i < k < |h| ==> !h[k].Claimed? && !h[k].Reset?
    decreases |h|
  {
    if h[|h| - 1].Claimed? {
      i := |h| - 1;
    } else {
      i := LastClaimPosition(h[..|h| - 1]);
    }
  }

  /** A result belongs to the claim that made the call: nobody else claimed the row in between. */
  lemma ResultBelongsToItsClaim(h: seq<Event>, j: nat) returns (i: nat)
    requires WellBehaved(h)
    requires j < |h| && h[j].Recorded?
    ensures i < j && h[i] == Claimed(h[j].token)
    ensures forall k :: i < k < j ==> !h[k].Claimed? && !h[k].Reset?
  {
    ResultFollowsItsCall(h, j);
    assert MayFollow(h[..j - 1], h[j - 1]);
    i := LastClaimPosition(h[..j - 1]);
  }

  lemma SeenBefore(h: seq<Event>, j: nat, e: Event)
    requires j <= |h|
    requires e !in h[..j]
    ensures forall i :: 0 <= i < j ==> h[i] != e
  {
    forall i | 0 <= i < j ensures h[i] != e {
      assert h[..j][i] == h[i];
    }
  }

  /** No claim token calls the provider twice, over the whole trace. */
  lemma OneCallPerClaim(h: seq<Event>, i: nat, j: nat)
    requires WellBehaved(h)
    requires i < j < |h|
    requires h[i].Called? && h[j].Called?
    ensures h[i] != h[j]
  {
    assert MayFollow(h[..j], h[j]);
    SeenBefore(h, j, h[j]);
  }
}
