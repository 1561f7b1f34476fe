/**
 One tick of the delivery worker: the steps it consists of, what a delivery and a verdict leave behind, and
 why no message is taken twice.
 */
module NotificationTick {
  import opened Wrappers
  import opened NotificationHistory
  import opened NotificationQueue
  import opened NotificationEffects

  /** How a provider call ends: accepted, refused, or never heard of again. */
  datatype Delivery = Accepted | Refused | Lost

  /** A due row with the earliest time. */
  ghost predicate IsFirstDue(s: State, n: Id) {
    && n in s.rows && Claimable(s, s.rows[n])
    && forall m :: m in s.rows && Claimable(s, s.rows[m]) ==> s.rows[n].nextAttemptAt <= s.rows[m].nextAttemptAt
  }

  ghost predicate NothingDue(s: State) {
    forall n :: n in s.rows ==> !Claimable(s, s.rows[n])
  }

  /** The steps of one delivery that nobody interrupts. */
  function DeliverySteps(w: WorkerId, delivery: Delivery): seq<Action> {
    [Work(w, TakingLock), Work(w, StartingCall),
     match delivery
     case Accepted => Work(w, Committing(true))
     case Refused => Work(w, Committing(false))
     case Lost => Work(w, Crashing)]
  }

  lemma {:induction false} RunAppend(s: State, a: seq<Action>, b: seq<Action>)
    ensures Run(s, a + b) == Run(Run(s, a), b)
    decreases |a|
  {
    if a == [] {
      assert a + b == b;
    } else {
      assert (a + b)[1..] == a[1..] + b && (a + b)[0] == a[0];
      RunAppend(Step(s, a[0]), a[1..], b);
    }
  }

  lemma RunOne(s: State, a: Action)
    ensures Run(s, [a]) == Step(s, a)
  {
    assert [a][1..] == [];
  }

  /** What a claimed notification comes to: a delivery, or a verdict without one. */
  datatype Outcome = Delivered(delivery: Delivery) | Settled(verdict: Verdict)

  function OutcomeSteps(w: WorkerId, outcome: Outcome): seq<Action> {
    match outcome
    case Delivered(delivery) => DeliverySteps(w, delivery)
    case Settled(verdict) => [Work(w, Settling(verdict))]
  }

  /** One tick: abandoned claims expire, then every claim is directly followed by its outcome. */
  function TickSteps(w: WorkerId, claimed: seq<Id>, outcomes: seq<Outcome>): seq<Action>
    requires |claimed| <= |outcomes|
  {
    if claimed == [] then [Handle(Expiring)]
    else
      var n := |claimed| - 1;
      TickSteps(w, claimed[..n], outcomes) + [Work(w, Claiming(claimed[n]))] + OutcomeSteps(w, outcomes[n])
  }

  /** Every claim of the tick took the first due row of its moment. */
  ghost predicate ClaimsInOrder(s: State, w: WorkerId, claimed: seq<Id>, outcomes: seq<Outcome>)
    requires |claimed| <= |outcomes|
  {
    forall n :: 0 <= n < |claimed| ==> IsFirstDue(Run(s, TickSteps(w, claimed[..n], outcomes)), claimed[n])
  }

  lemma TickGrows(s: State, w: WorkerId, claimed: seq<Id>, outcomes: seq<Outcome>, id: Id)
    requires |claimed| < |outcomes|
    ensures
      var before := Run(s, TickSteps(w, claimed, outcomes));
      Run(s, TickSteps(w, claimed + [id], outcomes)) ==
      Run(Step(before, Work(w, Claiming(id))), OutcomeSteps(w, outcomes[|claimed|]))
  {
    var steps, claim := TickSteps(w, claimed, outcomes), Work(w, Claiming(id));
    assert (claimed + [id])[..|claimed|] == claimed;
    RunAppend(s, steps, [claim]);
    RunOne(Run(s, steps), claim);
    RunAppend(s, steps + [claim], OutcomeSteps(w, outcomes[|claimed|]));
  }

  lemma ClaimsGrow(s: State, w: WorkerId, claimed: seq<Id>, outcomes: seq<Outcome>, id: Id)
    requires |claimed| < |outcomes| && ClaimsInOrder(s, w, claimed, outcomes)
    requires IsFirstDue(Run(s, TickSteps(w, claimed, outcomes)), id)
    ensures ClaimsInOrder(s, w, claimed + [id], outcomes)
  {
    var more := claimed + [id];
    forall n | 0 <= n < |more| ensures IsFirstDue(Run(s, TickSteps(w, more[..n], outcomes)), more[n]) {
      if n < |claimed| {
        assert more[..n] == claimed[..n] && more[n] == claimed[n];
      } else {
        assert more[..n] == claimed && more[n] == id;
      }
    }
  }

  lemma RunDelivery(s: State, w: WorkerId, delivery: Delivery)
    ensures Run(s, DeliverySteps(w, delivery)) == Finish(StartCall(TakeLock(s, w), w), w, delivery)
  {
    var steps := DeliverySteps(w, delivery);
    RunThree(s, steps[0], steps[1], steps[2]);
    assert steps == [steps[0], steps[1], steps[2]];
  }

  /** What a delivery leaves of the row it was made for: a call, and its result where one came back. */
  ghost predicate DeliveryOf(r: Row, r': Row, token: Token, delivery: Delivery, now: Time) {
    && (delivery.Accepted? ==>
          r' == r.(status := Sent, claimedAt := None, claimToken := None,
                   history := r.history + [Called(token), Recorded(token, true)]))
    && (delivery.Refused? ==> IsFailure(r.(history := r.history + [Called(token), Recorded(token, false)]), r', now))
    && (delivery.Lost? ==> r' == r.(history := r.history + [Called(token)]))
  }

  /** The whole delivery by a worker that owns its claim, or not, of a row that is not locked. */
  ghost predicate DeliveredBy(s: State, s': State, w: WorkerId, delivery: Delivery)
    requires w in s.workers && s.workers[w].id in s.rows
  {
    var p := s.workers[w];
    && s' == s.(rows := s'.rows, workers := s.workers - {w}) && s'.rows.Keys == s.rows.Keys
    && (forall n :: n in s.rows && !(IsHolder(s, w) && n == p.id) ==> s'.rows[n] == s.rows[n])
    && (IsHolder(s, w) ==> DeliveryOf(s.rows[p.id], s'.rows[p.id], p.token, delivery, s.now))
  }

  lemma CallOutcome(s: State, w: WorkerId)
    requires w in s.workers && s.workers[w].Holding? && Owns(s, s.workers[w])
    requires s.rows[s.workers[w].id].lock.None?
    ensures
      var p := s.workers[w];
      var r := s.rows[p.id];
      StartCall(TakeLock(s, w), w) ==
      s.(rows := s.rows[p.id := r.(lock := Some(w), history := r.history + [Called(p.token)])],
         workers := s.workers[w := Calling(p.id, p.token)])
  {
    var p := s.workers[w];
    var locked := TakeLock(s, w);
    assert locked.workers[w] == Locking(p.id, p.token);
  }

  lemma RecordOutcome(s: State, w: WorkerId, before: Row, sent: bool)
    requires w in s.workers && s.workers[w].Calling? && Owns(s, s.workers[w])
    requires
      var p := s.workers[w];
      before.lock.None?
      && s.rows[p.id] == before.(lock := Some(w), history := before.history + [Called(p.token)])
    ensures
      var p := s.workers[w];
      DeliveryOf(before, Commit(s, w, sent).rows[p.id], p.token, if sent then Accepted else Refused, s.now)
  {
    var token := s.workers[w].token;
    assert before.history + [Called(token)] + [Recorded(token, sent)] ==
           before.history + [Called(token), Recorded(token, sent)];
  }

  /** The last step of a delivery, once the call has been made. */
  function Finish(s: State, w: WorkerId, delivery: Delivery): State {
    match delivery
    case Accepted => Commit(s, w, true)
    case Refused => Commit(s, w, false)
    case Lost => Crash(s, w)
  }

  lemma FinishOutcome(s: State, called: State, w: WorkerId, delivery: Delivery)
    requires w in s.workers && s.workers[w].Holding? && Owns(s, s.workers[w])
    requires s.rows[s.workers[w].id].lock.None?
    requires
      var p := s.workers[w];
      var r := s.rows[p.id];
      called == s.(rows := s.rows[p.id := r.(lock := Some(w), history := r.history + [Called(p.token)])],
                   workers := s.workers[w := Calling(p.id, p.token)])
    ensures DeliveredBy(s, Finish(called, w, delivery), w, delivery)
  {
    var p := s.workers[w];
    if !delivery.Lost? {
      RecordOutcome(called, w, s.rows[p.id], delivery.Accepted?);
    }
  }

  lemma SkipOutcome(s: State, w: WorkerId, delivery: Delivery)
    requires w in s.workers && s.workers[w].Holding? && s.workers[w].id in s.rows && !Owns(s, s.workers[w])
    requires s.rows[s.workers[w].id].lock.None?
    ensures Finish(StartCall(TakeLock(s, w), w), w, delivery) == s.(workers := s.workers - {w})
  {
    assert TakeLock(s, w) == s.(workers := s.workers - {w});
  }

  lemma DeliveryOutcome(s: State, w: WorkerId, delivery: Delivery)
    requires w in s.workers && s.workers[w].Holding? && s.workers[w].id in s.rows
    requires s.rows[s.workers[w].id].lock.None?
    ensures DeliveredBy(s, Run(s, DeliverySteps(w, delivery)), w, delivery)
  {
    RunDelivery(s, w, delivery);
    if Owns(s, s.workers[w]) {
      CallOutcome(s, w);
      FinishOutcome(s, StartCall(TakeLock(s, w), w), w, delivery);
    } else {
      SkipOutcome(s, w, delivery);
    }
  }

  lemma RunThree(s: State, a: Action, b: Action, c: Action)
    ensures Run(s, [a, b, c]) == Step(Step(Step(s, a), b), c)
  {
    assert [a] + [b] == [a, b] && [a, b] + [c] == [a, b, c];
    RunOne(s, a);
    RunAppend(s, [a], [b]);
    RunOne(Step(s, a), b);
    RunAppend(s, [a, b], [c]);
    RunOne(Step(Step(s, a), b), c);
  }

  /** A row that was just claimed belongs to the claiming worker and is not locked. */
  lemma ClaimIsOwned(s: State, w: WorkerId, n: Id)
    requires w !in s.workers && n in s.rows && Claimable(s, s.rows[n])
    ensures
      var s' := Step(s, Work(w, Claiming(n)));
      && w in s'.workers && s'.workers[w].Holding? && s'.workers[w].id == n
      && Owns(s', s'.workers[w]) && s'.rows[n].lock.None?
  {
  }

  // ---------------------------------------------------------------------------
  // No message twice
  // ---------------------------------------------------------------------------

  /** Done, or not due before some later time. */
  predicate Rests(r: Row, now: Time) {
    || r.status in {Sent, Logged, Cancelled}
    || (r.status in {Queued, Failed} && now < r.nextAttemptAt)
    || (r.status.Sending? && IsLeased(r, now))
  }

  lemma RestingIsNotDue(s: State, n: Id)
    requires n in s.rows && Rests(s.rows[n], s.now)
    ensures !Claimable(s, s.rows[n])
  {
    ClaimableMeans(s, s.rows[n]);
  }

  /** Just claimed by the worker: the claim is fresh and has used an attempt. */
  ghost predicate JustClaimed(s: State, w: WorkerId) {
    && IsHolder(s, w) && s.workers[w].Holding?
    && var r := s.rows[s.workers[w].id];
    && r.lock.None? && r.claimedAt == Some(s.now) && r.attempts >= 1
  }

  lemma ClaimIsFresh(s: State, w: WorkerId, n: Id)
    requires w !in s.workers && n in s.rows && Claimable(s, s.rows[n])
    ensures JustClaimed(Claim(s, w, n), w)
    ensures Claim(s, w, n).workers[w].id == n && Claim(s, w, n).now == s.now
    ensures Claim(s, w, n).rows.Keys == s.rows.Keys
    ensures forall m :: m in s.rows && m != n ==> Claim(s, w, n).rows[m] == s.rows[m]
  {
    ClaimEffect(s, w, n);
  }

  /** Whatever a claim comes to, its message rests afterwards, unlocked, and no other row has changed. */
  lemma OutcomeRests(s: State, w: WorkerId, outcome: Outcome)
    requires JustClaimed(s, w)
    ensures
      var s', n := Run(s, OutcomeSteps(w, outcome)), s.workers[w].id;
      && s'.now == s.now && s'.rows.Keys == s.rows.Keys
      && Rests(s'.rows[n], s.now)
      && forall m :: m in s.rows && m != n ==> s'.rows[m] == s.rows[m]
  {
    match outcome {
      case Delivered(delivery) => DeliveryOutcome(s, w, delivery);
      case Settled(verdict) =>
        RunOne(s, Work(w, Settling(verdict)));
        SettleEffect(s, w, verdict);
    }
  }

  ghost predicate AllRest(s: State, ids: seq<Id>) {
    forall i :: 0 <= i < |ids| ==> ids[i] in s.rows && Rests(s.rows[ids[i]], s.now)
  }

  ghost predicate Distinct(ids: seq<Id>) {
    forall i, j :: 0 <= i < j < |ids| ==> ids[i] != ids[j]
  }

  /** No unlocked row is abandoned. */
  ghost predicate NoneAbandoned(s: State) {
    forall n :: n in s.rows && s.rows[n].lock.None? ==> !IsAbandoned(s.rows[n], s.now)
  }

  /** A claim and its outcome take one message more, a new one, and abandon none. */
  lemma OneMoreRests(s: State, w: WorkerId, n: Id, outcome: Outcome, claimed: seq<Id>)
    requires w !in s.workers && n in s.rows && Claimable(s, s.rows[n])
    requires AllRest(s, claimed) && Distinct(claimed)
    ensures
      var s' := Run(Claim(s, w, n), OutcomeSteps(w, outcome));
      && AllRest(s', claimed + [n]) && Distinct(claimed + [n])
      && (NoneAbandoned(s) ==> NoneAbandoned(s'))
  {
    ClaimIsFresh(s, w, n);
    OutcomeRests(Claim(s, w, n), w, outcome);
    forall i | 0 <= i < |claimed| ensures claimed[i] != n {
      if claimed[i] == n {
        RestingIsNotDue(s, n);
      }
    }
  }
}
