/**
 When a message is tried again: not before its time, over every run. A refused or abandoned attempt waits five
 minutes for every attempt made so far, and a message that was just queued waits until it is due.
 */
module NotificationRetries {
  import opened Wrappers
  import opened NotificationHistory
  import opened NotificationQueue
  import opened NotificationMoves
  import opened NotificationSafety
  import opened NotificationTheorems
  import opened NotificationEffects

  /** Not to be tried before `until`, or not at all. */
  predicate WaitsUntil(r: Row, until: Time) {
    r.status.Cancelled? || (r.status in {Queued, Failed} && until <= r.nextAttemptAt)
  }

  /** Nothing in the second part of the trace tries the message. */
  ghost predicate Untried(before: seq<Event>, after: seq<Event>) {
    && before <= after
    && forall i :: |before| <= i < |after| ==> !after[i].Claimed? && !after[i].Called?
  }

  lemma WaitingMove(s: State, a: Action, n: Id, r: Row, r': Row, until: Time)
    requires RowMove(s, a, n, r, r') && Shape(r)
    requires WaitsUntil(r, until) && s.now < until
    ensures (WaitsUntil(r', until) && Untried(r.history, r'.history)) || r'.history == r.history + [Reset]
  {
    ClaimableMeans(s, r);
    match a {
      case Work(_, _) => assert r' == r;
      case _ =>
    }
  }

  lemma WaitingStep(s: State, a: Action, n: Id, until: Time)
    requires Inv(s) && n in s.rows && WaitsUntil(s.rows[n], until) && s.now < until
    ensures n in Step(s, a).rows
    ensures
      var h, r' := s.rows[n].history, Step(s, a).rows[n];
      (WaitsUntil(r', until) && Untried(h, r'.history)) || r'.history == h + [Reset]
  {
    RowMoves(s, a, n);
    assert RowOk(s.rows[n], s.nextToken);
    WaitingMove(s, a, n, s.rows[n], Step(s, a).rows[n], until);
  }

  /** Traces only grow, and so does the clock. */
  lemma {:induction false} TracesGrow(s: State, actions: seq<Action>, n: Id)
    requires Inv(s) && n in s.rows
    ensures n in Run(s, actions).rows && s.rows[n].history <= Run(s, actions).rows[n].history
    decreases |actions|
  {
    if actions != [] {
      TraceIsFaithful(s, actions[0], n);
      StepKeepsInv(s, actions[0]);
      TracesGrow(Step(s, actions[0]), actions[1..], n);
    }
  }

  lemma ClockStep(s: State, a: Action)
    ensures s.now <= Step(s, a).now
  {
    match a {
      case Work(_, step) =>
      case Handle(h) =>
      case Configure(c) =>
    }
  }

  lemma {:induction false} ClockGrows(s: State, actions: seq<Action>)
    ensures s.now <= Run(s, actions).now
    decreases |actions|
  {
    if actions != [] {
      ClockStep(s, actions[0]);
      ClockGrows(Step(s, actions[0]), actions[1..]);
    }
  }

  /**
   A waiting message that is not reset is neither claimed nor sent by any run that ends before its time, for
   any number of workers and whatever else happens.
   */
  lemma {:induction false} NotTriedEarly(s: State, actions: seq<Action>, n: Id, until: Time)
    requires Inv(s) && n in s.rows && WaitsUntil(s.rows[n], until)
    requires Run(s, actions).now < until
    ensures n in Run(s, actions).rows
    ensures
      var before, after := s.rows[n].history, Run(s, actions).rows[n].history;
      before <= after && (Reset in after[|before|..] || Untried(before, after))
    decreases |actions|
  {
    TracesGrow(s, actions, n);
    if actions != [] {
      var s' := Step(s, actions[0]);
      ClockGrows(s, actions);
      WaitingStep(s, actions[0], n, until);
      StepKeepsInv(s, actions[0]);
      TracesGrow(s', actions[1..], n);
      var before, between, after := s.rows[n].history, s'.rows[n].history, Run(s, actions).rows[n].history;
      if between == before + [Reset] {
        assert after[|before|..][0] == Reset;
      } else {
        NotTriedEarly(s', actions[1..], n, until);
        UntriedTwice(before, between, after);
      }
    }
  }

  lemma UntriedTwice(before: seq<Event>, between: seq<Event>, after: seq<Event>)
    requires Untried(before, between) && between <= after
    requires Reset in after[|between|..] || Untried(between, after)
    ensures Reset in after[|before|..] || Untried(before, after)
  {
    if Reset in after[|between|..] {
      var i :| 0 <= i < |after[|between|..]| && after[|between|..][i] == Reset;
      assert after[|before|..][|between| - |before| + i] == Reset;
    }
  }

  /** A call the provider refused after `k` attempts is not repeated for 5k minutes, unless the message is reset. */
  lemma RefusalDelaysRetry(s: State, w: WorkerId, actions: seq<Action>)
    requires Inv(s) && w in s.workers && s.workers[w].Calling?
    requires
      var n := s.workers[w].id;
      n in s.rows && Run(Commit(s, w, false), actions).now < s.now + 5 * s.rows[n].attempts * MINUTE
    ensures
      var n, s' := s.workers[w].id, Commit(s, w, false);
      && n in s'.rows && n in Run(s', actions).rows
      && var before, after := s'.rows[n].history, Run(s', actions).rows[n].history;
      before <= after && (Reset in after[|before|..] || Untried(before, after))
  {
    var n := s.workers[w].id;
    assert WorkerOk(s.rows, s.nextToken, w, s.workers[w]);
    assert RowOk(s.rows[n], s.nextToken);
    CommitEffect(s, w, false);
    CommitKeepsInv(s, w, false);
    NotTriedEarly(Commit(s, w, false), actions, n, s.now + 5 * s.rows[n].attempts * MINUTE);
  }

  /** Neither is a message the worker gave up without a call. */
  lemma GivingUpDelaysRetry(s: State, w: WorkerId, actions: seq<Action>)
    requires Inv(s) && IsHolder(s, w) && s.workers[w].Holding? && s.rows[s.workers[w].id].lock.None?
    requires Run(Settle(s, w, GiveUp), actions).now < s.now + 5 * s.rows[s.workers[w].id].attempts * MINUTE
    ensures
      var n, s' := s.workers[w].id, Settle(s, w, GiveUp);
      && n in s'.rows && n in Run(s', actions).rows
      && var before, after := s'.rows[n].history, Run(s', actions).rows[n].history;
      before <= after && (Reset in after[|before|..] || Untried(before, after))
  {
    var n := s.workers[w].id;
    assert RowOk(s.rows[n], s.nextToken);
    SettleEffect(s, w, GiveUp);
    SettleKeepsInv(s, w, GiveUp);
    NotTriedEarly(Settle(s, w, GiveUp), actions, n, s.now + 5 * s.rows[n].attempts * MINUTE);
  }

  /** A message of a rule is not sent before its offset from the visit's start, or from the event. */
  lemma MessageIsNotEarly(
      s: State, n: Id, r: RuleId, v: VisitId, p: ParticipantId, eventAt: Time, startAt: Time, actions: seq<Action>)
    requires Inv(s) && n !in s.rows && r in s.rules && s.rules[r].enabled
    requires
      var due := (if s.rules[r].trigger == VisitStart then startAt else eventAt) + s.rules[r].offsetMinutes * MINUTE;
      Run(InsertForRule(s, n, r, v, p, eventAt, startAt), actions).now < due
    ensures
      var s' := Run(InsertForRule(s, n, r, v, p, eventAt, startAt), actions);
      && n in s'.rows
      && [Reset] <= s'.rows[n].history
      && (Reset in s'.rows[n].history[1..] || Untried([Reset], s'.rows[n].history))
  {
    var due := (if s.rules[r].trigger == VisitStart then startAt else eventAt) + s.rules[r].offsetMinutes * MINUTE;
    var queued := InsertForRule(s, n, r, v, p, eventAt, startAt);
    InsertForRuleEffect(s, n, r, v, p, eventAt, startAt);
    HandlerKeepsInv(s, InsertingForRule(n, r, v, p, eventAt, startAt));
    NotTriedEarly(queued, actions, n, due);
  }

  /** And when its time has come, a message that is free and allowed can be claimed, until its fifth attempt. */
  lemma DueIsClaimable(s: State, r: Row)
    requires r.status in {Queued, Failed} && r.lock.None? && IsAllowed(s, r)
    ensures Claimable(s, r) <==> r.attempts < 5 && r.nextAttemptAt <= s.now
  {
    ClaimableMeans(s, r);
  }
}
