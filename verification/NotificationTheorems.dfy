/**
 What the delivery invariant buys, stated about whole runs from an empty queue.
 */
module NotificationTheorems {
  import opened Wrappers
  import opened NotificationHistory
  import opened NotificationQueue
  import opened NotificationMoves
  import opened NotificationSafety

  // ---------------------------------------------------------------------------
  // What one step can do to one row
  // ---------------------------------------------------------------------------

  /** Actions that may put a row back at zero attempts: inserts, requeues and visit_start refreshes. */
  predicate MayReset(a: Action) {
    match a
    case Work(_, _) => false
    case Handle(h) =>
      || h.InsertingForRule? || h.InsertingPlain? || h.Requeueing? || h.RefreshingVisit? || h.RefreshingParticipant?
    case Configure(c) => c.UpdatingRule? && c.rule.enabled && c.rule.trigger.VisitStart?
  }

  predicate Final(r: Row) {
    r.status.Sent? || r.status.Logged?
  }

  /** Nothing changed but foreign keys that a delete set to null. */
  ghost predicate Relinked(r: Row, r': Row) {
    r' == r.(apiId := r'.apiId, ruleId := r'.ruleId)
  }

  /** What a handler or a configuration edit does to a row: nothing, or a change to an unlocked row. */
  ghost predicate HandlerMove(s: State, mayReset: bool, r: Row, r': Row) {
    || Relinked(r, r')
    || (&& r.lock.None?
        && (|| (Exhausted(s, r) && r' == Unclaim(r, Failed))
            || (Pending(r) && IsCancel(r, r'))
            || (mayReset && !Final(r) && IsReset(r, r'))))
  }

  /** The step of the worker that owns the row's current claim. */
  ghost predicate OwnerMove(s: State, p: Phase, w: WorkerId, step: WorkerStep, r: Row, r': Row) {
    match step
    case Claiming(_) => false
    case TakingLock => p.Holding? && r.lock.None? && r' == r.(lock := Some(w))
    case StartingCall => p.Locking? && r' == r.(history := r.history + [Called(p.token)])
    case Committing(sent) => p.Calling? && r' == CommitRow(r, p.token, sent, s.now)
    case Crashing => !p.Holding? && r' == r.(lock := None)
    case Settling(verdict) => p.Holding? && r.lock.None? && r' == SettleRow(r, verdict, s.now)
  }

  /** Worker `w` is busy on row `n` under the row's current claim. */
  ghost predicate IsOwner(s: State, w: WorkerId, n: Id, r: Row) {
    w in s.workers && s.workers[w].id == n && r.status.Sending? && r.claimToken == Some(s.workers[w].token)
  }

  ghost predicate WorkerMove(s: State, w: WorkerId, step: WorkerStep, n: Id, r: Row, r': Row) {
    || r' == r
    || (step == Claiming(n) && w !in s.workers && Claimable(s, r) && r' == ClaimRow(r, s.nextToken, s.now))
    || (IsOwner(s, w, n, r) && OwnerMove(s, s.workers[w], w, step, r, r'))
  }

  ghost predicate RowMove(s: State, a: Action, n: Id, r: Row, r': Row) {
    match a
    case Work(w, step) => WorkerMove(s, w, step, n, r, r')
    case Handle(_) => HandlerMove(s, MayReset(a), r, r')
    case Configure(_) => HandlerMove(s, MayReset(a), r, r')
  }

  lemma RefreshMoves(s: State, rows: map<Id, Row>, ids: set<Id>, vs: Visits, n: Id)
    requires n in rows && rows[n].lock.None?
    ensures
      var r := RefreshIn(s, rows, ids, vs)[n];
      || (r == rows[n] && (n in ids ==> !Refreshable(s, rows[n])))
      || (Refreshable(s, rows[n]) && (IsCancel(rows[n], r) || IsReset(rows[n], r)))
  {
  }

  /** Between rewinding and refreshing, a claimed row of a visit_start rule does not stay as it was. */
  lemma RebuiltRowMoves(s: State, r: RuleId, rule: Rule, vs: Visits, n: Id)
    requires n in s.rows && Shape(s.rows[n]) && s.rows[n].lock.None? && s.rows[n].ruleId == Some(r)
    ensures
      var row, after := s.rows[n], RebuiltRow(s, r, rule, vs, n);
      after == row || (Pending(row) && (IsCancel(row, after) || IsReset(row, after)))
  {
    var rewound := RewindRow(s.rows[n], s.now);
    RefreshRowMoves(WithRule(s, r, rule), n, rewound, rule, vs);
  }

  lemma UpdateRuleMoves(s: State, r: RuleId, rule: Rule, vs: Visits, n: Id)
    requires n in s.rows && Shape(s.rows[n])
    ensures n in UpdateRule(s, r, rule, vs).rows
    ensures HandlerMove(s, rule.enabled && rule.trigger.VisitStart?, s.rows[n], UpdateRule(s, r, rule, vs).rows[n])
  {
    if UpdatesRule(s, r, rule) {
      UpdatedMessage(s, r, rule, vs, n);
      if s.rows[n].ruleId == Some(r) && !KeepsMessages(s, r, rule) {
        assert n in OfRule(s, r);
        RebuiltRowMoves(s, r, rule, vs, n);
      }
    }
  }

  lemma CancelAllMoves(s: State, ids: set<Id>, n: Id)
    requires n in s.rows
    ensures n in CancelAll(s, ids).rows
    ensures HandlerMove(s, false, s.rows[n], CancelAll(s, ids).rows[n])
  {
    if !AnyLocked(s, ids) {
      CancelMoves(s, ids, n);
    }
  }

  lemma RefreshAllMoves(s: State, ids: set<Id>, vs: Visits, n: Id)
    requires n in s.rows && Shape(s.rows[n])
    ensures n in Refresh(s, ids, vs).rows
    ensures HandlerMove(s, true, s.rows[n], Refresh(s, ids, vs).rows[n])
  {
    if s.rows[n].lock.None? {
      RefreshMoves(s, s.rows, ids, vs, n);
    }
  }

  lemma ExpireMoves(s: State, n: Id)
    requires n in s.rows
    ensures n in ExpireExhausted(s).rows
    ensures HandlerMove(s, false, s.rows[n], ExpireExhausted(s).rows[n])
  {
  }

  lemma RequeueMoves(s: State, ids: set<Id>, n: Id)
    requires n in s.rows && Shape(s.rows[n])
    ensures n in Requeue(s, ids).rows
    ensures HandlerMove(s, true, s.rows[n], Requeue(s, ids).rows[n])
  {
  }

  lemma AdminCancelMoves(s: State, m: Id, n: Id)
    requires n in s.rows && Shape(s.rows[n])
    ensures n in AdminCancel(s, m).rows
    ensures HandlerMove(s, false, s.rows[n], AdminCancel(s, m).rows[n])
  {
  }

  lemma UpdateApiMoves(s: State, a: ApiId, api: Api, n: Id)
    requires n in s.rows
    ensures n in UpdateApi(s, a, api).rows
    ensures HandlerMove(s, false, s.rows[n], UpdateApi(s, a, api).rows[n])
  {
    if UpdateApi(s, a, api).rows != s.rows {
      CancelMoves(s, OfApi(s, a), n);
    }
  }

  lemma DeleteApiMoves(s: State, a: ApiId, n: Id)
    requires n in s.rows
    ensures n in DeleteApi(s, a).rows
    ensures Relinked(s.rows[n], DeleteApi(s, a).rows[n])
  {
  }

  lemma DeleteRuleMoves(s: State, r: RuleId, n: Id)
    requires n in s.rows
    ensures n in DeleteRule(s, r).rows
    ensures HandlerMove(s, false, s.rows[n], DeleteRule(s, r).rows[n])
  {
    if DeleteRule(s, r).rows != s.rows {
      CancelMoves(s, OfRule(s, r), n);
      assert Relinked(CancelIn(s.rows, OfRule(s, r))[n], DeleteRule(s, r).rows[n]);
    }
  }

  lemma HandlerMoves(s: State, h: Handler, n: Id)
    requires n in s.rows && Shape(s.rows[n])
    ensures n in StepHandler(s, h).rows
    ensures HandlerMove(s, MayReset(Handle(h)), s.rows[n], StepHandler(s, h).rows[n])
  {
    match h {
      case TimePassing(_) =>
      case Expiring => ExpireMoves(s, n);
      case AdminCancelling(m) => AdminCancelMoves(s, m, n);
      case Requeueing(ids) => RequeueMoves(s, ids, n);
      case VisitCancelling(v) => CancelAllMoves(s, OfVisit(s, v), n);
      case ParticipantCancelling(p) => CancelAllMoves(s, OfParticipant(s, p), n);
      case VisitReconfirming(v) => CancelAllMoves(s, Confirmations(s, OfVisit(s, v)), n);
      case ParticipantReconfirming(p) => CancelAllMoves(s, Confirmations(s, OfParticipant(s, p)), n);
      case InsertingForRule(_, _, _, _, _, _) =>
      case InsertingPlain(_, _, _, _, _) =>
      case RefreshingVisit(v, vs) => RefreshAllMoves(s, OfVisit(s, v), vs, n);
      case RefreshingParticipant(v, p, vs) => RefreshAllMoves(s, OfVisit(s, v) * OfParticipant(s, p), vs, n);
    }
  }

  lemma ConfigMoves(s: State, c: ConfigEdit, n: Id)
    requires n in s.rows && Shape(s.rows[n])
    ensures n in StepConfig(s, c).rows
    ensures HandlerMove(s, MayReset(Configure(c)), s.rows[n], StepConfig(s, c).rows[n])
  {
    match c {
      case CreatingApi(_, _) =>
      case UpdatingApi(a, api) => UpdateApiMoves(s, a, api, n);
      case DeletingApi(a) => DeleteApiMoves(s, a, n);
      case CreatingRule(_, _) =>
      case UpdatingRule(r, rule, vs) => UpdateRuleMoves(s, r, rule, vs, n);
      case DeletingRule(r) => DeleteRuleMoves(s, r, n);
    }
  }

  lemma WorkerMoves(s: State, w: WorkerId, step: WorkerStep, n: Id)
    requires n in s.rows && Shape(s.rows[n])
    requires w in s.workers && !s.workers[w].Holding? ==> HoldsLock(s.rows, w, s.workers[w])
    ensures n in StepWorker(s, w, step).rows
    ensures WorkerMove(s, w, step, n, s.rows[n], StepWorker(s, w, step).rows[n])
  {
  }

  lemma RowMoves(s: State, a: Action, n: Id)
    requires Inv(s) && n in s.rows
    ensures n in Step(s, a).rows
    ensures RowMove(s, a, n, s.rows[n], Step(s, a).rows[n])
  {
    assert RowOk(s.rows[n], s.nextToken);
    match a {
      case Work(w, step) =>
        assert w in s.workers ==> WorkerOk(s.rows, s.nextToken, w, s.workers[w]);
        WorkerMoves(s, w, step, n);
      case Handle(h) => HandlerMoves(s, h, n);
      case Configure(c) => ConfigMoves(s, c, n);
    }
  }

  // ---------------------------------------------------------------------------
  // Traces tell the truth
  // ---------------------------------------------------------------------------

  /** What the last event of a row says about the step that added it. */
  ghost predicate EventExplains(s: State, a: Action, n: Id, r': Row, e: Event) {
    match e
    case Reset => MayReset(a) && r'.status.Queued? && r'.attempts == 0
    case Claimed(t) => a.Work? && a.step == Claiming(n) && t == s.nextToken && r'.claimToken == Some(t)
    case Called(t) => a.Work? && a.step == StartingCall && a.w in s.workers && s.workers[a.w] == Locking(n, t)
    case Recorded(t, sent) =>
      && a.Work? && a.step == Committing(sent) && a.w in s.workers && s.workers[a.w] == Calling(n, t)
      && r'.status == (if sent then Sent else Failed)
    case Withdrawn => r'.status.Cancelled?
  }

  /** No event, no attempt charged and no cancellation; or one event that explains the step. */
  ghost predicate TraceExplains(s: State, a: Action, n: Id, r: Row, r': Row) {
    || (r'.history == r.history && r'.attempts == r.attempts && (r'.status.Cancelled? <==> r.status.Cancelled?))
    || (&& |r'.history| == |r.history| + 1
        && r'.history == r.history + [r'.history[|r.history|]]
        && EventExplains(s, a, n, r', r'.history[|r.history|]))
  }

  lemma MoveExplains(s: State, a: Action, n: Id, r: Row, r': Row)
    requires RowMove(s, a, n, r, r')
    requires Shape(r)
    ensures TraceExplains(s, a, n, r, r')
  {
    match a {
      case Work(w, step) => WorkerMoveExplains(s, w, step, n, r, r');
      case Handle(_) => HandlerMoveExplains(s, a, n, r, r');
      case Configure(_) => HandlerMoveExplains(s, a, n, r, r');
    }
  }

  lemma WorkerMoveExplains(s: State, w: WorkerId, step: WorkerStep, n: Id, r: Row, r': Row)
    requires WorkerMove(s, w, step, n, r, r') && Shape(r)
    ensures TraceExplains(s, Work(w, step), n, r, r')
  {
    if step.Settling? && r' != r {
      assert r' == SettleRow(r, step.verdict, s.now);
    }
  }

  lemma HandlerMoveExplains(s: State, a: Action, n: Id, r: Row, r': Row)
    requires HandlerMove(s, MayReset(a), r, r')
    ensures TraceExplains(s, a, n, r, r')
  {
  }

  /** One step adds at most one event to a row, and the event says what happened to that row. */
  lemma TraceIsFaithful(s: State, a: Action, n: Id)
    requires Inv(s) && n in s.rows
    ensures n in Step(s, a).rows
    ensures TraceExplains(s, a, n, s.rows[n], Step(s, a).rows[n])
  {
    RowMoves(s, a, n);
    assert RowOk(s.rows[n], s.nextToken);
    MoveExplains(s, a, n, s.rows[n], Step(s, a).rows[n]);
  }

  /** A provider call never starts without its event. */
  lemma CallLeavesEvent(s: State, w: WorkerId, step: WorkerStep)
    requires Inv(s)
    requires w in StepWorker(s, w, step).workers && StepWorker(s, w, step).workers[w].Calling?
    requires !(w in s.workers && s.workers[w] == StepWorker(s, w, step).workers[w])
    ensures
      var p := StepWorker(s, w, step).workers[w];
      p.id in s.rows && StepWorker(s, w, step).rows[p.id].history == s.rows[p.id].history + [Called(p.token)]
  {
  }

  // ---------------------------------------------------------------------------
  // Provider calls
  // ---------------------------------------------------------------------------

  /** However workers, crashes, cancels and edits interleave: at most five calls between two resets. */
  lemma AtMostFiveProviderCalls(now: Time, actions: seq<Action>, n: Id, i: nat, j: nat)
    requires n in Run(Init(now), actions).rows
    requires i <= j <= |Run(Init(now), actions).rows[n].history|
    requires Reset !in Run(Init(now), actions).rows[n].history[i..j]
    ensures Calls(Run(Init(now), actions).rows[n].history[i..j]) <= MAX_ATTEMPTS
  {
    ReachableOk(now, actions);
    var s := Run(Init(now), actions);
    assert RowOk(s.rows[n], s.nextToken);
    AtMostFiveCalls(s.rows[n].history, i, j);
  }

  /** At most one provider call per notification is in flight. */
  lemma OneCallInFlight(now: Time, actions: seq<Action>, w: WorkerId, x: WorkerId)
    requires
      var s := Run(Init(now), actions);
      && w in s.workers && s.workers[w].Calling?
      && x in s.workers && s.workers[x].Calling?
      && s.workers[w].id == s.workers[x].id
    ensures w == x
  {
    ReachableOk(now, actions);
    var s := Run(Init(now), actions);
    assert WorkerOk(s.rows, s.nextToken, w, s.workers[w]) && WorkerOk(s.rows, s.nextToken, x, s.workers[x]);
  }

  /** Once a cancellation is committed, no claim and no call starts before a reset. */
  lemma NoCallAfterCancel(now: Time, actions: seq<Action>, n: Id, i: nat, j: nat)
    requires n in Run(Init(now), actions).rows
    requires
      var h := Run(Init(now), actions).rows[n].history;
      i < j < |h| && h[i] == Withdrawn && (h[j].Called? || h[j].Claimed?)
    ensures Reset in Run(Init(now), actions).rows[n].history[i..j]
  {
    ReachableOk(now, actions);
    var s := Run(Init(now), actions);
    assert RowOk(s.rows[n], s.nextToken);
    NothingStartsAfterWithdrawal(s.rows[n].history, i, j);
  }

  /** Every recorded result directly follows a call made by the very claim that records it. */
  lemma EachResultHasItsOwnCall(now: Time, actions: seq<Action>, n: Id, j: nat) returns (i: nat)
    requires n in Run(Init(now), actions).rows
    requires
      var h := Run(Init(now), actions).rows[n].history;
      j < |h| && h[j].Recorded?
    ensures
      var h := Run(Init(now), actions).rows[n].history;
      && 0 < j && h[j - 1] == Called(h[j].token)
      && i < j && h[i] == Claimed(h[j].token)
      && (forall k :: i < k < j ==> !h[k].Claimed? && !h[k].Reset?)
  {
    ReachableOk(now, actions);
    var s := Run(Init(now), actions);
    assert RowOk(s.rows[n], s.nextToken);
    ResultFollowsItsCall(s.rows[n].history, j);
    i := ResultBelongsToItsClaim(s.rows[n].history, j);
  }

  /** A worker whose claim is no longer current changes no row, whatever it does next. */
  lemma StaleWorkerWritesNothing(s: State, w: WorkerId, step: WorkerStep)
    requires Inv(s)
    requires w in s.workers
    requires s.workers[w].id in s.rows && s.rows[s.workers[w].id].claimToken != Some(s.workers[w].token)
    ensures StepWorker(s, w, step).rows == s.rows
  {
    assert WorkerOk(s.rows, s.nextToken, w, s.workers[w]);
  }

  lemma OthersLeaveWorker(s: State, w: WorkerId, a: Action)
    requires w in s.workers
    requires !(a.Work? && a.w == w)
    ensures w in Step(s, a).workers && Step(s, a).workers[w] == s.workers[w]
  {
    match a {
      case Work(x, step) =>
      case Handle(h) =>
      case Configure(c) =>
    }
  }

  lemma LockedRowStays(s: State, a: Action, n: Id, r: Row, r': Row)
    requires RowMove(s, a, n, r, r')
    requires r.lock.Some?
    requires a.Work? ==> !IsOwner(s, a.w, n, r)
    ensures Relinked(r, r')
  {
  }

  /** While a call is in flight, nobody but its worker changes the worker or what the row says. */
  lemma CallIsUndisturbed(s: State, w: WorkerId, a: Action)
    requires Inv(s)
    requires w in s.workers && s.workers[w].Calling?
    requires !(a.Work? && a.w == w)
    ensures w in Step(s, a).workers && Step(s, a).workers[w] == s.workers[w]
    ensures s.workers[w].id in s.rows && s.workers[w].id in Step(s, a).rows
    ensures Relinked(s.rows[s.workers[w].id], Step(s, a).rows[s.workers[w].id])
  {
    var p := s.workers[w];
    assert WorkerOk(s.rows, s.nextToken, w, p);
    OthersLeaveWorker(s, w, a);
    RowMoves(s, a, p.id);
    LockedRowStays(s, a, p.id, s.rows[p.id], Step(s, a).rows[p.id]);
  }

  /** The commit of an undisturbed call always finds its claim, so its result is never dropped. */
  lemma CommitAlwaysRecords(s: State, w: WorkerId, sent: bool)
    requires Inv(s)
    requires w in s.workers && s.workers[w].Calling?
    ensures
      var p := s.workers[w];
      var r := Commit(s, w, sent).rows[p.id];
      && r.status == (if sent then Sent else Failed)
      && r.history == s.rows[p.id].history + [Recorded(p.token, sent)]
      && r.attempts == s.rows[p.id].attempts
      && r.lock.None?
  {
    var p := s.workers[w];
    assert WorkerOk(s.rows, s.nextToken, w, p);
    assert RowOk(s.rows[p.id], s.nextToken);
  }

  // ---------------------------------------------------------------------------
  // Attempts, delays and final statuses
  // ---------------------------------------------------------------------------

  /** In SQL and in Go the delay is the same exactly from the first attempt on. */
  lemma SqlDelayIsBackoff(attempts: nat)
    ensures RetryDelay(attempts) == NotificationBackoff(attempts) <==> attempts >= 1
  {
  }

  /** A claimed row is sending, has used one to five attempts, and its floors and delays are never clamped. */
  lemma ClaimedRowIsInRange(now: Time, actions: seq<Action>, n: Id)
    requires n in Run(Init(now), actions).rows
    ensures
      var r := Run(Init(now), actions).rows[n];
      && (r.status.Sending? <==> r.claimToken.Some?)
      && (r.status.Sending? ==>
            && 1 <= r.attempts <= MAX_ATTEMPTS
            && OneLess(r.attempts) == r.attempts - 1
            && RetryDelay(r.attempts) == r.attempts * 5 * MINUTE == NotificationBackoff(r.attempts))
  {
    ReachableOk(now, actions);
    var s := Run(Init(now), actions);
    assert RowOk(s.rows[n], s.nextToken);
  }

  lemma FinalRowStays(s: State, a: Action, n: Id, r: Row, r': Row)
    requires RowMove(s, a, n, r, r') && Shape(r) && Final(r)
    ensures Relinked(r, r')
  {
  }

  /** A sent or logged notification keeps its status, attempts and trace for ever. */
  lemma {:induction false} FinalIsFinal(s: State, actions: seq<Action>, n: Id)
    requires Inv(s) && n in s.rows && Final(s.rows[n])
    ensures n in Run(s, actions).rows
    ensures Relinked(s.rows[n], Run(s, actions).rows[n])
    decreases |actions|
  {
    if actions != [] {
      assert RowOk(s.rows[n], s.nextToken);
      RowMoves(s, actions[0], n);
      FinalRowStays(s, actions[0], n, s.rows[n], Step(s, actions[0]).rows[n]);
      StepKeepsInv(s, actions[0]);
      FinalIsFinal(Step(s, actions[0]), actions[1..], n);
    }
  }

  /** A row stuck at the last attempt is left alone, fails, is cancelled, or is settled by its own claim holder. */
  ghost predicate LastAttemptOutcome(s: State, a: Action, n: Id, r: Row, r': Row) {
    || (r'.status.Sending? && r'.attempts == MAX_ATTEMPTS && r'.claimToken == r.claimToken)
    || r'.status.Failed?
    || r'.status.Cancelled?
    || (Final(r') && a.Work? && (a.step.Committing? || a.step.Settling?) && IsOwner(s, a.w, n, r))
  }

  lemma LastAttemptMove(s: State, a: Action, n: Id, r: Row, r': Row)
    requires RowMove(s, a, n, r, r')
    requires r.status.Sending? && r.attempts == MAX_ATTEMPTS && !MayReset(a)
    ensures LastAttemptOutcome(s, a, n, r, r')
  {
  }

  lemma LastAttemptOutcomes(s: State, a: Action, n: Id)
    requires Inv(s) && n in s.rows
    requires s.rows[n].status.Sending? && s.rows[n].attempts == MAX_ATTEMPTS && !MayReset(a)
    ensures n in Step(s, a).rows
    ensures LastAttemptOutcome(s, a, n, s.rows[n], Step(s, a).rows[n])
  {
    RowMoves(s, a, n);
    LastAttemptMove(s, a, n, s.rows[n], Step(s, a).rows[n]);
  }

  ghost predicate SameClaim(r: Row, r': Row) {
    r'.status.Sending? ==> r'.claimToken == r.claimToken && r'.claimedAt == r.claimedAt && r'.attempts == r.attempts
  }

  lemma LeasedRowMove(s: State, a: Action, n: Id, r: Row, r': Row)
    requires RowMove(s, a, n, r, r') && Shape(r)
    requires r.status.Sending? && s.now <= r.claimedAt.value + LEASE
    ensures SameClaim(r, r')
  {
    match a {
      case Work(_, step) => assert step.Claiming? ==> r' == r;
      case _ =>
    }
  }

  /** For two minutes after a claim, no other worker can claim the row. */
  lemma LeaseProtects(s: State, a: Action, n: Id)
    requires Inv(s) && n in s.rows
    requires s.rows[n].status.Sending? && s.rows[n].claimedAt.Some? && s.now <= s.rows[n].claimedAt.value + LEASE
    ensures n in Step(s, a).rows
    ensures SameClaim(s.rows[n], Step(s, a).rows[n])
  {
    assert RowOk(s.rows[n], s.nextToken);
    RowMoves(s, a, n);
    LeasedRowMove(s, a, n, s.rows[n], Step(s, a).rows[n]);
  }

  /** A message whose rule is disabled is not claimed by any step, whatever API it carries. */
  lemma UnservedIsNotClaimed(s: State, a: Action, n: Id)
    requires Inv(s) && n in s.rows && !RuleAllows(s, s.rows[n])
    ensures n in Step(s, a).rows
    ensures Step(s, a).rows[n].claimToken in {None, s.rows[n].claimToken}
    ensures forall t :: Claimed(t) in Step(s, a).rows[n].history ==> Claimed(t) in s.rows[n].history
  {
    RowMoves(s, a, n);
    assert RowOk(s.rows[n], s.nextToken);
    UnservedMove(s, a, n, s.rows[n], Step(s, a).rows[n]);
  }

  lemma UnservedMove(s: State, a: Action, n: Id, r: Row, r': Row)
    requires RowMove(s, a, n, r, r') && !RuleAllows(s, r)
    ensures r'.claimToken in {None, r.claimToken}
    ensures forall t :: Claimed(t) in r'.history ==> Claimed(t) in r.history
  {
  }

  /** A requeued row is due at once, whatever made it fail. */
  lemma RequeuedRowIsDue(s: State, ids: set<Id>, n: Id)
    requires Inv(s) && n in s.rows && n in ids && Requeueable(s, s.rows[n])
    ensures Claimable(Requeue(s, ids), Requeue(s, ids).rows[n])
    ensures Requeue(s, ids).rows[n].attempts == 0
  {
    assert RowOk(s.rows[n], s.nextToken);
  }

  // ---------------------------------------------------------------------------
  // The retry budget
  // ---------------------------------------------------------------------------

  function Remaining(r: Row): nat {
    if Pending(r) && r.attempts <= MAX_ATTEMPTS then MAX_ATTEMPTS - r.attempts else 0
  }

  /** What is left of all rows with an id below `k`. */
  function Budget(rows: map<Id, Row>, k: nat): nat {
    if k == 0 then 0
    else Budget(rows, k - 1) + if k - 1 in rows then Remaining(rows[k - 1]) else 0
  }

  lemma {:induction false} BudgetShrinks(rows: map<Id, Row>, rows': map<Id, Row>, k: nat)
    requires forall n :: n in rows' ==> n in rows && Remaining(rows'[n]) <= Remaining(rows[n])
    ensures Budget(rows', k) <= Budget(rows, k)
  {
    if k > 0 {
      BudgetShrinks(rows, rows', k - 1);
    }
  }

  lemma {:induction false} BudgetPays(rows: map<Id, Row>, n: Id, r: Row, k: nat)
    requires n in rows && n < k
    requires Remaining(r) + 1 == Remaining(rows[n])
    ensures Budget(rows[n := r], k) + 1 == Budget(rows, k)
  {
    if n == k - 1 {
      BudgetSame(rows, n, r, k - 1);
    } else {
      BudgetPays(rows, n, r, k - 1);
    }
  }

  lemma {:induction false} BudgetSame(rows: map<Id, Row>, n: Id, r: Row, k: nat)
    requires k <= n
    ensures Budget(rows[n := r], k) == Budget(rows, k)
  {
    if k > 0 {
      BudgetSame(rows, n, r, k - 1);
    }
  }

  predicate TakesRow(s: State, a: Action) {
    a.Work? && a.step.Claiming? && a.w !in s.workers && a.step.n in s.rows && Claimable(s, s.rows[a.step.n])
  }

  /** Claims that took a row during a run. */
  function SuccessfulClaims(s: State, actions: seq<Action>): nat
    decreases |actions|
  {
    if actions == [] then 0
    else (if TakesRow(s, actions[0]) then 1 else 0)
         + SuccessfulClaims(Step(s, actions[0]), actions[1..])
  }

  /** A move that is not a reset never leaves more attempts to use. */
  lemma MoveKeepsRemaining(s: State, a: Action, n: Id, r: Row, r': Row)
    requires RowMove(s, a, n, r, r') && Shape(r) && !MayReset(a)
    ensures Remaining(r') <= Remaining(r)
  {
  }

  lemma StepKeepsRows(s: State, a: Action)
    requires !MayReset(a)
    ensures Step(s, a).rows.Keys == s.rows.Keys
  {
    match a {
      case Work(_, _) =>
      case Handle(h) =>
      case Configure(c) =>
    }
  }

  lemma StepKeepsBudget(s: State, a: Action, k: nat)
    requires Inv(s)
    requires forall n :: n in s.rows ==> n < k
    requires !MayReset(a)
    ensures Step(s, a).rows.Keys == s.rows.Keys
    ensures Budget(Step(s, a).rows, k) + (if TakesRow(s, a) then 1 else 0) <= Budget(s.rows, k)
  {
    StepKeepsRows(s, a);
    var rows' := Step(s, a).rows;
    if TakesRow(s, a) {
      assert RowOk(s.rows[a.step.n], s.nextToken);
      BudgetPays(s.rows, a.step.n, ClaimRow(s.rows[a.step.n], s.nextToken, s.now), k);
    } else {
      forall n | n in rows' ensures n in s.rows && Remaining(rows'[n]) <= Remaining(s.rows[n]) {
        RowMoves(s, a, n);
        assert RowOk(s.rows[n], s.nextToken);
        MoveKeepsRemaining(s, a, n, s.rows[n], rows'[n]);
      }
      BudgetShrinks(s.rows, rows', k);
    }
  }

  /** Without inserts, requeues and refreshes the queue makes at most the sum of (5 - attempts) more claims. */
  lemma {:induction false} ClaimsWithinBudget(s: State, actions: seq<Action>, k: nat)
    requires Inv(s)
    requires forall n :: n in s.rows ==> n < k
    requires forall i :: 0 <= i < |actions| ==> !MayReset(actions[i])
    ensures SuccessfulClaims(s, actions) + Budget(Run(s, actions).rows, k) <= Budget(s.rows, k)
    decreases |actions|
  {
    if actions != [] {
      StepKeepsInv(s, actions[0]);
      StepKeepsBudget(s, actions[0], k);
      ClaimsWithinBudget(Step(s, actions[0]), actions[1..], k);
    }
  }
}
