/**
 Delivery safety: what every step of the notification tables keeps, for any number of workers and
 any interleaving of claims, crashes, cancellations, requeues and configuration edits.
 */
module NotificationSafety {
  import opened Wrappers
  import opened NotificationHistory
  import opened NotificationQueue
  import opened NotificationMoves

  // ---------------------------------------------------------------------------
  // The invariant
  // ---------------------------------------------------------------------------

  /** The columns of a row agree with each other. */
  ghost predicate Shape(r: Row) {
    && (r.status.Sending? <==> r.claimToken.Some?)
    && (r.status.Sending? <==> r.claimedAt.Some?)
    && (r.status.Sending? ==> 1 <= r.attempts)
    && r.attempts <= MAX_ATTEMPTS
    && (r.lock.Some? ==> r.status.Sending?)
    && (r.ruleId.Some? ==> r.visitId.Some?)
  }

  /** All claim tokens in the trace were handed out before `bound`. */
  ghost predicate TokensBelow(h: seq<Event>, bound: Token) {
    forall i :: 0 <= i < |h| ==> (h[i].Claimed? || h[i].Called?) ==> h[i].token < bound
  }

  ghost predicate SoundTrace(h: seq<Event>, bound: Token) {
    WellBehaved(h) && TokensBelow(h, bound)
  }

  /** A row agrees with the trace it left behind. */
  ghost predicate MatchesTrace(r: Row) {
    && (r.status.Cancelled? <==> IsWithdrawn(r.history))
    && (!r.status.Cancelled? ==> Claims(r.history) == r.attempts)
    && (r.status.Sending? ==> LastClaim(r.history) == r.claimToken)
  }

  ghost predicate RowOk(r: Row, bound: Token) {
    Shape(r) && SoundTrace(r.history, bound) && MatchesTrace(r)
  }

  ghost predicate RowsOk(rows: map<Id, Row>, bound: Token) {
    forall n :: n in rows ==> RowOk(rows[n], bound)
  }

  /** A worker past the lock step is the one the row lock and the row claim name. */
  ghost predicate HoldsLock(rows: map<Id, Row>, w: WorkerId, p: Phase) {
    p.id in rows && rows[p.id].lock == Some(w) && rows[p.id].claimToken == Some(p.token)
  }

  /** A call that has not started is still ahead; one that is in flight is the last event. */
  ghost predicate CallMatches(h: seq<Event>, p: Phase) {
    if p.Calling? then h != [] && h[|h| - 1] == Called(p.token) else Called(p.token) !in h
  }

  ghost predicate WorkerOk(rows: map<Id, Row>, bound: Token, w: WorkerId, p: Phase) {
    && p.id in rows
    && p.token < bound
    && (!p.Holding? ==> HoldsLock(rows, w, p))
    && CallMatches(rows[p.id].history, p)
  }

  ghost predicate DistinctTokens(workers: map<WorkerId, Phase>) {
    forall w, x :: w in workers && x in workers && w != x ==> workers[w].token != workers[x].token
  }

  /** Every row lock is held by a worker that is locking or calling that row. */
  ghost predicate LocksOwned(rows: map<Id, Row>, workers: map<WorkerId, Phase>) {
    forall n :: n in rows && rows[n].lock.Some? ==>
      && rows[n].lock.value in workers
      && !workers[rows[n].lock.value].Holding?
      && workers[rows[n].lock.value].id == n
  }

  ghost predicate WorkersOk(rows: map<Id, Row>, workers: map<WorkerId, Phase>, bound: Token) {
    && (forall w :: w in workers ==> WorkerOk(rows, bound, w, workers[w]))
    && DistinctTokens(workers)
    && LocksOwned(rows, workers)
  }

  ghost predicate Inv(s: State) {
    RowsOk(s.rows, s.nextToken) && WorkersOk(s.rows, s.workers, s.nextToken)
  }

  // ---------------------------------------------------------------------------
  // Rows
  // ---------------------------------------------------------------------------

  lemma ExtendSound(h: seq<Event>, e: Event, bound: Token)
    requires SoundTrace(h, bound)
    requires MayFollow(h, e)
    requires (e.Claimed? || e.Called?) ==> e.token < bound
    ensures SoundTrace(h + [e], bound)
  {
    ExtendWellBehaved(h, e);
  }

  lemma FreshToken(h: seq<Event>, bound: Token)
    requires TokensBelow(h, bound)
    ensures Claimed(bound) !in h && Called(bound) !in h
  {
  }

  lemma CancelRowOk(r: Row, bound: Token)
    requires Shape(r) && SoundTrace(r.history, bound)
    requires r.lock.None?
    ensures RowOk(CancelRow(r), bound)
  {
    ExtendSound(r.history, Withdrawn, bound);
    Snoc(r.history, Withdrawn);
  }

  /** A reset repairs whatever the counter was: only the trace has to be sound. */
  lemma ResetRowOk(r: Row, next: Time, bound: Token)
    requires r.lock.None? && (r.ruleId.Some? ==> r.visitId.Some?)
    requires SoundTrace(r.history, bound)
    ensures RowOk(ResetRow(r, next), bound)
  {
    ExtendSound(r.history, Reset, bound);
    Snoc(r.history, Reset);
  }

  lemma ClaimRowOk(r: Row, token: Token, now: Time)
    requires RowOk(r, token)
    requires r.lock.None? && Pending(r) && r.attempts < MAX_ATTEMPTS
    ensures RowOk(ClaimRow(r, token, now), token + 1)
  {
    FreshToken(r.history, token);
    ExtendSound(r.history, Claimed(token), token + 1);
    Snoc(r.history, Claimed(token));
  }

  lemma CallRowOk(r: Row, token: Token, bound: Token)
    requires RowOk(r, bound)
    requires r.claimToken == Some(token) && token < bound
    requires Called(token) !in r.history
    ensures RowOk(r.(history := r.history + [Called(token)]), bound)
  {
    ExtendSound(r.history, Called(token), bound);
    Snoc(r.history, Called(token));
  }

  lemma CommitRowOk(r: Row, token: Token, sent: bool, now: Time, bound: Token)
    requires RowOk(r, bound)
    requires r.status.Sending?
    requires r.history != [] && r.history[|r.history| - 1] == Called(token)
    ensures RowOk(CommitRow(r, token, sent, now), bound)
  {
    ExtendSound(r.history, Recorded(token, sent), bound);
    Snoc(r.history, Recorded(token, sent));
  }

  lemma SettleRowOk(r: Row, verdict: Verdict, now: Time, bound: Token)
    requires RowOk(r, bound)
    requires r.lock.None?
    requires r.status.Sending?
    ensures RowOk(SettleRow(r, verdict, now), bound)
  {
    CancelRowOk(r, bound);
  }

  /** One row changes, tokens only grow. */
  lemma PutRow(rows: map<Id, Row>, bound: Token, n: Id, row: Row, bound': Token)
    requires RowsOk(rows, bound) && bound <= bound'
    requires RowOk(row, bound')
    ensures RowsOk(rows[n := row], bound')
  {
    forall m | m in rows && m != n ensures RowOk(rows[m], bound') {
      assert RowOk(rows[m], bound);
    }
  }

  // ---------------------------------------------------------------------------
  // Handler transactions
  // ---------------------------------------------------------------------------

  /** How a handler may change a row: never a locked one, and never with a new call. */
  ghost predicate Touched(before: Row, after: Row, bound: Token) {
    || after == before
    || (&& before.lock.None? && after.lock.None?
        && RowOk(after, bound)
        && (forall e :: e in after.history && e.Called? ==> e in before.history))
  }

  ghost predicate AllTouched(rows: map<Id, Row>, rows': map<Id, Row>, bound: Token) {
    rows'.Keys == rows.Keys && forall n :: n in rows ==> Touched(rows[n], rows'[n], bound)
  }

  lemma TouchedRowsOk(rows: map<Id, Row>, rows': map<Id, Row>, bound: Token)
    requires RowsOk(rows, bound)
    requires AllTouched(rows, rows', bound)
    ensures RowsOk(rows', bound)
  {
    forall n | n in rows' ensures RowOk(rows'[n], bound) {
      assert Touched(rows[n], rows'[n], bound);
    }
  }

  lemma TouchedWorkersOk(rows: map<Id, Row>, rows': map<Id, Row>, workers: map<WorkerId, Phase>, bound: Token)
    requires WorkersOk(rows, workers, bound)
    requires AllTouched(rows, rows', bound)
    ensures WorkersOk(rows', workers, bound)
  {
    forall w | w in workers ensures WorkerOk(rows', bound, w, workers[w]) {
      assert WorkerOk(rows, bound, w, workers[w]);
      assert Touched(rows[workers[w].id], rows'[workers[w].id], bound);
    }
    forall n | n in rows' && rows'[n].lock.Some? ensures rows'[n] == rows[n] {
      assert Touched(rows[n], rows'[n], bound);
    }
  }

  /** Every handler transaction has this shape, whatever it does to rules and APIs. */
  lemma HandlersKeepInv(s: State, s': State)
    requires Inv(s)
    requires s'.workers == s.workers && s'.nextToken == s.nextToken
    requires AllTouched(s.rows, s'.rows, s.nextToken)
    ensures Inv(s')
  {
    TouchedRowsOk(s.rows, s'.rows, s.nextToken);
    TouchedWorkersOk(s.rows, s'.rows, s.workers, s.nextToken);
  }

  lemma CancelInTouches(s: State, ids: set<Id>)
    requires RowsOk(s.rows, s.nextToken)
    requires !AnyLocked(s, ids)
    ensures AllTouched(s.rows, CancelIn(s.rows, ids), s.nextToken)
  {
    forall n | n in s.rows ensures Touched(s.rows[n], CancelIn(s.rows, ids)[n], s.nextToken) {
      if n in ids && Pending(s.rows[n]) {
        assert RowOk(s.rows[n], s.nextToken);
        CancelRowOk(s.rows[n], s.nextToken);
      }
    }
  }

  lemma CancelAllKeepsInv(s: State, ids: set<Id>)
    requires Inv(s)
    ensures Inv(CancelAll(s, ids))
  {
    if !AnyLocked(s, ids) {
      CancelInTouches(s, ids);
      HandlersKeepInv(s, CancelAll(s, ids));
    }
  }

  lemma RequeueKeepsInv(s: State, ids: set<Id>)
    requires Inv(s)
    ensures Inv(Requeue(s, ids))
  {
    var s' := Requeue(s, ids);
    forall n | n in s.rows ensures Touched(s.rows[n], s'.rows[n], s.nextToken) {
      assert RowOk(s.rows[n], s.nextToken);
      if n in ids && Requeueable(s, s.rows[n]) {
        ResetRowOk(s.rows[n], s.now, s.nextToken);
      }
    }
    HandlersKeepInv(s, s');
  }

  /** Refreshing needs no more than a sound trace, so it also absorbs a rewound row. */
  lemma RefreshRowOk(s: State, n: Id, r: Row, rule: Rule, vs: Visits, bound: Token)
    requires Shape(r.(attempts := 1)) && r.lock.None? && r.attempts <= MAX_ATTEMPTS
    requires r.status.Queued? || r.status.Failed?
    requires SoundTrace(r.history, bound)
    ensures RowOk(RefreshRow(s, n, r, rule, vs), bound)
    ensures RefreshRow(s, n, r, rule, vs).lock.None?
    ensures forall e :: e in RefreshRow(s, n, r, rule, vs).history && e.Called? ==> e in r.history
  {
    var moved := r.(channel := rule.channel, apiId := rule.apiId);
    ResetRowOk(moved, Later(StartOf(vs, r, s.now) + rule.offsetMinutes * MINUTE, s.now), bound);
    CancelRowOk(r, bound);
  }

  lemma RefreshKeepsInv(s: State, ids: set<Id>, vs: Visits)
    requires Inv(s)
    ensures Inv(Refresh(s, ids, vs))
  {
    var rows' := RefreshIn(s, s.rows, ids, vs);
    forall n | n in s.rows ensures Touched(s.rows[n], rows'[n], s.nextToken) {
      var r := s.rows[n];
      assert RowOk(r, s.nextToken);
      if n in ids && Refreshable(s, r) {
        RefreshRowOk(s, n, r, s.rules[r.ruleId.value], vs, s.nextToken);
      }
    }
    HandlersKeepInv(s, Refresh(s, ids, vs));
  }

  lemma ExpireKeepsInv(s: State)
    requires Inv(s)
    ensures Inv(ExpireExhausted(s))
  {
    var s' := ExpireExhausted(s);
    if s' != s {
      forall n | n in s.rows ensures Touched(s.rows[n], s'.rows[n], s.nextToken) {
        assert RowOk(s.rows[n], s.nextToken);
      }
      HandlersKeepInv(s, s');
    }
  }

  lemma InsertKeepsInv(s: State, n: Id, r: Row)
    requires Inv(s) && n !in s.rows
    requires Shape(r) && r.lock.None? && r.status.Queued? && r.attempts == 0 && r.history == [Reset]
    ensures Inv(s.(rows := s.rows[n := r]))
  {
    assert r.history[..0] == [];
    assert MayFollow(r.history[..0], r.history[0]);
    PutRow(s.rows, s.nextToken, n, r, s.nextToken);
    forall w | w in s.workers ensures WorkerOk(s.rows[n := r], s.nextToken, w, s.workers[w]) {
      assert WorkerOk(s.rows, s.nextToken, w, s.workers[w]);
    }
  }

  lemma OneTouched(rows: map<Id, Row>, n: Id, row: Row, bound: Token)
    requires n in rows && Touched(rows[n], row, bound)
    ensures AllTouched(rows, rows[n := row], bound)
  {
  }

  lemma AdminCancelKeepsInv(s: State, n: Id)
    requires Inv(s)
    ensures Inv(AdminCancel(s, n))
  {
    if n in s.rows && (s.rows[n].status.Queued? || s.rows[n].status.Failed?) {
      assert RowOk(s.rows[n], s.nextToken);
      CancelRowOk(s.rows[n], s.nextToken);
      OneTouched(s.rows, n, CancelRow(s.rows[n]), s.nextToken);
      HandlersKeepInv(s, AdminCancel(s, n));
    }
  }

  lemma HandlerKeepsInv(s: State, h: Handler)
    requires Inv(s)
    ensures Inv(StepHandler(s, h))
  {
    match h {
      case TimePassing(_) =>
      case Expiring => ExpireKeepsInv(s);
      case AdminCancelling(n) => AdminCancelKeepsInv(s, n);
      case Requeueing(ids) => RequeueKeepsInv(s, ids);
      case VisitCancelling(v) => CancelAllKeepsInv(s, OfVisit(s, v));
      case ParticipantCancelling(p) => CancelAllKeepsInv(s, OfParticipant(s, p));
      case VisitReconfirming(v) => CancelAllKeepsInv(s, Confirmations(s, OfVisit(s, v)));
      case ParticipantReconfirming(p) => CancelAllKeepsInv(s, Confirmations(s, OfParticipant(s, p)));
      case InsertingForRule(n, r, v, p, eventAt, startAt) =>
        if StepHandler(s, h) != s { InsertKeepsInv(s, n, StepHandler(s, h).rows[n]); }
      case InsertingPlain(n, channel, v, p, visitorPass) =>
        if StepHandler(s, h) != s { InsertKeepsInv(s, n, StepHandler(s, h).rows[n]); }
      case RefreshingVisit(v, vs) => RefreshKeepsInv(s, OfVisit(s, v), vs);
      case RefreshingParticipant(v, p, vs) => RefreshKeepsInv(s, OfVisit(s, v) * OfParticipant(s, p), vs);
    }
  }

  // ---------------------------------------------------------------------------
  // Configuration edits
  // ---------------------------------------------------------------------------

  lemma UpdateApiKeepsInv(s: State, a: ApiId, api: Api)
    requires Inv(s)
    ensures Inv(UpdateApi(s, a, api))
  {
    var s' := UpdateApi(s, a, api);
    if s'.rows != s.rows {
      CancelInTouches(s, OfApi(s, a));
      HandlersKeepInv(s, s');
    }
  }

  lemma DeleteApiKeepsInv(s: State, a: ApiId)
    requires Inv(s)
    ensures Inv(DeleteApi(s, a))
  {
    var s' := DeleteApi(s, a);
    if s' != s {
      forall n | n in s.rows ensures Touched(s.rows[n], s'.rows[n], s.nextToken) {
        assert RowOk(s.rows[n], s.nextToken);
        if s.rows[n].apiId == Some(a) {
          assert !Pending(s.rows[n]);
        }
      }
      HandlersKeepInv(s, s');
    }
  }

  /** Rewinding alone would break the attempt count, refreshing restores it. */
  lemma RebuiltRowOk(s: State, r: RuleId, rule: Rule, vs: Visits, n: Id)
    requires n in s.rows && RowOk(s.rows[n], s.nextToken) && s.rows[n].lock.None? && s.rows[n].ruleId == Some(r)
    ensures Touched(s.rows[n], RebuiltRow(s, r, rule, vs, n), s.nextToken)
  {
    var rewound := RewindRow(s.rows[n], s.now);
    if rewound.status.Queued? || rewound.status.Failed? {
      RefreshRowOk(WithRule(s, r, rule), n, rewound, rule, vs, s.nextToken);
    }
  }

  lemma UpdateRuleTouches(s: State, r: RuleId, rule: Rule, vs: Visits, n: Id)
    requires n in s.rows && RowOk(s.rows[n], s.nextToken) && UpdatesRule(s, r, rule)
    ensures n in UpdatedMessages(s, r, rule, vs)
    ensures Touched(s.rows[n], UpdatedMessages(s, r, rule, vs)[n], s.nextToken)
  {
    UpdatedMessage(s, r, rule, vs, n);
    if s.rows[n].ruleId == Some(r) && !KeepsMessages(s, r, rule) {
      assert n in OfRule(s, r);
      RebuiltRowOk(s, r, rule, vs, n);
      if Pending(s.rows[n]) {
        CancelRowOk(s.rows[n], s.nextToken);
      }
    }
  }

  lemma UpdateRuleKeepsInv(s: State, r: RuleId, rule: Rule, vs: Visits)
    requires Inv(s)
    ensures Inv(UpdateRule(s, r, rule, vs))
  {
    if UpdatesRule(s, r, rule) {
      var rows' := UpdatedMessages(s, r, rule, vs);
      forall n | n in s.rows ensures n in rows' && Touched(s.rows[n], rows'[n], s.nextToken) {
        assert RowOk(s.rows[n], s.nextToken);
        UpdateRuleTouches(s, r, rule, vs, n);
      }
      HandlersKeepInv(s, UpdateRule(s, r, rule, vs));
    }
  }

  lemma UnlinkTouches(rows: map<Id, Row>, rows': map<Id, Row>, rows'': map<Id, Row>, bound: Token)
    requires RowsOk(rows, bound)
    requires AllTouched(rows, rows', bound)
    requires rows''.Keys == rows'.Keys
    requires forall n :: n in rows' ==>
      rows''[n] == rows'[n] || (rows'[n].lock.None? && rows''[n] == rows'[n].(ruleId := None))
    ensures AllTouched(rows, rows'', bound)
  {
    TouchedRowsOk(rows, rows', bound);
    forall n | n in rows ensures Touched(rows[n], rows''[n], bound) {
      assert Touched(rows[n], rows'[n], bound) && RowOk(rows'[n], bound);
    }
  }

  lemma DeleteRuleKeepsInv(s: State, r: RuleId)
    requires Inv(s)
    ensures Inv(DeleteRule(s, r))
  {
    var s' := DeleteRule(s, r);
    if s' != s {
      CancelInTouches(s, OfRule(s, r));
      UnlinkTouches(s.rows, CancelIn(s.rows, OfRule(s, r)), s'.rows, s.nextToken);
      HandlersKeepInv(s, s');
    }
  }

  lemma ConfigKeepsInv(s: State, c: ConfigEdit)
    requires Inv(s)
    ensures Inv(StepConfig(s, c))
  {
    match c {
      case CreatingApi(_, _) =>
      case UpdatingApi(a, api) => UpdateApiKeepsInv(s, a, api);
      case DeletingApi(a) => DeleteApiKeepsInv(s, a);
      case CreatingRule(_, _) =>
      case UpdatingRule(r, rule, vs) => UpdateRuleKeepsInv(s, r, rule, vs);
      case DeletingRule(r) => DeleteRuleKeepsInv(s, r);
    }
  }

  // ---------------------------------------------------------------------------
  // Worker steps
  // ---------------------------------------------------------------------------

  /** Changing the row that `w` works on leaves every other worker alone. */
  lemma OthersKeep(rows: map<Id, Row>, workers: map<WorkerId, Phase>, bound: Token, w: WorkerId, n: Id, row: Row)
    requires WorkersOk(rows, workers, bound)
    requires n in rows && (rows[n].lock.None? || rows[n].lock == Some(w))
    requires forall x :: x in workers && x != w ==>
      Called(workers[x].token) in row.history ==> Called(workers[x].token) in rows[n].history
    ensures forall x :: x in workers && x != w ==> WorkerOk(rows[n := row], bound, x, workers[x])
  {
    forall x | x in workers && x != w ensures WorkerOk(rows[n := row], bound, x, workers[x]) {
      assert WorkerOk(rows, bound, x, workers[x]);
    }
  }

  /** The worker moves to a new phase, or keeps its place, on the row it owns. */
  lemma MoveWorker(rows: map<Id, Row>, workers: map<WorkerId, Phase>, bound: Token, w: WorkerId, p: Phase, row: Row)
    requires WorkersOk(rows, workers, bound)
    requires w in workers && workers[w].id == p.id && workers[w].token == p.token
    requires p.id in rows && (rows[p.id].lock.None? || rows[p.id].lock == Some(w))
    requires forall e :: e in row.history && e.Called? && e != Called(p.token) ==> e in rows[p.id].history
    requires WorkerOk(rows[p.id := row], bound, w, p)
    requires !p.Holding?
    ensures WorkersOk(rows[p.id := row], workers[w := p], bound)
  {
    OthersKeep(rows, workers, bound, w, p.id, row);
    var workers' := workers[w := p];
    assert forall x :: x in workers' ==> workers'[x].token == workers[x].token;
  }

  /** The worker is done with its row and lets go of it. */
  lemma DropWorker(rows: map<Id, Row>, workers: map<WorkerId, Phase>, bound: Token, w: WorkerId, row: Row)
    requires WorkersOk(rows, workers, bound)
    requires w in workers && workers[w].id in rows
    requires rows[workers[w].id].lock.None? || rows[workers[w].id].lock == Some(w)
    requires forall e :: e in row.history && e.Called? ==> e in rows[workers[w].id].history
    requires row.lock.None?
    ensures WorkersOk(rows[workers[w].id := row], workers - {w}, bound)
  {
    OthersKeep(rows, workers, bound, w, workers[w].id, row);
  }

  /** A worker without the lock may also just disappear. */
  lemma ForgetWorker(rows: map<Id, Row>, workers: map<WorkerId, Phase>, bound: Token, w: WorkerId)
    requires WorkersOk(rows, workers, bound)
    requires w in workers && workers[w].Holding?
    ensures WorkersOk(rows, workers - {w}, bound)
  {
  }

  lemma ClaimKeepsWorkers(s: State, w: WorkerId, n: Id, row: Row)
    requires WorkersOk(s.rows, s.workers, s.nextToken)
    requires w !in s.workers && n in s.rows && s.rows[n].lock.None?
    requires row.lock.None? && Called(s.nextToken) !in s.rows[n].history
    requires row.history == s.rows[n].history + [Claimed(s.nextToken)]
    ensures WorkersOk(s.rows[n := row], s.workers[w := Holding(n, s.nextToken)], s.nextToken + 1)
  {
    var rows, workers := s.rows[n := row], s.workers[w := Holding(n, s.nextToken)];
    OthersKeep(s.rows, s.workers, s.nextToken, w, n, row);
    forall x | x in workers ensures WorkerOk(rows, s.nextToken + 1, x, workers[x]) {
      if x != w {
        assert WorkerOk(rows, s.nextToken, x, s.workers[x]);
      }
    }
    forall x, y | x in workers && y in workers && x != y ensures workers[x].token != workers[y].token {
      assert x != w ==> WorkerOk(s.rows, s.nextToken, x, s.workers[x]);
      assert y != w ==> WorkerOk(s.rows, s.nextToken, y, s.workers[y]);
    }
  }

  lemma ClaimKeepsInv(s: State, w: WorkerId, n: Id)
    requires Inv(s)
    ensures Inv(Claim(s, w, n))
  {
    if w !in s.workers && n in s.rows && Claimable(s, s.rows[n]) {
      var row := ClaimRow(s.rows[n], s.nextToken, s.now);
      assert RowOk(s.rows[n], s.nextToken);
      ClaimRowOk(s.rows[n], s.nextToken, s.now);
      FreshToken(s.rows[n].history, s.nextToken);
      PutRow(s.rows, s.nextToken, n, row, s.nextToken + 1);
      ClaimKeepsWorkers(s, w, n, row);
    }
  }

  lemma TakeLockKeepsInv(s: State, w: WorkerId)
    requires Inv(s)
    ensures Inv(TakeLock(s, w))
  {
    if w in s.workers && s.workers[w].Holding? {
      var p := s.workers[w];
      assert WorkerOk(s.rows, s.nextToken, w, p);
      ForgetWorker(s.rows, s.workers, s.nextToken, w);
      if Owns(s, p) && s.rows[p.id].lock.None? {
        var row := s.rows[p.id].(lock := Some(w));
        assert RowOk(s.rows[p.id], s.nextToken);
        PutRow(s.rows, s.nextToken, p.id, row, s.nextToken);
        MoveWorker(s.rows, s.workers, s.nextToken, w, Locking(p.id, p.token), row);
      }
    }
  }

  lemma StartCallKeepsInv(s: State, w: WorkerId)
    requires Inv(s)
    ensures Inv(StartCall(s, w))
  {
    if w in s.workers && s.workers[w].Locking? {
      var p := s.workers[w];
      assert WorkerOk(s.rows, s.nextToken, w, p);
      var row := s.rows[p.id].(history := s.rows[p.id].history + [Called(p.token)]);
      CallRowOk(s.rows[p.id], p.token, s.nextToken);
      PutRow(s.rows, s.nextToken, p.id, row, s.nextToken);
      MoveWorker(s.rows, s.workers, s.nextToken, w, Calling(p.id, p.token), row);
    }
  }

  lemma CommitKeepsInv(s: State, w: WorkerId, sent: bool)
    requires Inv(s)
    ensures Inv(Commit(s, w, sent))
  {
    if w in s.workers && s.workers[w].Calling? {
      var p := s.workers[w];
      assert WorkerOk(s.rows, s.nextToken, w, p);
      assert RowOk(s.rows[p.id], s.nextToken);
      assert Owns(s, p);
      var row := CommitRow(s.rows[p.id], p.token, sent, s.now);
      CommitRowOk(s.rows[p.id], p.token, sent, s.now, s.nextToken);
      PutRow(s.rows, s.nextToken, p.id, row, s.nextToken);
      DropWorker(s.rows, s.workers, s.nextToken, w, row);
    }
  }

  lemma CrashKeepsInv(s: State, w: WorkerId)
    requires Inv(s)
    ensures Inv(Crash(s, w))
  {
    if w in s.workers {
      var p := s.workers[w];
      assert WorkerOk(s.rows, s.nextToken, w, p);
      if p.Holding? {
        ForgetWorker(s.rows, s.workers, s.nextToken, w);
      } else {
        var row := s.rows[p.id].(lock := None);
        assert RowOk(s.rows[p.id], s.nextToken);
        PutRow(s.rows, s.nextToken, p.id, row, s.nextToken);
        DropWorker(s.rows, s.workers, s.nextToken, w, row);
      }
    }
  }

  lemma SettleKeepsInv(s: State, w: WorkerId, verdict: Verdict)
    requires Inv(s)
    ensures Inv(Settle(s, w, verdict))
  {
    if w in s.workers && s.workers[w].Holding? {
      var p := s.workers[w];
      ForgetWorker(s.rows, s.workers, s.nextToken, w);
      if Owns(s, p) && s.rows[p.id].lock.None? {
        var row := SettleRow(s.rows[p.id], verdict, s.now);
        SettleRowOk(s.rows[p.id], verdict, s.now, s.nextToken);
        PutRow(s.rows, s.nextToken, p.id, row, s.nextToken);
        DropWorker(s.rows, s.workers, s.nextToken, w, row);
      }
    }
  }

  lemma WorkerKeepsInv(s: State, w: WorkerId, step: WorkerStep)
    requires Inv(s)
    ensures Inv(StepWorker(s, w, step))
  {
    match step {
      case Claiming(n) => ClaimKeepsInv(s, w, n);
      case TakingLock => TakeLockKeepsInv(s, w);
      case StartingCall => StartCallKeepsInv(s, w);
      case Committing(sent) => CommitKeepsInv(s, w, sent);
      case Crashing => CrashKeepsInv(s, w);
      case Settling(verdict) => SettleKeepsInv(s, w, verdict);
    }
  }

  // ---------------------------------------------------------------------------
  // Every step, every run
  // ---------------------------------------------------------------------------

  lemma StepKeepsInv(s: State, a: Action)
    requires Inv(s)
    ensures Inv(Step(s, a))
  {
    match a {
      case Work(w, step) => WorkerKeepsInv(s, w, step);
      case Handle(h) => HandlerKeepsInv(s, h);
      case Configure(c) => ConfigKeepsInv(s, c);
    }
  }

  lemma {:induction false} RunKeepsInv(s: State, actions: seq<Action>)
    requires Inv(s)
    ensures Inv(Run(s, actions))
    decreases |actions|
  {
    if actions != [] {
      StepKeepsInv(s, actions[0]);
      RunKeepsInv(Step(s, actions[0]), actions[1..]);
    }
  }

  /** The states some run from an empty queue reaches. */
  lemma ReachableOk(now: Time, actions: seq<Action>)
    ensures Inv(Run(Init(now), actions))
  {
    RunKeepsInv(Init(now), actions);
  }
}
