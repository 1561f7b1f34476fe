/**
 Messages and their rules: a disabled API has nothing left to deliver, a disabled rule can. A message
 carries the API its rule had when it was queued, and a requeue does not look at what the rule says now.
 Here is exactly which transactions may let a message drift from its rule, and what follows if none does.
 */
module NotificationRules {
  import opened Wrappers
  import opened NotificationHistory
  import opened NotificationQueue
  import opened NotificationMoves
  import opened NotificationSafety

  // ---------------------------------------------------------------------------
  // Pending messages of disabled rules
  // ---------------------------------------------------------------------------

  /** The rule of every pending message exists and is enabled. */
  ghost predicate RulesServed(s: State) {
    forall n :: n in s.rows && Pending(s.rows[n]) ==> RuleAllows(s, s.rows[n])
  }

  /** A pending message whose rule uses API `a` while the message itself does not. */
  ghost predicate HasStray(s: State, a: ApiId) {
    exists n :: n in s.rows && IsStray(s, a, s.rows[n])
  }

  predicate IsStray(s: State, a: ApiId, r: Row) {
    && Pending(r) && r.apiId != Some(a)
    && r.ruleId.Some? && r.ruleId.value in s.rules && s.rules[r.ruleId.value].apiId == Some(a)
  }

  /** The update goes through and leaves API `a` disabled. */
  ghost predicate Disables(s: State, a: ApiId, api: Api) {
    && a in s.apis && ApiAcceptable(api) && !ChannelMismatch(s, a, api.channel)
    && !api.enabled && !AnyLocked(s, OfApi(s, a))
  }

  /** Disabling an API keeps every pending message under an enabled rule unless there is a stray. */
  lemma DisablingServes(s: State, a: ApiId, api: Api)
    requires RulesServed(s) && Disables(s, a, api)
    ensures RulesServed(UpdateApi(s, a, api)) <==> !HasStray(s, a)
  {
    var s' := UpdateApi(s, a, api);
    if HasStray(s, a) {
      var n :| n in s.rows && IsStray(s, a, s.rows[n]);
      assert s'.rows[n] == s.rows[n];
      assert !s'.rules[s.rows[n].ruleId.value].enabled;
    } else {
      forall n | n in s'.rows && Pending(s'.rows[n]) ensures RuleAllows(s', s'.rows[n]) {
        assert s'.rows[n] == s.rows[n] && !IsStray(s, a, s.rows[n]);
      }
    }
  }

  /** The row belongs to the rule it belonged to, and was pending already or is not now. */
  ghost predicate SameRule(r: Row, r': Row) {
    Pending(r') ==> Pending(r) && r'.ruleId == r.ruleId
  }

  /** Rules that were enabled still are, and no message is newly pending. */
  lemma SameRulesServe(s: State, s': State)
    requires RulesServed(s)
    requires forall r :: r in s.rules && s.rules[r].enabled ==> r in s'.rules && s'.rules[r].enabled
    requires forall n :: n in s'.rows ==> n in s.rows && SameRule(s.rows[n], s'.rows[n])
    ensures RulesServed(s')
  {
    forall n | n in s'.rows && Pending(s'.rows[n]) ensures RuleAllows(s', s'.rows[n]) {
      assert SameRule(s.rows[n], s'.rows[n]);
    }
  }

  lemma WorkerServes(s: State, w: WorkerId, step: WorkerStep)
    requires RulesServed(s)
    ensures RulesServed(StepWorker(s, w, step))
  {
    WorkerKeepsLinks(s, w, step);
    SameRulesServe(s, StepWorker(s, w, step));
  }

  lemma CancelServes(s: State, ids: set<Id>)
    requires RulesServed(s)
    ensures RulesServed(CancelAll(s, ids))
  {
    SameRulesServe(s, CancelAll(s, ids));
  }

  lemma RefreshServes(s: State, ids: set<Id>, vs: Visits)
    requires RulesServed(s)
    ensures RulesServed(Refresh(s, ids, vs))
  {
    SameRulesServe(s, Refresh(s, ids, vs));
  }

  lemma HandlerServes(s: State, h: Handler)
    requires RulesServed(s)
    ensures RulesServed(StepHandler(s, h))
  {
    match h {
      case VisitCancelling(v) => CancelServes(s, OfVisit(s, v));
      case ParticipantCancelling(p) => CancelServes(s, OfParticipant(s, p));
      case VisitReconfirming(v) => CancelServes(s, Confirmations(s, OfVisit(s, v)));
      case ParticipantReconfirming(p) => CancelServes(s, Confirmations(s, OfParticipant(s, p)));
      case RefreshingVisit(v, vs) => RefreshServes(s, OfVisit(s, v), vs);
      case RefreshingParticipant(v, p, vs) => RefreshServes(s, OfVisit(s, v) * OfParticipant(s, p), vs);
      case _ =>
    }
  }

  /** A message the update leaves pending was so before, under a rule that is still enabled. */
  lemma UpdatedIsServed(s: State, r: RuleId, rule: Rule, vs: Visits, n: Id)
    requires UpdatesRule(s, r, rule) && n in s.rows && (Pending(s.rows[n]) ==> RuleAllows(s, s.rows[n]))
    ensures n in UpdatedMessages(s, r, rule, vs)
    ensures
      var after := UpdatedMessages(s, r, rule, vs)[n];
      Pending(after) ==> RuleAllows(WithRule(s, r, rule), after)
  {
    UpdatedMessage(s, r, rule, vs, n);
  }

  lemma UpdateRuleServes(s: State, r: RuleId, rule: Rule, vs: Visits)
    requires RulesServed(s)
    ensures RulesServed(UpdateRule(s, r, rule, vs))
  {
    if UpdatesRule(s, r, rule) {
      forall n | n in s.rows {
        UpdatedIsServed(s, r, rule, vs, n);
      }
    }
  }

  lemma DeleteRuleServes(s: State, r: RuleId)
    requires RulesServed(s)
    ensures RulesServed(DeleteRule(s, r))
  {
    var s' := DeleteRule(s, r);
    forall n | n in s'.rows && Pending(s'.rows[n]) ensures RuleAllows(s', s'.rows[n]) {
      assert SameRule(s.rows[n], s'.rows[n]);
    }
  }

  /** What makes a rule lose a pending message it should have kept or cancelled. */
  ghost predicate Unserves(s: State, a: Action) {
    a.Configure? && a.c.UpdatingApi? && Disables(s, a.c.a, a.c.api) && HasStray(s, a.c.a)
  }

  /** Disabling an API with a stray is the only transaction that leaves a pending message unserved. */
  lemma ServedExactlyWhen(s: State, a: Action)
    requires RulesServed(s)
    ensures RulesServed(Step(s, a)) <==> !Unserves(s, a)
  {
    match a {
      case Work(w, step) => WorkerServes(s, w, step);
      case Handle(h) => HandlerServes(s, h);
      case Configure(c) => EditServes(s, c);
    }
  }

  lemma EditServes(s: State, c: ConfigEdit)
    requires RulesServed(s)
    ensures RulesServed(StepConfig(s, c)) <==> !Unserves(s, Configure(c))
  {
    match c {
      case UpdatingApi(a, api) =>
        if Disables(s, a, api) { DisablingServes(s, a, api); } else { SameRulesServe(s, StepConfig(s, c)); }
      case UpdatingRule(r, rule, vs) => UpdateRuleServes(s, r, rule, vs);
      case DeletingRule(r) => DeleteRuleServes(s, r);
      case _ => SameRulesServe(s, StepConfig(s, c));
    }
  }

  // ---------------------------------------------------------------------------
  // Where strays come from
  // ---------------------------------------------------------------------------

  /** The message is not pending, or it carries the API its rule has now. */
  predicate Aligned(s: State, r: Row) {
    Pending(r) && r.ruleId.Some? ==> r.ruleId.value in s.rules && s.rules[r.ruleId.value].apiId == r.apiId
  }

  ghost predicate AllAligned(s: State) {
    forall n :: n in s.rows ==> Aligned(s, s.rows[n])
  }

  /** A requeue takes up a message whose rule has moved to another API since it was queued. */
  ghost predicate RevivesMoved(s: State, a: Action) {
    a.Handle? && a.h.Requeueing? && exists n :: n in a.h.ids && n in s.rows && Moved(s, s.rows[n])
  }

  predicate Moved(s: State, r: Row) {
    && Requeueable(s, r)
    && r.ruleId.Some? && r.ruleId.value in s.rules && s.rules[r.ruleId.value].apiId != r.apiId
  }

  lemma RequeueAligns(s: State, ids: set<Id>)
    requires AllAligned(s)
    ensures AllAligned(Requeue(s, ids)) <==> !RevivesMoved(s, Handle(Requeueing(ids)))
  {
    var s' := Requeue(s, ids);
    if RevivesMoved(s, Handle(Requeueing(ids))) {
      var n :| n in ids && n in s.rows && Moved(s, s.rows[n]);
      assert !Aligned(s', s'.rows[n]);
    } else {
      forall n | n in s'.rows ensures Aligned(s', s'.rows[n]) {
        assert Aligned(s, s.rows[n]);
        assert n in ids ==> !Moved(s, s.rows[n]);
      }
    }
  }

  /** Rules keep their API, and no message is newly pending or carries another one. */
  lemma SameRulesAlign(s: State, s': State)
    requires AllAligned(s)
    requires forall r :: r in s.rules ==> r in s'.rules && s'.rules[r].apiId == s.rules[r].apiId
    requires forall n :: n in s'.rows ==>
      n in s.rows && SameRule(s.rows[n], s'.rows[n]) && (Pending(s'.rows[n]) ==> s'.rows[n].apiId == s.rows[n].apiId)
    ensures AllAligned(s')
  {
    forall n | n in s'.rows ensures Aligned(s', s'.rows[n]) {
      assert Aligned(s, s.rows[n]) && SameRule(s.rows[n], s'.rows[n]);
    }
  }

  lemma WorkerAligns(s: State, w: WorkerId, step: WorkerStep)
    requires AllAligned(s)
    ensures AllAligned(StepWorker(s, w, step))
  {
    WorkerKeepsLinks(s, w, step);
    SameRulesAlign(s, StepWorker(s, w, step));
  }

  lemma CancelAligns(s: State, ids: set<Id>)
    requires AllAligned(s)
    ensures AllAligned(CancelAll(s, ids))
  {
    SameRulesAlign(s, CancelAll(s, ids));
  }

  lemma RefreshAligns(s: State, ids: set<Id>, vs: Visits)
    requires AllAligned(s)
    ensures AllAligned(Refresh(s, ids, vs))
  {
    var s' := Refresh(s, ids, vs);
    forall n | n in s'.rows ensures Aligned(s', s'.rows[n]) {
      assert Aligned(s, s.rows[n]);
    }
  }

  lemma HandlerAligns(s: State, h: Handler)
    requires AllAligned(s) && !h.Requeueing?
    ensures AllAligned(StepHandler(s, h))
  {
    match h {
      case VisitCancelling(v) => CancelAligns(s, OfVisit(s, v));
      case ParticipantCancelling(p) => CancelAligns(s, OfParticipant(s, p));
      case VisitReconfirming(v) => CancelAligns(s, Confirmations(s, OfVisit(s, v)));
      case ParticipantReconfirming(p) => CancelAligns(s, Confirmations(s, OfParticipant(s, p)));
      case RefreshingVisit(v, vs) => RefreshAligns(s, OfVisit(s, v), vs);
      case RefreshingParticipant(v, p, vs) => RefreshAligns(s, OfVisit(s, v) * OfParticipant(s, p), vs);
      case InsertingForRule(_, _, _, _, _, _) => InsertAligns(s, StepHandler(s, h));
      case InsertingPlain(_, _, _, _, _) => InsertAligns(s, StepHandler(s, h));
      case _ => QuietHandlerAligns(s, h);
    }
  }

  lemma QuietHandlerAligns(s: State, h: Handler)
    requires AllAligned(s) && (h.TimePassing? || h.Expiring? || h.AdminCancelling?)
    ensures AllAligned(StepHandler(s, h))
  {
    SameRulesAlign(s, StepHandler(s, h));
  }

  lemma InsertAligns(s: State, s': State)
    requires AllAligned(s) && s'.rules == s.rules
    requires forall n :: n in s'.rows ==> (n in s.rows && s'.rows[n] == s.rows[n]) || Aligned(s, s'.rows[n])
    ensures AllAligned(s')
  {
    forall n | n in s'.rows ensures Aligned(s', s'.rows[n]) {
      assert n in s.rows && s'.rows[n] == s.rows[n] ==> Aligned(s, s.rows[n]);
    }
  }

  /** A changed visit_start rule rebuilds its messages, any other change cancels them. */
  lemma UpdateRuleAligns(s: State, r: RuleId, rule: Rule, vs: Visits)
    requires RowsOk(s.rows, s.nextToken) && AllAligned(s)
    ensures AllAligned(UpdateRule(s, r, rule, vs))
  {
    if UpdatesRule(s, r, rule) {
      var s' := UpdateRule(s, r, rule, vs);
      forall n | n in s'.rows ensures Aligned(s', s'.rows[n]) {
        assert Aligned(s, s.rows[n]) && RowOk(s.rows[n], s.nextToken);
        UpdatedMessage(s, r, rule, vs, n);
        if s.rows[n].ruleId == Some(r) && RebuildsMessages(s, r, rule) {
          RebuiltRowAligned(s, r, rule, vs, n);
        }
      }
    }
  }

  lemma RebuiltRowAligned(s: State, r: RuleId, rule: Rule, vs: Visits, n: Id)
    requires n in s.rows && RowOk(s.rows[n], s.nextToken) && s.rows[n].ruleId == Some(r)
    ensures Aligned(WithRule(s, r, rule), RebuiltRow(s, r, rule, vs, n))
  {
  }

  lemma DeleteRuleAligns(s: State, r: RuleId)
    requires AllAligned(s)
    ensures AllAligned(DeleteRule(s, r))
  {
    var s' := DeleteRule(s, r);
    forall n | n in s'.rows ensures Aligned(s', s'.rows[n]) {
      assert Aligned(s, s.rows[n]);
    }
  }

  lemma UpdateApiAligns(s: State, a: ApiId, api: Api)
    requires AllAligned(s)
    ensures AllAligned(UpdateApi(s, a, api))
  {
    SameRulesAlign(s, UpdateApi(s, a, api));
  }

  lemma EditAligns(s: State, c: ConfigEdit)
    requires RowsOk(s.rows, s.nextToken) && AllAligned(s)
    ensures AllAligned(StepConfig(s, c))
  {
    match c {
      case UpdatingApi(a, api) => UpdateApiAligns(s, a, api);
      case UpdatingRule(r, rule, vs) => UpdateRuleAligns(s, r, rule, vs);
      case DeletingRule(r) => DeleteRuleAligns(s, r);
      case _ => SameRulesAlign(s, StepConfig(s, c));
    }
  }

  /** Requeueing a message of a moved rule is the only transaction that lets a message drift. */
  lemma AlignedExactlyWhen(s: State, a: Action)
    requires Inv(s) && AllAligned(s)
    ensures AllAligned(Step(s, a)) <==> !RevivesMoved(s, a)
  {
    match a {
      case Work(w, step) => WorkerAligns(s, w, step);
      case Handle(h) => if h.Requeueing? { RequeueAligns(s, h.ids); } else { HandlerAligns(s, h); }
      case Configure(c) => EditAligns(s, c);
    }
  }

  lemma AlignedHasNoStray(s: State, a: ApiId)
    requires AllAligned(s)
    ensures !HasStray(s, a)
  {
    forall n | n in s.rows ensures !IsStray(s, a, s.rows[n]) {
      assert Aligned(s, s.rows[n]);
    }
  }

  /** No requeue of the run takes up a message of a moved rule. */
  ghost predicate NoneMoved(s: State, actions: seq<Action>)
    decreases |actions|
  {
    actions == [] || (!RevivesMoved(s, actions[0]) && NoneMoved(Step(s, actions[0]), actions[1..]))
  }

  lemma {:induction false} NoneMovedServes(s: State, actions: seq<Action>)
    requires Inv(s) && AllAligned(s) && RulesServed(s) && NoneMoved(s, actions)
    ensures AllAligned(Run(s, actions)) && RulesServed(Run(s, actions))
    decreases |actions|
  {
    if actions != [] {
      var a := actions[0];
      StepKeepsInv(s, a);
      AlignedExactlyWhen(s, a);
      ServedExactlyWhen(s, a);
      if Unserves(s, a) {
        AlignedHasNoStray(s, a.c.a);
      }
      NoneMovedServes(Step(s, a), actions[1..]);
    }
  }

  /** Without such a requeue, every pending message of every run is under an enabled rule and its API. */
  lemma EveryMessageIsServed(now: Time, actions: seq<Action>)
    requires NoneMoved(Init(now), actions)
    ensures AllAligned(Run(Init(now), actions)) && RulesServed(Run(Init(now), actions))
  {
    NoneMovedServes(Init(now), actions);
  }

  // ---------------------------------------------------------------------------
  // A stray is reached
  // ---------------------------------------------------------------------------

  ghost predicate Reachable(s: State) {
    exists actions: seq<Action> :: Run(Init(0), actions) == s
  }

  lemma {:induction false} RunThenStep(s: State, actions: seq<Action>, a: Action)
    ensures Run(s, actions + [a]) == Step(Run(s, actions), a)
    decreases |actions|
  {
    if actions == [] {
      assert actions + [a] == [a];
      assert [a][1..] == [];
    } else {
      assert (actions + [a])[1..] == actions[1..] + [a];
      RunThenStep(Step(s, actions[0]), actions[1..], a);
    }
  }

  lemma StepReaches(s: State, a: Action)
    requires Reachable(s)
    ensures Reachable(Step(s, a))
  {
    var actions: seq<Action> :| Run(Init(0), actions) == s;
    RunThenStep(Init(0), actions, a);
  }

  const SMS_API := Api(Sms, true, true)
  const OLD_RULE := Rule(CheckedIn, Sms, Some(0), 0, 0, true)
  const MOVED_RULE := Rule(CheckedIn, Sms, Some(1), 0, 0, true)

  lemma TwoApis() returns (s: State)
    ensures Reachable(s) && s == Init(0).(apis := map[0 := SMS_API, 1 := SMS_API])
  {
    s := Init(0);
    assert Run(Init(0), []) == s;
    StepReaches(s, Configure(CreatingApi(0, SMS_API)));
    s := CreateApi(s, 0, SMS_API);
    StepReaches(s, Configure(CreatingApi(1, SMS_API)));
    s := CreateApi(s, 1, SMS_API);
  }

  /** A message is queued for a rule on API 0. */
  lemma QueuedUnderOldApi() returns (s: State)
    ensures Reachable(s) && s.workers == map[] && s.now == 0
    ensures s.apis == map[0 := SMS_API, 1 := SMS_API] && s.rules == map[0 := OLD_RULE]
    ensures s.rows == map[0 := InsertRow(Sms, Some(0), Some(0), 0, Some(0), false, 0)]
  {
    s := TwoApis();
    StepReaches(s, Configure(CreatingRule(0, OLD_RULE)));
    s := CreateRule(s, 0, OLD_RULE);
    StepReaches(s, Handle(InsertingForRule(0, 0, 0, 0, 0, 0)));
    s := InsertForRule(s, 0, 0, 0, 0, 0, 0);
  }

  /** Moving the rule to API 1 cancels the message. */
  lemma CancelledUnderOldApi() returns (s: State)
    ensures Reachable(s)
    ensures s.apis == map[0 := SMS_API, 1 := SMS_API] && s.rules == map[0 := MOVED_RULE]
    ensures s.rows.Keys == {0} && s.rows[0].status.Cancelled? && s.rows[0].lock.None?
    ensures s.rows[0].apiId == Some(0) && s.rows[0].ruleId == Some(0)
  {
    s := QueuedUnderOldApi();
    var vs := Visits(map[], {});
    StepReaches(s, Configure(UpdatingRule(0, MOVED_RULE, vs)));
    assert 0 in OfRule(s, 0);
    s := UpdateRule(s, 0, MOVED_RULE, vs);
  }

  /** Requeueing revives it on API 0. */
  lemma RequeuedUnderOldApi() returns (s: State)
    ensures Reachable(s)
    ensures s.apis == map[0 := SMS_API, 1 := SMS_API] && s.rules == map[0 := MOVED_RULE]
    ensures s.rows.Keys == {0} && s.rows[0].status.Queued? && s.rows[0].lock.None?
    ensures s.rows[0].apiId == Some(0) && s.rows[0].ruleId == Some(0)
  {
    s := CancelledUnderOldApi();
    StepReaches(s, Handle(Requeueing({0})));
    s := Requeue(s, {0});
  }

  /** Disabling API 1 then disables the rule and not the message. */
  lemma PendingMessageOfDisabledRule() returns (s: State)
    ensures Reachable(s)
    ensures 0 in s.rows && Pending(s.rows[0]) && s.rows[0].ruleId == Some(0)
    ensures 0 in s.rules && !s.rules[0].enabled
    ensures !Claimable(s, s.rows[0])
  {
    s := RequeuedUnderOldApi();
    var disabled := SMS_API.(enabled := false);
    StepReaches(s, Configure(UpdatingApi(1, disabled)));
    assert !ChannelMismatch(s, 1, Sms);
    assert 0 !in OfApi(s, 1);
    s := UpdateApi(s, 1, disabled);
  }
}
