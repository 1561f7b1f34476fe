/**
 Rules, API configurations and pending messages stay consistent: no rule points at a missing API or
 one of another channel, no enabled rule points at an API that cannot deliver safely, and a disabled
 API has nothing left to deliver.
 */
module NotificationConfig {
  import opened Wrappers
  import opened NotificationHistory
  import opened NotificationQueue
  import opened NotificationMoves
  import opened NotificationSafety

  /** An enabled API always carries the idempotency variable. */
  ghost predicate ApisOk(apis: map<ApiId, Api>) {
    forall a :: a in apis ==> ApiAcceptable(apis[a])
  }

  ghost predicate RuleOk(apis: map<ApiId, Api>, rule: Rule) {
    rule.apiId.Some? ==>
      && rule.apiId.value in apis
      && apis[rule.apiId.value].channel == rule.channel
      && (rule.enabled ==> apis[rule.apiId.value].enabled && apis[rule.apiId.value].idempotent)
  }

  ghost predicate RulesOk(s: State) {
    forall r :: r in s.rules ==> RuleOk(s.apis, s.rules[r])
  }

  /** A pending message of an API can be delivered: the API exists and is enabled. */
  ghost predicate MessageOk(apis: map<ApiId, Api>, r: Row) {
    r.apiId.Some? ==> r.apiId.value in apis && (Pending(r) ==> apis[r.apiId.value].enabled)
  }

  ghost predicate MessagesOk(s: State) {
    forall n :: n in s.rows ==> MessageOk(s.apis, s.rows[n])
  }

  ghost predicate ConfigInv(s: State) {
    ApisOk(s.apis) && RulesOk(s) && MessagesOk(s)
  }

  lemma RefreshKeepsMessages(s: State, rows: map<Id, Row>, ids: set<Id>, vs: Visits)
    requires forall n :: n in rows ==> MessageOk(s.apis, rows[n])
    ensures forall n :: n in RefreshIn(s, rows, ids, vs) ==> MessageOk(s.apis, RefreshIn(s, rows, ids, vs)[n])
  {
  }

  lemma RequeueKeepsMessages(s: State, ids: set<Id>)
    requires MessagesOk(s)
    ensures MessagesOk(Requeue(s, ids))
  {
  }

  lemma HandlerKeepsConfig(s: State, h: Handler)
    requires ConfigInv(s)
    ensures ConfigInv(StepHandler(s, h))
  {
    match h {
      case TimePassing(_) =>
      case Expiring =>
      case AdminCancelling(n) =>
      case Requeueing(ids) => RequeueKeepsMessages(s, ids);
      case VisitCancelling(v) => CancelInKeepsLinks(s.rows, OfVisit(s, v));
      case ParticipantCancelling(p) => CancelInKeepsLinks(s.rows, OfParticipant(s, p));
      case VisitReconfirming(v) => CancelInKeepsLinks(s.rows, Confirmations(s, OfVisit(s, v)));
      case ParticipantReconfirming(p) => CancelInKeepsLinks(s.rows, Confirmations(s, OfParticipant(s, p)));
      case InsertingForRule(_, r, _, _, _, _) => assert r in s.rules ==> RuleOk(s.apis, s.rules[r]);
      case InsertingPlain(_, _, _, _, _) =>
      case RefreshingVisit(v, vs) => RefreshKeepsMessages(s, s.rows, OfVisit(s, v), vs);
      case RefreshingParticipant(v, p, vs) => RefreshKeepsMessages(s, s.rows, OfVisit(s, v) * OfParticipant(s, p), vs);
    }
  }

  lemma UpdateApiKeepsConfig(s: State, a: ApiId, api: Api)
    requires ConfigInv(s)
    ensures ConfigInv(UpdateApi(s, a, api))
  {
    var s' := UpdateApi(s, a, api);
    if s' != s {
      forall r | r in s'.rules ensures RuleOk(s'.apis, s'.rules[r]) {
        assert RuleOk(s.apis, s.rules[r]);
        if s.rules[r].apiId == Some(a) {
          assert s.rules[r].channel == api.channel;
        }
      }
      forall n | n in s'.rows ensures MessageOk(s'.apis, s'.rows[n]) {
        assert MessageOk(s.apis, s.rows[n]);
        if !api.enabled {
          CancelInKeepsLinks(s.rows, OfApi(s, a));
          assert s.rows[n].apiId == Some(a) ==> n in OfApi(s, a);
        }
      }
    }
  }

  lemma DeleteApiKeepsConfig(s: State, a: ApiId)
    requires ConfigInv(s)
    ensures ConfigInv(DeleteApi(s, a))
  {
    var s' := DeleteApi(s, a);
    if s' != s {
      forall r | r in s'.rules ensures RuleOk(s'.apis, s'.rules[r]) {
        assert RuleOk(s.apis, s.rules[r]);
      }
      forall n | n in s'.rows ensures MessageOk(s'.apis, s'.rows[n]) {
        assert MessageOk(s.apis, s.rows[n]);
      }
    }
  }

  lemma RebuiltRowKeepsApi(s: State, r: RuleId, rule: Rule, vs: Visits, n: Id)
    requires n in s.rows && MessageOk(s.apis, s.rows[n])
    ensures MessageOk(s.apis, RebuiltRow(s, r, rule, vs, n))
  {
  }

  lemma UpdateRuleKeepsConfig(s: State, r: RuleId, rule: Rule, vs: Visits)
    requires ConfigInv(s)
    ensures ConfigInv(UpdateRule(s, r, rule, vs))
  {
    if UpdatesRule(s, r, rule) {
      var s' := UpdateRule(s, r, rule, vs);
      forall x | x in s'.rules ensures RuleOk(s'.apis, s'.rules[x]) {
        assert x != r ==> RuleOk(s.apis, s.rules[x]);
      }
      forall n | n in s'.rows ensures MessageOk(s'.apis, s'.rows[n]) {
        assert MessageOk(s.apis, s.rows[n]);
        UpdatedMessage(s, r, rule, vs, n);
        RebuiltRowKeepsApi(s, r, rule, vs, n);
      }
    }
  }

  lemma DeleteRuleKeepsConfig(s: State, r: RuleId)
    requires ConfigInv(s)
    ensures ConfigInv(DeleteRule(s, r))
  {
    var s' := DeleteRule(s, r);
    if s' != s {
      CancelInKeepsLinks(s.rows, OfRule(s, r));
      forall n | n in s'.rows ensures MessageOk(s'.apis, s'.rows[n]) {
        assert MessageOk(s.apis, s.rows[n]);
      }
    }
  }

  lemma EditKeepsConfig(s: State, c: ConfigEdit)
    requires ConfigInv(s)
    ensures ConfigInv(StepConfig(s, c))
  {
    match c {
      case CreatingApi(a, api) =>
      case UpdatingApi(a, api) => UpdateApiKeepsConfig(s, a, api);
      case DeletingApi(a) => DeleteApiKeepsConfig(s, a);
      case CreatingRule(r, rule) =>
      case UpdatingRule(r, rule, vs) => UpdateRuleKeepsConfig(s, r, rule, vs);
      case DeletingRule(r) => DeleteRuleKeepsConfig(s, r);
    }
  }

  lemma StepKeepsConfig(s: State, a: Action)
    requires ConfigInv(s)
    ensures ConfigInv(Step(s, a))
  {
    match a {
      case Work(w, step) =>
        WorkerKeepsLinks(s, w, step);
      case Handle(h) => HandlerKeepsConfig(s, h);
      case Configure(c) => EditKeepsConfig(s, c);
    }
  }

  lemma {:induction false} RunKeepsConfig(s: State, actions: seq<Action>)
    requires ConfigInv(s)
    ensures ConfigInv(Run(s, actions))
    decreases |actions|
  {
    if actions != [] {
      StepKeepsConfig(s, actions[0]);
      RunKeepsConfig(Step(s, actions[0]), actions[1..]);
    }
  }

  /** In every run rules, APIs and pending messages stay consistent. */
  lemma ConfigurationStaysConsistent(now: Time, actions: seq<Action>)
    ensures ConfigInv(Run(Init(now), actions))
  {
    RunKeepsConfig(Init(now), actions);
  }

  /**
   A provider call through a configured API happens only while that API exists, is enabled and sends
   an idempotency key: disabling or deleting the API would have had to wait for the row lock.
   */
  lemma CallsGoThroughEnabledApis(now: Time, actions: seq<Action>, w: WorkerId)
    requires
      var s := Run(Init(now), actions);
      && w in s.workers && s.workers[w].Calling?
      && s.workers[w].id in s.rows && s.rows[s.workers[w].id].apiId.Some?
    ensures
      var s := Run(Init(now), actions);
      var a := s.rows[s.workers[w].id].apiId.value;
      a in s.apis && s.apis[a].enabled && s.apis[a].idempotent
  {
    ReachableOk(now, actions);
    ConfigurationStaysConsistent(now, actions);
    var s := Run(Init(now), actions);
    assert WorkerOk(s.rows, s.nextToken, w, s.workers[w]);
    assert RowOk(s.rows[s.workers[w].id], s.nextToken);
    assert MessageOk(s.apis, s.rows[s.workers[w].id]);
  }
}
