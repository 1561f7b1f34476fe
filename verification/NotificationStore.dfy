/**
 The notification tables as the service changes them: one object, one method per transaction.

 Every method is tied to the transaction of `NotificationQueue` it carries out, and the loops to a run of
 those transactions, so everything proved about runs holds of what this object does; the other clauses say
 what a caller finds afterwards. A transaction that finds a row locked by a delivery waits in the database;
 here it answers `Waits` and changes nothing.
 */
module NotificationStore {
  import opened Wrappers
  import opened NotificationHistory
  import opened NotificationQueue
  import opened NotificationEffects
  import opened NotificationTick

  datatype Refusal = NotFound | Invalid | InUse | Waits

  /** The claim query: due, deliverable, unlocked, earliest time first. */
  method FirstDue(s: State) returns (candidate: Option<Id>)
    ensures candidate.None? ==> NothingDue(s)
    ensures candidate.Some? ==> IsFirstDue(s, candidate.value)
  {
    candidate := None;
    var rest := s.rows.Keys;
    while rest != {}
      invariant rest <= s.rows.Keys
      invariant candidate.None? ==> forall n :: n in s.rows.Keys - rest ==> !Claimable(s, s.rows[n])
      invariant candidate.Some? ==> candidate.value in s.rows && Claimable(s, s.rows[candidate.value])
      invariant candidate.Some? ==> forall n :: n in s.rows.Keys - rest && Claimable(s, s.rows[n]) ==>
                  s.rows[candidate.value].nextAttemptAt <= s.rows[n].nextAttemptAt
      decreases |rest|
    {
      var n :| n in rest;
      if Claimable(s, s.rows[n]) {
        if candidate.None? || s.rows[n].nextAttemptAt < s.rows[candidate.value].nextAttemptAt {
          candidate := Some(n);
        }
      }
      rest := rest - {n};
    }
  }

  class Store {
    var rows: map<Id, Row>
    var workers: map<WorkerId, Phase>
    var apis: map<ApiId, Api>
    var rules: map<RuleId, Rule>
    var now: Time
    var nextToken: Token

    function Snapshot(): State
      reads this
    {
      State(rows, workers, apis, rules, now, nextToken)
    }

    constructor (now: Time)
      ensures Snapshot() == Init(now)
    {
      this.rows, this.workers, this.apis, this.rules := map[], map[], map[], map[];
      this.now, this.nextToken := now, 0;
    }

    // -------------------------------------------------------------------------
    // Delivery
    // -------------------------------------------------------------------------

    /** Takes the due row with the earliest time under a fresh token. */
    method ClaimNotification(w: WorkerId) returns (claimed: Option<Id>)
      requires w !in workers
      modifies this
      ensures claimed.None? ==> Snapshot() == old(Snapshot()) && NothingDue(Snapshot())
      ensures claimed.Some? ==> IsFirstDue(old(Snapshot()), claimed.value)
      ensures claimed.Some? ==> Snapshot() == Step(old(Snapshot()), Work(w, Claiming(claimed.value)))
      ensures claimed.Some? ==> IsClaimed(old(Snapshot()), Snapshot(), w, claimed.value)
    {
      var s := Snapshot();
      claimed := FirstDue(s);
      if claimed.Some? {
        ClaimEffect(s, w, claimed.value);
        var n := claimed.value;
        rows := rows[n := ClaimRow(rows[n], nextToken, now)];
        workers := workers[w := Holding(n, nextToken)];
        nextToken := nextToken + 1;
      }
    }

    /** Locks the claimed row for the provider call, if the claim is still the worker's. */
    method LockClaim(w: WorkerId) returns (owned: bool)
      requires w in workers && workers[w].Holding?
      requires workers[w].id in rows && rows[workers[w].id].lock.None?
      modifies this
      ensures Snapshot() == Step(old(Snapshot()), Work(w, TakingLock))
      ensures owned <==> IsHolder(old(Snapshot()), w)
      ensures owned <==> w in workers && workers[w] == Locking(old(workers[w].id), old(workers[w].token))
      ensures !owned ==> w !in workers && rows == old(rows)
    {
      var p := workers[w];
      owned := rows[p.id].status.Sending? && rows[p.id].claimToken == Some(p.token);
      if owned {
        rows := rows[p.id := rows[p.id].(lock := Some(w))];
        workers := workers[w := Locking(p.id, p.token)];
      } else {
        workers := workers - {w};
      }
    }

    /** The call leaves the building: from here on it counts, whatever becomes of the worker. */
    method StartProviderCall(w: WorkerId)
      requires w in workers && workers[w].Locking? && workers[w].id in rows
      modifies this
      ensures Snapshot() == Step(old(Snapshot()), Work(w, StartingCall))
      ensures w in workers && workers[w] == Calling(old(workers[w].id), old(workers[w].token))
    {
      var p := workers[w];
      rows := rows[p.id := rows[p.id].(history := rows[p.id].history + [Called(p.token)])];
      workers := workers[w := Calling(p.id, p.token)];
    }

    /** Records what the provider said, where the claim is still current, and frees the row. */
    method RecordResult(w: WorkerId, sent: bool) returns (recorded: bool)
      requires w in workers && workers[w].Calling? && workers[w].id in rows
      modifies this
      ensures Snapshot() == Step(old(Snapshot()), Work(w, Committing(sent)))
      ensures w !in workers
      ensures recorded <==> IsHolder(old(Snapshot()), w)
      ensures RecordedBy(old(Snapshot()), Snapshot(), w, sent)
    {
      CommitEffect(Snapshot(), w, sent);
      var p := workers[w];
      recorded := rows[p.id].status.Sending? && rows[p.id].claimToken == Some(p.token);
      if recorded {
        rows := rows[p.id := CommitRow(rows[p.id], p.token, sent, now)];
      } else {
        rows := rows[p.id := rows[p.id].(lock := None)];
      }
      workers := workers - {w};
    }

    /** The worker dies or its transaction is rolled back. */
    method Rollback(w: WorkerId)
      requires w in workers
      modifies this
      ensures Snapshot() == Step(old(Snapshot()), Work(w, Crashing))
      ensures w !in workers
    {
      var p := workers[w];
      if !p.Holding? && p.id in rows {
        rows := rows[p.id := rows[p.id].(lock := None)];
      }
      workers := workers - {w};
    }

    /** Lock, call, record: the row is locked for the whole call, and a claim that was lost is skipped. */
    method LockAndDeliver(w: WorkerId, delivery: Delivery) returns (called: bool)
      requires w in workers && workers[w].Holding?
      requires workers[w].id in rows && rows[workers[w].id].lock.None?
      modifies this
      ensures Snapshot() == Finish(StartCall(TakeLock(old(Snapshot()), w), w), w, delivery)
      ensures w !in workers
      ensures called <==> IsHolder(old(Snapshot()), w)
    {
      called := LockClaim(w);
      if called {
        StartProviderCall(w);
        match delivery {
          case Accepted => var recorded := RecordResult(w, true);
          case Refused => var recorded := RecordResult(w, false);
          case Lost => Rollback(w);
        }
      }
    }

    /** A row that stays locked for too long is left to whoever claims it next. */
    method DispatchClaimedNotification(w: WorkerId, delivery: Delivery) returns (called: bool)
      requires w in workers && workers[w].Holding? && workers[w].id in rows
      modifies this
      ensures w !in workers
      ensures called <==> IsHolder(old(Snapshot()), w) && old(rows[workers[w].id].lock).None?
      ensures old(rows[workers[w].id].lock).Some? ==> rows == old(rows)
      ensures old(rows[workers[w].id].lock).None? ==> DeliveredBy(old(Snapshot()), Snapshot(), w, delivery)
      ensures Snapshot() == Run(old(Snapshot()), if old(rows[workers[w].id].lock).Some? then [Work(w, Crashing)]
                                                 else DeliverySteps(w, delivery))
    {
      if rows[workers[w].id].lock.Some? {
        RunOne(Snapshot(), Work(w, Crashing));
        Rollback(w);
        return false;
      }
      RunDelivery(Snapshot(), w, delivery);
      DeliveryOutcome(Snapshot(), w, delivery);
      called := LockAndDeliver(w, delivery);
    }

    /** A claimed row that ends without a provider call: failed, cancelled, or only logged. */
    method SettleClaim(w: WorkerId, verdict: Verdict) returns (settled: bool)
      requires w in workers && workers[w].Holding?
      requires workers[w].id in rows && rows[workers[w].id].lock.None?
      modifies this
      ensures Snapshot() == Step(old(Snapshot()), Work(w, Settling(verdict)))
      ensures w !in workers
      ensures settled <==> IsHolder(old(Snapshot()), w)
      ensures SettledBy(old(Snapshot()), Snapshot(), w, verdict)
    {
      SettleEffect(Snapshot(), w, verdict);
      var p := workers[w];
      settled := rows[p.id].status.Sending? && rows[p.id].claimToken == Some(p.token);
      if settled {
        rows := rows[p.id := SettleRow(rows[p.id], verdict, now)];
      }
      workers := workers - {w};
    }

    /** Claims that used up the last attempt and were abandoned fail; one that is locked has them all wait. */
    method ExpireClaims()
      modifies this
      ensures Snapshot() == Step(old(Snapshot()), Handle(Expiring)) && workers == old(workers)
      ensures if AbandonedIsLocked(old(Snapshot())) then Snapshot() == old(Snapshot())
              else AbandonedFailed(old(Snapshot()), Snapshot())
    {
      var s := Snapshot();
      ExpireEffect(s);
      var ids := set n | n in rows && Exhausted(s, rows[n]);
      if AnyLocked(s, ids) {
        return;
      }
      rows := map n | n in rows :: if n in ids then Unclaim(rows[n], Failed) else rows[n];
    }

    /**
     One tick of the delivery worker: at most twenty claims, each right before what it comes to. No message
     is taken twice, and unless one of them is locked no abandoned claim is left.
     */
    method ProcessNotifications(w: WorkerId, outcomes: seq<Outcome>) returns (claimed: seq<Id>)
      requires w !in workers && |outcomes| == 20
      modifies this
      ensures w !in workers && |claimed| <= 20
      ensures Snapshot() == Run(old(Snapshot()), TickSteps(w, claimed, outcomes))
      ensures ClaimsInOrder(old(Snapshot()), w, claimed, outcomes)
      ensures |claimed| < 20 ==> NothingDue(Snapshot())
      ensures Distinct(claimed) && AllRest(Snapshot(), claimed)
      ensures AbandonedIsLocked(old(Snapshot())) || NoneAbandoned(Snapshot())
    {
      ghost var start := Snapshot();
      RunOne(start, Handle(Expiring));
      ExpireClaims();
      claimed := [];
      while |claimed| < 20
        invariant |claimed| <= 20 && w !in workers
        invariant Snapshot() == Run(start, TickSteps(w, claimed, outcomes))
        invariant ClaimsInOrder(start, w, claimed, outcomes)
        invariant Distinct(claimed) && AllRest(Snapshot(), claimed)
        invariant AbandonedIsLocked(start) || NoneAbandoned(Snapshot())
        decreases 20 - |claimed|
      {
        ghost var before := Snapshot();
        var found := ClaimNotification(w);
        if found.None? {
          return;
        }
        ClaimIsOwned(before, w, found.value);
        OneMoreRests(before, w, found.value, outcomes[|claimed|], claimed);
        TickGrows(start, w, claimed, outcomes, found.value);
        ClaimsGrow(start, w, claimed, outcomes, found.value);
        ProcessClaimedNotification(w, outcomes[|claimed|]);
        claimed := claimed + [found.value];
      }
    }

    /** Delivers a claimed row, or settles it without a call. */
    method ProcessClaimedNotification(w: WorkerId, outcome: Outcome)
      requires w in workers && workers[w].Holding?
      requires workers[w].id in rows && rows[workers[w].id].lock.None?
      modifies this
      ensures w !in workers
      ensures Snapshot() == Run(old(Snapshot()), OutcomeSteps(w, outcome))
    {
      match outcome {
        case Delivered(delivery) =>
          var called := DispatchClaimedNotification(w, delivery);
        case Settled(verdict) =>
          RunOne(Snapshot(), Work(w, Settling(verdict)));
          var settled := SettleClaim(w, verdict);
      }
    }

    // -------------------------------------------------------------------------
    // Administration
    // -------------------------------------------------------------------------

    method CancelNotification(n: Id) returns (cancelled: bool)
      modifies this
      ensures Snapshot() == Step(old(Snapshot()), Handle(AdminCancelling(n)))
      ensures cancelled <==> n in old(rows) && old(rows)[n].status in {Queued, Failed}
      ensures CancelledByAdmin(old(Snapshot()), Snapshot(), n)
    {
      AdminCancelEffect(Snapshot(), n);
      cancelled := n in rows && (rows[n].status.Queued? || rows[n].status.Failed?);
      if cancelled {
        rows := rows[n := CancelRow(rows[n])];
      }
    }

    method RetryNotification(n: Id) returns (queued: bool)
      modifies this
      ensures Snapshot() == Step(old(Snapshot()), Handle(Requeueing({n})))
      ensures queued <==>
                n in old(rows) && old(rows)[n].status in {Failed, Cancelled} && IsAllowed(old(Snapshot()), old(rows)[n])
      ensures RequeuedRows(old(Snapshot()), Snapshot(), {n})
    {
      RequeueEffect(Snapshot(), {n});
      queued := n in rows && Requeueable(Snapshot(), rows[n]);
      if queued {
        rows := rows[n := ResetRow(rows[n], now)];
      }
    }

    /** Collects the oldest failed messages, five hundred at most, and requeues what may be requeued. */
    method RetryFailedNotifications(created: seq<Id>) returns (selected: nat, queued: nat)
      requires IsOrderOf(created, rows)
      modifies this
      ensures Snapshot() == Step(old(Snapshot()), Handle(Requeueing(Oldest(old(rows), created, |created|))))
      ensures selected == |Oldest(old(rows), created, |created|)| <= 500
      ensures queued == |Requeued(old(Snapshot()), Oldest(old(rows), created, |created|))| <= selected
      ensures RequeuedRows(old(Snapshot()), Snapshot(), Oldest(old(rows), created, |created|))
    {
      var ids := OldestFailed(rows, created);
      var eligible := Requeued(Snapshot(), ids);
      CardinalityOfSubset(eligible, ids);
      RequeueSome(Snapshot(), ids);
      RequeueEffect(Snapshot(), ids);
      rows := map n | n in rows :: if n in eligible then ResetRow(rows[n], now) else rows[n];
      return |ids|, |eligible|;
    }

    /** Everything a cancelled visit still has in the queue. */
    method CancelPendingVisitNotifications(v: VisitId) returns (result: Result<(), Refusal>)
      modifies this
      ensures Snapshot() == Step(old(Snapshot()), Handle(VisitCancelling(v)))
      ensures result.Ok? ==> CancelledRows(old(Snapshot()), Snapshot(), (r: Row) => r.visitId == Some(v))
      ensures result.Err? ==> Snapshot() == old(Snapshot())
      ensures result.Ok? <==> NoneLocked(old(Snapshot()), (r: Row) => r.visitId == Some(v))
    {
      var s := Snapshot();
      CancelAllEffect(s, OfVisit(s, v), (r: Row) => r.visitId == Some(v));
      if AnyLocked(s, OfVisit(s, v)) {
        return Err(Waits);
      }
      rows := CancelIn(rows, OfVisit(s, v));
      return Ok(());
    }

    // -------------------------------------------------------------------------
    // Visit events
    // -------------------------------------------------------------------------

    /** Host mail first, then the messages of the rules. */
    method QueueNotificationEvent(e: VisitEvent, order: seq<RuleId>, ids: seq<Id>, mail: seq<Id>)
      returns (queued: nat, ghost steps: seq<Action>)
      requires |ids| == |order| && (forall r :: r in order <==> r in rules)
      requires FreshIds(rows, mail + ids)
      modifies this`rows
      ensures Snapshot() == Run(old(Snapshot()), steps) && |steps| == |mail| + queued
      ensures forall n :: n in old(rows) ==> n in rows && rows[n] == old(rows)[n]
      ensures forall n :: n in mail ==> n in rows && IsMail(rows[n], e.v, e.p, now)
      ensures forall i :: 0 <= i < |order| ==> FiredOrNot(e, order[i], rules[order[i]], ids[i], rows, now)
      ensures forall n :: n in rows ==> n in old(rows) || n in mail || n in ids
    {
      IdsSplit(rows, mail, ids);
      var s := Snapshot();
      ghost var mailing, firing;
      s, mailing := QueueHostMail(s, mail, e.v, e.p);
      s, queued, firing := FireRules(s, e, order, ids);
      steps := mailing + firing;
      RunAppend(Snapshot(), mailing, firing);
      rows := s.rows;
    }

    /** Applies the current rules to the visit_start messages that have not gone out. */
    method RefreshVisitStartNotifications(v: VisitId, vs: Visits)
      modifies this
      ensures Snapshot() == Step(old(Snapshot()), Handle(RefreshingVisit(v, vs)))
      ensures RefreshedRows(old(Snapshot()), Snapshot(), (r: Row) => r.visitId == Some(v), vs)
    {
      RefreshAllEffect(Snapshot(), OfVisit(Snapshot(), v), (r: Row) => r.visitId == Some(v), vs);
      rows := RefreshItems(Snapshot(), v, vs);
    }

    // -------------------------------------------------------------------------
    // API configurations and rules
    // -------------------------------------------------------------------------

    /**
     Disabling an API disables its rules and cancels its messages in the same transaction: afterwards no
     enabled rule and no pending message is left of it, and nothing else has changed.
     */
    method UpdateNotificationApi(a: ApiId, api: Api) returns (result: Result<(), Refusal>)
      modifies this
      ensures Snapshot() == Step(old(Snapshot()), Configure(UpdatingApi(a, api)))
      ensures result.Err? ==> Snapshot() == old(Snapshot())
      ensures result.Err? <==>
                || a !in old(apis) || !ApiAcceptable(api) || ChannelMismatch(old(Snapshot()), a, api.channel)
                || (!api.enabled && !NoneLocked(old(Snapshot()), (r: Row) => r.apiId == Some(a)))
      ensures result.Ok? ==> ApiUpdated(old(Snapshot()), Snapshot(), a, api)
    {
      var s := Snapshot();
      if a !in apis {
        return Err(NotFound);
      }
      if !ApiAcceptable(api) {
        return Err(Invalid);
      }
      if ChannelMismatch(s, a, api.channel) {
        return Err(InUse);
      }
      assert AnyLocked(s, OfApi(s, a)) <==> !NoneLocked(s, (r: Row) => r.apiId == Some(a));
      if !api.enabled && AnyLocked(s, OfApi(s, a)) {
        return Err(Waits);
      }
      UpdateApiEffect(s, a, api);
      if !api.enabled {
        rules := DisableRulesOf(rules, a);
        rows := CancelIn(rows, OfApi(s, a));
      }
      apis := apis[a := api];
      return Ok(());
    }

    /** Afterwards nothing refers to the API: it is refused while a rule or a pending message does. */
    method DeleteNotificationApi(a: ApiId) returns (result: Result<(), Refusal>)
      modifies this
      ensures Snapshot() == Step(old(Snapshot()), Configure(DeletingApi(a)))
      ensures result.Err? ==> Snapshot() == old(Snapshot())
      ensures result.Err? <==> a !in old(apis) || ApiReferenced(old(Snapshot()), a)
      ensures result.Ok? ==> ApiDeleted(old(Snapshot()), Snapshot(), a)
    {
      var s := Snapshot();
      if a !in apis {
        return Err(NotFound);
      }
      if ApiReferenced(s, a) {
        return Err(InUse);
      }
      DeleteApiEffect(s, a);
      rows := map n | n in rows :: if rows[n].apiId == Some(a) then rows[n].(apiId := None) else rows[n];
      apis := apis - {a};
      return Ok(());
    }

    method CreateNotificationRule(r: RuleId, rule: Rule) returns (result: Result<(), Refusal>)
      requires r !in rules
      modifies this
      ensures Snapshot() == Step(old(Snapshot()), Configure(CreatingRule(r, rule)))
      ensures result == if RuleAcceptable(old(Snapshot()), rule) then Ok(()) else Err(Invalid)
      ensures Snapshot() == if result.Ok? then old(Snapshot()).(rules := old(rules)[r := rule]) else old(Snapshot())
    {
      if !RuleAcceptable(Snapshot(), rule) {
        return Err(Invalid);
      }
      rules := rules[r := rule];
      return Ok(());
    }

    /**
     Saves the rule. A disabled rule loses its messages; a changed visit_start rule has its messages taken
     back and rebuilt; any other change cancels what is queued. So whatever the rule was before, every
     pending message it has left is as the rule says now.
     */
    method UpdateNotificationRule(r: RuleId, rule: Rule, vs: Visits) returns (result: Result<(), Refusal>)
      modifies this
      ensures Snapshot() == Step(old(Snapshot()), Configure(UpdatingRule(r, rule, vs)))
      ensures result.Err? ==> Snapshot() == old(Snapshot())
      ensures result.Err? <==>
                || r !in old(rules) || !RuleAcceptable(old(Snapshot()), rule)
                || (!(rule.enabled && old(rules)[r] == rule)
                    && !NoneLocked(old(Snapshot()), (row: Row) => row.ruleId == Some(r)))
      ensures result.Ok? ==> RuleUpdated(old(Snapshot()), Snapshot(), r, rule, vs)
    {
      var s := Snapshot();
      if !RuleAcceptable(s, rule) {
        return Err(Invalid);
      }
      if r !in rules {
        return Err(NotFound);
      }
      var queuePolicyChanged := rules[r] != rule;
      var ids := OfRule(s, r);
      assert AnyLocked(s, ids) <==> !NoneLocked(s, (row: Row) => row.ruleId == Some(r));
      if (!rule.enabled || queuePolicyChanged) && AnyLocked(s, ids) {
        return Err(Waits);
      }
      UpdateRuleEffect(s, r, rule, vs);
      rules := rules[r := rule];
      if !rule.enabled {
        rows := CancelIn(rows, ids);
      } else if queuePolicyChanged && s.rules[r].trigger.VisitStart? && rule.trigger.VisitStart? {
        var saved := Snapshot();
        rows := RewindIn(rows, ids, now);
        rows := RefreshIn(saved, rows, ids, vs);
      } else if queuePolicyChanged {
        rows := CancelIn(rows, ids);
      }
      return Ok(());
    }

    /** Afterwards no message refers to the rule, and what was pending of it is cancelled. */
    method DeleteNotificationRule(r: RuleId) returns (result: Result<(), Refusal>)
      modifies this
      ensures Snapshot() == Step(old(Snapshot()), Configure(DeletingRule(r)))
      ensures result.Err? ==> Snapshot() == old(Snapshot())
      ensures result.Err? <==> r !in old(rules) || !NoneLocked(old(Snapshot()), (row: Row) => row.ruleId == Some(r))
      ensures result.Ok? ==> RuleDeleted(old(Snapshot()), Snapshot(), r)
    {
      var s := Snapshot();
      if r !in rules {
        return Err(NotFound);
      }
      assert AnyLocked(s, OfRule(s, r)) <==> !NoneLocked(s, (row: Row) => row.ruleId == Some(r));
      if AnyLocked(s, OfRule(s, r)) {
        return Err(Waits);
      }
      DeleteRuleEffect(s, r);
      rows := CancelIn(rows, OfRule(s, r));
      rows := map n | n in rows :: if rows[n].ruleId == Some(r) then rows[n].(ruleId := None) else rows[n];
      rules := rules - {r};
      return Ok(());
    }
  }

  // ---------------------------------------------------------------------------
  // Retrying and queueing
  // ---------------------------------------------------------------------------

  const MAX_RETRIES: nat := 500

  /** The rows in the order of their creation. */
  ghost predicate IsOrderOf(created: seq<Id>, rows: map<Id, Row>) {
    && (forall n :: n in created <==> n in rows)
    && (forall i, j :: 0 <= i < j < |created| ==> created[i] != created[j])
  }

  /** The first failed rows among the `k` oldest, as many as one request takes. */
  function Oldest(rows: map<Id, Row>, created: seq<Id>, k: nat): (ids: set<Id>)
    requires k <= |created| && (forall n :: n in created ==> n in rows)
    ensures |ids| <= MAX_RETRIES
    ensures forall n :: n in ids ==> n in rows && rows[n].status.Failed?
  {
    if k == 0 then {}
    else
      var ids := Oldest(rows, created, k - 1);
      if |ids| < MAX_RETRIES && rows[created[k - 1]].status.Failed? then ids + {created[k - 1]} else ids
  }

  /** Nothing failed is left out unless the limit is reached. */
  lemma {:induction false} OldestIsComplete(rows: map<Id, Row>, created: seq<Id>, k: nat, i: nat)
    requires i < k <= |created| && (forall n :: n in created ==> n in rows)
    requires rows[created[i]].status.Failed?
    ensures |Oldest(rows, created, k)| == 500 || created[i] in Oldest(rows, created, k)
  {
    if i < k - 1 {
      OldestIsComplete(rows, created, k - 1, i);
    }
  }

  method OldestFailed(rows: map<Id, Row>, created: seq<Id>) returns (ids: set<Id>)
    requires forall n :: n in created ==> n in rows
    ensures ids == Oldest(rows, created, |created|)
  {
    ids := {};
    for i := 0 to |created|
      invariant ids == Oldest(rows, created, i)
    {
      if |ids| < MAX_RETRIES && rows[created[i]].status.Failed? {
        ids := ids + {created[i]};
      }
    }
  }

  function Requeued(s: State, ids: set<Id>): (eligible: set<Id>)
    ensures eligible <= ids
  {
    set n | n in ids && n in s.rows && Requeueable(s, s.rows[n])
  }

  lemma RequeueSome(s: State, ids: set<Id>)
    ensures Requeue(s, ids) ==
            s.(rows := map n | n in s.rows :: if n in Requeued(s, ids) then ResetRow(s.rows[n], s.now) else s.rows[n])
  {
  }

  lemma {:induction false} CardinalityOfSubset(a: set<Id>, b: set<Id>)
    requires a <= b
    ensures |a| <= |b|
  {
    if a != {} {
      var n :| n in a;
      CardinalityOfSubset(a - {n}, b - {n});
    }
  }

  /** Ids that are new and distinct. */
  ghost predicate FreshIds(rows: map<Id, Row>, ids: seq<Id>) {
    && (forall n :: n in ids ==> n !in rows)
    && (forall i, j :: 0 <= i < j < |ids| ==> ids[i] != ids[j])
  }

  lemma IdsSplit(rows: map<Id, Row>, mail: seq<Id>, ids: seq<Id>)
    requires FreshIds(rows, mail + ids)
    ensures FreshIds(rows, mail) && FreshIds(rows, ids)
    ensures forall n :: n in mail ==> n !in ids
  {
    var all := mail + ids;
    forall i, j | 0 <= i < |mail| && 0 <= j < |ids| ensures mail[i] != ids[j] {
      assert all[i] == mail[i] && all[|mail| + j] == ids[j];
    }
    forall i, j | 0 <= i < j < |ids| ensures ids[i] != ids[j] {
      assert all[|mail| + i] == ids[i] && all[|mail| + j] == ids[j];
    }
    forall i, j | 0 <= i < j < |mail| ensures mail[i] != mail[j] {
      assert all[i] == mail[i] && all[j] == mail[j];
    }
    assert forall n :: n in mail ==> n in all;
    assert forall n :: n in ids ==> n in all;
  }

  /**
   Something that happened to a participant. `spoken` holds the rules without a language or in the
   visitor's, `reachable` those whose recipient has an address.
   */
  datatype VisitEvent = VisitEvent(
    trigger: Trigger, v: VisitId, p: ParticipantId, at: Time, startAt: Time,
    spoken: set<RuleId>, reachable: set<RuleId>)

  predicate Fires(e: VisitEvent, r: RuleId, rule: Rule) {
    rule.enabled && rule.trigger == e.trigger && r in e.spoken && r in e.reachable
  }

  predicate FiredOrNot(e: VisitEvent, r: RuleId, rule: Rule, id: Id, rows: map<Id, Row>, now: Time) {
    if Fires(e, r, rule) then id in rows && IsMessageOf(rows[id], rule, r, e.v, e.p, e.at, e.startAt, now)
    else id !in rows
  }

  predicate IsMail(r: Row, v: VisitId, p: ParticipantId, now: Time) {
    IsNewRow(r, Email, None, None, v, Some(p), false, now)
  }

  /** One mail to the host, and one to an active delegate, if they want it. */
  method QueueHostMail(s: State, mail: seq<Id>, v: VisitId, p: ParticipantId)
    returns (s': State, ghost steps: seq<Action>)
    requires FreshIds(s.rows, mail)
    ensures s' == Run(s, steps) && |steps| == |mail| && s' == s.(rows := s'.rows)
    ensures forall n :: n in s'.rows <==> n in s.rows || n in mail
    ensures forall n :: n in s.rows ==> s'.rows[n] == s.rows[n]
    ensures forall n :: n in mail ==> IsMail(s'.rows[n], v, p, s.now)
  {
    s' := s;
    steps := [];
    for i := 0 to |mail|
      invariant s' == Run(s, steps) && |steps| == i && s' == s.(rows := s'.rows)
      invariant forall n :: n in s'.rows <==> n in s.rows || n in mail[..i]
      invariant forall n :: n in s.rows ==> s'.rows[n] == s.rows[n]
      invariant forall n :: n in mail[..i] ==> IsMail(s'.rows[n], v, p, s.now)
    {
      assert mail[i] in mail && mail[i] !in mail[..i];
      ghost var insert := Handle(InsertingPlain(mail[i], Email, v, Some(p), false));
      InsertRuns(s, steps, s', insert);
      steps := steps + [insert];
      s' := s'.(rows := s'.rows[mail[i] := MailRow(v, p, s.now)]);
    }
  }

  lemma InsertRuns(s: State, steps: seq<Action>, s': State, insert: Action)
    requires s' == Run(s, steps)
    ensures Run(s, steps + [insert]) == Step(s', insert)
  {
    RunAppend(s, steps, [insert]);
    RunOne(s', insert);
  }

  lemma RuleInserts(s: State, e: VisitEvent, r: RuleId, id: Id)
    requires r in s.rules && s.rules[r].enabled && id !in s.rows
    ensures Step(s, Handle(InsertingForRule(id, r, e.v, e.p, e.at, e.startAt))) ==
            s.(rows := s.rows[id := QueuedMessage(e, s.rules[r], r, s.now)])
  {
  }

  /**
   Goes through the rules in their order and queues a message for every enabled rule of the event, in the
   visitor's language or in any, whose recipient has an address.
   */
  method FireRules(s: State, e: VisitEvent, order: seq<RuleId>, ids: seq<Id>)
    returns (s': State, queued: nat, ghost steps: seq<Action>)
    requires |ids| == |order| && (forall r :: r in order ==> r in s.rules)
    requires FreshIds(s.rows, ids)
    ensures s' == Run(s, steps) && |steps| == queued && s' == s.(rows := s'.rows)
    ensures forall n :: n in s.rows ==> n in s'.rows && s'.rows[n] == s.rows[n]
    ensures forall i :: 0 <= i < |order| ==> FiredOrNot(e, order[i], s.rules[order[i]], ids[i], s'.rows, s.now)
    ensures forall n :: n in s'.rows ==> n in s.rows || n in ids
  {
    s' := s;
    steps := [];
    queued := 0;
    for i := 0 to |order|
      invariant s' == Run(s, steps) && |steps| == queued && s' == s.(rows := s'.rows)
      invariant forall n :: n in s.rows ==> n in s'.rows && s'.rows[n] == s.rows[n]
      invariant forall k :: i <= k < |ids| ==> ids[k] !in s'.rows
      invariant forall k :: 0 <= k < i ==> FiredOrNot(e, order[k], s.rules[order[k]], ids[k], s'.rows, s.now)
      invariant forall n :: n in s'.rows ==> n in s.rows || n in ids
    {
      var rule := s.rules[order[i]];
      if !rule.enabled || rule.trigger != e.trigger || order[i] !in e.spoken {
        continue; // not selected
      }
      if order[i] !in e.reachable {
        continue; // nobody to send it to
      }
      ghost var insert := Handle(InsertingForRule(ids[i], order[i], e.v, e.p, e.at, e.startAt));
      InsertRuns(s, steps, s', insert);
      RuleInserts(s', e, order[i], ids[i]);
      steps := steps + [insert];
      s' := s'.(rows := s'.rows[ids[i] := QueuedMessage(e, rule, order[i], s.now)]);
      queued := queued + 1;
    }
  }

  function QueuedMessage(e: VisitEvent, rule: Rule, r: RuleId, now: Time): Row {
    var scheduledAt := (if rule.trigger.VisitStart? then e.startAt else e.at) + rule.offsetMinutes * MINUTE;
    InsertRow(rule.channel, rule.apiId, Some(r), e.v, Some(e.p), false, if scheduledAt < now then now else scheduledAt)
  }

  function MailRow(v: VisitId, p: ParticipantId, now: Time): Row {
    InsertRow(Email, None, None, v, Some(p), false, now)
  }

  function Refreshed(s: State, n: Id, row: Row, vs: Visits): Row
    requires Refreshable(s, row)
  {
    RefreshRow(s, n, row, s.rules[row.ruleId.value], vs)
  }

  /**
   A refreshed message stays in the queue exactly when its rule, its participant, its API and its recipient
   are all still there; otherwise it is cancelled.
   */
  lemma RefreshOutcome(s: State, n: Id, row: Row, vs: Visits)
    requires Refreshable(s, row)
    ensures
      var rule, after := s.rules[row.ruleId.value], Refreshed(s, n, row, vs);
      && IsRefreshed(s, n, row, after, rule, vs)
      && (after.status.Queued? <==> IsDeliverable(s, n, row, rule, vs))
      && (after.status.Queued? ==> s.now <= after.nextAttemptAt && after.apiId == rule.apiId)
      && (!after.status.Queued? ==> after.status.Cancelled?)
  {
    RefreshRowEffect(s, n, row, s.rules[row.ruleId.value], vs);
  }

  /** What becomes of one message under the current rule, and why it may have to be cancelled. */
  method RefreshMessage(s: State, n: Id, vs: Visits) returns (row: Row)
    requires n in s.rows && Refreshable(s, s.rows[n])
    ensures row == Refreshed(s, n, s.rows[n], vs)
    ensures IsRefreshed(s, n, s.rows[n], row, s.rules[s.rows[n].ruleId.value], vs)
  {
    RefreshOutcome(s, n, s.rows[n], vs);
    row := s.rows[n];
    var rule := s.rules[row.ruleId.value];
    if !rule.enabled {
      return CancelRow(row);
    }
    if row.participantId.None? {
      return CancelRow(row);
    }
    if rule.apiId.Some? {
      var usable := rule.apiId.value in s.apis && s.apis[rule.apiId.value].enabled
                    && s.apis[rule.apiId.value].channel == rule.channel;
      if !usable {
        return CancelRow(row);
      }
    }
    if n in vs.unreachable {
      return CancelRow(row);
    }
    var next := StartOf(vs, row, s.now) + rule.offsetMinutes * MINUTE;
    if next < s.now {
      next := s.now;
    }
    return ResetRow(row.(channel := rule.channel, apiId := rule.apiId), next);
  }

  function Selected(s: State, v: VisitId): (items: set<Id>)
    ensures items <= s.rows.Keys
    ensures forall n :: n in items ==> Refreshable(s, s.rows[n])
  {
    set n | n in s.rows && s.rows[n].visitId == Some(v) && Refreshable(s, s.rows[n])
  }

  lemma SelectedRefreshed(s: State, v: VisitId, vs: Visits, rows: map<Id, Row>)
    requires rows.Keys == s.rows.Keys
    requires forall n :: n in rows && n !in Selected(s, v) ==> rows[n] == s.rows[n]
    requires forall n :: n in Selected(s, v) ==> rows[n] == Refreshed(s, n, s.rows[n], vs)
    ensures rows == Refresh(s, OfVisit(s, v), vs).rows
  {
    var target := RefreshIn(s, s.rows, OfVisit(s, v), vs);
    forall n | n in rows ensures rows[n] == target[n] {
      assert n in Selected(s, v) <==> n in OfVisit(s, v) && Refreshable(s, s.rows[n]);
    }
  }

  /** Goes through the selected messages one by one. */
  method RefreshItems(s: State, v: VisitId, vs: Visits) returns (rows: map<Id, Row>)
    ensures rows == Refresh(s, OfVisit(s, v), vs).rows
  {
    rows := s.rows;
    var items := Selected(s, v);
    while items != {}
      invariant items <= Selected(s, v) && rows.Keys == s.rows.Keys
      invariant forall n :: n in rows && n !in Selected(s, v) ==> rows[n] == s.rows[n]
      invariant forall n :: n in Selected(s, v) - items ==> rows[n] == Refreshed(s, n, s.rows[n], vs)
      decreases |items|
    {
      var n :| n in items;
      var row := RefreshMessage(s, n, vs);
      rows := rows[n := row];
      items := items - {n};
    }
    SelectedRefreshed(s, v, vs, rows);
  }
}
