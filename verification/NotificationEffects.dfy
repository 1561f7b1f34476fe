/**
 What each transaction does to the tables, written out over the columns the way its statements are: which
 rows, which columns, which values. No description here is stated through the transaction it describes;
 each lemma ties the two together.
 */
module NotificationEffects {
  import opened Wrappers
  import opened NotificationHistory
  import opened NotificationQueue

  // ---------------------------------------------------------------------------
  // Single rows
  // ---------------------------------------------------------------------------

  /** Cancelled: the claim goes, and one that was open gives its attempt back. */
  predicate IsWithdrawal(r: Row, r': Row) {
    r' == r.(status := Cancelled, claimedAt := None, claimToken := None,
             attempts := if r.status.Sending? && r.attempts > 0 then r.attempts - 1 else r.attempts,
             history := r.history + [Withdrawn])
  }

  /** Back in the queue with no attempt used, due at `next`. */
  predicate IsRequeued(r: Row, r': Row, next: Time) {
    r' == r.(status := Queued, attempts := 0, claimedAt := None, claimToken := None, nextAttemptAt := next,
             history := r.history + [Reset])
  }

  /** Failed, and due again five minutes later for every attempt made, up to five. */
  predicate IsFailure(r: Row, r': Row, now: Time) {
    r' == r.(status := Failed, claimedAt := None, claimToken := None,
             nextAttemptAt := now + (if r.attempts < 5 then r.attempts else 5) * 5 * MINUTE)
  }

  /** Only rows change, and none comes or goes. */
  ghost predicate OnlyRows(s: State, s': State) {
    s' == s.(rows := s'.rows) && s'.rows.Keys == s.rows.Keys
  }

  // ---------------------------------------------------------------------------
  // Claiming
  // ---------------------------------------------------------------------------

  /** No API, or one that is enabled; no rule, or one that is enabled. */
  predicate IsAllowed(s: State, r: Row) {
    && (r.apiId.Some? ==> r.apiId.value in s.apis && s.apis[r.apiId.value].enabled)
    && (r.ruleId.Some? ==> r.ruleId.value in s.rules && s.rules[r.ruleId.value].enabled)
  }

  /** A claim of two minutes ago or less still stands. */
  predicate IsLeased(r: Row, now: Time) {
    r.claimedAt.Some? && now - 2 * MINUTE <= r.claimedAt.value
  }

  lemma ClaimableMeans(s: State, r: Row)
    ensures Claimable(s, r) <==>
            && r.lock.None? && r.attempts < 5 && IsAllowed(s, r)
            && (|| (r.status in {Queued, Failed} && r.nextAttemptAt <= s.now)
                || (r.status.Sending? && !IsLeased(r, s.now)))
  {
  }

  ghost predicate IsClaimed(s: State, s': State, w: WorkerId, n: Id)
    requires n in s.rows
  {
    var r := s.rows[n];
    s' == s.(
      rows := s.rows[n := r.(status := Sending, attempts := r.attempts + 1, claimedAt := Some(s.now),
                             claimToken := Some(s.nextToken), history := r.history + [Claimed(s.nextToken)])],
      workers := s.workers[w := Holding(n, s.nextToken)],
      nextToken := s.nextToken + 1)
  }

  lemma ClaimEffect(s: State, w: WorkerId, n: Id)
    requires w !in s.workers && n in s.rows && Claimable(s, s.rows[n])
    ensures IsClaimed(s, Claim(s, w, n), w, n)
  {
  }

  // ---------------------------------------------------------------------------
  // The end of a claim
  // ---------------------------------------------------------------------------

  predicate IsSettled(r: Row, r': Row, verdict: Verdict, now: Time) {
    && (verdict.GiveUp? ==> IsFailure(r, r', now))
    && (verdict.Cancel? ==> IsWithdrawal(r, r'))
    && (verdict.LogOnly? ==> r' == r.(status := Logged, claimedAt := None, claimToken := None))
  }

  /** The worker named in the row's claim. */
  predicate IsHolder(s: State, w: WorkerId) {
    && w in s.workers && s.workers[w].id in s.rows
    && var r := s.rows[s.workers[w].id]; r.status.Sending? && r.claimToken == Some(s.workers[w].token)
  }

  ghost predicate SettledBy(s: State, s': State, w: WorkerId, verdict: Verdict)
    requires w in s.workers && s.workers[w].id in s.rows
  {
    var n := s.workers[w].id;
    && s' == s.(rows := s'.rows, workers := s.workers - {w}) && s'.rows.Keys == s.rows.Keys
    && (if IsHolder(s, w) then IsSettled(s.rows[n], s'.rows[n], verdict, s.now) else s'.rows[n] == s.rows[n])
    && forall m :: m in s.rows && m != n ==> s'.rows[m] == s.rows[m]
  }

  lemma SettleEffect(s: State, w: WorkerId, verdict: Verdict)
    requires w in s.workers && s.workers[w].Holding?
    requires s.workers[w].id in s.rows && s.rows[s.workers[w].id].lock.None?
    ensures SettledBy(s, Settle(s, w, verdict), w, verdict)
  {
  }

  /** What a provider's answer leaves of the row: sent, or failed with its delay; and unlocked. */
  predicate IsResult(r: Row, r': Row, token: Token, sent: bool, now: Time) {
    var recorded := r.(lock := None, history := r.history + [Recorded(token, sent)]);
    && (sent ==> r' == recorded.(status := Sent, claimedAt := None, claimToken := None))
    && (!sent ==> IsFailure(recorded, r', now))
  }

  ghost predicate RecordedBy(s: State, s': State, w: WorkerId, sent: bool)
    requires w in s.workers && s.workers[w].id in s.rows
  {
    var p := s.workers[w];
    && s' == s.(rows := s'.rows, workers := s.workers - {w}) && s'.rows.Keys == s.rows.Keys
    && (if IsHolder(s, w) then IsResult(s.rows[p.id], s'.rows[p.id], p.token, sent, s.now)
        else s'.rows[p.id] == s.rows[p.id].(lock := None))
    && forall m :: m in s.rows && m != p.id ==> s'.rows[m] == s.rows[m]
  }

  lemma CommitEffect(s: State, w: WorkerId, sent: bool)
    requires w in s.workers && s.workers[w].Calling? && s.workers[w].id in s.rows
    ensures RecordedBy(s, Commit(s, w, sent), w, sent)
  {
  }

  /** Sending for the fifth time, with nobody behind it any more. */
  predicate IsAbandoned(r: Row, now: Time) {
    r.status.Sending? && r.attempts >= 5 && !IsLeased(r, now)
  }

  /** Exactly the abandoned rows have failed. */
  ghost predicate AbandonedFailed(s: State, s': State) {
    && OnlyRows(s, s')
    && forall n :: n in s.rows ==>
         s'.rows[n] == if IsAbandoned(s.rows[n], s.now)
                       then s.rows[n].(status := Failed, claimedAt := None, claimToken := None) else s.rows[n]
  }

  /** An abandoned row that is locked keeps the statement waiting. */
  ghost predicate AbandonedIsLocked(s: State) {
    exists n :: n in s.rows && IsAbandoned(s.rows[n], s.now) && s.rows[n].lock.Some?
  }

  lemma ExpireEffect(s: State)
    ensures if AbandonedIsLocked(s) then ExpireExhausted(s) == s else AbandonedFailed(s, ExpireExhausted(s))
  {
    forall n | n in s.rows ensures Exhausted(s, s.rows[n]) <==> IsAbandoned(s.rows[n], s.now) {
    }
  }

  lemma TimeEffect(s: State, elapsed: nat)
    ensures StepHandler(s, TimePassing(elapsed)) == s.(now := s.now + elapsed)
  {
  }

  // ---------------------------------------------------------------------------
  // Administration and visit handlers
  // ---------------------------------------------------------------------------

  /** An administrator cancels a message that is waiting, and nothing else. */
  ghost predicate CancelledByAdmin(s: State, s': State, n: Id) {
    && OnlyRows(s, s')
    && forall m :: m in s.rows ==>
         if m == n && s.rows[m].status in {Queued, Failed} then IsWithdrawal(s.rows[m], s'.rows[m])
         else s'.rows[m] == s.rows[m]
  }

  lemma AdminCancelEffect(s: State, n: Id)
    ensures CancelledByAdmin(s, AdminCancel(s, n), n)
  {
  }

  lemma RequeueableMeans(s: State, r: Row)
    ensures Requeueable(s, r) <==> r.status in {Failed, Cancelled} && IsAllowed(s, r)
  {
  }

  /** Failed and cancelled messages of the list are due now, unless their API or rule is disabled. */
  ghost predicate RequeuedRows(s: State, s': State, ids: set<Id>) {
    && OnlyRows(s, s')
    && forall n :: n in s.rows ==>
         if n in ids && s.rows[n].status in {Failed, Cancelled} && IsAllowed(s, s.rows[n])
         then IsRequeued(s.rows[n], s'.rows[n], s.now) else s'.rows[n] == s.rows[n]
  }

  lemma RequeueEffect(s: State, ids: set<Id>)
    ensures RequeuedRows(s, Requeue(s, ids), ids)
  {
    forall n | n in s.rows {
      RequeueableMeans(s, s.rows[n]);
    }
  }

  /** Everything the chosen rows still have coming is cancelled. */
  ghost predicate CancelledRows(s: State, s': State, chosen: Row -> bool) {
    && OnlyRows(s, s')
    && forall n :: n in s.rows ==>
         if chosen(s.rows[n]) && s.rows[n].status in {Queued, Failed, Sending} then IsWithdrawal(s.rows[n], s'.rows[n])
         else s'.rows[n] == s.rows[n]
  }

  ghost predicate NoneLocked(s: State, chosen: Row -> bool) {
    forall n :: n in s.rows && chosen(s.rows[n]) ==> s.rows[n].lock.None?
  }

  lemma CancelAllEffect(s: State, ids: set<Id>, chosen: Row -> bool)
    requires forall n :: n in s.rows ==> (n in ids <==> chosen(s.rows[n]))
    ensures if NoneLocked(s, chosen) then CancelledRows(s, CancelAll(s, ids), chosen) else CancelAll(s, ids) == s
  {
    assert AnyLocked(s, ids) <==> !NoneLocked(s, chosen);
  }

  /** The built-in pass message, and what rules say once a visit is confirmed. */
  predicate IsConfirmation(s: State, r: Row) {
    if r.ruleId.None? then r.visitorPass
    else r.ruleId.value in s.rules && s.rules[r.ruleId.value].trigger == VisitConfirmed
  }

  /** Cancelling a visit or a participant, and replacing a confirmation, each cancel exactly their own rows. */
  lemma VisitCancelEffects(s: State, v: VisitId, p: ParticipantId)
    ensures
      var ofVisit := (r: Row) => r.visitId == Some(v);
      var after := StepHandler(s, VisitCancelling(v));
      if NoneLocked(s, ofVisit) then CancelledRows(s, after, ofVisit) else after == s
    ensures
      var ofParticipant := (r: Row) => r.participantId == Some(p);
      var after := StepHandler(s, ParticipantCancelling(p));
      if NoneLocked(s, ofParticipant) then CancelledRows(s, after, ofParticipant) else after == s
  {
    CancelAllEffect(s, OfVisit(s, v), (r: Row) => r.visitId == Some(v));
    CancelAllEffect(s, OfParticipant(s, p), (r: Row) => r.participantId == Some(p));
  }

  lemma ReconfirmEffects(s: State, v: VisitId, p: ParticipantId)
    ensures
      var ofVisit := (r: Row) => r.visitId == Some(v) && IsConfirmation(s, r);
      var after := StepHandler(s, VisitReconfirming(v));
      if NoneLocked(s, ofVisit) then CancelledRows(s, after, ofVisit) else after == s
    ensures
      var ofParticipant := (r: Row) => r.participantId == Some(p) && IsConfirmation(s, r);
      var after := StepHandler(s, ParticipantReconfirming(p));
      if NoneLocked(s, ofParticipant) then CancelledRows(s, after, ofParticipant) else after == s
  {
    CancelAllEffect(s, Confirmations(s, OfVisit(s, v)), (r: Row) => r.visitId == Some(v) && IsConfirmation(s, r));
    CancelAllEffect(s, Confirmations(s, OfParticipant(s, p)),
                    (r: Row) => r.participantId == Some(p) && IsConfirmation(s, r));
  }

  // ---------------------------------------------------------------------------
  // New messages
  // ---------------------------------------------------------------------------

  /** A new row: queued, never tried, nobody's, and due at `next`. */
  predicate IsNewRow(r: Row, channel: Channel, apiId: Option<ApiId>, ruleId: Option<RuleId>, v: VisitId,
                     p: Option<ParticipantId>, visitorPass: bool, next: Time) {
    && r.status.Queued? && r.attempts == 0 && r.claimToken.None? && r.claimedAt.None? && r.lock.None?
    && r.nextAttemptAt == next && r.channel == channel && r.apiId == apiId && r.ruleId == ruleId
    && r.visitId == Some(v) && r.participantId == p && r.visitorPass == visitorPass && r.history == [Reset]
  }

  /** What an enabled rule sends: due its offset after the visit starts or the event happens, not in the past. */
  predicate IsMessageOf(r: Row, rule: Rule, ruleId: RuleId, v: VisitId, p: ParticipantId,
                        eventAt: Time, startAt: Time, now: Time) {
    var due := (if rule.trigger == VisitStart then startAt else eventAt) + rule.offsetMinutes * MINUTE;
    IsNewRow(r, rule.channel, rule.apiId, Some(ruleId), v, Some(p), false, if due < now then now else due)
  }

  ghost predicate Inserted(s: State, s': State, n: Id) {
    && s' == s.(rows := s'.rows) && s'.rows.Keys == s.rows.Keys + {n}
    && forall m :: m in s.rows ==> s'.rows[m] == s.rows[m]
  }

  lemma InsertForRuleEffect(s: State, n: Id, r: RuleId, v: VisitId, p: ParticipantId, eventAt: Time, startAt: Time)
    requires n !in s.rows
    ensures
      var s' := InsertForRule(s, n, r, v, p, eventAt, startAt);
      if r in s.rules && s.rules[r].enabled
      then Inserted(s, s', n) && IsMessageOf(s'.rows[n], s.rules[r], r, v, p, eventAt, startAt, s.now)
      else s' == s
  {
  }

  lemma InsertPlainEffect(s: State, n: Id, channel: Channel, v: VisitId, p: Option<ParticipantId>, visitorPass: bool)
    requires n !in s.rows
    ensures
      var s' := InsertPlain(s, n, channel, v, p, visitorPass);
      Inserted(s, s', n) && IsNewRow(s'.rows[n], channel, None, None, v, p, visitorPass, s.now)
  {
  }

  // ---------------------------------------------------------------------------
  // Refreshing visit_start messages
  // ---------------------------------------------------------------------------

  /** Rule, participant, API and recipient are all there. */
  predicate IsDeliverable(s: State, n: Id, r: Row, rule: Rule, vs: Visits) {
    && rule.enabled && r.participantId.Some? && n !in vs.unreachable
    && (rule.apiId.Some? ==>
          && rule.apiId.value in s.apis
          && s.apis[rule.apiId.value].enabled && s.apis[rule.apiId.value].channel == rule.channel)
  }

  /** Rebuilt for its visit's start as the rule says now, and not due in the past; or cancelled. */
  predicate IsRefreshed(s: State, n: Id, r: Row, r': Row, rule: Rule, vs: Visits) {
    var start := if r.visitId.Some? && r.visitId.value in vs.startAt then vs.startAt[r.visitId.value] else s.now;
    var due := start + rule.offsetMinutes * MINUTE;
    if IsDeliverable(s, n, r, rule, vs) then
      IsRequeued(r.(channel := rule.channel, apiId := rule.apiId), r', if due < s.now then s.now else due)
    else IsWithdrawal(r, r')
  }

  lemma RefreshRowEffect(s: State, n: Id, r: Row, rule: Rule, vs: Visits)
    ensures IsRefreshed(s, n, r, RefreshRow(s, n, r, rule, vs), rule, vs)
  {
  }

  /** A waiting message of a visit_start rule. */
  predicate IsReminder(s: State, r: Row) {
    && r.status in {Queued, Failed} && r.visitId.Some?
    && r.ruleId.Some? && r.ruleId.value in s.rules && s.rules[r.ruleId.value].trigger == VisitStart
  }

  ghost predicate RefreshedRows(s: State, s': State, chosen: Row -> bool, vs: Visits) {
    && OnlyRows(s, s')
    && forall n :: n in s.rows ==>
         if chosen(s.rows[n]) && IsReminder(s, s.rows[n])
         then IsRefreshed(s, n, s.rows[n], s'.rows[n], s.rules[s.rows[n].ruleId.value], vs)
         else s'.rows[n] == s.rows[n]
  }

  lemma RefreshAllEffect(s: State, ids: set<Id>, chosen: Row -> bool, vs: Visits)
    requires forall n :: n in s.rows ==> (n in ids <==> chosen(s.rows[n]))
    ensures RefreshedRows(s, Refresh(s, ids, vs), chosen, vs)
  {
    forall n | n in s.rows && IsReminder(s, s.rows[n]) {
      RefreshRowEffect(s, n, s.rows[n], s.rules[s.rows[n].ruleId.value], vs);
    }
  }

  /** A refresh goes through the reminders of its visit, or of one participant of it. */
  lemma RefreshEffects(s: State, v: VisitId, p: ParticipantId, vs: Visits)
    ensures RefreshedRows(s, StepHandler(s, RefreshingVisit(v, vs)), (r: Row) => r.visitId == Some(v), vs)
    ensures RefreshedRows(s, StepHandler(s, RefreshingParticipant(v, p, vs)),
                          (r: Row) => r.visitId == Some(v) && r.participantId == Some(p), vs)
  {
    RefreshAllEffect(s, OfVisit(s, v), (r: Row) => r.visitId == Some(v), vs);
    RefreshAllEffect(s, OfVisit(s, v) * OfParticipant(s, p),
                     (r: Row) => r.visitId == Some(v) && r.participantId == Some(p), vs);
  }

  // ---------------------------------------------------------------------------
  // API configurations and rules
  // ---------------------------------------------------------------------------

  lemma ConfigGuardsMean(s: State, a: ApiId, api: Api, rule: Rule)
    ensures ApiAcceptable(api) <==> api.channel != Email && (api.enabled ==> api.idempotent)
    ensures ChannelMismatch(s, a, api.channel) <==>
            exists r :: r in s.rules && s.rules[r].apiId == Some(a) && s.rules[r].channel != api.channel
    ensures ApiReferenced(s, a) <==>
            || (exists r :: r in s.rules && s.rules[r].apiId == Some(a))
            || (exists n :: n in s.rows && s.rows[n].apiId == Some(a) && s.rows[n].status in {Queued, Failed, Sending})
    ensures RuleAcceptable(s, rule) <==>
            rule.apiId.Some? ==>
              && rule.channel != Email && rule.apiId.value in s.apis
              && var api := s.apis[rule.apiId.value];
              && api.channel == rule.channel
              && (rule.enabled ==> api.enabled && api.idempotent)
  {
  }

  lemma CreateEffects(s: State, a: ApiId, api: Api, r: RuleId, rule: Rule)
    ensures a !in s.apis && ApiAcceptable(api) ==> CreateApi(s, a, api) == s.(apis := s.apis[a := api])
    ensures r !in s.rules && RuleAcceptable(s, rule) ==> CreateRule(s, r, rule) == s.(rules := s.rules[r := rule])
  {
  }

  /** The API is as given; disabled, it is left with no enabled rule and with no pending message. */
  ghost predicate ApiUpdated(s: State, s': State, a: ApiId, api: Api) {
    && s' == s.(apis := s.apis[a := api], rules := s'.rules, rows := s'.rows)
    && s'.rules.Keys == s.rules.Keys && s'.rows.Keys == s.rows.Keys
    && (forall r :: r in s.rules ==>
          s'.rules[r] == if s.rules[r].apiId == Some(a) && !api.enabled then s.rules[r].(enabled := false)
                         else s.rules[r])
    && (forall n :: n in s.rows ==>
          if s.rows[n].apiId == Some(a) && !api.enabled && s.rows[n].status in {Queued, Failed, Sending}
          then IsWithdrawal(s.rows[n], s'.rows[n]) else s'.rows[n] == s.rows[n])
  }

  lemma UpdateApiEffect(s: State, a: ApiId, api: Api)
    requires a in s.apis && ApiAcceptable(api) && !ChannelMismatch(s, a, api.channel)
    requires !api.enabled ==> NoneLocked(s, (r: Row) => r.apiId == Some(a))
    ensures ApiUpdated(s, UpdateApi(s, a, api), a, api)
  {
    assert !api.enabled ==> !AnyLocked(s, OfApi(s, a));
  }

  /** The API is gone, and no message refers to it any more. */
  ghost predicate ApiDeleted(s: State, s': State, a: ApiId) {
    && s' == s.(apis := s.apis - {a}, rows := s'.rows) && s'.rows.Keys == s.rows.Keys
    && forall n :: n in s.rows ==>
         s'.rows[n] == if s.rows[n].apiId == Some(a) then s.rows[n].(apiId := None) else s.rows[n]
  }

  lemma DeleteApiEffect(s: State, a: ApiId)
    requires a in s.apis && !ApiReferenced(s, a)
    ensures ApiDeleted(s, DeleteApi(s, a), a)
  {
  }

  /** The rule is as given, and every message is what the rule now makes of it. */
  ghost predicate RuleUpdated(s: State, s': State, r: RuleId, rule: Rule, vs: Visits)
    requires r in s.rules
  {
    && s' == s.(rules := s.rules[r := rule], rows := s'.rows) && s'.rows.Keys == s.rows.Keys
    && forall n :: n in s.rows ==> IsUpdated(s, n, s.rows[n], s'.rows[n], r, rule, vs)
  }

  /** A claimed message taken back: queued at once, with its attempt given back. */
  function TakenBack(r: Row, now: Time): Row {
    if !r.status.Sending? then r
    else r.(status := Queued, claimedAt := None, claimToken := None, nextAttemptAt := now,
            attempts := if r.attempts > 0 then r.attempts - 1 else 0)
  }

  /**
   Messages of other rules, messages that are done, and those of an enabled rule saved as it was stay. Those
   of a visit_start rule that stays one are taken back and rebuilt. All others are cancelled.
   */
  predicate IsUpdated(s: State, n: Id, row: Row, row': Row, r: RuleId, rule: Rule, vs: Visits)
    requires r in s.rules
  {
    if row.ruleId != Some(r) || row.status !in {Queued, Failed, Sending} || (rule.enabled && rule == s.rules[r]) then
      row' == row
    else if rule.enabled && rule.trigger == VisitStart && s.rules[r].trigger == VisitStart then
      if row.visitId.None? then row' == TakenBack(row, s.now)
      else IsRefreshed(s, n, TakenBack(row, s.now), row', rule, vs)
    else
      IsWithdrawal(row, row')
  }

  /** A refresh asks nothing of the rules but the one it is given. */
  lemma RefreshedUnderRule(s: State, n: Id, r: RuleId, taken: Row, row': Row, rule: Rule, vs: Visits)
    requires IsRefreshed(WithRule(s, r, rule), n, taken, row', rule, vs)
    ensures IsRefreshed(s, n, taken, row', rule, vs)
  {
  }

  lemma RebuildEffect(s: State, n: Id, r: RuleId, rule: Rule, vs: Visits)
    requires n in s.rows && r in s.rules && RebuildsMessages(s, r, rule) && s.rows[n].ruleId == Some(r)
    ensures n in UpdatedMessages(s, r, rule, vs)
    ensures IsUpdated(s, n, s.rows[n], UpdatedMessages(s, r, rule, vs)[n], r, rule, vs)
  {
    var taken := RewindRow(s.rows[n], s.now);
    var row' := RefreshRow(WithRule(s, r, rule), n, taken, rule, vs);
    assert n in OfRule(s, r) && taken == TakenBack(s.rows[n], s.now);
    RefreshRowEffect(WithRule(s, r, rule), n, taken, rule, vs);
    RefreshedUnderRule(s, n, r, taken, row', rule, vs);
    assert UpdatedMessages(s, r, rule, vs)[n] == if Refreshable(WithRule(s, r, rule), taken) then row' else taken;
  }

  lemma UpdateRuleEffect(s: State, r: RuleId, rule: Rule, vs: Visits)
    requires r in s.rules && RuleAcceptable(s, rule)
    requires !(rule.enabled && rule == s.rules[r]) ==> NoneLocked(s, (row: Row) => row.ruleId == Some(r))
    ensures RuleUpdated(s, UpdateRule(s, r, rule, vs), r, rule, vs)
  {
    assert UpdatesRule(s, r, rule);
    forall n | n in s.rows
      ensures n in UpdatedMessages(s, r, rule, vs)
      ensures IsUpdated(s, n, s.rows[n], UpdatedMessages(s, r, rule, vs)[n], r, rule, vs)
    {
      assert n in OfRule(s, r) <==> s.rows[n].ruleId == Some(r);
      if RebuildsMessages(s, r, rule) && s.rows[n].ruleId == Some(r) {
        RebuildEffect(s, n, r, rule, vs);
      }
    }
  }

  /** The rule is gone, what was pending of it is cancelled, and no message refers to it any more. */
  ghost predicate RuleDeleted(s: State, s': State, r: RuleId) {
    && s' == s.(rules := s.rules - {r}, rows := s'.rows) && s'.rows.Keys == s.rows.Keys
    && forall n :: n in s.rows ==>
         if s.rows[n].ruleId != Some(r) then s'.rows[n] == s.rows[n]
         else if s.rows[n].status in {Queued, Failed, Sending} then
           IsWithdrawal(s.rows[n].(ruleId := None), s'.rows[n])
         else s'.rows[n] == s.rows[n].(ruleId := None)
  }

  lemma DeleteRuleEffect(s: State, r: RuleId)
    requires r in s.rules && NoneLocked(s, (row: Row) => row.ruleId == Some(r))
    ensures RuleDeleted(s, DeleteRule(s, r), r)
  {
    assert !AnyLocked(s, OfRule(s, r));
  }
}
