/**
 The notification tables as a state machine.

 Rows of `notifications`, `notification_rules` and `notification_api_configs`, the workers and their
 row locks, and one function per transaction. A worker's delivery is split where another transaction
 can get in between: claim, take the row lock, start the provider call, commit the result, or crash
 (which rolls back and frees the lock). Every other handler transaction is one step. A transaction
 that would have to wait for a locked row does nothing here: it runs later, on the rows as they are
 then.
 */
module NotificationQueue {
  import opened Wrappers
  import opened NotificationHistory

  type Time = int // microseconds
  const MINUTE: int := 60_000_000
  const LEASE: int := 2 * MINUTE

  type Id = nat
  type WorkerId = nat
  type ApiId = nat
  type RuleId = nat
  type VisitId = nat
  type ParticipantId = nat

  datatype Channel = Sms | Mms | Kakao | Webhook | Email
  datatype Trigger =
    | VisitConfirmed | VisitStart | CheckedIn | CheckedOut
    | VisitCancelled | VisitRejected | ApprovalEscalated
  datatype Status = Queued | Sending | Sent | Logged | Failed | Cancelled

  datatype Api = Api(channel: Channel, enabled: bool, idempotent: bool)

  /** `text` stands for audience, templates, subject and locale, which are only compared. */
  datatype Rule = Rule(
    trigger: Trigger, channel: Channel, apiId: Option<ApiId>, offsetMinutes: int, text: nat, enabled: bool)

  datatype Row = Row(
    status: Status, attempts: nat, claimToken: Option<Token>, claimedAt: Option<Time>,
    lock: Option<WorkerId>, nextAttemptAt: Time, channel: Channel,
    apiId: Option<ApiId>, ruleId: Option<RuleId>,
    visitId: Option<VisitId>, participantId: Option<ParticipantId>, visitorPass: bool,
    history: seq<Event>)

  datatype Phase =
    | Holding(id: Id, token: Token)   // claimed, not locked yet
    | Locking(id: Id, token: Token)   // owns the row lock, provider not called yet
    | Calling(id: Id, token: Token)   // provider call in flight, row lock held

  datatype State = State(
    rows: map<Id, Row>, workers: map<WorkerId, Phase>,
    apis: map<ApiId, Api>, rules: map<RuleId, Rule>,
    now: Time, nextToken: Token)

  function Init(now: Time): State {
    State(map[], map[], map[], map[], now, 0)
  }

  // ---------------------------------------------------------------------------
  // Single rows
  // ---------------------------------------------------------------------------

  predicate Pending(r: Row) {
    r.status.Queued? || r.status.Failed? || r.status.Sending?
  }

  function OneLess(attempts: nat): nat {
    if attempts == 0 then 0 else attempts - 1
  }

  /** The SQL delay after a failure: LEAST(attempts,5) times five minutes. */
  function RetryDelay(attempts: nat): Time {
    (if attempts < 5 then attempts else 5) * 5 * MINUTE
  }

  /** The Go helper of the same name: clamps to 1..5 before multiplying. */
  function NotificationBackoff(attempts: int): Time {
    var atLeastOne := if attempts < 1 then 1 else attempts;
    var clamped := if atLeastOne > 5 then 5 else atLeastOne;
    clamped * 5 * MINUTE
  }

  function ClaimRow(r: Row, token: Token, now: Time): Row {
    r.(status := Sending, attempts := r.attempts + 1, claimedAt := Some(now), claimToken := Some(token),
       history := r.history + [Claimed(token)])
  }

  function Unclaim(r: Row, status: Status): Row {
    r.(status := status, claimedAt := None, claimToken := None)
  }

  function FailRow(r: Row, now: Time): Row {
    Unclaim(r, Failed).(nextAttemptAt := now + RetryDelay(r.attempts))
  }

  function CommitRow(r: Row, token: Token, sent: bool, now: Time): Row {
    var done := if sent then Unclaim(r, Sent) else FailRow(r, now);
    done.(lock := None, history := r.history + [Recorded(token, sent)])
  }

  function CancelRow(r: Row): Row {
    Unclaim(r, Cancelled).(
      attempts := if r.status.Sending? then OneLess(r.attempts) else r.attempts,
      history := r.history + [Withdrawn])
  }

  function ResetRow(r: Row, next: Time): Row {
    Unclaim(r, Queued).(attempts := 0, nextAttemptAt := next, history := r.history + [Reset])
  }

  /** The first statement of a visit_start rule change: a claimed row goes back to the queue. */
  function RewindRow(r: Row, now: Time): Row {
    if r.status.Sending? then Unclaim(r, Queued).(attempts := OneLess(r.attempts), nextAttemptAt := now) else r
  }

  function InsertRow(channel: Channel, apiId: Option<ApiId>, ruleId: Option<RuleId>, visitId: VisitId,
                     participantId: Option<ParticipantId>, visitorPass: bool, next: Time): Row {
    Row(Queued, 0, None, None, None, next, channel, apiId, ruleId, Some(visitId), participantId, visitorPass, [Reset])
  }

  function Later(a: Time, b: Time): Time {
    if a < b then b else a
  }

  // ---------------------------------------------------------------------------
  // The delivery worker
  // ---------------------------------------------------------------------------

  predicate LeaseExpired(s: State, r: Row) {
    r.claimedAt.None? || r.claimedAt.value < s.now - LEASE
  }

  predicate ApiAllows(s: State, r: Row) {
    r.apiId.None? || (r.apiId.value in s.apis && s.apis[r.apiId.value].enabled)
  }

  predicate RuleAllows(s: State, r: Row) {
    r.ruleId.None? || (r.ruleId.value in s.rules && s.rules[r.ruleId.value].enabled)
  }

  predicate Claimable(s: State, r: Row) {
    && r.lock.None? // SKIP LOCKED
    && r.attempts < MAX_ATTEMPTS
    && ApiAllows(s, r)
    && RuleAllows(s, r)
    && (|| ((r.status.Queued? || r.status.Failed?) && r.nextAttemptAt <= s.now)
        || (r.status.Sending? && LeaseExpired(s, r)))
  }

  function Claim(s: State, w: WorkerId, n: Id): State {
    if w !in s.workers && n in s.rows && Claimable(s, s.rows[n]) then
      s.(rows := s.rows[n := ClaimRow(s.rows[n], s.nextToken, s.now)],
         workers := s.workers[w := Holding(n, s.nextToken)],
         nextToken := s.nextToken + 1)
    else s
  }

  predicate Exhausted(s: State, r: Row) {
    r.status.Sending? && r.attempts >= MAX_ATTEMPTS && LeaseExpired(s, r)
  }

  function ExpireExhausted(s: State): State {
    var ids := set n | n in s.rows && Exhausted(s, s.rows[n]);
    if AnyLocked(s, ids) then s
    else s.(rows := map n | n in s.rows :: if n in ids then Unclaim(s.rows[n], Failed) else s.rows[n])
  }

  predicate AnyLocked(s: State, ids: set<Id>) {
    exists n :: n in ids && n in s.rows && s.rows[n].lock.Some?
  }

  /** The worker still owns the row: same claim, still sending. */
  predicate Owns(s: State, p: Phase) {
    p.id in s.rows && s.rows[p.id].status.Sending? && s.rows[p.id].claimToken == Some(p.token)
  }

  function TakeLock(s: State, w: WorkerId): State {
    if w !in s.workers || !s.workers[w].Holding? then s
    else
      var p := s.workers[w];
      if p.id in s.rows && s.rows[p.id].lock.Some? then s
      else if Owns(s, p) then
        s.(rows := s.rows[p.id := s.rows[p.id].(lock := Some(w))],
           workers := s.workers[w := Locking(p.id, p.token)])
      else s.(workers := s.workers - {w})
  }

  function StartCall(s: State, w: WorkerId): State {
    if w !in s.workers || !s.workers[w].Locking? || s.workers[w].id !in s.rows then s
    else
      var p := s.workers[w];
      var r := s.rows[p.id];
      s.(rows := s.rows[p.id := r.(history := r.history + [Called(p.token)])],
         workers := s.workers[w := Calling(p.id, p.token)])
  }

  function Commit(s: State, w: WorkerId, sent: bool): State {
    if w !in s.workers || !s.workers[w].Calling? || s.workers[w].id !in s.rows then s
    else
      var p := s.workers[w];
      var r := s.rows[p.id];
      s.(rows := s.rows[p.id := if Owns(s, p) then CommitRow(r, p.token, sent, s.now) else r.(lock := None)],
         workers := s.workers - {w})
  }

  /** Process death, lost commit, lock timeout: nothing is written and the lock is free again. */
  function Crash(s: State, w: WorkerId): State {
    if w !in s.workers then s
    else
      var p := s.workers[w];
      s.(rows := if p.Holding? || p.id !in s.rows then s.rows else s.rows[p.id := s.rows[p.id].(lock := None)],
         workers := s.workers - {w})
  }

  datatype Verdict = GiveUp | Cancel | LogOnly

  function SettleRow(r: Row, verdict: Verdict, now: Time): Row {
    match verdict
    case GiveUp => FailRow(r, now)
    case Cancel => CancelRow(r)
    case LogOnly => Unclaim(r, Logged)
  }

  /** A claimed row that is settled without calling a provider. */
  function Settle(s: State, w: WorkerId, verdict: Verdict): State {
    if w !in s.workers || !s.workers[w].Holding? then s
    else
      var p := s.workers[w];
      if p.id in s.rows && s.rows[p.id].lock.Some? then s
      else s.(rows := if Owns(s, p) then s.rows[p.id := SettleRow(s.rows[p.id], verdict, s.now)] else s.rows,
              workers := s.workers - {w})
  }

  // ---------------------------------------------------------------------------
  // Administration and visit handlers
  // ---------------------------------------------------------------------------

  function AdminCancel(s: State, n: Id): State {
    if n in s.rows && (s.rows[n].status.Queued? || s.rows[n].status.Failed?)
    then s.(rows := s.rows[n := CancelRow(s.rows[n])])
    else s
  }

  predicate Requeueable(s: State, r: Row) {
    (r.status.Failed? || r.status.Cancelled?) && ApiAllows(s, r) && RuleAllows(s, r)
  }

  function Requeue(s: State, ids: set<Id>): State {
    s.(rows := map n | n in s.rows ::
        if n in ids && Requeueable(s, s.rows[n]) then ResetRow(s.rows[n], s.now) else s.rows[n])
  }

  function CancelIn(rows: map<Id, Row>, ids: set<Id>): map<Id, Row> {
    map n | n in rows :: if n in ids && Pending(rows[n]) then CancelRow(rows[n]) else rows[n]
  }

  function CancelAll(s: State, ids: set<Id>): State {
    if AnyLocked(s, ids) then s else s.(rows := CancelIn(s.rows, ids))
  }

  function OfVisit(s: State, v: VisitId): set<Id> {
    set n | n in s.rows && s.rows[n].visitId == Some(v)
  }

  function OfParticipant(s: State, p: ParticipantId): set<Id> {
    set n | n in s.rows && s.rows[n].participantId == Some(p)
  }

  function OfApi(s: State, a: ApiId): set<Id> {
    set n | n in s.rows && s.rows[n].apiId == Some(a)
  }

  function OfRule(s: State, r: RuleId): set<Id> {
    set n | n in s.rows && s.rows[n].ruleId == Some(r)
  }

  /** The messages a new QR replaces: the built-in pass message and every visit_confirmed rule. */
  predicate Confirmation(s: State, r: Row) {
    || (r.ruleId.None? && r.visitorPass)
    || (r.ruleId.Some? && r.ruleId.value in s.rules && s.rules[r.ruleId.value].trigger.VisitConfirmed?)
  }

  function Confirmations(s: State, ids: set<Id>): set<Id> {
    set n | n in ids && n in s.rows && Confirmation(s, s.rows[n])
  }

  /** One row of an enabled rule, as the enqueue loop inserts it. */
  function InsertForRule(
      s: State, n: Id, rule: RuleId, v: VisitId, p: ParticipantId, eventAt: Time, startAt: Time): State {
    if n in s.rows || rule !in s.rules || !s.rules[rule].enabled then s
    else
      var found := s.rules[rule];
      var base := if found.trigger.VisitStart? then startAt else eventAt;
      var next := Later(base + found.offsetMinutes * MINUTE, s.now);
      s.(rows := s.rows[n := InsertRow(found.channel, found.apiId, Some(rule), v, Some(p), false, next)])
  }

  /** A row without rule or API: host mail, or the built-in pass message. */
  function InsertPlain(
      s: State, n: Id, channel: Channel, v: VisitId, p: Option<ParticipantId>, visitorPass: bool): State {
    if n in s.rows then s
    else s.(rows := s.rows[n := InsertRow(channel, None, None, v, p, visitorPass, s.now)])
  }

  // ---------------------------------------------------------------------------
  // Refreshing visit_start notifications
  // ---------------------------------------------------------------------------

  /** What the refresh needs to know about visits and visitors. */
  datatype Visits = Visits(startAt: map<VisitId, Time>, unreachable: set<Id>)

  function StartOf(vs: Visits, r: Row, now: Time): Time {
    if r.visitId.Some? && r.visitId.value in vs.startAt then vs.startAt[r.visitId.value] else now
  }

  predicate ApiUsable(s: State, rule: Rule) {
    || rule.apiId.None?
    || (&& rule.apiId.value in s.apis
        && s.apis[rule.apiId.value].enabled && s.apis[rule.apiId.value].channel == rule.channel)
  }

  function RefreshRow(s: State, n: Id, r: Row, rule: Rule, vs: Visits): Row {
    if !rule.enabled then CancelRow(r)
    else if r.participantId.None? then CancelRow(r)
    else if !ApiUsable(s, rule) then CancelRow(r)
    else if n in vs.unreachable then CancelRow(r)
    else
      var next := Later(StartOf(vs, r, s.now) + rule.offsetMinutes * MINUTE, s.now);
      ResetRow(r.(channel := rule.channel, apiId := rule.apiId), next)
  }

  predicate Refreshable(s: State, r: Row) {
    && (r.status.Queued? || r.status.Failed?)
    && r.visitId.Some?
    && r.ruleId.Some? && r.ruleId.value in s.rules && s.rules[r.ruleId.value].trigger.VisitStart?
  }

  function RefreshIn(s: State, rows: map<Id, Row>, ids: set<Id>, vs: Visits): map<Id, Row> {
    map n | n in rows ::
      if n in ids && Refreshable(s, rows[n]) then RefreshRow(s, n, rows[n], s.rules[rows[n].ruleId.value], vs)
      else rows[n]
  }

  function Refresh(s: State, ids: set<Id>, vs: Visits): State {
    s.(rows := RefreshIn(s, s.rows, ids, vs))
  }

  // ---------------------------------------------------------------------------
  // API configurations and rules
  // ---------------------------------------------------------------------------

  predicate ApiAcceptable(api: Api) {
    !api.channel.Email? && (api.enabled ==> api.idempotent)
  }

  function CreateApi(s: State, a: ApiId, api: Api): State {
    if a in s.apis || !ApiAcceptable(api) then s else s.(apis := s.apis[a := api])
  }

  predicate ChannelMismatch(s: State, a: ApiId, channel: Channel) {
    exists r :: r in s.rules && s.rules[r].apiId == Some(a) && s.rules[r].channel != channel
  }

  function DisableRulesOf(rules: map<RuleId, Rule>, a: ApiId): map<RuleId, Rule> {
    map r | r in rules :: if rules[r].apiId == Some(a) then rules[r].(enabled := false) else rules[r]
  }

  function UpdateApi(s: State, a: ApiId, api: Api): State {
    if a !in s.apis || !ApiAcceptable(api) || ChannelMismatch(s, a, api.channel) then s
    else if api.enabled then s.(apis := s.apis[a := api])
    else if AnyLocked(s, OfApi(s, a)) then s
    else s.(apis := s.apis[a := api], rules := DisableRulesOf(s.rules, a), rows := CancelIn(s.rows, OfApi(s, a)))
  }

  predicate ApiReferenced(s: State, a: ApiId) {
    || (exists r :: r in s.rules && s.rules[r].apiId == Some(a))
    || (exists n :: n in s.rows && s.rows[n].apiId == Some(a) && Pending(s.rows[n]))
  }

  function DeleteApi(s: State, a: ApiId): State {
    if a !in s.apis || ApiReferenced(s, a) then s
    else s.(apis := s.apis - {a},
            rows := map n | n in s.rows :: if s.rows[n].apiId == Some(a) then s.rows[n].(apiId := None) else s.rows[n])
  }

  predicate RuleAcceptable(s: State, rule: Rule) {
    && (rule.channel.Email? ==> rule.apiId.None?)
    && (rule.apiId.Some? ==>
          && rule.apiId.value in s.apis
          && s.apis[rule.apiId.value].channel == rule.channel
          && (rule.enabled ==> s.apis[rule.apiId.value].enabled && s.apis[rule.apiId.value].idempotent))
  }

  function CreateRule(s: State, r: RuleId, rule: Rule): State {
    if r in s.rules || !RuleAcceptable(s, rule) then s else s.(rules := s.rules[r := rule])
  }

  function RewindIn(rows: map<Id, Row>, ids: set<Id>, now: Time): map<Id, Row> {
    map n | n in rows :: if n in ids then RewindRow(rows[n], now) else rows[n]
  }

  /** Saving an enabled rule as it was touches no message. */
  predicate KeepsMessages(s: State, r: RuleId, rule: Rule) {
    r in s.rules && rule.enabled && s.rules[r] == rule
  }

  /** A visit_start rule that stays one has its messages taken back and rebuilt. */
  predicate RebuildsMessages(s: State, r: RuleId, rule: Rule) {
    && r in s.rules && !KeepsMessages(s, r, rule)
    && rule.enabled && s.rules[r].trigger.VisitStart? && rule.trigger.VisitStart?
  }

  function WithRule(s: State, r: RuleId, rule: Rule): State {
    s.(rules := s.rules[r := rule])
  }

  /** The messages after the update; any other change of the rule cancels what is pending. */
  function UpdatedMessages(s: State, r: RuleId, rule: Rule, vs: Visits): map<Id, Row> {
    var ids := OfRule(s, r);
    if KeepsMessages(s, r, rule) then s.rows
    else if RebuildsMessages(s, r, rule) then RefreshIn(WithRule(s, r, rule), RewindIn(s.rows, ids, s.now), ids, vs)
    else CancelIn(s.rows, ids)
  }

  predicate UpdatesRule(s: State, r: RuleId, rule: Rule) {
    r in s.rules && RuleAcceptable(s, rule) && (KeepsMessages(s, r, rule) || !AnyLocked(s, OfRule(s, r)))
  }

  function UpdateRule(s: State, r: RuleId, rule: Rule, vs: Visits): State {
    if UpdatesRule(s, r, rule) then WithRule(s, r, rule).(rows := UpdatedMessages(s, r, rule, vs)) else s
  }

  function DeleteRule(s: State, r: RuleId): State {
    if r !in s.rules || AnyLocked(s, OfRule(s, r)) then s
    else
      var cancelled := CancelIn(s.rows, OfRule(s, r));
      s.(rules := s.rules - {r},
         rows := map n | n in cancelled ::
            if cancelled[n].ruleId == Some(r) then cancelled[n].(ruleId := None) else cancelled[n])
  }

  // ---------------------------------------------------------------------------
  // Runs
  // ---------------------------------------------------------------------------

  datatype WorkerStep =
    | Claiming(n: Id)
    | TakingLock
    | StartingCall
    | Committing(sent: bool)
    | Crashing
    | Settling(verdict: Verdict)

  function StepWorker(s: State, w: WorkerId, step: WorkerStep): State {
    match step
    case Claiming(n) => Claim(s, w, n)
    case TakingLock => TakeLock(s, w)
    case StartingCall => StartCall(s, w)
    case Committing(sent) => Commit(s, w, sent)
    case Crashing => Crash(s, w)
    case Settling(verdict) => Settle(s, w, verdict)
  }

  datatype Handler =
    | TimePassing(elapsed: nat)
    | Expiring
    | AdminCancelling(n: Id)
    | Requeueing(ids: set<Id>)
    | VisitCancelling(v: VisitId)
    | ParticipantCancelling(p: ParticipantId)
    | VisitReconfirming(v: VisitId)
    | ParticipantReconfirming(p: ParticipantId)
    | InsertingForRule(n: Id, r: RuleId, v: VisitId, p: ParticipantId, eventAt: Time, startAt: Time)
    | InsertingPlain(n: Id, channel: Channel, v: VisitId, maybeP: Option<ParticipantId>, visitorPass: bool)
    | RefreshingVisit(v: VisitId, vs: Visits)
    | RefreshingParticipant(v: VisitId, p: ParticipantId, vs: Visits)

  function StepHandler(s: State, h: Handler): State {
    match h
    case TimePassing(elapsed) => s.(now := s.now + elapsed)
    case Expiring => ExpireExhausted(s)
    case AdminCancelling(n) => AdminCancel(s, n)
    case Requeueing(ids) => Requeue(s, ids)
    case VisitCancelling(v) => CancelAll(s, OfVisit(s, v))
    case ParticipantCancelling(p) => CancelAll(s, OfParticipant(s, p))
    case VisitReconfirming(v) => CancelAll(s, Confirmations(s, OfVisit(s, v)))
    case ParticipantReconfirming(p) => CancelAll(s, Confirmations(s, OfParticipant(s, p)))
    case InsertingForRule(n, r, v, p, eventAt, startAt) => InsertForRule(s, n, r, v, p, eventAt, startAt)
    case InsertingPlain(n, channel, v, p, visitorPass) => InsertPlain(s, n, channel, v, p, visitorPass)
    case RefreshingVisit(v, vs) => Refresh(s, OfVisit(s, v), vs)
    case RefreshingParticipant(v, p, vs) => Refresh(s, OfVisit(s, v) * OfParticipant(s, p), vs)
  }

  datatype ConfigEdit =
    | CreatingApi(a: ApiId, api: Api)
    | UpdatingApi(a: ApiId, api: Api)
    | DeletingApi(a: ApiId)
    | CreatingRule(r: RuleId, rule: Rule)
    | UpdatingRule(r: RuleId, rule: Rule, vs: Visits)
    | DeletingRule(r: RuleId)

  function StepConfig(s: State, c: ConfigEdit): State {
    match c
    case CreatingApi(a, api) => CreateApi(s, a, api)
    case UpdatingApi(a, api) => UpdateApi(s, a, api)
    case DeletingApi(a) => DeleteApi(s, a)
    case CreatingRule(r, rule) => CreateRule(s, r, rule)
    case UpdatingRule(r, rule, vs) => UpdateRule(s, r, rule, vs)
    case DeletingRule(r) => DeleteRule(s, r)
  }

  datatype Action = Work(w: WorkerId, step: WorkerStep) | Handle(h: Handler) | Configure(c: ConfigEdit)

  function Step(s: State, a: Action): State {
    match a
    case Work(w, step) => StepWorker(s, w, step)
    case Handle(h) => StepHandler(s, h)
    case Configure(c) => StepConfig(s, c)
  }

  function Run(s: State, actions: seq<Action>): State
    decreases |actions|
  {
    if actions == [] then s else Run(Step(s, actions[0]), actions[1..])
  }
}
