/**
 One visit with its participants, their QR tokens and its event log, and one function per
 transaction that changes them.

 Every transaction changes the rows of one visit, guarded by statuses it reads there, so a visit is a state
 machine of its own. Guards that refuse leave the visit unchanged. That each transaction sees the visit as
 the one before left it is an assumption: most of them lock the rows they depend on, but a check-out
 aggregates the participants without locking the visit first and a reissue reads the visit unlocked.
 */
module VisitModel {
  import opened Wrappers

  type Time = int // microseconds
  const MINUTE: int := 60_000_000

  /** The statuses of visits and of participants share one vocabulary in the schema. */
  datatype Status =
    | Requested | PendingApproval | Approved | Scheduled | Arrived
    | CheckedIn | CheckedOut | Cancelled | Rejected | NoShow

  /** A row of qr_tokens; `rotatedFrom` is the position of the token it replaced. */
  datatype Token = Token(
    version: nat, rotatedFrom: Option<nat>, validFrom: Time, validUntil: Time, used: bool, revoked: bool)

  /** A row of visitor_visits with its tokens in issue order. */
  datatype Participant = Participant(status: Status, tokens: seq<Token>)

  /** A row of visit_events; events without a participant concern the whole visit. */
  datatype Event =
    | LogRequested
    | LogScheduled
    | LogRejected
    | LogCancelled
    | LogCheckedIn(p: nat)
    | LogCheckedOut(p: nat)
    | LogNoShow(p: nat)
    | LogParticipantCancelled(p: nat)
    | LogRegistered(p: nat)

  /** `opening` is the participant status the request was created with, before any event. */
  datatype Visit = Visit(
    status: Status, startAt: Time, endAt: Time, participants: seq<Participant>, opening: Status, events: seq<Event>)

  /** Settings as parsed: minutes may be out of range, single use is the literal "true". */
  datatype Settings = Settings(early: int, late: int, singleUse: bool)

  predicate InRange(minutes: int) {
    0 <= minutes <= 1440
  }

  /** Out-of-range minutes fall back to the shipped default. */
  function Clamp(minutes: int, fallback: int): int {
    if InRange(minutes) then minutes else fallback
  }

  function ClampEarly(cfg: Settings): int { Clamp(cfg.early, 60) }

  function ClampLate(cfg: Settings): int { Clamp(cfg.late, 120) }

  /** qrParticipantStatusTerminal, asked of participants and of visits. */
  predicate Terminal(s: Status) {
    s.CheckedOut? || s.Cancelled? || s.Rejected? || s.NoShow?
  }

  // ---------------------------------------------------------------------------
  // Tokens
  // ---------------------------------------------------------------------------

  function NewToken(tokens: seq<Token>, start: Time, end: Time, cfg: Settings, rotatedFrom: Option<nat>): Token {
    var version :=
      if rotatedFrom.Some? && rotatedFrom.value < |tokens| then tokens[rotatedFrom.value].version + 1 else 1;
    Token(version, rotatedFrom, start - ClampEarly(cfg) * MINUTE, end + ClampLate(cfg) * MINUTE, false, false)
  }

  function RevokeAll(tokens: seq<Token>): seq<Token> {
    seq(|tokens|, i requires 0 <= i < |tokens| => tokens[i].(revoked := true))
  }

  function UseLive(tokens: seq<Token>): seq<Token> {
    seq(|tokens|, i requires 0 <= i < |tokens| => if tokens[i].revoked then tokens[i] else tokens[i].(used := true))
  }

  function MoveLive(tokens: seq<Token>, from: Time, until: Time): seq<Token> {
    seq(|tokens|, i requires 0 <= i < |tokens| =>
      if tokens[i].revoked then tokens[i] else tokens[i].(validFrom := from, validUntil := until))
  }

  /** The newest unrevoked token. */
  function Live(tokens: seq<Token>): Option<nat> {
    if tokens == [] then None
    else if !tokens[|tokens| - 1].revoked then Some(|tokens| - 1)
    else Live(tokens[..|tokens| - 1])
  }

  // ---------------------------------------------------------------------------
  // Participants
  // ---------------------------------------------------------------------------

  function Put(v: Visit, p: nat, row: Participant): Visit
    requires p < |v.participants|
  {
    v.(participants := v.participants[p := row])
  }

  function Log(v: Visit, e: Event): Visit {
    v.(events := v.events + [e])
  }

  function CountNot(ps: seq<Participant>, excluded: set<Status>): nat {
    if ps == [] then 0
    else (if ps[0].status in excluded then 0 else 1) + CountNot(ps[1..], excluded)
  }

  predicate AnyWith(ps: seq<Participant>, statuses: set<Status>) {
    exists i :: 0 <= i < |ps| && ps[i].status in statuses
  }

  /** The CASE expression that recomputes a visit status after a check-out. */
  function Aggregate(ps: seq<Participant>): Status {
    if AnyWith(ps, {CheckedIn}) then CheckedIn
    else if AnyWith(ps, {Scheduled, Arrived}) then Scheduled
    else CheckedOut
  }

  // ---------------------------------------------------------------------------
  // Creation
  // ---------------------------------------------------------------------------

  predicate ScheduleOk(start: Time, end: Time) {
    start < end && end - start <= 31 * 24 * 60 * MINUTE
  }

  /** A walk-in comes from the lobby, which never waits for approval. */
  function FirstParticipant(pending: bool, walkIn: bool, start: Time, end: Time, cfg: Settings): Participant {
    if walkIn then Participant(CheckedIn, UseLive([NewToken([], start, end, cfg, None)]))
    else if pending then Participant(PendingApproval, [])
    else Participant(Scheduled, [NewToken([], start, end, cfg, None)])
  }

  function EntryLog(n: nat): seq<Event> {
    if n == 0 then [] else EntryLog(n - 1) + [LogCheckedIn(n - 1)]
  }

  function Create(n: nat, approvalRequired: bool, walkIn: bool, start: Time, end: Time, cfg: Settings): Visit {
    var pending := approvalRequired && !walkIn;
    var status := if pending then PendingApproval else Scheduled;
    Visit(
      if walkIn then CheckedIn else status, start, end,
      seq(n, _ => FirstParticipant(pending, walkIn, start, end, cfg)),
      status,
      [LogRequested] + if walkIn then EntryLog(n) else [])
  }

  // ---------------------------------------------------------------------------
  // Check-in and check-out
  // ---------------------------------------------------------------------------

  /** What a scan of token `k` of participant `p` has to pass; the dynamic signature is `DynamicQr`. */
  predicate QrAccepts(v: Visit, p: nat, k: nat, now: Time, cfg: Settings) {
    && p < |v.participants| && k < |v.participants[p].tokens|
    && var token := v.participants[p].tokens[k];
    && !token.revoked
    && token.validFrom <= now <= token.validUntil
    && !v.status.Cancelled? && !v.status.Rejected?
    && !Terminal(v.participants[p].status)
    && !(cfg.singleUse && token.used)
  }

  function OpenVisit(v: Visit): Visit {
    if v.status.Scheduled? || v.status.Approved? || v.status.Arrived? then v.(status := CheckedIn) else v
  }

  function CheckIn(v: Visit, p: nat, k: nat, now: Time, cfg: Settings): Visit {
    if !QrAccepts(v, p, k, now, cfg) then v
    else
      var row := v.participants[p];
      var scanned := row.tokens[k := row.tokens[k].(used := true)];
      Log(OpenVisit(Put(v, p, Participant(CheckedIn, scanned))), LogCheckedIn(p))
  }

  predicate ManualAccepts(v: Visit, p: nat, now: Time, cfg: Settings) {
    && p < |v.participants|
    && !v.status.Cancelled? && !v.status.Rejected? && !v.status.PendingApproval?
    && (v.participants[p].status.Scheduled? || v.participants[p].status.Arrived?)
    && v.startAt - cfg.early * MINUTE <= now <= v.endAt + cfg.late * MINUTE
  }

  function ManualCheckIn(v: Visit, p: nat, now: Time, cfg: Settings): Visit {
    if !ManualAccepts(v, p, now, cfg) then v
    else Log(OpenVisit(Put(v, p, Participant(CheckedIn, UseLive(v.participants[p].tokens)))), LogCheckedIn(p))
  }

  function CheckOut(v: Visit, p: nat): Visit {
    if p >= |v.participants| || !v.participants[p].status.CheckedIn? then v
    else
      var left := Put(v, p, v.participants[p].(status := CheckedOut));
      Log(left, LogCheckedOut(p)).(status := Aggregate(left.participants))
  }

  /** Everyone the nightly sweep selects: inside, and past the cutoff hour of the site. */
  function Swept(v: Visit, cutoff: set<nat>): set<nat> {
    set p | p in cutoff && p < |v.participants| && v.participants[p].status.CheckedIn?
  }

  /** One event per swept participant below `n`, in order. */
  function ExitLog(swept: set<nat>, n: nat): seq<Event> {
    if n == 0 then []
    else ExitLog(swept, n - 1) + if n - 1 in swept then [LogCheckedOut(n - 1)] else []
  }

  function MarkAll(ps: seq<Participant>, chosen: set<nat>, status: Status): seq<Participant> {
    seq(|ps|, p requires 0 <= p < |ps| => if p in chosen then ps[p].(status := status) else ps[p])
  }

  function AutoCheckOut(v: Visit, cutoff: set<nat>): Visit {
    var swept := Swept(v, cutoff);
    var ps := MarkAll(v.participants, swept, CheckedOut);
    v.(participants := ps, events := v.events + ExitLog(swept, |v.participants|),
       status := if swept == {} then v.status else Aggregate(ps))
  }

  // ---------------------------------------------------------------------------
  // Cancellation
  // ---------------------------------------------------------------------------

  predicate Cancellable(v: Visit) {
    !v.status.CheckedOut? && !v.status.Cancelled? && !v.status.Rejected?
  }

  function CancelRow(row: Participant): Participant {
    Participant(if row.status.CheckedOut? then CheckedOut else Cancelled, RevokeAll(row.tokens))
  }

  function CancelVisit(v: Visit): Visit {
    if !Cancellable(v) then v
    else
      var ps := seq(|v.participants|, p requires 0 <= p < |v.participants| => CancelRow(v.participants[p]));
      Log(v.(status := Cancelled, participants := ps), LogCancelled)
  }

  predicate ParticipantCancellable(v: Visit, p: nat) {
    && p < |v.participants|
    && !Terminal(v.participants[p].status)
    && !v.participants[p].status.CheckedIn?
    && !Terminal(v.status)
  }

  /** The visit with participant `p` cancelled and logged. */
  function WithoutParticipant(v: Visit, p: nat): Visit
    requires p < |v.participants|
  {
    Log(Put(v, p, Participant(Cancelled, RevokeAll(v.participants[p].tokens))), LogParticipantCancelled(p))
  }

  function CancelParticipant(v: Visit, p: nat): Visit {
    if !ParticipantCancellable(v, p) then v
    else
      var left := WithoutParticipant(v, p);
      if CountNot(left.participants, {Cancelled, Rejected}) == 0 then CancelVisit(left) else left
  }

  // ---------------------------------------------------------------------------
  // Approval, reissue, rescheduling, registration
  // ---------------------------------------------------------------------------

  /** The approval update has no participant guard: everyone in the visit is scheduled and gets a QR. */
  function Approve(v: Visit, cfg: Settings): Visit {
    if !v.status.PendingApproval? then v
    else
      var ps := seq(|v.participants|, p requires 0 <= p < |v.participants| =>
        var tokens := v.participants[p].tokens;
        Participant(Scheduled, tokens + [NewToken(tokens, v.startAt, v.endAt, cfg, None)]));
      Log(v.(status := Scheduled, participants := ps), LogScheduled)
  }

  function Reject(v: Visit): Visit {
    if !v.status.PendingApproval? then v
    else
      var ps := seq(|v.participants|, p requires 0 <= p < |v.participants| => v.participants[p].(status := Rejected));
      Log(v.(status := Rejected, participants := ps), LogRejected)
  }

  predicate Reissuable(v: Visit, p: nat) {
    && p < |v.participants|
    && !Terminal(v.participants[p].status)
    && (v.status.Scheduled? || v.status.Approved?)
  }

  function Reissue(v: Visit, p: nat, cfg: Settings): Visit {
    if !Reissuable(v, p) then v
    else
      var row := v.participants[p];
      var revoked := RevokeAll(row.tokens);
      var issued := NewToken(revoked, v.startAt, v.endAt, cfg, Live(row.tokens));
      Put(v, p, row.(tokens := revoked + [issued]))
  }

  /**
   Rescheduling checks the visit status before its transaction starts and not again inside it, so the
   transaction itself may find the visit in any status. It does not clamp the settings.
   */
  function Reschedule(v: Visit, start: Time, end: Time, cfg: Settings): Visit {
    if !ScheduleOk(start, end) then v
    else
      var from, until := start - cfg.early * MINUTE, end + cfg.late * MINUTE;
      var ps := seq(|v.participants|, p requires 0 <= p < |v.participants| =>
        v.participants[p].(tokens := MoveLive(v.participants[p].tokens, from, until)));
      v.(startAt := start, endAt := end, participants := ps)
  }

  /** Self-registration edits visitor data and only leaves an event. */
  function Register(v: Visit, p: nat): Visit {
    if p < |v.participants| then Log(v, LogRegistered(p)) else v
  }

  // ---------------------------------------------------------------------------
  // Maintenance
  // ---------------------------------------------------------------------------

  /** Past the end of the visit and its late grace. */
  predicate Overdue(v: Visit, now: Time, cfg: Settings) {
    v.endAt + ClampLate(cfg) * MINUTE < now
  }

  /** Everyone still expected after the visit and its late grace are over. */
  function Missed(v: Visit, now: Time, cfg: Settings): set<nat> {
    set p: nat | p < |v.participants| && v.participants[p].status.Scheduled? && Overdue(v, now, cfg)
  }

  function AbsenceLog(missed: set<nat>, n: nat): seq<Event> {
    if n == 0 then []
    else AbsenceLog(missed, n - 1) + if n - 1 in missed then [LogNoShow(n - 1)] else []
  }

  function MarkNoShows(v: Visit, now: Time, cfg: Settings): Visit {
    var missed := Missed(v, now, cfg);
    v.(participants := MarkAll(v.participants, missed, NoShow),
       events := v.events + AbsenceLog(missed, |v.participants|))
  }

  /** A separate statement, so a crash may separate it from the marking. */
  function CloseNoShow(v: Visit): Visit {
    if v.status.Scheduled? && CountNot(v.participants, {NoShow}) == 0 then v.(status := NoShow) else v
  }

  // ---------------------------------------------------------------------------
  // Runs
  // ---------------------------------------------------------------------------

  datatype Action =
    | DoCheckIn(p: nat, k: nat)
    | DoManualCheckIn(p: nat)
    | DoCheckOut(p: nat)
    | DoAutoCheckOut(cutoff: set<nat>)
    | DoCancelVisit
    | DoCancelParticipant(p: nat)
    | DoApprove
    | DoReject
    | DoReissue(p: nat)
    | DoReschedule(start: Time, end: Time)
    | DoRegister(p: nat)
    | DoMarkNoShows
    | DoCloseNoShow

  /** A transaction with the clock and the settings it reads. */
  datatype Call = Call(action: Action, now: Time, cfg: Settings)

  function Step(v: Visit, c: Call): Visit {
    match c.action
    case DoCheckIn(p, k) => CheckIn(v, p, k, c.now, c.cfg)
    case DoManualCheckIn(p) => ManualCheckIn(v, p, c.now, c.cfg)
    case DoCheckOut(p) => CheckOut(v, p)
    case DoAutoCheckOut(cutoff) => AutoCheckOut(v, cutoff)
    case DoCancelVisit => CancelVisit(v)
    case DoCancelParticipant(p) => CancelParticipant(v, p)
    case DoApprove => Approve(v, c.cfg)
    case DoReject => Reject(v)
    case DoReissue(p) => Reissue(v, p, c.cfg)
    case DoReschedule(start, end) => Reschedule(v, start, end, c.cfg)
    case DoRegister(p) => Register(v, p)
    case DoMarkNoShows => MarkNoShows(v, c.now, c.cfg)
    case DoCloseNoShow => CloseNoShow(v)
  }

  function Run(v: Visit, calls: seq<Call>): Visit
    decreases |calls|
  {
    if calls == [] then v else Run(Step(v, calls[0]), calls[1..])
  }

  /** How a visit starts. */
  datatype Request = Request(n: nat, approvalRequired: bool, walkIn: bool, start: Time, end: Time, cfg: Settings)

  predicate RequestOk(r: Request) {
    1 <= r.n <= 100 && ScheduleOk(r.start, r.end)
  }

  function Open(r: Request): Visit {
    Create(r.n, r.approvalRequired, r.walkIn, r.start, r.end, r.cfg)
  }
}
