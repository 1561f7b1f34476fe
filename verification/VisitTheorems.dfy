/**
 The visit life cycle over whole runs: what a visit status says about its participants, the QR chain,
 the event log as a full account of every participant, single entry, and the check-in window.
 */
module VisitTheorems {
  import opened Wrappers
  import opened VisitModel
  import opened VisitInvariants

  // ---------------------------------------------------------------------------
  // Visit status and participants
  // ---------------------------------------------------------------------------

  /** Still expected, or inside. */
  predicate StillOpen(s: Status) {
    s.PendingApproval? || s.Scheduled? || s.Arrived? || s.CheckedIn?
  }

  ghost predicate StatusTells(v: Visit) {
    var ps := v.participants;
    && (v.status.CheckedIn? <==> AnyWith(ps, {CheckedIn}))
    && (v.status.PendingApproval? ==>
          && AnyWith(ps, {PendingApproval})
          && (forall p :: 0 <= p < |ps| ==> ps[p].status in {PendingApproval, Cancelled} && ps[p].tokens == []))
    && (v.status.Cancelled? ==>
          forall p :: 0 <= p < |ps| ==> ps[p].status in {Cancelled, CheckedOut} && AllRevoked(ps[p].tokens))
    && (v.status.Rejected? ==> forall p :: 0 <= p < |ps| ==> ps[p].status.Rejected?)
    && (v.status.CheckedOut? || v.status.NoShow? ==> forall p :: 0 <= p < |ps| ==> !StillOpen(ps[p].status))
    && v.status !in {Requested, Approved, Arrived}
  }

  /** What the visit status tells about the participants, in every reachable state. */
  lemma StatusTellsParticipants(r: Request, calls: seq<Call>)
    requires RequestOk(r)
    ensures StatusTells(Run(Open(r), calls))
  {
    ReachableOk(r, calls);
    InvTells(Run(Open(r), calls));
  }

  lemma InvTells(v: Visit)
    requires Inv(v)
    ensures StatusTells(v)
  {
    assert forall p :: 0 <= p < |v.participants| ==> RowFits(v.status, v.participants[p]);
    RowsAreChained(v);
    assert RowFits(v.status, v.participants[0]);
    if AnyWith(v.participants, {CheckedIn}) {
      var p :| 0 <= p < |v.participants| && v.participants[p].status in {CheckedIn};
      assert RowFits(v.status, v.participants[p]);
    }
  }

  /** At most one QR is unrevoked, and its holder's status says whether there is one. */
  lemma OneLiveQr(r: Request, calls: seq<Call>, p: nat)
    requires RequestOk(r)
    requires p < |Run(Open(r), calls).participants|
    ensures
      var row := Run(Open(r), calls).participants[p];
      && Chain(row.tokens)
      && (forall k :: 0 <= k < |row.tokens| && !row.tokens[k].revoked ==> k == |row.tokens| - 1)
      && (row.status.Scheduled? || row.status.CheckedIn? ==> HasLive(row.tokens))
      && (row.status.Cancelled? ==> !HasLive(row.tokens))
  {
    ReachableOk(r, calls);
    assert RowFits(Run(Open(r), calls).status, Run(Open(r), calls).participants[p]);
  }

  predicate Gone(s: Status) {
    s.CheckedOut? || s.Rejected?
  }

  lemma GoneStays(v: Visit, c: Call, p: nat)
    requires Inv(v) && p < |v.participants| && Gone(v.participants[p].status)
    ensures p < |Step(v, c).participants| && Step(v, c).participants[p].status == v.participants[p].status
  {
    assert RowFits(v.status, v.participants[p]);
    match c.action {
      case DoCheckIn(_, _) =>
      case DoCancelVisit =>
      case DoCancelParticipant(_) =>
      case DoApprove =>
      case DoReject =>
      case _ =>
    }
  }

  /** Nobody who checked out or was rejected ever changes status again. */
  lemma {:induction false} GoneIsForever(v: Visit, calls: seq<Call>, p: nat)
    requires Inv(v) && p < |v.participants| && Gone(v.participants[p].status)
    ensures p < |Run(v, calls).participants| && Run(v, calls).participants[p].status == v.participants[p].status
    decreases |calls|
  {
    if calls != [] {
      GoneStays(v, calls[0], p);
      StepKeepsInv(v, calls[0]);
      GoneIsForever(Step(v, calls[0]), calls[1..], p);
    }
  }

  // ---------------------------------------------------------------------------
  // The event log
  // ---------------------------------------------------------------------------

  /** What one event means for participant `p`. */
  function Apply(before: Status, e: Event, p: nat): Status {
    match e
    case LogRequested => before
    case LogScheduled => Scheduled
    case LogRejected => Rejected
    case LogCancelled => if before.CheckedOut? then CheckedOut else Cancelled
    case LogCheckedIn(q) => if q == p then CheckedIn else before
    case LogCheckedOut(q) => if q == p then CheckedOut else before
    case LogNoShow(q) => if q == p then NoShow else before
    case LogParticipantCancelled(q) => if q == p then Cancelled else before
    case LogRegistered(_) => before
  }

  function Replay(opening: Status, events: seq<Event>, p: nat): Status {
    if events == [] then opening
    else Apply(Replay(opening, events[..|events| - 1], p), events[|events| - 1], p)
  }

  lemma ReplaySnoc(opening: Status, events: seq<Event>, e: Event, p: nat)
    ensures Replay(opening, events + [e], p) == Apply(Replay(opening, events, p), e, p)
  {
    assert (events + [e])[..|events + [e]| - 1] == events;
  }

  ghost predicate Accounted(v: Visit) {
    forall p :: 0 <= p < |v.participants| ==> Replay(v.opening, v.events, p) == v.participants[p].status
  }

  /** Replaying is a fold: what came first only matters through the status it left. */
  lemma {:induction false} ReplayAppend(opening: Status, first: seq<Event>, more: seq<Event>, p: nat)
    ensures Replay(opening, first + more, p) == Replay(Replay(opening, first, p), more, p)
    decreases |more|
  {
    if more == [] {
      assert first + more == first;
    } else {
      var shorter := more[..|more| - 1];
      assert first + more == (first + shorter) + [more[|more| - 1]];
      ReplaySnoc(opening, first + shorter, more[|more| - 1], p);
      ReplayAppend(opening, first, shorter, p);
    }
  }

  lemma {:induction false} ReplayEntries(before: Status, n: nat, p: nat)
    ensures Replay(before, EntryLog(n), p) == if p < n then CheckedIn else before
  {
    if n > 0 {
      ReplayEntries(before, n - 1, p);
      ReplaySnoc(before, EntryLog(n - 1), LogCheckedIn(n - 1), p);
    }
  }

  lemma {:induction false} ReplayExits(before: Status, swept: set<nat>, n: nat, p: nat)
    ensures Replay(before, ExitLog(swept, n), p) == if p < n && p in swept then CheckedOut else before
  {
    if n > 0 {
      ReplayExits(before, swept, n - 1, p);
      ReplaySnoc(before, ExitLog(swept, n - 1), LogCheckedOut(n - 1), p);
      assert n - 1 !in swept ==> ExitLog(swept, n) == ExitLog(swept, n - 1);
    }
  }

  lemma {:induction false} ReplayAbsences(before: Status, missed: set<nat>, n: nat, p: nat)
    ensures Replay(before, AbsenceLog(missed, n), p) == if p < n && p in missed then NoShow else before
  {
    if n > 0 {
      ReplayAbsences(before, missed, n - 1, p);
      ReplaySnoc(before, AbsenceLog(missed, n - 1), LogNoShow(n - 1), p);
      assert n - 1 !in missed ==> AbsenceLog(missed, n) == AbsenceLog(missed, n - 1);
    }
  }

  lemma OpenAccounted(r: Request)
    ensures Accounted(Open(r))
  {
    var v := Open(r);
    forall p | 0 <= p < |v.participants| ensures Replay(v.opening, v.events, p) == v.participants[p].status {
      assert [LogRequested][..0] == [];
      assert Replay(v.opening, [LogRequested], p) == v.opening;
      if r.walkIn {
        ReplayAppend(v.opening, [LogRequested], EntryLog(r.n), p);
        ReplayEntries(v.opening, r.n, p);
      } else {
        assert v.events == [LogRequested];
      }
    }
  }

  /** Transactions that add exactly one event. */
  lemma OneEventAccounted(v: Visit, v': Visit, e: Event)
    requires Accounted(v)
    requires v'.opening == v.opening && |v'.participants| == |v.participants| && v'.events == v.events + [e]
    requires forall p :: 0 <= p < |v.participants| ==>
      v'.participants[p].status == Apply(v.participants[p].status, e, p)
    ensures Accounted(v')
  {
    forall p | 0 <= p < |v'.participants| ensures Replay(v'.opening, v'.events, p) == v'.participants[p].status {
      ReplaySnoc(v.opening, v.events, e, p);
    }
  }

  lemma CancelParticipantAccounted(v: Visit, p: nat)
    requires Accounted(v)
    ensures Accounted(CancelParticipant(v, p))
  {
    if ParticipantCancellable(v, p) {
      var left := WithoutParticipant(v, p);
      OneEventAccounted(v, left, LogParticipantCancelled(p));
      if CountNot(left.participants, {Cancelled, Rejected}) == 0 {
        OneEventAccounted(left, CancelVisit(left), LogCancelled);
      }
    }
  }

  lemma MaintenanceAccounted(v: Visit, cutoff: set<nat>, now: Time, cfg: Settings)
    requires Accounted(v)
    ensures Accounted(AutoCheckOut(v, cutoff))
    ensures Accounted(MarkNoShows(v, now, cfg))
  {
    var n, swept, missed := |v.participants|, Swept(v, cutoff), Missed(v, now, cfg);
    forall p | 0 <= p < n
      ensures Replay(v.opening, AutoCheckOut(v, cutoff).events, p) == AutoCheckOut(v, cutoff).participants[p].status
      ensures Replay(v.opening, MarkNoShows(v, now, cfg).events, p) == MarkNoShows(v, now, cfg).participants[p].status
    {
      ReplayAppend(v.opening, v.events, ExitLog(swept, n), p);
      ReplayExits(v.participants[p].status, swept, n, p);
      ReplayAppend(v.opening, v.events, AbsenceLog(missed, n), p);
      ReplayAbsences(v.participants[p].status, missed, n, p);
    }
  }

  lemma StepAccounted(v: Visit, c: Call)
    requires Accounted(v)
    ensures Accounted(Step(v, c))
  {
    var v' := Step(v, c);
    if v' != v {
      match c.action {
        case DoCheckIn(p, _) => OneEventAccounted(v, v', LogCheckedIn(p));
        case DoManualCheckIn(p) => OneEventAccounted(v, v', LogCheckedIn(p));
        case DoCheckOut(p) => OneEventAccounted(v, v', LogCheckedOut(p));
        case DoAutoCheckOut(cutoff) => MaintenanceAccounted(v, cutoff, c.now, c.cfg);
        case DoCancelVisit => OneEventAccounted(v, v', LogCancelled);
        case DoCancelParticipant(p) => CancelParticipantAccounted(v, p);
        case DoApprove => OneEventAccounted(v, v', LogScheduled);
        case DoReject => OneEventAccounted(v, v', LogRejected);
        case DoReissue(_) =>
        case DoReschedule(_, _) =>
        case DoRegister(p) => OneEventAccounted(v, v', LogRegistered(p));
        case DoMarkNoShows => MaintenanceAccounted(v, {}, c.now, c.cfg);
        case DoCloseNoShow =>
      }
    }
  }

  lemma {:induction false} RunAccounted(v: Visit, calls: seq<Call>)
    requires Accounted(v)
    ensures Accounted(Run(v, calls))
    decreases |calls|
  {
    if calls != [] {
      StepAccounted(v, calls[0]);
      RunAccounted(Step(v, calls[0]), calls[1..]);
    }
  }

  /** Replaying the event log from the opening status gives every participant's present status. */
  lemma LogAccountsForEveryStatus(r: Request, calls: seq<Call>, p: nat)
    requires p < |Run(Open(r), calls).participants|
    ensures
      var v := Run(Open(r), calls);
      Replay(v.opening, v.events, p) == v.participants[p].status
  {
    OpenAccounted(r);
    RunAccounted(Open(r), calls);
  }

  // ---------------------------------------------------------------------------
  // Single entry
  // ---------------------------------------------------------------------------

  /** How often participant `p` was let in. */
  function Entries(events: seq<Event>, p: nat): nat {
    if events == [] then 0
    else Entries(events[..|events| - 1], p) + if events[|events| - 1] == LogCheckedIn(p) then 1 else 0
  }

  lemma {:induction false} EntriesAdd(events: seq<Event>, more: seq<Event>, p: nat)
    ensures Entries(events + more, p) == Entries(events, p) + Entries(more, p)
    decreases |more|
  {
    if more == [] {
      assert events + more == events;
    } else {
      var all := events + more;
      assert all[..|all| - 1] == events + more[..|more| - 1];
      assert all[|all| - 1] == more[|more| - 1];
      EntriesAdd(events, more[..|more| - 1], p);
    }
  }

  lemma {:induction false} NoEntries(events: seq<Event>, p: nat)
    requires LogCheckedIn(p) !in events
    ensures Entries(events, p) == 0
  {
    if events != [] {
      NoEntries(events[..|events| - 1], p);
    }
  }

  lemma {:induction false} EntryLogEntries(n: nat, p: nat)
    ensures Entries(EntryLog(n), p) == if p < n then 1 else 0
  {
    if n > 0 {
      EntryLogEntries(n - 1, p);
      assert EntryLog(n)[..|EntryLog(n - 1)|] == EntryLog(n - 1);
    }
  }

  lemma {:induction false} LogsHaveNoEntry(chosen: set<nat>, n: nat, p: nat)
    ensures LogCheckedIn(p) !in ExitLog(chosen, n)
    ensures LogCheckedIn(p) !in AbsenceLog(chosen, n)
  {
    if n > 0 {
      LogsHaveNoEntry(chosen, n - 1, p);
    }
  }

  /** Nobody still expected, and nobody in a visit awaiting approval, has been let in yet. */
  predicate NotYet(v: Visit, p: nat)
    requires p < |v.participants|
  {
    v.status.PendingApproval? || v.participants[p].status.Scheduled?
  }

  ghost predicate EntersOnce(v: Visit) {
    forall p :: 0 <= p < |v.participants| ==>
      Entries(v.events, p) <= 1 && (NotYet(v, p) ==> Entries(v.events, p) == 0)
  }

  lemma OpenEntersOnce(r: Request)
    ensures EntersOnce(Open(r))
  {
    var v := Open(r);
    forall p | 0 <= p < |v.participants|
      ensures Entries(v.events, p) <= 1 && (NotYet(v, p) ==> Entries(v.events, p) == 0)
    {
      NoEntries([LogRequested], p);
      if r.walkIn {
        EntriesAdd([LogRequested], EntryLog(r.n), p);
        EntryLogEntries(r.n, p);
      } else {
        assert v.events == [LogRequested];
      }
    }
  }

  /** A transaction that lets nobody in and makes nobody newly expected. */
  lemma QuietKeepsOnce(v: Visit, v': Visit, more: seq<Event>)
    requires EntersOnce(v)
    requires v'.events == v.events + more && |v'.participants| == |v.participants|
    requires forall p :: 0 <= p < |v.participants| ==> LogCheckedIn(p) !in more
    requires forall p :: 0 <= p < |v.participants| ==> NotYet(v', p) ==> NotYet(v, p)
    ensures EntersOnce(v')
  {
    forall p | 0 <= p < |v'.participants|
      ensures Entries(v'.events, p) <= 1 && (NotYet(v', p) ==> Entries(v'.events, p) == 0)
    {
      EntriesAdd(v.events, more, p);
      NoEntries(more, p);
    }
  }

  lemma EntryKeepsOnce(v: Visit, v': Visit, p: nat)
    requires EntersOnce(v) && p < |v.participants| && NotYet(v, p)
    requires v'.events == v.events + [LogCheckedIn(p)] && |v'.participants| == |v.participants|
    requires !NotYet(v', p)
    requires forall q :: 0 <= q < |v.participants| ==> NotYet(v', q) ==> NotYet(v, q)
    ensures EntersOnce(v')
  {
    forall q | 0 <= q < |v'.participants|
      ensures Entries(v'.events, q) <= 1 && (NotYet(v', q) ==> Entries(v'.events, q) == 0)
    {
      EntriesAdd(v.events, [LogCheckedIn(p)], q);
      assert [LogCheckedIn(p)][..0] == [];
    }
  }

  /** With single use on, only somebody who is still expected passes a scan. */
  lemma ScanNeedsExpected(v: Visit, p: nat, k: nat, now: Time, cfg: Settings)
    requires Inv(v) && cfg.singleUse && QrAccepts(v, p, k, now, cfg)
    ensures v.participants[p].status.Scheduled? && !v.status.PendingApproval?
  {
    assert RowFits(v.status, v.participants[p]);
  }

  lemma ScanKeepsOnce(v: Visit, p: nat, k: nat, now: Time, cfg: Settings)
    requires Inv(v) && EntersOnce(v) && cfg.singleUse
    ensures EntersOnce(CheckIn(v, p, k, now, cfg))
  {
    if QrAccepts(v, p, k, now, cfg) {
      ScanNeedsExpected(v, p, k, now, cfg);
      EntryKeepsOnce(v, CheckIn(v, p, k, now, cfg), p);
    }
  }

  lemma ManualKeepsOnce(v: Visit, p: nat, now: Time, cfg: Settings)
    requires Inv(v) && EntersOnce(v)
    ensures EntersOnce(ManualCheckIn(v, p, now, cfg))
  {
    if ManualAccepts(v, p, now, cfg) {
      assert RowFits(v.status, v.participants[p]);
      EntryKeepsOnce(v, ManualCheckIn(v, p, now, cfg), p);
    }
  }

  lemma MaintenanceKeepsOnce(v: Visit, cutoff: set<nat>, now: Time, cfg: Settings)
    requires EntersOnce(v)
    ensures EntersOnce(AutoCheckOut(v, cutoff))
    ensures EntersOnce(MarkNoShows(v, now, cfg))
  {
    var swept, missed := Swept(v, cutoff), Missed(v, now, cfg);
    forall p | 0 <= p < |v.participants|
      ensures LogCheckedIn(p) !in ExitLog(swept, |v.participants|)
      ensures LogCheckedIn(p) !in AbsenceLog(missed, |v.participants|)
    {
      LogsHaveNoEntry(swept, |v.participants|, p);
      LogsHaveNoEntry(missed, |v.participants|, p);
    }
    QuietKeepsOnce(v, AutoCheckOut(v, cutoff), ExitLog(swept, |v.participants|));
    QuietKeepsOnce(v, MarkNoShows(v, now, cfg), AbsenceLog(missed, |v.participants|));
  }

  lemma StepEntersOnce(v: Visit, c: Call)
    requires Inv(v) && EntersOnce(v) && c.cfg.singleUse
    ensures EntersOnce(Step(v, c))
  {
    match c.action {
      case DoCheckIn(p, k) => ScanKeepsOnce(v, p, k, c.now, c.cfg);
      case DoManualCheckIn(p) => ManualKeepsOnce(v, p, c.now, c.cfg);
      case DoAutoCheckOut(cutoff) => MaintenanceKeepsOnce(v, cutoff, c.now, c.cfg);
      case DoCancelParticipant(p) => CancelParticipantKeepsOnce(v, p);
      case DoMarkNoShows => MaintenanceKeepsOnce(v, {}, c.now, c.cfg);
      case _ => OthersKeepOnce(v, c);
    }
  }

  /** The transactions that add one event about nobody's entry, or none. */
  lemma OthersKeepOnce(v: Visit, c: Call)
    requires EntersOnce(v)
    requires !c.action.DoCheckIn? && !c.action.DoManualCheckIn? && !c.action.DoAutoCheckOut?
    requires !c.action.DoCancelParticipant? && !c.action.DoMarkNoShows?
    ensures EntersOnce(Step(v, c))
  {
    var v' := Step(v, c);
    if v'.events == v.events {
      QuietKeepsOnce(v, v', []);
    } else {
      QuietKeepsOnce(v, v', [v'.events[|v.events|]]);
    }
  }

  lemma CancelParticipantKeepsOnce(v: Visit, p: nat)
    requires EntersOnce(v)
    ensures EntersOnce(CancelParticipant(v, p))
  {
    if ParticipantCancellable(v, p) {
      var left := WithoutParticipant(v, p);
      QuietKeepsOnce(v, left, [LogParticipantCancelled(p)]);
      if CountNot(left.participants, {Cancelled, Rejected}) == 0 {
        QuietKeepsOnce(left, CancelVisit(left), [LogCancelled]);
      }
    }
  }

  lemma {:induction false} RunEntersOnce(v: Visit, calls: seq<Call>)
    requires Inv(v) && EntersOnce(v)
    requires forall i :: 0 <= i < |calls| ==> calls[i].cfg.singleUse
    ensures EntersOnce(Run(v, calls))
    decreases |calls|
  {
    if calls != [] {
      StepKeepsInv(v, calls[0]);
      StepEntersOnce(v, calls[0]);
      RunEntersOnce(Step(v, calls[0]), calls[1..]);
    }
  }

  /** With single use on throughout, nobody is let in twice: by scan, by hand or as a walk-in. */
  lemma NobodyEntersTwice(r: Request, calls: seq<Call>, p: nat)
    requires RequestOk(r)
    requires forall i :: 0 <= i < |calls| ==> calls[i].cfg.singleUse
    requires p < |Run(Open(r), calls).participants|
    ensures Entries(Run(Open(r), calls).events, p) <= 1
  {
    OpenOk(r);
    OpenEntersOnce(r);
    RunEntersOnce(Open(r), calls);
  }

  // ---------------------------------------------------------------------------
  // The check-in window
  // ---------------------------------------------------------------------------

  predicate Sane(cfg: Settings) {
    InRange(cfg.early) && InRange(cfg.late)
  }

  predicate OpensAt(v: Visit, token: Token, cfg: Settings) {
    token.validFrom == v.startAt - cfg.early * MINUTE && token.validUntil == v.endAt + cfg.late * MINUTE
  }

  /** Every live QR is valid from early minutes before the visit to late minutes after it. */
  ghost predicate WindowsFollow(v: Visit, cfg: Settings) {
    forall p, k :: 0 <= p < |v.participants| && 0 <= k < |v.participants[p].tokens|
                   && !v.participants[p].tokens[k].revoked ==>
      OpensAt(v, v.participants[p].tokens[k], cfg)
  }

  /** The same tokens with the same windows, some of them perhaps used or revoked by now. */
  ghost predicate SameWindows(tokens: seq<Token>, tokens': seq<Token>) {
    && |tokens'| == |tokens|
    && forall k :: 0 <= k < |tokens| && !tokens'[k].revoked ==>
         tokens'[k] == tokens[k].(used := tokens'[k].used)
  }

  ghost predicate SameWindowsIn(v: Visit, v': Visit) {
    && v'.startAt == v.startAt && v'.endAt == v.endAt && |v'.participants| == |v.participants|
    && forall p :: 0 <= p < |v.participants| ==> SameWindows(v.participants[p].tokens, v'.participants[p].tokens)
  }

  lemma SameWindowsFollow(v: Visit, v': Visit, cfg: Settings)
    requires WindowsFollow(v, cfg) && SameWindowsIn(v, v')
    ensures WindowsFollow(v', cfg)
  {
    forall p, k | 0 <= p < |v'.participants| && 0 <= k < |v'.participants[p].tokens|
                  && !v'.participants[p].tokens[k].revoked
      ensures OpensAt(v', v'.participants[p].tokens[k], cfg)
    {
      assert SameWindows(v.participants[p].tokens, v'.participants[p].tokens);
      assert OpensAt(v, v.participants[p].tokens[k], cfg);
    }
  }

  /** Transactions that neither issue nor move a QR. */
  lemma QuietKeepsWindows(v: Visit, c: Call)
    requires !c.action.DoApprove? && !c.action.DoReissue? && !c.action.DoReschedule?
    ensures SameWindowsIn(v, Step(v, c))
  {
    match c.action {
      case DoCheckIn(p, k) =>
      case DoManualCheckIn(p) =>
      case DoCheckOut(p) =>
      case DoCancelVisit =>
      case DoCancelParticipant(p) => CancelKeepsWindows(v, p);
      case _ =>
    }
  }

  lemma CancelKeepsWindows(v: Visit, p: nat)
    ensures SameWindowsIn(v, CancelParticipant(v, p))
  {
    if ParticipantCancellable(v, p) {
      var left := WithoutParticipant(v, p);
      assert SameWindowsIn(v, left);
    }
  }

  lemma ApproveKeepsWindows(v: Visit, cfg: Settings)
    requires WindowsFollow(v, cfg) && Sane(cfg)
    ensures WindowsFollow(Approve(v, cfg), cfg)
  {
  }

  lemma ReissueKeepsWindows(v: Visit, p: nat, cfg: Settings)
    requires WindowsFollow(v, cfg) && Sane(cfg)
    ensures WindowsFollow(Reissue(v, p, cfg), cfg)
  {
  }

  lemma RescheduleKeepsWindows(v: Visit, start: Time, end: Time, cfg: Settings)
    requires WindowsFollow(v, cfg)
    ensures WindowsFollow(Reschedule(v, start, end, cfg), cfg)
  {
  }

  lemma StepKeepsWindows(v: Visit, c: Call)
    requires WindowsFollow(v, c.cfg) && Sane(c.cfg)
    ensures WindowsFollow(Step(v, c), c.cfg)
  {
    match c.action {
      case DoApprove => ApproveKeepsWindows(v, c.cfg);
      case DoReissue(p) => ReissueKeepsWindows(v, p, c.cfg);
      case DoReschedule(start, end) => RescheduleKeepsWindows(v, start, end, c.cfg);
      case _ =>
        QuietKeepsWindows(v, c);
        SameWindowsFollow(v, Step(v, c), c.cfg);
    }
  }

  lemma {:induction false} RunKeepsWindows(v: Visit, calls: seq<Call>, cfg: Settings)
    requires WindowsFollow(v, cfg) && Sane(cfg)
    requires forall i :: 0 <= i < |calls| ==> calls[i].cfg == cfg
    ensures WindowsFollow(Run(v, calls), cfg)
    decreases |calls|
  {
    if calls != [] {
      StepKeepsWindows(v, calls[0]);
      RunKeepsWindows(Step(v, calls[0]), calls[1..], cfg);
    }
  }

  ghost predicate FixedSettings(r: Request, calls: seq<Call>, cfg: Settings) {
    r.cfg == cfg && forall i :: 0 <= i < |calls| ==> calls[i].cfg == cfg
  }

  lemma WindowsAlwaysFollow(r: Request, calls: seq<Call>, cfg: Settings)
    requires FixedSettings(r, calls, cfg) && Sane(cfg)
    ensures WindowsFollow(Run(Open(r), calls), cfg)
  {
    RunKeepsWindows(Open(r), calls, cfg);
  }

  /**
   With settings that stay fixed and in range, staff may let an expected visitor in by hand at exactly
   the moments that visitor's own QR would be accepted.
   */
  lemma ManualEqualsScan(r: Request, calls: seq<Call>, cfg: Settings, p: nat, now: Time)
    requires RequestOk(r) && FixedSettings(r, calls, cfg) && Sane(cfg)
    requires p < |Run(Open(r), calls).participants|
    requires Run(Open(r), calls).participants[p].status.Scheduled?
    ensures
      var v := Run(Open(r), calls);
      && HasLive(v.participants[p].tokens)
      && (ManualAccepts(v, p, now, cfg) <==> QrAccepts(v, p, |v.participants[p].tokens| - 1, now, cfg))
  {
    ReachableOk(r, calls);
    WindowsAlwaysFollow(r, calls, cfg);
    var v := Run(Open(r), calls);
    assert RowFits(v.status, v.participants[p]);
    assert OpensAt(v, v.participants[p].tokens[|v.participants[p].tokens| - 1], cfg);
  }

  /** Maintenance marks an expected visitor absent exactly when that visitor's QR has expired. */
  lemma NoShowMeansExpired(r: Request, calls: seq<Call>, cfg: Settings, p: nat, now: Time)
    requires RequestOk(r) && FixedSettings(r, calls, cfg) && Sane(cfg)
    requires p < |Run(Open(r), calls).participants|
    requires Run(Open(r), calls).participants[p].status.Scheduled?
    ensures
      var v := Run(Open(r), calls);
      var tokens := v.participants[p].tokens;
      && HasLive(tokens)
      && (MarkNoShows(v, now, cfg).participants[p].status.NoShow? <==> tokens[|tokens| - 1].validUntil < now)
  {
    ReachableOk(r, calls);
    WindowsAlwaysFollow(r, calls, cfg);
    var v := Run(Open(r), calls);
    assert RowFits(v.status, v.participants[p]);
    assert OpensAt(v, v.participants[p].tokens[|v.participants[p].tokens| - 1], cfg);
  }

  /**
   Issuing clamps the settings, checking in by hand does not: right after a reissue the two agree about
   every moment if and only if both settings are in range.
   */
  lemma ManualAgreesIffInRange(v: Visit, p: nat, cfg: Settings)
    requires Inv(v) && Reissuable(v, p) && v.startAt < v.endAt
    ensures
      var w := Reissue(v, p, cfg);
      (forall now :: ManualAccepts(w, p, now, cfg) <==> QrAccepts(w, p, |w.participants[p].tokens| - 1, now, cfg))
      <==> Sane(cfg)
  {
    var w := Reissue(v, p, cfg);
    var k := |w.participants[p].tokens| - 1;
    assert RowFits(v.status, v.participants[p]);
    assert w.participants[p].status.Scheduled? && w.status.Scheduled?;
    var tokens := v.participants[p].tokens;
    assert w.participants[p].tokens[k] == NewToken(RevokeAll(tokens), v.startAt, v.endAt, cfg, Live(tokens));
    var from, until := w.startAt - ClampEarly(cfg) * MINUTE, w.endAt + ClampLate(cfg) * MINUTE;
    assert forall now :: QrAccepts(w, p, k, now, cfg) <==> from <= now <= until;
    if !Sane(cfg) {
      WindowsDiffer(w, p, cfg, from, until);
    }
  }

  /** Two windows that disagree at one end disagree about some moment. */
  lemma WindowsDiffer(w: Visit, p: nat, cfg: Settings, from: Time, until: Time)
    requires p < |w.participants| && w.participants[p].status.Scheduled? && w.status.Scheduled?
    requires from <= until
    requires from == w.startAt - ClampEarly(cfg) * MINUTE && until == w.endAt + ClampLate(cfg) * MINUTE
    requires !Sane(cfg)
    ensures exists now :: ManualAccepts(w, p, now, cfg) != (from <= now <= until)
  {
    var a, b := w.startAt - cfg.early * MINUTE, w.endAt + cfg.late * MINUTE;
    var now := if a != from then (if a < from && a <= b then a else from) else if b < until then until else b;
    if a != from && a < from && a <= b {
      assert ManualAccepts(w, p, a, cfg) && !(from <= a);
    } else if a != from {
      assert !ManualAccepts(w, p, from, cfg) && from <= from <= until;
    } else {
      assert b != until;
      assert ManualAccepts(w, p, now, cfg) != (from <= now <= until);
    }
  }
}
