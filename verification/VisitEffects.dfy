/**
 What each transaction does to a visit, written out over the columns the way its statements are: which rows,
 which columns, which values. No description here is stated through the transaction it describes; each lemma
 ties the two together.
 */
module VisitEffects {
  import opened Wrappers
  import opened VisitModel
  import opened VisitInvariants

  // ---------------------------------------------------------------------------
  // Tokens and logs
  // ---------------------------------------------------------------------------

  /** Minutes out of range count as an hour before the visit. */
  function EarlyMinutes(cfg: Settings): int {
    if 0 <= cfg.early <= 1440 then cfg.early else 60
  }

  /** Minutes out of range count as two hours after it. */
  function LateMinutes(cfg: Settings): int {
    if 0 <= cfg.late <= 1440 then cfg.late else 120
  }

  /** A fresh QR for the visit as scheduled. */
  predicate IsNewToken(t: Token, start: Time, end: Time, cfg: Settings, version: nat, rotatedFrom: Option<nat>) {
    t == Token(version, rotatedFrom, start - EarlyMinutes(cfg) * MINUTE, end + LateMinutes(cfg) * MINUTE, false, false)
  }

  ghost predicate Revoked(ts: seq<Token>, ts': seq<Token>) {
    |ts'| == |ts| && forall k :: 0 <= k < |ts| ==> ts'[k] == ts[k].(revoked := true)
  }

  /** Only what is not revoked is touched. */
  ghost predicate LiveUsed(ts: seq<Token>, ts': seq<Token>) {
    |ts'| == |ts| && forall k :: 0 <= k < |ts| ==> ts'[k] == if ts[k].revoked then ts[k] else ts[k].(used := true)
  }

  ghost predicate LiveMoved(ts: seq<Token>, ts': seq<Token>, from: Time, until: Time) {
    && |ts'| == |ts|
    && forall k :: 0 <= k < |ts| ==>
         ts'[k] == if ts[k].revoked then ts[k] else ts[k].(validFrom := from, validUntil := until)
  }

  /** The newest token that is not revoked. */
  ghost predicate IsNewestLive(ts: seq<Token>, k: Option<nat>) {
    if k.None? then forall i :: 0 <= i < |ts| ==> ts[i].revoked
    else k.value < |ts| && !ts[k.value].revoked && forall i :: k.value < i < |ts| ==> ts[i].revoked
  }

  /** One exit for each of them, in their order, and no other event. */
  ghost predicate ExitsOf(added: seq<Event>, left: set<nat>) {
    && (forall i :: 0 <= i < |added| ==> added[i].LogCheckedOut? && added[i].p in left)
    && (forall i, j :: 0 <= i < j < |added| ==> added[i].p < added[j].p)
    && (forall p :: p in left ==> LogCheckedOut(p) in added)
  }

  /** One absence for each of them, in their order, and no other event. */
  ghost predicate AbsencesOf(added: seq<Event>, absent: set<nat>) {
    && (forall i :: 0 <= i < |added| ==> added[i].LogNoShow? && added[i].p in absent)
    && (forall i, j :: 0 <= i < j < |added| ==> added[i].p < added[j].p)
    && (forall p :: p in absent ==> LogNoShow(p) in added)
  }

  lemma OneMoreExit(added: seq<Event>, left: set<nat>, n: nat)
    requires ExitsOf(added, left) && (forall p :: p in left ==> p < n)
    ensures ExitsOf(added + [LogCheckedOut(n)], left + {n})
  {
    var more := added + [LogCheckedOut(n)];
    assert more[|added|] == LogCheckedOut(n);
    forall p | p in left ensures LogCheckedOut(p) in more {
      assert LogCheckedOut(p) in added;
    }
  }

  lemma OneMoreAbsence(added: seq<Event>, absent: set<nat>, n: nat)
    requires AbsencesOf(added, absent) && (forall p :: p in absent ==> p < n)
    ensures AbsencesOf(added + [LogNoShow(n)], absent + {n})
  {
    var more := added + [LogNoShow(n)];
    assert more[|added|] == LogNoShow(n);
    forall p | p in absent ensures LogNoShow(p) in more {
      assert LogNoShow(p) in added;
    }
  }

  function Below(chosen: set<nat>, n: nat): set<nat> {
    set p | p in chosen && p < n
  }

  lemma BelowGrows(chosen: set<nat>, n: nat)
    ensures Below(chosen, n + 1) == if n in chosen then Below(chosen, n) + {n} else Below(chosen, n)
  {
  }

  lemma {:induction false} ExitsInOrder(chosen: set<nat>, n: nat)
    ensures ExitsOf(ExitLog(chosen, n), Below(chosen, n))
  {
    if n > 0 {
      ExitsInOrder(chosen, n - 1);
      BelowGrows(chosen, n - 1);
      var before := ExitLog(chosen, n - 1);
      assert ExitLog(chosen, n) == if n - 1 in chosen then before + [LogCheckedOut(n - 1)] else before;
      OneMoreExit(before, Below(chosen, n - 1), n - 1);
    }
  }

  lemma {:induction false} AbsencesInOrder(chosen: set<nat>, n: nat)
    ensures AbsencesOf(AbsenceLog(chosen, n), Below(chosen, n))
  {
    if n > 0 {
      AbsencesInOrder(chosen, n - 1);
      BelowGrows(chosen, n - 1);
      var before := AbsenceLog(chosen, n - 1);
      assert AbsenceLog(chosen, n) == if n - 1 in chosen then before + [LogNoShow(n - 1)] else before;
      OneMoreAbsence(before, Below(chosen, n - 1), n - 1);
    }
  }

  /** Participant `p` is the only one who changed. */
  ghost predicate OnlyChanged(v: Visit, v': Visit, p: nat) {
    && p < |v.participants| && |v'.participants| == |v.participants|
    && forall q :: 0 <= q < |v.participants| && q != p ==> v'.participants[q] == v.participants[q]
  }

  // ---------------------------------------------------------------------------
  // Creation
  // ---------------------------------------------------------------------------

  /** A walk-in is inside with a used QR, a visit to be approved has no QR yet, any other has an unused one. */
  ghost predicate IsOpened(r: Request, v: Visit) {
    && |v.participants| == r.n && v.startAt == r.start && v.endAt == r.end
    && v.status == (if r.walkIn then CheckedIn else if r.approvalRequired then PendingApproval else Scheduled)
    && v.opening == (if !r.walkIn && r.approvalRequired then PendingApproval else Scheduled)
    && (forall p :: 0 <= p < r.n ==>
          && v.participants[p].status == v.status
          && var tokens := v.participants[p].tokens;
          if v.status.PendingApproval? then tokens == []
          else |tokens| == 1 && IsNewToken(tokens[0].(used := false), r.start, r.end, r.cfg, 1, None)
               && tokens[0].used == r.walkIn)
    && |v.events| == (if r.walkIn then r.n + 1 else 1) && v.events[0] == LogRequested
    && forall p :: 0 <= p < |v.events| - 1 ==> v.events[p + 1] == LogCheckedIn(p)
  }

  lemma {:induction false} EntryLogAt(n: nat)
    ensures |EntryLog(n)| == n && forall p :: 0 <= p < n ==> EntryLog(n)[p] == LogCheckedIn(p)
  {
    if n > 0 {
      EntryLogAt(n - 1);
    }
  }

  lemma OpenEffect(r: Request)
    ensures IsOpened(r, Open(r))
  {
    EntryLogAt(r.n);
  }

  // ---------------------------------------------------------------------------
  // Check-in and check-out
  // ---------------------------------------------------------------------------

  lemma ScanMeans(v: Visit, p: nat, k: nat, now: Time, cfg: Settings)
    ensures QrAccepts(v, p, k, now, cfg) <==>
            && p < |v.participants| && k < |v.participants[p].tokens|
            && var t := v.participants[p].tokens[k];
            && !t.revoked && t.validFrom <= now && now <= t.validUntil && (cfg.singleUse ==> !t.used)
            && v.status !in {Cancelled, Rejected}
            && v.participants[p].status !in {CheckedOut, Cancelled, Rejected, NoShow}
  {
  }

  lemma ManualMeans(v: Visit, p: nat, now: Time, cfg: Settings)
    ensures ManualAccepts(v, p, now, cfg) <==>
            && p < |v.participants| && v.participants[p].status in {Scheduled, Arrived}
            && v.status !in {Cancelled, Rejected, PendingApproval}
            && v.startAt <= now + cfg.early * MINUTE && now <= v.endAt + cfg.late * MINUTE
  {
  }

  /** Participant `p` is inside and logged, and an open visit is CHECKED_IN. */
  ghost predicate IsEntered(v: Visit, v': Visit, p: nat) {
    && OnlyChanged(v, v', p) && v'.participants[p].status.CheckedIn?
    && v' == v.(participants := v'.participants, events := v.events + [LogCheckedIn(p)],
                status := if v.status in {Scheduled, Approved, Arrived} then CheckedIn else v.status)
  }

  lemma CheckInEffect(v: Visit, p: nat, k: nat, now: Time, cfg: Settings)
    requires QrAccepts(v, p, k, now, cfg)
    ensures
      var v' := CheckIn(v, p, k, now, cfg);
      && IsEntered(v, v', p)
      && var tokens := v.participants[p].tokens;
      v'.participants[p].tokens == tokens[k := tokens[k].(used := true)]
  {
  }

  lemma ManualCheckInEffect(v: Visit, p: nat, now: Time, cfg: Settings)
    requires ManualAccepts(v, p, now, cfg)
    ensures
      var v' := ManualCheckIn(v, p, now, cfg);
      IsEntered(v, v', p) && LiveUsed(v.participants[p].tokens, v'.participants[p].tokens)
  {
  }

  ghost predicate Somebody(ps: seq<Participant>, statuses: set<Status>) {
    exists p :: 0 <= p < |ps| && ps[p].status in statuses
  }

  /** Somebody inside, else somebody expected, else everybody has left. */
  ghost predicate IsAggregate(status: Status, ps: seq<Participant>) {
    status == if Somebody(ps, {CheckedIn}) then CheckedIn
              else if Somebody(ps, {Scheduled, Arrived}) then Scheduled
              else CheckedOut
  }

  ghost predicate IsExited(v: Visit, v': Visit, p: nat) {
    && OnlyChanged(v, v', p) && v'.participants[p] == v.participants[p].(status := CheckedOut)
    && v' == v.(participants := v'.participants, events := v.events + [LogCheckedOut(p)], status := v'.status)
    && IsAggregate(v'.status, v'.participants)
  }

  lemma CheckOutEffect(v: Visit, p: nat)
    requires p < |v.participants| && v.participants[p].status.CheckedIn?
    ensures IsExited(v, CheckOut(v, p), p)
  {
  }

  /** Inside although the cutoff hour of the site has come. */
  predicate Overstays(v: Visit, p: nat, cutoff: set<nat>) {
    p < |v.participants| && v.participants[p].status.CheckedIn? && p in cutoff
  }

  /** Exactly those have left, each with one exit in the log; the status is recomputed only if there are any. */
  ghost predicate IsSwept(v: Visit, v': Visit, cutoff: set<nat>) {
    && |v'.participants| == |v.participants|
    && v' == v.(participants := v'.participants, events := v'.events, status := v'.status)
    && (forall p :: 0 <= p < |v.participants| ==>
          v'.participants[p] == if Overstays(v, p, cutoff) then v.participants[p].(status := CheckedOut)
                                else v.participants[p])
    && v.events <= v'.events
    && ExitsOf(v'.events[|v.events|..], set p: nat | p < |v.participants| && Overstays(v, p, cutoff))
    && (if exists p :: 0 <= p < |v.participants| && Overstays(v, p, cutoff)
        then IsAggregate(v'.status, v'.participants) else v'.status == v.status)
  }

  lemma AutoCheckOutEffect(v: Visit, cutoff: set<nat>)
    ensures IsSwept(v, AutoCheckOut(v, cutoff), cutoff)
  {
    var n, swept := |v.participants|, Swept(v, cutoff);
    var v' := AutoCheckOut(v, cutoff);
    ExitsInOrder(swept, n);
    assert Below(swept, n) == (set p: nat | p < n && Overstays(v, p, cutoff));
    assert v'.events[|v.events|..] == ExitLog(swept, n);
    if p :| 0 <= p < n && Overstays(v, p, cutoff) {
      assert p in swept;
    }
  }

  // ---------------------------------------------------------------------------
  // Cancellation
  // ---------------------------------------------------------------------------

  /** Everybody who has not left is cancelled, and no QR is valid any more. */
  ghost predicate IsCancelled(v: Visit, v': Visit) {
    && |v'.participants| == |v.participants|
    && v' == v.(status := Cancelled, participants := v'.participants, events := v.events + [LogCancelled])
    && forall p :: 0 <= p < |v.participants| ==>
         && v'.participants[p].status == (if v.participants[p].status.CheckedOut? then CheckedOut else Cancelled)
         && Revoked(v.participants[p].tokens, v'.participants[p].tokens)
  }

  lemma CancelVisitEffect(v: Visit)
    ensures if v.status in {CheckedOut, Cancelled, Rejected} then CancelVisit(v) == v
            else IsCancelled(v, CancelVisit(v))
  {
  }

  /** One participant is cancelled, their QR revoked. */
  ghost predicate HasLeft(v: Visit, v': Visit, p: nat) {
    && OnlyChanged(v, v', p) && v'.participants[p].status.Cancelled?
    && Revoked(v.participants[p].tokens, v'.participants[p].tokens)
    && v' == v.(participants := v'.participants, events := v.events + [LogParticipantCancelled(p)])
  }

  /** Neither inside nor done, in a visit that is not done. */
  predicate MayLeave(v: Visit, p: nat) {
    && p < |v.participants| && v.status !in {CheckedOut, Cancelled, Rejected, NoShow}
    && v.participants[p].status !in {CheckedIn, CheckedOut, Cancelled, Rejected, NoShow}
  }

  /** The count in the answer: everybody who is not in one of the statuses. */
  function Remaining(ps: seq<Participant>, excluded: set<Status>): set<nat> {
    set p: nat | p < |ps| && ps[p].status !in excluded
  }

  function Moved(a: set<nat>): set<nat> {
    set p | p in a :: p + 1
  }

  lemma {:induction false} MovedSize(a: set<nat>)
    ensures |Moved(a)| == |a| && 0 !in Moved(a)
  {
    if a != {} {
      var p :| p in a;
      MovedSize(a - {p});
      forall q | q in Moved(a) ensures q in Moved(a - {p}) + {p + 1} {
        assert q - 1 == p || q - 1 in a - {p};
      }
      assert Moved(a) == Moved(a - {p}) + {p + 1};
    }
  }

  lemma RemainingSplits(ps: seq<Participant>, excluded: set<Status>)
    requires ps != []
    ensures Remaining(ps, excluded) ==
            (if ps[0].status in excluded then {} else {0}) + Moved(Remaining(ps[1..], excluded))
  {
    forall p | p in Remaining(ps, excluded) && p > 0 ensures p in Moved(Remaining(ps[1..], excluded)) {
      assert ps[1..][p - 1] == ps[p] && p - 1 in Remaining(ps[1..], excluded);
    }
  }

  lemma {:induction false} CountIsNumber(ps: seq<Participant>, excluded: set<Status>)
    ensures CountNot(ps, excluded) == |Remaining(ps, excluded)|
  {
    if ps == [] {
      assert Remaining(ps, excluded) == {};
    } else {
      CountIsNumber(ps[1..], excluded);
      RemainingSplits(ps, excluded);
      MovedSize(Remaining(ps[1..], excluded));
    }
  }

  /** The visit goes with its last participant, if everybody else was cancelled or rejected. */
  lemma CancelParticipantEffect(v: Visit, p: nat) returns (left: Visit)
    ensures !MayLeave(v, p) ==> CancelParticipant(v, p) == v
    ensures MayLeave(v, p) ==>
              && HasLeft(v, left, p)
              && if forall q :: 0 <= q < |v.participants| && q != p ==>
                          v.participants[q].status in {Cancelled, Rejected}
                 then IsCancelled(left, CancelParticipant(v, p)) else CancelParticipant(v, p) == left
  {
    left := v;
    if MayLeave(v, p) {
      left := WithoutParticipant(v, p);
      CountIsZero(left.participants, {Cancelled, Rejected});
      CancelVisitEffect(left);
      assert forall q :: 0 <= q < |v.participants| ==>
        left.participants[q].status == if q == p then Cancelled else v.participants[q].status;
    }
  }

  // ---------------------------------------------------------------------------
  // Approval, reissue, rescheduling, registration
  // ---------------------------------------------------------------------------

  /** Everybody is expected, with one more QR. */
  ghost predicate IsApproved(v: Visit, v': Visit, cfg: Settings) {
    && |v'.participants| == |v.participants|
    && v' == v.(status := Scheduled, participants := v'.participants, events := v.events + [LogScheduled])
    && forall p :: 0 <= p < |v.participants| ==>
         && v'.participants[p].status.Scheduled?
         && var ts, ts' := v.participants[p].tokens, v'.participants[p].tokens;
         ts < ts' && |ts'| == |ts| + 1 && IsNewToken(ts'[|ts|], v.startAt, v.endAt, cfg, 1, None)
  }

  ghost predicate IsRejected(v: Visit, v': Visit) {
    && |v'.participants| == |v.participants|
    && v' == v.(status := Rejected, participants := v'.participants, events := v.events + [LogRejected])
    && forall p :: 0 <= p < |v.participants| ==> v'.participants[p] == v.participants[p].(status := Rejected)
  }

  lemma DecisionEffects(v: Visit, cfg: Settings)
    ensures if v.status.PendingApproval? then IsApproved(v, Approve(v, cfg), cfg) else Approve(v, cfg) == v
    ensures if v.status.PendingApproval? then IsRejected(v, Reject(v)) else Reject(v) == v
  {
  }

  predicate MayReissue(v: Visit, p: nat) {
    && p < |v.participants| && v.status in {Scheduled, Approved}
    && v.participants[p].status !in {CheckedOut, Cancelled, Rejected, NoShow}
  }

  /** One more QR, the only one that is valid, which replaces the newest valid one. */
  ghost predicate IsReissued(v: Visit, v': Visit, p: nat, cfg: Settings) {
    && OnlyChanged(v, v', p) && v' == v.(participants := v'.participants)
    && v'.participants[p] == v.participants[p].(tokens := v'.participants[p].tokens)
    && var ts, ts' := v.participants[p].tokens, v'.participants[p].tokens;
    && |ts'| == |ts| + 1 && Revoked(ts, ts'[..|ts|])
    && var issued := ts'[|ts|];
    && IsNewestLive(ts, issued.rotatedFrom)
    && IsNewToken(issued, v.startAt, v.endAt, cfg,
                  if issued.rotatedFrom.Some? then ts[issued.rotatedFrom.value].version + 1 else 1, issued.rotatedFrom)
  }

  lemma {:induction false} LiveIsNewest(ts: seq<Token>)
    ensures IsNewestLive(ts, Live(ts))
  {
    if ts != [] && ts[|ts| - 1].revoked {
      LiveIsNewest(ts[..|ts| - 1]);
    }
  }

  lemma ReissueEffect(v: Visit, p: nat, cfg: Settings)
    ensures if MayReissue(v, p) then IsReissued(v, Reissue(v, p, cfg), p, cfg) else Reissue(v, p, cfg) == v
  {
    if MayReissue(v, p) {
      LiveIsNewest(v.participants[p].tokens);
    }
  }

  /** The schedule is the new one, every valid QR follows it, and nothing else has changed. */
  ghost predicate IsRescheduled(v: Visit, v': Visit, start: Time, end: Time, cfg: Settings) {
    && |v'.participants| == |v.participants|
    && v' == v.(startAt := start, endAt := end, participants := v'.participants)
    && forall p :: 0 <= p < |v.participants| ==>
         && v'.participants[p] == v.participants[p].(tokens := v'.participants[p].tokens)
         && LiveMoved(v.participants[p].tokens, v'.participants[p].tokens,
                      start - cfg.early * MINUTE, end + cfg.late * MINUTE)
  }

  /** A schedule is accepted when it ends after it starts and lasts no more than 31 days. */
  lemma RescheduleEffect(v: Visit, start: Time, end: Time, cfg: Settings)
    ensures ScheduleOk(start, end) <==> start < end <= start + 31 * 1440 * MINUTE
    ensures if start < end <= start + 31 * 1440 * MINUTE
            then IsRescheduled(v, Reschedule(v, start, end, cfg), start, end, cfg)
            else Reschedule(v, start, end, cfg) == v
  {
  }

  lemma RegisterEffect(v: Visit, p: nat)
    ensures Register(v, p) == if p < |v.participants| then v.(events := v.events + [LogRegistered(p)]) else v
  {
  }

  // ---------------------------------------------------------------------------
  // Maintenance
  // ---------------------------------------------------------------------------

  /** Still expected although the visit and its grace are over. */
  predicate IsMissed(v: Visit, p: nat, now: Time, cfg: Settings) {
    && p < |v.participants| && v.participants[p].status.Scheduled?
    && v.endAt + LateMinutes(cfg) * MINUTE < now
  }

  /** Exactly those are absent, each with one event in the log, and nothing else has changed. */
  ghost predicate AbsentMarked(v: Visit, v': Visit, now: Time, cfg: Settings) {
    && |v'.participants| == |v.participants|
    && v' == v.(participants := v'.participants, events := v'.events)
    && (forall p :: 0 <= p < |v.participants| ==>
          v'.participants[p] == if IsMissed(v, p, now, cfg) then v.participants[p].(status := NoShow)
                                else v.participants[p])
    && v.events <= v'.events
    && AbsencesOf(v'.events[|v.events|..], set p: nat | p < |v.participants| && IsMissed(v, p, now, cfg))
  }

  lemma MarkNoShowsEffect(v: Visit, now: Time, cfg: Settings)
    ensures AbsentMarked(v, MarkNoShows(v, now, cfg), now, cfg)
  {
    var n, missed := |v.participants|, Missed(v, now, cfg);
    AbsencesInOrder(missed, n);
    assert Below(missed, n) == (set p: nat | p < n && IsMissed(v, p, now, cfg));
    assert MarkNoShows(v, now, cfg).events[|v.events|..] == AbsenceLog(missed, n);
  }

  ghost predicate AllAbsent(v: Visit) {
    forall p :: 0 <= p < |v.participants| ==> v.participants[p].status.NoShow?
  }

  lemma CloseNoShowEffect(v: Visit)
    ensures CloseNoShow(v) == if v.status.Scheduled? && AllAbsent(v) then v.(status := NoShow) else v
  {
    CountIsZero(v.participants, {NoShow});
  }

  /** One tick: those are marked, and a SCHEDULED visit with everybody absent is a NO_SHOW. */
  ghost predicate IsMaintained(v: Visit, v': Visit, now: Time, cfg: Settings) {
    && AbsentMarked(v, v'.(status := v.status), now, cfg)
    && v'.status == if v.status.Scheduled? && AllAbsent(v') then NoShow else v.status
  }

  lemma TickEffect(v: Visit, now: Time, cfg: Settings)
    ensures IsMaintained(v, CloseNoShow(MarkNoShows(v, now, cfg)), now, cfg)
  {
    MarkNoShowsEffect(v, now, cfg);
    CloseNoShowEffect(MarkNoShows(v, now, cfg));
  }
}
