/**
 Where the visit life cycle falls short of what its comments and names suggest, and exactly when: a
 cancelled participant who is not gone for good, and a visit that stays SCHEDULED with nobody to expect.
 */
module VisitExceptions {
  import opened Wrappers
  import opened VisitModel
  import opened VisitInvariants
  import opened VisitTheorems

  // ---------------------------------------------------------------------------
  // Cancelled participants
  // ---------------------------------------------------------------------------

  predicate Decides(a: Action) {
    a.DoApprove? || a.DoReject?
  }

  /**
   A cancelled participant is brought back by the decision about a visit awaiting approval and by nothing
   else: an approval schedules the participant, a rejection overwrites the cancellation too.
   */
  lemma CancelledUntilDecided(v: Visit, c: Call, p: nat)
    requires Inv(v) && p < |v.participants| && v.participants[p].status.Cancelled?
    ensures p < |Step(v, c).participants|
    ensures
      var after := Step(v, c).participants[p].status;
      && (!after.Cancelled? <==> v.status.PendingApproval? && Decides(c.action))
      && (!after.Cancelled? ==> after == if c.action.DoApprove? then Scheduled else Rejected)
  {
    assert RowFits(v.status, v.participants[p]);
    match c.action {
      case DoCheckIn(_, _) =>
      case DoCancelVisit =>
      case DoCancelParticipant(_) =>
      case DoApprove =>
      case DoReject =>
      case _ =>
    }
  }

  /** No visit returns to its approval. */
  lemma DecidedStaysDecided(v: Visit, c: Call)
    requires !v.status.PendingApproval?
    ensures !Step(v, c).status.PendingApproval?
  {
  }

  /** So once the visit is decided, a cancellation is final over every run. */
  lemma {:induction false} CancelledIsForever(v: Visit, calls: seq<Call>, p: nat)
    requires Inv(v) && !v.status.PendingApproval?
    requires p < |v.participants| && v.participants[p].status.Cancelled?
    ensures p < |Run(v, calls).participants| && Run(v, calls).participants[p].status.Cancelled?
    decreases |calls|
  {
    if calls != [] {
      CancelledUntilDecided(v, calls[0], p);
      DecidedStaysDecided(v, calls[0]);
      StepKeepsInv(v, calls[0]);
      CancelledIsForever(Step(v, calls[0]), calls[1..], p);
    }
  }

  // ---------------------------------------------------------------------------
  // Visits nobody is left in
  // ---------------------------------------------------------------------------

  ghost predicate NobodyOpenBut(v: Visit, p: nat) {
    forall q :: 0 <= q < |v.participants| && q != p ==> !StillOpen(v.participants[q].status)
  }

  /** SCHEDULED, although nobody is expected or inside. */
  ghost predicate Stranded(v: Visit) {
    v.status.Scheduled? && NobodyOpenBut(v, |v.participants|)
  }

  ghost predicate AllCancelledBut(v: Visit, p: nat) {
    forall q :: 0 <= q < |v.participants| && q != p ==> v.participants[q].status.Cancelled?
  }

  /**
   Cancelling the last open participant cancels the visit if and only if everybody else was cancelled
   before; somebody who checked out or never came keeps it from happening.
   */
  lemma LastLeaverCancels(v: Visit, p: nat)
    requires Inv(v) && ParticipantCancellable(v, p) && NobodyOpenBut(v, p)
    ensures CancelParticipant(v, p).status.Cancelled? <==> AllCancelledBut(v, p)
    ensures !AllCancelledBut(v, p) ==> Stranded(CancelParticipant(v, p))
  {
    var left := WithoutParticipant(v, p);
    CountIsZero(left.participants, {Cancelled, Rejected});
    OthersFit(v);
    assert left.participants[p].status.Cancelled?;
    assert forall q :: 0 <= q < |v.participants| && q != p ==> left.participants[q] == v.participants[q];
  }

  lemma OthersFit(v: Visit)
    requires Inv(v)
    ensures forall q :: 0 <= q < |v.participants| ==> Fits(v.status, v.participants[q].status)
  {
    forall q | 0 <= q < |v.participants| ensures Fits(v.status, v.participants[q].status) {
      assert RowFits(v.status, v.participants[q]);
    }
  }

  /** What strands a visit: the last open participant is cancelled, or the no-show job comes round. */
  ghost predicate Strands(v: Visit, c: Call) {
    && v.status.Scheduled?
    && match c.action
       case DoCancelParticipant(p) => ParticipantCancellable(v, p) && NobodyOpenBut(v, p) && !AllCancelledBut(v, p)
       case DoMarkNoShows => Overdue(v, c.now, c.cfg)
       case _ => false
  }

  lemma CancelStrands(v: Visit, p: nat)
    requires Inv(v) && !Stranded(v)
    ensures Stranded(CancelParticipant(v, p)) <==>
            v.status.Scheduled? && ParticipantCancellable(v, p) && NobodyOpenBut(v, p) && !AllCancelledBut(v, p)
  {
    if ParticipantCancellable(v, p) {
      OthersFit(v);
      if NobodyOpenBut(v, p) {
        LastLeaverCancels(v, p);
      } else {
        var q :| 0 <= q < |v.participants| && q != p && StillOpen(v.participants[q].status);
        var after := CancelParticipant(v, p);
        assert after.status.Scheduled? ==> after.participants[q] == v.participants[q];
      }
    }
  }

  lemma NoShowsStrand(v: Visit, now: Time, cfg: Settings)
    requires Inv(v)
    ensures Stranded(MarkNoShows(v, now, cfg)) <==> v.status.Scheduled? && (Stranded(v) || Overdue(v, now, cfg))
  {
    OthersFit(v);
    var after := MarkNoShows(v, now, cfg);
    if v.status.Scheduled? && !Stranded(v) && !Overdue(v, now, cfg) {
      var q :| 0 <= q < |v.participants| && StillOpen(v.participants[q].status);
      assert after.participants[q] == v.participants[q];
    }
  }

  lemma OutStrandsNobody(v: Visit, c: Call)
    requires Inv(v) && !Stranded(v)
    requires c.action.DoCheckOut? || c.action.DoAutoCheckOut?
    ensures !Stranded(Step(v, c))
  {
    var after := Step(v, c);
    if after != v && after.status.Scheduled? {
      if after.status == Aggregate(after.participants) {
        var q :| 0 <= q < |after.participants| && after.participants[q].status in {Scheduled, Arrived};
      } else {
        assert after.participants == v.participants;
      }
    }
  }

  /** No other transaction strands a visit, and these two do exactly then. */
  lemma StrandedExactlyWhen(v: Visit, c: Call)
    requires Inv(v) && !Stranded(v)
    ensures Stranded(Step(v, c)) <==> Strands(v, c)
  {
    OthersFit(v);
    match c.action {
      case DoCancelParticipant(p) => CancelStrands(v, p);
      case DoMarkNoShows => NoShowsStrand(v, c.now, c.cfg);
      case DoCheckOut(_) => OutStrandsNobody(v, c);
      case DoAutoCheckOut(_) => OutStrandsNobody(v, c);
      case DoApprove => ApprovalOpens(v, c.cfg);
      case DoReissue(p) => SameStatusesStrand(v, Step(v, c));
      case DoReschedule(_, _) => SameStatusesStrand(v, Step(v, c));
      case _ =>
    }
  }

  lemma SameStatusesStrand(v: Visit, v': Visit)
    requires v'.status == v.status && |v'.participants| == |v.participants|
    requires forall p :: 0 <= p < |v.participants| ==> v'.participants[p].status == v.participants[p].status
    ensures Stranded(v') <==> Stranded(v)
  {
  }

  lemma ApprovalOpens(v: Visit, cfg: Settings)
    requires Inv(v) && !Stranded(v)
    ensures !Stranded(Approve(v, cfg))
  {
    if v.status.PendingApproval? {
      RowsAreChained(v);
      assert StillOpen(Approve(v, cfg).participants[0].status);
    }
  }

  /**
   One maintenance tick, marking and closing, leaves a visit stranded exactly when nobody is open after
   the marking and somebody in it was cancelled or checked out, so that not everybody is absent.
   */
  lemma TickStrands(v: Visit, now: Time, cfg: Settings)
    requires Inv(v)
    ensures Stranded(CloseNoShow(MarkNoShows(v, now, cfg))) <==>
            && v.status.Scheduled?
            && (Stranded(v) || Overdue(v, now, cfg))
            && AnyWith(v.participants, {Cancelled, CheckedOut})
  {
    var marked := MarkNoShows(v, now, cfg);
    NoShowsStrand(v, now, cfg);
    CountIsZero(marked.participants, {NoShow});
    OthersFit(v);
    if AnyWith(v.participants, {Cancelled, CheckedOut}) {
      var p :| 0 <= p < |v.participants| && v.participants[p].status in {Cancelled, CheckedOut};
      assert marked.participants[p] == v.participants[p];
    } else if Stranded(marked) {
      assert forall p :: 0 <= p < |v.participants| ==> marked.participants[p].status.NoShow?;
    }
  }

  /** Cancelling the whole visit is the only way out, unless every participant is absent. */
  lemma OnlyCancelEnds(v: Visit, c: Call)
    requires Inv(v) && Stranded(v) && AnyWith(v.participants, {Cancelled, CheckedOut}) && !c.action.DoCancelVisit?
    ensures Stranded(Step(v, c)) && AnyWith(Step(v, c).participants, {Cancelled, CheckedOut})
  {
    StrandedIdles(v, c);
    SameStatusesStrand(v, Step(v, c));
    SameStatuses(v, Step(v, c));
  }

  /** Every other transaction is refused, or leaves the statuses alone. */
  lemma StrandedIdles(v: Visit, c: Call)
    requires Inv(v) && Stranded(v) && AnyWith(v.participants, {Cancelled, CheckedOut}) && !c.action.DoCancelVisit?
    ensures Step(v, c).status == v.status && |Step(v, c).participants| == |v.participants|
    ensures forall q :: 0 <= q < |v.participants| ==> Step(v, c).participants[q].status == v.participants[q].status
  {
    OthersFit(v);
    assert forall q :: 0 <= q < |v.participants| ==> Terminal(v.participants[q].status);
    match c.action {
      case DoAutoCheckOut(cutoff) => assert Swept(v, cutoff) == {};
      case DoMarkNoShows => assert Missed(v, c.now, c.cfg) == {};
      case DoCloseNoShow => CountIsZero(v.participants, {NoShow});
      case _ =>
    }
  }

  /** Over every run without that, the visit stays SCHEDULED and nobody is open in it again. */
  lemma {:induction false} StrandedStays(v: Visit, calls: seq<Call>)
    requires Inv(v) && Stranded(v) && AnyWith(v.participants, {Cancelled, CheckedOut})
    requires forall i :: 0 <= i < |calls| ==> !calls[i].action.DoCancelVisit?
    ensures Stranded(Run(v, calls))
    decreases |calls|
  {
    if calls != [] {
      OnlyCancelEnds(v, calls[0]);
      StepKeepsInv(v, calls[0]);
      StrandedStays(Step(v, calls[0]), calls[1..]);
    }
  }

  // ---------------------------------------------------------------------------
  // Each of these is reached
  // ---------------------------------------------------------------------------

  const DEFAULTS := Settings(60, 120, true)
  const AWAITED := Request(2, true, false, 0, 60 * MINUTE, DEFAULTS)
  const EXPECTED := Request(2, false, false, 0, 60 * MINUTE, DEFAULTS)

  /** One participant of two leaves; the other keeps the visit as it is. */
  lemma OneOfTwoLeaves(r: Request)
    requires RequestOk(r) && r.n == 2 && !r.walkIn
    ensures
      var v, after := Open(r), CancelParticipant(Open(r), 0);
      after.status == v.status && |after.participants| == 2
      && after.participants[0].status.Cancelled? && after.participants[1] == v.participants[1]
  {
    var v := Open(r);
    var left := Put(v, 0, Participant(Cancelled, RevokeAll(v.participants[0].tokens)));
    assert left.participants[1] == v.participants[1];
    CountIsZero(left.participants, {Cancelled, Rejected});
  }

  /** A decision about a visit with a cancelled participant does bring that participant back. */
  lemma DecisionFindsCancelled()
    ensures RequestOk(AWAITED)
    ensures
      var v := CancelParticipant(Open(AWAITED), 0);
      v.status.PendingApproval? && v.participants[0].status.Cancelled?
  {
    OneOfTwoLeaves(AWAITED);
  }

  /** A cancellation and then the no-show job strand a visit. */
  lemma TickFindsCancelled()
    ensures RequestOk(EXPECTED)
    ensures
      var v := CancelParticipant(Open(EXPECTED), 0);
      Stranded(CloseNoShow(MarkNoShows(v, 181 * MINUTE, DEFAULTS)))
  {
    var v := CancelParticipant(Open(EXPECTED), 0);
    OneOfTwoLeaves(EXPECTED);
    assert v.participants[0].status in {Cancelled, CheckedOut};
    OpenOk(EXPECTED);
    CancelParticipantKeepsInv(Open(EXPECTED), 0);
    TickStrands(v, 181 * MINUTE, DEFAULTS);
  }

  /** So does a check-out before the last cancellation. */
  lemma CancelFindsCheckedOut()
    ensures RequestOk(EXPECTED)
    ensures
      var v := CheckOut(ManualCheckIn(Open(EXPECTED), 0, 0, DEFAULTS), 0);
      Stranded(CancelParticipant(v, 1))
  {
    OpenOk(EXPECTED);
    ManualCheckInKeepsInv(Open(EXPECTED), 0, 0, DEFAULTS);
    CheckOutKeepsInv(ManualCheckIn(Open(EXPECTED), 0, 0, DEFAULTS), 0);
    var inside := ManualCheckIn(Open(EXPECTED), 0, 0, DEFAULTS);
    assert inside.participants[0].status.CheckedIn? && inside.participants[1].status.Scheduled?;
    var v := CheckOut(inside, 0);
    assert v.participants[1].status in {Scheduled, Arrived};
    assert v.participants[0].status.CheckedOut?;
    LastLeaverCancels(v, 1);
  }
}
