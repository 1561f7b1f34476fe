/**
 What holds of a visit in every reachable state: how its status relates to its participants, and what
 each participant's QR tokens look like.
 */
module VisitInvariants {
  import opened Wrappers
  import opened VisitModel

  // ---------------------------------------------------------------------------
  // The invariant
  // ---------------------------------------------------------------------------

  /** The participant statuses each visit status leaves possible. */
  predicate Fits(visit: Status, participant: Status) {
    match visit
    case PendingApproval => participant in {PendingApproval, Cancelled}
    case Scheduled => participant in {Scheduled, CheckedOut, Cancelled, NoShow}
    case CheckedIn => participant in {Scheduled, CheckedIn, CheckedOut, Cancelled, NoShow}
    case CheckedOut => participant in {CheckedOut, Cancelled, NoShow}
    case NoShow => participant == NoShow
    case Cancelled => participant in {Cancelled, CheckedOut}
    case Rejected => participant == Rejected
    case _ => false
  }

  /** Some participant gives the visit the status it has. */
  ghost predicate Witnessed(v: Visit) {
    match v.status
    case PendingApproval => AnyWith(v.participants, {PendingApproval})
    case Scheduled => AnyWith(v.participants, {Scheduled, CheckedOut, NoShow})
    case CheckedIn => AnyWith(v.participants, {CheckedIn})
    case CheckedOut => AnyWith(v.participants, {CheckedOut})
    case _ => v.participants != []
  }

  /** Versions count from 1, each token replaced the one before it, and only the last can be live. */
  ghost predicate Chain(tokens: seq<Token>) {
    forall k :: 0 <= k < |tokens| ==>
      && tokens[k].version == k + 1
      && tokens[k].rotatedFrom == (if k == 0 then None else Some(k - 1))
      && (k < |tokens| - 1 ==> tokens[k].revoked)
  }

  predicate HasLive(tokens: seq<Token>) {
    tokens != [] && !tokens[|tokens| - 1].revoked
  }

  ghost predicate AllRevoked(tokens: seq<Token>) {
    forall k :: 0 <= k < |tokens| ==> tokens[k].revoked
  }

  /** Someone still expected holds a live unused QR, someone inside a live used one. */
  ghost predicate TokensFit(row: Participant) {
    && Chain(row.tokens)
    && (row.status.PendingApproval? || row.status.Rejected? ==> row.tokens == [])
    && (row.status.Scheduled? ==> HasLive(row.tokens) && !row.tokens[|row.tokens| - 1].used)
    && (row.status.CheckedIn? ==> HasLive(row.tokens) && row.tokens[|row.tokens| - 1].used)
    && (row.status.Cancelled? ==> AllRevoked(row.tokens))
  }

  ghost predicate RowFits(visit: Status, row: Participant) {
    && Fits(visit, row.status)
    && TokensFit(row)
    && (visit.PendingApproval? || visit.Rejected? ==> row.tokens == [])
    && (visit.Cancelled? ==> AllRevoked(row.tokens))
  }

  ghost predicate RowsFit(visit: Status, ps: seq<Participant>) {
    forall p :: 0 <= p < |ps| ==> RowFits(visit, ps[p])
  }

  ghost predicate Inv(v: Visit) {
    RowsFit(v.status, v.participants) && Witnessed(v)
  }

  // ---------------------------------------------------------------------------
  // Tokens
  // ---------------------------------------------------------------------------

  lemma ExtendChain(tokens: seq<Token>, start: Time, end: Time, cfg: Settings)
    requires Chain(tokens) && AllRevoked(tokens)
    ensures
      var next := NewToken(tokens, start, end, cfg, if tokens == [] then None else Some(|tokens| - 1));
      Chain(tokens + [next]) && HasLive(tokens + [next]) && !next.used
  {
  }

  lemma LiveIsLast(tokens: seq<Token>)
    requires Chain(tokens)
    ensures Live(tokens) == if HasLive(tokens) then Some(|tokens| - 1) else None
  {
    if tokens != [] && !HasLive(tokens) {
      NoLive(tokens);
    }
  }

  lemma {:induction false} NoLive(tokens: seq<Token>)
    requires AllRevoked(tokens)
    ensures Live(tokens) == None
  {
    if tokens != [] {
      assert AllRevoked(tokens[..|tokens| - 1]);
      NoLive(tokens[..|tokens| - 1]);
    }
  }

  // ---------------------------------------------------------------------------
  // Aggregates
  // ---------------------------------------------------------------------------

  lemma {:induction false} CountIsZero(ps: seq<Participant>, excluded: set<Status>)
    ensures CountNot(ps, excluded) == 0 <==> (forall p :: 0 <= p < |ps| ==> ps[p].status in excluded)
  {
    if ps != [] {
      CountIsZero(ps[1..], excluded);
      assert forall p :: 0 < p < |ps| ==> ps[p] == ps[1..][p - 1];
      if forall p :: 0 <= p < |ps| ==> ps[p].status in excluded {
        assert forall p :: 0 <= p < |ps| - 1 ==> ps[1..][p].status in excluded;
      }
    }
  }

  /** Statuses a visit can hold while people come and go. */
  predicate Settled(s: Status) {
    s in {Scheduled, CheckedIn, CheckedOut, Cancelled, NoShow}
  }

  /** After a check-out the CASE expression gives exactly the status that fits. */
  lemma AggregateFits(ps: seq<Participant>)
    requires forall p :: 0 <= p < |ps| ==> Settled(ps[p].status) && TokensFit(ps[p])
    requires AnyWith(ps, {CheckedOut})
    ensures RowsFit(Aggregate(ps), ps)
    ensures forall v: Visit :: v.participants == ps && v.status == Aggregate(ps) ==> Witnessed(v)
  {
    var status := Aggregate(ps);
    assert AnyWith(ps, {Scheduled, CheckedOut, NoShow});
    forall p | 0 <= p < |ps| ensures RowFits(status, ps[p]) {
      assert ps[p].status.CheckedIn? ==> AnyWith(ps, {CheckedIn});
      assert ps[p].status.Scheduled? ==> AnyWith(ps, {Scheduled, Arrived});
    }
  }

  // ---------------------------------------------------------------------------
  // Creation and check-in
  // ---------------------------------------------------------------------------

  lemma OpenOk(r: Request)
    requires RequestOk(r)
    ensures Inv(Open(r))
  {
    var v := Open(r);
    assert v.participants[0].status in {v.participants[0].status};
    ExtendChain([], r.start, r.end, r.cfg);
    assert [] + [NewToken([], r.start, r.end, r.cfg, None)] == [NewToken([], r.start, r.end, r.cfg, None)];
  }

  lemma ScanLive(row: Participant, k: nat)
    requires TokensFit(row) && k < |row.tokens| && !row.tokens[k].revoked
    ensures k == |row.tokens| - 1
    ensures TokensFit(Participant(CheckedIn, row.tokens[k := row.tokens[k].(used := true)]))
  {
  }

  lemma UseLiveFits(row: Participant)
    requires TokensFit(row) && HasLive(row.tokens)
    ensures TokensFit(Participant(CheckedIn, UseLive(row.tokens)))
  {
  }

  /** Putting someone inside opens the visit. */
  lemma EnterKeepsInv(v: Visit, p: nat, row: Participant)
    requires Inv(v) && p < |v.participants|
    requires v.status.Scheduled? || v.status.CheckedIn?
    requires row.status.CheckedIn? && TokensFit(row)
    ensures Inv(Log(OpenVisit(Put(v, p, row)), LogCheckedIn(p)))
  {
    var v' := Log(OpenVisit(Put(v, p, row)), LogCheckedIn(p));
    assert v'.participants[p].status in {CheckedIn};
    forall q | 0 <= q < |v'.participants| ensures RowFits(v'.status, v'.participants[q]) {
      assert RowFits(v.status, v.participants[q]);
    }
  }

  lemma CheckInKeepsInv(v: Visit, p: nat, k: nat, now: Time, cfg: Settings)
    requires Inv(v)
    ensures Inv(CheckIn(v, p, k, now, cfg))
  {
    if QrAccepts(v, p, k, now, cfg) {
      var row := v.participants[p];
      assert RowFits(v.status, row);
      ScanLive(row, k);
      EnterKeepsInv(v, p, Participant(CheckedIn, row.tokens[k := row.tokens[k].(used := true)]));
    }
  }

  lemma ManualCheckInKeepsInv(v: Visit, p: nat, now: Time, cfg: Settings)
    requires Inv(v)
    ensures Inv(ManualCheckIn(v, p, now, cfg))
  {
    if ManualAccepts(v, p, now, cfg) {
      assert RowFits(v.status, v.participants[p]);
      UseLiveFits(v.participants[p]);
      EnterKeepsInv(v, p, Participant(CheckedIn, UseLive(v.participants[p].tokens)));
    }
  }

  // ---------------------------------------------------------------------------
  // Check-out
  // ---------------------------------------------------------------------------

  lemma InsideMeansOpen(v: Visit, p: nat)
    requires Inv(v) && p < |v.participants|
    ensures v.participants[p].status.CheckedIn? ==> v.status.CheckedIn?
  {
    assert RowFits(v.status, v.participants[p]);
  }

  lemma CheckOutKeepsInv(v: Visit, p: nat)
    requires Inv(v)
    ensures Inv(CheckOut(v, p))
  {
    if p < |v.participants| && v.participants[p].status.CheckedIn? {
      InsideMeansOpen(v, p);
      var ps := Put(v, p, v.participants[p].(status := CheckedOut)).participants;
      assert ps[p].status in {CheckedOut};
      forall q | 0 <= q < |ps| ensures Settled(ps[q].status) && TokensFit(ps[q]) {
        assert RowFits(v.status, v.participants[q]);
      }
      AggregateFits(ps);
    }
  }

  lemma AutoCheckOutKeepsInv(v: Visit, cutoff: set<nat>)
    requires Inv(v)
    ensures Inv(AutoCheckOut(v, cutoff))
  {
    var swept := Swept(v, cutoff);
    var ps := MarkAll(v.participants, swept, CheckedOut);
    if swept == {} {
      assert ps == v.participants;
    } else {
      var p :| p in swept;
      InsideMeansOpen(v, p);
      assert ps[p].status in {CheckedOut};
      forall q | 0 <= q < |ps| ensures Settled(ps[q].status) && TokensFit(ps[q]) {
        assert RowFits(v.status, v.participants[q]);
      }
      AggregateFits(ps);
    }
  }

  // ---------------------------------------------------------------------------
  // Cancellation
  // ---------------------------------------------------------------------------

  lemma CancelVisitKeepsInv(v: Visit)
    requires v.participants != []
    requires forall p :: 0 <= p < |v.participants| ==> Chain(v.participants[p].tokens)
    requires Inv(v) || Cancellable(v)
    ensures Inv(CancelVisit(v))
  {
  }

  lemma RowsAreChained(v: Visit)
    requires Inv(v)
    ensures forall p :: 0 <= p < |v.participants| ==> Chain(v.participants[p].tokens)
    ensures v.participants != []
  {
    forall p | 0 <= p < |v.participants| ensures Chain(v.participants[p].tokens) {
      assert RowFits(v.status, v.participants[p]);
    }
  }

  lemma CancelParticipantKeepsInv(v: Visit, p: nat)
    requires Inv(v)
    ensures Inv(CancelParticipant(v, p))
  {
    if ParticipantCancellable(v, p) {
      RowsAreChained(v);
      var left := WithoutParticipant(v, p);
      CountIsZero(left.participants, {Cancelled, Rejected});
      if CountNot(left.participants, {Cancelled, Rejected}) == 0 {
        CancelVisitKeepsInv(left);
      } else {
        OneLessKeepsInv(v, p, left);
      }
    }
  }

  /** One expected participant fewer, and somebody else keeps the visit going. */
  lemma OneLessKeepsInv(v: Visit, p: nat, left: Visit)
    requires Inv(v) && ParticipantCancellable(v, p)
    requires left == WithoutParticipant(v, p)
    requires exists q :: 0 <= q < |left.participants| && left.participants[q].status !in {Cancelled, Rejected}
    ensures Inv(left)
  {
    forall q | 0 <= q < |left.participants| ensures RowFits(left.status, left.participants[q]) {
      assert RowFits(v.status, v.participants[q]);
    }
    assert RowFits(v.status, v.participants[p]);
    var q :| 0 <= q < |left.participants| && left.participants[q].status !in {Cancelled, Rejected};
    assert RowFits(v.status, v.participants[q]);
    if v.status.CheckedIn? {
      var i :| 0 <= i < |v.participants| && v.participants[i].status in {CheckedIn};
      assert left.participants[i].status in {CheckedIn};
    }
  }

  // ---------------------------------------------------------------------------
  // Approval, reissue, rescheduling
  // ---------------------------------------------------------------------------

  lemma ApproveKeepsInv(v: Visit, cfg: Settings)
    requires Inv(v)
    ensures Inv(Approve(v, cfg))
  {
    if v.status.PendingApproval? {
      var v' := Approve(v, cfg);
      forall p | 0 <= p < |v'.participants| ensures RowFits(v'.status, v'.participants[p]) {
        assert RowFits(v.status, v.participants[p]);
        ExtendChain([], v.startAt, v.endAt, cfg);
      }
      assert v'.participants[0].status in {Scheduled, CheckedOut, NoShow};
    }
  }

  lemma RejectKeepsInv(v: Visit)
    requires Inv(v)
    ensures Inv(Reject(v))
  {
    if v.status.PendingApproval? {
      forall p | 0 <= p < |v.participants| ensures v.participants[p].tokens == [] {
        assert RowFits(v.status, v.participants[p]);
      }
    }
  }

  lemma ReissueKeepsInv(v: Visit, p: nat, cfg: Settings)
    requires Inv(v)
    ensures Inv(Reissue(v, p, cfg))
  {
    if Reissuable(v, p) {
      var row := v.participants[p];
      assert RowFits(v.status, row);
      assert row.status.Scheduled?;
      LiveIsLast(row.tokens);
      ExtendChain(RevokeAll(row.tokens), v.startAt, v.endAt, cfg);
      var v' := Reissue(v, p, cfg);
      forall q | 0 <= q < |v'.participants| ensures RowFits(v'.status, v'.participants[q]) {
        assert RowFits(v.status, v.participants[q]);
      }
      assert v'.participants[p].status in {Scheduled, CheckedOut, NoShow};
    }
  }

  lemma RescheduleKeepsInv(v: Visit, start: Time, end: Time, cfg: Settings)
    requires Inv(v)
    ensures Inv(Reschedule(v, start, end, cfg))
  {
    var v' := Reschedule(v, start, end, cfg);
    SameStatuses(v, v');
    forall p | 0 <= p < |v'.participants| ensures RowFits(v'.status, v'.participants[p]) {
      assert RowFits(v.status, v.participants[p]);
    }
  }

  lemma SameStatuses(v: Visit, v': Visit)
    requires Witnessed(v) && v'.status == v.status && |v'.participants| == |v.participants|
    requires forall p :: 0 <= p < |v.participants| ==> v'.participants[p].status == v.participants[p].status
    ensures Witnessed(v')
  {
    forall statuses: set<Status> | AnyWith(v.participants, statuses) ensures AnyWith(v'.participants, statuses) {
      var i :| 0 <= i < |v.participants| && v.participants[i].status in statuses;
      assert v'.participants[i].status in statuses;
    }
  }

  // ---------------------------------------------------------------------------
  // Maintenance
  // ---------------------------------------------------------------------------

  lemma MarkNoShowsKeepsInv(v: Visit, now: Time, cfg: Settings)
    requires Inv(v)
    ensures Inv(MarkNoShows(v, now, cfg))
  {
    var v' := MarkNoShows(v, now, cfg);
    forall p | 0 <= p < |v'.participants| ensures RowFits(v'.status, v'.participants[p]) {
      assert RowFits(v.status, v.participants[p]);
    }
    match v.status {
      case Scheduled =>
        var i :| 0 <= i < |v.participants| && v.participants[i].status in {Scheduled, CheckedOut, NoShow};
        assert v'.participants[i].status in {Scheduled, CheckedOut, NoShow};
      case CheckedIn =>
        var i :| 0 <= i < |v.participants| && v.participants[i].status in {CheckedIn};
        assert v'.participants[i].status in {CheckedIn};
      case CheckedOut =>
        var i :| 0 <= i < |v.participants| && v.participants[i].status in {CheckedOut};
        assert v'.participants[i].status in {CheckedOut};
      case PendingApproval =>
        var i :| 0 <= i < |v.participants| && v.participants[i].status in {PendingApproval};
        assert v'.participants[i].status in {PendingApproval};
      case _ =>
    }
  }

  lemma CloseNoShowKeepsInv(v: Visit)
    requires Inv(v)
    ensures Inv(CloseNoShow(v))
  {
    CountIsZero(v.participants, {NoShow});
    forall p | 0 <= p < |v.participants| ensures TokensFit(v.participants[p]) {
      assert RowFits(v.status, v.participants[p]);
    }
  }

  // ---------------------------------------------------------------------------
  // Every step, every run
  // ---------------------------------------------------------------------------

  lemma StepKeepsInv(v: Visit, c: Call)
    requires Inv(v)
    ensures Inv(Step(v, c))
  {
    match c.action {
      case DoCheckIn(p, k) => CheckInKeepsInv(v, p, k, c.now, c.cfg);
      case DoManualCheckIn(p) => ManualCheckInKeepsInv(v, p, c.now, c.cfg);
      case DoCheckOut(p) => CheckOutKeepsInv(v, p);
      case DoAutoCheckOut(cutoff) => AutoCheckOutKeepsInv(v, cutoff);
      case DoCancelVisit => RowsAreChained(v); CancelVisitKeepsInv(v);
      case DoCancelParticipant(p) => CancelParticipantKeepsInv(v, p);
      case DoApprove => ApproveKeepsInv(v, c.cfg);
      case DoReject => RejectKeepsInv(v);
      case DoReissue(p) => ReissueKeepsInv(v, p, c.cfg);
      case DoReschedule(start, end) => RescheduleKeepsInv(v, start, end, c.cfg);
      case DoRegister(p) =>
      case DoMarkNoShows => MarkNoShowsKeepsInv(v, c.now, c.cfg);
      case DoCloseNoShow => CloseNoShowKeepsInv(v);
    }
  }

  lemma {:induction false} RunKeepsInv(v: Visit, calls: seq<Call>)
    requires Inv(v)
    ensures Inv(Run(v, calls))
    decreases |calls|
  {
    if calls != [] {
      StepKeepsInv(v, calls[0]);
      RunKeepsInv(Step(v, calls[0]), calls[1..]);
    }
  }

  lemma ReachableOk(r: Request, calls: seq<Call>)
    requires RequestOk(r)
    ensures Inv(Run(Open(r), calls))
  {
    OpenOk(r);
    RunKeepsInv(Open(r), calls);
  }
}
