/**
 The visits as the service changes them: one object, one method per request or maintenance tick, each
 with its refusals and tied to the transaction of `VisitModel` it carries out.
 */
module VisitStore {
  import opened Wrappers
  import opened VisitModel
  import opened VisitInvariants
  import opened VisitEffects

  type VisitId = nat
  type SeriesId = nat
  type Visits = map<VisitId, Visit>

  const WEEK: int := 7 * 24 * 60 * MINUTE

  datatype Refusal =
    | NotFound
    | InvalidVisitors | InvalidSchedule | ScheduleTooLong | InvalidRecurrence
    | DynamicExpired | InvalidQr | AlreadyUsed
    | NotCheckinReady | OutsideWindow
    | CheckoutConflict | NotASeries | CannotCancel | ParticipantNotCancellable
    | ApprovalConflict | ParticipantNotReissuable | VisitNotReissuable

  datatype Recurrence = Once | Weekly(occurrences: int) | Unsupported

  // ---------------------------------------------------------------------------
  // Creation
  // ---------------------------------------------------------------------------

  /** The request for occurrence `k` of a weekly series. */
  function Shifted(r: Request, k: nat): Request {
    r.(start := r.start + k * WEEK, end := r.end + k * WEEK)
  }

  /** One to a hundred visitors for at most 31 days; a series is weekly, of 2 to 52 visits and 500 places. */
  predicate IsAccepted(r: Request, recurrence: Recurrence) {
    && 1 <= r.n <= 100 && r.start < r.end <= r.start + 31 * 1440 * MINUTE
    && !recurrence.Unsupported?
    && (recurrence.Weekly? ==>
          !r.walkIn && 2 <= recurrence.occurrences <= 52 && recurrence.occurrences * r.n <= 500)
  }

  /** What is known of visits that are opened as requested holds of every occurrence of an accepted request. */
  lemma AcceptedIsOk(r: Request, recurrence: Recurrence, k: nat)
    ensures RequestOk(r) <==> IsAccepted(r, Once)
    ensures IsAccepted(r, recurrence) ==> RequestOk(Shifted(r, k))
  {
  }

  /** The visits with the first `n` occurrences added. */
  function Series(visits: Visits, r: Request, ids: seq<VisitId>, n: nat): Visits
    requires n <= |ids|
  {
    if n == 0 then visits else Series(visits, r, ids, n - 1)[ids[n - 1] := Open(Shifted(r, n - 1))]
  }

  /** Creating a series leaves every other visit alone. */
  lemma {:induction false} SeriesKeeps(visits: Visits, r: Request, ids: seq<VisitId>, n: nat, id: VisitId)
    requires n <= |ids| && id in visits && (forall i :: 0 <= i < n ==> ids[i] != id)
    ensures id in Series(visits, r, ids, n) && Series(visits, r, ids, n)[id] == visits[id]
  {
    if n > 0 {
      SeriesKeeps(visits, r, ids, n - 1, id);
    }
  }

  /** Occurrence `k` starts as its own request, `k` weeks after the first. */
  lemma {:induction false} SeriesAt(visits: Visits, r: Request, ids: seq<VisitId>, n: nat, k: nat)
    requires k < n <= |ids| && (forall i, j :: 0 <= i < j < n ==> ids[i] != ids[j])
    ensures ids[k] in Series(visits, r, ids, n) && Series(visits, r, ids, n)[ids[k]] == Open(Shifted(r, k))
  {
    if k < n - 1 {
      SeriesAt(visits, r, ids, n - 1, k);
    }
  }

  /** And nothing else is created. */
  lemma {:induction false} NotInSeries(visits: Visits, r: Request, ids: seq<VisitId>, n: nat, id: VisitId)
    requires n <= |ids| && id !in visits && (forall i :: 0 <= i < n ==> ids[i] != id)
    ensures id !in Series(visits, r, ids, n)
  {
    if n > 0 {
      NotInSeries(visits, r, ids, n - 1, id);
    }
  }

  /** New visits, all different. */
  ghost predicate FreshVisits(visits: Visits, ids: seq<VisitId>) {
    && (forall i :: 0 <= i < |ids| ==> ids[i] !in visits)
    && (forall i, j :: 0 <= i < j < |ids| ==> ids[i] != ids[j])
  }

  /** Opened as requested, `k` weeks later. */
  ghost predicate IsOccurrence(r: Request, k: nat, v: Visit) {
    IsOpened(r.(start := r.start + k * 7 * 1440 * MINUTE, end := r.end + k * 7 * 1440 * MINUTE), v)
  }

  /** One visit per occurrence, each as its own request, and every other visit as it was. */
  ghost predicate Created(before: Visits, after: Visits, r: Request, ids: seq<VisitId>, n: nat)
    requires n <= |ids|
  {
    && (forall k :: 0 <= k < n ==>
          && ids[k] in after && after[ids[k]] == Open(Shifted(r, k))
          && IsOccurrence(r, k, after[ids[k]]))
    && (forall id :: id in before ==> id in after && after[id] == before[id])
    && (forall id :: id in after ==> id in before || id in ids[..n])
  }

  lemma ShiftedMeans(r: Request, k: nat)
    ensures Shifted(r, k) == r.(start := r.start + k * 7 * 1440 * MINUTE, end := r.end + k * 7 * 1440 * MINUTE)
  {
  }

  lemma SeriesCreates(visits: Visits, r: Request, ids: seq<VisitId>, n: nat)
    requires n <= |ids| && FreshVisits(visits, ids)
    ensures Created(visits, Series(visits, r, ids, n), r, ids, n)
  {
    var after := Series(visits, r, ids, n);
    forall k | 0 <= k < n
      ensures ids[k] in after && after[ids[k]] == Open(Shifted(r, k))
      ensures IsOccurrence(r, k, after[ids[k]])
    {
      SeriesAt(visits, r, ids, n, k);
      OpenEffect(Shifted(r, k));
      ShiftedMeans(r, k);
    }
    forall id | id in visits ensures id in after && after[id] == visits[id] {
      SeriesKeeps(visits, r, ids, n, id);
    }
    forall id | id in after ensures id in visits || id in ids[..n] {
      if id !in visits && id !in ids[..n] {
        assert forall i :: 0 <= i < n ==> ids[..n][i] == ids[i];
        NotInSeries(visits, r, ids, n, id);
        assert false;
      }
    }
  }

  /** This occurrence of a series and every later one that can still be cancelled. */
  function LaterOccurrences(visits: Visits, series: map<VisitId, SeriesId>, id: VisitId): set<VisitId>
    requires id in visits && id in series
  {
    set x | x in visits && x in series && series[x] == series[id]
            && visits[id].startAt <= visits[x].startAt && Cancellable(visits[x])
  }

  /** The series consists of exactly these visits. */
  ghost predicate Consists(visits: Visits, series: map<VisitId, SeriesId>, seriesId: SeriesId, ids: seq<VisitId>) {
    forall x :: x in visits ==> (x in series && series[x] == seriesId <==> x in ids)
  }

  lemma OccurrencesAreOrdered(r: Request, j: nat, k: nat)
    ensures Open(Shifted(r, k)).startAt <= Open(Shifted(r, j)).startAt <==> k <= j
    ensures Cancellable(Open(Shifted(r, j)))
  {
  }

  lemma LaterIff(visits: Visits, series: map<VisitId, SeriesId>, r: Request, ids: seq<VisitId>, k: nat, j: nat)
    requires k < |ids| && j < |ids| && ids[k] in series && Consists(visits, series, series[ids[k]], ids)
    requires ids[k] in visits && visits[ids[k]] == Open(Shifted(r, k))
    requires ids[j] in visits && visits[ids[j]] == Open(Shifted(r, j))
    ensures ids[j] in LaterOccurrences(visits, series, ids[k]) <==> k <= j
  {
    OccurrencesAreOrdered(r, j, k);
    assert ids[j] in ids;
  }

  lemma OnlyLaterOnes(visits: Visits, series: map<VisitId, SeriesId>, r: Request, ids: seq<VisitId>, k: nat, x: VisitId)
    requires k < |ids| && ids[k] in series && Consists(visits, series, series[ids[k]], ids)
    requires Stands(visits, r, ids) && x in LaterOccurrences(visits, series, ids[k])
    ensures x in ids[k..]
  {
    var j :| 0 <= j < |ids| && ids[j] == x;
    LaterIff(visits, series, r, ids, k, j);
    assert ids[k..][j - k] == x;
  }

  /** The occurrences are as they were created. */
  ghost predicate Stands(visits: Visits, r: Request, ids: seq<VisitId>) {
    forall j :: 0 <= j < |ids| ==> ids[j] in visits && visits[ids[j]] == Open(Shifted(r, j))
  }

  /** In a series as created, these are the occurrences from the chosen one on. */
  lemma LaterOnesFollow(visits: Visits, series: map<VisitId, SeriesId>, r: Request, ids: seq<VisitId>, k: nat)
    requires k < |ids| && ids[k] in series && Consists(visits, series, series[ids[k]], ids)
    requires Stands(visits, r, ids)
    ensures forall x :: x in LaterOccurrences(visits, series, ids[k]) <==> x in ids[k..]
  {
    forall x | x in LaterOccurrences(visits, series, ids[k]) ensures x in ids[k..] {
      OnlyLaterOnes(visits, series, r, ids, k, x);
    }
    forall i | 0 <= i < |ids| - k ensures ids[k..][i] in LaterOccurrences(visits, series, ids[k]) {
      LaterIff(visits, series, r, ids, k, k + i);
    }
  }

  /** The occurrences of a weekly request share a series; a single visit is in none. */
  function Enrolled(series: map<VisitId, SeriesId>, recurrence: Recurrence, ids: seq<VisitId>, seriesId: SeriesId):
    map<VisitId, SeriesId>
  {
    if recurrence.Weekly? then series + map id | id in ids :: seriesId else series
  }

  /** A new series consists of its occurrences; every other series is as it was. */
  lemma EnrolledConsists(
      before: Visits, after: Visits, series: map<VisitId, SeriesId>, seriesId: SeriesId, r: Request, ids: seq<VisitId>,
      recurrence: Recurrence)
    requires FreshVisits(before, ids) && Created(before, after, r, ids, |ids|)
    requires series.Keys <= before.Keys && seriesId !in series.Values
    ensures
      var enrolled := Enrolled(series, recurrence, ids, seriesId);
      && (recurrence.Weekly? ==> Consists(after, enrolled, seriesId, ids))
      && (!recurrence.Weekly? ==> enrolled == series)
      && enrolled.Keys <= after.Keys
      && forall x :: x in series ==> x in enrolled && enrolled[x] == series[x]
  {
    assert ids[..|ids|] == ids;
  }

  /** Only a status that an edit may see; it is read before the transaction that writes. */
  predicate Editable(s: Status) {
    s.PendingApproval? || s.Scheduled? || s.Approved?
  }

  /** The checks of a request, in the order they are made; the number of visits to create. */
  method CheckRequest(r: Request, recurrence: Recurrence) returns (result: Result<nat, Refusal>)
    ensures result.Ok? <==> IsAccepted(r, recurrence)
    ensures result.Ok? ==> result.value == (if recurrence.Weekly? then recurrence.occurrences else 1) <= 52
    ensures result.Err? ==>
              result.error == if !(1 <= r.n <= 100) then InvalidVisitors
                              else if r.start >= r.end then InvalidSchedule
                              else if r.end > r.start + 31 * 1440 * MINUTE then ScheduleTooLong
                              else InvalidRecurrence
  {
    if r.n < 1 || r.n > 100 {
      return Err(InvalidVisitors);
    }
    if r.start >= r.end {
      return Err(InvalidSchedule);
    }
    if r.end - r.start > 31 * 24 * 60 * MINUTE {
      return Err(ScheduleTooLong);
    }
    match recurrence {
      case Once => return Ok(1);
      case Unsupported => return Err(InvalidRecurrence);
      case Weekly(n) =>
        if r.walkIn || n < 2 || n > 52 || n * r.n > 500 {
          return Err(InvalidRecurrence);
        }
        return Ok(n);
    }
  }

  /** One visit after the other, a week apart. */
  method CreateOccurrences(visits: Visits, r: Request, ids: seq<VisitId>) returns (after: Visits)
    requires FreshVisits(visits, ids)
    ensures after == Series(visits, r, ids, |ids|)
    ensures Created(visits, after, r, ids, |ids|)
  {
    after := visits;
    for k := 0 to |ids|
      invariant after == Series(visits, r, ids, k)
    {
      after := after[ids[k] := Open(Shifted(r, k))];
    }
    SeriesCreates(visits, r, ids, |ids|);
  }

  class Store {
    var visits: Visits

    var series: map<VisitId, SeriesId>

    constructor ()
      ensures visits == map[] && series == map[]
    {
      visits, series := map[], map[];
    }

    /** Checks the request, then creates one visit per occurrence, a week apart. */
    method CreateVisitRecord(r: Request, recurrence: Recurrence, ids: seq<VisitId>, seriesId: SeriesId)
      returns (result: Result<nat, Refusal>)
      requires |ids| == 52 && FreshVisits(visits, ids)
      requires series.Keys <= visits.Keys && seriesId !in series.Values
      modifies this
      ensures result.Ok? <==> IsAccepted(r, recurrence)
      ensures result.Ok? ==>
                && result.value == (if recurrence.Weekly? then recurrence.occurrences else 1) <= 52
                && Created(old(visits), visits, r, ids[..result.value], result.value)
                && (recurrence.Weekly? ==> Consists(visits, series, seriesId, ids[..result.value]))
                && (!recurrence.Weekly? ==> series == old(series))
                && forall x :: x in old(series) ==> x in series && series[x] == old(series)[x]
      ensures series.Keys <= visits.Keys
      ensures result.Err? ==> visits == old(visits) && series == old(series)
    {
      result := CheckRequest(r, recurrence);
      if result.Ok? {
        var used := ids[..result.value];
        visits := CreateOccurrences(visits, r, used);
        EnrolledConsists(old(visits), visits, series, seriesId, r, used, recurrence);
        series := Enrolled(series, recurrence, used, seriesId);
      }
    }

    // -------------------------------------------------------------------------
    // Check-in and check-out
    // -------------------------------------------------------------------------

    /** A scan of token `k` of participant `p`; `signatureOk` is the outcome of the dynamic check. */
    method CheckInByQr(id: VisitId, p: nat, k: nat, signatureOk: bool, now: Time, cfg: Settings)
      returns (result: Result<(), Refusal>)
      modifies this`visits
      ensures id in old(visits) && signatureOk ==> visits == old(visits)[id := CheckIn(old(visits)[id], p, k, now, cfg)]
      ensures id !in old(visits) || !signatureOk ==> visits == old(visits)
      ensures result.Ok? <==> signatureOk && id in old(visits) && QrAccepts(old(visits)[id], p, k, now, cfg)
      ensures result.Ok? ==>
                && IsEntered(old(visits)[id], visits[id], p)
                && var tokens := old(visits)[id].participants[p].tokens;
                visits[id].participants[p].tokens == tokens[k := tokens[k].(used := true)]
      ensures result.Err? && result.error == AlreadyUsed ==>
                id in old(visits) && cfg.singleUse && QrAccepts(old(visits)[id], p, k, now, cfg.(singleUse := false))
    {
      if !signatureOk {
        return Err(DynamicExpired);
      }
      if id !in visits || p >= |visits[id].participants| || k >= |visits[id].participants[p].tokens| {
        return Err(InvalidQr);
      }
      var v := visits[id];
      var row := v.participants[p];
      var token := row.tokens[k];
      if token.revoked || now < token.validFrom || now > token.validUntil
         || v.status.Cancelled? || v.status.Rejected? || Terminal(row.status)
      {
        return Err(InvalidQr);
      }
      if cfg.singleUse && token.used {
        return Err(AlreadyUsed);
      }
      row := row.(tokens := row.tokens[k := token.(used := true)]);
      row := row.(status := CheckedIn);
      v := v.(participants := v.participants[p := row]);
      if v.status.Scheduled? || v.status.Approved? || v.status.Arrived? {
        v := v.(status := CheckedIn);
      }
      v := v.(events := v.events + [LogCheckedIn(p)]);
      visits := visits[id := v];
      return Ok(());
    }

    method CheckInByHand(id: VisitId, p: nat, now: Time, cfg: Settings) returns (result: Result<(), Refusal>)
      modifies this`visits
      ensures id in old(visits) ==> visits == old(visits)[id := ManualCheckIn(old(visits)[id], p, now, cfg)]
      ensures id !in old(visits) ==> visits == old(visits)
      ensures result.Ok? <==> id in old(visits) && ManualAccepts(old(visits)[id], p, now, cfg)
      ensures result.Ok? ==>
                && IsEntered(old(visits)[id], visits[id], p)
                && LiveUsed(old(visits)[id].participants[p].tokens, visits[id].participants[p].tokens)
    {
      if id !in visits || p >= |visits[id].participants| {
        return Err(NotFound);
      }
      var v := visits[id];
      var row := v.participants[p];
      if v.status.Cancelled? || v.status.Rejected? || v.status.PendingApproval?
         || (!row.status.Scheduled? && !row.status.Arrived?)
      {
        return Err(NotCheckinReady);
      }
      if now < v.startAt - cfg.early * MINUTE || now > v.endAt + cfg.late * MINUTE {
        return Err(OutsideWindow);
      }
      row := Participant(CheckedIn, UseLive(row.tokens));
      v := v.(participants := v.participants[p := row]);
      if v.status.Scheduled? || v.status.Approved? || v.status.Arrived? {
        v := v.(status := CheckedIn);
      }
      v := v.(events := v.events + [LogCheckedIn(p)]);
      visits := visits[id := v];
      return Ok(());
    }

    method CheckOutVisitor(id: VisitId, p: nat) returns (result: Result<(), Refusal>)
      modifies this`visits
      ensures id in old(visits) ==> visits == old(visits)[id := CheckOut(old(visits)[id], p)]
      ensures id !in old(visits) ==> visits == old(visits)
      ensures result.Ok? <==> id in old(visits) && p < |old(visits)[id].participants|
                              && old(visits)[id].participants[p].status.CheckedIn?
      ensures result.Ok? ==> IsExited(old(visits)[id], visits[id], p)
    {
      if id !in visits || p >= |visits[id].participants| || !visits[id].participants[p].status.CheckedIn? {
        return Err(CheckoutConflict);
      }
      var v := visits[id];
      CheckOutEffect(v, p);
      v := v.(participants := v.participants[p := v.participants[p].(status := CheckedOut)]);
      v := v.(events := v.events + [LogCheckedOut(p)]);
      v := v.(status := Aggregate(v.participants));
      visits := visits[id := v];
      return Ok(());
    }

    // -------------------------------------------------------------------------
    // Cancellation
    // -------------------------------------------------------------------------

    method CancelVisitTx(id: VisitId) returns (cancelled: bool)
      modifies this`visits
      ensures id in old(visits) ==> visits == old(visits)[id := CancelVisit(old(visits)[id])]
      ensures id !in old(visits) ==> visits == old(visits)
      ensures cancelled <==> id in old(visits) && old(visits)[id].status !in {CheckedOut, Cancelled, Rejected}
      ensures cancelled ==> IsCancelled(old(visits)[id], visits[id])
    {
      if id in visits {
        CancelVisitEffect(visits[id]);
      }
      if id !in visits || !Cancellable(visits[id]) {
        return false;
      }
      var v := visits[id].(status := Cancelled);
      var ps := v.participants;
      ps := seq(|ps|, p requires 0 <= p < |ps| =>
        if ps[p].status.CheckedOut? then ps[p] else ps[p].(status := Cancelled));
      ps := seq(|ps|, p requires 0 <= p < |ps| => ps[p].(tokens := RevokeAll(ps[p].tokens)));
      v := v.(participants := ps, events := v.events + [LogCancelled]);
      assert ps == CancelVisit(visits[id]).participants;
      visits := visits[id := v];
      return true;
    }

    /** Cancels one participant, and the visit when nobody is left in it. */
    method CancelOneParticipant(id: VisitId, p: nat)
      returns (result: Result<(bool, nat), Refusal>, ghost left: Option<Visit>)
      modifies this`visits
      ensures id in old(visits) ==> visits == old(visits)[id := CancelParticipant(old(visits)[id], p)]
      ensures id !in old(visits) ==> visits == old(visits)
      ensures result.Ok? <==> id in old(visits) && ParticipantCancellable(old(visits)[id], p)
      ensures result.Ok? ==>
                (result.value.0 <==> visits[id].status.Cancelled?) && (result.value.0 <==> result.value.1 == 0)
      ensures result.Ok? <==> id in old(visits) && MayLeave(old(visits)[id], p)
      ensures result.Ok? ==>
                && left.Some? && HasLeft(old(visits)[id], left.value, p)
                && (if result.value.0 then IsCancelled(left.value, visits[id]) else visits[id] == left.value)
                && result.value.1 == |Remaining(left.value.participants, {Cancelled, Rejected})|
    {
      if id !in visits || p >= |visits[id].participants| {
        return Err(NotFound), None;
      }
      var v := visits[id];
      ghost var without := CancelParticipantEffect(v, p);
      var row := v.participants[p];
      if Terminal(row.status) || row.status.CheckedIn? || Terminal(v.status) {
        return Err(ParticipantNotCancellable), None;
      }
      row := Participant(Cancelled, RevokeAll(row.tokens));
      v := v.(participants := v.participants[p := row]);
      v := v.(events := v.events + [LogParticipantCancelled(p)]);
      var remaining := CountNot(v.participants, {Cancelled, Rejected});
      CountIsNumber(v.participants, {Cancelled, Rejected});
      assert v.participants[p].tokens == without.participants[p].tokens;
      assert v.participants == without.participants;
      visits := visits[id := v];
      var visitCancelled := false;
      if remaining == 0 {
        visitCancelled := CancelVisitTx(id);
      }
      return Ok((visitCancelled, remaining)), Some(without);
    }

    /** Cancels an occurrence and every later one of its series; nothing happens if none can be cancelled. */
    method CancelSeries(id: VisitId) returns (result: Result<nat, Refusal>)
      modifies this`visits
      ensures visits.Keys == old(visits).Keys
      ensures result.Err? ==> visits == old(visits)
      ensures result == Err(NotFound) <==> id !in old(visits)
      ensures result == Err(NotASeries) <==> id in old(visits) && id !in series
      ensures id in old(visits) && id in series ==>
                var later := LaterOccurrences(old(visits), series, id);
                && result == (if later == {} then Err(CannotCancel) else Ok(|later|))
                && forall x :: x in visits ==>
                     if x in later then IsCancelled(old(visits)[x], visits[x]) else visits[x] == old(visits)[x]
    {
      if id !in visits {
        return Err(NotFound);
      }
      if id !in series {
        return Err(NotASeries);
      }
      var later := LaterOccurrences(visits, series, id);
      var rest := later;
      var cancelled := 0;
      while rest != {}
        invariant rest <= later && cancelled + |rest| == |later|
        invariant visits.Keys == old(visits).Keys
        invariant forall x :: x in visits ==>
                    if x in later - rest then IsCancelled(old(visits)[x], visits[x]) else visits[x] == old(visits)[x]
        decreases |rest|
      {
        var x :| x in rest;
        var done := CancelVisitTx(x);
        if done {
          cancelled := cancelled + 1;
        }
        rest := rest - {x};
      }
      if cancelled == 0 {
        return Err(CannotCancel);
      }
      return Ok(cancelled);
    }

    // -------------------------------------------------------------------------
    // Approval, reissue, rescheduling
    // -------------------------------------------------------------------------

    /** Approves or rejects; approval schedules every participant and issues a QR to each in turn. */
    method ApprovalAction(id: VisitId, approve: bool, cfg: Settings) returns (result: Result<(), Refusal>)
      modifies this`visits
      ensures id in old(visits) ==>
                visits == old(visits)[id := if approve then Approve(old(visits)[id], cfg) else Reject(old(visits)[id])]
      ensures id !in old(visits) ==> visits == old(visits)
      ensures result.Ok? <==> id in old(visits) && old(visits)[id].status.PendingApproval?
      ensures result.Ok? ==>
                if approve then IsApproved(old(visits)[id], visits[id], cfg)
                else IsRejected(old(visits)[id], visits[id])
    {
      if id !in visits || !visits[id].status.PendingApproval? {
        return Err(ApprovalConflict);
      }
      var v := visits[id];
      DecisionEffects(v, cfg);
      var status := if approve then Scheduled else Rejected;
      var ps := seq(|v.participants|, p requires 0 <= p < |v.participants| => v.participants[p].(status := status));
      if approve {
        for p := 0 to |ps|
          invariant |ps| == |v.participants|
          invariant forall q :: p <= q < |ps| ==> ps[q] == v.participants[q].(status := Scheduled)
          invariant forall q :: 0 <= q < p ==> ps[q] == Admitted(v, q, cfg)
        {
          ps := ps[p := ps[p].(tokens := ps[p].tokens + [NewToken(ps[p].tokens, v.startAt, v.endAt, cfg, None)])];
        }
        assert ps == Approve(v, cfg).participants;
      }
      v := v.(status := status, participants := ps);
      v := v.(events := v.events + [if approve then LogScheduled else LogRejected]);
      visits := visits[id := v];
      return Ok(());
    }

    method ReissueQr(id: VisitId, p: nat, cfg: Settings) returns (result: Result<(), Refusal>)
      modifies this`visits
      ensures id in old(visits) ==> visits == old(visits)[id := Reissue(old(visits)[id], p, cfg)]
      ensures id !in old(visits) ==> visits == old(visits)
      ensures result.Ok? <==> id in old(visits) && Reissuable(old(visits)[id], p)
      ensures result.Ok? <==> id in old(visits) && MayReissue(old(visits)[id], p)
      ensures result.Ok? ==> IsReissued(old(visits)[id], visits[id], p, cfg)
    {
      if id in visits {
        ReissueEffect(visits[id], p, cfg);
      }
      if id !in visits || p >= |visits[id].participants| {
        return Err(NotFound);
      }
      var v := visits[id];
      var row := v.participants[p];
      if Terminal(row.status) {
        return Err(ParticipantNotReissuable);
      }
      if !v.status.Scheduled? && !v.status.Approved? {
        return Err(VisitNotReissuable);
      }
      var previous := Live(row.tokens);
      var tokens := RevokeAll(row.tokens);
      tokens := tokens + [NewToken(tokens, v.startAt, v.endAt, cfg, previous)];
      visits := visits[id := v.(participants := v.participants[p := row.(tokens := tokens)])];
      return Ok(());
    }

    /** The status guard is read before the transaction; `seen` is what it read. */
    method UpdateVisit(id: VisitId, start: Time, end: Time, seen: Status, cfg: Settings)
      returns (result: Result<(), Refusal>)
      modifies this`visits
      ensures result.Ok? <==>
                && start < end <= start + 31 * 1440 * MINUTE
                && id in old(visits) && seen in {PendingApproval, Scheduled, Approved}
      ensures result.Ok? ==> visits == old(visits)[id := Reschedule(old(visits)[id], start, end, cfg)]
      ensures result.Ok? ==> IsRescheduled(old(visits)[id], visits[id], start, end, cfg)
      ensures result.Err? ==> visits == old(visits)
    {
      if start >= end {
        return Err(InvalidSchedule);
      }
      if end - start > 31 * 24 * 60 * MINUTE {
        return Err(ScheduleTooLong);
      }
      if id !in visits || !Editable(seen) {
        return Err(NotFound);
      }
      RescheduleEffect(visits[id], start, end, cfg);
      var from, until := start - cfg.early * MINUTE, end + cfg.late * MINUTE;
      var ps := visits[id].participants;
      ps := seq(|ps|, p requires 0 <= p < |ps| => ps[p].(tokens := MoveLive(ps[p].tokens, from, until)));
      assert ps == Reschedule(visits[id], start, end, cfg).participants;
      visits := visits[id := visits[id].(startAt := start, endAt := end, participants := ps)];
      return Ok(());
    }

    // -------------------------------------------------------------------------
    // Maintenance
    // -------------------------------------------------------------------------

    /** One maintenance tick: no-shows are marked, then visits nobody came to are closed. */
    method RunVisitMaintenance(now: Time, cfg: Settings)
      modifies this`visits
      ensures visits.Keys == old(visits).Keys
      ensures forall id :: id in visits ==>
                && visits[id] == CloseNoShow(MarkNoShows(old(visits)[id], now, cfg))
                && IsMaintained(old(visits)[id], visits[id], now, cfg)
    {
      visits := MaintainVisits(visits, now, cfg);
    }

    /** Everyone still inside past the cutoff leaves, is logged, and their visits are recomputed. */
    method RunAutomaticCheckouts(cutoffs: map<VisitId, set<nat>>)
      modifies this`visits
      ensures visits.Keys == old(visits).Keys
      ensures forall id :: id in visits ==>
                && visits[id] == AutoCheckOut(old(visits)[id], CutoffOf(cutoffs, id))
                && IsSwept(old(visits)[id], visits[id], if id in cutoffs then cutoffs[id] else {})
    {
      visits := SweepVisits(visits, cutoffs);
    }
  }

  /** No-shows are marked in every visit, and then the visits nobody came to are closed. */
  method MaintainVisits(visits: Visits, now: Time, cfg: Settings) returns (maintained: Visits)
    ensures maintained.Keys == visits.Keys
    ensures forall id :: id in visits ==>
              && maintained[id] == CloseNoShow(MarkNoShows(visits[id], now, cfg))
              && IsMaintained(visits[id], maintained[id], now, cfg)
  {
    var marked := map id | id in visits :: MarkNoShows(visits[id], now, cfg);
    maintained := map id | id in marked :: CloseNoShow(marked[id]);
    TicksMaintain(visits, maintained, now, cfg);
  }

  lemma TicksMaintain(visits: Visits, maintained: Visits, now: Time, cfg: Settings)
    requires maintained.Keys == visits.Keys
    requires forall id :: id in visits ==> maintained[id] == CloseNoShow(MarkNoShows(visits[id], now, cfg))
    ensures forall id :: id in visits ==> IsMaintained(visits[id], maintained[id], now, cfg)
  {
    forall id | id in visits ensures IsMaintained(visits[id], maintained[id], now, cfg) {
      TickEffect(visits[id], now, cfg);
    }
  }

  /** A participant of an approved visit. */
  function Admitted(v: Visit, p: nat, cfg: Settings): Participant
    requires p < |v.participants|
  {
    var tokens := v.participants[p].tokens;
    Participant(Scheduled, tokens + [NewToken(tokens, v.startAt, v.endAt, cfg, None)])
  }

  // ---------------------------------------------------------------------------
  // The automatic check-out, step by step
  // ---------------------------------------------------------------------------

  function CutoffOf(cutoffs: map<VisitId, set<nat>>, id: VisitId): set<nat> {
    if id in cutoffs then cutoffs[id] else {}
  }

  datatype Ended = Ended(id: VisitId, p: nat)

  /** The events the ended list puts in the log of one visit. */
  function Exits(ended: seq<Ended>, id: VisitId): seq<Event> {
    if ended == [] then []
    else
      var last := ended[|ended| - 1];
      Exits(ended[..|ended| - 1], id) + if last.id == id then [LogCheckedOut(last.p)] else []
  }

  /** The swept participants of one visit below `n`, in order. */
  function EndedOf(id: VisitId, swept: set<nat>, n: nat): seq<Ended> {
    if n == 0 then []
    else if n - 1 in swept then EndedOf(id, swept, n - 1) + [Ended(id, n - 1)]
    else EndedOf(id, swept, n - 1)
  }

  /** The distinct visits of the list, in the order they first appear. */
  method CheckedOutVisitIds(items: seq<Ended>) returns (ids: seq<VisitId>)
    ensures forall i, j :: 0 <= i < j < |ids| ==> ids[i] != ids[j]
    ensures forall id :: id in ids <==> exists i :: 0 <= i < |items| && items[i].id == id
  {
    ids := [];
    for n := 0 to |items|
      invariant forall i, j :: 0 <= i < j < |ids| ==> ids[i] != ids[j]
      invariant forall id :: id in ids <==> exists i :: 0 <= i < n && items[i].id == id
    {
      if items[n].id !in ids {
        ids := ids + [items[n].id];
      }
    }
  }

  lemma SnocExits(ended: seq<Ended>, item: Ended, id: VisitId)
    ensures Exits(ended + [item], id) == Exits(ended, id) + if item.id == id then [LogCheckedOut(item.p)] else []
  {
    assert (ended + [item])[..|ended|] == ended;
  }

  lemma {:induction false} ExitsAppend(a: seq<Ended>, b: seq<Ended>, id: VisitId)
    ensures Exits(a + b, id) == Exits(a, id) + Exits(b, id)
    decreases |b|
  {
    if b == [] {
      assert a + b == a;
    } else {
      var last := b[|b| - 1];
      assert a + b == (a + b[..|b| - 1]) + [last];
      ExitsAppend(a, b[..|b| - 1], id);
      SnocExits(a + b[..|b| - 1], last, id);
    }
  }

  lemma {:induction false} ExitsOfOne(id: VisitId, swept: set<nat>, n: nat, other: VisitId)
    ensures Exits(EndedOf(id, swept, n), other) == if other == id then ExitLog(swept, n) else []
  {
    if n > 0 {
      ExitsOfOne(id, swept, n - 1, other);
      SnocExits(EndedOf(id, swept, n - 1), Ended(id, n - 1), other);
      assert ExitLog(swept, n - 1) + [] == ExitLog(swept, n - 1);
    }
  }

  /** The events one visit has coming. */
  function ExitsDue(v: Visit, cutoff: set<nat>): seq<Event> {
    ExitLog(Swept(v, cutoff), |v.participants|)
  }

  function Emptied(v: Visit, cutoff: set<nat>): Visit {
    v.(participants := MarkAll(v.participants, Swept(v, cutoff), CheckedOut))
  }

  lemma MoreExits(ended: seq<Ended>, v: Visit, id: VisitId, cutoff: set<nat>, other: VisitId)
    ensures Exits(ended + EndedOf(id, Swept(v, cutoff), |v.participants|), other) ==
            Exits(ended, other) + if other == id then ExitsDue(v, cutoff) else []
  {
    ExitsAppend(ended, EndedOf(id, Swept(v, cutoff), |v.participants|), other);
    ExitsOfOne(id, Swept(v, cutoff), |v.participants|, other);
  }

  /** The visits outside `rest` have all their events in the list, and no other visit has any. */
  ghost predicate Covers(visits: Visits, cutoffs: map<VisitId, set<nat>>, ended: seq<Ended>, rest: set<VisitId>) {
    forall id :: Exits(ended, id) ==
                 if id in visits && id !in rest then ExitsDue(visits[id], CutoffOf(cutoffs, id)) else []
  }

  lemma CoverOne(visits: Visits, cutoffs: map<VisitId, set<nat>>, ended: seq<Ended>, rest: set<VisitId>, id: VisitId)
    requires Covers(visits, cutoffs, ended, rest) && id in rest && id in visits
    ensures
      var v := visits[id];
      Covers(visits, cutoffs, ended + EndedOf(id, Swept(v, CutoffOf(cutoffs, id)), |v.participants|), rest - {id})
  {
    var v, cutoff := visits[id], CutoffOf(cutoffs, id);
    var more := EndedOf(id, Swept(v, cutoff), |v.participants|);
    forall other
      ensures Exits(ended + more, other) ==
              if other in visits && other !in rest - {id} then ExitsDue(visits[other], CutoffOf(cutoffs, other)) else []
    {
      MoreExits(ended, v, id, cutoff, other);
      assert Exits(ended, other) ==
             if other in visits && other !in rest then ExitsDue(visits[other], CutoffOf(cutoffs, other)) else [];
    }
  }

  /** The list of everybody the update checks out. */
  method ListEnded(visits: Visits, cutoffs: map<VisitId, set<nat>>) returns (ended: seq<Ended>)
    ensures Covers(visits, cutoffs, ended, {})
  {
    ended := [];
    var rest := visits.Keys;
    while rest != {}
      invariant rest <= visits.Keys
      invariant Covers(visits, cutoffs, ended, rest)
      decreases |rest|
    {
      var id :| id in rest;
      CoverOne(visits, cutoffs, ended, rest, id);
      ended := ended + EndedOf(id, Swept(visits[id], CutoffOf(cutoffs, id)), |visits[id].participants|);
      rest := rest - {id};
    }
  }

  /** One event per entry of the list. */
  method LogExits(left: Visits, ended: seq<Ended>) returns (logged: Visits)
    ensures logged.Keys == left.Keys
    ensures forall id :: id in left ==> logged[id] == left[id].(events := left[id].events + Exits(ended, id))
  {
    logged := left;
    for i := 0 to |ended|
      invariant logged.Keys == left.Keys
      invariant forall id :: id in left ==> logged[id] == left[id].(events := left[id].events + Exits(ended[..i], id))
    {
      assert ended[..i + 1] == ended[..i] + [ended[i]];
      forall id {
        SnocExits(ended[..i], ended[i], id);
      }
      var id := ended[i].id;
      if id in logged {
        logged := logged[id := Log(logged[id], LogCheckedOut(ended[i].p))];
      }
    }
    assert ended[..|ended|] == ended;
  }

  /** The visits of the list get the status their participants now give them. */
  method Recompute(logged: Visits, ids: seq<VisitId>) returns (visits: Visits)
    requires forall i, j :: 0 <= i < j < |ids| ==> ids[i] != ids[j]
    ensures visits.Keys == logged.Keys
    ensures forall id :: id in logged && id in ids ==>
              visits[id] == logged[id].(status := Aggregate(logged[id].participants))
    ensures forall id :: id in logged && id !in ids ==> visits[id] == logged[id]
  {
    visits := logged;
    for n := 0 to |ids|
      invariant visits.Keys == logged.Keys
      invariant forall i :: n <= i < |ids| && ids[i] in logged ==> visits[ids[i]] == logged[ids[i]]
      invariant forall i :: 0 <= i < n && ids[i] in logged ==>
                  visits[ids[i]] == logged[ids[i]].(status := Aggregate(logged[ids[i]].participants))
      invariant forall id :: id in logged && id !in ids ==> visits[id] == logged[id]
    {
      if ids[n] in visits {
        visits := visits[ids[n] := visits[ids[n]].(status := Aggregate(visits[ids[n]].participants))];
      }
    }
  }

  /** A visit after the update and its events. */
  function LoggedExit(v: Visit, cutoff: set<nat>): Visit {
    Emptied(v, cutoff).(events := v.events + ExitsDue(v, cutoff))
  }

  /** Recomputing the status finishes the automatic check-out of a visit somebody was swept out of. */
  lemma LoggedThenRecomputed(v: Visit, cutoff: set<nat>)
    ensures AutoCheckOut(v, cutoff) ==
            if Swept(v, cutoff) == {} then LoggedExit(v, cutoff)
            else LoggedExit(v, cutoff).(status := Aggregate(LoggedExit(v, cutoff).participants))
  {
  }

  method EndAndLog(visits: Visits, cutoffs: map<VisitId, set<nat>>) returns (logged: Visits, ended: seq<Ended>)
    ensures logged.Keys == visits.Keys && Covers(visits, cutoffs, ended, {})
    ensures forall id :: id in visits ==> logged[id] == LoggedExit(visits[id], CutoffOf(cutoffs, id))
  {
    ended := ListEnded(visits, cutoffs);
    var left := EmptiedAll(visits, cutoffs);
    logged := LogExits(left, ended);
    forall id | id in visits ensures logged[id] == LoggedExit(visits[id], CutoffOf(cutoffs, id)) {
      assert Exits(ended, id) == ExitsDue(visits[id], CutoffOf(cutoffs, id));
      LoggedOne(visits[id], CutoffOf(cutoffs, id), logged[id]);
    }
  }

  /** The UPDATE that checks everybody out. */
  function EmptiedAll(visits: Visits, cutoffs: map<VisitId, set<nat>>): (left: Visits)
    ensures left.Keys == visits.Keys
  {
    map id | id in visits :: Emptied(visits[id], CutoffOf(cutoffs, id))
  }

  lemma LoggedOne(v: Visit, cutoff: set<nat>, logged: Visit)
    requires logged == Emptied(v, cutoff).(events := Emptied(v, cutoff).events + ExitsDue(v, cutoff))
    ensures logged == LoggedExit(v, cutoff)
  {
  }

  method SweepVisits(visits: Visits, cutoffs: map<VisitId, set<nat>>) returns (swept: Visits)
    ensures swept.Keys == visits.Keys
    ensures forall id :: id in visits ==>
              && swept[id] == AutoCheckOut(visits[id], CutoffOf(cutoffs, id))
              && IsSwept(visits[id], swept[id], if id in cutoffs then cutoffs[id] else {})
  {
    var logged, ended := EndAndLog(visits, cutoffs);
    var ids := CheckedOutVisitIds(ended);
    swept := Recompute(logged, ids);
    forall id | id in visits
      ensures swept[id] == AutoCheckOut(visits[id], CutoffOf(cutoffs, id))
      ensures IsSwept(visits[id], swept[id], if id in cutoffs then cutoffs[id] else {})
    {
      AutoCheckOutEffect(visits[id], CutoffOf(cutoffs, id));
      assert Exits(ended, id) == ExitsDue(visits[id], CutoffOf(cutoffs, id));
      ListedIfSwept(visits[id], CutoffOf(cutoffs, id), ended, id);
      LoggedThenRecomputed(visits[id], CutoffOf(cutoffs, id));
    }
  }

  lemma {:induction false} NoExits(ended: seq<Ended>, id: VisitId)
    ensures Exits(ended, id) == [] <==> forall i :: 0 <= i < |ended| ==> ended[i].id != id
  {
    if ended != [] {
      NoExits(ended[..|ended| - 1], id);
    }
  }

  lemma {:induction false} ExitLogEmpty(swept: set<nat>, n: nat)
    ensures ExitLog(swept, n) == [] <==> forall p :: 0 <= p < n ==> p !in swept
  {
    if n > 0 {
      ExitLogEmpty(swept, n - 1);
    }
  }

  /** A visit is in the list exactly when somebody was swept out of it. */
  lemma ListedIfSwept(v: Visit, cutoff: set<nat>, ended: seq<Ended>, id: VisitId)
    requires Exits(ended, id) == ExitsDue(v, cutoff)
    ensures (exists i :: 0 <= i < |ended| && ended[i].id == id) <==> Swept(v, cutoff) != {}
  {
    NoExits(ended, id);
    ExitLogEmpty(Swept(v, cutoff), |v.participants|);
    assert Swept(v, cutoff) != {} ==> exists p :: p in Swept(v, cutoff);
  }
}
