/** What transactions do to single rows, as far as it follows from the transactions alone. */
module NotificationMoves {
  import opened Wrappers
  import opened NotificationHistory
  import opened NotificationQueue

  /** Back in the queue with a full budget. */
  ghost predicate IsReset(r: Row, r': Row) {
    && r'.status.Queued? && r'.attempts == 0 && r'.claimToken.None? && r'.claimedAt.None? && r'.lock.None?
    && r'.history == r.history + [Reset]
  }

  /** Cancelled, and a claim that was open gave its attempt back. */
  ghost predicate IsCancel(r: Row, r': Row) {
    && r'.status.Cancelled? && r'.claimToken.None? && r'.claimedAt.None? && r'.lock.None?
    && r'.attempts == (if r.status.Sending? then OneLess(r.attempts) else r.attempts)
    && r'.history == r.history + [Withdrawn]
  }

  lemma CancelMoves(s: State, ids: set<Id>, n: Id)
    requires n in s.rows && !AnyLocked(s, ids)
    ensures
      var r := CancelIn(s.rows, ids)[n];
      r == s.rows[n] || (s.rows[n].lock.None? && Pending(s.rows[n]) && IsCancel(s.rows[n], r))
  {
  }

  lemma RefreshRowMoves(s: State, n: Id, r: Row, rule: Rule, vs: Visits)
    requires r.lock.None?
    ensures IsCancel(r, RefreshRow(s, n, r, rule, vs)) || IsReset(r, RefreshRow(s, n, r, rule, vs))
  {
  }

  /** What a rule update makes of one message. */
  lemma UpdatedMessage(s: State, r: RuleId, rule: Rule, vs: Visits, n: Id)
    requires n in s.rows
    ensures n in UpdatedMessages(s, r, rule, vs)
    ensures
      var row, after := s.rows[n], UpdatedMessages(s, r, rule, vs)[n];
      if row.ruleId != Some(r) || KeepsMessages(s, r, rule) then after == row
      else if RebuildsMessages(s, r, rule) then after == RebuiltRow(s, r, rule, vs, n)
      else after == if Pending(row) then CancelRow(row) else row
  {
    assert n in OfRule(s, r) <==> s.rows[n].ruleId == Some(r);
  }

  /** A message of a visit_start rule: taken back from its worker, then refreshed if it is still due. */
  function RebuiltRow(s: State, r: RuleId, rule: Rule, vs: Visits, n: Id): Row
    requires n in s.rows
  {
    var rewound := RewindRow(s.rows[n], s.now);
    if (rewound.status.Queued? || rewound.status.Failed?) && rewound.visitId.Some?
    then RefreshRow(WithRule(s, r, rule), n, rewound, rule, vs) else rewound
  }

  /** The row still belongs to its API and its rule, and was pending already or is not now. */
  predicate SameLinks(r: Row, r': Row) {
    r'.apiId == r.apiId && r'.ruleId == r.ruleId && (Pending(r') ==> Pending(r))
  }

  lemma WorkerKeepsLinks(s: State, w: WorkerId, step: WorkerStep)
    ensures
      var s' := StepWorker(s, w, step);
      && s'.rules == s.rules && s'.apis == s.apis && s'.rows.Keys == s.rows.Keys
      && forall n :: n in s.rows ==> SameLinks(s.rows[n], s'.rows[n])
  {
    match step {
      case Claiming(_) =>
      case TakingLock =>
      case StartingCall =>
      case Committing(_) =>
      case Crashing =>
      case Settling(_) =>
    }
  }

  lemma CancelInKeepsLinks(rows: map<Id, Row>, ids: set<Id>)
    ensures forall n :: n in CancelIn(rows, ids) ==> n in rows && SameLinks(rows[n], CancelIn(rows, ids)[n])
  {
  }
}
