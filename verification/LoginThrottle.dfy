/**
 Login throttling: the auth_throttle table, the sign-in sequence that reads and writes it, and how
 many passwords can be compared while it is in force.
 */
module LoginThrottle {
  import opened Wrappers

  type Time = int // microseconds
  const SECOND: int := 1_000_000
  const MINUTE: int := 60 * SECOND
  const DAY: int := 1440 * MINUTE
  const IP_LOCKOUT_MULTIPLIER: nat := 10

  type Key = string

  datatype Row = Row(failures: nat, firstFailureAt: Time, lastFailureAt: Time, lockedUntil: Option<Time>)

  type Table = map<Key, Row>

  datatype Policy = Policy(maxAttempts: nat, lockoutMinutes: nat)

  /** Settings that are not in range fall back to five attempts and fifteen minutes. */
  function ThrottlePolicy(maxAttempts: int, lockoutMinutes: int): (policy: Policy)
    ensures PolicyOk(policy)
    ensures 1 <= policy.maxAttempts <= 100 && 1 <= policy.lockoutMinutes <= 1440
    ensures policy.maxAttempts in {maxAttempts, 5} && policy.lockoutMinutes in {lockoutMinutes, 15}
    ensures 1 <= maxAttempts <= 100 ==> policy.maxAttempts == maxAttempts
    ensures 1 <= lockoutMinutes <= 1440 ==> policy.lockoutMinutes == lockoutMinutes
  {
    Policy(if maxAttempts < 1 || maxAttempts > 100 then 5 else maxAttempts,
           if lockoutMinutes < 1 || lockoutMinutes > 1440 then 15 else lockoutMinutes)
  }

  predicate PolicyOk(policy: Policy) {
    1 <= policy.maxAttempts <= 100 && 1 <= policy.lockoutMinutes <= 1440
  }

  function Lockout(policy: Policy): Time {
    policy.lockoutMinutes * MINUTE
  }

  /** `username` is trimmed and in lower case. */
  function ThrottleKeys(ip: string, username: string): seq<Key> {
    ["ip:" + ip] + if username == "" then [] else ["user:" + username]
  }

  predicate IsIpKey(key: Key) {
    "ip:" <= key
  }

  function Threshold(key: Key, policy: Policy): nat {
    if IsIpKey(key) then policy.maxAttempts * IP_LOCKOUT_MULTIPLIER else policy.maxAttempts
  }

  // ---------------------------------------------------------------------------
  // Single rows
  // ---------------------------------------------------------------------------

  predicate LockedAt(table: Table, key: Key, now: Time) {
    key in table && table[key].lockedUntil.Some? && table[key].lockedUntil.value > now
  }

  predicate AnyLocked(table: Table, keys: seq<Key>, now: Time) {
    exists i :: 0 <= i < |keys| && LockedAt(table, keys[i], now)
  }

  predicate LockedUntil(table: Table, keys: seq<Key>, now: Time, until: Time) {
    exists i :: 0 <= i < |keys| && LockedAt(table, keys[i], now) && table[keys[i]].lockedUntil.value == until
  }

  /** The upsert: a first failure never locks, and a long quiet period starts the count again. */
  function RecordOne(table: Table, key: Key, now: Time, policy: Policy): Table {
    if key !in table then table[key := Row(1, now, now, None)]
    else
      var row := table[key];
      var quiet := row.lastFailureAt < now - Lockout(policy);
      var failures := if quiet then 1 else row.failures + 1;
      table[key := Row(
        failures,
        if quiet then now else row.firstFailureAt,
        now,
        if failures >= Threshold(key, policy) then Some(now + Lockout(policy)) else row.lockedUntil)]
  }

  /** One upsert per key, each at its own time. */
  function RecordAll(table: Table, failures: seq<(Key, Time)>, policy: Policy): Table {
    if failures == [] then table
    else
      var last := failures[|failures| - 1];
      RecordOne(RecordAll(table, failures[..|failures| - 1], policy), last.0, last.1, policy)
  }

  predicate Stale(row: Row, now: Time) {
    row.lastFailureAt < now - DAY && (row.lockedUntil.None? || row.lockedUntil.value < now)
  }

  /** The nightly deletion. */
  function Swept(table: Table, now: Time): Table {
    map key | key in table && !Stale(table[key], now) :: table[key]
  }

  function Cleared(table: Table, keys: seq<Key>): Table {
    map key | key in table && key !in keys :: table[key]
  }

  // ---------------------------------------------------------------------------
  // Signing in
  // ---------------------------------------------------------------------------

  /** What the credentials and the session store have to say about an attempt. */
  datatype Verdict = Wrong | Right | SessionFails

  datatype Attempt = Attempt(ip: string, username: string, verdict: Verdict, at: Time, ipAt: Time, userAt: Time)

  function KeysOf(a: Attempt): seq<Key> {
    ThrottleKeys(a.ip, a.username)
  }

  function FailuresOf(a: Attempt): seq<(Key, Time)> {
    [("ip:" + a.ip, a.ipAt)] + if a.username == "" then [] else [("user:" + a.username, a.userAt)]
  }

  /** A password is compared exactly when no key of the attempt is locked. */
  predicate Compares(table: Table, a: Attempt) {
    !AnyLocked(table, KeysOf(a), a.at)
  }

  function AfterAttempt(table: Table, a: Attempt, policy: Policy): Table {
    if !Compares(table, a) then table
    else match a.verdict
      case Wrong => RecordAll(table, FailuresOf(a), policy)
      case Right => Cleared(table, KeysOf(a))
      case SessionFails => table
  }

  /** What a failure leaves of the row of its key: counted again after a quiet lockout, locked at the threshold. */
  ghost predicate IsCounted(table: Table, row: Row, key: Key, now: Time, policy: Policy) {
    var lockout := policy.lockoutMinutes * 60 * SECOND;
    var threshold := if "ip:" <= key then 10 * policy.maxAttempts else policy.maxAttempts;
    if key !in table then row == Row(1, now, now, None)
    else
      var quiet := table[key].lastFailureAt < now - lockout;
      && row.failures == (if quiet then 1 else table[key].failures + 1)
      && row.firstFailureAt == (if quiet then now else table[key].firstFailureAt)
      && row.lastFailureAt == now
      && row.lockedUntil == if row.failures >= threshold then Some(now + lockout) else table[key].lockedUntil
  }

  lemma RecordEffect(table: Table, key: Key, now: Time, policy: Policy)
    ensures key in RecordOne(table, key, now, policy)
    ensures IsCounted(table, RecordOne(table, key, now, policy)[key], key, now, policy)
    ensures forall other :: other != key ==>
              && (other in RecordOne(table, key, now, policy) <==> other in table)
              && (other in table ==> RecordOne(table, key, now, policy)[other] == table[other])
  {
  }

  /** What an attempt leaves: a failure counted for each of its keys, a success with them forgotten. */
  ghost predicate IsAttempted(table: Table, table': Table, a: Attempt, policy: Policy) {
    forall key :: IsAttemptedOn(table, table', a, key, policy)
  }

  ghost predicate IsAttemptedOn(table: Table, table': Table, a: Attempt, key: Key, policy: Policy) {
    if key in KeysOf(a) && Compares(table, a) && a.verdict.Wrong? then
      key in table' && IsCounted(table, table'[key], key, RecordedAt(a, key), policy)
    else if key in KeysOf(a) && Compares(table, a) && a.verdict.Right? then key !in table'
    else (key in table' <==> key in table) && (key in table ==> table'[key] == table[key])
  }

  lemma AttemptEffect(table: Table, a: Attempt, policy: Policy)
    ensures IsAttempted(table, AfterAttempt(table, a, policy), a, policy)
  {
    forall key ensures IsAttemptedOn(table, AfterAttempt(table, a, policy), a, key, policy) {
      RecordPerKey(table, a, key, policy);
      RecordEffect(table, key, RecordedAt(a, key), policy);
    }
  }

  datatype Reply = LocalLoginDisabled | LockedOut(wait: Time) | Refused | NoSession | SignedIn

  class ThrottleTable {
    var rows: Table

    constructor ()
      ensures rows == map[]
    {
      rows := map[];
    }

    /** The longest lock on any of the keys, never less than a second; zero when none is locked. */
    method LoginLock(keys: seq<Key>, now: Time) returns (remaining: Time)
      ensures remaining > 0 <==> AnyLocked(rows, keys, now)
      ensures remaining > 0 <==>
                exists i :: 0 <= i < |keys| && keys[i] in rows
                            && rows[keys[i]].lockedUntil.Some? && now < rows[keys[i]].lockedUntil.value
      ensures remaining == 0 || remaining >= SECOND
      ensures forall i :: 0 <= i < |keys| && LockedAt(rows, keys[i], now) ==>
                rows[keys[i]].lockedUntil.value <= now + remaining
      ensures remaining > SECOND ==> LockedUntil(rows, keys, now, now + remaining)
    {
      remaining := 0;
      for n := 0 to |keys|
        invariant remaining == 0 || remaining >= SECOND
        invariant remaining > 0 <==> exists i :: 0 <= i < n && LockedAt(rows, keys[i], now)
        invariant forall i :: 0 <= i < n && LockedAt(rows, keys[i], now) ==>
                    rows[keys[i]].lockedUntil.value <= now + remaining
        invariant remaining > SECOND ==> LockedUntil(rows, keys, now, now + remaining)
      {
        if LockedAt(rows, keys[n], now) {
          var left := rows[keys[n]].lockedUntil.value - now;
          remaining := if left < SECOND && remaining == 0 then SECOND else if left > remaining then left else remaining;
        }
      }
    }

    method RecordLoginFailure(failures: seq<(Key, Time)>, policy: Policy)
      modifies this
      ensures rows == RecordAll(old(rows), failures, policy)
    {
      for n := 0 to |failures|
        invariant rows == RecordAll(old(rows), failures[..n], policy)
      {
        var key, now := failures[n].0, failures[n].1;
        assert failures[..n + 1][..n] == failures[..n];
        rows := RecordOne(rows, key, now, policy);
      }
      assert failures[..|failures|] == failures;
    }

    method ClearLoginFailures(keys: seq<Key>)
      modifies this
      ensures rows == Cleared(old(rows), keys)
      ensures forall key :: key in rows <==> key in old(rows) && key !in keys
      ensures forall key :: key in rows ==> rows[key] == old(rows)[key]
    {
      rows := map key | key in rows && key !in keys :: rows[key];
    }

    method Cleanup(now: Time)
      modifies this
      ensures rows == Swept(old(rows), now)
      ensures forall key :: key in rows <==>
                && key in old(rows)
                && !(&& old(rows)[key].lastFailureAt < now - 24 * 60 * MINUTE
                     && (old(rows)[key].lockedUntil.Some? ==> old(rows)[key].lockedUntil.value < now))
      ensures forall key :: key in rows ==> rows[key] == old(rows)[key]
    {
      rows := map key | key in rows && !Stale(rows[key], now) :: rows[key];
    }

    /** Reads the lock, compares, then records or clears. */
    method LocalLogin(enabled: bool, a: Attempt, policy: Policy) returns (reply: Reply)
      modifies this
      ensures !enabled ==> reply == LocalLoginDisabled && rows == old(rows)
      ensures enabled ==> rows == AfterAttempt(old(rows), a, policy)
      ensures enabled ==> IsAttempted(old(rows), rows, a, policy)
      ensures enabled ==> (reply.LockedOut? <==> !Compares(old(rows), a))
      ensures enabled ==>
                (reply.LockedOut? <==>
                  exists key :: key in KeysOf(a) && key in old(rows)
                                && old(rows)[key].lockedUntil.Some? && a.at < old(rows)[key].lockedUntil.value)
      ensures enabled && Compares(old(rows), a) ==>
                reply == match a.verdict case Wrong => Refused case Right => SignedIn case SessionFails => NoSession
    {
      if !enabled {
        return LocalLoginDisabled;
      }
      AttemptEffect(rows, a, policy);
      var throttleKeys := ThrottleKeys(a.ip, a.username);
      var remaining := LoginLock(throttleKeys, a.at);
      if remaining > 0 {
        return LockedOut(remaining);
      }
      if a.verdict.Wrong? {
        RecordLoginFailure(FailuresOf(a), policy);
        return Refused;
      }
      if a.verdict.SessionFails? {
        return NoSession;
      }
      ClearLoginFailures(throttleKeys);
      return SignedIn;
    }
  }

  // ---------------------------------------------------------------------------
  // Runs
  // ---------------------------------------------------------------------------

  datatype Action = Trying(a: Attempt) | Cleaning(now: Time)

  function Start(action: Action): Time {
    match action
    case Trying(a) => a.at
    case Cleaning(now) => now
  }

  function End(action: Action): Time {
    match action
    case Trying(a) => if a.ipAt < a.userAt then a.userAt else a.ipAt
    case Cleaning(now) => now
  }

  /** A failure is recorded no earlier than the lock was read. */
  predicate Orderly(action: Action) {
    action.Trying? ==> action.a.at <= action.a.ipAt && action.a.at <= action.a.userAt
  }

  /** One action after the other: each is over before the next one starts. */
  predicate Sequential(actions: seq<Action>) {
    && (forall i :: 0 <= i < |actions| ==> Orderly(actions[i]))
    && (forall i, j :: 0 <= i < j < |actions| ==> End(actions[i]) <= Start(actions[j]))
  }

  function After(actions: seq<Action>, policy: Policy): Table {
    if actions == [] then map[]
    else
      var table := After(actions[..|actions| - 1], policy);
      match actions[|actions| - 1]
      case Trying(a) => AfterAttempt(table, a, policy)
      case Cleaning(now) => Swept(table, now)
  }

  /** Whether each attempt got as far as comparing the password. */
  function Trace(actions: seq<Action>, policy: Policy): seq<(Attempt, bool)> {
    if actions == [] then []
    else
      var before := Trace(actions[..|actions| - 1], policy);
      match actions[|actions| - 1]
      case Trying(a) => before + [(a, Compares(After(actions[..|actions| - 1], policy), a))]
      case Cleaning(_) => before
  }

  /** Passwords compared for a key at times from `from` up to, not including, `until`. */
  function Comparisons(trace: seq<(Attempt, bool)>, key: Key, from: Time, until: Time): nat {
    if trace == [] then 0
    else
      var last := trace[|trace| - 1];
      Comparisons(trace[..|trace| - 1], key, from, until)
      + if last.1 && key in KeysOf(last.0) && from <= last.0.at < until then 1 else 0
  }

  /** Nobody signs in with this key. */
  predicate NoSuccess(actions: seq<Action>, key: Key) {
    forall i :: 0 <= i < |actions| && actions[i].Trying? && key in KeysOf(actions[i].a) ==> actions[i].a.verdict.Wrong?
  }

  /** The first failure is an INSERT, which never locks, so a threshold of one acts as two. */
  function Bound(key: Key, policy: Policy): nat {
    var threshold := Threshold(key, policy);
    if threshold < 2 then 2 else threshold
  }

  lemma SnocComparisons(trace: seq<(Attempt, bool)>, last: (Attempt, bool), key: Key, from: Time, until: Time)
    ensures Comparisons(trace + [last], key, from, until) ==
            Comparisons(trace, key, from, until)
            + if last.1 && key in KeysOf(last.0) && from <= last.0.at < until then 1 else 0
  {
    assert (trace + [last])[..|trace|] == trace;
  }

  // ---------------------------------------------------------------------------
  // What an attempt does to one key
  // ---------------------------------------------------------------------------

  /** When the failure of this key is recorded. */
  function RecordedAt(a: Attempt, key: Key): Time {
    if key == "ip:" + a.ip then a.ipAt else a.userAt
  }

  /** The two keys of an attempt differ, so each is recorded once. */
  lemma RecordPerKey(table: Table, a: Attempt, key: Key, policy: Policy)
    ensures
      var after := RecordAll(table, FailuresOf(a), policy);
      if key in KeysOf(a) then key in after && after[key] == RecordOne(table, key, RecordedAt(a, key), policy)[key]
      else (key in after <==> key in table) && (key in table ==> after[key] == table[key])
  {
    var ip, user := "ip:" + a.ip, "user:" + a.username;
    assert ip[0] == 'i' && user[0] == 'u';
    var failures := FailuresOf(a);
    assert failures[..0] == [];
    assert RecordAll(table, failures[..1], policy) == RecordOne(table, ip, a.ipAt, policy) by {
      assert failures[..1][..0] == [];
    }
    assert failures[..|failures|] == failures;
  }

  lemma UnlockedIfCompared(table: Table, a: Attempt, key: Key)
    requires Compares(table, a) && key in KeysOf(a)
    ensures !LockedAt(table, key, a.at)
  {
  }

  // ---------------------------------------------------------------------------
  // The bound
  // ---------------------------------------------------------------------------

  /** Every comparison since `from` is counted in the row, and the last one allowed has locked it. */
  ghost predicate Accounted(table: Table, compared: nat, key: Key, from: Time, clock: Time, policy: Policy) {
    && compared <= Bound(key, policy)
    && (clock < from ==> compared == 0)
    && (clock < from + Lockout(policy) && compared > 0 ==>
          && key in table
          && from <= table[key].lastFailureAt
          && table[key].failures >= compared
          && (compared >= Bound(key, policy) ==>
                table[key].lockedUntil.Some? && table[key].lockedUntil.value >= from + Lockout(policy)))
  }

  lemma FailureIsAccounted(
      table: Table, compared: nat, a: Attempt, key: Key, from: Time, before: Time, clock: Time, policy: Policy)
    requires PolicyOk(policy)
    requires Accounted(table, compared, key, from, before, policy)
    requires before <= a.at && Orderly(Trying(a)) && clock == End(Trying(a))
    requires Compares(table, a) && key in KeysOf(a)
    ensures Accounted(
      RecordAll(table, FailuresOf(a), policy),
      compared + if from <= a.at < from + Lockout(policy) then 1 else 0,
      key, from, clock, policy)
  {
    RecordPerKey(table, a, key, policy);
    UnlockedIfCompared(table, a, key);
  }

  lemma AttemptIsAccounted(table: Table, compared: nat, a: Attempt, key: Key, from: Time, policy: Policy)
    requires PolicyOk(policy) && Orderly(Trying(a))
    requires key in KeysOf(a) ==> a.verdict.Wrong?
    requires Accounted(table, compared, key, from, a.at, policy)
    ensures Accounted(
      AfterAttempt(table, a, policy),
      compared + if Compares(table, a) && key in KeysOf(a) && from <= a.at < from + Lockout(policy) then 1 else 0,
      key, from, End(Trying(a)), policy)
  {
    if Compares(table, a) && key in KeysOf(a) {
      FailureIsAccounted(table, compared, a, key, from, a.at, End(Trying(a)), policy);
    } else if a.verdict.Wrong? {
      RecordPerKey(table, a, key, policy);
    }
  }

  lemma SweepIsAccounted(table: Table, compared: nat, key: Key, from: Time, now: Time, policy: Policy)
    requires PolicyOk(policy) && Accounted(table, compared, key, from, now, policy)
    ensures Accounted(Swept(table, now), compared, key, from, now, policy)
  {
  }

  lemma {:induction false} ComparisonsAreAccounted(
      actions: seq<Action>, key: Key, from: Time, clock: Time, policy: Policy)
    requires PolicyOk(policy) && Sequential(actions) && NoSuccess(actions, key)
    requires forall i :: 0 <= i < |actions| ==> End(actions[i]) <= clock
    ensures Accounted(
      After(actions, policy),
      Comparisons(Trace(actions, policy), key, from, from + Lockout(policy)),
      key, from, clock, policy)
    decreases |actions|
  {
    if actions != [] {
      var before, last := actions[..|actions| - 1], actions[|actions| - 1];
      ComparisonsAreAccounted(before, key, from, Start(last), policy);
      var table := After(before, policy);
      var compared := Comparisons(Trace(before, policy), key, from, from + Lockout(policy));
      match last {
        case Cleaning(now) => SweepIsAccounted(table, compared, key, from, now, policy);
        case Trying(a) =>
          SnocComparisons(Trace(before, policy), (a, Compares(table, a)), key, from, from + Lockout(policy));
          AttemptIsAccounted(table, compared, a, key, from, policy);
      }
    }
  }

  /**
   In every half-open interval as long as the lockout, an account that nobody signs in to has at most
   `maxAttempts` passwords compared, and an address ten times that, wherever the nightly deletion
   falls. With one attempt allowed the account limit is two.
   */
  lemma AtMostMaxAttempts(actions: seq<Action>, key: Key, from: Time, policy: Policy)
    requires PolicyOk(policy) && Sequential(actions) && NoSuccess(actions, key)
    ensures
      var compared := Comparisons(Trace(actions, policy), key, from, from + Lockout(policy));
      if IsIpKey(key) then compared <= 10 * policy.maxAttempts
      else compared <= if policy.maxAttempts == 1 then 2 else policy.maxAttempts
  {
    if actions != [] {
      var last := actions[|actions| - 1];
      assert Start(last) <= End(last);
      ComparisonsAreAccounted(actions, key, from, End(last), policy);
    }
  }

  // ---------------------------------------------------------------------------
  // The bound is reached
  // ---------------------------------------------------------------------------

  predicate IsGuess(a: Attempt) {
    a.verdict.Wrong? && a.at == a.ipAt == a.userAt && a.username != ""
  }

  lemma SnocAttempt(actions: seq<Action>, a: Attempt, policy: Policy)
    ensures After(actions + [Trying(a)], policy) == AfterAttempt(After(actions, policy), a, policy)
    ensures Trace(actions + [Trying(a)], policy) ==
            Trace(actions, policy) + [(a, Compares(After(actions, policy), a))]
  {
    assert (actions + [Trying(a)])[..|actions|] == actions;
  }

  /** `n` failures of a key at one time, or as many as it takes to lock it. */
  ghost predicate FailedTimes(table: Table, key: Key, at: Time, n: nat, policy: Policy) {
    if n == 0 then key !in table
    else
      && key in table
      && table[key].failures == n && table[key].lastFailureAt == at
      && table[key].lockedUntil == if n >= Bound(key, policy) then Some(at + Lockout(policy)) else None
  }

  lemma FailOnce(table: Table, a: Attempt, key: Key, at: Time, n: nat, policy: Policy)
    requires PolicyOk(policy) && a.at == at && a.ipAt == at && a.userAt == at && key in KeysOf(a)
    requires FailedTimes(table, key, at, n, policy) && n < Bound(key, policy)
    ensures FailedTimes(RecordAll(table, FailuresOf(a), policy), key, at, n + 1, policy)
  {
    RecordPerKey(table, a, key, policy);
  }

  lemma ComparesIff(table: Table, a: Attempt)
    requires a.username != ""
    ensures "ip:" + a.ip in KeysOf(a) && "user:" + a.username in KeysOf(a)
    ensures Compares(table, a) <==> !LockedAt(table, "ip:" + a.ip, a.at) && !LockedAt(table, "user:" + a.username, a.at)
  {
    assert KeysOf(a)[0] == "ip:" + a.ip && KeysOf(a)[1] == "user:" + a.username;
  }

  lemma KeyKinds(ip: string, username: string)
    ensures IsIpKey("ip:" + ip) && !IsIpKey("user:" + username)
    ensures "ip:" + ip != "user:" + username
  {
    assert ("ip:" + ip)[..3] == "ip:";
    assert ("user:" + username)[0] == 'u';
  }

  lemma OneMore(actions: seq<Action>, a: Attempt, key: Key, policy: Policy)
    requires PolicyOk(policy) && key in KeysOf(a)
    ensures
      Comparisons(Trace(actions + [Trying(a)], policy), key, a.at, a.at + Lockout(policy)) ==
      Comparisons(Trace(actions, policy), key, a.at, a.at + Lockout(policy))
      + if Compares(After(actions, policy), a) then 1 else 0
  {
    SnocAttempt(actions, a, policy);
    var compares := Compares(After(actions, policy), a);
    SnocComparisons(Trace(actions, policy), (a, compares), key, a.at, a.at + Lockout(policy));
  }

  // One account, guessed at again and again.

  /** The same guess `n` times, all at once. */
  function Burst(a: Attempt, n: nat): seq<Action> {
    if n == 0 then [] else Burst(a, n - 1) + [Trying(a)]
  }

  ghost predicate AccountFailed(table: Table, a: Attempt, n: nat, policy: Policy) {
    && FailedTimes(table, "user:" + a.username, a.at, n, policy)
    && FailedTimes(table, "ip:" + a.ip, a.at, n, policy)
  }

  lemma BurstStep(table: Table, a: Attempt, n: nat, policy: Policy)
    requires PolicyOk(policy) && IsGuess(a)
    requires n <= Bound("user:" + a.username, policy)
    requires AccountFailed(table, a, n, policy)
    ensures Compares(table, a) <==> n < Bound("user:" + a.username, policy)
    ensures n < Bound("user:" + a.username, policy) ==> AccountFailed(AfterAttempt(table, a, policy), a, n + 1, policy)
  {
    KeyKinds(a.ip, a.username);
    ComparesIff(table, a);
    if n < Bound("user:" + a.username, policy) {
      FailOnce(table, a, "user:" + a.username, a.at, n, policy);
      FailOnce(table, a, "ip:" + a.ip, a.at, n, policy);
    }
  }

  lemma {:induction false} BurstState(a: Attempt, n: nat, policy: Policy)
    requires PolicyOk(policy) && IsGuess(a)
    ensures
      var bound := Bound("user:" + a.username, policy);
      AccountFailed(After(Burst(a, n), policy), a, if n < bound then n else bound, policy)
  {
    if n > 0 {
      var bound := Bound("user:" + a.username, policy);
      BurstState(a, n - 1, policy);
      BurstStep(After(Burst(a, n - 1), policy), a, if n - 1 < bound then n - 1 else bound, policy);
      SnocAttempt(Burst(a, n - 1), a, policy);
    }
  }

  lemma BurstCompares(a: Attempt, n: nat, policy: Policy)
    requires PolicyOk(policy) && IsGuess(a)
    ensures Compares(After(Burst(a, n), policy), a) <==> n < Bound("user:" + a.username, policy)
  {
    var bound := Bound("user:" + a.username, policy);
    BurstState(a, n, policy);
    BurstStep(After(Burst(a, n), policy), a, if n < bound then n else bound, policy);
  }

  /** How often a burst got as far as a comparison. */
  function BurstCompared(a: Attempt, n: nat, key: Key, policy: Policy): nat {
    Comparisons(Trace(Burst(a, n), policy), key, a.at, a.at + Lockout(policy))
  }

  lemma BurstOneMore(a: Attempt, n: nat, policy: Policy)
    requires PolicyOk(policy) && IsGuess(a)
    ensures
      var key := "user:" + a.username;
      BurstCompared(a, n + 1, key, policy) == BurstCompared(a, n, key, policy) + if n < Bound(key, policy) then 1 else 0
  {
    BurstCompares(a, n, policy);
    ComparesIff(map[], a);
    OneMore(Burst(a, n), a, "user:" + a.username, policy);
  }

  /** A burst of guesses at an account is compared up to the bound and refused from there on. */
  lemma {:induction false} BoundIsReached(a: Attempt, n: nat, policy: Policy)
    requires PolicyOk(policy) && IsGuess(a)
    ensures
      var key, bound := "user:" + a.username, Bound("user:" + a.username, policy);
      BurstCompared(a, n, key, policy) == if n < bound then n else bound
  {
    if n > 0 {
      BoundIsReached(a, n - 1, policy);
      BurstOneMore(a, n - 1, policy);
    }
  }

  // One address, trying many accounts once each.

  function Guess(ip: string, name: string, at: Time): Attempt {
    Attempt(ip, name, Wrong, at, at, at)
  }

  /** One guess for each of the first `n` names, all at once. */
  function Spray(ip: string, names: seq<string>, at: Time, n: nat): seq<Action>
    requires n <= |names|
  {
    if n == 0 then [] else Spray(ip, names, at, n - 1) + [Trying(Guess(ip, names[n - 1], at))]
  }

  ghost predicate DistinctNames(names: seq<string>) {
    && (forall i :: 0 <= i < |names| ==> names[i] != "")
    && (forall i, j :: 0 <= i < j < |names| ==> names[i] != names[j])
  }

  /** The address has failed `n` times, and the names from there on are not known yet. */
  ghost predicate AddressFailed(table: Table, ip: string, names: seq<string>, at: Time, n: nat, policy: Policy) {
    var bound := Bound("ip:" + ip, policy);
    && FailedTimes(table, "ip:" + ip, at, if n < bound then n else bound, policy)
    && forall i :: n <= i < |names| ==> "user:" + names[i] !in table
  }

  lemma SprayStep(table: Table, ip: string, names: seq<string>, at: Time, n: nat, policy: Policy)
    requires PolicyOk(policy) && DistinctNames(names) && n < |names|
    requires AddressFailed(table, ip, names, at, n, policy)
    ensures
      var a := Guess(ip, names[n], at);
      && (Compares(table, a) <==> n < Bound("ip:" + ip, policy))
      && AddressFailed(AfterAttempt(table, a, policy), ip, names, at, n + 1, policy)
  {
    var a := Guess(ip, names[n], at);
    KeyKinds(ip, names[n]);
    ComparesIff(table, a);
    if Compares(table, a) {
      FailOnce(table, a, "ip:" + ip, at, n, policy);
      forall i | n < i < |names| ensures "user:" + names[i] !in AfterAttempt(table, a, policy) {
        KeyKinds(ip, names[i]);
        OtherName(a, names[i]);
        RecordPerKey(table, a, "user:" + names[i], policy);
      }
    }
  }

  lemma OtherName(a: Attempt, name: string)
    requires a.username != name
    ensures "user:" + name !in KeysOf(a)
  {
    KeyKinds(a.ip, name);
    assert ("user:" + name)[5..] == name && ("user:" + a.username)[5..] == a.username;
  }

  lemma {:induction false} SprayState(ip: string, names: seq<string>, at: Time, n: nat, policy: Policy)
    requires PolicyOk(policy) && DistinctNames(names) && n <= |names|
    ensures AddressFailed(After(Spray(ip, names, at, n), policy), ip, names, at, n, policy)
  {
    if n > 0 {
      var before := Spray(ip, names, at, n - 1);
      SprayState(ip, names, at, n - 1, policy);
      SnocAttempt(before, Guess(ip, names[n - 1], at), policy);
      assert After(Spray(ip, names, at, n), policy) ==
             AfterAttempt(After(before, policy), Guess(ip, names[n - 1], at), policy);
      SprayStep(After(before, policy), ip, names, at, n - 1, policy);
    }
  }

  lemma SprayCompares(ip: string, names: seq<string>, at: Time, n: nat, policy: Policy)
    requires PolicyOk(policy) && DistinctNames(names) && n < |names|
    ensures Compares(After(Spray(ip, names, at, n), policy), Guess(ip, names[n], at)) <==> n < Bound("ip:" + ip, policy)
  {
    SprayState(ip, names, at, n, policy);
    SprayStep(After(Spray(ip, names, at, n), policy), ip, names, at, n, policy);
  }

  /** How often a spray got as far as a comparison. */
  function SprayCompared(ip: string, names: seq<string>, at: Time, n: nat, policy: Policy): nat
    requires n <= |names|
  {
    Comparisons(Trace(Spray(ip, names, at, n), policy), "ip:" + ip, at, at + Lockout(policy))
  }

  lemma SprayOneMore(ip: string, names: seq<string>, at: Time, n: nat, policy: Policy)
    requires PolicyOk(policy) && DistinctNames(names) && n < |names|
    ensures SprayCompared(ip, names, at, n + 1, policy) ==
            SprayCompared(ip, names, at, n, policy) + if n < Bound("ip:" + ip, policy) then 1 else 0
  {
    SprayCompares(ip, names, at, n, policy);
    ComparesIff(map[], Guess(ip, names[n], at));
    OneMore(Spray(ip, names, at, n), Guess(ip, names[n], at), "ip:" + ip, policy);
  }

  /** Trying many accounts from one address is compared up to ten times the limit and refused from there on. */
  lemma {:induction false} AddressBoundIsReached(ip: string, names: seq<string>, at: Time, n: nat, policy: Policy)
    requires PolicyOk(policy) && DistinctNames(names) && n <= |names|
    ensures
      var bound := 10 * policy.maxAttempts;
      SprayCompared(ip, names, at, n, policy) == if n < bound then n else bound
  {
    if n > 0 {
      AddressBoundIsReached(ip, names, at, n - 1, policy);
      SprayOneMore(ip, names, at, n - 1, policy);
      KeyKinds(ip, "");
    }
  }

  // ---------------------------------------------------------------------------
  // The nightly deletion is invisible
  // ---------------------------------------------------------------------------

  function WithoutCleaning(actions: seq<Action>): seq<Action> {
    if actions == [] then []
    else
      var rest := WithoutCleaning(actions[..|actions| - 1]);
      if actions[|actions| - 1].Cleaning? then rest else rest + [actions[|actions| - 1]]
  }

  /** A lock that is over says the same as no lock. */
  predicate SameLock(a: Option<Time>, b: Option<Time>, clock: Time) {
    a == b || ((a.None? || a.value < clock) && (b.None? || b.value < clock))
  }

  predicate SameRow(a: Row, b: Row, clock: Time) {
    a.failures == b.failures && a.lastFailureAt == b.lastFailureAt && SameLock(a.lockedUntil, b.lockedUntil, clock)
  }

  /** `cleaned` may lack rows that are too old to matter. */
  predicate SameKey(cleaned: Table, full: Table, key: Key, clock: Time) {
    if key in cleaned then key in full && SameRow(cleaned[key], full[key], clock)
    else key in full ==> Stale(full[key], clock)
  }

  ghost predicate SameTable(cleaned: Table, full: Table, clock: Time) {
    forall key :: SameKey(cleaned, full, key, clock)
  }

  lemma RecordSame(cleaned: Table, full: Table, a: Attempt, key: Key, policy: Policy)
    requires PolicyOk(policy) && policy.maxAttempts >= 2
    requires Orderly(Trying(a)) && SameKey(cleaned, full, key, a.at)
    ensures SameKey(RecordAll(cleaned, FailuresOf(a), policy), RecordAll(full, FailuresOf(a), policy), key, a.at)
  {
    RecordPerKey(cleaned, a, key, policy);
    RecordPerKey(full, a, key, policy);
  }

  lemma CompareSame(cleaned: Table, full: Table, a: Attempt)
    requires SameTable(cleaned, full, a.at)
    ensures Compares(cleaned, a) <==> Compares(full, a)
  {
    forall i | 0 <= i < |KeysOf(a)|
      ensures LockedAt(cleaned, KeysOf(a)[i], a.at) <==> LockedAt(full, KeysOf(a)[i], a.at)
    {
      assert SameKey(cleaned, full, KeysOf(a)[i], a.at);
    }
  }

  lemma AttemptSame(cleaned: Table, full: Table, a: Attempt, policy: Policy)
    requires PolicyOk(policy) && policy.maxAttempts >= 2
    requires Orderly(Trying(a)) && SameTable(cleaned, full, a.at)
    ensures Compares(cleaned, a) <==> Compares(full, a)
    ensures SameTable(AfterAttempt(cleaned, a, policy), AfterAttempt(full, a, policy), a.at)
  {
    CompareSame(cleaned, full, a);
    forall key ensures SameKey(AfterAttempt(cleaned, a, policy), AfterAttempt(full, a, policy), key, a.at) {
      assert SameKey(cleaned, full, key, a.at);
      if Compares(cleaned, a) && a.verdict.Wrong? {
        RecordSame(cleaned, full, a, key, policy);
      }
    }
  }

  lemma SameLater(cleaned: Table, full: Table, clock: Time, later: Time)
    requires SameTable(cleaned, full, clock) && clock <= later
    ensures SameTable(cleaned, full, later)
  {
    forall key ensures SameKey(cleaned, full, key, later) {
      assert SameKey(cleaned, full, key, clock);
    }
  }

  /** With two or more attempts allowed, deleting old rows changes no decision about any attempt. */
  lemma {:induction false} CleanupChangesNothing(actions: seq<Action>, clock: Time, policy: Policy)
    requires PolicyOk(policy) && policy.maxAttempts >= 2 && Sequential(actions)
    requires forall i :: 0 <= i < |actions| ==> End(actions[i]) <= clock
    ensures Trace(actions, policy) == Trace(WithoutCleaning(actions), policy)
    ensures SameTable(After(actions, policy), After(WithoutCleaning(actions), policy), clock)
    decreases |actions|
  {
    if actions != [] {
      var before, last := actions[..|actions| - 1], actions[|actions| - 1];
      var rest := WithoutCleaning(before);
      CleanupChangesNothing(before, Start(last), policy);
      match last {
        case Trying(a) =>
          SnocAttempt(rest, a, policy);
          AttemptSame(After(before, policy), After(rest, policy), a, policy);
          SameLater(After(actions, policy), After(rest + [last], policy), a.at, clock);
        case Cleaning(now) =>
          forall key ensures SameKey(Swept(After(before, policy), now), After(rest, policy), key, now) {
            assert SameKey(After(before, policy), After(rest, policy), key, now);
          }
          SameLater(After(actions, policy), After(rest, policy), now, clock);
      }
    }
  }

  /** A failure, a deletion or none, and two more attempts. */
  function Slowly(first: Attempt, cleaning: seq<Action>, late: Attempt): seq<Action> {
    [Trying(first)] + cleaning + [Trying(late)] + [Trying(late)]
  }

  lemma SlowlyTrace(first: Attempt, now: Time, late: Attempt, policy: Policy)
    ensures
      var table := AfterAttempt(map[], first, policy);
      && Trace(Slowly(first, [], late), policy) ==
         [(first, Compares(map[], first)), (late, Compares(table, late)),
          (late, Compares(AfterAttempt(table, late, policy), late))]
      && Trace(Slowly(first, [Cleaning(now)], late), policy) ==
         [(first, Compares(map[], first)), (late, Compares(Swept(table, now), late)),
          (late, Compares(AfterAttempt(Swept(table, now), late, policy), late))]
    ensures WithoutCleaning(Slowly(first, [Cleaning(now)], late)) == Slowly(first, [], late)
  {
    var one := [Trying(first)];
    var cleaned := one + [Cleaning(now)];
    assert [] + one == one && one + [] == one;
    SnocAttempt([], first, policy);
    SnocAttempt(one, late, policy);
    SnocAttempt(one + [Trying(late)], late, policy);
    assert cleaned[..1] == one;
    SnocAttempt(cleaned, late, policy);
    SnocAttempt(cleaned + [Trying(late)], late, policy);
    SnocWithoutCleaning([], Trying(first));
    SnocWithoutCleaning(one, Cleaning(now));
    SnocWithoutCleaning(cleaned, Trying(late));
    SnocWithoutCleaning(cleaned + [Trying(late)], Trying(late));
  }

  lemma SnocWithoutCleaning(actions: seq<Action>, last: Action)
    ensures WithoutCleaning(actions + [last]) == WithoutCleaning(actions) + if last.Cleaning? then [] else [last]
  {
    assert (actions + [last])[..|actions|] == actions;
  }

  lemma AddressNeverLocks(table: Table, a: Attempt, policy: Policy)
    requires a.username != "" && a.verdict.Wrong? && PolicyOk(policy)
    requires "ip:" + a.ip in table ==> table["ip:" + a.ip].failures <= 1 && table["ip:" + a.ip].lockedUntil.None?
    ensures !LockedAt(RecordAll(table, FailuresOf(a), policy), "ip:" + a.ip, a.at)
  {
    KeyKinds(a.ip, a.username);
    assert KeysOf(a)[0] == "ip:" + a.ip;
    RecordPerKey(table, a, "ip:" + a.ip, policy);
  }

  /**
   With one attempt allowed the deletion does matter: it turns an update that locks into an insert
   that does not, so one more password is compared.
   */
  lemma OneAttemptMakesCleanupVisible(ip: string, username: string, policy: Policy)
    requires PolicyOk(policy) && policy.maxAttempts == 1 && username != ""
    ensures
      var first := Attempt(ip, username, Wrong, 0, 0, 0);
      var late := Attempt(ip, username, Wrong, 2 * DAY, 2 * DAY, 2 * DAY);
      && Trace(Slowly(first, [Cleaning(2 * DAY)], late), policy) == [(first, true), (late, true), (late, true)]
      && Trace(Slowly(first, [], late), policy) == [(first, true), (late, true), (late, false)]
  {
    var first := Attempt(ip, username, Wrong, 0, 0, 0);
    var late := Attempt(ip, username, Wrong, 2 * DAY, 2 * DAY, 2 * DAY);
    var key := "user:" + username;
    var table := AfterAttempt(map[], first, policy);
    SlowlyTrace(first, 2 * DAY, late, policy);
    AfterFirstFailure(first, policy);
    assert KeysOf(first) == KeysOf(late);
    assert KeysOf(late)[1] == key;
    OneGuess(table, late, policy);
    assert Swept(table, 2 * DAY) == map[];
    OneGuess(map[], late, policy);
  }

  lemma AfterFirstFailure(a: Attempt, policy: Policy)
    requires PolicyOk(policy) && IsGuess(a)
    ensures Compares(map[], a)
    ensures forall key ::
      var table := AfterAttempt(map[], a, policy);
      (key in KeysOf(a) <==> key in table) && (key in table ==> table[key] == Row(1, a.at, a.at, None))
  {
    ComparesIff(map[], a);
    forall key
      ensures
        var table := AfterAttempt(map[], a, policy);
        (key in KeysOf(a) <==> key in table) && (key in table ==> table[key] == Row(1, a.at, a.at, None))
    {
      RecordPerKey(map[], a, key, policy);
    }
  }

  lemma OneGuess(table: Table, a: Attempt, policy: Policy)
    requires PolicyOk(policy) && policy.maxAttempts == 1 && IsGuess(a)
    requires forall key :: key in KeysOf(a) && key in table ==> table[key].failures <= 1 && table[key].lockedUntil.None?
    ensures Compares(table, a)
    ensures Compares(AfterAttempt(table, a, policy), a) <==> "user:" + a.username !in table
  {
    var key := "user:" + a.username;
    assert KeysOf(a)[0] == "ip:" + a.ip && KeysOf(a)[1] == key;
    KeyKinds(a.ip, a.username);
    ComparesIff(table, a);
    ComparesIff(AfterAttempt(table, a, policy), a);
    AddressNeverLocks(table, a, policy);
    RecordPerKey(table, a, key, policy);
  }
}
