/**
 The fixed-window counter in front of the unauthenticated routes: the limiter object, and what it
 admits over whole runs of requests and cleanups.
 */
module RateLimiter {
  type Time = int
  type Key = string

  datatype Entry = Entry(count: nat, windowEnds: Time)

  type Entries = map<Key, Entry>

  /** The entry a request counts against: a missing or finished one is replaced. */
  function Current(entries: Entries, key: Key, now: Time, window: Time): Entry {
    if key in entries && now <= entries[key].windowEnds then entries[key] else Entry(0, now + window)
  }

  function Consume(entries: Entries, key: Key, now: Time, window: Time): Entries {
    var entry := Current(entries, key, now, window);
    entries[key := entry.(count := entry.count + 1)]
  }

  /** One request more in the key's window, which is a new one if there was none or it is over. */
  ghost predicate IsConsumed(entries: Entries, entries': Entries, key: Key, now: Time, window: Time) {
    && entries'.Keys == entries.Keys + {key}
    && (forall other :: other in entries && other != key ==> entries'[other] == entries[other])
    && if key in entries && now <= entries[key].windowEnds
       then entries'[key] == Entry(entries[key].count + 1, entries[key].windowEnds)
       else entries'[key] == Entry(1, now + window)
  }

  function Swept(entries: Entries, now: Time): Entries {
    map key | key in entries && now <= entries[key].windowEnds :: entries[key]
  }

  // ---------------------------------------------------------------------------
  // The limiter object
  // ---------------------------------------------------------------------------

  class Limiter {
    const window: Time
    var entries: Entries

    constructor (window: Time)
      ensures this.window == window && entries == map[]
    {
      this.window := window;
      entries := map[];
    }

    /** `later` is the second reading of the clock, from which the remaining wait is counted. */
    method Allow(key: Key, limit: int, now: Time, later: Time) returns (allowed: bool, wait: Time)
      modifies this
      ensures limit <= 0 ==> allowed && wait == 0 && entries == old(entries)
      ensures limit > 0 ==> entries == Consume(old(entries), key, now, window)
      ensures limit > 0 ==> IsConsumed(old(entries), entries, key, now, window)
      ensures limit > 0 ==> (allowed <==> Current(old(entries), key, now, window).count < limit)
      ensures limit > 0 ==> wait == if allowed then 0 else Current(old(entries), key, now, window).windowEnds - later
    {
      if limit <= 0 {
        return true, 0;
      }
      if key !in entries || now > entries[key].windowEnds {
        entries := entries[key := Entry(0, now + window)];
      }
      entries := entries[key := entries[key].(count := entries[key].count + 1)];
      if entries[key].count > limit {
        return false, entries[key].windowEnds - later;
      }
      return true, 0;
    }

    method Cleanup(now: Time)
      modifies this
      ensures entries == Swept(old(entries), now)
      ensures forall key :: key in entries <==> key in old(entries) && now <= old(entries)[key].windowEnds
      ensures forall key :: key in entries ==> entries[key] == old(entries)[key]
    {
      var keys := entries.Keys;
      while keys != {}
        invariant keys <= old(entries).Keys
        invariant entries ==
                  map key | key in old(entries) && (key in keys || now <= old(entries)[key].windowEnds)
                    :: old(entries)[key]
        decreases |keys|
      {
        var key :| key in keys;
        if now > entries[key].windowEnds {
          entries := entries - {key};
        }
        keys := keys - {key};
      }
    }
  }

  // ---------------------------------------------------------------------------
  // Runs
  // ---------------------------------------------------------------------------

  datatype Action = Request(key: Key, now: Time) | Cleaning(now: Time)

  /** What became of one request, and which window it was counted against. */
  datatype Record = Record(key: Key, now: Time, windowEnds: Time, admitted: bool)

  datatype Policy = Policy(limit: nat, window: Time)

  ghost predicate PolicyOk(p: Policy) {
    p.limit >= 1 && p.window >= 0
  }

  ghost predicate InOrder(actions: seq<Action>) {
    forall i, j :: 0 <= i < j < |actions| ==> actions[i].now <= actions[j].now
  }

  function After(actions: seq<Action>, p: Policy): Entries {
    if actions == [] then map[]
    else
      var entries := After(actions[..|actions| - 1], p);
      match actions[|actions| - 1]
      case Request(key, now) => Consume(entries, key, now, p.window)
      case Cleaning(now) => Swept(entries, now)
  }

  function Trace(actions: seq<Action>, p: Policy): seq<Record> {
    if actions == [] then []
    else
      var before := Trace(actions[..|actions| - 1], p);
      match actions[|actions| - 1]
      case Request(key, now) =>
        var entry := Current(After(actions[..|actions| - 1], p), key, now, p.window);
        before + [Record(key, now, entry.windowEnds, entry.count < p.limit)]
      case Cleaning(_) => before
  }

  /** Requests of `key` admitted in the window that ends at `end`. */
  function AdmittedInWindow(trace: seq<Record>, key: Key, end: Time): nat {
    if trace == [] then 0
    else
      var last := trace[|trace| - 1];
      AdmittedInWindow(trace[..|trace| - 1], key, end)
      + if last.admitted && last.key == key && last.windowEnds == end then 1 else 0
  }

  /** Requests of `key` admitted at a time from `from` to `until`. */
  function AdmittedBetween(trace: seq<Record>, key: Key, from: Time, until: Time): nat {
    if trace == [] then 0
    else
      var last := trace[|trace| - 1];
      AdmittedBetween(trace[..|trace| - 1], key, from, until)
      + if last.admitted && last.key == key && from <= last.now <= until then 1 else 0
  }

  /** Requests of `key` admitted in the interval from `from` that is as long as a window, ends included. */
  function AdmittedFrom(actions: seq<Action>, key: Key, from: Time, p: Policy): nat {
    AdmittedBetween(Trace(actions, p), key, from, from + p.window)
  }

  lemma SnocCounts(trace: seq<Record>, r: Record, key: Key, end: Time, from: Time, until: Time)
    ensures AdmittedInWindow(trace + [r], key, end) ==
            AdmittedInWindow(trace, key, end) + if r.admitted && r.key == key && r.windowEnds == end then 1 else 0
    ensures AdmittedBetween(trace + [r], key, from, until) ==
            AdmittedBetween(trace, key, from, until)
            + if r.admitted && r.key == key && from <= r.now <= until then 1 else 0
  {
    assert (trace + [r])[..|trace|] == trace;
  }

  /** One more request: the state and the trace after it. */
  lemma SnocRequest(actions: seq<Action>, key: Key, now: Time, p: Policy)
    ensures After(actions + [Request(key, now)], p) == Consume(After(actions, p), key, now, p.window)
    ensures
      var entry := Current(After(actions, p), key, now, p.window);
      Trace(actions + [Request(key, now)], p) ==
      Trace(actions, p) + [Record(key, now, entry.windowEnds, entry.count < p.limit)]
  {
    assert (actions + [Request(key, now)])[..|actions|] == actions;
  }

  function Least(a: nat, b: nat): nat {
    if a < b then a else b
  }

  // ---------------------------------------------------------------------------
  // Invariants
  // ---------------------------------------------------------------------------

  /** The counter of an entry is the number of its admissions, until it reaches the limit. */
  ghost predicate Counted(entries: Entries, trace: seq<Record>, key: Key, p: Policy) {
    key in entries ==>
      && entries[key].count >= 1
      && AdmittedInWindow(trace, key, entries[key].windowEnds) == Least(entries[key].count, p.limit)
  }

  /** Windows that are over are behind every later request. */
  ghost predicate PastWindows(entries: Entries, trace: seq<Record>, key: Key, clock: Time, p: Policy) {
    && (key in entries ==> entries[key].windowEnds <= clock + p.window)
    && forall i :: 0 <= i < |trace| && trace[i].key == key ==>
        if key in entries then trace[i].windowEnds <= entries[key].windowEnds else trace[i].windowEnds < clock
  }

  ghost predicate NoLaterThan(actions: seq<Action>, clock: Time) {
    forall i :: 0 <= i < |actions| ==> actions[i].now <= clock
  }

  lemma {:induction false} NoAdmissionYet(trace: seq<Record>, key: Key, end: Time)
    requires forall i :: 0 <= i < |trace| && trace[i].key == key ==> trace[i].windowEnds != end
    ensures AdmittedInWindow(trace, key, end) == 0
  {
    if trace != [] {
      NoAdmissionYet(trace[..|trace| - 1], key, end);
    }
  }

  lemma {:induction false} CountsAreKept(actions: seq<Action>, key: Key, clock: Time, p: Policy)
    requires PolicyOk(p) && InOrder(actions) && NoLaterThan(actions, clock)
    ensures Counted(After(actions, p), Trace(actions, p), key, p)
    ensures PastWindows(After(actions, p), Trace(actions, p), key, clock, p)
    decreases |actions|
  {
    if actions != [] {
      var before, last := actions[..|actions| - 1], actions[|actions| - 1];
      CountsAreKept(before, key, last.now, p);
      if last.Request? && last.key == key {
        var entry := Current(After(before, p), key, last.now, p.window);
        var trace := Trace(before, p);
        if entry.count == 0 {
          NoAdmissionYet(trace, key, entry.windowEnds);
        }
        SnocCounts(trace, Record(key, last.now, entry.windowEnds, entry.count < p.limit), key, entry.windowEnds, 0, 0);
      } else if last.Request? {
        var entry := Current(After(before, p), last.key, last.now, p.window);
        var r := Record(last.key, last.now, entry.windowEnds, entry.count < p.limit);
        if key in After(before, p) {
          SnocCounts(Trace(before, p), r, key, After(before, p)[key].windowEnds, 0, 0);
        }
      }
    }
  }

  /** Admissions between `from` and `from + window`, against the entry that is current now. */
  ghost predicate Bounded(entries: Entries, admitted: nat, key: Key, from: Time, clock: Time, p: Policy) {
    && admitted <= 2 * p.limit - 1
    && (clock < from ==> admitted == 0)
    && (clock <= from + p.window ==>
        if key !in entries then admitted <= p.limit - 1
        else if entries[key].windowEnds - p.window < from then admitted <= Least(entries[key].count, p.limit) - 1
        else admitted <= p.limit - 1 + Least(entries[key].count, p.limit))
  }

  lemma RequestIsBounded(entries: Entries, admitted: nat, key: Key, caller: Key, from: Time, now: Time, p: Policy)
    requires PolicyOk(p) && Bounded(entries, admitted, key, from, now, p)
    requires key in entries ==> entries[key].count >= 1 && entries[key].windowEnds <= now + p.window
    ensures
      var passes :=
        caller == key && Current(entries, key, now, p.window).count < p.limit && from <= now <= from + p.window;
      Bounded(Consume(entries, caller, now, p.window), admitted + if passes then 1 else 0, key, from, now, p)
  {
  }

  lemma CleaningIsBounded(entries: Entries, admitted: nat, key: Key, from: Time, now: Time, p: Policy)
    requires PolicyOk(p) && Bounded(entries, admitted, key, from, now, p)
    ensures Bounded(Swept(entries, now), admitted, key, from, now, p)
  {
  }

  lemma EntryIsCounted(actions: seq<Action>, key: Key, clock: Time, p: Policy)
    requires PolicyOk(p) && InOrder(actions) && NoLaterThan(actions, clock) && key in After(actions, p)
    ensures After(actions, p)[key].count >= 1 && After(actions, p)[key].windowEnds <= clock + p.window
  {
    CountsAreKept(actions, key, clock, p);
  }

  lemma AdmittedSnoc(before: seq<Action>, caller: Key, now: Time, key: Key, from: Time, p: Policy)
    ensures
      var entry := Current(After(before, p), key, now, p.window);
      var passes := caller == key && entry.count < p.limit && from <= now <= from + p.window;
      AdmittedFrom(before + [Request(caller, now)], key, from, p) ==
      AdmittedFrom(before, key, from, p) + if passes then 1 else 0
  {
    var entry := Current(After(before, p), caller, now, p.window);
    SnocRequest(before, caller, now, p);
    var r := Record(caller, now, entry.windowEnds, entry.count < p.limit);
    SnocCounts(Trace(before, p), r, key, 0, from, from + p.window);
  }

  lemma {:induction false} AdmissionsAreBounded(actions: seq<Action>, key: Key, from: Time, clock: Time, p: Policy)
    requires PolicyOk(p) && InOrder(actions) && NoLaterThan(actions, clock)
    ensures Bounded(After(actions, p), AdmittedFrom(actions, key, from, p), key, from, clock, p)
    decreases |actions|
  {
    if actions != [] {
      var before, last := actions[..|actions| - 1], actions[|actions| - 1];
      var entries, admitted := After(before, p), AdmittedFrom(before, key, from, p);
      assert actions == before + [last];
      AdmissionsAreBounded(before, key, from, last.now, p);
      if last.Cleaning? {
        CleaningIsBounded(entries, admitted, key, from, last.now, p);
      } else {
        if key in entries {
          EntryIsCounted(before, key, last.now, p);
        }
        RequestIsBounded(entries, admitted, key, last.key, from, last.now, p);
        AdmittedSnoc(before, last.key, last.now, key, from, p);
      }
    }
  }

  // ---------------------------------------------------------------------------
  // Theorems
  // ---------------------------------------------------------------------------

  /** A request is admitted exactly when fewer than `limit` were admitted in its window before it. */
  lemma AdmittedWhileRoom(actions: seq<Action>, key: Key, now: Time, p: Policy)
    requires PolicyOk(p) && InOrder(actions + [Request(key, now)])
    ensures
      var trace := Trace(actions + [Request(key, now)], p);
      var last := trace[|trace| - 1];
      && trace == Trace(actions, p) + [last]
      && last.key == key && last.now == now && now <= last.windowEnds <= now + p.window
      && (last.admitted <==> AdmittedInWindow(Trace(actions, p), key, last.windowEnds) < p.limit)
  {
    var all := actions + [Request(key, now)];
    assert all[..|actions|] == actions;
    assert all[|actions|] == Request(key, now);
    assert InOrder(actions) by {
      assert forall i :: 0 <= i < |actions| ==> all[i] == actions[i];
    }
    assert NoLaterThan(actions, now) by {
      assert forall i :: 0 <= i < |actions| ==> all[i] == actions[i];
    }
    CountsAreKept(actions, key, now, p);
    var entry := Current(After(actions, p), key, now, p.window);
    if entry.count == 0 {
      NoAdmissionYet(Trace(actions, p), key, entry.windowEnds);
    }
  }

  /** No window admits more than `limit` requests of a key. */
  lemma {:induction false} AtMostLimitPerWindow(actions: seq<Action>, key: Key, end: Time, p: Policy)
    requires PolicyOk(p) && InOrder(actions)
    ensures AdmittedInWindow(Trace(actions, p), key, end) <= p.limit
    decreases |actions|
  {
    if actions != [] {
      var before, last := actions[..|actions| - 1], actions[|actions| - 1];
      AtMostLimitPerWindow(before, key, end, p);
      if last.Request? {
        assert actions == before + [Request(last.key, last.now)];
        AdmittedWhileRoom(before, last.key, last.now, p);
        var trace := Trace(actions, p);
        SnocCounts(Trace(before, p), trace[|trace| - 1], key, end, 0, 0);
      }
    }
  }

  /** Any interval as long as a window, ends included, admits at most twice the limit less one. */
  lemma AtMostTwiceTheLimit(actions: seq<Action>, key: Key, from: Time, p: Policy)
    requires PolicyOk(p) && InOrder(actions)
    ensures AdmittedFrom(actions, key, from, p) <= 2 * p.limit - 1
  {
    if actions != [] {
      AdmissionsAreBounded(actions, key, from, actions[|actions| - 1].now, p);
    }
  }

  /** `n` more requests of a key, all at once. */
  function Repeated(actions: seq<Action>, key: Key, at: Time, n: nat): seq<Action> {
    if n == 0 then actions else Repeated(actions, key, at, n - 1) + [Request(key, at)]
  }

  lemma {:induction false} RepeatedInOrder(actions: seq<Action>, key: Key, at: Time, n: nat)
    requires InOrder(actions) && NoLaterThan(actions, at)
    ensures InOrder(Repeated(actions, key, at, n)) && NoLaterThan(Repeated(actions, key, at, n), at)
  {
    if n > 0 {
      RepeatedInOrder(actions, key, at, n - 1);
    }
  }

  /** As long as there is room, requests of one moment all count against one window. */
  lemma {:induction false} RepeatedEntry(actions: seq<Action>, key: Key, at: Time, n: nat, p: Policy)
    requires PolicyOk(p)
    ensures
      var entry := Current(After(actions, p), key, at, p.window);
      var after := After(Repeated(actions, key, at, n), p);
      && Current(after, key, at, p.window) == Entry(entry.count + n, entry.windowEnds)
      && (n > 0 ==> key in after && after[key] == Entry(entry.count + n, entry.windowEnds))
  {
    if n > 0 {
      RepeatedEntry(actions, key, at, n - 1, p);
      SnocRequest(Repeated(actions, key, at, n - 1), key, at, p);
    }
  }

  /** And all of them are admitted. */
  lemma {:induction false} RepeatedAdmitted(actions: seq<Action>, key: Key, at: Time, n: nat, from: Time, p: Policy)
    requires PolicyOk(p) && from <= at <= from + p.window
    requires Current(After(actions, p), key, at, p.window).count + n <= p.limit
    ensures AdmittedFrom(Repeated(actions, key, at, n), key, from, p) == AdmittedFrom(actions, key, from, p) + n
  {
    if n > 0 {
      RepeatedAdmitted(actions, key, at, n - 1, from, p);
      RepeatedEntry(actions, key, at, n - 1, p);
      AdmittedSnoc(Repeated(actions, key, at, n - 1), key, at, key, from, p);
    }
  }

  lemma FirstRequest(key: Key, p: Policy)
    requires PolicyOk(p) && p.window >= 1
    ensures After([Request(key, 0)], p) == map[key := Entry(1, p.window)]
    ensures AdmittedFrom([Request(key, 0)], key, p.window, p) == 0
  {
    SnocRequest([], key, 0, p);
    assert [] + [Request(key, 0)] == [Request(key, 0)];
    SnocCounts([], Record(key, 0, p.window, true), key, 0, p.window, p.window + p.window);
  }

  /** Filling the first window, all but one request in its last moment. */
  function Filled(key: Key, p: Policy): seq<Action>
    requires PolicyOk(p)
  {
    Repeated([Request(key, 0)], key, p.window, p.limit - 1)
  }

  /** And then a full window, a moment later. */
  function Straddling(key: Key, p: Policy): seq<Action>
    requires PolicyOk(p)
  {
    Repeated(Filled(key, p), key, p.window + 1, p.limit)
  }

  lemma StraddlingInOrder(key: Key, p: Policy)
    requires PolicyOk(p)
    ensures InOrder(Straddling(key, p))
  {
    RepeatedInOrder([Request(key, 0)], key, p.window, p.limit - 1);
    RepeatedInOrder(Filled(key, p), key, p.window + 1, p.limit);
  }

  /** A window that has one request is filled by the rest of the limit, */
  lemma FillingAdmitted(one: seq<Action>, key: Key, p: Policy)
    requires PolicyOk(p) && Current(After(one, p), key, p.window, p.window).count == 1
    ensures AdmittedFrom(Repeated(one, key, p.window, p.limit - 1), key, p.window, p) ==
            AdmittedFrom(one, key, p.window, p) + p.limit - 1
  {
    RepeatedAdmitted(one, key, p.window, p.limit - 1, p.window, p);
  }

  /** which takes nothing of the next one. */
  lemma FillingEnds(one: seq<Action>, key: Key, n: nat, p: Policy)
    requires PolicyOk(p) && After(one, p) == map[key := Entry(1, p.window)]
    ensures Current(After(Repeated(one, key, p.window, n), p), key, p.window + 1, p.window).count == 0
  {
    RepeatedEntry(one, key, p.window, n, p);
  }

  /** Whatever the limit and the window, the bound is reached. */
  lemma TwiceTheLimitIsTight(key: Key, p: Policy)
    requires PolicyOk(p) && p.window >= 1
    ensures InOrder(Straddling(key, p))
    ensures AdmittedFrom(Straddling(key, p), key, p.window, p) == 2 * p.limit - 1
  {
    StraddlingInOrder(key, p);
    FirstRequest(key, p);
    FillingAdmitted([Request(key, 0)], key, p);
    FillingEnds([Request(key, 0)], key, p.limit - 1, p);
    RepeatedAdmitted(Filled(key, p), key, p.window + 1, p.limit, p.window, p);
  }

  /** Some run admits more than the limit within one window's length. */
  ghost predicate CanExceed(p: Policy) {
    exists actions, key, from :: InOrder(actions) && Exceeds(actions, key, from, p)
  }

  predicate Exceeds(actions: seq<Action>, key: Key, from: Time, p: Policy) {
    AdmittedFrom(actions, key, from, p) > p.limit
  }

  /** The limit holds for every interval of a window's length exactly when it is one. */
  lemma ExceedsUnlessOne(p: Policy)
    requires PolicyOk(p) && p.window >= 1
    ensures CanExceed(p) <==> p.limit >= 2
  {
    TwiceTheLimitIsTight("", p);
    if p.limit >= 2 {
      assert Exceeds(Straddling("", p), "", p.window, p);
    } else {
      forall actions: seq<Action>, key: Key, from: Time | InOrder(actions) ensures !Exceeds(actions, key, from, p) {
        AtMostTwiceTheLimit(actions, key, from, p);
      }
    }
  }

  // ---------------------------------------------------------------------------
  // Cleanup is invisible
  // ---------------------------------------------------------------------------

  function WithoutCleaning(actions: seq<Action>): seq<Action> {
    if actions == [] then []
    else
      var rest := WithoutCleaning(actions[..|actions| - 1]);
      if actions[|actions| - 1].Cleaning? then rest else rest + [actions[|actions| - 1]]
  }

  ghost predicate SameFrom(a: Entries, b: Entries, clock: Time, window: Time) {
    forall key, now :: now >= clock ==> Current(a, key, now, window) == Current(b, key, now, window)
  }

  lemma ConsumeSame(a: Entries, b: Entries, key: Key, now: Time, window: Time)
    requires SameFrom(a, b, now, window)
    ensures SameFrom(Consume(a, key, now, window), Consume(b, key, now, window), now, window)
  {
    forall k, t | t >= now
      ensures Current(Consume(a, key, now, window), k, t, window) == Current(Consume(b, key, now, window), k, t, window)
    {
      assert Current(a, k, t, window) == Current(b, k, t, window);
      assert Current(a, key, now, window) == Current(b, key, now, window);
    }
  }

  /** Cleaning up anywhere in a run changes no request's outcome, nor any later state that matters. */
  lemma {:induction false} CleanupChangesNothing(actions: seq<Action>, clock: Time, p: Policy)
    requires InOrder(actions) && NoLaterThan(actions, clock)
    ensures Trace(actions, p) == Trace(WithoutCleaning(actions), p)
    ensures SameFrom(After(actions, p), After(WithoutCleaning(actions), p), clock, p.window)
    decreases |actions|
  {
    if actions != [] {
      var before, last := actions[..|actions| - 1], actions[|actions| - 1];
      CleanupChangesNothing(before, last.now, p);
      var rest := WithoutCleaning(before);
      match last {
        case Request(key, now) =>
          assert (rest + [last])[..|rest|] == rest;
          ConsumeSame(After(before, p), After(rest, p), key, now, p.window);
        case Cleaning(now) =>
          forall k, t | t >= clock
            ensures Current(Swept(After(before, p), now), k, t, p.window) == Current(After(rest, p), k, t, p.window)
          {
            assert Current(After(before, p), k, t, p.window) == Current(After(rest, p), k, t, p.window);
          }
      }
    }
  }
}
