/**
 The per-key sliding-window limiter of the public token endpoint. It keeps only the grants of the last
 sixty seconds, yet must answer as if it kept its whole history.
 */
module RateLimiter {
  const WINDOW := 60.0

  /** One request: the key it is limited by and the monotonic clock reading. */
  datatype Call = Call(key: string, now: real)

  /** `[t for t in times if now - t < 60]`. */
  function Prune(times: seq<real>, now: real): (r: seq<real>)
    ensures |r| <= |times|
  {
    if times == [] then []
    else
      var rest, last := Prune(times[..|times| - 1], now), times[|times| - 1];
      if now - last < WINDOW then rest + [last] else rest
  }

  function HitsOf(hits: map<string, seq<real>>, key: string): seq<real> {
    if key in hits then hits[key] else []
  }

  /** The limiter as the code keeps it: a map from key to recent grant times. */
  class Limiter {
    const max: int
    var hits: map<string, seq<real>>

    constructor (max: int)
      ensures this.max == max && hits == map[]
    {
      this.max, hits := max, map[];
    }

    method Allow(key: string, now: real) returns (granted: bool)
      modifies this
      ensures (granted, hits) == AllowStep(max, old(hits), Call(key, now))
    {
      var window := Prune(HitsOf(hits, key), now);
      if |window| >= max {
        hits := hits[key := window];
        return false;
      }
      window := window + [now];
      hits := hits[key := window];
      return true;
    }
  }

  function AllowStep(max: int, hits: map<string, seq<real>>, c: Call): (bool, map<string, seq<real>>) {
    var window := Prune(HitsOf(hits, c.key), c.now);
    if |window| >= max then (false, hits[c.key := window]) else (true, hits[c.key := window + [c.now]])
  }

  /** The limiter's state after a run. */
  function Hits(max: int, calls: seq<Call>): map<string, seq<real>> {
    if calls == [] then map[] else AllowStep(max, Hits(max, calls[..|calls| - 1]), calls[|calls| - 1]).1
  }

  /** The limiter's answer to the last call of a run. */
  predicate Granted(max: int, calls: seq<Call>)
    requires calls != []
  {
    AllowStep(max, Hits(max, calls[..|calls| - 1]), calls[|calls| - 1]).0
  }

  // ---------------------------------------------------------------- the limiter with a whole history

  /** Every grant ever made to a key, oldest first, by a limiter that refuses exactly when the grants
      of the trailing window number at least `max`. */
  function Grants(max: int, calls: seq<Call>, key: string): seq<real>
    decreases |calls|, 1
  {
    if calls == [] then []
    else
      var before, c := calls[..|calls| - 1], calls[|calls| - 1];
      if c.key == key && FullHistoryGrants(max, calls) then Grants(max, before, key) + [c.now]
      else Grants(max, before, key)
  }

  predicate FullHistoryGrants(max: int, calls: seq<Call>)
    requires calls != []
    decreases |calls|, 0
  {
    var c := calls[|calls| - 1];
    CountSince(Grants(max, calls[..|calls| - 1], c.key), c.now - 60.0) < max
  }

  /** How many of the times lie after `from`. */
  function CountSince(times: seq<real>, from: real): (n: nat) {
    if times == [] then 0
    else CountSince(times[..|times| - 1], from) + (if times[|times| - 1] > from then 1 else 0)
  }

  ghost predicate Monotone(calls: seq<Call>) {
    forall i, j :: 0 <= i < j < |calls| ==> calls[i].now <= calls[j].now
  }

  lemma {:induction false} PruneCounts(times: seq<real>, now: real)
    ensures |Prune(times, now)| == CountSince(times, now - WINDOW)
  {
    if times != [] {
      PruneCounts(times[..|times| - 1], now);
    }
  }

  /** Pruning twice at growing times is pruning once. */
  lemma {:induction false} PruneTwice(times: seq<real>, earlier: real, now: real)
    requires earlier <= now
    ensures Prune(Prune(times, earlier), now) == Prune(times, now)
  {
    if times != [] {
      var front, last := times[..|times| - 1], times[|times| - 1];
      PruneTwice(front, earlier, now);
      if earlier - last < WINDOW {
        PruneSnoc(Prune(front, earlier), last, now);
      }
    }
  }

  lemma PruneSnoc(times: seq<real>, t: real, now: real)
    ensures Prune(times + [t], now) == if now - t < WINDOW then Prune(times, now) + [t] else Prune(times, now)
  {
    assert (times + [t])[..|times|] == times;
  }

  /** The kept list and the whole history look the same through every window from `now` on. */
  ghost predicate Agrees(kept: seq<real>, whole: seq<real>, now: real) {
    forall later: real :: later >= now ==> Prune(kept, later) == Prune(whole, later)
  }

  lemma AgreesAfter(kept: seq<real>, whole: seq<real>, before: real, now: real, t: real)
    requires Agrees(kept, whole, before) && before <= now
    ensures Agrees(Prune(kept, now), whole, now)
    ensures Agrees(Prune(kept, now) + [t], whole + [t], now)
  {
    forall later: real | later >= now
      ensures Prune(Prune(kept, now), later) == Prune(whole, later)
      ensures Prune(Prune(kept, now) + [t], later) == Prune(whole + [t], later)
    {
      PruneTwice(kept, now, later);
      PruneSnoc(Prune(kept, now), t, later);
      PruneSnoc(whole, t, later);
    }
  }

  lemma BeforeIsMonotone(calls: seq<Call>)
    requires Monotone(calls) && calls != []
    ensures var before := calls[..|calls| - 1];
      Monotone(before) && (before != [] ==> before[|before| - 1].now <= calls[|calls| - 1].now)
  {
  }

  /** What one step does to both records of the key it concerns. */
  lemma StepOnKey(max: int, calls: seq<Call>, kept: seq<real>, whole: seq<real>)
    requires calls != []
    requires kept == HitsOf(Hits(max, calls[..|calls| - 1]), calls[|calls| - 1].key)
    requires whole == Grants(max, calls[..|calls| - 1], calls[|calls| - 1].key)
    requires var now := calls[|calls| - 1].now; Prune(kept, now) == Prune(whole, now)
    ensures var c := calls[|calls| - 1]; var granted := |Prune(kept, c.now)| < max;
      HitsOf(Hits(max, calls), c.key) == (if granted then Prune(kept, c.now) + [c.now] else Prune(kept, c.now)) &&
      Grants(max, calls, c.key) == (if granted then whole + [c.now] else whole)
  {
    PruneCounts(whole, calls[|calls| - 1].now);
  }

  lemma StepAgrees(max: int, calls: seq<Call>)
    requires calls != []
    requires var before, c := calls[..|calls| - 1], calls[|calls| - 1];
      Agrees(HitsOf(Hits(max, before), c.key), Grants(max, before, c.key), c.now)
    ensures var c := calls[|calls| - 1];
      Agrees(HitsOf(Hits(max, calls), c.key), Grants(max, calls, c.key), c.now)
  {
    var before, c := calls[..|calls| - 1], calls[|calls| - 1];
    var kept, whole := HitsOf(Hits(max, before), c.key), Grants(max, before, c.key);
    AgreesAfter(kept, whole, c.now, c.now, c.now);
    StepOnKey(max, calls, kept, whole);
  }

  lemma {:induction false} HitsAgree(max: int, calls: seq<Call>, key: string, now: real)
    requires Monotone(calls) && (calls != [] ==> calls[|calls| - 1].now <= now)
    ensures Agrees(HitsOf(Hits(max, calls), key), Grants(max, calls, key), now)
  {
    if calls != [] {
      var before, c := calls[..|calls| - 1], calls[|calls| - 1];
      BeforeIsMonotone(calls);
      if c.key == key {
        HitsAgree(max, before, key, c.now);
        StepAgrees(max, calls);
      } else {
        HitsAgree(max, before, key, now);
      }
    }
  }

  /** Throwing history away never shows: at every step of every run with a monotone clock the limiter
      answers as the one that keeps its whole grant history. */
  lemma PrunedAnswersAsWhole(max: int, calls: seq<Call>)
    requires Monotone(calls) && calls != []
    ensures Granted(max, calls) <==> FullHistoryGrants(max, calls)
  {
    var before, c := calls[..|calls| - 1], calls[|calls| - 1];
    BeforeIsMonotone(calls);
    HitsAgree(max, before, c.key, c.now);
    assert Prune(HitsOf(Hits(max, before), c.key), c.now) == Prune(Grants(max, before, c.key), c.now);
    PruneCounts(Grants(max, before, c.key), c.now);
  }

  /** The times at which the limiter itself let a key through. */
  function Allowed(max: int, calls: seq<Call>, key: string): seq<real> {
    if calls == [] then []
    else
      var before, c := calls[..|calls| - 1], calls[|calls| - 1];
      if c.key == key && Granted(max, calls) then Allowed(max, before, key) + [c.now]
      else Allowed(max, before, key)
  }

  lemma {:induction false} AllowedIsGrants(max: int, calls: seq<Call>, key: string)
    requires Monotone(calls)
    ensures Allowed(max, calls, key) == Grants(max, calls, key)
  {
    if calls != [] {
      BeforeIsMonotone(calls);
      AllowedIsGrants(max, calls[..|calls| - 1], key);
      PrunedAnswersAsWhole(max, calls);
    }
  }

  // ---------------------------------------------------------------- the bound

  /** How many of the times lie in the half-open interval [from, from + 60). */
  function CountIn(times: seq<real>, from: real): (n: nat) {
    if times == [] then 0
    else CountIn(times[..|times| - 1], from) + (if from <= times[|times| - 1] < from + 60.0 then 1 else 0)
  }

  lemma {:induction false} InWindowIsSince(times: seq<real>, from: real, last: real)
    requires from <= last < from + WINDOW
    ensures CountIn(times, from) <= CountSince(times, last - WINDOW)
  {
    if times != [] {
      InWindowIsSince(times[..|times| - 1], from, last);
    }
  }

  lemma {:induction false} WholeBound(max: int, calls: seq<Call>, key: string, from: real)
    ensures CountIn(Grants(max, calls, key), from) <= if max > 0 then max else 0
  {
    if calls != [] {
      var before, c := calls[..|calls| - 1], calls[|calls| - 1];
      WholeBound(max, before, key, from);
      if c.key == key && FullHistoryGrants(max, calls) {
        var g := Grants(max, before, key);
        assert (g + [c.now])[..|g|] == g;
        if from <= c.now < from + WINDOW {
          InWindowIsSince(g, from, c.now);
        }
      }
    }
  }

  /** In every run with a monotone clock, every half-open sixty-second interval holds at most
      max(0, limit) requests the limiter let through for a key. */
  lemma AtMostMaxPerWindow(max: int, calls: seq<Call>, key: string, from: real)
    requires Monotone(calls)
    ensures CountIn(Allowed(max, calls, key), from) <= if max > 0 then max else 0
  {
    AllowedIsGrants(max, calls, key);
    WholeBound(max, calls, key, from);
  }

  // ---------------------------------------------------------------- independence of keys

  function Only(calls: seq<Call>, key: string): seq<Call> {
    if calls == [] then []
    else if calls[|calls| - 1].key == key then Only(calls[..|calls| - 1], key) + [calls[|calls| - 1]]
    else Only(calls[..|calls| - 1], key)
  }

  /** What a key is let through depends on its own calls alone, whatever the clock does. */
  lemma {:induction false} KeysAreIndependent(max: int, calls: seq<Call>, key: string)
    ensures Allowed(max, calls, key) == Allowed(max, Only(calls, key), key)
    ensures HitsOf(Hits(max, calls), key) == HitsOf(Hits(max, Only(calls, key)), key)
  {
    if calls != [] {
      var before, c := calls[..|calls| - 1], calls[|calls| - 1];
      KeysAreIndependent(max, before, key);
      if c.key == key {
        assert Only(calls, key)[..|Only(calls, key)| - 1] == Only(before, key);
      }
    }
  }
}
