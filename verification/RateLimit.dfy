/** The fixed-window request limiter: counters that are pruned, and what they admit over time. */
module RateLimit {
  import opened Division

  /** Clock readings are seconds since the epoch, with a fraction. */
  type Instant = t: real | t >= 0.0 witness 0.0

  datatype Bucket = Bucket(key: string, window: int)

  const PRUNE_ABOVE := 10_000

  function Count(counts: map<Bucket, nat>, b: Bucket): nat {
    if b in counts then counts[b] else 0
  }

  function Bumped(counts: map<Bucket, nat>, b: Bucket): map<Bucket, nat> {
    counts[b := Count(counts, b) + 1]
  }

  function Kept(counts: map<Bucket, nat>, window: int): map<Bucket, nat> {
    map b | b in counts && b.window >= window :: counts[b]
  }

  function Pruned(counts: map<Bucket, nat>, window: int): map<Bucket, nat> {
    if |counts| > PRUNE_ABOVE then Kept(counts, window) else counts
  }

  /** The counters after a run of hits, with pruning as the store does it. */
  function After(hits: seq<Bucket>): map<Bucket, nat> {
    if hits == [] then map[] else
    var n := |hits| - 1;
    Pruned(Bumped(After(hits[..n]), hits[n]), hits[n].window)
  }

  lemma AfterSnoc(hits: seq<Bucket>, b: Bucket)
    ensures After(hits + [b]) == Pruned(Bumped(After(hits), b), b.window)
  {
    assert (hits + [b])[..|hits|] == hits;
  }

  /** What the store answered to the last hit. */
  function Answer(hits: seq<Bucket>): nat
    requires hits != []
  {
    Count(After(hits), hits[|hits| - 1])
  }

  /** How often a bucket was really hit: the answer of a store that never forgets. */
  function Hits(hits: seq<Bucket>, b: Bucket): nat {
    if hits == [] then 0 else
    var n := |hits| - 1;
    Hits(hits[..n], b) + (if hits[n] == b then 1 else 0)
  }

  predicate LatestSoFar(hits: seq<Bucket>, window: int) {
    forall i :: 0 <= i < |hits| ==> hits[i].window <= window
  }

  lemma {:induction false} CountersAgree(hits: seq<Bucket>, b: Bucket)
    ensures Count(After(hits), b) <= Hits(hits, b)
    ensures LatestSoFar(hits, b.window) ==> Count(After(hits), b) == Hits(hits, b)
  {
    if hits != [] {
      var n := |hits| - 1;
      CountersAgree(hits[..n], b);
      if LatestSoFar(hits, b.window) {
        assert LatestSoFar(hits[..n], b.window) && hits[n].window <= b.window;
      }
    }
  }

  /** Pruning never raises a count, and never lowers the one of a hit in the latest window so far. */
  lemma PruningIsInvisible(hits: seq<Bucket>)
    requires hits != []
    ensures var last := hits[|hits| - 1];
            && Answer(hits) <= Hits(hits, last)
            && (LatestSoFar(hits, last.window) ==> Answer(hits) == Hits(hits, last))
  {
    CountersAgree(hits, hits[|hits| - 1]);
  }

  // ---- what is admitted --------------------------------------------------------------------------------------

  predicate Admits(hits: seq<Bucket>, max: nat)
    requires hits != []
  {
    Answer(hits) <= max
  }

  /** How many hits on a bucket were let through. */
  function Admitted(hits: seq<Bucket>, b: Bucket, max: nat): nat {
    if hits == [] then 0 else
    var n := |hits| - 1;
    Admitted(hits[..n], b, max) + (if hits[n] == b && Admits(hits, max) then 1 else 0)
  }

  ghost predicate Forward(hits: seq<Bucket>) {
    forall i, j :: 0 <= i < j < |hits| ==> hits[i].window <= hits[j].window
  }

  function Min(a: nat, b: nat): nat { if a < b then a else b }

  /** While the clock does not run backwards, a window admits its first max requests and no other. */
  lemma {:induction false} WindowAdmits(hits: seq<Bucket>, b: Bucket, max: nat)
    requires Forward(hits)
    ensures Admitted(hits, b, max) == Min(Hits(hits, b), max)
  {
    if hits != [] {
      var n := |hits| - 1;
      WindowAdmits(hits[..n], b, max);
      if hits[n] == b {
        PruningIsInvisible(hits);
        assert LatestSoFar(hits, b.window);
      }
    }
  }

  // ---- windows in time --------------------------------------------------------------------------------------

  datatype Request = Request(key: string, at: Instant)

  function WindowOf(at: Instant, windowSec: nat): int
    requires windowSec > 0
  {
    at.Floor / windowSec
  }

  function HitOf(r: Request, windowSec: nat): Bucket
    requires windowSec > 0
  {
    Bucket(r.key, WindowOf(r.at, windowSec))
  }

  function HitsOf(log: seq<Request>, windowSec: nat): seq<Bucket>
    requires windowSec > 0
  {
    seq(|log|, i requires 0 <= i < |log| => HitOf(log[i], windowSec))
  }

  lemma WindowMonotone(a: Instant, b: Instant, windowSec: nat)
    requires windowSec > 0 && a <= b
    ensures WindowOf(a, windowSec) <= WindowOf(b, windowSec)
  {
    DivMonotone(a.Floor, b.Floor, windowSec);
  }

  /** An interval as long as a window touches two windows at most. */
  lemma TwoWindows(a: Instant, b: Instant, windowSec: nat)
    requires windowSec > 0 && a <= b <= a + windowSec as real
    ensures WindowOf(a, windowSec) <= WindowOf(b, windowSec) <= WindowOf(a, windowSec) + 1
  {
    WindowMonotone(a, b, windowSec);
    assert b.Floor <= a.Floor + windowSec;
    DivMonotone(b.Floor, a.Floor + windowSec, windowSec);
    DivNext(a.Floor, windowSec);
  }

  ghost predicate InOrder(log: seq<Request>) {
    forall i, j :: 0 <= i < j < |log| ==> log[i].at <= log[j].at
  }

  /** Requests of one key let through within a stretch of time. */
  function AdmittedDuring(log: seq<Request>, key: string, from: Instant, to: Instant, windowSec: nat, max: nat): nat
    requires windowSec > 0
  {
    if log == [] then 0 else
    var n := |log| - 1;
    AdmittedDuring(log[..n], key, from, to, windowSec, max)
    + (if log[n].key == key && from <= log[n].at <= to && Admits(HitsOf(log, windowSec), max) then 1 else 0)
  }

  lemma {:induction false} DuringIsWithinWindows(
      log: seq<Request>, key: string, from: Instant, to: Instant, windowSec: nat, max: nat)
    requires windowSec > 0 && from <= to <= from + windowSec as real
    ensures var w, hits := WindowOf(from, windowSec), HitsOf(log, windowSec);
            AdmittedDuring(log, key, from, to, windowSec, max)
            <= Admitted(hits, Bucket(key, w), max) + Admitted(hits, Bucket(key, w + 1), max)
  {
    if log != [] {
      var n := |log| - 1;
      DuringIsWithinWindows(log[..n], key, from, to, windowSec, max);
      assert HitsOf(log, windowSec)[..n] == HitsOf(log[..n], windowSec);
      if from <= log[n].at <= to {
        TwoWindows(from, log[n].at, windowSec);
      }
    }
  }

  lemma OrderIsForward(log: seq<Request>, windowSec: nat)
    requires windowSec > 0 && InOrder(log)
    ensures Forward(HitsOf(log, windowSec))
  {
    forall i, j | 0 <= i < j < |log|
      ensures WindowOf(log[i].at, windowSec) <= WindowOf(log[j].at, windowSec)
    {
      WindowMonotone(log[i].at, log[j].at, windowSec);
    }
  }

  /** No stretch of a window's length, wherever it starts, lets more than twice the maximum through. */
  lemma BurstBound(log: seq<Request>, key: string, from: Instant, to: Instant, windowSec: nat, max: nat)
    requires windowSec > 0 && InOrder(log) && from <= to <= from + windowSec as real
    ensures AdmittedDuring(log, key, from, to, windowSec, max) <= 2 * max
  {
    DuringIsWithinWindows(log, key, from, to, windowSec, max);
    OrderIsForward(log, windowSec);
    var w, hits := WindowOf(from, windowSec), HitsOf(log, windowSec);
    WindowAdmits(hits, Bucket(key, w), max);
    WindowAdmits(hits, Bucket(key, w + 1), max);
  }

  // ---- Retry-After --------------------------------------------------------------------------------------------

  function RetryAfter(at: Instant, windowSec: nat): int
    requires windowSec > 0
  {
    windowSec - at.Floor % windowSec
  }

  /** Waiting that long lands in the next window, and waiting any shorter stays in this one. */
  lemma RetryLandsInNextWindow(at: Instant, windowSec: nat, wait: nat)
    requires windowSec > 0 && wait <= RetryAfter(at, windowSec)
    ensures 1 <= RetryAfter(at, windowSec) <= windowSec
    ensures WindowOf(at + wait as real, windowSec)
         == WindowOf(at, windowSec) + (if wait == RetryAfter(at, windowSec) then 1 else 0)
  {
    var s := at.Floor;
    var x := s / windowSec;
    assert s == x * windowSec + s % windowSec;
    assert (at + wait as real).Floor == s + wait;
    if wait == RetryAfter(at, windowSec) {
      assert (x + 1) * windowSec == x * windowSec + windowSec;
      DivUnique(s + wait, windowSec, x + 1);
    } else {
      DivUnique(s + wait, windowSec, x);
    }
  }

  lemma {:induction false} NoHits(hits: seq<Bucket>, b: Bucket)
    requires forall i :: 0 <= i < |hits| ==> hits[i] != b
    ensures Hits(hits, b) == 0
  {
    if hits != [] {
      NoHits(hits[..|hits| - 1], b);
    }
  }

  /** A limited client that waits as told, whatever others do meanwhile, is let through. */
  lemma WaitingIsRewarded(log: seq<Request>, key: string, told: Instant, windowSec: nat, max: nat)
    requires windowSec > 0 && max > 0
    requires var again := told + RetryAfter(told, windowSec) as real;
             && again >= 0.0
             && (forall i :: 0 <= i < |log| ==> log[i].at <= again)
             && (forall i :: 0 <= i < |log| && log[i].key == key ==> log[i].at <= told)
    ensures told + RetryAfter(told, windowSec) as real >= 0.0
    ensures Admits(HitsOf(log + [Request(key, told + RetryAfter(told, windowSec) as real)], windowSec), max)
  {
    var again: Instant := told + RetryAfter(told, windowSec) as real;
    var all := log + [Request(key, again)];
    var hits, b := HitsOf(all, windowSec), Bucket(key, WindowOf(again, windowSec));
    RetryLandsInNextWindow(told, windowSec, RetryAfter(told, windowSec));
    forall i | 0 <= i < |log|
      ensures hits[i].window <= b.window && hits[i] != b
    {
      WindowMonotone(log[i].at, again, windowSec);
      if log[i].key == key {
        WindowMonotone(log[i].at, told, windowSec);
      }
    }
    PruningIsInvisible(hits);
    NoHits(hits[..|log|], b);
  }

  // ---- the store and the middleware, in place -------------------------------------------------------------------

  class InMemoryStore {
    var counts: map<Bucket, nat>
    ghost var hits: seq<Bucket>

    ghost predicate Valid()
      reads this
    {
      counts == After(hits)
    }

    constructor ()
      ensures Valid() && hits == []
    {
      counts, hits := map[], [];
    }

    method Incr(key: string, window: int) returns (count: nat)
      requires Valid()
      modifies this
      ensures Valid() && hits == old(hits) + [Bucket(key, window)]
      ensures count == Answer(hits)
      ensures var bucket, was := Bucket(key, window), old(counts);
              var counted := was[bucket := (if bucket in was then was[bucket] else 0) + 1];
              && (|counted| <= 10000 ==> counts == counted)
              && (|counted| > 10000 ==>
                    && (forall b :: b in counts <==> b in counted && b.window >= window)
                    && (forall b :: b in counts ==> counts[b] == counted[b]))
              && count == counted[bucket]
    {
      var bucket := Bucket(key, window);
      AfterSnoc(hits, bucket);
      hits := hits + [bucket];
      counts := counts[bucket := (if bucket in counts then counts[bucket] else 0) + 1];
      if |counts| > PRUNE_ABOVE {
        counts := Kept(counts, window);
      }
      count := counts[bucket];
    }
  }

  class Limiter {
    const store: InMemoryStore
    const enabled: bool
    const windowSec: nat
    const max: nat

    constructor (enabled: bool, windowSec: nat, max: nat)
      ensures this.enabled == enabled && this.windowSec == windowSec && this.max == max
      ensures fresh(store) && store.Valid() && store.hits == []
    {
      store := new InMemoryStore();
      this.enabled, this.windowSec, this.max := enabled, windowSec, max;
    }

    /** The clock is read again when the answer is written. */
    method Handle(ip: string, now: Instant, later: Instant) returns (limited: bool, retryAfter: int)
      requires store.Valid() && windowSec > 0 && now <= later
      modifies store
      ensures store.Valid()
      ensures store.hits == old(store.hits) + (if enabled then [HitOf(Request(ip, now), windowSec)] else [])
      ensures limited <==> enabled && !Admits(store.hits, max)
      ensures limited ==> retryAfter == RetryAfter(later, windowSec)
    {
      limited, retryAfter := false, 0;
      if enabled {
        var window := now.Floor / windowSec;
        var count := store.Incr(ip, window);
        limited := count > max;
      }
      if limited {
        retryAfter := windowSec - later.Floor % windowSec;
      }
    }
  }
}
