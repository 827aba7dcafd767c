/** The fixed-window rate limiter. */
module RateLimiter {
  type Key = string

  datatype Counter = Counter(count: nat, resetAt: int)
  type Counters = map<Key, Counter>

  /** The window a request falls into: the stored one, or a new one that starts now. */
  function WindowOf(counters: Counters, key: Key, now: int, windowMs: int): Counter {
    if key in counters && counters[key].resetAt > now then counters[key] else Counter(0, now + windowMs)
  }

  function Hit(counters: Counters, key: Key, now: int, windowMs: int): Counters {
    var c := WindowOf(counters, key, now, windowMs);
    counters[key := Counter(c.count + 1, c.resetAt)]
  }

  /** Whether a request passes under `limit`. */
  predicate Passes(counters: Counters, key: Key, now: int, windowMs: int, limit: int) {
    WindowOf(counters, key, now, windowMs).count + 1 <= limit
  }

  function Cleaned(counters: Counters, now: int): Counters {
    map k | k in counters && counters[k].resetAt > now :: counters[k]
  }

  /** A request, or one run of the periodic cleanup. */
  datatype Event = Request(now: int, key: Key) | CleanUp(now: int)

  function Step(counters: Counters, e: Event, windowMs: int): Counters {
    match e
    case Request(now, key) => Hit(counters, key, now, windowMs)
    case CleanUp(now) => Cleaned(counters, now)
  }

  function Run(h: seq<Event>, windowMs: int): Counters {
    if h == [] then map[] else Step(Run(h[..|h| - 1], windowMs), h[|h| - 1], windowMs)
  }

  ghost predicate Monotone(h: seq<Event>) {
    forall i, j :: 0 <= i < j < |h| ==> h[i].now <= h[j].now
  }

  predicate PassedAt(h: seq<Event>, i: nat, windowMs: int, limit: int, key: Key)
    requires i < |h|
  {
    h[i].Request? && h[i].key == key && Passes(Run(h[..i], windowMs), key, h[i].now, windowMs, limit)
  }

  // ---------------------------------------------------------------------------------------
  // At most twice the limit in any interval of one window length
  // ---------------------------------------------------------------------------------------

  /** Passed requests of a key at times in [from, from + windowMs). */
  function PassedWithin(h: seq<Event>, windowMs: int, limit: int, key: Key, from: int): nat {
    if h == [] then 0 else
    PassedWithin(h[..|h| - 1], windowMs, limit, key, from) +
    (if PassedAt(h, |h| - 1, windowMs, limit, key) && from <= h[|h| - 1].now < from + windowMs then 1 else 0)
  }

  function Least(a: int, b: int): int {
    if a < b then a else b
  }

  /** The last window of a key that a run has seen: its start and count, whether or not it was cleaned up. */
  datatype Window = Never | Window(start: int, count: nat)

  function LastWindow(h: seq<Event>, windowMs: int, key: Key): Window {
    if h == [] then Never else
    var before := LastWindow(h[..|h| - 1], windowMs, key);
    var e := h[|h| - 1];
    if !(e.Request? && e.key == key) then before
    else if before.Window? && before.start + windowMs > e.now then Window(before.start, before.count + 1)
    else Window(e.now, 1)
  }

  /** While a window is open its counter is in the table; the table holds nothing else of the key. */
  lemma {:induction false} TableHoldsLastWindow(h: seq<Event>, windowMs: int, key: Key, now: int)
    requires Monotone(h) && (h != [] ==> h[|h| - 1].now <= now)
    ensures
      var w := LastWindow(h, windowMs, key);
      var c := WindowOf(Run(h, windowMs), key, now, windowMs);
      c == if w.Window? && w.start + windowMs > now then Counter(w.count, w.start + windowMs) else Counter(0, now + windowMs)
    ensures
      var w := LastWindow(h, windowMs, key);
      w.Window? ==> h != [] && w.start <= h[|h| - 1].now && w.count >= 1
  {
    if h != [] {
      var before, e := h[..|h| - 1], h[|h| - 1];
      TableHoldsLastWindow(before, windowMs, key, e.now);
      TableHoldsLastWindow(before, windowMs, key, now);
    }
  }

  /**
   * A request passes exactly when the key's open window has counted fewer than `limit` requests,
   * refused ones included; a new window has counted none.
   */
  lemma PassesIffWindowHasRoom(h: seq<Event>, windowMs: int, limit: int, key: Key, now: int)
    requires Monotone(h) && (h != [] ==> h[|h| - 1].now <= now)
    ensures
      var w := LastWindow(h, windowMs, key);
      Passes(Run(h, windowMs), key, now, windowMs, limit) <==>
      (if w.Window? && w.start + windowMs > now then w.count else 0) < limit
  {
    TableHoldsLastWindow(h, windowMs, key, now);
  }

  /** Passed requests after the one that opened the window. */
  function AfterOpener(passed: int): nat {
    if passed < 1 then 0 else passed - 1
  }

  /**
   * The passes within an interval of one window length. The request that opened a window lies
   * before the interval whenever the interval reaches into the next window.
   */
  lemma {:induction false} PassesAreBounded(h: seq<Event>, windowMs: int, limit: nat, key: Key, from: int)
    requires Monotone(h) && windowMs > 0
    ensures
      var w := LastWindow(h, windowMs, key);
      var passed := PassedWithin(h, windowMs, limit, key, from);
      if w.Never? then passed == 0
      else if w.start < from then passed <= AfterOpener(Least(w.count, limit))
      else if w.start < from + windowMs then passed <= AfterOpener(limit) + Least(w.count, limit)
      else passed <= AfterOpener(2 * limit)
    ensures h == [] || h[|h| - 1].now < from ==> PassedWithin(h, windowMs, limit, key, from) == 0
  {
    if h != [] {
      var before, e := h[..|h| - 1], h[|h| - 1];
      PassesAreBounded(before, windowMs, limit, key, from);
      TableHoldsLastWindow(before, windowMs, key, e.now);
    }
  }

  /** Any half-open interval of one window length holds fewer than twice the limit of passed requests per key. */
  lemma FewerThanTwiceTheLimit(h: seq<Event>, windowMs: int, limit: nat, key: Key, from: int)
    requires Monotone(h) && windowMs > 0
    ensures PassedWithin(h, windowMs, limit, key, from) <= if limit == 0 then 0 else 2 * limit - 1
  {
    PassesAreBounded(h, windowMs, limit, key, from);
  }

  /** The bound is reached: with a limit of 2, three requests pass within one window length. */
  lemma BoundIsReached()
    ensures
      var h := [Request(0, "k"), Request(9, "k"), Request(10, "k"), Request(10, "k")];
      Monotone(h) && PassedWithin(h, 10, 2, "k", 1) == 3
  {
    var h := [Request(0, "k"), Request(9, "k"), Request(10, "k"), Request(10, "k")];
    assert h[..3][..2] == h[..2] && h[..2][..1] == h[..1] && h[..1][..0] == [] && h[..4] == h;
    assert Run(h[..1], 10) == map["k" := Counter(1, 10)];
    assert Run(h[..2], 10) == map["k" := Counter(2, 10)];
    assert Run(h[..3], 10) == map["k" := Counter(1, 20)];
    assert PassedWithin(h[..1], 10, 2, "k", 1) == 0;
    assert PassedWithin(h[..2], 10, 2, "k", 1) == 1 by {
      assert PassedAt(h[..2], 1, 10, 2, "k");
    }
    assert PassedWithin(h[..3], 10, 2, "k", 1) == 2 by {
      assert PassedAt(h[..3], 2, 10, 2, "k");
    }
    assert PassedAt(h, 3, 10, 2, "k");
  }

  // ---------------------------------------------------------------------------------------
  // Cleanups are invisible
  // ---------------------------------------------------------------------------------------

  function WithoutCleanups(h: seq<Event>): seq<Event> {
    if h == [] then [] else
    WithoutCleanups(h[..|h| - 1]) + (if h[|h| - 1].CleanUp? then [] else [h[|h| - 1]])
  }

  /** Two tables that no request at `now` or later can tell apart. */
  ghost predicate SameFrom(a: Counters, b: Counters, now: int, windowMs: int) {
    forall key, later :: later >= now ==> WindowOf(a, key, later, windowMs) == WindowOf(b, key, later, windowMs)
  }

  lemma HitKeepsSame(a: Counters, b: Counters, key: Key, now: int, windowMs: int)
    requires SameFrom(a, b, now, windowMs)
    ensures SameFrom(Hit(a, key, now, windowMs), Hit(b, key, now, windowMs), now, windowMs)
  {
    assert WindowOf(a, key, now, windowMs) == WindowOf(b, key, now, windowMs);
    forall k, later | later >= now
      ensures WindowOf(Hit(a, key, now, windowMs), k, later, windowMs) == WindowOf(Hit(b, key, now, windowMs), k, later, windowMs)
    {
      assert WindowOf(a, k, later, windowMs) == WindowOf(b, k, later, windowMs);
    }
  }

  lemma CleanKeepsSame(a: Counters, b: Counters, now: int, windowMs: int)
    requires SameFrom(a, b, now, windowMs)
    ensures SameFrom(Cleaned(a, now), b, now, windowMs)
  {
    forall k, later | later >= now ensures WindowOf(Cleaned(a, now), k, later, windowMs) == WindowOf(b, k, later, windowMs) {
      assert WindowOf(a, k, later, windowMs) == WindowOf(b, k, later, windowMs);
    }
  }

  lemma WithoutCleanupsAppends(h: seq<Event>)
    requires h != []
    ensures WithoutCleanups(h) == WithoutCleanups(h[..|h| - 1]) + (if h[|h| - 1].CleanUp? then [] else [h[|h| - 1]])
    ensures h[|h| - 1].Request? ==> WithoutCleanups(h)[..|WithoutCleanups(h)| - 1] == WithoutCleanups(h[..|h| - 1])
  {
  }

  /** No request at the time of the last event or later can tell whether cleanups ran. */
  lemma {:induction false} CleanupsAreInvisible(h: seq<Event>, windowMs: int, now: int)
    requires Monotone(h) && (h != [] ==> h[|h| - 1].now <= now)
    ensures SameFrom(Run(h, windowMs), Run(WithoutCleanups(h), windowMs), now, windowMs)
  {
    if h != [] {
      var before, e := h[..|h| - 1], h[|h| - 1];
      CleanupsAreInvisible(before, windowMs, e.now);
      WithoutCleanupsAppends(h);
      var a, b := Run(before, windowMs), Run(WithoutCleanups(before), windowMs);
      if e.Request? {
        HitKeepsSame(a, b, e.key, e.now, windowMs);
        assert Run(WithoutCleanups(h), windowMs) == Hit(b, e.key, e.now, windowMs);
      } else {
        CleanKeepsSame(a, b, e.now, windowMs);
        assert WithoutCleanups(h) == WithoutCleanups(before);
      }
    }
  }

  /** Whether the next request passes does not depend on where cleanups ran. */
  lemma CleanupsNeverChangeAVerdict(h: seq<Event>, windowMs: int, limit: int, key: Key, now: int)
    requires Monotone(h) && (h != [] ==> h[|h| - 1].now <= now)
    ensures Passes(Run(h, windowMs), key, now, windowMs, limit) <==> Passes(Run(WithoutCleanups(h), windowMs), key, now, windowMs, limit)
  {
    CleanupsAreInvisible(h, windowMs, now);
    assert WindowOf(Run(h, windowMs), key, now, windowMs) == WindowOf(Run(WithoutCleanups(h), windowMs), key, now, windowMs);
  }

  // ---------------------------------------------------------------------------------------
  // The code
  // ---------------------------------------------------------------------------------------

  /** The response headers of one request, or the refusal. */
  datatype Verdict = Verdict(passed: bool, remaining: int, resetSeconds: int)

  /** Milliseconds to seconds, rounded up. */
  function CeilSeconds(ms: int): int {
    -((-ms) / 1000)
  }

  class Limiter {
    const windowMs: int
    var counters: Counters

    constructor (windowMs: int)
      ensures this.windowMs == windowMs && counters == map[]
    {
      this.windowMs, counters := windowMs, map[];
    }

    method Middleware(key: Key, now: int, limit: int) returns (v: Verdict)
      modifies this`counters
      ensures counters == Hit(old(counters), key, now, windowMs)
      ensures v.passed <==> Passes(old(counters), key, now, windowMs, limit)
      ensures v.remaining >= 0 && (v.passed ==> v.remaining == limit - counters[key].count) && (!v.passed ==> v.remaining == 0)
      ensures v.resetSeconds >= 0 && (windowMs > 0 ==> now + 1000 * (v.resetSeconds - 1) < counters[key].resetAt <= now + 1000 * v.resetSeconds)
    {
      if key !in counters || counters[key].resetAt <= now {
        counters := counters[key := Counter(0, now + windowMs)];
      }
      counters := counters[key := Counter(counters[key].count + 1, counters[key].resetAt)];
      var left := limit - counters[key].count;
      var seconds := CeilSeconds(counters[key].resetAt - now);
      v := Verdict(counters[key].count <= limit, if left < 0 then 0 else left, if seconds < 0 then 0 else seconds);
    }

    method CleanUpExpired(now: int)
      modifies this`counters
      ensures counters == Cleaned(old(counters), now)
    {
      var keys := counters.Keys;
      while keys != {}
        invariant keys <= old(counters).Keys
        invariant counters == map k | k in old(counters) && (k in keys || old(counters)[k].resetAt > now) :: old(counters)[k]
        decreases |keys|
      {
        var k :| k in keys;
        keys := keys - {k};
        if counters[k].resetAt <= now {
          counters := counters - {k};
        }
      }
    }
  }
}
