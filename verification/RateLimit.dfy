/** The sliding-window rate limiter (server/app/core/ratelimit.py) against a log of everything it accepted.

The limiter keeps one queue of times per key, evicts old times only when that key is checked, and
drops idle keys now and then.  The specification remembers every accepted hit. */
module RateLimit {
  import opened Sequences

  type Key = string

  datatype Hit = Hit(key: Key, at: real)

  const MAX_TRACKED_KEYS: nat := 10000

  // ---------------------------------------------------------- specification ---

  /** The times of the key's hits later than `cutoff`. */
  function Recent(log: seq<Hit>, key: Key, cutoff: real): seq<real> {
    if log == [] then []
    else
      var h := log[|log| - 1];
      if h.key == key && h.at > cutoff then Recent(log[..|log| - 1], key, cutoff) + [h.at]
      else Recent(log[..|log| - 1], key, cutoff)
  }

  /** Fewer than `max` accepted hits of the key lie in (now - window, now]. */
  predicate Accepts(log: seq<Hit>, max: int, window: real, h: Hit) {
    |Recent(log, h.key, h.at - window)| < max
  }

  function Decided(log: seq<Hit>, max: int, window: real, h: Hit): seq<Hit> {
    if Accepts(log, max, window, h) then log + [h] else log
  }

  /** The log after a whole run of checks, from an empty one. */
  function Run(checks: seq<Hit>, max: int, window: real): seq<Hit> {
    if checks == [] then []
    else Decided(Run(checks[..|checks| - 1], max, window), max, window, checks[|checks| - 1])
  }

  predicate Ordered(log: seq<Hit>) {
    forall i, j :: 0 <= i < j < |log| ==> log[i].at <= log[j].at
  }

  /** How many of the key's hits lie in (from, to]. */
  function Within(log: seq<Hit>, key: Key, from: real, to: real): nat {
    if log == [] then 0
    else
      var h := log[|log| - 1];
      Within(log[..|log| - 1], key, from, to) + if h.key == key && from < h.at <= to then 1 else 0
  }

  /** Every hit was accepted against the hits before it. */
  predicate Paced(log: seq<Hit>, max: int, window: real) {
    log != [] ==>
      Paced(log[..|log| - 1], max, window) && Accepts(log[..|log| - 1], max, window, log[|log| - 1])
  }

  lemma {:induction false} WithinIsRecent(log: seq<Hit>, key: Key, early: real, from: real, to: real)
    requires early <= from
    ensures Within(log, key, from, to) <= |Recent(log, key, early)|
  {
    if log != [] { WithinIsRecent(log[..|log| - 1], key, early, from, to); }
  }

  lemma {:induction false} PacedWindow(log: seq<Hit>, max: int, window: real, key: Key, t: real)
    requires Paced(log, max, window)
    ensures Within(log, key, t - window, t) <= if max > 0 then max else 0
  {
    if log != [] {
      var rest, h := log[..|log| - 1], log[|log| - 1];
      PacedWindow(rest, max, window, key, t);
      if h.key == key && t - window < h.at <= t {
        WithinIsRecent(rest, key, h.at - window, t - window, t);
      }
    }
  }

  lemma PacedExtends(log: seq<Hit>, max: int, window: real, h: Hit)
    requires Paced(log, max, window) && Accepts(log, max, window, h)
    ensures Paced(log + [h], max, window)
  {
    assert (log + [h])[..|log|] == log;
  }

  lemma {:induction false} RunIsPaced(checks: seq<Hit>, max: int, window: real)
    ensures Paced(Run(checks, max, window), max, window)
  {
    if checks != [] {
      var log := Run(checks[..|checks| - 1], max, window);
      RunIsPaced(checks[..|checks| - 1], max, window);
      if Accepts(log, max, window, checks[|checks| - 1]) {
        PacedExtends(log, max, window, checks[|checks| - 1]);
      }
    }
  }

  /** No window of the given length, wherever it ends, holds more than `max` accepted hits of a key. */
  lemma NoWindowOverflows(checks: seq<Hit>, max: int, window: real, key: Key, t: real)
    ensures Within(Run(checks, max, window), key, t - window, t) <= if max > 0 then max else 0
  {
    RunIsPaced(checks, max, window);
    PacedWindow(Run(checks, max, window), max, window, key, t);
  }

  // ------------------------------------------------ who is turned away ---

  /** In an ordered log, the recent hits are those in the window that ends with the last of them. */
  lemma {:induction false} RecentIsWithin(log: seq<Hit>, key: Key, from: real, to: real)
    requires forall i :: 0 <= i < |log| ==> log[i].at <= to
    ensures |Recent(log, key, from)| == Within(log, key, from, to)
  {
    if log != [] { RecentIsWithin(log[..|log| - 1], key, from, to); }
  }

  /** A check is accepted exactly if fewer than `max` of the logged hits of its key lie in the window that
  ends with it, and only then is it logged. */
  lemma AcceptedIff(log: seq<Hit>, max: int, window: real, h: Hit)
    requires forall i :: 0 <= i < |log| ==> log[i].at <= h.at
    ensures Accepts(log, max, window, h) <==> Within(log, h.key, h.at - window, h.at) < max
    ensures Decided(log, max, window, h)
         == if Within(log, h.key, h.at - window, h.at) < max then log + [h] else log
  {
    RecentIsWithin(log, h.key, h.at - window, h.at);
  }

  lemma WithinOfPrefix(log: seq<Hit>, key: Key, from: real, to: real)
    requires log != []
    ensures Within(log[..|log| - 1], key, from, to) <= Within(log, key, from, to)
  {}

  /** How many of the key's hits lie in the window that ends at t. */
  function InWindow(log: seq<Hit>, key: Key, window: real, t: real): nat {
    Within(log, key, t - window, t)
  }

  ghost predicate NeverCrowded(checks: seq<Hit>, max: nat, window: real) {
    forall key, t :: InWindow(checks, key, window, t) <= max
  }

  lemma PrefixIsUncrowded(checks: seq<Hit>, max: nat, window: real)
    requires checks != [] && NeverCrowded(checks, max, window)
    ensures NeverCrowded(checks[..|checks| - 1], max, window)
  {
    var init := checks[..|checks| - 1];
    forall key, t
      ensures InWindow(init, key, window, t) <= max
    {
      assert InWindow(checks, key, window, t) <= max;
      WithinOfPrefix(checks, key, t - window, t);
    }
  }

  /** In its own window the check counts itself. */
  lemma LastIsAccepted(log: seq<Hit>, max: nat, window: real, h: Hit)
    requires (forall i :: 0 <= i < |log| ==> log[i].at <= h.at) && window > 0.0
    requires InWindow(log + [h], h.key, window, h.at) <= max
    ensures Accepts(log, max, window, h)
  {
    assert (log + [h])[..|log|] == log;
    RecentIsWithin(log, h.key, h.at - window, h.at);
  }

  lemma {:induction false} UncrowdedAreAccepted(checks: seq<Hit>, max: nat, window: real)
    requires Ordered(checks) && window > 0.0 && NeverCrowded(checks, max, window)
    ensures Run(checks, max, window) == checks
  {
    if checks != [] {
      var init, h := checks[..|checks| - 1], checks[|checks| - 1];
      PrefixIsUncrowded(checks, max, window);
      UncrowdedAreAccepted(init, max, window);
      assert checks == init + [h];
      assert Accepts(init, max, window, h) by {
        assert InWindow(checks, h.key, window, h.at) <= max;
        LastIsAccepted(init, max, window, h);
      }
      AcceptedIsLogged(init, max, window, h);
    }
  }

  lemma AcceptedIsLogged(log: seq<Hit>, max: int, window: real, h: Hit)
    requires Run(log, max, window) == log && Accepts(log, max, window, h)
    ensures Run(log + [h], max, window) == log + [h]
  {
    assert (log + [h])[..|log|] == log;
  }

  /** The limiter turns nobody away exactly if no window holds more than `max` checks of a key, counting
  also those that it might have refused. */
  lemma NobodyIsTurnedAwayIff(checks: seq<Hit>, max: nat, window: real)
    requires Ordered(checks) && window > 0.0
    ensures Run(checks, max, window) == checks <==> NeverCrowded(checks, max, window)
  {
    if Run(checks, max, window) == checks {
      forall key, t
        ensures InWindow(checks, key, window, t) <= max
      {
        NoWindowOverflows(checks, max, window, key, t);
      }
    } else if NeverCrowded(checks, max, window) {
      UncrowdedAreAccepted(checks, max, window);
    }
  }

  // ---------------------------------------------------- queues and eviction ---

  predicate Rising(q: seq<real>) {
    forall i, j :: 0 <= i < j < |q| ==> q[i] <= q[j]
  }

  predicate RisingTo(q: seq<real>, last: real) {
    Rising(q) && forall i :: 0 <= i < |q| ==> q[i] <= last
  }

  /** The queue without its leading times up to `cutoff`: what `popleft` leaves. */
  function Evicted(q: seq<real>, cutoff: real): seq<real> {
    if q == [] then [] else if q[0] <= cutoff then Evicted(q[1..], cutoff) else q
  }

  function Tracked(hits: map<Key, seq<real>>, key: Key): seq<real> {
    if key in hits then hits[key] else []
  }

  lemma {:induction false} EvictedRises(q: seq<real>, cutoff: real, last: real)
    requires RisingTo(q, last)
    ensures RisingTo(Evicted(q, cutoff), last)
    ensures forall i :: 0 <= i < |Evicted(q, cutoff)| ==> cutoff < Evicted(q, cutoff)[i]
    ensures Evicted(q, cutoff) == [] <==> q == [] || q[|q| - 1] <= cutoff
  {
    if q != [] && q[0] <= cutoff { EvictedRises(q[1..], cutoff, last); }
  }

  lemma {:induction false} EvictedTwice(q: seq<real>, early: real, late: real)
    requires early <= late
    ensures Evicted(Evicted(q, early), late) == Evicted(q, late)
  {
    if q != [] && q[0] <= early { EvictedTwice(q[1..], early, late); }
  }

  lemma {:induction false} EvictedAppend(q: seq<real>, x: real, cutoff: real)
    requires RisingTo(q, x)
    ensures Evicted(q + [x], cutoff) == if x > cutoff then Evicted(q, cutoff) + [x] else []
  {
    if q == [] {
      assert (q + [x])[1..] == [] && q + [x] == [x];
      assert Evicted(q + [x], cutoff) == if x <= cutoff then Evicted([], cutoff) else [x];
    } else {
      assert (q + [x])[1..] == q[1..] + [x] && (q + [x])[0] == q[0];
      EvictedAppend(q[1..], x, cutoff);
    }
  }

  lemma {:induction false} RecentRises(log: seq<Hit>, key: Key, cutoff: real, last: real)
    requires Ordered(log) && forall i :: 0 <= i < |log| ==> log[i].at <= last
    ensures RisingTo(Recent(log, key, cutoff), last)
  {
    if log != [] { RecentRises(log[..|log| - 1], key, cutoff, log[|log| - 1].at); }
  }

  /** Evicting from the recent hits of an ordered log is looking at a later window. */
  lemma {:induction false} RecentLater(log: seq<Hit>, key: Key, early: real, late: real)
    requires Ordered(log) && early <= late
    ensures Evicted(Recent(log, key, early), late) == Recent(log, key, late)
  {
    if log != [] {
      var rest, h := log[..|log| - 1], log[|log| - 1];
      RecentLater(rest, key, early, late);
      RecentRises(rest, key, early, h.at);
      if h.key == key && h.at > early {
        EvictedAppend(Recent(rest, key, early), h.at, late);
        EvictedRises(Recent(rest, key, early), late, h.at);
        assert h.at <= late ==> Evicted(Recent(rest, key, early), late) == [];
      }
    }
  }

  /** What the key's queue knows of the log from `last` on. */
  ghost predicate QueueShows(q: seq<real>, log: seq<Hit>, window: real, last: real, key: Key) {
    RisingTo(q, last) && Evicted(q, last - window) == Recent(log, key, last - window)
  }

  ghost predicate Reflects(hits: map<Key, seq<real>>, log: seq<Hit>, window: real, last: real) {
    forall key :: QueueShows(Tracked(hits, key), log, window, last, key)
  }

  lemma QueueLater(q: seq<real>, log: seq<Hit>, window: real, last: real, now: real, key: Key)
    requires QueueShows(q, log, window, last, key) && Ordered(log) && last <= now
    ensures QueueShows(q, log, window, now, key)
  {
    var early, late := last - window, now - window;
    assert Evicted(q, late) == Recent(log, key, late) by {
      EvictedTwice(q, early, late);
      RecentLater(log, key, early, late);
    }
  }

  lemma ReflectsLater(hits: map<Key, seq<real>>, log: seq<Hit>, window: real, last: real, now: real)
    requires Reflects(hits, log, window, last) && Ordered(log) && last <= now
    ensures Reflects(hits, log, window, now)
  {
    forall key
      ensures QueueShows(Tracked(hits, key), log, window, now, key)
    {
      QueueLater(Tracked(hits, key), log, window, last, now, key);
    }
  }

  lemma QueueEviction(q: seq<real>, log: seq<Hit>, window: real, now: real, key: Key)
    requires QueueShows(q, log, window, now, key)
    ensures QueueShows(Evicted(q, now - window), log, window, now, key)
  {
    EvictedTwice(q, now - window, now - window);
    EvictedRises(q, now - window, now);
  }

  lemma ReflectsEviction(hits: map<Key, seq<real>>, log: seq<Hit>, window: real, now: real, key: Key)
    requires Reflects(hits, log, window, now)
    ensures Reflects(hits[key := Evicted(Tracked(hits, key), now - window)], log, window, now)
  {
    var hits' := hits[key := Evicted(Tracked(hits, key), now - window)];
    forall k
      ensures QueueShows(Tracked(hits', k), log, window, now, k)
    {
      assert QueueShows(Tracked(hits, k), log, window, now, k);
      if k == key { QueueEviction(Tracked(hits, k), log, window, now, k); }
    }
  }

  lemma QueueHit(q: seq<real>, log: seq<Hit>, window: real, now: real, key: Key)
    requires QueueShows(q, log, window, now, key)
    ensures QueueShows(q + [now], log + [Hit(key, now)], window, now, key)
  {
    var cutoff := now - window;
    assert RisingTo(q + [now], now);
    EvictedAppend(q, now, cutoff);
    RecentOfLonger(log, Hit(key, now), key, cutoff);
    if now <= cutoff { NothingIsLater(q, cutoff, now); }
  }

  lemma NothingIsLater(q: seq<real>, cutoff: real, last: real)
    requires RisingTo(q, last) && last <= cutoff
    ensures Evicted(q, cutoff) == []
  {
    EvictedRises(q, cutoff, last);
  }

  lemma RecentOfLonger(log: seq<Hit>, h: Hit, key: Key, cutoff: real)
    ensures Recent(log + [h], key, cutoff)
         == if h.key == key && h.at > cutoff then Recent(log, key, cutoff) + [h.at] else Recent(log, key, cutoff)
  {
    assert (log + [h])[..|log|] == log;
  }

  lemma ReflectsHit(hits: map<Key, seq<real>>, log: seq<Hit>, window: real, now: real, key: Key)
    requires Reflects(hits, log, window, now)
    ensures Reflects(hits[key := Tracked(hits, key) + [now]], log + [Hit(key, now)], window, now)
  {
    var hits' := hits[key := Tracked(hits, key) + [now]];
    forall k
      ensures QueueShows(Tracked(hits', k), log + [Hit(key, now)], window, now, k)
    {
      assert QueueShows(Tracked(hits, k), log, window, now, k);
      if k == key {
        QueueHit(Tracked(hits, k), log, window, now, k);
      } else {
        RecentOfLonger(log, Hit(key, now), k, now - window);
      }
    }
  }

  predicate Stale(q: seq<real>, cutoff: real) {
    q == [] || q[|q| - 1] <= cutoff
  }

  function StaleKeys(hits: map<Key, seq<real>>, cutoff: real): set<Key> {
    set key | key in hits && Stale(hits[key], cutoff)
  }

  lemma StaleShows(q: seq<real>, log: seq<Hit>, window: real, now: real, key: Key)
    requires QueueShows(q, log, window, now, key)
    ensures Stale(q, now - window) <==> Recent(log, key, now - window) == []
  {
    EvictedRises(q, now - window, now);
  }

  /** Dropping idle keys loses nothing that a later check could see. */
  lemma ReflectsPruning(hits: map<Key, seq<real>>, log: seq<Hit>, window: real, now: real)
    requires Reflects(hits, log, window, now)
    ensures Reflects(hits - StaleKeys(hits, now - window), log, window, now)
    ensures forall key :: key in hits ==>
              (key in StaleKeys(hits, now - window) <==> Recent(log, key, now - window) == [])
  {
    forall key
      ensures QueueShows(Tracked(hits - StaleKeys(hits, now - window), key), log, window, now, key)
      ensures key in hits ==> (key in StaleKeys(hits, now - window) <==> Recent(log, key, now - window) == [])
    {
      assert QueueShows(Tracked(hits, key), log, window, now, key);
      StaleShows(Tracked(hits, key), log, window, now, key);
    }
  }

  // ------------------------------------------------------------- the limiter ---

  /** What a limiter's queues and log keep between checks. */
  ghost predicate Sound(hits: map<Key, seq<real>>, log: seq<Hit>, max: int, window: real, last: real) {
    Reflects(hits, log, window, last) && Ordered(log) && UpTo(log, last) && Paced(log, max, window)
  }

  predicate UpTo(log: seq<Hit>, last: real) {
    forall i :: 0 <= i < |log| ==> log[i].at <= last
  }

  lemma EvictionIsSound(hits: map<Key, seq<real>>, log: seq<Hit>, max: int, window: real, last: real,
                        key: Key, now: real)
    requires Sound(hits, log, max, window, last) && last <= now
    ensures Evicted(Tracked(hits, key), now - window) == Recent(log, key, now - window)
    ensures Sound(hits[key := Evicted(Tracked(hits, key), now - window)], log, max, window, now)
  {
    ReflectsLater(hits, log, window, last, now);
    assert QueueShows(Tracked(hits, key), log, window, now, key);
    ReflectsEviction(hits, log, window, now, key);
  }

  /** The queue after eviction decides as the log does; a full one belongs to a key already tracked. */
  lemma EvictionDecides(hits: map<Key, seq<real>>, log: seq<Hit>, max: int, window: real, last: real,
                        key: Key, now: real)
    requires Sound(hits, log, max, window, last) && last <= now
    ensures var queue := Evicted(Tracked(hits, key), now - window);
            && (|queue| < max <==> Accepts(log, max, window, Hit(key, now)))
            && (|queue| < max <==> Within(log, key, now - window, now) < max)
            && Sound(hits[key := queue], log, max, window, now)
            && (queue != [] ==> key in hits)
  {
    EvictionIsSound(hits, log, max, window, last, key, now);
    AcceptedIff(log, max, window, Hit(key, now));
  }

  lemma AcceptingIsSound(hits: map<Key, seq<real>>, log: seq<Hit>, max: int, window: real, key: Key, now: real)
    requires Sound(hits, log, max, window, now) && Accepts(log, max, window, Hit(key, now))
    ensures Sound(hits[key := Tracked(hits, key) + [now]], log + [Hit(key, now)], max, window, now)
  {
    ReflectsHit(hits, log, window, now, key);
    PacedExtends(log, max, window, Hit(key, now));
    assert Ordered(log + [Hit(key, now)]) && UpTo(log + [Hit(key, now)], now);
  }

  class SlidingWindowLimiter {
    const max: int
    const window: real
    var hits: map<Key, seq<real>>
    ghost var log: seq<Hit>
    ghost var last: real

    ghost predicate Valid()
      reads this
    {
      Sound(hits, log, max, window, last)
    }

    constructor (max: int, window: real, start: real)
      ensures Valid() && this.max == max && this.window == window && log == [] && last == start
    {
      this.max, this.window := max, window;
      hits, log, last := map[], [], start;
    }

    /** One check, at a time no earlier than the one before. */
    method Check(key: Key, now: real) returns (accepted: bool)
      requires Valid() && last <= now
      modifies this
      ensures Valid() && last == now
      ensures accepted <==> Accepts(old(log), max, window, Hit(key, now))
      ensures log == Decided(old(log), max, window, Hit(key, now))
      ensures accepted <==> Within(old(log), key, now - window, now) < max
      ensures log == if accepted then old(log) + [Hit(key, now)] else old(log)
      ensures hits.Keys <= old(hits).Keys + {key}
      ensures accepted ==> |hits| <= MAX_TRACKED_KEYS || forall k :: k in hits ==> Recent(log, k, now - window) != []
      ensures !accepted && max > 0 ==> hits.Keys == old(hits).Keys
    {
      EvictionDecides(hits, log, max, window, last, key, now);
      last := now;
      var queue := Evict(key, now - window);
      if |queue| >= max {
        return false;
      }
      Accept(key, queue, now);
      PruneIfCrowded(now);
      return true;
    }

    method PruneIfCrowded(now: real)
      requires Valid() && last == now
      modifies this`hits
      ensures Valid() && hits.Keys <= old(hits).Keys
      ensures |hits| <= MAX_TRACKED_KEYS || forall k :: k in hits ==> Recent(log, k, now - window) != []
    {
      if |hits| > MAX_TRACKED_KEYS {
        Prune(now);
      }
    }

    /** The key's queue, created if need be, without its old times. */
    method Evict(key: Key, cutoff: real) returns (queue: seq<real>)
      modifies this`hits
      ensures queue == Evicted(Tracked(old(hits), key), cutoff) && hits == old(hits)[key := queue]
    {
      queue := if key in hits then hits[key] else [];
      while queue != [] && queue[0] <= cutoff
        invariant Evicted(queue, cutoff) == Evicted(Tracked(old(hits), key), cutoff)
        decreases |queue|
      {
        queue := queue[1..];
      }
      hits := hits[key := queue];
    }

    method Accept(key: Key, queue: seq<real>, now: real)
      requires Valid() && last == now && key in hits && hits[key] == queue
      requires Accepts(log, max, window, Hit(key, now))
      modifies this`hits, this`log
      ensures Valid() && log == old(log) + [Hit(key, now)] && hits.Keys == old(hits).Keys
    {
      AcceptingIsSound(hits, log, max, window, key, now);
      log := log + [Hit(key, now)];
      hits := hits[key := queue + [now]];
    }

    /** Forgets the keys whose hits have all left the window. */
    method Prune(now: real)
      requires Valid() && last == now
      modifies this`hits
      ensures Valid() && hits.Keys <= old(hits).Keys
      ensures forall key :: key in hits ==> Recent(log, key, now - window) != []
    {
      var cutoff := now - window;
      ReflectsPruning(hits, log, window, now);
      var stale := set key | key in hits && Stale(hits[key], cutoff);
      var todo := stale;
      while todo != {}
        invariant todo <= stale && hits == old(hits) - (stale - todo)
      {
        var key :| key in todo;
        hits, todo := hits - {key}, todo - {key};
      }
      assert hits == old(hits) - stale;
    }
  }
}
