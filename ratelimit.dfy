/** The in-memory sliding-window rate limiter of app.js (`rateLimitStore`,
    `checkRateLimit`, `cleanupRateLimit`): a map from an identifier such as
    `login_<email>` to the timestamps of its accepted requests. */
module RateLimiting {
  import opened Seqs
  import opened Security

  type Store = map<string, seq<int>>

  /** The timestamps recorded for `id`; an unknown identifier has none. */
  function Requests(store: Store, id: string): seq<int>
  {
    if id in store then store[id] else []
  }

  function After(windowStart: int): int -> bool
  {
    t => t > windowStart
  }

  /** `requests.filter(time => time > windowStart)` with
      `windowStart = now - rateLimitWindow`. */
  function InWindow(requests: seq<int>, now: int): (r: seq<int>)
    ensures forall i :: 0 <= i < |r| ==> r[i] in requests && r[i] > now - RateLimitWindow
    ensures forall i :: 0 <= i < |requests| && requests[i] > now - RateLimitWindow ==> requests[i] in r
    ensures IsSubsequence(r, requests)
    ensures forall t :: t > now - RateLimitWindow ==> multiset(r)[t] == multiset(requests)[t]
    ensures forall t :: t <= now - RateLimitWindow ==> multiset(r)[t] == 0
  {
    var p := After(now - RateLimitWindow);
    FilterIsSubsequence(requests, p);
    FilterKeepsCounts(requests, p);
    Filter(requests, p)
  }

  /** The number of timestamps the pruning keeps is the number of positions
      inside the window. */
  lemma InWindowCount(requests: seq<int>, now: int)
    ensures |InWindow(requests, now)| == |set i | 0 <= i < |requests| && requests[i] > now - RateLimitWindow|
  {
    FilterLengthIsCount(requests, After(now - RateLimitWindow),
                        set i | 0 <= i < |requests| && requests[i] > now - RateLimitWindow);
  }

  datatype Decision = Decision(accepted: bool, store: Store)

  /** `checkRateLimit(id)` at time `now`: its answer and the store it leaves. */
  function RateLimitCheck(store: Store, id: string, now: int): (d: Decision)
    ensures d.accepted <==> |InWindow(Requests(store, id), now)| < MaxRequestsPerWindow
    ensures d.accepted ==> id in d.store && d.store[id] == InWindow(Requests(store, id), now) + [now]
    ensures d.accepted ==> |d.store[id]| <= MaxRequestsPerWindow
    ensures d.accepted ==> forall i :: 0 <= i < |d.store[id]| ==> d.store[id][i] > now - RateLimitWindow
    ensures !d.accepted ==> d.store == store
    ensures forall k :: k != id ==> (k in d.store <==> k in store)
    ensures forall k :: k != id && k in store ==> d.store[k] == store[k]
  {
    var recent := InWindow(Requests(store, id), now);
    if |recent| >= MaxRequestsPerWindow then Decision(false, store)
    else Decision(true, store[id := recent + [now]])
  }

  /** Every identifier the limiter knows has between one and ten timestamps. */
  ghost predicate Bounded(store: Store)
  {
    forall id :: id in store ==> 0 < |store[id]| <= MaxRequestsPerWindow
  }

  lemma CheckKeepsBounded(store: Store, id: string, now: int)
    requires Bounded(store)
    ensures Bounded(RateLimitCheck(store, id, now).store)
  {
  }

  /** The store after the background sweep `cleanupRateLimit` at `now`. */
  function Cleaned(store: Store, now: int): (r: Store)
    ensures forall k :: k in r ==> r[k] != []
    ensures forall k :: k in r <==> k in store && InWindow(store[k], now) != []
    ensures forall k :: k in r ==> r[k] == InWindow(store[k], now)
  {
    map k | k in store && InWindow(store[k], now) != [] :: InWindow(store[k], now)
  }

  lemma CleanupKeepsBounded(store: Store, now: int)
    requires Bounded(store)
    ensures Bounded(Cleaned(store, now))
  {
  }

  /** Pruning at `now` and again at a later time is pruning at the later time. */
  lemma InWindowTwice(requests: seq<int>, now: int, later: int)
    requires now <= later
    ensures InWindow(InWindow(requests, now), later) == InWindow(requests, later)
  {
    FilterFilter(requests, After(now - RateLimitWindow), After(later - RateLimitWindow), After(later - RateLimitWindow));
  }

  /** The sweep is invisible to the limiter: from the sweep's time on, every
      check answers as it would have without it, and records the same list. */
  lemma CleanupKeepsDecisions(store: Store, now: int, id: string, later: int)
    requires now <= later
    ensures RateLimitCheck(Cleaned(store, now), id, later).accepted == RateLimitCheck(store, id, later).accepted
    ensures RateLimitCheck(store, id, later).accepted ==>
              RateLimitCheck(Cleaned(store, now), id, later).store[id] == RateLimitCheck(store, id, later).store[id]
  {
    var c := Cleaned(store, now);
    if id in store {
      InWindowTwice(store[id], now, later);
      if id !in c {
        assert InWindow(store[id], now) == [];
      }
    }
  }

  /** Identifiers whose requests all lie at or before `last` are accepted
      again once the window has passed. */
  lemma AcceptedAfterWindow(store: Store, id: string, last: int, now: int)
    requires forall i :: 0 <= i < |Requests(store, id)| ==> Requests(store, id)[i] <= last
    requires now >= last + RateLimitWindow
    ensures RateLimitCheck(store, id, now).accepted
    ensures RateLimitCheck(store, id, now).store[id] == [now]
  {
    FilterKeepsNone(Requests(store, id), After(now - RateLimitWindow));
  }

  datatype Run = Run(answers: seq<bool>, store: Store)

  /** A sequence of checks of one identifier at the given times. */
  function Calls(store: Store, id: string, times: seq<int>): Run
  {
    if times == [] then Run([], store)
    else
      var before := Calls(store, id, times[..|times| - 1]);
      var d := RateLimitCheck(before.store, id, times[|times| - 1]);
      Run(before.answers + [d.accepted], d.store)
  }

  function Min(a: int, b: int): int { if a <= b then a else b }

  /** Timestamps no older than the window are all kept by the pruning. */
  lemma InWindowKeepsRecent(requests: seq<int>, now: int)
    requires forall i :: 0 <= i < |requests| ==> requests[i] > now - RateLimitWindow
    ensures InWindow(requests, now) == requests
  {
    FilterKeepsAll(requests, After(now - RateLimitWindow));
  }

  /** A previously unseen identifier called repeatedly within one window
      `[start, start + rateLimitWindow)`: the first ten calls are accepted,
      every later one is rejected, and the stored list is the first ten times. */
  lemma {:induction false} BurstWithinWindow(store: Store, id: string, start: int, times: seq<int>)
    requires id !in store
    requires forall i :: 0 <= i < |times| ==> start <= times[i] < start + RateLimitWindow
    ensures |Calls(store, id, times).answers| == |times|
    ensures forall i :: 0 <= i < |times| ==> Calls(store, id, times).answers[i] == (i < MaxRequestsPerWindow)
    ensures Requests(Calls(store, id, times).store, id) == times[..Min(|times|, MaxRequestsPerWindow)]
  {
    if times != [] {
      var n := |times| - 1;
      BurstWithinWindow(store, id, start, times[..n]);
      var before := Calls(store, id, times[..n]);
      assert times[..n][..Min(n, MaxRequestsPerWindow)] == times[..Min(n, MaxRequestsPerWindow)];
      BurstStep(before.store, id, start, times, n);
      forall i | 0 <= i < |times|
        ensures Calls(store, id, times).answers[i] == (i < MaxRequestsPerWindow)
      {
        if i < n {
          assert Calls(store, id, times).answers[i] == before.answers[i];
        }
      }
    }
  }

  /** One more call in the burst: accepted exactly while fewer than ten have
      been accepted, and then appended to the stored list. */
  lemma BurstStep(store: Store, id: string, start: int, times: seq<int>, n: nat)
    requires n < |times|
    requires forall i :: 0 <= i < |times| ==> start <= times[i] < start + RateLimitWindow
    requires Requests(store, id) == times[..Min(n, MaxRequestsPerWindow)]
    ensures RateLimitCheck(store, id, times[n]).accepted == (n < MaxRequestsPerWindow)
    ensures Requests(RateLimitCheck(store, id, times[n]).store, id) == times[..Min(n + 1, MaxRequestsPerWindow)]
  {
    var kept := Requests(store, id);
    InWindowKeepsRecent(kept, times[n]);
    if n < MaxRequestsPerWindow {
      PrefixSnoc(times, n);
    }
  }

  lemma PrefixSnoc(s: seq<int>, n: nat)
    requires n < |s|
    ensures s[..n] + [s[n]] == s[..n + 1]
  {
  }

  /** The store part way through the sweep: the keys still to visit keep
      their lists, the visited ones are pruned or gone. */
  ghost function Swept(original: Store, pending: set<string>, now: int): Store
  {
    map k | k in original && (k in pending || InWindow(original[k], now) != []) ::
      if k in pending then original[k] else InWindow(original[k], now)
  }

  /** Visiting one more key of the sweep prunes its list, or deletes it when
      nothing recent is left. */
  lemma SweptStep(original: Store, pending: set<string>, key: string, now: int)
    requires key in pending && pending <= original.Keys
    ensures var s := Swept(original, pending, now);
            var recent := InWindow(original[key], now);
            Swept(original, pending - {key}, now) == if recent == [] then s - {key} else s[key := recent]
  {
  }

  /** The limiter state itself: one `Map` shared by every caller. */
  class RateLimiter {
    var store: Store

    ghost predicate Valid()
      reads this
    {
      Bounded(store)
    }

    constructor ()
      ensures Valid() && store == map[]
    {
      store := map[];
    }

    /** `checkRateLimit(identifier)` at time `now`. */
    method CheckRateLimit(identifier: string, now: int) returns (allowed: bool)
      requires Valid()
      modifies this
      ensures Valid()
      ensures allowed == RateLimitCheck(old(store), identifier, now).accepted
      ensures store == RateLimitCheck(old(store), identifier, now).store
    {
      if identifier !in store {
        store := store[identifier := []];
      }
      var requests := store[identifier];
      assert requests == Requests(old(store), identifier);
      var recentRequests := InWindow(requests, now);
      if |recentRequests| >= MaxRequestsPerWindow {
        return false;
      }
      recentRequests := recentRequests + [now];
      store := store[identifier := recentRequests];
      allowed := true;
      CheckKeepsBounded(old(store), identifier, now);
    }

    /** `cleanupRateLimit()` at time `now`: prune every list and delete the
        identifiers left without timestamps, visiting each key once. */
    method CleanupRateLimit(now: int)
      requires Valid()
      modifies this
      ensures Valid()
      ensures store == Cleaned(old(store), now)
    {
      ghost var original := store;
      var keys := store.Keys;
      while keys != {}
        invariant keys <= original.Keys
        invariant store == Swept(original, keys, now)
        decreases keys
      {
        var key :| key in keys;
        SweptStep(original, keys, key, now);
        var recentRequests := InWindow(store[key], now);
        if |recentRequests| == 0 {
          store := store - {key};
        } else {
          store := store[key := recentRequests];
        }
        keys := keys - {key};
      }
      assert store == Cleaned(original, now);
      CleanupKeepsBounded(original, now);
    }
  }
}
