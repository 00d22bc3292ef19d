/** The gateway's sliding-window rate limiter.  It keeps, per (policy, host) key, only the accepted timestamps that
    were still inside the window at the last call; the theorems say what that pruned list achieves over every run. */
module RateLimit {
  import opened Common

  /** The policy id and the host part of the target. */
  type Key = (string, string)

  /** A policy's limits, both at least one once the source has clamped them. */
  datatype Limit = Limit(calls: int, window: int) {
    function Calls(): (n: int)
      ensures n >= 1
    {
      Max(1, calls)
    }

    function Window(): real { Max(1, window) as real }
  }

  datatype Call = Call(key: Key, now: real)

  type Hits = map<Key, seq<real>>

  function Get(hits: Hits, key: Key): seq<real> { if key in hits then hits[key] else [] }

  function Recent(hits: seq<real>, now: real, window: real): (r: seq<real>)
    ensures |r| <= |hits|
  {
    if hits == [] then []
    else Recent(hits[..|hits| - 1], now, window)
         + (if now - hits[|hits| - 1] < window then [hits[|hits| - 1]] else [])
  }

  predicate Allowed(hits: Hits, c: Call, limit: Limit) {
    |Recent(Get(hits, c.key), c.now, limit.Window())| < limit.Calls()
  }

  function Record(hits: Hits, c: Call, limit: Limit): Hits {
    var recent := Recent(Get(hits, c.key), c.now, limit.Window());
    hits[c.key := if Allowed(hits, c, limit) then recent + [c.now] else recent]
  }

  // ---------------------------------------------------------------- runs

  /** The limits never change while the program runs: they belong to the policy named in the key. */
  type Limits = Key -> Limit

  ghost predicate InOrder(cs: seq<Call>) { forall i, j :: 0 <= i < j < |cs| ==> cs[i].now <= cs[j].now }

  ghost function Run(cs: seq<Call>, limits: Limits): Hits {
    if cs == [] then map[]
    else Record(Run(cs[..|cs| - 1], limits), cs[|cs| - 1], limits(cs[|cs| - 1].key))
  }

  /** Whether the last of these calls is let through. */
  ghost predicate Accepts(cs: seq<Call>, limits: Limits)
    requires cs != []
  {
    Allowed(Run(cs[..|cs| - 1], limits), cs[|cs| - 1], limits(cs[|cs| - 1].key))
  }

  lemma RunSnoc(cs: seq<Call>, c: Call, limits: Limits)
    ensures Run(cs + [c], limits) == Record(Run(cs, limits), c, limits(c.key))
    ensures Accepts(cs + [c], limits) <==> Allowed(Run(cs, limits), c, limits(c.key))
    ensures InOrder(cs) && (cs != [] ==> cs[|cs| - 1].now <= c.now) ==> InOrder(cs + [c])
  {
    hide InOrder, Record, Allowed;
    assert (cs + [c])[..|cs|] == cs;
    if InOrder(cs) && (cs != [] ==> cs[|cs| - 1].now <= c.now) { InOrderSnoc(cs, c); }
  }

  lemma InOrderSnoc(cs: seq<Call>, c: Call)
    requires InOrder(cs) && (cs != [] ==> cs[|cs| - 1].now <= c.now)
    ensures InOrder(cs + [c])
  {
    assert forall i :: 0 <= i < |cs| ==> cs[i].now <= cs[|cs| - 1].now;
  }

  /** Everything ever accepted for a key: the history a limiter that forgot nothing would keep. */
  ghost function Accepted(cs: seq<Call>, limits: Limits, key: Key): seq<real> {
    if cs == [] then []
    else Accepted(cs[..|cs| - 1], limits, key)
         + (if cs[|cs| - 1].key == key && Accepts(cs, limits) then [cs[|cs| - 1].now] else [])
  }

  /** How many timestamps lie in the half-open interval [from, to). */
  function Count(h: seq<real>, from: real, to: real): (n: nat)
    ensures n <= |h|
  {
    if h == [] then 0
    else Count(h[..|h| - 1], from, to) + (if from <= h[|h| - 1] < to then 1 else 0)
  }

  // ---------------------------------------------------------------- the pruned list is enough

  lemma RecentAppend(h: seq<real>, t: real, now: real, window: real)
    ensures Recent(h + [t], now, window) == Recent(h, now, window) + (if now - t < window then [t] else [])
  {
    assert (h + [t])[..|h|] == h;
  }

  lemma {:induction false} RecentOfRecent(h: seq<real>, earlier: real, now: real, window: real)
    requires earlier <= now
    ensures Recent(Recent(h, earlier, window), now, window) == Recent(h, now, window)
  {
    if h != [] {
      var front, last := h[..|h| - 1], h[|h| - 1];
      RecentOfRecent(front, earlier, now, window);
      RecentAppend(Recent(front, earlier, window), last, now, window);
      assert Recent(front, earlier, window) + [] == Recent(front, earlier, window);
    }
  }

  /** One call: what the limiter keeps and what was accepted agree on the window of any later call. */
  lemma StepAgrees(pruned: seq<real>, full: seq<real>, calls: int, t: real, now: real, window: real)
    requires t <= now && Recent(pruned, t, window) == Recent(full, t, window)
    ensures var recent := Recent(pruned, t, window);
            if |recent| < calls
            then Recent(recent + [t], now, window) == Recent(full + [t], now, window)
            else Recent(recent, now, window) == Recent(full, now, window)
  {
    RecentOfRecent(full, t, now, window);
    RecentAppend(Recent(pruned, t, window), t, now, window);
    RecentAppend(full, t, now, window);
  }

  /** What the last call did to one key's list and history. */
  lemma LastCall(cs: seq<Call>, limits: Limits, key: Key)
    requires cs != []
    ensures var front, c := cs[..|cs| - 1], cs[|cs| - 1];
            var pruned, full := Get(Run(front, limits), key), Accepted(front, limits, key);
            var recent := Recent(pruned, c.now, limits(key).Window());
            if c.key != key then Get(Run(cs, limits), key) == pruned && Accepted(cs, limits, key) == full
            else if |recent| < limits(key).Calls()
            then Get(Run(cs, limits), key) == recent + [c.now] && Accepted(cs, limits, key) == full + [c.now]
            else Get(Run(cs, limits), key) == recent && Accepted(cs, limits, key) == full
  {
    assert Accepted(cs[..|cs| - 1], limits, key) + [] == Accepted(cs[..|cs| - 1], limits, key);
  }

  /** The pruned list, cut down to the current window, is the full history cut down to the current window. */
  lemma {:induction false} PrunedIsEnough(cs: seq<Call>, limits: Limits, key: Key, now: real)
    requires InOrder(cs) && (cs != [] ==> cs[|cs| - 1].now <= now)
    ensures Enough(cs, limits, key, now)
  {
    if cs != [] {
      var front, c := cs[..|cs| - 1], cs[|cs| - 1];
      LastCall(cs, limits, key);
      if c.key == key {
        PrunedIsEnough(front, limits, key, c.now);
        StepAgrees(Get(Run(front, limits), key), Accepted(front, limits, key), limits(key).Calls(), c.now, now,
                   limits(key).Window());
      } else {
        PrunedIsEnough(front, limits, key, now);
      }
    }
  }

  ghost predicate Enough(cs: seq<Call>, limits: Limits, key: Key, now: real) {
    var w := limits(key).Window();
    Recent(Get(Run(cs, limits), key), now, w) == Recent(Accepted(cs, limits, key), now, w)
  }

  /** A call is accepted exactly when the full history has room in its window. */
  lemma DecidesAsFullHistory(cs: seq<Call>, limits: Limits)
    requires cs != [] && InOrder(cs)
    ensures var c := cs[|cs| - 1];
            var full := Accepted(cs[..|cs| - 1], limits, c.key);
            Accepts(cs, limits) <==> |Recent(full, c.now, limits(c.key).Window())| < limits(c.key).Calls()
  {
    PrunedIsEnough(cs[..|cs| - 1], limits, cs[|cs| - 1].key, cs[|cs| - 1].now);
  }

  // ---------------------------------------------------------------- the window bound

  ghost predicate Sorted(h: seq<real>) { forall i, j :: 0 <= i < j < |h| ==> h[i] <= h[j] }

  /** Any acceptance and the one `n` places before it are a whole window apart. */
  ghost predicate Spaced(h: seq<real>, n: int, window: real) {
    forall i, j :: 0 <= i < j < |h| && j == i + n ==> h[j] - h[i] >= window
  }

  /** Of a sorted history, the entries inside the window are its last ones. */
  lemma {:induction false} RecentIsSuffix(h: seq<real>, now: real, window: real)
    requires Sorted(h)
    ensures forall i :: 0 <= i < |h| ==> (now - h[i] < window <==> i >= |h| - |Recent(h, now, window)|)
  {
    if h != [] {
      var front, last := h[..|h| - 1], h[|h| - 1];
      RecentIsSuffix(front, now, window);
      assert forall i :: 0 <= i < |front| ==> front[i] == h[i] && h[i] <= last;
    }
  }

  /** A window that ends at or after the last entry of a spaced history holds at most `n` entries. */
  lemma SpacedRecent(h: seq<real>, n: int, now: real, window: real)
    requires n >= 1 && Sorted(h) && Spaced(h, n, window) && (h != [] ==> h[|h| - 1] <= now)
    ensures |Recent(h, now, window)| <= n
  {
    RecentIsSuffix(h, now, window);
    if |h| > n {
      var last := |h| - 1;
      assert h[last] - h[last - n] >= window;
    }
  }

  lemma SpacedAppend(h: seq<real>, n: int, now: real, window: real)
    requires n >= 1 && Sorted(h) && Spaced(h, n, window) && (h != [] ==> h[|h| - 1] <= now)
    requires |Recent(h, now, window)| < n
    ensures Sorted(h + [now]) && Spaced(h + [now], n, window)
  {
    RecentIsSuffix(h, now, window);
    assert forall i :: 0 <= i < |h| ==> h[i] <= h[|h| - 1];
  }

  ghost predicate SpacedUpTo(h: seq<real>, n: int, window: real, cs: seq<Call>) {
    Sorted(h) && Spaced(h, n, window) && (h != [] ==> cs != [] && h[|h| - 1] <= cs[|cs| - 1].now)
  }

  lemma SpacedStep(h: seq<real>, n: int, window: real, cs: seq<Call>, c: Call)
    requires n >= 1 && SpacedUpTo(h, n, window, cs) && (cs != [] ==> cs[|cs| - 1].now <= c.now)
    ensures SpacedUpTo(h, n, window, cs + [c])
    ensures |Recent(h, c.now, window)| < n ==> SpacedUpTo(h + [c.now], n, window, cs + [c])
  {
    if |Recent(h, c.now, window)| < n { SpacedAppend(h, n, c.now, window); }
  }

  lemma FrontInOrder(cs: seq<Call>)
    requires cs != [] && InOrder(cs)
    ensures var front := cs[..|cs| - 1];
            InOrder(front) && (front != [] ==> front[|front| - 1].now <= cs[|cs| - 1].now)
  {
  }

  /** The full history grows exactly when it has room itself. */
  lemma LastAccepted(cs: seq<Call>, limits: Limits, key: Key)
    requires cs != [] && InOrder(cs)
    ensures var c, full := cs[|cs| - 1], Accepted(cs[..|cs| - 1], limits, key);
            Accepted(cs, limits, key)
            == if c.key == key && |Recent(full, c.now, limits(key).Window())| < limits(key).Calls()
               then full + [c.now] else full
  {
    LastCall(cs, limits, key);
    PrunedIsEnough(cs[..|cs| - 1], limits, key, cs[|cs| - 1].now);
  }

  lemma {:induction false} AcceptedIsSpaced(cs: seq<Call>, limits: Limits, key: Key)
    requires InOrder(cs)
    ensures SpacedUpTo(Accepted(cs, limits, key), limits(key).Calls(), limits(key).Window(), cs)
  {
    if cs != [] {
      hide *;
      var front, c := cs[..|cs| - 1], cs[|cs| - 1];
      var n, window := limits(key).Calls(), limits(key).Window();
      assert cs == front + [c];
      FrontInOrder(cs);
      AcceptedIsSpaced(front, limits, key);
      LastAccepted(cs, limits, key);
      SpacedStep(Accepted(front, limits, key), n, window, front, c);
    }
  }

  lemma {:induction false} CountSplit(h: seq<real>, m: nat, from: real, to: real)
    requires m <= |h|
    ensures Count(h, from, to) == Count(h[..m], from, to) + Count(h[m..], from, to)
  {
    if m == |h| {
      assert h[..m] == h;
    } else {
      CountSplit(h[..|h| - 1], m, from, to);
      assert h[..|h| - 1][..m] == h[..m] && h[..|h| - 1][m..] == h[m..][..|h[m..]| - 1];
    }
  }

  lemma {:induction false} CountNone(h: seq<real>, from: real, to: real)
    requires forall i :: 0 <= i < |h| ==> h[i] < from
    ensures Count(h, from, to) == 0
  {
    if h != [] { CountNone(h[..|h| - 1], from, to); }
  }

  lemma {:induction false} SpacedCount(h: seq<real>, n: int, window: real, from: real)
    requires n >= 1 && Sorted(h) && Spaced(h, n, window)
    ensures Count(h, from, from + window) <= n
  {
    if |h| > n {
      var front, last := h[..|h| - 1], h[|h| - 1];
      if from <= last < from + window {
        var m := |h| - n;
        CountSplit(h, m, from, from + window);
        assert last - h[m - 1] >= window;
        CountNone(h[..m], from, from + window);
      } else {
        SpacedCount(front, n, window, from);
      }
    }
  }

  /** In every run, every half-open interval of `window` seconds holds at most `calls` accepted calls of one policy to
      one host; a number below one counts as one. */
  lemma WindowBound(cs: seq<Call>, limits: Limits, key: Key, from: real)
    requires InOrder(cs)
    ensures var calls, window := if limits(key).calls >= 1 then limits(key).calls else 1,
                                 if limits(key).window >= 1 then limits(key).window else 1;
            Count(Accepted(cs, limits, key), from, from + window as real) <= calls
  {
    ClampedLimits(limits(key));
    hide Accepted, Count, Limit.Window;
    AcceptedIsSpaced(cs, limits, key);
    SpacedCount(Accepted(cs, limits, key), limits(key).Calls(), limits(key).Window(), from);
  }

  lemma ClampedLimits(limit: Limit)
    ensures limit.Calls() == if limit.calls >= 1 then limit.calls else 1
    ensures limit.Window() == (if limit.window >= 1 then limit.window else 1) as real
  {
  }

  /** The places of the timestamps less than `window` seconds old. */
  ghost function Young(h: seq<real>, now: real, window: int): set<nat> {
    set i: nat | i < |h| && now - h[i] < window as real
  }

  lemma {:induction false} RecentCounts(h: seq<real>, now: real, window: int)
    ensures |Recent(h, now, window as real)| == |Young(h, now, window)|
  {
    if h != [] {
      var n := |h| - 1;
      RecentCounts(h[..n], now, window);
      assert Young(h, now, window) == Young(h[..n], now, window) + if now - h[n] < window as real then {n} else {};
    }
  }

  /** A call is refused exactly when `calls` accepted calls, no fewer and no more, are less than `window` seconds
      old. */
  lemma RefusedWhenFull(cs: seq<Call>, limits: Limits)
    requires cs != [] && InOrder(cs)
    ensures var c := cs[|cs| - 1];
            var calls, window := if limits(c.key).calls >= 1 then limits(c.key).calls else 1,
                                 if limits(c.key).window >= 1 then limits(c.key).window else 1;
            var young := |Young(Accepted(cs[..|cs| - 1], limits, c.key), c.now, window)|;
            young <= calls && (!Accepts(cs, limits) <==> young == calls)
  {
    var c := cs[|cs| - 1];
    var window := if limits(c.key).window >= 1 then limits(c.key).window else 1;
    DecidesAsFullHistory(cs, limits);
    AtMostFull(cs[..|cs| - 1], limits, c.key, c.now);
    ClampedLimits(limits(c.key));
    RecentCounts(Accepted(cs[..|cs| - 1], limits, c.key), c.now, window);
  }

  /** The same of one more call. */
  lemma RoomDecides(cs: seq<Call>, c: Call, limits: Limits)
    requires InOrder(cs) && (cs != [] ==> cs[|cs| - 1].now <= c.now)
    ensures var calls, window := if limits(c.key).calls >= 1 then limits(c.key).calls else 1,
                                 if limits(c.key).window >= 1 then limits(c.key).window else 1;
            Accepts(cs + [c], limits) <==> |Young(Accepted(cs, limits, c.key), c.now, window)| < calls
  {
    hide Young, Accepted, Accepts;
    InOrderSnoc(cs, c);
    assert (cs + [c])[..|cs|] == cs;
    RefusedWhenFull(cs + [c], limits);
  }

  lemma AtMostFull(cs: seq<Call>, limits: Limits, key: Key, now: real)
    requires InOrder(cs) && (cs != [] ==> cs[|cs| - 1].now <= now)
    ensures |Recent(Accepted(cs, limits, key), now, limits(key).Window())| <= limits(key).Calls()
  {
    AcceptedIsSpaced(cs, limits, key);
    SpacedRecent(Accepted(cs, limits, key), limits(key).Calls(), now, limits(key).Window());
  }

  // ---------------------------------------------------------------- keys do not interfere

  ghost function Only(cs: seq<Call>, key: Key): seq<Call> {
    if cs == [] then []
    else Only(cs[..|cs| - 1], key) + (if cs[|cs| - 1].key == key then [cs[|cs| - 1]] else [])
  }

  /** What is kept for a key, and what was accepted for it, are as if no other key had ever been called. */
  lemma {:induction false} KeysAreIndependent(cs: seq<Call>, limits: Limits, key: Key)
    ensures Get(Run(cs, limits), key) == Get(Run(Only(cs, key), limits), key)
    ensures Accepted(cs, limits, key) == Accepted(Only(cs, key), limits, key)
  {
    if cs != [] {
      var front, c := cs[..|cs| - 1], cs[|cs| - 1];
      KeysAreIndependent(front, limits, key);
      LastCall(cs, limits, key);
      if c.key == key {
        LastCall(Only(cs, key), limits, key);
        assert Only(cs, key)[..|Only(front, key)|] == Only(front, key);
      } else {
        assert Only(cs, key) == Only(front, key);
      }
    }
  }

  /** A call gets the same answer whatever was called for other keys. */
  lemma AnswersAreIndependent(cs: seq<Call>, c: Call, limits: Limits)
    ensures Accepts(cs + [c], limits) <==> Accepts(Only(cs, c.key) + [c], limits)
  {
    KeysAreIndependent(cs, limits, c.key);
    assert (cs + [c])[..|cs|] == cs && (Only(cs, c.key) + [c])[..|Only(cs, c.key)|] == Only(cs, c.key);
  }
}
