/** The fixed-window limiter (src/runtime/security.py:164-219) and what it guarantees over whole runs. */
module RateLimiter {
  import opened Wrappers

  datatype Dimension = Ip | Token

  datatype Key = Key(dimension: Dimension, identity: string, window: int)

  datatype Config = Config(ipLimit: nat, tokenLimit: nat, windowSeconds: nat, enabled: bool, maxBuckets: nat) {
    predicate Valid() {
      ipLimit >= 1 && tokenLimit >= 1 && windowSeconds >= 1 && maxBuckets >= 1
    }
    function Limit(d: Dimension): nat {
      match d
      case Ip => ipLimit
      case Token => tokenLimit
    }
  }

  const OVERFLOW := "__overflow__"

  type Buckets = map<Key, nat>

  function WindowOf(cfg: Config, now: real): int
    requires cfg.Valid()
  {
    (now / cfg.windowSeconds as real).Floor
  }

  function Count(b: Buckets, k: Key): nat {
    if k in b then b[k] else 0
  }

  /** Only the active window, the one before it and anything later stay. */
  function Pruned(b: Buckets, window: int): Buckets {
    map k | k in b && k.window >= window - 1 :: b[k]
  }

  function Bump(b: Buckets, k: Key): Buckets {
    b[k := Count(b, k) + 1]
  }

  datatype Call = Call(dimension: Dimension, identity: string, now: real)

  function KeyOf(cfg: Config, c: Call): Key
    requires cfg.Valid()
  {
    Key(c.dimension, c.identity, WindowOf(cfg, c.now))
  }

  function AllowTx(cfg: Config, b: Buckets, c: Call): (Buckets, bool)
    requires cfg.Valid()
  {
    if !cfg.enabled then (b, true)
    else
      var k := KeyOf(cfg, c);
      var kept := Pruned(b, k.window);
      if k !in kept && |kept| >= cfg.maxBuckets then (Bump(kept, k.(identity := OVERFLOW)), false)
      else (Bump(kept, k), Count(kept, k) + 1 <= cfg.Limit(c.dimension))
  }

  datatype Decision = Decision(allowed: bool, dimension: Option<Dimension>)

  class FixedWindowRateLimiter {
    const cfg: Config
    var buckets: Buckets
    var degraded: bool

    constructor (cfg: Config)
      requires cfg.Valid()
      ensures this.cfg == cfg && buckets == map[] && !degraded
    {
      this.cfg := cfg;
      buckets := map[];
      degraded := false;
    }

    method Allow(c: Call) returns (allowed: bool)
      requires cfg.Valid()
      modifies this`buckets
      ensures (buckets, allowed) == AllowTx(cfg, old(buckets), c)
    {
      if !cfg.enabled {
        return true;
      }
      var window := WindowOf(cfg, c.now);
      var key := Key(c.dimension, c.identity, window);
      buckets := map k | k in buckets && k.window >= window - 1 :: buckets[k];
      if key !in buckets && |buckets| >= cfg.maxBuckets {
        var overflow := Key(c.dimension, OVERFLOW, window);
        buckets := buckets[overflow := Count(buckets, overflow) + 1];
        return false;
      }
      buckets := buckets[key := Count(buckets, key) + 1];
      return buckets[key] <= cfg.Limit(c.dimension);
    }

    /** A clock that fails refuses the call and raises the degraded signal. */
    method Check(d: Dimension, identity: string, clock: Option<real>) returns (r: Decision)
      requires cfg.Valid()
      modifies this
      ensures degraded <==> clock.None?
      ensures clock.None? ==> !r.allowed && buckets == old(buckets)
      ensures clock.Some? ==> (buckets, r.allowed) == AllowTx(cfg, old(buckets), Call(d, identity, clock.value))
      ensures r.dimension == if r.allowed then None else Some(d)
    {
      if clock.None? {
        degraded := true;
        return Decision(false, Some(d));
      }
      var allowed := Allow(Call(d, identity, clock.value));
      degraded := false;
      return Decision(allowed, if allowed then None else Some(d));
    }

    method CheckIp(hashed: Option<string>, clock: Option<real>) returns (r: Decision)
      requires cfg.Valid()
      modifies this
      ensures var identity := if hashed.Some? && hashed.value != "" then hashed.value else "unknown";
        clock.Some? ==> (buckets, r.allowed) == AllowTx(cfg, old(buckets), Call(Ip, identity, clock.value))
      ensures clock.None? ==> !r.allowed && degraded
    {
      r := Check(Ip, if hashed.Some? && hashed.value != "" then hashed.value else "unknown", clock);
    }

    method CheckToken(fingerprint: string, clock: Option<real>) returns (r: Decision)
      requires cfg.Valid()
      modifies this
      ensures clock.Some? ==> (buckets, r.allowed) == AllowTx(cfg, old(buckets), Call(Token, fingerprint, clock.value))
      ensures clock.None? ==> !r.allowed && degraded
    {
      r := Check(Token, fingerprint, clock);
    }
  }

  // ---------- whole runs ----------

  /** The buckets after a run of calls on a new limiter. */
  function After(cfg: Config, calls: seq<Call>): Buckets
    requires cfg.Valid()
  {
    if calls == [] then map[] else AllowTx(cfg, After(cfg, calls[..|calls| - 1]), calls[|calls| - 1]).0
  }

  predicate LastGranted(cfg: Config, calls: seq<Call>)
    requires cfg.Valid() && calls != []
  {
    AllowTx(cfg, After(cfg, calls[..|calls| - 1]), calls[|calls| - 1]).1
  }

  /** How many calls under one key were granted. */
  function Grants(cfg: Config, calls: seq<Call>, k: Key): nat
    requires cfg.Valid()
  {
    if calls == [] then 0
    else
      Grants(cfg, calls[..|calls| - 1], k)
      + if KeyOf(cfg, calls[|calls| - 1]) == k && LastGranted(cfg, calls) then 1 else 0
  }

  /** How many calls of one identity were granted between two instants, both included. */
  function GrantsBetween(cfg: Config, calls: seq<Call>, d: Dimension, identity: string, from: real, to: real): nat
    requires cfg.Valid()
  {
    if calls == [] then 0
    else
      var c := calls[|calls| - 1];
      GrantsBetween(cfg, calls[..|calls| - 1], d, identity, from, to)
      + if c.dimension == d && c.identity == identity && from <= c.now <= to && LastGranted(cfg, calls) then 1 else 0
  }

  predicate NonDecreasing(calls: seq<Call>) {
    forall i, j | 0 <= i < j < |calls| :: calls[i].now <= calls[j].now
  }

  /** Calls may reach the lock out of order, as long as none is more than one window behind another. */
  predicate Steady(cfg: Config, calls: seq<Call>)
    requires cfg.Valid()
  {
    forall i, j | 0 <= i < j < |calls| :: WindowOf(cfg, calls[i].now) - 1 <= WindowOf(cfg, calls[j].now)
  }

  lemma ProductPositive(d: real, w: real)
    requires d > 0.0 && w > 0.0
    ensures d * w > 0.0
  {
  }

  /** Division by a positive number keeps the order. */
  lemma QuotientMonotone(a: real, b: real, w: real)
    requires w > 0.0 && a <= b
    ensures a / w <= b / w
  {
    var d := a / w - b / w;
    assert d * w == a - b;
    if d > 0.0 {
      ProductPositive(d, w);
    }
  }

  lemma QuotientPlusOne(a: real, w: real)
    requires w > 0.0
    ensures (a + w) / w == a / w + 1.0
  {
    var d := (a + w) / w - a / w - 1.0;
    assert d * w == ((a + w) / w) * w - (a / w) * w - w;
    if d > 0.0 {
      ProductPositive(d, w);
    } else if d < 0.0 {
      ProductPositive(-d, w);
    }
  }

  lemma FloorMonotone(a: real, b: real, w: real)
    requires w > 0.0 && a <= b
    ensures (a / w).Floor <= (b / w).Floor
    ensures b <= a + w ==> (b / w).Floor <= (a / w).Floor + 1
  {
    QuotientMonotone(a, b, w);
    if b <= a + w {
      QuotientMonotone(b, a + w, w);
      QuotientPlusOne(a, w);
      assert (a / w + 1.0).Floor == (a / w).Floor + 1;
    }
  }

  lemma ClockIsSteady(cfg: Config, calls: seq<Call>)
    requires cfg.Valid() && NonDecreasing(calls)
    ensures Steady(cfg, calls)
  {
    forall i, j | 0 <= i < j < |calls|
      ensures WindowOf(cfg, calls[i].now) <= WindowOf(cfg, calls[j].now)
    {
      FloorMonotone(calls[i].now, calls[j].now, cfg.windowSeconds as real);
    }
  }

  // ---------- the invariant of a run ----------

  /** The overflow counters that two windows and two dimensions allow. */
  function OverflowKeys(m: int): set<Key> {
    {Key(Ip, OVERFLOW, m), Key(Token, OVERFLOW, m), Key(Ip, OVERFLOW, m - 1), Key(Token, OVERFLOW, m - 1)}
  }

  /** `m` is the latest window so far: the map holds it and its predecessor only. */
  ghost predicate Bounded(cfg: Config, b: Buckets, m: int) {
    (forall k | k in b :: m - 1 <= k.window <= m) && |b.Keys - OverflowKeys(m)| <= cfg.maxBuckets
  }

  /** Grants never exceed the limit, and open windows have counted every grant they gave. */
  ghost predicate Accounted(cfg: Config, b: Buckets, calls: seq<Call>, m: int)
    requires cfg.Valid()
  {
    && (forall k: Key :: Grants(cfg, calls, k) <= cfg.Limit(k.dimension))
    && (forall k: Key | k.window >= m - 1 :: Grants(cfg, calls, k) <= Count(b, k))
    && (forall k: Key | k.window > m :: Grants(cfg, calls, k) == 0)
  }

  lemma SmallerSet<T>(a: set<T>, b: set<T>)
    requires a <= b
    ensures |a| <= |b|
  {
    assert b == a + (b - a);
  }

  lemma PruningKeepsBounds(cfg: Config, b: Buckets, m: int, window: int)
    requires cfg.Valid() && Bounded(cfg, b, m) && window >= m - 1
    ensures Bounded(cfg, Pruned(b, window), if window > m then window else m)
  {
    var kept := Pruned(b, window);
    var m' := if window > m then window else m;
    forall k | k in kept.Keys - OverflowKeys(m')
      ensures k in b.Keys - OverflowKeys(m)
    {
    }
    SmallerSet(kept.Keys - OverflowKeys(m'), b.Keys - OverflowKeys(m));
  }

  lemma BumpKeepsBounds(cfg: Config, kept: Buckets, m: int, k: Key)
    requires Bounded(cfg, kept, m) && m - 1 <= k.window <= m
    requires k in kept || k in OverflowKeys(m) || |kept| < cfg.maxBuckets
    ensures Bounded(cfg, Bump(kept, k), m)
  {
    hide OverflowKeys;
    var keys := Bump(kept, k).Keys;
    assert keys == kept.Keys + {k};
    if k in kept || k in OverflowKeys(m) {
      assert keys - OverflowKeys(m) == kept.Keys - OverflowKeys(m);
    } else {
      assert |keys| == |kept.Keys| + 1 && |kept.Keys| == |kept|;
      SmallerSet(keys - OverflowKeys(m), keys);
    }
  }

  lemma AllowKeepsBounds(cfg: Config, b: Buckets, m: int, c: Call)
    requires cfg.Valid() && cfg.enabled && Bounded(cfg, b, m) && WindowOf(cfg, c.now) >= m - 1
    ensures var w := WindowOf(cfg, c.now);
      Bounded(cfg, AllowTx(cfg, b, c).0, if w > m then w else m)
  {
    hide Pruned, WindowOf, Bounded, Bump;
    var k := KeyOf(cfg, c);
    var m' := if k.window > m then k.window else m;
    PruningKeepsBounds(cfg, b, m, k.window);
    var kept := Pruned(b, k.window);
    if k !in kept && |kept| >= cfg.maxBuckets {
      assert k.(identity := OVERFLOW) == Key(k.dimension, OVERFLOW, k.window) && (k.window == m' || k.window == m' - 1);
      assert k.dimension == Ip || k.dimension == Token;
      BumpKeepsBounds(cfg, kept, m', k.(identity := OVERFLOW));
    } else {
      BumpKeepsBounds(cfg, kept, m', k);
    }
  }

  lemma GrantsStep(cfg: Config, calls: seq<Call>, j: Key)
    requires cfg.Valid() && calls != []
    ensures var rest := calls[..|calls| - 1];
      Grants(cfg, calls, j) == Grants(cfg, rest, j) + if KeyOf(cfg, calls[|calls| - 1]) == j && LastGranted(cfg, calls) then 1 else 0
  {
  }

  lemma AllowCounts(cfg: Config, b: Buckets, c: Call, j: Key)
    requires cfg.Valid() && cfg.enabled && j.window >= WindowOf(cfg, c.now) - 1
    ensures Count(AllowTx(cfg, b, c).0, j) >= Count(b, j) + if KeyOf(cfg, c) == j && AllowTx(cfg, b, c).1 then 1 else 0
    ensures KeyOf(cfg, c) == j && AllowTx(cfg, b, c).1 ==> Count(b, j) + 1 <= cfg.Limit(j.dimension)
  {
    hide WindowOf;
  }

  lemma AllowKeepsAccount(cfg: Config, calls: seq<Call>, m: int)
    requires cfg.Valid() && cfg.enabled && calls != []
    requires var rest := calls[..|calls| - 1]; Accounted(cfg, After(cfg, rest), rest, m)
    requires WindowOf(cfg, calls[|calls| - 1].now) >= m - 1
    ensures var w := WindowOf(cfg, calls[|calls| - 1].now);
      Accounted(cfg, After(cfg, calls), calls, if w > m then w else m)
  {
    hide WindowOf, Grants, AllowTx, Count;
    var rest := calls[..|calls| - 1];
    var c := calls[|calls| - 1];
    var b := After(cfg, rest);
    var w := WindowOf(cfg, c.now);
    var m' := if w > m then w else m;
    forall j: Key
      ensures Grants(cfg, calls, j) <= cfg.Limit(j.dimension)
      ensures j.window >= m' - 1 ==> Grants(cfg, calls, j) <= Count(After(cfg, calls), j)
      ensures j.window > m' ==> Grants(cfg, calls, j) == 0
    {
      GrantsStep(cfg, calls, j);
      if j.window >= w - 1 {
        AllowCounts(cfg, b, c, j);
      }
    }
  }

  predicate Reached(cfg: Config, calls: seq<Call>, m: int)
    requires cfg.Valid()
  {
    && (forall i | 0 <= i < |calls| :: WindowOf(cfg, calls[i].now) <= m)
    && (exists i :: 0 <= i < |calls| && WindowOf(cfg, calls[i].now) == m)
  }

  lemma SteadyStep(cfg: Config, calls: seq<Call>, m: int)
    requires cfg.Valid() && calls != [] && Steady(cfg, calls)
    ensures Steady(cfg, calls[..|calls| - 1])
    ensures var w := WindowOf(cfg, calls[|calls| - 1].now);
      && (Reached(cfg, calls[..|calls| - 1], m) ==> w >= m - 1 && Reached(cfg, calls, if w > m then w else m))
      && (|calls| == 1 ==> Reached(cfg, calls, w))
  {
    hide WindowOf;
    var n := |calls| - 1;
    var rest := calls[..n];
    assert forall i | 0 <= i < n :: rest[i] == calls[i];
    if Reached(cfg, rest, m) {
      var i :| 0 <= i < |rest| && WindowOf(cfg, rest[i].now) == m;
      assert WindowOf(cfg, calls[i].now) == m;
      assert WindowOf(cfg, calls[n].now) >= m - 1;
    }
  }

  lemma {:induction false} RunKeepsInv(cfg: Config, calls: seq<Call>) returns (m: int)
    requires cfg.Valid() && cfg.enabled && Steady(cfg, calls)
    ensures calls == [] || Reached(cfg, calls, m)
    ensures Bounded(cfg, After(cfg, calls), m) && Accounted(cfg, After(cfg, calls), calls, m)
  {
    hide WindowOf, AllowTx, Bounded, Accounted, Steady, Reached;
    if calls == [] {
      m := 0;
      NothingYet(cfg, m);
    } else {
      var rest := calls[..|calls| - 1];
      var w := WindowOf(cfg, calls[|calls| - 1].now);
      SteadyStep(cfg, calls, w);
      m := RunKeepsInv(cfg, rest);
      if rest == [] {
        m := w;
        NothingYet(cfg, m);
      } else {
        SteadyStep(cfg, calls, m);
      }
      AllowKeepsBounds(cfg, After(cfg, rest), m, calls[|calls| - 1]);
      AllowKeepsAccount(cfg, calls, m);
      m := if w > m then w else m;
    }
  }

  lemma NothingYet(cfg: Config, m: int)
    requires cfg.Valid()
    ensures Bounded(cfg, After(cfg, []), m) && Accounted(cfg, After(cfg, []), [], m)
  {
  }

  // ---------- the guarantees ----------

  /** Every identity gets at most its limit in every window, and the map stays within its bound plus one
      overflow counter per dimension and open window; the clock may even be read a window late. */
  lemma {:induction false} LimiterBounds(cfg: Config, calls: seq<Call>)
    requires cfg.Valid() && cfg.enabled && Steady(cfg, calls)
    ensures forall k: Key :: Grants(cfg, calls, k) <= cfg.Limit(k.dimension)
    ensures |After(cfg, calls)| <= cfg.maxBuckets + 4
  {
    hide WindowOf;
    var m := RunKeepsInv(cfg, calls);
    var keys := After(cfg, calls).Keys;
    assert keys == (keys - OverflowKeys(m)) + (keys * OverflowKeys(m));
    SmallerSet(keys * OverflowKeys(m), OverflowKeys(m));
    FourOverflowKeys(m);
    assert |After(cfg, calls)| == |keys|;
  }

  lemma FourOverflowKeys(m: int)
    ensures |OverflowKeys(m)| == 4
  {
    assert Key(Ip, OVERFLOW, m) != Key(Token, OVERFLOW, m) && Key(Ip, OVERFLOW, m - 1) != Key(Token, OVERFLOW, m - 1);
  }

  lemma {:induction false} IntervalMeetsTwoWindows(cfg: Config, calls: seq<Call>, d: Dimension, identity: string, from: real, to: real)
    requires cfg.Valid() && to <= from + cfg.windowSeconds as real
    ensures var w := WindowOf(cfg, from);
      GrantsBetween(cfg, calls, d, identity, from, to)
      <= Grants(cfg, calls, Key(d, identity, w)) + Grants(cfg, calls, Key(d, identity, w + 1))
  {
    hide AllowTx, LastGranted, WindowOf;
    if calls != [] {
      IntervalMeetsTwoWindows(cfg, calls[..|calls| - 1], d, identity, from, to);
      var c := calls[|calls| - 1];
      if from <= c.now <= to {
        WindowsNearby(cfg, from, c.now);
      }
    }
  }

  lemma WindowsNearby(cfg: Config, from: real, now: real)
    requires cfg.Valid() && from <= now <= from + cfg.windowSeconds as real
    ensures WindowOf(cfg, now) == WindowOf(cfg, from) || WindowOf(cfg, now) == WindowOf(cfg, from) + 1
  {
    FloorMonotone(from, now, cfg.windowSeconds as real);
  }

  /** No interval as long as the window, both ends included, sees more than twice the limit. */
  lemma AtMostTwiceTheLimit(cfg: Config, calls: seq<Call>, d: Dimension, identity: string, from: real, to: real)
    requires cfg.Valid() && cfg.enabled && NonDecreasing(calls) && to <= from + cfg.windowSeconds as real
    ensures GrantsBetween(cfg, calls, d, identity, from, to) <= 2 * cfg.Limit(d)
  {
    ClockIsSteady(cfg, calls);
    LimiterBounds(cfg, calls);
    IntervalMeetsTwoWindows(cfg, calls, d, identity, from, to);
  }

  /** The factor two is reached: one grant just before a window's end and one just after. */
  lemma TwiceTheLimitIsReached()
    ensures var cfg := Config(1, 1, 60, true, 8);
      GrantsBetween(cfg, [Call(Ip, "a", 59.0), Call(Ip, "a", 61.0)], Ip, "a", 59.0, 61.0) == 2
  {
    var cfg := Config(1, 1, 60, true, 8);
    var first, second := Call(Ip, "a", 59.0), Call(Ip, "a", 61.0);
    var calls := [first, second];
    assert WindowOf(cfg, 59.0) == 0 && WindowOf(cfg, 61.0) == 1;
    assert calls[..1] == [first] && [first][..0] == [];
    assert After(cfg, []) == map[] && Pruned(map[], 0) == map[];
    var b := After(cfg, [first]);
    assert b == map[Key(Ip, "a", 0) := 1];
    assert LastGranted(cfg, [first]);
    assert GrantsBetween(cfg, [first], Ip, "a", 59.0, 61.0) == 1;
    assert Pruned(b, 1) == b;
    assert LastGranted(cfg, calls);
  }

  // ---------- exactly which calls are granted ----------

  /** A switched-off limiter grants everything and remembers nothing. */
  lemma DisabledGrantsEverything(cfg: Config, calls: seq<Call>)
    requires cfg.Valid() && !cfg.enabled && calls != []
    ensures LastGranted(cfg, calls) && After(cfg, calls) == After(cfg, calls[..|calls| - 1])
  {
  }

  function KeysOf(cfg: Config, calls: seq<Call>): set<Key>
    requires cfg.Valid()
  {
    set i | 0 <= i < |calls| :: KeyOf(cfg, calls[i])
  }

  /** How many calls came under a key. */
  function Asked(cfg: Config, calls: seq<Call>, k: Key): nat
    requires cfg.Valid()
  {
    if calls == [] then 0
    else Asked(cfg, calls[..|calls| - 1], k) + if KeyOf(cfg, calls[|calls| - 1]) == k then 1 else 0
  }

  /** Nothing has overflowed: the map holds only keys that were asked for, and open windows count exactly. */
  ghost predicate Exact(cfg: Config, calls: seq<Call>, m: int)
    requires cfg.Valid()
  {
    && After(cfg, calls).Keys <= KeysOf(cfg, calls)
    && (forall k: Key | k.window >= m - 1 :: Count(After(cfg, calls), k) == Asked(cfg, calls, k))
    && (forall k: Key | k.window > m :: Asked(cfg, calls, k) == 0)
  }

  lemma KeysOfLast(cfg: Config, calls: seq<Call>)
    requires cfg.Valid() && calls != []
    ensures KeysOf(cfg, calls) == KeysOf(cfg, calls[..|calls| - 1]) + {KeyOf(cfg, calls[|calls| - 1])}
  {
    hide WindowOf;
    var n := |calls| - 1;
    forall k | k in KeysOf(cfg, calls)
      ensures k in KeysOf(cfg, calls[..n]) + {KeyOf(cfg, calls[n])}
    {
      var i :| 0 <= i < |calls| && KeyOf(cfg, calls[i]) == k;
      if i < n {
        assert calls[..n][i] == calls[i];
      }
    }
    forall k | k in KeysOf(cfg, calls[..n])
      ensures k in KeysOf(cfg, calls)
    {
      var i :| 0 <= i < n && KeyOf(cfg, calls[..n][i]) == k;
      assert calls[i] == calls[..n][i];
    }
    assert KeyOf(cfg, calls[n]) in KeysOf(cfg, calls);
  }

  /** With room for every key asked for, a call is never turned away for lack of it. */
  lemma RoomForAll(cfg: Config, b: Buckets, c: Call, keys: set<Key>)
    requires cfg.Valid() && cfg.enabled && b.Keys <= keys && KeyOf(cfg, c) in keys && |keys| <= cfg.maxBuckets
    ensures var kept := Pruned(b, WindowOf(cfg, c.now));
      AllowTx(cfg, b, c) == (Bump(kept, KeyOf(cfg, c)), Count(kept, KeyOf(cfg, c)) + 1 <= cfg.Limit(c.dimension))
  {
    hide WindowOf;
    var kept := Pruned(b, WindowOf(cfg, c.now));
    var k := KeyOf(cfg, c);
    if k !in kept {
      SmallerSet(kept.Keys + {k}, keys);
      assert |kept.Keys + {k}| == |kept.Keys| + 1 && |kept.Keys| == |kept|;
    }
  }

  lemma ExactStep(cfg: Config, calls: seq<Call>, m: int)
    requires cfg.Valid() && cfg.enabled && calls != [] && |KeysOf(cfg, calls)| <= cfg.maxBuckets
    requires Exact(cfg, calls[..|calls| - 1], m) && WindowOf(cfg, calls[|calls| - 1].now) >= m - 1
    ensures var w := WindowOf(cfg, calls[|calls| - 1].now);
      Exact(cfg, calls, if w > m then w else m)
    ensures LastGranted(cfg, calls) <==>
            Asked(cfg, calls[..|calls| - 1], KeyOf(cfg, calls[|calls| - 1])) < cfg.Limit(calls[|calls| - 1].dimension)
  {
    hide WindowOf, AllowTx;
    var rest := calls[..|calls| - 1];
    var c := calls[|calls| - 1];
    var b := After(cfg, rest);
    KeysOfLast(cfg, calls);
    RoomForAll(cfg, b, c, KeysOf(cfg, calls));
    var w := WindowOf(cfg, c.now);
    var kept := Pruned(b, w);
    assert forall k: Key | k.window >= w - 1 :: Count(kept, k) == Count(b, k);
    assert Count(b, KeyOf(cfg, c)) == Asked(cfg, rest, KeyOf(cfg, c));
    assert After(cfg, calls) == Bump(kept, KeyOf(cfg, c));
  }

  lemma {:induction false} ExactRun(cfg: Config, calls: seq<Call>) returns (m: int)
    requires cfg.Valid() && cfg.enabled && Steady(cfg, calls) && |KeysOf(cfg, calls)| <= cfg.maxBuckets
    ensures calls == [] || Reached(cfg, calls, m)
    ensures Exact(cfg, calls, m)
  {
    hide WindowOf, AllowTx, Exact, Steady, Reached;
    if calls == [] {
      m := 0;
      NothingAsked(cfg, m);
    } else {
      var rest := calls[..|calls| - 1];
      var w := WindowOf(cfg, calls[|calls| - 1].now);
      SteadyStep(cfg, calls, w);
      KeysOfLast(cfg, calls);
      SmallerSet(KeysOf(cfg, rest), KeysOf(cfg, calls));
      m := ExactRun(cfg, rest);
      if rest == [] {
        m := w;
        NothingAsked(cfg, m);
      } else {
        SteadyStep(cfg, calls, m);
      }
      ExactStep(cfg, calls, m);
      m := if w > m then w else m;
    }
  }

  lemma NothingAsked(cfg: Config, m: int)
    requires cfg.Valid()
    ensures Exact(cfg, [], m)
  {
  }

  /** As long as the map has room for every identity and window asked for, a call is granted if and only if
      fewer calls than the limit came before it from the same identity in the same window. */
  lemma {:induction false} GrantedExactly(cfg: Config, calls: seq<Call>)
    requires cfg.Valid() && cfg.enabled && calls != [] && Steady(cfg, calls) && |KeysOf(cfg, calls)| <= cfg.maxBuckets
    ensures var c := calls[|calls| - 1];
      LastGranted(cfg, calls) <==> Asked(cfg, calls[..|calls| - 1], KeyOf(cfg, c)) < cfg.Limit(c.dimension)
  {
    hide WindowOf, AllowTx, Exact, Steady, Reached, LastGranted;
    var rest := calls[..|calls| - 1];
    var w := WindowOf(cfg, calls[|calls| - 1].now);
    SteadyStep(cfg, calls, w);
    KeysOfLast(cfg, calls);
    SmallerSet(KeysOf(cfg, rest), KeysOf(cfg, calls));
    var m := ExactRun(cfg, rest);
    if rest == [] {
      m := w;
      NothingAsked(cfg, m);
    } else {
      SteadyStep(cfg, calls, m);
    }
    ExactStep(cfg, calls, m);
  }
}
