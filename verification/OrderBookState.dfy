/** Multi-level order-flow imbalance: scores updated one event at a time, and
    the closed form over the whole event history that they equal. */
module OrderBookState {
  import opened Common

  // ---- History and closed form ---------------------------------------------

  /** One call that moved the decay clock: a book event or a decay tick. */
  datatype Entry = Event(e: BookLevelEvent) | Tick(now: int) {
    function Ts(): int {
      match this
      case Event(e) => e.ts
      case Tick(t) => t
    }

    /** Order-flow imbalance the entry adds at a level. */
    function Ofi(level: int): real {
      match this
      case Event(e) => if e.level == level then (e.newBid - e.oldBid) - (e.newAsk - e.oldAsk) else 0.0
      case Tick(_) => 0.0
    }
  }

  /** A reading moves the clock forward, never back; the first one starts it.
      0 means not started. */
  function NextClock(clock: int, now: int): int
  {
    if clock == 0 || now > clock then now else clock
  }

  /** Ticks by which a reading moves a started clock. */
  function Advance(clock: int, now: int): nat
  {
    if clock != 0 && now > clock then now - clock else 0
  }

  /** The timestamp the decay clock stands at after a history. */
  function Clock(h: seq<Entry>): int
  {
    if h == [] then 0 else NextClock(Clock(h[..|h| - 1]), h[|h| - 1].Ts())
  }

  /** Ticks over which scores have decayed in all. */
  function Elapsed(h: seq<Entry>): nat
  {
    if h == [] then 0 else Elapsed(h[..|h| - 1]) + Advance(Clock(h[..|h| - 1]), h[|h| - 1].Ts())
  }

  /** Decay time since entry i took effect. */
  function Age(h: seq<Entry>, i: nat): (a: nat)
    requires i < |h|
  {
    ElapsedAscends(h, i + 1);
    Elapsed(h) - Elapsed(h[..i + 1])
  }

  /** Sum of the first n entries' imbalances at a level, each decayed by its age. */
  function DecayedSum(ratio: real, h: seq<Entry>, level: int, n: nat): real
    requires n <= |h|
  {
    if n == 0 then 0.0
    else DecayedSum(ratio, h, level, n - 1) + Times(h[n - 1].Ofi(level), Pow(ratio, Age(h, n - 1)))
  }

  function LevelScore(ratio: real, h: seq<Entry>, level: int): real
  {
    DecayedSum(ratio, h, level, |h|)
  }

  lemma {:induction false} ElapsedAscends(h: seq<Entry>, n: nat)
    requires n <= |h|
    ensures Elapsed(h[..n]) <= Elapsed(h)
    decreases |h|
  {
    if n < |h| {
      ElapsedAscends(h[..|h| - 1], n);
      assert h[..|h| - 1][..n] == h[..n];
    } else {
      assert h[..n] == h;
    }
  }

  lemma AgeGrows(h: seq<Entry>, x: Entry, i: nat)
    requires i < |h|
    ensures Age(h + [x], i) == Age(h, i) + Advance(Clock(h), x.Ts())
  {
    assert (h + [x])[..|h|] == h && (h + [x])[..i + 1] == h[..i + 1];
  }

  lemma {:induction false} DecayedSumScales(ratio: real, h: seq<Entry>, x: Entry, level: int, n: nat)
    requires n <= |h|
    ensures DecayedSum(ratio, h + [x], level, n)
            == Times(DecayedSum(ratio, h, level, n), Pow(ratio, Advance(Clock(h), x.Ts())))
  {
    var q := Pow(ratio, Advance(Clock(h), x.Ts()));
    if n > 0 {
      var sum, o, p := DecayedSum(ratio, h, level, n - 1), h[n - 1].Ofi(level), Pow(ratio, Age(h, n - 1));
      DecayedSumScales(ratio, h, x, level, n - 1);
      AgeGrows(h, x, n - 1);
      PowAdd(ratio, Age(h, n - 1), Advance(Clock(h), x.Ts()));
      assert (h + [x])[n - 1] == h[n - 1];
      TimesLaws(sum, Times(o, p), q);
      TimesLaws(o, p, q);
    } else {
      TimesLaws(q, 0.0, 0.0);
      TimesLaws(0.0, q, 0.0);
    }
  }

  /** One more entry: decay everything by the time passed, then add. */
  lemma LevelScoreStep(ratio: real, h: seq<Entry>, x: Entry, level: int)
    ensures LevelScore(ratio, h + [x], level)
            == Times(LevelScore(ratio, h, level), Pow(ratio, Advance(Clock(h), x.Ts()))) + x.Ofi(level)
  {
    DecayedSumScales(ratio, h, x, level, |h|);
    var g := h + [x];
    assert g[..|h| + 1] == g && g[|h|] == x;
    assert Age(g, |h|) == 0;
    TimesLaws(x.Ofi(level), 1.0, 1.0);
  }

  // ---- Ages as differences of the running maximum ----------------------------

  ghost predicate AfterEpoch(h: seq<Entry>)
  {
    forall i | 0 <= i < |h| :: h[i].Ts() > 0
  }

  ghost predicate IsLatest(h: seq<Entry>, t: int)
  {
    (exists i :: 0 <= i < |h| && h[i].Ts() == t) && (forall i | 0 <= i < |h| :: h[i].Ts() <= t)
  }

  /** With timestamps after the epoch, in any order, the clock stands at the
      latest one, and has advanced from the first. */
  lemma {:induction false} ClockIsRunningMaximum(h: seq<Entry>)
    requires AfterEpoch(h) && h != []
    ensures IsLatest(h, Clock(h))
    ensures Elapsed(h) == Clock(h) - h[0].Ts()
  {
    var p := h[..|h| - 1];
    if p != [] {
      ClockIsRunningMaximum(p);
      var i :| 0 <= i < |p| && p[i].Ts() == Clock(p);
      assert h[i].Ts() == Clock(p);
    }
    assert h[|h| - 1].Ts() <= Clock(h);
  }

  /** Hence entry i is aged by the latest timestamp now minus the latest then. */
  lemma AgeIsClockDifference(h: seq<Entry>, i: nat)
    requires AfterEpoch(h) && i < |h|
    ensures IsLatest(h, Clock(h)) && IsLatest(h[..i + 1], Clock(h[..i + 1]))
    ensures Age(h, i) == Clock(h) - Clock(h[..i + 1])
  {
    ClockIsRunningMaximum(h);
    ClockIsRunningMaximum(h[..i + 1]);
  }

  // ---- Weights -------------------------------------------------------------

  function Dot(w: seq<real>, x: seq<real>): real
    requires |w| == |x|
  {
    if w == [] then 0.0 else Dot(w[..|w| - 1], x[..|x| - 1]) + Times(w[|w| - 1], x[|x| - 1])
  }

  function Scale(x: seq<real>, c: real): (y: seq<real>)
    ensures |y| == |x| && forall i | 0 <= i < |x| :: y[i] == Times(x[i], c)
  {
    seq(|x|, i requires 0 <= i < |x| => x[i] * c)
  }

  lemma {:induction false} DotScale(w: seq<real>, x: seq<real>, c: real)
    requires |w| == |x|
    ensures Dot(w, Scale(x, c)) == Times(Dot(w, x), c)
  {
    if w != [] {
      var n := |w| - 1;
      DotScale(w[..n], x[..n], c);
      assert Scale(x, c)[..n] == Scale(x[..n], c);
      TimesLaws(Dot(w[..n], x[..n]), Times(w[n], x[n]), c);
      TimesLaws(w[n], x[n], c);
    }
  }

  lemma {:induction false} DotUpdate(w: seq<real>, x: seq<real>, k: nat, d: real)
    requires k < |w| == |x|
    ensures Dot(w, x[k := x[k] + d]) == Dot(w, x) + Times(w[k], d)
  {
    var n := |w| - 1;
    var y := x[k := x[k] + d];
    if k < n {
      DotUpdate(w[..n], x[..n], k, d);
      assert y[..n] == x[..n][k := x[k] + d];
    } else {
      assert y[..n] == x[..n];
      TimesLaws(x[k], d, w[k]);
      TimesLaws(w[k], x[k], 0.0);
      TimesLaws(w[k], d, 0.0);
      TimesLaws(w[k], x[k] + d, 0.0);
    }
  }

  lemma {:induction false} DotZero(w: seq<real>, x: seq<real>)
    requires |w| == |x| && forall i | 0 <= i < |x| :: x[i] == 0.0
    ensures Dot(w, x) == 0.0
  {
    if w != [] {
      DotZero(w[..|w| - 1], x[..|x| - 1]);
      TimesLaws(w[|w| - 1], 0.0, 0.0);
    }
  }

  lemma {:induction false} DotBounded(w: seq<real>, x: seq<real>, b: real)
    requires |w| == |x|
    requires forall i | 0 <= i < |w| :: w[i] > 0.0 && x[i] <= b
    ensures Dot(w, x) <= Times(Sum(w), b)
  {
    if w != [] {
      var n := |w| - 1;
      DotBounded(w[..n], x[..n], b);
      assert Times(w[n], x[n]) <= Times(w[n], b);
      TimesLaws(Sum(w[..n]), w[n], b);
    }
  }

  /** Normalised geometric weights. */
  ghost predicate IsGeometric(w: seq<real>, ratio: real)
  {
    && |w| == BOOK_LEVELS
    && (forall k | 0 <= k < |w| :: w[k] > 0.0)
    && (forall k | 0 < k < |w| :: w[k] == Times(ratio, w[k - 1]))
    && Sum(w) == 1.0
  }

  /** A weighted score above a bound needs some level above it. */
  lemma SomeLevelAbove(w: seq<real>, x: seq<real>, ratio: real, b: real)
    requires IsGeometric(w, ratio) && |x| == |w| && Dot(w, x) > b
    ensures exists k :: 0 <= k < |x| && x[k] > b
  {
    if forall k | 0 <= k < |x| :: x[k] <= b {
      DotBounded(w, x, b);
      TimesLaws(b, 1.0, 0.0);
    }
  }

  lemma SomeLevelBelow(w: seq<real>, x: seq<real>, ratio: real, b: real)
    requires IsGeometric(w, ratio) && |x| == |w| && Dot(w, x) < b
    ensures exists k :: 0 <= k < |x| && x[k] < b
  {
    DotScale(w, x, -1.0);
    SomeLevelAbove(w, Scale(x, -1.0), ratio, -b);
    var k :| 0 <= k < |x| && Scale(x, -1.0)[k] > -b;
    assert x[k] < b;
  }

  lemma {:induction false} SumScale(s: seq<real>, c: real)
    ensures Sum(Scale(s, c)) == Times(Sum(s), c)
  {
    if s != [] {
      var n := |s| - 1;
      SumScale(s[..n], c);
      assert Scale(s, c)[..n] == Scale(s[..n], c);
      TimesLaws(Sum(s[..n]), s[n], c);
    }
  }

  lemma ScaleOne(x: seq<real>)
    ensures Scale(x, 1.0) == x
  {
    forall i | 0 <= i < |x|
      ensures Scale(x, 1.0)[i] == x[i]
    {
      TimesLaws(x[i], 1.0, 0.0);
    }
  }

  lemma ScaleTwice(x: seq<real>, p: real, q: real)
    ensures Scale(Scale(x, p), q) == Scale(x, Times(p, q))
  {
    forall i | 0 <= i < |x|
      ensures Scale(Scale(x, p), q)[i] == Scale(x, Times(p, q))[i]
    {
      TimesLaws(x[i], p, q);
    }
  }

  lemma {:induction false} SumPositive(s: seq<real>)
    requires s != [] && forall i | 0 <= i < |s| :: s[i] > 0.0
    ensures Sum(s) > 0.0
  {
    if |s| > 1 {
      SumPositive(s[..|s| - 1]);
    }
  }

  // ---- The object ------------------------------------------------------------

  datatype Config = Config(levelRatio: real, decayRatio: real, threshold: real)

  datatype Mlofi = Mlofi(score: real, levels: seq<real>, ts: int)

  const ZEROS: seq<real> := [0.0, 0.0, 0.0, 0.0, 0.0]

  /** Incremental state against the history: the clock and every level score
      are their closed forms, the weighted score is the dot product, and the
      reported result is the live one before the decay since the last event. */
  ghost predicate Tracks(cfg: Config, w: seq<real>, levels: seq<real>, score: real, clock: int,
                         reported: Mlofi, history: seq<Entry>, sinceBook: nat)
  {
    && IsGeometric(w, cfg.levelRatio)
    && |levels| == |w| == |reported.levels|
    && clock == Clock(history)
    && (forall k | 0 <= k < |levels| :: levels[k] == LevelScore(cfg.decayRatio, history, k))
    && score == Dot(w, levels)
    && score == Times(reported.score, Pow(cfg.decayRatio, sinceBook))
    && levels == Scale(reported.levels, Pow(cfg.decayRatio, sinceBook))
  }

  lemma {:induction false} PowBelowOne(r: real, n: nat)
    requires 0.0 < r < 1.0
    ensures 0.0 < Pow(r, n) <= 1.0 && (Pow(r, n) == 1.0 <==> n == 0)
  {
    if n > 0 {
      PowBelowOne(r, n - 1);
      assert Times(r, Pow(r, n - 1)) <= r;
    }
  }

  /** With a real decay, the reported score is the live one exactly when no
      decay time has passed since the last book event, or the score is zero. */
  lemma ReportedScoreIsStale(cfg: Config, w: seq<real>, levels: seq<real>, score: real, clock: int,
                             reported: Mlofi, history: seq<Entry>, sinceBook: nat)
    requires Tracks(cfg, w, levels, score, clock, reported, history, sinceBook)
    requires 0.0 < cfg.decayRatio < 1.0
    ensures reported.score == score <==> sinceBook == 0 || score == 0.0
  {
    var p := Pow(cfg.decayRatio, sinceBook);
    PowBelowOne(cfg.decayRatio, sinceBook);
    assert score == reported.score * p;
    assert score - reported.score == reported.score * (p - 1.0);
    if reported.score == score && p != 1.0 {
      assert reported.score == 0.0;
    }
  }

  lemma TracksInitially(cfg: Config, w: seq<real>)
    requires IsGeometric(w, cfg.levelRatio)
    ensures Tracks(cfg, w, ZEROS, 0.0, 0, Mlofi(0.0, ZEROS, 0), [], 0)
  {
    DotZero(w, ZEROS);
    ScaleOne(ZEROS);
  }

  /** Decaying the levels by the time passed, for one more history entry. */
  lemma DecayedLevels(cfg: Config, levels: seq<real>, h: seq<Entry>, x: Entry, k: int)
    requires 0 <= k < |levels| && levels[k] == LevelScore(cfg.decayRatio, h, k)
    ensures LevelScore(cfg.decayRatio, h + [x], k)
            == Scale(levels, Pow(cfg.decayRatio, Advance(Clock(h), x.Ts())))[k] + x.Ofi(k)
    ensures Clock(h + [x]) == NextClock(Clock(h), x.Ts())
  {
    LevelScoreStep(cfg.decayRatio, h, x, k);
    assert (h + [x])[..|h|] == h;
  }

  lemma TickKeepsTracking(cfg: Config, w: seq<real>, levels: seq<real>, score: real, clock: int,
                          reported: Mlofi, h: seq<Entry>, since: nat, now: int)
    requires Tracks(cfg, w, levels, score, clock, reported, h, since)
    ensures var c := Pow(cfg.decayRatio, Advance(clock, now));
            Tracks(cfg, w, Scale(levels, c), Times(score, c), NextClock(clock, now),
                   reported.(ts := now), h + [Tick(now)], since + Advance(clock, now))
  {
    var a := Advance(clock, now);
    var p, c := Pow(cfg.decayRatio, since), Pow(cfg.decayRatio, a);
    DotScale(w, levels, c);
    PowAdd(cfg.decayRatio, since, a);
    ScaleTwice(reported.levels, p, c);
    TimesLaws(reported.score, p, c);
    forall k | 0 <= k < |levels|
      ensures Scale(levels, c)[k] == LevelScore(cfg.decayRatio, h + [Tick(now)], k)
    {
      DecayedLevels(cfg, levels, h, Tick(now), k);
    }
    assert (h + [Tick(now)])[..|h|] == h;
  }

  lemma EventKeepsTracking(cfg: Config, w: seq<real>, levels: seq<real>, score: real, clock: int,
                           reported: Mlofi, h: seq<Entry>, since: nat, e: BookLevelEvent)
    requires Tracks(cfg, w, levels, score, clock, reported, h, since) && 0 <= e.level < |levels|
    ensures var c := Pow(cfg.decayRatio, Advance(clock, e.ts));
            var ofi := Event(e).Ofi(e.level);
            var decayed := Scale(levels, c);
            var levels' := decayed[e.level := decayed[e.level] + ofi];
            var score' := Times(score, c) + Times(w[e.level], ofi);
            Tracks(cfg, w, levels', score', NextClock(clock, e.ts),
                   Mlofi(score', levels', e.ts), h + [Event(e)], 0)
  {
    var c := Pow(cfg.decayRatio, Advance(clock, e.ts));
    var ofi := Event(e).Ofi(e.level);
    var decayed := Scale(levels, c);
    var levels' := decayed[e.level := decayed[e.level] + ofi];
    DotScale(w, levels, c);
    DotUpdate(w, decayed, e.level, ofi);
    forall k | 0 <= k < |levels'|
      ensures levels'[k] == LevelScore(cfg.decayRatio, h + [Event(e)], k)
    {
      DecayedLevels(cfg, levels, h, Event(e), k);
    }
    ScaleOne(levels');
    TimesLaws(Times(score, c) + Times(w[e.level], ofi), 1.0, 0.0);
    assert (h + [Event(e)])[..|h|] == h;
  }

  /** `levelRatio` is exp(-level_decay), positive for every level_decay;
      `decayRatio` is time_decay_per_sec over one nanosecond. */
  class OrderBookState {
    const cfg: Config
    const weights: array<real>
    const levelScores: array<real>
    var score: real
    var lastEventTs: int
    var lastResult: Mlofi
    ghost var history: seq<Entry>
    ghost var sinceBook: nat          // decay time since the last book event

    ghost predicate Valid()
      reads this, weights, levelScores
    {
      && weights != levelScores
      && levelScores.Length == BOOK_LEVELS
      && Tracks(cfg, weights[..], levelScores[..], score, lastEventTs, lastResult, history, sinceBook)
    }

    constructor (c: Config)
      requires c.levelRatio > 0.0
      ensures Valid() && cfg == c && history == [] && fresh(weights) && fresh(levelScores)
      ensures score == 0.0 && lastResult == Mlofi(0.0, ZEROS, 0)
    {
      cfg := c;
      weights := new real[BOOK_LEVELS](_ => 0.0);
      levelScores := new real[BOOK_LEVELS](_ => 0.0);
      score, lastEventTs, lastResult := 0.0, 0, Mlofi(0.0, ZEROS, 0);
      history, sinceBook := [], 0;
      new;
      PrecomputeWeights(c.levelRatio, weights);
      TracksInitially(cfg, weights[..]);
      assert levelScores[..] == ZEROS;
    }

    static method PrecomputeWeights(ratio: real, w: array<real>)
      requires ratio > 0.0 && w.Length == BOOK_LEVELS
      modifies w
      ensures IsGeometric(w[..], ratio)
    {
      for k := 0 to BOOK_LEVELS
        invariant forall i | 0 <= i < k :: w[i] == Pow(ratio, i)
      {
        w[k] := Pow(ratio, k);
      }
      ghost var raw := w[..];
      forall i | 0 <= i < BOOK_LEVELS
        ensures raw[i] > 0.0
      {
        PowPositive(ratio, i);
      }
      var sum := 0.0;
      for k := 0 to BOOK_LEVELS
        invariant sum == Sum(raw[..k]) && w[..] == raw
      {
        assert raw[..k + 1][..k] == raw[..k];
        sum := sum + w[k];
      }
      assert raw[..BOOK_LEVELS] == raw;
      SumPositive(raw);
      ghost var c := 1.0 / sum;
      for k := 0 to BOOK_LEVELS
        invariant forall i | 0 <= i < k :: w[i] == Times(raw[i], c)
        invariant forall i | k <= i < BOOK_LEVELS :: w[i] == raw[i]
      {
        DivIsTimes(w[k], sum);
        w[k] := w[k] / sum;
      }
      assert w[..] == Scale(raw, c);
      SumScale(raw, c);
      DivIsTimes(sum, sum);
      GeometricAfterScaling(raw, ratio, c);
    }

    static lemma DivIsTimes(a: real, b: real)
      requires b != 0.0
      ensures a / b == Times(a, 1.0 / b) && b / b == 1.0
    {
    }

    static lemma GeometricAfterScaling(raw: seq<real>, ratio: real, c: real)
      requires |raw| == BOOK_LEVELS && c > 0.0
      requires forall i | 0 <= i < |raw| :: raw[i] == Pow(ratio, i) && raw[i] > 0.0
      ensures forall i | 0 <= i < |raw| :: Scale(raw, c)[i] > 0.0
      ensures forall i | 0 < i < |raw| :: Scale(raw, c)[i] == Times(ratio, Scale(raw, c)[i - 1])
    {
      forall i | 0 < i < |raw|
        ensures Scale(raw, c)[i] == Times(ratio, Scale(raw, c)[i - 1])
      {
        TimesLaws(ratio, raw[i - 1], c);
      }
    }

    /** Decay to `now`.  Every score shrinks by the factor for the time passed;
        the first reading and readings not after the clock change nothing. */
    method ApplyTimeDecay(now: int)
      requires levelScores.Length == BOOK_LEVELS
      modifies this`score, this`lastEventTs, levelScores
      ensures lastEventTs == NextClock(old(lastEventTs), now)
      ensures score == Times(old(score), Pow(cfg.decayRatio, Advance(old(lastEventTs), now)))
      ensures levelScores[..] == Scale(old(levelScores[..]), Pow(cfg.decayRatio, Advance(old(lastEventTs), now)))
    {
      TimesLaws(score, 1.0, 0.0);
      ScaleOne(levelScores[..]);
      if lastEventTs == 0 {
        lastEventTs := now;
        return;
      }
      var dt := now - lastEventTs;
      if dt <= 0 {
        return;
      }
      var decay := Pow(cfg.decayRatio, dt);
      ghost var before := levelScores[..];
      for k := 0 to BOOK_LEVELS
        invariant score == old(score) && lastEventTs == old(lastEventTs)
        invariant forall i | 0 <= i < k :: levelScores[i] == Times(before[i], decay)
        invariant forall i | k <= i < BOOK_LEVELS :: levelScores[i] == before[i]
      {
        levelScores[k] := levelScores[k] * decay;
      }
      score := score * decay;
      lastEventTs := now;
    }

    /** A book event inside the five levels joins the history; any other is
        ignored, without even moving the clock. */
    method OnBookEvent(e: BookLevelEvent) returns (r: Mlofi)
      requires Valid()
      modifies this, levelScores
      ensures Valid() && r == lastResult
      ensures 0 <= e.level < BOOK_LEVELS ==>
                && history == old(history) + [Event(e)]
                && r == Mlofi(score, levelScores[..], e.ts) && sinceBook == 0
      ensures !(0 <= e.level < BOOK_LEVELS) ==>
                && history == old(history) && score == old(score) && lastResult == old(lastResult)
                && levelScores[..] == old(levelScores[..]) && lastEventTs == old(lastEventTs)
    {
      if e.level < 0 || e.level >= BOOK_LEVELS {
        return lastResult;
      }
      EventKeepsTracking(cfg, weights[..], levelScores[..], score, lastEventTs, lastResult, history, sinceBook, e);
      ApplyTimeDecay(e.ts);
      var bidDelta := e.newBid - e.oldBid;
      var askDelta := e.newAsk - e.oldAsk;
      var ofiDelta := bidDelta - askDelta;
      ghost var decayed := levelScores[..];
      levelScores[e.level] := levelScores[e.level] + ofiDelta;
      score := score + Times(weights[e.level], ofiDelta);
      assert levelScores[..] == decayed[e.level := decayed[e.level] + ofiDelta];
      lastResult := Mlofi(score, levelScores[..], e.ts);
      history, sinceBook := history + [Event(e)], 0;
      return lastResult;
    }

    /** A decay tick moves the live scores but not the score it reports: the
        reported one is behind by the decay since the last book event. */
    method DecayTick(now: int) returns (r: Mlofi)
      requires Valid()
      modifies this, levelScores
      ensures Valid() && r == lastResult
      ensures history == old(history) + [Tick(now)]
      ensures sinceBook == old(sinceBook) + Advance(old(lastEventTs), now)
      ensures r == old(lastResult).(ts := now)
    {
      ghost var c := Pow(cfg.decayRatio, Advance(lastEventTs, now));
      TickKeepsTracking(cfg, weights[..], levelScores[..], score, lastEventTs, lastResult, history, sinceBook, now);
      ghost var decayed, passed := Scale(levelScores[..], c), Advance(lastEventTs, now);
      ApplyTimeDecay(now);
      assert levelScores[..] == decayed;
      lastResult := lastResult.(ts := now);
      history, sinceBook := history + [Tick(now)], sinceBook + passed;
      return lastResult;
    }

    method CurrentVote() returns (v: Vote)
      requires Valid()
      ensures v == VoteOf(score, cfg.threshold)
      ensures (v == Long <==> score > cfg.threshold)
              && (v == Short <==> score <= cfg.threshold && score < -cfg.threshold)
      ensures v == Long ==> exists k :: 0 <= k < BOOK_LEVELS && levelScores[k] > cfg.threshold
      ensures v == Short ==> exists k :: 0 <= k < BOOK_LEVELS && levelScores[k] < -cfg.threshold
    {
      v := VoteOf(score, cfg.threshold);
      if v == Long {
        SomeLevelAbove(weights[..], levelScores[..], cfg.levelRatio, cfg.threshold);
        ghost var k :| 0 <= k < BOOK_LEVELS && levelScores[..][k] > cfg.threshold;
        assert levelScores[k] > cfg.threshold;
      } else if v == Short {
        SomeLevelBelow(weights[..], levelScores[..], cfg.levelRatio, -cfg.threshold);
        ghost var k :| 0 <= k < BOOK_LEVELS && levelScores[..][k] < -cfg.threshold;
        assert levelScores[k] < -cfg.threshold;
      }
    }

    method Reset()
      requires Valid()
      modifies this, levelScores
      ensures Valid() && history == [] && score == 0.0 && lastResult == Mlofi(0.0, ZEROS, 0)
    {
      for k := 0 to BOOK_LEVELS
        invariant forall i | 0 <= i < k :: levelScores[i] == 0.0
      {
        levelScores[k] := 0.0;
      }
      score := 0.0;
      lastEventTs, lastResult := 0, Mlofi(0.0, ZEROS, 0);
      history, sinceBook := [], 0;
      TracksInitially(cfg, weights[..]);
      assert levelScores[..] == ZEROS;
    }
  }
}
