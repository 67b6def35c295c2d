/** Daily ranges in a ring, their average, the narrow-range day, and the
    opening-range breakout. */
module SessionContext {
  import opened Common

  datatype Config = Config(orbMinutes: int, nr7Period: nat, atrPeriod: nat, atrFilterMult: real, openMinute: int)

  datatype Bias = BiasLong | BiasShort | NoBias

  const RING := 30
  const UNSEEN := -100000000.0        // an opening high below this means no bar was seen

  // ---- Narrow range against the whole history ------------------------------------

  /** The last range is strictly the narrowest of the last `period` ranges of
      the full history.  No answer for periods longer than the ring. */
  ghost predicate NarrowestOf(ranges: seq<real>, period: nat)
  {
    && 0 < |ranges| && period <= |ranges| && period <= RING
    && forall j | |ranges| - period <= j < |ranges| - 1 :: ranges[|ranges| - 1] < ranges[j]
  }

  /** A day's range is narrower than each of the `period - 1` before it, none of which may
      lie outside the ring or before the first. */
  ghost predicate IsNarrowDay(before: seq<real>, range: real, period: nat)
  {
    && period <= |before| + 1 && period <= 30
    && forall i | 0 <= i < |before| && i + period > |before| :: range < before[i]
  }

  lemma NarrowDayExactly(before: seq<real>, range: real, period: nat)
    ensures NarrowestOf(before + [range], period) <==> IsNarrowDay(before, range, period)
  {
    var ranges := before + [range];
    assert ranges[|before|] == range && forall i | 0 <= i < |before| :: ranges[i] == before[i];
  }

  /** The ring holds the last 30 ranges, each at its index modulo 30. */
  ghost predicate RingHolds(ring: seq<real>, ranges: seq<real>)
  {
    |ring| == RING && forall i | 0 <= i < |ranges| && |ranges| - RING <= i :: ring[RingSlot(i)] == ranges[i]
  }

  function RingSlot(i: nat): nat
  {
    i % RING
  }

  lemma RingAppend(ring: seq<real>, ranges: seq<real>, x: real)
    requires RingHolds(ring, ranges)
    ensures RingHolds(ring[RingSlot(|ranges|) := x], ranges + [x])
  {
    var n := |ranges|;
    forall i | 0 <= i < n + 1 && n + 1 - RING <= i
      ensures ring[RingSlot(n) := x][RingSlot(i)] == (ranges + [x])[i]
    {
      if i < n {
        SlotsDiffer(i, n);
      }
    }
  }

  lemma SlotsDiffer(i: nat, n: nat)
    requires i < n < i + RING
    ensures RingSlot(i) != RingSlot(n)
  {
  }

  lemma SlotAfter(n: nat)
    ensures (RingSlot(n) + 1) % RING == RingSlot(n + 1)
  {
  }

  lemma RingIndexBack(n: nat, i: nat)
    requires 1 <= n && i < n && i < RING
    ensures 0 <= RingSlot(n) - 1 - i + RING
    ensures (RingSlot(n) - 1 - i + RING) % RING == RingSlot(n - 1 - i)
  {
    var q, r := n / RING, n % RING;
    assert n - 1 - i == RING * q + (r - 1 - i);
    if r - 1 - i < 0 {
      assert n - 1 - i == RING * (q - 1) + (r - 1 - i + RING);
    }
  }

  // ---- Average range ---------------------------------------------------------------

  /** Between the smallest and the largest of some values. */
  ghost predicate InHull(x: real, values: seq<real>)
  {
    (exists i :: 0 <= i < |values| && values[i] <= x) && (exists i :: 0 <= i < |values| && x <= values[i])
  }

  /** Exponential average: a part 1 - k of the old value and k of the new. */
  function Blend(a: real, x: real, k: real): real
  {
    a * (1.0 - k) + x * k
  }

  /** The average moves to the new value by one part in n of the way. */
  lemma BlendMoves(a: real, x: real, n: nat)
    requires n >= 1
    ensures Times(Blend(a, x, 1.0 / n as real) - a, n as real) == x - a
  {
    var k := 1.0 / n as real;
    assert Times(k, n as real) == 1.0;
    assert Blend(a, x, k) - a == Times(x - a, k);
    TimesLaws(x - a, k, n as real);
    TimesLaws(x - a, 1.0, 1.0);
  }

  /** The average after a history of ranges: restarted while negligible. */
  function AtrAfter(ranges: seq<real>, k: real): real
  {
    if ranges == [] then 0.0
    else
      var before, x := AtrAfter(ranges[..|ranges| - 1], k), ranges[|ranges| - 1];
      if before < TINY then x else Blend(before, x, k)
  }

  /** It lies between the smallest and the largest range ever seen. */
  lemma {:induction false} AtrIsInHull(ranges: seq<real>, k: real)
    requires ranges != [] && 0.0 < k <= 1.0
    ensures InHull(AtrAfter(ranges, k), ranges)
  {
    var n := |ranges| - 1;
    var p := ranges[..n];
    assert ranges[n] == ranges[n];
    if AtrAfter(p, k) >= TINY {
      AtrIsInHull(p, k);
      AverageStaysInHull(p, AtrAfter(p, k), ranges[n], k);
      assert p + [ranges[n]] == ranges;
    }
  }

  /** Weights of an exponential average: the first range keeps (1-k)^(n-1), range
      i keeps k(1-k)^(n-1-i). */
  function WeightedSum(ranges: seq<real>, k: real, m: nat): real
    requires 1 <= m <= |ranges|
  {
    if m == 1 then Times(ranges[0], Pow(1.0 - k, |ranges| - 1))
    else WeightedSum(ranges, k, m - 1) + Times(Times(ranges[m - 1], k), Pow(1.0 - k, |ranges| - m))
  }

  lemma {:induction false} WeightsShrink(ranges: seq<real>, x: real, k: real, m: nat)
    requires 1 <= m <= |ranges|
    ensures WeightedSum(ranges + [x], k, m) == Times(WeightedSum(ranges, k, m), 1.0 - k)
  {
    var q := 1.0 - k;
    var w := if m == 1 then ranges[0] else Times(ranges[m - 1], k);
    var e: nat := if m == 1 then |ranges| - 1 else |ranges| - m;
    PowAdd(q, e, 1);
    TimesLaws(w, Pow(q, e), q);
    TimesLaws(q, 1.0, 0.0);
    if m > 1 {
      WeightsShrink(ranges, x, k, m - 1);
      TimesLaws(WeightedSum(ranges, k, m - 1), Times(w, Pow(q, e)), q);
    }
  }

  /** While no range is negligible the average is that weighted sum of the whole
      history. */
  lemma {:induction false} AtrIsWeightedSum(ranges: seq<real>, k: real)
    requires ranges != [] && 0.0 < k <= 1.0
    requires forall i | 0 <= i < |ranges| :: ranges[i] >= TINY
    ensures AtrAfter(ranges, k) == WeightedSum(ranges, k, |ranges|)
  {
    var n := |ranges| - 1;
    var p, x := ranges[..n], ranges[n];
    TimesLaws(x, 1.0, 0.0);
    if p != [] {
      AtrIsWeightedSum(p, k);
      AtrIsInHull(p, k);
      WeightsShrink(p, x, k, n);
      assert p + [x] == ranges;
      TimesLaws(Times(x, k), 1.0, 0.0);
      assert Blend(AtrAfter(p, k), x, k) == Times(AtrAfter(p, k), 1.0 - k) + Times(x, k);
    }
  }

  lemma AverageStaysInHull(values: seq<real>, atr: real, x: real, k: real)
    requires InHull(atr, values) && 0.0 < k <= 1.0
    ensures InHull(Blend(atr, x, k), values + [x])
  {
    Convex(atr, x, k);
    var i :| 0 <= i < |values| && values[i] <= atr;
    var j :| 0 <= j < |values| && atr <= values[j];
    var all := values + [x];
    assert all[i] == values[i] && all[j] == values[j] && all[|values|] == x;
  }

  lemma Convex(a: real, x: real, k: real)
    requires 0.0 < k <= 1.0
    ensures a <= x ==> a <= Blend(a, x, k) <= x
    ensures a >= x ==> a >= Blend(a, x, k) >= x
  {
    var d := Times(x - a, k);
    assert Blend(a, x, k) == a + d;
    assert Times(x - a, 1.0 - k) == x - a - d;
    if a <= x {
      ProductSign(x - a, k);
      ProductSign(x - a, 1.0 - k);
    } else {
      ProductSign(a - x, k);
      ProductSign(a - x, 1.0 - k);
      assert Times(a - x, k) == -d && Times(a - x, 1.0 - k) == -Times(x - a, 1.0 - k);
    }
  }

  // ---- Opening range ----------------------------------------------------------------

  function TopOf(bars: seq<Bar>): real
  {
    if bars == [] then -DBL_MAX else Max(TopOf(bars[..|bars| - 1]), bars[|bars| - 1].high)
  }

  function BottomOf(bars: seq<Bar>): real
  {
    if bars == [] then DBL_MAX else Min(BottomOf(bars[..|bars| - 1]), bars[|bars| - 1].low)
  }

  /** Prices of a bar are doubles. */
  predicate Representable(b: Bar)
  {
    -DBL_MAX <= b.high <= DBL_MAX && -DBL_MAX <= b.low <= DBL_MAX
  }

  ghost predicate AllRepresentable(bars: seq<Bar>)
  {
    forall i | 0 <= i < |bars| :: Representable(bars[i])
  }

  lemma {:induction false} TopIsMaximum(bars: seq<Bar>)
    requires AllRepresentable(bars)
    ensures forall i | 0 <= i < |bars| :: bars[i].high <= TopOf(bars)
    ensures bars != [] ==> exists i :: 0 <= i < |bars| && bars[i].high == TopOf(bars)
  {
    if bars != [] {
      var n := |bars| - 1;
      var p := bars[..n];
      TopIsMaximum(p);
      if p != [] && TopOf(p) >= bars[n].high {
        var i :| 0 <= i < |p| && p[i].high == TopOf(p);
        assert bars[i].high == TopOf(bars);
      } else {
        assert bars[n].high == TopOf(bars);
      }
    }
  }

  lemma {:induction false} BottomIsMinimum(bars: seq<Bar>)
    requires AllRepresentable(bars)
    ensures forall i | 0 <= i < |bars| :: BottomOf(bars) <= bars[i].low
    ensures bars != [] ==> exists i :: 0 <= i < |bars| && bars[i].low == BottomOf(bars)
  {
    if bars != [] {
      var n := |bars| - 1;
      var p := bars[..n];
      BottomIsMinimum(p);
      if p != [] && BottomOf(p) <= bars[n].low {
        var i :| 0 <= i < |p| && p[i].low == BottomOf(p);
        assert bars[i].low == BottomOf(bars);
      } else {
        assert bars[n].low == BottomOf(bars);
      }
    }
  }

  /** The bias given the extremes of the opening window, the average range and
      the price at which the range is closed. */
  function BiasOf(cfg: Config, high: real, low: real, atr: real, price: real): Bias
  {
    if atr > TINY && high - low < cfg.atrFilterMult * atr then NoBias
    else if high < UNSEEN then NoBias
    else if price > high then BiasLong
    else if price < low then BiasShort
    else NoBias
  }

  /** Wide enough: no usable average, or two bars spanning the required part of it. */
  ghost predicate WideEnough(cfg: Config, window: seq<Bar>, atr: real)
  {
    atr > TINY ==>
      exists i, j :: 0 <= i < |window| && 0 <= j < |window| && window[i].high - window[j].low >= cfg.atrFilterMult * atr
  }

  ghost predicate AboveAll(window: seq<Bar>, price: real)
  {
    forall i | 0 <= i < |window| :: price > window[i].high
  }

  ghost predicate BelowAll(window: seq<Bar>, price: real)
  {
    forall i | 0 <= i < |window| :: price < window[i].low
  }

  ghost predicate SomeBarSeen(window: seq<Bar>)
  {
    exists i :: 0 <= i < |window| && window[i].high >= UNSEEN
  }

  /** A long bias exactly on a close above every high of a nonempty, wide enough
      opening window; a short bias exactly on one below every low (and not
      above every high). */
  lemma BreakoutExactly(cfg: Config, window: seq<Bar>, atr: real, price: real)
    requires AllRepresentable(window)
    ensures var bias := BiasOf(cfg, TopOf(window), BottomOf(window), atr, price);
            && (bias == BiasLong <==> SomeBarSeen(window) && WideEnough(cfg, window, atr) && AboveAll(window, price))
            && (bias == BiasShort <==>
                  SomeBarSeen(window) && WideEnough(cfg, window, atr)
                  && !AboveAll(window, price) && BelowAll(window, price))
  {
    TopIsMaximum(window);
    BottomIsMinimum(window);
    var top, bottom := TopOf(window), BottomOf(window);
    if window != [] {
      var i :| 0 <= i < |window| && window[i].high == top;
      var j :| 0 <= j < |window| && window[j].low == bottom;
      if atr > TINY && top - bottom >= cfg.atrFilterMult * atr {
        assert window[i].high - window[j].low >= cfg.atrFilterMult * atr;
      }
      assert top >= UNSEEN ==> window[i].high >= UNSEEN;
      assert AboveAll(window, price) ==> price > window[i].high;
      assert BelowAll(window, price) ==> price < window[j].low;
    } else {
      assert TopOf(window) == -DBL_MAX;
    }
  }

  /** Closing the range before any bar of the window leaves no bias, at any price. */
  lemma EmptyWindowHasNoBias(cfg: Config, atr: real, price: real)
    ensures BiasOf(cfg, TopOf([]), BottomOf([]), atr, price) == NoBias
  {
  }

  /** The fields about daily bars. */
  datatype Daily = Daily(idx: int, count: int, atr: real, nr7: bool)

  /** The fields about the opening range. */
  datatype Orb = Orb(high: real, low: real, dayHigh: real, dayLow: real, bias: Bias, finalized: bool)

  const FRESH_ORB := Orb(-DBL_MAX, DBL_MAX, -DBL_MAX, DBL_MAX, NoBias, false)

  /** The same through the fields: in every state after the first bar the average
      lies within the ranges seen. */
  lemma AtrStaysInHull(cfg: Config, ring: seq<real>, d: Daily, ranges: seq<real>)
    requires DailyTracks(cfg, ring, d, ranges) && ranges != []
    ensures InHull(d.atr, ranges)
  {
    Reciprocal(cfg.atrPeriod);
    AtrIsInHull(ranges, 1.0 / cfg.atrPeriod as real);
  }

  lemma Reciprocal(n: nat)
    requires n >= 1
    ensures 0.0 < 1.0 / n as real <= 1.0
  {
  }

  /** The daily fields against the full history of ranges. */
  ghost predicate DailyTracks(cfg: Config, ring: seq<real>, d: Daily, ranges: seq<real>)
  {
    && cfg.atrPeriod >= 1
    && d.idx == RingSlot(|ranges|)
    && d.count == (if |ranges| < RING then |ranges| else RING)
    && RingHolds(ring, ranges)
    && d.atr == AtrAfter(ranges, 1.0 / cfg.atrPeriod as real)
    && (d.nr7 <==> NarrowestOf(ranges, cfg.nr7Period))
  }

  /** The opening-range fields against the window's bars and the closing. */
  ghost predicate OrbTracks(cfg: Config, o: Orb, window: seq<Bar>, closing: Option<(real, real)>)
  {
    && o.high == o.dayHigh == TopOf(window)
    && o.low == o.dayLow == BottomOf(window)
    && (o.finalized <==> closing.Some?)
    && o.bias == match closing
                 case None => NoBias
                 case Some((a, p)) => BiasOf(cfg, TopOf(window), BottomOf(window), a, p)
  }

  lemma WindowBarKeepsOrb(cfg: Config, o: Orb, window: seq<Bar>, bar: Bar)
    requires OrbTracks(cfg, o, window, None)
    ensures OrbTracks(cfg, o.(high := Max(o.high, bar.high), low := Min(o.low, bar.low),
                              dayHigh := Max(o.dayHigh, bar.high), dayLow := Min(o.dayLow, bar.low)),
                      window + [bar], None)
  {
    assert (window + [bar])[..|window|] == window;
  }

  class SessionContext {
    const cfg: Config
    const dailyRanges: array<real>
    var daily: Daily
    var orb: Orb
    ghost var ranges: seq<real>             // every daily range ever seen
    ghost var window: seq<Bar>              // opening-window bars since the session reset
    ghost var closing: Option<(real, real)> // average range and price when the range was closed

    ghost predicate Valid()
      reads this, dailyRanges
    {
      DailyTracks(cfg, dailyRanges[..], daily, ranges) && OrbTracks(cfg, orb, window, closing)
    }

    /** An average period of zero divides by zero in the source. */
    constructor (c: Config)
      requires c.atrPeriod >= 1
      ensures Valid() && cfg == c && ranges == [] && window == [] && closing == None && fresh(dailyRanges)
    {
      cfg := c;
      dailyRanges := new real[RING](_ => 0.0);
      daily, orb := Daily(0, 0, 0.0, false), FRESH_ORB;
      ranges, window, closing := [], [], None;
    }

    method OnDailyBar(bar: Bar)
      requires Valid()
      modifies this`daily, this`ranges, dailyRanges
      ensures Valid() && ranges == old(ranges) + [bar.high - bar.low]
      ensures var before, range := old(daily.atr), bar.high - bar.low;
              if before < TINY then daily.atr == range
              else Times(daily.atr - before, cfg.atrPeriod as real) == range - before
      ensures daily.nr7 <==> IsNarrowDay(old(ranges), bar.high - bar.low, cfg.nr7Period)
    {
      NarrowDayExactly(ranges, bar.high - bar.low, cfg.nr7Period);
      AddRange(bar.high - bar.low);
      UpdateNr7();
    }

    /** The part of on_daily_bar before the narrow-range check. */
    method AddRange(range: real)
      requires DailyTracks(cfg, dailyRanges[..], daily, ranges)
      modifies this`daily, this`ranges, dailyRanges
      ensures ranges == old(ranges) + [range]
      ensures DailyTracks(cfg, dailyRanges[..], daily.(nr7 := NarrowestOf(ranges, cfg.nr7Period)), ranges)
      ensures if old(daily.atr) < TINY then daily.atr == range
              else Times(daily.atr - old(daily.atr), cfg.atrPeriod as real) == range - old(daily.atr)
    {
      StoreRange(range);
      UpdateAtr(range);
      assert (ranges + [range])[..|ranges|] == ranges;
      ranges := ranges + [range];
    }

    /** The ring takes one more range. */
    method StoreRange(range: real)
      requires dailyRanges.Length == RING && RingHolds(dailyRanges[..], ranges)
      requires daily.idx == RingSlot(|ranges|) && daily.count == (if |ranges| < RING then |ranges| else RING)
      modifies this`daily, dailyRanges
      ensures daily == old(daily).(idx := daily.idx, count := daily.count)
      ensures daily.idx == RingSlot(|ranges| + 1)
      ensures daily.count == (if |ranges| + 1 < RING then |ranges| + 1 else RING)
      ensures RingHolds(dailyRanges[..], ranges + [range])
    {
      RingAppend(dailyRanges[..], ranges, range);
      SlotAfter(|ranges|);
      ghost var ring := dailyRanges[..];
      dailyRanges[daily.idx] := range;
      assert dailyRanges[..] == ring[RingSlot(|ranges|) := range];
      daily := daily.(idx := (daily.idx + 1) % RING);
      if daily.count < RING {
        daily := daily.(count := daily.count + 1);
      }
    }

    method UpdateAtr(range: real)
      requires cfg.atrPeriod >= 1
      modifies this`daily
      ensures daily == old(daily).(atr := daily.atr)
      ensures daily.atr ==
              if old(daily).atr < TINY then range else Blend(old(daily).atr, range, 1.0 / cfg.atrPeriod as real)
      ensures old(daily).atr >= TINY ==>
                Times(daily.atr - old(daily).atr, cfg.atrPeriod as real) == range - old(daily).atr
    {
      BlendMoves(daily.atr, range, cfg.atrPeriod);
      if daily.atr < TINY {
        daily := daily.(atr := range);
        return;
      }
      var k := 1.0 / cfg.atrPeriod as real;
      daily := daily.(atr := Blend(daily.atr, range, k));
    }

    method UpdateNr7()
      requires ranges != [] && RingHolds(dailyRanges[..], ranges)
      requires daily.idx == RingSlot(|ranges|) && daily.count == (if |ranges| < RING then |ranges| else RING)
      modifies this`daily
      ensures daily == old(daily).(nr7 := daily.nr7)
      ensures daily.nr7 <==> NarrowestOf(ranges, cfg.nr7Period)
    {
      var n := |ranges|;
      if daily.count < cfg.nr7Period {
        daily := daily.(nr7 := false);
        return;
      }
      RingIndexBack(n, 0);
      var lastIdx := (daily.idx - 1 + RING) % RING;
      var lastRange := dailyRanges[lastIdx];
      assert lastRange == dailyRanges[..][RingSlot(n - 1)] == ranges[n - 1];
      var i := 1;
      while i < cfg.nr7Period
        invariant daily == old(daily)
        invariant 1 <= i && (i <= cfg.nr7Period || (cfg.nr7Period == 0 && i == 1))
        invariant forall j | n - i <= j < n - 1 :: lastRange < ranges[j]
      {
        RingIndexBack(n, i);
        var idx := (daily.idx - 1 - i + RING) % RING;
        assert dailyRanges[idx] == dailyRanges[..][RingSlot(n - 1 - i)] == ranges[n - 1 - i];
        if dailyRanges[idx] <= lastRange {
          daily := daily.(nr7 := false);
          return;
        }
        i := i + 1;
      }
      daily := daily.(nr7 := true);
    }

    /** The bar extends the opening window. */
    predicate Inside(finalized: bool, minute: int)
    {
      !finalized && cfg.openMinute <= minute < cfg.openMinute + cfg.orbMinutes
    }

    /** The bar comes after the window and closes the range. */
    predicate Closes(finalized: bool, minute: int)
    {
      !finalized && cfg.openMinute <= minute && cfg.openMinute + cfg.orbMinutes <= minute
    }

    method OnIntradayBar(bar: Bar)
      requires Valid()
      modifies this`orb, this`window, this`closing
      ensures Valid()
      ensures var m := UtcMinute(bar.ts);
              && window == (if Inside(old(orb).finalized, m) then old(window) + [bar] else old(window))
              && closing == (if Closes(old(orb).finalized, m) then Some((daily.atr, bar.close)) else old(closing))
      ensures var fromOpening := UtcMinute(bar.ts) - cfg.openMinute;
              && (old(closing).Some? || fromOpening < 0 ==> window == old(window) && closing == old(closing))
              && (old(closing).None? && 0 <= fromOpening < cfg.orbMinutes ==>
                    window == old(window) + [bar] && closing == None)
              && (old(closing).None? && fromOpening >= 0 && fromOpening >= cfg.orbMinutes ==>
                    window == old(window) && closing == Some((daily.atr, bar.close)))
    {
      OnBarAtMinute(bar, UtcMinute(bar.ts));
    }

    method OnBarAtMinute(bar: Bar, minute: int)
      requires Valid()
      modifies this`orb, this`window, this`closing
      ensures Valid()
      ensures window == (if Inside(old(orb).finalized, minute) then old(window) + [bar] else old(window))
      ensures closing == (if Closes(old(orb).finalized, minute) then Some((daily.atr, bar.close)) else old(closing))
    {
      if orb.finalized {
        return;
      }
      var orbEnd := cfg.openMinute + cfg.orbMinutes;
      if minute < cfg.openMinute {
        return;
      }
      if minute < orbEnd {
        WindowBarKeepsOrb(cfg, orb, window, bar);
        orb := orb.(high := Max(orb.high, bar.high), low := Min(orb.low, bar.low),
                    dayHigh := Max(orb.dayHigh, bar.high), dayLow := Min(orb.dayLow, bar.low));
        window := window + [bar];
      } else {
        FinalizeOrb(bar.close);
      }
    }

    method FinalizeOrb(price: real)
      requires Valid()
      modifies this`orb, this`closing
      ensures Valid() && orb.finalized
      ensures closing == if old(orb).finalized then old(closing) else Some((daily.atr, price))
    {
      if orb.finalized {
        return;
      }
      closing := Some((daily.atr, price));
      var dayRange := orb.dayHigh - orb.dayLow;
      var bias;
      if daily.atr > TINY && dayRange < cfg.atrFilterMult * daily.atr {
        bias := NoBias;
      } else if orb.high < UNSEEN {
        bias := NoBias;
      } else if price > orb.high {
        bias := BiasLong;
      } else if price < orb.low {
        bias := BiasShort;
      } else {
        bias := NoBias;
      }
      orb := orb.(bias := bias, finalized := true);
    }

    method SessionReset()
      requires Valid()
      modifies this`orb, this`window, this`closing
      ensures Valid() && window == [] && closing == None
    {
      orb, window, closing := FRESH_ORB, [], None;
    }
  }
}
