/** Counting large adds, cancels and fills per price, and flagging prices whose
    size keeps being cancelled. */
module SpoofFilter {
  import opened Common

  datatype Config = Config(minLargeQty: real, maxCancelRatio: real, minEvents: nat, spoofWindow: nat, flagTtl: int)

  datatype Stats = Stats(adds: nat, cancels: nat, fills: nat, lastAdd: int)

  datatype Filter = Filter(stats: map<int, Stats>, flagged: map<int, int>)

  datatype Event = Add(key: int, ts: int) | Cancel(key: int, ts: int) | FillSeen(key: int)

  const NO_STATS := Stats(0, 0, 0, 0)
  const EMPTY := Filter(map[], map[])

  /** Price in hundredths, halves rounded away from zero. */
  function RoundPrice(price: real): int
  {
    if price >= 0.0 then (price * 100.0 + 0.5).Floor else -((-price * 100.0 + 0.5).Floor)
  }

  /** The key is the nearest number of hundredths, the one further from zero when
      halfway. */
  lemma KeyIsNearest(price: real)
    ensures var d := price * 100.0 - RoundPrice(price) as real;
            if price >= 0.0 then -0.5 <= d < 0.5 else -0.5 < d <= 0.5
  {
  }

  /** Two prices share a key only within one hundredth, and a lower price never has the
      higher key. */
  lemma KeysTellApart(a: real, b: real)
    ensures RoundPrice(a) == RoundPrice(b) ==> -0.01 <= a - b <= 0.01
    ensures a <= b ==> RoundPrice(a) <= RoundPrice(b)
  {
    KeyIsNearest(a);
    KeyIsNearest(b);
  }

  /** Whole hundredths are their own keys. */
  lemma WholeHundredthsStay(k: int)
    ensures RoundPrice(k as real / 100.0) == k
  {
    KeyIsNearest(k as real / 100.0);
  }

  function StatsOf(f: Filter, key: int): Stats
  {
    if key in f.stats then f.stats[key] else NO_STATS
  }

  /** Entries whose last add is within the window. */
  function Evict(cfg: Config, stats: map<int, Stats>, now: int): map<int, Stats>
  {
    map k | k in stats && now - stats[k].lastAdd <= cfg.spoofWindow :: stats[k]
  }

  predicate ShouldFlag(cfg: Config, s: Stats)
  {
    var total := s.cancels + s.fills;
    total > 0 && total >= cfg.minEvents && s.cancels as real / total as real >= cfg.maxCancelRatio
  }

  /** The counters of the touched price after counting an event. */
  function Counted(f: Filter, ev: Event): Stats
  {
    var s := StatsOf(f, ev.key);
    match ev
    case Add(_, ts) => s.(lastAdd := ts, adds := s.adds + 1)
    case Cancel(_, _) => s.(cancels := s.cancels + 1)
    case FillSeen(_) => s.(fills := s.fills + 1)
  }

  function Marked(cfg: Config, flagged: map<int, int>, key: int, s: Stats, ts: int): map<int, int>
  {
    if ShouldFlag(cfg, s) then flagged[key := ts] else flagged
  }

  predicate Flags(cfg: Config, f: Filter, ev: Event)
  {
    ev.Cancel? && ShouldFlag(cfg, Counted(f, ev))
  }

  function Step(cfg: Config, f: Filter, ev: Event): Filter
  {
    var counted := f.stats[ev.key := Counted(f, ev)];
    match ev
    case Add(_, ts) => Filter(Evict(cfg, counted, ts), f.flagged)
    case Cancel(k, ts) => Filter(Evict(cfg, counted, ts), Marked(cfg, f.flagged, k, Counted(f, ev), ts))
    case FillSeen(_) => Filter(counted, f.flagged)
  }

  function Run(cfg: Config, run: seq<Event>): Filter
  {
    if run == [] then EMPTY else Step(cfg, Run(cfg, run[..|run| - 1]), run[|run| - 1])
  }

  lemma RunStep(cfg: Config, run: seq<Event>, ev: Event)
    ensures Run(cfg, run + [ev]) == Step(cfg, Run(cfg, run), ev)
  {
    assert (run + [ev])[..|run|] == run;
  }

  /** A cancel counts, then may flag, then evicts. */
  lemma CancelStep(cfg: Config, f: Filter, key: int, ts: int, counted: Stats)
    requires counted == Counted(f, Cancel(key, ts))
    ensures Step(cfg, f, Cancel(key, ts))
            == Filter(Evict(cfg, f.stats[key := counted], ts), Marked(cfg, f.flagged, key, counted, ts))
  {
  }

  // ---- What survives and what is flagged -----------------------------------------

  /** Every timestamp lies more than one window past the epoch, the timestamp a
      counter starts with. */
  ghost predicate Late(cfg: Config, run: seq<Event>)
  {
    forall i | 0 <= i < |run| :: !run[i].FillSeen? ==> run[i].ts > cfg.spoofWindow
  }

  /** A counter was added to at its last-add time, or has seen only fills. */
  ghost predicate Backed(cfg: Config, run: seq<Event>, f: Filter, key: int)
  {
    key in f.stats ==>
      var s := f.stats[key];
      if s.adds >= 1 then Add(key, s.lastAdd) in run else s.lastAdd == 0 && s.cancels == 0
  }

  lemma {:induction false} CountersAreBacked(cfg: Config, run: seq<Event>, key: int)
    requires Late(cfg, run)
    ensures Backed(cfg, run, Run(cfg, run), key)
  {
    if run != [] {
      var p, ev := run[..|run| - 1], run[|run| - 1];
      CountersAreBacked(cfg, p, key);
      assert forall x :: x in p ==> x in run;
      assert ev in run;
    }
  }

  /** After every add or cancel, each surviving counter had a large add within
      the window. */
  lemma SurvivorsHadRecentAdd(cfg: Config, run: seq<Event>, key: int)
    requires Late(cfg, run) && run != [] && !run[|run| - 1].FillSeen?
    requires key in Run(cfg, run).stats
    ensures exists t :: Add(key, t) in run && run[|run| - 1].ts - t <= cfg.spoofWindow
  {
    CountersAreBacked(cfg, run, key);
    var s := Run(cfg, run).stats[key];
    assert run[|run| - 1].ts - s.lastAdd <= cfg.spoofWindow;
    assert Add(key, s.lastAdd) in run;
  }

  // ---- In terms of the calls made --------------------------------------------------------

  /** Timestamps never fall. */
  ghost predicate Ordered(run: seq<Event>)
  {
    forall i, j | 0 <= i < j < |run| && !run[i].FillSeen? && !run[j].FillSeen? :: run[i].ts <= run[j].ts
  }

  /** A price has had an add no longer than the window before `now`. */
  ghost predicate AddedWithin(cfg: Config, run: seq<Event>, key: int, now: int)
  {
    exists i :: 0 <= i < |run| && run[i].Add? && run[i].key == key && now - run[i].ts <= cfg.spoofWindow
  }

  lemma AddedStep(cfg: Config, p: seq<Event>, ev: Event, key: int, now: int)
    ensures AddedWithin(cfg, p + [ev], key, now) <==>
            AddedWithin(cfg, p, key, now) || (ev.Add? && ev.key == key && now - ev.ts <= cfg.spoofWindow)
  {
    var run := p + [ev];
    assert run[|p|] == ev && forall i | 0 <= i < |p| :: run[i] == p[i];
  }

  lemma {:induction false} RecentAddsAreCounted(cfg: Config, run: seq<Event>, key: int, t: int)
    requires Ordered(run) && Add(key, t) in run
    requires forall i | 0 <= i < |run| && !run[i].FillSeen? :: run[i].ts - t <= cfg.spoofWindow
    ensures key in Run(cfg, run).stats && Run(cfg, run).stats[key].lastAdd >= t
  {
    var p, ev := run[..|run| - 1], run[|run| - 1];
    if ev == Add(key, t) {
      assert 0 <= cfg.spoofWindow;
    } else {
      var i :| 0 <= i < |run| && run[i] == Add(key, t);
      assert p[i] == Add(key, t);
      RecentAddsAreCounted(cfg, p, key, t);
    }
  }

  /** With timestamps in order, after every add or cancel: a price is counted exactly
      while it has had a large add within the window. */
  lemma CountedExactly(cfg: Config, run: seq<Event>, key: int)
    requires Late(cfg, run) && Ordered(run) && run != [] && !run[|run| - 1].FillSeen?
    ensures key in Run(cfg, run).stats <==> AddedWithin(cfg, run, key, run[|run| - 1].ts)
  {
    var now := run[|run| - 1].ts;
    if key in Run(cfg, run).stats {
      SurvivorsHadRecentAdd(cfg, run, key);
      var t :| Add(key, t) in run && now - t <= cfg.spoofWindow;
      var i :| 0 <= i < |run| && run[i] == Add(key, t);
      assert AddedWithin(cfg, run, key, now);
    }
    if AddedWithin(cfg, run, key, now) {
      var i :| 0 <= i < |run| && run[i].Add? && run[i].key == key && now - run[i].ts <= cfg.spoofWindow;
      assert run[i] == Add(key, run[i].ts);
      RecentAddsAreCounted(cfg, run, key, run[i].ts);
    }
  }

  /** A cancel raises a flag by its price's counts exactly when there are enough cancels
      and fills and the cancels are at least the ratio's share of them. */
  lemma FlagsExactly(cfg: Config, f: Filter, key: int, ts: int)
    ensures var cancels, fills := StatsOf(f, key).cancels + 1, StatsOf(f, key).fills;
            Flags(cfg, f, Cancel(key, ts)) <==>
            cancels + fills >= cfg.minEvents && cancels as real >= Times(cfg.maxCancelRatio, (cancels + fills) as real)
  {
    var c, n := (StatsOf(f, key).cancels + 1) as real, (StatsOf(f, key).cancels + 1 + StatsOf(f, key).fills) as real;
    var q := c / n;
    assert Times(q, n) == c;
    ProductSign(q - cfg.maxCancelRatio, n);
    assert Times(q - cfg.maxCancelRatio, n) == Times(q, n) - Times(cfg.maxCancelRatio, n);
  }

  /** Event i is a cancel that flagged the price, the last one to do so. */
  ghost predicate LastFlag(cfg: Config, run: seq<Event>, key: int, i: nat)
    requires i < |run|
  {
    && run[i].Cancel? && run[i].key == key && Flags(cfg, Run(cfg, run[..i]), run[i])
    && forall j | i < j < |run| && run[j].key == key :: !Flags(cfg, Run(cfg, run[..j]), run[j])
  }

  ghost predicate FlaggedSince(cfg: Config, run: seq<Event>, key: int, ts: int)
  {
    exists i: nat :: i < |run| && LastFlag(cfg, run, key, i) && run[i].ts == ts
  }

  /** A price is flagged exactly by the last cancel that flagged it. */
  lemma {:induction false} FlaggedExactly(cfg: Config, run: seq<Event>, key: int, ts: int)
    ensures key in Run(cfg, run).flagged && Run(cfg, run).flagged[key] == ts <==> FlaggedSince(cfg, run, key, ts)
  {
    if run != [] {
      var n := |run| - 1;
      var p, ev := run[..n], run[n];
      FlaggedExactly(cfg, p, key, ts);
      FlaggedStep(cfg, p, ev, key, ts);
      assert run == p + [ev];
    }
  }

  lemma FlaggedStep(cfg: Config, p: seq<Event>, ev: Event, key: int, ts: int)
    ensures FlaggedSince(cfg, p + [ev], key, ts) <==>
            if ev.key == key && Flags(cfg, Run(cfg, p), ev) then ev.ts == ts else FlaggedSince(cfg, p, key, ts)
  {
    var run, n := p + [ev], |p|;
    assert run[n] == ev && run[..n] == p;
    assert forall j | 0 <= j < n :: run[j] == p[j] && run[..j] == p[..j];
    if ev.key == key && Flags(cfg, Run(cfg, p), ev) {
      assert LastFlag(cfg, run, key, n);
      assert forall i: nat | i < n :: !LastFlag(cfg, run, key, i);
    } else {
      forall i: nat | i < n
        ensures LastFlag(cfg, run, key, i) <==> LastFlag(cfg, p, key, i)
      {
      }
    }
  }

  /** Least number of events at which a flag can be raised. */
  function FlagSize(cfg: Config): nat
  {
    if cfg.minEvents >= 1 then cfg.minEvents else 1
  }

  /** One cancel among that many events does not reach the cancel ratio. */
  predicate OneCancelIsNotEnough(cfg: Config)
  {
    Times(cfg.maxCancelRatio, FlagSize(cfg) as real) > 1.0
  }

  lemma QuotientBound(n: real, ratio: real)
    requires n >= 1.0
    ensures 1.0 / n >= ratio <==> Times(ratio, n) <= 1.0
  {
    var q := 1.0 / n;
    assert Times(q, n) == 1.0;
    ProductSign(q - ratio, n);
    assert Times(q - ratio, n) == Times(q, n) - Times(ratio, n);
  }

  lemma RatioGrows(ratio: real, m: real, n: real)
    requires 1.0 <= m <= n && Times(ratio, m) > 1.0
    ensures Times(ratio, n) > 1.0
  {
    ProductSign(ratio, m);
    assert Times(ratio, n) == Times(ratio, m) + Times(n - m, ratio);
    if ratio > 0.0 {
      ProductSign(n - m, ratio);
    }
  }

  lemma UnaddedIsNotFlagged(cfg: Config, f: Filter, ev: Event)
    requires OneCancelIsNotEnough(cfg) && ev.Cancel? && StatsOf(f, ev.key).cancels == 0
    ensures !Flags(cfg, f, ev)
  {
    var total := 1 + StatsOf(f, ev.key).fills;
    if total >= cfg.minEvents {
      QuotientBound(total as real, cfg.maxCancelRatio);
      RatioGrows(cfg.maxCancelRatio, FlagSize(cfg) as real, total as real);
    }
  }

  lemma {:induction false} FillsOnly(cfg: Config, n: nat)
    ensures var run := seq(n, i requires 0 <= i < n => FillSeen(0));
            StatsOf(Run(cfg, run), 0) == Stats(0, 0, n, 0)
  {
    var run := seq(n, i requires 0 <= i < n => FillSeen(0));
    if n > 0 {
      FillsOnly(cfg, n - 1);
      assert run[..n - 1] == seq(n - 1, i requires 0 <= i < n - 1 => FillSeen(0));
    }
  }

  /** A cancel that would flag a price nobody was seen adding to. */
  ghost predicate FalseFlag(cfg: Config, run: seq<Event>, ev: Event)
  {
    Late(cfg, run + [ev]) && Flags(cfg, Run(cfg, run), ev) && StatsOf(Run(cfg, run), ev.key).adds == 0
  }

  /** No price is ever flagged without a large add behind its counter exactly
      when one cancel among the least flagging number of events stays below the
      cancel ratio. */
  lemma FlagsNeedAnAddExactly(cfg: Config)
    ensures (forall run: seq<Event>, ev: Event :: !FalseFlag(cfg, run, ev)) <==> OneCancelIsNotEnough(cfg)
  {
    if OneCancelIsNotEnough(cfg) {
      forall run: seq<Event>, ev: Event
        ensures !FalseFlag(cfg, run, ev)
      {
        NoFalseFlag(cfg, run, ev);
      }
    } else {
      LoneCancelIsFlagged(cfg);
    }
  }

  lemma NoFalseFlag(cfg: Config, run: seq<Event>, ev: Event)
    requires OneCancelIsNotEnough(cfg)
    ensures !FalseFlag(cfg, run, ev)
  {
    if Late(cfg, run + [ev]) && ev.Cancel? && StatsOf(Run(cfg, run), ev.key).adds == 0 {
      assert Late(cfg, run) by {
        assert forall i | 0 <= i < |run| :: run[i] == (run + [ev])[i];
      }
      CountersAreBacked(cfg, run, ev.key);
      UnaddedIsNotFlagged(cfg, Run(cfg, run), ev);
    }
  }

  lemma LoneCancelIsFlagged(cfg: Config)
    requires !OneCancelIsNotEnough(cfg)
    ensures exists run: seq<Event>, ev: Event :: FalseFlag(cfg, run, ev)
  {
    var n := FlagSize(cfg) - 1;
    var run := seq(n, i requires 0 <= i < n => FillSeen(0));
    var ev := Cancel(0, cfg.spoofWindow + 1);
    FillsOnly(cfg, n);
    QuotientBound((n + 1) as real, cfg.maxCancelRatio);
    assert Late(cfg, run + [ev]);
    assert FalseFlag(cfg, run, ev);
  }

  /** The strategy reports adds and cancels only. */
  predicate NoFills(run: seq<Event>)
  {
    forall i | 0 <= i < |run| :: !run[i].FillSeen?
  }

  /** Without fills every counter has an add: a lone cancel's is evicted at once. */
  lemma CountersHaveAdds(cfg: Config, run: seq<Event>, key: int)
    requires Late(cfg, run) && NoFills(run) && key in Run(cfg, run).stats
    ensures Run(cfg, run).stats[key].adds >= 1
  {
    CountersAreBacked(cfg, run, key);
    var ev := run[|run| - 1];
    assert ev.ts > cfg.spoofWindow && ev.ts - Run(cfg, run).stats[key].lastAdd <= cfg.spoofWindow;
  }

  /** For the adds and cancels the strategy makes: no price is ever flagged without a
      large add behind its counter exactly when a flag takes two events or a cancel
      ratio above one. */
  lemma FeedFlagsNeedAnAddExactly(cfg: Config)
    ensures (forall run: seq<Event>, ev: Event | NoFills(run + [ev]) :: !FalseFlag(cfg, run, ev))
            <==> cfg.minEvents >= 2 || cfg.maxCancelRatio > 1.0
  {
    forall run: seq<Event>, ev: Event | NoFills(run + [ev]) && FalseFlag(cfg, run, ev)
      ensures cfg.minEvents < 2 && cfg.maxCancelRatio <= 1.0
    {
      assert forall i | 0 <= i < |run| :: run[i] == (run + [ev])[i];
      if ev.key in Run(cfg, run).stats {
        CountersHaveAdds(cfg, run, ev.key);
      }
      assert Counted(Run(cfg, run), ev) == Stats(0, 1, 0, 0);
    }
    if cfg.minEvents < 2 && cfg.maxCancelRatio <= 1.0 {
      var run, ev := [], Cancel(0, cfg.spoofWindow + 1);
      assert Counted(EMPTY, ev) == Stats(0, 1, 0, 0) && 1 as real / 1 as real == 1.0;
      assert NoFills(run + [ev]) && FalseFlag(cfg, run, ev);
    }
  }

  /** So with such a configuration every flagged price had a large add. */
  lemma {:induction false} FlaggedHadAnAdd(cfg: Config, run: seq<Event>, key: int)
    requires OneCancelIsNotEnough(cfg) && Late(cfg, run) && key in Run(cfg, run).flagged
    ensures exists t :: Add(key, t) in run
  {
    var p, ev := run[..|run| - 1], run[|run| - 1];
    if key in Run(cfg, p).flagged {
      FlaggedHadAnAdd(cfg, p, key);
      var t :| Add(key, t) in p;
      assert Add(key, t) in run;
    } else {
      assert run == p + [ev];
      NoFalseFlag(cfg, p, ev);
      CountersAreBacked(cfg, p, key);
      assert Add(key, StatsOf(Run(cfg, p), key).lastAdd) in run;
    }
  }

  class SpoofFilter {
    const cfg: Config
    var stats: map<int, Stats>
    var flagged: map<int, int>
    ghost var history: seq<Event>      // since the session reset

    ghost predicate Valid()
      reads this
    {
      Filter(stats, flagged) == Run(cfg, history)
    }

    constructor (c: Config)
      ensures Valid() && cfg == c && history == []
    {
      cfg, stats, flagged, history := c, map[], map[], [];
    }

    method OnLargeAdd(price: real, ts: int)
      requires Valid()
      modifies this
      ensures Valid() && history == old(history) + [Add(RoundPrice(price), ts)]
    {
      var key := RoundPrice(price);
      RunStep(cfg, history, Add(key, ts));
      var s := if key in stats then stats[key] else NO_STATS;
      stats := stats[key := s.(lastAdd := ts, adds := s.adds + 1)];
      EvictOld(ts);
      history := history + [Add(key, ts)];
    }

    method OnLargeCancel(price: real, ts: int)
      requires Valid()
      modifies this
      ensures Valid() && history == old(history) + [Cancel(RoundPrice(price), ts)]
    {
      var key := RoundPrice(price);
      var s := if key in stats then stats[key] else NO_STATS;
      RunStep(cfg, history, Cancel(key, ts));
      CancelStep(cfg, Run(cfg, history), key, ts, s.(cancels := s.cancels + 1));
      stats := stats[key := s.(cancels := s.cancels + 1)];
      MaybeFlag(key, ts);
      EvictOld(ts);
      history := history + [Cancel(key, ts)];
    }

    method OnLargeFill(price: real)
      requires Valid()
      modifies this
      ensures Valid() && history == old(history) + [FillSeen(RoundPrice(price))]
    {
      var key := RoundPrice(price);
      RunStep(cfg, history, FillSeen(key));
      var s := if key in stats then stats[key] else NO_STATS;
      stats := stats[key := s.(fills := s.fills + 1)];
      history := history + [FillSeen(key)];
    }

    method MaybeFlag(key: int, ts: int)
      requires key in stats && stats[key].cancels >= 1
      modifies this`flagged
      ensures flagged == Marked(cfg, old(flagged), key, stats[key], ts)
    {
      var s := stats[key];
      var total := s.cancels + s.fills;
      if total < cfg.minEvents {
        return;
      }
      var ratio := s.cancels as real / total as real;
      if ratio >= cfg.maxCancelRatio {
        flagged := flagged[key := ts];
      }
    }

    /** Erasing while iterating, in any order, keeps exactly the recent ones. */
    method EvictOld(now: int)
      modifies this`stats
      ensures stats == Evict(cfg, old(stats), now)
    {
      var todo := stats.Keys;
      while exists k :: k in todo
        invariant todo <= stats.Keys <= old(stats).Keys
        invariant forall k | k in stats :: stats[k] == old(stats)[k]
        invariant forall k | k in old(stats) && k !in todo ::
                    k in stats <==> now - old(stats)[k].lastAdd <= cfg.spoofWindow
        decreases todo
      {
        var k :| k in todo;
        if now - stats[k].lastAdd > cfg.spoofWindow {
          stats := stats - {k};
        }
        todo := todo - {k};
      }
      ghost var kept := Evict(cfg, old(stats), now);
      assert forall k :: k in kept ==> k in old(stats) && k !in todo;
      assert forall k :: k in stats ==> k in old(stats) && k !in todo;
      assert forall k :: k in stats <==> k in kept;
      assert stats.Keys == kept.Keys;
      assert forall k | k in kept :: stats[k] == kept[k];
      assert stats == kept;
    }

    method IsSpoofed(price: real, now: int) returns (spoofed: bool)
      requires Valid()
      ensures var key := RoundPrice(price);
              var f := Run(cfg, history).flagged;
              spoofed <==> key in f && now - f[key] < cfg.flagTtl
      ensures spoofed <==> exists ts :: FlaggedSince(cfg, history, RoundPrice(price), ts) && now - ts < cfg.flagTtl
    {
      var key := RoundPrice(price);
      forall ts
        ensures key in flagged && flagged[key] == ts <==> FlaggedSince(cfg, history, key, ts)
      {
        FlaggedExactly(cfg, history, key, ts);
      }
      spoofed := key in flagged && now - flagged[key] < cfg.flagTtl;
      assert key in flagged ==> FlaggedSince(cfg, history, key, flagged[key]);
    }

    method SessionReset()
      modifies this
      ensures Valid() && history == []
    {
      stats, flagged, history := map[], map[], [];
    }
  }
}
