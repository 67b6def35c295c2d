/** Backtest accounting against trace definitions. */
module Backtest {
  import opened Common

  datatype ExitReason = TakeProfit | StopLoss | ForceClose

  datatype TradeRecord = TradeRecord(
    entryDate: string, exitDate: string, entryPrice: real, exitPrice: real,
    direction: int, pnl: real, reason: ExitReason)

  datatype Config = Config(slTicks: real, tpTicks: real, tickSize: real, slippage: real, commission: real)

  datatype Summary = Summary(
    totalBars: int, totalTrades: int, wins: int, losses: int, winRate: real,
    totalPnl: real, maxWin: real, maxLoss: real, maxDrawdown: real, profitFactor: real, trades: seq<TradeRecord>)

  const EMPTY := Summary(0, 0, 0, 0, 0.0, 0.0, 0.0, 0.0, 0.0, 0.0, [])

  // ---- Equity curve and its largest drop ------------------------------------------

  function TotalPnl(trades: seq<TradeRecord>): real
  {
    if trades == [] then 0.0 else TotalPnl(trades[..|trades| - 1]) + trades[|trades| - 1].pnl
  }

  /** Equity after each trade, from a starting high. */
  function Curve(start: real, trades: seq<TradeRecord>): (c: seq<real>)
    ensures |c| == |trades| + 1 && c[0] == start
  {
    if trades == [] then [start] else Curve(start, trades[..|trades| - 1]) + [TotalPnl(trades)]
  }

  ghost predicate IsTop(x: real, c: seq<real>)
  {
    (exists i :: 0 <= i < |c| && c[i] == x) && forall i | 0 <= i < |c| :: c[i] <= x
  }

  function Drop(c: seq<real>, i: nat, j: nat): real
    requires i < |c| && j < |c|
  {
    c[i] - c[j]
  }

  /** The largest fall from a point of the curve to the same or a later one. */
  ghost predicate IsLargestDrop(d: real, c: seq<real>)
  {
    && (exists i: nat, j: nat :: i <= j < |c| && Drop(c, i, j) == d)
    && forall i: nat, j: nat | i <= j < |c| :: Drop(c, i, j) <= d
  }

  lemma TopStep(c: seq<real>, peak: real, x: real)
    requires IsTop(peak, c)
    ensures IsTop(Max(peak, x), c + [x])
  {
    var i :| 0 <= i < |c| && c[i] == peak;
    assert (c + [x])[i] == peak && (c + [x])[|c|] == x;
  }

  /** The running update of peak and drawdown keeps the largest drop. */
  lemma DropStep(c: seq<real>, peak: real, d: real, x: real)
    requires IsTop(peak, c) && IsLargestDrop(d, c)
    ensures IsLargestDrop(Max(d, Max(peak, x) - x), c + [x])
  {
    var c', n := c + [x], |c|;
    var d' := Max(d, Max(peak, x) - x);
    forall i: nat, j: nat | i <= j < |c'|
      ensures Drop(c', i, j) <= d'
    {
      if j < n {
        assert Drop(c', i, j) == Drop(c, i, j);
      } else if i < n {
        assert c[i] <= peak;
      }
    }
    var i: nat, j: nat :| i <= j < |c| && Drop(c, i, j) == d;
    assert Drop(c', i, j) == d;
    var t: nat :| t < |c| && c[t] == peak;
    assert Drop(c', t, n) == peak - x && Drop(c', n, n) == 0.0;
  }

  // ---- Trades ----------------------------------------------------------------------

  function Wins(trades: seq<TradeRecord>): nat
  {
    if trades == [] then 0 else Wins(trades[..|trades| - 1]) + if trades[|trades| - 1].pnl > 0.0 then 1 else 0
  }

  function BestOf(trades: seq<TradeRecord>): real
  {
    if trades == [] then 0.0 else Max(BestOf(trades[..|trades| - 1]), trades[|trades| - 1].pnl)
  }

  function WorstOf(trades: seq<TradeRecord>): real
  {
    if trades == [] then 0.0 else Min(WorstOf(trades[..|trades| - 1]), trades[|trades| - 1].pnl)
  }

  /** The winners and the extremes among some trades, 0 counting as either extreme. */
  ghost predicate Extremes(trades: seq<TradeRecord>, wins: nat, best: real, worst: real)
  {
    && wins == |Winners(trades)|
    && worst <= 0.0 <= best && (forall i | 0 <= i < |trades| :: worst <= trades[i].pnl <= best)
    && (best == 0.0 || exists i :: 0 <= i < |trades| && trades[i].pnl == best)
    && (worst == 0.0 || exists i :: 0 <= i < |trades| && trades[i].pnl == worst)
  }

  ghost function Winners(trades: seq<TradeRecord>): set<int>
  {
    set i | 0 <= i < |trades| && trades[i].pnl > 0.0
  }

  lemma {:induction false} WinnersAreCounted(trades: seq<TradeRecord>)
    ensures Wins(trades) == |Winners(trades)|
  {
    if trades != [] {
      var n := |trades| - 1;
      WinnersAreCounted(trades[..n]);
      assert Winners(trades) == Winners(trades[..n]) + if trades[n].pnl > 0.0 then {n} else {};
    }
  }

  lemma {:induction false} BestAndWorst(trades: seq<TradeRecord>)
    ensures Extremes(trades, Wins(trades), BestOf(trades), WorstOf(trades))
  {
    WinnersAreCounted(trades);
    if trades != [] {
      var n := |trades| - 1;
      var p := trades[..n];
      BestAndWorst(p);
      assert trades[n].pnl == trades[n].pnl;
      if BestOf(p) != 0.0 {
        var i :| 0 <= i < n && p[i].pnl == BestOf(p);
        assert trades[i].pnl == BestOf(p);
      }
      if WorstOf(p) != 0.0 {
        var i :| 0 <= i < n && p[i].pnl == WorstOf(p);
        assert trades[i].pnl == WorstOf(p);
      }
    }
  }

  /** What a closed trade earns, in ticks, by the way it was closed. */
  ghost predicate Priced(cfg: Config, t: TradeRecord)
  {
    && (t.direction == 1 || t.direction == -1)
    && (t.reason == StopLoss ==> t.pnl == -(cfg.slTicks + cfg.slippage + cfg.commission))
    && (t.reason == TakeProfit ==> t.pnl == cfg.tpTicks - cfg.slippage - cfg.commission)
    && Times(t.pnl + cfg.commission, cfg.tickSize) == Times(t.exitPrice - t.entryPrice, t.direction as real)
  }

  ghost predicate AllPriced(cfg: Config, trades: seq<TradeRecord>)
  {
    forall i | 0 <= i < |trades| :: Priced(cfg, trades[i])
  }

  /** An open position, if any. */
  datatype Position = Flat | Open(direction: int, entry: real, date: string)

  /** So many ticks of favourable (or, if negative, adverse) move from a price. */
  function Shifted(cfg: Config, direction: int, from: real, ticks: real): real
  {
    if direction > 0 then from + Times(ticks, cfg.tickSize) else from - Times(ticks, cfg.tickSize)
  }

  function PnlTicks(cfg: Config, direction: int, entry: real, exit: real): real
    requires cfg.tickSize != 0.0
  {
    (exit - entry) / cfg.tickSize * direction as real - cfg.commission
  }

  function SlPrice(cfg: Config, p: Position): real
    requires p.Open?
  {
    Shifted(cfg, p.direction, p.entry, -cfg.slTicks)
  }

  function TpPrice(cfg: Config, p: Position): real
    requires p.Open?
  {
    Shifted(cfg, p.direction, p.entry, cfg.tpTicks)
  }

  predicate StopHit(cfg: Config, p: Position, bar: Bar)
    requires p.Open?
  {
    if p.direction > 0 then bar.low <= SlPrice(cfg, p) else bar.high >= SlPrice(cfg, p)
  }

  predicate TargetHit(cfg: Config, p: Position, bar: Bar)
    requires p.Open?
  {
    if p.direction > 0 then bar.high >= TpPrice(cfg, p) else bar.low <= TpPrice(cfg, p)
  }

  function Closed(cfg: Config, p: Position, price: real, date: string, reason: ExitReason): TradeRecord
    requires p.Open? && cfg.tickSize != 0.0
  {
    var exit := Shifted(cfg, p.direction, price, -cfg.slippage);
    TradeRecord(p.date, date, p.entry, exit, p.direction, PnlTicks(cfg, p.direction, p.entry, exit), reason)
  }

  /** The exit a bar forces; a bar that touches both levels counts as a stop. */
  function ExitOn(cfg: Config, p: Position, bar: Bar): Option<TradeRecord>
    requires cfg.tickSize != 0.0
  {
    if p.Flat? then None
    else if StopHit(cfg, p, bar) then Some(Closed(cfg, p, SlPrice(cfg, p), bar.date, StopLoss))
    else if TargetHit(cfg, p, bar) then Some(Closed(cfg, p, TpPrice(cfg, p), bar.date, TakeProfit))
    else None
  }

  function Opened(cfg: Config, bar: Bar, dir: Direction): Position
  {
    match dir
    case GoLong => Open(1, Shifted(cfg, 1, bar.close, cfg.slippage), bar.date)
    case GoShort => Open(-1, Shifted(cfg, -1, bar.close, cfg.slippage), bar.date)
    case _ => Flat
  }

  /** The trades of a run, and the position left after the first n bars: exits
      first, then, when flat, an entry at the close. */
  function PositionAfter(cfg: Config, bars: seq<Bar>, signals: seq<Direction>, n: nat): Position
    requires cfg.tickSize != 0.0 && n <= |bars| == |signals|
  {
    if n == 0 then Flat
    else
      var p := PositionAfter(cfg, bars, signals, n - 1);
      if p.Open? && ExitOn(cfg, p, bars[n - 1]).None? then p else Opened(cfg, bars[n - 1], signals[n - 1])
  }

  function TradesAfter(cfg: Config, bars: seq<Bar>, signals: seq<Direction>, n: nat): seq<TradeRecord>
    requires cfg.tickSize != 0.0 && n <= |bars| == |signals|
  {
    if n == 0 then []
    else
      var p := PositionAfter(cfg, bars, signals, n - 1);
      var trades := TradesAfter(cfg, bars, signals, n - 1);
      match ExitOn(cfg, p, bars[n - 1])
      case None => trades
      case Some(t) => trades + [t]
  }

  /** All trades, the last one forced at the final close if still open. */
  function AllTrades(cfg: Config, bars: seq<Bar>, signals: seq<Direction>): seq<TradeRecord>
    requires cfg.tickSize != 0.0 && |bars| == |signals|
  {
    var p := PositionAfter(cfg, bars, signals, |bars|);
    var trades := TradesAfter(cfg, bars, signals, |bars|);
    if p.Flat? then trades
    else
      FlatWithoutBars(cfg, bars, signals);
      var last := bars[|bars| - 1];
      trades + [Closed(cfg, p, last.close, last.date, ForceClose)]
  }

  lemma FlatWithoutBars(cfg: Config, bars: seq<Bar>, signals: seq<Direction>)
    requires cfg.tickSize != 0.0 && |bars| == |signals|
    ensures PositionAfter(cfg, bars, signals, |bars|).Open? ==> |bars| > 0
  {
  }

  lemma ShiftTwice(cfg: Config, direction: int, from: real, a: real, b: real)
    ensures Shifted(cfg, direction, Shifted(cfg, direction, from, a), b) == Shifted(cfg, direction, from, a + b)
  {
    TimesLaws(a, b, cfg.tickSize);
  }

  lemma QuotientOfProduct(a: real, tick: real)
    requires tick != 0.0
    ensures Times(a, tick) / tick == a
  {
  }

  lemma QuotientTimes(a: real, b: real)
    requires b != 0.0
    ensures Times(a / b, b) == a && Times(a / b * 100.0, b) == a * 100.0
  {
    var q := a / b;
    assert Times(q, b) == a;
    assert Times(q * 100.0, b) == 100.0 * Times(q, b);
  }

  /** A move of so many favourable ticks earns them, less the commission. */
  lemma PnlOfShift(cfg: Config, direction: int, entry: real, ticks: real)
    requires cfg.tickSize != 0.0 && (direction == 1 || direction == -1)
    ensures PnlTicks(cfg, direction, entry, Shifted(cfg, direction, entry, ticks)) == ticks - cfg.commission
  {
    var move := Shifted(cfg, direction, entry, ticks) - entry;
    if direction == 1 {
      assert move == Times(ticks, cfg.tickSize);
      QuotientOfProduct(ticks, cfg.tickSize);
    } else {
      assert move == Times(-ticks, cfg.tickSize);
      QuotientOfProduct(-ticks, cfg.tickSize);
    }
  }

  /** What a trade earns before commission, in money. */
  lemma PnlInMoney(cfg: Config, direction: int, entry: real, exit: real)
    requires cfg.tickSize != 0.0 && (direction == 1 || direction == -1)
    ensures Times(PnlTicks(cfg, direction, entry, exit) + cfg.commission, cfg.tickSize)
            == Times(exit - entry, direction as real)
  {
    QuotientTimes(exit - entry, cfg.tickSize);
    var q := (exit - entry) / cfg.tickSize;
    if direction == 1 {
      assert PnlTicks(cfg, direction, entry, exit) + cfg.commission == q;
    } else {
      assert PnlTicks(cfg, direction, entry, exit) + cfg.commission == -q;
      assert Times(-q, cfg.tickSize) == -Times(q, cfg.tickSize);
    }
  }

  lemma ClosedIsPriced(cfg: Config, p: Position, price: real, date: string, reason: ExitReason)
    requires p.Open? && cfg.tickSize != 0.0 && (p.direction == 1 || p.direction == -1)
    requires reason == StopLoss ==> price == SlPrice(cfg, p)
    requires reason == TakeProfit ==> price == TpPrice(cfg, p)
    ensures Priced(cfg, Closed(cfg, p, price, date, reason))
  {
    PnlInMoney(cfg, p.direction, p.entry, Shifted(cfg, p.direction, price, -cfg.slippage));
    if reason == StopLoss {
      ShiftTwice(cfg, p.direction, p.entry, -cfg.slTicks, -cfg.slippage);
      PnlOfShift(cfg, p.direction, p.entry, -cfg.slTicks + -cfg.slippage);
    } else if reason == TakeProfit {
      ShiftTwice(cfg, p.direction, p.entry, cfg.tpTicks, -cfg.slippage);
      PnlOfShift(cfg, p.direction, p.entry, cfg.tpTicks + -cfg.slippage);
    }
  }

  lemma {:induction false} PositionIsUnit(cfg: Config, bars: seq<Bar>, signals: seq<Direction>, n: nat)
    requires cfg.tickSize != 0.0 && n <= |bars| == |signals|
    ensures var p := PositionAfter(cfg, bars, signals, n);
            p.Open? ==> p.direction == 1 || p.direction == -1
  {
    if n > 0 {
      PositionIsUnit(cfg, bars, signals, n - 1);
    }
  }

  lemma {:induction false} TradesArePriced(cfg: Config, bars: seq<Bar>, signals: seq<Direction>, n: nat)
    requires cfg.tickSize != 0.0 && n <= |bars| == |signals|
    ensures AllPriced(cfg, TradesAfter(cfg, bars, signals, n))
  {
    if n > 0 {
      TradesArePriced(cfg, bars, signals, n - 1);
      PositionIsUnit(cfg, bars, signals, n - 1);
      var p, bar := PositionAfter(cfg, bars, signals, n - 1), bars[n - 1];
      if p.Open? {
        ClosedIsPriced(cfg, p, SlPrice(cfg, p), bar.date, StopLoss);
        ClosedIsPriced(cfg, p, TpPrice(cfg, p), bar.date, TakeProfit);
      }
    }
  }

  /** For every bar list and signal sequence: a stop-loss trade loses exactly
      stop, slippage and commission; a take-profit trade earns the target less
      slippage and commission. */
  lemma EveryTradeIsPriced(cfg: Config, bars: seq<Bar>, signals: seq<Direction>)
    requires cfg.tickSize != 0.0 && |bars| == |signals|
    ensures AllPriced(cfg, AllTrades(cfg, bars, signals))
  {
    TradesArePriced(cfg, bars, signals, |bars|);
    PositionIsUnit(cfg, bars, signals, |bars|);
    FlatWithoutBars(cfg, bars, signals);
    var p := PositionAfter(cfg, bars, signals, |bars|);
    if p.Open? {
      ClosedIsPriced(cfg, p, bars[|bars| - 1].close, bars[|bars| - 1].date, ForceClose);
    }
  }

  predicate IsEntry(dir: Direction)
  {
    dir == GoLong || dir == GoShort
  }

  lemma {:induction false} NothingYetExactly(cfg: Config, bars: seq<Bar>, signals: seq<Direction>, n: nat)
    requires cfg.tickSize != 0.0 && n <= |bars| == |signals|
    ensures PositionAfter(cfg, bars, signals, n) == Flat && TradesAfter(cfg, bars, signals, n) == []
            <==> forall i | 0 <= i < n :: !IsEntry(signals[i])
  {
    if n > 0 {
      NothingYetExactly(cfg, bars, signals, n - 1);
    }
  }

  /** A run has no trades exactly when no bar signals an entry: every entry signal
      finds a position open or opens one, and every position is closed in the end. */
  lemma NoTradesExactly(cfg: Config, bars: seq<Bar>, signals: seq<Direction>)
    requires cfg.tickSize != 0.0 && |bars| == |signals|
    ensures AllTrades(cfg, bars, signals) == [] <==> forall i | 0 <= i < |signals| :: !IsEntry(signals[i])
  {
    NothingYetExactly(cfg, bars, signals, |bars|);
  }

  // ---- Every trade from its entry bar to its exit bar -------------------------------

  /** The bar's signal opens a position in its direction, at the close made worse by the
      slippage. */
  ghost predicate EntersAt(cfg: Config, bar: Bar, dir: Direction, direction: int, price: real)
  {
    || (dir == GoLong && direction == 1 && price == bar.close + Times(cfg.slippage, cfg.tickSize))
    || (dir == GoShort && direction == -1 && price == bar.close - Times(cfg.slippage, cfg.tickSize))
  }

  /** The price of a stop at so many ticks against the position. */
  function StopAt(cfg: Config, direction: int, entry: real): real
  {
    if direction == 1 then entry - Times(cfg.slTicks, cfg.tickSize) else entry + Times(cfg.slTicks, cfg.tickSize)
  }

  function TargetAt(cfg: Config, direction: int, entry: real): real
  {
    if direction == 1 then entry + Times(cfg.tpTicks, cfg.tickSize) else entry - Times(cfg.tpTicks, cfg.tickSize)
  }

  ghost predicate StopTouched(cfg: Config, direction: int, entry: real, bar: Bar)
  {
    if direction == 1 then bar.low <= StopAt(cfg, 1, entry) else bar.high >= StopAt(cfg, direction, entry)
  }

  ghost predicate TargetTouched(cfg: Config, direction: int, entry: real, bar: Bar)
  {
    if direction == 1 then bar.high >= TargetAt(cfg, 1, entry) else bar.low <= TargetAt(cfg, direction, entry)
  }

  /** No bar after i and before n touches the stop or the target. */
  ghost predicate Untouched(cfg: Config, bars: seq<Bar>, direction: int, entry: real, i: nat, n: nat)
    requires n <= |bars|
  {
    forall k | i < k < n ::
      !StopTouched(cfg, direction, entry, bars[k]) && !TargetTouched(cfg, direction, entry, bars[k])
  }

  /** The price a level is left at, made worse by the slippage. */
  function Worse(cfg: Config, direction: int, level: real): real
  {
    if direction == 1 then level - Times(cfg.slippage, cfg.tickSize) else level + Times(cfg.slippage, cfg.tickSize)
  }

  /** The trade was opened by the signal of bar i and closed on bar j: the first later
      one to touch a level, the stop going first, or the last one of all. */
  ghost predicate RoundTrip(cfg: Config, bars: seq<Bar>, signals: seq<Direction>, t: TradeRecord, i: nat, j: nat)
    requires |bars| == |signals|
  {
    && i <= j < |bars|
    && EntersAt(cfg, bars[i], signals[i], t.direction, t.entryPrice)
    && t.entryDate == bars[i].date && t.exitDate == bars[j].date
    && Untouched(cfg, bars, t.direction, t.entryPrice, i, j)
    && match t.reason
       case StopLoss =>
         && i < j && StopTouched(cfg, t.direction, t.entryPrice, bars[j])
         && t.exitPrice == Worse(cfg, t.direction, StopAt(cfg, t.direction, t.entryPrice))
       case TakeProfit =>
         && i < j && TargetTouched(cfg, t.direction, t.entryPrice, bars[j])
         && !StopTouched(cfg, t.direction, t.entryPrice, bars[j])
         && t.exitPrice == Worse(cfg, t.direction, TargetAt(cfg, t.direction, t.entryPrice))
       case ForceClose =>
         && j == |bars| - 1 && Untouched(cfg, bars, t.direction, t.entryPrice, i, |bars|)
         && t.exitPrice == Worse(cfg, t.direction, bars[j].close)
  }

  ghost predicate NoEntries(signals: seq<Direction>, from: nat, to: nat)
    requires to <= |signals|
  {
    forall k | from <= k < to :: signals[k] != GoLong && signals[k] != GoShort
  }

  /** The bar of the last exit, the first bar before any. */
  function LastExit(exits: seq<nat>): nat
  {
    if exits == [] then 0 else exits[|exits| - 1]
  }

  /** The trades as round trips in turn, entered at the first entry signal from the exit
      of the one before. */
  ghost predicate Trips(cfg: Config, bars: seq<Bar>, signals: seq<Direction>, trades: seq<TradeRecord>,
                        entries: seq<nat>, exits: seq<nat>)
    requires |bars| == |signals|
  {
    && |entries| == |exits| == |trades|
    && forall m | 0 <= m < |trades| ::
         && RoundTrip(cfg, bars, signals, trades[m], entries[m], exits[m])
         && LastExit(exits[..m]) <= entries[m]
         && NoEntries(signals, LastExit(exits[..m]), entries[m])
  }

  /** A run's trades: round trips in turn, with no entry signal left over after the last
      unless that one was closed by force. */
  ghost predicate Reports(cfg: Config, bars: seq<Bar>, signals: seq<Direction>, trades: seq<TradeRecord>)
    requires |bars| == |signals|
  {
    exists entries: seq<nat>, exits: seq<nat> ::
      && Trips(cfg, bars, signals, trades, entries, exits)
      && (trades == [] || trades[|trades| - 1].reason != ForceClose ==>
            NoEntries(signals, LastExit(exits), |signals|))
  }

  /** A position still open after n bars. */
  ghost predicate OpenSince(cfg: Config, bars: seq<Bar>, signals: seq<Direction>, p: Position, i: nat, n: nat)
    requires n <= |bars| == |signals|
  {
    && p.Open? && i < n
    && EntersAt(cfg, bars[i], signals[i], p.direction, p.entry) && p.date == bars[i].date
    && Untouched(cfg, bars, p.direction, p.entry, i, n)
  }

  lemma NegatedTicks(a: real, tick: real)
    ensures Times(-a, tick) == -Times(a, tick)
  {
  }

  /** The levels of a position in prices. */
  lemma LevelsInPrices(cfg: Config, p: Position, bar: Bar)
    requires p.Open? && (p.direction == 1 || p.direction == -1)
    ensures StopHit(cfg, p, bar) <==> StopTouched(cfg, p.direction, p.entry, bar)
    ensures TargetHit(cfg, p, bar) <==> TargetTouched(cfg, p.direction, p.entry, bar)
    ensures SlPrice(cfg, p) == StopAt(cfg, p.direction, p.entry)
    ensures TpPrice(cfg, p) == TargetAt(cfg, p.direction, p.entry)
    ensures forall level: real :: Shifted(cfg, p.direction, level, -cfg.slippage) == Worse(cfg, p.direction, level)
  {
    NegatedTicks(cfg.slTicks, cfg.tickSize);
    NegatedTicks(cfg.slippage, cfg.tickSize);
  }

  lemma OpenedEnters(cfg: Config, bar: Bar, dir: Direction)
    ensures var p := Opened(cfg, bar, dir);
            if p.Open? then EntersAt(cfg, bar, dir, p.direction, p.entry) && p.date == bar.date
            else dir != GoLong && dir != GoShort
  {
  }

  lemma ExitIsRoundTrip(cfg: Config, bars: seq<Bar>, signals: seq<Direction>, p: Position, i: nat, j: nat)
    requires cfg.tickSize != 0.0 && j < |bars| == |signals| && OpenSince(cfg, bars, signals, p, i, j)
    ensures var exit := ExitOn(cfg, p, bars[j]);
            if exit.Some? then RoundTrip(cfg, bars, signals, exit.value, i, j)
            else OpenSince(cfg, bars, signals, p, i, j + 1)
  {
    LevelsInPrices(cfg, p, bars[j]);
  }

  lemma ForcedIsRoundTrip(cfg: Config, bars: seq<Bar>, signals: seq<Direction>, p: Position, i: nat)
    requires cfg.tickSize != 0.0 && |bars| == |signals| && OpenSince(cfg, bars, signals, p, i, |bars|)
    ensures var last := bars[|bars| - 1];
            RoundTrip(cfg, bars, signals, Closed(cfg, p, last.close, last.date, ForceClose), i, |bars| - 1)
  {
    LevelsInPrices(cfg, p, bars[|bars| - 1]);
  }

  lemma TripsAppend(cfg: Config, bars: seq<Bar>, signals: seq<Direction>, trades: seq<TradeRecord>,
                    entries: seq<nat>, exits: seq<nat>, t: TradeRecord, i: nat, j: nat)
    requires |bars| == |signals| && Trips(cfg, bars, signals, trades, entries, exits)
    requires RoundTrip(cfg, bars, signals, t, i, j) && LastExit(exits) <= i && NoEntries(signals, LastExit(exits), i)
    ensures Trips(cfg, bars, signals, trades + [t], entries + [i], exits + [j])
  {
    var ts, es, xs := trades + [t], entries + [i], exits + [j];
    forall m | 0 <= m < |ts|
      ensures RoundTrip(cfg, bars, signals, ts[m], es[m], xs[m])
      ensures LastExit(xs[..m]) <= es[m] && NoEntries(signals, LastExit(xs[..m]), es[m])
    {
      assert xs[..m] == exits[..m];
      assert exits[..|exits|] == exits;
    }
  }

  /** Round trips so far, and either nothing open and no signal missed since the last
      exit, or the position of the first signal since. */
  ghost predicate Progress(cfg: Config, bars: seq<Bar>, signals: seq<Direction>, n: nat, trades: seq<TradeRecord>,
                           p: Position, entries: seq<nat>, exits: seq<nat>, i: nat)
    requires n <= |bars| == |signals|
  {
    && Trips(cfg, bars, signals, trades, entries, exits)
    && (exits != [] ==> LastExit(exits) < n)
    && if p.Flat? then NoEntries(signals, LastExit(exits), n)
       else OpenSince(cfg, bars, signals, p, i, n) && LastExit(exits) <= i && NoEntries(signals, LastExit(exits), i)
  }

  /** One more bar while flat. */
  lemma ProgressFlat(cfg: Config, bars: seq<Bar>, signals: seq<Direction>, n: nat, trades: seq<TradeRecord>,
                     entries: seq<nat>, exits: seq<nat>, i: nat)
    requires n < |bars| == |signals| && Progress(cfg, bars, signals, n, trades, Flat, entries, exits, i)
    ensures Progress(cfg, bars, signals, n + 1, trades, Opened(cfg, bars[n], signals[n]), entries, exits, n)
  {
    OpenedEnters(cfg, bars[n], signals[n]);
  }

  /** One more bar that closes the position and may open another. */
  lemma ProgressClosed(cfg: Config, bars: seq<Bar>, signals: seq<Direction>, n: nat, trades: seq<TradeRecord>,
                       p: Position, entries: seq<nat>, exits: seq<nat>, i: nat, t: TradeRecord)
    requires n < |bars| == |signals| && p.Open? && Progress(cfg, bars, signals, n, trades, p, entries, exits, i)
    requires RoundTrip(cfg, bars, signals, t, i, n)
    ensures Progress(cfg, bars, signals, n + 1, trades + [t], Opened(cfg, bars[n], signals[n]),
                     entries + [i], exits + [n], n)
  {
    OpenedEnters(cfg, bars[n], signals[n]);
    TripsAppend(cfg, bars, signals, trades, entries, exits, t, i, n);
    assert LastExit(exits + [n]) == n;
  }

  /** One more bar. */
  lemma ProgressStep(cfg: Config, bars: seq<Bar>, signals: seq<Direction>, n: nat, trades: seq<TradeRecord>,
                     p: Position, entries: seq<nat>, exits: seq<nat>, i: nat)
    returns (entries': seq<nat>, exits': seq<nat>, i': nat)
    requires cfg.tickSize != 0.0 && n < |bars| == |signals|
    requires Progress(cfg, bars, signals, n, trades, p, entries, exits, i)
    ensures var exit := ExitOn(cfg, p, bars[n]);
            Progress(cfg, bars, signals, n + 1, if exit.Some? then trades + [exit.value] else trades,
                     if p.Open? && exit.None? then p else Opened(cfg, bars[n], signals[n]), entries', exits', i')
  {
    entries', exits', i' := entries, exits, i;
    if p.Flat? {
      ProgressFlat(cfg, bars, signals, n, trades, entries, exits, i);
      i' := n;
    } else {
      ExitIsRoundTrip(cfg, bars, signals, p, i, n);
      var exit := ExitOn(cfg, p, bars[n]);
      if exit.Some? {
        ProgressClosed(cfg, bars, signals, n, trades, p, entries, exits, i, exit.value);
        entries', exits', i' := entries + [i], exits + [n], n;
      }
    }
  }

  lemma {:induction false} TripsSoFar(cfg: Config, bars: seq<Bar>, signals: seq<Direction>, n: nat)
    returns (entries: seq<nat>, exits: seq<nat>, i: nat)
    requires cfg.tickSize != 0.0 && n <= |bars| == |signals|
    ensures Progress(cfg, bars, signals, n, TradesAfter(cfg, bars, signals, n), PositionAfter(cfg, bars, signals, n),
                     entries, exits, i)
  {
    entries, exits, i := [], [], 0;
    if n > 0 {
      entries, exits, i := TripsSoFar(cfg, bars, signals, n - 1);
      entries, exits, i := ProgressStep(cfg, bars, signals, n - 1, TradesAfter(cfg, bars, signals, n - 1),
                                        PositionAfter(cfg, bars, signals, n - 1), entries, exits, i);
    }
  }

  lemma ForcedEnds(cfg: Config, bars: seq<Bar>, signals: seq<Direction>, trades: seq<TradeRecord>,
                   entries: seq<nat>, exits: seq<nat>, t: TradeRecord, i: nat)
    requires 0 < |bars| == |signals| && Trips(cfg, bars, signals, trades, entries, exits)
    requires t.reason == ForceClose && RoundTrip(cfg, bars, signals, t, i, |bars| - 1)
    requires LastExit(exits) <= i && NoEntries(signals, LastExit(exits), i)
    ensures Reports(cfg, bars, signals, trades + [t])
  {
    TripsAppend(cfg, bars, signals, trades, entries, exits, t, i, |bars| - 1);
    assert (trades + [t])[|trades|].reason == ForceClose;
  }

  /** What is still open after the last bar is closed by force. */
  lemma ProgressEnds(cfg: Config, bars: seq<Bar>, signals: seq<Direction>, trades: seq<TradeRecord>,
                     p: Position, entries: seq<nat>, exits: seq<nat>, i: nat)
    requires cfg.tickSize != 0.0 && |bars| == |signals|
    requires Progress(cfg, bars, signals, |bars|, trades, p, entries, exits, i)
    ensures if p.Flat? then Reports(cfg, bars, signals, trades)
            else
              var last := bars[|bars| - 1];
              Reports(cfg, bars, signals, trades + [Closed(cfg, p, last.close, last.date, ForceClose)])
  {
    if p.Open? {
      var last := bars[|bars| - 1];
      ForcedIsRoundTrip(cfg, bars, signals, p, i);
      ForcedEnds(cfg, bars, signals, trades, entries, exits, Closed(cfg, p, last.close, last.date, ForceClose), i);
    }
  }

  /** Every trade of a run goes from the bar whose signal opened it to the first bar
      that closed it, and no entry signal was passed over while flat. */
  lemma TradesAreRoundTrips(cfg: Config, bars: seq<Bar>, signals: seq<Direction>)
    requires cfg.tickSize != 0.0 && |bars| == |signals|
    ensures Reports(cfg, bars, signals, AllTrades(cfg, bars, signals))
  {
    var entries, exits, i := TripsSoFar(cfg, bars, signals, |bars|);
    ProgressEnds(cfg, bars, signals, TradesAfter(cfg, bars, signals, |bars|),
                 PositionAfter(cfg, bars, signals, |bars|), entries, exits, i);
  }

  // ---- Profit factor ------------------------------------------------------------------

  function GrossWin(trades: seq<TradeRecord>): real
  {
    if trades == [] then 0.0
    else
      var t := trades[|trades| - 1];
      GrossWin(trades[..|trades| - 1]) + if t.pnl > 0.0 then t.pnl else 0.0
  }

  function GrossLoss(trades: seq<TradeRecord>): real
  {
    if trades == [] then 0.0
    else
      var t := trades[|trades| - 1];
      GrossLoss(trades[..|trades| - 1]) + if t.pnl > 0.0 then 0.0 else Abs(t.pnl)
  }

  lemma {:induction false} GrossSplitsTotal(trades: seq<TradeRecord>)
    ensures TotalPnl(trades) == GrossWin(trades) - GrossLoss(trades)
    ensures GrossWin(trades) >= 0.0 && GrossLoss(trades) >= 0.0
  {
    if trades != [] {
      GrossSplitsTotal(trades[..|trades| - 1]);
    }
  }

  lemma RatioAboveOne(a: real, b: real)
    requires b > 0.0
    ensures a / b > 1.0 <==> a > b
  {
    var q := a / b;
    assert q * b == a;
    assert (q - 1.0) * b == a - b;
  }

  /** With some gross loss, the profit factor is above one exactly for a run that
      made money. */
  lemma ProfitFactorAboveOne(trades: seq<TradeRecord>)
    requires GrossLoss(trades) > 0.0
    ensures GrossWin(trades) / GrossLoss(trades) > 1.0 <==> TotalPnl(trades) > 0.0
  {
    GrossSplitsTotal(trades);
    RatioAboveOne(GrossWin(trades), GrossLoss(trades));
  }

  // ---- The runner -----------------------------------------------------------------------

  /** Accumulators against the trades so far; `start` is the runner's equity
      peak when the run began, 0 on a fresh runner. */
  ghost predicate Accounts(start: real, peak: real, r: Summary)
  {
    && r.totalPnl == TotalPnl(r.trades)
    && r.wins == Wins(r.trades) && r.wins + r.losses == |r.trades|
    && r.maxWin == BestOf(r.trades) && r.maxLoss == WorstOf(r.trades)
    && IsTop(peak, Curve(start, r.trades))
    && IsLargestDrop(r.maxDrawdown, Curve(start, r.trades))
  }

  function Booked(r: Summary, peak: real, t: TradeRecord): Summary
  {
    var total := r.totalPnl + t.pnl;
    r.(totalPnl := total,
       wins := if t.pnl > 0.0 then r.wins + 1 else r.wins,
       losses := if t.pnl > 0.0 then r.losses else r.losses + 1,
       maxWin := Max(r.maxWin, t.pnl), maxLoss := Min(r.maxLoss, t.pnl),
       maxDrawdown := Max(r.maxDrawdown, Max(peak, total) - total),
       trades := r.trades + [t])
  }

  lemma BookingKeepsAccounts(start: real, peak: real, r: Summary, t: TradeRecord)
    requires Accounts(start, peak, r)
    ensures Accounts(start, Max(peak, r.totalPnl + t.pnl), Booked(r, peak, t))
  {
    var all := r.trades + [t];
    assert all[..|r.trades|] == r.trades && all[|r.trades|] == t;
    var c := Curve(start, r.trades);
    assert Curve(start, all) == c + [TotalPnl(all)];
    TopStep(c, peak, TotalPnl(all));
    DropStep(c, peak, r.maxDrawdown, TotalPnl(all));
  }

  lemma FreshAccounts(start: real, bars: int)
    ensures Accounts(start, start, EMPTY.(totalBars := bars))
  {
    var c := Curve(start, []);
    assert c[0] == start && Drop(c, 0, 0) == 0.0;
  }

  // ---- A runner used again keeps its old peak -----------------------------------------

  /** Every point after a trade is at most d below the starting high. */
  ghost predicate StartWithin(start: real, d: real, trades: seq<TradeRecord>)
  {
    forall j | 0 < j <= |trades| :: start - Curve(0.0, trades)[j] <= d
  }

  /** Only the first point of the curve depends on the starting high. */
  lemma {:induction false} CurveDiffersAtStart(start: real, trades: seq<TradeRecord>)
    ensures Curve(start, trades) == [start] + Curve(0.0, trades)[1..]
  {
    if trades != [] {
      CurveDiffersAtStart(start, trades[..|trades| - 1]);
    }
  }

  lemma LargestDropIsUnique(c: seq<real>, d: real, e: real)
    requires IsLargestDrop(d, c) && IsLargestDrop(e, c)
    ensures d == e
  {
    var i: nat, j: nat :| i <= j < |c| && Drop(c, i, j) == d;
    var k: nat, l: nat :| k <= l < |c| && Drop(c, k, l) == e;
  }

  /** A run reports its own drawdown exactly when no point of it lies further
      below the peak the runner started with. */
  lemma ReportsOwnDrawdownExactly(start: real, trades: seq<TradeRecord>, own: real)
    requires start >= 0.0 && IsLargestDrop(own, Curve(0.0, trades))
    ensures IsLargestDrop(own, Curve(start, trades)) <==> StartWithin(start, own, trades)
  {
    CurveDiffersAtStart(start, trades);
    CurveDiffersAtStart(0.0, trades);
    var c, c' := Curve(0.0, trades), Curve(start, trades);
    assert forall k | 0 < k < |c| :: c'[k] == c[k];
    if IsLargestDrop(own, c') {
      forall j | 0 < j <= |trades|
        ensures start - c[j] <= own
      {
        assert Drop(c', 0, j) == start - c[j];
      }
    }
    if StartWithin(start, own, trades) {
      var i: nat, j: nat :| i <= j < |c| && Drop(c, i, j) == own;
      assert Drop(c, 0, 0) == 0.0;
      assert Drop(c', 0, 0) == 0.0 && Drop(c', i, j) == own;
      forall a: nat, b: nat | a <= b < |c'|
        ensures Drop(c', a, b) <= own
      {
        assert a > 0 ==> Drop(c', a, b) == Drop(c, a, b);
      }
    }
  }

  /** If `own` is the drawdown of the run, a runner with that peak reports it. */
  ghost predicate ReportsOwn(start: real, trades: seq<TradeRecord>, own: real)
  {
    IsLargestDrop(own, Curve(0.0, trades)) ==> IsLargestDrop(own, Curve(start, trades))
  }

  /** Hence every run reports its own drawdown exactly on a runner whose peak is
      still zero. */
  lemma DrawdownIsOwnExactly(start: real)
    requires start >= 0.0
    ensures (forall trades: seq<TradeRecord>, own: real :: ReportsOwn(start, trades, own)) <==> start == 0.0
  {
    if start > 0.0 {
      var t := TradeRecord("", "", 0.0, 0.0, 1, -1.0, ForceClose);
      var trades, own := [t], 1.0;
      StalePeakInflatesDrawdown(start, t);
      if IsLargestDrop(own, Curve(start, trades)) {
        LargestDropIsUnique(Curve(start, trades), own, start + 1.0);
      }
      assert !ReportsOwn(start, trades, own);
    }
  }

  /** For example a single loss of 1 is reported as 1 plus the old peak. */
  lemma StalePeakInflatesDrawdown(start: real, t: TradeRecord)
    requires start >= 0.0 && t.pnl == -1.0
    ensures IsLargestDrop(start + 1.0, Curve(start, [t])) && IsLargestDrop(1.0, Curve(0.0, [t]))
  {
    assert [t][..0] == [] && TotalPnl([t]) == -1.0;
    assert Curve(start, [t]) == [start, -1.0] && Curve(0.0, [t]) == [0.0, -1.0];
    assert Drop([start, -1.0], 0, 1) == start + 1.0 && Drop([0.0, -1.0], 0, 1) == 1.0;
  }

  /** What a run reports, against its own drawdown. */
  lemma ReportIsOwnExactly(start: real, peak: real, r: Summary)
    requires start >= 0.0 && Accounts(start, peak, r)
    ensures forall own | IsLargestDrop(own, Curve(0.0, r.trades)) ::
              r.maxDrawdown == own <==> StartWithin(start, own, r.trades)
    ensures peak >= start
  {
    assert Curve(start, r.trades)[0] == start;
    forall own | IsLargestDrop(own, Curve(0.0, r.trades))
      ensures r.maxDrawdown == own <==> StartWithin(start, own, r.trades)
    {
      ReportsOwnDrawdownExactly(start, r.trades, own);
      if StartWithin(start, own, r.trades) {
        LargestDropIsUnique(Curve(start, r.trades), own, r.maxDrawdown);
      }
    }
  }

  class BacktestRunner {
    const cfg: Config
    var position: int
    var entryPrice: real
    var entryDate: string
    var equityPeak: real

    /** A tick size of zero divides by zero in the source. */
    constructor (c: Config)
      requires c.tickSize != 0.0
      ensures cfg == c && position == 0 && equityPeak == 0.0
    {
      cfg := c;
      position, entryPrice, entryDate, equityPeak := 0, 0.0, "", 0.0;
    }

    ghost predicate Holds(p: Position)
      reads this
    {
      match p
      case Flat => position == 0
      case Open(d, e, date) => position == d && (d == 1 || d == -1) && entryPrice == e && entryDate == date
    }

    method Run(bars: seq<Bar>, signals: seq<Direction>) returns (r: Summary)
      requires cfg.tickSize != 0.0 && position == 0 && |signals| == |bars|
      modifies this
      ensures position == 0 && r.totalBars == |bars|
      ensures r.trades == AllTrades(cfg, bars, signals) && r.totalTrades == |r.trades|
      ensures Reports(cfg, bars, signals, r.trades) && AllPriced(cfg, r.trades)
      ensures Accounts(old(equityPeak), equityPeak, r)
      ensures Extremes(r.trades, r.wins, r.maxWin, r.maxLoss) && r.losses == |r.trades| - r.wins
      ensures old(equityPeak) >= 0.0 ==>
                && equityPeak >= 0.0
                && forall own | IsLargestDrop(own, Curve(0.0, r.trades)) ::
                     r.maxDrawdown == own <==> StartWithin(old(equityPeak), own, r.trades)
      ensures |r.trades| > 0 ==> Times(r.winRate, |r.trades| as real) == r.wins as real * 100.0
      ensures GrossLoss(r.trades) > 0.0 ==> (r.profitFactor > 1.0 <==> r.totalPnl > 0.0)
      ensures GrossLoss(r.trades) == 0.0 ==> r.profitFactor == 0.0
    {
      TradesAreRoundTrips(cfg, bars, signals);
      EveryTradeIsPriced(cfg, bars, signals);
      r := Replay(bars, signals);
      if position != 0 {
        FlatWithoutBars(cfg, bars, signals);
        var last := bars[|bars| - 1];
        ghost var p := PositionAfter(cfg, bars, signals, |bars|);
        r := ClosePosition(last.close, last.date, ForceClose, r, p, old(equityPeak));
      }
      r := Finalize(r);
      BestAndWorst(r.trades);
      if old(equityPeak) >= 0.0 {
        ReportIsOwnExactly(old(equityPeak), equityPeak, r);
      }
    }

    /** The loop over the bars. */
    method Replay(bars: seq<Bar>, signals: seq<Direction>) returns (r: Summary)
      requires cfg.tickSize != 0.0 && position == 0 && |signals| == |bars|
      modifies this
      ensures Holds(PositionAfter(cfg, bars, signals, |bars|))
      ensures r.trades == TradesAfter(cfg, bars, signals, |bars|) && r.totalBars == |bars|
      ensures r.totalTrades == |r.trades| + (if position == 0 then 0 else 1)
      ensures Accounts(old(equityPeak), equityPeak, r)
    {
      r := EMPTY.(totalBars := |bars|);
      FreshAccounts(equityPeak, |bars|);
      for n := 0 to |bars|
        invariant Holds(PositionAfter(cfg, bars, signals, n))
        invariant r.trades == TradesAfter(cfg, bars, signals, n) && r.totalBars == |bars|
        invariant r.totalTrades == |r.trades| + (if position == 0 then 0 else 1)
        invariant Accounts(old(equityPeak), equityPeak, r)
      {
        r := OnBar(bars[n], signals[n], r, PositionAfter(cfg, bars, signals, n), old(equityPeak));
      }
    }

    /** One bar: an exit if a level is touched, then an entry if flat. */
    method OnBar(bar: Bar, dir: Direction, r0: Summary, ghost p: Position, ghost start: real) returns (r: Summary)
      requires cfg.tickSize != 0.0 && Holds(p) && Accounts(start, equityPeak, r0)
      requires r0.totalTrades == |r0.trades| + (if position == 0 then 0 else 1)
      modifies this
      ensures Holds(if p.Open? && ExitOn(cfg, p, bar).None? then p else Opened(cfg, bar, dir))
      ensures r.trades == r0.trades + (match ExitOn(cfg, p, bar) case None => [] case Some(t) => [t])
      ensures Accounts(start, equityPeak, r) && r.totalBars == r0.totalBars
      ensures r.totalTrades == |r.trades| + (if position == 0 then 0 else 1)
    {
      r := r0;
      if position != 0 {
        r := CheckExit(bar, r, p, start);
      }
      if position == 0 {
        if dir == GoLong || dir == GoShort {
          r := OpenPosition(bar, dir, r);
        }
      }
    }

    method CheckExit(bar: Bar, r0: Summary, ghost p: Position, ghost start: real) returns (r: Summary)
      requires cfg.tickSize != 0.0 && p.Open? && Holds(p) && Accounts(start, equityPeak, r0)
      modifies this
      ensures Holds(if ExitOn(cfg, p, bar).None? then p else Flat)
      ensures r.trades == r0.trades + (match ExitOn(cfg, p, bar) case None => [] case Some(t) => [t])
      ensures Accounts(start, equityPeak, r) && r.totalTrades == r0.totalTrades && r.totalBars == r0.totalBars
    {
      var sl := Shifted(cfg, position, entryPrice, -cfg.slTicks);
      var tp := Shifted(cfg, position, entryPrice, cfg.tpTicks);
      assert sl == SlPrice(cfg, p) && tp == TpPrice(cfg, p);
      assert StopHit(cfg, p, bar) <==> if position > 0 then bar.low <= sl else bar.high >= sl;
      r := r0;
      if position > 0 && bar.low <= sl {
        r := ClosePosition(sl, bar.date, StopLoss, r0, p, start);
      } else if position > 0 && bar.high >= tp {
        r := ClosePosition(tp, bar.date, TakeProfit, r0, p, start);
      } else if position < 0 && bar.high >= sl {
        r := ClosePosition(sl, bar.date, StopLoss, r0, p, start);
      } else if position < 0 && bar.low <= tp {
        r := ClosePosition(tp, bar.date, TakeProfit, r0, p, start);
      }
    }

    method OpenPosition(bar: Bar, dir: Direction, r0: Summary) returns (r: Summary)
      requires dir == GoLong || dir == GoShort
      modifies this`entryPrice, this`position, this`entryDate
      ensures Holds(Opened(cfg, bar, dir)) && position != 0
      ensures r == r0.(totalTrades := r0.totalTrades + 1)
    {
      position := if dir == GoLong then 1 else -1;
      entryPrice := Shifted(cfg, position, bar.close, cfg.slippage);
      entryDate := bar.date;
      r := r0.(totalTrades := r0.totalTrades + 1);
    }

    method ClosePosition(price: real, date: string, reason: ExitReason, r0: Summary,
                         ghost p: Position, ghost start: real)
      returns (r: Summary)
      requires cfg.tickSize != 0.0 && p.Open? && Holds(p) && Accounts(start, equityPeak, r0)
      modifies this
      ensures Holds(Flat) && r == Booked(r0, old(equityPeak), Closed(cfg, p, price, date, reason))
      ensures Accounts(start, equityPeak, r)
    {
      BookingKeepsAccounts(start, equityPeak, r0, Closed(cfg, p, price, date, reason));
      var ep := Shifted(cfg, position, price, -cfg.slippage);
      var pnl := PnlTicks(cfg, position, entryPrice, ep);
      r := r0.(totalPnl := r0.totalPnl + pnl);
      if pnl > 0.0 {
        r := r.(wins := r.wins + 1);
      } else {
        r := r.(losses := r.losses + 1);
      }
      r := r.(maxWin := Max(r.maxWin, pnl), maxLoss := Min(r.maxLoss, pnl));
      equityPeak := Max(equityPeak, r.totalPnl);
      r := r.(maxDrawdown := Max(r.maxDrawdown, equityPeak - r.totalPnl),
              trades := r.trades + [TradeRecord(entryDate, date, entryPrice, ep, position, pnl, reason)]);
      position, entryPrice := 0, 0.0;
    }

    method Finalize(r0: Summary) returns (r: Summary)
      requires r0.wins + r0.losses == |r0.trades|
      ensures r == r0.(winRate := r.winRate, profitFactor := r.profitFactor)
      ensures |r.trades| > 0 ==> Times(r.winRate, |r.trades| as real) == r.wins as real * 100.0
      ensures GrossLoss(r.trades) > 0.0 ==> (r.profitFactor > 1.0 <==> TotalPnl(r.trades) > 0.0)
      ensures GrossLoss(r.trades) > 0.0 ==> Times(r.profitFactor, GrossLoss(r.trades)) == GrossWin(r.trades)
      ensures GrossLoss(r.trades) == 0.0 ==> r.profitFactor == 0.0
    {
      var total := r0.wins + r0.losses;
      var rate := if total > 0 then r0.wins as real / total as real * 100.0 else 0.0;
      var win, loss := 0.0, 0.0;
      for i := 0 to |r0.trades|
        invariant win == GrossWin(r0.trades[..i]) && loss == GrossLoss(r0.trades[..i])
      {
        assert r0.trades[..i + 1][..i] == r0.trades[..i];
        if r0.trades[i].pnl > 0.0 {
          win := win + r0.trades[i].pnl;
        } else {
          loss := loss + Abs(r0.trades[i].pnl);
        }
      }
      assert r0.trades[..|r0.trades|] == r0.trades;
      if loss > 0.0 {
        ProfitFactorAboveOne(r0.trades);
        QuotientTimes(win, loss);
      }
      if total > 0 {
        QuotientTimes(r0.wins as real, total as real);
      }
      r := r0.(winRate := rate, profitFactor := if loss > 0.0 then win / loss else 0.0);
    }
  }
}
