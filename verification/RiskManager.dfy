/** Lot matching, realised profit, the equity peak, and the checks an entry
    order must pass. */
module RiskLedger {
  import opened Common

  datatype Account = Account(liquid: real, usedMargin: real, freeMargin: real, dailyPnl: real, openPositions: real)

  /** An open lot; long if qty > 0, short if qty < 0. */
  datatype Lot = Lot(entry: real, qty: int)

  datatype State = State(account: Account, peak: real, lots: map<int, Lot>)

  /** `pick` is the opposite lot the hash-map search happens to find first. */
  datatype Event = Refresh(account: Account) | Fill(upd: OrderUpdate, pick: Option<int>)

  const INITIAL := State(Account(0.0, 0.0, 0.0, 0.0, 0.0), 0.0, map[])

  predicate Opposite(side: Side, lot: Lot)
  {
    (side == Buy && lot.qty < 0) || (side == Sell && lot.qty > 0)
  }

  /** The search may return any opposite lot, and fails only if there is none. */
  ghost predicate Allowed(s: State, ev: Event)
  {
    ev.Fill? && ev.upd.qtyFilled > 0 ==>
      match ev.pick
      case None => forall k | k in s.lots :: !Opposite(ev.upd.side, s.lots[k])
      case Some(k) => k in s.lots && Opposite(ev.upd.side, s.lots[k])
  }

  function Notional(price: real, qty: int): real
  {
    price * qty as real
  }

  function ClosePnl(upd: OrderUpdate, lot: Lot): real
  {
    (upd.price - lot.entry) * upd.qtyFilled as real * (if lot.qty > 0 then 1.0 else -1.0)
  }

  function Pnl(s: State, ev: Event): real
    requires Allowed(s, ev)
  {
    if ev.Fill? && ev.upd.qtyFilled > 0 && ev.pick.Some? then ClosePnl(ev.upd, s.lots[ev.pick.value]) else 0.0
  }

  function Step(s: State, ev: Event): State
    requires Allowed(s, ev)
  {
    match ev
    case Refresh(a) => State(a, Max(a.liquid, s.peak), s.lots)
    case Fill(upd, pick) =>
      if upd.qtyFilled <= 0 then s
      else match pick
        case Some(k) =>
          var pnl := ClosePnl(upd, s.lots[k]);
          var a := s.account.(dailyPnl := s.account.dailyPnl + pnl, liquid := s.account.liquid + pnl);
          State(a, Max(a.liquid, s.peak), s.lots - {k})
        case None =>
          s.(lots := s.lots[upd.transactionId := Lot(upd.price, Signed(upd))])
  }

  ghost predicate CanRun(s: State, run: seq<Event>)
    decreases |run|
  {
    run != [] ==> Allowed(s, run[0]) && CanRun(Step(s, run[0]), run[1..])
  }

  ghost function Run(s: State, run: seq<Event>): State
    requires CanRun(s, run)
    decreases |run|
  {
    if run == [] then s else Run(Step(s, run[0]), run[1..])
  }

  // ---- One side at a time ----------------------------------------------------

  ghost predicate OneSided(lots: map<int, Lot>)
  {
    && (forall k | k in lots :: lots[k].qty != 0)
    && ((forall k | k in lots :: lots[k].qty > 0) || (forall k | k in lots :: lots[k].qty < 0))
  }

  /** In every reachable state the open lots are all long or all short. */
  lemma {:induction false} LotsStayOneSided(s: State, run: seq<Event>)
    requires CanRun(s, run) && OneSided(s.lots)
    ensures OneSided(Run(s, run).lots)
    decreases |run|
  {
    if run != [] {
      var s', ev := Step(s, run[0]), run[0];
      if ev.Fill? && ev.upd.qtyFilled > 0 && ev.pick.None? && (exists k :: k in s.lots) {
        var k :| k in s.lots;
        assert !Opposite(ev.upd.side, s.lots[k]);
        assert forall j | j in s.lots :: (s.lots[j].qty > 0) == (ev.upd.side == Buy);
      }
      assert OneSided(s'.lots);
      LotsStayOneSided(s', run[1..]);
    }
  }

  // ---- The same fill booked again ----------------------------------------------

  /** Every event of the run is the same fill. */
  ghost predicate AllFills(run: seq<Event>, upd: OrderUpdate)
  {
    forall i | 0 <= i < |run| :: run[i].Fill? && run[i].upd == upd
  }

  /** Booking the fill that just opened a lot again opens the same lot again. */
  lemma {:induction false} ReopeningChangesNothing(s: State, upd: OrderUpdate, run: seq<Event>)
    requires OneSided(s.lots) && upd.qtyFilled > 0 && AllFills(run, upd) && CanRun(s, run)
    requires upd.transactionId in s.lots && s.lots[upd.transactionId] == Lot(upd.price, Signed(upd))
    ensures Run(s, run) == s
    decreases |run|
  {
    if run != [] {
      assert run[0].Fill? && run[0].upd == upd;
      assert forall k | k in s.lots :: !Opposite(upd.side, s.lots[k]);
      assert s.lots[upd.transactionId := Lot(upd.price, Signed(upd))] == s.lots;
      ReopeningChangesNothing(s, upd, run[1..]);
    }
  }

  /** With only opposite lots open, booking the fill closes them one by one and
      then opens its own. */
  lemma {:induction false} ClosingGoesOn(s: State, upd: OrderUpdate, run: seq<Event>)
    requires OneSided(s.lots) && upd.qtyFilled > 0 && AllFills(run, upd) && CanRun(s, run)
    requires forall k | k in s.lots :: Opposite(upd.side, s.lots[k])
    ensures var own := map[upd.transactionId := Lot(upd.price, Signed(upd))];
            run != [] ==> |Run(s, run).lots| < |s.lots| || Run(s, run).lots == own
    decreases |run|
  {
    if run != [] {
      var s' := Step(s, run[0]);
      assert run[0].Fill? && run[0].upd == upd;
      match run[0].pick
      case Some(k) =>
        assert |s'.lots| < |s.lots| by { assert s.lots.Keys == s'.lots.Keys + {k}; }
        ClosingGoesOn(s', upd, run[1..]);
      case None =>
        assert forall k :: k !in s.lots;
        assert s'.lots == map[upd.transactionId := Lot(upd.price, Signed(upd))];
        ReopeningChangesNothing(s', upd, run[1..]);
    }
  }

  /** Booking one fill several times leaves the lots as the first booking did
      exactly when that one opened a lot; if it closed one, each further booking
      closes another or opens a lot on the other side. */
  lemma RepeatIsHarmlessExactly(s: State, upd: OrderUpdate, run: seq<Event>)
    requires OneSided(s.lots) && upd.qtyFilled > 0 && |run| > 1 && AllFills(run, upd) && CanRun(s, run)
    ensures Run(s, run).lots == Step(s, run[0]).lots <==> run[0].pick == None
  {
    var s' := Step(s, run[0]);
    assert run[0].Fill? && run[0].upd == upd;
    LotsStayOneSided(s, [run[0]]);
    assert Run(s, [run[0]]) == s';
    match run[0].pick
    case None => ReopeningChangesNothing(s', upd, run[1..]);
    case Some(k) =>
      ClosingGoesOn(s', upd, run[1..]);
      assert !Opposite(upd.side, Lot(upd.price, Signed(upd)));
  }

  // ---- Peak and base -----------------------------------------------------------

  /** The liquid value in every state of a run, the first included. */
  ghost function Liquids(s: State, run: seq<Event>): seq<real>
    requires CanRun(s, run)
    decreases |run|
  {
    [s.account.liquid] + if run == [] then [] else Liquids(Step(s, run[0]), run[1..])
  }

  ghost predicate IsMaximum(x: real, values: seq<real>)
  {
    (exists i :: 0 <= i < |values| && values[i] == x) && (forall i | 0 <= i < |values| :: values[i] <= x)
  }

  /** A first peak and a lower first value in front of a later part. */
  lemma TopOfLonger(peak: real, liquid: real, peak': real, tail: seq<real>, top: real)
    requires tail != [] && IsMaximum(top, [peak'] + tail)
    requires liquid <= peak <= peak' && (peak' == peak || peak' == tail[0])
    ensures IsMaximum(top, [peak, liquid] + tail)
  {
    var rest, values := [peak'] + tail, [peak, liquid] + tail;
    assert rest[0] == peak' && values[0] == peak && values[1] == liquid && values[2] == tail[0];
    forall k | 0 <= k < |values|
      ensures values[k] <= top
    {
      if k >= 2 {
        assert values[k] == rest[k - 1];
      }
    }
    var i :| 0 <= i < |rest| && rest[i] == top;
    if i > 0 {
      assert values[i + 1] == rest[i];
    } else {
      assert values[0] == top || values[2] == top;
    }
  }

  lemma {:induction false} PeakOverRun(s: State, run: seq<Event>)
    requires CanRun(s, run) && s.peak >= s.account.liquid
    ensures IsMaximum(Run(s, run).peak, [s.peak] + Liquids(s, run))
    decreases |run|
  {
    if run == [] {
      assert ([s.peak] + Liquids(s, run))[0] == s.peak;
    } else {
      var s' := Step(s, run[0]);
      PeakOverRun(s', run[1..]);
      TopOfLonger(s.peak, s.account.liquid, s'.peak, Liquids(s', run[1..]), Run(s, run).peak);
      assert [s.peak] + Liquids(s, run) == [s.peak, s.account.liquid] + Liquids(s', run[1..]);
    }
  }

  /** From a fresh start the peak is the largest liquid value seen, zero (the
      value before the first refresh) included; drawdown is never negative. */
  lemma PeakIsRunningMaximum(run: seq<Event>)
    requires CanRun(INITIAL, run)
    ensures IsMaximum(Run(INITIAL, run).peak, Liquids(INITIAL, run))
    ensures Run(INITIAL, run).peak >= 0.0
    ensures Run(INITIAL, run).peak >= Run(INITIAL, run).account.liquid
  {
    PeakOverRun(INITIAL, run);
    LastLiquid(INITIAL, run);
    var l := Liquids(INITIAL, run);
    var v := [0.0] + l;
    assert l[0] == 0.0 && forall i | 0 <= i < |l| :: l[i] == v[i + 1];
    var i :| 0 <= i < |v| && v[i] == Run(INITIAL, run).peak;
    assert l[if i == 0 then 0 else i - 1] == Run(INITIAL, run).peak;
  }

  lemma {:induction false} LastLiquid(s: State, run: seq<Event>)
    requires CanRun(s, run)
    ensures |Liquids(s, run)| == |run| + 1
    ensures Liquids(s, run)[|run|] == Run(s, run).account.liquid
    decreases |run|
  {
    if run != [] {
      LastLiquid(Step(s, run[0]), run[1..]);
    }
  }

  /** Between refreshes liquid value and daily profit move together. */
  lemma {:induction false} BaseIsConstant(s: State, run: seq<Event>)
    requires CanRun(s, run) && forall i | 0 <= i < |run| :: run[i].Fill?
    ensures Run(s, run).account.liquid - Run(s, run).account.dailyPnl == s.account.liquid - s.account.dailyPnl
    decreases |run|
  {
    if run != [] {
      BaseIsConstant(Step(s, run[0]), run[1..]);
    }
  }

  // ---- Sums over the open lots ---------------------------------------------------

  function Value(lot: Lot): real
  {
    Notional(lot.entry, lot.qty)
  }

  ghost function LotValue(lots: map<int, Lot>): real
    decreases |lots|
  {
    if !exists k :: k in lots then 0.0
    else
      var k :| k in lots;
      Value(lots[k]) + LotValue(lots - {k})
  }

  ghost function LotQty(lots: map<int, Lot>): int
    decreases |lots|
  {
    if !exists k :: k in lots then 0
    else
      var k :| k in lots;
      lots[k].qty + LotQty(lots - {k})
  }

  lemma {:induction false} LotValueWithout(lots: map<int, Lot>, k: int)
    requires k in lots
    ensures LotValue(lots) == Value(lots[k]) + LotValue(lots - {k})
    decreases |lots|
  {
    var j :| j in lots && LotValue(lots) == Value(lots[j]) + LotValue(lots - {j});
    if j != k {
      LotValueWithout(lots - {j}, k);
      LotValueWithout(lots - {k}, j);
      assert lots - {j} - {k} == lots - {k} - {j};
    }
  }

  lemma {:induction false} LotQtyWithout(lots: map<int, Lot>, k: int)
    requires k in lots
    ensures LotQty(lots) == lots[k].qty + LotQty(lots - {k})
    decreases |lots|
  {
    var j :| j in lots && LotQty(lots) == lots[j].qty + LotQty(lots - {j});
    if j != k {
      LotQtyWithout(lots - {j}, k);
      LotQtyWithout(lots - {k}, j);
      assert lots - {j} - {k} == lots - {k} - {j};
    }
  }

  lemma LotSumsWith(lots: map<int, Lot>, k: int, lot: Lot)
    ensures LotValue(lots[k := lot]) == Value(lot) + LotValue(lots - {k})
    ensures LotQty(lots[k := lot]) == lot.qty + LotQty(lots - {k})
  {
    LotValueWithout(lots[k := lot], k);
    LotQtyWithout(lots[k := lot], k);
    assert lots[k := lot] - {k} == lots - {k};
  }

  // ---- Conservation ------------------------------------------------------------

  /** Cash a fill moves: proceeds of a sale, minus the cost of a purchase. */
  function CashOf(ev: Event): real
  {
    if ev.Fill? && ev.upd.qtyFilled > 0 then -Notional(ev.upd.price, Signed(ev.upd)) else 0.0
  }

  function QtyOf(ev: Event): int
  {
    if ev.Fill? && ev.upd.qtyFilled > 0 then Signed(ev.upd) else 0
  }

  /** What a fill silently drops from the books: the part of the closed lot that
      the fill did not cover, or the lot an opening fill overwrites. */
  function Dropped(s: State, ev: Event): Lot
    requires Allowed(s, ev)
  {
    if ev.Refresh? || ev.upd.qtyFilled <= 0 then Lot(0.0, 0)
    else match ev.pick
      case Some(k) => Lot(s.lots[k].entry, s.lots[k].qty + Signed(ev.upd))
      case None =>
        if ev.upd.transactionId in s.lots then s.lots[ev.upd.transactionId] else Lot(0.0, 0)
  }

  /** One fill: profit is cash plus the change in entry value of the open lots
      plus the value dropped; the open quantity follows the fill except for the
      quantity dropped. */
  lemma StepConserves(s: State, ev: Event)
    requires Allowed(s, ev) && OneSided(s.lots)
    ensures Pnl(s, ev) == CashOf(ev) + LotValue(Step(s, ev).lots) - LotValue(s.lots) + Value(Dropped(s, ev))
    ensures LotQty(Step(s, ev).lots) == LotQty(s.lots) + QtyOf(ev) - Dropped(s, ev).qty
  {
    if ev.Fill? && ev.upd.qtyFilled > 0 {
      match ev.pick
      case Some(k) => CloseConserves(s, ev.upd, k);
      case None => OpenConserves(s, ev.upd);
    }
  }

  lemma CloseConserves(s: State, upd: OrderUpdate, k: int)
    requires k in s.lots && Opposite(upd.side, s.lots[k])
    ensures ClosePnl(upd, s.lots[k]) ==
            -Notional(upd.price, Signed(upd)) + LotValue(s.lots - {k}) - LotValue(s.lots)
            + Value(Lot(s.lots[k].entry, s.lots[k].qty + Signed(upd)))
    ensures LotQty(s.lots - {k}) == LotQty(s.lots) - s.lots[k].qty
  {
    LotValueWithout(s.lots, k);
    LotQtyWithout(s.lots, k);
    CloseArithmetic(upd, s.lots[k]);
  }

  lemma OpenConserves(s: State, upd: OrderUpdate)
    ensures var id := upd.transactionId;
            var lots' := s.lots[id := Lot(upd.price, Signed(upd))];
            var lost := if id in s.lots then s.lots[id] else Lot(0.0, 0);
            && LotValue(lots') == LotValue(s.lots) + Notional(upd.price, Signed(upd)) - Value(lost)
            && LotQty(lots') == LotQty(s.lots) + Signed(upd) - lost.qty
  {
    var id := upd.transactionId;
    LotSumsWith(s.lots, id, Lot(upd.price, Signed(upd)));
    if id in s.lots {
      LotValueWithout(s.lots, id);
      LotQtyWithout(s.lots, id);
    } else {
      assert s.lots - {id} == s.lots;
    }
  }

  lemma CloseArithmetic(upd: OrderUpdate, lot: Lot)
    requires Opposite(upd.side, lot)
    ensures ClosePnl(upd, lot) ==
            -Notional(upd.price, Signed(upd)) - Value(lot) + Value(Lot(lot.entry, lot.qty + Signed(upd)))
  {
    var p, e, f, l := upd.price, lot.entry, Signed(upd) as real, lot.qty as real;
    assert (lot.qty + Signed(upd)) as real == l + f;
    assert e * (l + f) == e * l + e * f;
    assert ClosePnl(upd, lot) == -((p - e) * f);
    assert (p - e) * f == p * f - e * f;
  }

  /** A fill keeps the open quantity in step exactly when it covers the lot it
      closes, or opens under an id that is not in use. */
  lemma NothingDroppedExactly(s: State, ev: Event)
    requires Allowed(s, ev) && OneSided(s.lots) && ev.Fill? && ev.upd.qtyFilled > 0
    ensures LotQty(Step(s, ev).lots) == LotQty(s.lots) + QtyOf(ev) <==>
            match ev.pick
            case Some(k) => ev.upd.qtyFilled == (if s.lots[k].qty > 0 then s.lots[k].qty else -s.lots[k].qty)
            case None => ev.upd.transactionId !in s.lots
  {
    StepConserves(s, ev);
  }

  ghost function TotalPnl(s: State, run: seq<Event>): real
    requires CanRun(s, run)
    decreases |run|
  {
    if run == [] then 0.0 else Pnl(s, run[0]) + TotalPnl(Step(s, run[0]), run[1..])
  }

  function Cash(run: seq<Event>): real
  {
    if run == [] then 0.0 else CashOf(run[0]) + Cash(run[1..])
  }

  function NetQty(run: seq<Event>): int
  {
    if run == [] then 0 else QtyOf(run[0]) + NetQty(run[1..])
  }

  ghost function DroppedValue(s: State, run: seq<Event>): real
    requires CanRun(s, run)
    decreases |run|
  {
    if run == [] then 0.0 else Value(Dropped(s, run[0])) + DroppedValue(Step(s, run[0]), run[1..])
  }

  ghost function DroppedQty(s: State, run: seq<Event>): int
    requires CanRun(s, run)
    decreases |run|
  {
    if run == [] then 0 else Dropped(s, run[0]).qty + DroppedQty(Step(s, run[0]), run[1..])
  }

  /** Over every run, whichever lots are picked: realised profit is net cash
      plus the entry value of the open lots plus all that was dropped, and the
      open quantity is the net of all fills less the quantity dropped. */
  lemma {:induction false} MoneyIsConserved(s: State, run: seq<Event>)
    requires CanRun(s, run) && OneSided(s.lots)
    ensures TotalPnl(s, run) == Cash(run) + LotValue(Run(s, run).lots) - LotValue(s.lots) + DroppedValue(s, run)
    ensures LotQty(Run(s, run).lots) == LotQty(s.lots) + NetQty(run) - DroppedQty(s, run)
    decreases |run|
  {
    if run != [] {
      StepConserves(s, run[0]);
      LotsStayOneSided(s, [run[0]]);
      assert Run(s, [run[0]]) == Step(s, run[0]);
      MoneyIsConserved(Step(s, run[0]), run[1..]);
    }
  }

  /** Fills all of one size, each opening fill under an id not in use. */
  ghost predicate EqualFreshFills(s: State, run: seq<Event>, size: nat)
    requires CanRun(s, run)
    decreases |run|
  {
    run != [] ==>
      && (run[0].Fill? && run[0].upd.qtyFilled > 0 ==>
            run[0].upd.qtyFilled == size && (run[0].pick.None? ==> run[0].upd.transactionId !in s.lots))
      && EqualFreshFills(Step(s, run[0]), run[1..], size)
  }

  lemma {:induction false} EqualFillsDropNothing(s: State, run: seq<Event>, size: nat)
    requires CanRun(s, run) && EqualFreshFills(s, run, size)
    requires forall k | k in s.lots :: s.lots[k].qty == size || s.lots[k].qty + size == 0
    ensures DroppedValue(s, run) == 0.0 && DroppedQty(s, run) == 0
    decreases |run|
  {
    if run != [] {
      EqualFillsDropNothing(Step(s, run[0]), run[1..], size);
    }
  }

  /** Hence with equal-sized fills and fresh ids, from a fresh start, money and
      quantity are conserved exactly. */
  lemma EqualFillsConserve(run: seq<Event>, size: nat)
    requires CanRun(INITIAL, run) && EqualFreshFills(INITIAL, run, size)
    ensures TotalPnl(INITIAL, run) == Cash(run) + LotValue(Run(INITIAL, run).lots)
    ensures LotQty(Run(INITIAL, run).lots) == NetQty(run)
  {
    MoneyIsConserved(INITIAL, run);
    EqualFillsDropNothing(INITIAL, run, size);
  }

  /** A buy of 2 closed by a sale of 1: one lot is dropped at its entry price. */
  lemma PartialCloseDropsALot(buy: OrderUpdate, sale: OrderUpdate)
    requires buy.side == Buy && buy.qtyFilled == 2 && sale.side == Sell && sale.qtyFilled == 1
    ensures var run := [Fill(buy, None), Fill(sale, Some(buy.transactionId))];
            && CanRun(INITIAL, run)
            && LotQty(Run(INITIAL, run).lots) == 0 && NetQty(run) == 1
  {
    var a, b := Fill(buy, None), Fill(sale, Some(buy.transactionId));
    var run := [a, b];
    var s := Step(INITIAL, a);
    assert run[1..] == [b] && [b][1..] == [];
    assert CanRun(s, [b]);
    assert Step(s, b).lots.Keys == {} && Run(s, [b]) == Step(s, b);
    assert NetQty([b]) == -1;
  }

  /** Fills reported at price zero leave profit, and so the daily-loss and
      drawdown figures, untouched for ever. */
  lemma {:induction false} ZeroPricedFillsRealiseNothing(s: State, run: seq<Event>)
    requires CanRun(s, run) && forall k | k in s.lots :: s.lots[k].entry == 0.0
    requires forall i | 0 <= i < |run| :: run[i].Fill? && (run[i].upd.qtyFilled > 0 ==> run[i].upd.price == 0.0)
    ensures Run(s, run).account == s.account && TotalPnl(s, run) == 0.0
    ensures forall k | k in Run(s, run).lots :: Run(s, run).lots[k].entry == 0.0
    decreases |run|
  {
    if run != [] {
      var ev := run[0];
      assert ev.Fill? && (ev.upd.qtyFilled > 0 ==> ev.upd.price == 0.0);
      assert Pnl(s, ev) == 0.0;
      ZeroPricedFillsRealiseNothing(Step(s, ev), run[1..]);
    }
  }
}

/** The risk manager: its state under the lock, and the checks of an order. */
module RiskManager {
  import opened Common
  import opened Calendar
  import opened Contract
  import opened RiskLedger

  datatype Config = Config(
    perTradePct: real, maxDailyLossPct: real, maxDrawdownPct: real, maxPositions: int, rolloverDays: int)

  type Verdict = Result<()>

  const PASS: Verdict := Ok(())

  function CheckDailyLoss(cfg: Config, a: Account): Verdict
  {
    if a.liquid < 1.0 then PASS
    else if -a.dailyPnl / a.liquid * 100.0 >= cfg.maxDailyLossPct
    then Err(Error(DailyLossLimitHit, "daily loss limit hit"))
    else PASS
  }

  function CheckDrawdown(cfg: Config, a: Account, peak: real): Verdict
  {
    if peak < 1.0 then PASS
    else if (peak - a.liquid) / peak * 100.0 >= cfg.maxDrawdownPct
    then Err(Error(RiskLimitExceeded, "max drawdown exceeded"))
    else PASS
  }

  function CheckPositionCount(cfg: Config, a: Account): Verdict
  {
    if a.openPositions >= cfg.maxPositions as real then Err(Error(RiskLimitExceeded, "max positions reached")) else PASS
  }

  /** `margin` is the exchange's answer; without one the check is skipped. */
  function CheckMargin(cfg: Config, a: Account, req: OrderRequest, margin: Option<real>): Verdict
  {
    match margin
    case None => PASS
    case Some(m) =>
      var required := m * req.quantity as real;
      if required > a.freeMargin then Err(Error(InsufficientMargin, "insufficient margin"))
      else if a.liquid > 1.0 && required > a.liquid * cfg.perTradePct / 100.0
      then Err(Error(RiskLimitExceeded, "per-trade margin limit exceeded"))
      else PASS
  }

  function Find(s: string, c: char): Option<nat>
  {
    if s == "" then None
    else if s[0] == c then Some(0)
    else match Find(s[1..], c)
      case None => None
      case Some(i) => Some(i + 1)
  }

  /** The text between the first '-' and the first '.', or all the rest if the dot
      comes first. */
  function MonthText(code: string): string
    requires Find(code, '-').Some? && Find(code, '.').Some?
  {
    var dash, dot := Find(code, '-').value, Find(code, '.').value;
    var tail := if dash + 1 <= |code| then code[dash + 1..] else "";
    var len := dot - dash - 1;     // negative wraps to "all the rest"
    if 0 <= len <= |tail| then tail[..len] else tail
  }

  function YearText(code: string): string
    requires Find(code, '.').Some?
  {
    var dot := Find(code, '.').value;
    if dot + 1 <= |code| then code[dot + 1..] else ""
  }

  /** `toInt` stands for the decimal parser, None where it throws. */
  function CheckExpiry(cfg: Config, sym: Symbol, today: Date, toInt: string -> Option<int>): Verdict
  {
    var ed := ExpiryDay(sym.code);
    if ed == 0 || Find(sym.code, '-').None? || Find(sym.code, '.').None? then PASS
    else
      match (toInt(MonthText(sym.code)), toInt(YearText(sym.code)))
      case (Some(month), Some(yy)) =>
        var year := 2000 + yy;
        if today.year > year || (today.year == year && today.month > month)
        then Err(Error(RiskLimitExceeded, "contract expired: " + sym.code + "@" + sym.board))
        else if today.year == year && today.month == month && today.day >= ed - cfg.rolloverDays
        then Err(Error(RiskLimitExceeded, "rollover window: switch to next contract"))
        else PASS
      case _ => PASS
  }

  /** Limits met, without division: the loss stays under the allowed share of
      the liquid value, the drop from the peak under the allowed share of it. */
  lemma LimitsAreExact(cfg: Config, a: Account, peak: real)
    ensures CheckDailyLoss(cfg, a).Ok? <==> a.liquid < 1.0 || -a.dailyPnl * 100.0 < cfg.maxDailyLossPct * a.liquid
    ensures CheckDrawdown(cfg, a, peak).Ok? <==> peak < 1.0 || (peak - a.liquid) * 100.0 < cfg.maxDrawdownPct * peak
  {
    if a.liquid >= 1.0 {
      DivisionBound(-a.dailyPnl, a.liquid, cfg.maxDailyLossPct);
    }
    if peak >= 1.0 {
      DivisionBound(peak - a.liquid, peak, cfg.maxDrawdownPct);
    }
  }

  lemma DivisionBound(x: real, d: real, limit: real)
    requires d > 0.0
    ensures x / d * 100.0 >= limit <==> x * 100.0 >= limit * d
  {
    var q := x / d;
    assert x == q * d;
    assert x * 100.0 - limit * d == (q * 100.0 - limit) * d;
  }

  lemma {:induction false} FindMissing(s: string, c: char)
    requires c !in s
    ensures Find(s, c) == None
  {
    if s != "" {
      FindMissing(s[1..], c);
    }
  }

  lemma {:induction false} FindPresent(s: string, c: char)
    requires c in s
    ensures Find(s, c).Some?
  {
    if s[0] != c {
      FindPresent(s[1..], c);
    }
  }

  /** The code names a month and a year in the old format, as the parser reads it. */
  predicate ReadsAsOldFormat(code: string, toInt: string -> Option<int>)
  {
    && Find(code, '-').Some? && Find(code, '.').Some?
    && toInt(MonthText(code)).Some? && toInt(YearText(code)).Some?
  }

  lemma GeneratedCodeHasExpiry(ticker: string, c: Contract)
    requires IsQuarterly(c.month) && c.year >= 0
    ensures ExpiryDay(ticker + Code(c)) != 0
    ensures forall ch | ch == '-' || ch == '.' :: Find(ticker + Code(c), ch).Some? <==> ch in ticker
  {
    var code := ticker + Code(c);
    assert code[|code| - 1] == Digit(c.year % 10) && code[|code| - 2] == QuarterLetter(c.month);
    assert Code(c) == [QuarterLetter(c.month)] + [Digit(c.year % 10)];
    forall ch | ch == '-' || ch == '.'
      ensures Find(code, ch).Some? <==> ch in ticker
    {
      if ch in ticker {
        FindPresent(code, ch);
      } else {
        FindMissing(code, ch);
      }
    }
  }

  /** The expiry check reads the old symbol format: it lets a generated symbol
      pass on every date, even inside the rollover window or after expiry,
      exactly when the symbol does not happen to read as the old format. */
  lemma SymbolAlwaysPassesExactly(cfg: Config, ticker: string, c: Contract, toInt: string -> Option<int>)
    requires IsQuarterly(c.month) && c.year >= 0
    ensures (forall today: Date :: CheckExpiry(cfg, Symbol(ticker + Code(c), "RTSX"), today, toInt) == PASS)
            <==> !ReadsAsOldFormat(ticker + Code(c), toInt)
  {
    var sym := Symbol(ticker + Code(c), "RTSX");
    GeneratedCodeHasExpiry(ticker, c);
    if ReadsAsOldFormat(sym.code, toInt) {
      var today := Date(2001 + toInt(YearText(sym.code)).value, 1, 1);
      assert CheckExpiry(cfg, sym, today, toInt).Err?;
    }
  }

  lemma {:induction false} FindSkips(a: string, c: char, b: string)
    requires c !in a
    ensures Find(a + [c] + b, c) == Some(|a|)
  {
    if a != "" {
      assert (a + [c] + b)[1..] == a[1..] + [c] + b;
      FindSkips(a[1..], c, b);
    }
  }

  /** The texts of a symbol of the old format, ticker-month.year, are its month and its
      year. */
  lemma OldFormatReads(ticker: string, month: string, year: string)
    requires '-' !in ticker && '.' !in ticker && '.' !in month
    ensures var code := ticker + "-" + month + "." + year;
            && Find(code, '-').Some? && Find(code, '.').Some? && MonthText(code) == month && YearText(code) == year
  {
    var code := ticker + "-" + month + "." + year;
    assert code == ticker + ['-'] + (month + "." + year);
    assert code == (ticker + "-" + month) + ['.'] + year;
    FindSkips(ticker, '-', month + "." + year);
    FindSkips(ticker + "-" + month, '.', year);
    assert code[|ticker| + 1..] == month + "." + year;
    assert (month + "." + year)[..|month|] == month;
    assert code[|ticker| + 1 + |month| + 1..] == year;
  }

  /** The check refuses a symbol on some date exactly when its last but one character is
      a month letter and it reads as the old format all the same. */
  lemma ExpiryRefusesExactly(cfg: Config, sym: Symbol, toInt: string -> Option<int>)
    ensures (exists today: Date :: CheckExpiry(cfg, sym, today, toInt).Err?) <==>
            |sym.code| >= 2 && sym.code[|sym.code| - 2] in "HMUZ" && ReadsAsOldFormat(sym.code, toInt)
  {
    if ExpiryDay(sym.code) != 0 && ReadsAsOldFormat(sym.code, toInt) {
      var today := Date(2001 + toInt(YearText(sym.code)).value, 1, 1);
      assert CheckExpiry(cfg, sym, today, toInt).Err?;
    }
  }

  /** So a symbol of the old format with a two-digit year is never refused either. */
  lemma OldFormatIsNeverRefused(cfg: Config, sym: Symbol, prefix: string, tens: char, ones: char, today: Date,
                                toInt: string -> Option<int>)
    requires sym.code == prefix + "." + [tens, ones] && '0' <= tens <= '9'
    ensures CheckExpiry(cfg, sym, today, toInt) == PASS
  {
    assert sym.code[|sym.code| - 2] == tens;
  }

  /** So whatever the parser it always passes exactly when its ticker lacks '-'
      or lacks '.'. */
  lemma GeneratedSymbolsPassExpiryExactly(cfg: Config, ticker: string, c: Contract)
    requires IsQuarterly(c.month) && c.year >= 0
    ensures (forall today: Date, toInt: string -> Option<int> ::
               CheckExpiry(cfg, Symbol(ticker + Code(c), "RTSX"), today, toInt) == PASS)
            <==> '-' !in ticker || '.' !in ticker
  {
    var sym := Symbol(ticker + Code(c), "RTSX");
    GeneratedCodeHasExpiry(ticker, c);
    if '-' in ticker && '.' in ticker {
      var toInt := (s: string) => Some(1);
      SymbolAlwaysPassesExactly(cfg, ticker, c, toInt);
      var today: Date :| CheckExpiry(cfg, sym, today, toInt) != PASS;
    }
  }

  /** Errors that trip the breaker. */
  predicate IsLimit(e: Error)
  {
    e.code == DailyLossLimitHit || e.code == RiskLimitExceeded
  }

  // ---- The checks in account figures ----------------------------------------------------

  predicate LossWithin(cfg: Config, a: Account)
  {
    a.liquid >= 1.0 ==> -a.dailyPnl * 100.0 < cfg.maxDailyLossPct * a.liquid
  }

  predicate DropWithin(cfg: Config, a: Account, peak: real)
  {
    peak >= 1.0 ==> (peak - a.liquid) * 100.0 < cfg.maxDrawdownPct * peak
  }

  /** A symbol of the old format is tradable before its month, and in it up to so many
      days before the expiry day; any other always is. */
  predicate Tradable(cfg: Config, code: string, today: Date, toInt: string -> Option<int>)
  {
    ExpiryDay(code) != 0 && ReadsAsOldFormat(code, toInt) ==>
      var month, year := toInt(MonthText(code)).value, 2000 + toInt(YearText(code)).value;
      || today.year < year
      || (today.year == year && today.month < month)
      || (today.year == year && today.month == month && today.day < ExpiryDay(code) - cfg.rolloverDays)
  }

  /** The margin of an order is more than is free. */
  predicate MarginShort(a: Account, quantity: int, margin: Option<real>)
  {
    margin.Some? && margin.value * quantity as real > a.freeMargin
  }

  /** It is more than one trade may take of the liquid value. */
  predicate ShareExceeded(cfg: Config, a: Account, quantity: int, margin: Option<real>)
  {
    margin.Some? && a.liquid > 1.0 && margin.value * quantity as real * 100.0 > a.liquid * cfg.perTradePct
  }

  lemma MarginExactly(cfg: Config, a: Account, req: OrderRequest, margin: Option<real>)
    ensures CheckMargin(cfg, a, req, margin).Ok? <==>
            !MarginShort(a, req.quantity, margin) && !ShareExceeded(cfg, a, req.quantity, margin)
    ensures MarginShort(a, req.quantity, margin) ==> CheckMargin(cfg, a, req, margin).error.code == InsufficientMargin
    ensures !MarginShort(a, req.quantity, margin) && ShareExceeded(cfg, a, req.quantity, margin) ==>
              CheckMargin(cfg, a, req, margin).error.code == RiskLimitExceeded
  {
    if margin.Some? {
      var required, allowed := margin.value * req.quantity as real, a.liquid * cfg.perTradePct;
      assert required > allowed / 100.0 <==> required * 100.0 > allowed;
    }
  }

  lemma ExpiryExactly(cfg: Config, sym: Symbol, today: Date, toInt: string -> Option<int>)
    ensures CheckExpiry(cfg, sym, today, toInt).Ok? <==> Tradable(cfg, sym.code, today, toInt)
    ensures CheckExpiry(cfg, sym, today, toInt).Err? ==>
              CheckExpiry(cfg, sym, today, toInt).error.code == RiskLimitExceeded
  {
  }

  /** The first of two verdicts, unless it passes. */
  function Then(a: Verdict, b: Verdict): Verdict
  {
    if a.Err? then a else b
  }

  /** The first error of six verdicts decides. */
  lemma FirstError(a: Verdict, b: Verdict, c: Verdict, d: Verdict, e: Verdict, f: Verdict)
    ensures var v := Then(a, Then(b, Then(c, Then(d, Then(e, f)))));
            && (v.Ok? <==> a.Ok? && b.Ok? && c.Ok? && d.Ok? && e.Ok? && f.Ok?)
            && (v.Err? ==> v == if a.Err? then a else if b.Err? then b else if c.Err? then c
                                else if d.Err? then d else if e.Err? then e else f)
  {
  }

  class RiskManager {
    const cfg: Config
    var account: Account
    var peak: real
    var lots: map<int, Lot>
    var tripped: bool
    var tripReason: string
    ghost var history: seq<Event>

    ghost function Ledger(): State
      reads this
    {
      State(account, peak, lots)
    }

    ghost predicate Valid()
      reads this
    {
      CanRun(INITIAL, history) && Ledger() == Run(INITIAL, history)
    }

    constructor (c: Config)
      ensures Valid() && cfg == c && history == [] && !tripped
    {
      cfg := c;
      account, peak, lots := INITIAL.account, 0.0, map[];
      tripped, tripReason, history := false, "", [];
    }

    /** A reading of the account. */
    method RefreshAccount(a: Account)
      requires Valid()
      modifies this`account, this`peak, this`history
      ensures Valid() && history == old(history) + [Refresh(a)]
      ensures Ledger() == Step(old(Ledger()), Refresh(a))
    {
      RunAppend(INITIAL, history, Refresh(a));
      account := a;
      if a.liquid > peak {
        peak := a.liquid;
      }
      history := history + [Refresh(a)];
    }

    /** A fill closes some opposite lot, any one, or opens a lot of its own. */
    method OnFill(upd: OrderUpdate) returns (ghost pick: Option<int>)
      requires Valid()
      modifies this`account, this`peak, this`lots, this`history
      ensures Valid() && history == old(history) + [Fill(upd, pick)]
      ensures Allowed(old(Ledger()), Fill(upd, pick)) && Ledger() == Step(old(Ledger()), Fill(upd, pick))
    {
      pick := None;
      if upd.qtyFilled <= 0 {
        RunAppend(INITIAL, history, Fill(upd, None));
        history := history + [Fill(upd, None)];
        return;
      }
      var isBuy := upd.side == Buy;
      if k :| k in lots && ((isBuy && lots[k].qty < 0) || (!isBuy && lots[k].qty > 0)) {
        pick := Some(k);
        RunAppend(INITIAL, history, Fill(upd, pick));
        var lot := lots[k];
        var pnl := ClosePnl(upd, lot);
        account := account.(dailyPnl := account.dailyPnl + pnl, liquid := account.liquid + pnl);
        if account.liquid > peak {
          peak := account.liquid;
        }
        lots := lots - {k};
      } else {
        RunAppend(INITIAL, history, Fill(upd, None));
        lots := lots[upd.transactionId := Lot(upd.price, if isBuy then upd.qtyFilled else -upd.qtyFilled)];
      }
      history := history + [Fill(upd, pick)];
    }

    static lemma {:induction false} RunAppend(s: State, run: seq<Event>, ev: Event)
      requires CanRun(s, run) && Allowed(Run(s, run), ev)
      ensures CanRun(s, run + [ev]) && Run(s, run + [ev]) == Step(Run(s, run), ev)
      decreases |run|
    {
      if run == [] {
        assert [ev][1..] == [];
      } else {
        RunAppend(Step(s, run[0]), run[1..], ev);
        assert (run + [ev])[1..] == run[1..] + [ev];
      }
    }

    /** The first of the six verdicts that is an error, if any. */
    function Decision(req: OrderRequest, margin: Option<real>, today: Date, toInt: string -> Option<int>): Verdict
      reads this
    {
      Then(if tripped then Err(Error(RiskLimitExceeded, "circuit breaker tripped: " + tripReason)) else PASS,
      Then(CheckDailyLoss(cfg, account),
      Then(CheckDrawdown(cfg, account, peak),
      Then(CheckPositionCount(cfg, account),
      Then(CheckExpiry(cfg, req.symbol, today, toInt),
           CheckMargin(cfg, account, req, margin))))))
    }

    /** Everything but the order's margin allows it. */
    predicate LimitsHold(code: string, today: Date, toInt: string -> Option<int>)
      reads this
    {
      && !tripped && LossWithin(cfg, account) && DropWithin(cfg, account, peak)
      && account.openPositions < cfg.maxPositions as real && Tradable(cfg, code, today, toInt)
    }

    predicate Admits(code: string, quantity: int, margin: Option<real>, today: Date, toInt: string -> Option<int>)
      reads this
    {
      && LimitsHold(code, today, toInt)
      && !MarginShort(account, quantity, margin) && !ShareExceeded(cfg, account, quantity, margin)
    }

    /** Only an order that everything else allows is refused for want of free margin. */
    function RefusalCode(code: string, quantity: int, margin: Option<real>,
                         today: Date, toInt: string -> Option<int>): ErrorCode
      reads this
    {
      if !tripped && !LossWithin(cfg, account) then DailyLossLimitHit
      else if LimitsHold(code, today, toInt) && MarginShort(account, quantity, margin) then InsufficientMargin
      else RiskLimitExceeded
    }

    lemma DecisionExactly(req: OrderRequest, margin: Option<real>, today: Date, toInt: string -> Option<int>)
      ensures var v := Decision(req, margin, today, toInt);
              && (v.Ok? <==> Admits(req.symbol.code, req.quantity, margin, today, toInt))
              && (v.Err? ==> v.error.code == RefusalCode(req.symbol.code, req.quantity, margin, today, toInt))
    {
      LimitsAreExact(cfg, account, peak);
      ExpiryExactly(cfg, req.symbol, today, toInt);
      MarginExactly(cfg, account, req, margin);
      var breaker := if tripped then Err(Error(RiskLimitExceeded, "circuit breaker tripped: " + tripReason)) else PASS;
      FirstError(breaker, CheckDailyLoss(cfg, account), CheckDrawdown(cfg, account, peak),
                 CheckPositionCount(cfg, account), CheckExpiry(cfg, req.symbol, today, toInt),
                 CheckMargin(cfg, account, req, margin));
    }

    /** All six checks in order; the first error wins and nothing changes. */
    method Check(req: OrderRequest, margin: Option<real>, today: Date, toInt: string -> Option<int>)
      returns (r: Verdict)
      ensures r == Decision(req, margin, today, toInt)
      ensures r.Ok? <==>
              && !tripped
              && (account.liquid >= 1.0 ==> -account.dailyPnl * 100.0 < cfg.maxDailyLossPct * account.liquid)
              && (peak >= 1.0 ==> (peak - account.liquid) * 100.0 < cfg.maxDrawdownPct * peak)
              && account.openPositions < cfg.maxPositions as real
              && Tradable(cfg, req.symbol.code, today, toInt)
              && (margin.Some? ==>
                    && margin.value * req.quantity as real <= account.freeMargin
                    && (account.liquid > 1.0 ==>
                          margin.value * req.quantity as real * 100.0 <= account.liquid * cfg.perTradePct))
      ensures r.Err? ==> r.error.code == RefusalCode(req.symbol.code, req.quantity, margin, today, toInt)
      ensures tripped ==> r.Err? && r.error.code == RiskLimitExceeded
    {
      DecisionExactly(req, margin, today, toInt);
      var breaker := if tripped then Err(Error(RiskLimitExceeded, "circuit breaker tripped: " + tripReason)) else PASS;
      var v1, v2 := CheckDailyLoss(cfg, account), CheckDrawdown(cfg, account, peak);
      var v3 := CheckPositionCount(cfg, account);
      var v4, v5 := CheckExpiry(cfg, req.symbol, today, toInt), CheckMargin(cfg, account, req, margin);
      if breaker.Err? { return breaker; }
      if v1.Err? { return v1; }
      if v2.Err? { return v2; }
      if v3.Err? { return v3; }
      if v4.Err? { return v4; }
      return v5;
    }

    /** Only the first trip takes effect. */
    method TripCircuitBreaker(reason: string)
      modifies this`tripped, this`tripReason
      ensures tripped && tripReason == if old(tripped) then old(tripReason) else reason
    {
      var was := tripped;
      tripped := true;
      if was {
        return;
      }
      tripReason := reason;
    }
  }
}
