/** Once-a-day session resets, driven by event timestamps. */
module SessionClock {
  import opened Common

  datatype Opening = Opening(isOpen: bool, reset: bool)

  /** One reading of the minute of day against the session's opening minute. */
  function OpenStep(open: int, wasOpen: bool, minute: int): Opening
  {
    var reset := !wasOpen && open <= minute < open + 5;
    Opening(if minute < open then false else wasOpen || reset, reset)
  }

  /** Whether the session counts as opened after some readings. */
  function OpenedAfter(open: int, stamps: seq<int>, n: nat): bool
    requires n <= |stamps|
  {
    if n == 0 then false else OpenStep(open, OpenedAfter(open, stamps, n - 1), UtcMinute(stamps[n - 1])).isOpen
  }

  /** Reading i resets the session. */
  predicate ResetAt(open: int, stamps: seq<int>, i: nat)
    requires i < |stamps|
  {
    OpenStep(open, OpenedAfter(open, stamps, i), UtcMinute(stamps[i])).reset
  }

  /** The minute of day as the strategy takes it: truncate to seconds, take the
      remainder of the day, truncate to minutes. */
  function MinuteThroughSeconds(ts: int): int
  {
    if ts >= 0 then ts / SECOND % 86400 / 60 else -(-ts / SECOND % 86400 / 60)
  }

  lemma MinuteFromSeconds(ts: int)
    ensures MinuteThroughSeconds(ts) == UtcMinute(ts)
  {
    var n := if ts >= 0 then ts else -ts;
    var t, m := n / SECOND, n / MINUTE;
    assert m == t / 60;
    var d := t / 86400;
    assert m / 1440 == d;
    assert t % 86400 == t - 86400 * d && m % 1440 == m - 1440 * d;
  }

  /** Number of the UTC day. */
  function UtcDay(ts: int): int
  {
    ts / MINUTE / 1440
  }

  lemma MinutesAscendInADay(a: int, b: int)
    requires 0 <= a <= b
    ensures UtcDay(a) == UtcDay(b) ==> UtcMinute(a) <= UtcMinute(b)
  {
    assert a / MINUTE <= b / MINUTE;
  }

  lemma DaysAscend(a: int, b: int)
    requires 0 <= a <= b
    ensures UtcDay(a) <= UtcDay(b)
  {
    assert a / MINUTE <= b / MINUTE;
  }

  /** With timestamps after the epoch in order, two resets fall on different
      UTC days, the later one on a later day: the reading just before the second
      reset either came before the opening minute or after the opening period. */
  lemma ResetsOncePerDay(open: int, stamps: seq<int>, i: nat, j: nat)
    requires i < j < |stamps| && ResetAt(open, stamps, i) && ResetAt(open, stamps, j)
    requires forall a | 0 <= a < |stamps| :: stamps[a] >= 0
    requires forall a, b | 0 <= a < b < |stamps| :: stamps[a] <= stamps[b]
    ensures UtcDay(stamps[i]) < UtcDay(stamps[j])
  {
    assert OpenedAfter(open, stamps, i + 1) && i + 1 < j;
    DaysAscend(stamps[i], stamps[j - 1]);
    DaysAscend(stamps[j - 1], stamps[j]);
    MinutesAscendInADay(stamps[i], stamps[j - 1]);
    MinutesAscendInADay(stamps[j - 1], stamps[j]);
  }

  /** Reading j resets the session and no later reading up to n comes before the
      opening minute. */
  ghost predicate StillOpenSince(open: int, stamps: seq<int>, j: nat, n: nat)
    requires j < n <= |stamps|
  {
    ResetAt(open, stamps, j) && forall k | j < k < n :: UtcMinute(stamps[k]) >= open
  }

  /** The session counts as opened exactly when some reset has not been followed
      by a reading before the opening minute. */
  lemma {:induction false} OpenedExactly(open: int, stamps: seq<int>, n: nat)
    requires n <= |stamps|
    ensures OpenedAfter(open, stamps, n) <==> exists j: nat :: j < n && StillOpenSince(open, stamps, j, n)
  {
    if n > 0 {
      OpenedExactly(open, stamps, n - 1);
      if OpenedAfter(open, stamps, n) {
        if ResetAt(open, stamps, n - 1) {
          assert StillOpenSince(open, stamps, n - 1, n);
        } else {
          var j: nat :| j < n - 1 && StillOpenSince(open, stamps, j, n - 1);
          assert StillOpenSince(open, stamps, j, n);
        }
      }
      if j: nat :| j < n && StillOpenSince(open, stamps, j, n) {
        assert j < n - 1 ==> StillOpenSince(open, stamps, j, n - 1);
      }
    }
  }

  predicate InOpening(open: int, ts: int)
  {
    open <= UtcMinute(ts) < open + 5
  }

  /** A reading resets the session exactly when it falls in the five opening
      minutes and every earlier reset has since been followed by a reading
      before the opening minute. */
  lemma ResetAtExactly(open: int, stamps: seq<int>, i: nat)
    requires i < |stamps|
    ensures ResetAt(open, stamps, i) <==>
            InOpening(open, stamps[i]) && forall j: nat | j < i :: !StillOpenSince(open, stamps, j, i)
  {
    OpenedExactly(open, stamps, i);
  }

  /** Reading i is the first of its UTC day in the opening minutes. */
  ghost predicate FirstInOpening(open: int, stamps: seq<int>, i: nat)
    requires i < |stamps|
  {
    InOpening(open, stamps[i])
    && forall k | 0 <= k < i && InOpening(open, stamps[k]) :: UtcDay(stamps[k]) != UtcDay(stamps[i])
  }

  /** With timestamps after the epoch in order, a day that has a reading in the
      opening minutes is reset at all exactly when every earlier reset was
      followed, before the first such reading, by one before the opening minute;
      a day without such a reading is never reset. */
  lemma DayIsResetExactly(open: int, stamps: seq<int>, i: nat)
    requires i < |stamps| && FirstInOpening(open, stamps, i)
    requires forall a | 0 <= a < |stamps| :: stamps[a] >= 0
    requires forall a, b | 0 <= a < b < |stamps| :: stamps[a] <= stamps[b]
    ensures (exists m: nat :: m < |stamps| && UtcDay(stamps[m]) == UtcDay(stamps[i]) && ResetAt(open, stamps, m))
            <==> forall j: nat | j < i :: !StillOpenSince(open, stamps, j, i)
  {
    ResetAtExactly(open, stamps, i);
    if m: nat :| m < |stamps| && UtcDay(stamps[m]) == UtcDay(stamps[i]) && ResetAt(open, stamps, m) {
      if m > i {
        OpeningStaysOpen(open, stamps, i, m);
      }
    }
  }

  /** From a reading in the opening minutes on, the rest of its day counts as
      opened. */
  lemma {:induction false} OpeningStaysOpen(open: int, stamps: seq<int>, i: nat, m: nat)
    requires i < m <= |stamps| && InOpening(open, stamps[i])
    requires forall a | 0 <= a < |stamps| :: stamps[a] >= 0
    requires forall a, b | 0 <= a < b < |stamps| :: stamps[a] <= stamps[b]
    requires UtcDay(stamps[m - 1]) == UtcDay(stamps[i])
    ensures OpenedAfter(open, stamps, m)
  {
    if m - 1 > i {
      DaysAscend(stamps[i], stamps[m - 2]);
      DaysAscend(stamps[m - 2], stamps[m - 1]);
      OpeningStaysOpen(open, stamps, i, m - 1);
      MinutesAscendInADay(stamps[i], stamps[m - 1]);
    }
  }

  /** For example a second day whose first reading is at the opening minute. */
  lemma QuietMorningSkipsReset(open: int, day1: int, day2: int)
    requires 0 <= open && UtcMinute(day1) == open && UtcMinute(day2) == open
    ensures ResetAt(open, [day1, day2], 0) && !ResetAt(open, [day1, day2], 1)
  {
    var stamps := [day1, day2];
    assert OpenedAfter(open, stamps, 0) == false;
    assert OpenedAfter(open, stamps, 1) == true;
  }
}

/** The strategy's own fields against the history of entries, order updates and
    session readings. */
module ConfluenceState {
  import opened Common
  import opened SessionClock
  import Ob = OrderBookState
  import Sc = SessionContext

  const COOLDOWN := 5 * SECOND

  // ---- Cool-down --------------------------------------------------------------------

  /** Entry times of one session: each at least five seconds after the one
      before, the first after five seconds of epoch time. */
  ghost predicate Spaced(entries: seq<int>, last: int)
  {
    && last == (if entries == [] then 0 else entries[|entries| - 1])
    && (forall i | 0 <= i < |entries| :: entries[i] >= COOLDOWN)
    && (forall i, j | 0 <= i < j < |entries| :: entries[i] + COOLDOWN <= entries[j])
  }

  lemma SpacedStep(entries: seq<int>, last: int, ts: int)
    requires Spaced(entries, last) && ts - last >= COOLDOWN
    ensures Spaced(entries + [ts], ts)
  {
    forall i, j | 0 <= i < j < |entries + [ts]|
      ensures (entries + [ts])[i] + COOLDOWN <= (entries + [ts])[j]
    {
      if j == |entries| && i < |entries| - 1 {
        assert entries[i] + COOLDOWN <= entries[|entries| - 1];
      }
    }
  }

  // ---- Position -----------------------------------------------------------------------

  /** What the strategy's position depends on: order updates, and the resets of a
      session opening or a rollover. */
  datatype PositionEvent = Updated(upd: OrderUpdate) | SessionReset

  /** The position the strategy keeps. */
  function Kept(events: seq<PositionEvent>): int
  {
    if events == [] then 0
    else
      var p := events[..|events| - 1];
      match events[|events| - 1]
      case SessionReset => 0
      case Updated(u) => Kept(p) + if u.status == Filled then Signed(u) else 0
  }

  /** What was executed: every delta reported, whatever its status. */
  function Executed(events: seq<PositionEvent>): int
  {
    if events == [] then 0
    else
      var p := events[..|events| - 1];
      match events[|events| - 1]
      case SessionReset => Executed(p)
      case Updated(u) => Executed(p) + Signed(u)
  }

  ghost predicate PositionRight(events: seq<PositionEvent>)
  {
    Kept(events) == Executed(events)
  }

  /** The last event loses nothing: an update not reported as filled carries no
      quantity, and a reset comes while nothing is held. */
  predicate LosesNothing(events: seq<PositionEvent>)
  {
    events != [] ==>
      match events[|events| - 1]
      case SessionReset => Executed(events[..|events| - 1]) == 0
      case Updated(u) => u.status == Filled || u.qtyFilled == 0
  }

  ghost predicate AlwaysRight(events: seq<PositionEvent>)
  {
    forall n | 0 <= n <= |events| :: PositionRight(events[..n])
  }

  ghost predicate NeverLoses(events: seq<PositionEvent>)
  {
    forall n | 0 <= n <= |events| :: LosesNothing(events[..n])
  }

  lemma PrefixSteps(p: seq<PositionEvent>, e: PositionEvent)
    ensures AlwaysRight(p + [e]) <==> AlwaysRight(p) && PositionRight(p + [e])
    ensures NeverLoses(p + [e]) <==> NeverLoses(p) && LosesNothing(p + [e])
  {
    var right, lossless := (s: seq<PositionEvent>) => PositionRight(s), (s: seq<PositionEvent>) => LosesNothing(s);
    HoldsOnPrefixes(right, p, e);
    HoldsOnPrefixes(lossless, p, e);
    assert AlwaysRight(p + [e]) <==> forall n | 0 <= n <= |p| + 1 :: right((p + [e])[..n]);
    assert AlwaysRight(p) <==> forall n | 0 <= n <= |p| :: right(p[..n]);
    assert NeverLoses(p + [e]) <==> forall n | 0 <= n <= |p| + 1 :: lossless((p + [e])[..n]);
    assert NeverLoses(p) <==> forall n | 0 <= n <= |p| :: lossless(p[..n]);
  }

  /** The kept position is what was executed after every event exactly when every
      update other than a complete fill has quantity zero and every reset comes at
      an executed position of zero. */
  lemma {:induction false} PositionRightExactly(events: seq<PositionEvent>)
    ensures AlwaysRight(events) <==> NeverLoses(events)
    ensures AlwaysRight(events) ==> PositionRight(events)
  {
    if events != [] {
      var p, e := events[..|events| - 1], events[|events| - 1];
      assert events == p + [e];
      PositionRightExactly(p);
      PrefixSteps(p, e);
    }
  }

  // ---- The strategy's own state --------------------------------------------------------------

  datatype Own = Own(
    position: int, entryPrice: real, bid: real, ask: real, mid: real,
    openedToday: bool, lastSignalTs: int)

  /** Entry times since the session reset, every order update and reset, and every
      timestamp checked against the session opening. */
  datatype Past = Past(entries: seq<int>, events: seq<PositionEvent>, readings: seq<int>)

  const FRESH_OWN := Own(0, 0.0, 0.0, 0.0, 0.0, false, 0)

  /** No update since the last reset had a price. */
  predicate Unpriced(events: seq<PositionEvent>)
  {
    events != [] && events[|events| - 1].Updated? ==>
      events[|events| - 1].upd.price == 0.0 && Unpriced(events[..|events| - 1])
  }

  ghost predicate OwnTracks(open: int, st: Own, past: Past)
  {
    && Spaced(past.entries, st.lastSignalTs)
    && st.position == Kept(past.events)
    && (Unpriced(past.events) ==> st.entryPrice == 0.0)
    && st.openedToday == OpenedAfter(open, past.readings, |past.readings|)
  }

  lemma UpdateKeepsOwn(open: int, st: Own, past: Past, upd: OrderUpdate)
    requires OwnTracks(open, st, past)
    ensures var filled := upd.status == Filled;
            var entry := if filled && st.position == 0 then upd.price else st.entryPrice;
            var moved := if filled then Signed(upd) else 0;
            OwnTracks(open, st.(entryPrice := entry, position := st.position + moved),
                      past.(events := past.events + [Updated(upd)]))
  {
    var all := past.events + [Updated(upd)];
    assert all[..|past.events|] == past.events && all[|past.events|] == Updated(upd);
  }

  /** An entry past the cool-down. */
  lemma EntryKeepsOwn(open: int, st: Own, past: Past, ts: int)
    requires OwnTracks(open, st, past) && ts - st.lastSignalTs >= COOLDOWN
    ensures OwnTracks(open, st.(lastSignalTs := ts), past.(entries := past.entries + [ts]))
  {
    SpacedStep(past.entries, st.lastSignalTs, ts);
  }

  /** One more reading of the session clock, followed by the reset it calls for. */
  lemma ReadingKeepsOwn(open: int, st: Own, past: Past, ts: int)
    requires OwnTracks(open, st, past)
    ensures var o := OpenStep(open, st.openedToday, UtcMinute(ts));
            var st' := st.(openedToday := o.isOpen);
            var past' := past.(readings := past.readings + [ts]);
            && o.reset == ResetAt(open, past'.readings, |past.readings|)
            && OwnTracks(open, st', past')
            && OwnTracks(open, st'.(position := 0, entryPrice := 0.0, lastSignalTs := 0),
                         past'.(entries := [], events := past.events + [SessionReset]))
  {
    assert (past.events + [SessionReset])[|past.events|] == SessionReset;
    ReadingStep(open, past.readings, ts);
  }

  lemma ReadingStep(open: int, readings: seq<int>, ts: int)
    ensures OpenedAfter(open, readings + [ts], |readings| + 1)
            == OpenStep(open, OpenedAfter(open, readings, |readings|), UtcMinute(ts)).isOpen
    ensures ResetAt(open, readings + [ts], |readings|)
            == OpenStep(open, OpenedAfter(open, readings, |readings|), UtcMinute(ts)).reset
  {
    OpenedPrefix(open, readings, ts, |readings|);
  }

  lemma {:induction false} OpenedPrefix(open: int, readings: seq<int>, ts: int, n: nat)
    requires n <= |readings|
    ensures OpenedAfter(open, readings + [ts], n) == OpenedAfter(open, readings, n)
  {
    if n > 0 {
      OpenedPrefix(open, readings, ts, n - 1);
    }
  }

  /** The parts do not share arrays. */
  ghost predicate Apart(book: Ob.OrderBookState, session: Sc.SessionContext)
  {
    session.dailyRanges != book.weights && session.dailyRanges != book.levelScores
  }
}

/** The entry machine that composes book, flow, spoof filter and session. */
module Confluence {
  import opened Common
  import opened SessionClock
  import opened ConfluenceState
  import Ob = OrderBookState
  import Tf = TradeFlow
  import Sf = SpoofFilter
  import Sc = SessionContext

  datatype Config = Config(symbol: Symbol, baseQty: int, slTicks: real, tpTicks: real, tickSize: Positive)

  datatype Quote = Quote(symbol: Symbol, bid: real, ask: real, ts: int)

  datatype Timeframe = Daily | Intraday | Unknown

  function DetectTimeframe(tf: string): Timeframe
  {
    if tf == "D1" || tf == "W1" then Daily else if tf == "" then Unknown else Intraday
  }

  // ---- What a history feeds ------------------------------------------------------------

  predicate Own(symbol: Symbol, bar: Bar, frame: Timeframe)
  {
    bar.symbol == symbol && DetectTimeframe(bar.timeframe) == frame
  }

  /** The ranges of a symbol's daily bars. */
  function OwnRanges(symbol: Symbol, bars: seq<Bar>): seq<real>
  {
    if bars == [] then []
    else
      var p, b := OwnRanges(symbol, bars[..|bars| - 1]), bars[|bars| - 1];
      if Own(symbol, b, Daily) then p + [b.high - b.low] else p
  }

  /** The timestamps of a symbol's intraday bars. */
  function OwnReadings(symbol: Symbol, bars: seq<Bar>): seq<int>
  {
    if bars == [] then []
    else
      var p, b := OwnReadings(symbol, bars[..|bars| - 1]), bars[|bars| - 1];
      if Own(symbol, b, Intraday) then p + [b.ts] else p
  }

  predicate Foreign(symbol: Symbol, bars: seq<Bar>)
  {
    forall i | 0 <= i < |bars| :: bars[i].symbol != symbol
  }

  lemma OwnStep(symbol: Symbol, bars: seq<Bar>, bar: Bar)
    ensures OwnRanges(symbol, bars + [bar]) ==
            OwnRanges(symbol, bars) + if Own(symbol, bar, Daily) then [bar.high - bar.low] else []
    ensures OwnReadings(symbol, bars + [bar]) ==
            OwnReadings(symbol, bars) + if Own(symbol, bar, Intraday) then [bar.ts] else []
    ensures Foreign(symbol, bars + [bar]) <==> Foreign(symbol, bars) && bar.symbol != symbol
  {
    var all := bars + [bar];
    assert all[..|bars|] == bars && all[|bars|] == bar;
    assert forall i | 0 <= i < |bars| :: all[i] == bars[i];
  }

  /** What bars feed: the strategy's past, and the session's ranges, window and closing. */
  datatype Fed = Fed(past: Past, ranges: seq<real>, window: seq<Bar>, closing: Option<(real, real)>)

  /** What some bars have made of what was fed before. */
  ghost predicate Loaded(symbol: Symbol, was: Fed, bars: seq<Bar>, now: Fed)
  {
    && now.ranges == was.ranges + OwnRanges(symbol, bars)
    && now.past.readings == was.past.readings + OwnReadings(symbol, bars)
    && (Foreign(symbol, bars) ==> now == was)
  }

  lemma LoadedNone(symbol: Symbol, was: Fed, bars: seq<Bar>)
    ensures Loaded(symbol, was, bars[..0], was)
  {
  }

  lemma OneMore(bars: seq<Bar>, n: nat)
    requires n < |bars|
    ensures bars[..n + 1] == bars[..n] + [bars[n]]
  {
  }

  lemma LoadedStep(symbol: Symbol, was: Fed, bars: seq<Bar>, bar: Bar, before: Fed, now: Fed)
    requires Loaded(symbol, was, bars, before)
    requires now.ranges == if Own(symbol, bar, Daily) then before.ranges + [bar.high - bar.low] else before.ranges
    requires now.past.readings ==
             if Own(symbol, bar, Intraday) then before.past.readings + [bar.ts] else before.past.readings
    requires bar.symbol != symbol ==> now == before
    ensures Loaded(symbol, was, bars + [bar], now)
  {
    OwnStep(symbol, bars, bar);
  }

  /** A daily history of one contract is taken in whole exactly by a strategy made for
      that contract, and not at all by any other. */
  lemma {:induction false} HistoryIsTakenExactly(own: Symbol, next: Symbol, bars: seq<Bar>)
    requires forall i | 0 <= i < |bars| :: bars[i].symbol == next && bars[i].timeframe == "D1"
    ensures |OwnRanges(own, bars)| == if own == next then |bars| else 0
    ensures OwnReadings(own, bars) == []
  {
    if bars != [] {
      assert bars[|bars| - 1].timeframe == "D1";
      HistoryIsTakenExactly(own, next, bars[..|bars| - 1]);
    }
  }

  // ---- Exits ---------------------------------------------------------------------------

  /** Ticks gained at a price by a position opened at `entry`. */
  function GainTicks(position: int, entry: real, price: real, tick: real): real
    requires tick != 0.0
  {
    if position > 0 then (price - entry) / tick else (entry - price) / tick
  }

  /** The exit rule without division: the loss or gain, in money, against the
      stop and the target, or both votes against the position. */
  predicate ExitDue(cfg: Config, position: int, entry: real, price: real, confluence: int)
  {
    var gain := if position > 0 then price - entry else entry - price;
    || gain < -(cfg.slTicks * cfg.tickSize)
    || gain > cfg.tpTicks * cfg.tickSize
    || (position > 0 && confluence == -2)
    || (position < 0 && confluence == 2)
  }

  /** The same in prices: beyond the stop or the target on the position's side, or both
      votes the other way; so never within both without such a reversal. */
  lemma ExitInPrices(cfg: Config, position: int, entry: real, price: real, confluence: int)
    requires position != 0
    ensures var stop, target := Times(cfg.slTicks, cfg.tickSize), Times(cfg.tpTicks, cfg.tickSize);
            ExitDue(cfg, position, entry, price, confluence) <==>
            if position > 0 then price < entry - stop || price > entry + target || confluence == -2
            else price > entry + stop || price < entry - target || confluence == 2
  {
  }

  lemma GainBounds(gain: real, tick: real, sl: real, tp: real)
    requires tick > 0.0
    ensures gain / tick < -sl <==> gain < -(sl * tick)
    ensures gain / tick > tp <==> gain > tp * tick
  {
    var q := gain / tick;
    assert q * tick == gain;
    assert (q + sl) * tick == gain + sl * tick;
    assert (q - tp) * tick == gain - tp * tick;
  }

  // ---- Large orders seen in the book ------------------------------------------------------

  /** Large size appearing is an add, large size vanishing a cancel; bid first. */
  function LargeAdds(large: real, e: BookLevelEvent): seq<Sf.Event>
  {
    var add := Sf.Add(Sf.RoundPrice(e.price), e.ts);
    (if e.newBid - e.oldBid > large then [add] else [])
    + (if e.newAsk - e.oldAsk > large then [add] else [])
  }

  function LargeCancels(large: real, e: BookLevelEvent): seq<Sf.Event>
  {
    var cancel := Sf.Cancel(Sf.RoundPrice(e.price), e.ts);
    (if e.oldBid > large && e.newBid < TINY then [cancel] else [])
    + (if e.oldAsk > large && e.newAsk < TINY then [cancel] else [])
  }

  /** The change undone. */
  function Undone(e: BookLevelEvent): BookLevelEvent
  {
    e.(oldBid := e.newBid, newBid := e.oldBid, oldAsk := e.newAsk, newAsk := e.oldAsk)
  }

  function Often<T>(n: nat, x: T): seq<T>
  {
    seq(n, _ => x)
  }

  /** Sizes that appear from nothing are one add for each side above the limit and no
      cancel; the same sizes vanishing are as many cancels and no add. */
  lemma AppearingAndVanishing(large: real, e: BookLevelEvent)
    requires large >= 0.0 && e.oldBid == 0.0 && e.oldAsk == 0.0 && e.newBid >= 0.0 && e.newAsk >= 0.0
    ensures var n := (if e.newBid > large then 1 else 0) + (if e.newAsk > large then 1 else 0);
            && LargeAdds(large, e) == Often(n, Sf.Add(Sf.RoundPrice(e.price), e.ts)) && LargeCancels(large, e) == []
            && LargeCancels(large, Undone(e)) == Often(n, Sf.Cancel(Sf.RoundPrice(e.price), e.ts))
            && LargeAdds(large, Undone(e)) == []
  {
  }

  /** There is no cancel exactly when on each side the size stays or was not above the
      limit, and no add exactly when neither side grows beyond it. */
  lemma NothingLargeExactly(large: real, e: BookLevelEvent)
    ensures (e.newBid >= TINY || e.oldBid <= large) && (e.newAsk >= TINY || e.oldAsk <= large)
            <==> LargeCancels(large, e) == []
    ensures e.newBid <= e.oldBid + large && e.newAsk <= e.oldAsk + large <==> LargeAdds(large, e) == []
  {
  }

  // ---- Entry size ------------------------------------------------------------------------

  /** Full size after a narrow-range day, half size without its fraction otherwise. */
  function EntryQty(baseQty: int, narrow: bool): int
  {
    if narrow then baseQty else if baseQty >= 0 then baseQty / 2 else -(-baseQty / 2)
  }

  /** All of the base size after a narrow-range day, otherwise half of it, rounded
      towards zero. */
  predicate HalfUnlessNarrow(quantity: int, baseQty: int, narrow: bool)
  {
    && (narrow ==> quantity == baseQty)
    && (!narrow && baseQty >= 0 ==> 2 * quantity <= baseQty < 2 * quantity + 2)
    && (!narrow && baseQty < 0 ==> 2 * quantity - 2 < baseQty <= 2 * quantity)
  }

  lemma EntryQtyIsHalf(baseQty: int, narrow: bool)
    ensures HalfUnlessNarrow(EntryQty(baseQty, narrow), baseQty, narrow)
  {
  }

  class ConfluenceStrategy {
    const cfg: Config
    const book: Ob.OrderBookState
    const flow: Tf.TradeFlowAnalyzer
    const spoof: Sf.SpoofFilter
    const session: Sc.SessionContext
    var st: Own
    ghost var past: Past

    ghost predicate PartsValid()
      reads book, book.weights, book.levelScores, flow, spoof, session, session.dailyRanges
    {
      && Apart(book, session)
      && book.Valid() && flow.Valid() && spoof.Valid() && session.Valid()
      && Sc.AllRepresentable(session.window)
    }

    ghost predicate Valid()
      reads this, book, book.weights, book.levelScores, flow, spoof, session, session.dailyRanges
    {
      PartsValid() && OwnTracks(session.cfg.openMinute, st, past)
    }

    constructor (c: Config, ob: Ob.Config, tf: Tf.Config, sf: Sf.Config, sc: Sc.Config)
      requires ob.levelRatio > 0.0 && sc.atrPeriod >= 1
      ensures Valid() && cfg == c && st == FRESH_OWN && past == Past([], [], [])
      ensures book.cfg == ob && flow.cfg == tf && spoof.cfg == sf && session.cfg == sc
    {
      cfg := c;
      book := new Ob.OrderBookState(ob);
      flow := new Tf.TradeFlowAnalyzer(tf);
      spoof := new Sf.SpoofFilter(sf);
      session := new Sc.SessionContext(sc);
      st, past := FRESH_OWN, Past([], [], []);
    }

    // ---- Entry -------------------------------------------------------------------------

    /** Everything a long entry rests on, in terms of what was observed. */
    ghost predicate LongJustified()
      reads book, book.levelScores, flow, session
    {
      && (exists k :: 0 <= k < book.levelScores.Length && book.levelScores[k] > book.cfg.threshold)
      && Tf.Normalized(flow.window) > flow.cfg.threshold
      && session.closing.Some?
      && Sc.SomeBarSeen(session.window)
      && Sc.WideEnough(session.cfg, session.window, session.closing.value.0)
      && Sc.AboveAll(session.window, session.closing.value.1)
    }

    ghost predicate ShortJustified()
      reads book, book.levelScores, flow, session
    {
      && (exists k :: 0 <= k < book.levelScores.Length && book.levelScores[k] < -book.cfg.threshold)
      && Tf.Normalized(flow.window) < -flow.cfg.threshold
      && session.closing.Some?
      && Sc.SomeBarSeen(session.window)
      && Sc.WideEnough(session.cfg, session.window, session.closing.value.0)
      && Sc.BelowAll(session.window, session.closing.value.1)
    }

    ghost predicate Spoofed(price: real, now: int)
      reads spoof
    {
      var f := Sf.Run(spoof.cfg, spoof.history).flagged;
      Sf.RoundPrice(price) in f && now - f[Sf.RoundPrice(price)] < spoof.cfg.flagTtl
    }

    /** What an entry signal, if any, guarantees. */
    ghost predicate EntrySafe(sig: Option<Signal>, ts: int)
      reads this, book, book.levelScores, flow, spoof, session
    {
      sig.Some? ==>
        && st.position == 0
        && sig.value.symbol == cfg.symbol && sig.value.kind == Market && sig.value.price == 0.0
        && HalfUnlessNarrow(sig.value.quantity, cfg.baseQty, session.daily.nr7)
        && (sig.value.direction == GoLong || sig.value.direction == GoShort)
        && (sig.value.direction == GoLong ==> LongJustified())
        && (sig.value.direction == GoShort ==> ShortJustified())
        && !Spoofed(st.bid, ts) && !Spoofed(st.ask, ts)
    }

    /** An entry only when flat, past the cool-down, with both votes and the bias
        agreeing and neither side of the market flagged. */
    method TryEnter(ts: int) returns (sig: Option<Signal>)
      requires Valid()
      modifies this`st, this`past
      ensures Valid() && EntrySafe(sig, ts)
      ensures sig.Some? <==> EntryDue(old(st).lastSignalTs, ts)
      ensures st == old(st).(lastSignalTs := st.lastSignalTs)
      ensures past == if sig.Some? then old(past).(entries := old(past).entries + [ts]) else old(past)
    {
      var due, isLong := Decide(ts);
      if !due {
        return None;
      }
      EntryKeepsOwn(session.cfg.openMinute, st, past, ts);
      st := st.(lastSignalTs := ts);
      past := past.(entries := past.entries + [ts]);
      EntryQtyIsHalf(cfg.baseQty, session.daily.nr7);
      return Some(BuildEntry(isLong));
    }

    /** The conditions of try_enter, in its order. */
    method Decide(ts: int) returns (due: bool, isLong: bool)
      requires Valid()
      ensures due <==> EntryDue(st.lastSignalTs, ts)
      ensures due ==> if isLong then LongJustified() else ShortJustified()
    {
      due, isLong := false, false;
      var ready := st.position == 0 && session.orb.finalized && session.orb.bias != Sc.NoBias;
      if ready && ts - st.lastSignalTs >= COOLDOWN {
        var confluence;
        confluence, isLong := StrongVote();
        var agrees := if isLong then session.orb.bias == Sc.BiasLong else session.orb.bias == Sc.BiasShort;
        if (confluence == 2 || confluence == -2) && agrees {
          var bidSpoofed := spoof.IsSpoofed(st.bid, ts);
          var askSpoofed := spoof.IsSpoofed(st.ask, ts);
          due := !bidSpoofed && !askSpoofed;
          BiasIsJustified();
        }
      }
    }

    /** The five conditions of an entry: flat and past the cool-down since the
        last one, range closed with a bias, both votes on its side, and neither
        side flagged. */
    ghost predicate EntryDue(last: int, ts: int)
      reads this, book, flow, spoof, session
    {
      var b, f := VoteOf(book.score, book.cfg.threshold), Tf.VoteOn(flow.window, flow.cfg.threshold);
      && st.position == 0 && ts - last >= COOLDOWN
      && session.orb.finalized
      && ((b == Long && f == Long && session.orb.bias == Sc.BiasLong)
          || (b == Short && f == Short && session.orb.bias == Sc.BiasShort))
      && !Spoofed(st.bid, ts) && !Spoofed(st.ask, ts)
    }

    /** What a long entry takes, from what was observed: flat, five seconds since the last
        entry, the range closed above every bar of a wide enough opening window, book
        score and flow above their thresholds, neither side flagged. */
    ghost predicate LongDue(last: int, ts: int)
      reads this, book, flow, spoof, session
    {
      && st.position == 0 && ts - last >= 5_000_000_000
      && session.closing.Some? && Sc.SomeBarSeen(session.window)
      && Sc.WideEnough(session.cfg, session.window, session.closing.value.0)
      && Sc.AboveAll(session.window, session.closing.value.1)
      && book.score > book.cfg.threshold && Tf.Normalized(flow.window) > flow.cfg.threshold
      && !Spoofed(st.bid, ts) && !Spoofed(st.ask, ts)
    }

    /** The mirror image, for thresholds that are not negative. */
    ghost predicate ShortDue(last: int, ts: int)
      reads this, book, flow, spoof, session
    {
      && st.position == 0 && ts - last >= 5_000_000_000
      && session.closing.Some? && Sc.SomeBarSeen(session.window)
      && Sc.WideEnough(session.cfg, session.window, session.closing.value.0)
      && !Sc.AboveAll(session.window, session.closing.value.1)
      && Sc.BelowAll(session.window, session.closing.value.1)
      && book.score < -book.cfg.threshold && Tf.Normalized(flow.window) < -flow.cfg.threshold
      && !Spoofed(st.bid, ts) && !Spoofed(st.ask, ts)
    }

    /** For such thresholds an entry is due exactly when a long or a short one is, never
        both. */
    lemma EntryDueExactly(last: int, ts: int)
      requires PartsValid() && book.cfg.threshold >= 0.0 && flow.cfg.threshold >= 0.0
      ensures EntryDue(last, ts) <==> LongDue(last, ts) || ShortDue(last, ts)
      ensures LongDue(last, ts) ==> !ShortDue(last, ts)
    {
      if session.closing.Some? {
        Sc.BreakoutExactly(session.cfg, session.window, session.closing.value.0, session.closing.value.1);
      }
    }

    function BuildEntry(isLong: bool): Signal
      reads session
    {
      Signal(cfg.symbol, if isLong then GoLong else GoShort, Market, 0.0, EntryQty(cfg.baseQty, session.daily.nr7))
    }

    lemma BiasIsJustified()
      requires PartsValid() && session.orb.finalized
      ensures session.closing.Some?
      ensures session.orb.bias == Sc.BiasLong ==>
                Sc.SomeBarSeen(session.window) && Sc.WideEnough(session.cfg, session.window, session.closing.value.0)
                && Sc.AboveAll(session.window, session.closing.value.1)
      ensures session.orb.bias == Sc.BiasShort ==>
                Sc.SomeBarSeen(session.window) && Sc.WideEnough(session.cfg, session.window, session.closing.value.0)
                && Sc.BelowAll(session.window, session.closing.value.1)
    {
      Sc.BreakoutExactly(session.cfg, session.window, session.closing.value.0, session.closing.value.1);
    }

    /** Both votes added up. */
    ghost function Votes(): int
      reads book, flow
    {
      VoteValue(VoteOf(book.score, book.cfg.threshold)) + VoteValue(Tf.VoteOn(flow.window, flow.cfg.threshold))
    }

    /** The sum of both votes; a strong one has a book level and the trade flow
        beyond their thresholds on the same side. */
    method StrongVote() returns (confluence: int, isLong: bool)
      requires PartsValid()
      ensures isLong == (confluence > 0)
      ensures confluence == Votes()
      ensures confluence == 2 ==>
                && (exists k :: 0 <= k < book.levelScores.Length && book.levelScores[k] > book.cfg.threshold)
                && Tf.Normalized(flow.window) > flow.cfg.threshold
      ensures confluence == -2 ==>
                && (exists k :: 0 <= k < book.levelScores.Length && book.levelScores[k] < -book.cfg.threshold)
                && Tf.Normalized(flow.window) < -flow.cfg.threshold
    {
      var b := book.CurrentVote();
      var f := flow.CurrentVote();
      confluence := VoteValue(b) + VoteValue(f);
      isLong := confluence > 0;
    }

    /** A priced position meets the exit rule at a price. */
    ghost predicate ExitNow(price: real)
      reads this, book, flow
    {
      st.position != 0 && st.entryPrice >= TINY && ExitDue(cfg, st.position, st.entryPrice, price, Votes())
    }

    // ---- Events --------------------------------------------------------------------------

    method OnBookEvent(e: BookLevelEvent) returns (sig: Option<Signal>)
      requires Valid()
      modifies this`st, this`past, book, book.levelScores, spoof
      ensures Valid() && EntrySafe(sig, e.ts)
      ensures sig.Some? <==> EntryDue(old(st).lastSignalTs, e.ts)
      ensures past.entries == if sig.Some? then old(past).entries + [e.ts] else old(past).entries
      ensures book.history ==
              if 0 <= e.level < BOOK_LEVELS then old(book.history) + [Ob.Event(e)] else old(book.history)
      ensures spoof.history ==
              old(spoof.history) + LargeAdds(spoof.cfg.minLargeQty, e) + LargeCancels(spoof.cfg.minLargeQty, e)
    {
      UpdateSpoofOnBook(e);
      var r := book.OnBookEvent(e);
      sig := TryEnter(e.ts);
    }

    method UpdateSpoofOnBook(e: BookLevelEvent)
      requires spoof.Valid()
      modifies spoof
      ensures spoof.Valid()
      ensures spoof.history ==
              old(spoof.history) + LargeAdds(spoof.cfg.minLargeQty, e) + LargeCancels(spoof.cfg.minLargeQty, e)
    {
      NoteAdds(e);
      NoteCancels(e);
    }

    method NoteAdds(e: BookLevelEvent)
      requires spoof.Valid()
      modifies spoof
      ensures spoof.Valid() && spoof.history == old(spoof.history) + LargeAdds(spoof.cfg.minLargeQty, e)
    {
      var addedBid := e.newBid - e.oldBid;
      var addedAsk := e.newAsk - e.oldAsk;
      if addedBid > spoof.cfg.minLargeQty {
        spoof.OnLargeAdd(e.price, e.ts);
      }
      if addedAsk > spoof.cfg.minLargeQty {
        spoof.OnLargeAdd(e.price, e.ts);
      }
    }

    method NoteCancels(e: BookLevelEvent)
      requires spoof.Valid()
      modifies spoof
      ensures spoof.Valid() && spoof.history == old(spoof.history) + LargeCancels(spoof.cfg.minLargeQty, e)
    {
      if e.oldBid > spoof.cfg.minLargeQty && e.newBid < TINY {
        spoof.OnLargeCancel(e.price, e.ts);
      }
      if e.oldAsk > spoof.cfg.minLargeQty && e.newAsk < TINY {
        spoof.OnLargeCancel(e.price, e.ts);
      }
    }

    /** The part of on_trade_event before the entry rule. */
    method NoteTrade(e: Tf.Trade)
      requires PartsValid()
      modifies flow
      ensures PartsValid() && flow.session == old(flow.session) + [e]
    {
      var r := flow.OnTrade(e);
    }

    method OnTradeEvent(e: Tf.Trade) returns (sig: Option<Signal>)
      requires Valid()
      modifies this`st, this`past, flow
      ensures Valid() && EntrySafe(sig, e.ts)
      ensures sig.Some? <==> EntryDue(old(st).lastSignalTs, e.ts)
      ensures past.entries == if sig.Some? then old(past).entries + [e.ts] else old(past).entries
      ensures flow.session == old(flow.session) + [e]
    {
      st := st.(mid := e.price);
      NoteTrade(e);
      sig := TryEnter(e.ts);
    }

    method UpdateBbo(bid: real, ask: real)
      requires Valid()
      modifies this`st
      ensures Valid() && st == old(st).(bid := bid, ask := ask, mid := (bid + ask) * 0.5)
    {
      st := st.(bid := bid, ask := ask, mid := (bid + ask) * 0.5);
    }

    /** The position is what was executed as long as no update or reset lost any. */
    lemma PositionIsExecuted()
      requires Valid() && NeverLoses(past.events)
      ensures st.position == Executed(past.events)
    {
      PositionRightExactly(past.events);
    }

    /** Only completed orders move the position. */
    method OnOrderUpdate(upd: OrderUpdate)
      requires Valid()
      modifies this`st, this`past
      ensures Valid() && past == old(past).(events := old(past).events + [Updated(upd)])
      ensures st.position == old(st).position + if upd.status != Filled then 0
                                                else if upd.side == Buy then upd.qtyFilled else -upd.qtyFilled
      ensures st.entryPrice == if upd.status == Filled && old(st).position == 0 then upd.price else old(st).entryPrice
    {
      UpdateKeepsOwn(session.cfg.openMinute, st, past, upd);
      if upd.status == Filled {
        if st.position == 0 {
          st := st.(entryPrice := upd.price);
        }
        st := st.(position := st.position + Signed(upd));
      }
      past := past.(events := past.events + [Updated(upd)]);
    }

    // ---- Session -------------------------------------------------------------------------

    /** Every part forgets the session; only daily history, recent volumes, the
        last quote and the opened flag survive. */
    method OnSessionOpen()
      requires PartsValid()
      modifies this`st, this`past, book, book.levelScores, flow, spoof, session`orb, session`window, session`closing
      ensures PartsValid()
      ensures st == old(st).(position := 0, entryPrice := 0.0, lastSignalTs := 0)
      ensures past == old(past).(entries := [], events := old(past).events + [SessionReset])
      ensures old(Valid()) ==> Valid()
      ensures session.window == [] && session.closing == None && session.daily == old(session.daily)
      ensures flow.session == [] && book.history == [] && spoof.history == []
    {
      session.SessionReset();
      flow.SessionReset();
      spoof.SessionReset();
      book.Reset();
      st := st.(position := 0, entryPrice := 0.0, lastSignalTs := 0);
      past := past.(entries := [], events := past.events + [SessionReset]);
    }

    method HandleSessionOpen(ts: int)
      requires Valid()
      modifies this`st, this`past, book, book.levelScores, flow, spoof, session`orb, session`window, session`closing
      ensures Valid() && past.readings == old(past).readings + [ts]
      ensures session.daily == old(session.daily)
      ensures if ResetAt(session.cfg.openMinute, past.readings, |past.readings| - 1)
              then past.entries == [] && past.events == old(past).events + [SessionReset]
                   && session.window == [] && session.closing == None
                   && flow.session == [] && book.history == [] && spoof.history == []
              else past.entries == old(past).entries && past.events == old(past).events
                   && session.window == old(session.window) && session.closing == old(session.closing)
                   && flow.session == old(flow.session) && book.history == old(book.history)
                   && spoof.history == old(spoof.history)
                   && st == old(st).(openedToday := st.openedToday)
    {
      MinuteFromSeconds(ts);
      var minute := MinuteThroughSeconds(ts);
      var open := session.cfg.openMinute;
      ReadingKeepsOwn(open, st, past, ts);
      if !st.openedToday && minute >= open && minute < open + 5 {
        st := st.(openedToday := true);
        OnSessionOpen();
      }
      if minute < open {
        st := st.(openedToday := false);
      }
      past := past.(readings := past.readings + [ts]);
    }

    /** The reading of a timestamp just made resets the session. */
    ghost predicate JustReset()
      requires past.readings != []
      reads this
    {
      ResetAt(session.cfg.openMinute, past.readings, |past.readings| - 1)
    }

    /** What the reading just made has left of a window and a closing, an intraday
        bar then extends or closes. */
    ghost predicate BarTaken(window: seq<Bar>, closing: Option<(real, real)>, bar: Bar)
      requires past.readings != []
      reads this, session
    {
      if JustReset() then FedTo([], None, bar) else FedTo(window, closing, bar)
    }

    /** The session is what a bar makes of a window and a closing. */
    ghost predicate FedTo(window: seq<Bar>, closing: Option<(real, real)>, bar: Bar)
      reads session
    {
      var m := UtcMinute(bar.ts);
      && session.window == (if session.Inside(closing.Some?, m) then window + [bar] else window)
      && session.closing == (if session.Closes(closing.Some?, m) then Some((session.daily.atr, bar.close)) else closing)
    }

    /** The part of on_bar after the session check. */
    method FeedIntraday(bar: Bar)
      requires PartsValid() && Sc.Representable(bar)
      modifies session`orb, session`window, session`closing
      ensures PartsValid() && FedTo(old(session.window), old(session.closing), bar)
    {
      session.OnIntradayBar(bar);
    }

    /** An intraday bar first may reset the session, then extends the window or
        closes the range of what is left. */
    method OnIntradayBar(bar: Bar)
      requires Valid() && Sc.Representable(bar)
      modifies this`st, this`past, book, book.levelScores, flow, spoof, session`orb, session`window, session`closing
      ensures Valid() && past.readings == old(past).readings + [bar.ts]
      ensures BarTaken(old(session.window), old(session.closing), bar)
    {
      HandleSessionOpen(bar.ts);
      FeedIntraday(bar);
    }

    /** Daily bars feed the ranges, other named timeframes the session. */
    method OnBar(bar: Bar)
      requires Valid() && Sc.Representable(bar)
      modifies this`st, this`past, book, book.levelScores, flow, spoof, session, session.dailyRanges
      ensures Valid()
      ensures session.ranges ==
              if bar.symbol == cfg.symbol && (bar.timeframe == "D1" || bar.timeframe == "W1")
              then old(session.ranges) + [bar.high - bar.low] else old(session.ranges)
      ensures past.readings ==
              if bar.symbol == cfg.symbol && bar.timeframe !in {"D1", "W1", ""}
              then old(past).readings + [bar.ts] else old(past).readings
      ensures if bar.symbol == cfg.symbol && bar.timeframe !in {"D1", "W1", ""}
              then BarTaken(old(session.window), old(session.closing), bar)
              else session.window == old(session.window) && session.closing == old(session.closing)
      ensures bar.symbol != cfg.symbol ==> past == old(past)
    {
      if bar.symbol != cfg.symbol {
        return;
      }
      match DetectTimeframe(bar.timeframe) {
        case Daily =>
          session.OnDailyBar(bar);
        case Intraday =>
          OnIntradayBar(bar);
        case Unknown =>
      }
    }

    /** What bars feed. */
    ghost function FedNow(): Fed
      reads this, session
    {
      Fed(past, session.ranges, session.window, session.closing)
    }

    /** One more bar of a history. */
    method LoadBar(bar: Bar, ghost bars: seq<Bar>, ghost was: Fed)
      requires Valid() && Sc.Representable(bar)
      requires Loaded(cfg.symbol, was, bars, FedNow())
      modifies this`st, this`past, book, book.levelScores, flow, spoof, session, session.dailyRanges
      ensures Valid() && Loaded(cfg.symbol, was, bars + [bar], FedNow())
    {
      ghost var before := FedNow();
      OnBar(bar);
      LoadedStep(cfg.symbol, was, bars, bar, before, FedNow());
    }

    /** The n-th bar of a history. */
    method LoadNth(history: seq<Bar>, n: nat, ghost was: Fed)
      requires n < |history| && Sc.Representable(history[n])
      requires Valid() && Loaded(cfg.symbol, was, history[..n], FedNow())
      modifies this`st, this`past, book, book.levelScores, flow, spoof, session, session.dailyRanges
      ensures Valid() && Loaded(cfg.symbol, was, history[..n + 1], FedNow())
    {
      OneMore(history, n);
      LoadBar(history[n], history[..n], was);
    }

    /** A history feeds the ranges of the strategy's own daily bars and the timestamps of
        its own intraday ones; that of another contract leaves the strategy as it was. */
    method LoadHistory(history: seq<Bar>)
      requires Valid() && Sc.AllRepresentable(history)
      modifies this`st, this`past, book, book.levelScores, flow, spoof, session, session.dailyRanges
      ensures Valid() && Loaded(cfg.symbol, old(FedNow()), history, FedNow())
    {
      ghost var was := FedNow();
      LoadedNone(cfg.symbol, was, history);
      for n := 0 to |history|
        invariant Valid() && Loaded(cfg.symbol, was, history[..n], FedNow())
      {
        LoadNth(history, n, was);
      }
      assert history[..|history|] == history;
    }

    /** A quote closes the opening range on its own, whatever the time, and may
        ask for an exit. */
    method OnQuote(q: Quote) returns (sig: Option<Signal>)
      requires Valid()
      modifies this`st, this`past, book, book.levelScores, flow, spoof, session`orb, session`window, session`closing
      ensures Valid()
      ensures past.readings == if q.symbol == cfg.symbol then old(past).readings + [q.ts] else old(past).readings
      ensures q.symbol != cfg.symbol ==> sig == None
      ensures q.symbol == cfg.symbol ==>
                var closing := if JustReset() then None else old(session.closing);
                session.closing == if closing.Some? then closing else Some((session.daily.atr, (q.bid + q.ask) * 0.5))
      ensures q.symbol == cfg.symbol ==>
                (sig.Some? <==> ExitNow((q.bid + q.ask) * 0.5))
      ensures sig.Some? ==> sig.value.direction == Close && st.position != 0
      ensures Unpriced(past.events) ==> sig == None
    {
      if q.symbol != cfg.symbol {
        return None;
      }
      sig := OnMid((q.bid + q.ask) * 0.5, q.ts);
    }

    /** on_quote for the strategy's own symbol. */
    method OnMid(mid: real, ts: int) returns (sig: Option<Signal>)
      requires Valid()
      modifies this`st, this`past, book, book.levelScores, flow, spoof, session`orb, session`window, session`closing
      ensures Valid() && past.readings == old(past).readings + [ts]
      ensures var closing := if JustReset() then None else old(session.closing);
              session.closing == if closing.Some? then closing else Some((session.daily.atr, mid))
      ensures sig.Some? <==> ExitNow(mid)
      ensures sig.Some? ==> sig.value.direction == Close
      ensures Unpriced(past.events) ==> sig == None
    {
      HandleSessionOpen(ts);
      sig := AtMid(mid);
    }

    /** The part of on_quote after the session check. */
    method AtMid(mid: real) returns (sig: Option<Signal>)
      requires Valid()
      modifies session`orb, session`closing
      ensures Valid()
      ensures session.closing ==
              if old(session.closing).Some? then old(session.closing) else Some((session.daily.atr, mid))
      ensures sig.Some? <==> ExitNow(mid)
      ensures sig.Some? ==> sig.value.direction == Close
      ensures Unpriced(past.events) ==> sig == None
    {
      sig := None;
      if !session.orb.finalized {
        session.FinalizeOrb(mid);
      }
      if st.position != 0 {
        sig := CheckExit(mid);
      }
    }

    /** A close signal exactly when a priced position meets the exit rule. */
    method CheckExit(price: real) returns (sig: Option<Signal>)
      requires Valid()
      ensures sig.Some? <==> ExitNow(price)
      ensures var stop, target := Times(cfg.slTicks, cfg.tickSize), Times(cfg.tpTicks, cfg.tickSize);
              sig.Some? <==>
              && st.position != 0 && st.entryPrice >= TINY
              && if st.position > 0 then price < st.entryPrice - stop || price > st.entryPrice + target || Votes() == -2
                 else price > st.entryPrice + stop || price < st.entryPrice - target || Votes() == 2
      ensures sig.Some? ==>
                && sig.value.symbol == cfg.symbol && sig.value.direction == Close && sig.value.kind == Market
                && sig.value.price == 0.0 && sig.value.quantity == if st.position < 0 then -st.position else st.position
    {
      if st.position == 0 || st.entryPrice < TINY {
        return None;
      }
      var close := Signal(cfg.symbol, Close, Market, 0.0, if st.position < 0 then -st.position else st.position);
      var gain := if st.position > 0 then price - st.entryPrice else st.entryPrice - price;
      ExitInPrices(cfg, st.position, st.entryPrice, price, Votes());
      GainBounds(gain, cfg.tickSize, cfg.slTicks, cfg.tpTicks);
      var pnlTicks := GainTicks(st.position, st.entryPrice, price, cfg.tickSize);
      var conf, _ := StrongVote();
      if pnlTicks < -cfg.slTicks {
        return Some(close);
      }
      if pnlTicks > cfg.tpTicks {
        return Some(close);
      }
      if (st.position > 0 && conf == -2) || (st.position < 0 && conf == 2) {
        return Some(close);
      }
      return None;
    }
  }
}
