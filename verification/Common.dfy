/** Types and small arithmetic shared by the models.  Prices, sizes and money
    are reals; timestamps are integer nanoseconds since the epoch. */
module Common {

  datatype Option<+T> = None | Some(value: T)

  datatype Vote = Long | Short | Neutral

  datatype Side = Buy | Sell

  datatype BookLevelEvent = BookLevelEvent(
    level: int, price: real,
    oldBid: real, newBid: real, oldAsk: real, newAsk: real,
    ts: int)

  datatype Symbol = Symbol(code: string, board: string)

  datatype OrderStatus = Pending | PartialFill | Filled | Cancelled | Rejected

  datatype OrderType = Market | Limit

  datatype OrderUpdate = OrderUpdate(
    transactionId: int, symbol: Symbol, side: Side, status: OrderStatus, kind: OrderType,
    price: real, qtyTotal: int, qtyFilled: int)

  /** Quantity bought, negative if sold. */
  function Signed(upd: OrderUpdate): int
  {
    if upd.side == Buy then upd.qtyFilled else -upd.qtyFilled
  }

  predicate IsFill(status: OrderStatus)
  {
    status == Filled || status == PartialFill
  }

  datatype OrderRequest = OrderRequest(
    clientId: string, symbol: Symbol, side: Side, kind: OrderType, price: real, quantity: int)

  datatype Bar = Bar(
    symbol: Symbol, timeframe: string,
    open: real, high: real, low: real, close: real, ts: int, date: string)

  datatype Direction = GoLong | GoShort | Close | Stay

  datatype Signal = Signal(symbol: Symbol, direction: Direction, kind: OrderType, price: real, quantity: int)

  datatype ErrorCode =
    | RpcError | InsufficientMargin | InvalidPrice | InvalidQuantity
    | RiskLimitExceeded | DailyLossLimitHit | InvalidArgument

  datatype Error = Error(code: ErrorCode, message: string)

  datatype Result<+T> = Ok(value: T) | Err(error: Error)

  const BOOK_LEVELS := 5
  const SECOND := 1_000_000_000
  const MINUTE := 60_000_000_000

  type Positive = r: real | r > 0.0 witness 1.0

  /** Prices, sizes and averages below this count as zero. */
  const TINY := 0.000000001

  /** The largest finite double, (2^53 - 1) * 2^971. */
  const DBL_MAX: real :=
    9007199254740991.0 * 37778931862957161709568.0
    * 340282366920938463463374607431768211456.0 * 340282366920938463463374607431768211456.0
    * 340282366920938463463374607431768211456.0 * 340282366920938463463374607431768211456.0
    * 340282366920938463463374607431768211456.0 * 340282366920938463463374607431768211456.0
    * 340282366920938463463374607431768211456.0

  /** Minute of the UTC day of a timestamp, by truncating divisions: the
      remainder keeps the sign of the timestamp. */
  function UtcMinute(ts: int): int
  {
    if ts >= 0 then ts / MINUTE % 1440 else -(-ts / MINUTE % 1440)
  }

  function Max(a: real, b: real): real
  {
    if a >= b then a else b
  }

  function Min(a: real, b: real): real
  {
    if a <= b then a else b
  }

  function Abs(a: real): real
  {
    if a < 0.0 then -a else a
  }

  /** A vote from a score and a threshold, as every voter takes it. */
  function VoteOf(score: real, threshold: real): Vote
  {
    if score > threshold then Long
    else if score < -threshold then Short
    else Neutral
  }

  function VoteValue(v: Vote): int
  {
    match v
    case Long => 1
    case Short => -1
    case Neutral => 0
  }

  function Sum(s: seq<real>): real
  {
    if s == [] then 0.0 else Sum(s[..|s| - 1]) + s[|s| - 1]
  }

  lemma PrefixesOfLonger<T>(p: seq<T>, x: T)
    ensures forall n | 0 <= n <= |p| :: (p + [x])[..n] == p[..n]
    ensures (p + [x])[..|p| + 1] == p + [x]
  {
  }

  lemma HoldsOnPrefixes<T>(good: seq<T> -> bool, p: seq<T>, x: T)
    ensures (forall n | 0 <= n <= |p| + 1 :: good((p + [x])[..n])) <==>
            (forall n | 0 <= n <= |p| :: good(p[..n])) && good(p + [x])
  {
    PrefixesOfLonger(p, x);
    if forall n | 0 <= n <= |p| + 1 :: good((p + [x])[..n]) {
      assert good((p + [x])[..|p| + 1]);
      forall n | 0 <= n <= |p|
        ensures good(p[..n])
      {
        assert good((p + [x])[..n]);
      }
    }
  }

  /** A product under a name of its own, so that proofs can rewrite it. */
  function Times(a: real, b: real): real
  {
    a * b
  }

  lemma TimesLaws(a: real, b: real, c: real)
    ensures Times(Times(a, b), c) == Times(a, Times(b, c))
    ensures Times(a + b, c) == Times(a, c) + Times(b, c)
    ensures Times(a, b) == Times(b, a)
    ensures Times(a, 1.0) == a && Times(a, 0.0) == 0.0
  {
  }

  lemma ProductSign(u: real, v: real)
    ensures u >= 0.0 && v >= 0.0 ==> Times(u, v) >= 0.0
    ensures v > 0.0 ==> (Times(u, v) >= 0.0 <==> u >= 0.0)
  {
  }

  function Pow(r: real, n: nat): real
  {
    if n == 0 then 1.0 else Times(r, Pow(r, n - 1))
  }

  lemma {:induction false} PowAdd(r: real, m: nat, n: nat)
    ensures Pow(r, m + n) == Times(Pow(r, m), Pow(r, n))
  {
    if m > 0 {
      PowAdd(r, m - 1, n);
      TimesLaws(r, Pow(r, m - 1), Pow(r, n));
    }
  }

  lemma {:induction false} PowPositive(r: real, n: nat)
    requires r > 0.0
    ensures Pow(r, n) > 0.0
  {
    if n > 0 {
      PowPositive(r, n - 1);
    }
  }

  lemma {:induction false} PowOfOne(n: nat)
    ensures Pow(1.0, n) == 1.0
  {
    if n > 0 {
      PowOfOne(n - 1);
    }
  }
}
