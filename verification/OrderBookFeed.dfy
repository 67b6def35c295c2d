/** Order-book rows folded into two price-sorted sides, the snapshot each
    message yields, and the level-by-level difference between snapshots. */
module OrderBookFeed {
  import opened Common

  /** One streamed row: a price, at most one of the two sizes counted, and
      whether the action is a removal. */
  datatype Row = Row(price: real, buySize: Option<real>, sellSize: Option<real>, remove: bool)

  datatype BookRow = BookRow(price: real, quantity: int)

  datatype Book = Book(bids: seq<BookRow>, asks: seq<BookRow>)

  datatype BookSide = Bids | Asks

  // ---- A side as an ordered map ----------------------------------------------

  /** Iteration order of a side: bids by falling price, asks by rising. */
  predicate Precedes(side: BookSide, p: real, q: real)
  {
    if side == Bids then p > q else p < q
  }

  ghost predicate Sorted(side: BookSide, rows: seq<BookRow>)
  {
    forall i, j | 0 <= i < j < |rows| :: Precedes(side, rows[i].price, rows[j].price)
  }

  function Put(side: BookSide, rows: seq<BookRow>, r: BookRow): seq<BookRow>
  {
    if rows == [] then [r]
    else if rows[0].price == r.price then [r] + rows[1..]
    else if Precedes(side, r.price, rows[0].price) then [r] + rows
    else [rows[0]] + Put(side, rows[1..], r)
  }

  function Erase(rows: seq<BookRow>, price: real): seq<BookRow>
  {
    if rows == [] then []
    else if rows[0].price == price then rows[1..]
    else [rows[0]] + Erase(rows[1..], price)
  }

  function Lookup(rows: seq<BookRow>, price: real): Option<int>
  {
    if rows == [] then None
    else if rows[0].price == price then Some(rows[0].quantity)
    else Lookup(rows[1..], price)
  }

  lemma {:induction false} LookupMissing(rows: seq<BookRow>, p: real)
    requires forall i | 0 <= i < |rows| :: rows[i].price != p
    ensures Lookup(rows, p) == None
  {
    if rows != [] {
      LookupMissing(rows[1..], p);
    }
  }

  /** Replacing a slice, seen from one element further to the left. */
  lemma OneToTheLeft<T>(s: seq<T>, m: seq<T>, d: nat, rest: nat)
    requires s != [] && d <= rest < |s|
    ensures [s[0]] + (s[1..][..d] + m + s[1..][rest..]) == s[..d + 1] + m + s[rest + 1..]
  {
    assert s[1..][..d] == s[1..d + 1] && s[1..][rest..] == s[rest + 1..];
    assert [s[0]] + s[1..d + 1] == s[..d + 1];
  }

  /** Storing puts the row at d, before all rows from there on or in place of one. */
  lemma {:induction false} PutPlaces(side: BookSide, rows: seq<BookRow>, r: BookRow) returns (d: nat, rest: nat)
    ensures d <= rest <= d + 1 && rest <= |rows| && Put(side, rows, r) == rows[..d] + [r] + rows[rest..]
    ensures forall i | 0 <= i < d :: Precedes(side, rows[i].price, r.price)
    ensures if rest == d then d < |rows| ==> Precedes(side, r.price, rows[d].price) else rows[d].price == r.price
  {
    d, rest := 0, 0;
    if rows != [] {
      if rows[0].price == r.price {
        rest := 1;
      } else if !Precedes(side, r.price, rows[0].price) {
        var d0, rest0 := PutPlaces(side, rows[1..], r);
        d, rest := d0 + 1, rest0 + 1;
        OneToTheLeft(rows, [r], d0, rest0);
        assert Put(side, rows, r) == [rows[0]] + Put(side, rows[1..], r);
        assert d0 < |rows| - 1 ==> rows[d] == rows[1..][d0];
        assert forall i | 0 < i < d :: rows[i] == rows[1..][i - 1];
      }
    }
  }

  lemma SortedWith(side: BookSide, rows: seq<BookRow>, r: BookRow, d: nat, rest: nat)
    requires Sorted(side, rows) && d <= rest <= d + 1 && rest <= |rows|
    requires forall i | 0 <= i < d :: Precedes(side, rows[i].price, r.price)
    requires if rest == d then d < |rows| ==> Precedes(side, r.price, rows[d].price) else rows[d].price == r.price
    ensures Sorted(side, rows[..d] + [r] + rows[rest..])
  {
    var s := rows[..d] + [r] + rows[rest..];
    forall i, j | 0 <= i < j < |s|
      ensures Precedes(side, s[i].price, s[j].price)
    {
      var a, b := if i < d then i else rest + i - d - 1, if j < d then j else rest + j - d - 1;
      assert i != d ==> s[i] == rows[a];
      assert j != d ==> s[j] == rows[b];
      assert i == d && d < b ==> Precedes(side, rows[d].price, rows[b].price);
    }
  }

  lemma {:induction false} LookupPut(side: BookSide, rows: seq<BookRow>, r: BookRow, p: real)
    requires Sorted(side, rows)
    ensures Lookup(Put(side, rows, r), p) == if p == r.price then Some(r.quantity) else Lookup(rows, p)
  {
    if rows != [] && rows[0].price != r.price && !Precedes(side, r.price, rows[0].price) {
      LookupPut(side, rows[1..], r, p);
      assert Put(side, rows, r)[1..] == Put(side, rows[1..], r);
    }
  }

  lemma PutIsMapUpdate(side: BookSide, rows: seq<BookRow>, r: BookRow, p: real)
    requires Sorted(side, rows)
    ensures Sorted(side, Put(side, rows, r))
    ensures forall i | 0 <= i < |Put(side, rows, r)| ::
              Put(side, rows, r)[i].price == r.price
              || exists j :: 0 <= j < |rows| && rows[j].price == Put(side, rows, r)[i].price
    ensures Lookup(Put(side, rows, r), p) == if p == r.price then Some(r.quantity) else Lookup(rows, p)
  {
    var d, rest := PutPlaces(side, rows, r);
    SortedWith(side, rows, r, d, rest);
    LookupPut(side, rows, r, p);
    forall i | 0 <= i < |Put(side, rows, r)| && i != d
      ensures exists j :: 0 <= j < |rows| && rows[j].price == Put(side, rows, r)[i].price
    {
      assert Put(side, rows, r)[i] == rows[if i < d then i else rest + i - d - 1];
    }
  }

  /** Erasing leaves out the row at d, or nothing. */
  lemma {:induction false} EraseDropsOne(rows: seq<BookRow>, price: real) returns (d: nat)
    ensures d <= |rows| && Erase(rows, price) == if d < |rows| then rows[..d] + rows[d + 1..] else rows
  {
    d := 0;
    if rows != [] && rows[0].price != price {
      var e := EraseDropsOne(rows[1..], price);
      d := e + 1;
      if e < |rows| - 1 {
        OneToTheLeft(rows, [], e, e + 1);
        assert rows[1..][..e] + [] == rows[1..][..e] && rows[..d] + [] == rows[..d];
      }
    }
  }

  lemma SortedWithout(side: BookSide, rows: seq<BookRow>, d: nat)
    requires Sorted(side, rows) && d < |rows|
    ensures Sorted(side, rows[..d] + rows[d + 1..])
  {
    var r := rows[..d] + rows[d + 1..];
    forall i, j | 0 <= i < j < |r|
      ensures Precedes(side, r[i].price, r[j].price)
    {
      var a, b := if i < d then i else i + 1, if j < d then j else j + 1;
      assert r[i] == rows[a] && r[j] == rows[b];
    }
  }

  lemma {:induction false} LookupErased(side: BookSide, rows: seq<BookRow>, price: real, p: real)
    requires Sorted(side, rows)
    ensures Lookup(Erase(rows, price), p) == if p == price then None else Lookup(rows, p)
  {
    if rows != [] {
      if rows[0].price == price {
        LookupMissing(rows[1..], price);
      } else {
        LookupErased(side, rows[1..], price, p);
        assert Erase(rows, price)[1..] == Erase(rows[1..], price);
      }
    }
  }

  lemma EraseIsMapRemoval(side: BookSide, rows: seq<BookRow>, price: real, p: real)
    requires Sorted(side, rows)
    ensures Sorted(side, Erase(rows, price))
    ensures forall i | 0 <= i < |Erase(rows, price)| ::
              exists j :: 0 <= j < |rows| && rows[j].price == Erase(rows, price)[i].price
    ensures Lookup(Erase(rows, price), p) == if p == price then None else Lookup(rows, p)
  {
    var d := EraseDropsOne(rows, price);
    forall i | 0 <= i < |Erase(rows, price)|
      ensures exists j :: 0 <= j < |rows| && rows[j].price == Erase(rows, price)[i].price
    {
      assert Erase(rows, price)[i] == rows[if i < d then i else i + 1];
    }
    if d < |rows| {
      SortedWithout(side, rows, d);
    }
    LookupErased(side, rows, price, p);
  }

  /** A sorted side is determined by its lookups. */
  lemma {:induction false} SortedIsCanonical(side: BookSide, a: seq<BookRow>, b: seq<BookRow>)
    requires Sorted(side, a) && Sorted(side, b)
    requires forall p: real :: Lookup(a, p) == Lookup(b, p)
    ensures a == b
  {
    assert a != [] ==> Lookup(b, a[0].price) == Lookup(a, a[0].price);
    assert b != [] ==> Lookup(a, b[0].price) == Lookup(b, b[0].price);
    if a != [] {
      FirstPricesAgree(side, a, b);
      assert Lookup(a, a[0].price) == Lookup(b, a[0].price);
      forall p: real
        ensures Lookup(a[1..], p) == Lookup(b[1..], p)
      {
        assert Lookup(a, p) == Lookup(b, p);
        if p == a[0].price {
          LookupMissing(a[1..], p);
          LookupMissing(b[1..], p);
        }
      }
      SortedIsCanonical(side, a[1..], b[1..]);
      assert a == [a[0]] + a[1..] && b == [b[0]] + b[1..];
    }
  }

  lemma FirstPricesAgree(side: BookSide, a: seq<BookRow>, b: seq<BookRow>)
    requires Sorted(side, a) && Sorted(side, b) && a != [] && b != []
    requires forall p: real :: Lookup(a, p) == Lookup(b, p)
    ensures a[0].price == b[0].price
  {
    var p, q := a[0].price, b[0].price;
    assert Lookup(a, p) == Lookup(b, p) && Lookup(a, q) == Lookup(b, q);
    if Precedes(side, p, q) {
      LookupMissing(b, p);
    } else if Precedes(side, q, p) {
      LookupMissing(a, q);
    }
  }

  // ---- Last writer wins --------------------------------------------------------

  /** The size a row gives to a side: a row with a buy size is a bid whatever
      else it carries. */
  function SizeOn(side: BookSide, row: Row): Option<real>
  {
    if side == Bids then row.buySize else if row.buySize.Some? then None else row.sellSize
  }

  /** What a row leaves at its price: nothing after a removal or a negligible
      size, otherwise the size without its fraction. */
  function Written(row: Row, size: real): Option<int>
  {
    if row.remove || size < TINY then None else Some(size.Floor)
  }

  /** Reference meaning of a side at a price: the last row that spoke of it. */
  function LastWrite(side: BookSide, rows: seq<Row>, price: real): Option<int>
  {
    if rows == [] then None
    else
      var last := rows[|rows| - 1];
      if last.price == price && SizeOn(side, last).Some? then Written(last, SizeOn(side, last).value)
      else LastWrite(side, rows[..|rows| - 1], price)
  }

  function ApplyRow(side: BookSide, rows: seq<BookRow>, row: Row): seq<BookRow>
  {
    match SizeOn(side, row)
    case None => rows
    case Some(size) =>
      match Written(row, size)
      case None => Erase(rows, row.price)
      case Some(q) => Put(side, rows, BookRow(row.price, q))
  }

  /** A side is sorted and holds, at every price, what was last written there. */
  ghost predicate IsFold(side: BookSide, rows: seq<BookRow>, written: seq<Row>)
  {
    Sorted(side, rows) && forall p: real :: Lookup(rows, p) == LastWrite(side, written, p)
  }

  lemma RowKeepsFold(side: BookSide, rows: seq<BookRow>, written: seq<Row>, row: Row)
    requires IsFold(side, rows, written)
    ensures IsFold(side, ApplyRow(side, rows, row), written + [row])
  {
    assert (written + [row])[..|written|] == written;
    if SizeOn(side, row).Some? {
      EraseIsMapRemoval(side, rows, row.price, 0.0);
      PutIsMapUpdate(side, rows, BookRow(row.price, SizeOn(side, row).value.Floor), 0.0);
    }
    forall p: real
      ensures Lookup(ApplyRow(side, rows, row), p) == LastWrite(side, written + [row], p)
    {
      assert Lookup(rows, p) == LastWrite(side, written, p);
      match SizeOn(side, row)
      case None =>
      case Some(size) =>
        EraseIsMapRemoval(side, rows, row.price, p);
        PutIsMapUpdate(side, rows, BookRow(row.price, size.Floor), p);
    }
  }

  /** The last-writer-wins fold and the sort order leave one possible side. */
  lemma FoldIsUnique(side: BookSide, a: seq<BookRow>, b: seq<BookRow>, written: seq<Row>)
    requires IsFold(side, a, written) && IsFold(side, b, written)
    ensures a == b
  {
    forall p: real
      ensures Lookup(a, p) == Lookup(b, p)
    {
      assert Lookup(a, p) == LastWrite(side, written, p) == Lookup(b, p);
    }
    SortedIsCanonical(side, a, b);
  }

  // ---- What a snapshot shows, row by row -------------------------------------------

  /** What became of the size a row gave at a price. */
  ghost predicate Shows(rows: seq<BookRow>, price: real, size: real, remove: bool)
  {
    if remove || size < 0.000000001 then forall k | 0 <= k < |rows| :: rows[k].price != price
    else exists k :: 0 <= k < |rows| && rows[k].price == price
                     && rows[k].quantity as real <= size < rows[k].quantity as real + 1.0
  }

  ghost predicate BidGiven(written: seq<Row>, price: real)
  {
    exists i :: 0 <= i < |written| && written[i].buySize.Some? && written[i].price == price
  }

  /** A row speaks of the asks by a sell size without a buy size. */
  predicate IsAsk(row: Row)
  {
    row.buySize.None? && row.sellSize.Some?
  }

  ghost predicate AskGiven(written: seq<Row>, price: real)
  {
    exists i :: 0 <= i < |written| && IsAsk(written[i]) && written[i].price == price
  }

  /** The bids fall in price; each price some row gave a buy size for shows the last
      such row's, and there are no others. */
  ghost predicate ShowsBids(bids: seq<BookRow>, written: seq<Row>)
  {
    && (forall i, j | 0 <= i < j < |bids| :: bids[i].price > bids[j].price)
    && (forall i | 0 <= i < |written| && written[i].buySize.Some? ::
          (forall j | i < j < |written| && written[j].buySize.Some? :: written[j].price != written[i].price) ==>
            Shows(bids, written[i].price, written[i].buySize.value, written[i].remove))
    && (forall k | 0 <= k < |bids| :: BidGiven(written, bids[k].price))
  }

  /** The same for the asks, which rise in price. */
  ghost predicate ShowsAsks(asks: seq<BookRow>, written: seq<Row>)
  {
    && (forall i, j | 0 <= i < j < |asks| :: asks[i].price < asks[j].price)
    && (forall i | 0 <= i < |written| && IsAsk(written[i]) ::
          (forall j | i < j < |written| && IsAsk(written[j]) :: written[j].price != written[i].price) ==>
            Shows(asks, written[i].price, written[i].sellSize.value, written[i].remove))
    && (forall k | 0 <= k < |asks| :: AskGiven(written, asks[k].price))
  }

  lemma {:induction false} LookupFinds(rows: seq<BookRow>, price: real)
    ensures Lookup(rows, price) == None <==> forall k | 0 <= k < |rows| :: rows[k].price != price
    ensures Lookup(rows, price).Some? ==>
              exists k :: 0 <= k < |rows| && rows[k].price == price && Lookup(rows, price) == Some(rows[k].quantity)
  {
    if rows != [] && rows[0].price != price {
      LookupFinds(rows[1..], price);
      if k :| 0 <= k < |rows[1..]| && rows[1..][k].price == price
              && Lookup(rows[1..], price) == Some(rows[1..][k].quantity) {
        assert rows[k + 1].price == price;
      }
      assert forall k | 0 < k < |rows| :: rows[k] == rows[1..][k - 1];
    }
  }

  /** The last row that spoke of a side at a price. */
  lemma {:induction false} LastWriteIsLast(side: BookSide, written: seq<Row>, i: nat)
    requires i < |written| && SizeOn(side, written[i]).Some?
    requires forall j | i < j < |written| && SizeOn(side, written[j]).Some? :: written[j].price != written[i].price
    ensures LastWrite(side, written, written[i].price) == Written(written[i], SizeOn(side, written[i]).value)
  {
    var n := |written| - 1;
    if i < n {
      assert forall j | 0 <= j < n :: written[..n][j] == written[j];
      LastWriteIsLast(side, written[..n], i);
    }
  }

  lemma {:induction false} WrittenBySomeone(side: BookSide, written: seq<Row>, price: real)
    requires LastWrite(side, written, price).Some?
    ensures exists i :: 0 <= i < |written| && SizeOn(side, written[i]).Some? && written[i].price == price
  {
    var n := |written| - 1;
    if !(written[n].price == price && SizeOn(side, written[n]).Some?) {
      WrittenBySomeone(side, written[..n], price);
      var i :| 0 <= i < n && SizeOn(side, written[..n][i]).Some? && written[..n][i].price == price;
      assert SizeOn(side, written[i]).Some?;
    }
  }

  lemma FoldShows(side: BookSide, rows: seq<BookRow>, written: seq<Row>, i: nat)
    requires IsFold(side, rows, written) && i < |written| && SizeOn(side, written[i]).Some?
    requires forall j | i < j < |written| && SizeOn(side, written[j]).Some? :: written[j].price != written[i].price
    ensures Shows(rows, written[i].price, SizeOn(side, written[i]).value, written[i].remove)
  {
    LastWriteIsLast(side, written, i);
    LookupFinds(rows, written[i].price);
    assert Lookup(rows, written[i].price) == LastWrite(side, written, written[i].price);
  }

  lemma FoldIsWritten(side: BookSide, rows: seq<BookRow>, written: seq<Row>, k: nat)
    requires IsFold(side, rows, written) && k < |rows|
    ensures exists i :: 0 <= i < |written| && SizeOn(side, written[i]).Some? && written[i].price == rows[k].price
  {
    LookupFinds(rows, rows[k].price);
    assert Lookup(rows, rows[k].price) == LastWrite(side, written, rows[k].price);
    WrittenBySomeone(side, written, rows[k].price);
  }

  /** A snapshot of the fold shows exactly what the rows said last. */
  lemma SnapshotShowsRows(book: Book, written: seq<Row>)
    requires IsFold(Bids, book.bids, written) && IsFold(Asks, book.asks, written)
    ensures ShowsBids(book.bids, written) && ShowsAsks(book.asks, written)
  {
    BidsShow(book.bids, written);
    AsksShow(book.asks, written);
  }

  lemma BidsShow(bids: seq<BookRow>, written: seq<Row>)
    requires IsFold(Bids, bids, written)
    ensures ShowsBids(bids, written)
  {
    forall i, j | 0 <= i < j < |bids|
      ensures bids[i].price > bids[j].price
    {
      assert Precedes(Bids, bids[i].price, bids[j].price);
    }
    forall i | 0 <= i < |written| && written[i].buySize.Some?
               && (forall j | i < j < |written| && written[j].buySize.Some? :: written[j].price != written[i].price)
      ensures Shows(bids, written[i].price, written[i].buySize.value, written[i].remove)
    {
      FoldShows(Bids, bids, written, i);
    }
    forall k | 0 <= k < |bids|
      ensures BidGiven(written, bids[k].price)
    {
      FoldIsWritten(Bids, bids, written, k);
      var i :| 0 <= i < |written| && SizeOn(Bids, written[i]).Some? && written[i].price == bids[k].price;
      assert written[i].buySize.Some?;
    }
  }

  lemma AsksShow(asks: seq<BookRow>, written: seq<Row>)
    requires IsFold(Asks, asks, written)
    ensures ShowsAsks(asks, written)
  {
    forall i, j | 0 <= i < j < |asks|
      ensures asks[i].price < asks[j].price
    {
      assert Precedes(Asks, asks[i].price, asks[j].price);
    }
    forall i | 0 <= i < |written| && IsAsk(written[i])
               && (forall j | i < j < |written| && IsAsk(written[j]) :: written[j].price != written[i].price)
      ensures Shows(asks, written[i].price, written[i].sellSize.value, written[i].remove)
    {
      assert forall j | i < j < |written| && SizeOn(Asks, written[j]).Some? :: IsAsk(written[j]);
      FoldShows(Asks, asks, written, i);
    }
    forall k | 0 <= k < |asks|
      ensures AskGiven(written, asks[k].price)
    {
      FoldIsWritten(Asks, asks, written, k);
      var i :| 0 <= i < |written| && SizeOn(Asks, written[i]).Some? && written[i].price == asks[k].price;
      assert IsAsk(written[i]);
    }
  }

  function Flatten(msg: seq<seq<Row>>): seq<Row>
  {
    if msg == [] then [] else Flatten(msg[..|msg| - 1]) + msg[|msg| - 1]
  }

  /** The stream side of a subscription. */
  class OrderBookStream {
    var bids: seq<BookRow>
    var asks: seq<BookRow>
    ghost var written: seq<Row>     // rows since the last reconnect

    ghost predicate Valid()
      reads this
    {
      IsFold(Bids, bids, written) && IsFold(Asks, asks, written)
    }

    constructor ()
      ensures Valid() && written == [] && bids == [] && asks == []
    {
      bids, asks, written := [], [], [];
    }

    /** All rows of all parts of one message, then one snapshot. */
    method OnMessage(msg: seq<seq<Row>>) returns (book: Book)
      requires Valid()
      modifies this
      ensures Valid() && written == old(written) + Flatten(msg)
      ensures book == Book(bids, asks)
      ensures IsFold(Bids, book.bids, written) && IsFold(Asks, book.asks, written)
      ensures ShowsBids(book.bids, written) && ShowsAsks(book.asks, written)
    {
      ApplyParts(msg);
      book := Book(bids, asks);
      SnapshotShowsRows(book, written);
    }

    method ApplyParts(msg: seq<seq<Row>>)
      requires Valid()
      modifies this
      ensures Valid() && written == old(written) + Flatten(msg)
    {
      var i := 0;
      while i < |msg|
        invariant 0 <= i <= |msg| && Valid()
        invariant written == old(written) + Flatten(msg[..i])
      {
        var rows := msg[i];
        ghost var before := written;
        var j := 0;
        while j < |rows|
          invariant 0 <= j <= |rows| && Valid()
          invariant written == before + rows[..j]
        {
          assert before + rows[..j + 1] == written + [rows[j]];
          OnRow(rows[j]);
          j := j + 1;
        }
        assert rows[..|rows|] == rows && msg[..i + 1][..i] == msg[..i];
        i := i + 1;
      }
      assert msg[..|msg|] == msg;
    }

    method OnRow(row: Row)
      requires Valid()
      modifies this
      ensures Valid() && written == old(written) + [row]
      ensures bids == ApplyRow(Bids, old(bids), row) && asks == ApplyRow(Asks, old(asks), row)
    {
      RowKeepsFold(Bids, bids, written, row);
      RowKeepsFold(Asks, asks, written, row);
      if row.buySize.Some? {
        var qty := row.buySize.value;
        if row.remove || qty < TINY {
          bids := Erase(bids, row.price);
        } else {
          bids := Put(Bids, bids, BookRow(row.price, qty.Floor));
        }
      } else if row.sellSize.Some? {
        var qty := row.sellSize.value;
        if row.remove || qty < TINY {
          asks := Erase(asks, row.price);
        } else {
          asks := Put(Asks, asks, BookRow(row.price, qty.Floor));
        }
      }
      written := written + [row];
    }

    /** A broken stream empties both sides. */
    method OnReconnect()
      modifies this
      ensures Valid() && written == [] && bids == [] && asks == []
    {
      bids, asks, written := [], [], [];
    }
  }

  // ---- Level differences -------------------------------------------------------

  function SizeAt(rows: seq<BookRow>, k: nat): real
  {
    if k < |rows| then rows[k].quantity as real else 0.0
  }

  function PriceAt(prev: Book, book: Book, k: nat): real
  {
    if k < |book.bids| then book.bids[k].price
    else if k < |book.asks| then book.asks[k].price
    else if k < |prev.bids| then prev.bids[k].price
    else if k < |prev.asks| then prev.asks[k].price
    else 0.0
  }

  function EventAt(prev: Book, book: Book, ts: int, k: nat): BookLevelEvent
  {
    BookLevelEvent(k, PriceAt(prev, book, k),
                   SizeAt(prev.bids, k), SizeAt(book.bids, k), SizeAt(prev.asks, k), SizeAt(book.asks, k), ts)
  }

  predicate Changed(prev: Book, book: Book, k: nat)
  {
    SizeAt(prev.bids, k) != SizeAt(book.bids, k) || SizeAt(prev.asks, k) != SizeAt(book.asks, k)
  }

  /** Events of the first n levels: one per changed level, in level order. */
  function Diff(prev: Book, book: Book, ts: int, n: nat): seq<BookLevelEvent>
  {
    if n == 0 then []
    else Diff(prev, book, ts, n - 1) + if Changed(prev, book, n - 1) then [EventAt(prev, book, ts, n - 1)] else []
  }

  /** The event of a changed level: its sizes before and after, zero beyond the end of
      a side, and the price of the current bid there, failing that of the current
      ask, then of the previous bid, then of the previous ask. */
  ghost predicate Describes(prev: Book, book: Book, ts: int, x: BookLevelEvent)
  {
    var k := x.level;
    && 0 <= k && x.ts == ts && (x.oldBid != x.newBid || x.oldAsk != x.newAsk)
    && x.newBid == (if k < |book.bids| then book.bids[k].quantity as real else 0.0)
    && x.newAsk == (if k < |book.asks| then book.asks[k].quantity as real else 0.0)
    && x.oldBid == (if k < |prev.bids| then prev.bids[k].quantity as real else 0.0)
    && x.oldAsk == (if k < |prev.asks| then prev.asks[k].quantity as real else 0.0)
    && (k < |book.bids| ==> x.price == book.bids[k].price)
    && (|book.bids| <= k < |book.asks| ==> x.price == book.asks[k].price)
    && (|book.bids| <= k && |book.asks| <= k ==>
          && (k < |prev.bids| ==> x.price == prev.bids[k].price)
          && (|prev.bids| <= k < |prev.asks| ==> x.price == prev.asks[k].price))
  }

  /** Neither side shows another size than before. */
  ghost predicate SameLevel(prev: Book, book: Book, k: nat)
  {
    && (if k < |book.bids| then book.bids[k].quantity else 0) == (if k < |prev.bids| then prev.bids[k].quantity else 0)
    && (if k < |book.asks| then book.asks[k].quantity else 0) == (if k < |prev.asks| then prev.asks[k].quantity else 0)
  }

  ghost predicate Silent(events: seq<BookLevelEvent>, k: nat)
  {
    forall m | 0 <= m < |events| :: events[m].level != k
  }

  lemma SilentStep(p: seq<BookLevelEvent>, x: BookLevelEvent, k: nat)
    ensures Silent(p + [x], k) <==> Silent(p, k) && x.level != k
  {
    var d := p + [x];
    assert d[|p|] == x && forall m | 0 <= m < |p| :: d[m] == p[m];
  }

  /** The events are those of the changed levels among the first n, in order. */
  ghost predicate DescribesAll(prev: Book, book: Book, ts: int, events: seq<BookLevelEvent>, n: nat)
  {
    && (forall m | 0 <= m < |events| :: Describes(prev, book, ts, events[m]) && events[m].level < n)
    && (forall l, m | 0 <= l < m < |events| :: events[l].level < events[m].level)
    && (forall k: nat | k < n :: SameLevel(prev, book, k) <==> Silent(events, k))
  }

  lemma EventDescribes(prev: Book, book: Book, ts: int, k: nat)
    ensures SameLevel(prev, book, k) <==> !Changed(prev, book, k)
    ensures Changed(prev, book, k) ==> Describes(prev, book, ts, EventAt(prev, book, ts, k))
  {
  }

  lemma DescribesOneMore(prev: Book, book: Book, ts: int, p: seq<BookLevelEvent>, n: nat)
    requires DescribesAll(prev, book, ts, p, n)
    ensures DescribesAll(prev, book, ts, p + if Changed(prev, book, n) then [EventAt(prev, book, ts, n)] else [], n + 1)
  {
    EventDescribes(prev, book, ts, n);
    if Changed(prev, book, n) {
      var x := EventAt(prev, book, ts, n);
      var d := p + [x];
      assert d[|p|] == x && forall m | 0 <= m < |p| :: d[m] == p[m];
      forall k: nat | k < n + 1
        ensures SameLevel(prev, book, k) <==> Silent(d, k)
      {
        SilentStep(p, x, k);
      }
    } else {
      assert p + [] == p;
      assert Silent(p, n);
    }
  }

  lemma {:induction false} DiffDescribes(prev: Book, book: Book, ts: int, n: nat)
    ensures DescribesAll(prev, book, ts, Diff(prev, book, ts, n), n)
  {
    if n > 0 {
      DiffDescribes(prev, book, ts, n - 1);
      DescribesOneMore(prev, book, ts, Diff(prev, book, ts, n - 1), n - 1);
    }
  }

  const EMPTY_BOOK := Book([], [])

  /** A delivered snapshot. */
  datatype Snapshot = Snapshot(book: Book, ts: int)

  function LastBook(from: Book, run: seq<Snapshot>): Book
  {
    if run == [] then from else run[|run| - 1].book
  }

  /** All events of a run of snapshots, starting from a previous book. */
  function AllEvents(from: Book, run: seq<Snapshot>): seq<BookLevelEvent>
  {
    if run == [] then []
    else
      var p := run[..|run| - 1];
      var s := run[|run| - 1];
      AllEvents(from, p) + Diff(LastBook(from, p), s.book, s.ts, BOOK_LEVELS)
  }

  class LevelDiff {
    var prev: Book
    ghost var from: Book
    ghost var run: seq<Snapshot>
    ghost var emitted: seq<BookLevelEvent>

    ghost predicate Valid()
      reads this
    {
      prev == LastBook(from, run) && emitted == AllEvents(from, run)
    }

    constructor ()
      ensures Valid() && from == EMPTY_BOOK && run == []
    {
      prev, from, run, emitted := EMPTY_BOOK, EMPTY_BOOK, [], [];
    }

    method OnBook(book: Book, ts: int) returns (events: seq<BookLevelEvent>)
      requires Valid()
      modifies this
      ensures Valid() && prev == book && from == old(from)
      ensures run == old(run) + [Snapshot(book, ts)] && emitted == old(emitted) + events
      ensures events == Diff(old(prev), book, ts, BOOK_LEVELS)
      ensures DescribesAll(old(prev), book, ts, events, 5)
    {
      DiffDescribes(prev, book, ts, BOOK_LEVELS);
      events := [];
      for k := 0 to BOOK_LEVELS
        invariant events == Diff(prev, book, ts, k)
      {
        var oldBid := if k < |prev.bids| then prev.bids[k].quantity as real else 0.0;
        var oldAsk := if k < |prev.asks| then prev.asks[k].quantity as real else 0.0;
        var newBid := if k < |book.bids| then book.bids[k].quantity as real else 0.0;
        var newAsk := if k < |book.asks| then book.asks[k].quantity as real else 0.0;
        if oldBid == newBid && oldAsk == newAsk {
          continue;
        }
        var price := PriceAt(prev, book, k);
        events := events + [BookLevelEvent(k, price, oldBid, newBid, oldAsk, newAsk, ts)];
      }
      assert (run + [Snapshot(book, ts)])[..|run|] == run;
      run, emitted := run + [Snapshot(book, ts)], emitted + events;
      prev := book;
    }
  }

  /** At level k the events form a chain: each starts from the sizes the one
      before ended with. */
  ghost predicate Chains(events: seq<BookLevelEvent>, k: nat, bid: real, ask: real, bid': real, ask': real)
    decreases |events|
  {
    if events == [] then bid == bid' && ask == ask'
    else
      var e := events[|events| - 1];
      var p := events[..|events| - 1];
      if e.level != k then Chains(p, k, bid, ask, bid', ask')
      else e.newBid == bid' && e.newAsk == ask' && Chains(p, k, bid, ask, e.oldBid, e.oldAsk)
  }

  lemma {:induction false} ChainsCompose(a: seq<BookLevelEvent>, b: seq<BookLevelEvent>, k: nat,
                                         bid: real, ask: real, bid1: real, ask1: real, bid2: real, ask2: real)
    requires Chains(a, k, bid, ask, bid1, ask1) && Chains(b, k, bid1, ask1, bid2, ask2)
    ensures Chains(a + b, k, bid, ask, bid2, ask2)
    decreases |b|
  {
    if b == [] {
      assert a + b == a;
    } else {
      var e, p := b[|b| - 1], b[..|b| - 1];
      assert (a + b)[..|a + b| - 1] == a + p && (a + b)[|a + b| - 1] == e;
      if e.level == k {
        ChainsCompose(a, p, k, bid, ask, bid1, ask1, e.oldBid, e.oldAsk);
      } else {
        ChainsCompose(a, p, k, bid, ask, bid1, ask1, bid2, ask2);
      }
    }
  }

  lemma ChainsAppend(p: seq<BookLevelEvent>, e: BookLevelEvent, k: nat, bid: real, ask: real)
    ensures e.level == k && Chains(p, k, bid, ask, e.oldBid, e.oldAsk) ==>
              Chains(p + [e], k, bid, ask, e.newBid, e.newAsk)
    ensures forall b: real, a: real | e.level != k && Chains(p, k, bid, ask, b, a) :: Chains(p + [e], k, bid, ask, b, a)
  {
    assert (p + [e])[..|p|] == p && (p + [e])[|p|] == e;
  }

  lemma {:induction false} DiffChains(prev: Book, book: Book, ts: int, n: nat, k: nat)
    ensures k < n ==> Chains(Diff(prev, book, ts, n), k, SizeAt(prev.bids, k), SizeAt(prev.asks, k),
                             SizeAt(book.bids, k), SizeAt(book.asks, k))
    ensures k >= n ==> Chains(Diff(prev, book, ts, n), k, SizeAt(prev.bids, k), SizeAt(prev.asks, k),
                              SizeAt(prev.bids, k), SizeAt(prev.asks, k))
  {
    if n > 0 {
      DiffChains(prev, book, ts, n - 1, k);
      var p := Diff(prev, book, ts, n - 1);
      if Changed(prev, book, n - 1) {
        ChainsAppend(p, EventAt(prev, book, ts, n - 1), k, SizeAt(prev.bids, k), SizeAt(prev.asks, k));
      } else {
        assert Diff(prev, book, ts, n) == p;
      }
    }
  }

  /** Over any run of snapshots, reconnects included, the events of each of the
      five levels chain from the starting size to the current one. */
  lemma {:induction false} EventsChain(from: Book, run: seq<Snapshot>, k: nat)
    requires k < BOOK_LEVELS
    ensures Chains(AllEvents(from, run), k, SizeAt(from.bids, k), SizeAt(from.asks, k),
                   SizeAt(LastBook(from, run).bids, k), SizeAt(LastBook(from, run).asks, k))
  {
    if run != [] {
      var p, s := run[..|run| - 1], run[|run| - 1];
      EventsChain(from, p, k);
      var b := LastBook(from, p);
      DiffChains(b, s.book, s.ts, BOOK_LEVELS, k);
      ChainsCompose(AllEvents(from, p), Diff(b, s.book, s.ts, BOOK_LEVELS), k,
                    SizeAt(from.bids, k), SizeAt(from.asks, k), SizeAt(b.bids, k), SizeAt(b.asks, k),
                    SizeAt(s.book.bids, k), SizeAt(s.book.asks, k));
    }
  }
}

/** The book feed and the scores it drives. */
module BookPipeline {
  import opened Common
  import opened OrderBookFeed
  import opened OrderBookState

  /** The score history made by feeding every event, none dropped. */
  function Fed(events: seq<BookLevelEvent>): (h: seq<Entry>)
    ensures |h| == |events| && forall i | 0 <= i < |h| :: h[i] == Event(events[i])
  {
    seq(|events|, i requires 0 <= i < |events| => Event(events[i]))
  }

  function OfiSum(h: seq<Entry>, level: int): real
  {
    if h == [] then 0.0 else OfiSum(h[..|h| - 1], level) + h[|h| - 1].Ofi(level)
  }

  lemma {:induction false} UndecayedScoreIsOfiSum(h: seq<Entry>, level: int)
    ensures LevelScore(1.0, h, level) == OfiSum(h, level)
  {
    if h != [] {
      var p, x := h[..|h| - 1], h[|h| - 1];
      assert h == p + [x];
      UndecayedScoreIsOfiSum(p, level);
      LevelScoreStep(1.0, p, x, level);
      PowOfOne(Advance(Clock(p), x.Ts()));
      TimesLaws(LevelScore(1.0, p, level), 1.0, 0.0);
    }
  }

  lemma {:induction false} ChainTelescopes(events: seq<BookLevelEvent>, k: nat,
                                              bid: real, ask: real, bid': real, ask': real)
    requires Chains(events, k, bid, ask, bid', ask')
    ensures OfiSum(Fed(events), k) == (bid' - ask') - (bid - ask)
    decreases |events|
  {
    if events != [] {
      var e, p := events[|events| - 1], events[..|events| - 1];
      assert Fed(events)[..|events| - 1] == Fed(p);
      if e.level == k {
        ChainTelescopes(p, k, bid, ask, e.oldBid, e.oldAsk);
      } else {
        ChainTelescopes(p, k, bid, ask, bid', ask');
      }
    }
  }

  /** Without decay and without drops, each level's score is the change of bid
      size minus ask size at that level since the reset, whatever messages and
      reconnects produced the snapshots. */
  lemma UndecayedScoreIsNetChange(atReset: Book, run: seq<Snapshot>, k: nat)
    requires k < BOOK_LEVELS
    ensures var now := LastBook(atReset, run);
            LevelScore(1.0, Fed(AllEvents(atReset, run)), k)
            == (SizeAt(now.bids, k) - SizeAt(now.asks, k)) - (SizeAt(atReset.bids, k) - SizeAt(atReset.asks, k))
  {
    var now := LastBook(atReset, run);
    EventsChain(atReset, run, k);
    ChainTelescopes(AllEvents(atReset, run), k, SizeAt(atReset.bids, k), SizeAt(atReset.asks, k),
                    SizeAt(now.bids, k), SizeAt(now.asks, k));
    UndecayedScoreIsOfiSum(Fed(AllEvents(atReset, run)), k);
  }
}
