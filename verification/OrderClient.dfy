/** Cumulative executed quantities turned into per-update deltas. */
module FillDeltas {
  import opened Common

  /** An executed quantity or a change of one, and whether it comes with the status
      of a complete or partial fill. */
  datatype Amount = Amount(qty: int, fill: bool)

  function SumOf(d: seq<Amount>): int
  {
    if d == [] then 0 else SumOf(d[..|d| - 1]) + d[|d| - 1].qty
  }

  function Gain(x: Amount): nat
  {
    if x.qty > 0 && x.fill then x.qty else 0
  }

  /** What is booked: a delta counts if it is positive and comes as a fill. */
  function Booked(d: seq<Amount>): nat
  {
    if d == [] then 0 else Booked(d[..|d| - 1]) + Gain(d[|d| - 1])
  }

  /** What the deltas took back. */
  function Fallen(d: seq<Amount>): nat
  {
    if d == [] then 0 else Fallen(d[..|d| - 1]) + if d[|d| - 1].qty < 0 then -d[|d| - 1].qty else 0
  }

  /** What was executed without the status of a fill. */
  function Unbooked(d: seq<Amount>): nat
  {
    if d == [] then 0
    else
      var x := d[|d| - 1];
      Unbooked(d[..|d| - 1]) + if x.qty > 0 && !x.fill then x.qty else 0
  }

  /** The quantity stored after a sequence of reports; 0 before the first. */
  function Stored(reports: seq<Amount>): int
  {
    if reports == [] then 0 else reports[|reports| - 1].qty
  }

  /** Each report minus the one stored before it, under its own status. */
  function Deltas(reports: seq<Amount>): (d: seq<Amount>)
    ensures |d| == |reports|
  {
    if reports == [] then []
    else
      var p, r := reports[..|reports| - 1], reports[|reports| - 1];
      Deltas(p) + [Amount(r.qty - Stored(p), r.fill)]
  }

  lemma SumAppend(d: seq<Amount>, x: Amount)
    ensures SumOf(d + [x]) == SumOf(d) + x.qty
    ensures Booked(d + [x]) == Booked(d) + Gain(x)
  {
    assert (d + [x])[..|d|] == d;
  }

  lemma {:induction false} SumRemove(d: seq<Amount>, i: nat)
    requires i < |d|
    ensures SumOf(d) == SumOf(d[..i] + d[i + 1..]) + d[i].qty
    ensures Booked(d) == Booked(d[..i] + d[i + 1..]) + Gain(d[i])
  {
    var n := |d| - 1;
    var p := d[..n];
    if i == n {
      assert d[..i] + d[i + 1..] == p;
    } else {
      SumRemove(p, i);
      var rest := p[..i] + p[i + 1..];
      assert d[i + 1..] == p[i + 1..] + [d[n]];
      assert d[..i] + d[i + 1..] == rest + [d[n]];
      SumAppend(rest, d[n]);
      SumAppend(p, d[n]);
      assert d == p + [d[n]];
    }
  }

  lemma FindEqual(x: Amount, b: seq<Amount>) returns (i: nat)
    requires x in multiset(b)
    ensures i < |b| && b[i] == x
    ensures multiset(b[..i] + b[i + 1..]) == multiset(b) - multiset{x}
  {
    i :| i < |b| && b[i] == x;
    assert b == b[..i] + ([x] + b[i + 1..]);
  }

  /** Sum and booked quantity do not depend on the order. */
  lemma {:induction false} OrderDoesNotMatter(a: seq<Amount>, b: seq<Amount>)
    requires multiset(a) == multiset(b)
    ensures SumOf(a) == SumOf(b) && Booked(a) == Booked(b)
  {
    if a == [] {
      assert |multiset(b)| == 0;
    } else {
      var n := |a| - 1;
      assert a == a[..n] + [a[n]];
      assert multiset(a[..n]) == multiset(a) - multiset{a[n]};
      var i := FindEqual(a[n], b);
      OrderDoesNotMatter(a[..n], b[..i] + b[i + 1..]);
      SumRemove(b, i);
    }
  }

  lemma {:induction false} SumSplits(d: seq<Amount>)
    ensures SumOf(d) == Booked(d) + Unbooked(d) - Fallen(d)
  {
    if d != [] {
      SumSplits(d[..|d| - 1]);
    }
  }

  ghost predicate NeverFalls(reports: seq<Amount>)
  {
    forall i | 0 <= i < |reports| :: Stored(reports[..i]) <= reports[i].qty
  }

  /** Every report of more than was stored has the status of a fill. */
  ghost predicate RisesAreFills(reports: seq<Amount>)
  {
    forall i | 0 <= i < |reports| && reports[i].qty > Stored(reports[..i]) :: reports[i].fill
  }

  lemma DeltasStep(reports: seq<Amount>, r: Amount)
    ensures Deltas(reports + [r]) == Deltas(reports) + [Amount(r.qty - Stored(reports), r.fill)]
  {
    var all := reports + [r];
    assert all[..|all| - 1] == reports && all[|all| - 1] == r;
  }

  /** One more report, seen from the conditions on all. */
  lemma ReportsStep(p: seq<Amount>, r: Amount)
    ensures NeverFalls(p + [r]) <==> NeverFalls(p) && Stored(p) <= r.qty
    ensures RisesAreFills(p + [r]) <==> RisesAreFills(p) && (r.qty > Stored(p) ==> r.fill)
  {
    var all := p + [r];
    assert all[..|p|] == p && all[|p|] == r;
    assert forall i | 0 <= i < |p| :: all[..i] == p[..i] && all[i] == p[i];
  }

  /** The deltas add up to the stored quantity; what is booked exceeds it by what
      fell and misses what rose without a fill. */
  lemma {:induction false} BookedBalance(reports: seq<Amount>)
    ensures var d := Deltas(reports);
            && SumOf(d) == Stored(reports)
            && Booked(d) == Stored(reports) + Fallen(d) - Unbooked(d)
            && (Fallen(d) == 0 <==> NeverFalls(reports))
            && (Unbooked(d) == 0 <==> RisesAreFills(reports))
  {
    SumSplits(Deltas(reports));
    if reports != [] {
      var n := |reports| - 1;
      var p, r := reports[..n], reports[n];
      assert reports == p + [r];
      BookedBalance(p);
      ReportsStep(p, r);
      assert Deltas(reports)[..n] == Deltas(p);
    }
  }

  /** What is booked so far is the stored quantity. */
  ghost predicate BookedRight(reports: seq<Amount>)
  {
    Booked(Deltas(reports)) == Stored(reports)
  }

  ghost predicate AlwaysBookedRight(reports: seq<Amount>)
  {
    forall n | 0 <= n <= |reports| :: BookedRight(reports[..n])
  }

  lemma BookedStep(p: seq<Amount>, r: Amount)
    ensures Booked(Deltas(p + [r])) == Booked(Deltas(p)) + Gain(Amount(r.qty - Stored(p), r.fill))
  {
    DeltasStep(p, r);
    SumAppend(Deltas(p), Amount(r.qty - Stored(p), r.fill));
  }

  lemma AlwaysBookedRightStep(p: seq<Amount>, r: Amount)
    ensures AlwaysBookedRight(p + [r]) <==> AlwaysBookedRight(p) && BookedRight(p + [r])
  {
    var right := (s: seq<Amount>) => BookedRight(s);
    HoldsOnPrefixes(right, p, r);
    assert AlwaysBookedRight(p + [r]) <==> forall n | 0 <= n <= |p| + 1 :: right((p + [r])[..n]);
    assert AlwaysBookedRight(p) <==> forall n | 0 <= n <= |p| :: right(p[..n]);
  }

  lemma LastBookedRight(reports: seq<Amount>)
    requires AlwaysBookedRight(reports)
    ensures BookedRight(reports)
  {
    assert reports[..|reports|] == reports;
  }

  /** It is so after every report exactly when the reports never fall and every rise
      comes as a fill. */
  lemma {:induction false} BookedIsStoredExactly(reports: seq<Amount>)
    ensures AlwaysBookedRight(reports) <==> NeverFalls(reports) && RisesAreFills(reports)
  {
    if reports != [] {
      var p, r := reports[..|reports| - 1], reports[|reports| - 1];
      assert reports == p + [r];
      BookedIsStoredExactly(p);
      AlwaysBookedRightStep(p, r);
      ReportsStep(p, r);
      BookedStep(p, r);
      if AlwaysBookedRight(p) {
        LastBookedRight(p);
      }
    }
  }

  lemma BookedOfThree(a: Amount, b: Amount, c: Amount)
    ensures Booked(Deltas([a, b, c])) ==
            Gain(a) + Gain(Amount(b.qty - a.qty, b.fill)) + Gain(Amount(c.qty - b.qty, c.fill))
  {
    BookedStep([], a);
    BookedStep([a], b);
    BookedStep([a, b], c);
    assert [] + [a] == [a] && [a] + [b] == [a, b] && [a, b] + [c] == [a, b, c];
  }

  /** The stream reporting 5 before submit stores its own record, then 5
      again: with one booking per delta the 5 lots are booked as 10. */
  lemma LateSubmitCountsTwice()
    ensures var reports := [Amount(5, true), Amount(0, false), Amount(5, true)];
            Stored(reports) == 5 && Booked(Deltas(reports)) == 10
  {
    BookedOfThree(Amount(5, true), Amount(0, false), Amount(5, true));
  }

  /** The last report alone may be right by accident: a fall and a rise without a
      fill cancel out. */
  lemma FallHidesMissedFill()
    ensures var reports := [Amount(5, true), Amount(0, false), Amount(5, false)];
            BookedRight(reports) && !NeverFalls(reports) && !RisesAreFills(reports)
  {
    var a, b, c := Amount(5, true), Amount(0, false), Amount(5, false);
    BookedOfThree(a, b, c);
    ReportsStep([a], b);
    ReportsStep([a, b], c);
    assert [a] + [b] == [a, b] && [a, b] + [c] == [a, b, c];
  }
}

/** upsert split at its two locks and its callback, run by any number of
    threads in any interleaving. */
module UpsertProtocol {
  import opened FillDeltas

  /** Where a thread is inside upsert. */
  datatype Pc =
    | Idle
    | Computed(id: int, report: Amount, change: int)    // stored quantity read, delta formed
    | Wrote(id: int, delta: Amount)                     // record stored, callback to come

  /** A record stored, and the quantity its upsert had read before. */
  datatype Write = Write(id: int, report: Amount, seen: int) {
    function Delta(): Amount { Amount(report.qty - seen, report.fill) }
  }

  datatype Emission = Emission(id: int, delta: Amount)

  datatype State = State(
    stored: map<int, int>, threads: map<int, Pc>,
    writes: seq<Write>, emitted: seq<Emission>)

  datatype Action = ReadOld(thread: int, id: int, report: Amount) | WriteNew(thread: int) | Callback(thread: int)

  function PcOf(s: State, t: int): Pc
  {
    if t in s.threads then s.threads[t] else Idle
  }

  function StoredAt(s: State, id: int): int
  {
    if id in s.stored then s.stored[id] else 0
  }

  predicate Enabled(s: State, a: Action)
  {
    match a
    case ReadOld(t, _, _) => PcOf(s, t).Idle?
    case WriteNew(t) => PcOf(s, t).Computed?
    case Callback(t) => PcOf(s, t).Wrote?
  }

  /** The record a thread is about to store. */
  function WriteOf(c: Pc): Write
    requires c.Computed?
  {
    Write(c.id, c.report, c.report.qty - c.change)
  }

  function Step(s: State, a: Action): State
    requires Enabled(s, a)
  {
    match a
    case ReadOld(t, id, r) =>
      s.(threads := s.threads[t := Computed(id, r, r.qty - StoredAt(s, id))])
    case WriteNew(t) =>
      var c := PcOf(s, t);
      s.(threads := s.threads[t := Wrote(c.id, WriteOf(c).Delta())],
         stored := s.stored[c.id := c.report.qty], writes := s.writes + [WriteOf(c)])
    case Callback(t) =>
      var c := PcOf(s, t);
      s.(threads := s.threads[t := Idle], emitted := s.emitted + [Emission(c.id, c.delta)])
  }

  const INITIAL := State(map[], map[], [], [])

  predicate Busy(s: State, t: int, id: int)
  {
    !PcOf(s, t).Idle? && PcOf(s, t).id == id
  }

  /** No upsert of an id starts while another thread is inside one. */
  ghost predicate Separate(s: State, a: Action)
  {
    a.ReadOld? ==> forall t :: !Busy(s, t, a.id)
  }

  ghost predicate CanRun(s: State, run: seq<Action>)
    decreases |run|
  {
    run != [] ==> Enabled(s, run[0]) && CanRun(Step(s, run[0]), run[1..])
  }

  ghost predicate NeverOverlaps(s: State, run: seq<Action>)
    requires CanRun(s, run)
    decreases |run|
  {
    run != [] ==> Separate(s, run[0]) && NeverOverlaps(Step(s, run[0]), run[1..])
  }

  function Run(s: State, run: seq<Action>): State
    requires CanRun(s, run)
    decreases |run|
  {
    if run == [] then s else Run(Step(s, run[0]), run[1..])
  }

  /** The reports written for an id, in order. */
  function WritesOf(w: seq<Write>, id: int): seq<Amount>
  {
    if w == [] then []
    else
      var p := WritesOf(w[..|w| - 1], id);
      if w[|w| - 1].id == id then p + [w[|w| - 1].report] else p
  }

  /** The deltas delivered for an id, in order. */
  function EmittedOf(e: seq<Emission>, id: int): seq<Amount>
  {
    if e == [] then []
    else
      var p := EmittedOf(e[..|e| - 1], id);
      if e[|e| - 1].id == id then p + [e[|e| - 1].delta] else p
  }

  /** For one id: stored is the last written quantity, and the delivered deltas
      are those of the writes, all but the one still to be called back. */
  ghost predicate IdInv(s: State, id: int)
  {
    var reports := WritesOf(s.writes, id);
    && StoredAt(s, id) == Stored(reports)
    && (forall t, u | Busy(s, t, id) && Busy(s, u, id) :: t == u)
    && (forall t | Busy(s, t, id) && PcOf(s, t).Computed? ::
          && PcOf(s, t).change == PcOf(s, t).report.qty - StoredAt(s, id)
          && EmittedOf(s.emitted, id) == Deltas(reports))
    && (forall t | Busy(s, t, id) && PcOf(s, t).Wrote? ::
          EmittedOf(s.emitted, id) + [PcOf(s, t).delta] == Deltas(reports))
    && ((forall t :: !Busy(s, t, id)) ==> EmittedOf(s.emitted, id) == Deltas(reports))
  }

  /** A step that leaves everything about an id alone keeps its invariant. */
  lemma OtherIdUnaffected(s: State, s': State, id: int)
    requires IdInv(s, id)
    requires forall t :: Busy(s', t, id) == Busy(s, t, id) && (Busy(s, t, id) ==> PcOf(s', t) == PcOf(s, t))
    requires StoredAt(s', id) == StoredAt(s, id)
    requires WritesOf(s'.writes, id) == WritesOf(s.writes, id)
    requires EmittedOf(s'.emitted, id) == EmittedOf(s.emitted, id)
    ensures IdInv(s', id)
  {
  }

  lemma ReadKeepsIdInv(s: State, a: Action, id: int)
    requires a.ReadOld? && Enabled(s, a) && IdInv(s, id) && Separate(s, a)
    ensures IdInv(Step(s, a), id)
  {
    var s' := Step(s, a);
    assert forall u | u != a.thread :: PcOf(s', u) == PcOf(s, u);
    if a.id == id {
      assert forall u :: Busy(s', u, id) ==> u == a.thread;
      assert Busy(s', a.thread, id);
    } else {
      OtherIdUnaffected(s, s', id);
    }
  }

  lemma WriteKeepsIdInv(s: State, a: Action, id: int)
    requires a.WriteNew? && Enabled(s, a) && IdInv(s, id)
    ensures IdInv(Step(s, a), id)
  {
    var s', c := Step(s, a), PcOf(s, a.thread);
    assert s'.writes[..|s.writes|] == s.writes;
    assert forall u | u != a.thread :: PcOf(s', u) == PcOf(s, u);
    if c.id == id {
      assert Busy(s, a.thread, id);
      OwnWriteKeepsIdInv(s, s', a.thread, id);
    } else {
      OtherIdUnaffected(s, s', id);
    }
  }

  lemma OwnWriteKeepsIdInv(s: State, s': State, t: int, id: int)
    requires IdInv(s, id) && Busy(s, t, id) && PcOf(s, t).Computed?
    requires PcOf(s', t) == Wrote(id, WriteOf(PcOf(s, t)).Delta()) && forall u | u != t :: PcOf(s', u) == PcOf(s, u)
    requires StoredAt(s', id) == PcOf(s, t).report.qty && s'.emitted == s.emitted
    requires WritesOf(s'.writes, id) == WritesOf(s.writes, id) + [PcOf(s, t).report]
    ensures IdInv(s', id)
  {
    DeltasStep(WritesOf(s.writes, id), PcOf(s, t).report);
    assert Busy(s', t, id);
    assert forall u :: Busy(s', u, id) ==> u == t;
  }

  lemma CallbackKeepsIdInv(s: State, a: Action, id: int)
    requires a.Callback? && Enabled(s, a) && IdInv(s, id)
    ensures IdInv(Step(s, a), id)
  {
    var s', c := Step(s, a), PcOf(s, a.thread);
    assert s'.emitted[..|s.emitted|] == s.emitted;
    assert forall u | u != a.thread :: PcOf(s', u) == PcOf(s, u);
    if c.id == id {
      assert Busy(s, a.thread, id);
      assert forall u :: !Busy(s', u, id);
    } else {
      OtherIdUnaffected(s, s', id);
    }
  }

  lemma StepKeepsIdInv(s: State, a: Action, id: int)
    requires Enabled(s, a) && IdInv(s, id) && Separate(s, a)
    ensures IdInv(Step(s, a), id)
  {
    match a
    case ReadOld(_, _, _) => ReadKeepsIdInv(s, a, id);
    case WriteNew(_) => WriteKeepsIdInv(s, a, id);
    case Callback(_) => CallbackKeepsIdInv(s, a, id);
  }

  lemma {:induction false} RunKeepsIdInv(s: State, run: seq<Action>, id: int)
    requires CanRun(s, run) && NeverOverlaps(s, run) && IdInv(s, id)
    ensures IdInv(Run(s, run), id)
    decreases |run|
  {
    if run != [] {
      StepKeepsIdInv(s, run[0], id);
      RunKeepsIdInv(Step(s, run[0]), run[1..], id);
    }
  }

  /** In every interleaving where upserts of one id do not overlap, once none of
      that id is in flight: the delivered deltas are the changes of the stored
      quantity in order and sum to it; what is booked from them is it exactly when
      as much fell as rose without a fill, so whenever neither happened. */
  lemma DeliveredDeltasMatchStored(run: seq<Action>, id: int)
    requires CanRun(INITIAL, run) && NeverOverlaps(INITIAL, run)
    requires forall t :: !Busy(Run(INITIAL, run), t, id)
    ensures var s := Run(INITIAL, run);
            var d := EmittedOf(s.emitted, id);
            && d == Deltas(WritesOf(s.writes, id)) && SumOf(d) == StoredAt(s, id)
            && (Booked(d) == StoredAt(s, id) <==> Fallen(d) == Unbooked(d))
            && (NeverFalls(WritesOf(s.writes, id)) && RisesAreFills(WritesOf(s.writes, id)) ==>
                  Booked(d) == StoredAt(s, id))
  {
    RunKeepsIdInv(INITIAL, run, id);
    BookedBalance(WritesOf(Run(INITIAL, run).writes, id));
  }

  // ---- Every run, overlapping or not ------------------------------------------------

  /** The deltas formed by the writes of an id, in order. */
  function ClaimedOf(w: seq<Write>, id: int): seq<Amount>
  {
    if w == [] then []
    else
      var n := |w| - 1;
      var p := ClaimedOf(w[..n], id);
      if w[n].id == id then p + [w[n].Delta()] else p
  }

  /** How far the quantities replaced by the writes of an id exceed those their
      upserts had read. */
  function StaleOf(w: seq<Write>, id: int): int
  {
    if w == [] then 0
    else
      var n := |w| - 1;
      StaleOf(w[..n], id) + if w[n].id == id then Stored(WritesOf(w[..n], id)) - w[n].seen else 0
  }

  /** Every write of the id replaces the very quantity its upsert had read. */
  ghost predicate ReadsHold(w: seq<Write>, id: int)
  {
    forall i | 0 <= i < |w| && w[i].id == id :: w[i].seen == Stored(WritesOf(w[..i], id))
  }

  lemma {:induction false} ClaimedIsStoredPlusStale(w: seq<Write>, id: int)
    ensures SumOf(ClaimedOf(w, id)) == Stored(WritesOf(w, id)) + StaleOf(w, id)
  {
    if w != [] {
      var p, x := w[..|w| - 1], w[|w| - 1];
      assert w == p + [x];
      ClaimedIsStoredPlusStale(p, id);
      WriteAppend(p, x, id);
      SumAppend(ClaimedOf(p, id), x.Delta());
    }
  }

  lemma ReadsHoldStep(w: seq<Write>, id: int)
    requires w != []
    ensures ReadsHold(w, id) <==>
            var n := |w| - 1;
            ReadsHold(w[..n], id) && (w[n].id == id ==> w[n].seen == Stored(WritesOf(w[..n], id)))
  {
    var n := |w| - 1;
    assert forall i | 0 <= i < n :: w[..n][..i] == w[..i] && w[..n][i] == w[i];
  }

  /** Each delta is the change its write makes exactly when every write still
      finds what its upsert had read. */
  lemma {:induction false} ClaimsAreChangesExactly(w: seq<Write>, id: int)
    ensures |ClaimedOf(w, id)| == |WritesOf(w, id)|
    ensures ClaimedOf(w, id) == Deltas(WritesOf(w, id)) <==> ReadsHold(w, id)
  {
    if w != [] {
      var n := |w| - 1;
      ClaimsAreChangesExactly(w[..n], id);
      ReadsHoldStep(w, id);
      if w[n].id == id {
        var c, r := ClaimedOf(w[..n], id), WritesOf(w[..n], id);
        DeltasStep(r, w[n].report);
        EqualAppended(c, Deltas(r), w[n].Delta(), Amount(w[n].report.qty - Stored(r), w[n].report.fill));
      }
    }
  }

  lemma EqualAppended(a: seq<Amount>, b: seq<Amount>, x: Amount, y: Amount)
    requires |a| == |b|
    ensures a + [x] == b + [y] <==> a == b && x == y
  {
    if a + [x] == b + [y] {
      assert a == (a + [x])[..|a|] == (b + [y])[..|a|] == b;
      assert (a + [x])[|a|] == (b + [y])[|a|];
    }
  }

  /** The deltas of an id written but not yet called back, over the threads of
      a set, in some order. */
  ghost function PendingOf(s: State, ts: set<int>, id: int): multiset<Amount>
  {
    if !exists t :: t in ts then multiset{}
    else
      var t :| t in ts;
      PendingAt(s, t, id) + PendingOf(s, ts - {t}, id)
  }

  function PendingAt(s: State, t: int, id: int): multiset<Amount>
  {
    if Busy(s, t, id) && PcOf(s, t).Wrote? then multiset{PcOf(s, t).delta} else multiset{}
  }

  lemma {:induction false} PendingWithout(s: State, ts: set<int>, t: int, id: int)
    requires t in ts
    ensures PendingOf(s, ts, id) == PendingAt(s, t, id) + PendingOf(s, ts - {t}, id)
    decreases |ts|
  {
    var u :| u in ts && PendingOf(s, ts, id) == PendingAt(s, u, id) + PendingOf(s, ts - {u}, id);
    if u != t {
      PendingWithout(s, ts - {u}, t, id);
      PendingWithout(s, ts - {t}, u, id);
      assert ts - {u} - {t} == ts - {t} - {u};
    }
  }

  lemma {:induction false} PendingUnchanged(s: State, s': State, ts: set<int>, id: int)
    requires forall t | t in ts :: PcOf(s', t) == PcOf(s, t)
    ensures PendingOf(s', ts, id) == PendingOf(s, ts, id)
    decreases |ts|
  {
    if t :| t in ts {
      PendingWithout(s, ts, t, id);
      PendingWithout(s', ts, t, id);
      PendingUnchanged(s, s', ts - {t}, id);
    }
  }

  lemma {:induction false} NonePending(s: State, ts: set<int>, id: int)
    requires forall t | t in ts :: PendingAt(s, t, id) == multiset{}
    ensures PendingOf(s, ts, id) == multiset{}
    decreases |ts|
  {
    if t :| t in ts {
      PendingWithout(s, ts, t, id);
      NonePending(s, ts - {t}, id);
    }
  }

  /** One thread's step, seen from the pending deltas. */
  lemma PendingStep(s: State, s': State, t: int, id: int)
    requires s'.threads.Keys == s.threads.Keys + {t} && forall u | u != t :: PcOf(s', u) == PcOf(s, u)
    ensures PendingOf(s', s'.threads.Keys, id) + PendingAt(s, t, id)
            == PendingOf(s, s.threads.Keys, id) + PendingAt(s', t, id)
  {
    var rest := s.threads.Keys - {t};
    PendingWithout(s', s'.threads.Keys, t, id);
    assert s'.threads.Keys - {t} == rest;
    PendingUnchanged(s, s', rest, id);
    if t in s.threads {
      PendingWithout(s, s.threads.Keys, t, id);
    } else {
      assert rest == s.threads.Keys;
    }
  }

  /** Nothing formed is lost or made up: what was delivered and what is still
      pending are the deltas of the writes. */
  ghost predicate Delivered(s: State, id: int)
  {
    && StoredAt(s, id) == Stored(WritesOf(s.writes, id))
    && multiset(EmittedOf(s.emitted, id)) + PendingOf(s, s.threads.Keys, id) == multiset(ClaimedOf(s.writes, id))
  }

  /** What a step adds to the deltas delivered is what its thread had pending;
      what it adds to those written is what its thread has pending after it. */
  lemma HistoriesStep(s: State, a: Action, id: int)
    requires Enabled(s, a)
    ensures var s' := Step(s, a);
            && multiset(EmittedOf(s'.emitted, id)) == multiset(EmittedOf(s.emitted, id)) + PendingAt(s, a.thread, id)
            && multiset(ClaimedOf(s'.writes, id)) == multiset(ClaimedOf(s.writes, id)) + PendingAt(s', a.thread, id)
  {
    var t := a.thread;
    match a
    case ReadOld(_, _, _) =>
    case WriteNew(_) =>
      var c := PcOf(s, t);
      WriteAppend(s.writes, WriteOf(c), id);
    case Callback(_) =>
      EmittedAppend(s.emitted, Emission(PcOf(s, t).id, PcOf(s, t).delta), id);
  }

  lemma WriteAppend(w: seq<Write>, x: Write, id: int)
    ensures ClaimedOf(w + [x], id) == if x.id == id then ClaimedOf(w, id) + [x.Delta()] else ClaimedOf(w, id)
    ensures WritesOf(w + [x], id) == if x.id == id then WritesOf(w, id) + [x.report] else WritesOf(w, id)
  {
    assert (w + [x])[..|w|] == w;
  }

  lemma EmittedAppend(e: seq<Emission>, x: Emission, id: int)
    ensures EmittedOf(e + [x], id) == if x.id == id then EmittedOf(e, id) + [x.delta] else EmittedOf(e, id)
  {
    assert (e + [x])[..|e|] == e;
  }

  lemma StoredStep(s: State, a: Action, id: int)
    requires Enabled(s, a) && StoredAt(s, id) == Stored(WritesOf(s.writes, id))
    ensures var s' := Step(s, a);
            StoredAt(s', id) == Stored(WritesOf(s'.writes, id))
  {
    if a.WriteNew? {
      var c := PcOf(s, a.thread);
      WriteAppend(s.writes, WriteOf(c), id);
    }
  }

  lemma Balance(e: multiset<Amount>, p: multiset<Amount>, c: multiset<Amount>, p': multiset<Amount>,
                before: multiset<Amount>, after: multiset<Amount>)
    requires e + p == c && p' + before == p + after
    ensures e + before + p' == c + after
  {
    forall x
      ensures (e + before + p')[x] == (c + after)[x]
    {
      assert (e + p)[x] == c[x] && (p' + before)[x] == (p + after)[x];
    }
  }

  lemma StepKeepsDelivered(s: State, a: Action, id: int)
    requires Enabled(s, a) && Delivered(s, id)
    ensures Delivered(Step(s, a), id)
  {
    var s', t := Step(s, a), a.thread;
    PendingStep(s, s', t, id);
    HistoriesStep(s, a, id);
    Balance(multiset(EmittedOf(s.emitted, id)), PendingOf(s, s.threads.Keys, id), multiset(ClaimedOf(s.writes, id)),
            PendingOf(s', s'.threads.Keys, id), PendingAt(s, t, id), PendingAt(s', t, id));
    StoredStep(s, a, id);
  }

  lemma {:induction false} RunKeepsDelivered(s: State, run: seq<Action>, id: int)
    requires CanRun(s, run) && Delivered(s, id)
    ensures Delivered(Run(s, run), id)
    decreases |run|
  {
    if run != [] {
      StepKeepsDelivered(s, run[0], id);
      RunKeepsDelivered(Step(s, run[0]), run[1..], id);
    }
  }

  /** In every interleaving whatever, once none of an id is in flight: the
      delivered deltas are those formed by the writes, their sum is the stored
      quantity plus the stale amounts, so it is the stored quantity exactly
      when those cancel, and what is booked from them exceeds that sum by what the
      deltas took back and misses what came without a fill.  When every write
      still finds what its upsert read, and only then, the deltas are the changes
      of the stored quantity. */
  lemma DeliveredDeltasExactly(run: seq<Action>, id: int)
    requires CanRun(INITIAL, run)
    requires forall t :: !Busy(Run(INITIAL, run), t, id)
    ensures var s := Run(INITIAL, run);
            var d, reports := EmittedOf(s.emitted, id), WritesOf(s.writes, id);
            && multiset(d) == multiset(ClaimedOf(s.writes, id))
            && SumOf(d) == StoredAt(s, id) + StaleOf(s.writes, id)
            && (SumOf(d) == StoredAt(s, id) <==> StaleOf(s.writes, id) == 0)
            && (ClaimedOf(s.writes, id) == Deltas(reports) <==> ReadsHold(s.writes, id))
            && (var c := ClaimedOf(s.writes, id);
                Booked(d) == StoredAt(s, id) + StaleOf(s.writes, id) + Fallen(c) - Unbooked(c))
            && (ReadsHold(s.writes, id) && NeverFalls(reports) && RisesAreFills(reports) ==>
                  Booked(d) == StoredAt(s, id))
  {
    RunKeepsDelivered(INITIAL, run, id);
    var s := Run(INITIAL, run);
    NonePending(s, s.threads.Keys, id);
    var d, claimed := EmittedOf(s.emitted, id), ClaimedOf(s.writes, id);
    OrderDoesNotMatter(d, claimed);
    ClaimedIsStoredPlusStale(s.writes, id);
    ClaimsAreChangesExactly(s.writes, id);
    SumSplits(claimed);
    BookedBalance(WritesOf(s.writes, id));
  }

  /** No write of the id lands between another thread's read and write of it.
      Callbacks may come at any time, and reads may overlap with them. */
  ghost predicate NeverDisturbed(s: State, run: seq<Action>, id: int)
    requires CanRun(s, run)
    decreases |run|
  {
    run != [] ==>
      && (run[0].WriteNew? && Busy(s, run[0].thread, id) ==>
            forall u | u != run[0].thread && Busy(s, u, id) :: !PcOf(s, u).Computed?)
      && NeverDisturbed(Step(s, run[0]), run[1..], id)
  }

  /** Every write so far found what its upsert had read, and so would every one
      to come. */
  ghost predicate Fresh(s: State, id: int)
  {
    && StoredAt(s, id) == Stored(WritesOf(s.writes, id))
    && ReadsHold(s.writes, id)
    && forall t | Busy(s, t, id) && PcOf(s, t).Computed? :: WriteOf(PcOf(s, t)).seen == StoredAt(s, id)
  }

  lemma StepKeepsFresh(s: State, a: Action, id: int)
    requires Enabled(s, a) && Fresh(s, id)
    requires a.WriteNew? && Busy(s, a.thread, id) ==>
               forall u | u != a.thread && Busy(s, u, id) :: !PcOf(s, u).Computed?
    ensures Fresh(Step(s, a), id)
  {
    var s', t := Step(s, a), a.thread;
    StoredStep(s, a, id);
    if a.WriteNew? {
      var c := PcOf(s, t);
      ReadsHoldAppend(s.writes, WriteOf(c), id);
    }
    forall u | Busy(s', u, id) && PcOf(s', u).Computed?
      ensures WriteOf(PcOf(s', u)).seen == StoredAt(s', id)
    {
      if u != t {
        assert PcOf(s', u) == PcOf(s, u) && Busy(s, u, id);
      }
    }
  }

  lemma ReadsHoldAppend(w: seq<Write>, x: Write, id: int)
    requires ReadsHold(w, id) && (x.id == id ==> x.seen == Stored(WritesOf(w, id)))
    ensures ReadsHold(w + [x], id)
  {
    assert (w + [x])[..|w|] == w;
    ReadsHoldStep(w + [x], id);
  }

  lemma {:induction false} RunKeepsFresh(s: State, run: seq<Action>, id: int)
    requires CanRun(s, run) && NeverDisturbed(s, run, id) && Fresh(s, id)
    ensures Fresh(Run(s, run), id)
    decreases |run|
  {
    if run != [] {
      StepKeepsFresh(s, run[0], id);
      RunKeepsFresh(Step(s, run[0]), run[1..], id);
    }
  }

  /** So upserts of one id may overlap as long as no write comes between
      another's read and write: what is booked is then the stored quantity exactly
      when as much fell as rose without a fill, so whenever neither happened. */
  lemma UndisturbedRunsCountOnce(run: seq<Action>, id: int)
    requires CanRun(INITIAL, run) && NeverDisturbed(INITIAL, run, id)
    requires forall t :: !Busy(Run(INITIAL, run), t, id)
    ensures var s := Run(INITIAL, run);
            var d := EmittedOf(s.emitted, id);
            && ReadsHold(s.writes, id) && SumOf(d) == StoredAt(s, id)
            && (var c := ClaimedOf(s.writes, id);
                Booked(d) == StoredAt(s, id) <==> Fallen(c) == Unbooked(c))
            && (NeverFalls(WritesOf(s.writes, id)) && RisesAreFills(WritesOf(s.writes, id)) ==>
                  Booked(d) == StoredAt(s, id))
  {
    RunKeepsFresh(INITIAL, run, id);
    DeliveredDeltasExactly(run, id);
    ClaimedIsStoredPlusStale(Run(INITIAL, run).writes, id);
    ClaimsAreChangesExactly(Run(INITIAL, run).writes, id);
    BookedBalance(WritesOf(Run(INITIAL, run).writes, id));
  }

  /** Two threads inside upsert of order 1 at once: both read 0 before either
      writes 5, and the 5 lots are delivered twice. */
  lemma OverlapCountsTwice()
    ensures
      var five := Amount(5, true);
      var bothRead := Step(Step(INITIAL, ReadOld(1, 1, five)), ReadOld(2, 1, five));
      var bothWrote := Step(Step(bothRead, WriteNew(1)), WriteNew(2));
      var s := Step(Step(bothWrote, Callback(1)), Callback(2));
      StoredAt(s, 1) == 5 && Booked(EmittedOf(s.emitted, 1)) == 10
  {
    var five := Amount(5, true);
    var e := Emission(1, five);
    EmittedAppend([], e, 1);
    EmittedAppend([e], e, 1);
    SumAppend([], five);
    SumAppend([five], five);
    assert [] + [e] == [e] && [] + [five] == [five];
  }
}

/** The order client as its calls run one at a time. */
module OrderClient {
  import opened Common
  import opened FillDeltas

  datatype OrderState = OrderState(
    orderId: string, localId: int, symbol: Symbol, side: Side, status: OrderStatus, kind: OrderType,
    price: real, qtyTotal: int, qtyFilled: int)

  /** One order of a stream message; an id or quantity that does not parse is 0. */
  datatype StreamOrder = StreamOrder(
    orderId: string, clientOrderId: int, side: Side, status: OrderStatus, kind: OrderType,
    initialQuantity: int, executedQuantity: int)

  /** Conversion to a 32-bit signed integer. */
  function Int32(x: int): int
  {
    (x + 0x8000_0000) % 0x1_0000_0000 - 0x8000_0000
  }

  /** The low 32 bits, the top one as the sign. */
  lemma Int32Wraps(x: int)
    ensures -0x8000_0000 <= Int32(x) < 0x8000_0000 && (x - Int32(x)) % 0x1_0000_0000 == 0
    ensures -0x8000_0000 <= x < 0x8000_0000 ==> Int32(x) == x
  {
    var y := x + 0x8000_0000;
    assert x - Int32(x) == 0x1_0000_0000 * (y / 0x1_0000_0000);
  }

  function Validate(req: OrderRequest): Option<Error>
  {
    if req.clientId == "" then Some(Error(InvalidArgument, "client_id is empty"))
    else if req.quantity <= 0 then Some(Error(InvalidQuantity, "quantity must be > 0"))
    else if req.kind == Limit && req.price <= 0.0 then Some(Error(InvalidPrice, "limit order requires price > 0"))
    else None
  }

  function AmountOf(qty: int, status: OrderStatus): Amount
  {
    Amount(qty, IsFill(status))
  }

  /** The records stored for an id, in order, as reported amounts. */
  function ReportsOf(upserts: seq<OrderState>, id: int): seq<Amount>
  {
    if upserts == [] then []
    else
      var n := |upserts| - 1;
      var p := ReportsOf(upserts[..n], id);
      if upserts[n].localId == id then p + [AmountOf(upserts[n].qtyFilled, upserts[n].status)] else p
  }

  /** The deltas sent out for an id, in order. */
  function SentOf(upserts: seq<OrderState>, sent: seq<OrderUpdate>, id: int): seq<Amount>
    requires |upserts| == |sent|
  {
    if upserts == [] then []
    else
      var n := |upserts| - 1;
      var p := SentOf(upserts[..n], sent[..n], id);
      if upserts[n].localId == id then p + [AmountOf(sent[n].qtyFilled, sent[n].status)] else p
  }

  /** The stored records and the sent updates against the history of upserts. */
  ghost predicate Tracks(orders: map<int, OrderState>, upserts: seq<OrderState>, sent: seq<OrderUpdate>)
  {
    && |sent| == |upserts|
    && forall id :: TracksId(orders, upserts, sent, id)
  }

  ghost predicate TracksId(orders: map<int, OrderState>, upserts: seq<OrderState>, sent: seq<OrderUpdate>, id: int)
    requires |sent| == |upserts|
  {
    var reports := ReportsOf(upserts, id);
    && SentOf(upserts, sent, id) == Deltas(reports)
    && (id in orders <==> reports != [])
    && (id in orders ==> orders[id].qtyFilled == Stored(reports))
  }

  lemma HistoryStep(upserts: seq<OrderState>, sent: seq<OrderUpdate>, state: OrderState, upd: OrderUpdate, id: int)
    requires |sent| == |upserts|
    ensures ReportsOf(upserts + [state], id) ==
            if id == state.localId then ReportsOf(upserts, id) + [AmountOf(state.qtyFilled, state.status)]
            else ReportsOf(upserts, id)
    ensures SentOf(upserts + [state], sent + [upd], id) ==
            if id == state.localId then SentOf(upserts, sent, id) + [AmountOf(upd.qtyFilled, upd.status)]
            else SentOf(upserts, sent, id)
  {
    assert (upserts + [state])[..|upserts|] == upserts && (sent + [upd])[..|sent|] == sent;
  }

  lemma UpsertKeepsTracking(orders: map<int, OrderState>, upserts: seq<OrderState>, sent: seq<OrderUpdate>,
                            state: OrderState, upd: OrderUpdate)
    requires Tracks(orders, upserts, sent)
    requires upd.qtyFilled == state.qtyFilled - (if state.localId in orders then orders[state.localId].qtyFilled else 0)
    requires upd.status == state.status
    ensures Tracks(orders[state.localId := state], upserts + [state], sent + [upd])
    ensures upd.qtyFilled == state.qtyFilled - Stored(ReportsOf(upserts, state.localId))
  {
    assert TracksId(orders, upserts, sent, state.localId);
    var o, u, s := orders[state.localId := state], upserts + [state], sent + [upd];
    forall id
      ensures TracksId(o, u, s, id)
    {
      UpsertKeepsId(orders, upserts, sent, state, upd, id);
    }
  }

  lemma UpsertKeepsId(orders: map<int, OrderState>, upserts: seq<OrderState>, sent: seq<OrderUpdate>,
                      state: OrderState, upd: OrderUpdate, id: int)
    requires Tracks(orders, upserts, sent) && upd.status == state.status
    requires upd.qtyFilled == state.qtyFilled - (if state.localId in orders then orders[state.localId].qtyFilled else 0)
    ensures TracksId(orders[state.localId := state], upserts + [state], sent + [upd], id)
  {
    assert TracksId(orders, upserts, sent, id);
    HistoryStep(upserts, sent, state, upd, id);
    if id == state.localId {
      DeltasStep(ReportsOf(upserts, id), AmountOf(state.qtyFilled, state.status));
    }
  }

  /** For every history of calls and every order: the deltas sent add up to the
      stored quantity; what is booked from them exceeds it by what the reports took
      back and misses what they added without the status of a fill. */
  lemma SentFillsMatchStored(orders: map<int, OrderState>, upserts: seq<OrderState>, sent: seq<OrderUpdate>, id: int)
    requires Tracks(orders, upserts, sent) && id in orders
    ensures SumOf(SentOf(upserts, sent, id)) == orders[id].qtyFilled
    ensures var d, reports := SentOf(upserts, sent, id), ReportsOf(upserts, id);
            && Booked(d) == orders[id].qtyFilled + Fallen(d) - Unbooked(d)
            && (Fallen(d) == 0 <==> NeverFalls(reports)) && (Unbooked(d) == 0 <==> RisesAreFills(reports))
  {
    assert TracksId(orders, upserts, sent, id);
    BookedBalance(ReportsOf(upserts, id));
  }

  class OrderClient {
    var orders: map<int, OrderState>
    var idCounter: int
    ghost var upserts: seq<OrderState>
    ghost var sent: seq<OrderUpdate>       // one update per upsert, in order
    ghost var unpriced: bool               // every upsert had a fill of 0, or a positive one without a price

    ghost predicate Valid()
      reads this
    {
      && Tracks(orders, upserts, sent)
      && idCounter >= 1
      && (unpriced ==>
            && (forall id :: id in orders ==> orders[id].qtyFilled >= 0)
            && (forall i | 0 <= i < |sent| :: sent[i].qtyFilled > 0 ==> sent[i].price == 0.0))
    }

    constructor ()
      ensures Valid() && orders == map[] && upserts == [] && unpriced
    {
      orders, idCounter, upserts, sent, unpriced := map[], 1, [], [], true;
    }

    /** Store the record and send the change in executed quantity. */
    method Upsert(state: OrderState) returns (upd: OrderUpdate)
      requires Valid()
      modifies this`orders, this`upserts, this`sent, this`unpriced
      ensures Valid()
      ensures unpriced == (old(unpriced) && state.qtyFilled >= 0 && (state.qtyFilled == 0 || state.price == 0.0))
      ensures orders == old(orders)[state.localId := state]
      ensures upserts == old(upserts) + [state] && sent == old(sent) + [upd]
      ensures upd.qtyFilled == state.qtyFilled - Stored(old(ReportsOf(upserts, state.localId)))
      ensures upd == OrderUpdate(Int32(state.localId), state.symbol, state.side, state.status, state.kind,
                                 state.price, state.qtyTotal, upd.qtyFilled)
      ensures state.localId in old(orders) && old(orders)[state.localId].qtyFilled == state.qtyFilled ==>
                upd.qtyFilled == 0
    {
      var lid := state.localId;
      var prevFilled := 0;
      if lid in orders {
        prevFilled := orders[lid].qtyFilled;
      }
      var delta := state.qtyFilled - prevFilled;
      upd := OrderUpdate(Int32(lid), state.symbol, state.side, state.status, state.kind,
                         state.price, state.qtyTotal, delta);
      UpsertKeepsTracking(orders, upserts, sent, state, upd);
      orders := orders[lid := state];
      unpriced := unpriced && state.qtyFilled >= 0 && (state.qtyFilled == 0 || state.price == 0.0);
      upserts, sent := upserts + [state], sent + [upd];
    }

    /** Submit with the exchange's answer as input.  Rejected requests change
        nothing; a refused call only uses up an id; an accepted order is stored
        with no fill. */
    method Submit(req: OrderRequest, answer: Result<(string, OrderStatus)>) returns (r: Result<int>)
      requires Valid()
      modifies this
      ensures Valid() && unpriced == old(unpriced)
      ensures Validate(req).Some? ==> r == Err(Validate(req).value) && idCounter == old(idCounter)
      ensures r.Err? ==> orders == old(orders) && sent == old(sent)
      ensures r.Ok? <==>
              req.clientId != "" && req.quantity > 0 && (req.kind == Limit ==> req.price > 0.0) && answer.Ok?
      ensures r.Err? ==>
                r.error.code == if req.clientId == "" then InvalidArgument
                                else if req.quantity <= 0 then InvalidQuantity
                                else if req.kind == Limit && req.price <= 0.0 then InvalidPrice
                                else RpcError
      ensures r.Ok? ==>
                && r.value == old(idCounter) && idCounter == old(idCounter) + 1
                && var o := OrderState(answer.value.0, r.value, req.symbol, req.side, answer.value.1, req.kind,
                                       req.price, req.quantity, 0);
                   && orders == old(orders)[r.value := o] && upserts == old(upserts) + [o]
                   && sent == old(sent) + [OrderUpdate(Int32(r.value), req.symbol, req.side, answer.value.1, req.kind,
                                                       req.price, req.quantity,
                                                       -Stored(old(ReportsOf(upserts, idCounter))))]
                   && (unpriced ==> sent[|sent| - 1].qtyFilled <= 0)
    {
      var err := Validate(req);
      if err.Some? {
        return Err(err.value);
      }
      var localId := idCounter;
      idCounter := idCounter + 1;
      if answer.Err? {
        return Err(Error(RpcError, answer.error.message));
      }
      assert TracksId(orders, upserts, sent, localId);
      var upd := Upsert(OrderState(answer.value.0, localId, req.symbol, req.side, answer.value.1, req.kind,
                                   req.price, req.quantity, 0));
      return Ok(localId);
    }

    /** One order of the stream is stored, under the symbol known so far, if any, and
        always at price 0, and the change in quantity sent. */
    method OnStreamOrder(o: StreamOrder) returns (upd: OrderUpdate)
      requires Valid()
      modifies this
      ensures Valid() && unpriced == (old(unpriced) && o.executedQuantity >= 0) && idCounter == old(idCounter)
      ensures var sym := if o.clientOrderId in old(orders) then old(orders)[o.clientOrderId].symbol else Symbol("", "");
              var stored := OrderState(o.orderId, o.clientOrderId, sym, o.side, o.status, o.kind, 0.0,
                                       o.initialQuantity, o.executedQuantity);
              && orders == old(orders)[o.clientOrderId := stored]
              && upserts == old(upserts) + [stored] && sent == old(sent) + [upd]
              && upd == OrderUpdate(Int32(o.clientOrderId), sym, o.side, o.status, o.kind, 0.0, o.initialQuantity,
                                    o.executedQuantity - Stored(old(ReportsOf(upserts, o.clientOrderId))))
    {
      var sym := Symbol("", "");
      if o.clientOrderId in orders {
        sym := orders[o.clientOrderId].symbol;
      }
      upd := Upsert(OrderState(o.orderId, o.clientOrderId, sym, o.side, o.status, o.kind,
                               0.0, o.initialQuantity, o.executedQuantity));
    }
  }
}
