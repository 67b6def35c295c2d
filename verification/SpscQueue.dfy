/** The lock-free ring as a protocol: one producer and one consumer whose calls
    are split at every atomic load, slot access and atomic store, interleaved
    in any order. */
module SpscProtocol {
  import opened BitMask

  /** Where the producer thread is inside push() or size(). */
  datatype Producer<T> =
    | PIdle
    | PHead(item: T, head: nat)     // head_ loaded
    | PFree(item: T, head: nat)     // tail_ loaded, ring not full
    | PWrote(item: T, head: nat)    // slot written, head_ not yet stored
    | PSizeHead(head: nat)          // size(): head_ loaded
    | PSized(size: nat)             // size(): about to return

  /** Where the consumer thread is inside pop() or size(). */
  datatype Consumer<T> =
    | CIdle
    | CTail(tail: nat)              // tail_ loaded
    | CReady(tail: nat)             // head_ loaded, ring not empty
    | CGot(tail: nat, item: T)      // slot read, tail_ not yet stored
    | CSizeHead(head: nat)
    | CSized(size: nat)

  /** The shared words and slots, both threads' local state, and the history
      of published pushes and pops. */
  datatype State<T> = State(
    head: nat, tail: nat, buffer: seq<T>,
    producer: Producer<T>, consumer: Consumer<T>,
    pushed: seq<T>, popped: seq<T>)

  /** One atomic step of one thread. */
  datatype Action<T> =
    | PushStart(item: T) | PushCheck | PushWrite | PushPublish
    | PopStart | PopCheck | PopRead | PopPublish
    | ProducerSizeStart | ProducerSizeEnd | ProducerSizeReturn
    | ConsumerSizeStart | ConsumerSizeEnd | ConsumerSizeReturn

  /** What a step returns to the caller of push() or pop(), if anything. */
  datatype Label<T> = Silent | PushOk(item: T) | PushFull | PopOk(item: T) | PopEmpty

  /** The ring has 2^k slots and indices are words of w bits. */
  datatype Shape = Shape(k: nat, w: nat) {
    predicate Ok() { 1 <= k <= w }
    function Slots(): (n: nat)
      requires Ok()
      ensures n >= 2
    { Pow2(k) }
    function Mask(i: nat): nat
      requires Ok()
    { BitAnd(i, Slots() - 1) }
  }

  predicate Enabled<T>(s: State<T>, a: Action<T>)
  {
    match a
    case PushStart(_) => s.producer.PIdle?
    case PushCheck => s.producer.PHead?
    case PushWrite => s.producer.PFree?
    case PushPublish => s.producer.PWrote?
    case ProducerSizeStart => s.producer.PIdle?
    case ProducerSizeEnd => s.producer.PSizeHead?
    case ProducerSizeReturn => s.producer.PSized?
    case PopStart => s.consumer.CIdle?
    case PopCheck => s.consumer.CTail?
    case PopRead => s.consumer.CReady?
    case PopPublish => s.consumer.CGot?
    case ConsumerSizeStart => s.consumer.CIdle?
    case ConsumerSizeEnd => s.consumer.CSizeHead?
    case ConsumerSizeReturn => s.consumer.CSized?
  }

  /** The effect of one atomic step.  Memory outside the array is never
      touched from a reachable state; elsewhere the slot access is skipped. */
  function Step<T>(f: Shape, s: State<T>, a: Action<T>): State<T>
    requires f.Ok() && Enabled(s, a)
  {
    match a
    case PushStart(x) => s.(producer := PHead(x, s.head))
    case PushCheck =>
      if f.Mask(s.producer.head + 1) == s.tail then s.(producer := PIdle)
      else s.(producer := PFree(s.producer.item, s.producer.head))
    case PushWrite =>
      s.(producer := PWrote(s.producer.item, s.producer.head),
         buffer := if s.producer.head < |s.buffer| then s.buffer[s.producer.head := s.producer.item] else s.buffer)
    case PushPublish =>
      s.(producer := PIdle, head := f.Mask(s.producer.head + 1), pushed := s.pushed + [s.producer.item])
    case PopStart => s.(consumer := CTail(s.tail))
    case PopCheck =>
      if s.consumer.tail == s.head then s.(consumer := CIdle)
      else s.(consumer := CReady(s.consumer.tail))
    case PopRead =>
      if s.consumer.tail < |s.buffer| then s.(consumer := CGot(s.consumer.tail, s.buffer[s.consumer.tail])) else s
    case PopPublish =>
      s.(consumer := CIdle, tail := f.Mask(s.consumer.tail + 1), popped := s.popped + [s.consumer.item])
    case ProducerSizeStart => s.(producer := PSizeHead(s.head))
    case ProducerSizeEnd => s.(producer := PSized(f.Mask(WordSub(f.w, s.producer.head, s.tail))))
    case ProducerSizeReturn => s.(producer := PIdle)
    case ConsumerSizeStart => s.(consumer := CSizeHead(s.head))
    case ConsumerSizeEnd => s.(consumer := CSized(f.Mask(WordSub(f.w, s.consumer.head, s.tail))))
    case ConsumerSizeReturn => s.(consumer := CIdle)
  }

  function LabelOf<T>(f: Shape, s: State<T>, a: Action<T>): Label<T>
    requires f.Ok() && Enabled(s, a)
  {
    match a
    case PushCheck => if f.Mask(s.producer.head + 1) == s.tail then PushFull else Silent
    case PushPublish => PushOk(s.producer.item)
    case PopCheck => if s.consumer.tail == s.head then PopEmpty else Silent
    case PopPublish => PopOk(s.consumer.item)
    case _ => Silent
  }

  function Initial<T>(buffer: seq<T>): State<T>
  {
    State(0, 0, buffer, PIdle, CIdle, [], [])
  }

  /** Every step of the run is enabled where it happens. */
  predicate CanRun<T>(f: Shape, s: State<T>, run: seq<Action<T>>)
    requires f.Ok()
    decreases |run|
  {
    run != [] ==> Enabled(s, run[0]) && CanRun(f, Step(f, s, run[0]), run[1..])
  }

  function Run<T>(f: Shape, s: State<T>, run: seq<Action<T>>): State<T>
    requires f.Ok() && CanRun(f, s, run)
    decreases |run|
  {
    if run == [] then s else Run(f, Step(f, s, run[0]), run[1..])
  }

  function Labels<T>(f: Shape, s: State<T>, run: seq<Action<T>>): seq<Label<T>>
    requires f.Ok() && CanRun(f, s, run)
    decreases |run|
  {
    if run == [] then [] else [LabelOf(f, s, run[0])] + Labels(f, Step(f, s, run[0]), run[1..])
  }

  function Slot(i: nat, n: nat): nat
    requires n > 0
  {
    i % n
  }

  /** The slot of the i-th readable item. */
  function ReadSlot<T>(f: Shape, s: State<T>, i: nat): nat
    requires f.Ok()
  {
    Slot(s.tail + i, f.Slots())
  }

  /** The slots between tail and head, read from the shared words alone. */
  function Ring<T>(f: Shape, s: State<T>): seq<T>
    requires f.Ok() && |s.buffer| == f.Slots()
  {
    seq((s.head - s.tail) % f.Slots(), i requires i >= 0 => s.buffer[ReadSlot(f, s, i)])
  }

  // ---- Invariant ---------------------------------------------------------

  ghost predicate ProducerInv<T>(n: nat, s: State<T>)
    requires n > 0
  {
    var live := |s.pushed| - |s.popped|;
    match s.producer
    case PIdle => true
    case PHead(_, h) => h == s.head
    case PFree(_, h) => h == s.head && live < n - 1
    case PWrote(x, h) => h == s.head && live < n - 1 && h < |s.buffer| && s.buffer[h] == x
    case PSizeHead(h) => h == s.head
    case PSized(m) => live <= m < n
  }

  ghost predicate ConsumerInv<T>(n: nat, s: State<T>)
    requires n > 0
  {
    var live := |s.pushed| - |s.popped|;
    match s.consumer
    case CIdle => true
    case CTail(t) => t == s.tail
    case CReady(t) => t == s.tail && live > 0
    case CGot(t, x) => t == s.tail && live > 0 && x == s.pushed[|s.popped|]
    case CSizeHead(h) => exists i: nat :: |s.popped| <= i <= |s.pushed| && h == Slot(i, n)
    case CSized(m) => m <= live
  }

  ghost predicate SharedInv<T>(n: nat, s: State<T>)
    requires n > 0
  {
    && |s.buffer| == n
    && |s.popped| <= |s.pushed| <= |s.popped| + n - 1
    && s.popped == s.pushed[..|s.popped|]
    && s.head == Slot(|s.pushed|, n)
    && s.tail == Slot(|s.popped|, n)
    && forall i: nat | |s.popped| <= i < |s.pushed| :: s.buffer[Slot(i, n)] == s.pushed[i]
  }

  ghost predicate Inv<T>(f: Shape, s: State<T>)
    requires f.Ok()
  {
    SharedInv(f.Slots(), s) && ProducerInv(f.Slots(), s) && ConsumerInv(f.Slots(), s)
  }

  // ---- Ring arithmetic ---------------------------------------------------

  /** The masked successor of a slot is the slot of the next position. */
  lemma NextSlot(f: Shape, i: nat)
    requires f.Ok()
    ensures f.Mask(Slot(i, f.Slots()) + 1) == Slot(i + 1, f.Slots())
  {
    var n := f.Slots();
    MaskIsMod(Slot(i, n) + 1, f.k);
    SlotAdd(i, 1, n);
  }

  lemma SlotAdd(i: nat, j: nat, n: nat)
    requires n > 0
    ensures Slot(Slot(i, n) + j, n) == Slot(i + j, n)
  {
    var q, q', r := i / n, (Slot(i, n) + j) / n, (Slot(i, n) + j) % n;
    assert i + j == (q + q') * n + r;
    ModUnique(i + j, q + q', r, n);
  }

  /** The index difference modulo the ring size is the distance between two
      positions fewer than n apart. */
  lemma SlotDistance(i: nat, j: nat, n: nat)
    requires n > 0 && i <= j < i + n
    ensures (Slot(j, n) - Slot(i, n)) % n == j - i
  {
    var q := i / n - j / n;
    assert Slot(j, n) - Slot(i, n) == q * n + (j - i);
    ModUnique(Slot(j, n) - Slot(i, n), q, j - i, n);
  }

  lemma SlotsDistinct(i: nat, j: nat, n: nat)
    requires n > 0 && i < j < i + n
    ensures Slot(i, n) != Slot(j, n)
  {
    SlotDistance(i, j, n);
  }

  lemma MaskedSize(f: Shape, i: nat, j: nat)
    requires f.Ok() && i <= j < i + f.Slots()
    ensures f.Mask(WordSub(f.w, Slot(j, f.Slots()), Slot(i, f.Slots()))) == j - i
  {
    MaskedWordSub(f.w, f.k, Slot(j, f.Slots()), Slot(i, f.Slots()));
    SlotDistance(i, j, f.Slots());
  }

  // ---- The invariant is kept by every step of either thread ----------------

  lemma ProducerKeepsInv<T>(f: Shape, s: State<T>, a: Action<T>)
    requires f.Ok() && Inv(f, s) && Enabled(s, a)
    requires a.PushStart? || a.PushCheck? || a.ProducerSizeStart? || a.ProducerSizeEnd? || a.ProducerSizeReturn?
    ensures Inv(f, Step(f, s, a))
    ensures a.PushCheck? ==> (f.Mask(s.producer.head + 1) == s.tail <==> |s.pushed| - |s.popped| == f.Slots() - 1)
  {
    var n := f.Slots();
    NextSlot(f, |s.pushed|);
    if a.PushCheck? {
      var p, c := |s.pushed|, |s.popped|;
      if p + 1 < c + n {
        SlotsDistinct(c, p + 1, n);
      } else {
        SlotAdd(c, n, n);
        assert Slot(Slot(c, n) + n, n) == Slot(c, n) by { ModUnique(Slot(c, n) + n, 1, Slot(c, n), n); }
      }
    }
    MaskedSize(f, |s.popped|, |s.pushed|);
  }

  lemma WriteKeepsInv<T>(f: Shape, s: State<T>)
    requires f.Ok() && Inv(f, s) && Enabled(s, PushWrite)
    ensures Inv(f, Step(f, s, PushWrite))
    ensures forall i: nat | |s.popped| <= i < |s.pushed| :: Slot(i, f.Slots()) != s.producer.head
  {
    var n := f.Slots();
    forall i: nat | |s.popped| <= i < |s.pushed|
      ensures Slot(i, n) != s.producer.head
    {
      SlotsDistinct(i, |s.pushed|, n);
    }
  }

  lemma PublishKeepsInv<T>(f: Shape, s: State<T>)
    requires f.Ok() && Inv(f, s) && Enabled(s, PushPublish)
    ensures Inv(f, Step(f, s, PushPublish))
  {
    var n := f.Slots();
    NextSlot(f, |s.pushed|);
    var s' := Step(f, s, PushPublish);
    forall i: nat | |s'.popped| <= i < |s'.pushed|
      ensures s'.buffer[Slot(i, n)] == s'.pushed[i]
    {
      if i == |s.pushed| {
        assert Slot(i, n) == s.producer.head;
      }
    }
  }

  lemma ConsumerKeepsInv<T>(f: Shape, s: State<T>, a: Action<T>)
    requires f.Ok() && Inv(f, s) && Enabled(s, a)
    requires a.PopStart? || a.PopCheck? || a.PopRead?
             || a.ConsumerSizeStart? || a.ConsumerSizeEnd? || a.ConsumerSizeReturn?
    ensures Inv(f, Step(f, s, a))
    ensures a.PopCheck? ==> (s.consumer.tail == s.head <==> |s.pushed| == |s.popped|)
  {
    var n := f.Slots();
    if a.PopCheck? && |s.popped| < |s.pushed| {
      SlotsDistinct(|s.popped|, |s.pushed|, n);
    }
    if a.ConsumerSizeStart? {
      assert s.head == Slot(|s.pushed|, n);
    }
    if a.ConsumerSizeEnd? {
      var i: nat :| |s.popped| <= i <= |s.pushed| && s.consumer.head == Slot(i, n);
      MaskedSize(f, |s.popped|, i);
    }
    if a.PopRead? {
      assert s.buffer[Slot(|s.popped|, n)] == s.pushed[|s.popped|];
    }
  }

  lemma PopPublishKeepsInv<T>(f: Shape, s: State<T>)
    requires f.Ok() && Inv(f, s) && Enabled(s, PopPublish)
    ensures Inv(f, Step(f, s, PopPublish))
  {
    NextSlot(f, |s.popped|);
  }

  lemma StepKeepsInv<T>(f: Shape, s: State<T>, a: Action<T>)
    requires f.Ok() && Inv(f, s) && Enabled(s, a)
    ensures Inv(f, Step(f, s, a))
  {
    match a
    case PushWrite => WriteKeepsInv(f, s);
    case PushPublish => PublishKeepsInv(f, s);
    case PopPublish => PopPublishKeepsInv(f, s);
    case PopStart | PopCheck | PopRead | ConsumerSizeStart | ConsumerSizeEnd | ConsumerSizeReturn =>
      ConsumerKeepsInv(f, s, a);
    case _ => ProducerKeepsInv(f, s, a);
  }

  lemma {:induction false} RunKeepsInv<T>(f: Shape, s: State<T>, run: seq<Action<T>>)
    requires f.Ok() && Inv(f, s) && CanRun(f, s, run)
    ensures Inv(f, Run(f, s, run))
    decreases |run|
  {
    if run != [] {
      StepKeepsInv(f, s, run[0]);
      RunKeepsInv(f, Step(f, s, run[0]), run[1..]);
    }
  }

  lemma RingIsUnpopped<T>(f: Shape, s: State<T>)
    requires f.Ok() && Inv(f, s)
    ensures Ring(f, s) == s.pushed[|s.popped|..]
  {
    var n := f.Slots();
    SlotDistance(|s.popped|, |s.pushed|, n);
    var live := |s.pushed| - |s.popped|;
    forall i | 0 <= i < live
      ensures Ring(f, s)[i] == s.pushed[|s.popped| + i]
    {
      SlotAdd(|s.popped|, i, n);
      assert s.buffer[Slot(|s.popped| + i, n)] == s.pushed[|s.popped| + i];
    }
  }

  // ---- Theorems over every run ---------------------------------------------

  ghost predicate Reachable<T(!new)>(f: Shape, s: State<T>)
    requires f.Ok()
  {
    exists buffer: seq<T>, run: seq<Action<T>> ::
      |buffer| == f.Slots() && CanRun(f, Initial(buffer), run) && s == Run(f, Initial(buffer), run)
  }

  lemma ReachableInv<T(!new)>(f: Shape, s: State<T>)
    requires f.Ok() && Reachable(f, s)
    ensures Inv(f, s)
  {
    var buffer, run :| |buffer| == f.Slots() && CanRun(f, Initial(buffer), run) && s == Run(f, Initial(buffer), run);
    RunKeepsInv(f, Initial(buffer), run);
  }

  /** Nothing is lost, duplicated or reordered: what was popped, followed by
      what the ring holds, is what was pushed; the ring holds at most n - 1. */
  lemma NothingLost<T(!new)>(f: Shape, s: State<T>)
    requires f.Ok() && Reachable(f, s)
    ensures |s.buffer| == f.Slots()
    ensures s.popped + Ring(f, s) == s.pushed
    ensures |Ring(f, s)| <= f.Slots() - 1
  {
    ReachableInv(f, s);
    RingIsUnpopped(f, s);
  }

  /** When the producer is about to write a slot, that slot is inside the
      array, is none of the readable ones, and is not the one the consumer is
      reading. */
  lemma WriteNeverTouchesReadableSlot<T(!new)>(f: Shape, s: State<T>)
    requires f.Ok() && Reachable(f, s) && Enabled(s, PushWrite)
    ensures s.producer.head < |s.buffer| == f.Slots()
    ensures forall i: nat | i < |Ring(f, s)| :: ReadSlot(f, s, i) != s.producer.head
    ensures s.consumer.CReady? ==> s.consumer.tail != s.producer.head
  {
    ReachableInv(f, s);
    WriteAvoidsRing(f, s);
  }

  lemma WriteAvoidsRing<T>(f: Shape, s: State<T>)
    requires f.Ok() && Inv(f, s) && Enabled(s, PushWrite)
    ensures forall i: nat | i < |Ring(f, s)| :: ReadSlot(f, s, i) != s.producer.head
    ensures s.consumer.CReady? ==> s.consumer.tail != s.producer.head
  {
    RingIsUnpopped(f, s);
    WriteKeepsInv(f, s);
    forall i: nat | i < |Ring(f, s)|
      ensures ReadSlot(f, s, i) != s.producer.head
    {
      SlotAdd(|s.popped|, i, f.Slots());
      assert ReadSlot(f, s, i) == Slot(|s.popped| + i, f.Slots());
    }
  }

  /** A push is refused exactly when n - 1 items are live at its load of
      tail_, a pop exactly when none is live at its load of head_. */
  lemma RefusalIsExact<T(!new)>(f: Shape, s: State<T>)
    requires f.Ok() && Reachable(f, s)
    ensures |s.buffer| == f.Slots()
    ensures Enabled(s, PushCheck) ==> (LabelOf(f, s, PushCheck) == PushFull <==> |Ring(f, s)| == f.Slots() - 1)
    ensures Enabled(s, PopCheck) ==> (LabelOf(f, s, PopCheck) == PopEmpty <==> Ring(f, s) == [])
  {
    ReachableInv(f, s);
    RingIsUnpopped(f, s);
    if Enabled(s, PushCheck) {
      ProducerKeepsInv(f, s, PushCheck);
    }
    if Enabled(s, PopCheck) {
      ConsumerKeepsInv(f, s, PopCheck);
    }
  }

  /** When a pop comes back empty, as at the end of draining the queue, everything
      pushed up to its load of head_ has been popped. */
  lemma EmptyMeansDrained<T(!new)>(f: Shape, s: State<T>)
    requires f.Ok() && Reachable(f, s) && Enabled(s, PopCheck)
    ensures LabelOf(f, s, PopCheck) == PopEmpty <==> s.popped == s.pushed
  {
    NothingLost(f, s);
    RefusalIsExact(f, s);
  }

  /** size() stays in 0..n-1.  When it returns, the producer's value is an
      upper bound and the consumer's a lower bound on the live items. */
  lemma SizeIsOneSided<T(!new)>(f: Shape, s: State<T>)
    requires f.Ok() && Reachable(f, s)
    ensures |s.buffer| == f.Slots()
    ensures s.producer.PSized? ==> |Ring(f, s)| <= s.producer.size <= f.Slots() - 1
    ensures s.consumer.CSized? ==> s.consumer.size <= |Ring(f, s)| <= f.Slots() - 1
  {
    ReachableInv(f, s);
    RingIsUnpopped(f, s);
  }

  // ---- Refinement of a bounded FIFO ----------------------------------------

  /** The specification: a FIFO of at most `cap` items. */
  predicate FifoStep<T(==)>(cap: nat, q: seq<T>, l: Label<T>, q': seq<T>)
  {
    match l
    case Silent => q' == q
    case PushOk(x) => |q| < cap && q' == q + [x]
    case PushFull => |q| == cap && q' == q
    case PopOk(x) => q != [] && x == q[0] && q' == q[1..]
    case PopEmpty => q == [] && q' == q
  }

  predicate FifoRun<T(==)>(cap: nat, q: seq<T>, ls: seq<Label<T>>, q': seq<T>)
    decreases |ls|
  {
    if ls == [] then q == q'
    else match ls[0]
      case Silent => FifoRun(cap, q, ls[1..], q')
      case PushOk(x) => |q| < cap && FifoRun(cap, q + [x], ls[1..], q')
      case PushFull => |q| == cap && FifoRun(cap, q, ls[1..], q')
      case PopOk(x) => q != [] && x == q[0] && FifoRun(cap, q[1..], ls[1..], q')
      case PopEmpty => q == [] && FifoRun(cap, q, ls[1..], q')
  }

  /** A step as seen on the histories alone. */
  lemma UnpoppedStep<T>(f: Shape, s: State<T>, a: Action<T>)
    requires f.Ok() && Inv(f, s) && Enabled(s, a)
    ensures Inv(f, Step(f, s, a))
    ensures var s' := Step(f, s, a);
            FifoStep(f.Slots() - 1, s.pushed[|s.popped|..], LabelOf(f, s, a), s'.pushed[|s'.popped|..])
  {
    StepKeepsInv(f, s, a);
    match a
    case PushCheck => ProducerKeepsInv(f, s, a);
    case PopCheck => ConsumerKeepsInv(f, s, a);
    case PushPublish =>
      assert (s.pushed + [s.producer.item])[|s.popped|..] == s.pushed[|s.popped|..] + [s.producer.item];
    case PopPublish =>
      assert s.pushed[|s.popped|..][1..] == s.pushed[|s.popped| + 1..];
    case _ =>
  }

  lemma StepRefinesFifo<T>(f: Shape, s: State<T>, a: Action<T>)
    requires f.Ok() && Inv(f, s) && Enabled(s, a)
    ensures Inv(f, Step(f, s, a))
    ensures FifoStep(f.Slots() - 1, Ring(f, s), LabelOf(f, s, a), Ring(f, Step(f, s, a)))
  {
    UnpoppedStep(f, s, a);
    RingIsUnpopped(f, s);
    RingIsUnpopped(f, Step(f, s, a));
  }

  /** Every interleaving refines a bounded FIFO: the values returned to the
      callers, in the order of their last atomic step, form a legal history of
      a queue of capacity n - 1 that ends in the ring's contents. */
  lemma {:induction false} RunRefinesFifo<T>(f: Shape, s: State<T>, run: seq<Action<T>>)
    requires f.Ok() && Inv(f, s) && CanRun(f, s, run)
    ensures |Run(f, s, run).buffer| == f.Slots()
    ensures FifoRun(f.Slots() - 1, Ring(f, s), Labels(f, s, run), Ring(f, Run(f, s, run)))
    decreases |run|
  {
    if run != [] {
      var s' := Step(f, s, run[0]);
      StepRefinesFifo(f, s, run[0]);
      RunRefinesFifo(f, s', run[1..]);
      var ls := Labels(f, s, run);
      assert ls[0] == LabelOf(f, s, run[0]) && ls[1..] == Labels(f, s', run[1..]);
    }
  }
}

/** The queue object itself, with push and pop as the calls run when no step
    of the other thread falls inside them. */
module SpscQueue {
  import opened Common
  import opened BitMask
  import opened SpscProtocol

  /** The producer's steps of one push, taken one after the other. */
  function SoloPush<T>(f: Shape, s: State<T>, x: T): State<T>
    requires f.Ok() && s.producer.PIdle?
  {
    var s' := Step(f, Step(f, s, PushStart(x)), PushCheck);
    if s'.producer.PIdle? then s' else Step(f, Step(f, s', PushWrite), PushPublish)
  }

  /** The consumer's steps of one pop, taken one after the other. */
  function SoloPop<T>(f: Shape, s: State<T>): State<T>
    requires f.Ok() && s.consumer.CIdle?
  {
    var s' := Step(f, Step(f, s, PopStart), PopCheck);
    if s'.consumer.CIdle? then s'
    else
      var s'' := Step(f, s', PopRead);
      if s''.consumer.CGot? then Step(f, s'', PopPublish) else s''
  }

  /** The state a push that runs alone leaves. */
  lemma SoloPushEffect<T>(f: Shape, s: State<T>, x: T)
    requires f.Ok() && Inv(f, s) && s.producer.PIdle?
    ensures s.head < |s.buffer| && Inv(f, SoloPush(f, s, x))
    ensures f.Mask(s.head + 1) == s.tail <==> |s.pushed| - |s.popped| == f.Slots() - 1
    ensures SoloPush(f, s, x) ==
            if f.Mask(s.head + 1) == s.tail then s
            else s.(buffer := s.buffer[s.head := x], head := f.Mask(s.head + 1), pushed := s.pushed + [x])
  {
    var s1 := Step(f, s, PushStart(x));
    StepKeepsInv(f, s, PushStart(x));
    ProducerKeepsInv(f, s1, PushCheck);
    if f.Mask(s.head + 1) != s.tail {
      var s2 := Step(f, s1, PushCheck);
      WriteKeepsInv(f, s2);
      PublishKeepsInv(f, Step(f, s2, PushWrite));
    }
  }

  /** A push that runs alone appends to the FIFO unless n - 1 items are held. */
  lemma SoloPushAppends<T>(f: Shape, s: State<T>, x: T)
    requires f.Ok() && Inv(f, s) && s.producer.PIdle?
    ensures Inv(f, SoloPush(f, s, x))
    ensures f.Mask(s.head + 1) == s.tail <==> |Ring(f, s)| == f.Slots() - 1
    ensures |Ring(f, s)| <= f.Slots() - 1
    ensures Ring(f, SoloPush(f, s, x)) == if |Ring(f, s)| < f.Slots() - 1 then Ring(f, s) + [x] else Ring(f, s)
  {
    SoloPushEffect(f, s, x);
    RingIsUnpopped(f, s);
    RingIsUnpopped(f, SoloPush(f, s, x));
    assert (s.pushed + [x])[|s.popped|..] == s.pushed[|s.popped|..] + [x];
  }

  /** The state a pop that runs alone leaves. */
  lemma SoloPopEffect<T>(f: Shape, s: State<T>)
    requires f.Ok() && Inv(f, s) && s.consumer.CIdle?
    ensures s.tail < |s.buffer| && Inv(f, SoloPop(f, s))
    ensures s.tail == s.head <==> |s.pushed| == |s.popped|
    ensures s.tail != s.head ==> s.buffer[s.tail] == s.pushed[|s.popped|]
    ensures SoloPop(f, s) ==
            if s.tail == s.head then s
            else s.(tail := f.Mask(s.tail + 1), popped := s.popped + [s.buffer[s.tail]])
  {
    var s1 := Step(f, s, PopStart);
    StepKeepsInv(f, s, PopStart);
    ConsumerKeepsInv(f, s1, PopCheck);
    if s.tail != s.head {
      var s2 := Step(f, s1, PopCheck);
      ConsumerKeepsInv(f, s2, PopRead);
      PopPublishKeepsInv(f, Step(f, s2, PopRead));
    }
  }

  /** A pop that runs alone removes the oldest item unless nothing is held. */
  lemma SoloPopRemoves<T>(f: Shape, s: State<T>)
    requires f.Ok() && Inv(f, s) && s.consumer.CIdle?
    ensures s.tail < |s.buffer| && Inv(f, SoloPop(f, s))
    ensures s.tail == s.head <==> Ring(f, s) == []
    ensures Ring(f, s) == (if s.tail == s.head then [] else [s.buffer[s.tail]]) + Ring(f, SoloPop(f, s))
  {
    SoloPopEffect(f, s);
    RingIsUnpopped(f, s);
    RingIsUnpopped(f, SoloPop(f, s));
  }

  class SpscQueue<T(0)> {
    const shape: Shape
    var head: nat
    var tail: nat
    const buffer: array<T>
    ghost var pushed: seq<T>
    ghost var popped: seq<T>

    ghost function Model(): State<T>
      reads this, buffer
    {
      State(head, tail, buffer[..], PIdle, CIdle, pushed, popped)
    }

    ghost predicate Valid()
      reads this, buffer
    {
      shape.Ok() && Inv(shape, Model())
    }

    /** What the queue holds, oldest first. */
    ghost function Contents(): seq<T>
      requires Valid()
      reads this, buffer
    {
      Ring(shape, Model())
    }

    constructor (f: Shape)
      requires f.Ok()
      ensures Valid() && shape == f && Contents() == [] && fresh(buffer)
    {
      shape := f;
      head, tail, pushed, popped := 0, 0, [], [];
      buffer := new T[f.Slots()];
      new;
      RingIsUnpopped(shape, Model());
    }

    method Push(item: T) returns (ok: bool)
      requires Valid()
      modifies this, buffer
      ensures Valid()
      ensures Model() == SoloPush(shape, old(Model()), item)
      ensures ok == (|old(Contents())| < shape.Slots() - 1)
      ensures Contents() == if ok then old(Contents()) + [item] else old(Contents())
    {
      SoloPushEffect(shape, Model(), item);
      SoloPushAppends(shape, Model(), item);
      var h := head;
      var next := BitAnd(h + 1, shape.Slots() - 1);
      if next == tail {
        return false;
      }
      buffer[h] := item;
      head := next;
      pushed := pushed + [item];
      return true;
    }

    method Pop() returns (r: Option<T>)
      requires Valid()
      modifies this
      ensures Valid()
      ensures Model() == SoloPop(shape, old(Model()))
      ensures r.None? <==> old(Contents()) == []
      ensures r.Some? ==> old(Contents()) == [r.value] + Contents()
      ensures r.None? ==> Contents() == old(Contents())
    {
      SoloPopEffect(shape, Model());
      SoloPopRemoves(shape, Model());
      var t := tail;
      if t == head {
        return None;
      }
      var item := buffer[t];
      tail := BitAnd(t + 1, shape.Slots() - 1);
      popped := popped + [item];
      return Some(item);
    }

    method Size() returns (n: nat)
      requires Valid()
      ensures n == |Contents()|
    {
      MaskedSize(shape, |popped|, |pushed|);
      RingIsUnpopped(shape, Model());
      n := BitAnd(WordSub(shape.w, head, tail), shape.Slots() - 1);
    }

    method Empty() returns (e: bool)
      requires Valid()
      ensures e <==> Contents() == []
    {
      RingIsUnpopped(shape, Model());
      if |popped| < |pushed| {
        SlotsDistinct(|popped|, |pushed|, shape.Slots());
      }
      e := head == tail;
    }
  }
}

/** The same ring pushed from any number of threads: each is somewhere inside
    push() or size(), and their steps interleave with the consumer's. */
module ManyProducers {
  import opened BitMask
  import opened SpscProtocol
  import opened SpscQueue

  /** The ring, whose own producer field stays idle, and the threads. */
  datatype Threads<T> = Threads(ring: State<T>, callers: map<int, Producer<T>>)

  /** One atomic step of one thread; a consumer's step takes no caller further. */
  datatype Move<T> = Move(thread: int, action: Action<T>)

  function At<T>(m: Threads<T>, t: int): Producer<T>
  {
    if t in m.callers then m.callers[t] else PIdle
  }

  /** The ring as one thread sees it. */
  function View<T>(m: Threads<T>, t: int): State<T>
  {
    m.ring.(producer := At(m, t))
  }

  predicate Ready<T>(m: Threads<T>, mv: Move<T>)
  {
    Enabled(View(m, mv.thread), mv.action)
  }

  function MoveBy<T>(f: Shape, m: Threads<T>, mv: Move<T>): Threads<T>
    requires f.Ok() && Ready(m, mv)
  {
    var s := Step(f, View(m, mv.thread), mv.action);
    Threads(s.(producer := PIdle), m.callers[mv.thread := s.producer])
  }

  predicate CanMove<T>(f: Shape, m: Threads<T>, run: seq<Move<T>>)
    requires f.Ok()
    decreases |run|
  {
    run != [] ==> Ready(m, run[0]) && CanMove(f, MoveBy(f, m, run[0]), run[1..])
  }

  function MoveAll<T>(f: Shape, m: Threads<T>, run: seq<Move<T>>): Threads<T>
    requires f.Ok() && CanMove(f, m, run)
    decreases |run|
  {
    if run == [] then m else MoveAll(f, MoveBy(f, m, run[0]), run[1..])
  }

  function LabelsOf<T>(f: Shape, m: Threads<T>, run: seq<Move<T>>): seq<Label<T>>
    requires f.Ok() && CanMove(f, m, run)
    decreases |run|
  {
    if run == [] then []
    else [LabelOf(f, View(m, run[0].thread), run[0].action)] + LabelsOf(f, MoveBy(f, m, run[0]), run[1..])
  }

  function Start<T>(buffer: seq<T>): Threads<T>
  {
    Threads(Initial(buffer), map[])
  }

  // ---- Calls that do not overlap -----------------------------------------------

  /** A push() or size() starts only while no thread is inside one. */
  ghost predicate Alone<T>(m: Threads<T>, mv: Move<T>)
  {
    mv.action.PushStart? || mv.action.ProducerSizeStart? ==> forall t :: At(m, t).PIdle?
  }

  ghost predicate NoOverlap<T>(f: Shape, m: Threads<T>, run: seq<Move<T>>)
    requires f.Ok() && CanMove(f, m, run)
    decreases |run|
  {
    run != [] ==> Alone(m, run[0]) && NoOverlap(f, MoveBy(f, m, run[0]), run[1..])
  }

  function Actions<T>(run: seq<Move<T>>): seq<Action<T>>
  {
    if run == [] then [] else [run[0].action] + Actions(run[1..])
  }

  /** The single producer of s is where the one busy thread of m is. */
  ghost predicate Shows<T(!new)>(m: Threads<T>, s: State<T>)
  {
    && m.ring == s.(producer := PIdle)
    && exists t :: At(m, t) == s.producer && forall u | u != t :: At(m, u).PIdle?
  }

  lemma MoveIsStep<T(!new)>(f: Shape, m: Threads<T>, s: State<T>, mv: Move<T>)
    requires f.Ok() && Shows(m, s) && Ready(m, mv) && Alone(m, mv)
    ensures Enabled(s, mv.action) && Shows(MoveBy(f, m, mv), Step(f, s, mv.action))
    ensures LabelOf(f, View(m, mv.thread), mv.action) == LabelOf(f, s, mv.action)
  {
    var t :| At(m, t) == s.producer && forall u | u != t :: At(m, u).PIdle?;
    var m' := MoveBy(f, m, mv);
    assert forall u | u != mv.thread :: At(m', u) == At(m, u);
    if At(m, mv.thread) == s.producer {
      assert View(m, mv.thread) == s;
      assert At(m', mv.thread) == Step(f, s, mv.action).producer;
      if mv.thread != t {
        assert s.producer.PIdle?;
      }
    } else {
      assert At(m', mv.thread) == At(m, mv.thread) && At(m', t) == s.producer;
    }
  }

  lemma {:induction false} RunIsSingle<T(!new)>(f: Shape, m: Threads<T>, s: State<T>, run: seq<Move<T>>)
    requires f.Ok() && Shows(m, s) && CanMove(f, m, run) && NoOverlap(f, m, run)
    ensures CanRun(f, s, Actions(run)) && Shows(MoveAll(f, m, run), Run(f, s, Actions(run)))
    ensures LabelsOf(f, m, run) == Labels(f, s, Actions(run))
    decreases |run|
  {
    if run != [] {
      MoveIsStep(f, m, s, run[0]);
      RunIsSingle(f, MoveBy(f, m, run[0]), Step(f, s, run[0].action), run[1..]);
      assert Actions(run)[1..] == Actions(run[1..]);
    }
  }

  /** Any number of pushing threads whose calls do not overlap, in any
      interleaving with the consumer, refine the bounded FIFO. */
  lemma SeparateCallsRefineFifo<T(!new)>(f: Shape, buffer: seq<T>, run: seq<Move<T>>)
    requires f.Ok() && |buffer| == f.Slots()
    requires CanMove(f, Start(buffer), run) && NoOverlap(f, Start(buffer), run)
    ensures var m := MoveAll(f, Start(buffer), run);
            && |m.ring.buffer| == f.Slots() && m.ring.popped + Ring(f, m.ring) == m.ring.pushed
            && FifoRun(f.Slots() - 1, [], LabelsOf(f, Start(buffer), run), Ring(f, m.ring))
  {
    var s := Initial(buffer);
    assert At(Start(buffer), 0) == s.producer;
    RunIsSingle(f, Start(buffer), s, run);
    RunRefinesFifo(f, s, Actions(run));
    NothingLost(f, Run(f, s, Actions(run)));
    var m, s' := MoveAll(f, Start(buffer), run), Run(f, s, Actions(run));
    assert Ring(f, m.ring) == Ring(f, s') && Ring(f, s) == [];
  }

  // ---- Every run, whatever overlaps ----------------------------------------------------

  /** A position up to one turn ahead, as a slot. */
  function Wrap(i: nat, n: nat): nat
  {
    if i < n then i else i - n
  }

  ghost predicate InRange<T>(f: Shape, s: State<T>)
    requires f.Ok()
  {
    |s.buffer| == f.Slots() && s.head < f.Slots() && s.tail < f.Slots()
  }

  lemma SlotWraps(i: nat, n: nat)
    requires i < n + n
    ensures Slot(i, n) == Wrap(i, n)
  {
    if i < n {
      ModUnique(i, 0, i, n);
    } else {
      ModUnique(i, 1, i - n, n);
    }
  }

  lemma RingShape<T>(f: Shape, s: State<T>)
    requires f.Ok() && InRange(f, s)
    ensures |Ring(f, s)| == (if s.head >= s.tail then s.head - s.tail else s.head - s.tail + f.Slots()) < f.Slots()
    ensures forall i: nat | i < |Ring(f, s)| ::
              ReadSlot(f, s, i) == Wrap(s.tail + i, f.Slots()) && Ring(f, s)[i] == s.buffer[Wrap(s.tail + i, f.Slots())]
  {
    var n := f.Slots();
    if s.head >= s.tail {
      ModUnique(s.head - s.tail, 0, s.head - s.tail, n);
    } else {
      ModUnique(s.head - s.tail, -1, s.head - s.tail + n, n);
    }
    forall i: nat | i < |Ring(f, s)|
      ensures ReadSlot(f, s, i) == Wrap(s.tail + i, n)
    {
      SlotWraps(s.tail + i, n);
    }
  }

  lemma MaskWraps(f: Shape, h: nat)
    requires f.Ok() && h < f.Slots()
    ensures f.Mask(h + 1) == Wrap(h + 1, f.Slots())
  {
    MaskIsMod(h + 1, f.k);
    SlotWraps(h + 1, f.Slots());
  }

  /** Publishing from a loaded head appends the item exactly when that head is
      still the ring's, the ring has room and the slot still holds the item. */
  lemma PublishAppendsExactly<T>(f: Shape, s: State<T>, e: State<T>, h: nat, x: T)
    requires f.Ok() && InRange(f, s) && h < f.Slots()
    requires e.head == f.Mask(h + 1) && e.tail == s.tail && e.buffer == s.buffer
    ensures InRange(f, e)
    ensures Ring(f, e) == Ring(f, s) + [x] <==> h == s.head && |Ring(f, s)| < f.Slots() - 1 && s.buffer[h] == x
  {
    MaskWraps(f, h);
    RingShape(f, s);
    RingShape(f, e);
    var l := |Ring(f, s)|;
    if Ring(f, e) == Ring(f, s) + [x] {
      assert |Ring(f, e)| == l + 1 && Ring(f, e)[l] == x;
    }
  }

  /** The slot holds an item waiting to be popped. */
  ghost predicate Readable<T>(f: Shape, s: State<T>, h: nat)
    requires f.Ok() && |s.buffer| == f.Slots()
  {
    exists i: nat :: i < |Ring(f, s)| && ReadSlot(f, s, i) == h
  }

  /** Writing a slot leaves the ring's contents alone exactly when nobody can read
      it, or it holds the item already. */
  lemma WriteHarmlessExactly<T>(f: Shape, s: State<T>, e: State<T>, h: nat, x: T)
    requires f.Ok() && InRange(f, s) && h < f.Slots()
    requires e.head == s.head && e.tail == s.tail && e.buffer == s.buffer[h := x]
    ensures InRange(f, e)
    ensures Ring(f, e) == Ring(f, s) <==> !Readable(f, s, h) || s.buffer[h] == x
  {
    RingShape(f, s);
    RingShape(f, e);
    if Ring(f, e) == Ring(f, s) && Readable(f, s, h) {
      var i: nat :| i < |Ring(f, s)| && ReadSlot(f, s, i) == h;
      assert Ring(f, e)[i] == x && Ring(f, s)[i] == s.buffer[h];
    }
    if !Readable(f, s, h) || s.buffer[h] == x {
      forall i: nat | i < |Ring(f, s)|
        ensures Ring(f, e)[i] == Ring(f, s)[i]
      {
        assert ReadSlot(f, s, i) == Wrap(s.tail + i, f.Slots());
      }
    }
  }

  lemma PopDropsFirst<T>(f: Shape, s: State<T>, e: State<T>)
    requires f.Ok() && InRange(f, s) && Ring(f, s) != []
    requires e.tail == f.Mask(s.tail + 1) && e.head == s.head && e.buffer == s.buffer
    ensures InRange(f, e) && Ring(f, e) == Ring(f, s)[1..]
  {
    MaskWraps(f, s.tail);
    RingShape(f, s);
    RingShape(f, e);
  }

  lemma SameRing<T>(f: Shape, s: State<T>, e: State<T>)
    requires f.Ok() && InRange(f, s) && e.head == s.head && e.tail == s.tail && e.buffer == s.buffer
    ensures InRange(f, e) && Ring(f, e) == Ring(f, s)
  {
    RingShape(f, s);
    RingShape(f, e);
  }

  /** Nothing is lost, duplicated or reordered. */
  ghost predicate Intact<T>(f: Shape, m: Threads<T>)
    requires f.Ok()
  {
    InRange(f, m.ring) && m.ring.popped + Ring(f, m.ring) == m.ring.pushed
  }

  /** What the local values still promise while the ring is intact: heads loaded are
      slots, and the consumer's view of the first item is right. */
  ghost predicate LocalsHold<T>(f: Shape, m: Threads<T>)
    requires f.Ok() && InRange(f, m.ring)
  {
    && m.ring.producer.PIdle?
    && (forall t :: At(m, t).PHead? || At(m, t).PFree? || At(m, t).PWrote? ==> At(m, t).head < f.Slots())
    && match m.ring.consumer
       case CTail(t) => t == m.ring.tail
       case CReady(t) => t == m.ring.tail && Ring(f, m.ring) != []
       case CGot(t, x) => t == m.ring.tail && Ring(f, m.ring) != [] && x == Ring(f, m.ring)[0]
       case _ => true
  }

  /** The condition on one step of any thread: a publish finds the head it loaded,
      room, and its own item in the slot; a write finds a slot nobody can read, or
      its own item there already. */
  ghost predicate Sound<T>(f: Shape, m: Threads<T>, mv: Move<T>)
    requires f.Ok() && InRange(f, m.ring) && LocalsHold(f, m) && Ready(m, mv)
  {
    var p := At(m, mv.thread);
    match mv.action
    case PushWrite => !Readable(f, m.ring, p.head) || m.ring.buffer[p.head] == p.item
    case PushPublish =>
      p.head == m.ring.head && |Ring(f, m.ring)| < f.Slots() - 1 && m.ring.buffer[p.head] == p.item
    case _ => true
  }

  lemma EqualAfterPrefix<T>(a: seq<T>, b: seq<T>, c: seq<T>)
    ensures a + b == a + c <==> b == c
  {
    if a + b == a + c {
      assert b == (a + b)[|a|..] == (a + c)[|a|..] == c;
    }
  }

  lemma WriteStep<T>(f: Shape, m: Threads<T>, mv: Move<T>)
    requires f.Ok() && Intact(f, m) && LocalsHold(f, m) && Ready(m, mv) && mv.action.PushWrite?
    ensures Intact(f, MoveBy(f, m, mv)) <==> Sound(f, m, mv)
    ensures Sound(f, m, mv) ==> LocalsHold(f, MoveBy(f, m, mv))
  {
    var m', p := MoveBy(f, m, mv), At(m, mv.thread);
    WriteHarmlessExactly(f, m.ring, m'.ring, p.head, p.item);
    EqualAfterPrefix(m.ring.popped, Ring(f, m'.ring), Ring(f, m.ring));
    assert forall t | t != mv.thread :: At(m', t) == At(m, t);
  }

  lemma PublishStep<T>(f: Shape, m: Threads<T>, mv: Move<T>)
    requires f.Ok() && Intact(f, m) && LocalsHold(f, m) && Ready(m, mv) && mv.action.PushPublish?
    ensures Intact(f, MoveBy(f, m, mv)) <==> Sound(f, m, mv)
    ensures Sound(f, m, mv) ==> LocalsHold(f, MoveBy(f, m, mv))
  {
    var m', p := MoveBy(f, m, mv), At(m, mv.thread);
    PublishAppendsExactly(f, m.ring, m'.ring, p.head, p.item);
    assert m.ring.pushed + [p.item] == m.ring.popped + (Ring(f, m.ring) + [p.item]);
    EqualAfterPrefix(m.ring.popped, Ring(f, m'.ring), Ring(f, m.ring) + [p.item]);
    assert forall t | t != mv.thread :: At(m', t) == At(m, t);
  }

  lemma PopPublishStep<T>(f: Shape, m: Threads<T>, mv: Move<T>)
    requires f.Ok() && Intact(f, m) && LocalsHold(f, m) && Ready(m, mv) && mv.action.PopPublish?
    ensures Intact(f, MoveBy(f, m, mv)) && LocalsHold(f, MoveBy(f, m, mv))
  {
    var m' := MoveBy(f, m, mv);
    PopDropsFirst(f, m.ring, m'.ring);
    assert Ring(f, m.ring) == [Ring(f, m.ring)[0]] + Ring(f, m.ring)[1..];
    assert forall t | t != mv.thread :: At(m', t) == At(m, t);
  }

  lemma QuietStep<T>(f: Shape, m: Threads<T>, mv: Move<T>)
    requires f.Ok() && Intact(f, m) && LocalsHold(f, m) && Ready(m, mv)
    requires !mv.action.PushWrite? && !mv.action.PushPublish? && !mv.action.PopPublish?
    ensures Intact(f, MoveBy(f, m, mv)) && LocalsHold(f, MoveBy(f, m, mv))
  {
    var m' := MoveBy(f, m, mv);
    SameRing(f, m.ring, m'.ring);
    RingShape(f, m.ring);
    assert forall t | t != mv.thread :: At(m', t) == At(m, t);
  }

  lemma StepKeepsIntactExactly<T>(f: Shape, m: Threads<T>, mv: Move<T>)
    requires f.Ok() && Intact(f, m) && LocalsHold(f, m) && Ready(m, mv)
    ensures Intact(f, MoveBy(f, m, mv)) <==> Sound(f, m, mv)
    ensures Sound(f, m, mv) ==> LocalsHold(f, MoveBy(f, m, mv))
  {
    match mv.action
    case PushWrite => WriteStep(f, m, mv);
    case PushPublish => PublishStep(f, m, mv);
    case PopPublish => PopPublishStep(f, m, mv);
    case _ => QuietStep(f, m, mv);
  }

  /** The ring is intact before, between and after all steps of the run. */
  ghost predicate AlwaysIntact<T>(f: Shape, m: Threads<T>, run: seq<Move<T>>)
    requires f.Ok() && CanMove(f, m, run)
    decreases |run|
  {
    Intact(f, m) && (run != [] ==> AlwaysIntact(f, MoveBy(f, m, run[0]), run[1..]))
  }

  ghost predicate AlwaysSound<T>(f: Shape, m: Threads<T>, run: seq<Move<T>>)
    requires f.Ok() && Intact(f, m) && LocalsHold(f, m) && CanMove(f, m, run)
    decreases |run|
  {
    run != [] ==>
      && Sound(f, m, run[0])
      && (StepKeepsIntactExactly(f, m, run[0]);
          AlwaysSound(f, MoveBy(f, m, run[0]), run[1..]))
  }

  lemma {:induction false} RunKeepsIntactExactly<T>(f: Shape, m: Threads<T>, run: seq<Move<T>>)
    requires f.Ok() && Intact(f, m) && LocalsHold(f, m) && CanMove(f, m, run)
    ensures AlwaysIntact(f, m, run) <==> AlwaysSound(f, m, run)
    decreases |run|
  {
    if run != [] {
      var m' := MoveBy(f, m, run[0]);
      StepKeepsIntactExactly(f, m, run[0]);
      if Sound(f, m, run[0]) {
        RunKeepsIntactExactly(f, m', run[1..]);
      }
    }
  }

  lemma StartIsIntact<T>(f: Shape, buffer: seq<T>)
    requires f.Ok() && |buffer| == f.Slots()
    ensures Intact(f, Start(buffer)) && LocalsHold(f, Start(buffer))
  {
    RingShape(f, Start(buffer).ring);
  }

  /** Any number of pushing threads and the consumer, in every interleaving at all,
      overlapping or not: at no point is an item lost, duplicated or reordered
      exactly when every publish and every write of the run is sound. */
  lemma QueueStaysWholeExactly<T>(f: Shape, buffer: seq<T>, run: seq<Move<T>>)
    requires f.Ok() && |buffer| == f.Slots() && CanMove(f, Start(buffer), run)
    ensures Intact(f, Start(buffer)) && LocalsHold(f, Start(buffer))
    ensures AlwaysIntact(f, Start(buffer), run) <==> AlwaysSound(f, Start(buffer), run)
  {
    StartIsIntact(f, buffer);
    RunKeepsIntactExactly(f, Start(buffer), run);
  }

  // ---- Refusals as well --------------------------------------------------------------

  /** The push is refused although it compared a head that is not the ring's. */
  predicate RefusedStale<T(==)>(f: Shape, m: Threads<T>, mv: Move<T>)
    requires f.Ok() && Ready(m, mv)
  {
    && mv.action.PushCheck? && LabelOf(f, View(m, mv.thread), mv.action) == PushFull
    && At(m, mv.thread).head != m.ring.head
  }

  /** On an intact ring a push that loaded the present head is refused exactly when
      the ring is full; one with another head is refused exactly when the slot after
      that head is the tail, and then there is always room. */
  lemma RefusalExactly<T>(f: Shape, m: Threads<T>, t: int)
    requires f.Ok() && Intact(f, m) && LocalsHold(f, m) && At(m, t).PHead?
    ensures var refused := LabelOf(f, View(m, t), PushCheck) == PushFull;
            && (At(m, t).head == m.ring.head ==> (refused <==> |Ring(f, m.ring)| == f.Slots() - 1))
            && (At(m, t).head != m.ring.head ==> (refused <==> Wrap(At(m, t).head + 1, f.Slots()) == m.ring.tail))
            && (At(m, t).head != m.ring.head && refused ==> |Ring(f, m.ring)| < f.Slots() - 1)
  {
    MaskWraps(f, At(m, t).head);
    RingShape(f, m.ring);
  }

  /** The step is a legal one of a FIFO of capacity n - 1 for what it returns. */
  ghost predicate Legal<T>(f: Shape, m: Threads<T>, mv: Move<T>)
    requires f.Ok() && InRange(f, m.ring) && Ready(m, mv)
  {
    var m' := MoveBy(f, m, mv);
    |m'.ring.buffer| == f.Slots()
    && FifoStep(f.Slots() - 1, Ring(f, m.ring), LabelOf(f, View(m, mv.thread), mv.action), Ring(f, m'.ring))
  }

  ghost predicate Faithful<T>(f: Shape, m: Threads<T>, mv: Move<T>)
    requires f.Ok() && InRange(f, m.ring) && LocalsHold(f, m) && Ready(m, mv)
  {
    Sound(f, m, mv) && !RefusedStale(f, m, mv)
  }

  lemma WriteIsLegalExactly<T>(f: Shape, m: Threads<T>, mv: Move<T>)
    requires f.Ok() && Intact(f, m) && LocalsHold(f, m) && Ready(m, mv) && mv.action.PushWrite?
    ensures Legal(f, m, mv) <==> Faithful(f, m, mv)
  {
    var p := At(m, mv.thread);
    WriteHarmlessExactly(f, m.ring, MoveBy(f, m, mv).ring, p.head, p.item);
  }

  lemma PublishIsLegalExactly<T>(f: Shape, m: Threads<T>, mv: Move<T>)
    requires f.Ok() && Intact(f, m) && LocalsHold(f, m) && Ready(m, mv) && mv.action.PushPublish?
    ensures Legal(f, m, mv) <==> Faithful(f, m, mv)
  {
    var p := At(m, mv.thread);
    PublishAppendsExactly(f, m.ring, MoveBy(f, m, mv).ring, p.head, p.item);
  }

  lemma CheckIsLegalExactly<T>(f: Shape, m: Threads<T>, mv: Move<T>)
    requires f.Ok() && Intact(f, m) && LocalsHold(f, m) && Ready(m, mv) && mv.action.PushCheck?
    ensures Legal(f, m, mv) <==> Faithful(f, m, mv)
  {
    SameRing(f, m.ring, MoveBy(f, m, mv).ring);
    RefusalExactly(f, m, mv.thread);
  }

  lemma OtherIsLegal<T>(f: Shape, m: Threads<T>, mv: Move<T>)
    requires f.Ok() && Intact(f, m) && LocalsHold(f, m) && Ready(m, mv)
    requires !mv.action.PushWrite? && !mv.action.PushPublish? && !mv.action.PushCheck?
    ensures Legal(f, m, mv) && Faithful(f, m, mv)
  {
    RingShape(f, m.ring);
    if mv.action.PopPublish? {
      PopDropsFirst(f, m.ring, MoveBy(f, m, mv).ring);
    } else {
      SameRing(f, m.ring, MoveBy(f, m, mv).ring);
    }
  }

  /** On an intact ring a step is legal exactly when it is sound and refuses no push
      over a stale head. */
  lemma StepIsLegalExactly<T>(f: Shape, m: Threads<T>, mv: Move<T>)
    requires f.Ok() && Intact(f, m) && LocalsHold(f, m) && Ready(m, mv)
    ensures Legal(f, m, mv) <==> Faithful(f, m, mv)
  {
    match mv.action
    case PushWrite => WriteIsLegalExactly(f, m, mv);
    case PushPublish => PublishIsLegalExactly(f, m, mv);
    case PushCheck => CheckIsLegalExactly(f, m, mv);
    case _ => OtherIsLegal(f, m, mv);
  }

  /** Every step of the run is legal. */
  ghost predicate AlwaysLegal<T>(f: Shape, m: Threads<T>, run: seq<Move<T>>)
    requires f.Ok() && CanMove(f, m, run)
    decreases |run|
  {
    InRange(f, m.ring)
    && (run != [] ==> Legal(f, m, run[0]) && AlwaysLegal(f, MoveBy(f, m, run[0]), run[1..]))
  }

  ghost predicate AlwaysFaithful<T>(f: Shape, m: Threads<T>, run: seq<Move<T>>)
    requires f.Ok() && Intact(f, m) && LocalsHold(f, m) && CanMove(f, m, run)
    decreases |run|
  {
    run != [] ==>
      && Faithful(f, m, run[0])
      && (StepKeepsIntactExactly(f, m, run[0]);
          AlwaysFaithful(f, MoveBy(f, m, run[0]), run[1..]))
  }

  lemma {:induction false} RunIsLegalExactly<T>(f: Shape, m: Threads<T>, run: seq<Move<T>>)
    requires f.Ok() && Intact(f, m) && LocalsHold(f, m) && CanMove(f, m, run)
    ensures AlwaysLegal(f, m, run) <==> AlwaysFaithful(f, m, run)
    decreases |run|
  {
    if run != [] {
      StepIsLegalExactly(f, m, run[0]);
      StepKeepsIntactExactly(f, m, run[0]);
      if Faithful(f, m, run[0]) {
        RunIsLegalExactly(f, MoveBy(f, m, run[0]), run[1..]);
      }
    }
  }

  lemma {:induction false} LegalRunIsFifo<T>(f: Shape, m: Threads<T>, run: seq<Move<T>>)
    requires f.Ok() && CanMove(f, m, run) && AlwaysLegal(f, m, run)
    ensures |m.ring.buffer| == |MoveAll(f, m, run).ring.buffer| == f.Slots()
    ensures FifoRun(f.Slots() - 1, Ring(f, m.ring), LabelsOf(f, m, run), Ring(f, MoveAll(f, m, run).ring))
    decreases |run|
  {
    if run != [] {
      var m' := MoveBy(f, m, run[0]);
      LegalRunIsFifo(f, m', run[1..]);
      var ls := LabelsOf(f, m, run);
      assert ls[0] == LabelOf(f, View(m, run[0].thread), run[0].action) && ls[1..] == LabelsOf(f, m', run[1..]);
    }
  }

  /** Any number of pushing threads and the consumer, in every interleaving at all:
      every step is a legal one of the bounded FIFO exactly when every publish and
      write is sound and no push is refused over a stale head; what the calls return
      is then a legal history ending in the ring's contents. */
  lemma QueueIsFifoExactly<T>(f: Shape, buffer: seq<T>, run: seq<Move<T>>)
    requires f.Ok() && |buffer| == f.Slots() && CanMove(f, Start(buffer), run)
    ensures Intact(f, Start(buffer)) && LocalsHold(f, Start(buffer))
    ensures AlwaysLegal(f, Start(buffer), run) <==> AlwaysFaithful(f, Start(buffer), run)
    ensures AlwaysLegal(f, Start(buffer), run) ==>
              var end := MoveAll(f, Start(buffer), run).ring;
              && |end.buffer| == f.Slots()
              && FifoRun(f.Slots() - 1, [], LabelsOf(f, Start(buffer), run), Ring(f, end))
  {
    StartIsIntact(f, buffer);
    RunIsLegalExactly(f, Start(buffer), run);
    if AlwaysLegal(f, Start(buffer), run) {
      LegalRunIsFifo(f, Start(buffer), run);
      RingShape(f, Start(buffer).ring);
    }
  }

  lemma {:induction false} MovesAppend<T>(f: Shape, m: Threads<T>, a: seq<Move<T>>, b: seq<Move<T>>)
    requires f.Ok() && CanMove(f, m, a) && CanMove(f, MoveAll(f, m, a), b)
    ensures CanMove(f, m, a + b) && MoveAll(f, m, a + b) == MoveAll(f, MoveAll(f, m, a), b)
    decreases |a|
  {
    if a == [] {
      assert a + b == b;
    } else {
      MovesAppend(f, MoveBy(f, m, a[0]), a[1..], b);
      assert (a + b)[1..] == a[1..] + b;
    }
  }

  lemma TwoMoves<T>(f: Shape, m: Threads<T>, a: Move<T>, b: Move<T>)
    requires f.Ok() && Ready(m, a) && Ready(MoveBy(f, m, a), b)
    ensures CanMove(f, m, [a, b]) && MoveAll(f, m, [a, b]) == MoveBy(f, MoveBy(f, m, a), b)
  {
    var m1 := MoveBy(f, m, a);
    assert [a, b][1..] == [b] && [b][1..] == [];
    assert MoveAll(f, m1, [b]) == MoveBy(f, m1, b);
    assert MoveAll(f, m, [a, b]) == MoveAll(f, m1, [b]);
  }

  function PushMoves<T>(u: int, y: T): seq<Move<T>>
  {
    [Move(u, PushStart(y)), Move(u, PushCheck)] + [Move(u, PushWrite), Move(u, PushPublish)]
  }

  lemma PushAlone<T>(f: Shape, m: Threads<T>, u: int, y: T)
    requires f.Ok() && m.ring.producer.PIdle? && At(m, u).PIdle?
    requires m.ring.head < |m.ring.buffer| && f.Mask(m.ring.head + 1) != m.ring.tail
    ensures CanMove(f, m, PushMoves(u, y))
    ensures MoveAll(f, m, PushMoves(u, y)) ==
            Threads(m.ring.(buffer := m.ring.buffer[m.ring.head := y], head := f.Mask(m.ring.head + 1),
                            pushed := m.ring.pushed + [y]), m.callers[u := PIdle])
  {
    var m1 := MoveBy(f, m, Move(u, PushStart(y)));
    var m2 := MoveBy(f, m1, Move(u, PushCheck));
    TwoMoves(f, m, Move(u, PushStart(y)), Move(u, PushCheck));
    var m3 := MoveBy(f, m2, Move(u, PushWrite));
    TwoMoves(f, m2, Move(u, PushWrite), Move(u, PushPublish));
    MovesAppend(f, m, [Move(u, PushStart(y)), Move(u, PushCheck)], [Move(u, PushWrite), Move(u, PushPublish)]);
    assert MoveBy(f, m3, Move(u, PushPublish)).callers == m.callers[u := PIdle];
  }

  function PopMoves<T>(u: int): seq<Move<T>>
  {
    [Move(u, PopStart), Move(u, PopCheck)] + [Move(u, PopRead), Move(u, PopPublish)]
  }

  lemma PopAlone<T>(f: Shape, m: Threads<T>, u: int)
    requires f.Ok() && m.ring.producer.PIdle? && m.ring.consumer.CIdle?
    requires m.ring.tail < |m.ring.buffer| && m.ring.tail != m.ring.head
    ensures CanMove(f, m, PopMoves(u))
    ensures MoveAll(f, m, PopMoves(u)) ==
            Threads(m.ring.(tail := f.Mask(m.ring.tail + 1), popped := m.ring.popped + [m.ring.buffer[m.ring.tail]]),
                    m.callers[u := At(m, u)])
  {
    var m1 := MoveBy(f, m, Move(u, PopStart));
    var m2 := MoveBy(f, m1, Move(u, PopCheck));
    TwoMoves(f, m, Move(u, PopStart), Move(u, PopCheck));
    var m3 := MoveBy(f, m2, Move(u, PopRead));
    TwoMoves(f, m2, Move(u, PopRead), Move(u, PopPublish));
    MovesAppend(f, m, [Move(u, PopStart), Move(u, PopCheck)], [Move(u, PopRead), Move(u, PopPublish)]);
    assert MoveBy(f, m3, Move(u, PopPublish)).callers == m.callers[u := At(m, u)];
  }

  /** For every ring size: one thread loads head, another pushes and the consumer pops;
      the first push is then refused on an empty ring. */
  lemma EmptyRingRefuses<T>(f: Shape, buffer: seq<T>, t: int, u: int, x: T, y: T)
    requires f.Ok() && |buffer| == f.Slots() && t != u
    ensures var run := [Move(t, PushStart(x))] + (PushMoves(u, y) + PopMoves(u));
            && CanMove(f, Start(buffer), run)
            && var m := MoveAll(f, Start(buffer), run);
               && |m.ring.buffer| == f.Slots() && Ring(f, m.ring) == []
               && Ready(m, Move(t, PushCheck)) && RefusedStale(f, m, Move(t, PushCheck))
  {
    MaskWraps(f, 0);
    var first := [Move(t, PushStart(x))];
    var m1 := MoveBy(f, Start(buffer), first[0]);
    assert first[1..] == [] && CanMove(f, Start(buffer), first) && MoveAll(f, Start(buffer), first) == m1;
    PushAlone(f, m1, u, y);
    var m2 := MoveAll(f, m1, PushMoves(u, y));
    PopAlone(f, m2, u);
    var m3 := MoveAll(f, m2, PopMoves(u));
    MovesAppend(f, m1, PushMoves(u, y), PopMoves(u));
    MovesAppend(f, Start(buffer), first, PushMoves(u, y) + PopMoves(u));
    assert At(m3, t) == PHead(x, 0) && m3.ring.head == m3.ring.tail == f.Mask(1);
    RingShape(f, m3.ring);
  }

  // ---- Two pushes and nothing else ------------------------------------------------------

  /** Two threads load head_ and tail_, neither having published yet. */
  function BothLoaded<T>(f: Shape, m: Threads<T>, t: int, u: int, x: T, y: T): Threads<T>
    requires f.Ok() && t != u && At(m, t).PIdle? && At(m, u).PIdle?
  {
    var m1 := MoveBy(f, MoveBy(f, m, Move(t, PushStart(x))), Move(t, PushCheck));
    MoveBy(f, MoveBy(f, m1, Move(u, PushStart(y))), Move(u, PushCheck))
  }

  lemma LoadsChooseHead<T>(f: Shape, s: State<T>, x: T)
    requires f.Ok() && Inv(f, s) && s.producer.PIdle?
    ensures |s.buffer| == f.Slots() && s.head < f.Slots()
    ensures Step(f, Step(f, s, PushStart(x)), PushCheck) ==
            if |Ring(f, s)| == f.Slots() - 1 then s else s.(producer := PFree(x, s.head))
  {
    var s1 := Step(f, s, PushStart(x));
    ProducerKeepsInv(f, s, PushStart(x));
    ProducerKeepsInv(f, s1, PushCheck);
    RingIsUnpopped(f, s);
  }

  /** A ring full at the loads refuses both pushes and is left alone; otherwise
      both threads have chosen the same slot. */
  lemma BothLoadedExactly<T>(f: Shape, m: Threads<T>, t: int, u: int, x: T, y: T)
    requires f.Ok() && Inv(f, m.ring) && m.ring.producer.PIdle?
    requires t != u && At(m, t).PIdle? && At(m, u).PIdle?
    ensures var n := BothLoaded(f, m, t, u, x, y);
            && |m.ring.buffer| == f.Slots() && m.ring.head < f.Slots() && n.ring == m.ring
            && if |Ring(f, m.ring)| == f.Slots() - 1 then At(n, t).PIdle? && At(n, u).PIdle?
               else At(n, t) == PFree(x, m.ring.head) && At(n, u) == PFree(y, m.ring.head)
  {
    LoadsChooseHead(f, m.ring, x);
    LoadsChooseHead(f, m.ring, y);
    assert View(m, t) == m.ring;
  }

  /** One of the two threads goes on with its push. */
  predicate Proceeds<T>(mv: Move<T>, t: int, u: int)
  {
    (mv.thread == t || mv.thread == u) && (mv.action.PushWrite? || mv.action.PushPublish?)
  }

  /** A thread still to write, about to publish, or done. */
  predicate Phase<T(==)>(p: Producer<T>, x: T, h: nat)
  {
    p == PFree(x, h) || p == PWrote(x, h) || p.PIdle?
  }

  /** The items published, in either order if both are. */
  predicate Published<T(==)>(items: seq<T>, p: Producer<T>, q: Producer<T>, x: T, y: T)
  {
    if p.PIdle? && q.PIdle? then items == [x, y] || items == [y, x]
    else items == (if p.PIdle? then [x] else if q.PIdle? then [y] else [])
  }

  /** What can have become of ring s while two threads push into its free slot. */
  ghost predicate Racing<T>(f: Shape, s: State<T>, m: Threads<T>, t: int, u: int, x: T, y: T)
    requires f.Ok() && s.head < |s.buffer|
  {
    var p, q, h := At(m, t), At(m, u), s.head;
    && Phase(p, x, h) && Phase(q, y, h)
    && s.pushed <= m.ring.pushed && Published(m.ring.pushed[|s.pushed|..], p, q, x, y)
    && m.ring.head == (if p.PIdle? || q.PIdle? then f.Mask(h + 1) else h)
    && m.ring.tail == s.tail && m.ring.popped == s.popped
    && |m.ring.buffer| == |s.buffer| && m.ring.buffer == s.buffer[h := m.ring.buffer[h]]
    && ((p.PFree? && q.PFree?) || m.ring.buffer[h] == x || m.ring.buffer[h] == y)
  }

  lemma ProceedingKeepsRacing<T>(f: Shape, s: State<T>, m: Threads<T>, mv: Move<T>, t: int, u: int, x: T, y: T)
    requires f.Ok() && s.head < |s.buffer| && Racing(f, s, m, t, u, x, y)
    requires t != u && Proceeds(mv, t, u) && Ready(m, mv)
    ensures Racing(f, s, MoveBy(f, m, mv), t, u, x, y)
  {
    var m', h := MoveBy(f, m, mv), s.head;
    var z, item := m.ring.buffer[h], if mv.thread == t then x else y;
    assert s.buffer[h := z][h := item] == s.buffer[h := item];
    var k := |s.pushed|;
    if mv.action.PushPublish? {
      assert m'.ring.pushed[k..] == m.ring.pushed[k..] + [item];
    }
  }

  lemma {:induction false} RaceEnds<T>(f: Shape, s: State<T>, m: Threads<T>, rest: seq<Move<T>>,
                                       t: int, u: int, x: T, y: T)
    requires f.Ok() && s.head < |s.buffer| && Racing(f, s, m, t, u, x, y)
    requires t != u && CanMove(f, m, rest) && forall i | 0 <= i < |rest| :: Proceeds(rest[i], t, u)
    ensures Racing(f, s, MoveAll(f, m, rest), t, u, x, y)
    decreases |rest|
  {
    if rest != [] {
      ProceedingKeepsRacing(f, s, m, rest[0], t, u, x, y);
      RaceEnds(f, s, MoveBy(f, m, rest[0]), rest[1..], t, u, x, y);
    }
  }

  /** Two pushes that overlap, from every ring state, with no step of the consumer or
      of another thread inside: both threads load before either publishes, and
      then finish in any order.  Both calls report success
      and one of the two items is gone exactly when the ring was not full at the
      loads; otherwise both are refused and nothing is lost. */
  lemma OverlappingPushesLoseExactly<T>(f: Shape, m: Threads<T>, rest: seq<Move<T>>, t: int, u: int, x: T, y: T)
    requires f.Ok() && Inv(f, m.ring) && m.ring.producer.PIdle?
    requires t != u && At(m, t).PIdle? && At(m, u).PIdle?
    requires CanMove(f, BothLoaded(f, m, t, u, x, y), rest)
    requires forall i | 0 <= i < |rest| :: Proceeds(rest[i], t, u)
    requires var end := MoveAll(f, BothLoaded(f, m, t, u, x, y), rest);
             At(end, t).PIdle? && At(end, u).PIdle?
    ensures var end := MoveAll(f, BothLoaded(f, m, t, u, x, y), rest);
            && |m.ring.buffer| == |end.ring.buffer| == f.Slots()
            && (|Ring(f, m.ring)| == f.Slots() - 1 ==> end.ring == m.ring)
            && (|Ring(f, m.ring)| < f.Slots() - 1 ==>
                  && (end.ring.pushed == m.ring.pushed + [x, y] || end.ring.pushed == m.ring.pushed + [y, x])
                  && (Ring(f, end.ring) == Ring(f, m.ring) + [x] || Ring(f, end.ring) == Ring(f, m.ring) + [y]))
            && (|end.ring.popped| + |Ring(f, end.ring)| < |end.ring.pushed| <==> |Ring(f, m.ring)| < f.Slots() - 1)
  {
    var s, n := m.ring, BothLoaded(f, m, t, u, x, y);
    BothLoadedExactly(f, m, t, u, x, y);
    RingIsUnpopped(f, s);
    if |Ring(f, s)| == f.Slots() - 1 {
      NobodyProceeds(f, n, rest, t, u);
    } else {
      assert s.buffer == s.buffer[s.head := s.buffer[s.head]];
      RaceEnds(f, s, n, rest, t, u, x, y);
      var end := MoveAll(f, n, rest);
      assert end.ring.pushed == s.pushed + end.ring.pushed[|s.pushed|..];
      OnePushLands(f, s, end.ring, end.ring.buffer[s.head]);
    }
  }

  /** From every ring state the two pushes can finish. */
  lemma OverlapCanFinish<T>(f: Shape, m: Threads<T>, t: int, u: int, x: T, y: T) returns (rest: seq<Move<T>>)
    requires f.Ok() && Inv(f, m.ring) && m.ring.producer.PIdle?
    requires t != u && At(m, t).PIdle? && At(m, u).PIdle?
    ensures CanMove(f, BothLoaded(f, m, t, u, x, y), rest)
    ensures forall i | 0 <= i < |rest| :: Proceeds(rest[i], t, u)
    ensures var end := MoveAll(f, BothLoaded(f, m, t, u, x, y), rest);
            At(end, t).PIdle? && At(end, u).PIdle?
  {
    var n := BothLoaded(f, m, t, u, x, y);
    BothLoadedExactly(f, m, t, u, x, y);
    if At(n, t).PIdle? {
      rest := [];
    } else {
      rest := [Move(u, PushWrite), Move(u, PushPublish)];
      PushFinishes(f, Finished(f, n, t), u, []);
      assert rest == rest + [];
      PushFinishes(f, n, t, rest);
      rest := [Move(t, PushWrite), Move(t, PushPublish)] + rest;
    }
  }

  /** A thread that has chosen its slot finishes in two moves. */
  function Finished<T>(f: Shape, m: Threads<T>, t: int): Threads<T>
    requires f.Ok() && At(m, t).PFree?
  {
    MoveBy(f, MoveBy(f, m, Move(t, PushWrite)), Move(t, PushPublish))
  }

  lemma PushFinishes<T>(f: Shape, m: Threads<T>, t: int, more: seq<Move<T>>)
    requires f.Ok() && At(m, t).PFree? && CanMove(f, Finished(f, m, t), more)
    ensures At(Finished(f, m, t), t).PIdle? && forall u | u != t :: At(Finished(f, m, t), u) == At(m, u)
    ensures var run := [Move(t, PushWrite), Move(t, PushPublish)] + more;
            CanMove(f, m, run) && MoveAll(f, m, run) == MoveAll(f, Finished(f, m, t), more)
  {
    var run: seq<Move<T>> := [Move(t, PushWrite), Move(t, PushPublish)] + more;
    assert run[1..] == [Move(t, PushPublish)] + more && run[1..][1..] == more;
  }

  lemma NobodyProceeds<T>(f: Shape, m: Threads<T>, rest: seq<Move<T>>, t: int, u: int)
    requires f.Ok() && At(m, t).PIdle? && At(m, u).PIdle? && CanMove(f, m, rest)
    requires forall i | 0 <= i < |rest| :: Proceeds(rest[i], t, u)
    ensures rest == []
  {
    assert |rest| > 0 ==> !Proceeds(rest[0], t, u) || !Ready(m, rest[0]);
  }

  /** A ring with z in its free slot and the head moved past it holds z at the
      end, whatever was recorded as pushed. */
  lemma OnePushLands<T>(f: Shape, s: State<T>, e: State<T>, z: T)
    requires f.Ok() && Inv(f, s) && s.producer.PIdle? && s.head < |s.buffer| == f.Slots()
    requires |Ring(f, s)| < f.Slots() - 1
    requires e.buffer == s.buffer[s.head := z] && e.head == f.Mask(s.head + 1) && e.tail == s.tail
    ensures Ring(f, e) == Ring(f, s) + [z]
  {
    SoloPushAppends(f, s, z);
    SoloPushEffect(f, s, z);
    assert Ring(f, e) == Ring(f, SoloPush(f, s, z));
  }
}
