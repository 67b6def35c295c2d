/** Any number of runner threads checking and submitting against one risk
    manager, split at every load, lock and store, in any interleaving with
    account updates. */
module RiskGate {
  import opened Common
  import opened RiskLedger
  import opened RiskManager

  const LAST_STAGE := 4

  type Stage = n: nat | n <= LAST_STAGE

  /** Where a runner is inside handle_signal. */
  datatype Pc =
    | Idle
    | AtBreaker(req: OrderRequest)                 // entry signal, breaker not yet loaded
    | AtCheck(req: OrderRequest, stage: Stage)      // breaker loaded open; next check to run
    | Refused(error: Error)                        // a check failed; breaker not yet tripped
    | Storing(reason: string)                      // this runner's exchange tripped the breaker
    | Submitting(entry: bool)

  datatype Submission = Submission(runner: int, entry: bool)

  datatype Gate = Gate(
    cfg: Config, account: Account, peak: real,
    tripped: bool, reason: string, winner: Option<string>,
    runners: map<int, Pc>, orders: seq<Submission>)

  datatype Action =
    | Begin(runner: int, req: OrderRequest, isClose: bool)
    | LoadBreaker(runner: int)
    | RunCheck(runner: int, expiry: Verdict, margin: Option<real>)
    | TripIfLimit(runner: int)
    | StoreReason(runner: int)
    | Submit(runner: int)
    | AccountChange(account: Account)

  function PcOf(s: Gate, r: int): Pc
  {
    if r in s.runners then s.runners[r] else Idle
  }

  predicate Enabled(s: Gate, a: Action)
  {
    match a
    case Begin(r, _, _) => PcOf(s, r).Idle?
    case LoadBreaker(r) => PcOf(s, r).AtBreaker?
    case RunCheck(r, _, _) => PcOf(s, r).AtCheck?
    case TripIfLimit(r) => PcOf(s, r).Refused?
    case StoreReason(r) => PcOf(s, r).Storing?
    case Submit(r) => PcOf(s, r).Submitting?
    case AccountChange(_) => true
  }

  /** The check at a stage, reading the account as it is at that moment. */
  function StageVerdict(s: Gate, req: OrderRequest, stage: Stage, expiry: Verdict, margin: Option<real>): Verdict
  {
    match stage
    case 0 => CheckDailyLoss(s.cfg, s.account)
    case 1 => CheckDrawdown(s.cfg, s.account, s.peak)
    case 2 => CheckPositionCount(s.cfg, s.account)
    case 3 => expiry
    case _ => CheckMargin(s.cfg, s.account, req, margin)
  }

  function At(s: Gate, r: int, pc: Pc): Gate
  {
    s.(runners := s.runners[r := pc])
  }

  function Step(s: Gate, a: Action): Gate
    requires Enabled(s, a)
  {
    match a
    case Begin(r, req, isClose) => At(s, r, if isClose then Submitting(false) else AtBreaker(req))
    case LoadBreaker(r) =>
      At(s, r, if s.tripped then Refused(Error(RiskLimitExceeded, "circuit breaker tripped: " + s.reason))
               else AtCheck(PcOf(s, r).req, 0))
    case RunCheck(r, expiry, margin) =>
      var pc := PcOf(s, r);
      var v := StageVerdict(s, pc.req, pc.stage, expiry, margin);
      At(s, r, if v.Err? then Refused(v.error)
               else if pc.stage < LAST_STAGE then AtCheck(pc.req, pc.stage + 1)
               else Submitting(true))
    case TripIfLimit(r) =>
      var e := PcOf(s, r).error;
      if !IsLimit(e) || s.tripped then At(s, r, Idle).(tripped := s.tripped)
      else At(s, r, Storing(e.message)).(tripped := true, winner := Some(e.message))
    case StoreReason(r) => At(s, r, Idle).(reason := PcOf(s, r).reason)
    case Submit(r) => At(s, r, Idle).(orders := s.orders + [Submission(r, PcOf(s, r).entry)])
    case AccountChange(acc) => s.(account := acc, peak := Max(acc.liquid, s.peak))
  }

  ghost predicate CanRun(s: Gate, run: seq<Action>)
    decreases |run|
  {
    run != [] ==> Enabled(s, run[0]) && CanRun(Step(s, run[0]), run[1..])
  }

  function Run(s: Gate, run: seq<Action>): Gate
    requires CanRun(s, run)
    decreases |run|
  {
    if run == [] then s else Run(Step(s, run[0]), run[1..])
  }

  function Initial(cfg: Config): Gate
  {
    Gate(cfg, INITIAL.account, 0.0, false, "", None, map[], [])
  }

  // ---- The latch and its reason ----------------------------------------------

  /** Nobody is storing a reason before the trip; after it the reason is the
      winner's, or still empty while the winner alone is about to store it. */
  ghost predicate Latch(s: Gate)
  {
    match s.winner
    case None => !s.tripped && s.reason == "" && forall r :: !PcOf(s, r).Storing?
    case Some(m) =>
      && s.tripped
      && (forall r | PcOf(s, r).Storing? :: PcOf(s, r).reason == m && s.reason == "")
      && (forall r, q | PcOf(s, r).Storing? && PcOf(s, q).Storing? :: r == q)
      && ((forall r :: !PcOf(s, r).Storing?) ==> s.reason == m)
  }

  lemma StepKeepsLatch(s: Gate, a: Action)
    requires Enabled(s, a) && Latch(s)
    ensures Latch(Step(s, a))
    ensures s.tripped ==> Step(s, a).tripped && Step(s, a).winner == s.winner
    ensures s.tripped && s.reason == s.winner.value && s.reason != "" ==> Step(s, a).reason == s.reason
  {
    var s' := Step(s, a);
    if a.AccountChange? {
      assert forall r :: PcOf(s', r) == PcOf(s, r);
    } else {
      assert forall r | r != a.runner :: PcOf(s', r) == PcOf(s, r);
      if PcOf(s, a.runner).Storing? {
        assert forall r :: !PcOf(s', r).Storing?;
      } else if PcOf(s', a.runner).Storing? {
        assert forall r :: PcOf(s', r).Storing? ==> r == a.runner;
      } else {
        assert forall r :: PcOf(s', r).Storing? == PcOf(s, r).Storing?;
      }
    }
  }

  lemma {:induction false} RunKeepsLatch(s: Gate, run: seq<Action>)
    requires Latch(s) && CanRun(s, run)
    ensures Latch(Run(s, run))
    ensures s.tripped ==> Run(s, run).tripped && Run(s, run).winner == s.winner
    decreases |run|
  {
    if run != [] {
      StepKeepsLatch(s, run[0]);
      RunKeepsLatch(Step(s, run[0]), run[1..]);
    }
  }

  lemma LatchFromStart(cfg: Config, run: seq<Action>)
    requires CanRun(Initial(cfg), run)
    ensures Latch(Run(Initial(cfg), run))
  {
    RunKeepsLatch(Initial(cfg), run);
  }

  /** In every run from the start, once tripped, in every later state: still
      tripped, by the same first winner, and with no store pending the reason
      is that winner's. */
  lemma TripIsForever(cfg: Config, run: seq<Action>, more: seq<Action>)
    requires CanRun(Initial(cfg), run)
    requires CanRun(Run(Initial(cfg), run), more)
    requires Run(Initial(cfg), run).tripped
    ensures var tripped := Run(Initial(cfg), run);
            var later := Run(tripped, more);
            && tripped.winner.Some? && later.tripped && later.winner == tripped.winner
            && ((forall r :: !PcOf(later, r).Storing?) ==> later.reason == tripped.winner.value)
  {
    LatchFromStart(cfg, run);
    RunKeepsLatch(Run(Initial(cfg), run), more);
  }

  // ---- Entries after the trip ------------------------------------------------

  function Entries(orders: seq<Submission>, r: int): nat
  {
    if orders == [] then 0
    else
      var o := orders[|orders| - 1];
      Entries(orders[..|orders| - 1], r) + if o.runner == r && o.entry then 1 else 0
  }

  /** The runner loaded the breaker open and may still submit that entry. */
  predicate Armed(s: Gate, r: int)
  {
    PcOf(s, r).AtCheck? || PcOf(s, r) == Submitting(true)
  }

  /** Entries a runner has submitted or may still submit without reloading. */
  function Potential(s: Gate, r: int): nat
  {
    Entries(s.orders, r) + if Armed(s, r) then 1 else 0
  }

  lemma TrippedStepAddsNoPotential(s: Gate, a: Action, r: int)
    requires Enabled(s, a) && s.tripped
    ensures Step(s, a).tripped && Potential(Step(s, a), r) <= Potential(s, r)
    ensures Entries(Step(s, a).orders, r) >= Entries(s.orders, r)
  {
    var s' := Step(s, a);
    if a.Submit? {
      assert s'.orders[..|s.orders|] == s.orders;
    }
    assert !a.AccountChange? && a.runner == r ==> PcOf(s', r) == s'.runners[r];
    assert a.AccountChange? || a.runner != r ==> PcOf(s', r) == PcOf(s, r);
  }

  /** After the trip a runner submits at most one more entry, and only if it had
      loaded the breaker before; a runner that had not, or that has since
      submitted or been refused, never submits an entry again. */
  lemma {:induction false} AtMostOneMoreEntry(s: Gate, run: seq<Action>, r: int)
    requires CanRun(s, run) && s.tripped
    ensures Entries(s.orders, r) <= Entries(Run(s, run).orders, r)
            <= Entries(s.orders, r) + (if Armed(s, r) then 1 else 0)
    ensures !Armed(s, r) ==> !Armed(Run(s, run), r)
    ensures Armed(s, r) && Entries(Run(s, run).orders, r) == Entries(s.orders, r) + 1 ==> !Armed(Run(s, run), r)
    decreases |run|
  {
    if run != [] {
      TrippedStepAddsNoPotential(s, run[0], r);
      AtMostOneMoreEntry(Step(s, run[0]), run[1..], r);
    }
  }

  /** Steps of other runners and account changes only. */
  predicate ByOthers(run: seq<Action>, r: int)
  {
    forall i | 0 <= i < |run| :: run[i].AccountChange? || run[i].runner != r
  }

  lemma {:induction false} OthersLeaveRunnerAlone(s: Gate, run: seq<Action>, r: int)
    requires CanRun(s, run) && ByOthers(run, r)
    ensures PcOf(Run(s, run), r) == PcOf(s, r)
    decreases |run|
  {
    if run != [] {
      assert run[0].AccountChange? || run[0].runner != r;
      OthersLeaveRunnerAlone(Step(s, run[0]), run[1..], r);
    }
  }

  /** A close signal goes out whatever the other runners, the breaker and the
      account do between its two steps, and before and after them. */
  lemma ClosesAlwaysPass(s: Gate, r: int, req: OrderRequest, others: seq<Action>)
    requires PcOf(s, r).Idle?
    requires CanRun(Step(s, Begin(r, req, true)), others) && ByOthers(others, r)
    ensures var s1 := Run(Step(s, Begin(r, req, true)), others);
            Enabled(s1, Submit(r)) && Step(s1, Submit(r)).orders == s1.orders + [Submission(r, false)]
  {
    OthersLeaveRunnerAlone(Step(s, Begin(r, req, true)), others, r);
  }

  // ---- Which entries can still go out ---------------------------------------------------

  lemma {:induction false} RunAppends(s: Gate, a: seq<Action>, b: seq<Action>)
    requires CanRun(s, a) && CanRun(Run(s, a), b)
    ensures CanRun(s, a + b) && Run(s, a + b) == Run(Run(s, a), b)
    decreases |a|
  {
    if a == [] {
      assert a + b == b;
    } else {
      RunAppends(Step(s, a[0]), a[1..], b);
      assert (a + b)[1..] == a[1..] + b;
    }
  }

  /** The checks that read the account, from a stage on, pass as it is now. */
  predicate PassesFrom(s: Gate, stage: nat)
  {
    && (stage <= 0 ==> CheckDailyLoss(s.cfg, s.account).Ok?)
    && (stage <= 1 ==> CheckDrawdown(s.cfg, s.account, s.peak).Ok?)
    && (stage <= 2 ==> CheckPositionCount(s.cfg, s.account).Ok?)
  }

  predicate AccountPasses(s: Gate)
  {
    PassesFrom(s, 0)
  }

  /** The runner is at a check, or past the last one and about to submit. */
  predicate AtStage(s: Gate, r: int, stage: nat)
  {
    if stage <= LAST_STAGE then PcOf(s, r).AtCheck? && PcOf(s, r).stage == stage
    else PcOf(s, r) == Submitting(true)
  }

  /** An armed runner's remaining steps up to its submission, the exchange
      answering neither an expiry nor a margin objection. */
  function Finish(r: int, stage: nat): seq<Action>
    requires stage <= LAST_STAGE + 1
    decreases LAST_STAGE + 1 - stage
  {
    if stage > LAST_STAGE then [Submit(r)] else [RunCheck(r, PASS, None)] + Finish(r, stage + 1)
  }

  lemma {:induction false} FinishSubmits(s: Gate, r: int, stage: nat)
    requires stage <= LAST_STAGE + 1 && PassesFrom(s, stage) && AtStage(s, r, stage)
    ensures CanRun(s, Finish(r, stage))
    ensures var s' := Run(s, Finish(r, stage));
            && s' == s.(runners := s.runners[r := Idle], orders := s.orders + [Submission(r, true)])
    decreases LAST_STAGE + 1 - stage
  {
    var run := Finish(r, stage);
    if stage > LAST_STAGE {
      assert run[1..] == [];
    } else {
      assert run[1..] == Finish(r, stage + 1);
      var s1 := Step(s, run[0]);
      FinishSubmits(s1, r, stage + 1);
      assert s1.runners[r := Idle] == s.runners[r := Idle];
    }
  }

  lemma EntryCounts(orders: seq<Submission>, r: int, q: int)
    ensures Entries(orders + [Submission(r, true)], q) == Entries(orders, q) + if q == r then 1 else 0
  {
    assert (orders + [Submission(r, true)])[..|orders|] == orders;
  }

  function StageOf(s: Gate, r: int): nat
  {
    if PcOf(s, r).AtCheck? then PcOf(s, r).stage else LAST_STAGE + 1
  }

  /** Some reading of the account can get a runner past the drawdown check, or it
      has passed it. */
  predicate DrawdownCanPass(s: Gate, r: int)
  {
    s.cfg.maxDrawdownPct > 0.0 || s.peak < 1.0 || StageOf(s, r) > 1
  }

  /** Past the first check, a reading at the peak passes the others. */
  lemma LateStagesCanPass(s: Gate, r: int) returns (run: seq<Action>)
    requires Armed(s, r) && 1 <= StageOf(s, r) && DrawdownCanPass(s, r)
    ensures CanRun(s, run) && Run(s, run).orders == s.orders + [Submission(r, true)]
  {
    var calm := Account(s.peak, 0.0, 0.0, 0.0, s.cfg.maxPositions as real - 1.0);
    var a := [AccountChange(calm)];
    var s1 := Step(s, a[0]);
    assert a[1..] == [] && Run(s, a) == s1;
    LimitsAreExact(s.cfg, calm, s.peak);
    if s.peak >= 1.0 && s.cfg.maxDrawdownPct > 0.0 {
      assert s.cfg.maxDrawdownPct * s.peak > 0.0;
    }
    FinishSubmits(s1, r, StageOf(s, r));
    RunAppends(s, a, Finish(r, StageOf(s, r)));
    run := a + Finish(r, StageOf(s, r));
  }

  /** A reading of an empty account passes the first check. */
  lemma EarlyStageCanPass(s: Gate, r: int) returns (run: seq<Action>)
    requires Armed(s, r) && StageOf(s, r) == 0 && s.peak >= 0.0 && DrawdownCanPass(s, r)
    ensures CanRun(s, run) && Run(s, run).orders == s.orders + [Submission(r, true)]
  {
    var empty := Account(0.0, 0.0, 0.0, 0.0, 0.0);
    var a := [AccountChange(empty), RunCheck(r, PASS, None)];
    var s1 := Step(s, a[0]);
    var s2 := Step(s1, a[1]);
    assert a[1..] == [a[1]] && a[1..][1..] == [];
    assert CanRun(s1, a[1..]) && Run(s1, a[1..]) == s2;
    var rest := LateStagesCanPass(s2, r);
    RunAppends(s, a, rest);
    run := a + rest;
  }

  /** A runner before the drawdown check that no reading can pass. */
  ghost predicate Stuck(s: Gate, r: int)
  {
    && s.cfg.maxDrawdownPct <= 0.0 && s.peak >= 1.0 && s.peak >= s.account.liquid
    && s.tripped && (Armed(s, r) ==> StageOf(s, r) <= 1)
  }

  lemma NoReadingPasses(cfg: Config, a: Account, peak: real)
    requires cfg.maxDrawdownPct <= 0.0 && peak >= 1.0 && peak >= a.liquid
    ensures CheckDrawdown(cfg, a, peak).Err?
  {
    LimitsAreExact(cfg, a, peak);
    ProductSign(-cfg.maxDrawdownPct, peak);
    assert Times(-cfg.maxDrawdownPct, peak) == -(cfg.maxDrawdownPct * peak);
  }

  lemma CheckKeepsStuck(s: Gate, a: Action, r: int)
    requires Enabled(s, a) && Stuck(s, r) && a.RunCheck? && a.runner == r
    ensures Armed(Step(s, a), r) ==> StageOf(Step(s, a), r) <= 1
  {
    NoReadingPasses(s.cfg, s.account, s.peak);
    assert PcOf(Step(s, a), r) == Step(s, a).runners[r];
  }

  lemma StuckAccount(s: Gate, a: Action, r: int)
    requires Enabled(s, a) && Stuck(s, r)
    ensures var s' := Step(s, a);
            s'.cfg == s.cfg && s'.peak >= 1.0 && s'.peak >= s'.account.liquid && s'.tripped
  {
  }

  lemma StuckRunner(s: Gate, a: Action, r: int)
    requires Enabled(s, a) && Stuck(s, r)
    ensures Armed(Step(s, a), r) ==> StageOf(Step(s, a), r) <= 1
  {
    if a.AccountChange? || a.runner != r {
      assert PcOf(Step(s, a), r) == PcOf(s, r);
    } else if a.RunCheck? {
      CheckKeepsStuck(s, a, r);
    } else {
      assert PcOf(Step(s, a), r) == Step(s, a).runners[r];
    }
  }

  lemma StuckSubmitsNothing(s: Gate, a: Action, r: int)
    requires Enabled(s, a) && Stuck(s, r)
    ensures Entries(Step(s, a).orders, r) == Entries(s.orders, r)
  {
    if a.Submit? {
      assert Step(s, a).orders[..|s.orders|] == s.orders;
    } else {
      assert Step(s, a).orders == s.orders;
    }
  }

  lemma StepKeepsStuck(s: Gate, a: Action, r: int)
    requires Enabled(s, a) && Stuck(s, r)
    ensures Stuck(Step(s, a), r) && Entries(Step(s, a).orders, r) == Entries(s.orders, r)
  {
    StuckAccount(s, a, r);
    StuckRunner(s, a, r);
    StuckSubmitsNothing(s, a, r);
  }

  lemma {:induction false} RunKeepsStuck(s: Gate, run: seq<Action>, r: int)
    requires CanRun(s, run) && Stuck(s, r)
    ensures Entries(Run(s, run).orders, r) == Entries(s.orders, r)
    decreases |run|
  {
    if run != [] {
      StepKeepsStuck(s, run[0], r);
      RunKeepsStuck(Step(s, run[0]), run[1..], r);
    }
  }

  /** Once tripped, in a state whose peak bounds its liquid value, a further entry of
      a runner can go out, for some readings of the account and answers of the
      exchange, exactly if it had loaded the breaker before and the drawdown check
      can still let it pass. */
  lemma OneMoreEntryExactly(s: Gate, r: int)
    requires s.tripped && s.peak >= s.account.liquid && s.peak >= 0.0
    ensures (exists run: seq<Action> :: CanRun(s, run) && Entries(Run(s, run).orders, r) > Entries(s.orders, r))
            <==> Armed(s, r) && DrawdownCanPass(s, r)
  {
    if run: seq<Action> :| CanRun(s, run) && Entries(Run(s, run).orders, r) > Entries(s.orders, r) {
      AtMostOneMoreEntry(s, run, r);
      if !DrawdownCanPass(s, r) {
        RunKeepsStuck(s, run, r);
      }
    }
    if Armed(s, r) && DrawdownCanPass(s, r) {
      var run;
      if StageOf(s, r) == 0 {
        run := EarlyStageCanPass(s, r);
      } else {
        run := LateStagesCanPass(s, r);
      }
      EntryCounts(s.orders, r, r);
      assert CanRun(s, run) && Entries(Run(s, run).orders, r) > Entries(s.orders, r);
    }
  }

  /** Every run from the start keeps the peak at or above the liquid value and zero. */
  lemma {:induction false} PeakBounds(s: Gate, run: seq<Action>)
    requires CanRun(s, run) && s.peak >= s.account.liquid && s.peak >= 0.0
    ensures Run(s, run).peak >= Run(s, run).account.liquid && Run(s, run).peak >= s.peak
    decreases |run|
  {
    if run != [] {
      PeakBounds(Step(s, run[0]), run[1..]);
    }
  }

  // ---- What an entry has passed ------------------------------------------------------------

  /** The runner is past a check of the entry it is handling. */
  predicate Past(pc: Pc, stage: Stage)
  {
    pc == Submitting(true) || (pc.AtCheck? && pc.stage > stage)
  }

  /** The runner takes a check, and its limit holds on the account of that moment. */
  ghost predicate HoldsAt(s: Gate, a: Action, r: int, stage: Stage)
  {
    && a.RunCheck? && a.runner == r && PcOf(s, r).AtCheck? && PcOf(s, r).stage == stage
    && match stage
       case 0 => LossWithin(s.cfg, s.account)
       case 1 => DropWithin(s.cfg, s.account, s.peak)
       case 2 => s.account.openPositions < s.cfg.maxPositions as real
       case 3 => a.expiry.Ok?
       case _ =>
         && !MarginShort(s.account, PcOf(s, r).req.quantity, a.margin)
         && !ShareExceeded(s.cfg, s.account, PcOf(s, r).req.quantity, a.margin)
  }

  /** Action i of the run was such a check, and the runner has begun nothing since. */
  ghost predicate HeldAt(s: Gate, run: seq<Action>, r: int, stage: Stage, i: nat)
    requires i < |run|
  {
    && CanRun(s, run[..i]) && HoldsAt(Run(s, run[..i]), run[i], r, stage)
    && forall j | i < j < |run| && run[j].Begin? :: run[j].runner != r
  }

  lemma StepPasses(s: Gate, a: Action, r: int, stage: Stage)
    requires Enabled(s, a) && Past(PcOf(Step(s, a), r), stage) && !Past(PcOf(s, r), stage)
    ensures HoldsAt(s, a, r, stage)
  {
    assert a.RunCheck? && a.runner == r && PcOf(s, r).stage == stage;
    LimitsAreExact(s.cfg, s.account, s.peak);
    MarginExactly(s.cfg, s.account, PcOf(s, r).req, a.margin);
  }

  /** In every run, an entry about to be submitted has passed each of the five checks
      in its turn: each limit held, on the account as it was when the runner came to
      that check. */
  lemma {:induction false} EntryPassedEveryCheck(s: Gate, run: seq<Action>, r: int, stage: Stage)
    requires CanRun(s, run) && PcOf(s, r).Idle? && Past(PcOf(Run(s, run), r), stage)
    ensures exists i: nat :: i < |run| && HeldAt(s, run, r, stage, i)
    decreases |run|
  {
    var n := |run| - 1;
    var p, a := run[..n], run[n];
    LastStep(s, run);
    if Past(PcOf(Run(s, p), r), stage) {
      EntryPassedEveryCheck(s, p, r, stage);
      var i: nat :| i < n && HeldAt(s, p, r, stage, i);
      assert run[..i] == p[..i];
      assert HeldAt(s, run, r, stage, i);
    } else {
      StepPasses(Run(s, p), a, r, stage);
      assert HeldAt(s, run, r, stage, n);
    }
  }

  lemma {:induction false} LastStep(s: Gate, run: seq<Action>)
    requires run != [] && CanRun(s, run)
    ensures var p, a := run[..|run| - 1], run[|run| - 1];
            CanRun(s, p) && Enabled(Run(s, p), a) && Run(s, run) == Step(Run(s, p), a)
    decreases |run|
  {
    var p := run[..|run| - 1];
    if |run| > 1 {
      LastStep(Step(s, run[0]), run[1..]);
      assert run[1..][..|run| - 2] == p[1..];
    }
  }

  // ---- One reading of the account for everybody ------------------------------------------

  /** Each of some runners in turn takes one entry signal from start to end. */
  function EntryRuns(rs: seq<int>, req: OrderRequest): seq<Action>
  {
    if rs == [] then []
    else EntryRuns(rs[..|rs| - 1], req) + EntryRun(rs[|rs| - 1], req)
  }

  function EntryRun(r: int, req: OrderRequest): seq<Action>
  {
    [Begin(r, req, false), LoadBreaker(r)] + Finish(r, 0)
  }

  lemma EntryRunSubmits(s: Gate, r: int, req: OrderRequest)
    requires !s.tripped && AccountPasses(s) && PcOf(s, r).Idle?
    ensures CanRun(s, EntryRun(r, req))
    ensures Run(s, EntryRun(r, req)) ==
            s.(runners := s.runners[r := Idle], orders := s.orders + [Submission(r, true)])
  {
    var a := [Begin(r, req, false), LoadBreaker(r)];
    var s1 := Step(s, a[0]);
    var s2 := Step(s1, a[1]);
    assert a[1..] == [a[1]] && a[1..][1..] == [];
    assert CanRun(s1, a[1..]) && Run(s1, a[1..]) == s2;
    FinishSubmits(s2, r, 0);
    RunAppends(s, a, Finish(r, 0));
    assert s2.runners[r := Idle] == s.runners[r := Idle];
  }

  function EntriesBy(rs: seq<int>): (orders: seq<Submission>)
    ensures |orders| == |rs| && forall i | 0 <= i < |rs| :: orders[i] == Submission(rs[i], true)
  {
    seq(|rs|, i requires 0 <= i < |rs| => Submission(rs[i], true))
  }

  /** Some runners' entries went out and nothing else changed. */
  ghost predicate Admitted(s: Gate, s': Gate, rs: seq<int>)
  {
    && s' == s.(runners := s'.runners, orders := s.orders + EntriesBy(rs))
    && forall r | PcOf(s, r).Idle? :: PcOf(s', r).Idle?
  }

  lemma AdmitOneMore(s: Gate, s1: Gate, rs: seq<int>, r: int)
    requires Admitted(s, s1, rs)
    ensures Admitted(s, s1.(runners := s1.runners[r := Idle], orders := s1.orders + [Submission(r, true)]), rs + [r])
  {
    assert EntriesBy(rs + [r]) == EntriesBy(rs) + [Submission(r, true)];
    var s2 := s1.(runners := s1.runners[r := Idle], orders := s1.orders + [Submission(r, true)]);
    assert forall q | q != r :: PcOf(s2, q) == PcOf(s1, q);
  }

  lemma StillPasses(s: Gate, s': Gate, rs: seq<int>)
    requires Admitted(s, s', rs) && !s.tripped && AccountPasses(s)
    ensures !s'.tripped && AccountPasses(s')
  {
  }

  lemma EntryRunsStep(s: Gate, rs: seq<int>, r: int, req: OrderRequest)
    requires CanRun(s, EntryRuns(rs, req))
    requires var s1 := Run(s, EntryRuns(rs, req));
             Admitted(s, s1, rs) && !s1.tripped && AccountPasses(s1) && PcOf(s1, r).Idle?
    ensures CanRun(s, EntryRuns(rs + [r], req)) && Admitted(s, Run(s, EntryRuns(rs + [r], req)), rs + [r])
  {
    var s1 := Run(s, EntryRuns(rs, req));
    assert (rs + [r])[..|rs|] == rs;
    EntryRunSubmits(s1, r, req);
    RunAppends(s, EntryRuns(rs, req), EntryRun(r, req));
    AdmitOneMore(s, s1, rs, r);
  }

  /** The position limit does not bound the entries admitted between two readings of
      the account: any number of runners, the same one repeatedly included, all
      pass on one reading, and each entry is submitted. */
  lemma {:induction false} OneReadingAdmitsAny(s: Gate, rs: seq<int>, req: OrderRequest)
    requires !s.tripped && AccountPasses(s) && forall i | 0 <= i < |rs| :: PcOf(s, rs[i]).Idle?
    ensures CanRun(s, EntryRuns(rs, req)) && Admitted(s, Run(s, EntryRuns(rs, req)), rs)
  {
    if rs == [] {
      assert s.orders + EntriesBy(rs) == s.orders;
    } else {
      var p, r := rs[..|rs| - 1], rs[|rs| - 1];
      assert rs == p + [r];
      OneReadingAdmitsAny(s, p, req);
      StillPasses(s, Run(s, EntryRuns(p, req)), p);
      EntryRunsStep(s, p, r, req);
    }
  }
}

/** One runner: signals to orders, updates to fills, queue to strategy. */
module StrategyRunner {
  import opened Common
  import opened Calendar
  import opened RiskLedger
  import opened RiskManager
  import opened FillDeltas
  import opened OrderClient
  import Spsc = SpscQueue
  import ConfluenceState
  import SessionContext
  import Strategy = Confluence

  /** Everything but a buy entry becomes a sale, closes included. */
  function RequestFor(account: string, sig: Signal): OrderRequest
  {
    OrderRequest(account, sig.symbol, if sig.direction == GoLong then Buy else Sell, sig.kind, sig.price, sig.quantity)
  }

  /** The close order for a position, sized by its absolute value, brings it
      back to zero exactly when the position is not short. */
  lemma CloseFlattensOnlyLongs(account: string, symbol: Symbol, position: int)
    ensures var size := if position < 0 then -position else position;
            var req := RequestFor(account, Signal(symbol, Close, Market, 0.0, size));
            position + (if req.side == Buy then req.quantity else -req.quantity) == 0 <==> position >= 0
  {
  }

  /** An entry of the strategy, made into an order, gets past the client's own
      validation exactly with a base size of two, or of one after a
      narrow-range day; otherwise its quantity is zero. */
  lemma EntryIsAcceptedExactly(account: string, symbol: Symbol, direction: Direction, baseQty: int, narrow: bool)
    requires account != "" && (direction == GoLong || direction == GoShort)
    ensures var sig := Signal(symbol, direction, Market, 0.0, Strategy.EntryQty(baseQty, narrow));
            Validate(RequestFor(account, sig)).None? <==> baseQty >= 2 || (baseQty == 1 && narrow)
  {
  }

  /** Fills reach the risk manager without a price, so no run of the updates a
      client sends ever changes the account figures the limits are checked on. */
  lemma LiveFillsRealiseNothing(client: OrderClient, s: RiskLedger.State, run: seq<Event>)
    requires client.Valid() && client.unpriced
    requires CanRun(s, run) && forall k | k in s.lots :: s.lots[k].entry == 0.0
    requires forall i | 0 <= i < |run| :: run[i].Fill? && run[i].upd in client.sent
    ensures Run(s, run).account == s.account && TotalPnl(s, run) == 0.0
  {
    forall i | 0 <= i < |run|
      ensures run[i].Fill? && (run[i].upd.qtyFilled > 0 ==> run[i].upd.price == 0.0)
    {
      assert run[i].upd in client.sent;
    }
    ZeroPricedFillsRealiseNothing(s, run);
  }

  /** The risk manager's answer to an entry before it is handled. */
  function EntryVerdict(sig: Signal, account: string, risk: RiskManager, margin: Option<real>,
                        today: Date, toInt: string -> Option<int>): Verdict
    reads risk
  {
    if sig.direction == Close then PASS else risk.Decision(RequestFor(account, sig), margin, today, toInt)
  }

  /** A record and the update sent for it are of the order a signal asks for: a buy for
      a long entry and only for that, nothing of it executed. */
  ghost predicate OrderOf(sig: Signal, o: OrderState, upd: OrderUpdate)
  {
    && (if sig.direction == GoLong then o.side == Buy == upd.side else o.side == Sell == upd.side)
    && o.symbol == upd.symbol == sig.symbol && o.kind == upd.kind == sig.kind
    && o.price == upd.price == sig.price && o.qtyTotal == upd.qtyTotal == sig.quantity
    && o.qtyFilled == 0 && o.status == upd.status
  }

  /** The client takes the signal's order. */
  predicate Acceptable(sig: Signal, account: string)
  {
    account != "" && sig.quantity > 0 && (sig.kind == Limit ==> sig.price > 0.0)
  }

  /** A signal to trade is submitted exactly when it is a close or the risk manager
      admits it; a refusal trips the breaker, with its message unless it was tripped
      already, except for want of free margin alone; a submitted order is the
      signal's. */
  method HandleSignal(sig: Signal, account: string, risk: RiskManager, client: OrderClient,
                      answer: Result<(string, OrderStatus)>, margin: Option<real>,
                      today: Date, toInt: string -> Option<int>)
    returns (submitted: Option<Result<int>>)
    requires risk.Valid() && client.Valid()
    modifies risk`tripped, risk`tripReason, client
    ensures risk.Valid() && client.Valid()
    ensures var entry := sig.direction == GoLong || sig.direction == GoShort;
            var admitted := old(risk.Admits(sig.symbol.code, sig.quantity, margin, today, toInt));
            var short := old(risk.LimitsHold(sig.symbol.code, today, toInt)
                             && MarginShort(risk.account, sig.quantity, margin));
            && (submitted.Some? <==> sig.direction == Close || (entry && admitted))
            && (risk.tripped <==> old(risk.tripped) || (entry && !admitted && !short))
    ensures risk.tripped && !old(risk.tripped) ==>
              var v := old(EntryVerdict(sig, account, risk, margin, today, toInt));
              v.Err? && risk.tripReason == v.error.message
    ensures sig.direction == Close ==> submitted.Some? && risk.tripped == old(risk.tripped)
    ensures (sig.direction == GoLong || sig.direction == GoShort) && old(risk.tripped) ==> submitted == None
    ensures old(risk.tripped) ==> risk.tripReason == old(risk.tripReason)
    ensures submitted.None? ==> client.orders == old(client.orders) && client.sent == old(client.sent)
    ensures submitted.Some? ==> (submitted.value.Ok? <==> Acceptable(sig, account) && answer.Ok?)
    ensures submitted.Some? && submitted.value.Ok? ==>
              var id := submitted.value.value;
              && id in client.orders && |client.sent| == |old(client.sent)| + 1 && old(client.sent) <= client.sent
              && OrderOf(sig, client.orders[id], client.sent[|client.sent| - 1])
              && client.orders == old(client.orders)[id := client.orders[id]]
  {
    if sig.direction == Stay {
      return None;
    }
    var isClose := sig.direction == Close;
    var req := RequestFor(account, sig);
    if !isClose {
      risk.DecisionExactly(req, margin, today, toInt);
      var r := risk.Check(req, margin, today, toInt);
      if r.Err? {
        if r.error.code == DailyLossLimitHit || r.error.code == RiskLimitExceeded {
          risk.TripCircuitBreaker(r.error.message);
        }
        return None;
      }
    }
    var result := client.Submit(req, answer);
    return Some(result);
  }

  // ---- Fan-out of order updates ------------------------------------------------

  /** A runner passes an update on if it is for its symbol, or names none. */
  predicate Accepts(active: Symbol, upd: OrderUpdate)
  {
    upd.symbol == active || upd.symbol.code == ""
  }

  /** A positive quantity reported as a complete or partial fill. */
  predicate Bookable(upd: OrderUpdate)
  {
    IsFill(upd.status) && upd.qtyFilled > 0
  }

  /** How many of the runners sharing one risk manager book the update. */
  function TimesBooked(active: seq<Symbol>, upd: OrderUpdate): nat
  {
    if active == [] then 0
    else
      var last := active[|active| - 1];
      TimesBooked(active[..|active| - 1], upd) + if Accepts(last, upd) && Bookable(upd) then 1 else 0
  }

  ghost predicate Distinct(active: seq<Symbol>)
  {
    forall i, j | 0 <= i < j < |active| :: active[i] != active[j]
  }

  /** With distinct active symbols: a named fill is booked once if some runner
      trades it and never otherwise; a fill of an order the client does not
      know carries no symbol and is booked once per runner; other updates are
      never booked. */
  lemma {:induction false} FillIsBookedOnceExactly(active: seq<Symbol>, upd: OrderUpdate)
    requires Distinct(active)
    ensures TimesBooked(active, upd) ==
            if !Bookable(upd) then 0
            else if upd.symbol.code == "" then |active|
            else if upd.symbol in active then 1 else 0
  {
    if active != [] {
      FillIsBookedOnceExactly(active[..|active| - 1], upd);
    }
  }

  /** A history grown by so many bookings of one update. */
  ghost predicate Grown(before: seq<Event>, after: seq<Event>, upd: OrderUpdate, times: nat)
  {
    |after| == |before| + times && before <= after && AllFills(after[|before|..], upd)
  }

  type Queue = Spsc.SpscQueue<OrderUpdate>

  /** What an update leaves of a queue's contents. */
  function Received(before: seq<OrderUpdate>, room: int, active: Symbol, upd: OrderUpdate): seq<OrderUpdate>
  {
    if Accepts(active, upd) && |before| < room then before + [upd] else before
  }

  /** One slot of the ring always stays free. */
  function Room(queue: Queue): int
  {
    if queue.shape.Ok() then queue.shape.Slots() - 1 else 0
  }

  ghost predicate Holds(queue: Queue, contents: seq<OrderUpdate>)
    reads queue, queue.buffer
  {
    queue.Valid() && queue.Contents() == contents
  }

  method Book(upd: OrderUpdate, risk: RiskManager)
    requires risk.Valid()
    modifies risk`account, risk`peak, risk`lots, risk`history
    ensures risk.Valid() && Grown(old(risk.history), risk.history, upd, if Bookable(upd) then 1 else 0)
  {
    if (upd.status == Filled || upd.status == PartialFill) && upd.qtyFilled > 0 {
      ghost var pick := risk.OnFill(upd);
    }
  }

  method Enqueue(queue: Queue, upd: OrderUpdate)
    requires queue.Valid()
    modifies queue, queue.buffer
    ensures var before := old(queue.Contents());
            Holds(queue, if |before| < Room(queue) then before + [upd] else before)
  {
    var ok := queue.Push(upd);
  }

  /** An update to one runner: fills go to the risk manager, everything to the
      queue if there is room. */
  method OnUpdate(upd: OrderUpdate, active: Symbol, risk: RiskManager, queue: Queue)
    requires risk.Valid() && queue.Valid()
    modifies risk`account, risk`peak, risk`lots, risk`history, queue, queue.buffer
    ensures risk.Valid()
    ensures var heard := upd.symbol == active || upd.symbol.code == "";
            var fill := (upd.status == Filled || upd.status == PartialFill) && upd.qtyFilled > 0;
            && Grown(old(risk.history), risk.history, upd, if heard && fill then 1 else 0)
            && Holds(queue, if heard && |old(queue.Contents())| < Room(queue) then old(queue.Contents()) + [upd]
                            else old(queue.Contents()))
  {
    if upd.symbol != active && upd.symbol.code != "" {
      return;
    }
    Book(upd, risk);
    Enqueue(queue, upd);
  }

  ghost predicate Separate(queues: seq<Queue>)
  {
    forall i, j | 0 <= i < j < |queues| :: queues[i] != queues[j] && queues[i].buffer != queues[j].buffer
  }

  ghost predicate AllHold(queues: seq<Queue>, contents: seq<seq<OrderUpdate>>)
    requires |contents| == |queues|
    reads queues, set i | 0 <= i < |queues| :: queues[i].buffer
  {
    forall i | 0 <= i < |queues| :: Holds(queues[i], contents[i])
  }

  /** What the queues hold once the first n runners have been called back. */
  function Delivered(queues: seq<Queue>, contents: seq<seq<OrderUpdate>>, active: seq<Symbol>,
                     upd: OrderUpdate, n: nat): (d: seq<seq<OrderUpdate>>)
    requires |queues| == |contents| == |active|
    ensures |d| == |contents|
    ensures forall i | 0 <= i < |d| ::
              d[i] == if i < n then Received(contents[i], Room(queues[i]), active[i], upd) else contents[i]
  {
    seq(|contents|, i requires 0 <= i < |contents| =>
      if i < n then Received(contents[i], Room(queues[i]), active[i], upd) else contents[i])
  }

  /** The callback of the n-th runner leaves the queues of the others alone. */
  method CallBack(upd: OrderUpdate, active: seq<Symbol>, risk: RiskManager, queues: seq<Queue>, n: nat,
                  ghost contents: seq<seq<OrderUpdate>>)
    requires n < |queues| == |contents| == |active| && risk.Valid() && Separate(queues)
    requires AllHold(queues, Delivered(queues, contents, active, upd, n))
    modifies risk`account, risk`peak, risk`lots, risk`history, queues[n], queues[n].buffer
    ensures risk.Valid()
    ensures Grown(old(risk.history), risk.history, upd, if Accepts(active[n], upd) && Bookable(upd) then 1 else 0)
    ensures AllHold(queues, Delivered(queues, contents, active, upd, n + 1))
  {
    ghost var held := Delivered(queues, contents, active, upd, n);
    assert Holds(queues[n], held[n]);
    OnUpdate(upd, active[n], risk, queues[n]);
    forall i | 0 <= i < |queues|
      ensures Holds(queues[i], Delivered(queues, contents, active, upd, n + 1)[i])
    {
      if i != n {
        assert queues[i] != queues[n] && queues[i].buffer != queues[n].buffer;
        assert Holds(queues[i], held[i]);
      }
    }
  }

  /** The client calls back every runner in turn: the shared risk manager's history
      gains exactly so many bookings of the fill, and every accepting runner's
      queue the update. */
  method NotifyAll(upd: OrderUpdate, active: seq<Symbol>, risk: RiskManager, queues: seq<Queue>,
                   ghost contents: seq<seq<OrderUpdate>>)
    requires |queues| == |active| == |contents| && risk.Valid() && Separate(queues) && AllHold(queues, contents)
    modifies risk`account, risk`peak, risk`lots, risk`history, queues, set i | 0 <= i < |queues| :: queues[i].buffer
    ensures risk.Valid()
    ensures Grown(old(risk.history), risk.history, upd, TimesBooked(active, upd))
    ensures AllHold(queues, Delivered(queues, contents, active, upd, |queues|))
  {
    assert Delivered(queues, contents, active, upd, 0) == contents;
    for n := 0 to |queues|
      invariant risk.Valid() && Grown(old(risk.history), risk.history, upd, TimesBooked(active[..n], upd))
      invariant AllHold(queues, Delivered(queues, contents, active, upd, n))
    {
      ghost var before := risk.history;
      CallBack(upd, active, risk, queues, n, contents);
      TimesBookedStep(active, n, upd);
      GrownTwice(old(risk.history), before, risk.history, upd, TimesBooked(active[..n], upd),
                 if Accepts(active[n], upd) && Bookable(upd) then 1 else 0);
    }
    assert active[..|active|] == active;
  }

  lemma GrownTwice(a: seq<Event>, b: seq<Event>, c: seq<Event>, upd: OrderUpdate, times: nat, more: nat)
    requires Grown(a, b, upd, times) && Grown(b, c, upd, more)
    ensures Grown(a, c, upd, times + more)
  {
    assert c[|a|..] == b[|a|..] + c[|b|..];
  }

  lemma TimesBookedStep(active: seq<Symbol>, n: nat, upd: OrderUpdate)
    requires n < |active|
    ensures TimesBooked(active[..n + 1], upd) ==
            TimesBooked(active[..n], upd) + if Accepts(active[n], upd) && Bookable(upd) then 1 else 0
  {
    assert active[..n + 1][..n] == active[..n];
  }

  /** The quantity of an order the runners book between them. */
  function BookedByRunners(active: seq<Symbol>, upserts: seq<OrderState>, sent: seq<OrderUpdate>, id: int): int
    requires |upserts| == |sent|
  {
    if upserts == [] then 0
    else
      var n := |upserts| - 1;
      BookedByRunners(active, upserts[..n], sent[..n], id)
      + if upserts[n].localId == id then TimesBooked(active, sent[n]) * sent[n].qtyFilled else 0
  }

  /** The quantity an update books without naming a symbol. */
  function UnnamedIn(x: OrderUpdate): nat
  {
    if Bookable(x) && x.symbol.code == "" then x.qtyFilled else 0
  }

  /** The quantity an update fills under a symbol no runner trades. */
  function UntradedIn(active: seq<Symbol>, x: OrderUpdate): nat
  {
    if Bookable(x) && x.symbol.code != "" && x.symbol !in active then x.qtyFilled else 0
  }

  function Unnamed(upserts: seq<OrderState>, sent: seq<OrderUpdate>, id: int): nat
    requires |upserts| == |sent|
  {
    if upserts == [] then 0
    else
      var n := |upserts| - 1;
      Unnamed(upserts[..n], sent[..n], id) + if upserts[n].localId == id then UnnamedIn(sent[n]) else 0
  }

  function Untraded(active: seq<Symbol>, upserts: seq<OrderState>, sent: seq<OrderUpdate>, id: int): nat
    requires |upserts| == |sent|
  {
    if upserts == [] then 0
    else
      var n := |upserts| - 1;
      Untraded(active, upserts[..n], sent[..n], id)
      + if upserts[n].localId == id then UntradedIn(active, sent[n]) else 0
  }

  /** A booked delta counts once, an unnamed one once more for every further
      runner, an untraded one not at all. */
  lemma WeightOfOne(active: seq<Symbol>, x: OrderUpdate)
    requires Distinct(active)
    ensures TimesBooked(active, x) * x.qtyFilled ==
            Gain(AmountOf(x.qtyFilled, x.status)) + (|active| - 1) * UnnamedIn(x) - UntradedIn(active, x)
  {
    FillIsBookedOnceExactly(active, x);
    if Bookable(x) && x.symbol.code == "" {
      Distributes(x.qtyFilled, |active| - 1, 1);
    }
  }

  lemma Distributes(k: int, a: int, b: int)
    ensures k * (a + b) == k * a + k * b && (a + b) * k == a * k + b * k
  {
  }

  lemma {:induction false} RunnersBookWeighted(active: seq<Symbol>, upserts: seq<OrderState>,
                                               sent: seq<OrderUpdate>, id: int)
    requires |upserts| == |sent| && Distinct(active)
    ensures BookedByRunners(active, upserts, sent, id) ==
            Booked(SentOf(upserts, sent, id)) + (|active| - 1) * Unnamed(upserts, sent, id)
            - Untraded(active, upserts, sent, id)
  {
    if upserts != [] {
      var n := |upserts| - 1;
      var p, q, x := upserts[..n], sent[..n], sent[n];
      RunnersBookWeighted(active, p, q, id);
      if upserts[n].localId == id {
        WeightOfOne(active, x);
        SumAppend(SentOf(p, q, id), AmountOf(x.qtyFilled, x.status));
        Distributes(|active| - 1, Unnamed(p, q, id), UnnamedIn(x));
      }
    }
  }

  /** The runners have booked what is stored. */
  ghost predicate BooksRight(active: seq<Symbol>, upserts: seq<OrderState>, sent: seq<OrderUpdate>, id: int)
    requires |upserts| == |sent|
  {
    BookedByRunners(active, upserts, sent, id) == Stored(ReportsOf(upserts, id))
  }

  ghost predicate AlwaysBooksRight(active: seq<Symbol>, upserts: seq<OrderState>, sent: seq<OrderUpdate>, id: int)
    requires |upserts| == |sent|
  {
    forall n | 0 <= n <= |upserts| :: BooksRight(active, upserts[..n], sent[..n], id)
  }

  /** No update of the order takes quantity back, and each that adds some is booked
      by exactly one runner. */
  ghost predicate OnceEach(active: seq<Symbol>, upserts: seq<OrderState>, sent: seq<OrderUpdate>, id: int)
    requires |upserts| == |sent|
  {
    forall i | 0 <= i < |sent| && upserts[i].localId == id ::
      sent[i].qtyFilled >= 0 && (sent[i].qtyFilled > 0 ==> TimesBooked(active, sent[i]) == 1)
  }

  /** When exactly one runner books an update that adds quantity. */
  lemma BookedOnceExactly(active: seq<Symbol>, upd: OrderUpdate)
    requires Distinct(active) && upd.qtyFilled > 0
    ensures TimesBooked(active, upd) == 1 <==>
            IsFill(upd.status) && if upd.symbol.code == "" then |active| == 1 else upd.symbol in active
  {
    FillIsBookedOnceExactly(active, upd);
  }

  lemma {:induction false} OnlyFillsAreBooked(active: seq<Symbol>, upd: OrderUpdate)
    ensures !Bookable(upd) ==> TimesBooked(active, upd) == 0
  {
    if active != [] {
      OnlyFillsAreBooked(active[..|active| - 1], upd);
    }
  }

  /** The sent deltas are the changes of the reports. */
  ghost predicate DeltasSent(upserts: seq<OrderState>, sent: seq<OrderUpdate>, id: int)
    requires |upserts| == |sent|
  {
    SentOf(upserts, sent, id) == Deltas(ReportsOf(upserts, id))
  }

  lemma DeltasSentStep(p: seq<OrderState>, q: seq<OrderUpdate>, s: OrderState, x: OrderUpdate, id: int)
    requires |p| == |q| && DeltasSent(p + [s], q + [x], id)
    ensures DeltasSent(p, q, id)
    ensures s.localId == id ==> x.qtyFilled == s.qtyFilled - Stored(ReportsOf(p, id))
  {
    HistoryStep(p, q, s, x, id);
    if s.localId == id {
      var a, d := AmountOf(s.qtyFilled, s.status), AmountOf(x.qtyFilled, x.status);
      DeltasStep(ReportsOf(p, id), a);
      EqualBeforeLast(SentOf(p, q, id), Deltas(ReportsOf(p, id)), d, Amount(a.qty - Stored(ReportsOf(p, id)), a.fill));
    }
  }

  lemma EqualBeforeLast<T>(a: seq<T>, b: seq<T>, x: T, y: T)
    requires a + [x] == b + [y]
    ensures a == b && x == y
  {
    assert |a| + 1 == |a + [x]| == |b + [y]| == |b| + 1;
    assert a == (a + [x])[..|a|] == (b + [y])[..|b|] == b;
    assert x == (a + [x])[|a|] == (b + [y])[|b|] == y;
  }

  lemma BooksStep(active: seq<Symbol>, p: seq<OrderState>, q: seq<OrderUpdate>, s: OrderState, x: OrderUpdate, id: int)
    requires |p| == |q|
    ensures BookedByRunners(active, p + [s], q + [x], id) ==
            BookedByRunners(active, p, q, id) + if s.localId == id then TimesBooked(active, x) * x.qtyFilled else 0
    ensures Stored(ReportsOf(p + [s], id)) == if s.localId == id then s.qtyFilled else Stored(ReportsOf(p, id))
    ensures OnceEach(active, p + [s], q + [x], id) <==>
            OnceEach(active, p, q, id)
            && (s.localId == id ==> x.qtyFilled >= 0 && (x.qtyFilled > 0 ==> TimesBooked(active, x) == 1))
  {
    assert (p + [s])[..|p|] == p && (q + [x])[..|q|] == q;
    HistoryStep(p, q, s, x, id);
    assert forall i | 0 <= i < |p| :: (p + [s])[i] == p[i] && (q + [x])[i] == q[i];
    assert (p + [s])[|p|] == s && (q + [x])[|q|] == x;
  }

  lemma AlwaysBooksRightStep(active: seq<Symbol>, p: seq<OrderState>, q: seq<OrderUpdate>,
                             s: OrderState, x: OrderUpdate, id: int)
    requires |p| == |q|
    ensures AlwaysBooksRight(active, p + [s], q + [x], id) <==>
            AlwaysBooksRight(active, p, q, id) && BooksRight(active, p + [s], q + [x], id)
  {
    var right := (u: seq<OrderState>) => |u| <= |q + [x]| && BooksRight(active, u, (q + [x])[..|u|], id);
    HoldsOnPrefixes(right, p, s);
    PrefixesOfLonger(q, x);
    PrefixesOfLonger(p, s);
    assert AlwaysBooksRight(active, p + [s], q + [x], id) <==> forall n | 0 <= n <= |p| + 1 :: right((p + [s])[..n]);
    assert AlwaysBooksRight(active, p, q, id) <==> forall n | 0 <= n <= |p| :: right(p[..n]);
    assert right(p + [s]) <==> BooksRight(active, p + [s], q + [x], id);
  }

  /** One delta keeps the books right exactly when it is not negative and, if
      positive, booked once. */
  lemma OneDeltaExactly(active: seq<Symbol>, x: OrderUpdate)
    ensures TimesBooked(active, x) * x.qtyFilled == x.qtyFilled <==>
            x.qtyFilled >= 0 && (x.qtyFilled > 0 ==> TimesBooked(active, x) == 1)
  {
    OnlyFillsAreBooked(active, x);
    var t, d := TimesBooked(active, x), x.qtyFilled;
    if d > 0 && t > 1 {
      assert t * d == d + (t - 1) * d && (t - 1) * d > 0;
    }
  }

  lemma LastBooksRight(active: seq<Symbol>, upserts: seq<OrderState>, sent: seq<OrderUpdate>, id: int)
    requires |upserts| == |sent| && AlwaysBooksRight(active, upserts, sent, id)
    ensures BooksRight(active, upserts, sent, id)
  {
    assert upserts[..|upserts|] == upserts && sent[..|sent|] == sent;
  }

  lemma {:induction false} AlwaysBooksRightExactly(active: seq<Symbol>, upserts: seq<OrderState>,
                                                   sent: seq<OrderUpdate>, id: int)
    requires |upserts| == |sent| && DeltasSent(upserts, sent, id)
    ensures AlwaysBooksRight(active, upserts, sent, id) <==> OnceEach(active, upserts, sent, id)
  {
    if upserts != [] {
      var n := |upserts| - 1;
      var p, q, s, x := upserts[..n], sent[..n], upserts[n], sent[n];
      assert upserts == p + [s] && sent == q + [x];
      DeltasSentStep(p, q, s, x, id);
      AlwaysBooksRightExactly(active, p, q, id);
      AlwaysBooksRightStep(active, p, q, s, x, id);
      BooksStep(active, p, q, s, x, id);
      OneDeltaExactly(active, x);
      if AlwaysBooksRight(active, p, q, id) {
        LastBooksRight(active, p, q, id);
      }
    }
  }

  /** From the exchange's reports to the risk manager's books, for every order of a
      client and any runners: what the runners book is the stored quantity after
      every report exactly when no report takes quantity back and each that adds
      some is booked once, so is a fill that either names a symbol some runner
      trades, or names none while there is one runner.  At any one time the books
      exceed the stored quantity by what fell and, for every runner but one, by
      what came unnamed, and miss what rose without a fill or untraded. */
  lemma BooksFollowReportsExactly(active: seq<Symbol>, orders: map<int, OrderState>, upserts: seq<OrderState>,
                                  sent: seq<OrderUpdate>, id: int)
    requires Tracks(orders, upserts, sent) && Distinct(active)
    ensures AlwaysBooksRight(active, upserts, sent, id) <==>
            forall i | 0 <= i < |sent| && upserts[i].localId == id ::
              var x := sent[i];
              && x.qtyFilled >= 0
              && (x.qtyFilled > 0 ==>
                    IsFill(x.status) && if x.symbol.code == "" then |active| == 1 else x.symbol in active)
    ensures var d := SentOf(upserts, sent, id);
            BookedByRunners(active, upserts, sent, id) ==
            Stored(ReportsOf(upserts, id)) + Fallen(d) - Unbooked(d)
            + (|active| - 1) * Unnamed(upserts, sent, id) - Untraded(active, upserts, sent, id)
  {
    assert TracksId(orders, upserts, sent, id);
    AlwaysBooksRightExactly(active, upserts, sent, id);
    forall i | 0 <= i < |sent| && sent[i].qtyFilled > 0
      ensures TimesBooked(active, sent[i]) == 1 <==>
              IsFill(sent[i].status) && if sent[i].symbol.code == "" then |active| == 1 else sent[i].symbol in active
    {
      BookedOnceExactly(active, sent[i]);
    }
    RunnersBookWeighted(active, upserts, sent, id);
    BookedBalance(ReportsOf(upserts, id));
  }

  /** Every update of the order names a symbol some runner trades. */
  ghost predicate Named(active: seq<Symbol>, upserts: seq<OrderState>, sent: seq<OrderUpdate>, id: int)
    requires |upserts| == |sent|
  {
    forall i | 0 <= i < |sent| && upserts[i].localId == id ::
      sent[i].symbol.code != "" && sent[i].symbol in active
  }

  lemma {:induction false} NamedIsBookedOnce(active: seq<Symbol>, upserts: seq<OrderState>,
                                             sent: seq<OrderUpdate>, id: int)
    requires |upserts| == |sent| && Distinct(active) && Named(active, upserts, sent, id)
    ensures BookedByRunners(active, upserts, sent, id) == Booked(SentOf(upserts, sent, id))
  {
    if upserts != [] {
      var n := |upserts| - 1;
      NamedIsBookedOnce(active, upserts[..n], sent[..n], id);
      if upserts[n].localId == id {
        FillIsBookedOnceExactly(active, sent[n]);
        SumAppend(SentOf(upserts[..n], sent[..n], id), AmountOf(sent[n].qtyFilled, sent[n].status));
      }
    }
  }

  lemma NamedStep(active: seq<Symbol>, p: seq<OrderState>, q: seq<OrderUpdate>, s: OrderState, x: OrderUpdate, id: int)
    requires |p| == |q| && Named(active, p + [s], q + [x], id)
    ensures Named(active, p, q, id)
  {
    assert forall i | 0 <= i < |p| :: (p + [s])[i] == p[i] && (q + [x])[i] == q[i];
  }

  lemma NamedRight(active: seq<Symbol>, upserts: seq<OrderState>, sent: seq<OrderUpdate>, id: int)
    requires |upserts| == |sent| && Distinct(active) && Named(active, upserts, sent, id)
    requires DeltasSent(upserts, sent, id)
    ensures BooksRight(active, upserts, sent, id) <==> BookedRight(ReportsOf(upserts, id))
  {
    NamedIsBookedOnce(active, upserts, sent, id);
  }

  lemma {:induction false} NamedAlwaysRight(active: seq<Symbol>, upserts: seq<OrderState>,
                                            sent: seq<OrderUpdate>, id: int)
    requires |upserts| == |sent| && Distinct(active) && Named(active, upserts, sent, id)
    requires DeltasSent(upserts, sent, id)
    ensures AlwaysBooksRight(active, upserts, sent, id) <==> AlwaysBookedRight(ReportsOf(upserts, id))
  {
    NamedRight(active, upserts, sent, id);
    if upserts != [] {
      var n := |upserts| - 1;
      var p, q, s, x := upserts[..n], sent[..n], upserts[n], sent[n];
      assert upserts == p + [s] && sent == q + [x];
      DeltasSentStep(p, q, s, x, id);
      NamedStep(active, p, q, s, x, id);
      NamedAlwaysRight(active, p, q, id);
      AlwaysBooksRightStep(active, p, q, s, x, id);
      HistoryStep(p, q, s, x, id);
      if s.localId == id {
        AlwaysBookedRightStep(ReportsOf(p, id), AmountOf(s.qtyFilled, s.status));
      } else if AlwaysBookedRight(ReportsOf(p, id)) {
        LastBookedRight(ReportsOf(p, id));
      }
    }
  }

  /** An order whose every update names a symbol some runner trades is booked right
      after every report exactly when the reports never fall and every rise has the
      status of a fill. */
  lemma NamedOrderIsBookedExactly(active: seq<Symbol>, orders: map<int, OrderState>, upserts: seq<OrderState>,
                                  sent: seq<OrderUpdate>, id: int)
    requires Tracks(orders, upserts, sent) && Distinct(active) && Named(active, upserts, sent, id)
    ensures AlwaysBooksRight(active, upserts, sent, id) <==>
            NeverFalls(ReportsOf(upserts, id)) && RisesAreFills(ReportsOf(upserts, id))
    ensures BookedByRunners(active, upserts, sent, id) == Booked(Deltas(ReportsOf(upserts, id)))
  {
    assert TracksId(orders, upserts, sent, id);
    NamedIsBookedOnce(active, upserts, sent, id);
    NamedAlwaysRight(active, upserts, sent, id);
    BookedIsStoredExactly(ReportsOf(upserts, id));
  }

  /** A record as a stream report or a submission stores it. */
  function Report(id: int, sym: Symbol, status: OrderStatus, filled: int): OrderState
  {
    OrderState("", id, sym, Buy, status, Market, 0.0, 5, filled)
  }

  function UpdateOf(s: OrderState, delta: int): OrderUpdate
  {
    OrderUpdate(Int32(s.localId), s.symbol, s.side, s.status, s.kind, s.price, s.qtyTotal, delta)
  }

  /** The stream reports 5 filled lots before submit has stored its own record, then
      reports them again: the client's history is in order, and with k runners the 5
      lots are booked as 5 * k + 5. */
  lemma LateSubmitIsBookedByAll(active: seq<Symbol>, sym: Symbol, id: int)
    requires Distinct(active) && sym in active && sym.code != ""
    ensures var a, b := Report(id, Symbol("", ""), Filled, 5), Report(id, sym, Pending, 0);
            var c := Report(id, sym, Filled, 5);
            var sent := [UpdateOf(a, 5), UpdateOf(b, -5), UpdateOf(c, 5)];
            && Tracks(map[id := c], [a, b, c], sent)
            && Stored(ReportsOf([a, b, c], id)) == 5
            && BookedByRunners(active, [a, b, c], sent, id) == 5 * |active| + 5
  {
    var a, b := Report(id, Symbol("", ""), Filled, 5), Report(id, sym, Pending, 0);
    var c := Report(id, sym, Filled, 5);
    var x, y, z := UpdateOf(a, 5), UpdateOf(b, -5), UpdateOf(c, 5);
    assert [] + [a] == [a] && [a] + [b] == [a, b] && [a, b] + [c] == [a, b, c];
    assert [] + [x] == [x] && [x] + [y] == [x, y] && [x, y] + [z] == [x, y, z];
    UpsertKeepsTracking(map[], [], [], a, x);
    UpsertKeepsTracking(map[id := a], [a], [x], b, y);
    assert map[id := a][id := b] == map[id := b] && map[id := b][id := c] == map[id := c];
    UpsertKeepsTracking(map[id := b], [a, b], [x, y], c, z);
    BooksStep(active, [], [], a, x, id);
    BooksStep(active, [a], [x], b, y, id);
    BooksStep(active, [a, b], [x, y], c, z, id);
    FillIsBookedOnceExactly(active, x);
    FillIsBookedOnceExactly(active, y);
    FillIsBookedOnceExactly(active, z);
  }

  /** The next event, if any. */
  method Next<T(0)>(queue: Spsc.SpscQueue<T>) returns (event: Option<T>)
    requires queue.Valid()
    modifies queue
    ensures queue.Valid() && old(queue.Contents()) == Before(event) + queue.Contents()
    ensures event.None? ==> queue.Contents() == []
  {
    event := queue.Pop();
  }

  function Before<T>(event: Option<T>): seq<T>
  {
    match event
    case None => []
    case Some(e) => [e]
  }

  /** Everything queued is dispatched, oldest first, and the queue is left
      empty (with no push falling inside the loop). */
  method DrainQueue<T(0)>(queue: Spsc.SpscQueue<T>) returns (dispatched: seq<T>)
    requires queue.Valid()
    modifies queue
    ensures queue.Valid() && queue.Contents() == [] && dispatched == old(queue.Contents())
  {
    dispatched := [];
    ghost var all := queue.Contents();
    var event := Next(queue);
    ghost var held := queue.Contents();
    while event.Some?
      invariant queue.Valid() && queue.Contents() == held
      invariant dispatched + (Before(event) + held) == all
      invariant event.None? ==> held == []
      decreases event.Some?, |held|
    {
      Regroup(dispatched, [event.value], held);
      dispatched := dispatched + [event.value];
      event := Next(queue);
      held := queue.Contents();
    }
  }

  lemma Regroup<T>(a: seq<T>, b: seq<T>, c: seq<T>)
    ensures a + (b + c) == (a + b) + c
  {
  }

  // ---- Rollover ------------------------------------------------------------------

  /** The runner moves on to the next contract and feeds its daily history, but the
      strategy keeps the symbol it was made for: it takes that history in exactly if
      the next contract is still its own. */
  method Rollover(next: Symbol, history: seq<Bar>, strategy: Strategy.ConfluenceStrategy) returns (active: Symbol)
    requires strategy.Valid() && SessionContext.AllRepresentable(history)
    modifies strategy`st, strategy`past, strategy.book, strategy.book.levelScores, strategy.flow, strategy.spoof
    modifies strategy.session, strategy.session.dailyRanges
    ensures strategy.Valid() && active == next
    ensures strategy.session.ranges == old(strategy.session.ranges) + Strategy.OwnRanges(strategy.cfg.symbol, history)
    ensures strategy.past.readings ==
            old(strategy.past.readings) + Strategy.OwnReadings(strategy.cfg.symbol, history)
    ensures (forall i | 0 <= i < |history| :: history[i].symbol == next && history[i].timeframe == "D1") ==>
              |strategy.session.ranges| ==
              |old(strategy.session.ranges)| + if next == strategy.cfg.symbol then |history| else 0
    ensures Strategy.Foreign(strategy.cfg.symbol, history) ==>
              && strategy.past.events == old(strategy.past.events) + [ConfluenceState.SessionReset]
              && strategy.session.window == [] && strategy.session.closing == None
  {
    strategy.OnSessionOpen();
    active := next;
    strategy.LoadHistory(history);
    if forall i | 0 <= i < |history| :: history[i].symbol == next && history[i].timeframe == "D1" {
      Strategy.HistoryIsTakenExactly(strategy.cfg.symbol, next, history);
    }
  }

  /** A stream report of a known order, from the client to one runner: the client
      stores what was executed, and the runner books and queues the change exactly
      if the order's symbol is its active one (or empty).  So after a rollover to
      another contract the executions of the strategy's own entries reach neither the
      risk manager's books nor the strategy. */
  method OnStreamReport(o: StreamOrder, client: OrderClient, active: Symbol, risk: RiskManager, queue: Queue)
    returns (upd: OrderUpdate)
    requires client.Valid() && risk.Valid() && queue.Valid() && o.clientOrderId in client.orders
    modifies client, risk`account, risk`peak, risk`lots, risk`history, queue, queue.buffer
    ensures client.Valid() && risk.Valid()
    ensures o.clientOrderId in client.orders && client.orders[o.clientOrderId].qtyFilled == o.executedQuantity
    ensures upd.qtyFilled == o.executedQuantity - old(client.orders[o.clientOrderId].qtyFilled)
    ensures var sym := old(client.orders[o.clientOrderId].symbol);
            var heard := sym == active || sym.code == "";
            && Grown(old(risk.history), risk.history, upd, if heard && Bookable(upd) then 1 else 0)
            && Holds(queue, if heard && |old(queue.Contents())| < Room(queue) then old(queue.Contents()) + [upd]
                            else old(queue.Contents()))
  {
    assert TracksId(client.orders, client.upserts, client.sent, o.clientOrderId);
    upd := client.OnStreamOrder(o);
    OnUpdate(upd, active, risk, queue);
  }

  /** An entry is made for the strategy's own symbol, so after a rollover to
      another contract the runner discards the order's updates: they pass exactly
      while the active symbol is still the strategy's. */
  lemma EntryIsHeardExactly(account: string, sig: Signal, own: Symbol, active: Symbol, upd: OrderUpdate)
    requires sig.symbol == own && own.code != "" && upd.symbol == RequestFor(account, sig).symbol
    ensures Accepts(active, upd) <==> active == own
    ensures Bookable(upd) ==> (TimesBooked([active], upd) == 1 <==> active == own)
  {
    FillIsBookedOnceExactly([active], upd);
  }

  // ---- From the client's updates to the strategy's position ----------------------------------

  /** What the runner passes on to the strategy while its queue has room. */
  function Heard(active: Symbol, updates: seq<OrderUpdate>): seq<ConfluenceState.PositionEvent>
  {
    if updates == [] then []
    else
      var p, u := Heard(active, updates[..|updates| - 1]), updates[|updates| - 1];
      if Accepts(active, u) then p + [ConfluenceState.Updated(u)] else p
  }

  /** The net quantity of all updates, passed on or not. */
  function Net(updates: seq<OrderUpdate>): int
  {
    if updates == [] then 0 else Net(updates[..|updates| - 1]) + Signed(updates[|updates| - 1])
  }

  /** The strategy's position has moved by what the client's updates report. */
  ghost predicate Follows(past: seq<ConfluenceState.PositionEvent>, active: Symbol, updates: seq<OrderUpdate>)
  {
    ConfluenceState.Kept(past + Heard(active, updates)) == ConfluenceState.Kept(past) + Net(updates)
  }

  ghost predicate AlwaysFollows(past: seq<ConfluenceState.PositionEvent>, active: Symbol, updates: seq<OrderUpdate>)
  {
    forall n | 0 <= n <= |updates| :: Follows(past, active, updates[..n])
  }

  /** The update reaches the position, or carries nothing. */
  predicate Reaches(active: Symbol, u: OrderUpdate)
  {
    u.qtyFilled == 0 || (u.status == Filled && Accepts(active, u))
  }

  lemma HeardStep(past: seq<ConfluenceState.PositionEvent>, active: Symbol, updates: seq<OrderUpdate>, u: OrderUpdate)
    ensures ConfluenceState.Kept(past + Heard(active, updates + [u])) ==
            ConfluenceState.Kept(past + Heard(active, updates))
            + if u.status == Filled && Accepts(active, u) then Signed(u) else 0
    ensures Net(updates + [u]) == Net(updates) + Signed(u)
  {
    assert (updates + [u])[..|updates|] == updates;
    if Accepts(active, u) {
      var h := past + Heard(active, updates);
      assert past + (Heard(active, updates) + [ConfluenceState.Updated(u)]) == h + [ConfluenceState.Updated(u)];
      assert (h + [ConfluenceState.Updated(u)])[..|h|] == h;
    }
  }

  lemma AlwaysFollowsStep(past: seq<ConfluenceState.PositionEvent>, active: Symbol,
                          updates: seq<OrderUpdate>, u: OrderUpdate)
    ensures AlwaysFollows(past, active, updates + [u]) <==>
            AlwaysFollows(past, active, updates) && Follows(past, active, updates + [u])
    ensures AlwaysFollows(past, active, updates) ==> Follows(past, active, updates)
  {
    var follows := (us: seq<OrderUpdate>) => Follows(past, active, us);
    HoldsOnPrefixes(follows, updates, u);
    assert AlwaysFollows(past, active, updates + [u]) <==>
           forall n | 0 <= n <= |updates| + 1 :: follows((updates + [u])[..n]);
    assert AlwaysFollows(past, active, updates) <==> forall n | 0 <= n <= |updates| :: follows(updates[..n]);
    assert updates[..|updates|] == updates;
  }

  /** Whatever came before: the strategy's position moves with the client's updates,
      after every one of them, exactly when each that carries a quantity is a complete
      fill and names the active symbol or none. */
  lemma {:induction false} PositionFollowsExactly(past: seq<ConfluenceState.PositionEvent>, active: Symbol,
                                                  updates: seq<OrderUpdate>)
    ensures AlwaysFollows(past, active, updates) <==> forall i | 0 <= i < |updates| :: Reaches(active, updates[i])
  {
    if updates == [] {
      assert past + [] == past;
    } else {
      var p, u := updates[..|updates| - 1], updates[|updates| - 1];
      assert updates == p + [u];
      PositionFollowsExactly(past, active, p);
      HeardStep(past, active, p, u);
      AlwaysFollowsStep(past, active, p, u);
    }
  }

  /** After a rollover to another contract the position, zero since the reset, stays
      zero whatever the strategy's own orders execute. */
  lemma {:induction false} ForeignContractIsUnheard(past: seq<ConfluenceState.PositionEvent>, own: Symbol,
                                                    active: Symbol, updates: seq<OrderUpdate>)
    requires own != active && own.code != ""
    requires forall i | 0 <= i < |updates| :: updates[i].symbol == own
    ensures Heard(active, updates) == []
    ensures ConfluenceState.Kept(past + [ConfluenceState.SessionReset] + Heard(active, updates)) == 0
    ensures Follows(past + [ConfluenceState.SessionReset], active, updates) <==> Net(updates) == 0
  {
    if updates != [] {
      assert updates[|updates| - 1].symbol == own;
      ForeignContractIsUnheard(past, own, active, updates[..|updates| - 1]);
    }
    assert past + [ConfluenceState.SessionReset] + [] == past + [ConfluenceState.SessionReset];
  }

  /** A complete fill of an order just stored, from the client through the runner's
      filter to the strategy: a buy raises the position by what was filled, a sale
      lowers it, exactly if the order's symbol is the active one (or empty). */
  method FillNewOrder(id: int, filled: int, client: OrderClient, active: Symbol, strategy: Strategy.ConfluenceStrategy)
    requires client.Valid() && strategy.Valid() && id in client.orders && client.orders[id].qtyFilled == 0
    modifies client, strategy`st, strategy`past
    ensures client.Valid() && strategy.Valid() && id in client.orders && client.orders[id].qtyFilled == filled
    ensures var o := old(client.orders[id]);
            strategy.st.position == old(strategy.st.position) +
                                    if o.symbol != active && o.symbol.code != "" then 0
                                    else if o.side == Buy then filled else -filled
  {
    var o := client.orders[id];
    assert TracksId(client.orders, client.upserts, client.sent, id);
    var upd := client.OnStreamOrder(StreamOrder(o.orderId, id, o.side, Filled, o.kind, o.qtyTotal, filled));
    if Accepts(active, upd) {
      strategy.OnOrderUpdate(upd);
    }
  }

  /** From a signal to the position: a signal the risk manager admits, taken by the
      client and the exchange and then filled, moves the position of a strategy that
      trades the symbol up by what was filled for a long entry, down for a short one
      or a close; any other leaves it alone. */
  method SignalToPosition(sig: Signal, account: string, risk: RiskManager, client: OrderClient,
                          answer: Result<(string, OrderStatus)>, margin: Option<real>,
                          today: Date, toInt: string -> Option<int>,
                          filled: int, strategy: Strategy.ConfluenceStrategy)
    requires risk.Valid() && client.Valid() && strategy.Valid()
    modifies risk`tripped, risk`tripReason, client, strategy`st, strategy`past
    ensures risk.Valid() && client.Valid() && strategy.Valid()
    ensures var entry := sig.direction == GoLong || sig.direction == GoShort;
            var admitted := old(risk.Admits(sig.symbol.code, sig.quantity, margin, today, toInt));
            var traded := (sig.direction == Close || (entry && admitted)) && Acceptable(sig, account) && answer.Ok?;
            strategy.st.position == old(strategy.st.position) +
                                    if !traded then 0 else if sig.direction == GoLong then filled else -filled
  {
    var submitted := HandleSignal(sig, account, risk, client, answer, margin, today, toInt);
    if submitted.Some? && submitted.value.Ok? {
      FillNewOrder(submitted.value.value, filled, client, sig.symbol, strategy);
    }
  }
}
