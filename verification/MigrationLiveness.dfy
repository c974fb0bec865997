/**
 What a run of the scheduler achieves: it cannot get stuck, it cannot go on for
 ever, and what it returns tells how the tasks ended.
 */
module MigrationLiveness {
  import opened MigrationQueueSpec
  import opened MigrationScheduler
  import FiniteGraph

  // ------------------------------------------------------------- results

  /** A nil return means every task is completed and no execution failed; a failed
      execution makes the run return the error of a task that failed. */
  lemma ReturnedOutcome(c: Config, states: seq<State>, steps: seq<Step>, n: nat)
    requires c.Valid() && Run(c, states, steps) && n < |states| && states[n].main.Returned?
    ensures
      var s := states[n];
      match s.main.outcome
      case Nil => s.history.failures == {} && s.st.Keys == c.deps.Keys && forall id ::
        id in s.st ==> s.st[id] == Completed
      case TaskFailed(id) => HasStatus(s.st, id, Failed)
      case ContextError => s.signal.cancelled && s.history.failures == {}
  {
    hide Next, Enabled, Init, FlightInv, CountInv, BatchInv, DependenciesSettled;
    InvHolds(c, states, steps, n);
    var s := states[n];
    assert forall r :: !ResultPending(s, r);
    forall id | id in s.history.failures
      ensures s.signal.failed.Some?
    {
      assert HasStatus(s.st, id, Failed);
    }
    forall id | id in s.st && s.main.outcome.Nil?
      ensures s.st[id] == Completed
    {
      assert !HasStatus(s.st, id, Failed);
    }
  }

  // ---------------------------------------------------- no state is stuck

  predicate SomeoneCanStep(c: Config, s: State) {
    || MainEnabled(c, s)
    || (exists i :: 0 <= i < |s.workers| && WorkerEnabled(c, s, i))
    || HandlerEnabled(s)
  }

  lemma NoDeadlock(c: Config, s: State)
    requires Inv(c, s) && !s.main.Returned?
    ensures SomeoneCanStep(c, s)
  {
    hide FlightInv, DependencyInv, FailureInv, HistoryInv, StoppingInv, IsReady, Distinct, BusyWorkers, AllReady;
    if s.main.WaitWorkers? && !MainEnabled(c, s) {
      var i :| 0 <= i < |s.workers| && s.workers[i] != Exited;
      assert WorkerEnabled(c, s, i) || HandlerEnabled(s);
    }
  }

  // ------------------------------------------------------------- measure

  function PendingCount(order: seq<TaskId>, st: Statuses): nat {
    if order == [] then 0
    else PendingCount(order[..|order| - 1], st) + (if HasStatus(st, order[|order| - 1], Pending) then 1 else 0)
  }

  function WorkerWeight(w: Worker): nat {
    match w
    case Idle => 1
    case Holding(_) => 8
    case Executing(_) => 7
    case Reporting(_) => 6
    case Exited => 0
  }

  function WorkersWeight(ws: seq<Worker>): nat {
    if ws == [] then 0 else WorkersWeight(ws[..|ws| - 1]) + WorkerWeight(ws[|ws| - 1])
  }

  function HandlerWeight(h: Handler): nat {
    match h
    case Waiting => 1
    case Handling(_) => 4
    case Decrementing(_) => 3
    case Checking(_) => 2
    case Done => 0
  }

  function MainWeight(m: Main): nat {
    match m
    case SendHead(_) => 15
    case CloseTasks => 5
    case WaitWorkers => 4
    case CloseResults => 3
    case WaitHandler => 2
    case Decide => 1
    case Returned(_) => 0
    case _ => 6
  }

  /** What is still to be done, counted so that every productive step lowers it. */
  function Measure(c: Config, s: State): nat {
    10 * PendingCount(c.order, s.st) + 8 * |s.ch.tasks| + WorkersWeight(s.workers) + 4 * |s.ch.results|
    + HandlerWeight(s.handler) + MainWeight(s.main) + (if s.signal.cancelled then 0 else 1)
  }

  /** The main loop looks around without dispatching anything or leaving. */
  predicate IsSpin(c: Config, s: State, step: Step) {
    && step == MainStep
    && !s.main.MarkHead? && !s.main.SendHead?
    && s.main.IsScheduling() && MainNext(c, s).main.IsScheduling()
  }

  lemma {:induction false} WorkersWeightUpdate(ws: seq<Worker>, i: nat, w: Worker)
    requires i < |ws|
    ensures WorkersWeight(ws[i := w]) + WorkerWeight(ws[i]) == WorkersWeight(ws) + WorkerWeight(w)
  {
    hide WorkerWeight;
    var n := |ws| - 1;
    if i < n {
      assert ws[i := w][..n] == ws[..n][i := w];
      WorkersWeightUpdate(ws[..n], i, w);
    } else {
      assert ws[i := w][..n] == ws[..n];
    }
  }

  /** Marking a pending task lowers the count by one; other tasks do not count. */
  lemma {:induction false} PendingCountMark(order: seq<TaskId>, st: Statuses, id: TaskId, status: Status)
    requires Distinct(order) && id in st && status != Pending
    ensures PendingCount(order, Mark(st, id, status)) + (if id in order && st[id] == Pending then 1 else 0)
         == PendingCount(order, st)
  {
    if order != [] {
      var init, last := order[..|order| - 1], order[|order| - 1];
      assert id in order <==> id in init || id == last;
      assert last !in init;
      PendingCountMark(init, st, id, status);
    }
  }

  lemma MainMeasure(c: Config, s: State)
    requires Inv(c, s) && MainEnabled(c, s)
    ensures if IsSpin(c, s, MainStep) then Measure(c, MainNext(c, s)) == Measure(c, s)
            else Measure(c, MainNext(c, s)) < Measure(c, s)
  {
    hide FlightInv, CountInv, DependencyInv, FailureInv, HistoryInv, ClosingInv, StoppingInv, PendingCount, Distinct,
      AllReady,
      NextAvailable, HasPendingWork, AllComplete, Mark, WorkersWeight;
    if s.main.MarkHead? {
      MarkLowersPending(c, s);
    }
  }

  lemma MarkLowersPending(c: Config, s: State)
    requires Inv(c, s) && s.main.MarkHead?
    ensures s.main.batch != []
    ensures PendingCount(c.order, Mark(s.st, s.main.batch[0], InProgress)) + 1 == PendingCount(c.order, s.st)
  {
    hide FlightInv, CountInv, FailureInv, HistoryInv, ClosingInv, StoppingInv, PendingCount, Mark;
    BatchHolds(c, s);
    ReadyIsPending(c, s.st, s.main.batch[0]);
    assert s.main.batch[0] in c.order;
    PendingCountMark(c.order, s.st, s.main.batch[0], InProgress);
  }

  lemma WorkerMeasure(c: Config, s: State, i: nat, succeeds: bool)
    requires WorkerEnabled(c, s, i)
    ensures Measure(c, WorkerNext(s, i, succeeds)) < Measure(c, s)
  {
    hide PendingCount, WorkersWeight;
    WorkersWeightUpdate(s.workers, i, WorkerNext(s, i, succeeds).workers[i]);
  }

  lemma HandlerMeasure(c: Config, s: State)
    requires Inv(c, s) && HandlerEnabled(s)
    ensures Measure(c, HandlerNext(s)) < Measure(c, s)
  {
    hide CountInv, DependencyInv, FailureInv, HistoryInv, ClosingInv, StoppingInv, PendingCount, Mark, WorkersWeight,
      IsReady, Distinct;
    if s.handler.Handling? {
      BatchHolds(c, s);
      FlightStep(c, s, HandlerStep);
      PendingCountMark(c.order, s.st, s.handler.result.id, if s.handler.result.success then Completed else Failed);
    }
  }

  /** Every step other than an idle look around makes progress. */
  lemma StepMeasure(c: Config, s: State, step: Step)
    requires Inv(c, s) && Enabled(c, s, step)
    ensures if IsSpin(c, s, step) then Measure(c, Next(c, s, step)) == Measure(c, s)
            else Measure(c, Next(c, s, step)) < Measure(c, s)
  {
    hide Inv, MainNext, WorkerNext, HandlerNext, PendingCount, WorkersWeight, MainEnabled, WorkerEnabled,
      HandlerEnabled;
    match step {
      case MainStep => MainMeasure(c, s);
      case WorkerStep(i, succeeds) => WorkerMeasure(c, s, i, succeeds);
      case HandlerStep => HandlerMeasure(c, s);
      case MainSeesCancel => CancelMeasure(c, s);
      case CancelFromOutside =>
    }
  }

  lemma CancelMeasure(c: Config, s: State)
    requires Inv(c, s) && SeesCancelEnabled(s)
    ensures Measure(c, SeesCancelNext(s)) < Measure(c, s)
  {
    hide PendingCount, WorkersWeight;
    BatchHolds(c, s);
  }

  // -------------------------------------------- looking around comes to an end

  /** No worker and not the handler can do anything. */
  predicate Quiet(c: Config, s: State) {
    (forall i :: 0 <= i < |s.workers| ==> !WorkerEnabled(c, s, i)) && !HandlerEnabled(s)
  }

  ghost function DependencyGraph(c: Config): FiniteGraph.Graph<TaskId> {
    map id | id in c.deps :: set d | d in c.deps[id] && d in c.deps
  }

  ghost predicate AnyPending(s: State) {
    exists id :: HasStatus(s.st, id, Pending)
  }

  /** In a quiet state that was not cancelled nothing is in flight. */
  lemma QuietIsEmpty(c: Config, s: State)
    requires Inv(c, s) && Quiet(c, s) && !s.signal.cancelled && s.main.IsScheduling()
    ensures forall i :: 0 <= i < |s.workers| ==> s.workers[i] == Idle
    ensures s.ch.tasks == [] && s.ch.results == [] && s.handler == Waiting && s.history.dropped == []
  {
    hide FlightInv, CountInv, BatchInv, DependencyInv, FailureInv, HistoryInv;
    assert s.handler != Done;
    assert s.ch.results == [] && s.handler == Waiting;
    forall i | 0 <= i < |s.workers|
      ensures s.workers[i] == Idle
    {
      assert !WorkerEnabled(c, s, i);
    }
    assert !WorkerEnabled(c, s, 0);
  }

  lemma QuietStatuses(c: Config, s: State)
    requires Inv(c, s) && Quiet(c, s) && !s.signal.cancelled && s.main.IsScheduling() && !s.main.SendHead?
    requires !s.main.MarkHead?
    ensures s.inProgress == 0
    ensures forall id :: id in s.st ==> s.st[id] == Pending || s.st[id] == Completed
  {
    QuietIsEmpty(c, s);
    hide BatchInv, HistoryInv, ClosingInv, StoppingInv, Quiet, DependenciesSettled;
    IdleWorkersHoldNothing(s.workers, "");
    forall id | id in s.st
      ensures s.st[id] == Pending || s.st[id] == Completed
    {
      IdleWorkersHoldNothing(s.workers, id);
      assert InFlight(s, id) == 0;
      assert !HasStatus(s.st, id, Failed);
    }
  }

  /** With acyclic dependencies some pending task is ready. */
  lemma SomeTaskIsReady(c: Config, s: State) returns (x: TaskId)
    requires c.Valid() && s.st.Keys == c.deps.Keys && FiniteGraph.Acyclic(DependencyGraph(c)) && AnyPending(s)
    requires forall id :: id in s.st ==> s.st[id] == Pending || s.st[id] == Completed
    ensures IsReady(x, c.deps, s.st) && x in c.order
  {
    var pending := set id | id in s.st && s.st[id] == Pending;
    var z :| HasStatus(s.st, z, Pending);
    assert z in pending;
    x := FiniteGraph.AcyclicHasSink(DependencyGraph(c), pending);
    forall k | 0 <= k < |c.deps[x]| && c.deps[x][k] in s.st
      ensures s.st[c.deps[x][k]].IsSettled()
    {
      assert c.deps[x][k] in DependencyGraph(c)[x];
      assert FiniteGraph.Edge(DependencyGraph(c), x, c.deps[x][k]);
      assert c.deps[x][k] !in pending;
    }
  }

  /** How many more looks around a quiet main loop can take. */
  ghost function SpinRank(s: State): nat {
    if s.signal.cancelled then
      match s.main
      case CheckAll => 4
      case ReadSlots => 3
      case AskNext(_) => 2
      case CheckPending => 1
      case Increment(_) => 1
      case _ => 0
    else if AnyPending(s) then
      match s.main
      case CheckPending => 6
      case Top => 5
      case CheckAll => 4
      case ReadSlots => 3
      case AskNext(_) => 2
      case Increment(_) => 1
      case _ => 0
    else
      match s.main
      case ReadSlots => 2
      case Top => 1
      case AskNext(_) => 1
      case _ => 0
  }

  lemma SpinKeepsRest(c: Config, s: State, step: Step)
    requires Enabled(c, s, step) && IsSpin(c, s, step)
    ensures
      var t := Next(c, s, step);
      t.st == s.st && t.ch == s.ch && t.workers == s.workers && t.handler == s.handler && t.signal == s.signal
    ensures forall i :: 0 <= i < |s.workers| ==> (WorkerEnabled(c, Next(c, s, step), i) <==> WorkerEnabled(c, s, i))
    ensures HandlerEnabled(Next(c, s, step)) <==> HandlerEnabled(s)
  {
    hide NextAvailable, HasPendingWork, AllComplete, Mark;
  }

  lemma CancelledSpin(c: Config, s: State)
    requires MainEnabled(c, s) && IsSpin(c, s, MainStep) && s.signal.cancelled
    ensures SpinRank(MainNext(c, s)) < SpinRank(s)
  {
    hide NextAvailable, HasPendingWork, AllComplete, Mark, AnyPending;
  }

  lemma PendingSpin(c: Config, s: State)
    requires Inv(c, s) && Quiet(c, s) && MainEnabled(c, s) && IsSpin(c, s, MainStep)
    requires !s.signal.cancelled && AnyPending(s) && FiniteGraph.Acyclic(DependencyGraph(c))
    ensures SpinRank(MainNext(c, s)) < SpinRank(s)
  {
    QuietStatuses(c, s);
    var x := SomeTaskIsReady(c, s);
    if s.main.AskNext? {
      NextAvailableIsSound(c.order, c.deps, s.st, s.main.slots);
    }
    SpinKeepsRest(c, s, MainStep);
    hide FlightInv, CountInv, DependencyInv, FailureInv, HistoryInv, ClosingInv, StoppingInv, IsReady, NextAvailable,
      HasPendingWork, Quiet;
  }

  lemma BatchIsPending(c: Config, s: State)
    requires BatchInv(c, s) && s.main.Increment?
    ensures AnyPending(s)
  {
    assert IsReady(s.main.batch[0], c.deps, s.st);
    assert HasStatus(s.st, s.main.batch[0], Pending);
  }

  lemma FinishedSpin(c: Config, s: State)
    requires Inv(c, s) && Quiet(c, s) && MainEnabled(c, s) && IsSpin(c, s, MainStep)
    requires !s.signal.cancelled && !AnyPending(s)
    ensures SpinRank(MainNext(c, s)) < SpinRank(s)
  {
    QuietStatuses(c, s);
    forall id | id in s.st
      ensures s.st[id] == Completed
    {
      assert !HasStatus(s.st, id, Pending);
    }
    if s.main.AskNext? {
      NextAvailableIsSound(c.order, c.deps, s.st, s.main.slots);
    }
    if s.main.Increment? {
      BatchIsPending(c, s);
    }
    SpinKeepsRest(c, s, MainStep);
    hide FlightInv, CountInv, DependencyInv, FailureInv, HistoryInv, ClosingInv, StoppingInv, NextAvailable, Quiet;
  }

  // --------------------------------------------------- infinite fair runs

  /** An infinite run: `state(n)` and the step taken there, for every n. */
  ghost predicate InfiniteRun(c: Config, state: nat -> State, step: nat -> Step) {
    && Init(c, state(0))
    && forall n: nat :: Enabled(c, state(n), step(n)) && state(n + 1) == Next(c, state(n), step(n))
  }

  ghost predicate WorkerServed(c: Config, state: nat -> State, step: nat -> Step, i: nat, m: nat) {
    (step(m).WorkerStep? && step(m).i == i) || !WorkerEnabled(c, state(m), i)
  }

  ghost predicate HandlerServed(state: nat -> State, step: nat -> Step, m: nat) {
    step(m) == HandlerStep || !HandlerEnabled(state(m))
  }

  ghost predicate WorkerServedLater(c: Config, state: nat -> State, step: nat -> Step, i: nat, n: nat) {
    exists m: nat :: n <= m && WorkerServed(c, state, step, i, m)
  }

  ghost predicate HandlerServedLater(state: nat -> State, step: nat -> Step, n: nat) {
    exists m: nat :: n <= m && HandlerServed(state, step, m)
  }

  /** Weak fairness: no worker, and not the handler, is ready for ever without stepping. */
  ghost predicate Fair(c: Config, state: nat -> State, step: nat -> Step) {
    && (forall i: nat, n: nat :: WorkerServedLater(c, state, step, i, n))
    && (forall n: nat :: HandlerServedLater(state, step, n))
  }

  lemma {:induction false} InfiniteInv(c: Config, state: nat -> State, step: nat -> Step, n: nat)
    requires c.Valid() && InfiniteRun(c, state, step)
    ensures Inv(c, state(n)) && Enabled(c, state(n), step(n)) && state(n + 1) == Next(c, state(n), step(n))
  {
    hide Inv, Next, Enabled, Init;
    if n == 0 {
      InitInv(c, state(0));
    } else {
      InfiniteInv(c, state, step, n - 1);
      InvStep(c, state(n - 1), step(n - 1));
    }
  }

  ghost predicate SameSurroundings(s: State, t: State) {
    t.st == s.st && t.ch == s.ch && t.workers == s.workers && t.handler == s.handler && t.signal == s.signal
  }

  /** From `n` on the main loop only looks around, or progress is made before `m`. */
  lemma {:induction false} SpinOrProgress(c: Config, state: nat -> State, step: nat -> Step, n: nat,
                                          m: nat) returns (k: nat)
    requires c.Valid() && InfiniteRun(c, state, step) && n <= m
    ensures n <= k <= m
    ensures Measure(c, state(k)) <= Measure(c, state(n))
    ensures Measure(c, state(k)) < Measure(c, state(n)) || (k == m && SameSurroundings(state(n), state(m)))
    decreases m
  {
    hide Inv, Next, Enabled, Init, Measure, InfiniteRun, IsSpin;
    if n == m {
      k := n;
    } else {
      k := SpinOrProgress(c, state, step, n, m - 1);
      if Measure(c, state(k)) == Measure(c, state(n)) {
        InfiniteInv(c, state, step, m - 1);
        StepMeasure(c, state(m - 1), step(m - 1));
        if IsSpin(c, state(m - 1), step(m - 1)) {
          SpinKeepsRest(c, state(m - 1), step(m - 1));
        }
        k := m;
      }
    }
  }

  lemma EnablednessDependsOnSurroundings(c: Config, s: State, t: State, i: nat)
    requires SameSurroundings(s, t)
    ensures WorkerEnabled(c, s, i) <==> WorkerEnabled(c, t, i)
    ensures HandlerEnabled(s) <==> HandlerEnabled(t)
  {
  }

  /** A worker or the handler that can step makes progress before long. */
  lemma ServedProgress(c: Config, state: nat -> State, step: nat -> Step, n: nat, i: nat) returns (k: nat)
    requires c.Valid() && InfiniteRun(c, state, step) && Fair(c, state, step)
    requires WorkerEnabled(c, state(n), i) || HandlerEnabled(state(n))
    ensures Measure(c, state(k)) < Measure(c, state(n))
  {
    hide Inv, Next, Enabled, Init, Measure, InfiniteRun, WorkerEnabled, HandlerEnabled;
    var m: nat;
    if WorkerEnabled(c, state(n), i) {
      assert WorkerServedLater(c, state, step, i, n);
      m :| n <= m && WorkerServed(c, state, step, i, m);
    } else {
      assert HandlerServedLater(state, step, n);
      m :| n <= m && HandlerServed(state, step, m);
    }
    k := SpinOrProgress(c, state, step, n, m);
    if Measure(c, state(k)) == Measure(c, state(n)) {
      EnablednessDependsOnSurroundings(c, state(n), state(m), i);
      InfiniteInv(c, state, step, m);
      StepMeasure(c, state(m), step(m));
      k := m + 1;
    }
  }

  /** When everyone else is quiet the main loop makes progress. */
  lemma {:induction false} QuietProgress(c: Config, state: nat -> State, step: nat -> Step, n: nat) returns (k: nat)
    requires c.Valid() && FiniteGraph.Acyclic(DependencyGraph(c)) && InfiniteRun(c, state, step)
    requires Quiet(c, state(n))
    ensures Measure(c, state(k)) < Measure(c, state(n))
    decreases SpinRank(state(n))
  {
    hide Inv, Next, Init, Measure, InfiniteRun, WorkerEnabled, HandlerEnabled, IsSpin, MainEnabled, MainNext;
    InfiniteInv(c, state, step, n);
    StepMeasure(c, state(n), step(n));
    if IsSpin(c, state(n), step(n)) {
      SpinLowersRank(c, state(n), step(n));
      k := QuietProgress(c, state, step, n + 1);
    } else {
      k := n + 1;
    }
  }

  lemma SpinLowersRank(c: Config, s: State, step: Step)
    requires Inv(c, s) && Quiet(c, s) && Enabled(c, s, step) && IsSpin(c, s, step)
    requires FiniteGraph.Acyclic(DependencyGraph(c))
    ensures Quiet(c, Next(c, s, step))
    ensures SpinRank(Next(c, s, step)) < SpinRank(s)
    ensures Measure(c, Next(c, s, step)) == Measure(c, s)
  {
    StepMeasure(c, s, step);
    SpinKeepsRest(c, s, step);
    hide Inv, Measure, WorkerEnabled, HandlerEnabled, MainEnabled, MainNext, AnyPending, SpinRank;
    if s.signal.cancelled {
      CancelledSpin(c, s);
    } else if AnyPending(s) {
      PendingSpin(c, s);
    } else {
      FinishedSpin(c, s);
    }
  }

  /** With acyclic dependencies and executors that always return, every fair run ends. */
  lemma {:induction false} EveryFairRunEnds(c: Config, state: nat -> State, step: nat -> Step)
    requires c.Valid() && FiniteGraph.Acyclic(DependencyGraph(c))
    requires InfiniteRun(c, state, step)
    ensures !Fair(c, state, step)
  {
    if Fair(c, state, step) {
      Descend(c, state, step, 0);
    }
  }

  lemma {:induction false} Descend(c: Config, state: nat -> State, step: nat -> Step, n: nat)
    requires c.Valid() && FiniteGraph.Acyclic(DependencyGraph(c))
    requires InfiniteRun(c, state, step) && Fair(c, state, step)
    ensures false
    decreases Measure(c, state(n))
  {
    hide *;
    var k := LaterProgress(c, state, step, n);
    Descend(c, state, step, k);
  }

  lemma LaterProgress(c: Config, state: nat -> State, step: nat -> Step, n: nat) returns (k: nat)
    requires c.Valid() && FiniteGraph.Acyclic(DependencyGraph(c))
    requires InfiniteRun(c, state, step) && Fair(c, state, step)
    ensures Measure(c, state(k)) < Measure(c, state(n))
  {
    hide Inv, Next, Enabled, Init, Measure, InfiniteRun, Fair, WorkerEnabled, HandlerEnabled;
    if i: nat :| i < |state(n).workers| && WorkerEnabled(c, state(n), i) {
      k := ServedProgress(c, state, step, n, i);
    } else if HandlerEnabled(state(n)) {
      k := ServedProgress(c, state, step, n, 0);
    } else {
      k := QuietProgress(c, state, step, n);
    }
  }
}
