/**
 The scheduler's protocol: a main loop, a pool of workers, a result handler, two
 bounded channels and a cancel signal, as a state machine whose steps interleave
 freely. Every shared read, write, send and receive is a step of its own.
 */
module MigrationScheduler {
  import opened Options
  import opened MigrationQueueSpec

  /** `order` and `deps` describe the queue; `max` is the configured concurrency. */
  datatype Config = Config(order: seq<TaskId>, deps: Dependencies, max: nat) {
    /** Distinct ids, a dependency list for each, and at least one worker. */
    ghost predicate Valid() {
      && max >= 1
      && Distinct(order)
      && (forall id :: id in order <==> id in deps)
    }
  }

  datatype TaskResult = TaskResult(id: TaskId, success: bool)

  datatype Outcome = Nil | TaskFailed(id: TaskId) | ContextError

  datatype Main =
    | Top
    | CheckAll
    | ReadSlots
    | AskNext(slots: nat)
    | CheckPending
    | Increment(batch: seq<TaskId>)
    | MarkHead(batch: seq<TaskId>)
    | SendHead(batch: seq<TaskId>)
    | CloseTasks
    | WaitWorkers
    | CloseResults
    | WaitHandler
    | Decide
    | Returned(outcome: Outcome)
  {
    /** Still scheduling. */
    predicate IsScheduling() {
      Top? || CheckAll? || ReadSlots? || AskNext? || CheckPending? || Increment? || MarkHead? || SendHead?
    }
  }

  datatype Worker = Idle | Holding(id: TaskId) | Executing(id: TaskId) | Reporting(result: TaskResult) | Exited

  datatype Handler =
    | Waiting
    | Handling(result: TaskResult)
    | Decrementing(result: TaskResult)
    | Checking(result: TaskResult)
    | Done

  datatype Channels = Channels(tasks: seq<TaskId>, tasksClosed: bool, results: seq<TaskResult>, resultsClosed: bool)

  /** `stopped` records that the loop was left because of the cancel signal. */
  datatype Signal = Signal(cancelled: bool, failed: Option<TaskResult>, stopped: bool)

  /** Not part of the program: tasks given up by a cancelled process, and tasks
      whose execution failed. */
  datatype History = History(dropped: seq<TaskId>, failures: set<TaskId>)

  datatype State = State(st: Statuses, main: Main, ch: Channels, workers: seq<Worker>, handler: Handler,
                         inProgress: int, signal: Signal, history: History)

  datatype Step =
    | MainStep
    | MainSeesCancel
    | CancelFromOutside
    | WorkerStep(i: nat, succeeds: bool)
    | HandlerStep

  ghost predicate Init(c: Config, s: State) {
    && s.st.Keys == c.deps.Keys
    && (forall id :: id in s.st ==> s.st[id] == Pending)
    && s.main == Top && !s.signal.stopped
    && s.ch.tasks == [] && !s.ch.tasksClosed
    && |s.workers| == c.max && (forall i :: 0 <= i < c.max ==> s.workers[i] == Idle)
    && s.ch.results == [] && !s.ch.resultsClosed
    && s.handler == Waiting && s.inProgress == 0 && s.signal.failed == None && !s.signal.cancelled
    && s.history.dropped == [] && s.history.failures == {}
  }

  // ----------------------------------------------------------- main loop

  predicate MainEnabled(c: Config, s: State) {
    match s.main
    case SendHead(_) => |s.ch.tasks| < c.max
    case WaitWorkers => forall i :: 0 <= i < |s.workers| ==> s.workers[i] == Exited
    case WaitHandler => s.handler == Done
    case Returned(_) => false
    case _ => true
  }

  function MainNext(c: Config, s: State): State {
    match s.main
    case Top => if s.signal.cancelled then s.(main := CloseTasks, signal := s.signal.(stopped := true))
                else s.(main := CheckAll)
    case CheckAll => s.(main := if AllComplete(s.st) then CloseTasks else ReadSlots)
    case ReadSlots =>
      var slots := c.max - s.inProgress;
      s.(main := if slots <= 0 then Top else AskNext(slots))
    case AskNext(slots) =>
      var batch := NextAvailable(c.order, c.deps, s.st, slots);
      s.(main := if batch == [] then CheckPending else Increment(batch))
    case CheckPending => s.(main := if HasPendingWork(c.order, s.st) then Top else CloseTasks)
    case Increment(batch) => s.(main := MarkHead(batch), inProgress := s.inProgress + 1)
    case MarkHead(batch) =>
      s.(main := SendHead(batch), st := if batch == [] then s.st else Mark(s.st, batch[0], InProgress))
    case SendHead(batch) =>
      if batch == [] then s
      else s.(main := if |batch| > 1 then Increment(batch[1..]) else Top, ch := s.ch.(tasks := s.ch.tasks + [batch[0]]))
    case CloseTasks => s.(main := WaitWorkers, ch := s.ch.(tasksClosed := true))
    case WaitWorkers => s.(main := CloseResults)
    case CloseResults => s.(main := WaitHandler, ch := s.ch.(resultsClosed := true))
    case WaitHandler => s.(main := Decide)
    case Decide =>
      s.(main := Returned(if s.signal.failed.Some? then TaskFailed(s.signal.failed.value.id)
                          else if s.signal.stopped then ContextError
                          else Nil))
    case Returned(_) => s
  }

  /** The other arm of the select around the send. */
  predicate SeesCancelEnabled(s: State) {
    s.main.SendHead? && s.signal.cancelled
  }

  function SeesCancelNext(s: State): State {
    if s.main.SendHead? && s.main.batch != [] then
      s.(main := CloseTasks, signal := s.signal.(stopped := true),
         history := s.history.(dropped := s.history.dropped + [s.main.batch[0]]))
    else s
  }

  // ------------------------------------------------------------- workers

  predicate WorkerEnabled(c: Config, s: State, i: nat) {
    && i < |s.workers|
    && match s.workers[i]
       case Idle => s.ch.tasks != [] || s.ch.tasksClosed
       case Reporting(_) => |s.ch.results| < c.max
       case Exited => false
       case _ => true
  }

  function WorkerNext(s: State, i: nat, succeeds: bool): State
    requires i < |s.workers|
  {
    match s.workers[i]
    case Idle =>
      if s.ch.tasks != [] then s.(workers := s.workers[i := Holding(s.ch.tasks[0])], ch :=
                                  s.ch.(tasks := s.ch.tasks[1..]))
      else s.(workers := s.workers[i := Exited])
    case Holding(id) =>
      if s.signal.cancelled then s.(workers := s.workers[i := Exited], history :=
                                    s.history.(dropped := s.history.dropped + [id]))
      else s.(workers := s.workers[i := Executing(id)])
    case Executing(id) =>
      s.(workers := s.workers[i := Reporting(TaskResult(id, succeeds))],
         history := if succeeds then s.history else s.history.(failures := s.history.failures + {id}))
    case Reporting(r) => s.(workers := s.workers[i := Idle], ch := s.ch.(results := s.ch.results + [r]))
    case Exited => s
  }

  // ------------------------------------------------------------- handler

  predicate HandlerEnabled(s: State) {
    match s.handler
    case Waiting => s.ch.results != [] || s.ch.resultsClosed
    case Done => false
    case _ => true
  }

  function HandlerNext(s: State): State {
    match s.handler
    case Waiting =>
      if s.ch.results != [] then s.(handler := Handling(s.ch.results[0]), ch := s.ch.(results := s.ch.results[1..]))
      else s.(handler := Done)
    case Handling(r) =>
      s.(handler := Decrementing(r), st := Mark(s.st, r.id, if r.success then Completed else Failed))
    case Decrementing(r) => s.(handler := Checking(r), inProgress := s.inProgress - 1)
    case Checking(r) =>
      if !r.success && s.signal.failed.None? then
        s.(handler := Waiting, signal := s.signal.(failed := Some(r), cancelled := true))
      else s.(handler := Waiting)
    case Done => s
  }

  // ----------------------------------------------------------- any step

  predicate Enabled(c: Config, s: State, step: Step) {
    match step
    case MainStep => MainEnabled(c, s)
    case MainSeesCancel => SeesCancelEnabled(s)
    case CancelFromOutside => !s.signal.cancelled
    case WorkerStep(i, _) => WorkerEnabled(c, s, i)
    case HandlerStep => HandlerEnabled(s)
  }

  function Next(c: Config, s: State, step: Step): State
    requires Enabled(c, s, step)
  {
    match step
    case MainStep => MainNext(c, s)
    case MainSeesCancel => SeesCancelNext(s)
    case CancelFromOutside => s.(signal := s.signal.(cancelled := true))
    case WorkerStep(i, succeeds) => WorkerNext(s, i, succeeds)
    case HandlerStep => HandlerNext(s)
  }

  // ============================================== where the tasks are

  function Occurs(ts: seq<TaskId>, id: TaskId): nat {
    if ts == [] then 0 else (if ts[0] == id then 1 else 0) + Occurs(ts[1..], id)
  }

  lemma {:induction false} OccursAppend(ts: seq<TaskId>, t: TaskId, id: TaskId)
    ensures Occurs(ts + [t], id) == Occurs(ts, id) + (if t == id then 1 else 0)
  {
    if ts != [] {
      assert (ts + [t])[1..] == ts[1..] + [t];
      OccursAppend(ts[1..], t, id);
    } else {
      assert ts + [t] == [t] && [t][1..] == [];
    }
  }

  function WorkerAt(w: Worker, id: TaskId): nat {
    match w
    case Holding(t) => if t == id then 1 else 0
    case Executing(t) => if t == id then 1 else 0
    case Reporting(r) => if r.id == id then 1 else 0
    case _ => 0
  }

  function WorkersAt(ws: seq<Worker>, id: TaskId): nat {
    if ws == [] then 0 else WorkersAt(ws[..|ws| - 1], id) + WorkerAt(ws[|ws| - 1], id)
  }

  function Busy(w: Worker): nat {
    if w.Idle? || w.Exited? then 0 else 1
  }

  function BusyWorkers(ws: seq<Worker>): nat {
    if ws == [] then 0 else BusyWorkers(ws[..|ws| - 1]) + Busy(ws[|ws| - 1])
  }

  function ResultsAt(rs: seq<TaskResult>, id: TaskId): nat {
    if rs == [] then 0 else (if rs[0].id == id then 1 else 0) + ResultsAt(rs[1..], id)
  }

  function HandlerAt(h: Handler, id: TaskId): nat {
    if h.Handling? && h.result.id == id then 1 else 0
  }

  function MainAt(m: Main, id: TaskId): nat {
    if m.SendHead? && m.batch != [] && m.batch[0] == id then 1 else 0
  }

  /** In how many places a task is, between its marking as in progress and the
      handling of its result: the task channel, a worker, the result channel, the
      handler, the main loop's hand, or given up by a cancelled process. */
  function InFlight(s: State, id: TaskId): nat {
    Occurs(s.ch.tasks, id) + WorkersAt(s.workers, id) + ResultsAt(s.ch.results, id)
    + HandlerAt(s.handler, id) + MainAt(s.main, id) + Occurs(s.history.dropped, id)
  }

  /** How many tasks are in flight. */
  function Load(s: State): nat {
    |s.ch.tasks| + BusyWorkers(s.workers) + |s.ch.results| + (if s.handler.Handling? then 1 else 0)
    + (if s.main.SendHead? then 1 else 0) + |s.history.dropped|
  }

  lemma {:induction false} WorkersUpdate(ws: seq<Worker>, i: nat, w: Worker, id: TaskId)
    requires i < |ws|
    ensures WorkersAt(ws[i := w], id) + WorkerAt(ws[i], id) == WorkersAt(ws, id) + WorkerAt(w, id)
    ensures BusyWorkers(ws[i := w]) + Busy(ws[i]) == BusyWorkers(ws) + Busy(w)
  {
    hide WorkerAt, Busy;
    var n := |ws| - 1;
    if i < n {
      assert ws[i := w][..n] == ws[..n][i := w];
      WorkersUpdate(ws[..n], i, w, id);
    } else {
      assert ws[i := w][..n] == ws[..n];
    }
  }

  lemma {:induction false} ResultsAppend(rs: seq<TaskResult>, r: TaskResult, id: TaskId)
    ensures ResultsAt(rs + [r], id) == ResultsAt(rs, id) + (if r.id == id then 1 else 0)
  {
    if rs != [] {
      assert (rs + [r])[1..] == rs[1..] + [r];
      ResultsAppend(rs[1..], r, id);
    } else {
      assert rs + [r] == [r] && [r][1..] == [];
    }
  }

  // ================================================= the invariant

  /** A task is in exactly one place while its status says in progress, and nowhere else. */
  ghost predicate FlightInv(s: State) {
    forall id :: InFlight(s, id) == if id in s.st && s.st[id] == InProgress then 1 else 0
  }

  /** The counter counts the tasks in flight, plus the ones about to enter or just gone. */
  ghost predicate CountInv(s: State) {
    s.inProgress == Load(s) + (if s.handler.Decrementing? then 1 else 0) + (if s.main.MarkHead? then 1 else 0)
  }

  ghost predicate AllReady(c: Config, s: State, ids: seq<TaskId>) {
    forall k :: 0 <= k < |ids| ==> IsReady(ids[k], c.deps, s.st)
  }

  /** The batch the main loop is sending holds distinct ready tasks and fits the free slots. */
  ghost predicate BatchInv(c: Config, s: State) {
    match s.main
    case AskNext(n) => 1 <= n && s.inProgress + n <= c.max
    case Increment(b) => b != [] && Distinct(b) && AllReady(c, s, b) && s.inProgress + |b| <= c.max
    case MarkHead(b) => b != [] && Distinct(b) && AllReady(c, s, b) && s.inProgress + |b| - 1 <= c.max
    case SendHead(b) => b != [] && Distinct(b) && AllReady(c, s, b[1..]) && s.inProgress + |b| - 1 <= c.max
    case _ => s.inProgress <= c.max
  }

  /** Whatever was ever dispatched has all its in-queue dependencies settled. */
  ghost predicate DependencyInv(c: Config, s: State) {
    && s.st.Keys == c.deps.Keys
    && (forall id :: id in s.st && s.st[id] != Pending ==> DependenciesSettled(c.deps[id], s.st))
    && (forall id :: id in s.st ==> s.st[id] != Skipped)
  }

  predicate HandledResult(h: Handler) {
    h.Decrementing? || h.Checking?
  }

  predicate HasStatus(st: Statuses, id: TaskId, status: Status) {
    id in st && st[id] == status
  }

  /** A failed task is known to have failed, and the failure cancels the run. */
  ghost predicate FailureInv(s: State) {
    && (forall id :: HasStatus(s.st, id, Failed) ==>
          s.signal.failed.Some? || (HandledResult(s.handler) && !s.handler.result.success))
    && (HandledResult(s.handler) ==>
          HasStatus(s.st, s.handler.result.id, if s.handler.result.success then Completed else Failed))
    && (s.signal.failed.Some? ==> s.signal.cancelled && HasStatus(s.st, s.signal.failed.value.id, Failed))
  }

  predicate ResultPending(s: State, r: TaskResult) {
    || (exists i :: 0 <= i < |s.workers| && s.workers[i] == Reporting(r))
    || r in s.ch.results
    || s.handler == Handling(r)
  }

  /** No failed execution is forgotten: its result is on the way, or its task is marked failed. */
  ghost predicate HistoryInv(s: State) {
    forall id :: id in s.history.failures ==> HasStatus(s.st, id, Failed) || ResultPending(s, TaskResult(id, false))
  }

  /** The channels are closed in order, and each stage waits for the one before. */
  ghost predicate ClosingInv(c: Config, s: State) {
    && |s.workers| == c.max
    && |s.ch.results| <= c.max
    && (s.ch.tasksClosed <==> !s.main.IsScheduling() && !s.main.CloseTasks?)
    && (s.ch.resultsClosed <==> s.main.WaitHandler? || s.main.Decide? || s.main.Returned?)
    && (s.main.CloseResults? || s.ch.resultsClosed ==> forall i :: 0 <= i < |s.workers| ==> s.workers[i] == Exited)
    && (s.main.Decide? || s.main.Returned? ==> s.handler == Done)
    && (s.handler == Done ==> s.ch.resultsClosed && s.ch.results == [])
  }

  /** Nothing stops early unless the run was cancelled, and the loop is left for a reason. */
  ghost predicate StoppingInv(s: State) {
    && (forall i :: 0 <= i < |s.workers| && s.workers[i] == Exited ==> s.signal.cancelled || s.ch.tasksClosed)
    && (s.history.dropped != [] ==> s.signal.cancelled)
    && (s.signal.stopped ==> s.signal.cancelled && !s.main.IsScheduling())
    && (!s.main.IsScheduling() && !s.signal.stopped ==> AllComplete(s.st))
    && (s.main.Returned? ==> s.main.outcome == if s.signal.failed.Some? then TaskFailed(s.signal.failed.value.id)
                                               else if s.signal.stopped then ContextError else Nil)
  }

  ghost predicate Inv(c: Config, s: State) {
    && c.Valid()
    && FlightInv(s) && CountInv(s) && BatchInv(c, s) && DependencyInv(c, s)
    && FailureInv(s) && HistoryInv(s) && ClosingInv(c, s) && StoppingInv(s)
  }

  // ------------------------------------- steps move tasks, one at a time

  /** The task that enters the flight in this step. */
  predicate Marks(s: State, step: Step, id: TaskId) {
    step == MainStep && s.main.MarkHead? && s.main.batch != [] && s.main.batch[0] == id
  }

  /** The task that leaves it. */
  predicate Settles(s: State, step: Step, id: TaskId) {
    step == HandlerStep && s.handler.Handling? && s.handler.result.id == id
  }

  predicate BatchNonempty(m: Main) {
    m.MarkHead? || m.SendHead? || m.Increment? ==> m.batch != []
  }

  lemma MainMovesTasks(c: Config, s: State, id: TaskId)
    requires BatchNonempty(s.main)
    ensures InFlight(MainNext(c, s), id) == InFlight(s, id) + (if Marks(s, MainStep, id) then 1 else 0)
    ensures Load(MainNext(c, s)) == Load(s) + (if s.main.MarkHead? then 1 else 0)
  {
    hide Occurs, WorkersAt, BusyWorkers, ResultsAt, NextAvailable, HasPendingWork, AllComplete, Mark;
    var t := MainNext(c, s);
    match s.main {
      case SendHead(b) =>
        OccursAppend(s.ch.tasks, b[0], id);
        assert t.ch.tasks == s.ch.tasks + [b[0]];
      case _ =>
        assert t.ch.tasks == s.ch.tasks;
    }
    assert t.workers == s.workers && t.ch.results == s.ch.results && t.handler == s.handler
      && t.history.dropped == s.history.dropped;
    hide MainNext;
  }

  lemma CancelMovesTasks(s: State, id: TaskId)
    requires BatchNonempty(s.main) && s.main.SendHead?
    ensures InFlight(SeesCancelNext(s), id) == InFlight(s, id)
    ensures Load(SeesCancelNext(s)) == Load(s)
  {
    hide Occurs, WorkersAt, BusyWorkers, ResultsAt;
    OccursAppend(s.history.dropped, s.main.batch[0], id);
  }

  lemma WorkerMovesTasks(s: State, i: nat, succeeds: bool, id: TaskId)
    requires i < |s.workers|
    ensures InFlight(WorkerNext(s, i, succeeds), id) == InFlight(s, id)
    ensures Load(WorkerNext(s, i, succeeds)) == Load(s)
  {
    hide WorkersAt, BusyWorkers, ResultsAt;
    var t := WorkerNext(s, i, succeeds);
    WorkersUpdate(s.workers, i, t.workers[i], id);
    assert t.main == s.main && t.handler == s.handler;
    match s.workers[i] {
      case Idle =>
        assert t.ch.results == s.ch.results && t.history.dropped == s.history.dropped;
      case Holding(h) =>
        OccursAppend(s.history.dropped, h, id);
        assert t.ch.results == s.ch.results && t.ch.tasks == s.ch.tasks;
      case Reporting(r) =>
        ResultsAppend(s.ch.results, r, id);
        assert t.ch.tasks == s.ch.tasks && t.history.dropped == s.history.dropped;
      case _ =>
        assert t.ch.results == s.ch.results && t.ch.tasks == s.ch.tasks && t.history.dropped == s.history.dropped;
    }
  }

  lemma HandlerMovesTasks(s: State, id: TaskId)
    ensures InFlight(HandlerNext(s), id) + (if Settles(s, HandlerStep, id) then 1 else 0) == InFlight(s, id)
    ensures Load(HandlerNext(s)) + (if s.handler.Handling? then 1 else 0) == Load(s)
  {
    hide Occurs, WorkersAt, BusyWorkers, Mark, MainAt;
  }

  lemma StepMovesTasks(c: Config, s: State, step: Step, id: TaskId)
    requires Enabled(c, s, step) && BatchNonempty(s.main)
    ensures InFlight(Next(c, s, step), id) + (if Settles(s, step, id) then 1 else 0)
         == InFlight(s, id) + (if Marks(s, step, id) then 1 else 0)
    ensures Load(Next(c, s, step)) + (if step == HandlerStep && s.handler.Handling? then 1 else 0)
         == Load(s) + (if step == MainStep && s.main.MarkHead? then 1 else 0)
  {
    hide MainNext, SeesCancelNext, WorkerNext, HandlerNext, Occurs, WorkersAt, BusyWorkers, ResultsAt;
    match step {
      case MainStep => MainMovesTasks(c, s, id);
      case MainSeesCancel => CancelMovesTasks(s, id);
      case WorkerStep(i, succeeds) => WorkerMovesTasks(s, i, succeeds, id);
      case HandlerStep => HandlerMovesTasks(s, id);
      case CancelFromOutside =>
    }
  }

  // ------------------------------------------- every step keeps the invariant

  /** The two steps that change a status. */
  lemma StepStatuses(c: Config, s: State, step: Step)
    requires Enabled(c, s, step) && BatchNonempty(s.main)
    ensures step == MainStep && s.main.MarkHead? ==> Next(c, s, step).st == Mark(s.st, s.main.batch[0], InProgress)
    ensures step == HandlerStep && s.handler.Handling? ==>
      Next(c, s, step).st == Mark(s.st, s.handler.result.id, if s.handler.result.success then Completed else Failed)
    ensures !(step == MainStep && s.main.MarkHead?) && !(step == HandlerStep && s.handler.Handling?) ==>
      Next(c, s, step).st == s.st
  {
    hide Mark, NextAvailable, HasPendingWork, AllComplete;
  }

  lemma FlightStep(c: Config, s: State, step: Step)
    requires Enabled(c, s, step) && BatchNonempty(s.main) && FlightInv(s)
    requires s.main.MarkHead? ==> IsReady(s.main.batch[0], c.deps, s.st)
    ensures FlightInv(Next(c, s, step))
    ensures step == HandlerStep && s.handler.Handling? ==>
      s.handler.result.id in s.st && s.st[s.handler.result.id] == InProgress
  {
    StepStatuses(c, s, step);
    hide Next, Enabled, IsReady;
    if step == MainStep && s.main.MarkHead? {
      ReadyIsPending(c, s.st, s.main.batch[0]);
    }
    if step == HandlerStep && s.handler.Handling? {
      HandledIsInFlight(s);
    }
    forall id
      ensures InFlight(Next(c, s, step), id) == if id in Next(c, s, step).st
        && Next(c, s, step).st[id] == InProgress then 1 else 0
    {
      StepMovesTasks(c, s, step, id);
      hide InFlight;
    }
  }

  lemma ReadyIsPending(c: Config, st: Statuses, id: TaskId)
    requires IsReady(id, c.deps, st)
    ensures id in st && st[id] == Pending
  {
  }

  lemma HandledIsInFlight(s: State)
    requires s.handler.Handling?
    ensures InFlight(s, s.handler.result.id) >= 1
  {
    hide Occurs, WorkersAt, ResultsAt;
  }

  lemma CountStep(c: Config, s: State, step: Step)
    requires Enabled(c, s, step) && BatchNonempty(s.main) && CountInv(s)
    ensures CountInv(Next(c, s, step))
  {
    StepMovesTasks(c, s, step, "");
    StepCounts(c, s, step);
    hide Next, Enabled, Load;
  }

  lemma StepCounts(c: Config, s: State, step: Step)
    requires Enabled(c, s, step) && BatchNonempty(s.main)
    ensures
      var t := Next(c, s, step);
      var increments := step == MainStep && s.main.Increment?;
      var decrements := step == HandlerStep && s.handler.Decrementing?;
      && t.inProgress == s.inProgress + (if increments then 1 else 0) - (if decrements then 1 else 0)
      && (t.main.MarkHead? <==> increments || (s.main.MarkHead? && step != MainStep))
      && (t.handler.Decrementing? <==>
            (step == HandlerStep && s.handler.Handling?) || (s.handler.Decrementing? && step != HandlerStep))
  {
    hide Mark, NextAvailable, HasPendingWork, AllComplete;
  }

  /** A status only ever moves from pending to in progress to completed or failed. */
  predicate Progresses(st: Statuses, st': Statuses) {
    && st'.Keys == st.Keys
    && forall id :: id in st ==>
         || st'[id] == st[id]
         || (st[id] == Pending && st'[id] == InProgress)
         || (st[id] == InProgress && (st'[id] == Completed || st'[id] == Failed))
  }

  lemma StatusesProgress(c: Config, s: State, step: Step)
    requires Enabled(c, s, step) && BatchNonempty(s.main) && FlightInv(s)
    requires s.main.MarkHead? ==> IsReady(s.main.batch[0], c.deps, s.st)
    ensures Progresses(s.st, Next(c, s, step).st)
    ensures forall id ::
      id in s.st && Next(c, s, step).st[id] != s.st[id] && s.st[id] == Pending ==>
        s.main.MarkHead? && id == s.main.batch[0]
  {
    hide Next, Enabled, InFlight, FlightInv, IsReady;
    StepStatuses(c, s, step);
    FlightStep(c, s, step);
    if s.main.MarkHead? {
      ReadyIsPending(c, s.st, s.main.batch[0]);
    }
  }

  lemma SettledStays(deps: seq<TaskId>, st: Statuses, st': Statuses)
    requires Progresses(st, st') && DependenciesSettled(deps, st)
    ensures DependenciesSettled(deps, st')
  {
  }

  lemma DependencyStep(c: Config, s: State, step: Step)
    requires Enabled(c, s, step) && BatchNonempty(s.main) && FlightInv(s) && DependencyInv(c, s)
    requires s.main.MarkHead? ==> IsReady(s.main.batch[0], c.deps, s.st)
    ensures DependencyInv(c, Next(c, s, step))
  {
    StatusesProgress(c, s, step);
    var t := Next(c, s, step);
    hide Next, Enabled, DependenciesSettled;
    forall id | id in t.st && t.st[id] != Pending
      ensures DependenciesSettled(c.deps[id], t.st)
    {
      SettledStays(c.deps[id], s.st, t.st);
    }
  }

  lemma ReadyStays(c: Config, st: Statuses, st': Statuses, id: TaskId)
    requires Progresses(st, st') && IsReady(id, c.deps, st) && st'[id] == Pending
    ensures IsReady(id, c.deps, st')
  {
    SettledStays(c.deps[id], st, st');
  }

  /** Ready tasks that are not the one being marked stay ready. */
  lemma BatchStaysReady(c: Config, s: State, step: Step, ids: seq<TaskId>)
    requires Enabled(c, s, step) && BatchNonempty(s.main) && FlightInv(s)
    requires s.main.MarkHead? ==> IsReady(s.main.batch[0], c.deps, s.st)
    requires AllReady(c, s, ids) && (s.main.MarkHead? ==> s.main.batch[0] !in ids)
    ensures AllReady(c, Next(c, s, step), ids)
  {
    StatusesProgress(c, s, step);
    var t := Next(c, s, step);
    hide Next, Enabled, IsReady;
    forall k | 0 <= k < |ids|
      ensures IsReady(ids[k], c.deps, t.st)
    {
      ReadyIsPending(c, s.st, ids[k]);
      ReadyStays(c, s.st, t.st, ids[k]);
    }
  }

  lemma BatchHolds(c: Config, s: State)
    requires BatchInv(c, s)
    ensures BatchNonempty(s.main)
    ensures s.main.MarkHead? ==> IsReady(s.main.batch[0], c.deps, s.st)
  {
    hide IsReady, Distinct;
  }

  lemma MainBatchStep(c: Config, s: State)
    requires c.Valid() && MainEnabled(c, s) && FlightInv(s) && BatchInv(c, s)
    ensures BatchInv(c, MainNext(c, s))
  {
    BatchHolds(c, s);
    var t := MainNext(c, s);
    match s.main {
      case AskNext(n) =>
        NextAvailableIsSound(c.order, c.deps, s.st, n);
        hide NextAvailable, IsReady;
      case Increment(b) =>
        BatchStaysReady(c, s, MainStep, b);
        hide IsReady, FlightInv;
      case MarkHead(b) =>
        assert b[0] !in b[1..];
        BatchStaysReady(c, s, MainStep, b[1..]);
        hide IsReady, FlightInv, Mark;
      case SendHead(b) =>
        BatchStaysReady(c, s, MainStep, b[1..]);
        hide IsReady, FlightInv;
      case _ =>
        hide IsReady, FlightInv, Distinct;
    }
  }

  lemma OtherBatchStep(c: Config, s: State, step: Step)
    requires Enabled(c, s, step) && step != MainStep && step != MainSeesCancel && FlightInv(s) && BatchInv(c, s)
    ensures BatchInv(c, Next(c, s, step))
  {
    BatchHolds(c, s);
    StepCounts(c, s, step);
    OthersKeepMain(c, s, step);
    match s.main {
      case Increment(b) => BatchStaysReady(c, s, step, b);
      case MarkHead(b) => BatchStaysReadyButHead(c, s, step);
      case SendHead(b) => BatchStaysReady(c, s, step, b[1..]);
      case _ =>
    }
    hide Next, Enabled, FlightInv, AllReady, Distinct;
  }

  lemma OthersKeepMain(c: Config, s: State, step: Step)
    requires Enabled(c, s, step) && step != MainStep && step != MainSeesCancel
    ensures Next(c, s, step).main == s.main
  {
    hide Mark;
  }

  lemma BatchStaysReadyButHead(c: Config, s: State, step: Step)
    requires Enabled(c, s, step) && step != MainStep && FlightInv(s) && BatchInv(c, s) && s.main.MarkHead?
    ensures AllReady(c, Next(c, s, step), s.main.batch)
  {
    BatchHolds(c, s);
    StepStatuses(c, s, step);
    StatusesProgress(c, s, step);
    FlightStep(c, s, step);
    var t := Next(c, s, step);
    hide Next, Enabled, IsReady, FlightInv;
    forall k | 0 <= k < |s.main.batch|
      ensures IsReady(s.main.batch[k], c.deps, t.st)
    {
      ReadyIsPending(c, s.st, s.main.batch[k]);
      ReadyStays(c, s.st, t.st, s.main.batch[k]);
    }
  }

  lemma CancelBatchStep(c: Config, s: State)
    requires SeesCancelEnabled(s) && BatchInv(c, s)
    ensures BatchInv(c, SeesCancelNext(s))
  {
    hide AllReady, Distinct;
  }

  lemma BatchStep(c: Config, s: State, step: Step)
    requires c.Valid() && Enabled(c, s, step) && FlightInv(s) && BatchInv(c, s)
    ensures BatchInv(c, Next(c, s, step))
  {
    hide FlightInv, BatchInv, MainNext, SeesCancelNext, WorkerNext, HandlerNext, MainEnabled;
    if step == MainStep {
      MainBatchStep(c, s);
    } else if step == MainSeesCancel {
      CancelBatchStep(c, s);
    } else {
      OtherBatchStep(c, s, step);
    }
  }

  lemma FailureStep(c: Config, s: State, step: Step)
    requires Enabled(c, s, step) && FlightInv(s) && BatchInv(c, s) && FailureInv(s)
    ensures FailureInv(Next(c, s, step))
  {
    BatchHolds(c, s);
    StepStatuses(c, s, step);
    StatusesProgress(c, s, step);
    FlightStep(c, s, step);
    StepSignals(c, s, step);
    var t := Next(c, s, step);
    hide Next, Enabled, FlightInv, BatchInv, IsReady;
    forall id | HasStatus(t.st, id, Failed)
      ensures t.signal.failed.Some? || (HandledResult(t.handler) && !t.handler.result.success)
    {
      assert HasStatus(s.st, id, Failed) || (step == HandlerStep && s.handler.Handling? && !s.handler.result.success);
    }
  }

  /** What a step does to the handler and to the recorded failure. */
  lemma StepSignals(c: Config, s: State, step: Step)
    requires Enabled(c, s, step)
    ensures
      var t := Next(c, s, step);
      && (s.signal.cancelled ==> t.signal.cancelled)
      && (if step == HandlerStep && s.handler.Checking? && !s.handler.result.success && s.signal.failed.None?
          then t.signal.failed == Some(s.handler.result) && t.signal.cancelled
          else t.signal.failed == s.signal.failed)
      && (if step == HandlerStep then t.handler == HandlerNext(s).handler else t.handler == s.handler)
  {
    hide Mark, NextAvailable, HasPendingWork, AllComplete;
  }

  lemma WorkerIsInFlight(ws: seq<Worker>, i: nat, id: TaskId)
    requires i < |ws|
    ensures WorkersAt(ws, id) >= WorkerAt(ws[i], id)
  {
    if i < |ws| - 1 {
      WorkerIsInFlight(ws[..|ws| - 1], i, id);
    }
  }

  /** A pending result stays pending until the handler has marked its task. */
  lemma ResultStaysPending(c: Config, s: State, step: Step, r: TaskResult)
    requires Enabled(c, s, step) && ResultPending(s, r)
    ensures ResultPending(Next(c, s, step), r) || (step == HandlerStep && s.handler == Handling(r))
  {
    hide Mark, NextAvailable, HasPendingWork, AllComplete;
    var t := Next(c, s, step);
    if i :| 0 <= i < |s.workers| && s.workers[i] == Reporting(r) {
      assert t.workers[i] == Reporting(r) || r in t.ch.results;
    } else if r in s.ch.results {
      if step == HandlerStep && s.handler.Waiting? {
        assert s.ch.results == [s.ch.results[0]] + t.ch.results;
      }
      assert t.handler == Handling(r) || r in t.ch.results;
    }
  }

  lemma NewFailure(c: Config, s: State, step: Step, id: TaskId)
    requires Enabled(c, s, step) && id in Next(c, s, step).history.failures && id !in s.history.failures
    ensures ResultPending(Next(c, s, step), TaskResult(id, false))
  {
    hide Mark, NextAvailable, HasPendingWork, AllComplete;
    var t := Next(c, s, step);
    assert step.WorkerStep? && t.workers[step.i] == Reporting(TaskResult(id, false));
  }

  lemma HistoryStep(c: Config, s: State, step: Step)
    requires Enabled(c, s, step) && FlightInv(s) && BatchInv(c, s) && HistoryInv(s)
    ensures HistoryInv(Next(c, s, step))
  {
    BatchHolds(c, s);
    StepStatuses(c, s, step);
    StatusesProgress(c, s, step);
    FlightStep(c, s, step);
    var t := Next(c, s, step);
    hide Next, Enabled, FlightInv, BatchInv, IsReady, ResultPending;
    forall id | id in t.history.failures
      ensures HasStatus(t.st, id, Failed) || ResultPending(t, TaskResult(id, false))
    {
      if id !in s.history.failures {
        NewFailure(c, s, step, id);
      } else if ResultPending(s, TaskResult(id, false)) {
        ResultStaysPending(c, s, step, TaskResult(id, false));
      }
    }
  }

  lemma ClosingStep(c: Config, s: State, step: Step)
    requires Enabled(c, s, step) && BatchInv(c, s) && ClosingInv(c, s)
    ensures ClosingInv(c, Next(c, s, step))
  {
    hide Mark, NextAvailable, HasPendingWork, AllComplete, IsReady, Distinct;
  }

  lemma NoPendingWorkIsComplete(c: Config, st: Statuses)
    requires c.Valid() && st.Keys == c.deps.Keys && !HasPendingWork(c.order, st)
    ensures AllComplete(st)
  {
    forall id | id in st
      ensures st[id].IsTerminal()
    {
      var k :| 0 <= k < |c.order| && c.order[k] == id;
    }
  }

  lemma MainStoppingStep(c: Config, s: State)
    requires c.Valid() && MainEnabled(c, s) && DependencyInv(c, s) && ClosingInv(c, s) && StoppingInv(s)
    requires AllComplete(s.st) ==> AllComplete(MainNext(c, s).st)
    ensures StoppingInv(MainNext(c, s))
  {
    if !HasPendingWork(c.order, s.st) {
      NoPendingWorkIsComplete(c, s.st);
    }
    hide Mark, NextAvailable, HasPendingWork, AllComplete, DependencyInv;
  }

  lemma WorkerStoppingStep(c: Config, s: State, i: nat, succeeds: bool)
    requires WorkerEnabled(c, s, i) && StoppingInv(s)
    ensures StoppingInv(WorkerNext(s, i, succeeds))
  {
    hide AllComplete;
  }

  lemma HandlerStoppingStep(s: State)
    requires HandlerEnabled(s) && StoppingInv(s) && (s.main.Returned? ==> s.handler == Done)
    requires AllComplete(s.st) ==> AllComplete(HandlerNext(s).st)
    ensures StoppingInv(HandlerNext(s))
  {
    hide AllComplete, Mark;
  }

  lemma StoppingStep(c: Config, s: State, step: Step)
    requires c.Valid() && Enabled(c, s, step) && FlightInv(s) && BatchInv(c, s) && DependencyInv(c, s)
    requires ClosingInv(c, s) && StoppingInv(s)
    ensures StoppingInv(Next(c, s, step))
  {
    BatchHolds(c, s);
    StatusesProgress(c, s, step);
    CompleteStays(s.st, Next(c, s, step).st);
    hide AllComplete, IsReady, FlightInv, DependencyInv, BatchInv, Progresses, MainNext, WorkerNext, HandlerNext;
    match step {
      case MainStep => MainStoppingStep(c, s);
      case WorkerStep(i, succeeds) => WorkerStoppingStep(c, s, i, succeeds);
      case HandlerStep => HandlerStoppingStep(s);
      case _ =>
    }
  }

  lemma CompleteStays(st: Statuses, st': Statuses)
    requires Progresses(st, st')
    ensures AllComplete(st) ==> AllComplete(st')
  {
  }

  // ------------------------------------------------------- all the way

  lemma {:induction false} IdleWorkersHoldNothing(ws: seq<Worker>, id: TaskId)
    requires forall i :: 0 <= i < |ws| ==> ws[i] == Idle
    ensures WorkersAt(ws, id) == 0 && BusyWorkers(ws) == 0
  {
    if ws != [] {
      IdleWorkersHoldNothing(ws[..|ws| - 1], id);
    }
  }

  lemma InitInv(c: Config, s: State)
    requires c.Valid() && Init(c, s)
    ensures Inv(c, s)
  {
    IdleWorkersHoldNothing(s.workers, "");
    forall id
      ensures InFlight(s, id) == 0
    {
      IdleWorkersHoldNothing(s.workers, id);
    }
  }

  /** The invariant holds in every interleaving. */
  lemma InvStep(c: Config, s: State, step: Step)
    requires Inv(c, s) && Enabled(c, s, step)
    ensures Inv(c, Next(c, s, step))
  {
    hide FlightInv, CountInv, BatchInv, DependencyInv, FailureInv, HistoryInv, ClosingInv, StoppingInv, Next, Enabled,
      IsReady;
    BatchHolds(c, s);
    FlightStep(c, s, step);
    CountStep(c, s, step);
    BatchStep(c, s, step);
    DependencyStep(c, s, step);
    FailureStep(c, s, step);
    HistoryStep(c, s, step);
    ClosingStep(c, s, step);
    StoppingStep(c, s, step);
  }

  // -------------------------------------------------------------- runs

  /** A finite run: the first state is initial, and each step is enabled. */
  ghost predicate Run(c: Config, states: seq<State>, steps: seq<Step>) {
    && |states| == |steps| + 1
    && Init(c, states[0])
    && forall n :: 0 <= n < |steps| ==> Enabled(c, states[n], steps[n]) && states[n + 1] == Next(c, states[n], steps[n])
  }

  lemma {:induction false} InvHolds(c: Config, states: seq<State>, steps: seq<Step>, n: nat)
    requires c.Valid() && Run(c, states, steps) && n < |states|
    ensures Inv(c, states[n])
  {
    hide Inv, Next, Enabled, Init;
    if n == 0 {
      InitInv(c, states[0]);
    } else {
      InvHolds(c, states, steps, n - 1);
      InvStep(c, states[n - 1], steps[n - 1]);
    }
  }

  predicate Dispatches(s: State, step: Step, id: TaskId) {
    Marks(s, step, id)
  }

  lemma DispatchStep(c: Config, s: State, step: Step, id: TaskId)
    requires Inv(c, s) && Enabled(c, s, step) && Dispatches(s, step, id)
    ensures id in c.deps && id in s.st && s.st[id] == Pending && DependenciesSettled(c.deps[id], s.st)
    ensures id in Next(c, s, step).st && Next(c, s, step).st[id] == InProgress
  {
    hide Next, Enabled, FlightInv, CountInv, FailureInv, HistoryInv, ClosingInv, StoppingInv;
    BatchHolds(c, s);
    StepStatuses(c, s, step);
  }

  lemma LeftPendingStays(c: Config, s: State, step: Step, id: TaskId)
    requires Inv(c, s) && Enabled(c, s, step) && id in s.st && s.st[id] != Pending
    ensures id in Next(c, s, step).st && Next(c, s, step).st[id] != Pending
  {
    hide Next, Enabled, FlightInv, CountInv, FailureInv, HistoryInv, ClosingInv, StoppingInv;
    BatchHolds(c, s);
    StatusesProgress(c, s, step);
  }

  lemma LeftPendingIsSettled(c: Config, s: State, id: TaskId)
    requires Inv(c, s) && id in s.st && s.st[id] != Pending
    ensures id in c.deps && DependenciesSettled(c.deps[id], s.st)
  {
    hide FlightInv, CountInv, FailureInv, HistoryInv, ClosingInv, StoppingInv, BatchInv;
  }

  /** At dispatch the task is pending and its dependencies are settled; afterwards they
      stay settled and the task is never pending again. */
  lemma {:induction false} DispatchedStaysSettled(c: Config, states: seq<State>, steps: seq<Step>, m: nat, n: nat,
                                                  id: TaskId)
    requires c.Valid() && Run(c, states, steps)
    requires m < n < |states| && Dispatches(states[m], steps[m], id)
    ensures id in c.deps && id in states[m].st && states[m].st[id] == Pending
    ensures DependenciesSettled(c.deps[id], states[m].st)
    ensures id in states[n].st && states[n].st[id] != Pending && DependenciesSettled(c.deps[id], states[n].st)
  {
    hide Inv, Next, Enabled, Dispatches, Init, DependenciesSettled;
    InvHolds(c, states, steps, m);
    DispatchStep(c, states[m], steps[m], id);
    if m < n - 1 {
      DispatchedStaysSettled(c, states, steps, m, n - 1, id);
      InvHolds(c, states, steps, n - 1);
      LeftPendingStays(c, states[n - 1], steps[n - 1], id);
    }
    InvHolds(c, states, steps, n);
    LeftPendingIsSettled(c, states[n], id);
  }

  /** No task is dispatched twice. */
  lemma DispatchedOnce(c: Config, states: seq<State>, steps: seq<Step>, m: nat, n: nat, id: TaskId)
    requires c.Valid() && Run(c, states, steps)
    requires m < n < |steps| && Dispatches(states[m], steps[m], id)
    ensures !Dispatches(states[n], steps[n], id)
  {
    hide Inv, Next, Enabled, Dispatches, Init, DependenciesSettled;
    DispatchedStaysSettled(c, states, steps, m, n, id);
    InvHolds(c, states, steps, n);
    if Dispatches(states[n], steps[n], id) {
      DispatchStep(c, states[n], steps[n], id);
    }
  }

  /** The counter is the number of tasks in flight up to the two moments when it lags,
      it never exceeds the configured concurrency, and a send finds a free buffer slot. */
  lemma FlowConservation(c: Config, states: seq<State>, steps: seq<Step>, n: nat)
    requires c.Valid() && Run(c, states, steps) && n < |states|
    ensures CountInv(states[n])
    ensures 0 <= states[n].inProgress <= c.max
    ensures states[n].main.SendHead? ==> MainEnabled(c, states[n])
  {
    hide Next, Enabled, Init, FlightInv, DependencyInv, FailureInv, HistoryInv, ClosingInv, StoppingInv, IsReady,
      Distinct, BusyWorkers;
    InvHolds(c, states, steps, n);
  }
}
