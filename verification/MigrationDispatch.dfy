/**
 How much the main loop dispatches: left alone, one pass hands out the first ready tasks
 until the pool is full or nothing is ready. And what a cancelled run no longer does.
 */
module MigrationDispatch {
  import opened Options
  import opened MigrationQueueSpec
  import opened MigrationScheduler

  // ------------------------------------------------ the first ready tasks

  /** A task waits in the queue, and whatever it depends on there is done or was skipped. */
  predicate MayStart(id: TaskId, deps: Dependencies, st: Statuses) {
    && id in st && st[id] == Pending && id in deps
    && (forall d :: d in deps[id] && d in st ==> st[d] == Completed || st[d] == Skipped)
  }

  lemma ReadyMayStart(deps: Dependencies, st: Statuses)
    ensures forall id :: IsReady(id, deps, st) <==> MayStart(id, deps, st)
  {
    forall id
      ensures IsReady(id, deps, st) <==> MayStart(id, deps, st)
    {
      if id in deps && MayStart(id, deps, st) {
        assert forall k :: 0 <= k < |deps[id]| ==> deps[id][k] in deps[id];
      }
    }
  }

  /** The ids stand in the queue in this order. */
  ghost predicate InQueueOrder(order: seq<TaskId>, ids: seq<TaskId>) {
    forall a, b :: 0 <= a < b < |ids| ==> StandsBefore(order, ids[a], ids[b])
  }

  ghost predicate StandsBefore(order: seq<TaskId>, x: TaskId, y: TaskId) {
    exists i, j :: 0 <= i < j < |order| && order[i] == x && order[j] == y
  }

  /** No ready task was passed over for one behind it. */
  ghost predicate NonePassedOver(order: seq<TaskId>, deps: Dependencies, st: Statuses, ids: seq<TaskId>) {
    forall i, j :: 0 <= i < j < |order| && order[j] in ids && MayStart(order[i], deps, st) ==> order[i] in ids
  }

  ghost predicate FirstReady(order: seq<TaskId>, deps: Dependencies, st: Statuses, ids: seq<TaskId>) {
    && Distinct(ids)
    && (forall id :: id in ids ==> id in order && MayStart(id, deps, st))
    && InQueueOrder(order, ids)
    && NonePassedOver(order, deps, st, ids)
  }

  lemma {:induction false} ReadyTasksInOrder(order: seq<TaskId>, deps: Dependencies, st: Statuses)
    ensures InQueueOrder(order, ReadyTasks(order, deps, st))
  {
    hide IsReady, MayStart;
    if order != [] {
      var init, last := order[..|order| - 1], order[|order| - 1];
      ReadyTasksInOrder(init, deps, st);
      ReadyTasksAreReady(init, deps, st);
      var ids := ReadyTasks(order, deps, st);
      forall a, b | 0 <= a < b < |ids|
        ensures StandsBefore(order, ids[a], ids[b])
      {
        BeforeLast(order, ReadyTasks(init, deps, st), a, b);
      }
    }
  }

  lemma BeforeLast(order: seq<TaskId>, ids: seq<TaskId>, a: nat, b: nat)
    requires order != [] && a < b <= |ids| && InQueueOrder(order[..|order| - 1], ids)
    requires forall id :: id in ids ==> id in order[..|order| - 1]
    ensures StandsBefore(order, ids[a], if b < |ids| then ids[b] else order[|order| - 1])
  {
    var init := order[..|order| - 1];
    if b < |ids| {
      assert StandsBefore(init, ids[a], ids[b]);
      var i, j :| 0 <= i < j < |init| && init[i] == ids[a] && init[j] == ids[b];
      assert order[i] == init[i] && order[j] == init[j];
    } else {
      assert ids[a] in ids;
      var i :| 0 <= i < |init| && init[i] == ids[a];
      assert order[i] == ids[a];
    }
  }

  /** Ids in queue order are as far apart as the queue says. */
  lemma OrderedAlike(order: seq<TaskId>, ids: seq<TaskId>, a: nat, b: nat)
    requires Distinct(order) && InQueueOrder(order, ids) && a < |ids| && b < |ids|
    requires StandsBefore(order, ids[a], ids[b])
    ensures a <= b
  {
  }

  /** The first `n` of the ready tasks are the first ready tasks. */
  lemma NextAreFirst(order: seq<TaskId>, deps: Dependencies, st: Statuses, n: nat)
    requires Distinct(order)
    ensures FirstReady(order, deps, st, NextAvailable(order, deps, st, n))
    ensures |NextAvailable(order, deps, st, n)| < n ==>
      forall id :: id in order && MayStart(id, deps, st) ==> id in NextAvailable(order, deps, st, n)
  {
    ReadyMayStart(deps, st);
    NextAvailableIsSound(order, deps, st, n);
    ReadyTasksInOrder(order, deps, st);
    NextPassesNone(order, deps, st, n);
    hide ReadyTasks, IsReady, MayStart, StandsBefore, Distinct, NonePassedOver;
  }

  lemma NextPassesNone(order: seq<TaskId>, deps: Dependencies, st: Statuses, n: nat)
    requires Distinct(order)
    ensures NonePassedOver(order, deps, st, NextAvailable(order, deps, st, n))
  {
    ReadyMayStart(deps, st);
    ReadyTasksInOrder(order, deps, st);
    ReadyTasksAreReady(order, deps, st);
    var all, next := ReadyTasks(order, deps, st), NextAvailable(order, deps, st, n);
    hide ReadyTasks, IsReady, MayStart, StandsBefore, Distinct, InQueueOrder;
    forall i, j | 0 <= i < j < |order| && order[j] in next && MayStart(order[i], deps, st)
      ensures order[i] in next
    {
      assert StandsBefore(order, order[i], order[j]) by { Standing(order, i, j); }
      assert order[i] in all;
      var a :| 0 <= a < |all| && all[a] == order[i];
      var b :| 0 <= b < |next| && next[b] == order[j];
      assert next[b] == all[b];
      OrderedAlike(order, all, a, b);
      assert next[a] == all[a];
    }
  }

  lemma Standing(order: seq<TaskId>, i: nat, j: nat)
    requires i < j < |order|
    ensures StandsBefore(order, order[i], order[j])
  {
  }

  /** Whatever a task depends on that is in the queue is done or was skipped when the task is
      dispatched, and at any time after that. */
  lemma StartsAfterDependencies(c: Config, states: seq<State>, steps: seq<Step>, m: nat, n: nat, id: TaskId)
    requires c.Valid() && Run(c, states, steps)
    requires m < n < |states| && Dispatches(states[m], steps[m], id)
    ensures MayStart(id, c.deps, states[m].st)
    ensures var st := states[n].st;
      forall d :: d in c.deps[id] && d in st ==> st[d] == Completed || st[d] == Skipped
  {
    DispatchedStaysSettled(c, states, steps, m, n, id);
    hide Run, Dispatches;
  }

  // -------------------------------------------------- the main loop alone

  /** The main loop makes `n` steps, each of them enabled, and no other process steps. */
  ghost predicate LeadsTo(c: Config, s: State, t: State, n: nat)
    decreases n
  {
    if n == 0 then s == t else MainEnabled(c, s) && LeadsTo(c, MainNext(c, s), t, n - 1)
  }

  lemma {:induction false} LeadsOn(c: Config, s: State, t: State, u: State, m: nat, n: nat)
    requires LeadsTo(c, s, t, m) && LeadsTo(c, t, u, n)
    ensures LeadsTo(c, s, u, m + n)
    decreases m
  {
    hide MainNext, MainEnabled;
    if m > 0 {
      LeadsOn(c, MainNext(c, s), t, u, m - 1, n);
    }
  }

  lemma OneStep(c: Config, s: State)
    requires MainEnabled(c, s)
    ensures LeadsTo(c, s, MainNext(c, s), 1)
  {
    hide MainNext, MainEnabled;
    assert LeadsTo(c, MainNext(c, s), MainNext(c, s), 0);
  }

  lemma MainKeepsInv(c: Config, s: State)
    requires Inv(c, s) && MainEnabled(c, s)
    ensures Inv(c, MainNext(c, s))
  {
    InvStep(c, s, MainStep);
    hide *;
    assert Next(c, s, MainStep) == MainNext(c, s) by { MainIsNext(c, s); }
  }

  lemma MainIsNext(c: Config, s: State)
    requires MainEnabled(c, s)
    ensures Enabled(c, s, MainStep) && Next(c, s, MainStep) == MainNext(c, s)
  {
    hide MainNext, MainEnabled;
  }

  lemma SendIsEnabled(c: Config, s: State)
    requires Inv(c, s) && s.main.SendHead?
    ensures MainEnabled(c, s) && s.main.batch != []
  {
    hide FlightInv, DependencyInv, FailureInv, HistoryInv, ClosingInv, StoppingInv, MayStart, Distinct, BusyWorkers;
  }

  function MarkAll(st: Statuses, ids: seq<TaskId>): Statuses {
    if ids == [] then st else MarkAll(Mark(st, ids[0], InProgress), ids[1..])
  }

  /** A state in which the tasks were sent. */
  function Sent(s: State, main: Main, ids: seq<TaskId>): State {
    s.(main := main, st := MarkAll(s.st, ids), ch := s.ch.(tasks := s.ch.tasks + ids),
       inProgress := s.inProgress + |ids|)
  }

  lemma OneMore(c: Config, s: State, t: State, n: nat)
    requires LeadsTo(c, s, t, n) && Inv(c, t) && MainEnabled(c, t)
    ensures LeadsTo(c, s, MainNext(c, t), n + 1) && Inv(c, MainNext(c, t))
  {
    MainKeepsInv(c, t);
    OneStep(c, t);
    hide *;
    LeadsOn(c, s, t, MainNext(c, t), n, 1);
  }

  lemma NoSteps(c: Config, s: State)
    ensures LeadsTo(c, s, s, 0)
  {
  }

  lemma HeadSteps(c: Config, s: State)
    requires s.main.Increment? && s.main.batch != []
    ensures var b, u := s.main.batch, MainNext(c, s);
      var v := MainNext(c, u);
      && u.main.MarkHead? && v.main.SendHead?
      && MainNext(c, v) == Sent(s, if |b| > 1 then Increment(b[1..]) else Top, [b[0]])
  {
    MarkOne(s.st, s.main.batch[0]);
    hide Mark, MarkAll;
  }

  /** Counting, marking and sending the head of the batch. */
  lemma SendsHead(c: Config, s: State) returns (t: State)
    requires Inv(c, s) && s.main.Increment?
    ensures s.main.batch != [] && Inv(c, t) && LeadsTo(c, s, t, 3)
    ensures t == Sent(s, if |s.main.batch| > 1 then Increment(s.main.batch[1..]) else Top, [s.main.batch[0]])
  {
    BatchHolds(c, s);
    HeadSteps(c, s);
    var u := MainNext(c, s);
    hide Inv, LeadsTo, MainNext, Sent;
    NoSteps(c, s);
    OneMore(c, s, s, 0);
    OneMore(c, s, u, 1);
    SendIsEnabled(c, MainNext(c, u));
    OneMore(c, s, MainNext(c, u), 2);
    t := MainNext(c, MainNext(c, u));
  }

  lemma MarkOne(st: Statuses, id: TaskId)
    ensures MarkAll(st, [id]) == Mark(st, id, InProgress)
  {
    hide Mark;
    assert [id][1..] == [];
  }

  lemma SentTwice(s: State, main: Main, last: Main, ids: seq<TaskId>)
    requires ids != []
    ensures Sent(Sent(s, main, [ids[0]]), last, ids[1..]) == Sent(s, last, ids)
  {
    MarkOne(s.st, ids[0]);
    assert s.ch.tasks + [ids[0]] + ids[1..] == s.ch.tasks + ids;
    hide Mark;
  }

  /** The whole batch is sent without waiting. */
  lemma {:induction false} SendsBatch(c: Config, s: State) returns (n: nat)
    requires Inv(c, s) && s.main.Increment?
    ensures LeadsTo(c, s, Sent(s, Top, s.main.batch), n)
    decreases if s.main.Increment? then |s.main.batch| else 0
  {
    hide Inv, LeadsTo, MarkAll;
    var b := s.main.batch;
    var t := SendsHead(c, s);
    SentTwice(s, t.main, Top, b);
    if |b| > 1 {
      var m := SendsBatch(c, t);
      LeadsOn(c, s, t, Sent(t, Top, b[1..]), 3, m);
      n := 3 + m;
    } else {
      assert b[1..] == [] && b == [b[0]];
      n := 3;
    }
  }

  // ------------------------------------------------------ what is dispatched

  /** The tasks, and they alone, are marked as in progress. */
  ghost predicate OnlyTheseMarked(before: Statuses, after: Statuses, ids: seq<TaskId>) {
    && after.Keys == before.Keys
    && (forall id :: id in before ==> after[id] == if id in ids then InProgress else before[id])
  }

  lemma {:induction false} MarkAllMarks(st: Statuses, ids: seq<TaskId>)
    requires forall id :: id in ids ==> id in st
    ensures OnlyTheseMarked(st, MarkAll(st, ids), ids)
  {
    if ids != [] {
      var next := Mark(st, ids[0], InProgress);
      assert forall id :: id in ids[1..] ==> id in ids;
      MarkAllMarks(next, ids[1..]);
      assert forall id :: id in ids <==> id == ids[0] || id in ids[1..];
    }
  }

  /** A pass of the main loop that has sent these tasks. */
  ghost predicate Dispatched(c: Config, s: State, t: State, sent: seq<TaskId>) {
    && (t.main.Top? || t.main.CloseTasks?)
    && t == s.(main := t.main, st := t.st, ch := s.ch.(tasks := s.ch.tasks + sent),
               inProgress := s.inProgress + |sent|)
    && OnlyTheseMarked(s.st, t.st, sent)
    && FirstReady(c.order, c.deps, s.st, sent)
  }

  ghost predicate NothingReady(c: Config, st: Statuses) {
    forall id :: id in c.order ==> !MayStart(id, c.deps, st)
  }

  /** Marking what is ready makes nothing else ready. */
  lemma SentAllReady(c: Config, s: State, t: State, sent: seq<TaskId>)
    requires Dispatched(c, s, t, sent)
    requires forall id :: id in c.order && MayStart(id, c.deps, s.st) ==> id in sent
    ensures NothingReady(c, t.st)
  {
    assert forall id :: id in s.st && id !in sent ==> t.st[id] == s.st[id];
  }

  lemma NothingSent(c: Config, s: State, t: State)
    requires t == s.(main := t.main) && (t.main.Top? || t.main.CloseTasks?)
    ensures Dispatched(c, s, t, [])
  {
    assert s.ch.tasks + [] == s.ch.tasks;
  }

  lemma CompleteIsNotReady(c: Config, st: Statuses)
    requires AllComplete(st)
    ensures NothingReady(c, st)
  {
  }

  lemma LookSteps(c: Config, s: State)
    requires s.main == Top && !s.signal.cancelled && s.inProgress <= c.max
    ensures var u := MainNext(c, s);
      var v := MainNext(c, u);
      && u.main.CheckAll? && u == s.(main := u.main) && v == s.(main := v.main)
      && (if AllComplete(s.st) then v.main == CloseTasks
          else
            && v.main.ReadSlots?
            && MainNext(c, v)
                 == s.(main := if s.inProgress == c.max then Top else AskNext(c.max - s.inProgress)))
  {
    hide AllComplete;
  }

  /** From the top of the loop to where it asks the queue, or back if there is no room. */
  lemma Looks(c: Config, s: State) returns (t: State, n: nat)
    requires Inv(c, s) && s.main == Top && !s.signal.cancelled
    ensures n > 0 && LeadsTo(c, s, t, n) && t == s.(main := t.main) && Inv(c, t)
    ensures || (t.main == CloseTasks && AllComplete(s.st))
            || (t.main == Top && s.inProgress == c.max)
            || (s.inProgress < c.max && t.main == AskNext(c.max - s.inProgress))
  {
    BatchAtTop(c, s);
    LookSteps(c, s);
    var u := MainNext(c, s);
    var v := MainNext(c, u);
    hide Inv, LeadsTo, AllComplete, MainNext;
    NoSteps(c, s);
    OneMore(c, s, s, 0);
    OneMore(c, s, u, 1);
    if AllComplete(s.st) {
      t, n := v, 2;
    } else {
      OneMore(c, s, v, 2);
      t, n := MainNext(c, v), 3;
    }
  }

  lemma BatchAtTop(c: Config, s: State)
    requires Inv(c, s) && s.main == Top
    ensures s.inProgress <= c.max
  {
    hide FlightInv, CountInv, DependencyInv, FailureInv, HistoryInv, ClosingInv, StoppingInv;
  }

  lemma AskSteps(c: Config, s: State)
    requires s.main.AskNext?
    ensures var sent := NextAvailable(c.order, c.deps, s.st, s.main.slots);
      var u := MainNext(c, s);
      && u == s.(main := if sent == [] then CheckPending else Increment(sent))
      && (sent == [] ==> var t := MainNext(c, u); t == s.(main := t.main) && (t.main.Top? || t.main.CloseTasks?))
  {
    hide NextAvailable, HasPendingWork;
  }

  /** The queue has an answer, and the whole of it is sent. */
  lemma SendsAnswer(c: Config, s: State, u: State, sent: seq<TaskId>) returns (t: State, n: nat)
    requires Inv(c, u) && sent != [] && u == s.(main := Increment(sent)) && FirstReady(c.order, c.deps, s.st, sent)
    ensures LeadsTo(c, u, t, n) && Dispatched(c, s, t, sent)
  {
    n := SendsBatch(c, u);
    t := Sent(u, Top, sent);
    AllKnown(c, s.st, sent);
    MarkAllMarks(s.st, sent);
    hide Inv, LeadsTo, FirstReady, OnlyTheseMarked, MarkAll;
  }

  lemma AsksInVain(c: Config, s: State) returns (t: State)
    requires Inv(c, s) && s.main.AskNext? && NextAvailable(c.order, c.deps, s.st, s.main.slots) == []
    ensures LeadsTo(c, s, t, 2) && Dispatched(c, s, t, [])
  {
    AskSteps(c, s);
    hide Inv, LeadsTo, MainNext, NextAvailable, Dispatched;
    NoSteps(c, s);
    OneMore(c, s, s, 0);
    OneMore(c, s, MainNext(c, s), 1);
    t := MainNext(c, MainNext(c, s));
    NothingSent(c, s, t);
  }

  lemma AsksAndSends(c: Config, s: State, sent: seq<TaskId>) returns (t: State, n: nat)
    requires Inv(c, s) && s.main.AskNext? && sent == NextAvailable(c.order, c.deps, s.st, s.main.slots) != []
    requires FirstReady(c.order, c.deps, s.st, sent)
    ensures LeadsTo(c, s, t, n) && Dispatched(c, s, t, sent)
  {
    hide *;
    AskSteps(c, s);
    var u := MainNext(c, s);
    MayAsk(c, s);
    NoSteps(c, s);
    OneMore(c, s, s, 0);
    var m;
    t, m := SendsAnswer(c, s, u, sent);
    n := 1 + m;
    LeadsOn(c, s, u, t, 1, m);
  }

  lemma MayAsk(c: Config, s: State)
    requires s.main.AskNext?
    ensures MainEnabled(c, s)
  {
  }

  /** From the answer of the queue on. */
  lemma Asks(c: Config, s: State) returns (t: State, n: nat, sent: seq<TaskId>)
    requires Inv(c, s) && s.main.AskNext?
    ensures LeadsTo(c, s, t, n) && Dispatched(c, s, t, sent) && |sent| <= s.main.slots
    ensures |sent| < s.main.slots ==> NothingReady(c, t.st)
  {
    sent := NextAvailable(c.order, c.deps, s.st, s.main.slots);
    OrderIsDistinct(c, s);
    NextAreFirst(c.order, c.deps, s.st, s.main.slots);
    NextAvailableIsSound(c.order, c.deps, s.st, s.main.slots);
    ReadyMayStart(c.deps, s.st);
    hide *;
    if sent == [] {
      t := AsksInVain(c, s);
      n := 2;
    } else {
      t, n := AsksAndSends(c, s, sent);
    }
    if |sent| < s.main.slots {
      SentAllReady(c, s, t, sent);
    }
  }

  lemma OrderIsDistinct(c: Config, s: State)
    requires Inv(c, s)
    ensures Distinct(c.order)
  {
    hide FlightInv, CountInv, BatchInv, DependencyInv, FailureInv, HistoryInv, ClosingInv, StoppingInv;
  }

  lemma AllKnown(c: Config, st: Statuses, ids: seq<TaskId>)
    requires FirstReady(c.order, c.deps, st, ids)
    ensures forall id :: id in ids ==> id in st
  {
  }

  /** Work is conserved. From every reachable state at the top of the loop of a run that is
      not cancelled, the main loop alone gets through a pass in which it sends the first
      ready tasks, until as many are in progress as are allowed or none is ready. */
  lemma WorkIsConserved(c: Config, s: State) returns (t: State, n: nat, sent: seq<TaskId>)
    requires Inv(c, s) && s.main == Top && !s.signal.cancelled
    ensures n > 0 && LeadsTo(c, s, t, n) && Dispatched(c, s, t, sent)
    ensures t.inProgress == c.max || NothingReady(c, t.st)
  {
    hide Inv, LeadsTo, IsReady, MayStart, FirstReady;
    var u, m := Looks(c, s);
    if u.main.AskNext? {
      var k;
      t, k, sent := Asks(c, u);
      LeadsOn(c, s, u, t, m, k);
      n := m + k;
    } else {
      t, n, sent := u, m, [];
      NothingSent(c, s, u);
      if u.main == CloseTasks {
        CompleteIsNotReady(c, s.st);
      }
    }
  }

  // ---------------------------------------------------- enough workers

  function IdleWorkers(ws: seq<Worker>): nat {
    if ws == [] then 0 else IdleWorkers(ws[..|ws| - 1]) + (if ws[|ws| - 1] == Idle then 1 else 0)
  }

  lemma {:induction false} IdleOrBusy(ws: seq<Worker>)
    requires forall i :: 0 <= i < |ws| ==> ws[i] != Exited
    ensures IdleWorkers(ws) + BusyWorkers(ws) == |ws|
  {
    if ws != [] {
      IdleOrBusy(ws[..|ws| - 1]);
    }
  }

  lemma LoadFits(c: Config, s: State)
    requires Inv(c, s)
    ensures |s.ch.tasks| + BusyWorkers(s.workers) <= c.max == |s.workers|
    ensures !s.signal.cancelled && !s.ch.tasksClosed ==> forall i :: 0 <= i < |s.workers| ==> s.workers[i] != Exited
  {
    hide FlightInv, DependencyInv, FailureInv, HistoryInv, IsReady, Distinct, BusyWorkers, AllComplete;
  }

  /** No task that was sent waits for another one: there is an idle worker for each, which
      can take it at once. */
  lemma EveryTaskHasAWorker(c: Config, s: State)
    requires Inv(c, s) && !s.signal.cancelled && !s.ch.tasksClosed
    ensures |s.ch.tasks| <= IdleWorkers(s.workers)
    ensures forall i: nat :: i < |s.workers| && s.workers[i] == Idle && s.ch.tasks != [] ==> WorkerEnabled(c, s, i)
  {
    LoadFits(c, s);
    IdleOrBusy(s.workers);
    hide Inv, BusyWorkers, IdleWorkers;
  }

  // ------------------------------------------------------- cancelled runs

  ghost predicate Starts(s: State, t: State, i: nat) {
    && i < |s.workers| && i < |t.workers| && t.workers[i].Executing? && !s.workers[i].Executing?
  }

  /** Once a run is cancelled, no execution starts. */
  lemma NothingStartsAfterCancel(c: Config, s: State, step: Step, i: nat)
    requires Enabled(c, s, step) && s.signal.cancelled
    ensures !Starts(s, Next(c, s, step), i)
  {
    hide MainNext, HandlerNext, SeesCancelNext, MainEnabled;
    OthersKeepWorkers(c, s);
  }

  lemma OthersKeepWorkers(c: Config, s: State)
    ensures MainNext(c, s).workers == s.workers && HandlerNext(s).workers == s.workers
    ensures SeesCancelNext(s).workers == s.workers
  {
    hide NextAvailable, HasPendingWork, AllComplete, Mark;
  }

  /** A run stays cancelled, and the failure it reports is the first one handled. */
  lemma FirstFailureStays(c: Config, s: State, step: Step)
    requires Enabled(c, s, step)
    ensures s.signal.cancelled ==> Next(c, s, step).signal.cancelled
    ensures s.signal.failed.Some? ==> Next(c, s, step).signal.failed == s.signal.failed
  {
    hide NextAvailable, HasPendingWork, AllComplete, Mark;
  }

  /** The first failure that is handled is reported and cancels the run at once. */
  lemma FailureCancels(c: Config, s: State)
    requires s.handler.Checking? && !s.handler.result.success
    ensures var t := Next(c, s, HandlerStep);
      t.signal.failed == (if s.signal.failed.Some? then s.signal.failed else Some(s.handler.result))
      && (s.signal.failed.None? ==> t.signal.cancelled)
  {
  }
}
