/**
 The task queue of the migration orchestrator as values: what the scheduler may
 ask about the statuses of its tasks, and what the answers mean.
 */
module MigrationQueueSpec {

  type TaskId = string

  datatype Status = Pending | InProgress | Completed | Failed | Skipped {
    predicate IsTerminal() {
      Completed? || Failed? || Skipped?
    }

    /** A dependency in this status lets its dependents run. */
    predicate IsSettled() {
      Completed? || Skipped?
    }
  }

  type Statuses = map<TaskId, Status>
  type Dependencies = map<TaskId, seq<TaskId>>

  // -------------------------------------------------- the queue as a value

  /** Every dependency that is in the queue is settled; others do not matter. */
  predicate DependenciesSettled(dependsOn: seq<TaskId>, st: Statuses) {
    forall k :: 0 <= k < |dependsOn| && dependsOn[k] in st ==> st[dependsOn[k]].IsSettled()
  }

  predicate IsReady(id: TaskId, deps: Dependencies, st: Statuses) {
    id in st && st[id] == Pending && id in deps && DependenciesSettled(deps[id], st)
  }

  /** The ready tasks, in queue order. */
  function ReadyTasks(order: seq<TaskId>, deps: Dependencies, st: Statuses): seq<TaskId> {
    if order == [] then []
    else
      var last := order[|order| - 1];
      ReadyTasks(order[..|order| - 1], deps, st) + (if IsReady(last, deps, st) then [last] else [])
  }

  function NextAvailable(order: seq<TaskId>, deps: Dependencies, st: Statuses, n: nat): seq<TaskId> {
    var ready := ReadyTasks(order, deps, st);
    if |ready| <= n then ready else ready[..n]
  }

  predicate HasPendingWork(order: seq<TaskId>, st: Statuses) {
    exists k :: 0 <= k < |order| && order[k] in st && (st[order[k]] == Pending || st[order[k]] == InProgress)
  }

  predicate AllComplete(st: Statuses) {
    forall id :: id in st ==> st[id].IsTerminal()
  }

  function Mark(st: Statuses, id: TaskId, status: Status): Statuses {
    if id in st then st[id := status] else st
  }

  ghost predicate Distinct(s: seq<TaskId>) {
    forall j, k :: 0 <= j < k < |s| ==> s[j] != s[k]
  }

  lemma {:induction false} ReadyTasksAreReady(order: seq<TaskId>, deps: Dependencies, st: Statuses)
    ensures forall id :: id in ReadyTasks(order, deps, st) <==> id in order && IsReady(id, deps, st)
    ensures Distinct(order) ==> Distinct(ReadyTasks(order, deps, st))
  {
    if order != [] {
      var init, last := order[..|order| - 1], order[|order| - 1];
      ReadyTasksAreReady(init, deps, st);
      assert forall id :: id in order <==> id in init || id == last;
      if Distinct(order) {
        assert last !in init;
      }
    }
  }

  /** What the scheduler relies on: at most `n` distinct tasks, all ready, and none
      withheld while a slot is free. */
  lemma NextAvailableIsSound(order: seq<TaskId>, deps: Dependencies, st: Statuses, n: nat)
    requires Distinct(order)
    ensures
      var next := NextAvailable(order, deps, st, n);
      && |next| <= n
      && Distinct(next)
      && (forall id :: id in next ==> id in order && IsReady(id, deps, st))
      && (|next| < n ==> forall id :: id in order && IsReady(id, deps, st) ==> id in next)
  {
    ReadyTasksAreReady(order, deps, st);
  }

  lemma {:induction false} ReadyTasksExtend(order: seq<TaskId>, deps: Dependencies, st: Statuses, i: nat)
    requires i <= |order|
    ensures ReadyTasks(order[..i], deps, st) <= ReadyTasks(order, deps, st)
  {
    if i < |order| {
      assert order[..|order| - 1][..i] == order[..i];
      ReadyTasksExtend(order[..|order| - 1], deps, st, i);
    } else {
      assert order[..i] == order;
    }
  }
}
