/**
 The task queue of the migration orchestrator as objects: tasks carry a mutable
 status, and the queue files them by id.
 */
module MigrationQueue {
  import opened S = MigrationQueueSpec

  class Task {
    const id: TaskId
    const dependsOn: seq<TaskId>
    var status: Status
    var commitHash: string
    var error: string

    constructor (id: TaskId, dependsOn: seq<TaskId>)
      ensures this.id == id && this.dependsOn == dependsOn
      ensures status == Pending && commitHash == "" && error == ""
    {
      this.id := id;
      this.dependsOn := dependsOn;
      status := Pending;
      commitHash := "";
      error := "";
    }

    method MarkInProgress()
      modifies this`status
      ensures status == InProgress
    {
      status := InProgress;
    }

    method MarkCompleted(commitHash: string)
      modifies this`status, this`commitHash
      ensures status == Completed && this.commitHash == commitHash
    {
      status := Completed;
      this.commitHash := commitHash;
    }

    method MarkFailed(err: string)
      modifies this`status, this`error
      ensures status == Failed && error == err
    {
      status := Failed;
      error := err;
    }

    method MarkSkipped(reason: string)
      modifies this`status, this`error
      ensures status == Skipped && error == reason
    {
      status := Skipped;
      error := reason;
    }
  }

  class Queue {
    var tasks: map<TaskId, Task>
    var order: seq<TaskId>

    /** Tasks are filed under their own id. */
    ghost predicate Valid()
      reads this, tasks.Values
    {
      forall id :: id in tasks ==> tasks[id].id == id
    }

    ghost function Statuses(): Statuses
      reads this, tasks.Values
    {
      map id | id in tasks :: tasks[id].status
    }

    ghost function Deps(): Dependencies
      reads this, tasks.Values
    {
      map id | id in tasks :: tasks[id].dependsOn
    }

    /** A queue of fresh tasks, filed and listed in the order given. */
    constructor (newTasks: seq<Task>)
      requires forall j, k :: 0 <= j < k < |newTasks| ==> newTasks[j].id != newTasks[k].id
      requires forall k :: 0 <= k < |newTasks| ==> newTasks[k].status == Pending
      ensures Valid()
      ensures |order| == |newTasks| && forall k :: 0 <= k < |newTasks| ==> order[k] == newTasks[k].id
      ensures Distinct(order)
      ensures forall id :: id in Statuses() <==> id in order
      ensures forall id :: id in Statuses() ==> Statuses()[id] == Pending
    {
      order := [];
      tasks := map[];
      new;
      for i := 0 to |newTasks|
        invariant |order| == i && forall k :: 0 <= k < i ==> order[k] == newTasks[k].id
        invariant forall id :: id in tasks <==> id in order
        invariant forall id :: id in tasks ==> tasks[id] in newTasks && tasks[id].id == id
      {
        tasks := tasks[newTasks[i].id := newTasks[i]];
        order := order + [newTasks[i].id];
      }
    }

    method CanRun(t: Task) returns (ready: bool)
      requires Valid()
      ensures ready == DependenciesSettled(t.dependsOn, Statuses())
    {
      for i := 0 to |t.dependsOn|
        invariant DependenciesSettled(t.dependsOn[..i], Statuses())
      {
        var depId := t.dependsOn[i];
        if depId in tasks {
          var dep := tasks[depId];
          if dep.status != Completed && dep.status != Skipped {
            assert depId in Statuses() && !Statuses()[depId].IsSettled();
            return false;
          }
        }
        assert t.dependsOn[..i + 1] == t.dependsOn[..i] + [depId];
      }
      assert t.dependsOn[..|t.dependsOn|] == t.dependsOn;
      return true;
    }

    ghost function Ids(ts: seq<Task>): seq<TaskId> {
      seq(|ts|, k requires 0 <= k < |ts| => ts[k].id)
    }

    method NextAvailable(n: nat) returns (available: seq<Task>)
      requires Valid()
      ensures Ids(available) == S.NextAvailable(order, Deps(), Statuses(), n)
      ensures forall t :: t in available ==> t.id in tasks && tasks[t.id] == t
    {
      hide S.IsReady;
      available := [];
      for i := 0 to |order|
        invariant |available| <= n
        invariant Ids(available) == S.ReadyTasks(order[..i], Deps(), Statuses())
        invariant forall t :: t in available ==> t.id in tasks && tasks[t.id] == t
      {
        if |available| >= n {
          S.ReadyTasksExtend(order, Deps(), Statuses(), i);
          return;
        }
        var id := order[i];
        assert order[..i + 1][..i] == order[..i];
        if id in tasks && tasks[id].status == Pending {
          var t := tasks[id];
          var ready := CanRun(t);
          WhenReady(id);
          if ready {
            assert Ids(available + [t]) == Ids(available) + [id];
            available := available + [t];
          }
        } else {
          WhenReady(id);
        }
      }
      assert order[..|order|] == order;
    }

    lemma WhenReady(id: TaskId)
      requires Valid()
      ensures S.IsReady(id, Deps(), Statuses()) <==>
              id in tasks && tasks[id].status == Pending && S.DependenciesSettled(tasks[id].dependsOn, Statuses())
    {
    }

    method MarkInProgress(id: TaskId)
      requires Valid()
      modifies if id in tasks then {tasks[id]} else {}
      ensures Valid() && Statuses() == S.Mark(old(Statuses()), id, InProgress) && Deps() == old(Deps())
    {
      if id in tasks {
        tasks[id].MarkInProgress();
      }
    }

    method MarkCompleted(id: TaskId, commitHash: string)
      requires Valid()
      modifies if id in tasks then {tasks[id]} else {}
      ensures Valid() && Statuses() == S.Mark(old(Statuses()), id, Completed) && Deps() == old(Deps())
      ensures id in tasks ==> tasks[id].commitHash == commitHash
    {
      if id in tasks {
        tasks[id].MarkCompleted(commitHash);
      }
    }

    method MarkFailed(id: TaskId, err: string)
      requires Valid()
      modifies if id in tasks then {tasks[id]} else {}
      ensures Valid() && Statuses() == S.Mark(old(Statuses()), id, Failed) && Deps() == old(Deps())
      ensures id in tasks ==> tasks[id].error == err
    {
      if id in tasks {
        tasks[id].MarkFailed(err);
      }
    }

    method MarkSkipped(id: TaskId, reason: string)
      requires Valid()
      modifies if id in tasks then {tasks[id]} else {}
      ensures Valid() && Statuses() == S.Mark(old(Statuses()), id, Skipped) && Deps() == old(Deps())
      ensures id in tasks ==> tasks[id].error == reason
    {
      if id in tasks {
        tasks[id].MarkSkipped(reason);
      }
    }

    method HasPendingWork() returns (pending: bool)
      requires Valid()
      ensures pending == S.HasPendingWork(order, Statuses())
    {
      for i := 0 to |order|
        invariant !S.HasPendingWork(order[..i], Statuses())
      {
        if order[i] in tasks {
          var t := tasks[order[i]];
          if t.status == Pending || t.status == InProgress {
            assert order[i] in Statuses() && Statuses()[order[i]] == t.status;
            return true;
          }
        }
        assert forall k :: 0 <= k < i ==> order[..i][k] == order[k];
      }
      assert order[..|order|] == order;
      return false;
    }

    /** Visits the tasks in no particular order, as the iteration over a Go map does. */
    method AllComplete() returns (complete: bool)
      requires Valid()
      ensures complete == S.AllComplete(Statuses())
    {
      var left := tasks.Keys;
      while left != {}
        invariant left <= tasks.Keys
        invariant forall id :: id in tasks && id !in left ==> tasks[id].status.IsTerminal()
        decreases |left|
      {
        var id :| id in left;
        if !tasks[id].status.IsTerminal() {
          assert id in Statuses() && !Statuses()[id].IsTerminal();
          return false;
        }
        left := left - {id};
      }
      return true;
    }
  }
}
