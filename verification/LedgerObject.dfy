/** Folding the ledger into task objects for a report (crates/tailfin-ledger/src/lib.rs). */
module LedgerObject {
  import opened Foundations
  import opened TaskModel
  import opened ProxyRun
  import opened LedgerModel
  import opened TaskObject

  ghost predicate Mentioned(records: seq<Record>, root: Id) {
    exists i :: 0 <= i < |records| && records[i].taskId == root
  }

  ghost predicate InState(task: Task, root: Id, s: TaskState)
    reads task
  {
    task.root == root && task.State() == s
  }

  ghost function StateFor(states: map<Id, TaskState>, root: Id): TaskState {
    if root in states then states[root] else NewTask(root, None, None)
  }

  /** The states of all tasks after folding the records one by one. */
  ghost function Folded(records: seq<Record>): map<Id, TaskState> {
    if records == [] then map[]
    else
      var states, rec := Folded(records[..|records| - 1]), records[|records| - 1];
      states[rec.taskId := ReplayRow(StateFor(states, rec.taskId), rec)]
  }

  /** One task object per root that the records mention, each rebuilt from its own rows alone. */
  method TasksFromRecords(records: seq<Record>) returns (tasks: map<Id, Task>)
    ensures forall root :: root in tasks ==> fresh(tasks[root])
    ensures forall root :: root in tasks <==> Mentioned(records, root)
    ensures forall root :: root in tasks ==> tasks[root].State() == Replay(root, RowsOf(records, root))
  {
    tasks := map[];
    for i := 0 to |records|
      invariant forall root :: root in tasks ==> fresh(tasks[root])
      invariant tasks.Keys == Folded(records[..i]).Keys
      invariant forall root :: root in tasks ==> InState(tasks[root], root, Folded(records[..i])[root])
    {
      var rec := records[i];
      assert records[..i + 1][..i] == records[..i];
      var task := TaskFor(tasks, rec.taskId);
      Absorb(task, rec, records[..i]);
      tasks := tasks[rec.taskId := task];
    }
    assert records[..|records|] == records;
    forall root ensures root in tasks <==> Mentioned(records, root)
      ensures root in tasks ==> tasks[root].State() == Replay(root, RowsOf(records, root))
    {
      FoldedIsReplay(records, root);
    }
  }

  /** The row's task, created on first sight. */
  method TaskFor(tasks: map<Id, Task>, root: Id) returns (task: Task)
    requires root in tasks ==> tasks[root].root == root
    ensures task.root == root
    ensures if root in tasks then task == tasks[root] else fresh(task) && task.State() == NewTask(root, None, None)
  {
    if root in tasks {
      task := tasks[root];
    } else {
      task := new Task(root, None, None);
    }
  }

  /** One row: a request that begins and finishes at once. */
  method Absorb(task: Task, rec: Record, ghost done: seq<Record>)
    requires InState(task, rec.taskId, StateFor(Folded(done), rec.taskId))
    modifies task
    ensures InState(task, rec.taskId, ReplayRow(StateFor(Folded(done), rec.taskId), rec))
  {
    FoldedWellKept(done, rec.taskId);
    var at := NodeRef(rec.taskId, rec.node, rec.parent);
    task.Begin(at, None);
    task.Finish(at, rec.usage, !rec.incomplete);
  }

  lemma {:induction false} FoldedIsReplay(records: seq<Record>, root: Id)
    ensures root in Folded(records) <==> Mentioned(records, root)
    ensures StateFor(Folded(records), root) == Replay(root, RowsOf(records, root))
  {
    if records != [] {
      var init, rec := records[..|records| - 1], records[|records| - 1];
      assert records == init + [rec];
      FoldedIsReplay(init, root);
      MentionedNext(init, rec);
      var rows := RowsOf(init, root);
      if rec.taskId == root {
        assert (rows + [rec])[..|rows|] == rows;
      } else {
        assert rows + [] == rows;
      }
    }
  }

  lemma ReplayRowWellKept(s: TaskState, rec: Record)
    requires WellKept(s) && s.root == rec.taskId
    ensures WellKept(ReplayRow(s, rec)) && ReplayRow(s, rec).root == s.root
  {
    var at := NodeRef(rec.taskId, rec.node, rec.parent);
    BeginWellKept(s, at, None);
    FinishWellKept(Begin(s, at, None), at, rec.usage, !rec.incomplete);
  }

  lemma {:induction false} FoldedWellKept(records: seq<Record>, root: Id)
    ensures WellKept(StateFor(Folded(records), root)) && StateFor(Folded(records), root).root == root
  {
    if records == [] {
      NewTaskWellKept(root, None, None);
    } else {
      var init, rec := records[..|records| - 1], records[|records| - 1];
      FoldedWellKept(init, root);
      if rec.taskId == root {
        ReplayRowWellKept(StateFor(Folded(init), root), rec);
      }
    }
  }

  lemma MentionedNext(records: seq<Record>, rec: Record)
    ensures forall root :: Mentioned(records + [rec], root) <==> Mentioned(records, root) || root == rec.taskId
  {
    var all := records + [rec];
    assert all[|records|] == rec;
    forall root | Mentioned(records, root) ensures Mentioned(all, root) {
      var i :| 0 <= i < |records| && records[i].taskId == root;
      assert all[i].taskId == root;
    }
  }
}
