/** What the rows of a ledger record, and the shape of the tree that can be rebuilt from them
    (crates/tailfin-ledger/src/lib.rs, crates/tailfin-proxy/src/proxy.rs). */
module LedgerTree {
  import opened Foundations
  import opened Pricing
  import opened TaskModel
  import opened ProxyRun
  import opened LedgerModel
  import opened PeakRecovery

  // ----- one row per finished request -----

  /** Exactly the steps that finish a request write a row, and it says which request it was, what it used, whether its
      end was seen, and how many were ever open; a stopped request used nothing and is complete. */
  lemma {:induction false} RowPerFinish(sys: System, step: Step, rates: Option<RateCard>)
    requires Sound(sys)
    ensures var after := Next(sys, step, rates);
            if Finishes(sys, step) then
              var at := sys.flights[step.rid].at;
              && |after.rows| == |sys.rows| + 1 && after.rows[..|sys.rows|] == sys.rows
              && var row := after.rows[|sys.rows|];
                 && row.taskId == sys.task.root && row.node == at.node && row.parent == at.parent
                 && row.peak == after.task.peak
                 && (step.Dismiss? ==> row.usage == ZERO_USAGE && !row.incomplete)
                 && (step.Complete? ==> row.usage == step.usage && (row.incomplete <==> !step.complete))
            else after.rows == sys.rows
  {}

  ghost function RowsAt(rows: seq<Record>, n: Id): set<nat> {
    set i: nat | i < |rows| && rows[i].node == n
  }

  ghost function IncompleteAt(rows: seq<Record>, n: Id): set<nat> {
    set i: nat | i < |rows| && rows[i].node == n && rows[i].incomplete
  }

  lemma RowsNext(rows: seq<Record>, rec: Record, n: Id)
    ensures |RowsAt(rows + [rec], n)| == |RowsAt(rows, n)| + if rec.node == n then 1 else 0
  {
    var extra := if rec.node == n then {|rows|} else {};
    assert RowsAt(rows + [rec], n) == RowsAt(rows, n) + extra;
    assert RowsAt(rows, n) !! extra;
  }

  lemma IncompleteNext(rows: seq<Record>, rec: Record, n: Id)
    ensures |IncompleteAt(rows + [rec], n)|
            == |IncompleteAt(rows, n)| + if rec.node == n && rec.incomplete then 1 else 0
  {
    var extra := if rec.node == n && rec.incomplete then {|rows|} else {};
    assert IncompleteAt(rows + [rec], n) == IncompleteAt(rows, n) + extra;
    assert IncompleteAt(rows, n) !! extra;
  }

  /** A node's counters are numbers of rows: of all its rows, and of its incomplete ones. */
  lemma {:induction false} TallyCountsRows(rows: seq<Record>, n: Id)
    ensures TallyOf(rows, n).requests == |RowsAt(rows, n)| && TallyOf(rows, n).incomplete == |IncompleteAt(rows, n)|
  {
    if rows == [] {
      assert RowsAt(rows, n) == {} == IncompleteAt(rows, n);
    } else {
      var init, rec := rows[..|rows| - 1], rows[|rows| - 1];
      assert rows == init + [rec];
      TallyCountsRows(init, n);
      RowsNext(init, rec, n);
      IncompleteNext(init, rec, n);
    }
  }

  // ----- the tree -----

  /** A request at a known node names the parent that the node has; at the root it may name anything. */
  ghost predicate StepConsistent(sys: System, step: Step) {
    && (step.Arrive? || step.Tunnel?) && Enabled(sys, step)
    && step.at.node in sys.task.nodes && step.at.node != sys.task.root
    ==> sys.task.nodes[step.at.node].parent == step.at.parent
  }

  ghost predicate ConsistentRun(sys: System, steps: seq<Step>, rates: Option<RateCard>) {
    steps != [] ==>
      && ConsistentRun(sys, steps[..|steps| - 1], rates)
      && StepConsistent(Exec(sys, steps[..|steps| - 1], rates), steps[|steps| - 1])
  }

  /** Away from the root, `parent` is the parent of `node` in the task. */
  ghost predicate NamesItsParent(s: TaskState, node: Id, parent: Option<Id>) {
    node in s.nodes && (node != s.root ==> s.nodes[node].parent == parent)
  }

  /** Every request in flight and every row names the parent that its node has. */
  ghost predicate ParentsNamed(sys: System) {
    && (forall rid :: rid in sys.flights ==>
          NamesItsParent(sys.task, sys.flights[rid].at.node, sys.flights[rid].at.parent))
    && forall i :: 0 <= i < |sys.rows| ==> NamesItsParent(sys.task, sys.rows[i].node, sys.rows[i].parent)
  }

  lemma NamedStays(s: TaskState, t: TaskState, node: Id, parent: Option<Id>)
    requires Keeps(s, t) && NamesItsParent(s, node, parent)
    ensures NamesItsParent(t, node, parent)
  {
    assert NodeKeeps(s.nodes[node], t.nodes[node]);
  }

  lemma EnteredNames(sys: System, step: Step, rates: Option<RateCard>)
    requires Sound(sys) && (step.Arrive? || step.Tunnel?) && Enabled(sys, step) && StepConsistent(sys, step)
    ensures NamesItsParent(Next(sys, step, rates).task, step.at.node, step.at.parent)
  {
    var s, at := sys.task, step.at;
    var b := Begin(s, at, None);
    BeginAdds(s, at, at.node);
    AskKeeps(b, at, rates);
    NamedStays(b, Ask(b, at, rates).0, at.node, at.parent);
  }

  lemma NextNamed(sys: System, step: Step, rates: Option<RateCard>)
    requires Sound(sys) && ParentsNamed(sys) && StepConsistent(sys, step)
    ensures ParentsNamed(Next(sys, step, rates))
  {
    var after := Next(sys, step, rates);
    NextKeeps(sys, step, rates);
    RowPerFinish(sys, step, rates);
    forall rid | rid in after.flights
      ensures NamesItsParent(after.task, after.flights[rid].at.node, after.flights[rid].at.parent)
    {
      FlightOrigin(sys, step, rates, rid);
      if rid in sys.flights && sys.flights[rid].at == after.flights[rid].at {
        NamedStays(sys.task, after.task, sys.flights[rid].at.node, sys.flights[rid].at.parent);
      } else {
        EnteredNames(sys, step, rates);
      }
    }
    forall i | 0 <= i < |after.rows| ensures NamesItsParent(after.task, after.rows[i].node, after.rows[i].parent) {
      if i < |sys.rows| {
        assert after.rows[..|sys.rows|][i] == after.rows[i];
        NamedStays(sys.task, after.task, sys.rows[i].node, sys.rows[i].parent);
      } else {
        var at := sys.flights[step.rid].at;
        NamedStays(sys.task, after.task, at.node, at.parent);
      }
    }
  }

  lemma {:induction false} ExecNamed(sys: System, steps: seq<Step>, rates: Option<RateCard>)
    requires Sound(sys) && ParentsNamed(sys) && ConsistentRun(sys, steps, rates)
    ensures ParentsNamed(Exec(sys, steps, rates))
  {
    if steps != [] {
      var init := steps[..|steps| - 1];
      ExecNamed(sys, init, rates);
      ExecSound(sys, init, rates);
      NextNamed(Exec(sys, init, rates), steps[|steps| - 1], rates);
    }
  }

  ghost predicate HasRow(rows: seq<Record>, x: Id) {
    exists i :: 0 <= i < |rows| && rows[i].node == x
  }

  lemma HasRowNext(rows: seq<Record>, rec: Record, x: Id)
    ensures HasRow(rows + [rec], x) <==> HasRow(rows, x) || rec.node == x
  {
    assert (rows + [rec])[|rows|] == rec;
    if HasRow(rows, x) {
      var i :| 0 <= i < |rows| && rows[i].node == x;
      assert (rows + [rec])[i].node == x;
    }
  }

  /** Replaying rows that all name the parents of one task builds nodes with those parents, and only for their nodes. */
  lemma {:induction false} ReplayParents(live: TaskState, rows: seq<Record>, x: Id)
    requires forall i :: 0 <= i < |rows| ==> NamesItsParent(live, rows[i].node, rows[i].parent)
    ensures var t := Replay(live.root, rows);
            && (x in t.nodes <==> x == live.root || HasRow(rows, x))
            && (x in t.nodes && x != live.root ==> x in live.nodes && t.nodes[x].parent == live.nodes[x].parent)
            && live.root in t.nodes && t.nodes[live.root].parent == None && t.root == live.root
  {
    if rows != [] {
      var init, rec := rows[..|rows| - 1], rows[|rows| - 1];
      assert rows == init + [rec];
      ReplayParents(live, init, x);
      ReplayParents(live, init, rec.node);
      RowAdds(Replay(live.root, init), rec, x);
      RowAdds(Replay(live.root, init), rec, live.root);
      HasRowNext(init, rec, x);
    }
  }

  lemma RowAdds(s: TaskState, rec: Record, x: Id)
    ensures var t := ReplayRow(s, rec);
            && t.root == s.root && (x in t.nodes <==> x in s.nodes || x == rec.node)
            && (x in t.nodes ==> t.nodes[x].parent == if x in s.nodes then s.nodes[x].parent else rec.parent)
  {
    var at := NodeRef(rec.taskId, rec.node, rec.parent);
    var b := Begin(s, at, None);
    BeginAdds(s, at, x);
    assert at.node in b.nodes by {
      BeginAdds(s, at, at.node);
    }
    assert ReplayRow(s, rec).nodes.Keys == b.nodes.Keys;
  }

  lemma BeginAdds(s: TaskState, at: NodeRef, x: Id)
    ensures var t := Begin(s, at, None);
            && t.root == s.root && (x in t.nodes <==> x in s.nodes || x == at.node)
            && (x in t.nodes ==> t.nodes[x].parent == if x in s.nodes then s.nodes[x].parent else at.parent)
  {}

  /** The tree survives a restart. After any run in which the requests of a node always name the same parent,
      replaying the rows in any order rebuilds exactly the nodes that have finished a request, and the root, each
      below the parent it has in the live task. */
  lemma {:induction false} LedgerRebuildsTree(root: Id, ceiling: Option<nat>, share: Option<Share>, steps: seq<Step>,
                                              rates: Option<RateCard>, shuffled: seq<Record>, x: Id)
    requires ConsistentRun(Start(root, ceiling, share), steps, rates)
    requires multiset(shuffled) == multiset(Exec(Start(root, ceiling, share), steps, rates).rows)
    ensures var sys := Exec(Start(root, ceiling, share), steps, rates);
            var rebuilt := Replay(root, shuffled);
            && (x in rebuilt.nodes <==> x == root || HasRow(sys.rows, x))
            && (x in rebuilt.nodes ==> x in sys.task.nodes && rebuilt.nodes[x].parent == sys.task.nodes[x].parent)
  {
    var start := Start(root, ceiling, share);
    var sys := Exec(start, steps, rates);
    StartSound(root, ceiling, share);
    ExecNamed(start, steps, rates);
    ExecSound(start, steps, rates);
    RunKeeps(start, steps, rates);
    forall i | 0 <= i < |shuffled| ensures NamesItsParent(sys.task, shuffled[i].node, shuffled[i].parent) {
      assert shuffled[i] in multiset(shuffled);
      assert shuffled[i] in sys.rows;
    }
    ReplayParents(sys.task, shuffled, x);
    SameNodes(sys.rows, shuffled, x);
    assert sys.task.root in sys.task.order;
  }

  lemma SameNodes(rows: seq<Record>, shuffled: seq<Record>, x: Id)
    requires multiset(rows) == multiset(shuffled)
    ensures HasRow(rows, x) <==> HasRow(shuffled, x)
  {
    if HasRow(rows, x) {
      var i :| 0 <= i < |rows| && rows[i].node == x;
      assert rows[i] in multiset(shuffled);
    }
    if HasRow(shuffled, x) {
      var i :| 0 <= i < |shuffled| && shuffled[i].node == x;
      assert shuffled[i] in multiset(rows);
    }
  }

  // ----- labels -----

  /** A request's place and the label it brings. */
  datatype Call = Call(at: NodeRef, tag: Option<string>)

  ghost function AfterCalls(s: TaskState, calls: seq<Call>): TaskState {
    if calls == [] then s
    else
      var last := calls[|calls| - 1];
      Begin(AfterCalls(s, calls[..|calls| - 1]), last.at, last.tag)
  }

  lemma BeginLabels(s: TaskState, call: Call, x: Id)
    ensures var t := Begin(s, call.at, call.tag);
            && (x in t.nodes <==> x in s.nodes || x == call.at.node)
            && (x in t.nodes ==>
                  t.nodes[x].tag
                  == if x in s.nodes && (s.nodes[x].tag.Some? || x != call.at.node) then s.nodes[x].tag else call.tag)
  {}

  lemma {:induction false} NoLabelYet(s: TaskState, calls: seq<Call>, x: Id)
    requires x in s.nodes ==> s.nodes[x].tag.None?
    requires forall j :: 0 <= j < |calls| && calls[j].at.node == x ==> calls[j].tag.None?
    ensures var t := AfterCalls(s, calls); x in t.nodes ==> t.nodes[x].tag.None?
  {
    if calls != [] {
      NoLabelYet(s, calls[..|calls| - 1], x);
      BeginLabels(AfterCalls(s, calls[..|calls| - 1]), calls[|calls| - 1], x);
    }
  }

  /** The first label a node is given is the one it keeps. */
  lemma {:induction false} FirstLabelWins(s: TaskState, calls: seq<Call>, x: Id, i: nat)
    requires x in s.nodes ==> s.nodes[x].tag.None?
    requires i < |calls| && calls[i].at.node == x && calls[i].tag.Some?
    requires forall j :: 0 <= j < i && calls[j].at.node == x ==> calls[j].tag.None?
    ensures var t := AfterCalls(s, calls); x in t.nodes && t.nodes[x].tag == calls[i].tag
  {
    var init, last := calls[..|calls| - 1], calls[|calls| - 1];
    BeginLabels(AfterCalls(s, init), last, x);
    if i == |init| {
      NoLabelYet(s, init, x);
    } else {
      FirstLabelWins(s, init, x, i);
    }
  }
}
