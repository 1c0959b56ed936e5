/** The append-only ledger and what can be rebuilt from it (crates/tailfin-ledger/src/lib.rs). */
module LedgerModel {
  import opened Foundations
  import opened Pricing
  import opened TaskModel
  import opened ProxyRun

  // ----- per-node tallies -----

  datatype Tally = Tally(usage: Usage, requests: nat, incomplete: nat)

  const NOTHING := Tally(ZERO_USAGE, 0, 0)

  function Plus(t: Tally, rec: Record): Tally {
    Tally(Merge(t.usage, rec.usage), t.requests + 1, t.incomplete + if rec.incomplete then 1 else 0)
  }

  /** What the rows say about one node. */
  function TallyOf(rows: seq<Record>, n: Id): Tally {
    if rows == [] then NOTHING
    else
      var t, rec := TallyOf(rows[..|rows| - 1], n), rows[|rows| - 1];
      if rec.node == n then Plus(t, rec) else t
  }

  /** What a task says about one node; a node it never saw has done nothing. */
  function NodeTally(s: TaskState, n: Id): Tally {
    if n in s.nodes then Tally(s.nodes[n].usage, s.nodes[n].requests, s.nodes[n].incomplete) else NOTHING
  }

  ghost predicate Agrees(s: TaskState, rows: seq<Record>) {
    forall n :: NodeTally(s, n) == TallyOf(rows, n)
  }

  lemma BeginTallies(s: TaskState, at: NodeRef)
    ensures forall n :: NodeTally(Begin(s, at, None), n) == NodeTally(s, n)
  {}

  lemma AskTallies(s: TaskState, at: NodeRef, rates: Option<RateCard>)
    ensures forall n :: NodeTally(Ask(s, at, rates).0, n) == NodeTally(s, n)
  {}

  lemma FinishTallies(s: TaskState, at: NodeRef, usage: Usage, complete: bool, rows: seq<Record>, rec: Record)
    requires Agrees(s, rows)
    requires rec.node == at.node && rec.usage == usage && rec.incomplete == !complete
    ensures Agrees(Finish(s, at, usage, complete), rows + [rec])
  {
    var t := Finish(s, at, usage, complete);
    forall n ensures NodeTally(t, n) == TallyOf(rows + [rec], n) {
      assert NodeTally(s, n) == TallyOf(rows, n);
      assert (rows + [rec])[..|rows|] == rows;
    }
  }

  /** The live task always says what its rows say. */
  lemma {:induction false} LiveAgrees(root: Id, ceiling: Option<nat>, share: Option<Share>, steps: seq<Step>,
                                      rates: Option<RateCard>)
    ensures var sys := Exec(Start(root, ceiling, share), steps, rates); Agrees(sys.task, sys.rows)
  {
    if steps != [] {
      var init := steps[..|steps| - 1];
      LiveAgrees(root, ceiling, share, init, rates);
      NextAgrees(Exec(Start(root, ceiling, share), init, rates), steps[|steps| - 1], rates);
    }
  }

  lemma NextAgrees(sys: System, step: Step, rates: Option<RateCard>)
    requires Agrees(sys.task, sys.rows)
    ensures Agrees(Next(sys, step, rates).task, Next(sys, step, rates).rows)
  {
    if Enabled(sys, step) {
      match step {
        case Arrive(rid, at) =>
          BeginTallies(sys.task, at);
          AskTallies(Begin(sys.task, at, None), at, rates);
        case Tunnel(rid, at) => BeginTallies(sys.task, at);
        case Stop(rid) =>
          assert forall n :: NodeTally(TakeStop(sys.task).0, n) == NodeTally(sys.task, n);
        case Dismiss(rid) => CloseAgrees(sys, rid, ZERO_USAGE, true);
        case Complete(rid, usage, complete) => CloseAgrees(sys, rid, usage, complete);
        case Abandon(rid) =>
      }
    }
  }

  lemma CloseAgrees(sys: System, rid: nat, usage: Usage, complete: bool)
    requires rid in sys.flights && Agrees(sys.task, sys.rows)
    ensures var after := Close(sys, rid, usage, complete); Agrees(after.task, after.rows)
  {
    var after := Close(sys, rid, usage, complete);
    FinishTallies(sys.task, sys.flights[rid].at, usage, complete, sys.rows, after.rows[|sys.rows|]);
  }

  // ----- replay -----

  /** A row as the replay sees it: one request that begins and finishes at once. */
  ghost function ReplayRow(s: TaskState, rec: Record): TaskState {
    var at := NodeRef(rec.taskId, rec.node, rec.parent);
    Finish(Begin(s, at, None), at, rec.usage, !rec.incomplete)
  }

  /** The task rebuilt from its rows, in the order given. */
  ghost function Replay(root: Id, rows: seq<Record>): TaskState {
    if rows == [] then NewTask(root, None, None)
    else ReplayRow(Replay(root, rows[..|rows| - 1]), rows[|rows| - 1])
  }

  lemma {:induction false} ReplayAgrees(root: Id, rows: seq<Record>)
    ensures Agrees(Replay(root, rows), rows)
  {
    if rows != [] {
      var init, rec := rows[..|rows| - 1], rows[|rows| - 1];
      var at := NodeRef(rec.taskId, rec.node, rec.parent);
      ReplayAgrees(root, init);
      BeginTallies(Replay(root, init), at);
      FinishTallies(Begin(Replay(root, init), at, None), at, rec.usage, !rec.incomplete, init, rec);
      assert init + [rec] == rows;
    }
  }

  lemma {:induction false} ReplayKeepsRoot(root: Id, rows: seq<Record>)
    ensures Replay(root, rows).root == root && root in Replay(root, rows).nodes
  {
    if rows != [] {
      var init, rec := rows[..|rows| - 1], rows[|rows| - 1];
      var at := NodeRef(rec.taskId, rec.node, rec.parent);
      ReplayKeepsRoot(root, init);
      BeginKeeps(Replay(root, init), at);
      FinishKeeps(Begin(Replay(root, init), at, None), at, rec.usage, !rec.incomplete);
    }
  }

  // ----- order does not matter -----

  function Without<T>(xs: seq<T>, i: nat): seq<T>
    requires i < |xs|
  {
    xs[..i] + xs[i + 1..]
  }

  lemma {:induction false} TallyWithout(rows: seq<Record>, i: nat, n: Id)
    requires i < |rows|
    ensures TallyOf(rows, n) == if rows[i].node == n then Plus(TallyOf(Without(rows, i), n), rows[i])
                                else TallyOf(Without(rows, i), n)
    decreases |rows|
  {
    var init, last := rows[..|rows| - 1], rows[|rows| - 1];
    if i == |rows| - 1 {
      assert Without(rows, i) == init;
    } else {
      TallyWithout(init, i, n);
      assert Without(rows, i)[..|rows| - 2] == Without(init, i);
      assert Without(rows, i)[|rows| - 2] == last;
      PlusSwap(TallyOf(Without(init, i), n), rows[i], last);
    }
  }

  lemma PlusSwap(t: Tally, a: Record, b: Record)
    ensures Plus(Plus(t, a), b) == Plus(Plus(t, b), a)
  {}

  lemma {:induction false} TallyPermuted(rows: seq<Record>, shuffled: seq<Record>, n: Id)
    requires multiset(rows) == multiset(shuffled)
    ensures TallyOf(rows, n) == TallyOf(shuffled, n)
    decreases |rows|
  {
    if rows == [] {
      assert |multiset(shuffled)| == |shuffled|;
      assert shuffled == [];
    } else {
      var init, last := rows[..|rows| - 1], rows[|rows| - 1];
      assert rows == init + [last];
      assert last in multiset(shuffled);
      var i :| 0 <= i < |shuffled| && shuffled[i] == last;
      MultisetWithout(shuffled, i);
      assert multiset(rows) == multiset(init) + multiset{last};
      assert multiset(init) == multiset(rows) - multiset{last} == multiset(Without(shuffled, i));
      TallyWithout(shuffled, i, n);
      TallyPermuted(init, Without(shuffled, i), n);
    }
  }

  lemma MultisetWithout<T>(xs: seq<T>, i: nat)
    requires i < |xs|
    ensures multiset(xs) == multiset(Without(xs, i)) + multiset{xs[i]}
  {
    assert xs == xs[..i] + [xs[i]] + xs[i + 1..];
  }

  // ----- live against ledger -----

  /** Total tokens over main-thread tokens, when the main thread used any. */
  ghost function FanOut(s: TaskState): Option<(nat, nat)> {
    var main := TotalTokens(UsageAt(Usages(s), s.root));
    if main > 0 then Some((TotalTokens(TotalUsage(s)), main)) else None
  }

  /** The fan-out compares all tokens, those of the main thread and those of every other node, with the main
      thread's. */
  lemma {:induction false} FanOutMeans(s: TaskState)
    requires s.root in s.nodes
    ensures var main := TotalTokens(s.nodes[s.root].usage);
            var others := TotalTokens(UsageSum(s.nodes.Keys - {s.root}, Usages(s)));
            FanOut(s) == if main > 0 then Some((main + others, main)) else None
  {
    UsageSumAdd(s.nodes.Keys - {s.root}, Usages(s), s.root);
    assert s.nodes.Keys - {s.root} + {s.root} == s.nodes.Keys;
  }

  /** Two tasks that say the same about every node agree on totals, though they may list different nodes. */
  lemma SameTalliesSameTotals(s: TaskState, t: TaskState, r: RateCard)
    requires s.root == t.root && forall n :: NodeTally(s, n) == NodeTally(t, n)
    ensures Spent(s, r) == Spent(t, r) && TotalUsage(s) == TotalUsage(t) && FanOut(s) == FanOut(t)
  {
    var all := s.nodes.Keys + t.nodes.Keys;
    forall n ensures UsageAt(Usages(s), n) == UsageAt(Usages(t), n)
      ensures Weight(Costs(s, r), n) == Weight(Costs(t, r), n)
      ensures n !in s.nodes ==> UsageAt(Usages(s), n) == ZERO_USAGE && Weight(Costs(s, r), n) == 0
      ensures n !in t.nodes ==> UsageAt(Usages(t), n) == ZERO_USAGE && Weight(Costs(t, r), n) == 0
    {
      MicrosZero(r);
      assert NodeTally(s, n) == NodeTally(t, n);
    }
    SetSumSupport(s.nodes.Keys, all, Costs(s, r));
    SetSumSupport(t.nodes.Keys, all, Costs(t, r));
    SetSumAgree(all, Costs(s, r), Costs(t, r));
    UsageSumSupport(s.nodes.Keys, all, Usages(s));
    UsageSumSupport(t.nodes.Keys, all, Usages(t));
    UsageSumAgree(all, Usages(s), Usages(t));
  }

  /** Live-versus-ledger agreement: after any run, replaying the task's rows in any order gives every node
      the usage, the requests and the incomplete requests that the live task has for it, and so the same
      total usage, the same spend and the same fan-out. */
  lemma {:induction false} LedgerRebuildsTask(root: Id, ceiling: Option<nat>, share: Option<Share>, steps: seq<Step>,
                           rates: Option<RateCard>, shuffled: seq<Record>, r: RateCard)
    requires multiset(shuffled) == multiset(Exec(Start(root, ceiling, share), steps, rates).rows)
    ensures var live := Exec(Start(root, ceiling, share), steps, rates).task;
            var rebuilt := Replay(root, shuffled);
            && (forall n :: NodeTally(live, n) == NodeTally(rebuilt, n))
            && Spent(live, r) == Spent(rebuilt, r)
            && TotalUsage(live) == TotalUsage(rebuilt)
            && FanOut(live) == FanOut(rebuilt)
  {
    var start := Start(root, ceiling, share);
    var sys := Exec(start, steps, rates);
    var rebuilt := Replay(root, shuffled);
    LiveAgrees(root, ceiling, share, steps, rates);
    ReplayAgrees(root, shuffled);
    ReplayKeepsRoot(root, shuffled);
    RunKeeps(start, steps, rates);
    forall n ensures NodeTally(sys.task, n) == NodeTally(rebuilt, n) {
      TallyPermuted(sys.rows, shuffled, n);
      assert NodeTally(sys.task, n) == TallyOf(sys.rows, n);
      assert NodeTally(rebuilt, n) == TallyOf(shuffled, n);
    }
    SameTalliesSameTotals(sys.task, rebuilt, r);
  }

  // ----- one ledger for every task -----

  function RowsOf(records: seq<Record>, root: Id): seq<Record> {
    if records == [] then []
    else
      var rec := records[|records| - 1];
      RowsOf(records[..|records| - 1], root) + if rec.taskId == root then [rec] else []
  }

  lemma {:induction false} RowsOfConcat(a: seq<Record>, b: seq<Record>, root: Id)
    ensures RowsOf(a + b, root) == RowsOf(a, root) + RowsOf(b, root)
    decreases |b|
  {
    if b == [] {
      assert a + b == a;
    } else {
      assert (a + b)[..|a + b| - 1] == a + b[..|b| - 1];
      RowsOfConcat(a, b[..|b| - 1], root);
    }
  }

  /** The proxy's arena: one system per root task, and one ledger that all of them append to. */
  datatype Arena = Arena(systems: map<Id, System>, ledger: seq<Record>)

  /** The settings every new task gets. */
  datatype Defaults = Defaults(ceiling: Option<nat>, share: Option<Share>, rates: Option<RateCard>)

  ghost function SystemOf(a: Arena, root: Id, d: Defaults): System {
    if root in a.systems then a.systems[root] else Start(root, d.ceiling, d.share)
  }

  /** A step of one task of the arena, which is created on first sight. */
  datatype ArenaStep = ArenaStep(root: Id, step: Step)

  ghost function ArenaNext(a: Arena, step: ArenaStep, d: Defaults): Arena {
    var before := SystemOf(a, step.root, d);
    var after := Next(before, step.step, d.rates);
    Arena(a.systems[step.root := after],
          a.ledger + if |after.rows| > |before.rows| then after.rows[|before.rows|..] else [])
  }

  ghost function ArenaExec(steps: seq<ArenaStep>, d: Defaults): Arena {
    if steps == [] then Arena(map[], [])
    else ArenaNext(ArenaExec(steps[..|steps| - 1], d), steps[|steps| - 1], d)
  }

  /** The steps of one task, in the order they happened. */
  function StepsOf(steps: seq<ArenaStep>, root: Id): seq<Step> {
    if steps == [] then []
    else
      var last := steps[|steps| - 1];
      StepsOf(steps[..|steps| - 1], root) + if last.root == root then [last.step] else []
  }

  lemma NextRows(sys: System, step: Step, rates: Option<RateCard>)
    requires Sound(sys)
    ensures var after := Next(sys, step, rates);
            && sys.rows <= after.rows
            && forall i :: |sys.rows| <= i < |after.rows| ==> after.rows[i].taskId == sys.task.root
  {}

  lemma {:induction false} AllRowsOf(rows: seq<Record>, root: Id, other: Id)
    requires forall i :: 0 <= i < |rows| ==> rows[i].taskId == root
    ensures RowsOf(rows, other) == if other == root then rows else []
  {
    if rows != [] {
      AllRowsOf(rows[..|rows| - 1], root, other);
      assert rows == rows[..|rows| - 1] + [rows[|rows| - 1]];
    }
  }

  lemma ArenaNextSystem(a: Arena, step: ArenaStep, d: Defaults, root: Id)
    ensures SystemOf(ArenaNext(a, step, d), root, d)
            == if root == step.root then Next(SystemOf(a, root, d), step.step, d.rates) else SystemOf(a, root, d)
  {}

  lemma RowsAppended(ledger: seq<Record>, before: seq<Record>, after: seq<Record>, owner: Id, root: Id)
    requires before <= after && forall i :: |before| <= i < |after| ==> after[i].taskId == owner
    ensures RowsOf(ledger + after[|before|..], root)
            == RowsOf(ledger, root) + if root == owner then after[|before|..] else []
    ensures before + after[|before|..] == after
  {
    AllRowsOf(after[|before|..], owner, root);
    RowsOfConcat(ledger, after[|before|..], root);
  }

  lemma ArenaNextLedger(a: Arena, step: ArenaStep, d: Defaults, root: Id)
    requires Sound(SystemOf(a, step.root, d)) && SystemOf(a, step.root, d).task.root == step.root
    requires RowsOf(a.ledger, root) == SystemOf(a, root, d).rows
    ensures RowsOf(ArenaNext(a, step, d).ledger, root) == SystemOf(ArenaNext(a, step, d), root, d).rows
  {
    ArenaNextSystem(a, step, d, root);
    var before := SystemOf(a, step.root, d);
    var rows := Next(before, step.step, d.rates).rows;
    NextRows(before, step.step, d.rates);
    RowsAppended(a.ledger, before.rows, rows, step.root, root);
    assert ArenaNext(a, step, d).ledger == a.ledger + rows[|before.rows|..];
  }

  lemma {:induction false} TaskRunsAlone(steps: seq<ArenaStep>, d: Defaults, root: Id)
    ensures SystemOf(ArenaExec(steps, d), root, d)
            == Exec(Start(root, d.ceiling, d.share), StepsOf(steps, root), d.rates)
  {
    if steps != [] {
      var init, last := steps[..|steps| - 1], steps[|steps| - 1];
      TaskRunsAlone(init, d, root);
      ArenaNextSystem(ArenaExec(init, d), last, d, root);
      if last.root == root {
        StepsOfLast(steps, root);
      } else {
        assert StepsOf(steps, root) == StepsOf(init, root);
      }
    }
  }

  lemma SystemSound(steps: seq<ArenaStep>, d: Defaults, root: Id)
    ensures var sys := SystemOf(ArenaExec(steps, d), root, d); Sound(sys) && sys.task.root == root
  {
    var start := Start(root, d.ceiling, d.share);
    TaskRunsAlone(steps, d, root);
    StartSound(root, d.ceiling, d.share);
    ExecSound(start, StepsOf(steps, root), d.rates);
    RunKeeps(start, StepsOf(steps, root), d.rates);
  }

  lemma {:induction false} LedgerShare(steps: seq<ArenaStep>, d: Defaults, root: Id)
    ensures RowsOf(ArenaExec(steps, d).ledger, root) == SystemOf(ArenaExec(steps, d), root, d).rows
  {
    if steps != [] {
      var init, last := steps[..|steps| - 1], steps[|steps| - 1];
      LedgerShare(init, d, root);
      SystemSound(init, d, last.root);
      ArenaNextLedger(ArenaExec(init, d), last, d, root);
    }
  }

  /** Tasks do not interfere: in the shared arena each task goes through exactly the run of its own steps,
      and its share of the ledger is exactly that run's rows. */
  lemma {:induction false} TasksAreIndependent(steps: seq<ArenaStep>, d: Defaults, root: Id)
    ensures var alone := Exec(Start(root, d.ceiling, d.share), StepsOf(steps, root), d.rates);
            && SystemOf(ArenaExec(steps, d), root, d) == alone
            && RowsOf(ArenaExec(steps, d).ledger, root) == alone.rows
  {
    TaskRunsAlone(steps, d, root);
    LedgerShare(steps, d, root);
  }

  lemma StepsOfLast(steps: seq<ArenaStep>, root: Id)
    requires steps != [] && steps[|steps| - 1].root == root
    ensures var mine := StepsOf(steps, root);
            mine != [] && mine[..|mine| - 1] == StepsOf(steps[..|steps| - 1], root)
            && mine[|mine| - 1] == steps[|steps| - 1].step
  {}

  /** Rebuilding from the shared ledger, however its rows are ordered, recovers every task. */
  lemma {:induction false} ArenaRebuilds(steps: seq<ArenaStep>, d: Defaults, shuffled: seq<Record>, root: Id,
                                         r: RateCard)
    requires multiset(shuffled) == multiset(ArenaExec(steps, d).ledger)
    ensures var live := SystemOf(ArenaExec(steps, d), root, d).task;
            var rebuilt := Replay(root, RowsOf(shuffled, root));
            && (forall n :: NodeTally(live, n) == NodeTally(rebuilt, n))
            && Spent(live, r) == Spent(rebuilt, r)
            && TotalUsage(live) == TotalUsage(rebuilt)
            && FanOut(live) == FanOut(rebuilt)
  {
    TasksAreIndependent(steps, d, root);
    RowsOfPermuted(shuffled, ArenaExec(steps, d).ledger, root);
    LedgerRebuildsTask(root, d.ceiling, d.share, StepsOf(steps, root), d.rates, RowsOf(shuffled, root), r);
  }

  lemma {:induction false} RowsOfPermuted(xs: seq<Record>, ys: seq<Record>, root: Id)
    requires multiset(xs) == multiset(ys)
    ensures multiset(RowsOf(xs, root)) == multiset(RowsOf(ys, root))
  {
    RowsOfCounts(xs, root);
    RowsOfCounts(ys, root);
    forall rec ensures multiset(RowsOf(xs, root))[rec] == multiset(RowsOf(ys, root))[rec] {
    }
  }

  lemma {:induction false} RowsOfCounts(xs: seq<Record>, root: Id)
    ensures forall rec :: multiset(RowsOf(xs, root))[rec] == if rec.taskId == root then multiset(xs)[rec] else 0
  {
    if xs != [] {
      RowsOfCounts(xs[..|xs| - 1], root);
      assert xs == xs[..|xs| - 1] + [xs[|xs| - 1]];
    }
  }
}
