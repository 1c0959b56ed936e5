/** Peak concurrency: what the live counter means, and how the ledger remembers it. */
module PeakRecovery {
  import opened Foundations
  import opened Pricing
  import opened TaskModel
  import opened ProxyRun
  import opened LedgerModel

  ghost predicate Begins(sys: System, step: Step) {
    Enabled(sys, step) && (step.Arrive? || step.Tunnel?)
  }

  ghost predicate Finishes(sys: System, step: Step) {
    Enabled(sys, step) && (step.Complete? || step.Dismiss?)
  }

  /** Requests begun minus requests finished; an abandoned request was begun and never finished. */
  ghost function Open(sys: System, steps: seq<Step>, rates: Option<RateCard>): int {
    if steps == [] then 0
    else
      var init, step := steps[..|steps| - 1], steps[|steps| - 1];
      var before := Exec(sys, init, rates);
      Open(sys, init, rates) + (if Begins(before, step) then 1 else 0) - if Finishes(before, step) then 1 else 0
  }

  /** The largest number of open requests after any prefix of the run. */
  ghost function MostOpen(sys: System, steps: seq<Step>, rates: Option<RateCard>): int {
    if steps == [] then 0
    else Max(MostOpen(sys, steps[..|steps| - 1], rates), Open(sys, steps, rates))
  }

  /** The recorded high-water mark of a task. */
  function PeakForTask(records: seq<Record>, root: Id): nat {
    RowPeak(RowsOf(records, root))
  }

  function RowPeak(rows: seq<Record>): nat {
    if rows == [] then 0 else Max(RowPeak(rows[..|rows| - 1]), rows[|rows| - 1].peak)
  }

  lemma {:induction false} RowPeakIsMost(rows: seq<Record>)
    ensures forall rec :: rec in rows ==> rec.peak <= RowPeak(rows)
    ensures RowPeak(rows) == 0 || exists rec :: rec in rows && rec.peak == RowPeak(rows)
  {
    if rows != [] {
      var init, last := rows[..|rows| - 1], rows[|rows| - 1];
      assert rows == init + [last];
      RowPeakIsMost(init);
      assert last in rows;
    }
  }

  lemma {:induction false} RowsOfHolds(records: seq<Record>, root: Id)
    ensures forall rec :: rec in RowsOf(records, root) <==> rec in records && rec.taskId == root
  {
    if records != [] {
      var init, last := records[..|records| - 1], records[|records| - 1];
      assert records == init + [last];
      RowsOfHolds(init, root);
    }
  }

  /** The recorded high-water mark is the largest peak among a task's rows, in whatever order they are, or zero. */
  lemma {:induction false} PeakIsMost(records: seq<Record>, root: Id)
    ensures forall rec :: rec in records && rec.taskId == root ==> rec.peak <= PeakForTask(records, root)
    ensures PeakForTask(records, root) == 0
            || exists rec :: rec in records && rec.taskId == root && rec.peak == PeakForTask(records, root)
  {
    RowsOfHolds(records, root);
    RowPeakIsMost(RowsOf(records, root));
  }

  /** How a step moves the counters. */
  lemma NextCounters(sys: System, step: Step, rates: Option<RateCard>)
    ensures var after := Next(sys, step, rates);
            && (Begins(sys, step) ==>
                  && after.task.live == sys.task.live + 1 && after.task.peak == Max(sys.task.peak, sys.task.live + 1)
                  && after.rows == sys.rows)
            && (Finishes(sys, step) ==>
                  && after.task.live == Max(0, sys.task.live - 1) && after.task.peak == sys.task.peak
                  && |after.rows| > 0 && after.rows[..|after.rows| - 1] == sys.rows
                  && after.rows[|after.rows| - 1].peak == after.task.peak)
            && (!Begins(sys, step) && !Finishes(sys, step) ==>
                  after.task.live == sys.task.live && after.task.peak == sys.task.peak && after.rows == sys.rows)
  {
    if Begins(sys, step) {
      BeginCounters(sys.task, step.at, rates);
    }
  }

  lemma BeginCounters(s: TaskState, at: NodeRef, rates: Option<RateCard>)
    ensures var b := Begin(s, at, None);
            var t := Ask(b, at, rates).0;
            && b.live == s.live + 1 == t.live && b.peak == Max(s.peak, s.live + 1) == t.peak
  {}

  lemma NextFlightKeys(sys: System, step: Step, rates: Option<RateCard>)
    requires Enabled(sys, step)
    ensures Next(sys, step, rates).flights.Keys
            == if step.Arrive? || step.Tunnel? then sys.flights.Keys + {step.rid}
               else if step.Stop? then sys.flights.Keys
               else sys.flights.Keys - {step.rid}
  {}

  lemma NextFlightCount(sys: System, step: Step, rates: Option<RateCard>)
    ensures var flights := Next(sys, step, rates).flights;
            && (Begins(sys, step) ==> |flights.Keys| == |sys.flights.Keys| + 1)
            && (Finishes(sys, step) ==> |sys.flights.Keys| > 0 && |flights.Keys| == |sys.flights.Keys| - 1)
            && (!Begins(sys, step) && !Finishes(sys, step) ==> |flights.Keys| <= |sys.flights.Keys|)
  {
    if Enabled(sys, step) {
      NextFlightKeys(sys, step, rates);
    }
  }

  /** No request is finished that was not begun, so the live counter never saturates at zero; and a peak
      that no row has recorded yet is still open. */
  ghost predicate Recoverable(sys: System) {
    && |sys.flights.Keys| <= sys.task.live <= sys.task.peak
    && RowPeak(sys.rows) <= sys.task.peak
    && (RowPeak(sys.rows) == sys.task.peak || sys.task.live == sys.task.peak)
  }

  lemma {:induction false} RunRecoverable(root: Id, ceiling: Option<nat>, share: Option<Share>, steps: seq<Step>,
                                          rates: Option<RateCard>)
    ensures var start := Start(root, ceiling, share);
            var sys := Exec(start, steps, rates);
            && Recoverable(sys)
            && sys.task.live == Open(start, steps, rates)
            && sys.task.peak == MostOpen(start, steps, rates)
  {
    if steps != [] {
      var start, init, step := Start(root, ceiling, share), steps[..|steps| - 1], steps[|steps| - 1];
      RunRecoverable(root, ceiling, share, init, rates);
      NextCounters(Exec(start, init, rates), step, rates);
      NextFlightCount(Exec(start, init, rates), step, rates);
    }
  }

  /** Peak recovery. Over every run the live peak is the most requests that were ever open at once. The
      ledger's maximum never exceeds it, and equals it whenever fewer requests are open than at the peak,
      in particular once every request has finished, although no row is designated to hold it. */
  lemma {:induction false} PeakRecovered(steps: seq<ArenaStep>, d: Defaults, root: Id)
    ensures var arena := ArenaExec(steps, d);
            var task := SystemOf(arena, root, d).task;
            && task.peak == MostOpen(Start(root, d.ceiling, d.share), StepsOf(steps, root), d.rates)
            && PeakForTask(arena.ledger, root) <= task.peak
            && (task.live < task.peak || task.live == 0 ==> PeakForTask(arena.ledger, root) == task.peak)
  {
    TasksAreIndependent(steps, d, root);
    RunRecoverable(root, d.ceiling, d.share, StepsOf(steps, root), d.rates);
  }
}
