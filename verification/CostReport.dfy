/** The cost report: nodes ordered by cost, most expensive first (crates/tailfin-tree/src/lib.rs). */
module CostReport {
  import opened Foundations
  import opened Pricing
  import opened TaskModel
  import opened WalkModel
  import opened TaskObject

  datatype NodeReport = NodeReport(id: Id, tag: Option<string>, depth: nat, isRoot: bool, usage: Usage,
                                   micros: nat, requests: nat)

  function ReportOf(nodes: map<Id, Node>, root: Id, id: Id, r: RateCard): NodeReport
    requires id in nodes
  {
    var n := nodes[id];
    NodeReport(n.id, n.tag, n.depth, n.id == root, n.usage, Micros(n.usage, r), n.requests)
  }

  // ----- the order of the report -----

  /** Strings in lexicographic order. */
  predicate StringLess(a: string, b: string) {
    b != [] && (a == [] || a[0] < b[0] || (a[0] == b[0] && StringLess(a[1..], b[1..])))
  }

  /** Dearer first; equal costs by identifier. */
  predicate RowLess(a: NodeReport, b: NodeReport) {
    a.micros > b.micros || (a.micros == b.micros && StringLess(a.id, b.id))
  }

  lemma {:induction false} StringLessTotal(a: string, b: string)
    ensures a == b || StringLess(a, b) || StringLess(b, a)
    ensures StringLess(a, b) ==> a != b && !StringLess(b, a)
  {
    if a != [] && b != [] && a[0] == b[0] {
      StringLessTotal(a[1..], b[1..]);
      assert a == [a[0]] + a[1..] && b == [b[0]] + b[1..];
    }
  }

  /** Where two strings first differ, the smaller character decides; a prefix comes before what it begins. */
  lemma {:induction false} StringLessMeans(front: string, a: string, b: string)
    requires a == [] || b == [] || a[0] != b[0]
    ensures StringLess(front + a, front + b) <==> b != [] && (a == [] || a[0] < b[0])
  {
    if front == [] {
      assert front + a == a && front + b == b;
    } else {
      assert (front + a)[1..] == front[1..] + a && (front + b)[1..] == front[1..] + b;
      StringLessMeans(front[1..], a, b);
    }
  }

  lemma {:induction false} StringLessTransitive(a: string, b: string, c: string)
    requires StringLess(a, b) && StringLess(b, c)
    ensures StringLess(a, c)
  {
    if a != [] && a[0] == b[0] == c[0] {
      StringLessTransitive(a[1..], b[1..], c[1..]);
    }
  }

  lemma RowLessTransitive(a: NodeReport, b: NodeReport, c: NodeReport)
    requires RowLess(a, b) && RowLess(b, c)
    ensures RowLess(a, c)
  {
    if a.micros == b.micros == c.micros {
      StringLessTransitive(a.id, b.id, c.id);
    }
  }

  ghost predicate Sorted(rows: seq<NodeReport>) {
    forall i, j :: 0 <= i < j < |rows| ==> RowLess(rows[i], rows[j])
  }

  /** A sorted report is determined by the rows it holds, so every sorting algorithm gives this one. */
  lemma {:induction false} SortedUnique(a: seq<NodeReport>, b: seq<NodeReport>)
    requires Sorted(a) && Sorted(b) && forall x :: x in a <==> x in b
    ensures a == b
  {
    if a == [] {
      assert forall i :: 0 <= i < |b| ==> b[i] in b;
    } else {
      assert a[0] in a && b != [];
      assert b[0] in b;
      SameHead(a, b);
      RestOf(a);
      RestOf(b);
      SortedUnique(a[1..], b[1..]);
      assert a == [a[0]] + a[1..] && b == [b[0]] + b[1..];
    }
  }

  lemma SameHead(a: seq<NodeReport>, b: seq<NodeReport>)
    requires Sorted(a) && Sorted(b) && a != [] && b != [] && forall x :: x in a <==> x in b
    ensures a[0] == b[0]
  {
    assert a[0] in b && b[0] in a;
    StringLessTotal(a[0].id, b[0].id);
    var i :| 0 <= i < |b| && b[i] == a[0];
    var j :| 0 <= j < |a| && a[j] == b[0];
  }

  lemma RestOf(a: seq<NodeReport>)
    requires Sorted(a) && a != []
    ensures forall x :: x in a[1..] <==> x in a && x != a[0]
  {
    forall x | x in a[1..] ensures x != a[0] {
      StringLessTotal(a[0].id, x.id);
    }
    assert a == [a[0]] + a[1..];
  }

  // ----- making the report -----

  /** `row` put in its place. */
  function Inserted(rows: seq<NodeReport>, row: NodeReport): seq<NodeReport> {
    if rows == [] || RowLess(row, rows[0]) then [row] + rows else [rows[0]] + Inserted(rows[1..], row)
  }

  lemma {:induction false} InsertedHolds(rows: seq<NodeReport>, row: NodeReport)
    ensures forall x :: x in Inserted(rows, row) <==> x == row || x in rows
    ensures |Inserted(rows, row)| == |rows| + 1
  {
    if rows != [] {
      assert rows == [rows[0]] + rows[1..];
      InsertedHolds(rows[1..], row);
    }
  }

  lemma {:induction false} InsertedSorted(rows: seq<NodeReport>, row: NodeReport)
    requires Sorted(rows) && forall x :: x in rows ==> x.id != row.id
    ensures Sorted(Inserted(rows, row))
  {
    if rows != [] {
      var head, rest := rows[0], rows[1..];
      assert rows == [head] + rest;
      if RowLess(row, head) {
        forall i | 0 <= i < |rest| ensures RowLess(row, rest[i]) {
          RowLessTransitive(row, head, rest[i]);
        }
      } else {
        InsertedSorted(rest, row);
        InsertedHolds(rest, row);
        assert head in rows;
        StringLessTotal(head.id, row.id);
        forall x | x in Inserted(rest, row) ensures RowLess(head, x) {
          if x != row {
            var i :| 0 <= i < |rest| && rest[i] == x;
            assert rows[i + 1] == x;
          }
        }
      }
    }
  }

  /** The rows are the reports of exactly the identifiers in `ids`. */
  ghost predicate Reports(rows: seq<NodeReport>, nodes: map<Id, Node>, root: Id, ids: seq<Id>, r: RateCard) {
    && |rows| == |ids|
    && (forall k :: k in ids ==> k in nodes && nodes[k].id == k && ReportOf(nodes, root, k, r) in rows)
    && (forall x :: x in rows ==> x.id in ids && x.id in nodes && x == ReportOf(nodes, root, x.id, r))
  }

  lemma ReportsNext(rows: seq<NodeReport>, nodes: map<Id, Node>, root: Id, ids: seq<Id>, k: Id, r: RateCard)
    requires Reports(rows, nodes, root, ids, r) && Sorted(rows) && k !in ids && k in nodes && nodes[k].id == k
    ensures Reports(Inserted(rows, ReportOf(nodes, root, k, r)), nodes, root, ids + [k], r)
    ensures Sorted(Inserted(rows, ReportOf(nodes, root, k, r)))
  {
    var row := ReportOf(nodes, root, k, r);
    InsertedHolds(rows, row);
    InsertedSorted(rows, row);
  }

  /** One row per node of the task, dearest first. */
  method ByCost(task: Task, rates: RateCard) returns (rows: seq<NodeReport>)
    requires task.Valid()
    ensures Sorted(rows)
    ensures Reports(rows, task.nodes, task.root, task.order, rates)
    ensures forall i, j :: 0 <= i < j < |rows| ==>
              || rows[i].micros > rows[j].micros
              || (rows[i].micros == rows[j].micros && StringLess(rows[i].id, rows[j].id))
    ensures forall row :: row in rows ==>
              && row.id in task.nodes
              && var n := task.nodes[row.id];
                 && row.tag == n.tag && row.depth == n.depth && row.usage == n.usage && row.requests == n.requests
                 && row.micros == Micros(n.usage, rates) && (row.isRoot <==> row.id == task.root)
  {
    rows := [];
    var i := 0;
    while i < |task.order|
      invariant i <= |task.order|
      invariant Sorted(rows) && Reports(rows, task.nodes, task.root, task.order[..i], rates)
    {
      var k := task.order[i];
      assert task.order[..i + 1] == task.order[..i] + [k];
      assert k in task.order && k !in task.order[..i];
      ReportsNext(rows, task.nodes, task.root, task.order[..i], k, rates);
      rows := Inserted(rows, ReportOf(task.nodes, task.root, k, rates));
      i := i + 1;
    }
    assert task.order[..|task.order|] == task.order;
  }

  // ----- what the rows add up to -----

  function MicrosOf(rows: seq<NodeReport>): nat {
    if rows == [] then 0 else rows[0].micros + MicrosOf(rows[1..])
  }

  ghost function UsageOf(rows: seq<NodeReport>): Usage {
    if rows == [] then ZERO_USAGE else Merge(rows[0].usage, UsageOf(rows[1..]))
  }

  ghost function RowIds(rows: seq<NodeReport>): set<Id> {
    set x | x in rows :: x.id
  }

  lemma {:induction false} RowsAddUp(rows: seq<NodeReport>, s: TaskState, r: RateCard)
    requires Sorted(rows)
    requires forall x :: x in rows ==> x.id in s.nodes && x == ReportOf(s.nodes, s.root, x.id, r)
    ensures MicrosOf(rows) == SetSum(RowIds(rows), Costs(s, r))
    ensures UsageOf(rows) == UsageSum(RowIds(rows), Usages(s))
  {
    if rows == [] {
      assert RowIds(rows) == {};
    } else {
      var x, rest := rows[0], rows[1..];
      assert rows == [x] + rest && x in rows;
      RestOf(rows);
      assert x.id !in RowIds(rest);
      assert RowIds(rows) == RowIds(rest) + {x.id};
      RowsAddUp(rest, s, r);
      SetSumAdd(RowIds(rest), Costs(s, r), x.id);
      UsageSumAdd(RowIds(rest), Usages(s), x.id);
      MergeCommutes(x.usage, UsageOf(rest));
    }
  }

  /** Conservation: the rows of a report add up to what the task has spent and used, and pricing the total
      at once costs at most one micro-dollar more for each row after the first. */
  lemma {:induction false} ReportConserves(rows: seq<NodeReport>, s: TaskState, r: RateCard)
    requires WellKept(s) && Sorted(rows) && Reports(rows, s.nodes, s.root, s.order, r)
    ensures MicrosOf(rows) == Spent(s, r)
    ensures UsageOf(rows) == TotalUsage(s)
    ensures Spent(s, r) <= Micros(TotalUsage(s), r) <= Spent(s, r) + |rows| - 1
  {
    RowsAddUp(rows, s, r);
    forall k ensures k in RowIds(rows) <==> k in s.nodes {
      if k in s.nodes {
        assert k in s.order;
        assert ReportOf(s.nodes, s.root, k, r).id in RowIds(rows);
      }
    }
    assert RowIds(rows) == s.nodes.Keys;
    assert s.root in s.order;
    PriceOfTotal(s.nodes.Keys, Usages(s), r);
    OrderSize(s);
  }

  lemma OrderSize(s: TaskState)
    requires WellKept(s)
    ensures |s.nodes.Keys| == |s.order|
  {
    DistinctSize(s.order);
    assert Elements(s.order) == s.nodes.Keys;
  }

  lemma {:induction false} DistinctSize(xs: seq<Id>)
    requires NoDuplicates(xs)
    ensures |Elements(xs)| == |xs|
  {
    if xs == [] {
      assert Elements(xs) == {};
    } else {
      var init, x := xs[..|xs| - 1], xs[|xs| - 1];
      assert xs == init + [x];
      DistinctSize(init);
      assert x !in init;
      assert Elements(xs) == Elements(init) + {x};
    }
  }
}
