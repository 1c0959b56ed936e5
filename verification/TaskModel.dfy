/** The task arena as values: what each operation of a task does to its state
    (crates/tailfin-tree/src/lib.rs). The class in TaskObject is proved against these functions. */
module TaskModel {
  import opened Foundations
  import opened Pricing

  datatype Node = Node(id: Id, parent: Option<Id>, tag: Option<string>, usage: Usage, requests: nat,
                       incomplete: nat, depth: nat, allowance: Option<nat>, sealed: bool)

  /** The fraction of a parent's remaining voucher that a new child is minted. */
  datatype Fraction = Fraction(num: nat, den: nat)

  type Share = f: Fraction | f.num <= f.den && 0 < f.den witness Fraction(0, 1)

  datatype TaskState = TaskState(root: Id, nodes: map<Id, Node>, order: seq<Id>, ceiling: Option<nat>,
                                 sealed: bool, peak: nat, live: nat, share: Option<Share>, syntheticSent: bool)

  /** A resolved position in the task tree (crates/tailfin-ident/src/lib.rs). */
  datatype NodeRef = NodeRef(root: Id, node: Id, parent: Option<Id>)

  datatype Admission = Allow | Last | Deny(spent: nat, ceiling: nat)

  datatype StopStyle = SyntheticEndTurn | RetryableFalse429

  const MAX_DEPTH: nat := 255

  function FreshNode(id: Id, parent: Option<Id>, tag: Option<string>, depth: nat, allowance: Option<nat>): Node {
    Node(id, parent, tag, ZERO_USAGE, 0, 0, depth, allowance, false)
  }

  function NewTask(root: Id, ceiling: Option<nat>, share: Option<Share>): TaskState {
    TaskState(root, map[root := FreshNode(root, None, None, 0, ceiling)], [root], ceiling, false, 0, 0, share, false)
  }

  // ----- reading a task -----

  /** Direct children in first-seen order. */
  function Kids(nodes: map<Id, Node>, order: seq<Id>, id: Id): seq<Id> {
    if order == [] then []
    else
      var k := order[|order| - 1];
      Kids(nodes, order[..|order| - 1], id)
      + if k in nodes && nodes[k].parent == Some(id) then [nodes[k].id] else []
  }

  function ChildrenOf(s: TaskState, id: Id): seq<Id> {
    Kids(s.nodes, s.order, id)
  }

  ghost function ChildSet(s: TaskState, id: Id): set<Id> {
    set x | x in s.nodes && s.nodes[x].parent == Some(id)
  }

  function AllowanceOf(s: TaskState, id: Id): nat {
    if id in s.nodes && s.nodes[id].allowance.Some? then s.nodes[id].allowance.value
    else if s.ceiling.Some? then s.ceiling.value
    else 0
  }

  /** The vouchers minted so far. */
  ghost function Vouchers(s: TaskState): map<Id, nat> {
    map x | x in s.nodes && s.nodes[x].allowance.Some? :: s.nodes[x].allowance.value
  }

  ghost function Usages(s: TaskState): map<Id, Usage> {
    map x | x in s.nodes :: s.nodes[x].usage
  }

  ghost function Costs(s: TaskState, r: RateCard): map<Id, nat> {
    PriceMap(Usages(s), r)
  }

  ghost function TotalUsage(s: TaskState): Usage {
    UsageSum(s.nodes.Keys, Usages(s))
  }

  ghost function Spent(s: TaskState, r: RateCard): nat {
    SetSum(s.nodes.Keys, Costs(s, r))
  }

  // ----- ancestry on an arbitrary parent map -----

  /** The identifier `k` parent links above `x`, if the chain is that long. Chains may be cyclic and
      may leave the task: nothing is assumed about the parent map. */
  ghost function Up(s: TaskState, x: Id, k: nat): Option<Id>
    decreases k
  {
    if k == 0 then Some(x)
    else if x in s.nodes && s.nodes[x].parent.Some? then Up(s, s.nodes[x].parent.value, k - 1)
    else None
  }

  /** `x` is `top` or below it. */
  ghost predicate Under(s: TaskState, top: Id, x: Id) {
    exists k: nat :: Up(s, x, k) == Some(top)
  }

  ghost function Family(s: TaskState, top: Id): set<Id> {
    set x | x in s.nodes && Under(s, top, x)
  }

  /** What the subtree below an identifier has cost: the sum over every node whose chain of parents
      passes through it. */
  ghost function SubtreeSpent(s: TaskState, top: Id, r: RateCard): nat {
    SetSum(Family(s, top), Costs(s, r))
  }

  // ----- changing a task -----

  function DepthUnder(nodes: map<Id, Node>, parent: Option<Id>): nat {
    if parent.Some? && parent.value in nodes then Min(nodes[parent.value].depth + 1, MAX_DEPTH) else 1
  }

  function EnsureNode(s: TaskState, node: Id, parent: Option<Id>, tag: Option<string>): TaskState {
    if node in s.nodes then
      if tag.Some? && s.nodes[node].tag.None?
      then s.(nodes := s.nodes[node := s.nodes[node].(tag := tag)])
      else s
    else
      s.(nodes := s.nodes[node := FreshNode(node, parent, tag, DepthUnder(s.nodes, parent), None)],
         order := s.order + [node])
  }

  function Allot(remaining: nat, share: Share): (allot: nat)
    ensures allot <= remaining
  {
    ShareIsContracting(remaining, share.num, share.den);
    remaining * share.num / share.den
  }

  lemma ShareIsContracting(remaining: nat, num: nat, den: nat)
    requires num <= den && 0 < den
    ensures 0 <= remaining * num / den <= remaining
  {
    var q := remaining * num / den;
    assert q * den <= remaining * num <= remaining * den;
    CancelFactor(q, remaining, den);
  }

  lemma CancelFactor(a: nat, b: nat, c: nat)
    requires 0 < c && a * c <= b * c
    ensures a <= b
  {}

  ghost function MintVoucher(s: TaskState, at: NodeRef): TaskState {
    if s.share.None? || at.node == at.root || at.node !in s.nodes || s.nodes[at.node].allowance.Some? then s
    else
      var parent := if at.parent.Some? then at.parent.value else s.root;
      var minted := SetSum(ChildSet(s, parent) - {at.node}, Vouchers(s));
      var remaining := Max(0, AllowanceOf(s, parent) - minted);
      s.(nodes := s.nodes[at.node := s.nodes[at.node].(allowance := Some(Allot(remaining, s.share.value)))])
  }

  ghost function Begin(s: TaskState, at: NodeRef, tag: Option<string>): TaskState {
    var t := MintVoucher(EnsureNode(s, at.node, at.parent, tag), at);
    t.(live := t.live + 1, peak := Max(t.peak, t.live + 1))
  }

  function Charged(n: Node, usage: Usage, complete: bool): Node {
    n.(usage := Merge(n.usage, usage), requests := n.requests + 1,
       incomplete := n.incomplete + if complete then 0 else 1)
  }

  function Finish(s: TaskState, at: NodeRef, usage: Usage, complete: bool): TaskState {
    var t := EnsureNode(s, at.node, at.parent, None);
    t.(nodes := t.nodes[at.node := Charged(t.nodes[at.node], usage, complete)], live := Max(0, t.live - 1))
  }

  ghost function Admit(s: TaskState, r: RateCard): (TaskState, Admission) {
    if s.ceiling.None? then (s, Allow)
    else if s.sealed then (s, Deny(Spent(s, r), s.ceiling.value))
    else if Spent(s, r) >= s.ceiling.value then (s.(sealed := true), Last)
    else (s, Allow)
  }

  ghost function AdmitAt(s: TaskState, at: NodeRef, r: RateCard): (TaskState, Admission) {
    var (t, answer) := Admit(s, r);
    if answer != Allow then (t, answer)
    else
      var cap := AllowanceOf(t, at.node);
      if cap == 0 && t.ceiling.None? then (t, Allow)
      else
        var spent := SubtreeSpent(t, at.node, r);
        if at.node in t.nodes && t.nodes[at.node].sealed then (t, Deny(spent, cap))
        else if spent >= cap && at.node in t.nodes && t.nodes[at.node].allowance.Some? then
          (t.(nodes := t.nodes[at.node := t.nodes[at.node].(sealed := true)]), Last)
        else (t, Allow)
  }

  function TakeStop(s: TaskState): (TaskState, StopStyle) {
    if s.syntheticSent then (s, RetryableFalse429) else (s.(syntheticSent := true), SyntheticEndTurn)
  }

  // ----- what every operation keeps -----

  ghost predicate NoDuplicates<T>(xs: seq<T>) {
    forall i, j :: 0 <= i < j < |xs| ==> xs[i] != xs[j]
  }

  lemma AppendKeepsDistinct<T>(xs: seq<T>, x: T)
    requires NoDuplicates(xs) && x !in xs
    ensures NoDuplicates(xs + [x])
  {}

  /** The bookkeeping invariant of every task, however its requests arrive. */
  ghost predicate WellKept(s: TaskState) {
    && |s.order| > 0 && s.order[0] == s.root
    && NoDuplicates(s.order)
    && (forall x :: x in s.order <==> x in s.nodes)
    && (forall x :: x in s.nodes ==> s.nodes[x].id == x)
    && s.nodes[s.root].parent == None
    && s.nodes[s.root].allowance == s.ceiling
  }

  lemma NewTaskWellKept(root: Id, ceiling: Option<nat>, share: Option<Share>)
    ensures WellKept(NewTask(root, ceiling, share))
  {}

  lemma EnsureWellKept(s: TaskState, node: Id, parent: Option<Id>, tag: Option<string>)
    requires WellKept(s)
    ensures WellKept(EnsureNode(s, node, parent, tag))
  {
    if node !in s.nodes {
      var t := EnsureNode(s, node, parent, tag);
      AppendKeepsDistinct(s.order, node);
      assert t.order == s.order + [node] && t.nodes.Keys == s.nodes.Keys + {node};
      assert s.root in s.order;
    }
  }

  /** Minting leaves the root's allowance alone. A position under another task's root could be minted a voucher at
      this task's root, but only if the task has a share and no ceiling. */
  predicate SparesRoot(s: TaskState, at: NodeRef) {
    at.root == s.root || at.node != s.root || s.ceiling.Some? || s.share.None?
  }

  lemma BeginWellKept(s: TaskState, at: NodeRef, tag: Option<string>)
    requires WellKept(s) && SparesRoot(s, at)
    ensures WellKept(Begin(s, at, tag))
  {
    EnsureWellKept(s, at.node, at.parent, tag);
  }

  lemma FinishWellKept(s: TaskState, at: NodeRef, usage: Usage, complete: bool)
    requires WellKept(s)
    ensures WellKept(Finish(s, at, usage, complete))
  {
    EnsureWellKept(s, at.node, at.parent, None);
  }

  lemma AdmitAtWellKept(s: TaskState, at: NodeRef, r: RateCard)
    requires WellKept(s)
    ensures WellKept(AdmitAt(s, at, r).0)
  {}
}
