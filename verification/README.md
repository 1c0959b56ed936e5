# Tailfin: a Dafny model of the budget-enforcing proxy

Tailfin is a local proxy that attributes LLM requests to *tasks* (a root agent and everything it spawns), meters
what each task spends, and stops a task that crosses its ceiling. This project models the parts of it that decide
and count, and proves what they guarantee over every run:

- **The task arena** (`TaskModel`, `Ancestry`, `WalkModel`, `DepthFirst`, `TaskObject`, `CostReport`): nodes, vouchers, seals,
  the tree walk, the cost report. `TaskObject.Task` is the mutable object; each of its methods is proved against the
  function of the same name in `TaskModel`, and the theorems are about those functions.
- **The proxy's locked sections** (`ProxyRun`): every critical section is one atomic step, and steps of different
  requests interleave freely. A step that is not enabled changes nothing, so *every* sequence of steps is a run and
  the theorems need no notion of a valid schedule. On top of it: `Overshoot`, `OvershootTight`,
  `OvershootExact`, `OvershootTunnels`, `Seals`, `Denials`, `Admissions`, `VoucherConservation`, `VoucherExact`, `PeakRecovery`, `RunTheorems`.
- **The ledger** (`LedgerModel`, `LedgerTree`, `LedgerObject`): rows appended by all tasks, folded back into tasks.
- **Session inference** (`Fnv`, `Digest`, `Separation`, `Sessions`, `SessionDepths`, `SharedSessions`): prefix digests,
  what their separators tell apart, the deepest-match search with digest replacement, its refinement to a dictionary,
  how deep a claimed match is, and which conversations share a session.
- **Incremental decoders** (`FrameStream`, `WebSocket`, `WireFormat`, `Sse`, `SseRoundTrip`, `SseLines`) and **metering** (`Meter`, `Tee`).

`Foundations` and `Pricing` hold sums over unordered sets and integer pricing. Check everything with
`dafny verify dfyconfig.toml`.

## Results worth knowing

- The overshoot of a ceiling is bounded by `width + 1` requests, not `width`: the request that is let through as the
  last one is admitted *after* the ceiling has been crossed. The code and documentation comments speak of "one in-flight
  request per branch" (crates/tailfin-tree/src/lib.rs:25-28, docs/architecture.md:175, README.md:345-347). That holds
  until the task is sealed (`UnsealedBound`), and of every run when the ceiling is zero, or no request costs a
  micro-dollar, or none is upstream (`OnePerBranchHolds`). Otherwise it fails (`OnePerBranchIff`), at every width and under
  every rate card that prices anything, as soon as the largest request costs as much as `width + 2` of the smallest usages
  that cost anything at all, say single cached tokens (`OnePerBranchExceeded`). When these `width + 2` cost no more than a
  micro-dollar together, the larger bound is reached exactly (`OvershootAttained`). At ceiling zero it is not sharp: there the
  spend never exceeds the price of one request, and reaches it (`ZeroCeilingBound`, `ZeroCeilingAttained`). WebSocket
  requests are never asked for admission; each that finishes raises the bound by its own price and one
  (`TunnelledOvershootBound`).
- The comment at crates/tailfin-tree/src/lib.rs:380-382 says that a node's parent must already exist. Nothing enforces
  it. Vouchers stay within the ceiling throughout a run if and only if every parent named for a new node is already in
  the task, or the share of the ceiling rounds to nothing (`ConservedIffParentFirst`); the first request with an unknown
  parent overdraws the ceiling at once. The walk and the subtree sum do not need known parents and are
  characterised on every parent map.
- The comment at crates/tailfin-ident/src/lib.rs:65 says that the separator keeps `["ab","c"]` and `["a","bc"]` apart. It
  does not keep messages apart that contain the separator, and message contents can
  (crates/tailfin-proxy/src/identity.rs:28-30): two lists of messages hash the same bytes if and only if cutting every
  message at its separators gives the same pieces (`SameBytesIffSamePieces`). So conversations of different messages can have
  equal digests, with ordinary roles throughout (`CanonicalCollision`). Whether this merges sessions depends on the minimum
  level: it can if and only if that level is at least two (`SeparatorsMergeIff`). The proxy always runs at level one
  (crates/tailfin-proxy/src/proxy.rs:87, crates/tailfin-ident/src/lib.rs:258), where depths one and two together fix both
  messages, so there only a collision of FNV-1a itself could merge two sessions (`SameSessionIffSamePrefix`); the shared
  depth that is reported with an attribution can be overstated.
- A metering task that ends before it has recorded leaves its request without a record (`DeadMeterRecordsNothing`). In
  production that is a panic inside it or the runtime shutting down; nothing in the source awaits the spawned task.
- The WebSocket decoder is independent of chunking exactly when no complete frame follows the first close frame.
- `SseDecoder::finish` agrees with one more line feed exactly when the unfinished line is blank; a pending frame makes it
  skip a non-blank unfinished line.
- Scan order in the session index is irrelevant, although the code looks for the deepest match: two live sessions can
  never both match.

## Modelling choices

- Token counts, prices, counters and identifiers are unbounded naturals and strings; depth saturates at 255 as in the source.
- The voucher share is a fraction `num/den` with `num <= den` and an exact floor.
- A run is *parent-first* when each request whose node is new names a parent that is already in the task.
- Every append to the ledger succeeds. The source logs a failed append and goes on, after the task has been updated
  (crates/tailfin-proxy/src/proxy.rs:632-634), so what is rebuilt then lacks that row.
- A run starts with an empty ledger. The source opens its file for appending (crates/tailfin-ledger/src/lib.rs:144) and
  declared task identifiers survive a restart (crates/tailfin-ledger/src/lib.rs:35-36), so rows of an earlier process are
  replayed too, although the live task starts from nothing.
- Early returns after `begin` are a step of their own (`Abandon`): the request stays counted as live and is never finished.
- JSON parsing is a parameter of the meter: any function from text to an optional value.
- Chunks of text are split at character boundaries.
- Where source and documentation disagree, the model follows the source.

## Model

| member | source | states |
|---|---|---|
| `Overshoot.OvershootBound` | crates/tailfin-tree/src/lib.rs:223-296 | in every interleaving of one task's steps, if each request costs at most `most` and at most `width` are upstream at once, the spend never exceeds `max(ceiling-1, 0) + (width+1)*(most+1)` |
| `Overshoot.NextMoves` | crates/tailfin-proxy/src/proxy.rs:188-220 | every proxy step moves (spend, requests upstream, sealed) in one of five ways: not at all, relay below the ceiling, relay and seal, finish at its price plus at most one, lose a request |
| `OvershootTight.OvershootAttained` | crates/tailfin-tree/src/lib.rs:23-29 | for every ceiling of at least one, every share, price and rate card, if `width + 2` of some usage that costs anything cost at most a micro-dollar, some run spends exactly `ceiling - 1 + (width+1)*(most+1)` |
| `OvershootTight.OnePerBranchExceeded` | crates/tailfin-tree/src/lib.rs:23-29 | under every rate card that prices anything and at every width, if `most` is at least the price of `width + 2` units, some run spends more than `ceiling + width*(most+1)` |
| `OvershootTight.ZeroCeilingAttained` | crates/tailfin-tree/src/lib.rs:280-296 | at ceiling zero, for every rate card and usage, some run spends exactly the price of that usage |
| `OvershootExact.OnePerBranchIff` | crates/tailfin-tree/src/lib.rs:23-29 | under every rate card that prices anything and at every width, provided a request that costs anything may cost as much as `width + 2` units, the documented overshoot of one request per branch holds of every run if and only if the ceiling is zero, or no request costs a micro-dollar, or none is upstream |
| `OvershootExact.OnePerBranchHolds` | crates/tailfin-tree/src/lib.rs:23-29 | in those cases it holds under every rate card and at every width |
| `OvershootExact.UnsealedBound` | crates/tailfin-tree/src/lib.rs:280-296 | until the task is sealed the spend is at most `max(ceiling-1, 0) + width*(most+1)` |
| `OvershootExact.ZeroCeilingBound` | crates/tailfin-tree/src/lib.rs:280-296 | at ceiling zero no run, of any width, spends more than the price of one request |
| `OvershootTunnels.TunnelledOvershootBound` | crates/tailfin-proxy/src/proxy.rs:270-299 | over every run, WebSocket requests included, the spend never exceeds the bound plus, for each WebSocket request that finished, its price and one |
| `OvershootTunnels.NoTunnelsNoTolls` | crates/tailfin-proxy/src/proxy.rs:188-204 | a run without WebSocket requests adds nothing to the bound |
| `RunTheorems.ArenaOvershoot` | crates/tailfin-proxy/src/proxy.rs:188-204 | the same bound for each task of the shared arena, whatever the other tasks do |
| `ProxyRun.RunKeeps` | crates/tailfin-tree/src/lib.rs:129-194 | over every run parents and depths are fixed at creation, minted vouchers never change, seals are never undone, the first-seen order only grows |
| `ProxyRun.FinishSpends` | crates/tailfin-tree/src/lib.rs:267-277 | finishing adds the price of what was used and at most one more micro-dollar, and nothing when nothing was used |
| `ProxyRun.ExecSound` | crates/tailfin-proxy/src/proxy.rs:188-214 | every run keeps the bookkeeping: order lists exactly the nodes once, root first, with the ceiling as its allowance, and each request in flight has its node |
| `VoucherConservation.VouchersConserved` | crates/tailfin-tree/src/lib.rs:166-202 | in every parent-first run the children of any node together hold no more than the node, and any nodes with no ancestor pair among them no more than the ceiling |
| `VoucherExact.ConservedIffParentFirst` | crates/tailfin-tree/src/lib.rs:166-202 | over every run whose requests away from the root name a parent, nodes with no ancestor pair among them hold at most the ceiling at every moment if and only if every parent named for a new node was already in the task, or the share of the ceiling is zero |
| `VoucherExact.NothingMinted` | crates/tailfin-tree/src/lib.rs:188-193 | when the share of the ceiling is zero, every voucher minted in any run is zero, whatever parents are named |
| `VoucherExact.OrphanMinted` | crates/tailfin-tree/src/lib.rs:181-193 | a new node whose parent is unknown, or itself, and nobody else's parent is minted a full share of the ceiling |
| `VoucherExact.OrphansOverdraw` | crates/tailfin-tree/src/lib.rs:181-190 | two requests that name unknown parents each hold a full share of the ceiling, apart from the root that holds all of it |
| `Sessions.ResolveRequest` | crates/tailfin-ident/src/lib.rs:271-348 | every resolved position away from its root names a parent |
| `SessionDepths.DeclaredIsTaken` | crates/tailfin-ident/src/lib.rs:271-289 | a declared request leaves the index alone; its root is the session, its node the agent named or the session, its parent the one named, else the session when an agent is named |
| `SessionDepths.AnonymousIsAlone` | crates/tailfin-ident/src/lib.rs:291-293 | a request with neither identity nor digest gets a new root of its own |
| `SessionDepths.ClaimIsDeepest` | crates/tailfin-ident/src/lib.rs:295-337 | an attribution claims the depth on which the session's digest and the request's agree, at least the minimum, and no live session agrees on more; a new session claims zero |
| `SessionDepths.AskedAgain` | crates/tailfin-ident/src/lib.rs:305-310 | the same conversation asked again gets the same root, and claims all it has if the first answer opened the session or went deeper than before; otherwise nothing changes |
| `SessionDepths.DepthSeenIsDeepestClaim` | crates/tailfin-ident/src/lib.rs:305-310 | over every run a live session remembers exactly the deepest claim made for its root |
| `VoucherConservation.MintFits` | crates/tailfin-tree/src/lib.rs:183-193 | a new child is minted no more than its parent has left after its other children |
| `VoucherConservation.MintedShare` | crates/tailfin-tree/src/lib.rs:181-193 | a new node is minted its share, rounded down, of what the node it names as its parent, or else the root, holds beyond the vouchers of its other children |
| `VoucherConservation.AllotIsFloor` | crates/tailfin-tree/src/lib.rs:189-190 | a share is rounded down, by less than a micro-dollar |
| `VoucherConservation.DepthIsDistance` | crates/tailfin-tree/src/lib.rs:136-139 | the stored depth is the distance from the root, capped at 255 |
| `VoucherConservation.ExecShaped` | crates/tailfin-tree/src/lib.rs:129-155 | parent-first runs build parent-first trees whose depths are tracked |
| `Seals.LastAnswersAreSeals` | crates/tailfin-tree/src/lib.rs:223-253 | over every run the Last answers are exactly the seals put on: the task's and one per sealed node, never the root node |
| `Seals.SealsBindForever` | crates/tailfin-tree/src/lib.rs:280-296 | whatever is sealed stays sealed, and from then on a sealed task is only answered Deny and a sealed node never Allow |
| `Seals.SealedNodeNotAllowed` | crates/tailfin-tree/src/lib.rs:224-239 | a sealed node is denied or receives the task's own Last |
| `Seals.RootAdmission` | crates/tailfin-tree/src/lib.rs:228-252 | at the root node, admission is admission of the task, on every parent map |
| `Seals.UncappedNeverDenied` | crates/tailfin-tree/src/lib.rs:281-283 | a task without a ceiling, or a proxy without rates, answers Allow throughout every run |
| `Seals.RunStopsLayered` | crates/tailfin-tree/src/lib.rs:255-263 | over every run the first stop is the synthetic end of turn and every later one the hard status |
| `Denials.DenialsAreEarned` | crates/tailfin-tree/src/lib.rs:232-251 | over every run a sealed task has spent its ceiling, the subtree below a sealed node its voucher, and every denial names a spend that has reached the cap it names |
| `Denials.SpendGrows` | crates/tailfin-tree/src/lib.rs:204-220 | neither the spend of a task nor that of a subtree goes down when nodes are added and usage merged |
| `Admissions.AnswerExactly` | crates/tailfin-tree/src/lib.rs:223-296 | with a ceiling and rates: exactly when a request is answered Allow, Last or Deny, with which numbers, and exactly what is sealed; a node is sealed when its subtree has cost its voucher while the task is below its ceiling |
| `Admissions.RunAllowsIffBelow` | crates/tailfin-tree/src/lib.rs:223-253 | over every run a request is answered Allow if and only if at that moment the task is below its ceiling and the node's subtree below the node's voucher |
| `Admissions.SpentVoucherStops` | crates/tailfin-tree/src/lib.rs:240-251 | once the subtree below a node has cost the node's voucher, no request at it is allowed for the rest of any run |
| `Admissions.LastThenDenied` | crates/tailfin-tree/src/lib.rs:236-251 | below the ceiling, a node that has used up its voucher gets at most one Last and then a Deny that names its subtree's spend and its voucher |
| `RunTheorems.RootAdmissionAfterRun` | crates/tailfin-tree/src/lib.rs:223-227 | after every run `admit_at` at the root answers and updates as `admit` does |
| `Ancestry.SubtreeAtMostSpent` | crates/tailfin-tree/src/lib.rs:204-220 | on every parent map, cyclic or orphaned, a subtree costs at most what the task spent |
| `Ancestry.SubtreeRecurrence` | crates/tailfin-tree/src/lib.rs:204-220 | on parent-first tasks a subtree costs its top's own usage plus its children's subtrees |
| `Ancestry.RootSubtreeIsTask` | crates/tailfin-tree/src/lib.rs:310-312 | on parent-first tasks the root's subtree costs what the task spent |
| `Ancestry.ChildrenListed` | crates/tailfin-tree/src/lib.rs:368-376 | the listing of children holds exactly the children, each once |
| `Ancestry.ChildrenInOrder` | crates/tailfin-tree/src/lib.rs:368-376 | children are listed in the order in which they were first seen |
| `RunTheorems.SubtreeAfterRun` | crates/tailfin-tree/src/lib.rs:204-220 | the recurrence and the root equality after every parent-first run |
| `RunTheorems.WalkAfterRun` | crates/tailfin-tree/src/lib.rs:378-399 | after every parent-first run the preorder lists each node once, at depth min(255, distance) |
| `WalkModel.PreorderListsTask` | crates/tailfin-tree/src/lib.rs:383-399 | the recursive preorder of a parent-first task lists every node exactly once |
| `DepthFirst.PreorderIsDepthFirst` | crates/tailfin-tree/src/lib.rs:378-399 | the preorder lists ancestors before what is below them, and everything below an earlier sibling before everything below a later one |
| `WalkModel.FrontierDone` | crates/tailfin-tree/src/lib.rs:208-218 | a stack walk with a visited set ends having visited exactly the nodes whose parent chain passes through the start |
| `TaskObject.Task.Walk` | crates/tailfin-tree/src/lib.rs:383-399 | on every parent map the walk ends, repeats nothing and visits exactly what is below the root; on parent-first tasks it is the recursive preorder, ancestors first and siblings as first seen |
| `TaskObject.Task.SubtreeSpentMicros` | crates/tailfin-tree/src/lib.rs:204-220 | the stack loop sums exactly the nodes whose parent chain passes through the identifier |
| `TaskObject.Task.constructor` | crates/tailfin-tree/src/lib.rs:86-127 | a new task holds its root alone, with the ceiling as its allowance |
| `TaskObject.Task.Ensure` | crates/tailfin-tree/src/lib.rs:129-155 | an existing node only gains a missing label; a new one gets its parent, depth and place in the order |
| `TaskObject.Task.Mint` | crates/tailfin-tree/src/lib.rs:166-194 | the voucher minted for a node, or no change, for every position; bookkeeping kept unless the position is this root under another root's name in a task with a share and no ceiling |
| `TaskObject.Task.MintedBelow` | crates/tailfin-tree/src/lib.rs:183-188 | the sum of the vouchers of a node's other children |
| `TaskObject.Task.Begin` | crates/tailfin-tree/src/lib.rs:159-164 | the whole new state, for every position: node ensured, voucher minted, live and peak counted |
| `TaskObject.Task.Admit` | crates/tailfin-tree/src/lib.rs:280-296 | the answer and the new state of admission against the ceiling |
| `TaskObject.Task.AdmitAt` | crates/tailfin-tree/src/lib.rs:223-253 | the answer and the new state of admission at a node |
| `TaskObject.Task.TakeStop` | crates/tailfin-tree/src/lib.rs:256-263 | the stop style and the new state |
| `TaskObject.Task.Finish` | crates/tailfin-tree/src/lib.rs:267-277 | the whole new state: usage merged, requests and incomplete counted, live reduced without going below zero |
| `TaskObject.Task.SpentMicros` | crates/tailfin-tree/src/lib.rs:310-312 | the sum over the nodes, whatever order the map yields them in |
| `TaskObject.Task.TotalUsed` | crates/tailfin-tree/src/lib.rs:302-308 | the merged usage of the nodes, whatever order the map yields them in |
| `CostReport.ByCost` | crates/tailfin-tree/src/lib.rs:402-419 | one row per node with its label, depth, usage, price and requests, dearest first, ties by identifier |
| `CostReport.StringLessMeans` | crates/tailfin-tree/src/lib.rs:417 | identifiers compare by the first character in which they differ, and a prefix comes first |
| `CostReport.SortedUnique` | crates/tailfin-tree/src/lib.rs:417 | the sorted report is determined by its rows, so any sorting algorithm gives it |
| `CostReport.ReportConserves` | crates/tailfin-tree/src/lib.rs:302-312 | the rows' micros add up to the spend and their usage to the total usage, and spend <= price of the total <= spend + nodes - 1 |
| `Pricing.MicrosMerge` | crates/tailfin-wire/src/lib.rs:130-146 | pricing merged usage loses nothing and gains at most one micro-dollar |
| `Pricing.PriceByCounter` | crates/tailfin-wire/src/lib.rs:130-137 | `k` million tokens of one kind cost `k` times the rate of that kind, for each of the five kinds; reasoning costs nothing of its own |
| `Pricing.TokensByCounter` | crates/tailfin-wire/src/lib.rs:122-125 | the token total counts each priced kind once and reasoning not at all |
| `Pricing.TotalByCounter` | crates/tailfin-wire/src/lib.rs:139-146 | merging usages adds up every counter by itself, reasoning included |
| `Pricing.PriceOfTotal` | crates/tailfin-wire/src/lib.rs:127-137 | rounding each of a set of usages under-counts the price of their total by less than one for each after the first |
| `LedgerModel.LedgerRebuildsTask` | crates/tailfin-ledger/src/lib.rs:183-209 | after every run, replaying a task's rows in any order gives each node the live usage, requests and incomplete count, and equal totals, spend and fan-out |
| `LedgerModel.TasksAreIndependent` | crates/tailfin-tree/src/lib.rs:457-470 | in the shared arena each task goes through exactly the run of its own steps, and its part of the ledger is that run's rows |
| `LedgerModel.ArenaRebuilds` | crates/tailfin-proxy/src/proxy.rs:605-636 | rebuilding from the shared ledger, in any order of rows, recovers every task |
| `LedgerModel.LiveAgrees` | crates/tailfin-proxy/src/proxy.rs:613-635 | at every moment of every run the live task says about each node what its rows say |
| `LedgerModel.FanOutMeans` | crates/tailfin-tree/src/lib.rs:335-338 | fan-out compares the tokens of the main thread and all other nodes with those of the main thread |
| `LedgerTree.RowPerFinish` | crates/tailfin-proxy/src/proxy.rs:605-636 | exactly the steps that finish a request write a row, with the request's place, its usage, whether its end was seen, and the peak; a stopped request used nothing and is complete |
| `LedgerTree.TallyCountsRows` | crates/tailfin-ledger/src/lib.rs:183-203 | a node's request counters are the numbers of its rows and of its incomplete rows |
| `LedgerTree.LedgerRebuildsTree` | crates/tailfin-ledger/src/lib.rs:183-209 | after every run in which a node's requests name the same parent, replay in any order rebuilds the root and the nodes with a finished request, each below its live parent |
| `LedgerTree.FirstLabelWins` | crates/tailfin-tree/src/lib.rs:129-135 | the first label a node is given is the one it keeps |
| `LedgerObject.TasksFromRecords` | crates/tailfin-ledger/src/lib.rs:183-203 | one pass over all rows yields one task per root mentioned, each rebuilt from its own rows alone |
| `LedgerObject.Absorb` | crates/tailfin-ledger/src/lib.rs:187-199 | a row is replayed as a request that begins and finishes at once |
| `PeakRecovery.PeakRecovered` | crates/tailfin-ledger/src/lib.rs:211-218 | the live peak is the most requests ever open at once; the ledger's maximum never exceeds it and equals it whenever fewer requests are open than at the peak, or none |
| `PeakRecovery.PeakIsMost` | crates/tailfin-ledger/src/lib.rs:211-218 | the recorded high-water mark is the largest peak among the task's rows, in whatever order, or zero |
| `PeakRecovery.RunRecoverable` | crates/tailfin-tree/src/lib.rs:159-164 | over every run live is begins minus finishes and never saturates, and a peak no row holds yet is still open |
| `Digest.FromMessages` | crates/tailfin-ident/src/lib.rs:55-78 | one pass fills each level with the hash of the prefix of that depth, or leaves it empty |
| `Fnv.Fnv1a` | crates/tailfin-ident/src/lib.rs:41-47 | the byte loop is the recursive hash |
| `Fnv.PublishedHashes` | crates/tailfin-ident/src/lib.rs:38-47 | the hash has the published FNV-1a values of the empty string, "a" and "foobar" |
| `Fnv.OneByteTells` | crates/tailfin-ident/src/lib.rs:41-47 | texts that differ in one byte never hash alike, from whatever state |
| `Fnv.HashKeepsStates` | crates/tailfin-ident/src/lib.rs:41-47 | different states stay different through any text |
| `Digest.MatchLevel` | crates/tailfin-ident/src/lib.rs:84-95 | the deepest level up to which two digests agree without a gap |
| `Digest.Ultrametric` | crates/tailfin-ident/src/lib.rs:84-95 | agreement is symmetric, and what two digests share with a third they share with each other |
| `Digest.SharedDepthExact` | crates/tailfin-ident/src/lib.rs:97-100 | shared depth is never below the common prefix rounded down to a level, and is exactly that if and only if the next level's prefixes do not collide |
| `Separation.RollingIsStreamHash` | crates/tailfin-ident/src/lib.rs:61-77 | the rolling hash is FNV-1a of the messages' bytes, each message closed by a separator |
| `Separation.OneByteApart` | crates/tailfin-ident/src/lib.rs:61-77 | conversations whose hashed bytes differ in one place never have the same rolling hash |
| `Separation.SameBytesIffSamePieces` | crates/tailfin-ident/src/lib.rs:63-66 | two lists of messages hash the same bytes if and only if cutting every message at its separators gives the same pieces |
| `Separation.PairReplaced` | crates/tailfin-ident/src/lib.rs:63-77 | two neighbouring messages can be replaced by two others with the same bytes without changing the digest, unless a level ends between them |
| `Separation.SeparatorMoves` | crates/tailfin-ident/src/lib.rs:63-66 | a separator moved from the end of a message to the front of the next gives different messages with the same digest, unless a level ends between them |
| `Separation.CanonicalCollision` | crates/tailfin-proxy/src/identity.rs:25-40 | for every choice of roles, conversations of canonical messages with the same roles and the same digest, which appear to share all messages although they part at a given one |
| `Separation.StreamDetermines` | crates/tailfin-ident/src/lib.rs:63-66 | among messages with equally many separators each, the hashed bytes are equal if and only if the messages are |
| `Separation.CleanTurnsDetermined` | crates/tailfin-proxy/src/identity.rs:25-40 | lists of canonical messages whose roles and contents hold no separator hash the same bytes if and only if all roles and contents are equal |
| `Sessions.IndexIsDictionary` | crates/tailfin-ident/src/lib.rs:271-337 | after any run of requests and clean-ups live sessions are pairwise apart, and the next request gets the root a dictionary keyed by the first levels' hashes would give |
| `Sessions.AtMostOneMatch` | crates/tailfin-ident/src/lib.rs:295-302 | at most one live session can match a digest, so scan order is irrelevant |
| `Sessions.ReplaceSeparated` | crates/tailfin-ident/src/lib.rs:305-310 | replacing a stored digest by one that matched it keeps sessions apart |
| `Sessions.ShortOpensNew` | crates/tailfin-ident/src/lib.rs:321-335 | a conversation too short for the minimum level always opens a new root |
| `Sessions.SameRootIffSameKey` | crates/tailfin-ident/src/lib.rs:271-358 | two undeclared requests of a run share a root if and only if their keys are equal and no clean-up in between dropped it |
| `SharedSessions.KeysMeanPieces` | crates/tailfin-ident/src/lib.rs:84-95 | unless FNV-1a collides, digests match down to the minimum level if and only if both conversations reach it with the same pieces at every level |
| `SharedSessions.SameSessionIffSamePieces` | crates/tailfin-ident/src/lib.rs:271-358 | unless FNV-1a collides, two conversations are one session if and only if they have the same pieces at every level down to the minimum and it was not dropped |
| `SharedSessions.SameSessionIffSamePrefix` | crates/tailfin-ident/src/lib.rs:240-267 | at minimum levels zero and one, unless FNV-1a collides, two conversations of any messages are one session if and only if they share their first messages down to the minimum depth and it was not dropped; at deeper levels if all messages hold equally many separators |
| `SharedSessions.MergedIffSamePieces` | crates/tailfin-ident/src/lib.rs:295-302 | different conversations join without a collision of FNV-1a if and only if they have the same pieces at every level but not the same messages |
| `SharedSessions.SeparatorsMergeIff` | crates/tailfin-ident/src/lib.rs:63-66 | there are such conversations if and only if the minimum level is at least two |
| `Sessions.SessionIndex.constructor` | crates/tailfin-ident/src/lib.rs:255-268 | an empty index with the minimum level clamped to the deepest |
| `Sessions.SessionIndex.FindBest` | crates/tailfin-ident/src/lib.rs:295-302 | the scan returns the first of the deepest matches |
| `Sessions.SessionIndex.Resolve` | crates/tailfin-ident/src/lib.rs:271-348 | the position and the new index for declared, digested and anonymous requests |
| `Sessions.SessionIndex.Retain` | crates/tailfin-ident/src/lib.rs:356-358 | exactly the sessions whose root is kept stay, in order |
| `SessionDepths.KeptInOrder` | crates/tailfin-ident/src/lib.rs:356-358 | cleaning up keeps the order of the sessions that stay |
| `FrameStream.ChunkInvariance` | crates/tailfin-proxy/src/ws.rs:39-91 | for any local framing, every chunking agrees with the whole-stream parse if and only if no complete frame follows the first close frame |
| `FrameStream.FeedIsDecode` | crates/tailfin-proxy/src/ws.rs:39-91 | if no complete frame follows the first close frame, pushing chunks yields the payloads and left-over bytes of the whole-stream parse |
| `FrameStream.CutAfterClose` | crates/tailfin-proxy/src/ws.rs:84-88 | when a complete frame follows a close frame, two non-empty chunks give a different result |
| `WebSocket.WebSocketChunkInvariance` | crates/tailfin-proxy/src/ws.rs:39-91 | the same, for WebSocket framing |
| `WebSocket.FrameIsLocal` | crates/tailfin-proxy/src/ws.rs:43-71 | a complete frame does not depend on the bytes after it |
| `WebSocket.RoundTrip` | crates/tailfin-proxy/src/ws.rs:16-31 | frames of every length form, masked or not, none but the last a close frame, come back as their text payloads under any chunking with nothing left over |
| `WebSocket.TextRoundTrip` | crates/tailfin-proxy/src/ws.rs:16-31 | every list of payloads sent as text frames comes back under any chunking |
| `WireFormat.OpcodeEffects` | crates/tailfin-proxy/src/ws.rs:84-88 | a frame of opcode 1 or 2 hands out its payload, 8 ends the parse, every other is skipped |
| `WireFormat.PayloadBytes` | crates/tailfin-proxy/src/ws.rs:69-82 | a masked payload is, byte by byte, what was sent XORed with byte `i` modulo four of the key before it; an unmasked one is what was sent |
| `WireFormat.XorIsBitwise` | crates/tailfin-proxy/src/ws.rs:79-81 | a bit of the exclusive or is set where the two numbers differ |
| `WireFormat.NetworkOrder` | crates/tailfin-proxy/src/ws.rs:55-66 | in lengths each byte weighs 256 times the next |
| `WireFormat.LengthForms` | crates/tailfin-proxy/src/ws.rs:20-28 | one byte below 126, else the marker 126 and two bytes, else 127 and eight |
| `WireFormat.RfcExample` | crates/tailfin-proxy/src/ws.rs:39-91 | the unmasked "Hello" of section 5.7 of RFC 6455 is read as that text frame |
| `WebSocket.EncodeTextFrame` | crates/tailfin-proxy/src/ws.rs:16-31 | the appended bytes are the frame of the three length forms |
| `WebSocket.Unmask` | crates/tailfin-proxy/src/ws.rs:79-81 | the payload is XORed in place with the repeated mask |
| `WebSocket.ReadFrame` | crates/tailfin-proxy/src/ws.rs:43-82 | the first complete frame of the buffer, or none |
| `WebSocket.WsTextDecoder.Push` | crates/tailfin-proxy/src/ws.rs:39-91 | payloads handed out and bytes kept are those of the parse of the old bytes and the chunk |
| `Sse.SseChunkInvariance` | crates/tailfin-wire/src/lib.rs:47-72 | every chunking gives the frames and the final state of the whole text at once |
| `Sse.FinishIsNewline` | crates/tailfin-wire/src/lib.rs:77-103 | finishing hands out what one more line feed would if and only if the unfinished line is blank; on a line boundary the states agree too |
| `Sse.SseDecoder.Push` | crates/tailfin-wire/src/lib.rs:47-72 | frames and state are those of draining the old text and the chunk line by line |
| `Sse.SseDecoder.Take` | crates/tailfin-wire/src/lib.rs:53-69 | a blank line closes the pending frame, an event or data line adds to it, any other is ignored |
| `SseLines.BlankLine` | crates/tailfin-wire/src/lib.rs:53-62 | a blank line hands out the pending event and its data lines joined by line feeds, or nothing between frames |
| `SseLines.DataLine` | crates/tailfin-wire/src/lib.rs:65-67 | a data line adds what follows the colon, less one space if there is one |
| `SseLines.EventLine` | crates/tailfin-wire/src/lib.rs:63-64 | an event line names the event, trimmed, and replaces an earlier name |
| `SseLines.IgnoredLine` | crates/tailfin-wire/src/lib.rs:63-68 | every other line changes nothing |
| `SseLines.CarriageReturn` | crates/tailfin-wire/src/lib.rs:53-54 | a carriage return before the line feed makes no difference |
| `Sse.SseDecoder.Finish` | crates/tailfin-wire/src/lib.rs:77-103 | the pending frame, or else the unfinished line, as a last frame |
| `SseLines.FinishCases` | crates/tailfin-wire/src/lib.rs:77-91 | finishing hands out the pending frame and keeps the unfinished line, or, without one, nothing for blank text |
| `SseLines.FinishUnfinished` | crates/tailfin-wire/src/lib.rs:85-100 | with no frame pending, the unfinished line is a frame without event: what follows "data:", or all of it, trimmed |
| `SseLines.TrimCuts` | crates/tailfin-wire/src/lib.rs:64-64 | trimming takes white space off both ends, all of it and nothing else |
| `SseRoundTrip.SseRoundTripIff` | crates/tailfin-wire/src/lib.rs:47-72 | printed frames come back under any chunking if and only if each is printable, and then nothing is left behind |
| `SseRoundTrip.DecodedArePrintable` | crates/tailfin-wire/src/lib.rs:53-68 | every frame the decoder hands out is printable |
| `Meter.MeterChunks` | crates/tailfin-proxy/src/proxy.rs:566-593 | the decode-and-observe loop records what the whole body says, however it was cut; without a dialect, zero usage, incomplete |
| `Meter.AnthropicTotals` | crates/tailfin-wire/src/lib.rs:241-292 | input, cache reads and both cache-write counters add up over message starts; output is the last positive count and reasoning the last count reported, never sums |
| `Meter.LastReportWins` | crates/tailfin-wire/src/lib.rs:294-363 | in the OpenAI dialects the last frame that reports usage decides |
| `Meter.ChatTotals` | crates/tailfin-wire/src/lib.rs:294-314 | the chat dialect records the last report: cached tokens as cache reads, input without them, never below zero, its own output and reasoning counts, no cache writes |
| `Meter.ResponsesTotals` | crates/tailfin-wire/src/lib.rs:350-364 | the same for the responses dialect, from the counters of its names |
| `Meter.NoReportNoUsage` | crates/tailfin-wire/src/lib.rs:294-363 | frames that report nothing leave nothing recorded |
| `Meter.WhereUsageIs` | crates/tailfin-wire/src/lib.rs:294-348 | where the chat and responses dialects find the usage object, and which ends of a response are terminal |
| `Meter.WhereAnthropicUsageIs` | crates/tailfin-wire/src/lib.rs:241-259 | where the Anthropic dialect finds it |
| `Meter.KindsRead` | crates/tailfin-wire/src/lib.rs:318-321 | the event line decides the kind of a frame, the type inside the value only without one |
| `Meter.SkippedFrames` | crates/tailfin-wire/src/lib.rs:227-233 | the end marker and what is not JSON change nothing |
| `Meter.CountsRead` | crates/tailfin-wire/src/lib.rs:262-263 | a count is the whole number under its name, or zero |
| `Meter.CompleteIffTerminal` | crates/tailfin-wire/src/lib.rs:369-377 | a stream is complete if and only if one of its frames was terminal for the dialect |
| `Meter.UsageMeter.ObserveFrames` | crates/tailfin-wire/src/lib.rs:227-239 | the meter's state is the fold over the frames; unparseable frames change nothing |
| `Tee.RunFaithful` | crates/tailfin-proxy/src/tee.rs:37-59 | in every interleaving the client gets exactly the upstream frames, the meter a subsequence of the data, and heard, queued and lost chunks add up |
| `Tee.PipelineFidelity` | crates/tailfin-proxy/src/proxy.rs:565-600 | whatever is recorded is the reading of the body's chunks with exactly the lost clones left out; if none was lost, of the whole body metered at once |
| `Tee.GoneMeterIsFinal` | crates/tailfin-proxy/src/proxy.rs:570-600 | once the meter has recorded or died, what is recorded never changes |
| `Tee.DeadMeterRecordsNothing` | crates/tailfin-proxy/src/proxy.rs:565-601 | a metering task that ends before recording leaves no record in any continuation |
| `Tee.LiveMeterCanRecord` | crates/tailfin-proxy/src/proxy.rs:570-600 | from every state with a live meter, ending the body and taking what is queued leads to a record, with no further loss |
| `Tee.SmallBodiesLoseNothing` | crates/tailfin-proxy/src/proxy.rs:262-264 | a body of at most 64 data frames loses nothing under any schedule while the meter lives |
| `Tee.SixtyFourFit` | crates/tailfin-proxy/src/proxy.rs:25-25 | while the meter takes nothing, exactly the first 64 data frames are queued and every further one is lost |
| `Tee.CloningEnds` | crates/tailfin-proxy/src/tee.rs:46-52 | after the meter is gone, the next piece of data ends cloning for good |
| `Tee.TeeBody.PollFrame` | crates/tailfin-proxy/src/tee.rs:37-59 | what the inner body yields is passed on unchanged; data is cloned, dropped when the channel is full, and cloning ends when it is closed |
| `Tee.Channel.TrySend` | crates/tailfin-proxy/src/tee.rs:46-52 | sending never waits: queued, or refused as full or closed |

## Left out

- Integer overflow: `u64` products in pricing, `u32` counters and WebSocket lengths of 2^64 - 14 or more, whose size computation overflows; counts here are unbounded.
- MintFits: the source multiplies in `f64`, which can round; the model uses an exact fraction, and the proofs use only that a share never exceeds what remains, which holds in `f64` for ceilings up to 2^53.
- LedgerRebuildsTask: assumes that no append failed and that the ledger was empty at the start.
- ArenaRebuilds: assumes that no append failed and that the ledger was empty at the start.
- LiveAgrees: assumes that no append failed; the branch that logs the failure is not modelled.
- PeakRecovered: assumes that no append failed, since a lost row may have held the peak, and that no rows of an earlier process are left.
- SessionIndex.Retain: `keep` is a pure function, while the source accepts a closure with state of its own.
- SseDecoder.Push: takes characters, so a chunk that ends inside a character, which the source decodes lossily, is not modelled.
- OvershootAttained: between the two conditions, when `width + 2` units cost more than a micro-dollar, the exact maximum depends on the arithmetic of the rates and is not stated; `OnePerBranchExceeded` still says that the documented bound fails.
- Arena: the map of tasks is a value, with the tasks as values inside it; updating a task through a reference into the map is not modelled.
- That every begun request is finished: early returns skip the finish, and the model has them as `Abandon`.
- That a subtree stays within its own voucher: the source does not check nodes between the request's node and the root.
- Node depths after replaying a ledger: a child may finish before its parent and be rebuilt at depth 1.
- Sorting of rebuilt tasks by root, and timestamps, schema version, confidence and capture ids of ledger rows.
- Header parsing (`from_headers`, `scrape_json_string`) and the text form of generated root names; a declared session that spells a generated name would share its task.
- The probability of FNV-1a collisions.
- Section 5.4 of RFC 6455: the source ignores FIN and drops continuation frames, and so does the model.
- Lossy UTF-8 decoding of chunks split inside a character.
- HTTP, TLS, sockets, header filtering, logging, report formatting, capture and replay of bodies, and the doctor rules.
