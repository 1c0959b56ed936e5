/** Relaying a response body while cloning it to the meter through a bounded channel
    (crates/tailfin-proxy/src/tee.rs), and what the meter can then record (crates/tailfin-proxy/src/proxy.rs). */
module Tee {
  import opened Foundations
  import opened Sse
  import opened Meter

  const TEE_CAPACITY: nat := 64

  /** A frame of the body: a piece of text, or trailers. */
  datatype BodyFrame = Data(text: string) | Trailers

  datatype Poll = Pending | Ready(frame: BodyFrame) | Failed | Ended

  // ----- the tee -----

  datatype SendResult = Sent | Full | Closed

  /** The channel between relay and meter. */
  class Channel {
    var queue: seq<string>
    var listening: bool

    constructor ()
      ensures queue == [] && listening
    {
      queue, listening := [], true;
    }

    /** Never waits: a full channel drops the clone. */
    method TrySend(text: string) returns (r: SendResult)
      modifies this`queue
      ensures r == if !listening then Closed else if |old(queue)| >= TEE_CAPACITY then Full else Sent
      ensures queue == if r == Sent then old(queue) + [text] else old(queue)
    {
      if !listening {
        return Closed;
      }
      if |queue| >= TEE_CAPACITY {
        return Full;
      }
      queue := queue + [text];
      return Sent;
    }
  }

  class TeeBody {
    var tx: Option<Channel>

    constructor (channel: Channel)
      ensures tx == Some(channel)
    {
      tx := Some(channel);
    }

    /** Passes on whatever the inner body yields; clones data on the way while the channel is open. */
    method PollFrame(inner: Poll) returns (outer: Poll)
      modifies this, if tx.Some? then {tx.value} else {}
      ensures outer == inner
      ensures old(tx).Some? ==>
                var c := old(tx).value;
                c.listening == old(c.listening)
                && Wire(c.queue, c.listening, tx.Some?) == Cloned(Wire(old(c.queue), old(c.listening), true), inner)
      ensures tx == old(tx) || tx == None
    {
      if inner.Ready? && inner.frame.Data? && tx.Some? {
        var sent := tx.value.TrySend(inner.frame.text);
        if sent == Closed {
          tx := None;
        }
      }
      return inner;
    }
  }

  /** The channel as the relay sees it: what is queued, whether the meter listens, whether cloning is on. */
  datatype Wire = Wire(queue: seq<string>, listening: bool, teeing: bool)

  function Cloned(w: Wire, inner: Poll): Wire {
    if inner.Ready? && inner.frame.Data? && w.teeing then
      if !w.listening then w.(teeing := false)
      else if |w.queue| >= TEE_CAPACITY then w
      else w.(queue := w.queue + [inner.frame.text])
    else w
  }

  // ----- relay and meter, interleaved -----

  /** What came from upstream, what the client got, the channel, what the meter took, how many clones were
      lost, whether the body is gone, and what the meter recorded in the end. */
  datatype Pipeline = Pipeline(upstream: seq<BodyFrame>, client: seq<BodyFrame>, wire: Wire, heard: seq<string>,
                               lost: nat, gone: bool, recorded: Option<Reading>)

  datatype PipeStep =
    | Relay(inner: Poll)  // the client polls the body
    | Hangup              // the body is finished or the client leaves; the channel's sender is dropped
    | Receive             // the meter takes a chunk
    | Record              // the channel is closed and drained: the meter finishes and records
    | MeterDies           // the meter task goes away with whatever is queued

  const OPEN := Pipeline([], [], Wire([], true, true), [], 0, false, None)

  /** What the meter runs with: the dialect of the path, if it is known, and a JSON parser. */
  datatype Setup = Setup(dialect: Option<Dialect>, parse: Parser)

  function PipeNext(t: Pipeline, step: PipeStep, m: Setup): Pipeline {
    match step
    case Relay(inner) =>
      if t.gone || !inner.Ready? then t
      else
        var w := Cloned(t.wire, inner);
        t.(upstream := t.upstream + [inner.frame], client := t.client + [inner.frame], wire := w,
           lost := t.lost + if inner.frame.Data? && |w.queue| == |t.wire.queue| then 1 else 0)
    case Hangup => t.(gone := true)
    case Receive =>
      if t.wire.listening && t.wire.queue != []
      then t.(heard := t.heard + [t.wire.queue[0]], wire := t.wire.(queue := t.wire.queue[1..]))
      else t
    case Record =>
      if t.gone && t.wire.listening && t.wire.queue == []
      then t.(recorded := Some(ChunkReading(t.heard, m.dialect, m.parse)), wire := t.wire.(listening := false))
      else t
    case MeterDies =>
      t.(wire := t.wire.(listening := false, queue := []), lost := t.lost + |t.wire.queue|)
  }

  function PipeExec(steps: seq<PipeStep>, m: Setup): Pipeline {
    if steps == [] then OPEN else PipeNext(PipeExec(steps[..|steps| - 1], m), steps[|steps| - 1], m)
  }

  function Texts(frames: seq<BodyFrame>): seq<string> {
    if frames == [] then []
    else
      var last := frames[|frames| - 1];
      Texts(frames[..|frames| - 1]) + if last.Data? then [last.text] else []
  }

  /** `a` is `b` with some elements left out. */
  predicate IsSubsequence(a: seq<string>, b: seq<string>) {
    a == []
    || (b != [] && ((a[|a| - 1] == b[|b| - 1] && IsSubsequence(a[..|a| - 1], b[..|b| - 1]))
                    || IsSubsequence(a, b[..|b| - 1])))
  }

  lemma SubsequenceBoth(a: seq<string>, b: seq<string>, x: string)
    requires IsSubsequence(a, b)
    ensures IsSubsequence(a + [x], b + [x]) && IsSubsequence(a, b + [x])
  {
    assert (a + [x])[..|a|] == a && (b + [x])[..|b|] == b;
  }

  lemma {:induction false} SubsequencePrefix(a: seq<string>, tail: seq<string>, b: seq<string>)
    requires IsSubsequence(a + tail, b)
    ensures IsSubsequence(a, b)
    decreases |b|, |tail|
  {
    if tail == [] {
      assert a + tail == a;
    } else if a != [] {
      var whole := a + tail;
      var b' := b[..|b| - 1];
      if IsSubsequence(whole, b') {
        SubsequencePrefix(a, tail, b');
      } else {
        assert whole[..|whole| - 1] == a + tail[..|tail| - 1];
        SubsequencePrefix(a, tail[..|tail| - 1], b');
      }
    }
  }

  /** `taken` is `texts` with exactly `lost` elements left out. */
  ghost predicate Lacks(taken: seq<string>, texts: seq<string>, lost: nat) {
    && IsSubsequence(taken, texts) && |taken| + lost == |texts|
    && (lost == 0 ==> taken == texts)
  }

  lemma LacksNext(taken: seq<string>, texts: seq<string>, lost: nat, x: string)
    requires Lacks(taken, texts, lost)
    ensures Lacks(taken + [x], texts + [x], lost) && Lacks(taken, texts + [x], lost + 1)
  {
    SubsequenceBoth(taken, texts, x);
  }

  /** The client has exactly what upstream yielded; the meter's chunks are upstream's in order, with `lost` of
      them missing; and as long as none is missing they are all of them. */
  ghost predicate Faithful(t: Pipeline) {
    && t.client == t.upstream
    && Lacks(t.heard + t.wire.queue, Texts(t.upstream), t.lost)
    && |t.wire.queue| <= TEE_CAPACITY
    && (!t.wire.listening ==> t.wire.queue == [])
  }

  lemma TextsNext(frames: seq<BodyFrame>, f: BodyFrame)
    ensures Texts(frames + [f]) == Texts(frames) + if f.Data? then [f.text] else []
  {
    assert (frames + [f])[..|frames|] == frames;
  }

  lemma RelayFaithful(t: Pipeline, inner: Poll, m: Setup)
    requires Faithful(t)
    ensures Faithful(PipeNext(t, Relay(inner), m))
  {
    if !t.gone && inner.Ready? {
      var after := PipeNext(t, Relay(inner), m);
      TextsNext(t.upstream, inner.frame);
      if inner.frame.Data? {
        LacksNext(t.heard + t.wire.queue, Texts(t.upstream), t.lost, inner.frame.text);
        if |after.wire.queue| != |t.wire.queue| {
          assert after.heard + after.wire.queue == t.heard + t.wire.queue + [inner.frame.text];
        }
      } else {
        assert Texts(t.upstream) + [] == Texts(t.upstream);
      }
    }
  }

  lemma NextFaithful(t: Pipeline, step: PipeStep, m: Setup)
    requires Faithful(t)
    ensures Faithful(PipeNext(t, step, m))
  {
    match step {
      case Relay(inner) => RelayFaithful(t, inner, m);
      case Hangup =>
      case Receive =>
        if t.wire.listening && t.wire.queue != [] {
          var after := PipeNext(t, step, m);
          assert after.heard + after.wire.queue == t.heard + t.wire.queue;
        }
      case Record =>
      case MeterDies =>
        assert t.heard + [] == t.heard;
        assert t.wire.queue == [] ==> t.heard + t.wire.queue == t.heard;
        SubsequencePrefix(t.heard, t.wire.queue, Texts(t.upstream));
    }
  }

  /** In every interleaving of polls and receives, the relay is exact and the meter sees a subsequence. */
  lemma {:induction false} RunFaithful(steps: seq<PipeStep>, m: Setup)
    ensures Faithful(PipeExec(steps, m))
  {
    if steps != [] {
      RunFaithful(steps[..|steps| - 1], m);
      NextFaithful(PipeExec(steps[..|steps| - 1], m), steps[|steps| - 1], m);
    } else {
      assert [] + OPEN.wire.queue == [];
    }
  }

  /** The first 64 data frames are queued, and the rest is lost. */
  ghost predicate Filling(t: Pipeline) {
    var texts := Texts(t.upstream);
    && t.wire == Wire(if |texts| <= 64 then texts else texts[..64], true, true)
    && t.lost == Max(0, |texts| - 64) && t.heard == [] && !t.gone
  }

  lemma FillingNext(t: Pipeline, inner: Poll, m: Setup)
    requires Filling(t)
    ensures Filling(PipeNext(t, Relay(inner), m))
  {
    if inner.Ready? {
      TextsNext(t.upstream, inner.frame);
      if inner.frame.Data? && |Texts(t.upstream)| >= 64 {
        assert (Texts(t.upstream) + [inner.frame.text])[..64] == t.wire.queue;
      }
    }
  }

  /** While the meter takes nothing, the channel fills up with the first 64 data frames and every further one is
      lost. */
  lemma {:induction false} SixtyFourFit(steps: seq<PipeStep>, m: Setup)
    requires forall i :: 0 <= i < |steps| ==> steps[i].Relay?
    ensures Filling(PipeExec(steps, m))
  {
    if steps != [] {
      var init, last := steps[..|steps| - 1], steps[|steps| - 1];
      SixtyFourFit(init, m);
      FillingNext(PipeExec(init, m), last.inner, m);
    }
  }

  // ----- what is recorded -----

  /** What was recorded is the reading of what the meter took, once the body was gone and the channel drained. */
  ghost predicate RecordedLast(t: Pipeline, m: Setup) {
    t.recorded.Some? ==>
      && t.gone && !t.wire.listening && t.wire.queue == []
      && t.recorded.value == ChunkReading(t.heard, m.dialect, m.parse)
  }

  lemma {:induction false} RunRecords(steps: seq<PipeStep>, m: Setup)
    ensures RecordedLast(PipeExec(steps, m), m)
  {
    if steps != [] {
      RunRecords(steps[..|steps| - 1], m);
    }
  }

  /** Pipeline fidelity. Whatever the schedule and however the body was cut into frames, what is recorded is the
      reading of a subsequence of the body's chunks that lacks exactly the clones that were lost; so if none was
      lost it is the usage and completeness of the whole body metered at once. */
  lemma {:induction false} PipelineFidelity(steps: seq<PipeStep>, m: Setup)
    requires PipeExec(steps, m).recorded.Some?
    ensures var t := PipeExec(steps, m);
            && t.gone && t.client == t.upstream
            && t.recorded.value == BodyReading(Flatten(t.heard), m.dialect, m.parse)
            && IsSubsequence(t.heard, Texts(t.upstream)) && |t.heard| + t.lost == |Texts(t.upstream)|
            && (t.lost == 0 ==> t.recorded.value == BodyReading(Flatten(Texts(t.upstream)), m.dialect, m.parse))
  {
    var t := PipeExec(steps, m);
    RunFaithful(steps, m);
    RunRecords(steps, m);
    ReadingIgnoresChunks(t.heard, m.dialect, m.parse);
    assert t.heard + t.wire.queue == t.heard;
  }

  /** Once the meter is gone, because it died or because it has recorded, what is recorded never changes: a meter
      that died first records nothing, and nothing is recorded twice. */
  lemma {:induction false} GoneMeterIsFinal(steps: seq<PipeStep>, k: nat, m: Setup)
    requires k <= |steps| && !PipeExec(steps[..k], m).wire.listening
    ensures !PipeExec(steps, m).wire.listening
    ensures PipeExec(steps, m).recorded == PipeExec(steps[..k], m).recorded
  {
    if k == |steps| {
      assert steps[..k] == steps;
    } else {
      var init := steps[..|steps| - 1];
      assert init[..k] == steps[..k];
      GoneMeterIsFinal(init, k, m);
    }
  }

  /** The relay notices that the meter is gone with the next piece of data, and stops cloning for good. */
  lemma {:induction false} CloningEnds(t: Pipeline, text: string, step: PipeStep, m: Setup)
    requires !t.gone && !t.wire.listening
    ensures !PipeNext(t, Relay(Ready(Data(text))), m).wire.teeing
    ensures !t.wire.teeing ==> !PipeNext(t, step, m).wire.teeing
  {}

  /** A meter that dies before it has recorded leaves the request without a record in every continuation. */
  lemma {:induction false} DeadMeterRecordsNothing(steps: seq<PipeStep>, k: nat, m: Setup)
    requires k < |steps| && steps[k].MeterDies? && PipeExec(steps[..k], m).recorded.None?
    ensures PipeExec(steps, m).recorded.None?
  {
    assert steps[..k + 1][..k] == steps[..k];
    GoneMeterIsFinal(steps, k + 1, m);
  }

  /** Taking everything that is queued. */
  function Drain(n: nat): seq<PipeStep> {
    if n == 0 then [] else Drain(n - 1) + [Receive]
  }

  lemma {:induction false} PipeLast(steps: seq<PipeStep>, step: PipeStep, m: Setup)
    ensures PipeExec(steps + [step], m) == PipeNext(PipeExec(steps, m), step, m)
  {
    assert (steps + [step])[..|steps|] == steps;
  }

  lemma {:induction false} DrainTakes(steps: seq<PipeStep>, n: nat, m: Setup)
    requires PipeExec(steps, m).wire.listening && n <= |PipeExec(steps, m).wire.queue|
    ensures var t, u := PipeExec(steps, m), PipeExec(steps + Drain(n), m);
            u == t.(heard := t.heard + t.wire.queue[..n], wire := t.wire.(queue := t.wire.queue[n..]))
  {
    var t := PipeExec(steps, m);
    if n == 0 {
      assert steps + Drain(0) == steps;
      assert t.heard + t.wire.queue[..0] == t.heard && t.wire.queue[0..] == t.wire.queue;
    } else {
      DrainTakes(steps, n - 1, m);
      assert steps + Drain(n) == steps + Drain(n - 1) + [Receive];
      PipeLast(steps + Drain(n - 1), Receive, m);
      assert t.wire.queue[..n] == t.wire.queue[..n - 1] + [t.wire.queue[n - 1]];
      assert t.heard + t.wire.queue[..n - 1] + [t.wire.queue[n - 1]] == t.heard + t.wire.queue[..n];
    }
  }

  /** A meter that is alive can always come to record: when the body ends, taking what is queued is enough, and no
      more clones are lost on the way. */
  lemma {:induction false} LiveMeterCanRecord(steps: seq<PipeStep>, m: Setup)
    requires PipeExec(steps, m).wire.listening
    ensures var t := PipeExec(steps, m);
            var u := PipeExec(steps + [Hangup] + Drain(|t.wire.queue|) + [Record], m);
            u.recorded.Some? && u.upstream == t.upstream && u.lost == t.lost
  {
    var n := |PipeExec(steps, m).wire.queue|;
    PipeLast(steps, Hangup, m);
    DrainTakes(steps + [Hangup], n, m);
    PipeLast(steps + [Hangup] + Drain(n), Record, m);
  }

  /** Nothing is lost, cloning is on, and the meter stops listening only to record. */
  predicate Lossless(t: Pipeline) {
    t.lost == 0 && t.wire.teeing && (t.wire.listening || (t.gone && t.recorded.Some?))
  }

  lemma TextsGrow(t: Pipeline, step: PipeStep, m: Setup)
    ensures |Texts(t.upstream)| <= |Texts(PipeNext(t, step, m).upstream)|
  {
    if step.Relay? && !t.gone && step.inner.Ready? {
      assert PipeNext(t, step, m).upstream[..|t.upstream|] == t.upstream;
    }
  }

  lemma RoomForRelay(t: Pipeline, inner: Poll, m: Setup)
    requires Faithful(t) && Lossless(t) && |Texts(PipeNext(t, Relay(inner), m).upstream)| <= TEE_CAPACITY
    ensures Lossless(PipeNext(t, Relay(inner), m))
  {
    if !t.gone && inner.Ready? && inner.frame.Data? {
      assert (t.upstream + [inner.frame])[..|t.upstream|] == t.upstream;
      assert |t.wire.queue| < TEE_CAPACITY;
    }
  }

  /** A body of at most as many data frames as the channel holds loses nothing, whatever the schedule, as long
      as the meter lives. */
  lemma {:induction false} SmallBodiesLoseNothing(steps: seq<PipeStep>, m: Setup)
    requires forall i :: 0 <= i < |steps| ==> !steps[i].MeterDies?
    requires |Texts(PipeExec(steps, m).upstream)| <= TEE_CAPACITY
    ensures Lossless(PipeExec(steps, m))
  {
    if steps != [] {
      var init, last := steps[..|steps| - 1], steps[|steps| - 1];
      TextsGrow(PipeExec(init, m), last, m);
      SmallBodiesLoseNothing(init, m);
      if last.Relay? {
        RunFaithful(init, m);
        RoomForRelay(PipeExec(init, m), last.inner, m);
      }
    }
  }
}
