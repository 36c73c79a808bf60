/**
 The screencast buffer pipeline: frames are rendered into buffers, wait for their fences in order,
 and are queued to PipeWire from the event-loop sources that watch the fences.
 */
module CastPipeline {
  import opened Options
  import opened History

  type Buffer = nat
  /** Frames are numbered from 1 in the order in which they are rendered. */
  type Frame = nat

  datatype Entry = Entry(buffer: Buffer, frame: Frame)

  /** What PipeWire receives: a good frame or, after a failed render, a buffer marked corrupted. */
  datatype Submission = Good(frame: Frame) | Corrupted

  datatype State = State(
    frames: nat,
    rendering: seq<Entry>,
    // Frames with an event-loop source that has not fired.
    sources: set<Frame>,
    // Frames whose fence is signalled.
    reached: set<Frame>,
    submitted: seq<Submission>,
    // Frames whose buffer was taken away while rendering.
    removed: set<Frame>)

  const INITIAL := State(0, [], {}, {}, [], {})

  /** The number of leading entries whose rendering is complete. */
  function Completed(rendering: seq<Entry>, reached: set<Frame>): (n: nat)
    ensures n <= |rendering|
    ensures forall i | 0 <= i < n :: rendering[i].frame in reached
    ensures n < |rendering| ==> rendering[n].frame !in reached
  {
    if rendering == [] || rendering[0].frame !in reached then 0
    else 1 + Completed(rendering[1..], reached)
  }

  function GoodOnes(entries: seq<Entry>): (r: seq<Submission>)
    ensures |r| == |entries|
    ensures forall i | 0 <= i < |r| :: r[i] == Good(entries[i].frame)
  {
    seq(|entries|, i requires 0 <= i < |entries| => Good(entries[i].frame))
  }

  function QueueCompleted(s: State): State {
    var n := Completed(s.rendering, s.reached);
    s.(rendering := s.rendering[n..], submitted := s.submitted + GoodOnes(s.rendering[..n]))
  }

  /** A successful render whose fence could (`exported`) or could not be exported as a file
      descriptor; in the latter case the frame counts as complete. */
  function Rendered(s: State, buffer: Buffer, exported: bool): State {
    var frame := s.frames + 1;
    var s := s.(frames := frame, rendering := s.rendering + [Entry(buffer, frame)]);
    if exported then s.(sources := s.sources + {frame})
    else QueueCompleted(s.(reached := s.reached + {frame}))
  }

  function Fired(s: State, frame: Frame): State {
    QueueCompleted(s.(sources := s.sources - {frame}))
  }

  function Retain(rendering: seq<Entry>, buffer: Buffer): seq<Entry> {
    if rendering == [] then []
    else
      var n := |rendering| - 1;
      Retain(rendering[..n], buffer) + if rendering[n].buffer == buffer then [] else [rendering[n]]
  }

  function Dropped(rendering: seq<Entry>, buffer: Buffer): set<Frame> {
    set e | e in rendering && e.buffer == buffer :: e.frame
  }

  function RemoveBuffer(s: State, buffer: Buffer): State {
    s.(rendering := Retain(s.rendering, buffer),
       removed := s.removed + Dropped(s.rendering, buffer))
  }

  datatype Event =
    | Render(buffer: Buffer, exported: bool)
    | RenderFailed
    | Signal(frame: Frame)
    | Fire(frame: Frame)
    | Remove(buffer: Buffer)

  /** A fence is signalled once its frame has been rendered; a one-shot source fires once, and not
      before its fence is signalled. */
  predicate Enabled(s: State, e: Event) {
    match e
    case Signal(frame) => 1 <= frame <= s.frames
    case Fire(frame) => frame in s.sources && frame in s.reached
    case _ => true
  }

  function Step(s: State, e: Event): State
    requires Enabled(s, e)
  {
    match e
    case Render(buffer, exported) => Rendered(s, buffer, exported)
    case RenderFailed => s.(submitted := s.submitted + [Corrupted])
    case Signal(frame) => s.(reached := s.reached + {frame})
    case Fire(frame) => Fired(s, frame)
    case Remove(buffer) => RemoveBuffer(s, buffer)
  }

  ghost predicate Possible(s: State, trace: seq<Event>)
    decreases |trace|
  {
    trace == [] || (Enabled(s, trace[0]) && Possible(Step(s, trace[0]), trace[1..]))
  }

  ghost function Run(s: State, trace: seq<Event>): State
    requires Possible(s, trace)
    decreases |trace|
  {
    if trace == [] then s else Run(Step(s, trace[0]), trace[1..])
  }

  // ----- The invariant -----

  ghost predicate Increasing(rendering: seq<Entry>) {
    forall i, j | 0 <= i < j < |rendering| :: rendering[i].frame < rendering[j].frame
  }

  /** Good frames were submitted in order, and before everything still waiting. */
  ghost predicate Ordered(s: State) {
    && (forall i, j | 0 <= i < j < |s.submitted| && s.submitted[i].Good? && s.submitted[j].Good? ::
          s.submitted[i].frame < s.submitted[j].frame)
    && (forall i, j | 0 <= i < |s.submitted| && s.submitted[i].Good? && 0 <= j < |s.rendering| ::
          s.submitted[i].frame < s.rendering[j].frame)
    && Increasing(s.rendering)
  }

  /** A frame that is not complete still has its own source, and every waiting frame has a pending
      source that is at least as old, possibly of a frame that has since been removed. */
  ghost predicate Watched(s: State) {
    && (forall i | 0 <= i < |s.rendering| && s.rendering[i].frame !in s.reached ::
          s.rendering[i].frame in s.sources)
    && (forall i | 0 <= i < |s.rendering| ::
          SourceUpTo(s.sources, s.rendering[i].frame))
  }

  ghost predicate SourceUpTo(sources: set<Frame>, frame: Frame) {
    exists f :: f in sources && f <= frame
  }

  ghost function Waiting(rendering: seq<Entry>): set<Frame> {
    set e | e in rendering :: e.frame
  }

  ghost function Delivered(submitted: seq<Submission>): set<Frame> {
    set x | x in submitted && x.Good? :: x.frame
  }

  ghost function AllFrames(n: nat): (r: set<Frame>)
    ensures forall f :: f in r <==> 1 <= f <= n
  {
    if n == 0 then {} else AllFrames(n - 1) + {n}
  }

  /** Every rendered frame is delivered, waiting or removed, and never two of these. */
  ghost predicate Conserved(s: State) {
    && AllFrames(s.frames) == Delivered(s.submitted) + Waiting(s.rendering) + s.removed
    && Delivered(s.submitted) !! Waiting(s.rendering) !! s.removed
  }

  /** Only frames whose fence is signalled, or could not be exported, were submitted as good. */
  ghost predicate CompletedOnly(s: State) {
    Delivered(s.submitted) <= s.reached
  }

  ghost predicate Invariant(s: State) {
    Ordered(s) && Watched(s) && Conserved(s) && CompletedOnly(s)
  }

  // ----- One step -----

  lemma QueueKeepsConserved(s: State)
    requires Ordered(s) && Conserved(s)
    ensures Conserved(QueueCompleted(s))
  {}

  lemma QueueKeepsCompleted(s: State)
    requires CompletedOnly(s)
    ensures CompletedOnly(QueueCompleted(s))
  {
    var n := Completed(s.rendering, s.reached);
    forall f | f in Delivered(QueueCompleted(s).submitted) ensures f in s.reached {
      if f !in Delivered(s.submitted) {
        var i :| 0 <= i < n && GoodOnes(s.rendering[..n])[i] == Good(f);
      }
    }
  }

  lemma QueueKeepsOrdered(s: State)
    requires Ordered(s)
    ensures Ordered(QueueCompleted(s))
  {}

  /** After queueing, the oldest waiting frame is not complete, so its own source watches it and
      everything behind it. */
  lemma QueueKeepsWatched(s: State)
    requires Ordered(s)
    requires forall i | 0 <= i < |s.rendering| && s.rendering[i].frame !in s.reached ::
               s.rendering[i].frame in s.sources
    ensures Watched(QueueCompleted(s))
  {}

  lemma PushConserved(s: State, e: Entry)
    requires Conserved(s) && e.frame == s.frames + 1
    ensures Conserved(s.(frames := s.frames + 1, rendering := s.rendering + [e]))
    ensures forall f | f in Waiting(s.rendering) || f in Delivered(s.submitted) :: f <= s.frames
  {}

  lemma PushOrdered(s: State, e: Entry)
    requires Ordered(s) && Conserved(s) && e.frame == s.frames + 1
    ensures Ordered(s.(frames := s.frames + 1, rendering := s.rendering + [e]))
  {
    PushConserved(s, e);
    forall j | 0 <= j < |s.rendering| ensures s.rendering[j].frame <= s.frames {
      assert s.rendering[j] in s.rendering && s.rendering[j].frame in Waiting(s.rendering);
    }
    forall i | 0 <= i < |s.submitted| && s.submitted[i].Good?
      ensures s.submitted[i].frame <= s.frames
    {
      assert s.submitted[i] in s.submitted && s.submitted[i].frame in Delivered(s.submitted);
    }
  }

  lemma PushWatched(s: State, e: Entry)
    requires Watched(s)
    ensures Watched(s.(rendering := s.rendering + [e], sources := s.sources + {e.frame}))
  {}

  lemma ExportedKeeps(s: State, e: Entry)
    requires Invariant(s) && e.frame == s.frames + 1
    ensures Invariant(s.(frames := e.frame, rendering := s.rendering + [e],
                         sources := s.sources + {e.frame}))
  {
    var s1 := s.(frames := e.frame, rendering := s.rendering + [e]);
    var s2 := s1.(sources := s.sources + {e.frame});
    PushConserved(s, e);
    PushOrdered(s, e);
    PushWatched(s, e);
    assert Conserved(s1) && Ordered(s1);
    assert Conserved(s2) && Ordered(s2);
    assert Watched(s2);
  }

  lemma SignalledKeeps(s: State, e: Entry)
    requires Invariant(s) && e.frame == s.frames + 1
    ensures Invariant(QueueCompleted(
              s.(frames := e.frame, rendering := s.rendering + [e], reached := s.reached + {e.frame})))
  {
    var s1 := s.(frames := e.frame, rendering := s.rendering + [e]);
    PushConserved(s, e);
    PushOrdered(s, e);
    assert Conserved(s1) && Ordered(s1);
    QueueKeeps(s1.(reached := s.reached + {e.frame}));
  }

  lemma RenderedKeeps(s: State, buffer: Buffer, exported: bool)
    requires Invariant(s)
    ensures Invariant(Rendered(s, buffer, exported))
  {
    var e := Entry(buffer, s.frames + 1);
    var s1 := s.(frames := e.frame, rendering := s.rendering + [e]);
    var after := Rendered(s, buffer, exported);
    if exported {
      assert after == s1.(sources := s.sources + {e.frame});
      ExportedKeeps(s, e);
    } else {
      assert after == QueueCompleted(s1.(reached := s.reached + {e.frame}));
      SignalledKeeps(s, e);
    }
    assert Invariant(after);
  }

  lemma QueueKeeps(s: State)
    requires Ordered(s) && Conserved(s) && CompletedOnly(s)
    requires forall i | 0 <= i < |s.rendering| && s.rendering[i].frame !in s.reached ::
               s.rendering[i].frame in s.sources
    ensures Invariant(QueueCompleted(s))
  {
    QueueKeepsCompleted(s);
    QueueKeepsConserved(s);
    QueueKeepsOrdered(s);
    QueueKeepsWatched(s);
  }

  lemma FiredKeeps(s: State, frame: Frame)
    requires Invariant(s) && frame in s.reached
    ensures Invariant(Fired(s, frame))
  {
    var s1 := s.(sources := s.sources - {frame});
    QueueKeeps(s1);
  }

  /** Retaining keeps a subsequence: where each kept entry was, in order. */
  lemma {:induction false} RetainIsSubsequence(rendering: seq<Entry>, buffer: Buffer)
    requires Increasing(rendering)
    ensures Increasing(Retain(rendering, buffer))
    ensures forall e :: e in Retain(rendering, buffer) <==> e in rendering && e.buffer != buffer
  {
    if rendering != [] {
      var n := |rendering| - 1;
      RetainIsSubsequence(rendering[..n], buffer);
      assert rendering == rendering[..n] + [rendering[n]];
      var kept := Retain(rendering[..n], buffer);
      forall e | e in kept ensures e.frame < rendering[n].frame {
        assert e in rendering[..n];
        var i :| 0 <= i < n && rendering[i] == e;
      }
    }
  }

  lemma RemoveKeeps(s: State, buffer: Buffer)
    requires Invariant(s)
    ensures Invariant(RemoveBuffer(s, buffer))
  {
    var s' := RemoveBuffer(s, buffer);
    RetainIsSubsequence(s.rendering, buffer);
    forall i | 0 <= i < |s'.rendering|
      ensures exists j :: 0 <= j < |s.rendering| && s.rendering[j] == s'.rendering[i]
    {
      assert s'.rendering[i] in s.rendering;
    }
    SplitByBuffer(s.rendering, buffer);
  }

  lemma SplitByBuffer(rendering: seq<Entry>, buffer: Buffer)
    requires Increasing(rendering)
    ensures Waiting(rendering) == Waiting(Retain(rendering, buffer)) + Dropped(rendering, buffer)
    ensures Waiting(Retain(rendering, buffer)) !! Dropped(rendering, buffer)
  {
    RetainIsSubsequence(rendering, buffer);
    forall a, b | a in rendering && b in rendering && a.frame == b.frame ensures a == b {
      var i :| 0 <= i < |rendering| && rendering[i] == a;
      var j :| 0 <= j < |rendering| && rendering[j] == b;
    }
  }

  lemma StepKeeps(s: State, e: Event)
    requires Invariant(s) && Enabled(s, e)
    ensures Invariant(Step(s, e))
  {
    match e
    case Render(buffer, exported) => RenderedKeeps(s, buffer, exported);
    case RenderFailed =>
      assert Delivered(s.submitted + [Corrupted]) == Delivered(s.submitted) by {
        forall f | f in Delivered(s.submitted) ensures f in Delivered(s.submitted + [Corrupted]) {
          var x :| x in s.submitted && x.Good? && x.frame == f;
          assert x in s.submitted + [Corrupted];
        }
      }
    case Signal(frame) =>
    case Fire(frame) => FiredKeeps(s, frame);
    case Remove(buffer) => RemoveKeeps(s, buffer);
  }

  lemma {:induction false} RunKeeps(s: State, trace: seq<Event>)
    requires Invariant(s) && Possible(s, trace)
    ensures Invariant(Run(s, trace))
    decreases |trace|
  {
    if trace != [] {
      StepKeeps(s, trace[0]);
      RunKeeps(Step(s, trace[0]), trace[1..]);
    }
  }

  // ----- Whole runs -----

  /** Good frames reach PipeWire in the order in which they were rendered, each at most once and not
      before it is complete; every frame that did not either waits or had its buffer taken away. */
  lemma DeliveryInOrder(trace: seq<Event>)
    requires Possible(INITIAL, trace)
    ensures
      var s := Run(INITIAL, trace);
      && (forall i, j | 0 <= i < j < |s.submitted| && s.submitted[i].Good? && s.submitted[j].Good? ::
            s.submitted[i].frame < s.submitted[j].frame)
      && Delivered(s.submitted) <= s.reached
      && (forall f | 1 <= f <= s.frames ::
            f in Delivered(s.submitted) || f in Waiting(s.rendering) || f in s.removed)
  {
    RunKeeps(INITIAL, trace);
    var s := Run(INITIAL, trace);
    forall f | 1 <= f <= s.frames
      ensures f in Delivered(s.submitted) || f in Waiting(s.rendering) || f in s.removed
    {
      assert f in AllFrames(s.frames);
    }
  }

  /** The pipeline never sticks: as long as a frame waits, some source is still to fire, buffers being
      removed in between or not. */
  lemma NeverStuck(trace: seq<Event>)
    requires Possible(INITIAL, trace)
    ensures Run(INITIAL, trace).sources == {} ==> Run(INITIAL, trace).rendering == []
    ensures Run(INITIAL, trace).rendering != [] ==>
              SourceUpTo(Run(INITIAL, trace).sources, Run(INITIAL, trace).rendering[0].frame)
  {
    RunKeeps(INITIAL, trace);
    var s := Run(INITIAL, trace);
    assert s.rendering != [] ==> SourceUpTo(s.sources, s.rendering[0].frame);
  }

  // ----- Buffers -----

  /** The buffers rendered into, in order, after those in `past`. */
  ghost function Rendering(past: seq<Buffer>, trace: seq<Event>): seq<Buffer>
    decreases |trace|
  {
    if trace == [] then past else Rendering(past + RenderedInto(trace[0]), trace[1..])
  }

  ghost function RenderedInto(e: Event): seq<Buffer> {
    if e.Render? then [e.buffer] else []
  }

  ghost function Failures(trace: seq<Event>): nat {
    if trace == [] then 0 else Failed(trace[0]) + Failures(trace[1..])
  }

  ghost function Failed(e: Event): nat {
    if e.RenderFailed? then 1 else 0
  }

  ghost function Corruptions(submitted: seq<Submission>): nat {
    if submitted == [] then 0
    else
      Corruptions(submitted[..|submitted| - 1])
      + if submitted[|submitted| - 1].Corrupted? then 1 else 0
  }

  lemma {:induction false} GoodNotCorrupted(submitted: seq<Submission>, entries: seq<Entry>)
    ensures Corruptions(submitted + GoodOnes(entries)) == Corruptions(submitted)
    decreases |entries|
  {
    if entries == [] {
      assert submitted + GoodOnes(entries) == submitted;
    } else {
      var n := |entries| - 1;
      GoodNotCorrupted(submitted, entries[..n]);
      var longer := submitted + GoodOnes(entries);
      assert longer[..|longer| - 1] == submitted + GoodOnes(entries[..n]);
    }
  }

  lemma QueueCorruptsNothing(s: State)
    ensures Corruptions(QueueCompleted(s).submitted) == Corruptions(s.submitted)
  {
    GoodNotCorrupted(s.submitted, s.rendering[..Completed(s.rendering, s.reached)]);
  }

  lemma StepCorrupts(s: State, e: Event)
    requires Enabled(s, e)
    ensures Corruptions(Step(s, e).submitted) == Corruptions(s.submitted) + Failed(e)
  {
    match e
    case Render(buffer, exported) =>
      var frame := s.frames + 1;
      QueueCorruptsNothing(s.(frames := frame, rendering := s.rendering + [Entry(buffer, frame)],
                              reached := s.reached + {frame}));
    case RenderFailed => assert (s.submitted + [Corrupted])[..|s.submitted|] == s.submitted;
    case Fire(frame) => QueueCorruptsNothing(s.(sources := s.sources - {frame}));
    case _ =>
  }

  /** Every waiting frame is in the buffer it was rendered into; `past` are the buffers rendered into
      so far. */
  ghost predicate InItsBuffer(s: State, past: seq<Buffer>) {
    s.frames == |past| &&
    forall i | 0 <= i < |s.rendering| ::
      1 <= s.rendering[i].frame <= |past| && s.rendering[i].buffer == past[s.rendering[i].frame - 1]
  }

  lemma QueueInBuffer(s: State, past: seq<Buffer>)
    requires InItsBuffer(s, past)
    ensures InItsBuffer(QueueCompleted(s), past)
  {}

  lemma RetainInBuffer(s: State, buffer: Buffer, past: seq<Buffer>)
    requires Increasing(s.rendering) && InItsBuffer(s, past)
    ensures InItsBuffer(RemoveBuffer(s, buffer), past)
  {
    var kept := Retain(s.rendering, buffer);
    RetainIsSubsequence(s.rendering, buffer);
    forall i | 0 <= i < |kept|
      ensures 1 <= kept[i].frame <= |past| && kept[i].buffer == past[kept[i].frame - 1]
    {
      assert kept[i] in s.rendering;
    }
  }

  lemma RenderInBuffer(s: State, buffer: Buffer, exported: bool, past: seq<Buffer>)
    requires InItsBuffer(s, past)
    ensures InItsBuffer(Rendered(s, buffer, exported), past + [buffer])
  {
    var frame := s.frames + 1;
    var s1 := s.(frames := frame, rendering := s.rendering + [Entry(buffer, frame)]);
    assert InItsBuffer(s1, past + [buffer]);
    QueueInBuffer(s1.(reached := s.reached + {frame}), past + [buffer]);
  }

  lemma StepInBuffer(s: State, e: Event, past: seq<Buffer>)
    requires Increasing(s.rendering) && InItsBuffer(s, past) && Enabled(s, e)
    ensures InItsBuffer(Step(s, e), past + RenderedInto(e))
  {
    assert past + [] == past;
    match e
    case Render(buffer, exported) => RenderInBuffer(s, buffer, exported, past);
    case Fire(frame) => QueueInBuffer(s.(sources := s.sources - {frame}), past);
    case Remove(buffer) => RetainInBuffer(s, buffer, past);
    case _ =>
  }

  lemma {:induction false} RunInBuffer(s: State, trace: seq<Event>, past: seq<Buffer>)
    requires Invariant(s) && InItsBuffer(s, past) && Possible(s, trace)
    ensures InItsBuffer(Run(s, trace), Rendering(past, trace))
    decreases |trace|
  {
    if trace != [] {
      StepKeeps(s, trace[0]);
      StepInBuffer(s, trace[0], past);
      RunInBuffer(Step(s, trace[0]), trace[1..], past + RenderedInto(trace[0]));
    }
  }

  lemma {:induction false} RunCorrupts(s: State, trace: seq<Event>)
    requires Possible(s, trace)
    ensures Corruptions(Run(s, trace).submitted) == Corruptions(s.submitted) + Failures(trace)
    decreases |trace|
  {
    if trace != [] {
      StepCorrupts(s, trace[0]);
      RunCorrupts(Step(s, trace[0]), trace[1..]);
    }
  }

  /** After any run: there are as many frames as successful renders, each waiting frame is in the buffer
      it was rendered into, and there are as many corrupted submissions as failed renders. */
  lemma FramesAsRendered(trace: seq<Event>)
    requires Possible(INITIAL, trace)
    ensures InItsBuffer(Run(INITIAL, trace), Rendering([], trace))
    ensures Corruptions(Run(INITIAL, trace).submitted) == Failures(trace)
  {
    RunInBuffer(INITIAL, trace, []);
    RunCorrupts(INITIAL, trace);
  }

  /** A frame is taken out exactly by removing the buffer in which it waits. */
  lemma RemovedExactly(s: State, e: Event, f: Frame)
    requires Invariant(s) && Enabled(s, e)
    ensures f in Step(s, e).removed <==>
            || f in s.removed
            || (e.Remove? && exists x | x in s.rendering :: x.frame == f && x.buffer == e.buffer)
  {}

  /** A source watches a frame from its render, if its fence could be exported, until it fires. */
  function WatchedSaid(s: State, e: Event, f: Frame): Option<bool> {
    match e
    case Render(_, exported) => if f == s.frames + 1 && exported then Some(true) else None
    case Fire(g) => if g == f then Some(false) else None
    case _ => None
  }

  /** A frame is complete once its fence is signalled, or at once if it could not be exported. */
  function ReachedSaid(s: State, e: Event, f: Frame): Option<bool> {
    match e
    case Render(_, exported) => if f == s.frames + 1 && !exported then Some(true) else None
    case Signal(g) => if g == f then Some(true) else None
    case _ => None
  }

  ghost function WatchedSays(s: State, trace: seq<Event>, f: Frame): seq<Option<bool>>
    requires Possible(s, trace)
    decreases |trace|
  {
    if trace == [] then []
    else [WatchedSaid(s, trace[0], f)] + WatchedSays(Step(s, trace[0]), trace[1..], f)
  }

  ghost function ReachedSays(s: State, trace: seq<Event>, f: Frame): seq<Option<bool>>
    requires Possible(s, trace)
    decreases |trace|
  {
    if trace == [] then []
    else [ReachedSaid(s, trace[0], f)] + ReachedSays(Step(s, trace[0]), trace[1..], f)
  }

  /** After any run, which frames are watched and which are complete is what the last event about each
      says. */
  lemma {:induction false} FencesAreAsSaid(s: State, trace: seq<Event>, f: Frame)
    requires Possible(s, trace)
    ensures Follows(f in s.sources, WatchedSays(s, trace, f), f in Run(s, trace).sources)
    ensures Follows(f in s.reached, ReachedSays(s, trace, f), f in Run(s, trace).reached)
    decreases |trace|
  {
    if trace != [] {
      var e, rest, s1 := trace[0], trace[1..], Step(s, trace[0]);
      FencesAreAsSaid(s1, rest, f);
      FollowsPrepend(f in s.sources, WatchedSaid(s, e, f), WatchedSays(s1, rest, f),
                     f in Run(s, trace).sources);
      FollowsPrepend(f in s.reached, ReachedSaid(s, e, f), ReachedSays(s1, rest, f),
                     f in Run(s, trace).reached);
    }
  }

  /** Whenever frames are queued, all that can be are: the oldest frame left is not complete. */
  lemma QueuesAllItCan(s: State, e: Event)
    requires Invariant(s) && Enabled(s, e)
    requires e.Fire? || (e.Render? && !e.exported)
    ensures Step(s, e).rendering == [] || Step(s, e).rendering[0].frame !in Step(s, e).reached
  {}

  // ----- The sequence number in the buffer header -----

  const U64: nat := 0x1_0000_0000_0000_0000

  /** The 64-bit counter stored with frame number `frame`. */
  function HeaderSeq(frame: Frame): nat {
    frame % U64
  }

  /** Of two frames less than 2^64 apart the later one has the larger header sequence number exactly
      when the counter did not wrap in between. */
  lemma HeaderSeqIncreases(a: Frame, b: Frame)
    requires a < b < a + U64
    ensures HeaderSeq(a) < HeaderSeq(b) <==> a / U64 == b / U64
  {
    assert a == U64 * (a / U64) + HeaderSeq(a);
    assert b == U64 * (b / U64) + HeaderSeq(b);
  }

  // ----- The cast object -----

  class Cast {
    var renderingBuffers: seq<Entry>
    var sequenceCounter: nat
    /** The environment: fences and event-loop sources. */
    var reached: set<Frame>
    var sources: set<Frame>
    ghost var frames: nat
    ghost var submitted: seq<Submission>
    ghost var removed: set<Frame>

    ghost function View(): State
      reads this
    {
      State(frames, renderingBuffers, sources, reached, submitted, removed)
    }

    ghost predicate Valid()
      reads this
    {
      Invariant(View()) && sequenceCounter == HeaderSeq(frames)
    }

    constructor ()
      ensures Valid() && View() == INITIAL
    {
      renderingBuffers, sequenceCounter, reached, sources := [], 0, {}, {};
      frames, submitted, removed := 0, [], {};
    }

    method QueueCompletedBuffers()
      modifies `renderingBuffers, `submitted
      ensures View() == QueueCompleted(old(View()))
    {
      var firstInProgress := 0;
      while firstInProgress < |renderingBuffers| &&
            renderingBuffers[firstInProgress].frame in reached
        invariant firstInProgress <= |renderingBuffers|
        invariant forall i | 0 <= i < firstInProgress :: renderingBuffers[i].frame in reached
      {
        firstInProgress := firstInProgress + 1;
      }
      CompletedIs(renderingBuffers, reached, firstInProgress);
      for i := 0 to firstInProgress
        invariant submitted == old(submitted) + GoodOnes(renderingBuffers[..i])
      {
        submitted := submitted + [Good(renderingBuffers[i].frame)];
        assert GoodOnes(renderingBuffers[..i + 1]) ==
               GoodOnes(renderingBuffers[..i]) + [Good(renderingBuffers[i].frame)];
      }
      renderingBuffers := renderingBuffers[firstInProgress..];
    }

    /** After a successful render into `buffer`, whose sync point is known by the number of the frame
        it belongs to. The returned value goes into the buffer's header. */
    method SubmitRendered(buffer: Buffer, sync: Frame, exported: bool) returns (header: nat)
      requires Valid() && sync == frames + 1
      modifies this
      ensures Valid() && View() == Step(old(View()), Render(buffer, exported))
      ensures header == HeaderSeq(frames)
    {
      ghost var before := View();
      header := MarkAndQueue(buffer, sync, exported);
      Kept(before, Render(buffer, exported));
    }

    method MarkAndQueue(buffer: Buffer, sync: Frame, exported: bool) returns (header: nat)
      requires sequenceCounter == HeaderSeq(frames) && sync == frames + 1
      modifies this
      ensures View() == Rendered(old(View()), buffer, exported)
      ensures header == sequenceCounter == HeaderSeq(frames)
    {
      header := MarkBufferAsGood();
      QueueAfterSync(buffer, sync, exported);
    }

    /** A transition of the pipeline keeps the object valid. */
    ghost method Kept(before: State, e: Event)
      requires Invariant(before) && Enabled(before, e) && View() == Step(before, e)
      requires sequenceCounter == HeaderSeq(frames)
      ensures Valid()
    {
      StepKeeps(before, e);
    }

    method MarkBufferAsGood() returns (header: nat)
      requires sequenceCounter == HeaderSeq(frames)
      modifies `sequenceCounter
      ensures sequenceCounter == header == HeaderSeq(frames + 1)
    {
      NextSeq(frames);
      sequenceCounter := (sequenceCounter + 1) % U64;
      header := sequenceCounter;
    }

    method QueueAfterSync(buffer: Buffer, sync: Frame, exported: bool)
      requires sync == frames + 1
      modifies `renderingBuffers, `reached, `sources, `submitted, `frames
      ensures View() == Rendered(old(View()), buffer, exported) && frames == sync
    {
      frames := sync;
      renderingBuffers := renderingBuffers + [Entry(buffer, sync)];
      if exported {
        sources := sources + {sync};
      } else {
        // Pre-signalled, or not exportable: treat it as signalled rather than get stuck.
        reached := reached + {sync};
        QueueCompletedBuffers();
      }
    }

    method OnSourceReady(frame: Frame)
      requires Valid() && Enabled(View(), Fire(frame))
      modifies this
      ensures Valid() && View() == Step(old(View()), Fire(frame))
    {
      ghost var before := View();
      sources := sources - {frame};
      QueueCompletedBuffers();
      Kept(before, Fire(frame));
    }

    method OnRemoveBuffer(buffer: Buffer)
      requires Valid()
      modifies this
      ensures Valid() && View() == Step(old(View()), Remove(buffer))
    {
      ghost var before := View();
      removed := removed + Dropped(renderingBuffers, buffer);
      var kept := [];
      for i := 0 to |renderingBuffers|
        invariant kept == Retain(renderingBuffers[..i], buffer)
      {
        assert renderingBuffers[..i + 1][..i] == renderingBuffers[..i];
        if renderingBuffers[i].buffer != buffer {
          kept := kept + [renderingBuffers[i]];
        }
      }
      assert renderingBuffers[..|renderingBuffers|] == renderingBuffers;
      renderingBuffers := kept;
      Kept(before, Remove(buffer));
    }
  }

  lemma NextSeq(n: nat)
    ensures HeaderSeq(n + 1) == (HeaderSeq(n) + 1) % U64
  {}

  lemma {:induction false} CompletedIs(rendering: seq<Entry>, reached: set<Frame>, n: nat)
    requires n <= |rendering| && forall i | 0 <= i < n :: rendering[i].frame in reached
    requires n < |rendering| ==> rendering[n].frame !in reached
    ensures Completed(rendering, reached) == n
  {}
}
