/**
 The session lock and redraw scheduling of `Niri` as a state machine over a changing set of
 outputs: lock requests, lock surfaces, the one-second deadline, redraws with an arbitrary backend
 result, output hotplug and monitor power.

 `State` carries, next to the compositor's own fields, a history that no operation reads: what
 every output shows, and what became of every lock request.
 */
module SessionLock {
  import opened Options

  type OutputId = nat
  type Token = nat
  type Locker = nat

  datatype RedrawState =
    | Idle
    | Queued
    | WaitingForVBlank(redrawNeeded: bool)
    | WaitingForEstimatedVBlank(token: Token)
    | WaitingForEstimatedVBlankAndQueued(token: Token)

  datatype LockState =
    | Unlocked
    | WaitingForSurfaces(confirmation: Locker, deadlineToken: Token)
    | Locking(confirmation: Locker)
    | Locked(lock: Locker)

  datatype LockRenderState = RenderedUnlocked | RenderedLocked

  datatype RenderResult = Submitted | NoDamage | Skipped

  /** What a backend did with one output: its verdict, whether the output really shows the new frame
      (a verdict other than `Skipped` does not say so), and the redraw state it left behind. */
  datatype RenderOutcome = RenderOutcome(result: RenderResult, drawn: bool, left: RedrawState)

  /** What an output shows. A connected output that was never drawn shows `Blank`. */
  datatype Frame = Blank | SessionFrame | LockFrame

  /** A lock surface exists (`surface` is `Some`) and may have a buffer (`Some(true)`). A screen
      transition covers whatever is drawn by a snapshot of the session. */
  datatype OutputState = OutputState(
    redraw: RedrawState,
    lockRender: LockRenderState,
    surface: Option<bool>,
    transition: bool)

  datatype State = State(
    lock: LockState,
    outputs: map<OutputId, OutputState>,
    timers: set<Token>,
    nextToken: Token,
    monitorsActive: bool,
    // Whether the backend takes the picture off an output when the monitors are powered off.
    powerOffBlanks: bool,
    // History.
    shown: map<OutputId, Frame>,
    issued: set<Locker>,
    confirmed: seq<Locker>,
    dropped: set<Locker>)

  function Initial(powerOffBlanks: bool): State {
    State(Unlocked, map[], {}, 0, true, powerOffBlanks, map[], {}, [], {})
  }

  // ----- Pieces of the transitions -----

  predicate IsLocked(lock: LockState) {
    lock.Locking? || lock.Locked?
  }

  function QueueRedraw(r: RedrawState): RedrawState {
    match r
    case Idle => Queued
    case WaitingForEstimatedVBlank(token) => WaitingForEstimatedVBlankAndQueued(token)
    case Queued => r
    case WaitingForEstimatedVBlankAndQueued(_) => r
    case WaitingForVBlank(_) => WaitingForVBlank(true)
  }

  /** The redraw loop picks up exactly these outputs. */
  predicate IsQueued(r: RedrawState) {
    r.Queued? || r.WaitingForEstimatedVBlankAndQueued?
  }

  /** A redraw will happen without anybody asking again. */
  predicate IsPending(r: RedrawState) {
    IsQueued(r) || r == WaitingForVBlank(true)
  }

  predicate AllRenderedLocked(outputs: map<OutputId, OutputState>) {
    forall o | o in outputs :: outputs[o].lockRender.RenderedLocked?
  }

  predicate AllSurfacesReady(outputs: map<OutputId, OutputState>) {
    forall o | o in outputs :: outputs[o].surface == Some(true)
  }

  function QueueSome(outputs: map<OutputId, OutputState>, which: set<OutputId>)
    : map<OutputId, OutputState>
  {
    map o | o in outputs ::
      if o in which then outputs[o].(redraw := QueueRedraw(outputs[o].redraw)) else outputs[o]
  }

  function QueueAll(outputs: map<OutputId, OutputState>): map<OutputId, OutputState> {
    map o | o in outputs :: outputs[o].(redraw := QueueRedraw(outputs[o].redraw))
  }

  function ForgetSurfaces(outputs: map<OutputId, OutputState>): map<OutputId, OutputState> {
    map o | o in outputs :: outputs[o].(surface := None)
  }

  function SetTransitions(outputs: map<OutputId, OutputState>, which: set<OutputId>, running: bool)
    : map<OutputId, OutputState>
  {
    map o | o in outputs ::
      if o in which then outputs[o].(transition := running) else outputs[o]
  }

  /** What a drawn output shows. */
  function FrameFor(lock: LockState, transition: bool): Frame {
    if IsLocked(lock) && !transition then LockFrame else SessionFrame
  }

  /** The requests whose fate is not decided yet. */
  function Held(lock: LockState): set<Locker> {
    match lock
    case WaitingForSurfaces(c, _) => {c}
    case Locking(c) => {c}
    case _ => {}
  }

  /** Sends the `locked` event for `c`. */
  function Confirm(s: State, c: Locker): State {
    s.(lock := Locked(c), confirmed := s.confirmed + [c])
  }

  // ----- Transitions -----

  function LockRequest(s: State, c: Locker, holderAlive: bool): State {
    var s := s.(issued := s.issued + {c});
    match s.lock
    case WaitingForSurfaces(_, _) => s.(dropped := s.dropped + {c})
    case Locking(_) => s.(dropped := s.dropped + {c})
    case Locked(_) => if holderAlive then s.(dropped := s.dropped + {c}) else Confirm(s, c)
    case Unlocked =>
      if s.outputs == map[] then Confirm(s, c)
      else
        s.(timers := s.timers + {s.nextToken},
           nextToken := s.nextToken + 1,
           lock := WaitingForSurfaces(c, s.nextToken))
  }

  function ContinueToLocking(s: State): State {
    match s.lock
    case WaitingForSurfaces(c, token) =>
      var s := s.(timers := s.timers - {token});
      if s.outputs == map[] then Confirm(s, c)
      else s.(lock := Locking(c), outputs := QueueAll(s.outputs))
    case _ => s
  }

  function MaybeContinueToLocking(s: State): State {
    if s.lock.WaitingForSurfaces? && AllSurfacesReady(s.outputs) then ContinueToLocking(s) else s
  }

  /** A timer that fires is removed from the event loop whatever its callback does. */
  function DeadlineExpired(s: State, token: Token): State {
    var s := ContinueToLocking(s);
    s.(timers := s.timers - {token})
  }

  function Unlock(s: State): State {
    s.(lock := Unlocked,
       timers := if s.lock.WaitingForSurfaces? then s.timers - {s.lock.deadlineToken} else s.timers,
       outputs := QueueAll(ForgetSurfaces(s.outputs)),
       dropped := s.dropped + Held(s.lock))
  }

  /** Confirms a `Locking` session if nothing is missing any more. */
  function CheckAllLocked(s: State): State {
    if s.lock.Locking? && AllRenderedLocked(s.outputs) then Confirm(s, s.lock.confirmation) else s
  }

  function RedrawAfter(res: RenderResult, left: RedrawState): RedrawState {
    if res.Skipped? && (left.WaitingForEstimatedVBlank? || left.WaitingForEstimatedVBlankAndQueued?)
    then WaitingForEstimatedVBlank(left.token)
    else Idle
  }

  /** Rendering itself: the output's redraw and lock render state, and what it shows. Without active
      monitors nothing is rendered, and the output counts as showing whatever the lock asks for. */
  function Drawn(s: State, o: OutputId, r: RenderOutcome): State
    requires o in s.outputs
  {
    var before := s.outputs[o];
    var res := if s.monitorsActive then r.result else Skipped;
    var left := if s.monitorsActive then r.left else before.redraw;
    var lockRender :=
      if res.Skipped? && s.monitorsActive then before.lockRender
      else if IsLocked(s.lock) then RenderedLocked
      else RenderedUnlocked;
    var shown :=
      if res.Skipped? || !r.drawn then s.shown
      else s.shown[o := FrameFor(s.lock, before.transition)];
    s.(outputs := s.outputs[o := before.(redraw := RedrawAfter(res, left), lockRender := lockRender)],
       shown := shown)
  }

  function Redraw(s: State, o: OutputId, r: RenderOutcome): State
    requires o in s.outputs
  {
    var s := Drawn(s, o, r);
    if s.lock.Locking? && s.outputs[o].lockRender.RenderedUnlocked? then Unlock(s)
    else CheckAllLocked(s)
  }

  /** `moved` are the other outputs that the repositioning put elsewhere. */
  function AddOutput(s: State, o: OutputId, moved: set<OutputId>): State {
    var lockRender := if IsLocked(s.lock) then RenderedLocked else RenderedUnlocked;
    s.(outputs := QueueSome(s.outputs[o := OutputState(Idle, lockRender, None, false)], moved + {o}),
       shown := s.shown[o := Blank])
  }

  /** `redrawAll`: the screenshot UI or the window switcher was open and had to be closed. */
  function RemoveOutput(s: State, o: OutputId, moved: set<OutputId>, redrawAll: bool): State {
    var s := s.(outputs := QueueSome(s.outputs, moved) - {o}, shown := s.shown - {o});
    var s := if s.lock.Locking? then CheckAllLocked(s) else MaybeContinueToLocking(s);
    if redrawAll then s.(outputs := QueueAll(s.outputs)) else s
  }

  function NewLockSurface(s: State, o: OutputId, sameClient: bool): State {
    if s.lock.Unlocked? || !sameClient || o !in s.outputs then s
    else s.(outputs := s.outputs[o := s.outputs[o].(surface := Some(false))])
  }

  /** A commit to the lock surface of `o`; `mapped` says whether it has a buffer now. */
  function CommitLockSurface(s: State, o: OutputId, mapped: bool): State
    requires o in s.outputs
  {
    var s := s.(outputs := s.outputs[o := s.outputs[o].(surface := Some(mapped))]);
    if s.lock.WaitingForSurfaces? then MaybeContinueToLocking(s)
    else s.(outputs := QueueSome(s.outputs, {o}))
  }

  /** The surface lost its buffer without a commit. */
  function LockSurfaceUnmapped(s: State, o: OutputId): State
    requires o in s.outputs
  {
    s.(outputs := s.outputs[o := s.outputs[o].(surface := Some(false))])
  }

  function PowerOff(s: State): State {
    if !s.monitorsActive then s
    else s.(monitorsActive := false,
            shown := if s.powerOffBlanks then map o | o in s.shown :: Blank else s.shown)
  }

  function PowerOn(s: State): State {
    if s.monitorsActive then s
    else s.(monitorsActive := true, outputs := QueueAll(s.outputs))
  }

  // ----- Runs -----

  datatype Event =
    | ELock(c: Locker, holderAlive: bool)
    | EUnlock
    | ENewSurface(o: OutputId, sameClient: bool)
    | ECommit(o: OutputId, mapped: bool)
    | EUnmapped(o: OutputId)
    | EDeadline(token: Token)
    | EAdd(o: OutputId, moved: set<OutputId>)
    | ERemove(o: OutputId, moved: set<OutputId>, redrawAll: bool)
    | EPowerOff
    | EPowerOn
    | EQueue(which: set<OutputId>)
    | ETransition(which: set<OutputId>)
    | ETransitionsDone(which: set<OutputId>)
    | ERedraw(o: OutputId, outcome: RenderOutcome)

  /** What the world can do: every lock request is new, a timer fires only while it is live, an
      output is added when absent and removed when present, `redraw` is called on queued outputs, and
      a screen transition cannot be asked for while the session is locked. */
  predicate Enabled(s: State, e: Event) {
    match e
    case ELock(c, _) => c !in s.issued
    case ECommit(o, _) => o in s.outputs && s.outputs[o].surface.Some?
    case EUnmapped(o) => o in s.outputs && s.outputs[o].surface.Some?
    case EDeadline(token) => token in s.timers
    case EAdd(o, _) => o !in s.outputs
    case ERemove(o, _, _) => o in s.outputs
    case ERedraw(o, _) => o in s.outputs && IsQueued(s.outputs[o].redraw)
    case ETransition(_) => !IsLocked(s.lock)
    case _ => true
  }

  function Step(s: State, e: Event): State
    requires Enabled(s, e)
  {
    match e
    case ELock(c, alive) => LockRequest(s, c, alive)
    case EUnlock => PowerOn(Unlock(s))
    case ENewSurface(o, same) => NewLockSurface(s, o, same)
    case ECommit(o, mapped) => CommitLockSurface(s, o, mapped)
    case EUnmapped(o) => LockSurfaceUnmapped(s, o)
    case EDeadline(token) => DeadlineExpired(s, token)
    case EAdd(o, moved) => AddOutput(s, o, moved)
    case ERemove(o, moved, all) => RemoveOutput(s, o, moved, all)
    case EPowerOff => PowerOff(s)
    case EPowerOn => PowerOn(s)
    case EQueue(which) => s.(outputs := QueueSome(s.outputs, which))
    case ETransition(which) => s.(outputs := SetTransitions(s.outputs, which, true))
    case ETransitionsDone(which) => s.(outputs := SetTransitions(s.outputs, which, false))
    case ERedraw(o, outcome) => Redraw(s, o, outcome)
  }

  /** `trace` can happen from `s`. */
  ghost predicate Possible(s: State, trace: seq<Event>)
    decreases |trace|
  {
    trace == [] || (Enabled(s, trace[0]) && Possible(Step(s, trace[0]), trace[1..]))
  }

  ghost function Run(s: State, trace: seq<Event>): State
    requires Possible(s, trace)
    decreases |trace|
  {
    if trace == [] then s else Run(Step(s, trace[0]), trace[1..])
  }
}
