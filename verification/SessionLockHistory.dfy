/**
 The lock, field by field: which events change whose lock it is, what becomes of a request, when a
 wait for lock surfaces ends, and what the history of events says about every output.
 */
module SessionLockHistory {
  import opened Options
  import opened History
  import opened SessionLock
  import opened SessionLockTheorems

  // ----- Whose lock it is -----

  /** A held lock changes hands or ends exactly by an unlock request, or by a lock request that finds
      its holder dead. */
  lemma OwnerKeptExactly(s: State, e: Event)
    requires Invariant(s) && Enabled(s, e) && s.lock.Locked?
    ensures Step(s, e).lock == s.lock <==> !e.EUnlock? && !(e.ELock? && !e.holderAlive)
  {
    match e
    case ERemove(o, moved, all) => RemoveLocked(s, o, moved, all);
    case _ =>
  }

  lemma RemoveLocked(s: State, o: OutputId, moved: set<OutputId>, all: bool)
    requires s.lock.Locked?
    ensures RemoveOutput(s, o, moved, all).lock == s.lock
  {}

  ghost predicate KeepsOwner(e: Event) {
    !e.EUnlock? && !(e.ELock? && !e.holderAlive)
  }

  /** So the owner stays the same until then, whatever else happens. */
  lemma {:induction false} OwnerStays(s: State, trace: seq<Event>)
    requires Invariant(s) && Possible(s, trace) && s.lock.Locked?
    requires forall e | e in trace :: KeepsOwner(e)
    ensures Run(s, trace).lock == s.lock
    decreases |trace|
  {
    if trace != [] {
      assert trace[0] in trace;
      StepKeeps(s, trace[0]);
      OwnerKeptExactly(s, trace[0]);
      OwnerStays(Step(s, trace[0]), trace[1..]);
    }
  }

  // ----- What becomes of a request -----

  /** A new request is confirmed at once if it finds a dead holder, or no lock and no outputs; it waits
      for surfaces, with a timer of its own, if it finds no lock and some outputs; and it is refused
      otherwise. Nothing else changes. */
  lemma RequestFate(s: State, c: Locker, holderAlive: bool)
    requires Invariant(s) && c !in s.issued
    ensures
      var s' := Step(s, ELock(c, holderAlive));
      var atOnce := (s.lock.Locked? && !holderAlive) || (s.lock.Unlocked? && |s.outputs| == 0);
      var waits := s.lock.Unlocked? && |s.outputs| > 0;
      && (atOnce <==> c in s'.confirmed) && (atOnce <==> s'.lock == Locked(c))
      && (waits <==> c in Held(s'.lock)) && (waits <==> s'.lock != s.lock && s'.lock.WaitingForSurfaces?)
      && (waits ==> s'.lock.deadlineToken !in s.timers && s'.timers == {s'.lock.deadlineToken})
      && (!atOnce && !waits <==> c in s'.dropped)
      && s'.issued == s.issued + {c}
      && s'.outputs == s.outputs && s'.shown == s.shown && s'.monitorsActive == s.monitorsActive
  {
    LockRequestKeeps(s, c, holderAlive);
    assert c !in s.confirmed && c !in s.dropped && c !in Held(s.lock);
    assert |s.outputs| == 0 <==> s.outputs == map[];
  }

  /** In `Locking`, a redraw that should have drawn a locked frame and was skipped. */
  ghost predicate GivesUp(s: State, e: Event) {
    && e.ERedraw? && s.lock.Locking? && s.monitorsActive && e.outcome.result.Skipped?
    && e.o in s.outputs && s.outputs[e.o].lockRender.RenderedUnlocked?
  }

  // ----- What the events say about an output -----

  ghost function Entry<T>(m: map<OutputId, T>, o: OutputId): Option<T> {
    if o in m then Some(m[o]) else None
  }

  ghost function SurfaceOf(s: State, o: OutputId): Option<Option<bool>> {
    if o in s.outputs then Some(s.outputs[o].surface) else None
  }

  /** The lock surface of an output: none on a new output and after an unlock, there once the locking
      client creates it, with a buffer as its last commit says, without when it lost it. */
  ghost function SurfaceSaid(s: State, e: Event, o: OutputId): Option<Option<Option<bool>>> {
    if o !in s.outputs then if e.EAdd? && e.o == o then Some(Some(None)) else None
    else if e.EUnlock? || GivesUp(s, e) then Some(Some(None))
    else
      match e
      case ERemove(p, _, _) => if p == o then Some(None) else None
      case ENewSurface(p, sameClient) =>
        if p == o && sameClient && !s.lock.Unlocked? then Some(Some(Some(false))) else None
      case ECommit(p, mapped) => if p == o then Some(Some(Some(mapped))) else None
      case EUnmapped(p) => if p == o then Some(Some(Some(false))) else None
      case _ => None
  }

  ghost function TransitionOf(s: State, o: OutputId): Option<bool> {
    if o in s.outputs then Some(s.outputs[o].transition) else None
  }

  ghost function TransitionSaid(s: State, e: Event, o: OutputId): Option<Option<bool>> {
    match e
    case EAdd(p, _) => if p == o then Some(Some(false)) else None
    case ERemove(p, _, _) => if p == o then Some(None) else None
    case ETransition(which) => if o in which && o in s.outputs then Some(Some(true)) else None
    case ETransitionsDone(which) => if o in which && o in s.outputs then Some(Some(false)) else None
    case _ => None
  }

  ghost function LockRenderOf(s: State, o: OutputId): Option<LockRenderState> {
    if o in s.outputs then Some(s.outputs[o].lockRender) else None
  }

  ghost function RenderedFor(lock: LockState): LockRenderState {
    if lock.Locking? || lock.Locked? then RenderedLocked else RenderedUnlocked
  }

  /** A redraw counts for the current lock unless it was skipped with the monitors on. */
  ghost function LockRenderSaid(s: State, e: Event, o: OutputId): Option<Option<LockRenderState>> {
    match e
    case EAdd(p, _) => if p == o then Some(Some(RenderedFor(s.lock))) else None
    case ERemove(p, _, _) => if p == o then Some(None) else None
    case ERedraw(p, r) =>
      if p == o && !(s.monitorsActive && r.result.Skipped?) then Some(Some(RenderedFor(s.lock)))
      else None
    case _ => None
  }

  ghost function ShownOn(s: State, o: OutputId): Option<Frame> {
    if o in s.shown then Some(s.shown[o]) else None
  }

  ghost function ShownSaid(s: State, e: Event, o: OutputId): Option<Option<Frame>> {
    match e
    case EAdd(p, _) => if p == o then Some(Some(Blank)) else None
    case ERemove(p, _, _) => if p == o then Some(None) else None
    case EPowerOff =>
      if o in s.shown && s.monitorsActive && s.powerOffBlanks then Some(Some(Blank)) else None
    case ERedraw(p, r) =>
      if p == o && o in s.outputs && s.monitorsActive && !r.result.Skipped? && r.drawn then
        Some(Some(if (s.lock.Locking? || s.lock.Locked?) && !s.outputs[o].transition
                  then LockFrame else SessionFrame))
      else None
    case _ => None
  }

  // ----- One step does what its event says -----

  /** Same but for the redraw state. */
  ghost predicate SameBut(a: Option<OutputState>, b: Option<OutputState>) {
    a.Some? == b.Some? && (a.Some? ==> b.value == a.value.(redraw := b.value.redraw))
  }

  ghost predicate OutputAsSaid(s: State, e: Event, o: OutputId, s': State) {
    && SurfaceOf(s', o) == Or(SurfaceSaid(s, e, o), SurfaceOf(s, o))
    && TransitionOf(s', o) == Or(TransitionSaid(s, e, o), TransitionOf(s, o))
    && LockRenderOf(s', o) == Or(LockRenderSaid(s, e, o), LockRenderOf(s, o))
  }

  lemma OutputStep(s: State, e: Event, o: OutputId)
    requires Enabled(s, e)
    ensures OutputAsSaid(s, e, o, Step(s, e))
  {
    match e
    case ELock(_, _) =>
    case EUnlock => UnlockAsSaid(s, o);
    case ENewSurface(p, same) => NewSurfaceAsSaid(s, p, same, o);
    case ECommit(p, mapped) => CommitAsSaid(s, p, mapped, o);
    case EUnmapped(p) =>
    case EDeadline(token) => DeadlineAsSaid(s, token, o);
    case EAdd(p, moved) => AddAsSaid(s, p, moved, o);
    case ERemove(p, moved, all) => RemoveAsSaid(s, p, moved, all, o);
    case EPowerOff =>
    case EPowerOn => QueueAllEntry(s.outputs, o);
    case EQueue(which) =>
    case ETransition(which) =>
    case ETransitionsDone(which) =>
    case ERedraw(p, r) => RedrawAsSaid(s, p, r, o);
  }

  lemma QueueAllEntry(outputs: map<OutputId, OutputState>, o: OutputId)
    ensures SameBut(Entry(outputs, o), Entry(QueueAll(outputs), o))
  {}

  lemma ContinueEntry(s: State, o: OutputId)
    ensures SameBut(Entry(s.outputs, o), Entry(ContinueToLocking(s).outputs, o))
    ensures SameBut(Entry(s.outputs, o), Entry(MaybeContinueToLocking(s).outputs, o))
  {}

  lemma UnlockAsSaid(s: State, o: OutputId)
    ensures OutputAsSaid(s, EUnlock, o, PowerOn(Unlock(s)))
  {}

  lemma NewSurfaceAsSaid(s: State, p: OutputId, same: bool, o: OutputId)
    ensures OutputAsSaid(s, ENewSurface(p, same), o, NewLockSurface(s, p, same))
  {}

  lemma CommitAsSaid(s: State, p: OutputId, mapped: bool, o: OutputId)
    requires p in s.outputs
    ensures OutputAsSaid(s, ECommit(p, mapped), o, CommitLockSurface(s, p, mapped))
  {
    ContinueEntry(s.(outputs := s.outputs[p := s.outputs[p].(surface := Some(mapped))]), o);
  }

  lemma DeadlineAsSaid(s: State, token: Token, o: OutputId)
    ensures OutputAsSaid(s, EDeadline(token), o, DeadlineExpired(s, token))
  {
    ContinueEntry(s, o);
  }

  lemma AddAsSaid(s: State, p: OutputId, moved: set<OutputId>, o: OutputId)
    requires p !in s.outputs
    ensures OutputAsSaid(s, EAdd(p, moved), o, AddOutput(s, p, moved))
  {}

  lemma RemoveAsSaid(s: State, p: OutputId, moved: set<OutputId>, all: bool, o: OutputId)
    requires p in s.outputs
    ensures OutputAsSaid(s, ERemove(p, moved, all), o, RemoveOutput(s, p, moved, all))
  {
    RemoveEntry(s, p, moved, all, o);
  }

  lemma RemoveEntry(s: State, p: OutputId, moved: set<OutputId>, all: bool, o: OutputId)
    ensures SameBut(if o == p then None else Entry(s.outputs, o),
                    Entry(RemoveOutput(s, p, moved, all).outputs, o))
  {
    var s1 := s.(outputs := QueueSome(s.outputs, moved) - {p}, shown := s.shown - {p});
    assert SameBut(if o == p then None else Entry(s.outputs, o), Entry(s1.outputs, o));
    var s2 := if s1.lock.Locking? then CheckAllLocked(s1) else MaybeContinueToLocking(s1);
    ContinueEntry(s1, o);
    assert SameBut(Entry(s1.outputs, o), Entry(s2.outputs, o));
    QueueAllEntry(s2.outputs, o);
  }

  lemma RedrawAsSaid(s: State, p: OutputId, r: RenderOutcome, o: OutputId)
    requires p in s.outputs
    ensures OutputAsSaid(s, ERedraw(p, r), o, Redraw(s, p, r))
  {
    RedrawEntry(s, p, r, o);
  }

  lemma RedrawEntry(s: State, p: OutputId, r: RenderOutcome, o: OutputId)
    requires p in s.outputs
    ensures
      var before := Entry(s.outputs, o);
      var after := Entry(Redraw(s, p, r).outputs, o);
      && before.Some? == after.Some?
      && (before.Some? ==>
            after.value == OutputState(
              after.value.redraw,
              if o == p && !(s.monitorsActive && r.result.Skipped?) then RenderedFor(s.lock)
              else before.value.lockRender,
              if GivesUp(s, ERedraw(p, r)) then None else before.value.surface,
              before.value.transition))
  {}

  lemma ShownStep(s: State, e: Event, o: OutputId)
    requires s.shown.Keys == s.outputs.Keys && Enabled(s, e)
    ensures ShownOn(Step(s, e), o) == Or(ShownSaid(s, e, o), ShownOn(s, o))
  {
    match e
    case ERemove(p, moved, all) => RemoveShown(s, p, moved, all);
    case ECommit(p, mapped) => CommitShown(s, p, mapped);
    case ERedraw(p, r) => RedrawPicture(s, p, r);
    case _ =>
  }

  lemma RemoveShown(s: State, p: OutputId, moved: set<OutputId>, all: bool)
    ensures RemoveOutput(s, p, moved, all).shown == s.shown - {p}
  {}

  lemma CommitShown(s: State, p: OutputId, mapped: bool)
    requires p in s.outputs
    ensures CommitLockSurface(s, p, mapped).shown == s.shown
  {}

  // ----- Whole runs do what their events say -----

  ghost function SurfaceSays(s: State, trace: seq<Event>, o: OutputId): seq<Option<Option<Option<bool>>>>
    requires Possible(s, trace)
    decreases |trace|
  {
    if trace == [] then []
    else [SurfaceSaid(s, trace[0], o)] + SurfaceSays(Step(s, trace[0]), trace[1..], o)
  }

  ghost function TransitionSays(s: State, trace: seq<Event>, o: OutputId): seq<Option<Option<bool>>>
    requires Possible(s, trace)
    decreases |trace|
  {
    if trace == [] then []
    else [TransitionSaid(s, trace[0], o)] + TransitionSays(Step(s, trace[0]), trace[1..], o)
  }

  ghost function LockRenderSays(s: State, trace: seq<Event>, o: OutputId)
    : seq<Option<Option<LockRenderState>>>
    requires Possible(s, trace)
    decreases |trace|
  {
    if trace == [] then []
    else [LockRenderSaid(s, trace[0], o)] + LockRenderSays(Step(s, trace[0]), trace[1..], o)
  }

  ghost function ShownSays(s: State, trace: seq<Event>, o: OutputId): seq<Option<Option<Frame>>>
    requires Possible(s, trace)
    decreases |trace|
  {
    if trace == [] then []
    else [ShownSaid(s, trace[0], o)] + ShownSays(Step(s, trace[0]), trace[1..], o)
  }

  /** After any run, an output's lock surface, screen transition and lock render state are what the
      last event about each of them says. */
  lemma {:induction false} OutputsAreAsSaid(s: State, trace: seq<Event>, o: OutputId)
    requires Possible(s, trace)
    ensures
      var s' := Run(s, trace);
      && Follows(SurfaceOf(s, o), SurfaceSays(s, trace, o), SurfaceOf(s', o))
      && Follows(TransitionOf(s, o), TransitionSays(s, trace, o), TransitionOf(s', o))
      && Follows(LockRenderOf(s, o), LockRenderSays(s, trace, o), LockRenderOf(s', o))
    decreases |trace|
  {
    if trace != [] {
      var e, rest := trace[0], trace[1..];
      var s1, s' := Step(s, e), Run(s, trace);
      OutputStep(s, e, o);
      OutputsAreAsSaid(s1, rest, o);
      FollowsPrepend(SurfaceOf(s, o), SurfaceSaid(s, e, o), SurfaceSays(s1, rest, o),
                     SurfaceOf(s', o));
      FollowsPrepend(TransitionOf(s, o), TransitionSaid(s, e, o), TransitionSays(s1, rest, o),
                     TransitionOf(s', o));
      FollowsPrepend(LockRenderOf(s, o), LockRenderSaid(s, e, o), LockRenderSays(s1, rest, o),
                     LockRenderOf(s', o));
    }
  }

  /** And so is what it shows. */
  lemma {:induction false} PictureIsAsSaid(s: State, trace: seq<Event>, o: OutputId)
    requires Invariant(s) && Possible(s, trace)
    ensures Follows(ShownOn(s, o), ShownSays(s, trace, o), ShownOn(Run(s, trace), o))
    decreases |trace|
  {
    if trace != [] {
      var e, rest := trace[0], trace[1..];
      StepKeeps(s, e);
      ShownStep(s, e, o);
      PictureIsAsSaid(Step(s, e), rest, o);
      FollowsPrepend(ShownOn(s, o), ShownSaid(s, e, o), ShownSays(Step(s, e), rest, o),
                     ShownOn(Run(s, trace), o));
    }
  }

  // ----- How the lock gets from one state to the next -----

  ghost function SurfaceAfter(s: State, e: Event, o: OutputId): Option<Option<bool>> {
    Or(SurfaceSaid(s, e, o), SurfaceOf(s, o))
  }

  /** After the event every output there is has a lock surface with a buffer. */
  ghost predicate AllReadyAfter(s: State, e: Event) {
    forall o :: SurfaceAfter(s, e, o) != None ==> SurfaceAfter(s, e, o) == Some(Some(true))
  }

  /** A wait for surfaces goes on to locking: at its deadline, or at the commit or the removal that
      leaves all outputs ready. */
  ghost predicate WaitOver(s: State, e: Event) {
    s.lock.WaitingForSurfaces? &&
    (e.EDeadline? || ((e.ECommit? || e.ERemove?) && AllReadyAfter(s, e)))
  }

  /** A wait ends exactly then or at an unlock. With outputs left, locking begins; without, the request
      is confirmed. */
  lemma WaitEndsExactly(s: State, e: Event)
    requires Invariant(s) && Enabled(s, e) && s.lock.WaitingForSurfaces?
    ensures
      var s' := Step(s, e);
      && (s'.lock == s.lock <==> !e.EUnlock? && !WaitOver(s, e))
      && (e.EUnlock? ==> s'.lock == Unlocked)
      && (WaitOver(s, e) ==>
            s'.lock == if s'.outputs == map[] then Locked(s.lock.confirmation)
                       else Locking(s.lock.confirmation))
  {
    match e
    case ECommit(p, mapped) => CommitWait(s, p, mapped);
    case ERemove(p, moved, all) => RemoveWait(s, p, moved, all);
    case _ =>
  }

  lemma ReadyAfter(s: State, e: Event, outputs: map<OutputId, OutputState>)
    requires forall o :: SurfaceAfter(s, e, o) ==
                         if o in outputs then Some(outputs[o].surface) else None
    ensures AllReadyAfter(s, e) <==> AllSurfacesReady(outputs)
  {
    if AllReadyAfter(s, e) {
      forall o | o in outputs ensures outputs[o].surface == Some(true) {
        assert SurfaceAfter(s, e, o) != None;
      }
    }
  }

  lemma CommitWait(s: State, p: OutputId, mapped: bool)
    requires s.lock.WaitingForSurfaces? && p in s.outputs
    ensures
      var s', c := CommitLockSurface(s, p, mapped), s.lock.confirmation;
      if AllReadyAfter(s, ECommit(p, mapped)) then s'.lock == Locking(c) && s'.outputs != map[]
      else s'.lock == s.lock
  {
    var outputs := s.outputs[p := s.outputs[p].(surface := Some(mapped))];
    ReadyAfter(s, ECommit(p, mapped), outputs);
    assert p in outputs && p in QueueAll(outputs);
  }

  lemma RemoveWait(s: State, p: OutputId, moved: set<OutputId>, all: bool)
    requires s.lock.WaitingForSurfaces? && p in s.outputs
    ensures
      var s', c := RemoveOutput(s, p, moved, all), s.lock.confirmation;
      if AllReadyAfter(s, ERemove(p, moved, all))
      then s'.lock == if s'.outputs == map[] then Locked(c) else Locking(c)
      else s'.lock == s.lock
  {
    var outputs := QueueSome(s.outputs, moved) - {p};
    ReadyAfter(s, ERemove(p, moved, all), outputs);
    RemoveOutputs(s, p, moved, all);
    assert outputs.Keys == s.outputs.Keys - {p};
  }

  /** In terms of the whole history: a wait goes on at a commit or a removal exactly if the last thing
      that happened to the lock surface of every output there is, is a commit with a buffer. */
  lemma WaitEndsByHistory(powerOffBlanks: bool, trace: seq<Event>, e: Event)
    requires Possible(Initial(powerOffBlanks), trace)
    requires Enabled(Run(Initial(powerOffBlanks), trace), e)
    requires Run(Initial(powerOffBlanks), trace).lock.WaitingForSurfaces?
    ensures
      var start := Initial(powerOffBlanks);
      && Possible(start, trace + [e])
      && var s, s' := Run(start, trace), Run(start, trace + [e]);
      && (s'.lock == s.lock <==>
            && !e.EUnlock? && !e.EDeadline?
            && !((e.ECommit? || e.ERemove?) &&
                 forall o | o in s'.outputs ::
                   LastSaid(SurfaceSays(start, trace + [e], o), Some(Some(true)))))
  {
    var start, longer := Initial(powerOffBlanks), trace + [e];
    Append(start, trace, e);
    RunKeeps(start, trace);
    var s, s' := Run(start, trace), Run(start, longer);
    WaitEndsExactly(s, e);
    forall o
      ensures SurfaceAfter(s, e, o) == SurfaceOf(s', o)
      ensures Follows(None, SurfaceSays(start, longer, o), SurfaceOf(s', o))
    {
      OutputStep(s, e, o);
      OutputsAreAsSaid(start, longer, o);
    }
    forall o | o in s'.outputs
      ensures LastSaid(SurfaceSays(start, longer, o), Some(Some(true))) <==>
              SurfaceAfter(s, e, o) == Some(Some(true))
    {
      var says := SurfaceSays(start, longer, o);
      if LastSaid(says, Some(Some(true))) {
        FollowsUnique(None, says, SurfaceOf(s', o), Some(Some(true)));
      }
    }
    assert AllReadyAfter(s, e) <==>
           forall o | o in s'.outputs :: SurfaceAfter(s, e, o) == Some(Some(true));
  }

  ghost function RenderedAfter(s: State, e: Event, o: OutputId): Option<LockRenderState> {
    Or(LockRenderSaid(s, e, o), LockRenderOf(s, o))
  }

  ghost predicate AllLockedAfter(s: State, e: Event) {
    forall o :: RenderedAfter(s, e, o) != Some(RenderedUnlocked)
  }

  /** Locking is given up exactly by an unlock or a redraw that failed to draw a needed locked frame;
      it succeeds exactly by the redraw or the removal that leaves every output rendered locked. */
  lemma LockingEndsExactly(s: State, e: Event)
    requires Invariant(s) && Enabled(s, e) && s.lock.Locking?
    ensures
      var s' := Step(s, e);
      && (s'.lock == Unlocked <==> e.EUnlock? || GivesUp(s, e))
      && (s'.lock == Locked(s.lock.confirmation) <==>
            (e.ERedraw? || e.ERemove?) && !GivesUp(s, e) && AllLockedAfter(s, e))
      && (s'.lock == s.lock || s'.lock == Unlocked || s'.lock == Locked(s.lock.confirmation))
  {
    match e
    case ERedraw(p, r) => RedrawLocking(s, p, r);
    case ERemove(p, moved, all) => RemoveLocking(s, p, moved, all);
    case _ =>
  }

  lemma LockedAfter(s: State, e: Event, outputs: map<OutputId, OutputState>)
    requires forall o :: RenderedAfter(s, e, o) ==
                         if o in outputs then Some(outputs[o].lockRender) else None
    ensures AllLockedAfter(s, e) <==> AllRenderedLocked(outputs)
  {
    if AllLockedAfter(s, e) {
      forall o | o in outputs ensures outputs[o].lockRender.RenderedLocked? {
        assert RenderedAfter(s, e, o) != Some(RenderedUnlocked);
      }
    }
  }

  lemma RedrawLocking(s: State, p: OutputId, r: RenderOutcome)
    requires s.lock.Locking? && p in s.outputs
    ensures
      var s', e := Redraw(s, p, r), ERedraw(p, r);
      s'.lock == if GivesUp(s, e) then Unlocked
                 else if AllLockedAfter(s, e) then Locked(s.lock.confirmation)
                 else s.lock
  {
    LockedAfter(s, ERedraw(p, r), Drawn(s, p, r).outputs);
  }

  lemma RemoveLocking(s: State, p: OutputId, moved: set<OutputId>, all: bool)
    requires s.lock.Locking? && p in s.outputs
    ensures
      var s', e := RemoveOutput(s, p, moved, all), ERemove(p, moved, all);
      s'.lock == if AllLockedAfter(s, e) then Locked(s.lock.confirmation) else s.lock
  {
    LockedAfter(s, ERemove(p, moved, all), QueueSome(s.outputs, moved) - {p});
  }

  /** Without a lock only a lock request changes that. */
  lemma UnlockedLeftExactly(s: State, e: Event)
    requires Invariant(s) && Enabled(s, e) && s.lock.Unlocked?
    ensures Step(s, e).lock == Unlocked <==> !e.ELock?
  {
    match e
    case ERemove(p, moved, all) => RemoveUnlocked(s, p, moved, all);
    case _ =>
  }

  lemma RemoveUnlocked(s: State, p: OutputId, moved: set<OutputId>, all: bool)
    requires s.lock.Unlocked?
    ensures RemoveOutput(s, p, moved, all).lock == Unlocked
  {}

  /** A request is dropped exactly when it is refused, or held at an unlock or when locking is given
      up; it is confirmed exactly when its lock begins. */
  lemma FateDecidedBy(s: State, e: Event)
    requires Invariant(s) && Enabled(s, e)
    ensures
      var s' := Step(s, e);
      && s'.dropped == s.dropped
           + (if e.ELock? && s'.lock == s.lock then {e.c} else {})
           + (if e.EUnlock? || GivesUp(s, e) then Held(s.lock) else {})
      && s'.confirmed ==
           if s'.lock.Locked? && s'.lock != s.lock then s.confirmed + [s'.lock.lock] else s.confirmed
  {
    match e
    case ELock(c, alive) => LockFate(s, c, alive);
    case ERemove(p, moved, all) => RemoveFate(s, p, moved, all);
    case ECommit(p, mapped) => CommitFate(s, p, mapped);
    case _ =>
  }

  lemma LockFate(s: State, c: Locker, alive: bool)
    requires Invariant(s) && c !in s.issued
    ensures
      var s' := LockRequest(s, c, alive);
      && s'.dropped == s.dropped + (if s'.lock == s.lock then {c} else {})
      && s'.confirmed ==
           if s'.lock.Locked? && s'.lock != s.lock then s.confirmed + [s'.lock.lock] else s.confirmed
  {
    if s.lock.Locked? {
      assert s.lock.lock in s.confirmed;
      assert s.lock.lock in Elements(s.confirmed);
    }
  }

  /** The lock check after a removal. */
  ghost function Rechecked(s: State): State {
    if s.lock.Locking? then CheckAllLocked(s) else MaybeContinueToLocking(s)
  }

  ghost function Removed(s: State, p: OutputId, moved: set<OutputId>): State {
    s.(outputs := QueueSome(s.outputs, moved) - {p}, shown := s.shown - {p})
  }

  lemma RecheckedFate(s: State)
    ensures
      var s' := Rechecked(s);
      && s'.dropped == s.dropped
      && s'.confirmed ==
           if s'.lock.Locked? && s'.lock != s.lock then s.confirmed + [s'.lock.lock] else s.confirmed
  {}

  lemma RecheckedRedraw(s: State, o: OutputId)
    requires o in s.outputs
    ensures o in Rechecked(s).outputs
    ensures Rechecked(s).outputs[o].redraw ==
            if s.lock.WaitingForSurfaces? && AllSurfacesReady(s.outputs)
            then QueueRedraw(s.outputs[o].redraw) else s.outputs[o].redraw
  {}

  lemma RemoveFate(s: State, p: OutputId, moved: set<OutputId>, all: bool)
    ensures
      var s' := RemoveOutput(s, p, moved, all);
      && s'.dropped == s.dropped
      && s'.confirmed ==
           if s'.lock.Locked? && s'.lock != s.lock then s.confirmed + [s'.lock.lock] else s.confirmed
  {
    var s2 := Rechecked(Removed(s, p, moved));
    RecheckedFate(Removed(s, p, moved));
    assert RemoveOutput(s, p, moved, all) ==
           if all then s2.(outputs := QueueAll(s2.outputs)) else s2;
  }

  lemma CommitFate(s: State, p: OutputId, mapped: bool)
    requires p in s.outputs
    ensures
      var s' := CommitLockSurface(s, p, mapped);
      && s'.dropped == s.dropped
      && s'.confirmed ==
           if s'.lock.Locked? && s'.lock != s.lock then s.confirmed + [s'.lock.lock] else s.confirmed
  {}

  // ----- Which outputs are redrawn -----

  /** Queueing makes a redraw certain and leaves alone what the output is waiting for. */
  lemma QueueRedrawIs(r: RedrawState)
    ensures IsPending(QueueRedraw(r)) && QueueRedraw(QueueRedraw(r)) == QueueRedraw(r)
    ensures QueueRedraw(r).WaitingForVBlank? == r.WaitingForVBlank?
    ensures QueueRedraw(r).Queued? == (r.Idle? || r.Queued?)
    ensures r.WaitingForEstimatedVBlank? || r.WaitingForEstimatedVBlankAndQueued? ==>
              QueueRedraw(r) == WaitingForEstimatedVBlankAndQueued(r.token)
  {}

  /** The event asks for a redraw of the output. */
  ghost predicate Asks(s: State, e: Event, o: OutputId) {
    || e.EUnlock? || GivesUp(s, e) || WaitOver(s, e)
    || match e
       case EAdd(p, moved) => o == p || o in moved
       case ERemove(_, moved, all) => o in moved || all
       case ECommit(p, _) => o == p && !s.lock.WaitingForSurfaces?
       case EPowerOn => !s.monitorsActive
       case EQueue(which) => o in which
       case _ => false
  }

  /** What rendering leaves of the redraw state: an estimated VBlank only after a skipped render. */
  ghost function LeftByRender(s: State, before: RedrawState, r: RenderOutcome): RedrawState {
    var left := if s.monitorsActive then r.left else before;
    if (s.monitorsActive ==> r.result.Skipped?) &&
       (left.WaitingForEstimatedVBlank? || left.WaitingForEstimatedVBlankAndQueued?)
    then WaitingForEstimatedVBlank(left.token)
    else Idle
  }

  ghost function BeforeAsking(s: State, e: Event, o: OutputId): RedrawState {
    if o !in s.outputs then Idle
    else if e.ERedraw? && e.o == o then LeftByRender(s, s.outputs[o].redraw, e.outcome)
    else s.outputs[o].redraw
  }

  ghost predicate RedrawAsAsked(s: State, e: Event, o: OutputId, s': State) {
    o in s'.outputs ==>
      s'.outputs[o].redraw ==
        if Asks(s, e, o) then QueueRedraw(BeforeAsking(s, e, o)) else BeforeAsking(s, e, o)
  }

  /** Exactly the outputs that an event asks for are queued, and only a redraw takes one off. */
  lemma QueuedExactly(s: State, e: Event, o: OutputId)
    requires Invariant(s) && Enabled(s, e)
    ensures RedrawAsAsked(s, e, o, Step(s, e))
  {
    match e
    case EUnlock => UnlockAsks(s, o);
    case ECommit(p, mapped) => CommitAsks(s, p, mapped, o);
    case EDeadline(token) => DeadlineAsks(s, token, o);
    case EAdd(p, moved) => AddAsks(s, p, moved, o);
    case ERemove(p, moved, all) => RemoveAsks(s, p, moved, all, o);
    case ERedraw(p, r) => RedrawAsks(s, p, r, o);
    case _ => OthersAsk(s, e, o);
  }

  lemma OthersAsk(s: State, e: Event, o: OutputId)
    requires Enabled(s, e)
    requires !e.EUnlock? && !e.ECommit? && !e.EDeadline? && !e.EAdd? && !e.ERemove? && !e.ERedraw?
    ensures RedrawAsAsked(s, e, o, Step(s, e))
  {
    assert !WaitOver(s, e) && !GivesUp(s, e);
  }

  lemma DeadlineAsks(s: State, token: Token, o: OutputId)
    requires Invariant(s) && token in s.timers
    ensures RedrawAsAsked(s, EDeadline(token), o, DeadlineExpired(s, token))
  {
    assert WaitOver(s, EDeadline(token));
  }

  lemma AddAsks(s: State, p: OutputId, moved: set<OutputId>, o: OutputId)
    requires p !in s.outputs
    ensures RedrawAsAsked(s, EAdd(p, moved), o, AddOutput(s, p, moved))
  {
    assert !WaitOver(s, EAdd(p, moved)) && !GivesUp(s, EAdd(p, moved));
  }

  lemma UnlockAsks(s: State, o: OutputId)
    ensures RedrawAsAsked(s, EUnlock, o, PowerOn(Unlock(s)))
  {}

  lemma CommitAsks(s: State, p: OutputId, mapped: bool, o: OutputId)
    requires p in s.outputs
    ensures RedrawAsAsked(s, ECommit(p, mapped), o, CommitLockSurface(s, p, mapped))
  {
    ReadyAfter(s, ECommit(p, mapped), s.outputs[p := s.outputs[p].(surface := Some(mapped))]);
  }

  lemma RemoveAsks(s: State, p: OutputId, moved: set<OutputId>, all: bool, o: OutputId)
    requires p in s.outputs
    ensures RedrawAsAsked(s, ERemove(p, moved, all), o, RemoveOutput(s, p, moved, all))
  {
    var e, s1 := ERemove(p, moved, all), Removed(s, p, moved);
    ReadyAfter(s, e, s1.outputs);
    assert WaitOver(s, e) <==> s1.lock.WaitingForSurfaces? && AllSurfacesReady(s1.outputs);
    RemoveOutputs(s, p, moved, all);
    if o in s1.outputs {
      RecheckedRedraw(s1, o);
      var s2 := Rechecked(s1);
      assert RemoveOutput(s, p, moved, all) ==
             if all then s2.(outputs := QueueAll(s2.outputs)) else s2;
    }
  }

  lemma RedrawAsks(s: State, p: OutputId, r: RenderOutcome, o: OutputId)
    requires p in s.outputs
    ensures RedrawAsAsked(s, ERedraw(p, r), o, Redraw(s, p, r))
  {}
}
