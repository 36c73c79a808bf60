/**
 What every run of the session lock keeps: safety of the `locked` event, the fate of every lock
 request, ownership of the deadline timer, and that locking always settles.
 */
module SessionLockTheorems {
  import opened Options
  import opened Sequences
  import opened SessionLock

  // ----- The invariants -----

  /** No output shows session contents. */
  ghost predicate SessionHidden(s: State) {
    forall o | o in s.shown :: s.shown[o] != SessionFrame
  }

  /** An output that counts as rendered locked does not show session contents. */
  ghost predicate LockedMeansHidden(s: State) {
    forall o | o in s.outputs && o in s.shown && s.outputs[o].lockRender.RenderedLocked? ::
      s.shown[o] != SessionFrame
  }

  /** Powered-off monitors show nothing. */
  ghost predicate OffMeansBlank(s: State) {
    !s.monitorsActive ==> forall o | o in s.shown :: s.shown[o] == Blank
  }

  ghost predicate LockedEverywhere(s: State) {
    s.lock.Locked? ==> AllRenderedLocked(s.outputs)
  }

  ghost predicate HasPending(s: State) {
    exists o :: o in s.outputs && IsPending(s.outputs[o].redraw)
  }

  /** While locking, what is missing is on its way, and something is on its way. */
  ghost predicate LockingProgresses(s: State) {
    s.lock.Locking? ==>
      && HasPending(s)
      && forall o | o in s.outputs && s.outputs[o].lockRender.RenderedUnlocked? ::
           IsPending(s.outputs[o].redraw)
  }

  ghost predicate WaitsForSomeone(s: State) {
    s.lock.WaitingForSurfaces? ==> s.outputs != map[]
  }

  /** The deadline timer is live exactly while its token is in the lock state. */
  ghost predicate DeadlineOwned(s: State) {
    && s.timers == (if s.lock.WaitingForSurfaces? then {s.lock.deadlineToken} else {})
    && forall t | t in s.timers :: t < s.nextToken
  }

  ghost function Elements(xs: seq<Locker>): set<Locker> {
    set c | c in xs
  }

  /** Every request is held, confirmed or dropped, never two of these, and confirmed once. */
  ghost predicate RequestsAccounted(s: State) {
    && s.issued == Held(s.lock) + Elements(s.confirmed) + s.dropped
    && Held(s.lock) !! Elements(s.confirmed) !! s.dropped
    && Distinct(s.confirmed)
    && (s.lock.Locked? ==> s.confirmed != [] && s.confirmed[|s.confirmed| - 1] == s.lock.lock)
  }

  /** `redraw` never leaves an output waiting for a VBlank, and nothing else puts it there. */
  ghost predicate NoVBlankWait(s: State) {
    forall o | o in s.outputs :: !s.outputs[o].redraw.WaitingForVBlank?
  }

  /** Everything that holds with any backend. */
  ghost predicate Invariant(s: State) {
    && s.shown.Keys == s.outputs.Keys
    && LockedEverywhere(s)
    && LockingProgresses(s)
    && WaitsForSomeone(s)
    && DeadlineOwned(s)
    && RequestsAccounted(s)
    && NoVBlankWait(s)
  }

  // ----- One step keeps the invariant -----

  lemma QueueAllPending(outputs: map<OutputId, OutputState>)
    ensures forall o | o in outputs :: IsPending(QueueAll(outputs)[o].redraw)
  {}

  lemma ConfirmAccounted(s: State, c: Locker)
    requires RequestsAccounted(s.(lock := Locking(c)))
    ensures RequestsAccounted(Confirm(s, c))
  {}

  /** Changing who holds the lock, without a deadline, needs only the accounts and the locked case. */
  lemma RelockKeeps(s: State, s': State)
    requires Invariant(s)
    requires s'.outputs == s.outputs && s'.shown == s.shown && s'.timers == {} == s.timers
    requires s'.nextToken == s.nextToken && RequestsAccounted(s')
    requires s'.lock.Unlocked? || (s'.lock.Locked? && AllRenderedLocked(s.outputs))
    ensures Invariant(s')
  {}

  lemma RefusedKeeps(s: State, c: Locker)
    requires Invariant(s) && c !in s.issued
    ensures Invariant(s.(issued := s.issued + {c}, dropped := s.dropped + {c}))
  {}

  lemma WaitKeeps(s: State, c: Locker)
    requires Invariant(s) && c !in s.issued && s.lock.Unlocked? && s.outputs != map[]
    ensures Invariant(LockRequest(s, c, false))
  {}

  lemma LockRequestKeeps(s: State, c: Locker, alive: bool)
    requires Invariant(s) && c !in s.issued
    ensures Invariant(LockRequest(s, c, alive))
  {
    var s' := LockRequest(s, c, alive);
    if s'.confirmed != s.confirmed {
      ConfirmAccounted(s.(issued := s.issued + {c}), c);
      RelockKeeps(s, s');
    } else if s.lock.Unlocked? {
      WaitKeeps(s, c);
    } else {
      assert s' == s.(issued := s.issued + {c}, dropped := s.dropped + {c});
      RefusedKeeps(s, c);
    }
  }

  /** `s` may have just lost its last output. */
  lemma ContinueKeeps(s: State)
    requires Invariant(s) || (s.outputs == map[] && s.lock.WaitingForSurfaces? &&
                              s.shown.Keys == {} && DeadlineOwned(s) && RequestsAccounted(s))
    ensures Invariant(ContinueToLocking(s))
  {
    if s.lock.WaitingForSurfaces? {
      if s.outputs == map[] {
        ConfirmAccounted(s.(timers := {}), s.lock.confirmation);
      } else {
        QueueAllPending(s.outputs);
        LockingKeeps(s);
      }
    }
  }

  lemma LockingKeeps(s: State)
    requires Invariant(s) && s.lock.WaitingForSurfaces?
    requires forall o | o in s.outputs :: IsPending(QueueAll(s.outputs)[o].redraw)
    ensures Invariant(s.(lock := Locking(s.lock.confirmation), outputs := QueueAll(s.outputs),
                         timers := {}))
  {
    var s' := s.(lock := Locking(s.lock.confirmation), outputs := QueueAll(s.outputs), timers := {});
    var o :| o in s.outputs;
    assert o in s'.outputs && IsPending(s'.outputs[o].redraw);
  }

  lemma UnlockKeeps(s: State)
    requires s.shown.Keys == s.outputs.Keys
    requires DeadlineOwned(s) && RequestsAccounted(s) && NoVBlankWait(s)
    ensures Invariant(Unlock(s))
  {}

  lemma CheckKeeps(s: State)
    requires s.shown.Keys == s.outputs.Keys
    requires s.lock.Locking? && !AllRenderedLocked(s.outputs) ==> LockingProgresses(s)
    requires LockedEverywhere(s) && WaitsForSomeone(s)
    requires DeadlineOwned(s) && RequestsAccounted(s) && NoVBlankWait(s)
    ensures Invariant(CheckAllLocked(s))
  {}

  lemma RedrawKeeps(s: State, o: OutputId, r: RenderOutcome)
    requires Invariant(s) && o in s.outputs
    ensures Invariant(Redraw(s, o, r))
  {
    var s1 := Drawn(s, o, r);
    if s1.lock.Locking? && s1.outputs[o].lockRender.RenderedUnlocked? {
      UnlockKeeps(s1);
    } else {
      if s1.lock.Locking? && !AllRenderedLocked(s1.outputs) {
        var p :| p in s1.outputs && s1.outputs[p].lockRender.RenderedUnlocked?;
        assert p != o && IsPending(s1.outputs[p].redraw);
      }
      CheckKeeps(s1);
    }
  }

  lemma QueueSomeKeeps(s: State, which: set<OutputId>)
    requires Invariant(s)
    ensures Invariant(s.(outputs := QueueSome(s.outputs, which)))
  {}

  lemma QueueAllKeeps(s: State)
    requires Invariant(s)
    ensures Invariant(s.(outputs := QueueAll(s.outputs)))
  {}

  lemma AddKeeps(s: State, o: OutputId, moved: set<OutputId>)
    requires Invariant(s) && o !in s.outputs
    ensures Invariant(AddOutput(s, o, moved))
  {
    var s' := AddOutput(s, o, moved);
    assert IsPending(s'.outputs[o].redraw);
  }

  lemma RemoveKeeps(s: State, o: OutputId, moved: set<OutputId>, all: bool)
    requires Invariant(s) && o in s.outputs
    ensures Invariant(RemoveOutput(s, o, moved, all))
  {
    QueueSomeKeeps(s, moved);
    var s1 := s.(outputs := QueueSome(s.outputs, moved) - {o}, shown := s.shown - {o});
    var s2 := if s1.lock.Locking? then CheckAllLocked(s1) else MaybeContinueToLocking(s1);
    if s1.lock.Locking? {
      if !AllRenderedLocked(s1.outputs) {
        var p :| p in s1.outputs && s1.outputs[p].lockRender.RenderedUnlocked?;
        assert IsPending(s1.outputs[p].redraw);
      }
      CheckKeeps(s1);
    } else if s1.lock.WaitingForSurfaces? {
      ContinueKeeps(s1);
    }
    QueueAllKeeps(s2);
  }

  lemma SurfaceKeeps(s: State, o: OutputId, surface: Option<bool>)
    requires Invariant(s) && o in s.outputs
    ensures Invariant(s.(outputs := s.outputs[o := s.outputs[o].(surface := surface)]))
  {}

  lemma TransitionKeeps(s: State, which: set<OutputId>, running: bool)
    requires Invariant(s)
    ensures Invariant(s.(outputs := SetTransitions(s.outputs, which, running)))
  {
    var s' := s.(outputs := SetTransitions(s.outputs, which, running));
    if HasPending(s) {
      var o :| o in s.outputs && IsPending(s.outputs[o].redraw);
      assert o in s'.outputs && IsPending(s'.outputs[o].redraw);
    }
  }

  lemma CommitKeeps(s: State, o: OutputId, mapped: bool)
    requires Invariant(s) && o in s.outputs
    ensures Invariant(CommitLockSurface(s, o, mapped))
  {
    SurfaceKeeps(s, o, Some(mapped));
    var s1 := s.(outputs := s.outputs[o := s.outputs[o].(surface := Some(mapped))]);
    ContinueKeeps(s1);
    QueueSomeKeeps(s1, {o});
  }

  lemma StepKeeps(s: State, e: Event)
    requires Invariant(s) && Enabled(s, e)
    ensures Invariant(Step(s, e))
  {
    match e
    case ELock(c, alive) => LockRequestKeeps(s, c, alive);
    case EUnlock => UnlockKeeps(s); QueueAllKeeps(Unlock(s));
    case ENewSurface(o, same) => if o in s.outputs { SurfaceKeeps(s, o, Some(false)); }
    case ECommit(o, mapped) => CommitKeeps(s, o, mapped);
    case EUnmapped(o) => SurfaceKeeps(s, o, Some(false));
    case EDeadline(token) => ContinueKeeps(s);
    case EAdd(o, moved) => AddKeeps(s, o, moved);
    case ERemove(o, moved, all) => RemoveKeeps(s, o, moved, all);
    case EPowerOff =>
    case EPowerOn => QueueAllKeeps(s);
    case EQueue(which) => QueueSomeKeeps(s, which);
    case ETransition(which) => TransitionKeeps(s, which, true);
    case ETransitionsDone(which) => TransitionKeeps(s, which, false);
    case ERedraw(o, r) => RedrawKeeps(s, o, r);
  }

  // ----- Whole runs -----

  /** Doing `trace[..k]` and then the rest is doing `trace`. */
  lemma {:induction false} RunSplits(s: State, trace: seq<Event>, k: nat)
    requires Possible(s, trace) && k <= |trace|
    ensures Possible(s, trace[..k]) && Possible(Run(s, trace[..k]), trace[k..])
    ensures Run(Run(s, trace[..k]), trace[k..]) == Run(s, trace)
    decreases k
  {
    if k == 0 {
      assert trace[..0] == [] && trace[0..] == trace;
    } else {
      RunSplits(Step(s, trace[0]), trace[1..], k - 1);
      assert trace[..k][1..] == trace[1..][..k - 1];
      assert trace[1..][k - 1..] == trace[k..];
    }
  }

  lemma {:induction false} RunKeeps(s: State, trace: seq<Event>)
    requires Invariant(s) && Possible(s, trace)
    ensures Invariant(Run(s, trace))
    decreases |trace|
  {
    if trace != [] {
      StepKeeps(s, trace[0]);
      RunKeeps(Step(s, trace[0]), trace[1..]);
    }
  }

  /** Every state a compositor can reach satisfies the invariant, with any backend. */
  lemma ReachableInvariant(powerOffBlanks: bool, trace: seq<Event>)
    requires Possible(Initial(powerOffBlanks), trace)
    ensures Invariant(Run(Initial(powerOffBlanks), trace))
  {
    RunKeeps(Initial(powerOffBlanks), trace);
  }

  // ----- Safety of the locked event -----

  /** The output counts as rendered locked but shows session contents. */
  ghost predicate Lies(s: State, o: OutputId) {
    && o in s.outputs && s.outputs[o].lockRender.RenderedLocked?
    && o in s.shown && s.shown[o] == SessionFrame
  }

  /** The frame of a locked session is really drawn, under a snapshot of the session. */
  ghost predicate DrawsUnderTransition(s: State, e: Event) {
    && e.ERedraw? && IsLocked(s.lock) && e.o in s.outputs && s.outputs[e.o].transition
    && s.monitorsActive && !e.outcome.result.Skipped? && e.outcome.drawn
  }

  /** An output that still has a session picture on it counts as rendered locked from here on: it is
      powered off and kept its picture, the backend reported a frame that it did not draw, or the
      frame was drawn under a screen transition. */
  ghost predicate CountsPictureAsLocked(s: State, e: Event) {
    || DrawsUnderTransition(s, e)
    || (e.ERedraw? && IsLocked(s.lock) && e.o in s.shown && s.shown[e.o] == SessionFrame &&
        (s.monitorsActive ==> !e.outcome.result.Skipped? && !e.outcome.drawn))
  }

  /** The output is really drawn with nothing in front, or redrawn for an unlocked session, or blanked,
      or removed. */
  ghost predicate Repairs(s: State, e: Event, o: OutputId) {
    match e
    case ERedraw(p, r) =>
      p == o && if !IsLocked(s.lock) then s.monitorsActive ==> !r.result.Skipped?
                else s.monitorsActive && !r.result.Skipped? && r.drawn && o in s.outputs &&
                     !s.outputs[o].transition
    case EPowerOff => s.monitorsActive && s.powerOffBlanks
    case ERemove(p, _, _) => p == o
    case _ => false
  }

  /** Exactly when `RenderedLocked` is a lie after a step. */
  lemma LieExactly(s: State, e: Event, o: OutputId)
    requires Invariant(s) && Enabled(s, e)
    ensures Lies(Step(s, e), o) <==>
            || (CountsPictureAsLocked(s, e) && e.o == o)
            || (Lies(s, o) && !Repairs(s, e, o))
  {
    if e.ERedraw? {
      RedrawLie(s, e, o);
    } else if !e.EAdd? && !e.EPowerOff? {
      QuietLie(s, e, o);
    }
  }

  lemma RedrawLie(s: State, e: Event, o: OutputId)
    requires s.shown.Keys == s.outputs.Keys && Enabled(s, e) && e.ERedraw?
    ensures Lies(Step(s, e), o) <==>
            || (CountsPictureAsLocked(s, e) && e.o == o)
            || (Lies(s, o) && !Repairs(s, e, o))
  {
    RedrawPicture(s, e.o, e.outcome);
  }

  lemma QuietLie(s: State, e: Event, o: OutputId)
    requires s.shown.Keys == s.outputs.Keys && Enabled(s, e)
    requires !e.EAdd? && !e.ERedraw? && !e.EPowerOff?
    ensures Lies(Step(s, e), o) <==> Lies(s, o) && !Repairs(s, e, o)
  {
    QuietPicture(s, e);
    QuietOutputs(s, e);
  }

  lemma QuietOutputs(s: State, e: Event)
    requires Enabled(s, e) && !e.EAdd? && !e.ERedraw? && !e.EPowerOff?
    ensures Step(s, e).outputs.Keys == s.outputs.Keys - (if e.ERemove? then {e.o} else {})
  {
    match e
    case ERemove(o, moved, all) => RemoveOutputs(s, o, moved, all);
    case ECommit(o, mapped) => CommitOutputs(s, o, mapped);
    case _ =>
  }

  lemma RemoveOutputs(s: State, o: OutputId, moved: set<OutputId>, all: bool)
    ensures RemoveOutput(s, o, moved, all).outputs.Keys == s.outputs.Keys - {o}
  {
    var s1 := s.(outputs := QueueSome(s.outputs, moved) - {o}, shown := s.shown - {o});
    assert s1.outputs.Keys == s.outputs.Keys - {o};
    assert ContinueToLocking(s1).outputs.Keys == s1.outputs.Keys;
  }

  lemma CommitOutputs(s: State, o: OutputId, mapped: bool)
    requires o in s.outputs
    ensures CommitLockSurface(s, o, mapped).outputs.Keys == s.outputs.Keys
  {}

  /** The steps that can make `RenderedLocked` a lie, and they always do. */
  lemma PictureKeptExactly(s: State, e: Event)
    requires Invariant(s) && Enabled(s, e) && LockedMeansHidden(s)
    ensures LockedMeansHidden(Step(s, e)) <==> !CountsPictureAsLocked(s, e)
  {
    var s' := Step(s, e);
    assert LockedMeansHidden(s') <==> forall o | o in s'.outputs :: !Lies(s', o);
    forall o ensures Lies(s', o) <==> CountsPictureAsLocked(s, e) && e.o == o {
      LieExactly(s, e, o);
    }
    if CountsPictureAsLocked(s, e) {
      assert Lies(s', e.o);
    }
  }

  /** `s'` has no outputs that `s` has not, and they look and count as before. */
  ghost predicate SamePicture(s: State, s': State) {
    forall o | o in s'.outputs ::
      && o in s.outputs && s.outputs[o].lockRender == s'.outputs[o].lockRender
      && o in s.shown && o in s'.shown && s.shown[o] == s'.shown[o]
  }

  lemma ContinuePicture(s: State)
    requires s.shown.Keys == s.outputs.Keys
    ensures SamePicture(s, ContinueToLocking(s))
  {}

  lemma UnlockPicture(s: State)
    requires s.shown.Keys == s.outputs.Keys
    ensures SamePicture(s, Unlock(s)) && SamePicture(s, PowerOn(Unlock(s)))
  {}

  lemma RemovePicture(s: State, o: OutputId, moved: set<OutputId>, all: bool)
    requires s.shown.Keys == s.outputs.Keys
    ensures SamePicture(s, RemoveOutput(s, o, moved, all))
  {
    var s1 := s.(outputs := QueueSome(s.outputs, moved) - {o}, shown := s.shown - {o});
    ContinuePicture(s1);
    var s2 := if s1.lock.Locking? then CheckAllLocked(s1) else MaybeContinueToLocking(s1);
    assert SamePicture(s, s2);
  }

  lemma CommitPicture(s: State, o: OutputId, mapped: bool)
    requires s.shown.Keys == s.outputs.Keys && o in s.outputs
    ensures SamePicture(s, CommitLockSurface(s, o, mapped))
  {
    var s1 := s.(outputs := s.outputs[o := s.outputs[o].(surface := Some(mapped))]);
    assert SamePicture(s, s1);
    ContinuePicture(s1);
    var s2 := s1.(outputs := QueueSome(s1.outputs, {o}));
    assert SamePicture(s1, s2);
    PictureTransitive(s, s1, CommitLockSurface(s, o, mapped));
  }

  lemma PictureTransitive(a: State, b: State, c: State)
    requires SamePicture(a, b) && SamePicture(b, c)
    ensures SamePicture(a, c)
  {}

  /** All steps but adding, drawing and powering off leave the picture alone. */
  lemma QuietPicture(s: State, e: Event)
    requires s.shown.Keys == s.outputs.Keys && Enabled(s, e)
    requires !e.EAdd? && !e.ERedraw? && !e.EPowerOff?
    ensures SamePicture(s, Step(s, e))
  {
    match e
    case EUnlock => UnlockPicture(s);
    case ECommit(p, mapped) => CommitPicture(s, p, mapped);
    case EDeadline(_) => ContinuePicture(s);
    case ERemove(p, moved, all) => RemovePicture(s, p, moved, all);
    case _ =>
  }

  /** Only the redrawn output looks or counts differently after a redraw. */
  lemma RedrawPicture(s: State, o: OutputId, r: RenderOutcome)
    requires s.shown.Keys == s.outputs.Keys && o in s.outputs
    ensures
      var s' := Redraw(s, o, r);
      var rendered := s.monitorsActive && !r.result.Skipped? && r.drawn;
      && s'.outputs.Keys == s.outputs.Keys == s'.shown.Keys
      && (forall p | p in s.outputs && p != o ::
            s'.outputs[p].lockRender == s.outputs[p].lockRender && s'.shown[p] == s.shown[p])
      && s'.shown[o] == (if !rendered then s.shown[o]
                         else FrameFor(s.lock, s.outputs[o].transition))
      && s'.outputs[o].lockRender ==
           (if s.monitorsActive && r.result.Skipped? then s.outputs[o].lockRender
            else if IsLocked(s.lock) then RenderedLocked else RenderedUnlocked)
  {}

  lemma OffStaysBlank(s: State, e: Event)
    requires s.shown.Keys == s.outputs.Keys && Enabled(s, e) && OffMeansBlank(s)
    requires s.powerOffBlanks && Step(s, e).shown.Keys == Step(s, e).outputs.Keys
    ensures OffMeansBlank(Step(s, e))
  {
    PowerOnlyByRequest(s, e);
    match e
    case EAdd(_, _) =>
    case EPowerOff =>
    case ERedraw(p, r) => RedrawPicture(s, p, r);
    case _ => QuietPicture(s, e);
  }

  lemma PowerOnlyByRequest(s: State, e: Event)
    requires Enabled(s, e)
    ensures Step(s, e).powerOffBlanks == s.powerOffBlanks
    ensures Step(s, e).monitorsActive ==
            if e.EPowerOff? then false else s.monitorsActive || e.EPowerOn? || e.EUnlock?
  {
    match e
    case ECommit(_, _) =>
    case ERemove(o, moved, all) => RemoveKeepsPower(s, o, moved, all);
    case ERedraw(_, _) =>
    case _ =>
  }

  lemma RemoveKeepsPower(s: State, o: OutputId, moved: set<OutputId>, all: bool)
    ensures RemoveOutput(s, o, moved, all).powerOffBlanks == s.powerOffBlanks
    ensures RemoveOutput(s, o, moved, all).monitorsActive == s.monitorsActive
  {}

  ghost predicate ConfirmsAtMostOwner(s: State, s': State) {
    s'.confirmed == s.confirmed ||
    (s'.lock.Locked? && s'.confirmed == s.confirmed + [s'.lock.lock])
  }

  lemma RemoveConfirms(s: State, o: OutputId, moved: set<OutputId>, all: bool)
    ensures ConfirmsAtMostOwner(s, RemoveOutput(s, o, moved, all))
  {}

  /** A confirmation is sent alone, for the request that now owns the lock, with every output
      already rendered locked. */
  lemma ConfirmsOnlyWhenLocked(s: State, e: Event)
    requires Invariant(s) && Enabled(s, e)
    ensures ConfirmsAtMostOwner(s, Step(s, e))
    ensures Step(s, e).confirmed != s.confirmed ==> AllRenderedLocked(Step(s, e).outputs)
  {
    StepKeeps(s, e);
    assert LockedEverywhere(Step(s, e));
    match e
    case ERemove(o, moved, all) => RemoveConfirms(s, o, moved, all);
    case _ =>
  }

  /** The protocol's rule for one point of a run: in a locked session every output is rendered
      locked and none shows session contents; no request is confirmed twice; and a confirmation is
      sent alone, for the request that now owns the lock. */
  ghost predicate ObeysProtocol(before: State, after: State) {
    && after.shown.Keys == after.outputs.Keys
    && (after.lock.Locked? ==> AllRenderedLocked(after.outputs) && SessionHidden(after))
    && Distinct(after.confirmed)
    && (after.confirmed != before.confirmed ==>
          && after.lock.Locked?
          && after.confirmed == before.confirmed + [after.lock.lock]
          && after.lock.lock !in before.confirmed)
  }

  lemma StepObeysProtocol(s: State, e: Event)
    requires Invariant(s) && Enabled(s, e)
    ensures var s' := Step(s, e);
      ObeysProtocol(s, s') <==> (s'.lock.Locked? ==> forall o | o in s'.outputs :: !Lies(s', o))
  {
    StepKeeps(s, e);
    ConfirmsOnlyWhenLocked(s, e);
    var s' := Step(s, e);
    if s'.confirmed != s.confirmed {
      assert s'.confirmed[|s.confirmed|] == s'.lock.lock;
      assert s'.confirmed[..|s.confirmed|] == s.confirmed;
    }
    assert s'.lock.Locked? ==> AllRenderedLocked(s'.outputs);
    assert s'.lock.Locked? ==> (SessionHidden(s') <==> forall o | o in s'.outputs :: !Lies(s', o));
  }

  /** Step `k` of the run counts a session picture as locked. */
  ghost predicate ExposesAt(s: State, trace: seq<Event>, k: nat)
    requires k < |trace|
  {
    Possible(s, trace[..k]) && CountsPictureAsLocked(Run(s, trace[..k]), trace[k])
  }

  ghost predicate RepairsAt(s: State, trace: seq<Event>, k: nat, o: OutputId)
    requires k < |trace|
  {
    Possible(s, trace[..k]) && Repairs(Run(s, trace[..k]), trace[k], o)
  }

  /** Step `i` counted a session picture on `o` as locked, and no later one repaired that. */
  ghost predicate ExposedSince(s: State, trace: seq<Event>, o: OutputId, i: nat)
    requires i < |trace|
  {
    && ExposesAt(s, trace, i) && trace[i].o == o
    && forall j | i < j < |trace| :: !RepairsAt(s, trace, j, o)
  }

  ghost predicate StillExposed(s: State, trace: seq<Event>, o: OutputId) {
    exists i | 0 <= i < |trace| :: ExposedSince(s, trace, o, i)
  }

  /** With any backend, over whole runs: exactly when `RenderedLocked` is a lie. */
  lemma {:induction false} LiesExactly(s: State, trace: seq<Event>, o: OutputId)
    requires Invariant(s) && !Lies(s, o) && Possible(s, trace)
    ensures Invariant(Run(s, trace))
    ensures Lies(Run(s, trace), o) <==> StillExposed(s, trace, o)
    decreases |trace|
  {
    if trace != [] {
      var n := |trace| - 1;
      var before := trace[..n];
      StepThenRun(s, trace, n);
      assert trace[..n + 1] == trace;
      LiesExactly(s, before, o);
      LieExactly(Run(s, before), trace[n], o);
      StepKeeps(Run(s, before), trace[n]);
      ExposureGrows(s, trace, o);
    }
  }

  lemma PrefixAgrees(s: State, trace: seq<Event>, o: OutputId, n: nat, i: nat)
    requires i < n <= |trace|
    ensures ExposesAt(s, trace[..n], i) == ExposesAt(s, trace, i)
    ensures RepairsAt(s, trace[..n], i, o) == RepairsAt(s, trace, i, o)
  {
    assert trace[..n][..i] == trace[..i];
  }

  lemma ExposedOneLonger(s: State, trace: seq<Event>, o: OutputId, i: nat)
    requires i < |trace| - 1
    ensures
      var n := |trace| - 1;
      ExposedSince(s, trace, o, i) <==>
        ExposedSince(s, trace[..n], o, i) && !RepairsAt(s, trace, n, o)
  {
    var n := |trace| - 1;
    PrefixAgrees(s, trace, o, n, i);
    forall j | i < j < n ensures RepairsAt(s, trace[..n], j, o) == RepairsAt(s, trace, j, o) {
      PrefixAgrees(s, trace, o, n, j);
    }
  }

  lemma ExposureGrows(s: State, trace: seq<Event>, o: OutputId)
    requires trace != []
    ensures
      var n := |trace| - 1;
      StillExposed(s, trace, o) <==>
        || (ExposesAt(s, trace, n) && trace[n].o == o)
        || (StillExposed(s, trace[..n], o) && !RepairsAt(s, trace, n, o))
  {
    var n := |trace| - 1;
    forall i | 0 <= i < n
      ensures ExposedSince(s, trace, o, i) <==>
              ExposedSince(s, trace[..n], o, i) && !RepairsAt(s, trace, n, o)
    {
      ExposedOneLonger(s, trace, o, i);
    }
    assert ExposedSince(s, trace, o, n) <==> ExposesAt(s, trace, n) && trace[n].o == o;
  }

  /** With any backend, at every point of every run: the protocol's rule holds if and only if the
      session is not locked or no output is still exposed. */
  lemma LockedSessionIsHidden(powerOffBlanks: bool, trace: seq<Event>, k: nat)
    requires Possible(Initial(powerOffBlanks), trace) && k < |trace|
    ensures
      var s := Initial(powerOffBlanks);
      && Possible(s, trace[..k]) && Possible(s, trace[..k + 1])
      && var after := Run(s, trace[..k + 1]);
      && (ObeysProtocol(Run(s, trace[..k]), after) <==>
            (after.lock.Locked? ==>
               forall o | o in after.outputs :: !StillExposed(s, trace[..k + 1], o)))
  {
    var s := Initial(powerOffBlanks);
    StepThenRun(s, trace, k);
    RunKeeps(s, trace[..k]);
    StepObeysProtocol(Run(s, trace[..k]), trace[k]);
    var done := trace[..k + 1];
    var after := Run(s, done);
    forall o | o in after.outputs ensures Lies(after, o) <==> StillExposed(s, done, o) {
      LiesExactly(s, done, o);
    }
  }

  /** `RenderedLocked` is no lie after the first `k` steps. */
  ghost predicate HiddenAt(s: State, trace: seq<Event>, k: nat)
    requires k <= |trace|
  {
    Possible(s, trace[..k]) && LockedMeansHidden(Run(s, trace[..k]))
  }

  ghost predicate HiddenThroughout(s: State, trace: seq<Event>) {
    forall k | 0 <= k <= |trace| :: HiddenAt(s, trace, k)
  }

  ghost predicate NeverExposes(s: State, trace: seq<Event>) {
    forall k | 0 <= k < |trace| :: !ExposesAt(s, trace, k)
  }

  lemma HiddenUntil(s: State, trace: seq<Event>, n: nat)
    requires Invariant(s) && (forall o :: !Lies(s, o)) && Possible(s, trace) && n <= |trace|
    requires NeverExposes(s, trace)
    ensures HiddenAt(s, trace, n)
  {
    RunSplits(s, trace, n);
    var m := Run(s, trace[..n]);
    forall o ensures !Lies(m, o) {
      LiesExactly(s, trace[..n], o);
      forall i | 0 <= i < n ensures !ExposesAt(s, trace[..n], i) {
        assert trace[..n][..i] == trace[..i] && !ExposesAt(s, trace, i);
      }
    }
    assert LockedMeansHidden(m) <==> forall o | o in m.outputs :: !Lies(m, o);
  }

  /** With any backend: `RenderedLocked` means "shows no session contents" at every point of a run if
      and only if no step of the run counts a session picture as locked. */
  lemma HiddenThroughoutExactly(powerOffBlanks: bool, trace: seq<Event>)
    requires Possible(Initial(powerOffBlanks), trace)
    ensures var s := Initial(powerOffBlanks);
      HiddenThroughout(s, trace) <==> NeverExposes(s, trace)
  {
    var s := Initial(powerOffBlanks);
    if NeverExposes(s, trace) {
      forall k | 0 <= k <= |trace| ensures HiddenAt(s, trace, k) {
        HiddenUntil(s, trace, k);
      }
    } else {
      var k :| 0 <= k < |trace| && ExposesAt(s, trace, k);
      StepThenRun(s, trace, k);
      RunKeeps(s, trace[..k]);
      LieExactly(Run(s, trace[..k]), trace[k], trace[k].o);
      assert !HiddenAt(s, trace, k + 1);
    }
  }

  lemma {:induction false} StepThenRun(s: State, trace: seq<Event>, k: nat)
    requires Possible(s, trace) && k < |trace|
    ensures Possible(s, trace[..k]) && Possible(s, trace[..k + 1])
    ensures Enabled(Run(s, trace[..k]), trace[k])
    ensures Run(s, trace[..k + 1]) == Step(Run(s, trace[..k]), trace[k])
  {
    RunSplits(s, trace, k + 1);
    RunSplits(s, trace[..k + 1], k);
    assert trace[..k + 1][..k] == trace[..k];
    var rest := trace[..k + 1][k..];
    assert rest == [trace[k]];
    var m := Run(s, trace[..k]);
    assert Run(m, rest) == Run(Step(m, trace[k]), rest[1..]);
  }

  /** Nothing but the client's own unlock request ends a lock. */
  lemma OnlyUnlockEndsLock(s: State, e: Event)
    requires Invariant(s) && Enabled(s, e) && s.lock.Locked?
    ensures Step(s, e).lock.Locked? <==> !e.EUnlock?
  {}

  // ----- Which backends are safe -----

  /** Whatever the backend reports as done is on the output. */
  ghost predicate DrawsWhatItReports(trace: seq<Event>) {
    forall e | e in trace && e.ERedraw? && !e.outcome.result.Skipped? :: e.outcome.drawn
  }

  lemma {:induction false} SafeUntil(s: State, trace: seq<Event>, n: nat)
    requires s.powerOffBlanks && Invariant(s) && OffMeansBlank(s) && DrawsWhatItReports(trace)
    requires Possible(s, trace) && n <= |trace|
    ensures Possible(s, trace[..n])
    ensures var m := Run(s, trace[..n]);
      OffMeansBlank(m) && m.powerOffBlanks && Invariant(m) &&
      (n < |trace| ==> CountsPictureAsLocked(m, trace[n]) == DrawsUnderTransition(m, trace[n]))
    decreases n
  {
    RunSplits(s, trace, n);
    if n == 0 {
      assert trace[..0] == [];
    } else {
      SafeUntil(s, trace, n - 1);
      StepThenRun(s, trace, n - 1);
      StepKeeps(Run(s, trace[..n - 1]), trace[n - 1]);
      OffStaysBlank(Run(s, trace[..n - 1]), trace[n - 1]);
      PowerOnlyByRequest(Run(s, trace[..n - 1]), trace[n - 1]);
    }
    assert n < |trace| ==> trace[n] in trace;
  }

  /** Step `k` of the run draws a locked session's frame under a screen transition. */
  ghost predicate CoveredAt(s: State, trace: seq<Event>, k: nat)
    requires k < |trace|
  {
    Possible(s, trace[..k]) && DrawsUnderTransition(Run(s, trace[..k]), trace[k])
  }

  /** With a backend that blanks on power-off and draws what it reports, screen transitions are all
      that is left: `RenderedLocked` can be trusted throughout a run if and only if no frame of the
      locked session is drawn under one. */
  lemma HonestBackendExactly(trace: seq<Event>)
    requires Possible(Initial(true), trace) && DrawsWhatItReports(trace)
    ensures HiddenThroughout(Initial(true), trace) <==>
            forall k | 0 <= k < |trace| :: !CoveredAt(Initial(true), trace, k)
  {
    forall k | 0 <= k < |trace|
      ensures ExposesAt(Initial(true), trace, k) == CoveredAt(Initial(true), trace, k)
    {
      SafeUntil(Initial(true), trace, k);
    }
    HiddenThroughoutExactly(true, trace);
  }

  /** No screen transition is ever asked for. */
  ghost predicate NoTransitions(trace: seq<Event>) {
    forall e | e in trace :: !e.ETransition?
  }

  lemma {:induction false} StaysUncovered(s: State, trace: seq<Event>)
    requires Possible(s, trace) && NoTransitions(trace)
    requires forall o | o in s.outputs :: !s.outputs[o].transition
    ensures forall o | o in Run(s, trace).outputs :: !Run(s, trace).outputs[o].transition
    decreases |trace|
  {
    if trace != [] {
      assert trace[0] in trace;
      StepUncovered(s, trace[0]);
      StaysUncovered(Step(s, trace[0]), trace[1..]);
    }
  }

  lemma StepUncovered(s: State, e: Event)
    requires Enabled(s, e) && !e.ETransition?
    requires forall o | o in s.outputs :: !s.outputs[o].transition
    ensures forall o | o in Step(s, e).outputs :: !Step(s, e).outputs[o].transition
  {
    match e
    case ERemove(o, moved, all) => RemoveUncovered(s, o, moved, all);
    case _ =>
  }

  lemma RemoveUncovered(s: State, o: OutputId, moved: set<OutputId>, all: bool)
    requires forall p | p in s.outputs :: !s.outputs[p].transition
    ensures var s' := RemoveOutput(s, o, moved, all);
      forall p | p in s'.outputs :: !s'.outputs[p].transition
  {
    var s1 := s.(outputs := QueueSome(s.outputs, moved) - {o}, shown := s.shown - {o});
    assert forall p | p in s1.outputs :: !s1.outputs[p].transition;
    var s2 := ContinueToLocking(s1);
    assert forall p | p in s2.outputs :: !s2.outputs[p].transition;
  }

  lemma UncoveredHides(trace: seq<Event>)
    requires Possible(Initial(true), trace) && DrawsWhatItReports(trace) && NoTransitions(trace)
    ensures HiddenThroughout(Initial(true), trace)
  {
    forall k | 0 <= k < |trace| ensures !CoveredAt(Initial(true), trace, k) {
      RunSplits(Initial(true), trace, k);
      assert forall e | e in trace[..k] :: e in trace;
      StaysUncovered(Initial(true), trace[..k]);
    }
    HonestBackendExactly(trace);
  }

  /** What is known: the backend blanks on power-off, it draws what it reports, and no screen
      transitions are asked for. */
  ghost predicate AlwaysHides(blanks: bool, draws: bool, plain: bool) {
    forall trace | && Possible(Initial(blanks), trace) && (draws ==> DrawsWhatItReports(trace))
                   && (plain ==> NoTransitions(trace)) ::
      HiddenThroughout(Initial(blanks), trace)
  }

  /** `RenderedLocked` can be trusted in all runs exactly if all three are. */
  lemma AlwaysHidesExactly(blanks: bool, draws: bool, plain: bool)
    ensures AlwaysHides(blanks, draws, plain) <==> blanks && draws && plain
  {
    if blanks && draws && plain {
      forall trace | && Possible(Initial(blanks), trace) && (draws ==> DrawsWhatItReports(trace))
                     && (plain ==> NoTransitions(trace))
        ensures HiddenThroughout(Initial(blanks), trace)
      {
        UncoveredHides(trace);
      }
    } else {
      var trace;
      if !draws {
        trace := UndrawnFrameConfirms(blanks);
      } else if !blanks {
        trace := PictureStaysWithoutBlanking();
      } else {
        trace := TransitionCoversLock(blanks);
      }
      assert trace[..|trace|] == trace;
      assert !HiddenAt(Initial(blanks), trace, |trace|);
    }
  }

  /** The request is confirmed, and the output it is confirmed for shows the session. */
  ghost predicate ConfirmedButShown(s: State) {
    && s.lock == Locked(7) && 0 in s.outputs && s.outputs[0].lockRender.RenderedLocked?
    && 0 in s.shown && s.shown[0] == SessionFrame
  }

  /** With a backend that leaves the picture on a powered-off output, a session can be reported
      locked while an output still shows it. */
  lemma PictureStaysWithoutBlanking() returns (trace: seq<Event>)
    ensures Possible(Initial(false), trace) && DrawsWhatItReports(trace) && NoTransitions(trace)
    ensures ConfirmedButShown(Run(Initial(false), trace))
  {
    trace := ShownSession(false);
    trace := Then(Initial(false), trace, EPowerOff, Picture(false, Unlocked, Idle, false, false));
    trace := LockWhileShown(false, false, false, trace, true);
  }

  /** And so it can, blanking or not, with a backend that reports a frame it failed to draw. */
  lemma UndrawnFrameConfirms(blanks: bool) returns (trace: seq<Event>)
    ensures Possible(Initial(blanks), trace) && NoTransitions(trace)
    ensures ConfirmedButShown(Run(Initial(blanks), trace))
  {
    trace := ShownSession(blanks);
    trace := LockWhileShown(blanks, true, false, trace, false);
  }

  /** And so it can with any backend, however honest, if a screen transition was started before. */
  lemma TransitionCoversLock(blanks: bool) returns (trace: seq<Event>)
    ensures Possible(Initial(blanks), trace) && DrawsWhatItReports(trace)
    ensures ConfirmedButShown(Run(Initial(blanks), trace))
  {
    trace := ShownSession(blanks);
    var covered := Picture(blanks, Unlocked, Idle, true, true);
    assert SetTransitions(Picture(blanks, Unlocked, Idle, true, false).outputs, {0}, true)
        == covered.outputs;
    trace := Then(Initial(blanks), trace, ETransition({0}), covered);
    trace := LockWhileShown(blanks, true, true, trace, true);
  }

  /** One output with a session picture on it. */
  ghost function Picture(blanks: bool, lock: LockState, redraw: RedrawState, on: bool,
                         transition: bool): State {
    State(lock, map[0 := OutputState(redraw, RenderedUnlocked, None, transition)],
          if lock.WaitingForSurfaces? then {0} else {}, if lock.Unlocked? then 0 else 1, on, blanks,
          map[0 := SessionFrame], if lock.Unlocked? then {} else {7}, [], {})
  }

  lemma ShownSession(blanks: bool) returns (trace: seq<Event>)
    ensures Possible(Initial(blanks), trace) && DrawsWhatItReports(trace) && NoTransitions(trace)
    ensures Run(Initial(blanks), trace) == Picture(blanks, Unlocked, Idle, true, false)
  {
    var s := Initial(blanks);
    var added := s.(outputs := map[0 := OutputState(Queued, RenderedUnlocked, None, false)],
                    shown := map[0 := Blank]);
    assert AddOutput(s, 0, {}).outputs == added.outputs;
    trace := Then(s, [], EAdd(0, {}), added);
    trace := Then(s, trace, ERedraw(0, RenderOutcome(Submitted, true, Idle)),
                  Picture(blanks, Unlocked, Idle, true, false));
  }

  /** The session is locked, the deadline passes, and the redraw does not hide the session. */
  lemma LockWhileShown(blanks: bool, on: bool, transition: bool, start: seq<Event>, drawn: bool)
    returns (trace: seq<Event>)
    requires on && drawn ==> transition
    requires Possible(Initial(blanks), start)
    requires Run(Initial(blanks), start) == Picture(blanks, Unlocked, Idle, on, transition)
    ensures Possible(Initial(blanks), trace)
    ensures ConfirmedButShown(Run(Initial(blanks), trace))
    ensures drawn && DrawsWhatItReports(start) ==> DrawsWhatItReports(trace)
    ensures NoTransitions(start) ==> NoTransitions(trace)
  {
    var before := LockingWhileShown(blanks, on, transition, start);
    var e := ERedraw(0, RenderOutcome(Submitted, drawn, Idle));
    ConfirmedPicture(blanks, on, transition, drawn);
    assert Enabled(Run(Initial(blanks), before), e);
    Append(Initial(blanks), before, e);
    trace := before + [e];
  }

  lemma LockingWhileShown(blanks: bool, on: bool, transition: bool, start: seq<Event>)
    returns (trace: seq<Event>)
    requires Possible(Initial(blanks), start)
    requires Run(Initial(blanks), start) == Picture(blanks, Unlocked, Idle, on, transition)
    ensures trace == start + [ELock(7, false), EDeadline(0)]
    ensures Possible(Initial(blanks), trace)
    ensures Run(Initial(blanks), trace) == Picture(blanks, Locking(7), Queued, on, transition)
  {
    LockingPicture(blanks, on, transition);
    var s := Initial(blanks);
    trace := Then(s, start, ELock(7, false),
                  Picture(blanks, WaitingForSurfaces(7, 0), Idle, on, transition));
    trace := Then(s, trace, EDeadline(0), Picture(blanks, Locking(7), Queued, on, transition));
  }

  lemma LockingPicture(blanks: bool, on: bool, transition: bool)
    ensures LockRequest(Picture(blanks, Unlocked, Idle, on, transition), 7, false) ==
            Picture(blanks, WaitingForSurfaces(7, 0), Idle, on, transition)
    ensures DeadlineExpired(Picture(blanks, WaitingForSurfaces(7, 0), Idle, on, transition), 0) ==
            Picture(blanks, Locking(7), Queued, on, transition)
  {
    var s := Picture(blanks, WaitingForSurfaces(7, 0), Idle, on, transition);
    assert 0 in s.outputs && {} + {0} == {0} && {} + {7} == {7};
    assert QueueAll(s.outputs) == Picture(blanks, Locking(7), Queued, on, transition).outputs;
  }

  lemma ConfirmedPicture(blanks: bool, on: bool, transition: bool, drawn: bool)
    requires on && drawn ==> transition
    ensures ConfirmedButShown(
              Redraw(Picture(blanks, Locking(7), Queued, on, transition), 0,
                     RenderOutcome(Submitted, drawn, Idle)))
  {}

  /** One more step of a run. */
  lemma Then(s: State, trace: seq<Event>, e: Event, s': State) returns (longer: seq<Event>)
    requires Possible(s, trace) && Enabled(Run(s, trace), e) && Step(Run(s, trace), e) == s'
    ensures longer == trace + [e] && Possible(s, longer) && Run(s, longer) == s'
  {
    Append(s, trace, e);
    longer := trace + [e];
  }

  lemma {:induction false} Append(s: State, trace: seq<Event>, e: Event)
    requires Possible(s, trace) && Enabled(Run(s, trace), e)
    ensures Possible(s, trace + [e]) && Run(s, trace + [e]) == Step(Run(s, trace), e)
    decreases |trace|
  {
    if trace == [] {
      assert trace + [e] == [e] && [e][1..] == [];
    } else {
      Append(Step(s, trace[0]), trace[1..], e);
      assert (trace + [e])[1..] == trace[1..] + [e];
    }
  }

  // ----- The deadline timer -----

  /** A deadline that fires finds its own wait, so `continue_to_locking` is never called in a wrong
      state; afterwards the timer is gone. */
  lemma DeadlineFindsItsWait(s: State, token: Token)
    requires Invariant(s) && Enabled(s, EDeadline(token))
    ensures s.lock.WaitingForSurfaces? && s.lock.deadlineToken == token
    ensures var s' := Step(s, EDeadline(token));
      s'.lock == Locking(s.lock.confirmation) && s'.timers == {}
  {}

  // ----- Locking settles -----

  ghost function QueuedOutputs(s: State): set<OutputId> {
    set o | o in s.outputs && IsQueued(s.outputs[o].redraw)
  }

  /** How many redraws the redraw loop can still perform at most. */
  ghost function RedrawsLeft(s: State): nat {
    |QueuedOutputs(s)| + if s.lock.Locking? then |s.outputs| else 0
  }

  /** A failed redraw re-queues every output, but only by giving up the lock. */
  lemma RedrawDecreases(s: State, o: OutputId, r: RenderOutcome)
    requires o in s.outputs && IsQueued(s.outputs[o].redraw)
    ensures RedrawsLeft(Redraw(s, o, r)) < RedrawsLeft(s)
  {
    var s' := Redraw(s, o, r);
    assert s'.outputs.Keys == s.outputs.Keys;
    SameSize(s'.outputs, s.outputs);
    assert o in QueuedOutputs(s);
    if s.lock.Locking? && s'.lock.Unlocked? {
      assert QueuedOutputs(s') <= s'.outputs.Keys;
      Smaller(QueuedOutputs(s'), s'.outputs.Keys);
      Smaller({o}, QueuedOutputs(s));
    } else {
      assert QueuedOutputs(s') <= QueuedOutputs(s) - {o};
      Smaller(QueuedOutputs(s'), QueuedOutputs(s) - {o});
    }
  }

  lemma SameSize(a: map<OutputId, OutputState>, b: map<OutputId, OutputState>)
    requires a.Keys == b.Keys
    ensures |a| == |b| == |a.Keys|
  {}

  lemma {:induction false} Smaller(a: set<OutputId>, b: set<OutputId>)
    requires a <= b
    ensures |a| <= |b|
  {
    if a != {} {
      var x :| x in a;
      Smaller(a - {x}, b - {x});
    }
  }

  ghost predicate OnlyRedraws(trace: seq<Event>) {
    forall e | e in trace :: e.ERedraw?
  }

  /** However the backend answers, the redraw loop stops. */
  lemma {:induction false} RedrawLoopBounded(s: State, trace: seq<Event>)
    requires Possible(s, trace) && OnlyRedraws(trace)
    ensures |trace| + RedrawsLeft(Run(s, trace)) <= RedrawsLeft(s)
    decreases |trace|
  {
    if trace != [] {
      assert trace[0] in trace;
      RedrawDecreases(s, trace[0].o, trace[0].outcome);
      RedrawLoopBounded(Step(s, trace[0]), trace[1..]);
    }
  }

  /** Once nothing is queued, locking has succeeded or been given up. */
  lemma NothingQueuedNotLocking(s: State)
    requires Invariant(s) && QueuedOutputs(s) == {}
    ensures !s.lock.Locking?
  {
    assert forall o ::
        o in s.outputs && IsQueued(s.outputs[o].redraw) <==> o in QueuedOutputs(s);
    assert !HasPending(s);
  }

  /** Where the request `c` can be while the redraw loop runs. */
  ghost predicate OnItsWay(s: State, c: Locker) {
    s.lock == Locking(c) || s.lock == Locked(c) || (s.lock.Unlocked? && c in s.dropped)
  }

  ghost predicate RendersAll(trace: seq<Event>) {
    forall e | e in trace :: e.ERedraw? && !e.outcome.result.Skipped?
  }

  lemma {:induction false} RedrawsDecide(s: State, trace: seq<Event>, c: Locker)
    requires Invariant(s) && Possible(s, trace) && OnlyRedraws(trace) && OnItsWay(s, c)
    ensures Invariant(Run(s, trace)) && OnItsWay(Run(s, trace), c)
    ensures !s.lock.Unlocked? && RendersAll(trace) ==> !Run(s, trace).lock.Unlocked?
    decreases |trace|
  {
    if trace != [] {
      assert trace[0] in trace;
      StepKeeps(s, trace[0]);
      RedrawsDecide(Step(s, trace[0]), trace[1..], c);
    }
  }

  /** From any reachable wait for lock surfaces: once the deadline expires and the redraw loop has
      drawn whatever is queued, in any order and with any results, the request is confirmed or
      dropped; and it is confirmed if no render is skipped. */
  lemma LockingSettles(s: State, trace: seq<Event>)
    requires Invariant(s) && s.lock.WaitingForSurfaces?
    requires OnlyRedraws(trace)
    requires Enabled(s, EDeadline(s.lock.deadlineToken))
    requires Possible(Step(s, EDeadline(s.lock.deadlineToken)), trace)
    requires QueuedOutputs(Run(Step(s, EDeadline(s.lock.deadlineToken)), trace)) == {}
    ensures
      var c := s.lock.confirmation;
      var s' := Run(Step(s, EDeadline(s.lock.deadlineToken)), trace);
      && (s'.lock == Locked(c) || (s'.lock.Unlocked? && c in s'.dropped))
      && (RendersAll(trace) ==> s'.lock == Locked(c))
      && s'.timers == {}
  {
    var token := s.lock.deadlineToken;
    DeadlineFindsItsWait(s, token);
    StepKeeps(s, EDeadline(token));
    var s1 := Step(s, EDeadline(token));
    RedrawsDecide(s1, trace, s.lock.confirmation);
    NothingQueuedNotLocking(Run(s1, trace));
  }

  // ----- The headless backend -----

  ghost predicate PlainRedraws(s: State) {
    forall o | o in s.outputs :: s.outputs[o].redraw.Idle? || s.outputs[o].redraw.Queued?
  }

  /** `Headless::render` reports every frame as submitted, draws none and leaves the output idle. */
  ghost predicate HeadlessEvent(e: Event) {
    e.ERedraw? ==> e.outcome == RenderOutcome(Submitted, false, Idle)
  }

  /** With the headless backend every output it is asked to render is plainly `Queued`, so none of
      its `unreachable!()` arms is taken. */
  lemma {:induction false} HeadlessNeverUnreachable(s: State, trace: seq<Event>)
    requires Possible(s, trace) && PlainRedraws(s)
    requires forall e | e in trace :: HeadlessEvent(e)
    ensures PlainRedraws(Run(s, trace))
    ensures forall o | o in Run(s, trace).outputs && IsQueued(Run(s, trace).outputs[o].redraw) ::
              Run(s, trace).outputs[o].redraw == Queued
    decreases |trace|
  {
    if trace != [] {
      assert trace[0] in trace && HeadlessEvent(trace[0]);
      PlainKept(s, trace[0]);
      HeadlessNeverUnreachable(Step(s, trace[0]), trace[1..]);
    }
  }

  /** What it never draws it cannot expose: with the headless backend no output shows the session, so
      the protocol's rule holds throughout. */
  lemma HeadlessNeverExposes(trace: seq<Event>)
    requires Possible(Initial(false), trace) && forall e | e in trace :: HeadlessEvent(e)
    ensures NeverExposes(Initial(false), trace)
  {
    forall k | 0 <= k < |trace| ensures !ExposesAt(Initial(false), trace, k) {
      RunSplits(Initial(false), trace, k);
      assert forall e | e in trace[..k] :: e in trace;
      HeadlessStaysHidden(Initial(false), trace[..k]);
      assert trace[k] in trace;
    }
  }

  lemma {:induction false} HeadlessStaysHidden(s: State, trace: seq<Event>)
    requires Invariant(s) && Possible(s, trace) && SessionHidden(s)
    requires forall e | e in trace :: HeadlessEvent(e)
    ensures SessionHidden(Run(s, trace))
    decreases |trace|
  {
    if trace != [] {
      var e := trace[0];
      assert e in trace && HeadlessEvent(e);
      StepKeeps(s, e);
      HeadlessHides(s, e);
      HeadlessStaysHidden(Step(s, e), trace[1..]);
    }
  }

  lemma HeadlessHides(s: State, e: Event)
    requires Invariant(s) && Enabled(s, e) && SessionHidden(s) && HeadlessEvent(e)
    requires Step(s, e).shown.Keys == Step(s, e).outputs.Keys
    ensures SessionHidden(Step(s, e))
  {
    match e
    case EAdd(_, _) =>
    case EPowerOff =>
    case ERedraw(o, r) => RedrawPicture(s, o, r);
    case _ => QuietPicture(s, e);
  }

  lemma PlainKept(s: State, e: Event)
    requires Enabled(s, e) && PlainRedraws(s) && HeadlessEvent(e)
    ensures PlainRedraws(Step(s, e))
  {
    match e
    case EUnlock => PlainUnlock(s);
    case ERemove(o, moved, all) => PlainRemove(s, o, moved, all);
    case ECommit(o, mapped) => PlainCommit(s, o, mapped);
    case EDeadline(_) => PlainContinue(s);
    case ERedraw(o, r) => PlainRedraw(s, o);
    case _ =>
  }

  lemma PlainUnlock(s: State)
    requires PlainRedraws(s)
    ensures PlainRedraws(PowerOn(Unlock(s)))
  {}

  lemma PlainRemove(s: State, o: OutputId, moved: set<OutputId>, all: bool)
    requires PlainRedraws(s)
    ensures PlainRedraws(RemoveOutput(s, o, moved, all))
  {
    var s1 := s.(outputs := QueueSome(s.outputs, moved) - {o}, shown := s.shown - {o});
    assert PlainRedraws(s1);
    PlainContinue(s1);
  }

  lemma PlainCommit(s: State, o: OutputId, mapped: bool)
    requires PlainRedraws(s) && o in s.outputs
    ensures PlainRedraws(CommitLockSurface(s, o, mapped))
  {
    var s1 := s.(outputs := s.outputs[o := s.outputs[o].(surface := Some(mapped))]);
    assert PlainRedraws(s1);
    PlainContinue(s1);
  }

  lemma PlainContinue(s: State)
    requires PlainRedraws(s)
    ensures PlainRedraws(ContinueToLocking(s))
  {}

  lemma PlainRedraw(s: State, o: OutputId)
    requires PlainRedraws(s) && o in s.outputs
    ensures PlainRedraws(Redraw(s, o, RenderOutcome(Submitted, false, Idle)))
  {}
}
