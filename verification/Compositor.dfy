/**
 The compositor object itself: the fields that `Niri` updates in place, the loops over its outputs,
 and the redraw loop. Every method is proved to be one transition of the `SessionLock` machine.
 */
module Compositor {
  import opened Options
  import opened SessionLock
  import opened SessionLockTheorems

  class Niri {
    var lockState: LockState
    var outputState: map<OutputId, OutputState>
    var timers: set<Token>
    var nextToken: Token
    var monitorsActive: bool
    /** The backend is `Headless`; otherwise it is any other backend. */
    const headless: bool
    ghost const powerOffBlanks: bool
    ghost var shown: map<OutputId, Frame>
    ghost var issued: set<Locker>
    ghost var confirmed: seq<Locker>
    ghost var dropped: set<Locker>

    ghost function View(): State
      reads this
    {
      State(lockState, outputState, timers, nextToken, monitorsActive, powerOffBlanks,
            shown, issued, confirmed, dropped)
    }

    ghost predicate Valid()
      reads this
    {
      Invariant(View()) && (headless ==> PlainRedraws(View()))
    }

    constructor (headless: bool, ghost powerOffBlanks: bool)
      ensures Valid() && View() == Initial(powerOffBlanks) && this.headless == headless
    {
      lockState, outputState, timers, nextToken := Unlocked, map[], {}, 0;
      monitorsActive := true;
      this.headless := headless;
      this.powerOffBlanks := powerOffBlanks;
      shown, issued, confirmed, dropped := map[], {}, [], {};
    }

    /** Every output gets a redraw, soon, unless it has one coming. */
    method QueueRedrawAll()
      modifies `outputState
      ensures View() == old(View()).(outputs := QueueAll(old(outputState)))
    {
      var todo := outputState.Keys;
      while todo != {}
        invariant todo <= outputState.Keys == old(outputState).Keys
        invariant forall o | o in outputState ::
                    outputState[o] ==
                      if o in todo then old(outputState)[o] else QueueAll(old(outputState))[o]
        decreases todo
      {
        var o :| o in todo;
        outputState :=
          outputState[o := outputState[o].(redraw := QueueRedraw(outputState[o].redraw))];
        todo := todo - {o};
      }
      assert outputState == QueueAll(old(outputState));
    }

    method QueueRedraws(which: set<OutputId>)
      modifies `outputState
      ensures View() == old(View()).(outputs := QueueSome(old(outputState), which))
    {
      var todo := which * outputState.Keys;
      while todo != {}
        invariant todo <= which && outputState.Keys == old(outputState).Keys
        invariant todo <= outputState.Keys
        invariant forall o | o in outputState ::
                    outputState[o] ==
                      if o in todo then old(outputState)[o]
                      else QueueSome(old(outputState), which)[o]
        decreases todo
      {
        var o :| o in todo;
        outputState :=
          outputState[o := outputState[o].(redraw := QueueRedraw(outputState[o].redraw))];
        todo := todo - {o};
      }
      assert outputState == QueueSome(old(outputState), which);
    }

    /** Sends the `locked` event. */
    method ConfirmLock(c: Locker)
      modifies `lockState, `confirmed
      ensures View() == Confirm(old(View()), c)
    {
      lockState := Locked(c);
      confirmed := confirmed + [c];
    }

    method OnLockRequest(c: Locker, holderAlive: bool)
      requires Valid() && Enabled(View(), ELock(c, holderAlive))
      modifies this
      ensures Valid() && View() == Step(old(View()), ELock(c, holderAlive))
    {
      ghost var before := View();
      Lock(c, holderAlive);
      Kept(before, ELock(c, holderAlive));
    }

    method Lock(c: Locker, holderAlive: bool)
      modifies this
      ensures View() == LockRequest(old(View()), c, holderAlive)
    {
      issued := issued + {c};
      if lockState.WaitingForSurfaces? || lockState.Locking? {
        dropped := dropped + {c};
        return;
      }
      if lockState.Locked? {
        if holderAlive {
          dropped := dropped + {c};
          return;
        }
        ConfirmLock(c);
        return;
      }
      if outputState == map[] {
        ConfirmLock(c);
      } else {
        var deadlineToken := nextToken;
        timers := timers + {deadlineToken};
        nextToken := nextToken + 1;
        lockState := WaitingForSurfaces(c, deadlineToken);
      }
    }

    method ContinueToLocking()
      modifies this
      ensures View() == SessionLock.ContinueToLocking(old(View()))
    {
      match lockState
      case WaitingForSurfaces(confirmation, deadlineToken) =>
        timers := timers - {deadlineToken};
        if outputState == map[] {
          ConfirmLock(confirmation);
        } else {
          lockState := Locking(confirmation);
          QueueRedrawAll();
        }
      case _ =>
    }

    method MaybeContinueToLocking()
      modifies this
      ensures View() == SessionLock.MaybeContinueToLocking(old(View()))
    {
      if !lockState.WaitingForSurfaces? {
        return;
      }
      // Is there an output whose lock surface has not had a commit yet?
      var todo := outputState.Keys;
      while todo != {}
        invariant todo <= outputState.Keys && View() == old(View())
        invariant forall o | o in outputState && o !in todo :: outputState[o].surface == Some(true)
        decreases todo
      {
        var o :| o in todo;
        match outputState[o].surface {
          case None => return;
          case Some(mapped) => if !mapped { return; }
        }
        todo := todo - {o};
      }
      ContinueToLocking();
    }

    /** The deadline timer fires: its callback runs and the event loop drops it. */
    method OnDeadline(token: Token)
      requires Valid() && Enabled(View(), EDeadline(token))
      modifies this
      ensures Valid() && View() == Step(old(View()), EDeadline(token))
      ensures lockState == Locking(old(View()).lock.confirmation)
    {
      ghost var before := View();
      DeadlineFindsItsWait(before, token);
      ContinueToLocking();
      timers := timers - {token};
      Kept(before, EDeadline(token));
    }

    method Unlock()
      modifies this
      ensures View() == SessionLock.Unlock(old(View()))
    {
      var prev := lockState;
      lockState := Unlocked;
      dropped := dropped + Held(prev);
      if prev.WaitingForSurfaces? {
        timers := timers - {prev.deadlineToken};
      }
      outputState := map o | o in outputState :: outputState[o].(surface := None);
      QueueRedrawAll();
    }

    /** The client's unlock request. */
    method OnUnlockRequest()
      requires Valid()
      modifies this
      ensures Valid() && View() == Step(old(View()), EUnlock)
    {
      ghost var before := View();
      Unlock();
      ActivateMonitors();
      Kept(before, EUnlock);
    }

    method ActivateMonitors()
      modifies this
      ensures View() == PowerOn(old(View()))
    {
      if monitorsActive {
        return;
      }
      monitorsActive := true;
      QueueRedrawAll();
    }

    method DeactivateMonitors()
      requires Valid()
      modifies this
      ensures Valid() && View() == Step(old(View()), EPowerOff)
    {
      ghost var before := View();
      if monitorsActive {
        monitorsActive := false;
        if powerOffBlanks {
          shown := map o | o in shown :: Blank;
        }
      }
      Kept(before, EPowerOff);
    }

    method OnOutputAdded(output: OutputId, moved: set<OutputId>)
      requires Valid() && Enabled(View(), EAdd(output, moved))
      modifies this
      ensures Valid() && View() == Step(old(View()), EAdd(output, moved))
    {
      ghost var before := View();
      AddOutput(output, moved);
      Kept(before, EAdd(output, moved));
    }

    method AddOutput(output: OutputId, moved: set<OutputId>)
      modifies this
      ensures View() == SessionLock.AddOutput(old(View()), output, moved)
    {
      var lockRender := if IsLocked(lockState) then RenderedLocked else RenderedUnlocked;
      outputState := outputState[output := OutputState(Idle, lockRender, None, false)];
      shown := shown[output := Blank];
      QueueRedraws(moved + {output});
    }

    method OnOutputRemoved(output: OutputId, moved: set<OutputId>, redrawAll: bool)
      requires Valid() && Enabled(View(), ERemove(output, moved, redrawAll))
      modifies this
      ensures Valid() && View() == Step(old(View()), ERemove(output, moved, redrawAll))
    {
      ghost var before := View();
      RemoveOutput(output, moved, redrawAll);
      Kept(before, ERemove(output, moved, redrawAll));
    }

    method RemoveOutput(output: OutputId, moved: set<OutputId>, redrawAll: bool)
      modifies this
      ensures View() == SessionLock.RemoveOutput(old(View()), output, moved, redrawAll)
    {
      QueueRedraws(moved);
      outputState := outputState - {output};
      shown := shown - {output};
      match lockState {
        case Locking(confirmation) =>
          if AllRenderedLocked(outputState) {
            ConfirmLock(confirmation);
          }
        case _ =>
          MaybeContinueToLocking();
      }
      if redrawAll {
        QueueRedrawAll();
      }
    }

    /** A transition of the machine keeps the object valid. */
    ghost method Kept(before: State, e: Event)
      requires Invariant(before) && (headless ==> PlainRedraws(before) && HeadlessEvent(e))
      requires Enabled(before, e) && View() == Step(before, e)
      ensures Valid()
    {
      StepKeeps(before, e);
      if headless {
        PlainKept(before, e);
      }
    }

    method OnNewLockSurface(output: OutputId, sameClient: bool)
      requires Valid()
      modifies this
      ensures Valid() && View() == Step(old(View()), ENewSurface(output, sameClient))
    {
      ghost var before := View();
      NewLockSurface(output, sameClient);
      Kept(before, ENewSurface(output, sameClient));
    }

    method NewLockSurface(output: OutputId, sameClient: bool)
      modifies this
      ensures View() == SessionLock.NewLockSurface(old(View()), output, sameClient)
    {
      if lockState.Unlocked? {
        return;
      }
      if !sameClient {
        return;
      }
      if output !in outputState {
        return;
      }
      outputState := outputState[output := outputState[output].(surface := Some(false))];
    }

    method OnLockSurfaceCommit(output: OutputId, mapped: bool)
      requires Valid() && Enabled(View(), ECommit(output, mapped))
      modifies this
      ensures Valid() && View() == Step(old(View()), ECommit(output, mapped))
    {
      ghost var before := View();
      outputState := outputState[output := outputState[output].(surface := Some(mapped))];
      if lockState.WaitingForSurfaces? {
        MaybeContinueToLocking();
      } else {
        QueueRedraws({output});
      }
      Kept(before, ECommit(output, mapped));
    }

    /** The surface was destroyed, or lost its buffer in another way than by a commit. */
    method OnLockSurfaceUnmapped(output: OutputId)
      requires Valid() && Enabled(View(), EUnmapped(output))
      modifies this
      ensures Valid() && View() == Step(old(View()), EUnmapped(output))
    {
      ghost var before := View();
      outputState := outputState[output := outputState[output].(surface := Some(false))];
      Kept(before, EUnmapped(output));
    }

    /** A screen transition starts on the outputs whose snapshot could be rendered. */
    method DoScreenTransition(rendered: set<OutputId>)
      requires Valid() && Enabled(View(), ETransition(rendered))
      modifies this
      ensures Valid() && View() == Step(old(View()), ETransition(rendered))
    {
      ghost var before := View();
      MarkTransitions(rendered, true);
      Kept(before, ETransition(rendered));
    }

    /** Drops the screen transitions whose time is over. */
    method AdvanceAnimations(done: set<OutputId>)
      requires Valid()
      modifies this
      ensures Valid() && View() == Step(old(View()), ETransitionsDone(done))
    {
      ghost var before := View();
      MarkTransitions(done, false);
      Kept(before, ETransitionsDone(done));
    }

    method MarkTransitions(which: set<OutputId>, running: bool)
      modifies `outputState
      ensures View() == old(View()).(outputs := SetTransitions(old(outputState), which, running))
    {
      var todo := outputState.Keys;
      while todo != {}
        invariant todo <= outputState.Keys == old(outputState).Keys
        invariant forall o | o in outputState ::
                    outputState[o] ==
                      if o in todo then old(outputState)[o]
                      else SetTransitions(old(outputState), which, running)[o]
        decreases todo
      {
        var o :| o in todo;
        if o in which {
          outputState := outputState[o := outputState[o].(transition := running)];
        }
        todo := todo - {o};
      }
      assert outputState == SetTransitions(old(outputState), which, running);
    }

    /** `Headless::render`: the arms that the source declares unreachable are. */
    method RenderHeadless(output: OutputId) returns (result: RenderResult)
      requires output in outputState && outputState[output].redraw == Queued
      modifies `outputState
      ensures result == Submitted
      ensures outputState == old(outputState)[output := old(outputState)[output].(redraw := Idle)]
    {
      var before := outputState[output].redraw;
      outputState := outputState[output := outputState[output].(redraw := Idle)];
      match before {
        case Queued =>
        case _ => assert false;
      }
      result := Submitted;
    }

    /** Any other backend: an arbitrary result, whether or not the output was drawn, leaving an
        arbitrary redraw state. */
    method RenderAnyhow(output: OutputId) returns (result: RenderResult, ghost drawn: bool)
      requires output in outputState
      modifies `outputState
      ensures outputState.Keys == old(outputState).Keys
      ensures outputState ==
                old(outputState)[output :=
                  old(outputState)[output].(redraw := outputState[output].redraw)]
    {
      var left: RedrawState := *;
      result, drawn := *, *;
      outputState := outputState[output := outputState[output].(redraw := left)];
    }

    /** Draws one output. The source asserts `IsQueued` on entry. */
    method Redraw(output: OutputId) returns (ghost outcome: RenderOutcome)
      requires output in outputState && IsQueued(outputState[output].redraw)
      requires headless ==> outputState[output].redraw == Queued
      modifies this
      ensures View() == SessionLock.Redraw(old(View()), output, outcome)
      ensures headless ==> outcome == RenderOutcome(Submitted, false, Idle)
    {
      var res := Skipped;
      ghost var drawn := false;
      if monitorsActive {
        if headless {
          res := RenderHeadless(output);
        } else {
          res, drawn := RenderAnyhow(output);
        }
      }
      outcome := if monitorsActive then RenderOutcome(res, drawn, outputState[output].redraw)
                 else RenderOutcome(Submitted, false, Idle);

      var isLocked := IsLocked(lockState);
      var state := outputState[output];
      state := state.(redraw := RedrawAfter(res, state.redraw));
      if !res.Skipped? || !monitorsActive {
        state := state.(lockRender := if isLocked then RenderedLocked else RenderedUnlocked);
      }
      outputState := outputState[output := state];
      if !res.Skipped? && drawn {
        shown := shown[output := FrameFor(lockState, state.transition)];
      }
      assert outputState == old(outputState)[output := state];

      if lockState.Locking? {
        if state.lockRender.RenderedUnlocked? {
          // A locked frame was needed on this output.
          Unlock();
        } else if AllRenderedLocked(outputState) {
          ConfirmLock(lockState.confirmation);
        }
      }
    }

    /** Redraws until no output is queued. Terminates although a failed render re-queues every
        output, and leaves no lock request half way. */
    method RedrawQueuedOutputs() returns (ghost trace: seq<Event>)
      requires Valid()
      modifies this
      ensures Valid() && OnlyRedraws(trace)
      ensures Possible(old(View()), trace) && View() == Run(old(View()), trace)
      ensures QueuedOutputs(View()) == {} && !lockState.Locking?
      ensures |trace| <= RedrawsLeft(old(View()))
    {
      trace := [];
      ghost var start := View();
      while exists o | o in outputState :: IsQueued(outputState[o].redraw)
        invariant Valid() && OnlyRedraws(trace)
        invariant Possible(start, trace) && View() == Run(start, trace)
        decreases RedrawsLeft(View())
      {
        var output :| output in outputState && IsQueued(outputState[output].redraw);
        ghost var before := View();
        ghost var outcome := Redraw(output);
        Kept(before, ERedraw(output, outcome));
        RedrawDecreases(before, output, outcome);
        Append(start, trace, ERedraw(output, outcome));
        trace := trace + [ERedraw(output, outcome)];
      }
      assert QueuedOutputs(View()) == {};
      NothingQueuedNotLocking(View());
      RedrawLoopBounded(start, trace);
    }
  }
}
