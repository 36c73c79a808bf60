# niri: verified models

This project models the parts of the niri compositor whose correctness depends on more than one
function, and proves what they promise. Each part is a set of specification functions, the
operations in the form the program has them (objects updated in place, loops over outputs, windows
or nodes), proved against those functions, and theorems over all inputs or all runs.

- **Session lock and redraw scheduling** (`SessionLock`, `SessionLockTheorems`,
  `SessionLockHistory`, `Compositor`): the
  states of the lock, of every output and of the deadline timer, under lock and unlock requests,
  lock surfaces, output hotplug, monitor power and redraws with any result. It is the `locked` event
  rule of the Wayland protocol ext-session-lock-v1: confirm only once every output shows a locked
  frame.
- **Output placement** (`OutputNames`, `Placement`): the order of names, the two sorts, the greedy
  placement and its fallback.
- **Output configuration** (`OutputConfig`): reloads from disk against transient edits.
- **Event stream** (`EventStream`, `EventHistory`): the state kept by clients and the snapshot for late joiners.
- **Configuration files** (`ConfigIncludes`, `ConfigTheorems`, `ConfigOrder`): includes, repeated sections, binds.
- **Appearance rules** (`Appearance`): merging borders, focus rings, shadows and their rules.
- **Screencasts** (`CastPipeline`, `CastSize`): the buffer pipeline and the size negotiation.
- **Arithmetic** (`Bezier`, `FrameClock`): easing curves over the reals, the frame clock over
  nanoseconds.
- **Pointer input** (`HitTest`) and **timers** (`Timers`).

Some natural claims are false of the program; for each there is a concrete counterexample and the
exact condition under which the claim holds:

- `RenderedLocked` means that no session contents are shown: `PictureStaysWithoutBlanking`,
  `UndrawnFrameConfirms` and `TransitionCoversLock` against `LockedSessionIsHidden`,
  `HiddenThroughoutExactly`, `HonestBackendExactly`, `AlwaysHidesExactly` and, for one step,
  `PictureKeptExactly`.
- Placed outputs are disjoint: `OverlapHappens` against `NeverOverlapExactly`.
- The frame clock is monotone: `NotMonotone` against `FixedRateMonotoneExactly`.
- Folding shadow rules: `AmbiguousShadowRule` against `FoldedShadowRules`.
- Focus timestamps do not go back: `StampGoesBack` against `StampBackExactly`.
- They are updated only for a window that kept the focus, as the comment at src/niri.rs:1261-1262
  says: `StampedWithoutFocus` against `KeptFocusExactly`.
- A snapshot restores any client: `SnapshotKeepsOldLayouts` against `SnapshotExactWhen`.
- Input is consistent with the visuals, as the comment at src/niri.rs:3494-3495 asks:
  `ClosingOverviewMisses` (lower layers are drawn zoomed but tested unzoomed while the overview
  closes) and `StripMissesLayer` (the strip by which an output's geometry is rounded up) against
  `FollowsExactly`.

Inputs from outside are parameters: backend render results and the redraw state a backend leaves,
the order of hash-map iteration, whether a lock client is alive, which fences are signalled, the
current time, which files can be read, and the answers of the layout about what is under a point.

What the models take as given:

- Whether a frame that a backend reports is really on the output is an input of its own: the winit
  backend also reports `Submitted` when drawing failed (src/backend/winit.rs:598-604), and the
  headless backend draws nothing.
- The comment at src/niri.rs:4663-4665 says that powered-off monitors show nothing. Both compiled
  backends ignore power changes (src/backend/mod.rs:144-145), so blanking, too, is a property of
  the backend in the model.
- Connector names are unique; window and lock-request identities are not reused while in use.
- Any error emitted while decoding a file fails that file, and a failed include fails its parent.
- A screen transition cannot be asked for while the session is locked (src/input/mod.rs:664 and
  4542-4553). The pointer with its drag icon, the exit dialog and the notification about a broken
  configuration are drawn over the lock, too; they do not count as session contents.
- Windows, the window being moved and the layers other than the lower ones are tested where they
  are drawn, apart from cropping and zoom; the layout is rendered above the top layer only at rest
  (src/layout/monitor.rs:1629-1637), and then one workspace fills the output.

`dafny verify dfyconfig.toml` checks everything.

## Model

| member | source | states |
|---|---|---|
| `SessionLockTheorems.StepKeeps` | src/niri.rs:5920-6048 | Every operation of the lock (request, surfaces, deadline, unlock, hotplug, power, redraw with any result) keeps the whole invariant: `Locked` means all outputs rendered locked, locking makes progress, the deadline timer is owned, every request is accounted for |
| `SessionLockTheorems.ReachableInvariant` | src/niri.rs:3142-3163 | The invariant holds in every state reachable by any run, with any backend |
| `SessionLockTheorems.LockedSessionIsHidden` | src/niri.rs:4663-4699 | With any backend, at every point of every run: the protocol's rule (a locked session is rendered locked on every output and shown on none, no request is confirmed twice, a confirmation is sent alone and for the request that now owns the lock) holds if and only if the session is not locked or no output is still exposed, that is, had a session picture counted as locked by a step that no later step made good |
| `SessionLockTheorems.LiesExactly` | src/niri.rs:4645-4672 | Over any run, an output that counts as rendered locked shows the session exactly if it is still exposed |
| `SessionLockTheorems.LieExactly` | src/niri.rs:4663-4672 | The same for one step from any reachable state, exposed or not |
| `SessionLockTheorems.HiddenThroughoutExactly` | src/niri.rs:4663-4672 | With any backend: `RenderedLocked` means "shows no session contents" at every point of a run if and only if no step counts a session picture as locked |
| `SessionLockTheorems.HonestBackendExactly` | src/niri.rs:4340-4346 | With a backend that blanks on power-off and draws what it reports: `RenderedLocked` can be trusted throughout a run if and only if no frame of the locked session is drawn under a screen transition |
| `SessionLockTheorems.AlwaysHidesExactly` | src/backend/mod.rs:144-145 | `RenderedLocked` can be trusted in all runs if and only if the backend blanks on power-off, it draws what it reports, and no screen transitions are asked for |
| `SessionLockTheorems.HeadlessNeverExposes` | src/backend/headless.rs:129-153 | In every run with the headless backend, which draws nothing, no step counts a session picture as locked |
| `SessionLockTheorems.ConfirmsOnlyWhenLocked` | src/niri.rs:4682-4691 | One step sends at most one confirmation, for the request that owns the lock afterwards, with all outputs rendered locked |
| `SessionLockTheorems.PictureKeptExactly` | src/niri.rs:4663-4672 | `RenderedLocked` keeps meaning "shows no session contents" if and only if the step is not a redraw, while locking or locked, of an output that still shows the session, powered off or reported but not drawn, or of one drawn under a screen transition |
| `SessionLockTheorems.PictureStaysWithoutBlanking` | src/backend/mod.rs:144-145 | A concrete run, for a backend that draws what it reports but whose power-off does not blank, that ends locked with session contents still shown |
| `SessionLockTheorems.UndrawnFrameConfirms` | src/backend/winit.rs:598-604 | A concrete run, for any backend that reports a frame it failed to draw as submitted, that ends locked with session contents still shown |
| `SessionLockTheorems.TransitionCoversLock` | src/niri.rs:4340-4346 | A concrete run, for any backend, however honest, in which a screen transition started before the lock request keeps the session shown when the lock is confirmed |
| `SessionLockTheorems.OnlyUnlockEndsLock` | src/handlers/mod.rs:487-491 | From a locked state every step stays locked, except exactly the client's unlock request |
| `SessionLockTheorems.DeadlineFindsItsWait` | src/niri.rs:6005-6034 | A live deadline timer belongs to the current wait, so its callback never runs `continue_to_locking` in a wrong state; afterwards no timer is left |
| `SessionLockTheorems.RedrawDecreases` | src/niri.rs:4674-4680 | Each redraw lowers the number of redraws left, although a failed one re-queues every output |
| `SessionLockTheorems.RedrawLoopBounded` | src/niri.rs:3869-3882 | No run of redraws, with any backend answers, is longer than the queued outputs plus, while locking, all outputs |
| `SessionLockTheorems.NothingQueuedNotLocking` | src/niri.rs:4694-4699 | In an invariant state with nothing queued the session is not half way through locking |
| `SessionLockTheorems.LockingSettles` | src/niri.rs:5982-6034 | From any wait for lock surfaces: after the deadline and any exhaustive redraw sequence the request is confirmed or dropped, and confirmed if no render is skipped |
| `SessionLockTheorems.HeadlessNeverUnreachable` | src/backend/headless.rs:139-146 | In every run with the headless backend, each output the redraw loop picks is plainly `Queued`, the only state its renderer accepts |
| `SessionLockHistory.OwnerKeptExactly` | src/niri.rs:5931-5957 | A held lock changes hands or ends exactly by an unlock request, or by a lock request that finds its holder dead |
| `SessionLockHistory.OwnerStays` | src/niri.rs:5931-5957 | Over any run without these the owner stays the same, whatever else happens |
| `SessionLockHistory.RequestFate` | src/niri.rs:5920-5980 | A new request is confirmed at once exactly over a dead holder or without lock and outputs, waits with a timer of its own exactly without a lock and with outputs, and is refused otherwise; nothing else changes |
| `SessionLockHistory.WaitEndsExactly` | src/niri.rs:5982-6034 | A wait for surfaces ends exactly at an unlock, at its deadline, or at the commit or removal that leaves every output with a mapped surface; what follows each |
| `SessionLockHistory.WaitEndsByHistory` | src/niri.rs:5982-6003 | The same over whole runs: every output is ready if the last thing that happened to its surface is a commit with a buffer |
| `SessionLockHistory.LockingEndsExactly` | src/niri.rs:4674-4699 | Locking is given up exactly by an unlock or a skipped redraw of an output not yet rendered locked, and succeeds exactly by the redraw or removal that leaves all outputs rendered locked |
| `SessionLockHistory.UnlockedLeftExactly` | src/niri.rs:5920-5980 | Without a lock only a lock request changes that |
| `SessionLockHistory.FateDecidedBy` | src/niri.rs:6036-6048 | A request is dropped exactly when refused, or when held at an unlock or a give-up; it is confirmed exactly when its lock begins |
| `SessionLockHistory.OutputsAreAsSaid` | src/niri.rs:3069-3098 | After any run, each output's lock surface, screen transition and lock render state are what the last event about them says |
| `SessionLockHistory.PictureIsAsSaid` | src/niri.rs:4645-4672 | After any run, what an output shows is what the last event that drew, blanked, added or removed it says |
| `SessionLockHistory.QueuedExactly` | src/niri.rs:3857-3867 | Exactly the outputs that an event asks for are queued for redraw, and only a redraw takes one off the queue |
| `SessionLockHistory.QueueRedrawIs` | src/niri.rs:607-626 | Queueing makes a redraw certain, twice is once, and what the output waits for, with its token, is kept |
| `Compositor.Niri.QueueRedrawAll` | src/niri.rs:3857-3861 | The loop over the outputs queues a redraw on each and changes nothing else |
| `Compositor.Niri.Lock` | src/niri.rs:5920-5980 | The four outcomes of a lock request: refused, dead lock replaced, locked at once, or waiting with a fresh live deadline timer |
| `Compositor.Niri.MaybeContinueToLocking` | src/niri.rs:5982-6003 | Goes on exactly if waiting and every output has a committed lock surface |
| `Compositor.Niri.ContinueToLocking` | src/niri.rs:6005-6034 | Removes the timer, then locks at once without outputs or queues a redraw on each |
| `Compositor.Niri.Unlock` | src/niri.rs:6036-6048 | Drops the held request and its timer, forgets all lock surfaces, queues a redraw on each output |
| `Compositor.Niri.OnDeadline` | src/niri.rs:5966-5973 | The deadline callback keeps the object valid and always leads to `Locking` for the waiting request |
| `Compositor.Niri.AddOutput` | src/niri.rs:3069-3098 | A new output counts as locked exactly if the session is; it and the moved outputs are queued |
| `Compositor.Niri.RemoveOutput` | src/niri.rs:3100-3174 | Removal may complete a lock or a wait for surfaces; the result is that transition |
| `Compositor.Niri.NewLockSurface` | src/niri.rs:6129-6151 | Accepted only for a lock in progress or held by the same client, on a known output |
| `Compositor.Niri.OnLockSurfaceCommit` | src/handlers/compositor.rs:458-469 | A commit goes on with a pending lock or queues a redraw of its output |
| `Compositor.Niri.OnLockSurfaceUnmapped` | src/utils/mod.rs:202-205 | A surface that loses its buffer without a commit counts as not ready, with no follow-up |
| `Compositor.Niri.DoScreenTransition` | src/niri.rs:6324-6393 | Starts a transition on the outputs whose snapshot was rendered and changes nothing else |
| `Compositor.Niri.AdvanceAnimations` | src/niri.rs:4270-4276 | The loop over the outputs drops the transitions that are over and changes nothing else |
| `Compositor.Niri.ActivateMonitors` | src/niri.rs:3235-3244 | Powering on queues a redraw on each output, once |
| `Compositor.Niri.DeactivateMonitors` | src/niri.rs:3226-3233 | Powering off keeps the object valid and is the machine's power-off step |
| `Compositor.Niri.RenderHeadless` | src/backend/headless.rs:129-153 | From `Queued`: submits and leaves the output idle; the other arms are proved dead |
| `Compositor.Niri.Redraw` | src/niri.rs:4600-4699 | One redraw with any backend result is the machine's redraw step |
| `Compositor.Niri.RedrawQueuedOutputs` | src/niri.rs:3869-3882 | Terminates with nothing queued and the session not `Locking`; the outcome is a run of redraws of bounded length |
| `OutputNames.CompareIsTotal` | niri-config/src/output.rs:241-257 | Exactly one of less, equal, greater, consistently in both directions; equal only for equal names, never for different connectors |
| `OutputNames.CompareIsTransitive` | niri-config/src/output.rs:241-257 | The order is transitive |
| `OutputNames.CompareDecidedBy` | niri-config/src/output.rs:241-257 | Outputs without make, model and serial come last; else make, then model, then serial decides, unknown first; then the connector |
| `OutputNames.StringsDecidedAt` | niri-config/src/output.rs:241-257 | Strings are ordered by their first difference, a proper prefix first |
| `OutputNames.MatchesExactly` | niri-config/src/output.rs:190-237 | Word-by-word matching accepts exactly the connector and the formatted make, model and serial, ignoring ASCII case |
| `OutputNames.FormattedNameMatches` | niri-config/src/output.rs:175-188 | The printed name of an output selects that output |
| `OutputNames.CaseFolds` | niri-config/src/output.rs:190-237 | Exactly the ASCII letters are matched in both cases |
| `Placement.OrderArranges` | src/niri.rs:2929-2938 | The two sorts together arrange the outputs by (has no configured position, name) and lose none |
| `Placement.ArrangementUnique` | src/niri.rs:2929-2935 | There is one such arrangement, so the sorting algorithm does not matter |
| `Placement.PlacementIgnoresConnectionOrder` | src/niri.rs:2929-2938 | Any permutation of the connected outputs is placed identically |
| `Placement.ArrangeKeepsOutputs` | src/niri.rs:2945-2948 | Placement loses and duplicates no output |
| `Placement.RepositionIdempotent` | src/niri.rs:3005-3017 | Repositioning an arrangement again moves nothing, so nothing is redrawn or announced |
| `Placement.PlacedExactly` | src/niri.rs:2960-3003 | Each output is at its configured position if that is clear of all outputs placed before it, and otherwise at y 0 and the largest right edge among them, which one of them attains, or at the origin without any |
| `Placement.MovedExactly` | src/niri.rs:3005-3017 | An output counts as moved exactly if it is new or was somewhere else |
| `Placement.RoundingIs` | src/niri.rs:2958-2958 | The checked size is the nearest whole number, halves up; the mapped one the least that is not smaller |
| `Placement.NeverOverlapExactly` | src/niri.rs:2958-3001 | No configuration makes two outputs overlap if and only if, for every output that has another before it in name order, rounding up and to nearest agree on both sizes (each output being selectable by its connector) |
| `Placement.Overlapping` | src/niri.rs:2958-2971 | The configuration that makes a given such pair overlap, whatever else is connected |
| `Placement.ConnectorsName` | niri-config/src/output.rs:190-237 | Outputs are selectable by connector when no connector has a space and no two agree up to letter case |
| `Placement.HonouredDisjointExactly` | src/niri.rs:2960-2992 | If all configured outputs get their positions, no two outputs overlap if and only if no two configured ones overlap there with their sizes as mapped |
| `Placement.OverlapShape` | src/niri.rs:2958-2971 | What an overlap looks like: the extra pixel by which the later output is mapped larger than checked is taken by the earlier one |
| `Placement.OverlapAtMostOnePixel` | src/niri.rs:2958-2971 | Any overlap is at most one pixel thick |
| `Placement.NoOverlap` | src/niri.rs:2958-3001 | If rounding up and to nearest agree on the sizes of all outputs but the first in name order, no two outputs overlap, in any configuration |
| `Placement.OverlapHappens` | src/niri.rs:2958-2971 | A concrete pair of outputs and configuration that overlap |
| `Placement.ConfiguredOutputsHonoured` | src/niri.rs:2960-2992 | All configured outputs get exactly their positions if and only if, in name order, each is clear of the earlier configured ones |
| `Placement.UnconfiguredNeverDisturb` | src/niri.rs:2937-2938 | With the same configured outputs, the configured part of the placement is the same whatever else is connected |
| `Placement.GlobalSpace.RepositionOutputs` | src/niri.rs:2898-3018 | The mapped outputs become the arrangement of the connected ones with their current sizes; exactly those that changed place are queued for redraw, and a change is announced exactly if one did |
| `Placement.GlobalSpace.FindPosition` | src/niri.rs:2960-3003 | The configured position if free, else right of everything |
| `EventStream.LateJoinerCatchesUp` | niri-ipc/src/state.rs:16-23 | Default state plus a snapshot of any prefix plus the rest of the events gives the state of the full run, and the same panics |
| `EventStream.SnapshotRestores` | niri-ipc/src/state.rs:86-95 | What a snapshot, with hash-map values in any order, does to any client state |
| `EventStream.SnapshotExactWhen` | niri-ipc/src/state.rs:228-235 | A snapshot restores a client's state exactly if it carries keyboard layouts or the client has none |
| `EventStream.SnapshotKeepsOldLayouts` | niri-ipc/src/state.rs:228-235 | A concrete client with layouts and a snapshot of a state without any that leaves them |
| `EventStream.RunKeepsKeyed` | niri-ipc/src/state.rs:113-226 | In every reachable state each map key is its entry's id |
| `EventStream.RunStaysConsistent` | niri-ipc/src/state.rs:124-138 | At most one focused window, one focused workspace and one active workspace per output after any events, if whole-list events bring consistent lists |
| `EventStream.EventStreamState.ApplyEvent` | niri-ipc/src/state.rs:97-104 | The first part that takes the event applies it; ignored events change nothing; panics are exactly the failed expectations |
| `EventStream.EventStreamState.ApplyWorkspaceEvent` | niri-ipc/src/state.rs:113-152 | The workspace events, with their loops in any iteration order |
| `EventStream.EventStreamState.ApplyWindowEvent` | niri-ipc/src/state.rs:161-225 | The window events, including the loop that fails half way on an unknown window |
| `EventStream.EventStreamState.UpdateFirst` | niri-ipc/src/state.rs:196-214 | The loops that stop at the first match update the one window with that id, whatever the iteration order |
| `EventStream.EventStreamState.Replicate` | niri-ipc/src/state.rs:87-111 | Returns a snapshot of the state |
| `EventHistory.WindowsAreAsTold` | niri-ipc/src/state.rs:161-225 | After any stream of events a window is known exactly if the last event about its being open says so, and its focus, urgency, timestamp, layout and remaining fields are each what the last event about them says |
| `EventHistory.WorkspacesAreAsTold` | niri-ipc/src/state.rs:113-152 | The same for workspaces: presence, urgency, focus, active window, activity (also said by activating another one on the same output) and the rest |
| `EventHistory.LayoutsAreAsTold` | niri-ipc/src/state.rs:237-255 | The layout names and the current layout are what the last events about them say |
| `EventHistory.FlagsAreAsTold` | niri-ipc/src/state.rs:258-287 | The overview and configuration flags are what the last events about them say |
| `EventHistory.PanicsExactly` | niri-ipc/src/state.rs:97-104 | A stream of events panics exactly if one of them is about a window, workspace or layout list that is not there |
| `ConfigIncludes.Parser.DecodeChildren` | niri-config/src/lib.rs:138-392 | Terminates for every file graph; the shared configuration, include list and flag end up as the flattened list of the include tree says, also on failure; succeeds exactly if that list has no failure |
| `ConfigIncludes.Parser.ProcessInclude` | niri-config/src/lib.rs:293-382 | Depth limit, file name, recursion and read errors, and the nested file in place |
| `ConfigIncludes.Parser.MergeNode` | niri-config/src/lib.rs:215-291 | Merging one node, with the depth-dependent border rule and the one-time clearing of the default switcher binds |
| `ConfigIncludes.DecodeBindsSection` | niri-config/src/binds.rs:764-812 | The section keeps the first bind of each key, and is clean exactly if every child decodes and no key repeats |
| `ConfigTheorems.IncludeChainsBounded` | niri-config/src/lib.rs:301-332 | Every visited file is reached through distinct files, at most ten |
| `ConfigTheorems.SucceedsExactly` | niri-config/src/lib.rs:155-173 | Reading succeeds if and only if every file of the tree is free of unknown, undecodable and repeated sections and every include leads to a readable, not yet open file within the depth limit |
| `ConfigTheorems.LastSectionWins` | niri-config/src/lib.rs:218-226 | Overriding section by section leaves one bind per key, from the last section that has it |
| `ConfigTheorems.FieldsFollowSections` | niri-config/src/lib.rs:278-291 | Binds, switcher binds and border of the final configuration, each from its own sections of the flattened list; defaults are cleared once, by the first section with binds |
| `ConfigTheorems.BindsComeFromLastSection` | niri-config/src/recent_windows.rs:50-68 | Over any include tree, binds and switcher binds have distinct keys and each key its last definition, switcher binds starting from the defaults only if no section sets any |
| `ConfigTheorems.BorderFollowsDepth` | niri-config/src/lib.rs:242-276 | The final border is the default with all border parts of the tree merged in order |
| `ConfigOrder.BorderOffDecided` | niri-config/src/lib.rs:267-273 | Over the whole tree, whether the border ends up off is decided by the last border section that has a flag or that, without one, is in the root file, where it turns the border on; sections without a flag in included files decide nothing |
| `ConfigOrder.IncludeInPlace` | niri-config/src/lib.rs:345-382 | Reading a good file with an include is reading what precedes it, the included file, and what follows |
| `ConfigOrder.SectionsInOrder` | niri-config/src/lib.rs:138-173 | A good file without includes is read section by section |
| `ConfigOrder.TextsInOrder` | niri-config/src/lib.rs:175-210 | The other sections are kept, and the included files recorded, in the order in which they are met |
| `ConfigOrder.FirstBindKept` | niri-config/src/binds.rs:764-812 | A section keeps exactly the first bind of each key |
| `ConfigOrder.DefaultBindsAre` | niri-config/src/recent_windows.rs:223-253 | Alt or Mod with Tab or grave, forwards and with Shift backwards, grave within the application |
| `ConfigTheorems.Parse` | niri-config/src/lib.rs:427-464 | Returns the merged configuration exactly if the include tree is good, and the list of visited includes in any case |
| `Appearance.FoldedBorderRules` | niri-config/src/appearance.rs:683-696 | Merging any list of border rules into one and applying it equals applying them in order, for borders and focus rings |
| `Appearance.BorderAction` | niri-config/src/appearance.rs:315-331 | Merging two rules and applying the result is applying both; the empty rule does nothing |
| `Appearance.BorderRulesAssociate` | niri-config/src/macros.rs:45-71 | Merging rules is associative, with the empty rule on the right doing nothing |
| `Appearance.LastRuleDecides` | niri-config/src/macros.rs:31-57 | The last rule with a flag, width, colour, or any paint decides the result; a plain colour removes earlier gradients |
| `Appearance.UnsetStays` | niri-config/src/macros.rs:31-71 | Flag, width, colours and gradients that no rule of a list sets are as before |
| `Appearance.ShadowActionExactly` | niri-config/src/appearance.rs:369-374 | For shadows the two-rule law holds if and only if the later rule does not set both flags |
| `Appearance.FoldedShadowRules` | niri-config/src/appearance.rs:698-712 | For lists of shadow rules the law holds if and only if the last rule with a flag does not set both |
| `Appearance.AmbiguousShadowRule` | niri-config/src/macros.rs:59-71 | A single rule with both flags breaks it for every shadow |
| `Appearance.ShadowRulesDecide` | niri-config/src/appearance.rs:369-382 | Each field of a shadow is what the last rule that sets it says, or what it was |
| `Appearance.Border.MergeWith` | niri-config/src/appearance.rs:315-331 | In-place merging is the merge function |
| `Appearance.Border.ApplyWindowRules` | src/layout/tile.rs:183-183 | Resolving the rules first and merging once equals applying every rule in order |
| `Appearance.FocusRing.MergeWith` | niri-config/src/appearance.rs:333-339 | A focus ring is merged like a border |
| `Appearance.Shadow.MergeWith` | niri-config/src/appearance.rs:369-382 | In-place merging is the merge function |
| `CastPipeline.StepKeeps` | src/pw_utils.rs:910-961 | Rendering, fences, sources and buffer removal keep order, watching and conservation of frames |
| `CastPipeline.DeliveryInOrder` | src/pw_utils.rs:889-908 | In every run good frames reach PipeWire in rendering order, each at most once and only once its fence is signalled or could not be exported, and every other frame waits or lost its buffer |
| `CastPipeline.NeverStuck` | src/pw_utils.rs:674-693 | In every run, while a frame waits a source at least as old is still to fire, so nothing waits once all have fired |
| `CastPipeline.QueuesAllItCan` | src/pw_utils.rs:889-908 | Whenever frames are queued, all that can be are: the oldest one left is not complete |
| `CastPipeline.FramesAsRendered` | src/pw_utils.rs:1014-1019 | After any run each waiting frame is in the buffer it was rendered into, and as many buffers were submitted as corrupted as renders failed |
| `CastPipeline.RemovedExactly` | src/pw_utils.rs:676-682 | A frame is taken out exactly by removing the buffer in which it waits |
| `CastPipeline.FencesAreAsSaid` | src/pw_utils.rs:910-961 | After any run, which frames a source watches and which are complete is what the last event about each says |
| `CastPipeline.HeaderSeqIncreases` | src/pw_utils.rs:1268-1274 | The 64-bit header number grows between two frames exactly if the counter did not wrap between them |
| `CastPipeline.Cast.QueueCompletedBuffers` | src/pw_utils.rs:889-908 | Submits exactly the completed leading buffers, in order |
| `CastPipeline.Cast.SubmitRendered` | src/pw_utils.rs:1014-1019 | A rendered frame gets the next header number and enters the pipeline |
| `CastPipeline.Cast.OnSourceReady` | src/pw_utils.rs:944-959 | A source that fires is removed and submits what is complete |
| `CastPipeline.Cast.OnRemoveBuffer` | src/pw_utils.rs:676-682 | Exactly the entries of that buffer go, in place |
| `CastSize.ExpectsLastRequested` | src/pw_utils.rs:738-773 | After any run of requests and callbacks the expected size is the last requested one and a damage tracker has the negotiated size |
| `CastSize.ReadyMeansNegotiated` | src/pw_utils.rs:744-751 | A size request reports ready exactly if the stream is negotiated and that size was the last requested |
| `CastSize.NegotiatedAsSaid` | src/pw_utils.rs:340-532 | After any run the stream is ready if and only if the last thing that mattered was a callback of the expected size with a settled modifier, agreed on before or allocated there; alpha, modifier and plane count are the ones last allocated for that size; and there is a damage tracker if and only if a frame was rendered since they changed or it was cleared |
| `CastSize.StopsExactly` | src/pw_utils.rs:340-440 | Exactly when a callback stops the cast |
| `CastSize.ReportsExactly` | src/pw_utils.rs:738-773 | Exactly what a size request reports, a refused parameter update included |
| `CastSize.CallbackKeepsSize` | src/pw_utils.rs:340-352 | No callback changes the size under negotiation; one for another size is ignored while resizing and else stops the cast |
| `CastSize.CastInner.EnsureCastSize` | src/pw_utils.rs:738-773 | The size request, including the 32-bit conversion and a failed parameter update |
| `CastSize.CastInner.OnParamChanged` | src/pw_utils.rs:340-532 | The format callback's transitions |
| `Bezier.CoordinateGentle` | src/animation/bezier.rs:19-27 | With control values in the unit interval the coordinate never decreases and grows at most three times as fast as the parameter |
| `Bezier.TForXAccurate` | src/animation/bezier.rs:29-45 | Bisection returns a parameter whose x is within 3/2^32 of the input |
| `Bezier.BisectMonotone` | src/animation/bezier.rs:33-42 | Larger inputs are never inverted to smaller parameters, whatever the curve |
| `Bezier.EaseMonotone` | src/animation/bezier.rs:49-59 | An easing curve inside the unit square never runs backwards or overshoots, clamping included |
| `Bezier.DiagonalIsIdentity` | src/animation/bezier.rs:49-59 | A diagonal curve is the identity up to the bisection error |
| `Bezier.CurveIsBezier` | src/animation/bezier.rs:19-27 | Both coordinates are those of De Casteljau's construction from the control points (0, 0), (x1, y1), (x2, y2), (1, 1) |
| `Bezier.EaseOnCurve` | src/animation/bezier.rs:49-59 | Easing gives the height of that curve at a point whose x is the input up to the bisection error, and 0 and 1 at the ends |
| `Bezier.ComputeTForX` | src/animation/bezier.rs:29-45 | The loop computes the bisection, with that accuracy |
| `FrameClocks.FixedRatePrediction` | src/frame_clock.rs:68-96 | Without VRR: a grid point after now and at least an interval after the last presentation, at most two intervals on; the least grid point after now once that presentation is past |
| `FrameClocks.VariableRate` | src/frame_clock.rs:90-93 | With VRR: the later of now and one interval after the last presentation |
| `FrameClocks.FixedRateMonotoneExactly` | src/frame_clock.rs:68-83 | The prediction is monotone between two queries except exactly when the first is on time or over an interval early and the second within an interval of the last presentation |
| `FrameClocks.NotMonotone` | src/frame_clock.rs:68-71 | A concrete pair of queries that goes backwards |
| `FrameClocks.RunsStayOnGrid` | src/frame_clock.rs:85-96 | Frames presented when predicted stay on one grid and at least an interval apart, over whole runs |
| `FrameClocks.FrameClock.NextPresentationTime` | src/frame_clock.rs:56-97 | Never before now, never within an interval of the last presentation when both are known |
| `FrameClocks.FrameClock.SetVrr` | src/frame_clock.rs:34-41 | A change of mode forgets the last presentation; no change keeps it |
| `FrameClocks.FrameClock.Presented` | src/frame_clock.rs:47-54 | Zero times are ignored |
| `OutputConfig.ActiveIsDiskPlusEdits` | src/niri.rs:1493-1502 | After any interleaving, the active list is the last changed on-disk list with all later transient edits replayed in order |
| `OutputConfig.EditReachesOutput` | src/niri.rs:1790-1824 | The output the name resolved to finds the edited section, exactly if the edit leaves a matching name; other outputs' sections stay |
| `OutputConfig.EditChangesOne` | src/niri.rs:1790-1824 | An edit by name changes one section or adds one at the end; a whole edit replaces everything |
| `OutputConfig.MatchNameFirst` | src/niri.rs:1790-1800 | A name resolves to the first connected output that it selects or, without one, to an output with that connector |
| `OutputConfig.Outputs.ReloadConfig` | src/niri.rs:1493-1588 | A reload replaces the active list only if the file's list changed |
| `OutputConfig.Outputs.ModifyOutputConfig` | src/niri.rs:1790-1824 | Edits the first section matching the resolved output, or appends one under the user's name |
| `HitTest.FollowsExactly` | src/niri.rs:3494-3495 | At a point, whatever surfaces and windows there are, input follows the paint order (without the lower layers while the overview is open) if and only if: in a workspace, the overview is open or it is not zoomed or the point is its corner; elsewhere, no workspace can draw windows there |
| `HitTest.InputMatchesPainting` | src/niri.rs:3604-3648 | On the visible part of the output, with the overview open or nothing zoomed, the pointer's target is the topmost hit-testable thing of the paint order, without the lower layers in an open overview, hot corners first |
| `HitTest.BelowTopExactly` | src/niri.rs:4512-4558 | For one scene with the layout below the top layer: input follows the painting if and only if something in front is hit or the workspaces are drawn there as they are tested |
| `HitTest.WorkspacesAgree` | src/niri.rs:4526-4551 | All workspaces together are hit as the one workspace that can be drawn at the point, zoomed and cropped |
| `HitTest.FirstSurfaceHit` | src/niri.rs:3530-3568 | Of a layer the foremost surface hit counts; surfaces in the backdrop never are |
| `HitTest.AboveTopExactly` | src/niri.rs:4471-4510 | For one scene with the layout above the top layer: input follows the painting if and only if the point is in the workspace, or something in front of it is hit, or no window or lower layer painted there makes a difference |
| `HitTest.ClosingOverviewMisses` | src/niri.rs:3543-3551 | A concrete scene while the overview closes, in which a lower layer takes input where it is not drawn |
| `HitTest.StripMissesLayer` | src/niri.rs:3543-3551 | A concrete scene in which a painted lower layer takes no input |
| `Timers.TimerFindsItsCommit` | src/niri.rs:6524-6538 | In every reachable state a debounce timer that fires finds its own commit, which sets the time of its focus change and leaves no timer |
| `Timers.PendingKeptExactly` | src/niri.rs:1268-1290 | One step: a commit becomes pending for a window without the focus exactly when focus goes to another window stamped at once, leaves all windows, or the window closes |
| `Timers.KeptFocusExactly` | src/niri.rs:1261-1290 | After any run with a commit pending for an open window: the window has kept the focus since the commit began if and only if none of these steps came in between |
| `Timers.StampedWithoutFocus` | src/niri.rs:1258-1269 | A concrete run from the start in which a window that lost the focus is stamped by its timer |
| `Timers.FreshKeptExactly` | src/niri.rs:1235-1290 | One step from any reachable state: a pending commit is out of date exactly from the moment its window, having lost the focus, is focused again with a zero debounce time, until the commit is carried out, replaced, or its window closes |
| `Timers.StepBackExactly` | src/niri.rs:6524-6538 | A step sets a timestamp back exactly if it carries out a commit that is out of date |
| `Timers.StampBackExactly` | src/niri.rs:1235-1290 | After any run from the start, with any debounce times: the next step sets a timestamp back if and only if it carries out a commit whose window was stamped again since, by regaining the focus with a zero debounce time |
| `Timers.StampsNeverGoBack` | src/niri.rs:1263-1290 | With an unchanging debounce time no step of a run sets any timestamp back |
| `Timers.StampGoesBack` | src/niri.rs:1268-1289 | A concrete run from the start with a changed debounce time where one goes back |
| `Timers.StampsAreAsSaid` | src/niri.rs:1263-1290 | After any run a window's timestamp is what the last event about it says: opening, getting the focus, or a commit |
| `Timers.PendingBegins` | src/niri.rs:1268-1290 | A commit becomes pending exactly when another window with a timestamp gets the focus with a debounce time, for that window and time |
| `Timers.MruState.OnFocus` | src/niri.rs:1263-1290 | Stamps at once or starts a timer, replacing and removing the previous one |
| `Timers.MruState.ApplyKeyboardCommit` | src/niri.rs:6524-6538 | Commits and removes the timer |
| `Timers.PointerInactivity.Reset` | src/niri.rs:6457-6492 | At most one live timer, whose token is stored; a second reset in an iteration does nothing; without a timeout none is left |
| `Timers.PointerInactivity.OnTimeout` | src/niri.rs:6476-6487 | Only the stored timer can fire; a visible pointer becomes hidden, an invisible one stays as it is |

## Left out

- Rendering, dmabuf allocation, cursors, screenshots and PNG encoding: a render is reduced to its result and the kind of frame shown.
- Real and estimated VBlank handling, `VBlankThrottle`: the TTY backend that creates those states is not compiled; redraw states left by a backend are arbitrary, but no VBlank event occurs. Estimated-VBlank tokens are not tracked as live timers.
- The headless backend's frame callback counter: a plain wrapping increment.
- `Layout`, `Monitor` and `Workspace` internals: their answers are inputs.
- KDL decoding, error spans and the merging of sections other than binds, switcher binds and the layout border: such sections are kept as an ordered list of texts.
- Joining and stripping include paths: paths are taken as already joined with the including file's directory.
- Input-device configuration, `Action` conversions, debug flags, D-Bus, PipeWire pod building: easy case-by-case facts or plumbing.
- Springs, deceleration animations, and rounding in the Bézier code: `Bezier` is about real numbers, not doubles.
- Overflow of 32-bit coordinates in placement and of 64-bit nanoseconds in the frame clock.
- Tab indicator, insert hint and workspace shadow merging: the same pattern as the merges that are modelled.
- `dmabufs` of a screencast, frame pacing and scheduled redraws: no property beyond single lookups.
- Rounding of workspace positions and sizes to physical pixels in the hit test.
- The modal parts of `contents_under` (exit dialog, lock screen, screenshot and switcher UI): each returns a fixed answer before the modelled part.
