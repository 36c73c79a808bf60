/**
 The event stream state (niri-ipc): five state parts updated by events, and the snapshot that
 `replicate` sends to a client that connects later.
 */
module EventStream {
  import opened Options

  type Id = nat

  datatype Workspace = Workspace(
    id: Id,
    idx: nat,
    name: Option<string>,
    output: Option<string>,
    isUrgent: bool,
    isActive: bool,
    isFocused: bool,
    activeWindowId: Option<Id>)

  datatype Timestamp = Timestamp(secs: nat, nanos: nat)

  datatype WindowLayout = WindowLayout(column: Option<(nat, nat)>, width: int, height: int)

  datatype Window = Window(
    id: Id,
    title: Option<string>,
    appId: Option<string>,
    pid: Option<int>,
    workspaceId: Option<Id>,
    isFocused: bool,
    isFloating: bool,
    isUrgent: bool,
    layout: WindowLayout,
    focusTimestamp: Option<Timestamp>)

  datatype KeyboardLayouts = KeyboardLayouts(names: seq<string>, currentIdx: nat)

  datatype Event =
    | WorkspacesChanged(workspaces: seq<Workspace>)
    | WorkspaceUrgencyChanged(id: Id, urgent: bool)
    | WorkspaceActivated(id: Id, focused: bool)
    | WorkspaceActiveWindowChanged(workspaceId: Id, activeWindowId: Option<Id>)
    | WindowsChanged(windows: seq<Window>)
    | WindowOpenedOrChanged(window: Window)
    | WindowClosed(id: Id)
    | WindowFocusChanged(focus: Option<Id>)
    | WindowFocusTimestampChanged(id: Id, focusTimestamp: Option<Timestamp>)
    | WindowUrgencyChanged(id: Id, urgent: bool)
    | WindowLayoutsChanged(changes: seq<(Id, WindowLayout)>)
    | KeyboardLayoutsChanged(keyboardLayouts: KeyboardLayouts)
    | KeyboardLayoutSwitched(idx: nat)
    | OverviewOpenedOrClosed(isOpen: bool)
    | ConfigLoaded(failed: bool)
    | ScreenshotCaptured(path: Option<string>)

  type Workspaces = map<Id, Workspace>
  type Windows = map<Id, Window>

  datatype State = State(
    workspaces: Workspaces,
    windows: Windows,
    keyboardLayouts: Option<KeyboardLayouts>,
    overviewOpen: bool,
    configFailed: bool)

  const DEFAULT := State(map[], map[], None, false, false)

  /** What applying one event does: a new state, nothing (the event is not for this part), or a
      panic on a broken expectation. */
  datatype Outcome<T> = Applied(value: T) | Ignored | Panicked

  // ----- The five parts -----

  /** Collecting a list into a map by id: of several entries with one id the last. */
  function Collect<T>(list: seq<T>, id: T -> Id): map<Id, T> {
    if list == [] then map[]
    else
      var n := |list| - 1;
      Collect(list[..n], id)[id(list[n]) := list[n]]
  }

  function WorkspaceId(workspace: Workspace): Id {
    workspace.id
  }

  function WindowId(window: Window): Id {
    window.id
  }

  function ApplyToWorkspaces(m: Workspaces, e: Event): Outcome<Workspaces> {
    match e
    case WorkspacesChanged(list) => Applied(Collect(list, WorkspaceId))
    case WorkspaceUrgencyChanged(id, urgent) =>
      Applied(SetUrgent(m, id, urgent))
    case WorkspaceActivated(id, focused) =>
      if id !in m then Panicked else Applied(Activate(m, id, m[id].output, focused))
    case WorkspaceActiveWindowChanged(id, window) =>
      if id !in m then Panicked else Applied(m[id := m[id].(activeWindowId := window)])
    case _ => Ignored
  }

  function SetUrgent(m: Workspaces, id: Id, urgent: bool): Workspaces {
    map k | k in m :: if m[k].id == id then m[k].(isUrgent := urgent) else m[k]
  }

  function Activate(m: Workspaces, id: Id, output: Option<string>, focused: bool): Workspaces {
    map k | k in m :: Activated(m[k], id, output, focused)
  }

  function Activated(ws: Workspace, id: Id, output: Option<string>, focused: bool): Workspace {
    ws.(isActive := if ws.output == output then ws.id == id else ws.isActive,
        isFocused := if focused then ws.id == id else ws.isFocused)
  }

  function UnfocusOthers(m: Windows, id: Id): Windows {
    map k | k in m :: if m[k].id != id then m[k].(isFocused := false) else m[k]
  }

  function FocusOn(m: Windows, focus: Option<Id>): Windows {
    map k | k in m :: m[k].(isFocused := Some(m[k].id) == focus)
  }

  function ChangeLayouts(m: Windows, changes: seq<(Id, WindowLayout)>): Outcome<Windows> {
    if changes == [] then Applied(m)
    else
      var n := |changes| - 1;
      match ChangeLayouts(m, changes[..n])
      case Applied(m') =>
        var (id, layout) := changes[n];
        if id !in m' then Panicked else Applied(m'[id := m'[id].(layout := layout)])
      case other => other
  }

  function ApplyToWindows(m: Windows, e: Event): Outcome<Windows> {
    match e
    case WindowsChanged(list) => Applied(Collect(list, WindowId))
    case WindowOpenedOrChanged(window) =>
      var m' := m[window.id := window];
      Applied(if window.isFocused then UnfocusOthers(m', window.id) else m')
    case WindowClosed(id) => if id !in m then Panicked else Applied(m - {id})
    case WindowFocusChanged(focus) =>
      Applied(FocusOn(m, focus))
    case WindowFocusTimestampChanged(id, stamp) =>
      Applied(if id in m then m[id := m[id].(focusTimestamp := stamp)] else m)
    case WindowUrgencyChanged(id, urgent) =>
      Applied(if id in m then m[id := m[id].(isUrgent := urgent)] else m)
    case WindowLayoutsChanged(changes) => ChangeLayouts(m, changes)
    case _ => Ignored
  }

  function ApplyToLayouts(k: Option<KeyboardLayouts>, e: Event): Outcome<Option<KeyboardLayouts>> {
    match e
    case KeyboardLayoutsChanged(layouts) => Applied(Some(layouts))
    case KeyboardLayoutSwitched(idx) =>
      if k.None? then Panicked else Applied(Some(k.value.(currentIdx := idx)))
    case _ => Ignored
  }

  /** The composed state: the first part that does not ignore the event takes it. */
  function Apply(s: State, e: Event): Outcome<State> {
    match ApplyToWorkspaces(s.workspaces, e)
    case Applied(m) => Applied(s.(workspaces := m))
    case Panicked => Panicked
    case Ignored =>
      match ApplyToWindows(s.windows, e)
      case Applied(m) => Applied(s.(windows := m))
      case Panicked => Panicked
      case Ignored =>
        match ApplyToLayouts(s.keyboardLayouts, e)
        case Applied(k) => Applied(s.(keyboardLayouts := k))
        case Panicked => Panicked
        case Ignored =>
          match e
          case OverviewOpenedOrClosed(isOpen) => Applied(s.(overviewOpen := isOpen))
          case ConfigLoaded(failed) => Applied(s.(configFailed := failed))
          case _ => Ignored
  }

  /** The state after a stream of events, `None` if one of them panicked. */
  function Run(s: State, events: seq<Event>): Option<State>
    decreases |events|
  {
    if events == [] then Some(s)
    else
      match Apply(s, events[0])
      case Applied(s') => Run(s', events[1..])
      case Ignored => Run(s, events[1..])
      case Panicked => None
  }

  // ----- The key of every entry is its id -----

  ghost predicate Keyed(s: State) {
    && (forall k | k in s.workspaces :: s.workspaces[k].id == k)
    && (forall k | k in s.windows :: s.windows[k].id == k)
  }

  lemma {:induction false} CollectKeyed<T>(list: seq<T>, id: T -> Id)
    ensures forall k | k in Collect(list, id) ::
              id(Collect(list, id)[k]) == k && Collect(list, id)[k] in list
  {
    if list != [] {
      CollectKeyed(list[..|list| - 1], id);
    }
  }

  lemma {:induction false} ChangeLayoutsKeyed(m: Windows, changes: seq<(Id, WindowLayout)>)
    requires forall k | k in m :: m[k].id == k
    ensures !ChangeLayouts(m, changes).Ignored?
    ensures ChangeLayouts(m, changes).Applied? ==>
              var m' := ChangeLayouts(m, changes).value;
              && m'.Keys == m.Keys
              && forall k | k in m' ::
                   m'[k].id == k && m'[k] == m[k].(layout := m'[k].layout)
  {
    if changes != [] {
      ChangeLayoutsKeyed(m, changes[..|changes| - 1]);
    }
  }

  lemma ApplyKeepsKeyed(s: State, e: Event)
    requires Keyed(s)
    ensures Apply(s, e).Applied? ==> Keyed(Apply(s, e).value)
  {
    WorkspacesStayKeyed(s.workspaces, e);
    WindowsStayKeyed(s.windows, e);
  }

  lemma WorkspacesStayKeyed(m: Workspaces, e: Event)
    requires forall k | k in m :: m[k].id == k
    ensures ApplyToWorkspaces(m, e).Applied? ==>
              var m' := ApplyToWorkspaces(m, e).value;
              forall k | k in m' :: m'[k].id == k
  {
    if e.WorkspacesChanged? {
      CollectKeyed(e.workspaces, WorkspaceId);
    }
  }

  lemma WindowsStayKeyed(m: Windows, e: Event)
    requires forall k | k in m :: m[k].id == k
    ensures ApplyToWindows(m, e).Applied? ==>
              var m' := ApplyToWindows(m, e).value;
              forall k | k in m' :: m'[k].id == k
  {
    match e
    case WindowsChanged(list) => CollectKeyed(list, WindowId);
    case WindowLayoutsChanged(changes) => ChangeLayoutsKeyed(m, changes);
    case _ =>
  }

  lemma {:induction false} RunKeepsKeyed(s: State, events: seq<Event>)
    requires Keyed(s)
    ensures Run(s, events).Some? ==> Keyed(Run(s, events).value)
    decreases |events|
  {
    if events != [] {
      ApplyKeepsKeyed(s, events[0]);
      match Apply(s, events[0])
      case Applied(s') => RunKeepsKeyed(s', events[1..]);
      case Ignored => RunKeepsKeyed(s, events[1..]);
      case Panicked =>
    }
  }

  // ----- Snapshots -----

  /** The values of a hash map in some order. */
  ghost predicate Enumerates<T>(list: seq<T>, m: map<Id, T>) {
    && (forall x | x in list :: exists k :: k in m && m[k] == x)
    && (forall k | k in m :: m[k] in list)
  }

  /** `events` is something `replicate` can return for `s`. */
  ghost predicate IsSnapshot(s: State, events: seq<Event>) {
    exists workspaces: seq<Workspace>, windows: seq<Window> ::
      && Enumerates(workspaces, s.workspaces)
      && Enumerates(windows, s.windows)
      && events == SnapshotOf(s, workspaces, windows)
  }

  function SnapshotOf(s: State, workspaces: seq<Workspace>, windows: seq<Window>): seq<Event> {
    [WorkspacesChanged(workspaces), WindowsChanged(windows)]
    + (if s.keyboardLayouts.Some? then [KeyboardLayoutsChanged(s.keyboardLayouts.value)] else [])
    + [OverviewOpenedOrClosed(s.overviewOpen), ConfigLoaded(s.configFailed)]
  }

  lemma {:induction false} CollectsAll<T>(list: seq<T>, id: T -> Id, x: T)
    requires x in list && forall y | y in list && id(y) == id(x) :: y == x
    ensures id(x) in Collect(list, id) && Collect(list, id)[id(x)] == x
  {
    var n := |list| - 1;
    if id(list[n]) != id(x) {
      assert x in list[..n];
      CollectsAll(list[..n], id, x);
    }
  }

  /** Collecting the values by id rebuilds a map whose keys are the ids. */
  lemma CollectRebuilds<T>(m: map<Id, T>, list: seq<T>, id: T -> Id)
    requires Enumerates(list, m) && forall k | k in m :: id(m[k]) == k
    ensures Collect(list, id) == m
  {
    CollectKeyed(list, id);
    forall k | k in m ensures k in Collect(list, id) && Collect(list, id)[k] == m[k] {
      CollectsAll(list, id, m[k]);
    }
    assert Collect(list, id).Keys == m.Keys;
  }

  lemma {:induction false} RunConcat(s: State, a: seq<Event>, b: seq<Event>)
    ensures Run(s, a + b) == if Run(s, a).Some? then Run(Run(s, a).value, b) else None
    decreases |a|
  {
    if a == [] {
      assert a + b == b;
    } else {
      assert (a + b)[1..] == a[1..] + b;
      match Apply(s, a[0])
      case Applied(s') => RunConcat(s', a[1..], b);
      case Ignored => RunConcat(s, a[1..], b);
      case Panicked =>
    }
  }

  /** What a snapshot does to a client that already has a state: it restores everything, except
      that it cannot take keyboard layouts away. */
  lemma SnapshotRestores(t: State, s: State, events: seq<Event>)
    requires Keyed(s) && IsSnapshot(s, events)
    ensures Run(t, events) ==
            Some(if s.keyboardLayouts.Some? then s else s.(keyboardLayouts := t.keyboardLayouts))
  {
    var workspaces, windows :|
      && Enumerates(workspaces, s.workspaces)
      && Enumerates(windows, s.windows)
      && events == SnapshotOf(s, workspaces, windows);
    var head := [WorkspacesChanged(workspaces), WindowsChanged(windows)];
    var layouts :=
      if s.keyboardLayouts.Some? then [KeyboardLayoutsChanged(s.keyboardLayouts.value)] else [];
    var tail := [OverviewOpenedOrClosed(s.overviewOpen), ConfigLoaded(s.configFailed)];
    assert events == head + (layouts + tail);
    RunConcat(t, head, layouts + tail);
    MapsRestored(t, s, workspaces, windows);
    var s1 := t.(workspaces := s.workspaces, windows := s.windows);
    RunConcat(s1, layouts, tail);
    LayoutsRestored(s1, s);
    var s2 := if s.keyboardLayouts.Some? then s1.(keyboardLayouts := s.keyboardLayouts) else s1;
    FlagsRestored(s2, s);
  }

  lemma MapsRestored(t: State, s: State, workspaces: seq<Workspace>, windows: seq<Window>)
    requires Keyed(s) && Enumerates(workspaces, s.workspaces) && Enumerates(windows, s.windows)
    ensures Run(t, [WorkspacesChanged(workspaces), WindowsChanged(windows)]) ==
            Some(t.(workspaces := s.workspaces, windows := s.windows))
  {
    CollectRebuilds(s.workspaces, workspaces, WorkspaceId);
    CollectRebuilds(s.windows, windows, WindowId);
    RunTwo(t, [WorkspacesChanged(workspaces), WindowsChanged(windows)],
           t.(workspaces := s.workspaces), t.(workspaces := s.workspaces, windows := s.windows));
  }

  lemma LayoutsRestored(t: State, s: State)
    ensures
      Run(t, if s.keyboardLayouts.Some? then [KeyboardLayoutsChanged(s.keyboardLayouts.value)] else [])
      == Some(if s.keyboardLayouts.Some? then t.(keyboardLayouts := s.keyboardLayouts) else t)
  {}

  lemma FlagsRestored(t: State, s: State)
    ensures Run(t, [OverviewOpenedOrClosed(s.overviewOpen), ConfigLoaded(s.configFailed)]) ==
            Some(t.(overviewOpen := s.overviewOpen, configFailed := s.configFailed))
  {
    RunTwo(t, [OverviewOpenedOrClosed(s.overviewOpen), ConfigLoaded(s.configFailed)],
           t.(overviewOpen := s.overviewOpen),
           t.(overviewOpen := s.overviewOpen, configFailed := s.configFailed));
  }

  lemma RunTwo(s: State, events: seq<Event>, s1: State, s2: State)
    requires |events| == 2 && Apply(s, events[0]) == Applied(s1) && Apply(s1, events[1]) == Applied(s2)
    ensures Run(s, events) == Some(s2)
  {
    assert events[1..][0] == events[1] && events[1..][1..] == [];
    assert Run(s1, events[1..]) == Run(s2, []);
  }

  /** A snapshot restores the state of any client exactly if it carries keyboard layouts or the
      client has none. */
  lemma SnapshotExactWhen(t: State, s: State, events: seq<Event>)
    requires Keyed(s) && IsSnapshot(s, events)
    ensures Run(t, events) == Some(s) <==> (s.keyboardLayouts.Some? || t.keyboardLayouts.None?)
  {
    SnapshotRestores(t, s, events);
  }

  /** For instance, a client that has been told of layouts keeps them through the snapshot of a state
      that has none. */
  lemma SnapshotKeepsOldLayouts(layouts: KeyboardLayouts)
    returns (t: State, s: State, events: seq<Event>)
    ensures Run(DEFAULT, [KeyboardLayoutsChanged(layouts)]) == Some(t)
    ensures s == DEFAULT && IsSnapshot(s, events)
    ensures Run(t, events).Some? && Run(t, events) != Some(s)
    ensures Run(t, events).value.keyboardLayouts == Some(layouts)
  {
    t, s := DEFAULT.(keyboardLayouts := Some(layouts)), DEFAULT;
    assert [KeyboardLayoutsChanged(layouts)][1..] == [];
    assert Run(DEFAULT, [KeyboardLayoutsChanged(layouts)]) == Run(t, []);
    assert Enumerates<Workspace>([], s.workspaces) && Enumerates<Window>([], s.windows);
    events := SnapshotOf(s, [], []);
    SnapshotRestores(t, s, events);
  }

  /** A client that joins late and is sent a snapshot is, from then on, where it would have been had
      it seen every event: the same state after every continuation, and the same panics. */
  lemma LateJoinerCatchesUp(prefix: seq<Event>, suffix: seq<Event>, snapshot: seq<Event>)
    requires Run(DEFAULT, prefix).Some?
    requires IsSnapshot(Run(DEFAULT, prefix).value, snapshot)
    ensures Run(DEFAULT, snapshot + suffix) == Run(DEFAULT, prefix + suffix)
  {
    var s := Run(DEFAULT, prefix).value;
    RunKeepsKeyed(DEFAULT, prefix);
    SnapshotRestores(DEFAULT, s, snapshot);
    RunConcat(DEFAULT, prefix, suffix);
    RunConcat(DEFAULT, snapshot, suffix);
  }

  // ----- Focus and activity -----

  ghost predicate OneFocusedWindow(m: Windows) {
    forall a, b | a in m && b in m && m[a].isFocused && m[b].isFocused :: a == b
  }

  ghost predicate OneFocusedWorkspace(m: Workspaces) {
    forall a, b | a in m && b in m && m[a].isFocused && m[b].isFocused :: a == b
  }

  ghost predicate OneActivePerOutput(m: Workspaces) {
    forall a, b | a in m && b in m && m[a].isActive && m[b].isActive && m[a].output == m[b].output ::
      a == b
  }

  ghost predicate Consistent(s: State) {
    OneFocusedWindow(s.windows) && OneFocusedWorkspace(s.workspaces) &&
    OneActivePerOutput(s.workspaces)
  }

  /** An event that replaces a whole map brings a consistent one, and a changed workspace list is the
      only thing that moves workspaces between outputs. */
  ghost predicate ConsistentPayload(e: Event) {
    && (e.WindowsChanged? ==> OneFocusedWindow(Collect(e.windows, WindowId)))
    && (e.WorkspacesChanged? ==>
          OneFocusedWorkspace(Collect(e.workspaces, WorkspaceId)) &&
          OneActivePerOutput(Collect(e.workspaces, WorkspaceId)))
  }

  lemma WindowsStayConsistent(m: Windows, e: Event)
    requires (forall k | k in m :: m[k].id == k) && OneFocusedWindow(m) && ConsistentPayload(e)
    ensures ApplyToWindows(m, e).Applied? ==> OneFocusedWindow(ApplyToWindows(m, e).value)
  {
    if e.WindowLayoutsChanged? {
      ChangeLayoutsKeyed(m, e.changes);
    }
  }

  lemma WorkspacesStayConsistent(m: Workspaces, e: Event)
    requires (forall k | k in m :: m[k].id == k) && ConsistentPayload(e)
    requires OneFocusedWorkspace(m) && OneActivePerOutput(m)
    ensures ApplyToWorkspaces(m, e).Applied? ==>
              OneFocusedWorkspace(ApplyToWorkspaces(m, e).value) &&
              OneActivePerOutput(ApplyToWorkspaces(m, e).value)
  {}

  /** At most one window is focused, at most one workspace is focused and each output has at most one
      active workspace, after every stream of events. */
  lemma {:induction false} RunStaysConsistent(s: State, events: seq<Event>)
    requires Keyed(s) && Consistent(s) && forall e | e in events :: ConsistentPayload(e)
    ensures Run(s, events).Some? ==> Consistent(Run(s, events).value)
    decreases |events|
  {
    if events != [] {
      var e := events[0];
      assert e in events;
      ApplyKeepsKeyed(s, e);
      WindowsStayConsistent(s.windows, e);
      WorkspacesStayConsistent(s.workspaces, e);
      match Apply(s, e)
      case Applied(s') => RunStaysConsistent(s', events[1..]);
      case Ignored => RunStaysConsistent(s, events[1..]);
      case Panicked =>
    }
  }

  // ----- The state object -----

  class EventStreamState {
    var workspaces: Workspaces
    var windows: Windows
    var keyboardLayouts: Option<KeyboardLayouts>
    var overviewOpen: bool
    var configFailed: bool

    ghost function View(): State
      reads this
    {
      State(workspaces, windows, keyboardLayouts, overviewOpen, configFailed)
    }

    constructor ()
      ensures View() == DEFAULT
    {
      workspaces, windows, keyboardLayouts := map[], map[], None;
      overviewOpen, configFailed := false, false;
    }

    /** Applies an event. After a panic there is no state to speak of. */
    method ApplyEvent(e: Event) returns (result: Outcome<()>)
      requires Keyed(View())
      modifies this
      ensures result.Applied? ==> Apply(old(View()), e) == Applied(View()) && Keyed(View())
      ensures result.Ignored? ==> Apply(old(View()), e) == Ignored && View() == old(View())
      ensures result.Panicked? ==> Apply(old(View()), e) == Panicked
    {
      ghost var before := View();
      result := ApplyToParts(e);
      ApplyKeepsKeyed(before, e);
    }

    method ApplyToParts(e: Event) returns (result: Outcome<()>)
      requires Keyed(View())
      modifies this
      ensures result.Applied? ==> Apply(old(View()), e) == Applied(View())
      ensures result.Ignored? ==> Apply(old(View()), e) == Ignored && View() == old(View())
      ensures result.Panicked? ==> Apply(old(View()), e) == Panicked
    {
      result := ApplyWorkspaceEvent(e);
      if !result.Ignored? { return; }
      result := ApplyWindowEvent(e);
      if !result.Ignored? { return; }
      result := ApplyOtherEvent(e);
    }

    /** The keyboard layouts, overview and config parts. */
    method ApplyOtherEvent(e: Event) returns (result: Outcome<()>)
      requires ApplyToWorkspaces(workspaces, e).Ignored? && ApplyToWindows(windows, e).Ignored?
      modifies `keyboardLayouts, `overviewOpen, `configFailed
      ensures result.Applied? ==> Apply(old(View()), e) == Applied(View())
      ensures result.Ignored? ==> Apply(old(View()), e) == Ignored && View() == old(View())
      ensures result.Panicked? ==> Apply(old(View()), e) == Panicked
    {
      match e {
        case KeyboardLayoutsChanged(layouts) =>
          keyboardLayouts := Some(layouts);
          result := Applied(());
        case KeyboardLayoutSwitched(idx) =>
          match keyboardLayouts {
            case None => result := Panicked;
            case Some(layouts) =>
              keyboardLayouts := Some(layouts.(currentIdx := idx));
              result := Applied(());
          }
        case OverviewOpenedOrClosed(isOpen) =>
          overviewOpen := isOpen;
          result := Applied(());
        case ConfigLoaded(failed) =>
          configFailed := failed;
          result := Applied(());
        case _ => result := Ignored;
      }
    }

    method ApplyWorkspaceEvent(e: Event) returns (result: Outcome<()>)
      requires Keyed(View())
      modifies `workspaces
      ensures result.Applied? ==> ApplyToWorkspaces(old(workspaces), e) == Applied(workspaces)
      ensures result.Ignored? ==>
                ApplyToWorkspaces(old(workspaces), e) == Ignored && workspaces == old(workspaces)
      ensures result.Panicked? ==> ApplyToWorkspaces(old(workspaces), e) == Panicked
    {
      match e
      case WorkspacesChanged(list) =>
        workspaces := map[];
        for i := 0 to |list|
          invariant workspaces == Collect(list[..i], WorkspaceId)
        {
          assert list[..i + 1][..i] == list[..i];
          workspaces := workspaces[list[i].id := list[i]];
        }
        assert list[..|list|] == list;
        return Applied(());
      case WorkspaceUrgencyChanged(id, urgent) =>
        MarkUrgent(id, urgent);
        return Applied(());
      case WorkspaceActivated(id, focused) =>
        if id !in workspaces {
          return Panicked;
        }
        ActivateWorkspace(id, focused);
        return Applied(());
      case WorkspaceActiveWindowChanged(id, window) =>
        if id !in workspaces {
          return Panicked;
        }
        workspaces := workspaces[id := workspaces[id].(activeWindowId := window)];
        return Applied(());
      case _ => return Ignored;
    }

    method MarkUrgent(id: Id, urgent: bool)
      modifies `workspaces
      ensures workspaces == SetUrgent(old(workspaces), id, urgent)
    {
      var todo := workspaces.Keys;
      while todo != {}
        invariant todo <= workspaces.Keys == old(workspaces).Keys
        invariant forall k | k in workspaces ::
                    workspaces[k] ==
                      if k in todo then old(workspaces)[k]
                      else SetUrgent(old(workspaces), id, urgent)[k]
        decreases todo
      {
        var k :| k in todo;
        if workspaces[k].id == id {
          workspaces := workspaces[k := workspaces[k].(isUrgent := urgent)];
        }
        todo := todo - {k};
      }
      assert workspaces == SetUrgent(old(workspaces), id, urgent);
    }

    method ActivateWorkspace(id: Id, focused: bool)
      requires id in workspaces
      modifies `workspaces
      ensures workspaces == Activate(old(workspaces), id, old(workspaces)[id].output, focused)
    {
      var output := workspaces[id].output;
      var todo := workspaces.Keys;
      while todo != {}
        invariant todo <= workspaces.Keys == old(workspaces).Keys
        invariant forall k | k in workspaces ::
                    workspaces[k] ==
                      if k in todo then old(workspaces)[k]
                      else Activated(old(workspaces)[k], id, output, focused)
        decreases todo
      {
        var k :| k in todo;
        var ws := workspaces[k];
        var gotActivated := ws.id == id;
        if ws.output == output {
          ws := ws.(isActive := gotActivated);
        }
        if focused {
          ws := ws.(isFocused := gotActivated);
        }
        workspaces := workspaces[k := ws];
        todo := todo - {k};
      }
      assert workspaces == Activate(old(workspaces), id, output, focused);
    }

    method ApplyWindowEvent(e: Event) returns (result: Outcome<()>)
      requires Keyed(View())
      modifies `windows
      ensures result.Applied? ==> ApplyToWindows(old(windows), e) == Applied(windows)
      ensures result.Ignored? ==>
                ApplyToWindows(old(windows), e) == Ignored && windows == old(windows)
      ensures result.Panicked? ==> ApplyToWindows(old(windows), e) == Panicked
    {
      match e
      case WindowsChanged(list) =>
        windows := map[];
        for i := 0 to |list|
          invariant windows == Collect(list[..i], WindowId)
        {
          assert list[..i + 1][..i] == list[..i];
          windows := windows[list[i].id := list[i]];
        }
        assert list[..|list|] == list;
        return Applied(());
      case WindowOpenedOrChanged(window) =>
        windows := windows[window.id := window];
        if window.isFocused {
          UnfocusAllBut(window.id);
        }
        return Applied(());
      case WindowClosed(id) =>
        if id !in windows {
          return Panicked;
        }
        windows := windows - {id};
        return Applied(());
      case WindowFocusChanged(focus) =>
        FocusOnly(focus);
        return Applied(());
      case WindowFocusTimestampChanged(id, stamp) =>
        UpdateFirst(id, (w: Window) => w.(focusTimestamp := stamp));
        return Applied(());
      case WindowUrgencyChanged(id, urgent) =>
        UpdateFirst(id, (w: Window) => w.(isUrgent := urgent));
        return Applied(());
      case WindowLayoutsChanged(changes) =>
        for i := 0 to |changes|
          invariant ChangeLayouts(old(windows), changes[..i]) == Applied(windows)
        {
          assert changes[..i + 1][..i] == changes[..i];
          var (id, update) := changes[i];
          if id !in windows {
            PanicPropagates(old(windows), changes, i + 1);
            return Panicked;
          }
          windows := windows[id := windows[id].(layout := update)];
        }
        assert changes[..|changes|] == changes;
        return Applied(());
      case _ => return Ignored;
    }

    method UnfocusAllBut(id: Id)
      modifies `windows
      ensures windows == UnfocusOthers(old(windows), id)
    {
      var todo := windows.Keys;
      while todo != {}
        invariant todo <= windows.Keys == old(windows).Keys
        invariant forall k | k in windows ::
                    windows[k] ==
                      if k in todo then old(windows)[k] else UnfocusOthers(old(windows), id)[k]
        decreases todo
      {
        var k :| k in todo;
        if windows[k].id != id {
          windows := windows[k := windows[k].(isFocused := false)];
        }
        todo := todo - {k};
      }
      assert windows == UnfocusOthers(old(windows), id);
    }

    method FocusOnly(focus: Option<Id>)
      modifies `windows
      ensures windows == FocusOn(old(windows), focus)
    {
      var todo := windows.Keys;
      while todo != {}
        invariant todo <= windows.Keys == old(windows).Keys
        invariant forall k | k in windows ::
                    windows[k] ==
                      if k in todo then old(windows)[k] else FocusOn(old(windows), focus)[k]
        decreases todo
      {
        var k :| k in todo;
        windows := windows[k := windows[k].(isFocused := Some(windows[k].id) == focus)];
        todo := todo - {k};
      }
      assert windows == FocusOn(old(windows), focus);
    }

    /** The loops that stop at the first window with the given id. Iteration order is arbitrary; as
        keys are ids there is at most one such window. */
    method UpdateFirst(id: Id, update: Window -> Window)
      requires forall k | k in windows :: windows[k].id == k
      modifies `windows
      ensures windows ==
                if id in old(windows) then old(windows)[id := update(old(windows)[id])]
                else old(windows)
    {
      var todo := windows.Keys;
      while todo != {}
        invariant todo <= windows.Keys && windows == old(windows)
        invariant id in windows ==> id in todo
        decreases todo
      {
        var k :| k in todo;
        if windows[k].id == id {
          windows := windows[k := update(windows[k])];
          break;
        }
        todo := todo - {k};
      }
    }

    /** A snapshot, with the hash maps' values in whatever order they come. */
    method Replicate() returns (events: seq<Event>)
      ensures IsSnapshot(View(), events)
    {
      var wss: seq<Workspace> := [];
      var todo := workspaces.Keys;
      while todo != {}
        invariant todo <= workspaces.Keys
        invariant forall x | x in wss :: exists k :: k in workspaces && workspaces[k] == x
        invariant forall k | k in workspaces && k !in todo :: workspaces[k] in wss
        decreases todo
      {
        var k :| k in todo;
        wss := wss + [workspaces[k]];
        todo := todo - {k};
      }
      var wins: seq<Window> := [];
      todo := windows.Keys;
      while todo != {}
        invariant todo <= windows.Keys
        invariant forall x | x in wins :: exists k :: k in windows && windows[k] == x
        invariant forall k | k in windows && k !in todo :: windows[k] in wins
        decreases todo
      {
        var k :| k in todo;
        wins := wins + [windows[k]];
        todo := todo - {k};
      }
      events := [WorkspacesChanged(wss), WindowsChanged(wins)];
      if keyboardLayouts.Some? {
        events := events + [KeyboardLayoutsChanged(keyboardLayouts.value)];
      }
      events := events + [OverviewOpenedOrClosed(overviewOpen), ConfigLoaded(configFailed)];
      assert Enumerates(wss, workspaces) && Enumerates(wins, windows);
      assert events == SnapshotOf(View(), wss, wins);
    }
  }

  /** Once a layout change has panicked, the rest of the list does not matter. */
  lemma {:induction false} PanicPropagates(m: Windows, changes: seq<(Id, WindowLayout)>, k: nat)
    requires k <= |changes| && ChangeLayouts(m, changes[..k]).Panicked?
    ensures ChangeLayouts(m, changes).Panicked?
  {
    if k < |changes| {
      var n := |changes| - 1;
      assert changes[..n][..k] == changes[..k];
      PanicPropagates(m, changes[..n], k);
    } else {
      assert changes[..k] == changes;
    }
  }
}
