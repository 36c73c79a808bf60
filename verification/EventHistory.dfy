/**
 What a client's state says after a stream of events, field by field: each field of each window and
 workspace is what the last event that says something about it says.
 */
module EventHistory {
  import opened Options
  import opened Sequences
  import opened History
  import opened EventStream

  // ----- What an event says -----

  /** The last entry of a list with the given id. */
  function Listed<T>(list: seq<T>, id: T -> Id, k: Id): (r: Option<T>)
    ensures r.None? ==> forall x | x in list :: id(x) != k
    ensures r.Some? ==> id(r.value) == k && r.value in list
  {
    if list == [] then None
    else
      var n := |list| - 1;
      if id(list[n]) == k then Some(list[n]) else Listed(list[..n], id, k)
  }

  /** An event that brings window `k` as a whole. */
  function WindowSaid(e: Event, k: Id): Option<Window> {
    match e
    case WindowsChanged(list) => Listed(list, WindowId, k)
    case WindowOpenedOrChanged(window) => if window.id == k then Some(window) else None
    case _ => None
  }

  function WindowOpenSaid(e: Event, k: Id): Option<bool> {
    match e
    case WindowsChanged(list) => Some(Listed(list, WindowId, k).Some?)
    case WindowOpenedOrChanged(window) => if window.id == k then Some(true) else None
    case WindowClosed(id) => if id == k then Some(false) else None
    case _ => None
  }

  /** A window that opens focused takes the focus from all others. */
  function WindowFocusSaid(e: Event, k: Id): Option<bool> {
    match e
    case WindowFocusChanged(focus) => Some(focus == Some(k))
    case WindowOpenedOrChanged(window) =>
      if window.id == k then Some(window.isFocused)
      else if window.isFocused then Some(false)
      else None
    case _ =>
      var whole := WindowSaid(e, k);
      if whole.Some? then Some(whole.value.isFocused) else None
  }

  function WindowUrgencySaid(e: Event, k: Id): Option<bool> {
    match e
    case WindowUrgencyChanged(id, urgent) => if id == k then Some(urgent) else None
    case _ =>
      var whole := WindowSaid(e, k);
      if whole.Some? then Some(whole.value.isUrgent) else None
  }

  function WindowTimestampSaid(e: Event, k: Id): Option<Option<Timestamp>> {
    match e
    case WindowFocusTimestampChanged(id, stamp) => if id == k then Some(stamp) else None
    case _ =>
      var whole := WindowSaid(e, k);
      if whole.Some? then Some(whole.value.focusTimestamp) else None
  }

  function ChangedId(change: (Id, WindowLayout)): Id {
    change.0
  }

  function WindowLayoutSaid(e: Event, k: Id): Option<WindowLayout> {
    match e
    case WindowLayoutsChanged(changes) =>
      var change := Listed(changes, ChangedId, k);
      if change.Some? then Some(change.value.1) else None
    case _ =>
      var whole := WindowSaid(e, k);
      if whole.Some? then Some(whole.value.layout) else None
  }

  /** What only an event with the whole window can change. */
  datatype WindowRest = WindowRest(
    title: Option<string>, appId: Option<string>, pid: Option<int>, workspaceId: Option<Id>,
    isFloating: bool)

  function RestOf(w: Window): WindowRest {
    WindowRest(w.title, w.appId, w.pid, w.workspaceId, w.isFloating)
  }

  function WindowRestSaid(e: Event, k: Id): Option<WindowRest> {
    var whole := WindowSaid(e, k);
    if whole.Some? then Some(RestOf(whole.value)) else None
  }

  function WorkspaceSaid(e: Event, k: Id): Option<Workspace> {
    if e.WorkspacesChanged? then Listed(e.workspaces, WorkspaceId, k) else None
  }

  function WorkspaceThereSaid(e: Event, k: Id): Option<bool> {
    if e.WorkspacesChanged? then Some(Listed(e.workspaces, WorkspaceId, k).Some?) else None
  }

  function WorkspaceUrgencySaid(e: Event, k: Id): Option<bool> {
    match e
    case WorkspaceUrgencyChanged(id, urgent) => if id == k then Some(urgent) else None
    case _ =>
      var whole := WorkspaceSaid(e, k);
      if whole.Some? then Some(whole.value.isUrgent) else None
  }

  function WorkspaceFocusSaid(e: Event, k: Id): Option<bool> {
    match e
    case WorkspaceActivated(id, focused) => if focused then Some(id == k) else None
    case _ =>
      var whole := WorkspaceSaid(e, k);
      if whole.Some? then Some(whole.value.isFocused) else None
  }

  function ActiveWindowSaid(e: Event, k: Id): Option<Option<Id>> {
    match e
    case WorkspaceActiveWindowChanged(id, window) => if id == k then Some(window) else None
    case _ =>
      var whole := WorkspaceSaid(e, k);
      if whole.Some? then Some(whole.value.activeWindowId) else None
  }

  /** Activating a workspace says something about the workspaces on the same output. */
  function WorkspaceActiveSaid(s: Option<State>, e: Event, k: Id): Option<bool> {
    match e
    case WorkspaceActivated(id, _) =>
      if s.Some? && SameOutput(s.value.workspaces, id, k) then Some(id == k) else None
    case _ =>
      var whole := WorkspaceSaid(e, k);
      if whole.Some? then Some(whole.value.isActive) else None
  }

  predicate SameOutput(m: Workspaces, a: Id, b: Id) {
    a in m && b in m && m[a].output == m[b].output
  }

  function WorkspaceActiveSays(events: seq<Event>, k: Id): seq<Option<bool>> {
    seq(|events|, i requires 0 <= i < |events| =>
      WorkspaceActiveSaid(Run(DEFAULT, events[..i]), events[i], k))
  }

  datatype WorkspaceRest =
    WorkspaceRest(idx: nat, name: Option<string>, output: Option<string>)

  function WorkspaceRestSaid(e: Event, k: Id): Option<WorkspaceRest> {
    var whole := WorkspaceSaid(e, k);
    if whole.Some? then Some(WorkspaceRest(whole.value.idx, whole.value.name, whole.value.output))
    else None
  }

  function LayoutNamesSaid(e: Event): Option<Option<seq<string>>> {
    if e.KeyboardLayoutsChanged? then Some(Some(e.keyboardLayouts.names)) else None
  }

  function LayoutIndexSaid(e: Event): Option<nat> {
    match e
    case KeyboardLayoutsChanged(layouts) => Some(layouts.currentIdx)
    case KeyboardLayoutSwitched(idx) => Some(idx)
    case _ => None
  }

  function OverviewSaid(e: Event): Option<bool> {
    if e.OverviewOpenedOrClosed? then Some(e.isOpen) else None
  }

  function ConfigSaid(e: Event): Option<bool> {
    if e.ConfigLoaded? then Some(e.failed) else None
  }

  // ----- One event -----

  lemma {:induction false} CollectLists<T>(list: seq<T>, id: T -> Id, k: Id)
    ensures k in Collect(list, id) <==> Listed(list, id, k).Some?
    ensures k in Collect(list, id) ==> Listed(list, id, k) == Some(Collect(list, id)[k])
  {
    if list != [] {
      CollectLists(list[..|list| - 1], id, k);
    }
  }

  lemma {:induction false} LayoutsListed(m: Windows, changes: seq<(Id, WindowLayout)>, k: Id)
    requires ChangeLayouts(m, changes).Applied?
    ensures
      var m' := ChangeLayouts(m, changes).value;
      && (k in m' <==> k in m)
      && (k in m ==>
            m'[k] == m[k].(layout := Or(WindowLayoutSaid(WindowLayoutsChanged(changes), k),
                                        m[k].layout)))
  {
    if changes != [] {
      LayoutsListed(m, changes[..|changes| - 1], k);
    }
  }

  /** The window as it is after the event, if it is open then. */
  function WindowTold(w: Window, e: Event, k: Id): Window {
    var rest := Or(WindowRestSaid(e, k), RestOf(w));
    Window(k, rest.title, rest.appId, rest.pid, rest.workspaceId,
           Or(WindowFocusSaid(e, k), w.isFocused), rest.isFloating,
           Or(WindowUrgencySaid(e, k), w.isUrgent),
           Or(WindowLayoutSaid(e, k), w.layout),
           Or(WindowTimestampSaid(e, k), w.focusTimestamp))
  }

  /** A window that was not open before is brought as a whole. */
  ghost predicate WindowFollows(m: Windows, e: Event, k: Id, m': Windows) {
    && (k in m' <==> Or(WindowOpenSaid(e, k), k in m))
    && (k in m' ==>
          && (k !in m ==> WindowSaid(e, k).Some?)
          && m'[k] == WindowTold(if k in m then m[k] else WindowSaid(e, k).value, e, k))
  }

  lemma WindowStep(m: Windows, e: Event, k: Id)
    requires (forall j | j in m :: m[j].id == j) && !ApplyToWindows(m, e).Panicked?
    ensures
      var m' := if ApplyToWindows(m, e).Applied? then ApplyToWindows(m, e).value else m;
      WindowFollows(m, e, k, m')
  {
    match e
    case WindowsChanged(list) => WindowsListed(m, list, k);
    case WindowOpenedOrChanged(window) => WindowBrought(m, window, k);
    case WindowLayoutsChanged(changes) =>
      ChangeLayoutsKeyed(m, changes);
      LayoutsListed(m, changes, k);
    case WindowFocusChanged(focus) => WindowsFocused(m, focus, k);
    case _ => WindowPatched(m, e, k);
  }

  lemma WindowsFocused(m: Windows, focus: Option<Id>, k: Id)
    requires forall j | j in m :: m[j].id == j
    ensures WindowFollows(m, WindowFocusChanged(focus), k,
                          ApplyToWindows(m, WindowFocusChanged(focus)).value)
  {}

  lemma WindowPatched(m: Windows, e: Event, k: Id)
    requires (forall j | j in m :: m[j].id == j) && !ApplyToWindows(m, e).Panicked?
    requires !e.WindowsChanged? && !e.WindowOpenedOrChanged? && !e.WindowLayoutsChanged?
    requires !e.WindowFocusChanged?
    ensures
      var m' := if ApplyToWindows(m, e).Applied? then ApplyToWindows(m, e).value else m;
      WindowFollows(m, e, k, m')
  {}

  lemma WindowsListed(m: Windows, list: seq<Window>, k: Id)
    ensures WindowFollows(m, WindowsChanged(list), k, Collect(list, WindowId))
  {
    CollectLists(list, WindowId, k);
  }

  lemma WindowBrought(m: Windows, window: Window, k: Id)
    requires forall j | j in m :: m[j].id == j
    ensures WindowFollows(m, WindowOpenedOrChanged(window), k,
                          ApplyToWindows(m, WindowOpenedOrChanged(window)).value)
  {}

  /** The same for a workspace; `active` is what the event says about its activity. */
  function WorkspaceTold(w: Workspace, e: Event, k: Id, active: Option<bool>): Workspace {
    var rest := Or(WorkspaceRestSaid(e, k), WorkspaceRest(w.idx, w.name, w.output));
    Workspace(k, rest.idx, rest.name, rest.output,
              Or(WorkspaceUrgencySaid(e, k), w.isUrgent),
              Or(active, w.isActive),
              Or(WorkspaceFocusSaid(e, k), w.isFocused),
              Or(ActiveWindowSaid(e, k), w.activeWindowId))
  }

  ghost predicate WorkspaceFollows(s: State, e: Event, k: Id, m': Workspaces) {
    var m := s.workspaces;
    && (k in m' <==> Or(WorkspaceThereSaid(e, k), k in m))
    && (k in m' ==>
          && (k !in m ==> WorkspaceSaid(e, k).Some?)
          && m'[k] == WorkspaceTold(if k in m then m[k] else WorkspaceSaid(e, k).value, e, k,
                                    WorkspaceActiveSaid(Some(s), e, k)))
  }

  lemma WorkspaceStep(s: State, e: Event, k: Id)
    requires (forall j | j in s.workspaces :: s.workspaces[j].id == j)
    requires !ApplyToWorkspaces(s.workspaces, e).Panicked?
    ensures
      var r := ApplyToWorkspaces(s.workspaces, e);
      WorkspaceFollows(s, e, k, if r.Applied? then r.value else s.workspaces)
  {
    match e
    case WorkspacesChanged(list) => WorkspacesListed(s, list, k);
    case WorkspaceActivated(id, focused) => WorkspacesActivated(s, id, focused, k);
    case _ => WorkspacePatched(s, e, k);
  }

  lemma WorkspacesListed(s: State, list: seq<Workspace>, k: Id)
    ensures WorkspaceFollows(s, WorkspacesChanged(list), k, Collect(list, WorkspaceId))
  {
    CollectLists(list, WorkspaceId, k);
  }

  lemma WorkspacesActivated(s: State, id: Id, focused: bool, k: Id)
    requires (forall j | j in s.workspaces :: s.workspaces[j].id == j) && id in s.workspaces
    ensures WorkspaceFollows(s, WorkspaceActivated(id, focused), k,
                             ApplyToWorkspaces(s.workspaces, WorkspaceActivated(id, focused)).value)
  {}

  lemma WorkspacePatched(s: State, e: Event, k: Id)
    requires (forall j | j in s.workspaces :: s.workspaces[j].id == j)
    requires !e.WorkspacesChanged? && !e.WorkspaceActivated?
    requires !ApplyToWorkspaces(s.workspaces, e).Panicked?
    ensures
      var r := ApplyToWorkspaces(s.workspaces, e);
      WorkspaceFollows(s, e, k, if r.Applied? then r.value else s.workspaces)
  {}

  // ----- Whole streams -----

  function About<V>(said: (Event, Id) -> Option<V>, k: Id): Event -> Option<V> {
    (e: Event) => said(e, k)
  }

  /** `v` is what the last event that says something says. */
  ghost predicate Told<V>(said: Event -> Option<V>, events: seq<Event>, v: V) {
    LastSaid(Map(said, events), v)
  }

  lemma MapGrows<A, B>(f: A -> B, s: seq<A>, x: A)
    ensures Map(f, s + [x]) == Map(f, s) + [f(x)]
  {}

  lemma ToldGrows<V>(said: Event -> Option<V>, events: seq<Event>, e: Event, v: V)
    ensures Told(said, events + [e], v) <==>
            if said(e).Some? then said(e).value == v else Told(said, events, v)
  {
    MapGrows(said, events, e);
    LastSaidGrows(Map(said, events), said(e), v);
  }

  lemma FollowsToldGrows<V>(start: V, said: Event -> Option<V>, events: seq<Event>, e: Event, v: V)
    ensures Follows(start, Map(said, events + [e]), v) <==>
            if said(e).Some? then said(e).value == v else Follows(start, Map(said, events), v)
  {
    MapGrows(said, events, e);
    FollowsGrows(start, Map(said, events), said(e), v);
  }

  lemma LastEvent(events: seq<Event>)
    requires events != [] && Run(DEFAULT, events).Some?
    ensures
      var n := |events| - 1;
      var before := Run(DEFAULT, events[..n]);
      && before.Some? && Keyed(before.value)
      && !Apply(before.value, events[n]).Panicked?
      && Run(DEFAULT, events).value ==
           (if Apply(before.value, events[n]).Applied? then Apply(before.value, events[n]).value
            else before.value)
  {
    var n := |events| - 1;
    assert events == events[..n] + [events[n]];
    RunConcat(DEFAULT, events[..n], [events[n]]);
    assert [events[n]][1..] == [];
    RunKeepsKeyed(DEFAULT, events[..n]);
  }

  /** What the events say about the fields of window `k`. */
  ghost predicate WindowAsTold(events: seq<Event>, w: Window, k: Id) {
    && w.id == k
    && Told(About(WindowFocusSaid, k), events, w.isFocused)
    && Told(About(WindowUrgencySaid, k), events, w.isUrgent)
    && Told(About(WindowTimestampSaid, k), events, w.focusTimestamp)
    && Told(About(WindowLayoutSaid, k), events, w.layout)
    && Told(About(WindowRestSaid, k), events, RestOf(w))
  }

  lemma WindowAsToldGrows(events: seq<Event>, w: Window, e: Event, k: Id)
    requires WindowAsTold(events, w, k) || WindowSaid(e, k) == Some(w)
    ensures WindowAsTold(events + [e], WindowTold(w, e, k), k)
  {
    var w' := WindowTold(w, e, k);
    ToldGrows(About(WindowFocusSaid, k), events, e, w'.isFocused);
    ToldGrows(About(WindowUrgencySaid, k), events, e, w'.isUrgent);
    ToldGrows(About(WindowTimestampSaid, k), events, e, w'.focusTimestamp);
    ToldGrows(About(WindowLayoutSaid, k), events, e, w'.layout);
    ToldGrows(About(WindowRestSaid, k), events, e, RestOf(w'));
  }

  ghost predicate WindowsAsTold(events: seq<Event>, m: Windows, k: Id) {
    && Follows(false, Map(About(WindowOpenSaid, k), events), k in m)
    && (k in m ==> WindowAsTold(events, m[k], k))
  }

  lemma WindowsGrow(events: seq<Event>, m: Windows, e: Event, m': Windows, k: Id)
    requires WindowsAsTold(events, m, k) && WindowFollows(m, e, k, m')
    ensures WindowsAsTold(events + [e], m', k)
  {
    FollowsToldGrows(false, About(WindowOpenSaid, k), events, e, k in m');
    if k in m' {
      WindowAsToldGrows(events, if k in m then m[k] else WindowSaid(e, k).value, e, k);
    }
  }

  /** After any stream of events: a window is known exactly if the last event about its being open
      says so, and each of its fields is what the last event about that field says. */
  lemma {:induction false} WindowsAreAsTold(events: seq<Event>, k: Id)
    requires Run(DEFAULT, events).Some?
    ensures WindowsAsTold(events, Run(DEFAULT, events).value.windows, k)
    decreases |events|
  {
    if events != [] {
      var n := |events| - 1;
      LastEvent(events);
      WindowsAreAsTold(events[..n], k);
      assert events == events[..n] + [events[n]];
      var s := Run(DEFAULT, events[..n]).value;
      WindowsAfter(s, events[n], k);
      WindowsGrow(events[..n], s.windows, events[n], Run(DEFAULT, events).value.windows, k);
    }
  }

  lemma WindowsAfter(s: State, e: Event, k: Id)
    requires Keyed(s) && !Apply(s, e).Panicked?
    ensures WindowFollows(s.windows, e, k,
                          (if Apply(s, e).Applied? then Apply(s, e).value else s).windows)
  {
    if !ApplyToWindows(s.windows, e).Panicked? {
      WindowStep(s.windows, e, k);
    }
  }

  ghost predicate WorkspaceAsTold(events: seq<Event>, w: Workspace, k: Id) {
    && w.id == k
    && Told(About(WorkspaceUrgencySaid, k), events, w.isUrgent)
    && Told(About(WorkspaceFocusSaid, k), events, w.isFocused)
    && Told(About(ActiveWindowSaid, k), events, w.activeWindowId)
    && Told(About(WorkspaceRestSaid, k), events, WorkspaceRest(w.idx, w.name, w.output))
    && LastSaid(WorkspaceActiveSays(events, k), w.isActive)
  }

  lemma WorkspaceAsToldGrows(events: seq<Event>, w: Workspace, e: Event, k: Id)
    requires WorkspaceAsTold(events, w, k) || WorkspaceSaid(e, k) == Some(w)
    ensures WorkspaceAsTold(
              events + [e],
              WorkspaceTold(w, e, k, WorkspaceActiveSaid(Run(DEFAULT, events), e, k)), k)
  {
    var active := WorkspaceActiveSaid(Run(DEFAULT, events), e, k);
    var w' := WorkspaceTold(w, e, k, active);
    ToldGrows(About(WorkspaceUrgencySaid, k), events, e, w'.isUrgent);
    ToldGrows(About(WorkspaceFocusSaid, k), events, e, w'.isFocused);
    ToldGrows(About(ActiveWindowSaid, k), events, e, w'.activeWindowId);
    ToldGrows(About(WorkspaceRestSaid, k), events, e,
              WorkspaceRest(w'.idx, w'.name, w'.output));
    ActiveSaysGrow(events, e, k);
    LastSaidGrows(WorkspaceActiveSays(events, k), active, w'.isActive);
  }

  lemma ActiveSaysGrow(events: seq<Event>, e: Event, k: Id)
    ensures WorkspaceActiveSays(events + [e], k) ==
            WorkspaceActiveSays(events, k) + [WorkspaceActiveSaid(Run(DEFAULT, events), e, k)]
  {
    var longer := events + [e];
    assert longer[..|events|] == events;
    forall i | 0 <= i < |events| ensures longer[..i] == events[..i] {}
  }

  ghost predicate WorkspacesAsTold(events: seq<Event>, m: Workspaces, k: Id) {
    && Follows(false, Map(About(WorkspaceThereSaid, k), events), k in m)
    && (k in m ==> WorkspaceAsTold(events, m[k], k))
  }

  lemma WorkspacesGrow(events: seq<Event>, s: State, e: Event, m': Workspaces, k: Id)
    requires Run(DEFAULT, events) == Some(s)
    requires WorkspacesAsTold(events, s.workspaces, k) && WorkspaceFollows(s, e, k, m')
    ensures WorkspacesAsTold(events + [e], m', k)
  {
    FollowsToldGrows(false, About(WorkspaceThereSaid, k), events, e, k in m');
    if k in m' {
      WorkspaceAsToldGrows(
        events, if k in s.workspaces then s.workspaces[k] else WorkspaceSaid(e, k).value, e, k);
    }
  }

  /** The same for workspaces. Whether one is active is also said by activating another one on the
      same output. */
  lemma {:induction false} WorkspacesAreAsTold(events: seq<Event>, k: Id)
    requires Run(DEFAULT, events).Some?
    ensures WorkspacesAsTold(events, Run(DEFAULT, events).value.workspaces, k)
    decreases |events|
  {
    if events != [] {
      var n := |events| - 1;
      LastEvent(events);
      WorkspacesAreAsTold(events[..n], k);
      assert events == events[..n] + [events[n]];
      var s := Run(DEFAULT, events[..n]).value;
      WorkspacesAfter(s, events[n], k);
      WorkspacesGrow(events[..n], s, events[n], Run(DEFAULT, events).value.workspaces, k);
    }
  }

  lemma WorkspacesAfter(s: State, e: Event, k: Id)
    requires Keyed(s) && !Apply(s, e).Panicked?
    ensures WorkspaceFollows(s, e, k,
                             (if Apply(s, e).Applied? then Apply(s, e).value else s).workspaces)
  {
    WorkspaceStep(s, e, k);
  }

  lemma RestStep(s: State, e: Event)
    requires !Apply(s, e).Panicked?
    ensures
      var s' := if Apply(s, e).Applied? then Apply(s, e).value else s;
      && NamesOf(s'.keyboardLayouts) == Or(LayoutNamesSaid(e), NamesOf(s.keyboardLayouts))
      && (s'.keyboardLayouts.Some? ==>
            && (s.keyboardLayouts.None? ==> LayoutIndexSaid(e).Some?)
            && s'.keyboardLayouts.value.currentIdx ==
                 Or(LayoutIndexSaid(e),
                    if s.keyboardLayouts.Some? then s.keyboardLayouts.value.currentIdx else 0))
      && s'.overviewOpen == Or(OverviewSaid(e), s.overviewOpen)
      && s'.configFailed == Or(ConfigSaid(e), s.configFailed)
  {}

  lemma FlagsGrow(events: seq<Event>, s: State, e: Event, s': State)
    requires Follows(false, Map(OverviewSaid, events), s.overviewOpen)
    requires Follows(false, Map(ConfigSaid, events), s.configFailed)
    requires s'.overviewOpen == Or(OverviewSaid(e), s.overviewOpen)
    requires s'.configFailed == Or(ConfigSaid(e), s.configFailed)
    ensures Follows(false, Map(OverviewSaid, events + [e]), s'.overviewOpen)
    ensures Follows(false, Map(ConfigSaid, events + [e]), s'.configFailed)
  {
    FollowsToldGrows(false, OverviewSaid, events, e, s'.overviewOpen);
    FollowsToldGrows(false, ConfigSaid, events, e, s'.configFailed);
  }

  /** The overview and the configuration flag are what was said last. */
  lemma {:induction false} FlagsAreAsTold(events: seq<Event>)
    requires Run(DEFAULT, events).Some?
    ensures
      var s := Run(DEFAULT, events).value;
      && Follows(false, Map(OverviewSaid, events), s.overviewOpen)
      && Follows(false, Map(ConfigSaid, events), s.configFailed)
    decreases |events|
  {
    if events != [] {
      var n := |events| - 1;
      LastEvent(events);
      FlagsAreAsTold(events[..n]);
      assert events == events[..n] + [events[n]];
      var s := Run(DEFAULT, events[..n]).value;
      RestStep(s, events[n]);
      FlagsGrow(events[..n], s, events[n], Run(DEFAULT, events).value);
    }
  }

  ghost predicate LayoutsAsTold(events: seq<Event>, layouts: Option<KeyboardLayouts>) {
    && Follows(None, Map(LayoutNamesSaid, events), NamesOf(layouts))
    && (layouts.Some? ==> Told(LayoutIndexSaid, events, layouts.value.currentIdx))
  }

  lemma LayoutsGrow(events: seq<Event>, s: State, e: Event, s': State)
    requires LayoutsAsTold(events, s.keyboardLayouts) && !Apply(s, e).Panicked?
    requires s' == if Apply(s, e).Applied? then Apply(s, e).value else s
    ensures LayoutsAsTold(events + [e], s'.keyboardLayouts)
  {
    RestStep(s, e);
    FollowsToldGrows(None, LayoutNamesSaid, events, e, NamesOf(s'.keyboardLayouts));
    if s'.keyboardLayouts.Some? {
      ToldGrows(LayoutIndexSaid, events, e, s'.keyboardLayouts.value.currentIdx);
    }
  }

  /** The names of the keyboard layouts, and the current one, are what was said last. */
  lemma {:induction false} LayoutsAreAsTold(events: seq<Event>)
    requires Run(DEFAULT, events).Some?
    ensures LayoutsAsTold(events, Run(DEFAULT, events).value.keyboardLayouts)
    decreases |events|
  {
    if events != [] {
      var n := |events| - 1;
      LastEvent(events);
      LayoutsAreAsTold(events[..n]);
      assert events == events[..n] + [events[n]];
      LayoutsGrow(events[..n], Run(DEFAULT, events[..n]).value, events[n],
                  Run(DEFAULT, events).value);
    }
  }

  function NamesOf(layouts: Option<KeyboardLayouts>): Option<seq<string>> {
    if layouts.Some? then Some(layouts.value.names) else None
  }

  // ----- Broken expectations -----

  /** The event is about something that is not there. */
  predicate Breaks(s: State, e: Event) {
    match e
    case WorkspaceActivated(id, _) => id !in s.workspaces
    case WorkspaceActiveWindowChanged(id, _) => id !in s.workspaces
    case WindowClosed(id) => id !in s.windows
    case WindowLayoutsChanged(changes) => exists c | c in changes :: c.0 !in s.windows
    case KeyboardLayoutSwitched(_) => s.keyboardLayouts.None?
    case _ => false
  }

  lemma {:induction false} LayoutsBreak(m: Windows, changes: seq<(Id, WindowLayout)>)
    ensures ChangeLayouts(m, changes).Panicked? <==> exists c | c in changes :: c.0 !in m
    ensures ChangeLayouts(m, changes).Applied? ==> ChangeLayouts(m, changes).value.Keys == m.Keys
    ensures !ChangeLayouts(m, changes).Ignored?
  {
    if changes != [] {
      var n := |changes| - 1;
      LayoutsBreak(m, changes[..n]);
      assert changes == changes[..n] + [changes[n]];
    }
  }

  lemma BreaksExactly(s: State, e: Event)
    ensures Apply(s, e).Panicked? <==> Breaks(s, e)
  {
    if e.WindowLayoutsChanged? {
      LayoutsBreak(s.windows, e.changes);
    }
  }

  ghost predicate BreaksAt(events: seq<Event>, i: nat)
    requires i < |events|
  {
    Run(DEFAULT, events[..i]).Some? && Breaks(Run(DEFAULT, events[..i]).value, events[i])
  }

  /** A stream of events panics exactly if one of them is about something that is not there. */
  lemma {:induction false} PanicsExactly(events: seq<Event>)
    ensures Run(DEFAULT, events).None? <==> exists i | 0 <= i < |events| :: BreaksAt(events, i)
    decreases |events|
  {
    if events != [] {
      var n := |events| - 1;
      var before, e := events[..n], events[n];
      PanicsExactly(before);
      assert events == before + [e];
      RunConcat(DEFAULT, before, [e]);
      assert [e][1..] == [];
      if Run(DEFAULT, before).Some? {
        BreaksExactly(Run(DEFAULT, before).value, e);
      }
      forall i | 0 <= i < n ensures BreaksAt(events, i) == BreaksAt(before, i) {
        assert events[..i] == before[..i];
      }
      assert BreaksAt(events, n) <==>
             Run(DEFAULT, before).Some? && Breaks(Run(DEFAULT, before).value, e);
    }
  }
}
