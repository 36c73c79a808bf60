/**
 The debounced focus timestamps behind the window switcher, and the timer that hides an inactive
 pointer: both keep one event-loop timer whose token is stored in a field.
 */
module Timers {
  import opened Options
  import History

  type Token = nat
  type WindowId = nat
  type Time = nat

  // ----- Focus timestamps -----

  datatype Pending = Pending(window: WindowId, token: Token, stamp: Time)

  datatype Mru = Mru(
    pending: Option<Pending>,
    timers: set<Token>,
    nextToken: Token,
    // The open windows and when each was last focused for long enough.
    stamps: map<WindowId, Option<Time>>,
    // The window with the keyboard focus, if a window has it.
    focused: Option<WindowId>,
    // History: the latest time seen.
    clock: Time)

  const START := Mru(None, {}, 0, map[], None, 0)

  /** The stamp is set at once, instead of after the debounce time. */
  predicate StampsAtOnce(m: Mru, w: WindowId, debounce: nat)
    requires w in m.stamps
  {
    m.stamps[w].None? || debounce == 0
  }

  /** Focusing the window that has the focus changes nothing. */
  function Focus(m: Mru, w: WindowId, now: Time, debounce: nat): Mru
    requires w in m.stamps
  {
    if m.focused == Some(w) then m else
    var m := m.(focused := Some(w), clock := now);
    if StampsAtOnce(m, w, debounce) then m.(stamps := m.stamps[w := Some(now)])
    else
      var old' := if m.pending.Some? then {m.pending.value.token} else {};
      m.(timers := m.timers + {m.nextToken} - old',
         pending := Some(Pending(w, m.nextToken, now)),
         nextToken := m.nextToken + 1)
  }

  /** `mru_apply_keyboard_commit`. */
  function Commit(m: Mru): Mru {
    if m.pending.None? then m
    else
      var p := m.pending.value;
      m.(pending := None,
         timers := m.timers - {p.token},
         stamps := if p.window in m.stamps then m.stamps[p.window := Some(p.stamp)] else m.stamps)
  }

  datatype Event =
    | Open(w: WindowId)
    | Close(w: WindowId)
    | FocusWindow(w: WindowId, now: Time, debounce: nat)
    | FocusElsewhere
    | KeyPress
    | TimerFires(token: Token)

  predicate Enabled(m: Mru, e: Event) {
    match e
    // Window ids are not reused while a commit for the window is pending.
    case Open(w) => w !in m.stamps && !(m.pending.Some? && m.pending.value.window == w)
    case Close(w) => w in m.stamps
    case FocusWindow(w, now, _) => w in m.stamps && m.clock <= now
    case TimerFires(token) => token in m.timers
    case _ => true
  }

  function Step(m: Mru, e: Event): Mru
    requires Enabled(m, e)
  {
    match e
    case Open(w) => m.(stamps := m.stamps[w := None])
    case Close(w) =>
      m.(stamps := m.stamps - {w}, focused := if m.focused == Some(w) then None else m.focused)
    case FocusWindow(w, now, debounce) => Focus(m, w, now, debounce)
    case FocusElsewhere => m.(focused := None)
    case KeyPress => Commit(m)
    case TimerFires(token) => var m := Commit(m); m.(timers := m.timers - {token})
  }

  ghost predicate Possible(m: Mru, trace: seq<Event>)
    decreases |trace|
  {
    trace == [] || (Enabled(m, trace[0]) && Possible(Step(m, trace[0]), trace[1..]))
  }

  ghost function Run(m: Mru, trace: seq<Event>): Mru
    requires Possible(m, trace)
    decreases |trace|
  {
    if trace == [] then m else Run(Step(m, trace[0]), trace[1..])
  }

  /** The debounce timer is live exactly while its token is in `pending`. */
  ghost predicate TimerOwned(m: Mru) {
    && m.timers == (if m.pending.Some? then {m.pending.value.token} else {})
    && (forall t | t in m.timers :: t < m.nextToken)
    && (m.pending.Some? ==> m.pending.value.stamp <= m.clock)
    && (forall w | w in m.stamps && m.stamps[w].Some? :: m.stamps[w].value <= m.clock)
  }

  lemma {:induction false} TimerStaysOwned(m: Mru, trace: seq<Event>)
    requires TimerOwned(m) && Possible(m, trace)
    ensures TimerOwned(Run(m, trace))
    decreases |trace|
  {
    if trace != [] {
      TimerStaysOwned(Step(m, trace[0]), trace[1..]);
    }
  }

  /** A timer that fires finds its own commit pending: in every reachable state the commit is carried
      out with the time of the focus change that started the timer, and no timer is left. */
  lemma TimerFindsItsCommit(trace: seq<Event>, token: Token)
    requires Possible(START, trace) && Enabled(Run(START, trace), TimerFires(token))
    ensures
      var m := Run(START, trace);
      var m' := Step(m, TimerFires(token));
      && m.pending.Some? && m.pending.value.token == token
      && m'.pending.None? && m'.timers == {}
      && (m.pending.value.window in m.stamps ==>
            m'.stamps == m.stamps[m.pending.value.window := Some(m.pending.value.stamp)])
  {
    TimerStaysOwned(START, trace);
  }

  ghost predicate PendingIsFocused(m: Mru) {
    m.pending.Some? ==> m.focused == Some(m.pending.value.window)
  }

  /** The steps that take the focus from the window of the pending commit and leave the commit: the
      focus moves to another window that is stamped at once, it leaves all windows, or the window
      closes. */
  ghost predicate TakesFocus(m: Mru, e: Event)
    requires Enabled(m, e)
  {
    m.pending.Some? &&
    match e
    case FocusWindow(w, _, debounce) =>
      w != m.pending.value.window && StampsAtOnce(m, w, debounce)
    case FocusElsewhere => true
    case Close(w) => w == m.pending.value.window
    case _ => false
  }

  /** One step: exactly these leave a commit pending for a window without the focus. */
  lemma PendingKeptExactly(m: Mru, e: Event)
    requires TimerOwned(m) && PendingIsFocused(m) && Enabled(m, e)
    ensures PendingIsFocused(Step(m, e)) <==> !TakesFocus(m, e)
  {}

  /** So a window can be stamped without having kept the focus: window 1 has a commit pending, the
      focus moves to the never stamped window 2, and the timer still stamps window 1. */
  lemma StampedWithoutFocus() returns (trace: seq<Event>)
    ensures Possible(START, trace) && trace != [] && trace[|trace| - 1] == TimerFires(0)
    ensures
      var m := Run(START, trace);
      m.focused == Some(2) && m.stamps == map[1 := Some(6), 2 := Some(7)]
  {
    trace := PendingForFirst();
    trace := Then(trace, FocusWindow(2, 7, 750));
    trace := Then(trace, TimerFires(0));
  }

  /** A run after which window 1, stamped at 5, has a commit for time 6 pending. */
  lemma PendingForFirst() returns (trace: seq<Event>)
    ensures Possible(START, trace)
    ensures Run(START, trace) ==
            Mru(Some(Pending(1, 0, 6)), {0}, 1, map[1 := Some(5), 2 := None], Some(1), 6)
  {
    trace := Then([], Open(1));
    trace := Then(trace, Open(2));
    trace := Then(trace, FocusWindow(1, 5, 750));
    trace := Then(trace, FocusElsewhere);
    trace := Then(trace, FocusWindow(1, 6, 750));
  }

  lemma Then(trace: seq<Event>, e: Event) returns (longer: seq<Event>)
    requires Possible(START, trace) && Enabled(Run(START, trace), e)
    ensures longer == trace + [e] && Possible(START, longer)
    ensures Run(START, longer) == Step(Run(START, trace), e)
  {
    Append(START, trace, e);
    longer := trace + [e];
  }

  lemma {:induction false} Append(m: Mru, trace: seq<Event>, e: Event)
    requires Possible(m, trace) && Enabled(Run(m, trace), e)
    ensures Possible(m, trace + [e]) && Run(m, trace + [e]) == Step(Run(m, trace), e)
    decreases |trace|
  {
    if trace == [] {
      assert trace + [e] == [e] && [e][1..] == [];
    } else {
      Append(Step(m, trace[0]), trace[1..], e);
      assert (trace + [e])[1..] == trace[1..] + [e];
    }
  }

  /** A pending commit will not set a timestamp back. */
  ghost predicate CommitIsFresh(m: Mru) {
    m.pending.Some? ==>
      var p := m.pending.value;
      p.window in m.stamps && m.stamps[p.window].Some? ==> m.stamps[p.window].value <= p.stamp
  }

  /** A window with a pending commit has been stamped before. */
  ghost predicate PendingWasStamped(m: Mru) {
    m.pending.Some? && m.pending.value.window in m.stamps ==>
      m.stamps[m.pending.value.window].Some?
  }

  /** The window with the pending commit lost the focus, gets it back later, and is stamped at once
      because the debounce time is now zero. */
  ghost predicate Restamps(m: Mru, e: Event) {
    && e.FocusWindow? && e.debounce == 0 && m.focused != Some(e.w)
    && m.pending.Some? && e.w == m.pending.value.window && e.now > m.pending.value.stamp
  }

  /** The step carries out a pending commit. */
  predicate Commits(e: Event) {
    e.KeyPress? || e.TimerFires?
  }

  /** The pending commit is carried out, loses its window, or is replaced by a new one. */
  ghost predicate EndsCommit(m: Mru, e: Event)
    requires Enabled(m, e)
  {
    match e
    case FocusWindow(w, _, debounce) => m.focused != Some(w) && !StampsAtOnce(m, w, debounce)
    case Close(w) => m.pending.Some? && w == m.pending.value.window
    case _ => Commits(e)
  }

  /** A commit is out of date exactly from a restamp until it ends. */
  lemma FreshKeptExactly(m: Mru, e: Event)
    requires TimerOwned(m) && PendingWasStamped(m) && Enabled(m, e)
    ensures CommitIsFresh(Step(m, e)) <==>
            !Restamps(m, e) && (CommitIsFresh(m) || EndsCommit(m, e))
  {
    match e
    case Open(_) =>
    case Close(_) =>
    case FocusWindow(_, _, _) =>
    case FocusElsewhere =>
    case KeyPress =>
    case TimerFires(_) =>
  }

  ghost predicate NeverBack(before: Mru, after: Mru) {
    forall w | w in before.stamps && w in after.stamps && before.stamps[w].Some? ::
      after.stamps[w].Some? && before.stamps[w].value <= after.stamps[w].value
  }

  ghost predicate SameDebounce(trace: seq<Event>, debounce: nat) {
    forall e | e in trace && e.FocusWindow? :: e.debounce == debounce
  }

  /** A step sets a timestamp back exactly if it carries out a commit that is no longer fresh. */
  lemma StepBackExactly(m: Mru, e: Event)
    requires TimerOwned(m) && PendingWasStamped(m) && Enabled(m, e)
    ensures NeverBack(m, Step(m, e)) <==> CommitIsFresh(m) || !Commits(e)
  {
    match e
    case Open(_) =>
    case Close(_) =>
    case FocusWindow(_, _, _) =>
    case FocusElsewhere =>
    case KeyPress =>
    case TimerFires(_) =>
  }

  lemma {:induction false} PendingStaysStamped(m: Mru, trace: seq<Event>)
    requires PendingWasStamped(m) && Possible(m, trace)
    ensures PendingWasStamped(Run(m, trace))
    decreases |trace|
  {
    if trace != [] {
      PendingStaysStamped(Step(m, trace[0]), trace[1..]);
    }
  }

  /** Step `i` of the run restamps the window of the pending commit, and since then the commit has not
      ended. */
  ghost predicate StaleSince(trace: seq<Event>, i: nat)
    requires i < |trace|
  {
    && Possible(START, trace[..i]) && Restamps(Run(START, trace[..i]), trace[i])
    && forall j | i < j < |trace| :: !EndsAt(trace, j)
  }

  ghost predicate EndsAt(trace: seq<Event>, j: nat)
    requires j < |trace|
  {
    Possible(START, trace[..j]) && Enabled(Run(START, trace[..j]), trace[j]) &&
    EndsCommit(Run(START, trace[..j]), trace[j])
  }

  ghost predicate Stale(trace: seq<Event>) {
    exists i | 0 <= i < |trace| :: StaleSince(trace, i)
  }

  lemma StaleOneLonger(trace: seq<Event>, e: Event, i: nat)
    requires i < |trace|
    ensures StaleSince(trace + [e], i) <==> StaleSince(trace, i) && !EndsAt(trace + [e], |trace|)
  {
    var longer := trace + [e];
    forall j | 0 <= j < |trace| ensures longer[..j] == trace[..j] && longer[j] == trace[j] {}
    assert forall j | i < j < |trace| :: EndsAt(longer, j) == EndsAt(trace, j);
  }

  lemma StaleGrows(trace: seq<Event>, e: Event)
    requires Possible(START, trace) && Enabled(Run(START, trace), e)
    ensures var m := Run(START, trace);
      Stale(trace + [e]) <==> Restamps(m, e) || (Stale(trace) && !EndsCommit(m, e))
  {
    var longer := trace + [e];
    assert longer[..|trace|] == trace;
    forall i | 0 <= i < |trace|
      ensures StaleSince(longer, i) <==> StaleSince(trace, i) && !EndsAt(longer, |trace|)
    {
      StaleOneLonger(trace, e, i);
    }
    assert StaleSince(longer, |trace|) <==> Restamps(Run(START, trace), e);
  }

  lemma {:induction false} FreshExactly(trace: seq<Event>)
    requires Possible(START, trace)
    ensures CommitIsFresh(Run(START, trace)) <==> !Stale(trace)
    decreases |trace|
  {
    if trace != [] {
      var n := |trace| - 1;
      assert trace == trace[..n] + [trace[n]];
      LastStep(START, trace);
      FreshExactly(trace[..n]);
      StaleGrows(trace[..n], trace[n]);
      TimerStaysOwned(START, trace[..n]);
      PendingStaysStamped(START, trace[..n]);
      FreshKeptExactly(Run(START, trace[..n]), trace[n]);
    }
  }

  lemma {:induction false} LastStep(m: Mru, trace: seq<Event>)
    requires Possible(m, trace) && trace != []
    ensures
      var n := |trace| - 1;
      && Possible(m, trace[..n]) && Enabled(Run(m, trace[..n]), trace[n])
      && Run(m, trace) == Step(Run(m, trace[..n]), trace[n])
    decreases |trace|
  {
    var n := |trace| - 1;
    if n == 0 {
      assert trace[..0] == [] && trace[1..] == [];
    } else {
      LastStep(Step(m, trace[0]), trace[1..]);
      assert trace[1..][..n - 1] == trace[..n][1..];
    }
  }

  /** After any run, with any debounce times: the next step sets a timestamp back if and only if it
      carries out a commit whose window was restamped, and the commit not ended, since it began. */
  lemma StampBackExactly(trace: seq<Event>, e: Event)
    requires Possible(START, trace) && Enabled(Run(START, trace), e)
    ensures var m := Run(START, trace);
      NeverBack(m, Step(m, e)) <==> !(Commits(e) && Stale(trace))
  {
    TimerStaysOwned(START, trace);
    PendingStaysStamped(START, trace);
    StepBackExactly(Run(START, trace), e);
    FreshExactly(trace);
  }

  /** While the configured debounce time stays the same, no step of a run sets any window's timestamp
      back. */
  lemma {:induction false} StampsNeverGoBack(m: Mru, trace: seq<Event>, debounce: nat, k: nat)
    requires TimerOwned(m) && CommitIsFresh(m) && PendingWasStamped(m)
    requires debounce == 0 ==> m.pending.None?
    requires Possible(m, trace) && SameDebounce(trace, debounce) && k < |trace|
    ensures Possible(m, trace[..k]) && Possible(m, trace[..k + 1])
    ensures NeverBack(Run(m, trace[..k]), Run(m, trace[..k + 1]))
    decreases |trace|
  {
    var e := trace[0];
    assert e in trace;
    var m' := Step(m, e);
    StepNeverBack(m, e, debounce);
    if k == 0 {
      assert trace[..0] == [] && trace[..1] == [e] && [e][1..] == [];
      assert Run(m, [e]) == Run(m', []);
    } else {
      StampsNeverGoBack(m', trace[1..], debounce, k - 1);
      assert trace[..k][1..] == trace[1..][..k - 1];
      assert trace[..k + 1][1..] == trace[1..][..k];
    }
  }

  lemma StepNeverBack(m: Mru, e: Event, debounce: nat)
    requires TimerOwned(m) && CommitIsFresh(m) && PendingWasStamped(m)
    requires debounce == 0 ==> m.pending.None?
    requires Enabled(m, e) && (e.FocusWindow? ==> e.debounce == debounce)
    ensures NeverBack(m, Step(m, e))
    ensures TimerOwned(Step(m, e)) && CommitIsFresh(Step(m, e)) && PendingWasStamped(Step(m, e))
    ensures debounce == 0 ==> Step(m, e).pending.None?
  {
    match e
    case Open(_) =>
    case Close(_) =>
    case FocusWindow(_, _, _) =>
    case FocusElsewhere =>
    case KeyPress =>
    case TimerFires(_) =>
  }

  /** Changing it while a commit is pending can: window 1 is focused at 5 (stamped) and at 6 (pending),
      loses the focus, gets it back at 9 with debounce zero (stamped again), and the old commit takes
      it back to 6. */
  lemma StampGoesBack() returns (trace: seq<Event>)
    ensures Possible(START, trace) && Enabled(Run(START, trace), TimerFires(0))
    ensures
      var m := Run(START, trace);
      var m' := Step(m, TimerFires(0));
      && 1 in m.stamps && m.stamps[1] == Some(9) && m.focused == Some(1)
      && 1 in m'.stamps && m'.stamps[1] == Some(6) && m'.focused == Some(1)
  {
    trace := PendingForFirst();
    trace := Then(trace, FocusElsewhere);
    trace := Then(trace, FocusWindow(1, 9, 0));
  }

  // ----- What the timestamps are -----

  function StampOf(m: Mru, w: WindowId): Option<Option<Time>> {
    if w in m.stamps then Some(m.stamps[w]) else None
  }

  /** A window's timestamp: none when it opens; the current time when it gets the focus without a
      timestamp or with a zero debounce time; and the time of the commit when that is carried out. */
  function StampSaid(m: Mru, e: Event, w: WindowId): Option<Option<Option<Time>>> {
    match e
    case Open(v) => if v == w then Some(Some(None)) else None
    case Close(v) => if v == w then Some(None) else None
    case FocusWindow(v, now, debounce) =>
      if v == w && w in m.stamps && m.focused != Some(w) && (m.stamps[w].None? || debounce == 0)
      then Some(Some(Some(now))) else None
    case FocusElsewhere => None
    case _ =>
      if m.pending.Some? && m.pending.value.window == w && w in m.stamps
      then Some(Some(Some(m.pending.value.stamp))) else None
  }

  ghost function StampSays(m: Mru, trace: seq<Event>, w: WindowId): seq<Option<Option<Option<Time>>>>
    requires Possible(m, trace)
    decreases |trace|
  {
    if trace == [] then []
    else [StampSaid(m, trace[0], w)] + StampSays(Step(m, trace[0]), trace[1..], w)
  }

  lemma StampStep(m: Mru, e: Event, w: WindowId)
    requires Enabled(m, e)
    ensures StampOf(Step(m, e), w) == History.Or(StampSaid(m, e, w), StampOf(m, w))
  {}

  /** After any run, a window's timestamp is what the last event about it says. */
  lemma {:induction false} StampsAreAsSaid(m: Mru, trace: seq<Event>, w: WindowId)
    requires Possible(m, trace)
    ensures History.Follows(StampOf(m, w), StampSays(m, trace, w), StampOf(Run(m, trace), w))
    decreases |trace|
  {
    if trace != [] {
      var m' := Step(m, trace[0]);
      StampStep(m, trace[0], w);
      StampsAreAsSaid(m', trace[1..], w);
      History.FollowsPrepend(StampOf(m, w), StampSaid(m, trace[0], w),
                             StampSays(m', trace[1..], w), StampOf(Run(m, trace), w));
    }
  }

  /** A commit becomes pending exactly when another window with a timestamp gets the focus, with a
      debounce time; it is then for that window and that time. */
  lemma PendingBegins(m: Mru, e: Event)
    requires TimerOwned(m) && Enabled(m, e)
    ensures
      var m' := Step(m, e);
      var begins := e.FocusWindow? && m.focused != Some(e.w) && m.stamps[e.w].Some? && e.debounce > 0;
      && (begins ==> m'.pending.Some? && m'.pending.value.window == e.w &&
                     m'.pending.value.stamp == e.now && m'.pending.value.token !in m.timers)
      && (!begins ==> m'.pending == if Commits(e) then None else m.pending)
  {}

  // ----- Keeping the focus -----

  ghost predicate FocusedAt(trace: seq<Event>, k: nat, w: WindowId)
    requires k <= |trace|
  {
    Possible(START, trace[..k]) && Run(START, trace[..k]).focused == Some(w)
  }

  /** Step `b` begins a commit for `w` that has not ended, and `w` has had the focus ever since. */
  ghost predicate KeptSince(trace: seq<Event>, w: WindowId, b: nat)
    requires b < |trace|
  {
    && trace[b].FocusWindow? && trace[b].w == w && EndsAt(trace, b)
    && (forall j | b < j < |trace| :: !EndsAt(trace, j))
    && (forall k | b < k <= |trace| :: FocusedAt(trace, k, w))
  }

  ghost predicate Kept(trace: seq<Event>, w: WindowId) {
    exists b | 0 <= b < |trace| :: KeptSince(trace, w, b)
  }

  ghost predicate TakenAt(trace: seq<Event>, i: nat)
    requires i < |trace|
  {
    Possible(START, trace[..i]) && Enabled(Run(START, trace[..i]), trace[i]) &&
    TakesFocus(Run(START, trace[..i]), trace[i])
  }

  /** Step `i` takes the focus from the window of the pending commit, which has not ended since. */
  ghost predicate TakenSince(trace: seq<Event>, i: nat)
    requires i < |trace|
  {
    TakenAt(trace, i) && forall j | i < j < |trace| :: !EndsAt(trace, j)
  }

  ghost predicate Taken(trace: seq<Event>) {
    exists i | 0 <= i < |trace| :: TakenSince(trace, i)
  }

  lemma PrefixEnds(trace: seq<Event>, e: Event, j: nat)
    requires j < |trace|
    ensures EndsAt(trace + [e], j) == EndsAt(trace, j)
    ensures TakenAt(trace + [e], j) == TakenAt(trace, j)
  {
    assert (trace + [e])[..j] == trace[..j];
  }

  lemma LastEnds(trace: seq<Event>, e: Event)
    requires Possible(START, trace) && Enabled(Run(START, trace), e)
    ensures EndsAt(trace + [e], |trace|) == EndsCommit(Run(START, trace), e)
    ensures TakenAt(trace + [e], |trace|) == TakesFocus(Run(START, trace), e)
    ensures forall w: WindowId :: FocusedAt(trace + [e], |trace| + 1, w) <==>
                        Step(Run(START, trace), e).focused == Some(w)
  {
    assert (trace + [e])[..|trace|] == trace;
    assert (trace + [e])[..|trace| + 1] == trace + [e];
    Append(START, trace, e);
  }

  lemma TakenGrows(trace: seq<Event>, e: Event)
    requires Possible(START, trace) && Enabled(Run(START, trace), e)
    ensures var m := Run(START, trace);
      Taken(trace + [e]) <==> TakesFocus(m, e) || (Taken(trace) && !EndsCommit(m, e))
  {
    var longer := trace + [e];
    LastEnds(trace, e);
    forall i | 0 <= i < |trace|
      ensures TakenSince(longer, i) <==> TakenSince(trace, i) && !EndsAt(longer, |trace|)
    {
      TakenOneLonger(trace, e, i);
    }
    assert TakenSince(longer, |trace|) <==> TakenAt(longer, |trace|);
  }

  lemma TakenOneLonger(trace: seq<Event>, e: Event, i: nat)
    requires i < |trace|
    ensures TakenSince(trace + [e], i) <==> TakenSince(trace, i) && !EndsAt(trace + [e], |trace|)
  {
    PrefixEnds(trace, e, i);
    forall j | i < j < |trace| ensures EndsAt(trace + [e], j) == EndsAt(trace, j) {
      PrefixEnds(trace, e, j);
    }
  }

  lemma KeptGrows(trace: seq<Event>, e: Event, w: WindowId)
    requires Possible(START, trace) && Enabled(Run(START, trace), e)
    requires e.FocusWindow? && e.w == w ==> !EndsCommit(Run(START, trace), e)
    ensures var m := Run(START, trace);
      Kept(trace + [e], w) <==>
        Kept(trace, w) && !EndsCommit(m, e) && Step(m, e).focused == Some(w)
  {
    var longer := trace + [e];
    LastEnds(trace, e);
    forall b | 0 <= b < |trace|
      ensures KeptSince(longer, w, b) <==>
              && KeptSince(trace, w, b) && !EndsAt(longer, |trace|)
              && FocusedAt(longer, |trace| + 1, w)
    {
      KeptOneLonger(trace, e, w, b);
    }
    assert !KeptSince(longer, w, |trace|);
  }

  lemma KeptOneLonger(trace: seq<Event>, e: Event, w: WindowId, b: nat)
    requires b < |trace|
    ensures KeptSince(trace + [e], w, b) <==>
            && KeptSince(trace, w, b) && !EndsAt(trace + [e], |trace|)
            && FocusedAt(trace + [e], |trace| + 1, w)
  {
    var longer := trace + [e];
    forall j | b <= j < |trace| ensures EndsAt(longer, j) == EndsAt(trace, j) {
      PrefixEnds(trace, e, j);
    }
    forall k | b < k <= |trace| ensures FocusedAt(longer, k, w) == FocusedAt(trace, k, w) {
      assert longer[..k] == trace[..k];
    }
  }

  lemma KeptBegins(trace: seq<Event>, e: Event)
    requires Possible(START, trace) && Enabled(Run(START, trace), e)
    requires e.FocusWindow? && EndsCommit(Run(START, trace), e)
    ensures Kept(trace + [e], e.w)
  {
    LastEnds(trace, e);
    assert KeptSince(trace + [e], e.w, |trace|);
  }

  /** After any run with a commit pending for an open window: the window has kept the focus since the
      commit began if and only if no step took it away in between. */
  lemma {:induction false} KeptFocusExactly(trace: seq<Event>)
    requires Possible(START, trace) && Run(START, trace).pending.Some?
    requires Run(START, trace).pending.value.window in Run(START, trace).stamps
    ensures Kept(trace, Run(START, trace).pending.value.window) <==> !Taken(trace)
    decreases |trace|
  {
    var n := |trace| - 1;
    LastStep(START, trace);
    var before, e := trace[..n], trace[n];
    assert trace == before + [e];
    var m := Run(START, before);
    TakenGrows(before, e);
    if e.FocusWindow? && EndsCommit(m, e) {
      KeptBegins(before, e);
    } else {
      var w := m.pending.value.window;
      KeptFocusExactly(before);
      KeptGrows(before, e, w);
      if Kept(before, w) {
        KeptHasFocus(before, w);
        TimerStaysOwned(START, before);
        PendingKeptExactly(m, e);
      }
    }
  }

  lemma KeptHasFocus(trace: seq<Event>, w: WindowId)
    requires Possible(START, trace) && Kept(trace, w)
    ensures Run(START, trace).focused == Some(w)
  {
    var b :| 0 <= b < |trace| && KeptSince(trace, w, b);
    assert FocusedAt(trace, |trace|, w) && trace[..|trace|] == trace;
  }

  class MruState {
    var pending: Option<Pending>
    var timers: set<Token>
    var nextToken: Token
    var stamps: map<WindowId, Option<Time>>
    var focused: Option<WindowId>
    ghost var clock: Time

    ghost function View(): Mru
      reads this
    {
      Mru(pending, timers, nextToken, stamps, focused, clock)
    }

    constructor ()
      ensures View() == START && TimerOwned(View())
    {
      pending, timers, nextToken, stamps := None, {}, 0, map[];
      focused, clock := None, 0;
    }

    method OnFocus(w: WindowId, now: Time, debounce: nat)
      requires TimerOwned(View()) && Enabled(View(), FocusWindow(w, now, debounce))
      modifies this
      ensures TimerOwned(View()) && View() == Step(old(View()), FocusWindow(w, now, debounce))
    {
      if focused == Some(w) {
        return;
      }
      focused, clock := Some(w), now;
      if stamps[w].None? || debounce == 0 {
        stamps := stamps[w := Some(now)];
      } else {
        var token := nextToken;
        nextToken := nextToken + 1;
        timers := timers + {token};
        var replaced := pending;
        pending := Some(Pending(w, token, now));
        if replaced.Some? {
          timers := timers - {replaced.value.token};
        }
      }
    }

    method ApplyKeyboardCommit()
      requires TimerOwned(View())
      modifies this
      ensures TimerOwned(View()) && View() == Commit(old(View()))
    {
      if pending.None? {
        return;
      }
      var p := pending.value;
      pending := None;
      timers := timers - {p.token};
      if p.window in stamps {
        stamps := stamps[p.window := Some(p.stamp)];
      }
    }
  }

  // ----- Pointer inactivity -----

  datatype Visibility = Visible | Hidden | Disabled

  class PointerInactivity {
    var timer: Option<Token>
    var timers: set<Token>
    var nextToken: Token
    var gotReset: bool
    var timeoutMs: Option<nat>
    var visibility: Visibility
    ghost var redraws: nat

    /** The timer is live exactly while its token is in the field. */
    ghost predicate Valid()
      reads this
    {
      && timers == (if timer.Some? then {timer.value} else {})
      && forall t | t in timers :: t < nextToken
    }

    constructor (timeoutMs: Option<nat>)
      ensures Valid() && timer.None? && !gotReset
      ensures this.timeoutMs == timeoutMs && visibility == Visible
    {
      timer, timers, nextToken, gotReset := None, {}, 0, false;
      this.timeoutMs, visibility, redraws := timeoutMs, Visible, 0;
    }

    /** Restarts the timer, once per iteration of the event loop. */
    method Reset()
      requires Valid()
      modifies this
      ensures Valid() && timeoutMs == old(timeoutMs) && visibility == old(visibility)
      ensures redraws == old(redraws)
      ensures old(gotReset) ==> gotReset && timer == old(timer) && timers == old(timers)
      ensures !old(gotReset) && timeoutMs.None? ==> timer.None? && timers == {} && !gotReset
      ensures !old(gotReset) && timeoutMs.Some? ==>
                timer.Some? && timer.value !in old(timers) && gotReset
    {
      if gotReset {
        return;
      }
      if timer.Some? {
        timers := timers - {timer.value};
        timer := None;
      }
      if timeoutMs.None? {
        return;
      }
      var token := nextToken;
      nextToken := nextToken + 1;
      timers := timers + {token};
      timer := Some(token);
      gotReset := true;
    }

    method StartIteration()
      requires Valid()
      modifies `gotReset
      ensures Valid() && !gotReset
    {
      gotReset := false;
    }

    /** Only the stored timer can fire; a visible pointer is hidden, one that is already invisible
        stays as it is. */
    method OnTimeout(token: Token)
      requires Valid() && token in timers
      modifies this
      ensures Valid() && old(timer) == Some(token) && timer.None? && timers == {}
      ensures visibility == if old(visibility).Visible? then Hidden else old(visibility)
      ensures redraws == old(redraws) + if old(visibility).Visible? then 1 else 0
      ensures gotReset == old(gotReset) && timeoutMs == old(timeoutMs)
    {
      timer := None;
      if visibility.Visible? {
        visibility := Hidden;
        redraws := redraws + 1;
      }
      timers := timers - {token};
    }
  }
}
