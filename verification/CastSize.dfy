/**
 Negotiating the size of a screencast stream: the compositor asks for a size, PipeWire answers with
 format callbacks, possibly for an older request.
 */
module CastSize {
  import opened Options
  import opened History

  datatype Size = Size(w: nat, h: nat)
  type Modifier = nat

  datatype CastState =
    | ResizePending(pendingSize: Size)
    | ConfirmationPending(size: Size, alpha: bool, modifier: Modifier, planeCount: nat)
    // `tracker`: the size the damage tracker was created for, once there is one.
    | Ready(size: Size, alpha: bool, modifier: Modifier, planeCount: nat, tracker: Option<Size>)

  function ExpectedFormatSize(s: CastState): Size {
    match s
    case ResizePending(pendingSize) => pendingSize
    case ConfirmationPending(size, _, _, _) => size
    case Ready(size, _, _, _, _) => size
  }

  function PendingSize(s: CastState): Option<Size> {
    match s
    case ResizePending(pendingSize) => Some(pendingSize)
    case ConfirmationPending(size, _, _, _) => Some(size)
    case Ready(_, _, _, _, _) => None
  }

  /** `as u32` of an `i32`. */
  function ToU32(x: int): nat {
    x % 0x1_0000_0000
  }

  function RequestedSize(w: int, h: int): Size {
    Size(ToU32(w), ToU32(h))
  }

  datatype SizeChange = SizeReady | SizePending | UpdateFailed

  /** `updateOk`: whether PipeWire accepted the new stream parameters. */
  function EnsureSize(s: CastState, size: Size, updateOk: bool): (CastState, SizeChange) {
    if s.Ready? && s.size == size then (s, SizeReady)
    else if PendingSize(s) == Some(size) then (s, SizePending)
    else (ResizePending(size), if updateOk then SizePending else UpdateFailed)
  }

  /** A format callback, with the outcome of everything it asks of others. */
  datatype Format = Format(
    size: Size,
    alpha: bool,
    // The modifier property: absent, a choice to be fixated (with a usable list of alternatives or
    // not), or settled.
    modifier: ModifierProp,
    // The test allocation, if one is needed: modifier and plane count.
    allocation: Option<(Modifier, nat)>,
    // Whether PipeWire accepts the parameters sent in reply.
    updateOk: bool)

  datatype ModifierProp = Missing | Choice(wellTyped: bool) | Settled(value: Modifier)

  /** The new state, and whether the cast is stopped. */
  function ParamChanged(s: CastState, f: Format): (CastState, bool) {
    if f.size != ExpectedFormatSize(s) then (s, !s.ResizePending?)
    else
      match f.modifier
      case Missing => (s, true)
      case Choice(wellTyped) =>
        if !wellTyped || f.allocation.None? then (s, true)
        else
          (ConfirmationPending(f.size, f.alpha, f.allocation.value.0, f.allocation.value.1),
           !f.updateOk)
      case Settled(value) =>
        if !s.ResizePending? && s.alpha == f.alpha && s.modifier == value then
          (Ready(s.size, s.alpha, s.modifier, s.planeCount, if s.Ready? then s.tracker else None),
           !f.updateOk)
        else if f.allocation.None? then (s, true)
        else
          (Ready(f.size, f.alpha, f.allocation.value.0, f.allocation.value.1, None), !f.updateOk)
  }

  /** Rendering a frame creates the damage tracker if there is none, for the size being rendered. */
  function Render(s: CastState, size: Size): CastState {
    if s.Ready? && s.tracker.None? then s.(tracker := Some(size)) else s
  }

  // ----- Runs -----

  datatype Event =
    | Request(w: int, h: int, updateOk: bool, frames: nat)
    | Callback(format: Format)
    | Clear

  /** A request that finds the stream ready may be followed by renders of that size. */
  function Step(s: CastState, e: Event): CastState {
    match e
    case Request(w, h, updateOk, frames) =>
      var size := RequestedSize(w, h);
      var (s', change) := EnsureSize(s, size, updateOk);
      if change.SizeReady? && frames > 0 then Render(s', size) else s'
    case Callback(format) => ParamChanged(s, format).0
    case Clear => if s.Ready? then s.(tracker := None) else s
  }

  function Run(start: Size, events: seq<Event>): CastState {
    if events == [] then ResizePending(start)
    else Step(Run(start, events[..|events| - 1]), events[|events| - 1])
  }

  /** The size the compositor asked for last, starting with the size the cast was created with. */
  function LastRequested(start: Size, events: seq<Event>): Size {
    if events == [] then start
    else match events[|events| - 1]
      case Request(w, h, _, _) => RequestedSize(w, h)
      case _ => LastRequested(start, events[..|events| - 1])
  }

  lemma {:induction false} ExpectsLastRequested(start: Size, events: seq<Event>)
    ensures ExpectedFormatSize(Run(start, events)) == LastRequested(start, events)
    ensures var s := Run(start, events); s.Ready? && s.tracker.Some? ==> s.tracker.value == s.size
  {
    if events != [] {
      ExpectsLastRequested(start, events[..|events| - 1]);
    }
  }

  /** After any run of requests, callbacks and renders, asking for a size reports the stream ready
      exactly when it is in the negotiated `Ready` state and that size is the one asked for last, and
      the damage tracker, if any, was made for it. Callbacks for older requests change nothing. */
  lemma ReadyMeansNegotiated(start: Size, events: seq<Event>, size: Size, updateOk: bool)
    ensures
      var s := Run(start, events);
      var (s', change) := EnsureSize(s, size, updateOk);
      && (change.SizeReady? <==> s.Ready? && size == LastRequested(start, events))
      && (change.SizeReady? ==> s' == s && s.size == size)
      && (change.SizeReady? && s.tracker.Some? ==> s.tracker.value == size)
      && ExpectedFormatSize(s') == size
  {
    ExpectsLastRequested(start, events);
  }

  /** A callback for another size is ignored while a resize is pending and otherwise stops the cast;
      a callback never changes which size is being negotiated. */
  lemma CallbackKeepsSize(s: CastState, f: Format)
    ensures ExpectedFormatSize(ParamChanged(s, f).0) == ExpectedFormatSize(s)
    ensures f.size != ExpectedFormatSize(s) ==>
              ParamChanged(s, f).0 == s && ParamChanged(s, f).1 == !s.ResizePending?
    ensures ParamChanged(s, f).1 && f.updateOk ==> ParamChanged(s, f).0 == s
  {}

  // ----- What was negotiated -----

  /** Alpha, modifier and plane count. */
  datatype Terms = Terms(alpha: bool, modifier: Modifier, planeCount: nat)

  function TermsOf(s: CastState): Option<Terms> {
    match s
    case ResizePending(_) => None
    case ConfirmationPending(_, alpha, modifier, planeCount) =>
      Some(Terms(alpha, modifier, planeCount))
    case Ready(_, alpha, modifier, planeCount, _) => Some(Terms(alpha, modifier, planeCount))
  }

  /** The format is the one that the terms are about. */
  predicate Confirms(terms: Option<Terms>, f: Format) {
    && f.modifier.Settled? && terms.Some?
    && terms.value.alpha == f.alpha && terms.value.modifier == f.modifier.value
  }

  /** A usable list of modifiers, one of which could be allocated. */
  predicate Offers(f: Format) {
    f.modifier == Choice(true) && f.allocation.Some?
  }

  /** One modifier: the one already agreed on, or one that could be allocated. */
  predicate Settles(terms: Option<Terms>, f: Format) {
    f.modifier.Settled? && (Confirms(terms, f) || f.allocation.Some?)
  }

  /** What a callback of the expected size, or a request for another size, says about the stream being
      ready. */
  function ReadySaid(expected: Size, terms: Option<Terms>, e: Event): Option<bool> {
    match e
    case Request(w, h, _, _) => if RequestedSize(w, h) != expected then Some(false) else None
    case Callback(f) =>
      if f.size != expected then None
      else if Settles(terms, f) then Some(true)
      else if Offers(f) then Some(false)
      else None
    case Clear => None
  }

  /** What it says about the terms: what was allocated, unless it confirms what was agreed. */
  function TermsSaid(expected: Size, terms: Option<Terms>, e: Event): Option<Option<Terms>> {
    match e
    case Request(w, h, _, _) => if RequestedSize(w, h) != expected then Some(None) else None
    case Callback(f) =>
      if f.size == expected && (Offers(f) || (Settles(terms, f) && !Confirms(terms, f)))
      then Some(Some(Terms(f.alpha, f.allocation.value.0, f.allocation.value.1)))
      else None
    case Clear => None
  }

  /** What it says about there being a damage tracker. */
  function TrackerSaid(expected: Size, s: CastState, e: Event): Option<bool> {
    match e
    case Request(w, h, _, frames) =>
      if RequestedSize(w, h) != expected then Some(false)
      else if s.Ready? && frames > 0 then Some(true)
      else None
    case Callback(f) => if TermsSaid(expected, TermsOf(s), e).Some? then Some(false) else None
    case Clear => Some(false)
  }

  function ReadySays(start: Size, events: seq<Event>): seq<Option<bool>> {
    seq(|events|, i requires 0 <= i < |events| =>
      ReadySaid(LastRequested(start, events[..i]), TermsOf(Run(start, events[..i])), events[i]))
  }

  function TermsSays(start: Size, events: seq<Event>): seq<Option<Option<Terms>>> {
    seq(|events|, i requires 0 <= i < |events| =>
      TermsSaid(LastRequested(start, events[..i]), TermsOf(Run(start, events[..i])), events[i]))
  }

  function TrackerSays(start: Size, events: seq<Event>): seq<Option<bool>> {
    seq(|events|, i requires 0 <= i < |events| =>
      TrackerSaid(LastRequested(start, events[..i]), Run(start, events[..i]), events[i]))
  }

  predicate HasTracker(s: CastState) {
    s.Ready? && s.tracker.Some?
  }

  lemma StepAsSaid(s: CastState, e: Event)
    ensures
      var expected, terms, s' := ExpectedFormatSize(s), TermsOf(s), Step(s, e);
      var ready, told := ReadySaid(expected, terms, e), TermsSaid(expected, terms, e);
      var tracker := TrackerSaid(expected, s, e);
      && s'.Ready? == (if ready.Some? then ready.value else s.Ready?)
      && TermsOf(s') == (if told.Some? then told.value else terms)
      && HasTracker(s') == (if tracker.Some? then tracker.value else HasTracker(s))
  {}

  lemma SaysGrow(start: Size, events: seq<Event>)
    requires events != []
    ensures
      var n := |events| - 1;
      var before, e := events[..n], events[n];
      var expected, s := LastRequested(start, before), Run(start, before);
      && ReadySays(start, events) == ReadySays(start, before) + [ReadySaid(expected, TermsOf(s), e)]
      && TermsSays(start, events) == TermsSays(start, before) + [TermsSaid(expected, TermsOf(s), e)]
      && TrackerSays(start, events) == TrackerSays(start, before) + [TrackerSaid(expected, s, e)]
  {
    var before := events[..|events| - 1];
    forall i | 0 <= i < |before| ensures before[..i] == events[..i] {}
  }

  /** After any run: the stream is ready if and only if the last thing that mattered was a callback of
      the expected size with a settled modifier, agreed on before or allocated there; the terms are
      the ones last allocated for that size; and there is a damage tracker if and only if a frame was
      rendered since the terms last changed or it was last cleared. */
  lemma {:induction false} NegotiatedAsSaid(start: Size, events: seq<Event>)
    ensures
      var s := Run(start, events);
      && Follows(false, ReadySays(start, events), s.Ready?)
      && Follows(None, TermsSays(start, events), TermsOf(s))
      && Follows(false, TrackerSays(start, events), HasTracker(s))
    decreases |events|
  {
    if events != [] {
      var n := |events| - 1;
      var before, e := events[..n], events[n];
      var s, s' := Run(start, before), Run(start, events);
      var expected := LastRequested(start, before);
      NegotiatedAsSaid(start, before);
      ExpectsLastRequested(start, before);
      StepAsSaid(s, e);
      SaysGrow(start, events);
      FollowsGrows(false, ReadySays(start, before), ReadySaid(expected, TermsOf(s), e), s'.Ready?);
      FollowsGrows(None, TermsSays(start, before), TermsSaid(expected, TermsOf(s), e), TermsOf(s'));
      FollowsGrows(false, TrackerSays(start, before), TrackerSaid(expected, s, e), HasTracker(s'));
    }
  }

  /** A callback stops the cast if and only if it is for another size although no resize is pending,
      or for the expected one with an unusable modifier, without the allocation it needs, or with
      parameters that are refused. */
  lemma StopsExactly(s: CastState, f: Format)
    ensures ParamChanged(s, f).1 <==>
            if f.size != ExpectedFormatSize(s) then TermsOf(s).Some?
            else !(Offers(f) || Settles(TermsOf(s), f)) || !f.updateOk
  {}

  /** A request reports a change of size as pending, or failed if the parameters are refused; for the
      size being negotiated it reports whether the stream is ready, and changes nothing. */
  lemma ReportsExactly(s: CastState, size: Size, updateOk: bool)
    ensures
      var (s', change) := EnsureSize(s, size, updateOk);
      && (change.UpdateFailed? <==> size != ExpectedFormatSize(s) && !updateOk)
      && (change.SizeReady? <==> size == ExpectedFormatSize(s) && s.Ready?)
      && (size == ExpectedFormatSize(s) ==> s' == s)
      && (size != ExpectedFormatSize(s) ==> TermsOf(s').None? && ExpectedFormatSize(s') == size)
  {}

  // ----- The object shared with the callbacks -----

  class CastInner {
    var state: CastState

    constructor (size: Size)
      ensures state == ResizePending(size)
    {
      state := ResizePending(size);
    }

    method EnsureCastSize(w: int, h: int, updateOk: bool) returns (change: SizeChange)
      modifies this
      ensures (state, change) == EnsureSize(old(state), RequestedSize(w, h), updateOk)
    {
      var newSize := RequestedSize(w, h);
      if state.Ready? && state.size == newSize {
        return SizeReady;
      }
      if PendingSize(state) == Some(newSize) {
        return SizePending;
      }
      state := ResizePending(newSize);
      if !updateOk {
        return UpdateFailed;
      }
      return SizePending;
    }

    method OnParamChanged(f: Format) returns (stop: bool)
      modifies this
      ensures (state, stop) == ParamChanged(old(state), f)
    {
      if f.size != ExpectedFormatSize(state) {
        return !state.ResizePending?;
      }
      match f.modifier
      case Missing => return true;
      case Choice(wellTyped) =>
        if !wellTyped {
          return true;
        }
        match f.allocation {
          case None => return true;
          case Some((modifier, planes)) =>
            state := ConfirmationPending(f.size, f.alpha, modifier, planes);
            return !f.updateOk;
        }
      case Settled(value) =>
        if !state.ResizePending? && state.alpha == f.alpha && state.modifier == value {
          var tracker := if state.Ready? then state.tracker else None;
          state := Ready(state.size, state.alpha, state.modifier, state.planeCount, tracker);
          return !f.updateOk;
        }
        match f.allocation {
          case None => return true;
          case Some((modifier, planes)) =>
            state := Ready(f.size, f.alpha, modifier, planes, None);
            return !f.updateOk;
        }
    }
  }
}
