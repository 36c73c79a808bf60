/**
 The active output configuration under reloads of the file on disk and transient edits
 (`reload_config`, `modify_output_config`, output management).
 */
module OutputConfig {
  import opened Options
  import opened OutputNames

  /** A configuration section with the name it was written for; `settings` is everything else. */
  datatype Section<T> = Section(name: string, settings: T)

  /** The first section that matches, or `|sections|`. */
  function FindIndex<T>(sections: seq<Section<T>>, name: OutputName): (i: nat)
    ensures i <= |sections|
    ensures forall j | 0 <= j < i :: !Matches(name, sections[j].name)
    ensures i < |sections| ==> Matches(name, sections[i].name)
  {
    if sections == [] || Matches(name, sections[0].name) then 0
    else 1 + FindIndex(sections[1..], name)
  }

  function Find<T>(sections: seq<Section<T>>, name: OutputName): Option<Section<T>> {
    var i := FindIndex(sections, name);
    if i < |sections| then Some(sections[i]) else None
  }

  /** `output_by_name_match`: the first connected output that the user's `name` selects. */
  function ConnectedMatch(connected: seq<OutputName>, name: string): (r: Option<OutputName>)
    ensures r.Some? ==> r.value in connected && Matches(r.value, name)
    ensures r.None? ==> forall n | n in connected :: !Matches(n, name)
  {
    if connected == [] then None
    else if Matches(connected[0], name) then Some(connected[0])
    else ConnectedMatch(connected[1..], name)
  }

  function MatchName(connected: seq<OutputName>, name: string): OutputName {
    match ConnectedMatch(connected, name)
    case Some(output) => output
    case None => OutputName(name, None, None, None)
  }

  /** A change that is not written to disk: of one section, or of the whole list at once. */
  datatype Edit<!T> =
    | ByName(connected: seq<OutputName>, name: string, fun: Section<T> -> Section<T>)
    | Whole(sections: seq<Section<T>>)

  function ApplyEdit<T>(sections: seq<Section<T>>, default: T, e: Edit<T>): seq<Section<T>> {
    match e
    case Whole(new') => new'
    case ByName(connected, name, fun) =>
      var i := FindIndex(sections, MatchName(connected, name));
      if i < |sections| then sections[i := fun(sections[i])]
      else sections + [fun(Section(name, default))]
  }

  function Replay<T>(sections: seq<Section<T>>, default: T, edits: seq<Edit<T>>): seq<Section<T>> {
    if edits == [] then sections
    else
      var n := |edits| - 1;
      ApplyEdit(Replay(sections, default, edits[..n]), default, edits[n])
  }

  // ----- An edit reaches the output it names -----

  /** Where the edited section is, and what it was edited from. */
  function EditedIndex<T>(sections: seq<Section<T>>, e: Edit<T>): nat
    requires e.ByName?
  {
    FindIndex(sections, MatchName(e.connected, e.name))
  }

  function EditedFrom<T>(sections: seq<Section<T>>, default: T, e: Edit<T>): (r: Section<T>)
    requires e.ByName?
    ensures Matches(MatchName(e.connected, e.name), r.name)
  {
    var i := EditedIndex(sections, e);
    if i < |sections| then sections[i] else Section(e.name, default)
  }

  /** A name resolves to the first connected output that it selects or, without one, to an output with
      that connector. */
  lemma {:induction false} MatchNameFirst(connected: seq<OutputName>, name: string)
    ensures
      var r := MatchName(connected, name);
      || (exists i | 0 <= i < |connected| ::
            connected[i] == r && Matches(r, name) &&
            forall j | 0 <= j < i :: !Matches(connected[j], name))
      || (r == OutputName(name, None, None, None) &&
          forall i | 0 <= i < |connected| :: !Matches(connected[i], name))
  {
    if connected != [] && !Matches(connected[0], name) {
      var rest := connected[1..];
      MatchNameFirst(rest, name);
      assert MatchName(connected, name) == MatchName(rest, name);
      if ConnectedMatch(rest, name).Some? {
        var i :| 0 <= i < |rest| && rest[i] == MatchName(rest, name) && Matches(rest[i], name) &&
                 forall j | 0 <= j < i :: !Matches(rest[j], name);
        assert connected[i + 1] == rest[i];
        assert forall j | 0 <= j < i + 1 :: j > 0 ==> connected[j] == rest[j - 1];
      }
    }
  }

  /** An edit by name changes one section, or adds one at the end; an edit of everything replaces
      everything. */
  lemma EditChangesOne<T>(sections: seq<Section<T>>, default: T, e: Edit<T>)
    ensures var after := ApplyEdit(sections, default, e);
      match e
      case Whole(new') => after == new'
      case ByName(_, _, _) =>
        && |after| == (if EditedIndex(sections, e) < |sections| then |sections| else |sections| + 1)
        && (forall j | 0 <= j < |sections| && j != EditedIndex(sections, e) ::
              after[j] == sections[j])
        && EditedIndex(sections, e) < |after|
        && after[EditedIndex(sections, e)] == e.fun(EditedFrom(sections, default, e))
  {}

  /** The output that the name resolved to finds the edited section, exactly when the edit leaves a
      name that still matches; every output's section is otherwise as it was. */
  lemma EditReachesOutput<T>(sections: seq<Section<T>>, default: T, e: Edit<T>, other: OutputName)
    requires e.ByName?
    ensures
      var after := ApplyEdit(sections, default, e);
      var target := MatchName(e.connected, e.name);
      var i := EditedIndex(sections, e);
      var edited := e.fun(EditedFrom(sections, default, e));
      && i < |after| && after[i] == edited
      && (FindIndex(after, target) == i <==> Matches(target, edited.name))
      && (FindIndex(sections, other) < i ==> Find(after, other) == Find(sections, other))
      && (!Matches(other, edited.name) && FindIndex(sections, other) != i ==>
            Find(after, other) == Find(sections, other))
  {
    var after := ApplyEdit(sections, default, e);
    var i := EditedIndex(sections, e);
    assert forall j | 0 <= j < |sections| && j != i :: after[j] == sections[j];
    FirstMatch(after, MatchName(e.connected, e.name), i);
    var k := FindIndex(sections, other);
    if k < |sections| && k != i && (k < i || !Matches(other, after[i].name)) {
      FirstMatch(after, other, k);
    }
  }

  /** `k` is the first match if it matches and nothing before it does. */
  lemma FirstMatch<T>(sections: seq<Section<T>>, name: OutputName, k: nat)
    requires k < |sections| && forall j | 0 <= j < k :: !Matches(name, sections[j].name)
    ensures FindIndex(sections, name) == k <==> Matches(name, sections[k].name)
  {}

  // ----- Reloads and edits in any order -----

  datatype Event<!T> =
    | Reload(onDisk: seq<Section<T>>)
    | Change(edit: Edit<T>)

  datatype State<T> = State(onDisk: seq<Section<T>>, active: seq<Section<T>>)

  function Step<T(==)>(s: State<T>, default: T, e: Event<T>): State<T> {
    match e
    case Reload(outputs) =>
      // Unchanged on disk: keep the transient changes.
      if outputs != s.onDisk then State(outputs, outputs) else s
    case Change(edit) => s.(active := ApplyEdit(s.active, default, edit))
  }

  function Run<T(==)>(start: seq<Section<T>>, default: T, events: seq<Event<T>>): State<T> {
    if events == [] then State(start, start)
    else
      var n := |events| - 1;
      Step(Run(start, default, events[..n]), default, events[n])
  }

  /** What was on disk at the last load before event `k`. */
  ghost function DiskBefore<T>(start: seq<Section<T>>, events: seq<Event<T>>, k: nat)
    : seq<Section<T>>
    requires k <= |events|
  {
    if k == 0 then start
    else match events[k - 1]
      case Reload(outputs) => outputs
      case Change(_) => DiskBefore(start, events, k - 1)
  }

  ghost predicate ChangedAt<T>(start: seq<Section<T>>, events: seq<Event<T>>, k: nat)
    requires k < |events|
  {
    events[k].Reload? && events[k].onDisk != DiskBefore(start, events, k)
  }

  ghost function Edits<T>(events: seq<Event<T>>): seq<Edit<T>> {
    if events == [] then []
    else
      var n := |events| - 1;
      Edits(events[..n]) + match events[n] case Reload(_) => [] case Change(e) => [e]
  }

  lemma {:induction false} DiskBeforePrefix<T>(start: seq<Section<T>>, events: seq<Event<T>>,
                                               n: nat, k: nat)
    requires k <= n <= |events|
    ensures DiskBefore(start, events[..n], k) == DiskBefore(start, events, k)
  {
    if k > 0 && events[k - 1].Change? {
      DiskBeforePrefix(start, events, n, k - 1);
    }
  }

  lemma {:induction false} DiskTracked<T>(start: seq<Section<T>>, default: T, events: seq<Event<T>>)
    ensures Run(start, default, events).onDisk == DiskBefore(start, events, |events|)
    decreases |events|
  {
    if events != [] {
      var n := |events| - 1;
      DiskTracked(start, default, events[..n]);
      DiskBeforePrefix(start, events, n, n);
    }
  }

  /** Since event `k` (or since the start, if `k == 0`) the file on disk has not changed. */
  ghost predicate UnchangedSince<T>(start: seq<Section<T>>, events: seq<Event<T>>, k: nat) {
    forall i | k <= i < |events| :: !ChangedAt(start, events, i)
  }

  /** After any interleaving of reloads and transient edits, the active configuration is the list
      from the last change on disk with all later edits replayed in order; edits from before that
      change are gone, edits after it survive every reload that finds the file unchanged. */
  lemma {:induction false} ActiveIsDiskPlusEdits<T>(start: seq<Section<T>>, default: T,
                                                   events: seq<Event<T>>, k: nat)
    requires k <= |events| && UnchangedSince(start, events, k)
    requires k == 0 || ChangedAt(start, events, k - 1)
    ensures Run(start, default, events).active ==
            Replay(DiskBefore(start, events, k), default, Edits(events[k..]))
    decreases |events|
  {
    if k < |events| {
      var n := |events| - 1;
      UnchangedPrefix(start, events, k);
      ActiveIsDiskPlusEdits(start, default, events[..n], k);
      DiskBeforePrefix(start, events, n, k);
      LastEventReplayed(start, default, events, k);
    } else {
      assert events[k..] == [];
      if k > 0 {
        DiskTracked(start, default, events[..k - 1]);
        DiskBeforePrefix(start, events, k - 1, k - 1);
      }
    }
  }

  lemma UnchangedPrefix<T>(start: seq<Section<T>>, events: seq<Event<T>>, k: nat)
    requires k < |events| && UnchangedSince(start, events, k)
    requires k == 0 || ChangedAt(start, events, k - 1)
    ensures UnchangedSince(start, events[..|events| - 1], k)
    ensures k == 0 || ChangedAt(start, events[..|events| - 1], k - 1)
  {
    var n := |events| - 1;
    forall i | k <= i < n ensures !ChangedAt(start, events[..n], i) {
      DiskBeforePrefix(start, events, n, i);
      assert !ChangedAt(start, events, i);
    }
    if k > 0 {
      DiskBeforePrefix(start, events, n, k - 1);
    }
  }

  /** The last event, if the file did not change with it, adds its edit or nothing. */
  lemma LastEventReplayed<T>(start: seq<Section<T>>, default: T, events: seq<Event<T>>, k: nat)
    requires k < |events| && !ChangedAt(start, events, |events| - 1)
    requires
      var n := |events| - 1;
      Run(start, default, events[..n]).active ==
        Replay(DiskBefore(start, events, k), default, Edits(events[..n][k..]))
    ensures Run(start, default, events).active ==
            Replay(DiskBefore(start, events, k), default, Edits(events[k..]))
  {
    var n := |events| - 1;
    var before := events[..n];
    DiskTracked(start, default, before);
    DiskBeforePrefix(start, events, n, n);
    assert before[k..] == events[k..][..n - k];
    assert events[k..][n - k] == events[n];
    if events[n].Change? {
      var edits := Edits(events[k..]);
      assert edits[..|edits| - 1] == Edits(before[k..]);
    } else {
      assert Edits(events[k..]) == Edits(before[k..]);
    }
  }

  // ----- The operations -----

  class Outputs<T(==)> {
    var onDisk: seq<Section<T>>
    var active: seq<Section<T>>

    constructor (start: seq<Section<T>>)
      ensures onDisk == active == start
    {
      onDisk, active := start, start;
    }

    method ReloadConfig(outputs: seq<Section<T>>, ghost default: T)
      modifies this
      ensures State(onDisk, active) == Step(State(old(onDisk), old(active)), default, Reload(outputs))
    {
      var preserved := None;
      if outputs != onDisk {
        onDisk := outputs;
      } else {
        preserved := Some(active);
      }
      active := outputs;
      if preserved.Some? {
        active := preserved.value;
      }
    }

    method ModifyOutputConfig(connected: seq<OutputName>, name: string, default: T,
                              fun: Section<T> -> Section<T>)
      modifies this
      ensures State(onDisk, active) ==
              Step(State(old(onDisk), old(active)), default, Change(ByName(connected, name, fun)))
    {
      var c := 0;
      while c < |connected| && !Matches(connected[c], name)
        invariant c <= |connected|
        invariant ConnectedMatch(connected, name) == ConnectedMatch(connected[c..], name)
      {
        assert connected[c..][1..] == connected[c + 1..];
        c := c + 1;
      }
      var target :=
        if c < |connected| then connected[c] else OutputName(name, None, None, None);
      assert target == MatchName(connected, name);
      var i := 0;
      while i < |active| && !Matches(target, active[i].name)
        invariant i <= |active| && active == old(active)
        invariant forall j | 0 <= j < i :: !Matches(target, active[j].name)
      {
        i := i + 1;
      }
      if i < |active| {
        FirstMatch(active, target, i);
        active := active[i := fun(active[i])];
      } else {
        active := active + [fun(Section(name, default))];
      }
    }
  }
}
