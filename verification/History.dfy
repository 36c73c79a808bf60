/**
 What a history of events amounts to, for a value that some events set and the others leave alone.
 */
module History {
  import opened Options

  /** `v` is what was said last. */
  ghost predicate LastSaid<V>(says: seq<Option<V>>, v: V) {
    exists i | 0 <= i < |says| :: SaidSince(says, v, i)
  }

  ghost predicate SaidSince<V>(says: seq<Option<V>>, v: V, i: nat)
    requires i < |says|
  {
    says[i] == Some(v) && forall j | i < j < |says| :: says[j].None?
  }

  ghost predicate NothingSaid<V>(says: seq<Option<V>>) {
    forall i | 0 <= i < |says| :: says[i].None?
  }

  /** `v` is what was said last or, if nothing was, what it was at the start. */
  ghost predicate Follows<V>(start: V, says: seq<Option<V>>, v: V) {
    LastSaid(says, v) || (NothingSaid(says) && v == start)
  }

  lemma LastSaidGrows<V>(says: seq<Option<V>>, said: Option<V>, v: V)
    ensures LastSaid(says + [said], v) <==>
            if said.Some? then said.value == v else LastSaid(says, v)
  {
    var longer := says + [said];
    forall i | 0 <= i < |says|
      ensures SaidSince(longer, v, i) <==> SaidSince(says, v, i) && said.None?
    {
      assert longer[|says|] == said;
      assert forall j | i < j < |says| :: longer[j] == says[j];
    }
    assert SaidSince(longer, v, |says|) <==> said == Some(v);
  }

  lemma FollowsGrows<V>(start: V, says: seq<Option<V>>, said: Option<V>, v: V)
    ensures Follows(start, says + [said], v) <==>
            if said.Some? then said.value == v else Follows(start, says, v)
  {
    LastSaidGrows(says, said, v);
    var longer := says + [said];
    assert longer[|says|] == said;
    assert forall i | 0 <= i < |says| :: longer[i] == says[i];
  }

  function Or<V>(said: Option<V>, old': V): V {
    if said.Some? then said.value else old'
  }

  lemma {:induction false} FollowsPrepend<V>(start: V, said: Option<V>, says: seq<Option<V>>, v: V)
    ensures Follows(start, [said] + says, v) <==> Follows(Or(said, start), says, v)
    decreases |says|
  {
    if says == [] {
      assert [said] + says == [] + [said];
      FollowsGrows(start, [], said, v);
    } else {
      var n := |says| - 1;
      assert [said] + says == ([said] + says[..n]) + [says[n]];
      assert says == says[..n] + [says[n]];
      FollowsGrows(start, [said] + says[..n], says[n], v);
      FollowsGrows(Or(said, start), says[..n], says[n], v);
      FollowsPrepend(start, said, says[..n], v);
    }
  }

  /** There is only one such value. */
  lemma FollowsUnique<V>(start: V, says: seq<Option<V>>, v: V, w: V)
    requires Follows(start, says, v) && Follows(start, says, w)
    ensures v == w
  {
    if LastSaid(says, v) {
      var i :| 0 <= i < |says| && SaidSince(says, v, i);
      assert says[i].Some?;
      var j :| 0 <= j < |says| && SaidSince(says, w, j);
      assert i == j;
    }
  }
}
