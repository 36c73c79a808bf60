/**
 The frame clock of an output: predicting the next presentation time from the last one, in
 nanoseconds.
 */
module FrameClocks {
  import opened Options

  /** The predicted presentation time for a known interval `r` and last presentation `last`. */
  function Predict(now: nat, last: nat, r: nat, vrr: bool): nat
    requires r > 0
  {
    var now :=
      if now > last then now
      else if now + r < last then last + r  // a 2+ early VBlank
      else now + r;                         // an early VBlank
    var toNext := ((now - last) / r + 1) * r;
    if vrr && toNext > r then now else last + toNext
  }

  // ----- What the prediction is -----

  lemma DivBounds(x: nat, r: nat)
    requires r > 0
    ensures (x / r) * r <= x < (x / r + 1) * r
    ensures (x / r + 1) * r == (x / r) * r + r
  {}

  /** `t` lies on the refresh grid through `last`, at or after `last`. */
  ghost predicate OnGrid(t: int, last: int, r: int) {
    exists k: nat :: GridPoint(last, k, r) == t
  }

  function GridPoint(last: int, k: int, r: int): int {
    last + k * r
  }

  /** Without VRR the prediction, written out: one interval on after an early VBlank, two after one
      that is exactly on time or more than an interval early, and else the next grid point. */
  lemma FixedRate(now: nat, last: nat, r: nat)
    requires r > 0
    ensures Predict(now, last, r, false) ==
      if now > last then last + ((now - last) / r + 1) * r
      else if now == last || now + r < last then last + 2 * r
      else last + r
  {
    if now <= last {
      if now == last || now + r < last {
        assert r / r == 1;
        assert ((r / r) + 1) * r == 2 * r;
      } else {
        var x := now + r - last;
        assert x / r == 0 by { SmallDiv(x, r); }
      }
    }
  }

  lemma SmallDiv(x: nat, r: nat)
    requires x < r
    ensures x / r == 0
  {}

  /** Without VRR the prediction is a grid point past `now` and at least one interval past the last
      presentation, at most two intervals past both; once the last presentation is in the past it is
      the very next grid point. */
  lemma FixedRatePrediction(now: nat, last: nat, r: nat)
    requires r > 0
    ensures
      var t := Predict(now, last, r, false);
      && t >= last + r && t > now
      && OnGrid(t, last, r)
      && t <= (if now > last then now else last) + 2 * r
      && (now > last ==> t <= now + r)
      && (now > last ==> forall k: nat | GridPoint(last, k, r) > now :: t <= GridPoint(last, k, r))
  {
    FixedRate(now, last, r);
    var t := Predict(now, last, r, false);
    if now > last {
      var q := (now - last) / r;
      DivBounds(now - last, r);
      assert GridPoint(last, q + 1, r) == t;
      forall k: nat | GridPoint(last, k, r) > now ensures t <= GridPoint(last, k, r) {
        GridOrder(q, k, r, now - last);
      }
    } else {
      assert GridPoint(last, 1, r) == last + r && GridPoint(last, 2, r) == last + 2 * r;
    }
  }

  lemma GridOrder(q: nat, k: nat, r: nat, x: nat)
    requires r > 0 && q * r <= x < k * r
    ensures (q + 1) * r <= k * r
  {
    if k <= q {
      MulMonotone(k, q, r);
    } else {
      MulMonotone(q + 1, k, r);
    }
  }

  lemma MulMonotone(a: nat, b: nat, r: nat)
    requires a <= b
    ensures a * r <= b * r
  {}

  /** With VRR the prediction is the earliest time the display accepts a frame. */
  lemma VariableRate(now: nat, last: nat, r: nat)
    requires r > 0
    ensures Predict(now, last, r, true) == if now < last + r then last + r else now
  {
    FixedRate(now, last, r);
    if now > last {
      var x := now - last;
      if x < r {
        SmallDiv(x, r);
      } else {
        DivBounds(x, r);
        DivMonotone(r, x, r);
        assert r / r == 1;
        MulMonotone(2, x / r + 1, r);
      }
    } else if now == last || now + r < last {
      assert r / r == 1;
      assert ((r / r) + 1) * r == 2 * r;
    } else {
      SmallDiv(now + r - last, r);
    }
  }

  /** Past the last presentation the prediction is monotone. */
  lemma LaterIsLater(a: nat, b: nat, last: nat, r: nat)
    requires r > 0 && last < a <= b
    ensures Predict(a, last, r, false) <= Predict(b, last, r, false)
  {
    FixedRate(a, last, r);
    FixedRate(b, last, r);
    DivMonotone(a - last, b - last, r);
    MulMonotone((a - last) / r + 1, (b - last) / r + 1, r);
  }

  /** In the first interval it is one interval on, after that at least two. */
  lemma FirstInterval(b: nat, last: nat, r: nat)
    requires r > 0 && last < b
    ensures b < last + r ==> Predict(b, last, r, false) == last + r
    ensures b >= last + r ==> Predict(b, last, r, false) >= last + 2 * r
  {
    FixedRate(b, last, r);
    if b - last < r {
      SmallDiv(b - last, r);
    } else {
      DivMonotone(r, b - last, r);
      assert r / r == 1;
      MulMonotone(2, (b - last) / r + 1, r);
    }
  }

  /** The fixed-rate prediction goes backwards in exactly one situation: the earlier query is on time
      or more than an interval early, the later one falls into the first interval around the last
      presentation. */
  lemma FixedRateMonotoneExactly(a: nat, b: nat, last: nat, r: nat)
    requires r > 0 && a <= b
    ensures Predict(a, last, r, false) <= Predict(b, last, r, false) <==>
            !((a == last || a + r < last) && b != last && last <= b + r && b < last + r)
  {
    if a > last {
      LaterIsLater(a, b, last, r);
    } else {
      FixedRate(a, last, r);
      if b > last {
        FirstInterval(b, last, r);
      } else {
        FixedRate(b, last, r);
      }
    }
  }

  lemma DivMonotone(x: nat, y: nat, r: nat)
    requires r > 0 && x <= y
    ensures x / r <= y / r
  {
    DivBounds(x, r);
    DivBounds(y, r);
    if y / r < x / r {
      MulMonotone(y / r + 1, x / r, r);
    }
  }

  /** Such a pair: the later query predicts an earlier frame. */
  lemma NotMonotone()
    ensures Predict(10, 10, 3, false) == 16 && Predict(11, 10, 3, false) == 13
  {
    FixedRate(10, 10, 3);
    FixedRate(11, 10, 3);
  }

  // ----- Runs -----

  /** The time of the frame presented after these queries, each frame being presented exactly when
      predicted. */
  ghost function Presented(first: nat, r: nat, queries: seq<nat>): nat
    requires r > 0
  {
    if queries == [] then first
    else
      var n := |queries| - 1;
      Predict(queries[n], Presented(first, r, queries[..n]), r, false)
  }

  /** Frames presented when predicted stay on the grid of the first one, and each is at least one
      interval after the one before it. */
  lemma {:induction false} RunsStayOnGrid(first: nat, r: nat, queries: seq<nat>)
    requires r > 0
    ensures OnGrid(Presented(first, r, queries), first, r)
    ensures queries != [] ==>
              Presented(first, r, queries) >= Presented(first, r, queries[..|queries| - 1]) + r
  {
    if queries == [] {
      assert GridPoint(first, 0, r) == first;
    } else {
      var n := |queries| - 1;
      RunsStayOnGrid(first, r, queries[..n]);
      var last := Presented(first, r, queries[..n]);
      FixedRatePrediction(queries[n], last, r);
      var j: nat :| GridPoint(first, j, r) == last;
      var k: nat :| GridPoint(last, k, r) == Presented(first, r, queries);
      assert GridPoint(first, j + k, r) == Presented(first, r, queries);
    }
  }

  // ----- The clock object -----

  class FrameClock {
    var lastPresentationTime: Option<nat>
    const refreshIntervalNs: Option<nat>
    var vrr: bool

    ghost predicate Valid()
      reads this
    {
      && (refreshIntervalNs.Some? ==> 0 < refreshIntervalNs.value)
      && (lastPresentationTime.Some? ==> lastPresentationTime.value != 0)
    }

    constructor (refreshInterval: Option<nat>, vrr: bool)
      requires refreshInterval.Some? ==> 0 < refreshInterval.value < 1_000_000_000
      ensures Valid() && lastPresentationTime == None
      ensures refreshIntervalNs == refreshInterval && this.vrr == vrr
    {
      lastPresentationTime, refreshIntervalNs, this.vrr := None, refreshInterval, vrr;
    }

    /** Changing the mode forgets the last presentation; setting it to what it is does not. */
    method SetVrr(vrr: bool)
      requires Valid()
      modifies this
      ensures Valid() && this.vrr == vrr
      ensures lastPresentationTime == if old(this.vrr) == vrr then old(lastPresentationTime) else None
    {
      if this.vrr == vrr {
        return;
      }
      this.vrr := vrr;
      lastPresentationTime := None;
    }

    method Presented(presentationTime: nat)
      requires Valid()
      modifies this
      ensures Valid() && vrr == old(vrr)
      ensures lastPresentationTime ==
                if presentationTime == 0 then old(lastPresentationTime) else Some(presentationTime)
    {
      if presentationTime == 0 {
        return;
      }
      lastPresentationTime := Some(presentationTime);
    }

    /** Never before `now` nor, when both are known, within an interval of the last presentation. */
    method NextPresentationTime(now: nat) returns (t: nat)
      requires Valid()
      ensures t >= now
      ensures
        if lastPresentationTime.Some? && refreshIntervalNs.Some? then
          t == Predict(now, lastPresentationTime.value, refreshIntervalNs.value, vrr) &&
          t >= lastPresentationTime.value + refreshIntervalNs.value
        else t == now
    {
      if refreshIntervalNs.None? || lastPresentationTime.None? {
        return now;
      }
      var r, last := refreshIntervalNs.value, lastPresentationTime.value;
      FixedRatePrediction(now, last, r);
      VariableRate(now, last, r);
      var adjusted := now;
      if adjusted <= last {
        // Got an early VBlank.
        adjusted := adjusted + r;
        if adjusted < last {
          adjusted := last + r;
        }
      }
      var sinceLast := adjusted - last;
      var toNext := (sinceLast / r + 1) * r;
      if vrr && toNext > r {
        t := adjusted;
      } else {
        t := last + toNext;
      }
    }
  }
}
