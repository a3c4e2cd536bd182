/** The time map and its inverse: from a position in seconds to the order that is playing then. */
module SeekTime {
  import opened Basics
  import opened Plan
  import opened Seek

  /** Entry `j` is the last one among those with the greatest start time not after `secs`. */
  ghost predicate LatestAt(os: seq<OrderSec>, secs: real, j: nat) {
    && j < |os| && os[j].seconds <= secs
    && forall i :: 0 <= i < |os| && os[i].seconds <= secs ==>
         os[i].seconds < os[j].seconds || (os[i].seconds == os[j].seconds && i <= j)
  }

  /** `order_for_seconds`; 0 when nothing has started by `secs`. */
  method OrderForSeconds(os: seq<OrderSec>, secs: real) returns (best: nat)
    ensures (exists i :: 0 <= i < |os| && os[i].seconds <= secs) ==>
      exists j: nat :: LatestAt(os, secs, j) && best == os[j].order
    ensures (forall i :: 0 <= i < |os| ==> os[i].seconds > secs) ==> best == 0
  {
    best := 0;
    ghost var at: Option<nat> := None;
    var bestT: Option<real> := None;
    for k := 0 to |os|
      invariant bestT.Some? == at.Some?
      invariant at.Some? ==> LatestAt(os[..k], secs, at.value) && best == os[at.value].order
      invariant at.Some? ==> bestT.value == os[at.value].seconds
      invariant at.None? ==> best == 0 && forall i :: 0 <= i < k ==> os[i].seconds > secs
    {
      var entry := os[k];
      if entry.seconds <= secs && (bestT.None? || entry.seconds >= bestT.value) {
        bestT, best, at := Some(entry.seconds), entry.order, Some(k);
      }
    }
    assert os[..|os|] == os;
  }

  lemma {:induction false} StartTimesDoNotDecrease(m: SimModel, p: nat, q: nat)
    requires ModelOk(m) && p <= q <= |m.orderPats|
    ensures ClockAt(m, p).t <= ClockAt(m, q).t
    decreases q - p
  {
    if p < q {
      StartTimesDoNotDecrease(m, p, q - 1);
      ClockStep(m, q - 1);
    }
  }

  /** With a row in every pattern, each order starts strictly later than the one before; the first at 0. */
  lemma {:induction false} StartTimesIncrease(m: SimModel, p: nat, q: nat)
    requires ModelOk(m) && p < q <= |m.orderPats|
    requires forall i :: 0 <= i < |m.orderPats| ==> RowsAt(m, i) > 0
    ensures ClockAt(m, 0).t == 0.0 <= ClockAt(m, p).t < ClockAt(m, q).t
  {
    StartTimesDoNotDecrease(m, 0, p);
    StartTimesDoNotDecrease(m, p + 1, q);
    ClockStep(m, p);
    assert RowsAt(m, p) > 0;
  }

  /** The entry found is the one whose interval contains the time, patterns without rows included. */
  lemma SeekTimeInverts(m: SimModel, secs: real, j: nat)
    requires ModelOk(m) && j < |m.orderPats|
    ensures LatestAt(TimingMap(m), secs, j) <==>
      ClockAt(m, j).t <= secs && (j + 1 < |m.orderPats| ==> secs < ClockAt(m, j + 1).t)
  {
    hide ClockAt;
    var os := TimingMap(m);
    if j + 1 < |os| {
      StartTimesDoNotDecrease(m, j, j + 1);
      assert os[j + 1].seconds == ClockAt(m, j + 1).t;
    }
    forall i | 0 <= i < |os|
      ensures i <= j ==> os[i].seconds <= ClockAt(m, j).t
      ensures i > j ==> j + 1 < |os| && os[i].seconds >= ClockAt(m, j + 1).t
    {
      if i <= j {
        StartTimesDoNotDecrease(m, i, j);
      } else {
        StartTimesDoNotDecrease(m, j + 1, i);
      }
    }
  }

  /** From the start of the song on, some order is always playing. */
  lemma SomeOrderIsPlaying(m: SimModel, secs: real) returns (j: nat)
    requires ModelOk(m) && m.orderPats != [] && secs >= 0.0
    ensures j < |m.orderPats| && LatestAt(TimingMap(m), secs, j)
  {
    j := 0;
    while j + 1 < |m.orderPats| && ClockAt(m, j + 1).t <= secs
      invariant j < |m.orderPats| && ClockAt(m, j).t <= secs
    {
      j := j + 1;
    }
    SeekTimeInverts(m, secs, j);
  }
}
