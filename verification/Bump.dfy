/** The rule all three timestamp repairs share: a value that does not exceed the last emitted one is
    replaced by the last one plus one. */
module Bump {
  import opened Options

  function Step(last: Option<int>, x: int): int {
    if last.Some? && x <= last.value then last.value + 1 else x
  }

  function Run(last: Option<int>, xs: seq<int>): (ys: seq<int>)
    ensures |ys| == |xs|
    decreases |xs|
  {
    if xs == [] then []
    else
      var y := Step(last, xs[0]);
      [y] + Run(Some(y), xs[1..])
  }

  /** Strictly increasing, from after the last emitted value on. */
  predicate Rising(last: Option<int>, ys: seq<int>) {
    && (last.Some? && ys != [] ==> ys[0] > last.value)
    && forall i :: 0 < i < |ys| ==> ys[i - 1] < ys[i]
  }

  /** The gap in front of the i-th value, prev standing before the first. */
  function GapAt(prev: int, xs: seq<int>, i: nat): int
    requires i < |xs|
  {
    xs[i] - if i == 0 then prev else xs[i - 1]
  }

  predicate Above(xs: seq<int>, ys: seq<int>) {
    |xs| == |ys| && forall i :: 0 <= i < |xs| ==> xs[i] <= ys[i]
  }

  lemma RisingTail(last: Option<int>, ys: seq<int>)
    requires Rising(last, ys) && ys != []
    ensures Rising(Some(ys[0]), ys[1..])
  {
  }

  /** The output rises and never falls below the input. */
  lemma {:induction false} RunRises(last: Option<int>, xs: seq<int>)
    ensures Rising(last, Run(last, xs)) && Above(xs, Run(last, xs))
    decreases |xs|
  {
    if xs != [] {
      var y := Step(last, xs[0]);
      RunRises(Some(y), xs[1..]);
      var ys := Run(last, xs);
      assert ys[1..] == Run(Some(y), xs[1..]);
      forall i | 0 < i < |ys|
        ensures ys[i - 1] < ys[i]
      {
        assert ys[i] == ys[1..][i - 1];
        if i > 1 {
          assert ys[i - 1] == ys[1..][i - 2];
        }
      }
      forall i | 0 <= i < |xs|
        ensures xs[i] <= ys[i]
      {
        if i > 0 {
          assert ys[i] == ys[1..][i - 1] && xs[i] == xs[1..][i - 1];
        }
      }
    }
  }

  /** And it is the least such sequence: pointwise below every rising sequence above the input. */
  lemma {:induction false} RunIsLeast(last: Option<int>, xs: seq<int>, zs: seq<int>)
    requires Rising(last, zs) && Above(xs, zs)
    ensures Above(Run(last, xs), zs)
    decreases |xs|
  {
    if xs != [] {
      var y := Step(last, xs[0]);
      assert y <= zs[0];
      RisingTail(last, zs);
      assert Rising(Some(y), zs[1..]);
      assert Above(xs[1..], zs[1..]);
      RunIsLeast(Some(y), xs[1..], zs[1..]);
      var ys := Run(last, xs);
      forall i | 0 <= i < |xs|
        ensures ys[i] <= zs[i]
      {
        if i > 0 {
          assert ys[i] == Run(Some(y), xs[1..])[i - 1] && zs[i] == zs[1..][i - 1];
        }
      }
    }
  }

  /** The value at i: the largest of the inputs so far, each carried forward by one per packet, and
      of the last emitted value carried forward likewise. */
  function Carried(last: Option<int>, xs: seq<int>, i: nat): int
    requires i < |xs|
    decreases i
  {
    var before := if i == 0 then (if last.Some? then last.value + 1 else xs[0])
                  else Carried(last, xs, i - 1) + 1;
    if xs[i] < before then before else xs[i]
  }

  /** Carried is that maximum: an upper bound for every term, and one of the terms. */
  lemma {:induction false} CarriedIsMaximum(last: Option<int>, xs: seq<int>, i: nat)
    requires i < |xs|
    ensures forall j :: 0 <= j <= i ==> xs[j] + (i - j) <= Carried(last, xs, i)
    ensures last.Some? ==> last.value + 1 + i <= Carried(last, xs, i)
    ensures (last.Some? && Carried(last, xs, i) == last.value + 1 + i)
            || exists j :: 0 <= j <= i && Carried(last, xs, i) == xs[j] + (i - j)
    decreases i
  {
    if i > 0 {
      CarriedIsMaximum(last, xs, i - 1);
      if xs[i] >= Carried(last, xs, i - 1) + 1 {
        assert Carried(last, xs, i) == xs[i] + (i - i);
      } else if exists j :: 0 <= j <= i - 1 && Carried(last, xs, i - 1) == xs[j] + (i - 1 - j) {
        var j :| 0 <= j <= i - 1 && Carried(last, xs, i - 1) == xs[j] + (i - 1 - j);
        assert Carried(last, xs, i) == xs[j] + (i - j);
      }
    } else {
      assert Carried(last, xs, 0) == xs[0] ==> Carried(last, xs, 0) == xs[0] + (0 - 0);
    }
  }

  lemma {:induction false} RunIsCarried(last: Option<int>, xs: seq<int>, i: nat)
    requires i < |xs|
    ensures Run(last, xs)[i] == Carried(last, xs, i)
    decreases i
  {
    if i > 0 {
      RunIsCarried(last, xs, i - 1);
      RunAt(last, xs, i);
    }
  }

  lemma {:induction false} RunAt(last: Option<int>, xs: seq<int>, i: nat)
    requires 0 < i < |xs|
    ensures Run(last, xs)[i] == Step(Some(Run(last, xs)[i - 1]), xs[i])
    decreases i
  {
    var y := Step(last, xs[0]);
    var ys := Run(last, xs);
    assert ys[1..] == Run(Some(y), xs[1..]);
    if i > 1 {
      RunAt(Some(y), xs[1..], i - 1);
      assert ys[i] == ys[1..][i - 1] && ys[i - 1] == ys[1..][i - 2];
    } else {
      assert ys[1] == ys[1..][0];
    }
  }

  /** A clock that steps back by back ticks and then advances by pace per packet. */
  function SteppedBack(last: int, back: int, pace: nat, n: nat): (xs: seq<int>)
    ensures |xs| == n
  {
    seq(n, k requires 0 <= k < n => last - back + (k + 1) * pace)
  }

  /** Recovery time, exactly: the k-th packet after the step back is emitted unchanged if and only
      if k times the pace beyond one tick has made up for the step. */
  lemma RecoveryIsExact(last: int, back: int, pace: nat, n: nat, k: nat)
    requires k < n && pace >= 1
    ensures var xs := SteppedBack(last, back, pace, n);
            Run(Some(last), xs)[k] == xs[k] <==> (k + 1) * (pace - 1) >= back
  {
    var xs := SteppedBack(last, back, pace, n);
    RunIsCarried(Some(last), xs, k);
    RecoveryCarried(last, back, pace, n, k);
    assert (k + 1) * pace == (k + 1) * (pace - 1) + (k + 1);
  }

  lemma {:induction false} RecoveryCarried(last: int, back: int, pace: nat, n: nat, k: nat)
    requires k < n && pace >= 1
    ensures var xs := SteppedBack(last, back, pace, n);
            Carried(Some(last), xs, k) == if xs[k] < last + 1 + k then last + 1 + k else xs[k]
    decreases k
  {
    if k > 0 {
      RecoveryCarried(last, back, pace, n, k - 1);
      var xs := SteppedBack(last, back, pace, n);
      assert xs[k] == last - back + (k + 1) * pace;
      assert xs[k - 1] == last - back + k * pace;
      assert (k + 1) * pace == k * pace + pace;
    }
  }
}
