/**
 * The ten-slot sample window of `SampleValues` and its spike filter, as functions on the
 * window's contents. A slot is `None` when it has not been filled yet or when the spike
 * filter removed its reading. The class `Engine.Sampler` keeps the same window in an array
 * together with the running `sumA0`/`nrA0` fields and is proved against these functions.
 */
module Window {
  import opened Wrappers

  /** `windowSize` in the source. */
  const Size: nat := 10
  /** `spikePos = windowSize / 2`: the only slot the spike filter ever clears. */
  const SpikePos: nat := Size / 2
  /** The spike filter runs only when at least `windowSize - 2` slots are present. */
  const SpikeThreshold: nat := Size - 2

  /** The window before the first tick: every slot absent. */
  function Empty(): (w: seq<Option<int>>)
    ensures |w| == Size
    ensures forall i :: 0 <= i < Size ==> w[i] == None
  {
    seq(Size, _ => None)
  }

  /** Sum of the present slots (what `sumA0` tracks). */
  function Sum(w: seq<Option<int>>): int
  {
    if w == [] then 0 else Sum(w[..|w| - 1]) + w[|w| - 1].GetOr(0)
  }

  /** Number of present slots (what `nrA0` tracks). */
  function Count(w: seq<Option<int>>): (c: nat)
    ensures c <= |w|
  {
    if w == [] then 0 else Count(w[..|w| - 1]) + (if w[|w| - 1].Some? then 1 else 0)
  }

  /**
   * Where `v` lies with respect to the window mean `sum / n`, compared without division:
   * -1 when `v * n < sum`, 1 when `v * n > sum`, 0 when equal. For `n > 0` this is the
   * source's `Value < AvgA0` / `Value > AvgA0` test (see `CrossMultiplication`).
   */
  function Side(v: int, sum: int, n: int): int
  {
    if v * n < sum then -1 else if v * n > sum then 1 else 0
  }

  /** Number of present slots on the given side of the mean (`NrLt` for -1, `NrGt` for 1). */
  function CountSide(w: seq<Option<int>>, sum: int, n: int, side: int): nat
  {
    if w == [] then 0
    else CountSide(w[..|w| - 1], sum, n, side)
         + (if w[|w| - 1].Some? && Side(w[|w| - 1].value, sum, n) == side then 1 else 0)
  }

  /** The window after a new reading `x` enters at the newest end and slot 0 ages out. */
  function Shifted(w: seq<Option<int>>, x: int): seq<Option<int>>
    requires |w| == Size
  {
    w[1..] + [Some(x)]
  }

  /**
   * The spike condition of the source, evaluated on a window whose running sum and count
   * are `Sum(w)` and `Count(w)`: enough slots present, exactly one value below (or above)
   * the mean, and the value at `SpikePos` is that value.
   */
  predicate IsSpike(w: seq<Option<int>>)
    requires |w| == Size
  {
    var sum, n := Sum(w), Count(w);
    var lt, gt := CountSide(w, sum, n, -1), CountSide(w, sum, n, 1);
    && n >= SpikeThreshold
    && (lt == 1 || gt == 1)
    && w[SpikePos].Some?
    && ((lt == 1 && Side(w[SpikePos].value, sum, n) == -1)
        || (gt == 1 && Side(w[SpikePos].value, sum, n) == 1))
  }

  /** The window after the spike filter: slot `SpikePos` cleared when it holds a spike. */
  function RemoveSpike(w: seq<Option<int>>): seq<Option<int>>
    requires |w| == Size
  {
    if IsSpike(w) then w[SpikePos := None] else w
  }

  /** One tick's effect on the window: push, then filter. */
  function Step(w: seq<Option<int>>, x: int): (r: seq<Option<int>>)
    requires |w| == Size
    ensures |r| == Size
  {
    RemoveSpike(Shifted(w, x))
  }

  /** The window after the readings `xs`, oldest first. */
  function Steps(w: seq<Option<int>>, xs: seq<int>): (r: seq<Option<int>>)
    requires |w| == Size
    ensures |r| == Size
  {
    if xs == [] then w else Step(Steps(w, xs[..|xs| - 1]), xs[|xs| - 1])
  }

  /**
   * The published light level: `100 * mean / 1024` over the present slots `0 .. SpikePos-1`,
   * or `None` when none of them is present (the tick then publishes nothing).
   */
  function Published(w: seq<Option<int>>): Option<real>
    requires |w| == Size
  {
    var n := Count(w[..SpikePos]);
    if n == 0 then None
    else Some(100.0 * ((Sum(w[..SpikePos]) as real) / (n as real)) / 1024.0)
  }

  // ---------------------------------------------------------------------------------------
  // Running sum and count

  lemma {:induction false} SumCountAppend(a: seq<Option<int>>, b: seq<Option<int>>)
    ensures Sum(a + b) == Sum(a) + Sum(b)
    ensures Count(a + b) == Count(a) + Count(b)
    decreases |b|
  {
    if b == [] {
      assert a + b == a;
    } else {
      var b' := b[..|b| - 1];
      assert (a + b)[..|a + b| - 1] == a + b';
      SumCountAppend(a, b');
    }
  }

  lemma {:induction false} SumCountFront(w: seq<Option<int>>)
    requires w != []
    ensures Sum(w) == w[0].GetOr(0) + Sum(w[1..])
    ensures Count(w) == (if w[0].Some? then 1 else 0) + Count(w[1..])
  {
    assert w == [w[0]] + w[1..];
    SumCountAppend([w[0]], w[1..]);
    assert [w[0]][..0] == [];
  }

  /**
   * The source's incremental update on a push: subtract the evicted slot 0 only when it is
   * present, then add the new reading and count it. The running fields therefore stay equal
   * to the sum and count of the present slots.
   */
  lemma PushAccounting(w: seq<Option<int>>, x: int)
    requires |w| == Size
    ensures Sum(Shifted(w, x)) == Sum(w) - w[0].GetOr(0) + x
    ensures Count(Shifted(w, x)) == Count(w) - (if w[0].Some? then 1 else 0) + 1
  {
    SumCountFront(w);
    SumCountAppend(w[1..], [Some(x)]);
    assert [Some(x)][..0] == [];
  }

  /** Clearing a present slot subtracts exactly its value from the sum and one from the count. */
  lemma RemovalAccounting(w: seq<Option<int>>, k: nat)
    requires k < |w| && w[k].Some?
    ensures Sum(w[k := None]) == Sum(w) - w[k].value
    ensures Count(w[k := None]) == Count(w) - 1
  {
    var pre, post := w[..k], w[k + 1..];
    assert w == pre + [w[k]] + post;
    assert w[k := None] == pre + [None] + post;
    SumCountAppend(pre + [w[k]], post);
    SumCountAppend(pre + [None], post);
    SumCountAppend(pre, [w[k]]);
    SumCountAppend(pre, [None]);
    var none: seq<Option<int>> := [None];
    assert [w[k]][..0] == [] && none[..0] == [];
  }

  /** Cross-multiplying is the source's floating comparison with the mean, for a non-empty window. */
  lemma CrossMultiplication(v: int, sum: int, n: int)
    requires n > 0
    ensures (v as real) < (sum as real) / (n as real) <==> Side(v, sum, n) == -1
    ensures (v as real) > (sum as real) / (n as real) <==> Side(v, sum, n) == 1
  {
    var m := (sum as real) / (n as real);
    assert m * (n as real) == sum as real;
    assert (v as real) * (n as real) == (v * n) as real;
    if (v as real) < m {
      assert (v as real) * (n as real) < m * (n as real);
    }
    if (v as real) > m {
      assert (v as real) * (n as real) > m * (n as real);
    }
  }

  // ---------------------------------------------------------------------------------------
  // The spike filter removes only a unique outlier at SpikePos

  lemma {:induction false} TwoOnSide(w: seq<Option<int>>, sum: int, n: int, side: int, j: nat, k: nat)
    requires j < |w| && k < |w| && j != k
    requires w[j].Some? && Side(w[j].value, sum, n) == side
    requires w[k].Some? && Side(w[k].value, sum, n) == side
    ensures CountSide(w, sum, n, side) >= 2
    decreases |w|
  {
    var last := |w| - 1;
    var w' := w[..last];
    if j == last {
      OneOnSide(w', sum, n, side, k);
    } else if k == last {
      OneOnSide(w', sum, n, side, j);
    } else {
      TwoOnSide(w', sum, n, side, j, k);
    }
  }

  lemma {:induction false} OneOnSide(w: seq<Option<int>>, sum: int, n: int, side: int, k: nat)
    requires k < |w| && w[k].Some? && Side(w[k].value, sum, n) == side
    ensures CountSide(w, sum, n, side) >= 1
    decreases |w|
  {
    if k < |w| - 1 {
      OneOnSide(w[..|w| - 1], sum, n, side, k);
    }
  }

  lemma {:induction false} OnlyOnSide(w: seq<Option<int>>, sum: int, n: int, side: int, k: nat)
    requires k < |w| && w[k].Some? && Side(w[k].value, sum, n) == side
    requires forall i :: 0 <= i < |w| && i != k && w[i].Some? ==> Side(w[i].value, sum, n) != side
    ensures CountSide(w, sum, n, side) == 1
    decreases |w|
  {
    var w' := w[..|w| - 1];
    if k < |w| - 1 {
      OnlyOnSide(w', sum, n, side, k);
    } else {
      NoneOnSide(w', sum, n, side);
    }
  }

  lemma {:induction false} NoneOnSide(w: seq<Option<int>>, sum: int, n: int, side: int)
    requires forall i :: 0 <= i < |w| && w[i].Some? ==> Side(w[i].value, sum, n) != side
    ensures CountSide(w, sum, n, side) == 0
    decreases |w|
  {
    if w != [] {
      NoneOnSide(w[..|w| - 1], sum, n, side);
    }
  }

  /**
   * When the filter fires, at least `SpikeThreshold` slots are present and the value at
   * `SpikePos` is the only present value strictly below the mean, or the only one strictly
   * above it.
   */
  lemma SpikeIsUniqueOutlier(w: seq<Option<int>>)
    requires |w| == Size && IsSpike(w)
    ensures Count(w) >= SpikeThreshold && w[SpikePos].Some?
    ensures var sum, n, side := Sum(w), Count(w), Side(w[SpikePos].value, Sum(w), Count(w));
      side != 0 &&
      forall i :: 0 <= i < Size && i != SpikePos && w[i].Some? ==> Side(w[i].value, sum, n) != side
  {
    var sum, n := Sum(w), Count(w);
    var side := Side(w[SpikePos].value, sum, n);
    forall i | 0 <= i < Size && i != SpikePos && w[i].Some?
      ensures Side(w[i].value, sum, n) != side
    {
      if Side(w[i].value, sum, n) == side {
        TwoOnSide(w, sum, n, side, i, SpikePos);
      }
    }
  }

  /** Conversely, a nearly full window whose unique low (or high) value sits at `SpikePos` loses it. */
  lemma UniqueOutlierIsSpike(w: seq<Option<int>>)
    requires |w| == Size && Count(w) >= SpikeThreshold && w[SpikePos].Some?
    requires var sum, n, side := Sum(w), Count(w), Side(w[SpikePos].value, Sum(w), Count(w));
      side != 0 &&
      forall i :: 0 <= i < Size && i != SpikePos && w[i].Some? ==> Side(w[i].value, sum, n) != side
    ensures IsSpike(w)
    ensures RemoveSpike(w) == w[SpikePos := None]
  {
    OnlyOnSide(w, Sum(w), Count(w), Side(w[SpikePos].value, Sum(w), Count(w)), SpikePos);
  }

  /** Fewer than `SpikeThreshold` present slots: the filter leaves the window alone. */
  lemma NoFilterBelowThreshold(w: seq<Option<int>>)
    requires |w| == Size && Count(w) < SpikeThreshold
    ensures RemoveSpike(w) == w
  {
  }

  /** The filter changes at most one slot, `SpikePos`, and never the published slots. */
  lemma FilterTouchesOnlySpikePos(w: seq<Option<int>>)
    requires |w| == Size
    ensures forall i :: 0 <= i < Size && i != SpikePos ==> RemoveSpike(w)[i] == w[i]
    ensures RemoveSpike(w)[SpikePos] == w[SpikePos] || RemoveSpike(w)[SpikePos] == None
  {
  }

  // ---------------------------------------------------------------------------------------
  // What gets published

  lemma {:induction false} CountAllNone(w: seq<Option<int>>)
    requires forall i :: 0 <= i < |w| ==> w[i] == None
    ensures Count(w) == 0 && Sum(w) == 0
    decreases |w|
  {
    if w != [] {
      CountAllNone(w[..|w| - 1]);
    }
  }

  lemma {:induction false} CountSomePresent(w: seq<Option<int>>, k: nat)
    requires k < |w| && w[k].Some?
    ensures Count(w) >= 1
    decreases |w|
  {
    if k < |w| - 1 {
      CountSomePresent(w[..|w| - 1], k);
    }
  }

  /** After `k <= Size` ticks from start, only the newest `k` slots can be present. */
  lemma {:induction false} LeadingSlotsEmpty(xs: seq<int>)
    requires |xs| <= Size
    ensures forall i :: 0 <= i < Size - |xs| ==> Steps(Empty(), xs)[i] == None
    decreases |xs|
  {
    if xs != [] {
      var xs' := xs[..|xs| - 1];
      LeadingSlotsEmpty(xs');
      var w := Steps(Empty(), xs');
      FilterTouchesOnlySpikePos(Shifted(w, xs[|xs| - 1]));
    }
  }

  /** The first `SpikePos` (five) ticks after start publish nothing. */
  lemma FirstTicksSilent(xs: seq<int>)
    requires |xs| <= SpikePos
    ensures Published(Steps(Empty(), xs)) == None
  {
    LeadingSlotsEmpty(xs);
    CountAllNone(Steps(Empty(), xs)[..SpikePos]);
  }

  /** While the window is filling (at most `SpikeThreshold - 1` ticks) nothing is filtered. */
  lemma {:induction false} FillPhase(xs: seq<int>)
    requires |xs| < SpikeThreshold
    ensures forall i :: 0 <= i < Size ==>
      Steps(Empty(), xs)[i] == (if i < Size - |xs| then None else Some(xs[i - (Size - |xs|)]))
    ensures Count(Steps(Empty(), xs)) == |xs|
    decreases |xs|
  {
    var w := Steps(Empty(), xs);
    if xs == [] {
      CountAllNone(w);
    } else {
      var xs' := xs[..|xs| - 1];
      FillPhase(xs');
      var prev := Steps(Empty(), xs');
      PushAccounting(prev, xs[|xs| - 1]);
      CountAllNone([prev[0]]);
      NoFilterBelowThreshold(Shifted(prev, xs[|xs| - 1]));
    }
  }

  /** The sixth tick after start is the first one that publishes. */
  lemma SixthTickPublishes(xs: seq<int>)
    requires |xs| == SpikePos + 1
    ensures Published(Steps(Empty(), xs)).Some?
  {
    FillPhase(xs);
    var w := Steps(Empty(), xs);
    assert w[SpikePos - 1] == Some(xs[0]);
    CountSomePresent(w[..SpikePos], SpikePos - 1);
  }

  /** The published slots after a tick are the slots `1 .. SpikePos` of the window before it. */
  lemma PublishedSlotsShiftDown(w: seq<Option<int>>, x: int)
    requires |w| == Size
    ensures Step(w, x)[..SpikePos] == w[1..SpikePos + 1]
  {
    FilterTouchesOnlySpikePos(Shifted(w, x));
  }

  /**
   * A reading the filter cleared at `SpikePos` travels down through the published slots
   * `SpikePos-1 .. 0` as an absent slot on the following ticks, so it never enters a
   * published mean.
   */
  lemma {:induction false} ClearedSlotNeverPublished(w: seq<Option<int>>, xs: seq<int>, k: nat)
    requires |w| == Size && w[SpikePos] == None
    requires 1 <= k <= SpikePos && k <= |xs|
    ensures Steps(w, xs[..k])[SpikePos - k] == None
    decreases k
  {
    var prev := Steps(w, xs[..k - 1]);
    assert xs[..k][..k - 1] == xs[..k - 1];
    if k == 1 {
      assert xs[..0] == [];
    } else {
      ClearedSlotNeverPublished(w, xs, k - 1);
    }
    FilterTouchesOnlySpikePos(Shifted(prev, xs[k - 1]));
  }

  /** Sum of present slots is bounded by their count times a bound on each reading. */
  lemma {:induction false} SumBounds(w: seq<Option<int>>, hi: int)
    requires hi >= 0
    requires forall i :: 0 <= i < |w| && w[i].Some? ==> 0 <= w[i].value <= hi
    ensures 0 <= Sum(w) <= hi * Count(w)
    decreases |w|
  {
    if w != [] {
      SumBounds(w[..|w| - 1], hi);
    }
  }

  /**
   * With a 10-bit converter (readings 0..1023) the published light level is a percentage
   * in `[0, 100)`; the divisor 1024 keeps it below 100.
   */
  lemma PublishedIsPercentage(w: seq<Option<int>>)
    requires |w| == Size
    requires forall i :: 0 <= i < Size && w[i].Some? ==> 0 <= w[i].value <= 1023
    ensures Published(w).Some? ==> 0.0 <= Published(w).value < 100.0
  {
    var p := w[..SpikePos];
    var n := Count(p);
    if n > 0 {
      SumBounds(p, 1023);
      var mean := (Sum(p) as real) / (n as real);
      assert (Sum(p) as real) <= 1023.0 * (n as real);
      assert mean <= 1023.0;
      assert 0.0 <= mean;
    }
  }
}
