/**
 * Download progress. The response body arrives as chunks, modelled by their
 * lengths; empty chunks are skipped, every other chunk adds its length to the
 * byte counter and the bar is set to the percentage of the declared total.
 * The source computes `int(download_size / total_size * 100)` in floating
 * point; the model uses the integer quotient `download_size * 100 / total_size`.
 */
module Progress {

  /** The percentage shown for `done` of `total` bytes. */
  function Percent(done: nat, total: nat): (p: nat)
    requires total > 0
  {
    done * 100 / total
  }

  /** The bytes received in all of `chunks`. */
  function Sum(chunks: seq<nat>): (s: nat)
  {
    if |chunks| == 0 then 0
    else Sum(chunks[..|chunks| - 1]) + chunks[|chunks| - 1]
  }

  /** The byte counter after each non-empty chunk, in arrival order. */
  function Sizes(chunks: seq<nat>): (sizes: seq<nat>)
    ensures |sizes| <= |chunks|
  {
    if |chunks| == 0 then []
    else if chunks[|chunks| - 1] == 0 then Sizes(chunks[..|chunks| - 1])
    else Sizes(chunks[..|chunks| - 1]) + [Sum(chunks)]
  }

  /** The values passed to the progress bar while `chunks` are received. */
  function Emitted(chunks: seq<nat>, total: nat): (values: seq<nat>)
    requires total > 0
    ensures |values| == |Sizes(chunks)|
  {
    if |chunks| == 0 then []
    else if chunks[|chunks| - 1] == 0 then Emitted(chunks[..|chunks| - 1], total)
    else Emitted(chunks[..|chunks| - 1], total) + [Percent(Sum(chunks), total)]
  }

  ghost predicate NonDecreasing(s: seq<nat>)
  {
    forall i, j :: 0 <= i <= j < |s| ==> s[i] <= s[j]
  }

  /** Receiving one more chunk extends the counter and the emitted values by at most one step. */
  lemma ChunkStep(chunks: seq<nat>, i: nat, total: nat)
    requires i < |chunks| && total > 0
    ensures Sum(chunks[..i + 1]) == Sum(chunks[..i]) + chunks[i]
    ensures Emitted(chunks[..i + 1], total) ==
      Emitted(chunks[..i], total) + (if chunks[i] == 0 then [] else [Percent(Sum(chunks[..i + 1]), total)])
  {
    assert chunks[..i + 1][..i] == chunks[..i];
  }

  /** The same step without a usable total: only the counter moves. */
  lemma SumStep(chunks: seq<nat>, i: nat)
    requires i < |chunks|
    ensures Sum(chunks[..i + 1]) == Sum(chunks[..i]) + chunks[i]
  {
    assert chunks[..i + 1][..i] == chunks[..i];
  }

  /** The bytes of a prefix of the chunks are never more than those of all of them. */
  lemma {:induction false} SumAtLeastPrefix(chunks: seq<nat>, i: nat)
    requires i <= |chunks|
    ensures Sum(chunks[..i]) <= Sum(chunks)
  {
    if i < |chunks| {
      var n := |chunks| - 1;
      SumAtLeastPrefix(chunks[..n], i);
      assert chunks[..n][..i] == chunks[..i];
    } else {
      assert chunks[..i] == chunks;
    }
  }

  lemma MulMonotone(a: nat, b: nat, t: nat)
    requires a <= b
    ensures a * t <= b * t
  {
    var d: nat := b - a;
    assert b * t == a * t + d * t;
  }

  /** Integer division by a positive divisor keeps the order. */
  lemma DivMonotone(x: nat, y: nat, t: nat)
    requires x <= y && t > 0
    ensures x / t <= y / t
  {
    var qx, qy := x / t, y / t;
    if qx > qy {
      MulMonotone(qy + 1, qx, t);
      assert false;
    }
  }

  /** A larger byte count never shows a smaller percentage. */
  lemma PercentMonotone(a: nat, b: nat, total: nat)
    requires a <= b && total > 0
    ensures Percent(a, total) <= Percent(b, total)
  {
    DivMonotone(a * 100, b * 100, total);
  }

  /** Up to the total, the percentage is at most 100 and reaches 100 exactly when all bytes are in. */
  lemma PercentFull(done: nat, total: nat)
    requires done <= total && total > 0
    ensures Percent(done, total) <= 100
    ensures Percent(done, total) == 100 <==> done == total
  {
    var q := done * 100 / total;
    if 100 <= q {
      MulMonotone(100, q, total);
    } else {
      MulMonotone(q + 1, 100, total);
    }
  }

  /** Each emitted value is the percentage of the counter at that point. */
  lemma {:induction false} EmittedAt(chunks: seq<nat>, total: nat)
    requires total > 0
    ensures |Emitted(chunks, total)| == |Sizes(chunks)|
    ensures forall k :: 0 <= k < |Sizes(chunks)| ==> Emitted(chunks, total)[k] == Percent(Sizes(chunks)[k], total)
  {
    if |chunks| > 0 {
      EmittedAt(chunks[..|chunks| - 1], total);
    }
  }

  /**
   * The counter only grows, every recorded value is at most the final count,
   * and the last recorded value is the final count (empty chunks add nothing).
   */
  lemma {:induction false} SizesIncrease(chunks: seq<nat>)
    ensures forall i, j :: 0 <= i < j < |Sizes(chunks)| ==> Sizes(chunks)[i] < Sizes(chunks)[j]
    ensures forall k :: 0 <= k < |Sizes(chunks)| ==> 0 < Sizes(chunks)[k] <= Sum(chunks)
    ensures |Sizes(chunks)| > 0 ==> Sizes(chunks)[|Sizes(chunks)| - 1] == Sum(chunks)
    ensures |Sizes(chunks)| == 0 ==> Sum(chunks) == 0
  {
    if |chunks| > 0 {
      SizesIncrease(chunks[..|chunks| - 1]);
    }
  }

  /** The values sent to the bar never go down. */
  lemma EmittedNonDecreasing(chunks: seq<nat>, total: nat)
    requires total > 0
    ensures NonDecreasing(Emitted(chunks, total))
  {
    EmittedAt(chunks, total);
    SizesIncrease(chunks);
    var e, s := Emitted(chunks, total), Sizes(chunks);
    forall i, j | 0 <= i <= j < |e|
      ensures e[i] <= e[j]
    {
      PercentMonotone(s[i], s[j], total);
    }
  }

  /**
   * While no more than the declared total has arrived, a value sent to the bar
   * is 100 exactly when the counter equals the total at that point.
   */
  lemma EmittedFullExactly(chunks: seq<nat>, total: nat, k: nat)
    requires total > 0 && Sum(chunks) <= total
    requires k < |Emitted(chunks, total)|
    ensures k < |Sizes(chunks)|
    ensures Emitted(chunks, total)[k] <= 100
    ensures Emitted(chunks, total)[k] == 100 <==> Sizes(chunks)[k] == total
  {
    EmittedAt(chunks, total);
    SizesIncrease(chunks);
    PercentFull(Sizes(chunks)[k], total);
  }

  /** A body whose chunks add up to the declared total ends with the bar at 100. */
  lemma EmittedEndsFull(chunks: seq<nat>, total: nat)
    requires total > 0 && Sum(chunks) == total
    ensures |Emitted(chunks, total)| > 0
    ensures Emitted(chunks, total)[|Emitted(chunks, total)| - 1] == 100
  {
    EmittedAt(chunks, total);
    SizesIncrease(chunks);
    PercentFull(total, total);
  }
}
