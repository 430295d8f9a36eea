/** The shared embedding engine: decode, skip, batch, forward, and the cancel points between
    batches. Vectors come out aligned with the input indices they were made from. */
module Embedding {
  import opened Wrappers

  type Vec = seq<real>

  /** `EmbedCancelled` with the count it reports, or the rows and the input index of each. */
  datatype Embedded = Cancelled(done: nat) | Embedded(vecs: seq<Vec>, kept: seq<nat>)

  /** The indices of the items that decode and crop, in order. `pixels` is `None` for a file that
      cannot be read or decoded and for a box that is degenerate after clamping. */
  function Kept<Item, Tensor>(items: seq<Item>, pixels: Item -> Option<Tensor>): seq<nat> {
    if items == [] then []
    else
      var n := |items| - 1;
      Kept(items[..n], pixels) + if pixels(items[n]).Some? then [n] else []
  }

  lemma KeptSnoc<Item, Tensor>(items: seq<Item>, item: Item, pixels: Item -> Option<Tensor>)
    ensures Kept(items + [item], pixels) == Kept(items, pixels) + if pixels(item).Some? then [|items|] else []
  {
    assert (items + [item])[..|items|] == items;
  }

  lemma {:induction false} KeptAreReadable<Item, Tensor>(items: seq<Item>, pixels: Item -> Option<Tensor>)
    ensures forall j :: 0 <= j < |Kept(items, pixels)| ==>
            Kept(items, pixels)[j] < |items| && pixels(items[Kept(items, pixels)[j]]).Some?
    ensures forall j, k :: 0 <= j < k < |Kept(items, pixels)| ==> Kept(items, pixels)[j] < Kept(items, pixels)[k]
  {
    if items != [] {
      var front := items[..|items| - 1];
      KeptAreReadable(front, pixels);
      forall j | 0 <= j < |Kept(front, pixels)|
        ensures Kept(front, pixels)[j] < |front| && items[Kept(front, pixels)[j]] == front[Kept(front, pixels)[j]]
      {
      }
    }
  }

  lemma {:induction false} ReadableAreKept<Item, Tensor>(items: seq<Item>, pixels: Item -> Option<Tensor>, i: nat)
    returns (j: nat)
    requires i < |items| && pixels(items[i]).Some?
    ensures j < |Kept(items, pixels)| && Kept(items, pixels)[j] == i
  {
    var n := |items| - 1;
    if i < n {
      j := ReadableAreKept(items[..n], pixels, i);
    } else {
      j := |Kept(items[..n], pixels)|;
    }
  }

  function Size(batchSize: nat): nat {
    if batchSize == 0 then 1 else batchSize
  }

  /** How many full batches `n` kept items fill. */
  function FullBatches(n: nat, size: nat): nat
    requires size > 0
  {
    if n < size then 0 else 1 + FullBatches(n - size, size)
  }

  /** `n` items fill batches with none left over. */
  predicate Whole(n: nat, size: nat)
    requires size > 0
  {
    n == 0 || (n >= size && Whole(n - size, size))
  }

  lemma {:induction false} PartialBatchAddsNone(n: nat, m: nat, size: nat)
    requires size > 0 && Whole(n, size) && m < size
    ensures FullBatches(n + m, size) == FullBatches(n, size)
  {
    if n >= size {
      PartialBatchAddsNone(n - size, m, size);
    }
  }

  lemma {:induction false} FullIsMonotone(m: nat, n: nat, size: nat)
    requires m <= n && size > 0
    ensures FullBatches(m, size) <= FullBatches(n, size)
  {
    if m >= size {
      FullIsMonotone(m - size, n - size, size);
    }
  }

  function Forward<Tensor>(batch: seq<Tensor>, model: Tensor -> Vec): (r: seq<Vec>)
    ensures |r| == |batch|
  {
    seq(|batch|, j requires 0 <= j < |batch| => model(batch[j]))
  }

  /** Row `j` is the model's vector for the pixels of item `kept[j]`. */
  ghost predicate Aligned<Item, Tensor>(items: seq<Item>, pixels: Item -> Option<Tensor>, model: Tensor -> Vec,
          vecs: seq<Vec>, kept: seq<nat>)
  {
    && |vecs| == |kept|
    && forall j :: 0 <= j < |kept| ==>
         kept[j] < |items| && pixels(items[kept[j]]).Some? && vecs[j] == model(pixels(items[kept[j]]).value)
  }

  ghost predicate Buffered<Item, Tensor>(items: seq<Item>, pixels: Item -> Option<Tensor>, buf: seq<Tensor>,
          bufIdx: seq<nat>)
  {
    && |buf| == |bufIdx|
    && forall j :: 0 <= j < |buf| ==> bufIdx[j] < |items| && pixels(items[bufIdx[j]]) == Some(buf[j])
  }

  lemma FlushIsAligned<Item, Tensor>(items: seq<Item>, pixels: Item -> Option<Tensor>, model: Tensor -> Vec,
          vecs: seq<Vec>, kept: seq<nat>, buf: seq<Tensor>, bufIdx: seq<nat>)
    requires Aligned(items, pixels, model, vecs, kept) && Buffered(items, pixels, buf, bufIdx)
    ensures Aligned(items, pixels, model, vecs + Forward(buf, model), kept + bufIdx)
  {
  }

  /** A report that may cancel is made once before the first item and then after each item that
      completes a batch. */
  predicate CancelPoint<Item, Tensor>(items: seq<Item>, pixels: Item -> Option<Tensor>, size: nat, done: nat)
    requires size > 0
  {
    done == 0
    || (done <= |items| && pixels(items[done - 1]).Some? && Whole(|Kept(items[..done], pixels)|, size))
  }

  /** The loop after `i` items: what is embedded and what waits in the buffer is what was kept, and
      every full batch so far has been reported and not cancelled. */
  ghost predicate Running<Item, Tensor>(items: seq<Item>, size: nat, pixels: Item -> Option<Tensor>,
          model: Tensor -> Vec, proceed: nat -> bool, i: nat, vecs: seq<Vec>, kept: seq<nat>, buf: seq<Tensor>,
          bufIdx: seq<nat>, reports: nat)
    requires size > 0
  {
    && i <= |items|
    && kept + bufIdx == Kept(items[..i], pixels)
    && Aligned(items, pixels, model, vecs, kept)
    && Buffered(items, pixels, buf, bufIdx)
    && Whole(|kept|, size) && FullBatches(|kept|, size) == reports
    && forall k :: 0 <= k < reports ==> proceed(k)
  }

  lemma Next<Item, Tensor>(items: seq<Item>, size: nat, pixels: Item -> Option<Tensor>, model: Tensor -> Vec,
          proceed: nat -> bool, i: nat, vecs: seq<Vec>, kept: seq<nat>, buf: seq<Tensor>, bufIdx: seq<nat>,
          reports: nat)
    requires size > 0 && i < |items|
    requires Running(items, size, pixels, model, proceed, i, vecs, kept, buf, bufIdx, reports)
    ensures pixels(items[i]).None? ==>
            Running(items, size, pixels, model, proceed, i + 1, vecs, kept, buf, bufIdx, reports)
    ensures pixels(items[i]).Some? ==>
            Running(items, size, pixels, model, proceed, i + 1, vecs, kept,
                    buf + [pixels(items[i]).value], bufIdx + [i], reports)
  {
    assert items[..i + 1][..i] == items[..i];
    assert kept + (bufIdx + [i]) == (kept + bufIdx) + [i];
  }

  lemma Flushed<Item, Tensor>(items: seq<Item>, size: nat, pixels: Item -> Option<Tensor>, model: Tensor -> Vec,
          proceed: nat -> bool, i: nat, vecs: seq<Vec>, kept: seq<nat>, buf: seq<Tensor>, bufIdx: seq<nat>,
          reports: nat)
    requires size > 0 && Running(items, size, pixels, model, proceed, i, vecs, kept, buf, bufIdx, reports)
    requires |buf| == size && proceed(reports)
    ensures Running(items, size, pixels, model, proceed, i, vecs + Forward(buf, model), kept + bufIdx,
                    [], [], reports + 1)
  {
    FlushIsAligned(items, pixels, model, vecs, kept, buf, bufIdx);
    assert kept + bufIdx + [] == kept + bufIdx;
    WholeAndOne(|kept|, size);
  }

  lemma {:induction false} WholeAndOne(n: nat, size: nat)
    requires size > 0 && Whole(n, size)
    ensures Whole(n + size, size) && FullBatches(n + size, size) == FullBatches(n, size) + 1
  {
  }

  /** `_embed_items`. `proceed(k)` is what the progress callback answers the k-th report that may
      cancel; a caller without a callback never says no. The last report never cancels. */
  method EmbedItems<Item, Tensor>(items: seq<Item>, batchSize: nat, pixels: Item -> Option<Tensor>,
          model: Tensor -> Vec, proceed: nat -> bool)
    returns (r: Embedded)
    ensures r.Embedded? ==> r.kept == Kept(items, pixels) && Aligned(items, pixels, model, r.vecs, r.kept)
    ensures r.Embedded? <==> forall k :: 0 <= k <= FullBatches(|Kept(items, pixels)|, Size(batchSize)) ==> proceed(k)
    ensures r.Cancelled? ==>
              && CancelPoint(items, pixels, Size(batchSize), r.done)
              && !proceed(FullBatches(|Kept(items[..r.done], pixels)|, Size(batchSize)))
              && forall k :: 0 <= k < FullBatches(|Kept(items[..r.done], pixels)|, Size(batchSize)) ==> proceed(k)
  {
    var vecs: seq<Vec>, kept: seq<nat>, buf: seq<Tensor>, bufIdx: seq<nat> := [], [], [], [];
    ghost var size := Size(batchSize);
    var reports, i, go := 0, 0, proceed(0);
    while i < |items| && go
      invariant go == proceed(reports)
      invariant Running(items, size, pixels, model, proceed, i, vecs, kept, buf, bufIdx, reports)
      invariant |buf| < size
      invariant !proceed(reports) ==> buf == [] && CancelPoint(items, pixels, size, i)
      decreases |items| - i
    {
      Next(items, size, pixels, model, proceed, i, vecs, kept, buf, bufIdx, reports);
      var image := pixels(items[i]);
      i := i + 1;
      if image.Some? {
        buf := buf + [image.value];
        bufIdx := bufIdx + [i - 1];
        if |buf| >= batchSize {
          Flushed(items, size, pixels, model, proceed, i, vecs, kept, buf, bufIdx, reports);
          vecs := vecs + Forward(buf, model);
          kept := kept + bufIdx;
          buf, bufIdx := [], [];
          reports := reports + 1;
          go := proceed(reports);
        }
      }
    }
    if !go {
      r := Cancelled(i);
      KeptIsMonotone(items, pixels, i);
      FullIsMonotone(|kept|, |Kept(items, pixels)|, size);
    } else {
      assert items[..i] == items;
      PartialBatchAddsNone(|kept|, |bufIdx|, size);
      FlushIsAligned(items, pixels, model, vecs, kept, buf, bufIdx);
      r := Embedded(vecs + Forward(buf, model), kept + bufIdx);
    }
  }

  lemma {:induction false} KeptIsMonotone<Item, Tensor>(items: seq<Item>, pixels: Item -> Option<Tensor>, i: nat)
    requires i <= |items|
    ensures |Kept(items[..i], pixels)| <= |Kept(items, pixels)|
  {
    if i < |items| {
      var n := |items| - 1;
      assert items[..n][..i] == items[..i];
      KeptIsMonotone(items[..n], pixels, i);
    } else {
      assert items[..i] == items;
    }
  }

  // --- What a late cancel can discard --------------------------------------------------

  /** Every vector has been computed by the report made after `done` items. */
  ghost predicate CompleteAt<Item, Tensor>(items: seq<Item>, pixels: Item -> Option<Tensor>, done: nat)
    requires done <= |items|
  {
    Kept(items, pixels) != [] && Kept(items[..done], pixels) == Kept(items, pixels)
  }

  /** The closing report never cancels, so that a cancel arriving when every embedding is there
      discards nothing. But the report after the last full batch does cancel. A completed run can
      be discarded exactly if its kept items fill whole batches. */
  lemma LateCancelDiscardsIff<Item, Tensor>(items: seq<Item>, pixels: Item -> Option<Tensor>, size: nat)
    requires size > 0
    ensures (exists done ::
               0 <= done <= |items| && CancelPoint(items, pixels, size, done) && CompleteAt(items, pixels, done))
            <==> Kept(items, pixels) != [] && Whole(|Kept(items, pixels)|, size)
  {
    var kept := Kept(items, pixels);
    if kept != [] && Whole(|kept|, size) {
      var done := LastKept(items, pixels);
      assert CancelPoint(items, pixels, size, done) && CompleteAt(items, pixels, done);
    }
  }

  lemma {:induction false} LastKept<Item, Tensor>(items: seq<Item>, pixels: Item -> Option<Tensor>) returns (done: nat)
    requires Kept(items, pixels) != []
    ensures 0 < done <= |items| && pixels(items[done - 1]).Some? && Kept(items[..done], pixels) == Kept(items, pixels)
  {
    var n := |items| - 1;
    if pixels(items[n]).Some? {
      done := |items|;
      assert items[..done] == items;
    } else {
      done := LastKept(items[..n], pixels);
      assert items[..n][..done] == items[..done];
    }
  }

  /** Two readable crops at batch size two: the report after them is asked when both are embedded,
      and a "no" throws them away. */
  method LateCancelExample(model: bool -> Vec) returns (r: Embedded)
    ensures r == Cancelled(2) && CompleteAt([true, true], (b: bool) => Some(b), 2)
  {
    var items := [true, true];
    var pixels := (b: bool) => Some(b);
    assert items[..1] == [true] && items[..2] == items && items[..1][..0] == [];
    assert Kept(items[..1], pixels) == [0];
    assert Kept(items, pixels) == [0, 1];
    var proceed := (k: nat) => k != 1;
    assert FullBatches(2, 2) == 1 + FullBatches(0, 2);
    assert !proceed(1);
    r := EmbedItems(items, 2, pixels, model, proceed);
    assert r.Cancelled?;
  }
}
