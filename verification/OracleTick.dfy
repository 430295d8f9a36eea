/** One tick of the detection worker as its code runs: fields changed by methods, the window
    walked chunk by chunk. What other threads do meanwhile arrives as answers: the busy and stop
    flags at each look, how each detect ended, and a re-seed landing while a chunk is detected. */
module OracleTick {
  import opened Wrappers
  import opened OracleWorker

  /** The chunks a window is walked in. */
  function Chunks(lo: int, until: int): seq<(int, int)>
    decreases until - lo + 1
  {
    if until < lo then []
    else [(lo, ChunkEnd(lo, until))] + Chunks(ChunkEnd(lo, until) + 1, until)
  }

  /** The chunks partition the window: every id of it is in exactly one chunk, no other id is in
      any, no chunk is empty, and all but the last have exactly the yield granularity. */
  lemma {:induction false} ChunksPartition(lo: int, until: int, id: int)
    ensures forall i :: 0 <= i < |Chunks(lo, until)| ==>
            lo <= Chunks(lo, until)[i].0 <= Chunks(lo, until)[i].1 <= until &&
              Chunks(lo, until)[i].1 - Chunks(lo, until)[i].0 < CHUNK
    ensures forall i :: 0 <= i < |Chunks(lo, until)| - 1 ==>
            Chunks(lo, until)[i].1 - Chunks(lo, until)[i].0 == CHUNK - 1
    ensures forall i, j :: 0 <= i < j < |Chunks(lo, until)| ==> Chunks(lo, until)[i].1 < Chunks(lo, until)[j].0
    ensures (exists i :: 0 <= i < |Chunks(lo, until)| && Within(Chunks(lo, until)[i], id)) <==> lo <= id <= until
    decreases until - lo + 1
  {
    if lo <= until {
      var hi := ChunkEnd(lo, until);
      var cs, rest := Chunks(lo, until), Chunks(hi + 1, until);
      ChunksPartition(hi + 1, until, id);
      assert forall i :: 0 < i < |cs| ==> cs[i] == rest[i - 1];
      if lo <= id <= hi {
        assert Within(cs[0], id);
      } else if hi < id <= until {
        var i :| 0 <= i < |rest| && Within(rest[i], id);
        assert Within(cs[i + 1], id);
      }
    }
  }

  /** The `n`-th chunk starts where `n` whole ones leave off, if that is still in the window. */
  lemma {:induction false} ChunkAt(lo: int, until: int, n: nat)
    ensures n < |Chunks(lo, until)| <==> lo + n * CHUNK <= until
    ensures n < |Chunks(lo, until)| ==>
              Chunks(lo, until)[n] == (lo + n * CHUNK, ChunkEnd(lo + n * CHUNK, until))
    decreases until - lo + 1
  {
    if lo <= until && n > 0 {
      ChunkAt(ChunkEnd(lo, until) + 1, until, n - 1);
    }
  }

  predicate Within(chunk: (int, int), id: int) {
    chunk.0 <= id <= chunk.1
  }

  /** How the detect of one chunk came back, with what the stop flag then reads. A detect cut
      short by a stop returns normally, but only when the flag is set. */
  datatype Detect = Whole(stopSeen: bool) | Partial | Raised

  /** `early` is a re-seed between the tick's snapshot and its first look at the store's rows. */
  datatype World = World(
    busyAtStart: bool,
    latest: int,
    early: Option<int>,
    stopOrBusy: nat -> bool,
    detect: nat -> Detect,
    reseed: nat -> Option<int>
  )

  /** Chunk `n` is let through: no stop and no busy GPU before it, its detect ran whole with no stop
      seen after it, and no re-seed landed by then. */
  predicate Passes(world: World, n: nat) {
    !world.stopOrBusy(n) && world.detect(n) == Whole(false) && world.reseed(n).None?
  }

  /** No stop, no busy GPU, no fault and no re-seed anywhere in the tick. */
  ghost predicate Undisturbed(world: World) {
    !world.busyAtStart && world.early.None? && forall n :: Passes(world, n)
  }

  /** `swept` is as many of the chunks as were let through one after the other, and the first that
      was not is where the walk ended. */
  ghost predicate EndsAtTheFirstRefused(world: World, chunks: seq<(int, int)>, swept: seq<(int, int)>) {
    && swept <= chunks
    && (forall i :: 0 <= i < |swept| ==> Passes(world, i))
    && (|swept| < |chunks| ==> !Passes(world, |swept|))
  }

  class YoloOracleManager {
    var watermark: int
    var epoch: nat
    var failed: bool
    // history: the id ranges handed to detect
    var asked: seq<(int, int)>

    constructor (persisted: int)
      ensures watermark == persisted && epoch == 0 && !failed && asked == []
    {
      watermark, epoch, failed, asked := persisted, 0, false, [];
    }

    /** `_advance_watermark`: refused once a re-seed has landed since `seen`. */
    method AdvanceWatermark(value: int, seen: nat) returns (ok: bool)
      modifies `watermark
      ensures ok <==> seen == epoch
      ensures watermark == if ok then value else old(watermark)
    {
      ok := seen == epoch;
      if ok {
        watermark := value;
      }
    }

    /** `_seed_watermark`, behind both `start` and `reset_watermark`. */
    method SeedWatermark(value: int)
      modifies `watermark, `epoch
      ensures epoch == old(epoch) + 1 && watermark == value
    {
      epoch := epoch + 1;
      watermark := value;
    }

    /** One tick. `swept` is the chunks it may count: of the window that opens one past the watermark
        (clamped to the store if ids regressed), those before the first that was stopped, cut short,
        raised or met by a re-seed. The watermark ends at the last of them, or stays; a re-seed
        during the tick stands, before any clamp or after; and only a raising detect is an error. */
    method Tick(world: World) returns (swept: seq<(int, int)>)
      modifies this
      ensures world.busyAtStart ==>
                && swept == [] && watermark == old(watermark) && epoch == old(epoch)
                && asked == old(asked) && failed == old(failed)
      ensures !world.busyAtStart && world.early.None? ==>
                var base, chunks := Min(old(watermark), world.latest), Window(old(watermark), world.latest);
                && EndsAtTheFirstRefused(world, chunks, swept)
                && asked == old(asked) + Asked(world, chunks, swept)
                && (failed <==> old(failed) || RaisedIn(world, chunks, swept))
                && epoch == old(epoch) + (if ReseededIn(world, chunks, swept) then 1 else 0)
                && watermark == if epoch == old(epoch) then LastOr(swept, base) else world.reseed(|swept|).value
      ensures !world.busyAtStart && world.early.Some? && old(watermark) > world.latest ==>
                && swept == [] && asked == old(asked) && failed == old(failed)
                && epoch == old(epoch) + 1 && watermark == world.early.value
      ensures !world.busyAtStart && world.early.Some? && old(watermark) <= world.latest ==>
                var chunks := Window(old(watermark), world.latest);
                && swept == [] && asked == old(asked) + Asked(world, chunks, [])
                && (failed <==> old(failed) || RaisedIn(world, chunks, []))
                && epoch == old(epoch) + 1 + (if ReseededIn(world, chunks, []) then 1 else 0)
                && watermark == if epoch == old(epoch) + 1 then world.early.value else world.reseed(0).value
      ensures Undisturbed(world) ==>
                && swept == Window(old(watermark), world.latest) && epoch == old(epoch)
                && watermark == Min(world.latest, Min(old(watermark), world.latest) + MAX_FRAMES_PER_TICK)
    {
      swept := [];
      if !world.busyAtStart {
        var seen := epoch;
        var base := watermark;
        Reseeding(world.early);
        if base > world.latest {
          var ok := AdvanceWatermark(world.latest, seen);
          if !ok {
            return;
          }
          base := world.latest;
        }
        var until := Until(base, world.latest);
        LastOfChunks(base + 1, until);
        if base + 1 <= until {
          swept := Walk(base + 1, until, seen, world);
        }
      }
    }

    /** A re-seed by another thread, if there is one. */
    method Reseeding(reseed: Option<int>)
      modifies `watermark, `epoch
      ensures epoch == old(epoch) + if reseed.Some? then 1 else 0
      ensures watermark == if reseed.Some? then reseed.value else old(watermark)
    {
      match reseed {
        case Some(value) => SeedWatermark(value);
        case None =>
      }
    }

    /** The chunk loop over a non-empty window. */
    method Walk(first: int, until: int, seen: nat, world: World) returns (swept: seq<(int, int)>)
      requires first <= until && seen <= epoch
      modifies this
      ensures old(epoch) != seen ==> swept == []
      ensures old(epoch) == seen ==> EndsAtTheFirstRefused(world, Chunks(first, until), swept)
      ensures asked == old(asked) + Asked(world, Chunks(first, until), swept)
      ensures failed <==> old(failed) || RaisedIn(world, Chunks(first, until), swept)
      ensures epoch == old(epoch) + if ReseededIn(world, Chunks(first, until), swept) then 1 else 0
      ensures watermark == if epoch == old(epoch) then LastOr(swept, old(watermark)) else world.reseed(|swept|).value
    {
      swept := [];
      var lo := first;
      var goesOn := true;
      ghost var all := Chunks(first, until);
      ChunkAt(first, until, 0);
      while goesOn && lo <= until
        invariant |swept| <= |all| && swept == all[..|swept|] && (swept != [] ==> old(epoch) == seen)
        invariant goesOn ==> (lo <= until <==> |swept| < |all|)
        invariant goesOn && lo <= until ==> lo == all[|swept|].0
        invariant forall i :: 0 <= i < |swept| ==> Passes(world, i)
        invariant goesOn ==> epoch == old(epoch) && failed == old(failed) && asked == old(asked) + swept
        invariant !goesOn ==> |swept| < |all| && !(old(epoch) == seen && Passes(world, |swept|))
        invariant !goesOn ==> asked == old(asked) + Asked(world, all, swept)
        invariant !goesOn ==> failed == (old(failed) || RaisedIn(world, all, swept))
        invariant !goesOn ==> epoch == old(epoch) + if ReseededIn(world, all, swept) then 1 else 0
        invariant watermark == if epoch == old(epoch) then LastOr(swept, old(watermark))
                               else world.reseed(|swept|).value
        decreases goesOn, until - lo
      {
        goesOn := !world.stopOrBusy(|swept|);
        if goesOn {
          var hi := ChunkEnd(lo, until);
          ChunkAt(first, until, |swept|);
          goesOn := TakeChunk(lo, hi, |swept|, seen, world);
          if goesOn {
            ChunkAt(first, until, |swept| + 1);
            swept := swept + [(lo, hi)];
            lo := hi + 1;
          }
        }
      }
    }

    /** One chunk: detect, the stop check after it, and the advance past it. */
    method TakeChunk(lo: int, hi: int, n: nat, seen: nat, world: World) returns (ok: bool)
      requires seen <= epoch
      modifies this
      ensures ok <==> seen == old(epoch) && world.detect(n) == Whole(false) && world.reseed(n).None?
      ensures asked == old(asked) + [(lo, hi)]
      ensures failed <==> old(failed) || world.detect(n).Raised?
      ensures epoch == old(epoch) + if world.reseed(n).Some? then 1 else 0
      ensures watermark == if world.reseed(n).Some? then world.reseed(n).value else if ok then hi else old(watermark)
    {
      ok := DetectChunk(lo, hi, n, world);
      if ok {
        ok := AdvanceWatermark(hi, seen);
      }
    }

    /** The detect of one chunk and the stop check after it; whether the chunk may be counted. */
    method DetectChunk(lo: int, hi: int, n: nat, world: World) returns (whole: bool)
      modifies this
      ensures world.reseed(n).None? ==> epoch == old(epoch) && watermark == old(watermark)
      ensures world.reseed(n).Some? ==> epoch == old(epoch) + 1 && watermark == world.reseed(n).value
      ensures whole <==> world.detect(n) == Whole(false)
      ensures failed <==> old(failed) || world.detect(n).Raised?
      ensures asked == old(asked) + [(lo, hi)]
    {
      asked := asked + [(lo, hi)];
      Reseeding(world.reseed(n));
      match world.detect(n) {
        case Whole(stopSeen) => whole := !stopSeen;
        case Partial => whole := false;
        case Raised =>
          failed := true;
          whole := false;
      }
    }
  }

  /** What detect was asked for: the chunks swept and, unless the GPU was yielded there, the next. */
  function Asked(world: World, chunks: seq<(int, int)>, swept: seq<(int, int)>): seq<(int, int)> {
    if |swept| < |chunks| && !world.stopOrBusy(|swept|) then swept + [chunks[|swept|]] else swept
  }

  /** The walk got to a chunk beyond those it swept, and that chunk's detect raised. */
  predicate RaisedIn(world: World, chunks: seq<(int, int)>, swept: seq<(int, int)>) {
    |swept| < |chunks| && !world.stopOrBusy(|swept|) && world.detect(|swept|).Raised?
  }

  /** Likewise, and a re-seed landed during that detect. */
  predicate ReseededIn(world: World, chunks: seq<(int, int)>, swept: seq<(int, int)>) {
    |swept| < |chunks| && !world.stopOrBusy(|swept|) && world.reseed(|swept|).Some?
  }

  /** The chunks of the window a tick opens one past its watermark, clamped to the store. */
  function Window(watermark: int, latest: int): seq<(int, int)> {
    var base := Min(watermark, latest);
    Chunks(base + 1, Until(base, latest))
  }

  function LastOr(swept: seq<(int, int)>, otherwise: int): int {
    if swept == [] then otherwise else swept[|swept| - 1].1
  }

  lemma {:induction false} LastOfChunks(lo: int, until: int)
    ensures lo <= until ==> LastOr(Chunks(lo, until), lo - 1) == until
    ensures until < lo ==> Chunks(lo, until) == []
    decreases until - lo + 1
  {
    if lo <= until {
      LastOfChunks(ChunkEnd(lo, until) + 1, until);
    }
  }
}
