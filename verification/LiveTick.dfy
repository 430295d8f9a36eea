/** One tick of the naming worker as its code runs, over the list `closed_visits` gave it. What
    other threads do meanwhile arrives as answers. */
module LiveTick {
  import opened Wrappers
  import opened LiveWorker

  /** How the detect and the identify of one span came back, each with what the stop flag reads
      after it. A stop cuts detect short silently and identify with a cancel. */
  datatype Detect = Whole(stopSeen: bool) | DetectPartial | DetectRaised
  datatype Identify = Done | Cancelled | IdentifyRaised

  /** `early` is a reset between the tick's snapshot and its first look at the store's rows. */
  datatype World = World(
    hasModel: bool,
    busyAtStart: bool,
    latest: int,
    early: Option<int>,
    listed: int -> seq<Visit>,
    stopOrBusy: nat -> bool,
    detect: nat -> Detect,
    identify: nat -> Identify,
    reset: nat -> Option<int>
  )

  /** Span `n` is let through: no stop and no busy GPU before it, both passes complete, and no reset
      landed by then. */
  predicate GoesThrough(world: World, n: nat) {
    !world.stopOrBusy(n) && world.detect(n) == Whole(false) && world.identify(n).Done? && world.reset(n).None?
  }

  ghost predicate Undisturbed(world: World) {
    world.hasModel && !world.busyAtStart && world.early.None? && forall n :: GoesThrough(world, n)
  }

  /** `named` is as many of the spans as were let through one after the other, and the first that
      was not is where the walk ended. */
  ghost predicate EndsAtTheFirstRefused(world: World, spans: seq<Visit>, named: seq<Visit>) {
    && named <= spans
    && (forall i :: 0 <= i < |named| ==> GoesThrough(world, i))
    && (|named| < |spans| ==> !GoesThrough(world, |named|))
  }

  /** The walk got to a span beyond those it named. */
  predicate GotTo(world: World, spans: seq<Visit>, named: seq<Visit>) {
    |named| < |spans| && !world.stopOrBusy(|named|)
  }

  /** Likewise, and one of that span's passes raised. */
  predicate RaisedIn(world: World, spans: seq<Visit>, named: seq<Visit>) {
    && GotTo(world, spans, named)
    && (world.detect(|named|).DetectRaised?
        || (world.detect(|named|) == Whole(false) && world.identify(|named|).IdentifyRaised?))
  }

  /** Likewise, and a reset landed during its passes. */
  predicate ResetIn(world: World, spans: seq<Visit>, named: seq<Visit>) {
    GotTo(world, spans, named) && world.reset(|named|).Some?
  }

  /** What detect was asked for: the spans named and, unless the GPU was yielded there, the next. */
  function AskedDetect(world: World, spans: seq<Visit>, named: seq<Visit>): seq<Visit> {
    if GotTo(world, spans, named) then named + [spans[|named|]] else named
  }

  /** What identify was asked for: of these, the last only if its detect was whole. */
  function AskedIdentify(world: World, spans: seq<Visit>, named: seq<Visit>): seq<Visit> {
    if GotTo(world, spans, named) && world.detect(|named|) == Whole(false) then named + [spans[|named|]] else named
  }

  function Least(a: int, b: int): int { if a <= b then a else b }

  /** The most spans one tick takes. */
  function Capped(spans: seq<Visit>): seq<Visit> {
    if |spans| <= MAX_SPANS_PER_TICK then spans else spans[..MAX_SPANS_PER_TICK]
  }

  function EndOr(named: seq<Visit>, otherwise: int): int {
    if named == [] then otherwise else named[|named| - 1].hi
  }

  class LiveIdentifyManager {
    var watermark: int
    var epoch: nat
    var neverEnabled: bool
    var lastError: bool
    // history: the spans handed to detect and to identify
    var detected: seq<Visit>
    var identified: seq<Visit>

    constructor (persisted: Option<int>)
      ensures watermark == (if persisted.Some? then persisted.value else 0)
      ensures epoch == 0 && neverEnabled == persisted.None? && !lastError && detected == [] && identified == []
    {
      watermark := if persisted.Some? then persisted.value else 0;
      epoch, neverEnabled, lastError, detected, identified := 0, persisted.None?, false, [], [];
    }

    method AdvanceWatermark(value: int, seen: nat) returns (ok: bool)
      modifies `watermark
      ensures ok <==> seen == epoch
      ensures watermark == if ok then value else old(watermark)
    {
      ok := seen == epoch;
      if ok {
        watermark := value;
      }
    }

    /** `reset_watermark`: every in-flight tick is invalidated, but a worker that was never
        enabled keeps both its watermark and its claim to a first seed. */
    method ResetWatermark(value: int)
      modifies `watermark, `epoch
      ensures epoch == old(epoch) + 1
      ensures watermark == if neverEnabled then old(watermark) else value
    {
      epoch := epoch + 1;
      if neverEnabled {
        return;
      }
      watermark := value;
    }

    /** The seeding half of `start`: only the first ever start moves the watermark. */
    method SeedOnFirstStart(horizon: int)
      modifies `watermark, `neverEnabled
      ensures !neverEnabled && epoch == old(epoch)
      ensures watermark == if old(neverEnabled) then horizon else old(watermark)
    {
      if neverEnabled {
        watermark := horizon;
        neverEnabled := false;
      }
    }

    /** A reset by another thread, if there is one. */
    method Resetting(reset: Option<int>)
      modifies `watermark, `epoch
      ensures epoch == old(epoch) + if reset.Some? then 1 else 0
      ensures watermark == if reset.Some? && !neverEnabled then reset.value else old(watermark)
    {
      match reset {
        case Some(value) => ResetWatermark(value);
        case None =>
      }
    }

    /** One tick. `named` is the spans it may count: of those listed beyond the watermark (clamped
        if ids regressed), at most the cap, those before the first that was stopped, incomplete or
        met by a reset. The watermark ends at the last of them, or stays; a reset during the tick
        stands, before any clamp or after; and only a raising pass is an error. */
    method Tick(world: World) returns (named: seq<Visit>)
      modifies `watermark, `epoch, `lastError, `detected, `identified
      ensures !world.hasModel || world.busyAtStart ==>
                && named == [] && watermark == old(watermark) && epoch == old(epoch)
                && lastError == old(lastError) && detected == old(detected) && identified == old(identified)
      ensures world.hasModel && !world.busyAtStart && world.early.None? ==>
                var base := Least(old(watermark), world.latest);
                var spans := Capped(world.listed(base));
                && EndsAtTheFirstRefused(world, spans, named)
                && detected == old(detected) + AskedDetect(world, spans, named)
                && identified == old(identified) + AskedIdentify(world, spans, named)
                && (lastError <==> old(lastError) || RaisedIn(world, spans, named))
                && epoch == old(epoch) + (if ResetIn(world, spans, named) then 1 else 0)
                && watermark == if epoch == old(epoch) || neverEnabled then EndOr(named, base)
                                else world.reset(|named|).value
      ensures world.hasModel && !world.busyAtStart && world.early.Some? && old(watermark) > world.latest ==>
                && named == [] && epoch == old(epoch) + 1 && lastError == old(lastError)
                && watermark == (if neverEnabled then old(watermark) else world.early.value)
                && detected == old(detected) && identified == old(identified)
      ensures world.hasModel && !world.busyAtStart && world.early.Some? && old(watermark) <= world.latest ==>
                var spans := Capped(world.listed(old(watermark)));
                && named == []
                && detected == old(detected) + AskedDetect(world, spans, [])
                && identified == old(identified) + AskedIdentify(world, spans, [])
                && (lastError <==> old(lastError) || RaisedIn(world, spans, []))
                && epoch == old(epoch) + 1 + (if ResetIn(world, spans, []) then 1 else 0)
                && watermark == if neverEnabled then old(watermark)
                                else if epoch == old(epoch) + 1 then world.early.value else world.reset(0).value
      ensures Undisturbed(world) ==>
                named == Capped(world.listed(Least(old(watermark), world.latest))) && epoch == old(epoch)
    {
      named := [];
      if world.hasModel && !world.busyAtStart {
        var seen, base := epoch, watermark;
        Resetting(world.early);
        if base > world.latest {
          var ok := AdvanceWatermark(world.latest, seen);
          if !ok {
            return;
          }
          base := world.latest;
        }
        named := Walk(world.listed(base), seen, world);
      }
    }

    /** The span loop. */
    method Walk(spans: seq<Visit>, seen: nat, world: World) returns (named: seq<Visit>)
      requires seen <= epoch
      modifies `watermark, `epoch, `lastError, `detected, `identified
      ensures old(epoch) != seen ==> named == []
      ensures old(epoch) == seen ==> EndsAtTheFirstRefused(world, Capped(spans), named)
      ensures detected == old(detected) + AskedDetect(world, Capped(spans), named)
      ensures identified == old(identified) + AskedIdentify(world, Capped(spans), named)
      ensures lastError <==> old(lastError) || RaisedIn(world, Capped(spans), named)
      ensures epoch == old(epoch) + if ResetIn(world, Capped(spans), named) then 1 else 0
      ensures watermark == if epoch == old(epoch) || neverEnabled then EndOr(named, old(watermark))
                           else world.reset(|named|).value
    {
      named := [];
      var i := 0;
      var goesOn := true;
      ghost var all := Capped(spans);
      while goesOn && i < |spans| && i < MAX_SPANS_PER_TICK
        invariant |named| <= |all| && named == all[..|named|] && (named != [] ==> old(epoch) == seen)
        invariant goesOn ==> i == |named|
        invariant forall n :: 0 <= n < |named| ==> GoesThrough(world, n)
        invariant goesOn ==> epoch == old(epoch) && lastError == old(lastError)
        invariant goesOn ==> detected == old(detected) + named && identified == old(identified) + named
        invariant !goesOn ==> |named| < |all| && !(old(epoch) == seen && GoesThrough(world, |named|))
        invariant !goesOn ==> detected == old(detected) + AskedDetect(world, all, named)
        invariant !goesOn ==> identified == old(identified) + AskedIdentify(world, all, named)
        invariant !goesOn ==> lastError == (old(lastError) || RaisedIn(world, all, named))
        invariant !goesOn ==> epoch == old(epoch) + if ResetIn(world, all, named) then 1 else 0
        invariant watermark == if epoch == old(epoch) || neverEnabled then EndOr(named, old(watermark))
                               else world.reset(|named|).value
        decreases goesOn, |spans| - i
      {
        goesOn := !world.stopOrBusy(i);
        if goesOn {
          goesOn := TakeSpan(spans[i], i, seen, world);
          if goesOn {
            named := named + [spans[i]];
            i := i + 1;
          }
        }
      }
    }

    /** One span: both passes, and the advance past it. */
    method TakeSpan(span: Visit, n: nat, seen: nat, world: World) returns (ok: bool)
      requires seen <= epoch
      modifies `watermark, `epoch, `lastError, `detected, `identified
      ensures ok <==> seen == old(epoch) && world.detect(n) == Whole(false) && world.identify(n).Done?
                      && world.reset(n).None?
      ensures detected == old(detected) + [span]
      ensures identified == old(identified) + if world.detect(n) == Whole(false) then [span] else []
      ensures lastError <==> old(lastError) || world.detect(n).DetectRaised?
                             || (world.detect(n) == Whole(false) && world.identify(n).IdentifyRaised?)
      ensures epoch == old(epoch) + if world.reset(n).Some? then 1 else 0
      ensures watermark == if world.reset(n).Some? && !neverEnabled then world.reset(n).value
                           else if ok then span.hi else old(watermark)
    {
      ok := BothPasses(span, n, world);
      if ok {
        ok := AdvanceWatermark(span.hi, seen);
      }
    }

    /** Detect then identify on the n-th span; whether both completed. */
    method BothPasses(span: Visit, n: nat, world: World) returns (complete: bool)
      modifies `watermark, `epoch, `lastError, `detected, `identified
      ensures complete <==> world.detect(n) == Whole(false) && world.identify(n).Done?
      ensures detected == old(detected) + [span]
      ensures identified == old(identified) + if world.detect(n) == Whole(false) then [span] else []
      ensures lastError <==> old(lastError) || world.detect(n).DetectRaised?
                             || (world.detect(n) == Whole(false) && world.identify(n).IdentifyRaised?)
      ensures epoch == old(epoch) + if world.reset(n).Some? then 1 else 0
      ensures watermark == if world.reset(n).Some? && !neverEnabled then world.reset(n).value else old(watermark)
    {
      Resetting(world.reset(n));
      detected := detected + [span];
      complete := world.detect(n) == Whole(false);
      if world.detect(n).DetectRaised? {
        lastError := true;
      }
      if complete {
        identified := identified + [span];
        match world.identify(n) {
          case Done =>
          case Cancelled => complete := false;
          case IdentifyRaised =>
            lastError := true;
            complete := false;
        }
      }
    }
  }
}
