/**
 * A tile worker (src/tile-manager/worker.ts): a queue of requests keyed by
 * position, served nearest and coarsest first, trimmed whenever the
 * reference position moves. The worker's `setTimeout(run)` is the flag
 * `timerPending` and the method `Tick`, which the event loop calls while it
 * is set. `generate` resolves at once, so its `.then` continuation runs
 * before the next message and `Run` is one step.
 */
module TileWorker {
  import opened Wrappers
  import opened Interfaces
  import opened LodPolicy
  import opened StableMin
  import opened Messages
  import opened OrderedMaps
  import opened TerrainGenerator

  type Queue = seq<Entry<Vec3, TileRequest>>

  /** The sort key of `getNextTile`: squared x/z distance plus 350 per LOD step (with `CONFIG.tileDim`). */
  function Priority(reference: Vec3, request: TileRequest): real {
    var dx := Magnitude(reference.x - request.position.x);
    var dz := Magnitude(reference.z - request.position.z);
    dx * dx + dz * dz + (ConfigTileDim.x + ConfigTileDim.z) * request.lod as real * 1.75
  }

  /** Nearer tiles come first at equal LOD, coarser tiles first at equal distance. */
  lemma PriorityOrder(reference: Vec3, a: TileRequest, b: TileRequest)
    requires Magnitude(reference.x - a.position.x) <= Magnitude(reference.x - b.position.x)
    requires Magnitude(reference.z - a.position.z) <= Magnitude(reference.z - b.position.z)
    requires a.lod <= b.lod
    ensures Priority(reference, a) <= Priority(reference, b)
  {
    SquareMonotone(Magnitude(reference.x - a.position.x), Magnitude(reference.x - b.position.x));
    SquareMonotone(Magnitude(reference.z - a.position.z), Magnitude(reference.z - b.position.z));
  }

  lemma SquareMonotone(a: real, b: real)
    requires 0.0 <= a <= b
    ensures a * a <= b * b
  {
    assert a * a <= a * b;
    assert a * b <= b * b;
  }

  function Priorities(reference: Vec3, queue: Queue): seq<real> {
    seq(|queue|, i requires 0 <= i < |queue| => Priority(reference, queue[i].value))
  }

  /**
   * `getNextTile`: nothing for an empty queue, otherwise the request of
   * least priority, the earliest queued one among equals.
   */
  function NextTile(queue: Queue, reference: Vec3): (r: Option<TileRequest>)
    ensures r.None? <==> queue == []
    ensures r.Some? ==> exists i :: (
      && 0 <= i < |queue| && queue[i].value == r.value
      && (forall j :: 0 <= j < |queue| ==> Priority(reference, r.value) <= Priority(reference, queue[j].value))
      && (forall j :: 0 <= j < i ==> Priority(reference, r.value) < Priority(reference, queue[j].value)))
  {
    if queue == [] then None
    else
      var keys := Priorities(reference, queue);
      var i := FirstMinIndex(keys);
      assert forall j :: 0 <= j < |queue| ==> keys[j] == Priority(reference, queue[j].value);
      Some(queue[i].value)
  }

  /** Whether `cleanQueue` drops an entry: its ideal LOD is now below its queued LOD. */
  predicate Evicted(reference: Vec3, e: Entry<Vec3, TileRequest>) {
    HelperIdealLod(reference, e.value.position, ConfigTileDim) < e.value.lod
  }

  /** The queue `cleanQueue` leaves. */
  function Kept(reference: Vec3, queue: Queue): Queue {
    Filter(queue, e => !Evicted(reference, e))
  }

  /** The remove messages `cleanQueue` posts, one per evicted entry, in queue order. */
  function Removals(reference: Vec3, queue: Queue): seq<WorkerMessage>
    decreases |queue|
  {
    if queue == [] then []
    else
      var n := |queue| - 1;
      Removals(reference, queue[..n]) + (if Evicted(reference, queue[n]) then [Remove(queue[n].key)] else [])
  }

  /**
   * `cleanQueue` keeps exactly the entries that are not evicted and posts
   * one removal for each entry it drops, naming that entry's key.
   */
  lemma {:induction false} CleanSplitsQueue(reference: Vec3, queue: Queue)
    ensures forall e :: e in Kept(reference, queue) <==> e in queue && !Evicted(reference, e)
    ensures |Kept(reference, queue)| + |Removals(reference, queue)| == |queue|
    ensures forall m :: m in Removals(reference, queue) <==> exists e :: e in queue && Evicted(reference, e) && m == Remove(e.key)
    decreases |queue|
  {
    FilterMembers(queue, e => !Evicted(reference, e));
    if queue != [] {
      var n := |queue| - 1;
      CleanSplitsQueue(reference, queue[..n]);
      assert queue == queue[..n] + [queue[n]];
    }
  }

  /** One step of `cleanQueue` over entry `i` of the queue it started from. */
  lemma CleanStep(reference: Vec3, queue: Queue, i: nat)
    requires Distinct(queue) && i < |queue|
    ensures Removals(reference, queue[..i + 1]) == Removals(reference, queue[..i]) + (if Evicted(reference, queue[i]) then [Remove(queue[i].key)] else [])
    ensures Evicted(reference, queue[i]) ==> Delete(Kept(reference, queue[..i]) + queue[i..], queue[i].key) == Kept(reference, queue[..i + 1]) + queue[i + 1..]
    ensures !Evicted(reference, queue[i]) ==> Kept(reference, queue[..i]) + queue[i..] == Kept(reference, queue[..i + 1]) + queue[i + 1..]
  {
    assert queue[..i + 1][..i] == queue[..i];
    var kept := Kept(reference, queue[..i]);
    CleanSplitsQueue(reference, queue[..i]);
    assert queue[i].key !in Keys(kept) by {
      forall j | 0 <= j < |kept| ensures Keys(kept)[j] != queue[i].key {
        assert kept[j] in queue[..i];
      }
    }
    assert queue[i..] == [queue[i]] + queue[i + 1..];
    assert kept + queue[i..] == kept + [queue[i]] + queue[i + 1..];
    DeleteAfter(kept, queue[i], queue[i + 1..]);
  }

  /** The helper LOD rule never asks for LOD 2, so no LOD-2 entry survives a position update. */
  lemma FullDetailAlwaysEvicted(reference: Vec3, queue: Queue)
    ensures forall e :: e in Kept(reference, queue) ==> e.value.lod <= 1
  {
    CleanSplitsQueue(reference, queue);
  }

  /** Every entry is stored under `${request.position}`. */
  predicate Keyed(queue: Queue) {
    forall i :: 0 <= i < |queue| ==> queue[i].key == KeyOf(queue[i].value)
  }

  lemma KeptShape(reference: Vec3, queue: Queue)
    requires Distinct(queue) && Keyed(queue)
    ensures Distinct(Kept(reference, queue)) && Keyed(Kept(reference, queue))
  {
    SubsequenceShape(queue, e => !Evicted(reference, e));
  }

  lemma {:induction false} SubsequenceShape(queue: Queue, keep: Entry<Vec3, TileRequest> -> bool)
    requires Distinct(queue) && Keyed(queue)
    ensures Distinct(Filter(queue, keep)) && Keyed(Filter(queue, keep))
    decreases |queue|
  {
    if queue != [] {
      var n := |queue| - 1;
      SubsequenceShape(queue[..n], keep);
      FilterMembers(queue[..n], keep);
      var f := Filter(queue[..n], keep);
      forall i | 0 <= i < |f| ensures f[i].key != queue[n].key {
        assert f[i] in queue[..n];
      }
    }
  }

  lemma SetShape(queue: Queue, request: TileRequest)
    requires Distinct(queue) && Keyed(queue)
    ensures Distinct(Set(queue, KeyOf(request), request)) && Keyed(Set(queue, KeyOf(request), request))
  {
    SetDistinct(queue, KeyOf(request), request);
    SetKeyed(queue, request);
  }

  lemma {:induction false} SetKeyed(queue: Queue, request: TileRequest)
    requires Keyed(queue)
    ensures Keyed(Set(queue, KeyOf(request), request))
    decreases |queue|
  {
    if queue != [] && queue[0].key != KeyOf(request) {
      SetKeyed(queue[1..], request);
    }
  }

  lemma DeleteShape(queue: Queue, key: Vec3)
    requires Distinct(queue) && Keyed(queue)
    ensures Distinct(Delete(queue, key)) && Keyed(Delete(queue, key))
    ensures key in Keys(queue) ==> |Delete(queue, key)| == |queue| - 1
  {
    DeleteDistinct(queue, key);
    DeleteLength(queue, key);
    var d := Delete(queue, key);
    forall i | 0 <= i < |d| ensures d[i].key == KeyOf(d[i].value) {
      assert d[i] in queue;
    }
  }

  /** With the tile size `Runner` requests, every chunk a worker generates is within the documented cell limit. */
  lemma GeneratedChunkWithinCellBound(lod: Lod)
    ensures var r := GenerationResolution(lod);
      GridDim(RunnerTileDim.x, r) * GridDim(RunnerTileDim.y, r) * GridDim(RunnerTileDim.z, r) < 0x100_0000
  {
    var r := GenerationResolution(lod);
    var a, b := GridDim(56.0, r), GridDim(512.0, r);
    assert 0 < a <= 57 && 0 < b <= 513;
    assert a * b <= 57 * 513;
    assert a * b * a <= 57 * 513 * 57;
  }

  class TileWorker {
    var isRunning: bool
    var chunkQueue: Queue
    var referencePosition: Vec3
    /** The messages posted to the coordinator. */
    var outbox: seq<WorkerMessage>
    /** Whether a `setTimeout(run)` is scheduled. */
    var timerPending: bool

    /**
     * The worker is running exactly while a run is scheduled, and an idle
     * worker has an empty queue: no request is ever stranded.
     */
    ghost predicate Valid()
      reads this
    {
      && Distinct(chunkQueue) && Keyed(chunkQueue)
      && (isRunning <==> timerPending)
      && (!isRunning ==> chunkQueue == [])
    }

    constructor()
      ensures Valid()
      ensures !isRunning && chunkQueue == [] && referencePosition == Vec3(0.0, 0.0, 0.0) && outbox == []
    {
      isRunning := false;
      chunkQueue := [];
      referencePosition := Vec3(0.0, 0.0, 0.0);
      outbox := [];
      timerPending := false;
    }

    /** `cleanQueue`. */
    method CleanQueue()
      requires Distinct(chunkQueue)
      modifies this
      ensures chunkQueue == Kept(referencePosition, old(chunkQueue))
      ensures outbox == old(outbox) + Removals(referencePosition, old(chunkQueue))
      ensures isRunning == old(isRunning) && timerPending == old(timerPending) && referencePosition == old(referencePosition)
    {
      var queueEntries := chunkQueue;
      var reference := referencePosition;
      ghost var posted := outbox;
      var i := 0;
      while i < |queueEntries|
        invariant 0 <= i <= |queueEntries|
        invariant chunkQueue == Kept(reference, queueEntries[..i]) + queueEntries[i..]
        invariant outbox == posted + Removals(reference, queueEntries[..i])
        invariant isRunning == old(isRunning) && timerPending == old(timerPending) && referencePosition == reference
      {
        var entry := queueEntries[i];
        CleanStep(reference, queueEntries, i);
        if Evicted(reference, entry) {
          chunkQueue := Delete(chunkQueue, entry.key);
          outbox := outbox + [Remove(entry.key)];
        }
        i := i + 1;
      }
      assert queueEntries[..i] == queueEntries;
    }

    /**
     * `run`: with a request queued, generates the best one and posts it,
     * dropping it from the queue and scheduling the next run; with an empty
     * queue, a running worker stops and reports its status (as `idle: false`).
     */
    method Run()
      requires Distinct(chunkQueue) && Keyed(chunkQueue)
      modifies this
      ensures Distinct(chunkQueue) && Keyed(chunkQueue)
      ensures referencePosition == old(referencePosition)
      ensures var next := NextTile(old(chunkQueue), old(referencePosition));
        && (next.Some? ==>
            && isRunning && timerPending
            && chunkQueue == Delete(old(chunkQueue), KeyOf(next.value))
            && outbox == old(outbox) + [Data(next.value)])
        && (next.None? ==>
            && !isRunning && timerPending == old(timerPending) && chunkQueue == old(chunkQueue)
            && outbox == old(outbox) + (if old(isRunning) then [Status(false)] else []))
    {
      var request := NextTile(chunkQueue, referencePosition);
      if request.Some? {
        isRunning := true;
        DeleteShape(chunkQueue, KeyOf(request.value));
        chunkQueue := Delete(chunkQueue, KeyOf(request.value));
        outbox := outbox + [Data(request.value)];
        timerPending := true;
      } else if isRunning {
        isRunning := false;
        outbox := outbox + [Status(false)];
      }
    }

    /** The scheduled `setTimeout(run)` firing. */
    method Tick()
      requires Valid() && timerPending
      modifies this
      ensures Valid()
      ensures referencePosition == old(referencePosition)
      ensures old(chunkQueue) == [] ==>
        && !isRunning && !timerPending && chunkQueue == []
        && outbox == old(outbox) + [Status(false)]
      ensures old(chunkQueue) != [] ==>
        var next := NextTile(old(chunkQueue), old(referencePosition)).value;
        && isRunning && timerPending
        && chunkQueue == Delete(old(chunkQueue), KeyOf(next)) && |chunkQueue| == |old(chunkQueue)| - 1
        && outbox == old(outbox) + [Data(next)]
    {
      timerPending := false;
      Run();
      if old(chunkQueue) != [] {
        var next := NextTile(old(chunkQueue), referencePosition).value;
        DeleteShape(old(chunkQueue), KeyOf(next));
        assert KeyOf(next) in Keys(old(chunkQueue)) by {
          var i :| 0 <= i < |old(chunkQueue)| && old(chunkQueue)[i].value == next;
          assert Keys(old(chunkQueue))[i] == KeyOf(next);
        }
      }
    }

    /**
     * `self.onmessage`. A request is queued under its key; an idle worker,
     * whose queue is empty, generates it at once. A position update replaces
     * the reference position and then cleans the queue against it.
     */
    method OnMessage(m: CoordinatorMessage)
      requires Valid()
      modifies this
      ensures Valid()
      ensures m.Request? ==> referencePosition == old(referencePosition)
      ensures m.Request? && old(isRunning) ==>
        && isRunning && timerPending == old(timerPending)
        && chunkQueue == Set(old(chunkQueue), KeyOf(m.request), m.request) && outbox == old(outbox)
      ensures m.Request? && !old(isRunning) ==>
        && isRunning && timerPending && chunkQueue == [] && outbox == old(outbox) + [Data(m.request)]
      ensures m.Position? ==>
        && referencePosition == m.pos && isRunning == old(isRunning) && timerPending == old(timerPending)
        && chunkQueue == Kept(m.pos, old(chunkQueue))
        && outbox == old(outbox) + Removals(m.pos, old(chunkQueue))
    {
      match m
      case Request(request) =>
        SetShape(chunkQueue, request);
        chunkQueue := Set(chunkQueue, KeyOf(request), request);
        if !isRunning {
          Run();
        }
      case Position(pos) =>
        referencePosition := pos;
        KeptShape(pos, chunkQueue);
        CleanQueue();
    }
  }
}
