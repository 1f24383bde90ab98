/**
 * The older tile worker (src/core/worker.ts): requests are queued under
 * their grid slot, and an idle worker drains the whole queue, in insertion
 * order, before it returns. Geometry is not modelled: a reply carries the
 * request it answers.
 */
module LegacyWorker {
  import opened Interfaces
  import opened OrderedMaps

  type SlotQueue = seq<Entry<(int, int), TileRequest>>

  class LegacyWorker {
    var isRunning: bool
    var chunkQueue: SlotQueue
    /** The replies posted, in order. */
    var outbox: seq<TileRequest>

    /** Between messages the worker is idle and its queue is empty. */
    ghost predicate Valid()
      reads this
    {
      !isRunning && chunkQueue == []
    }

    constructor()
      ensures Valid() && outbox == []
    {
      isRunning := false;
      chunkQueue := [];
      outbox := [];
    }

    /**
     * `generate`: answers every queued request, in insertion order, removing
     * each from the queue as it goes; `isRunning` is set throughout.
     */
    method Generate()
      requires Distinct(chunkQueue)
      modifies this
      ensures outbox == old(outbox) + Values(old(chunkQueue))
      ensures chunkQueue == [] && !isRunning
    {
      isRunning := true;
      ghost var queued, posted := chunkQueue, outbox;
      ghost var k := 0;
      while chunkQueue != []
        invariant isRunning
        invariant 0 <= k <= |queued| && chunkQueue == queued[k..]
        invariant outbox == posted + Values(queued[..k])
        decreases |chunkQueue|
      {
        var entry := chunkQueue[0];
        chunkQueue := Delete(chunkQueue, entry.key);
        outbox := outbox + [entry.value];
        assert queued[..k + 1] == queued[..k] + [entry];
        k := k + 1;
      }
      assert queued[..k] == queued;
      isRunning := false;
    }

    /** `self.onmessage`: queues the request under its slot and, the worker being idle, answers it at once. */
    method OnMessage(request: TileRequest)
      requires Valid()
      modifies this
      ensures Valid()
      ensures outbox == old(outbox) + [request]
    {
      chunkQueue := Set(chunkQueue, request.relativePosition, request);
      if !isRunning {
        Generate();
      }
    }
  }
}
