/**
 * The tile coordinator `TileManager` (src/tile-manager/tile-manager.ts). It
 * records the LOD of every tile it has dispatched and not yet had answered
 * in `pendingTiles`, charges each dispatch to the least-loaded worker and
 * releases that load when the worker answers.
 */
module TileManagement {
  import opened Interfaces
  import opened LodPolicy
  import opened StableMin
  import opened Messages

  /** An entry of `workers`: the messages posted to its worker, and its `idle` and `load`. */
  datatype WorkerSlot = WorkerSlot(idle: bool, load: int, inbox: seq<CoordinatorMessage>)

  /** The coordinator's state: its workers, `pendingTiles`, and the requests emitted on `tileReady`. */
  datatype Coordinator = Coordinator(workers: seq<WorkerSlot>, pending: map<Vec3, Lod>, ready: seq<TileRequest>)

  /** What a call to `requestTile` did. `NoWorker` is the TypeError of reading the load of no worker. */
  datatype Dispatch = Skipped | Dispatched(worker: nat) | NoWorker

  function Loads(ws: seq<WorkerSlot>): seq<real> {
    seq(|ws|, i requires 0 <= i < |ws| => ws[i].load as real)
  }

  /** The worker `[...workers].sort((w1, w2) => w1.load - w2.load)[0]` picks. */
  function LeastLoaded(ws: seq<WorkerSlot>): (i: nat)
    requires |ws| > 0
    ensures i < |ws|
    ensures forall j :: 0 <= j < |ws| ==> ws[i].load <= ws[j].load
    ensures forall j :: 0 <= j < i ==> ws[i].load < ws[j].load
  {
    var loads := Loads(ws);
    var i := FirstMinIndex(loads);
    assert forall j :: 0 <= j < |ws| ==> loads[j] == ws[j].load as real;
    i
  }

  /** Whether `requestTile` dispatches: the key is not pending, or pending at a lower LOD. */
  predicate Dispatches(pending: map<Vec3, Lod>, request: TileRequest) {
    KeyOf(request) !in pending || pending[KeyOf(request)] < request.lod
  }

  /** The workers after worker `i` is sent `request` and charged for it. */
  function Charge(ws: seq<WorkerSlot>, i: nat, request: TileRequest): seq<WorkerSlot>
    requires i < |ws|
  {
    ws[i := ws[i].(load := ws[i].load + LoadCost(request.lod), inbox := ws[i].inbox + [Request(request)])]
  }

  /** The workers after worker `i` is relieved of `amount` of load. */
  function Release(ws: seq<WorkerSlot>, i: nat, amount: int): seq<WorkerSlot>
    requires i < |ws|
  {
    ws[i := ws[i].(load := ws[i].load - amount)]
  }

  /** `requestTile`, with the cache lookup that always misses. */
  function RequestStep(s: Coordinator, request: TileRequest): (Coordinator, Dispatch) {
    if !Dispatches(s.pending, request) then (s, Skipped)
    else if |s.workers| == 0 then (s.(pending := s.pending[KeyOf(request) := request.lod]), NoWorker)
    else
      var i := LeastLoaded(s.workers);
      (s.(pending := s.pending[KeyOf(request) := request.lod], workers := Charge(s.workers, i, request)), Dispatched(i))
  }

  /** The `onmessage` handler bound to worker `i`. */
  function MessageStep(s: Coordinator, i: nat, message: WorkerMessage): Coordinator
    requires i < |s.workers|
  {
    match message
    case Status(idle) => s.(workers := s.workers[i := s.workers[i].(idle := idle)])
    case Data(request) =>
      Coordinator(Release(s.workers, i, LoadCost(request.lod)), s.pending - {KeyOf(request)}, s.ready + [request])
    case Remove(key) =>
      var workers := if key in s.pending && s.pending[key] != 0 then Release(s.workers, i, LoadCost(s.pending[key])) else s.workers;
      s.(workers := workers, pending := s.pending - {key})
  }

  /** The sum of all workers' loads. */
  function TotalLoad(ws: seq<WorkerSlot>): int
    decreases |ws|
  {
    if ws == [] then 0 else TotalLoad(ws[..|ws| - 1]) + ws[|ws| - 1].load
  }

  lemma {:induction false} TotalLoadUpdate(ws: seq<WorkerSlot>, i: nat, w: WorkerSlot)
    requires i < |ws|
    ensures TotalLoad(ws[i := w]) == TotalLoad(ws) - ws[i].load + w.load
    decreases |ws|
  {
    var n := |ws| - 1;
    if i < n {
      TotalLoadUpdate(ws[..n], i, w);
      assert ws[i := w][..n] == ws[..n][i := w];
    } else {
      assert ws[i := w][..n] == ws[..n];
    }
  }

  /**
   * `requestTile` dispatches exactly when the tile is new or upgraded. A
   * dispatch records the requested LOD, goes to a least-loaded worker (the
   * first one among equals), raises that worker's load by the cost of the
   * LOD and the total by as much, and posts it exactly one message; the
   * other workers are untouched. Otherwise nothing changes.
   */
  lemma RequestStepSpec(s: Coordinator, request: TileRequest)
    ensures var (s', d) := RequestStep(s, request);
      && (d.Skipped? <==> !Dispatches(s.pending, request))
      && (d.Skipped? ==> s' == s)
      && (!d.Skipped? ==> s'.pending == s.pending[KeyOf(request) := request.lod] && s'.ready == s.ready)
      && (d.NoWorker? <==> Dispatches(s.pending, request) && |s.workers| == 0)
      && (d.NoWorker? ==> s'.workers == s.workers)
      && (d.Dispatched? ==>
          && d.worker < |s.workers|
          && (forall j :: 0 <= j < |s.workers| ==> s.workers[d.worker].load <= s.workers[j].load)
          && (forall j :: 0 <= j < d.worker ==> s.workers[d.worker].load < s.workers[j].load)
          && |s'.workers| == |s.workers|
          && (forall j :: 0 <= j < |s.workers| && j != d.worker ==> s'.workers[j] == s.workers[j])
          && s'.workers[d.worker].load == s.workers[d.worker].load + Pow3(request.lod)
          && s'.workers[d.worker].inbox == s.workers[d.worker].inbox + [Request(request)]
          && s'.workers[d.worker].idle == s.workers[d.worker].idle
          && TotalLoad(s'.workers) == TotalLoad(s.workers) + Pow3(request.lod))
  {
    var (s', d) := RequestStep(s, request);
    if d.Dispatched? {
      var i := d.worker;
      TotalLoadUpdate(s.workers, i, s'.workers[i]);
    }
  }

  /** A request repeated before any reply is not dispatched again. */
  lemma RequestIdempotent(s: Coordinator, request: TileRequest)
    ensures var s' := RequestStep(s, request).0;
      RequestStep(s', request) == (s', Skipped)
  {
  }

  /**
   * A data reply from the worker a request was dispatched to releases
   * exactly the load the dispatch charged, and the tile is no longer pending.
   */
  lemma DataReplyReleasesCharge(s: Coordinator, request: TileRequest)
    requires Dispatches(s.pending, request) && |s.workers| > 0
    ensures var (s', d) := RequestStep(s, request);
      d.Dispatched? &&
      var s'' := MessageStep(s', d.worker, Data(request));
      && |s''.workers| == |s.workers|
      && (forall j :: 0 <= j < |s.workers| ==> s''.workers[j].load == s.workers[j].load)
      && s''.pending == s.pending - {KeyOf(request)}
      && s''.ready == s.ready + [request]
  {
    var (s', d) := RequestStep(s, request);
    var s'' := MessageStep(s', d.worker, Data(request));
    assert s''.pending == s.pending - {KeyOf(request)};
  }

  /**
   * A remove reply releases the cost of the LOD pending at the time, not of
   * the LOD the removing worker was charged for: after a tile is upgraded
   * from LOD 1 on worker 0 to LOD 2 on worker 1, worker 0 dropping its stale
   * entry takes its load from 3 to -6.
   */
  lemma RemoveAfterUpgradeOverReleases()
    ensures var key := Vec3(0.0, 0.0, 0.0);
      var coarse := TileRequest(key, 1, (0, 0), ConfigTileDim);
      var fine := TileRequest(key, 2, (0, 0), ConfigTileDim);
      var s0 := Coordinator([WorkerSlot(true, 0, []), WorkerSlot(true, 0, [])], map[], []);
      var (s1, d1) := RequestStep(s0, coarse);
      var (s2, d2) := RequestStep(s1, fine);
      var s3 := MessageStep(s2, 0, Remove(key));
      && d1 == Dispatched(0) && d2 == Dispatched(1)
      && s2.workers[0].load == 3
      && s3.workers[0].load == -6
      && key !in s3.pending
  {
    var key := Vec3(0.0, 0.0, 0.0);
    var s0 := Coordinator([WorkerSlot(true, 0, []), WorkerSlot(true, 0, [])], map[], []);
    var (s1, d1) := RequestStep(s0, TileRequest(key, 1, (0, 0), ConfigTileDim));
    assert Loads(s0.workers) == [0.0, 0.0];
    assert d1 == Dispatched(0);
    assert Loads(s1.workers) == [3.0, 0.0];
  }

  class TileManager {
    var workers: seq<WorkerSlot>
    var pendingTiles: map<Vec3, Lod>
    var ready: seq<TileRequest>

    function State(): Coordinator
      reads this
    {
      Coordinator(workers, pendingTiles, ready)
    }

    /** Creates `numWorkers` workers (3 unless given), each idle with no load. */
    constructor(numWorkers: int := 3)
      ensures |workers| == if numWorkers < 0 then 0 else numWorkers
      ensures forall i :: 0 <= i < |workers| ==> workers[i] == WorkerSlot(true, 0, [])
      ensures pendingTiles == map[] && ready == []
    {
      workers := [];
      pendingTiles := map[];
      ready := [];
      new;
      var i := 0;
      while i < numWorkers
        invariant |workers| == i == (if numWorkers < 0 then 0 else i) && (numWorkers >= 0 ==> i <= numWorkers)
        invariant forall j :: 0 <= j < i ==> workers[j] == WorkerSlot(true, 0, [])
        invariant pendingTiles == map[] && ready == []
        decreases numWorkers - i
      {
        workers := workers + [WorkerSlot(true, 0, [])];
        i := i + 1;
      }
    }

    /** `requestTile`. */
    method RequestTile(request: TileRequest) returns (d: Dispatch)
      modifies this
      ensures (State(), d) == RequestStep(old(State()), request)
    {
      var key := KeyOf(request);
      if key !in pendingTiles || pendingTiles[key] < request.lod {
        pendingTiles := pendingTiles[key := request.lod];
        if |workers| == 0 {
          return NoWorker;
        }
        var selected := LeastLoaded(workers);
        var worker := workers[selected];
        workers := workers[selected := worker.(load := worker.load + LoadCost(request.lod), inbox := worker.inbox + [Request(request)])];
        return Dispatched(selected);
      }
      return Skipped;
    }

    /** The `onmessage` handler of worker `i`. */
    method OnWorkerMessage(i: nat, message: WorkerMessage)
      requires i < |workers|
      modifies this
      ensures State() == MessageStep(old(State()), i, message)
    {
      match message
      case Status(idle) =>
        workers := workers[i := workers[i].(idle := idle)];
      case Data(request) =>
        ready := ready + [request];
        pendingTiles := pendingTiles - {KeyOf(request)};
        workers := workers[i := workers[i].(load := workers[i].load - LoadCost(request.lod))];
      case Remove(key) =>
        if key in pendingTiles && pendingTiles[key] != 0 {
          workers := workers[i := workers[i].(load := workers[i].load - LoadCost(pendingTiles[key]))];
        }
        pendingTiles := pendingTiles - {key};
    }

    /** `updatePosition`: posts the new reference position to every worker, in order. */
    method UpdatePosition(referencePosition: Vec3)
      modifies this
      ensures |workers| == |old(workers)|
      ensures forall j :: 0 <= j < |workers| ==>
        workers[j] == old(workers[j]).(inbox := old(workers[j]).inbox + [Position(referencePosition)])
      ensures pendingTiles == old(pendingTiles) && ready == old(ready)
    {
      var i := 0;
      while i < |workers|
        invariant 0 <= i <= |workers| == |old(workers)|
        invariant forall j :: 0 <= j < i ==>
          workers[j] == old(workers[j]).(inbox := old(workers[j]).inbox + [Position(referencePosition)])
        invariant forall j :: i <= j < |workers| ==> workers[j] == old(workers[j])
        invariant pendingTiles == old(pendingTiles) && ready == old(ready)
      {
        workers := workers[i := workers[i].(inbox := workers[i].inbox + [Position(referencePosition)])];
        i := i + 1;
      }
    }
  }
}
