/** The loader's own methods, each proved to be a run of protocol steps with workers interleaved anywhere. */
module ChunkLoaderThreads {
  import opened Geometry
  import opened ChunkLoaders

  lemma RunOne(s: State, step: Step)
    ensures Run(s, [step]) == Next(s, step)
  {}

  lemma RunAfterOne(s: State, step: Step, trace: seq<Step>)
    ensures Run(s, [step] + trace) == Run(Next(s, step), trace)
  {
    RunOne(s, step);
    RunAppend(s, [step], trace);
  }

  lemma RunThen(s: State, trace: seq<Step>, step: Step)
    ensures Run(s, trace + [step]) == Next(Run(s, trace), step)
  {}

  predicate IsWorkerStep(step: Step) {
    step.Take? || step.Finish?
  }

  predicate IsAskStep(step: Step, positions: seq<Pos>) {
    IsWorkerStep(step) || (step.Ask? && step.pos in positions)
  }

  predicate IsReceiveStep(step: Step) {
    IsWorkerStep(step) || step.StartReceive? || step.ReceiveOne? || step.EndReceive?
  }

  predicate IsDrainStep(step: Step) {
    IsWorkerStep(step) || step.DrainRequest? || step.RequestsDrained? || step.DrainResult? || step.ResultsDrained?
  }

  lemma {:induction false} MoreInFlight(a: set<Pos>, b: set<Pos>)
    requires a <= b
    ensures |a| <= |b|
  {
    if a != {} {
      var p :| p in a;
      MoreInFlight(a - {p}, b - {p});
    }
  }

  class ChunkLoader {
    const workerCount: nat
    var queue: seq<Request>
    var running: multiset<Request>
    var results: seq<Request>
    var inFlight: set<Pos>
    var currentEpoch: nat
    var queueFullEvents: nat
    var droppedStaleResults: nat
    var accepted: seq<Request> // numbers the requests
    ghost var delivered: seq<Request>
    ghost var discarded: seq<Request>

    /** The protocol state, while the main thread is in the given mode. */
    ghost function At(mode: Mode): State
      reads this
    {
      State(workerCount, queue, running, results, inFlight, currentEpoch, queueFullEvents, mode,
            accepted, delivered, discarded)
    }

    /** Work that the workers can still do. */
    ghost function Work(): nat
      reads this
    {
      3 * |queue| + 2 * |running| + |results|
    }

    constructor (workerCount: nat)
      ensures At(Idle) == Init(workerCount)
    {
      this.workerCount := workerCount;
      queue, running, results, inFlight := [], multiset{}, [], {};
      currentEpoch, queueFullEvents, droppedStaleResults := 0, 0, 0;
      accepted, delivered, discarded := [], [], [];
    }

    /** A worker takes the oldest request. */
    method TakeOne(ghost mode: Mode)
      requires queue != [] && |running| < workerCount
      modifies this
      ensures At(mode) == Next(old(At(mode)), Take)
      ensures Work() < old(Work()) && droppedStaleResults == old(droppedStaleResults)
    {
      running := running + multiset{queue[0]};
      queue := queue[1..];
    }

    /** A worker hands in its result. */
    method FinishOne(r: Request, ghost mode: Mode)
      requires r in running
      modifies this
      ensures At(mode) == Next(old(At(mode)), Finish(r))
      ensures Work() < old(Work()) && droppedStaleResults == old(droppedStaleResults)
    {
      running := running - multiset{r};
      results := results + [r];
    }

    /** What the other threads may do at any moment: any number of worker steps. */
    method Workers(ghost mode: Mode) returns (ghost trace: seq<Step>)
      modifies this
      ensures At(mode) == Run(old(At(mode)), trace) && forall step :: step in trace ==> IsWorkerStep(step)
      ensures Work() <= old(Work()) && droppedStaleResults == old(droppedStaleResults)
      ensures (inFlight, currentEpoch, queueFullEvents) == old((inFlight, currentEpoch, queueFullEvents))
      ensures (accepted, delivered, discarded) == old((accepted, delivered, discarded))
      ensures old(queue) == [] ==> queue == []
    {
      trace := [];
      while *
        invariant At(mode) == Run(old(At(mode)), trace) && forall step :: step in trace ==> IsWorkerStep(step)
        invariant Work() <= old(Work()) && droppedStaleResults == old(droppedStaleResults)
        invariant (inFlight, currentEpoch, queueFullEvents) == old((inFlight, currentEpoch, queueFullEvents))
        invariant (accepted, delivered, discarded) == old((accepted, delivered, discarded))
        invariant old(queue) == [] ==> queue == []
        decreases Work()
      {
        if
        case queue != [] && |running| < workerCount =>
          TakeOne(mode);
          RunThen(old(At(mode)), trace, Take);
          trace := trace + [Take];
        case running != multiset{} =>
          var r :| r in running;
          FinishOne(r, mode);
          RunThen(old(At(mode)), trace, Finish(r));
          trace := trace + [Finish(r)];
        case true =>
          break;
      }
    }

    /** True when the chunk was queued. */
    method RequestChunk(pos: Pos) returns (queued: bool)
      modifies this
      ensures At(Idle) == Next(old(At(Idle)), Ask(pos)) && droppedStaleResults == old(droppedStaleResults)
      ensures |accepted| == |old(accepted)| + (if queued then 1 else 0)
      ensures queued ==> inFlight == old(inFlight) + {pos} && queueFullEvents == old(queueFullEvents)
      ensures !queued ==> inFlight == old(inFlight)
      ensures !queued ==> pos in inFlight || |inFlight| >= MAX_QUEUE_SIZE || queueFullEvents == old(queueFullEvents) + 1
    {
      if pos in inFlight || |inFlight| >= MAX_QUEUE_SIZE {
        return false;
      }
      if |queue| >= MAX_QUEUE_SIZE {
        queueFullEvents := queueFullEvents + 1;
        return false;
      }
      var r := Request(|accepted|, pos, currentEpoch);
      queue := queue + [r];
      accepted := accepted + [r];
      inFlight := inFlight + {pos};
      return true;
    }

    /** A request, after whatever the workers did meanwhile. */
    method RequestNext(pos: Pos) returns (queued: bool, ghost trace: seq<Step>)
      modifies this
      ensures At(Idle) == Run(old(At(Idle)), trace) && droppedStaleResults == old(droppedStaleResults)
      ensures forall step :: step in trace ==> IsAskStep(step, [pos])
      ensures |accepted| == |old(accepted)| + (if queued then 1 else 0)
      ensures old(inFlight) <= inFlight && queueFullEvents >= old(queueFullEvents)
      ensures pos in inFlight || |inFlight| >= MAX_QUEUE_SIZE || queueFullEvents > old(queueFullEvents)
    {
      ghost var start := At(Idle);
      trace := Workers(Idle);
      queued := RequestChunk(pos);
      RunThen(start, trace, Ask(pos));
      trace := trace + [Ask(pos)];
    }

    /** Each of `asked` is in flight, or was refused for lack of room. */
    ghost predicate Served(asked: set<Pos>, fullBefore: nat)
      reads this
    {
      forall p :: p in asked ==> p in inFlight || |inFlight| >= MAX_QUEUE_SIZE || queueFullEvents > fullBefore
    }

    /** Every distinct position of the batch's first part is asked for once. */
    method RequestChunks(positions: seq<Pos>) returns (queued: nat, failedFull: nat, ghost trace: seq<Step>)
      modifies this
      ensures At(Idle) == Run(old(At(Idle)), trace) && droppedStaleResults == old(droppedStaleResults)
      ensures forall step :: step in trace ==> IsAskStep(step, positions)
      ensures |accepted| == |old(accepted)| + queued
      ensures var batch := if |positions| < MAX_BATCH_REQUEST then positions else positions[..MAX_BATCH_REQUEST];
              queued + failedFull == |Elements(batch)| && Served(Elements(batch), old(queueFullEvents))
    {
      queued, failedFull, trace := 0, 0, [];
      var seen: set<Pos> := {};
      var batch := if |positions| < MAX_BATCH_REQUEST then positions else positions[..MAX_BATCH_REQUEST];
      ghost var start, full := At(Idle), queueFullEvents;
      for i := 0 to |batch|
        invariant At(Idle) == Run(start, trace) && droppedStaleResults == old(droppedStaleResults)
        invariant forall step :: step in trace ==> IsAskStep(step, positions)
        invariant |accepted| == |old(accepted)| + queued && queueFullEvents >= full
        invariant seen == Elements(batch[..i]) && queued + failedFull == |seen| && Served(seen, full)
      {
        var pos := batch[i];
        assert batch[..i + 1] == batch[..i] + [pos];
        if pos !in seen {
          seen := seen + {pos};
          ghost var before := inFlight;
          var ok; ghost var steps;
          ok, steps := RequestNext(pos);
          MoreInFlight(before, inFlight);
          RunAppend(start, trace, steps);
          trace := trace + steps;
          if ok {
            queued := queued + 1;
          } else {
            failedFull := failedFull + 1;
          }
        }
      }
      assert batch[..|batch|] == batch;
    }

    /** One available result: returned when current, dropped and counted when stale. */
    method ReceiveOneResult(received: seq<Request>) returns (received': seq<Request>)
      requires results != []
      modifies this
      ensures At(Receiving) == Next(old(At(Receiving)), ReceiveOne) && Work() < old(Work())
      ensures received <= received' && delivered == old(delivered) + received'[|received|..]
      ensures |discarded| - droppedStaleResults == old(|discarded| - droppedStaleResults)
    {
      received' := received;
      var result := results[0];
      results := results[1..];
      if result.epoch == currentEpoch {
        inFlight := inFlight - {result.pos};
        received' := received + [result];
        delivered := delivered + [result];
      } else {
        droppedStaleResults := droppedStaleResults + 1;
        discarded := discarded + [result];
      }
    }

    /** The next result if there is one, after whatever the workers did meanwhile. */
    method ReceiveNext(received: seq<Request>) returns (received': seq<Request>, more: bool, ghost trace: seq<Step>)
      modifies this
      ensures At(Receiving) == Run(old(At(Receiving)), trace) && forall step :: step in trace ==> IsReceiveStep(step)
      ensures received <= received' && delivered == old(delivered) + received'[|received|..]
      ensures currentEpoch == old(currentEpoch)
      ensures |discarded| - droppedStaleResults == old(|discarded| - droppedStaleResults)
      ensures if more then Work() < old(Work()) else results == [] && received' == received
    {
      ghost var start := At(Receiving);
      trace := Workers(Receiving);
      received', more := received, results != [];
      if more {
        received' := ReceiveOneResult(received);
        RunThen(start, trace, ReceiveOne);
        trace := trace + [ReceiveOne];
      }
    }

    /** All results available by the time the result channel is found empty. */
    method ReceiveChunks() returns (received: seq<Request>, ghost trace: seq<Step>)
      modifies this
      ensures At(Idle) == Run(old(At(Idle)), trace) && forall step :: step in trace ==> IsReceiveStep(step)
      ensures delivered == old(delivered) + received && results == [] && currentEpoch == old(currentEpoch)
      ensures droppedStaleResults == old(droppedStaleResults) + |discarded| - |old(discarded)|
    {
      ghost var start := At(Idle);
      received, trace := [], [StartReceive];
      RunOne(start, StartReceive);
      var more := true;
      while more
        invariant At(Receiving) == Run(start, trace) && forall step :: step in trace ==> IsReceiveStep(step)
        invariant delivered == old(delivered) + received && currentEpoch == old(currentEpoch)
        invariant |discarded| - droppedStaleResults == old(|discarded| - droppedStaleResults)
        invariant !more ==> results == []
        decreases more, Work()
      {
        ghost var was, steps := received, [];
        received, more, steps := ReceiveNext(received);
        assert received == was + received[|was|..];
        RunAppend(start, trace, steps);
        trace := trace + steps;
      }
      RunThen(start, trace, EndReceive);
      trace := trace + [EndReceive];
    }

    /** Discards one drained request. */
    method DrainOneRequest()
      requires queue != []
      modifies this
      ensures At(DrainingRequests) == Next(old(At(DrainingRequests)), DrainRequest) && Work() < old(Work())
    {
      discarded := discarded + [queue[0]];
      queue := queue[1..];
    }

    /** Discards one drained result. */
    method DrainOneResult()
      requires results != []
      modifies this
      ensures At(DrainingResults) == Next(old(At(DrainingResults)), DrainResult) && Work() < old(Work())
    {
      discarded := discarded + [results[0]];
      results := results[1..];
    }

    /** Empties the request channel while workers go on taking from it. */
    method DrainRequests() returns (ghost trace: seq<Step>)
      modifies this
      ensures At(DrainingResults) == Run(old(At(DrainingRequests)), trace) && queue == []
      ensures inFlight == old(inFlight) && currentEpoch == old(currentEpoch)
      ensures forall step :: step in trace ==> IsDrainStep(step)
    {
      trace := [];
      while true
        invariant At(DrainingRequests) == Run(old(At(DrainingRequests)), trace)
        invariant inFlight == old(inFlight) && currentEpoch == old(currentEpoch)
        invariant forall step :: step in trace ==> IsDrainStep(step)
        decreases Work()
      {
        ghost var others := Workers(DrainingRequests);
        RunAppend(old(At(DrainingRequests)), trace, others);
        trace := trace + others;
        if queue == [] {
          break;
        }
        DrainOneRequest();
        RunThen(old(At(DrainingRequests)), trace, DrainRequest);
        trace := trace + [DrainRequest];
      }
      RunThen(old(At(DrainingRequests)), trace, RequestsDrained);
      trace := trace + [RequestsDrained];
    }

    /** Empties the result channel while workers go on filling it. */
    method DrainResults() returns (ghost trace: seq<Step>)
      requires queue == []
      modifies this
      ensures At(Idle) == Run(old(At(DrainingResults)), trace) && queue == [] && results == []
      ensures inFlight == old(inFlight) && currentEpoch == old(currentEpoch)
      ensures forall step :: step in trace ==> IsDrainStep(step)
    {
      trace := [];
      while true
        invariant At(DrainingResults) == Run(old(At(DrainingResults)), trace) && queue == []
        invariant inFlight == old(inFlight) && currentEpoch == old(currentEpoch)
        invariant forall step :: step in trace ==> IsDrainStep(step)
        decreases Work()
      {
        ghost var others := Workers(DrainingResults);
        RunAppend(old(At(DrainingResults)), trace, others);
        trace := trace + others;
        if results == [] {
          break;
        }
        DrainOneResult();
        RunThen(old(At(DrainingResults)), trace, DrainResult);
        trace := trace + [DrainResult];
      }
      RunThen(old(At(DrainingResults)), trace, ResultsDrained);
      trace := trace + [ResultsDrained];
    }

    method BumpEpoch()
      modifies this
      ensures At(DrainingRequests) == Next(old(At(Idle)), Reset)
      ensures currentEpoch == old(currentEpoch) + 1 && inFlight == {}
    {
      currentEpoch := currentEpoch + 1;
      inFlight := {};
    }

    method Drain() returns (ghost trace: seq<Step>)
      modifies this
      ensures At(Idle) == Run(old(At(DrainingRequests)), trace) && queue == [] && results == []
      ensures inFlight == old(inFlight) && currentEpoch == old(currentEpoch)
      ensures forall step :: step in trace ==> IsDrainStep(step)
    {
      ghost var start := At(DrainingRequests);
      ghost var first := DrainRequests();
      ghost var second := DrainResults();
      RunAppend(start, first, second);
      trace := first + second;
    }

    /** A new epoch: everything requested so far is dropped, now or when its worker hands it in. */
    method ResetEpochAndClear() returns (ghost trace: seq<Step>)
      modifies this
      ensures At(Idle) == Run(old(At(Idle)), [Reset] + trace)
      ensures currentEpoch == old(currentEpoch) + 1 && inFlight == {} && queue == [] && results == []
      ensures forall step :: step in trace ==> IsDrainStep(step)
    {
      ghost var start := At(Idle);
      BumpEpoch();
      trace := Drain();
      RunAfterOne(start, Reset, trace);
    }

    method CancelChunk(pos: Pos)
      modifies this
      ensures At(Idle) == Next(old(At(Idle)), Cancel(pos)) && inFlight == old(inFlight) - {pos}
    {
      inFlight := inFlight - {pos};
    }
  }
}
