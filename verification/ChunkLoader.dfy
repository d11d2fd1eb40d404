/**
 The asynchronous chunk loader: one main thread, a bounded request channel, a pool of workers and a
 result channel. Steps of the main thread and of the workers interleave in any order.
 */
module ChunkLoaders {
  import opened Geometry

  const MAX_QUEUE_SIZE: nat := 384
  const MAX_BATCH_REQUEST: nat := 256

  /** A request that was accepted; the ticket is its place in the order of acceptance. */
  datatype Request = Request(ticket: nat, pos: Pos, epoch: nat)

  /** What the main thread is in the middle of. */
  datatype Mode = Idle | Receiving | DrainingRequests | DrainingResults

  /** Both channels, the requests workers hold, the loader's fields, and what happened so far. */
  datatype State = State(
    workerCount: nat, queue: seq<Request>, running: multiset<Request>, results: seq<Request>,
    inFlight: set<Pos>, epoch: nat, queueFull: nat, mode: Mode,
    accepted: seq<Request>, delivered: seq<Request>, discarded: seq<Request>)

  datatype Step =
    | Ask(pos: Pos)
    | Take
    | Finish(request: Request)
    | StartReceive | ReceiveOne | EndReceive
    | Reset | DrainRequest | RequestsDrained | DrainResult | ResultsDrained
    | Cancel(pos: Pos)

  function Init(workerCount: nat): State {
    State(workerCount, [], multiset{}, [], {}, 0, 0, Idle, [], [], [])
  }

  /** `request_chunk`: refused when already in flight or too much is; otherwise tried on the channel. */
  function AfterAsk(s: State, pos: Pos): State {
    if pos in s.inFlight || |s.inFlight| >= MAX_QUEUE_SIZE then s
    else if |s.queue| >= MAX_QUEUE_SIZE then s.(queueFull := s.queueFull + 1)
    else
      var r := Request(|s.accepted|, pos, s.epoch);
      s.(queue := s.queue + [r], inFlight := s.inFlight + {pos}, accepted := s.accepted + [r])
  }

  /** One result: delivered when it is of the current epoch, else dropped. */
  function AfterReceive(s: State): State
    requires s.results != []
  {
    var r := s.results[0];
    if r.epoch == s.epoch
    then s.(results := s.results[1..], inFlight := s.inFlight - {r.pos}, delivered := s.delivered + [r])
    else s.(results := s.results[1..], discarded := s.discarded + [r])
  }

  predicate Enabled(s: State, step: Step) {
    match step
    case Ask(_) => s.mode.Idle?
    case Take => s.queue != [] && |s.running| < s.workerCount
    case Finish(r) => r in s.running
    case StartReceive => s.mode.Idle?
    case ReceiveOne => s.mode.Receiving? && s.results != []
    case EndReceive => s.mode.Receiving? && s.results == []
    case Reset => s.mode.Idle?
    case DrainRequest => s.mode.DrainingRequests? && s.queue != []
    case RequestsDrained => s.mode.DrainingRequests? && s.queue == []
    case DrainResult => s.mode.DrainingResults? && s.results != []
    case ResultsDrained => s.mode.DrainingResults? && s.results == []
    case Cancel(_) => s.mode.Idle?
  }

  /** One step; a step that is not enabled changes nothing. */
  function Next(s: State, step: Step): State {
    if !Enabled(s, step) then s else
      match step
      case Ask(pos) => AfterAsk(s, pos)
      case Take => s.(queue := s.queue[1..], running := s.running + multiset{s.queue[0]})
      case Finish(r) => s.(running := s.running - multiset{r}, results := s.results + [r])
      case StartReceive => s.(mode := Receiving)
      case ReceiveOne => AfterReceive(s)
      case EndReceive => s.(mode := Idle)
      case Reset => s.(epoch := s.epoch + 1, inFlight := {}, mode := DrainingRequests)
      case DrainRequest => s.(queue := s.queue[1..], discarded := s.discarded + [s.queue[0]])
      case RequestsDrained => s.(mode := DrainingResults)
      case DrainResult => s.(results := s.results[1..], discarded := s.discarded + [s.results[0]])
      case ResultsDrained => s.(mode := Idle)
      case Cancel(pos) => s.(inFlight := s.inFlight - {pos})
  }

  function Run(s: State, steps: seq<Step>): State {
    if steps == [] then s else Next(Run(s, steps[..|steps| - 1]), steps[|steps| - 1])
  }

  lemma {:induction false} RunAppend(s: State, steps: seq<Step>, more: seq<Step>)
    ensures Run(s, steps + more) == Run(Run(s, steps), more)
  {
    if more == [] {
      assert steps + more == steps;
    } else {
      RunAppend(s, steps, more[..|more| - 1]);
      assert (steps + more)[..|steps + more| - 1] == steps + more[..|more| - 1];
    }
  }

  // ----- the history of requests, without the machinery

  /** The requests so far, those still held by a channel or a worker, and what the loader tracks. */
  datatype Ledger = Ledger(
    accepted: seq<Request>, delivered: seq<Request>, discarded: seq<Request>, held: multiset<Request>,
    inFlight: set<Pos>, epoch: nat)

  datatype Event = Silent | Accept(pos: Pos) | Deliver(r: Request) | Discard(r: Request) | Bump | Forget(pos: Pos)

  function Record(l: Ledger, e: Event): Ledger {
    match e
    case Silent => l
    case Accept(pos) =>
      var r := Request(|l.accepted|, pos, l.epoch);
      l.(accepted := l.accepted + [r], held := l.held + multiset{r}, inFlight := l.inFlight + {pos})
    case Deliver(r) => l.(held := l.held - multiset{r}, delivered := l.delivered + [r], inFlight := l.inFlight - {r.pos})
    case Discard(r) => l.(held := l.held - multiset{r}, discarded := l.discarded + [r])
    case Bump => l.(epoch := l.epoch + 1, inFlight := {})
    case Forget(pos) => l.(inFlight := l.inFlight - {pos})
  }

  /** Only current requests are delivered, only stale ones discarded, and nothing tracked is accepted again. */
  predicate Possible(l: Ledger, e: Event) {
    match e
    case Accept(pos) => pos !in l.inFlight && |l.inFlight| < MAX_QUEUE_SIZE
    case Deliver(r) => r in l.held && r.epoch == l.epoch
    case Discard(r) => r in l.held && r.epoch < l.epoch
    case _ => true
  }

  /** Every accepted request has its own ticket, is in exactly one place, and only stale ones are discarded. */
  ghost predicate Conserved(l: Ledger) {
    && (forall i :: 0 <= i < |l.accepted| ==> l.accepted[i].ticket == i)
    && multiset(l.accepted) == multiset(l.delivered) + multiset(l.discarded) + l.held
    && (forall r :: r in l.accepted ==> r.epoch <= l.epoch)
    && (forall r :: r in l.discarded ==> r.epoch < l.epoch)
  }

  lemma WasAccepted(l: Ledger, r: Request)
    requires Conserved(l) && (r in l.held || r in l.delivered || r in l.discarded)
    ensures r.ticket < |l.accepted| && l.accepted[r.ticket] == r
  {
    assert r in multiset(l.accepted);
  }

  lemma {:induction false} TicketOnce(accepted: seq<Request>, r: Request)
    requires forall i :: 0 <= i < |accepted| ==> accepted[i].ticket == i
    ensures multiset(accepted)[r] <= 1
  {
    if accepted != [] {
      var rest := accepted[..|accepted| - 1];
      TicketOnce(rest, r);
      assert accepted == rest + [accepted[|accepted| - 1]];
      if r in rest {
        assert r.ticket < |rest|;
      }
    }
  }

  /** Delivered, discarded and held exclude each other, and nothing is there twice. */
  lemma ExactlyOnce(l: Ledger, r: Request)
    requires Conserved(l) && (r in l.accepted || r in l.held)
    ensures multiset(l.delivered)[r] + multiset(l.discarded)[r] + l.held[r] == 1
  {
    TicketOnce(l.accepted, r);
    assert r in multiset(l.accepted);
  }

  lemma AcceptConserves(l: Ledger, pos: Pos)
    requires Conserved(l)
    ensures Conserved(Record(l, Accept(pos)))
  {}

  lemma SettleConserves(l: Ledger, e: Event)
    requires Conserved(l) && Possible(l, e) && (e.Deliver? || e.Discard?)
    ensures Conserved(Record(l, e))
  {}

  lemma EventConserves(l: Ledger, e: Event)
    requires Conserved(l) && Possible(l, e)
    ensures Conserved(Record(l, e))
  {
    match e
    case Accept(pos) => AcceptConserves(l, pos);
    case Deliver(_) => SettleConserves(l, e);
    case Discard(_) => SettleConserves(l, e);
    case _ =>
  }

  /** Positions of the requests of this epoch that are still held. */
  function Outstanding(l: Ledger): set<Pos> {
    set r | r in l.held && r.epoch == l.epoch :: r.pos
  }

  /** The in-flight set is exactly what is outstanding, each position once. */
  ghost predicate Tracked(l: Ledger) {
    && l.inFlight == Outstanding(l) && |l.inFlight| <= MAX_QUEUE_SIZE
    && (forall r, q :: r in l.held && q in l.held && r.epoch == l.epoch == q.epoch && r.pos == q.pos ==> r == q)
  }

  lemma AcceptKeepsTracked(l: Ledger, pos: Pos)
    requires Tracked(l) && Possible(l, Accept(pos))
    ensures Tracked(Record(l, Accept(pos)))
  {}

  lemma DeliverKeepsTracked(l: Ledger, r: Request)
    requires Conserved(l) && Tracked(l) && Possible(l, Deliver(r))
    ensures Tracked(Record(l, Deliver(r)))
  {
    var after := Record(l, Deliver(r));
    ExactlyOnce(l, r);
    assert forall q :: q in after.held <==> q in l.held && q != r;
    assert Outstanding(after) == l.inFlight - {r.pos};
  }

  lemma EventKeepsTracked(l: Ledger, e: Event)
    requires Conserved(l) && Tracked(l) && Possible(l, e) && !e.Forget?
    ensures Tracked(Record(l, e))
  {
    match e
    case Silent =>
    case Accept(pos) => AcceptKeepsTracked(l, pos);
    case Deliver(r) => DeliverKeepsTracked(l, r);
    case Discard(r) =>
      assert forall q :: q in Record(l, e).held ==> q in l.held;
      assert Outstanding(Record(l, e)) == Outstanding(l);
    case Bump =>
      forall r | r in l.held
        ensures r.epoch <= l.epoch
      {
        WasAccepted(l, r);
      }
  }

  // ----- the machinery refines the history

  function LedgerOf(s: State): Ledger {
    Ledger(s.accepted, s.delivered, s.discarded, HeldBy(s.queue, s.running, s.results), s.inFlight, s.epoch)
  }

  function EventOf(s: State, step: Step): Event {
    if !Enabled(s, step) then Silent else
      match step
      case Ask(pos) =>
        if pos in s.inFlight || |s.inFlight| >= MAX_QUEUE_SIZE || |s.queue| >= MAX_QUEUE_SIZE then Silent else Accept(pos)
      case ReceiveOne => if s.results[0].epoch == s.epoch then Deliver(s.results[0]) else Discard(s.results[0])
      case Reset => Bump
      case DrainRequest => Discard(s.queue[0])
      case DrainResult => Discard(s.results[0])
      case Cancel(pos) => Forget(pos)
      case _ => Silent
  }

  /** Where requests of which epoch can be while the main thread is in each mode. */
  ghost predicate InMode(s: State) {
    && (s.mode.Idle? || s.mode.Receiving? ==> forall r :: r in s.queue ==> r.epoch == s.epoch)
    && (s.mode.DrainingRequests? ==> forall r :: r in s.queue ==> r.epoch < s.epoch)
    && (s.mode.DrainingRequests? || s.mode.DrainingResults? ==>
          (forall r :: r in s.running ==> r.epoch < s.epoch) && (forall r :: r in s.results ==> r.epoch < s.epoch))
    && (s.mode.DrainingResults? ==> s.queue == [])
  }

  ghost predicate Sound(s: State) {
    Conserved(LedgerOf(s)) && InMode(s)
  }

  lemma Pop(s: seq<Request>)
    requires s != []
    ensures multiset(s) == multiset{s[0]} + multiset(s[1..])
  {
    assert s == [s[0]] + s[1..];
  }

  lemma StepIsPossible(s: State, step: Step)
    requires Sound(s)
    ensures Possible(LedgerOf(s), EventOf(s, step))
  {
    if step.ReceiveOne? && Enabled(s, step) {
      assert s.results[0] in LedgerOf(s).held;
      WasAccepted(LedgerOf(s), s.results[0]);
    }
  }

  function HeldBy(queue: seq<Request>, running: multiset<Request>, results: seq<Request>): multiset<Request> {
    multiset(queue) + running + multiset(results)
  }

  lemma TakenFromQueue(queue: seq<Request>, running: multiset<Request>, results: seq<Request>)
    requires queue != []
    ensures HeldBy(queue[1..], running + multiset{queue[0]}, results) == HeldBy(queue, running, results)
    ensures HeldBy(queue[1..], running, results) == HeldBy(queue, running, results) - multiset{queue[0]}
  {
    Pop(queue);
  }

  lemma ReceivedFromWorker(queue: seq<Request>, running: multiset<Request>, results: seq<Request>)
    requires results != []
    ensures HeldBy(queue, running, results[1..]) == HeldBy(queue, running, results) - multiset{results[0]}
  {
    Pop(results);
  }

  lemma AskRefines(s: State, pos: Pos)
    requires Enabled(s, Ask(pos))
    ensures LedgerOf(Next(s, Ask(pos))) == Record(LedgerOf(s), EventOf(s, Ask(pos)))
  {}

  lemma TakeRefines(s: State)
    requires Enabled(s, Take)
    ensures LedgerOf(Next(s, Take)) == Record(LedgerOf(s), EventOf(s, Take))
  {
    TakenFromQueue(s.queue, s.running, s.results);
  }

  lemma FinishRefines(s: State, r: Request)
    requires Enabled(s, Finish(r))
    ensures LedgerOf(Next(s, Finish(r))) == Record(LedgerOf(s), EventOf(s, Finish(r)))
  {}

  lemma ReceiveRefines(s: State)
    requires Enabled(s, ReceiveOne)
    ensures LedgerOf(Next(s, ReceiveOne)) == Record(LedgerOf(s), EventOf(s, ReceiveOne))
  {
    ReceivedFromWorker(s.queue, s.running, s.results);
  }

  lemma DrainRequestRefines(s: State)
    requires Enabled(s, DrainRequest)
    ensures LedgerOf(Next(s, DrainRequest)) == Record(LedgerOf(s), EventOf(s, DrainRequest))
  {
    TakenFromQueue(s.queue, s.running, s.results);
  }

  lemma DrainResultRefines(s: State)
    requires Enabled(s, DrainResult)
    ensures LedgerOf(Next(s, DrainResult)) == Record(LedgerOf(s), EventOf(s, DrainResult))
  {
    ReceivedFromWorker(s.queue, s.running, s.results);
  }

  lemma StepRefines(s: State, step: Step)
    ensures LedgerOf(Next(s, step)) == Record(LedgerOf(s), EventOf(s, step))
  {
    if Enabled(s, step) {
      match step
      case Ask(pos) => AskRefines(s, pos);
      case Take => TakeRefines(s);
      case Finish(r) => FinishRefines(s, r);
      case ReceiveOne => ReceiveRefines(s);
      case DrainRequest => DrainRequestRefines(s);
      case DrainResult => DrainResultRefines(s);
      case _ =>
    }
  }

  lemma ResetKeepsMode(s: State)
    requires Sound(s) && s.mode.Idle?
    ensures InMode(Next(s, Reset))
  {
    forall r | r in s.queue || r in s.running || r in s.results
      ensures r.epoch <= s.epoch
    {
      assert r in LedgerOf(s).held;
      WasAccepted(LedgerOf(s), r);
    }
  }

  lemma StepKeepsMode(s: State, step: Step)
    requires InMode(s) && !step.Reset?
    ensures InMode(Next(s, step))
  {}

  lemma StepKeepsSound(s: State, step: Step)
    requires Sound(s)
    ensures Sound(Next(s, step))
  {
    StepIsPossible(s, step);
    StepRefines(s, step);
    EventConserves(LedgerOf(s), EventOf(s, step));
    if !step.Reset? {
      StepKeepsMode(s, step);
    } else if s.mode.Idle? {
      ResetKeepsMode(s);
    }
  }

  lemma {:induction false} SoundOverRun(s: State, steps: seq<Step>)
    requires Sound(s)
    ensures Sound(Run(s, steps))
  {
    if steps != [] {
      SoundOverRun(s, steps[..|steps| - 1]);
      StepKeepsSound(Run(s, steps[..|steps| - 1]), steps[|steps| - 1]);
    }
  }

  /** Every run from the start, whatever the interleaving: each accepted request is in exactly one place. */
  lemma EveryRunConserves(workerCount: nat, steps: seq<Step>)
    ensures Sound(Run(Init(workerCount), steps))
    ensures var l := LedgerOf(Run(Init(workerCount), steps));
            forall r :: r in l.accepted ==> multiset(l.delivered)[r] + multiset(l.discarded)[r] + l.held[r] == 1
  {
    SoundOverRun(Init(workerCount), steps);
    var l := LedgerOf(Run(Init(workerCount), steps));
    forall r | r in l.accepted
      ensures multiset(l.delivered)[r] + multiset(l.discarded)[r] + l.held[r] == 1
    {
      ExactlyOnce(l, r);
    }
  }

  // ----- the in-flight set

  /** Distinct positions in the queue: no more requests queued than positions in flight. */
  lemma {:induction false} QueueFits(queue: seq<Request>, inFlight: set<Pos>)
    requires forall r :: r in queue ==> r.pos in inFlight
    requires forall i, j :: 0 <= i < j < |queue| ==> queue[i].pos != queue[j].pos
    ensures |queue| <= |inFlight|
  {
    if queue != [] {
      var last := queue[|queue| - 1];
      QueueFits(queue[..|queue| - 1], inFlight - {last.pos});
    }
  }

  lemma TwiceInSequence(s: seq<Request>, i: int, j: int)
    requires 0 <= i < j < |s| && s[i] == s[j]
    ensures multiset(s)[s[i]] >= 2
  {
    assert s == s[..j] + [s[j]] + s[j + 1..];
    assert s[i] in s[..j];
  }

  lemma QueueHasRoom(s: State)
    requires Sound(s) && Tracked(LedgerOf(s)) && s.mode.Idle?
    ensures |s.queue| <= |s.inFlight|
  {
    forall r | r in s.queue
      ensures r.pos in s.inFlight
    {
      assert r in LedgerOf(s).held;
    }
    forall i, j | 0 <= i < j < |s.queue|
      ensures s.queue[i].pos != s.queue[j].pos
    {
      assert s.queue[i] in LedgerOf(s).held && s.queue[j] in LedgerOf(s).held;
      ExactlyOnce(LedgerOf(s), s.queue[i]);
      if s.queue[i] == s.queue[j] {
        TwiceInSequence(s.queue, i, j);
      }
    }
    QueueFits(s.queue, s.inFlight);
  }

  lemma QueueNeverFull(s: State, step: Step)
    requires Sound(s) && Tracked(LedgerOf(s))
    ensures Next(s, step).queueFull == s.queueFull
  {
    if step.Ask? && s.mode.Idle? {
      QueueHasRoom(s);
    }
  }

  lemma StepKeepsTracked(s: State, step: Step)
    requires Sound(s) && Tracked(LedgerOf(s)) && !step.Cancel?
    ensures Tracked(LedgerOf(Next(s, step))) && Next(s, step).queueFull == s.queueFull
  {
    StepIsPossible(s, step);
    StepRefines(s, step);
    EventKeepsTracked(LedgerOf(s), EventOf(s, step));
    QueueNeverFull(s, step);
  }

  /**
   Without cancellations: in every run the in-flight set holds exactly the positions of the current
   epoch's outstanding requests, no position twice, and the bounded channel never refuses.
   */
  lemma {:induction false} InFlightIsOutstanding(workerCount: nat, steps: seq<Step>)
    requires forall step :: step in steps ==> !step.Cancel?
    ensures var s := Run(Init(workerCount), steps); Tracked(LedgerOf(s)) && s.queueFull == 0
  {
    if steps != [] {
      InFlightIsOutstanding(workerCount, steps[..|steps| - 1]);
      SoundOverRun(Init(workerCount), steps[..|steps| - 1]);
      StepKeepsTracked(Run(Init(workerCount), steps[..|steps| - 1]), steps[|steps| - 1]);
    }
  }

  /** When all work is done, nothing is in flight and every request of this epoch was delivered once. */
  lemma QuiescentIsComplete(workerCount: nat, steps: seq<Step>)
    requires forall step :: step in steps ==> !step.Cancel?
    requires LedgerOf(Run(Init(workerCount), steps)).held == multiset{}
    ensures var s := Run(Init(workerCount), steps);
            && s.inFlight == {}
            && forall r :: r in s.accepted && r.epoch == s.epoch ==> multiset(s.delivered)[r] == 1
  {
    var s := Run(Init(workerCount), steps);
    InFlightIsOutstanding(workerCount, steps);
    EveryRunConserves(workerCount, steps);
    forall r | r in s.accepted && r.epoch == s.epoch
      ensures r !in s.discarded
    {}
  }

  // ----- resets

  /** Requests with a ticket below n are stale, and none of them was delivered after the first k deliveries. */
  ghost predicate StaleSince(l: Ledger, n: nat, k: nat) {
    && n <= |l.accepted| && k <= |l.delivered|
    && (forall i :: 0 <= i < n ==> l.accepted[i].epoch < l.epoch)
    && (forall i :: k <= i < |l.delivered| ==> l.delivered[i].ticket >= n)
  }

  lemma EventKeepsStale(l: Ledger, e: Event, n: nat, k: nat)
    requires Conserved(l) && Possible(l, e) && StaleSince(l, n, k)
    ensures StaleSince(Record(l, e), n, k) && l.delivered <= Record(l, e).delivered
  {
    if e.Deliver? {
      WasAccepted(l, e.r);
    }
  }

  lemma {:induction false} StaysStale(s: State, steps: seq<Step>, n: nat, k: nat)
    requires Sound(s) && StaleSince(LedgerOf(s), n, k)
    ensures StaleSince(LedgerOf(Run(s, steps)), n, k) && s.delivered <= Run(s, steps).delivered
  {
    if steps != [] {
      var before, step := Run(s, steps[..|steps| - 1]), steps[|steps| - 1];
      StaysStale(s, steps[..|steps| - 1], n, k);
      SoundOverRun(s, steps[..|steps| - 1]);
      StepIsPossible(before, step);
      StepRefines(before, step);
      EventKeepsStale(LedgerOf(before), EventOf(before, step), n, k);
    }
  }

  /** Nothing requested before a reset is delivered after it, in any continuation. */
  lemma NoStaleDelivery(s: State, steps: seq<Step>)
    requires Sound(s) && s.mode.Idle?
    ensures var end := Run(Next(s, Reset), steps);
            && s.delivered <= end.delivered
            && forall i :: |s.delivered| <= i < |end.delivered| ==> end.delivered[i].ticket >= |s.accepted|
  {
    StepKeepsSound(s, Reset);
    assert forall i :: 0 <= i < |s.accepted| ==> s.accepted[i] in s.accepted;
    StaysStale(Next(s, Reset), steps, |s.accepted|, |s.delivered|);
  }

  // ----- cancellation

  /** While the epoch stands, an outstanding request is delivered or still held, cancelled or not. */
  lemma NotIgnoredBeforeReset(s: State, steps: seq<Step>, r: Request)
    requires Sound(s) && r in LedgerOf(s).held && r.epoch == s.epoch && Run(s, steps).epoch == s.epoch
    ensures r in Run(s, steps).delivered <==> r !in LedgerOf(Run(s, steps)).held
  {
    SoundOverRun(s, steps);
    WasAccepted(LedgerOf(s), r);
    StaysAccepted(s, steps);
    var end := LedgerOf(Run(s, steps));
    assert r in end.accepted;
    ExactlyOnce(end, r);
    assert r !in end.discarded;
    assert r in end.delivered <==> multiset(end.delivered)[r] == 1;
  }

  lemma {:induction false} StaysAccepted(s: State, steps: seq<Step>)
    ensures s.accepted <= Run(s, steps).accepted
  {
    if steps != [] {
      StaysAccepted(s, steps[..|steps| - 1]);
      var before, step := Run(s, steps[..|steps| - 1]), steps[|steps| - 1];
      StepRefines(before, step);
      assert LedgerOf(before).accepted <= Record(LedgerOf(before), EventOf(before, step)).accepted;
    }
  }

  /** A request, cancelled or not, is ignored exactly when it is still held at the next reset. */
  lemma IgnoredIffHeldAtReset(s: State, steps: seq<Step>, more: seq<Step>, r: Request)
    requires Sound(s) && r in LedgerOf(s).held && r.epoch == s.epoch
    requires var mid := Run(s, steps); mid.epoch == s.epoch && mid.mode.Idle?
    ensures var mid := Run(s, steps);
            r !in Run(Next(mid, Reset), more).delivered <==> r in LedgerOf(mid).held
  {
    var mid := Run(s, steps);
    SoundOverRun(s, steps);
    NotIgnoredBeforeReset(s, steps, r);
    NoStaleDelivery(mid, more);
    if r in LedgerOf(mid).held {
      WasAccepted(LedgerOf(mid), r);
      var end := Run(Next(mid, Reset), more);
      forall i | 0 <= i < |end.delivered|
        ensures end.delivered[i] != r
      {
        if i < |mid.delivered| {
          assert end.delivered[i] == mid.delivered[i] && mid.delivered[i] in mid.delivered;
        }
      }
    }
  }

  /** The result of a cancelled request is delivered, and its position can be requested and held twice. */
  lemma CancelledIsDelivered(pos: Pos)
    ensures var r := Request(0, pos, 0);
            var cancelled := Next(Next(Init(2), Ask(pos)), Cancel(pos));
            && Next(Next(Next(Next(cancelled, Take), Finish(r)), StartReceive), ReceiveOne).delivered == [r]
            && Next(cancelled, Ask(pos)).queue == [r, Request(1, pos, 0)]
  {
    var r := Request(0, pos, 0);
    var cancelled := Next(Next(Init(2), Ask(pos)), Cancel(pos));
    assert Next(Init(2), Ask(pos)) == Init(2).(queue := [r], inFlight := {pos}, accepted := [r]);
    assert cancelled == Init(2).(queue := [r], accepted := [r]);
    assert Next(cancelled, Take) == Init(2).(running := multiset{r}, accepted := [r]);
    FinishAlone(Next(cancelled, Take), r);
  }

  lemma FinishAlone(s: State, r: Request)
    requires s.mode.Idle? && s.running == multiset{r} && s.results == [] && s.delivered == [] && r.epoch == s.epoch
    ensures Next(Next(Next(s, Finish(r)), StartReceive), ReceiveOne).delivered == [r]
  {}
}
