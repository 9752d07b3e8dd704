/** Several connections behind one dispatch gate: a request that is complete while a handler is
    on the stack joins the gate's queue, and the gate lets the oldest one through when no
    handler is. */
module HttpSystem {
  import opened Bytes
  import opened Wrappers
  import opened HttpMachine
  import opened HttpSplit
  import opened HttpReference
  import opened HttpPipelining
  import opened HttpParked
  import Gate = DispatchGate

  /** A connection with the steps it has taken. */
  datatype Link = Link(gated: Gated, steps: seq<GatedStep>)

  /** `running` is the connection whose handler is on the stack; `log` is the history of the
      gate. */
  datatype System =
    System(links: map<nat, Link>, lastId: nat, running: Option<nat>, queue: seq<nat>, log: seq<Gate.Event>)

  const EMPTY: System := System(map[], 0, None, [], [])

  datatype SystemStep =
    | Accept
    | Deliver(id: nat, bytes: string)
    | Write(id: nat)      // a handler writes its next piece
    | Finish(id: nat)     // a response is complete, its handler having returned
    | Return              // the running handler returns
    | Resume              // the gate takes the oldest request in its queue
    | Destroy(id: nat)

  /** The handlers, one for each connection. */
  type Handlers = nat -> Handler

  predicate Busy(c: Conn) { c.Conn? && c.pending.Some? }

  /** The step hands a new request to the gate. */
  predicate Hands(g: Gated, d: Gated, s: GatedStep) {
    match s
    case Arrive(_, _) => !Busy(g.conn) && Busy(d.conn)
    case Complete(_) => Busy(g.conn) && !g.deferred && g.conn.pending.value.pieces == [] && Busy(d.conn)
    case _ => false
  }

  function Moved(link: Link, h: Handler, s: GatedStep): Link
    requires Sound(link.gated)
  {
    Link(AdvanceGated(link.gated, h, s), link.steps + [s])
  }

  /** A connection takes a step in which a request may become complete. */
  function Offer(s: System, hs: Handlers, id: nat, step: GatedStep): System
    requires id in s.links && Sound(s.links[id].gated)
  {
    var link := Moved(s.links[id], hs(id), step);
    Placed(s, id, link, Hands(s.links[id].gated, link.gated, step))
  }

  /** The connection as it is after the step; a request it hands over is run or parked. */
  function Placed(s: System, id: nat, link: Link, hands: bool): System {
    var t := s.(links := s.links[id := link]);
    if !hands then t
    else if s.running.None? then t.(running := Some(id), log := s.log + [Gate.Enter(id)])
    else t.(queue := s.queue + [id], log := s.log + [Gate.Parked(id)])
  }

  /** `TakeNext` and `dispatchDeferred`. */
  function LetThrough(s: System, hs: Handlers): System
    requires s.queue != [] && forall id :: id in s.links ==> Sound(s.links[id].gated)
  {
    var id := s.queue[0];
    var t := s.(queue := s.queue[1..]);
    if id !in s.links then t.(log := s.log + [Gate.Taken(id, false)])
    else t.(links := s.links[id := Moved(s.links[id], hs(id), GatedStep.Resume)], running := Some(id),
            log := (s.log + [Gate.Taken(id, true)]) + [Gate.Enter(id)])
  }

  function Do(s: System, hs: Handlers, step: SystemStep): System
    requires forall id :: id in s.links ==> Sound(s.links[id].gated)
  {
    match step
    case Accept => s.(links := s.links[s.lastId + 1 := Link(OPENED, [])], lastId := s.lastId + 1)
    case Deliver(id, bytes) => if id in s.links then Offer(s, hs, id, Arrive(bytes, s.running.None?)) else s
    case Write(id) => if id in s.links then s.(links := s.links[id := Moved(s.links[id], hs(id), Emit)]) else s
    case Finish(id) =>
      if id in s.links && s.running != Some(id) then Offer(s, hs, id, Complete(s.running.None?)) else s
    case Return =>
      if s.running.None? then s else s.(running := None, log := s.log + [Gate.Leave(s.running.value)])
    case Resume => if s.running.None? && s.queue != [] then LetThrough(s, hs) else s
    case Destroy(id) => s.(links := s.links - {id})
  }

  // ---- what every step keeps -----------------------------------------------------------------

  predicate LinkGood(link: Link, h: Handler) {
    Sound(link.gated) && link.gated == RunGated(OPENED, h, link.steps)
  }

  /** The gate's history is lawful, and agrees with what is running and what waits. */
  predicate GateGood(s: System) {
    && Gate.PhaseOf(s.log) == (if s.running.None? then Gate.Idle else Gate.Running(s.running.value))
    && Gate.ParkedIds(s.log) == Gate.TakenIds(s.log) + s.queue
  }

  /** Every connection has done what its own steps make of it. */
  ghost predicate LinksGood(s: System, hs: Handlers) {
    forall id :: id in s.links ==> id <= s.lastId && LinkGood(s.links[id], hs(id))
  }

  /** A connection waits exactly when it is in the queue, and it is there once. */
  ghost predicate QueueGood(s: System) {
    && Gate.NoDuplicates(s.queue) && (forall id :: id in s.queue ==> id <= s.lastId)
    && forall id :: id in s.links ==> (s.links[id].gated.deferred <==> id in s.queue)
  }

  ghost predicate Good(s: System, hs: Handlers) { GateGood(s) && LinksGood(s, hs) && QueueGood(s) }

  lemma {:induction false} RunMore(g: Gated, h: Handler, steps: seq<GatedStep>, s: GatedStep)
    requires Sound(g)
    ensures RunGated(g, h, steps + [s]) == AdvanceGated(RunGated(g, h, steps), h, s)
    decreases |steps|
  {
    if steps == [] {
      assert steps + [s] == [s] && [s][1..] == [];
    } else {
      assert (steps + [s])[1..] == steps[1..] + [s];
      StepAgrees(g, h, steps[0]);
      RunMore(AdvanceGated(g, h, steps[0]), h, steps[1..], s);
    }
  }

  lemma MovedGood(link: Link, h: Handler, s: GatedStep)
    requires LinkGood(link, h)
    ensures LinkGood(Moved(link, h, s), h)
  {
    StepAgrees(link.gated, h, s);
    RunMore(OPENED, h, link.steps, s);
  }

  /** A connection begins to wait exactly when it hands over a request and the gate is shut. */
  lemma WaitsExactly(g: Gated, h: Handler, bytes: string, open: bool)
    requires Sound(g)
    ensures var s := Arrive(bytes, open); var d := AdvanceGated(g, h, s);
      d.deferred <==> g.deferred || (!open && Hands(g, d, s))
    ensures var s := Complete(open); var d := AdvanceGated(g, h, s);
      d.deferred <==> g.deferred || (!open && Hands(g, d, s))
  {
  }

  lemma WaitingHands(g: Gated, h: Handler, s: GatedStep)
    requires Sound(g) && g.deferred
    ensures !Hands(g, AdvanceGated(g, h, s), s)
  {
  }

  lemma OfferGood(s: System, hs: Handlers, id: nat, step: GatedStep)
    requires Good(s, hs) && id in s.links
    requires (step.Arrive? || step.Complete?) && step.open == s.running.None?
    ensures Good(Offer(s, hs, id, step), hs)
  {
    var link := Moved(s.links[id], hs(id), step);
    MovedGood(s.links[id], hs(id), step);
    OfferWaits(s.links[id].gated, hs(id), step);
    PlacedGood(s, hs, id, link, Hands(s.links[id].gated, link.gated, step));
  }

  lemma OfferWaits(g: Gated, h: Handler, step: GatedStep)
    requires Sound(g) && (step.Arrive? || step.Complete?)
    ensures var d := AdvanceGated(g, h, step);
      (d.deferred <==> g.deferred || (!step.open && Hands(g, d, step))) && !(g.deferred && Hands(g, d, step))
  {
    if g.deferred { WaitingHands(g, h, step); }
    match step
    case Arrive(bytes, open) => WaitsExactly(g, h, bytes, open);
    case Complete(open) => WaitsExactly(g, h, "", open);
  }

  lemma PlacedGood(s: System, hs: Handlers, id: nat, link: Link, hands: bool)
    requires Good(s, hs) && id in s.links && LinkGood(link, hs(id))
    requires link.gated.deferred <==> s.links[id].gated.deferred || (s.running.Some? && hands)
    requires !(s.links[id].gated.deferred && hands)
    ensures Good(Placed(s, id, link, hands), hs)
  {
    Gate.Snoc(s.log, Gate.Enter(id));
    Gate.Snoc(s.log, Gate.Parked(id));
    PlacedQueue(s, id, link, hands);
  }

  lemma PlacedQueue(s: System, id: nat, link: Link, hands: bool)
    requires QueueGood(s) && id in s.links && id <= s.lastId
    requires link.gated.deferred <==> s.links[id].gated.deferred || (s.running.Some? && hands)
    requires !(s.links[id].gated.deferred && hands)
    ensures QueueGood(Placed(s, id, link, hands))
  {
    var t := Placed(s, id, link, hands);
    assert forall x :: x in t.queue <==> x in s.queue || (s.running.Some? && hands && x == id);
  }

  lemma LetThroughGood(s: System, hs: Handlers)
    requires Good(s, hs) && s.running.None? && s.queue != []
    ensures Good(LetThrough(s, hs), hs)
  {
    var id := s.queue[0];
    if id in s.links { MovedGood(s.links[id], hs(id), GatedStep.Resume); }
    TakenOne(s.log, s.queue, id in s.links);
    LetThroughQueue(s, hs);
  }

  lemma TakenOne(log: seq<Gate.Event>, queue: seq<nat>, alive: bool)
    requires queue != [] && Gate.ParkedIds(log) == Gate.TakenIds(log) + queue && Gate.PhaseOf(log) == Gate.Idle
    ensures var now := if alive then (log + [Gate.Taken(queue[0], true)]) + [Gate.Enter(queue[0])]
                       else log + [Gate.Taken(queue[0], false)];
      && Gate.ParkedIds(now) == Gate.TakenIds(now) + queue[1..]
      && Gate.PhaseOf(now) == if alive then Gate.Running(queue[0]) else Gate.Idle
  {
    assert queue == [queue[0]] + queue[1..];
    Gate.Snoc(log, Gate.Taken(queue[0], alive));
    Gate.Snoc(log + [Gate.Taken(queue[0], true)], Gate.Enter(queue[0]));
  }

  lemma LetThroughQueue(s: System, hs: Handlers)
    requires QueueGood(s) && LinksGood(s, hs) && s.queue != []
    ensures QueueGood(LetThrough(s, hs))
  {
    var id, rest := s.queue[0], s.queue[1..];
    assert id !in rest && forall x :: x in s.queue <==> x == id || x in rest;
  }

  lemma DoGood(s: System, hs: Handlers, step: SystemStep)
    requires Good(s, hs)
    ensures Good(Do(s, hs, step), hs)
  {
    match step
    case Accept => assert LinkGood(Link(OPENED, []), hs(s.lastId + 1));
    case Deliver(id, bytes) => if id in s.links { OfferGood(s, hs, id, Arrive(bytes, s.running.None?)); }
    case Write(id) => if id in s.links { MovedGood(s.links[id], hs(id), Emit); }
    case Finish(id) =>
      if id in s.links && s.running != Some(id) { OfferGood(s, hs, id, Complete(s.running.None?)); }
    case Return => if s.running.Some? { Gate.Snoc(s.log, Gate.Leave(s.running.value)); }
    case Resume => if s.running.None? && s.queue != [] { LetThroughGood(s, hs); }
    case Destroy(id) =>
  }

  function RunSystem(s: System, hs: Handlers, steps: seq<SystemStep>): System
    requires Good(s, hs)
    decreases |steps|
  {
    if steps == [] then s
    else
      DoGood(s, hs, steps[0]);
      RunSystem(Do(s, hs, steps[0]), hs, steps[1..])
  }

  lemma {:induction false} RunGood(s: System, hs: Handlers, steps: seq<SystemStep>)
    requires Good(s, hs)
    ensures Good(RunSystem(s, hs, steps), hs)
    decreases |steps|
  {
    if steps != [] {
      DoGood(s, hs, steps[0]);
      RunGood(Do(s, hs, steps[0]), hs, steps[1..]);
    }
  }

  lemma EmptyGood(hs: Handlers)
    ensures Good(EMPTY, hs)
  {
  }

  /** Over every run of the whole: two handler frames never overlap, whatever connections they
      belong to; requests are let through in the order in which they were parked; and every
      connection's history is a prefix of the reference reading of the bytes delivered to it. */
  lemma EveryRun(hs: Handlers, steps: seq<SystemStep>) returns (s: System)
    ensures Good(EMPTY, hs) && s == RunSystem(EMPTY, hs, steps)
    ensures forall i: nat, j: nat :: i < j < |s.log| && s.log[i].Enter? && s.log[j].Enter? ==>
      exists k :: i < k < j && s.log[k] == Gate.Leave(s.log[i].id)
    ensures Gate.ParkedIds(s.log) == Gate.TakenIds(s.log) + s.queue
    ensures forall id :: id in s.links ==> Follows(s.links[id], hs(id))
  {
    EmptyGood(hs);
    RunGood(EMPTY, hs, steps);
    s := RunSystem(EMPTY, hs, steps);
    forall i: nat, j: nat | i < j < |s.log| && s.log[i].Enter? && s.log[j].Enter?
      ensures exists k :: i < k < j && s.log[k] == Gate.Leave(s.log[i].id)
    {
      Gate.FramesDoNotNest(s.log, i, j);
    }
    forall id | id in s.links ensures Follows(s.links[id], hs(id)) {
      if !LongInStream(Arrived(s.links[id].steps), hs(id), true, []) {
        GatedFollowsReference(hs(id), s.links[id].steps);
      }
    }
  }

  /** What the connection has done is on its way to the reference reading. */
  predicate Follows(link: Link, h: Handler) {
    !LongInStream(Arrived(link.steps), h, true, []) ==>
      link.gated.conn.trace <= Reference(Arrived(link.steps), h, true, [])
  }

  /** So every connection keeps the order of its requests, with the gate's answers those of the
      one queue; a request that waits there is unanswered, to the last byte. */
  lemma EveryOrder(s: System, hs: Handlers, id: nat, texts: Texts) returns (t: Transcript)
    requires Good(s, hs) && id in s.links
    ensures var c := s.links[id].gated.conn;
      && Render(t) == c.trace && Proper(t)
      && Output(c.trace, texts) == AnswersBytes(t.answers, texts) + TailBytes(t.tail, texts)
      && (id in s.queue ==> t.tail.Open? && t.tail.pieces == [])
  {
    t := GatedOrder(hs(id), s.links[id].steps, texts);
  }
}
