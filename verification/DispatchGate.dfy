/** `HandlerDispatchGate`: request handlers never nest. The environment of a run is
    a finite tape of events; a running handler is the stretch of the tape up to its
    `Return`, so every finite run of the re-entrant code is some tape. */
module DispatchGate {
  import opened Sequences

  /** What can happen next: a connection is accepted, holds a complete request, has
      its response completed, or is destroyed; or the running handler returns. */
  datatype Token = Open | Arrive(id: nat) | Complete(id: nat) | Destroy(id: nat) | Return

  /** One registered connection. */
  datatype Link = Link(busy: bool, deferred: bool)

  datatype Event =
    | Enter(id: nat)                  // a handler frame is pushed
    | Leave(id: nat)                  // and popped
    | Parked(id: nat)
    | Taken(id: nat, alive: bool)     // a parked request leaves the queue

  /** Where the gate is: no handler, a parked request about to run, or one running. */
  datatype Phase = Idle | Resuming(id: nat) | Running(id: nat) | Broken

  function Next(p: Phase, e: Event): Phase {
    match e
    case Enter(id) => if p == Idle || p == Resuming(id) then Running(id) else Broken
    case Leave(id) => if p == Running(id) then Idle else Broken
    case Parked(_) => if p.Running? then p else Broken
    case Taken(id, alive) => if p == Idle then (if alive then Resuming(id) else Idle) else Broken
  }

  /** The phase after a history: a broken history is one that ever nests two
      handlers, parks with no handler running, or takes a parked request without
      running it next. */
  function PhaseOf(log: seq<Event>): Phase {
    Fold(Next, Idle, log)
  }

  function ParkedIds(log: seq<Event>): seq<nat> {
    if log == [] then []
    else
      var before := ParkedIds(log[..|log| - 1]);
      if log[|log| - 1].Parked? then before + [log[|log| - 1].id] else before
  }

  function TakenIds(log: seq<Event>): seq<nat> {
    if log == [] then []
    else
      var before := TakenIds(log[..|log| - 1]);
      if log[|log| - 1].Taken? then before + [log[|log| - 1].id] else before
  }

  lemma Snoc(log: seq<Event>, e: Event)
    ensures PhaseOf(log + [e]) == Next(PhaseOf(log), e)
    ensures ParkedIds(log + [e]) == if e.Parked? then ParkedIds(log) + [e.id] else ParkedIds(log)
    ensures TakenIds(log + [e]) == if e.Taken? then TakenIds(log) + [e.id] else TakenIds(log)
  {
    FoldSnoc(Next, Idle, log, e);
    assert (log + [e])[..|log|] == log;
  }

  lemma Prefix(log: seq<Event>, n: nat)
    requires n <= |log| && PhaseOf(log) != Broken
    ensures PhaseOf(log[..n]) != Broken
  {
    FoldPrefix(Next, Idle, (p: Phase) => p != Broken, log, n);
  }

  lemma PhaseStep(log: seq<Event>, i: nat)
    requires i < |log| && PhaseOf(log) != Broken
    ensures PhaseOf(log[..i + 1]) == Next(PhaseOf(log[..i]), log[i]) && PhaseOf(log[..i + 1]) != Broken
  {
    Prefix(log, i + 1);
    FoldAt(Next, Idle, log, i);
  }

  /** Until it is left, a frame stays the running one. */
  lemma {:induction false} StillRunning(log: seq<Event>, i: nat, j: nat)
    requires i < j <= |log| && PhaseOf(log) != Broken && log[i].Enter?
    requires forall k :: i < k < j ==> log[k] != Leave(log[i].id)
    ensures PhaseOf(log[..j]) == Running(log[i].id)
    decreases j
  {
    PhaseStep(log, j - 1);
    if j > i + 1 { StillRunning(log, i, j - 1); }
  }

  /** In a history that is not broken, two handler frames never overlap: between
      two entries the first frame has been left. */
  lemma FramesDoNotNest(log: seq<Event>, i: nat, j: nat)
    requires i < j < |log| && PhaseOf(log) != Broken && log[i].Enter? && log[j].Enter?
    ensures exists k :: i < k < j && log[k] == Leave(log[i].id)
  {
    if forall k :: i < k < j ==> log[k] != Leave(log[i].id) {
      StillRunning(log, i, j);
      PhaseStep(log, j);
    }
  }

  /** A parked request that is taken while its connection lives runs next. */
  lemma TakenRunsNext(log: seq<Event>, i: nat)
    requires i + 1 < |log| && PhaseOf(log) != Broken && log[i].Taken? && log[i].alive
    ensures log[i + 1] == Enter(log[i].id)
  {
    PhaseStep(log, i);
    PhaseStep(log, i + 1);
  }

  /** The event that came after the first `n`. */
  predicate NthIs(log: seq<Event>, n: nat, e: Event) { n < |log| && log[n] == e }

  predicate NoDuplicates(q: seq<nat>) { forall i, j :: 0 <= i < j < |q| ==> q[i] != q[j] }

  /** The queue and the registered connections agree: in particular a connection's
      deferred flag says whether it is in the queue. */
  predicate Agree(deferred: seq<nat>, registry: map<nat, Link>, lastId: nat) {
    && NoDuplicates(deferred)
    && (forall id :: id in deferred ==> id <= lastId)
    && (forall id :: id in registry ==> id <= lastId)
    && (forall id :: id in registry ==> (registry[id].deferred <==> id in deferred))
    && (forall id :: id in registry && registry[id].deferred ==> registry[id].busy)
  }

  class Gate {
    var active: nat
    var draining: bool
    var deferred: seq<nat>
    var registry: map<nat, Link>
    var lastId: nat

    ghost var log: seq<Event>

    ghost predicate Core()
      reads this
    {
      ParkedIds(log) == TakenIds(log) + deferred && Agree(deferred, registry, lastId)
    }

    /** A handler frame is active exactly when the history says one is running. */
    ghost predicate Valid()
      reads this
    {
      Core() && if active == 0 then PhaseOf(log) == Idle else active == 1 && PhaseOf(log).Running?
    }

    /** No parked request is left behind once no handler and no drain is running. */
    ghost predicate Settled()
      reads this
    {
      active == 0 && !draining ==> deferred == []
    }

    constructor ()
      ensures Valid() && Settled() && active == 0 && !draining && log == []
    {
      active, draining, deferred, registry, lastId, log := 0, false, [], map[], 0, [];
    }

    ghost method Log(e: Event)
      modifies `log
      ensures log == old(log) + [e] && PhaseOf(log) == Next(PhaseOf(old(log)), e)
      ensures ParkedIds(log) == if e.Parked? then ParkedIds(old(log)) + [e.id] else ParkedIds(old(log))
      ensures TakenIds(log) == if e.Taken? then TakenIds(old(log)) + [e.id] else TakenIds(old(log))
    {
      Snoc(log, e);
      log := log + [e];
    }

    method Park(id: nat)
      requires Core() && id in registry && id !in deferred && PhaseOf(log).Running?
      modifies `registry, `deferred, `log
      ensures Core() && deferred == old(deferred) + [id] && PhaseOf(log) == PhaseOf(old(log))
      ensures registry == old(registry)[id := Link(true, true)] && log == old(log) + [Parked(id)]
    {
      registry := registry[id := Link(true, true)];
      deferred := deferred + [id];
      Log(Parked(id));
    }

    /** The front of the queue; its connection, if it is still there, is no longer
        parked. */
    method TakeNext() returns (id: nat, alive: bool)
      requires Core() && deferred != [] && PhaseOf(log) == Idle
      modifies `registry, `deferred, `log
      ensures Core() && id == old(deferred)[0] && deferred == old(deferred)[1..] && id !in deferred
      ensures alive == (id in registry) && PhaseOf(log) == (if alive then Resuming(id) else Idle)
      ensures alive ==> registry[id] == Link(true, false)
      ensures old(log) <= log
    {
      id := deferred[0];
      assert deferred == [id] + deferred[1..];
      deferred := deferred[1..];
      assert forall x :: x in old(deferred) <==> x == id || x in deferred;
      alive := id in registry;
      if alive { registry := registry[id := Link(true, false)]; }
      Log(Taken(id, alive));
    }

    /** `dispatchCurrent` */
    method DispatchCurrent(id: nat, tape: seq<Token>) returns (rest: seq<Token>)
      requires Core() && Settled() && id in registry && id !in deferred
      requires if active == 0 then PhaseOf(log) == Idle || PhaseOf(log) == Resuming(id)
               else active == 1 && PhaseOf(log).Running?
      modifies this
      ensures Valid() && Settled() && active == old(active) && draining == old(draining)
      ensures old(active) == 1 ==> PhaseOf(log) == old(PhaseOf(log))
      ensures |rest| <= |tape| && old(log) <= log
      ensures |rest| == |tape| && old(draining) && old(active) == 0 ==> deferred == old(deferred)
      ensures old(active) > 0 ==>
        rest == tape && deferred == old(deferred) + [id] && registry == old(registry)[id := Link(true, true)]
        && log == old(log) + [Parked(id)]
      ensures old(active) == 0 ==> NthIs(log, |old(log)|, Enter(id))
      decreases |tape|, if draining then 0 else 1, 2, 1
    {
      rest := tape;
      registry := registry[id := registry[id].(busy := true)];
      if active > 0 {
        Park(id);
        return;
      }
      rest := RunFrame(id, tape);
      if active == 0 { rest := DrainDeferredHandlers(rest); }
    }

    /** One handler frame. */
    method RunFrame(id: nat, tape: seq<Token>) returns (rest: seq<Token>)
      requires Core() && active == 0 && (PhaseOf(log) == Idle || PhaseOf(log) == Resuming(id))
      modifies this
      ensures Valid() && active == 0 && draining == old(draining)
      ensures |rest| <= |tape| && old(log) <= log && NthIs(log, |old(log)|, Enter(id))
      ensures |rest| == |tape| ==> deferred == old(deferred)
      decreases |tape|, if draining then 0 else 1, 2, 0
    {
      EnterFrame(id);
      rest := RunHandler(id, tape);
      LeaveFrame(id);
    }

    method EnterFrame(id: nat)
      requires Core() && active == 0 && (PhaseOf(log) == Idle || PhaseOf(log) == Resuming(id))
      modifies `active, `log
      ensures Valid() && active == 1 && PhaseOf(log) == Running(id) && log == old(log) + [Enter(id)]
    {
      Log(Enter(id));
      active := active + 1;
    }

    method LeaveFrame(ghost id: nat)
      requires Valid() && active == 1 && PhaseOf(log) == Running(id)
      modifies `active, `log
      ensures Valid() && active == 0 && log == old(log) + [Leave(id)]
    {
      active := active - 1;
      Log(Leave(id));
    }

    /** The handler: whatever happens while it is on the stack. */
    method RunHandler(ghost id: nat, tape: seq<Token>) returns (rest: seq<Token>)
      requires Valid() && active == 1 && PhaseOf(log) == Running(id)
      modifies this
      ensures Valid() && active == 1 && draining == old(draining) && PhaseOf(log) == Running(id)
      ensures |rest| <= |tape| && old(log) <= log
      ensures |rest| == |tape| ==> deferred == old(deferred)
      decreases |tape|, if draining then 0 else 1, 1
    {
      rest := tape;
      while rest != [] && rest[0] != Return
        invariant Valid() && active == 1 && draining == old(draining) && PhaseOf(log) == Running(id)
        invariant |rest| <= |tape| && old(log) <= log
        invariant |rest| == |tape| ==> deferred == old(deferred)
        decreases |rest|
      {
        rest := Act(rest);
      }
      if rest != [] { rest := rest[1..]; }
    }

    /** One event of the environment. */
    method Act(tape: seq<Token>) returns (rest: seq<Token>)
      requires Valid() && Settled() && tape != []
      modifies this
      ensures Valid() && Settled() && active == old(active) && draining == old(draining)
      ensures old(active) == 1 ==> PhaseOf(log) == old(PhaseOf(log))
      ensures |rest| < |tape| && old(log) <= log
      decreases |tape|, if draining then 0 else 1, 0
    {
      rest := tape[1..];
      match tape[0] {
        case Open =>
          lastId := lastId + 1;
          registry := registry[lastId := Link(false, false)];
        case Arrive(id) =>
          if id in registry && !registry[id].busy { rest := DispatchCurrent(id, rest); }
        case Complete(id) =>
          if id in registry && !registry[id].deferred { registry := registry[id := Link(false, false)]; }
        case Destroy(id) =>
          registry := registry - {id};
        case Return =>
      }
    }

    /** `dispatchDeferred`: the parked request, then what is buffered behind it. */
    method DispatchDeferred(id: nat, tape: seq<Token>) returns (rest: seq<Token>)
      requires Core() && active == 0 && draining && id in registry && id !in deferred && PhaseOf(log) == Resuming(id)
      modifies this
      ensures Valid() && active == 0 && draining
      ensures |rest| <= |tape| && old(log) <= log && NthIs(log, |old(log)|, Enter(id))
      ensures |rest| == |tape| ==> deferred == old(deferred)
      decreases |tape|, if draining then 0 else 1, 3
    {
      rest := DispatchCurrent(id, tape);
      while rest != [] && rest[0] == Arrive(id) && id in registry && !registry[id].busy
        invariant Valid() && active == 0 && draining && |rest| <= |tape| && old(log) <= log
        invariant |rest| == |tape| ==> deferred == old(deferred)
        invariant NthIs(log, |old(log)|, Enter(id))
        decreases |rest|
      {
        rest := DispatchCurrent(id, rest[1..]);
      }
    }

    /** `drainDeferredHandlers` */
    method DrainDeferredHandlers(tape: seq<Token>) returns (rest: seq<Token>)
      requires Valid() && active == 0
      modifies this
      ensures Valid() && active == 0 && draining == old(draining)
      ensures !draining ==> deferred == []
      ensures |rest| <= |tape| && old(log) <= log
      ensures draining ==> rest == tape && deferred == old(deferred)
      decreases |tape|, if draining then 0 else 1, 1
    {
      rest := tape;
      if draining { return; }
      draining := true;
      while active == 0 && deferred != []
        invariant Valid() && active == 0 && draining && |rest| <= |tape| && old(log) <= log
        decreases |rest|, |deferred|
      {
        var id, alive := TakeNext();
        if alive { rest := DispatchDeferred(id, rest); }
      }
      draining := false;
    }

    /** The reactor: any run from the outside. When it is over no handler is active,
        nothing is parked, and every request that was parked has been taken once, in
        parking order. */
    method Run(tape: seq<Token>)
      requires Valid() && Settled() && active == 0 && !draining
      modifies this
      ensures Valid() && active == 0 && !draining && deferred == []
      ensures ParkedIds(log) == TakenIds(log) && PhaseOf(log) == Idle && old(log) <= log
    {
      var rest := tape;
      while rest != []
        invariant Valid() && Settled() && active == 0 && !draining && old(log) <= log
        decreases |rest|
      {
        rest := Act(rest);
      }
    }
  }
}
