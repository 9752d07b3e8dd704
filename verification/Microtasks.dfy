/** The microtask and next-tick queues. The environment of a run is a finite tape: a
    job is the stretch of the tape up to its `Return`, so every finite run is some tape. */
module Microtasks {
  import opened Sequences

  datatype Token = QueueMicro(callable: bool) | QueueTick | Drain | DrainTicks | Return

  datatype Event =
    | QueuedMicro(id: nat) | QueuedTick(id: nat)
    | Started(id: nat)                // a microtask starts; it stays at the head
    | Finished                        // it is over, and leaves the queue
    | Ticked(id: nat)                 // a tick leaves the queue and runs

  /** What a history leaves: the queues, whether the first microtask is running, and
      whether something forbidden has happened. */
  datatype View = View(micro: seq<nat>, ticks: seq<nat>, running: bool, bad: bool)

  /** Forbidden: starting a microtask while one runs or a tick waits, and starting
      anything but the oldest entry of its queue. */
  function Next(v: View, e: Event): View {
    match e
    case QueuedMicro(id) => v.(micro := v.micro + [id])
    case QueuedTick(id) => v.(ticks := v.ticks + [id])
    case Started(id) => v.(running := true, bad := v.bad || v.running || v.ticks != [] || v.micro == []
      || v.micro[0] != id)
    case Finished =>
      if !v.running || v.micro == [] then v.(bad := true) else v.(micro := v.micro[1..], running := false)
    case Ticked(id) =>
      if v.ticks == [] then v.(bad := true) else v.(ticks := v.ticks[1..], bad := v.bad || v.ticks[0] != id)
  }

  const NOTHING: View := View([], [], false, false)

  function Replay(log: seq<Event>): View {
    Fold(Next, NOTHING, log)
  }

  lemma Snoc(log: seq<Event>, e: Event)
    ensures Replay(log + [e]) == Next(Replay(log), e)
    ensures MicroRun(log + [e]) == if e.Started? then MicroRun(log) + [e.id] else MicroRun(log)
  {
    FoldSnoc(Next, NOTHING, log, e);
    assert (log + [e])[..|log|] == log;
  }

  lemma Prefix(log: seq<Event>, n: nat)
    requires n <= |log| && !Replay(log).bad
    ensures !Replay(log[..n]).bad
  {
    FoldPrefix(Next, NOTHING, (v: View) => !v.bad, log, n);
  }

  // What was put in, and what was taken out, in order.

  function MicroIn(log: seq<Event>): seq<nat> {
    if log == [] then [] else
    MicroIn(log[..|log| - 1]) + (if log[|log| - 1].QueuedMicro? then [log[|log| - 1].id] else [])
  }

  function MicroRun(log: seq<Event>): seq<nat> {
    if log == [] then [] else
    MicroRun(log[..|log| - 1]) + (if log[|log| - 1].Started? then [log[|log| - 1].id] else [])
  }

  function TicksIn(log: seq<Event>): seq<nat> {
    if log == [] then [] else
    TicksIn(log[..|log| - 1]) + (if log[|log| - 1].QueuedTick? then [log[|log| - 1].id] else [])
  }

  function TicksRun(log: seq<Event>): seq<nat> {
    if log == [] then [] else
    TicksRun(log[..|log| - 1]) + (if log[|log| - 1].Ticked? then [log[|log| - 1].id] else [])
  }

  function Waiting(v: View): seq<nat> { if v.running && v.micro != [] then v.micro[1..] else v.micro }

  /** Both queues run first in, first out, every entry exactly once: what has run, then
      what waits, is what was put in. */
  lemma {:induction false} FirstInFirstOut(log: seq<Event>)
    requires !Replay(log).bad
    ensures var v := Replay(log);
      && MicroRun(log) + Waiting(v) == MicroIn(log) && (v.running ==> v.micro != [])
      && TicksRun(log) + v.ticks == TicksIn(log)
  {
    if log != [] {
      var init, e := log[..|log| - 1], log[|log| - 1];
      Prefix(log, |log| - 1);
      FirstInFirstOut(init);
      Queued(Replay(init), e, MicroRun(init), MicroIn(init), TicksRun(init), TicksIn(init));
    }
  }

  /** One event keeps what has run and what waits in step with what was put in. */
  lemma Queued(v: View, e: Event, microRun: seq<nat>, microIn: seq<nat>, ticksRun: seq<nat>, ticksIn: seq<nat>)
    requires microRun + Waiting(v) == microIn && (v.running ==> v.micro != []) && ticksRun + v.ticks == ticksIn
    requires !Next(v, e).bad
    ensures var w := Next(v, e);
      && (microRun + if e.Started? then [e.id] else []) + Waiting(w)
        == microIn + (if e.QueuedMicro? then [e.id] else [])
      && (ticksRun + if e.Ticked? then [e.id] else []) + w.ticks == ticksIn + (if e.QueuedTick? then [e.id] else [])
      && (w.running ==> w.micro != [])
  {
    match e {
      case QueuedMicro(id) => assert Waiting(Next(v, e)) == Waiting(v) + [id];
      case QueuedTick(id) =>
      case Started(id) => assert v.micro == [id] + v.micro[1..];
      case Finished =>
      case Ticked(id) => assert v.ticks == [id] + v.ticks[1..];
    }
  }

  /** Each microtask starts when every tick queued before it has run. */
  lemma TicksGoFirst(log: seq<Event>, i: nat)
    requires i < |log| && !Replay(log).bad && log[i].Started?
    ensures TicksRun(log[..i]) == TicksIn(log[..i])
  {
    Prefix(log, i + 1);
    assert log[..i + 1][..i] == log[..i];
    Prefix(log, i);
    FirstInFirstOut(log[..i]);
  }

  class Queues {
    var microtasks: seq<nat>
    var nextTicks: seq<nat>
    var draining: bool
    var lastId: nat

    ghost var log: seq<Event>

    /** `running` says that the microtask at the head is on the stack. */
    ghost predicate Valid()
      reads this
    {
      var v := Replay(log);
      && !v.bad && v.micro == microtasks && v.ticks == nextTicks
      && (v.running ==> draining && microtasks != [])
    }

    constructor ()
      ensures Valid() && microtasks == [] && nextTicks == [] && !draining && log == []
    {
      microtasks, nextTicks, draining, lastId, log := [], [], false, 0, [];
    }

    ghost method Log(e: Event)
      modifies `log
      ensures log == old(log) + [e] && Replay(log) == Next(Replay(old(log)), e)
      ensures !e.Started? ==> MicroRun(log) == MicroRun(old(log))
    {
      Snoc(log, e);
      log := log + [e];
    }

    /** What is left to do, counting the tape. */
    ghost function Work(tape: seq<Token>): nat
      reads this
      requires Valid()
    {
      |tape| + |Waiting(Replay(log))| + |nextTicks|
    }

    /** What a callback leaves as it was. */
    twostate predicate Kept(was: seq<Token>, rest: seq<Token>)
      reads this
      requires old(Valid()) && Valid()
    {
      && draining == old(draining) && Replay(log).running == old(Replay(log)).running
      && old(log) <= log && |rest| <= |was| && Work(rest) <= old(Work(was))
      && (draining ==> old(microtasks) <= microtasks && MicroRun(log) == old(MicroRun(log)))
    }

    method QueueMicrotask(callable: bool)
      requires Valid()
      modifies `microtasks, `lastId, `log
      ensures Valid() && Replay(log).running == old(Replay(log)).running && old(log) <= log
      ensures Work([]) <= old(Work([])) + 1 && old(microtasks) <= microtasks && MicroRun(log) == old(MicroRun(log))
    {
      if !callable { return; }
      lastId := lastId + 1;
      microtasks := microtasks + [lastId];
      Log(QueuedMicro(lastId));
    }

    method QueueNextTick()
      requires Valid()
      modifies `nextTicks, `lastId, `log
      ensures Valid() && Replay(log).running == old(Replay(log)).running && old(log) <= log
      ensures Work([]) <= old(Work([])) + 1 && old(microtasks) <= microtasks && MicroRun(log) == old(MicroRun(log))
    {
      lastId := lastId + 1;
      nextTicks := nextTicks + [lastId];
      Log(QueuedTick(lastId));
    }

    /** A job or a tick: whatever it does until it returns. */
    method Callback(tape: seq<Token>) returns (rest: seq<Token>)
      requires Valid()
      modifies this
      ensures Valid() && Kept(tape, rest)
      decreases Work(tape), 1
    {
      rest := tape;
      while rest != [] && rest[0] != Return
        invariant Valid() && Kept(tape, rest)
        decreases |rest|
      {
        rest := Act(rest);
      }
      if rest != [] { rest := rest[1..]; }
    }

    method Act(tape: seq<Token>) returns (rest: seq<Token>)
      requires Valid() && tape != []
      modifies this
      ensures Valid() && Kept(tape, rest) && |rest| < |tape|
      decreases Work(tape), 0
    {
      rest := tape[1..];
      match tape[0] {
        case QueueMicro(callable) => QueueMicrotask(callable);
        case QueueTick => QueueNextTick();
        case Drain =>
          ghost var tail;
          rest, tail := DrainMicrotasks(rest);
        case DrainTicks => rest := DrainNextTicks(rest);
        case Return =>
      }
    }

    /** `drain_next_ticks` */
    method DrainNextTicks(tape: seq<Token>) returns (rest: seq<Token>)
      requires Valid()
      modifies this
      ensures Valid() && Kept(tape, rest) && nextTicks == []
      decreases Work(tape), 2
    {
      rest := tape;
      while nextTicks != []
        invariant Valid() && Kept(tape, rest)
        decreases Work(rest)
      {
        Log(Ticked(nextTicks[0]));
        nextTicks := nextTicks[1..];
        rest := Callback(rest);
      }
    }

    /** The microtask at the head: it leaves the queue when it is over. */
    method RunHead(tape: seq<Token>) returns (rest: seq<Token>)
      requires Valid() && draining && !Replay(log).running && microtasks != [] && nextTicks == []
      modifies this
      ensures Valid() && draining && !Replay(log).running && old(log) <= log
      ensures |rest| <= |tape| && Work(rest) < old(Work(tape))
      decreases Work(tape), 3
    {
      Log(Started(microtasks[0]));
      rest := Callback(tape);
      microtasks := microtasks[1..];
      Log(Finished);
    }

    /** `drain_microtasks`. Entered from a running drain it does nothing. Otherwise the
        tick queue is empty when it returns, and so was the microtask queue at the
        moment `tail` of the history; what is in it now was queued by the last ticks. */
    method DrainMicrotasks(tape: seq<Token>) returns (rest: seq<Token>, ghost tail: nat)
      requires Valid()
      modifies this
      ensures Valid() && Kept(tape, rest)
      ensures old(draining) ==> rest == tape && log == old(log)
      ensures !old(draining) ==> nextTicks == [] && tail <= |log| && Replay(log[..tail]).micro == []
      ensures !old(draining) ==> MicroRun(log[..tail]) == MicroRun(log)
      decreases Work(tape), 5
    {
      rest, tail := tape, 0;
      if draining { return; }
      draining := true;
      rest := RunAll(rest);
      tail := |log|;
      ghost var atTail := log;
      if nextTicks != [] { rest := DrainNextTicks(rest); }
      assert log[..tail] == atTail;
      draining := false;
    }

    /** The ticks and then the microtask at the head, until there is no microtask. */
    method RunAll(tape: seq<Token>) returns (rest: seq<Token>)
      requires Valid() && draining && !Replay(log).running
      modifies this
      ensures Valid() && draining && !Replay(log).running && old(log) <= log && microtasks == []
      ensures |rest| <= |tape| && Work(rest) <= old(Work(tape))
      decreases Work(tape), 4
    {
      rest := tape;
      while microtasks != []
        invariant Valid() && draining && !Replay(log).running && old(log) <= log
        invariant |rest| <= |tape| && Work(rest) <= old(Work(tape))
        decreases Work(rest)
      {
        if nextTicks != [] { rest := DrainNextTicks(rest); }
        rest := RunHead(rest);
      }
    }
  }
}
