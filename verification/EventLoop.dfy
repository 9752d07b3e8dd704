/** `EventLoop`: deferred destruction of watchers under nested pumps. The environment
    of a run is a finite tape: a callback is the stretch of the tape up to its
    `Return`, and the answers the loop asks for are read from the tape too, so every
    finite run is some tape. */
module EventLoops {
  import opened Sequences

  /** What a callback does, and what the loop learns from outside. Watchers are
      addresses, and an address may be used again once its watcher is destroyed. */
  datatype Token =
    | AddBorrowed(w: nat) | Adopt(w: nat) | Close(w: nat) | Pump(waiting: bool) | Return
    | Yes | No
    | Ready(events: map<nat, nat>) | Interrupted

  /** A watcher: its address, and which use of the address it is. */
  datatype Watcher = Watcher(address: nat, serial: nat)

  datatype Event =
    | Added(w: nat, serial: nat)
    | Closed(w: nat)
    | Held(snapshot: set<Watcher>)    // a pass keeps pointers to these watchers
    | Dropped                         // the innermost pass is over with its pointers
    | Dispatched(w: nat, serial: nat)
    | Erased(w: nat)                  // taken from the loop; an adopted one is destroyed

  /** What a history leaves: the watchers of the loop, the closed ones, the pending
      snapshots, the watchers each of those passes has called so far, and whether something
      forbidden has happened. */
  datatype View = View(members: map<nat, nat>, closing: set<nat>, held: seq<set<Watcher>>, calls: seq<seq<nat>>,
    bad: bool)

  predicate SafeAt(v: View, snapshot: set<Watcher>) {
    forall x :: x in snapshot ==> x.address in v.members && v.members[x.address] == x.serial
  }

  /** Forbidden: taking a snapshot of watchers that are not in the loop, erasing
      anything while a snapshot is pending, and dispatching a
      watcher that is closed, erased, replaced, or not in the running snapshot. */
  function Next(v: View, e: Event): View {
    match e
    case Added(w, serial) => if w in v.members then v else v.(members := v.members[w := serial])
    case Closed(w) => v.(closing := v.closing + {w})
    case Held(snapshot) =>
      v.(held := v.held + [snapshot], calls := v.calls + [[]], bad := v.bad || !SafeAt(v, snapshot))
    case Dropped =>
      if v.held == [] then v.(bad := true) else v.(held := v.held[..|v.held| - 1], calls := LessLast(v.calls))
    case Dispatched(w, serial) =>
      v.(calls := WithCalls(v.calls, [w]),
         bad := v.bad || w in v.closing || !(w in v.members && v.members[w] == serial)
                || v.held == [] || Watcher(w, serial) !in v.held[|v.held| - 1])
    case Erased(w) =>
      View(v.members - {w}, v.closing - {w}, v.held, v.calls, v.bad || w !in v.closing || v.held != [])
  }

  function LessLast(calls: seq<seq<nat>>): seq<seq<nat>> { if calls == [] then [] else calls[..|calls| - 1] }

  /** The innermost pass has called some more. */
  function WithCalls(calls: seq<seq<nat>>, more: seq<nat>): (r: seq<seq<nat>>)
    ensures |r| == |calls|
  {
    if calls == [] then [] else calls[|calls| - 1 := calls[|calls| - 1] + more]
  }

  lemma CallsJoin(calls: seq<seq<nat>>, a: seq<nat>, b: seq<nat>)
    ensures WithCalls(WithCalls(calls, a), b) == WithCalls(calls, a + b) && WithCalls(calls, []) == calls
    ensures LessLast(WithCalls(calls, a)) == LessLast(calls)
  {
    if calls != [] {
      assert (calls[|calls| - 1] + a) + b == calls[|calls| - 1] + (a + b);
      assert calls[|calls| - 1] + [] == calls[|calls| - 1];
    }
  }

  const NOTHING: View := View(map[], {}, [], [], false)

  function Replay(log: seq<Event>): View {
    Fold(Next, NOTHING, log)
  }

  lemma Snoc(log: seq<Event>, e: Event)
    ensures Replay(log + [e]) == Next(Replay(log), e)
  {
    FoldSnoc(Next, NOTHING, log, e);
  }

  lemma Prefix(log: seq<Event>, n: nat)
    requires n <= |log| && !Replay(log).bad
    ensures !Replay(log[..n]).bad
  {
    FoldPrefix(Next, NOTHING, (v: View) => !v.bad, log, n);
  }

  lemma At(log: seq<Event>, i: nat)
    requires i < |log| && !Replay(log).bad
    ensures Replay(log[..i + 1]) == Next(Replay(log[..i]), log[i]) && !Replay(log[..i + 1]).bad
  {
    Prefix(log, i + 1);
    FoldAt(Next, NOTHING, log, i);
  }

  /** A closed watcher stays closed until it is erased. */
  lemma {:induction false} StaysClosed(log: seq<Event>, i: nat, j: nat)
    requires i < j <= |log| && !Replay(log).bad && log[i].Closed?
    requires forall k :: i < k < j ==> log[k] != Erased(log[i].w)
    ensures log[i].w in Replay(log[..j]).closing
    decreases j
  {
    At(log, j - 1);
    if j > i + 1 { StaysClosed(log, i, j - 1); }
  }

  lemma {:induction false} StaysAway(log: seq<Event>, w: nat, i: nat, j: nat)
    requires i < j <= |log| && !Replay(log).bad && log[i] == Erased(w)
    requires forall k :: i < k < j && log[k].Added? ==> log[k].w != w
    ensures w !in Replay(log[..j]).members
    decreases j
  {
    At(log, j - 1);
    if j > i + 1 { StaysAway(log, w, i, j - 1); }
  }

  /** No watcher is dispatched after it is closed: if its address is dispatched later
      on, the closed watcher was erased and another one added in between. */
  lemma NeverDispatchedAfterClose(log: seq<Event>, i: nat, j: nat)
    requires i < j < |log| && !Replay(log).bad && log[i].Closed? && log[j].Dispatched? && log[j].w == log[i].w
    ensures exists k, m :: i < k < m < j && log[k] == Erased(log[i].w) && log[m].Added? && log[m].w == log[i].w
  {
    var w := log[i].w;
    At(log, j);
    if forall k :: i < k < j ==> log[k] != Erased(w) { StaysClosed(log, i, j); }
    var k :| i < k < j && log[k] == Erased(w);
    if forall m :: k < m < j && log[m].Added? ==> log[m].w != w { StaysAway(log, w, k, j); }
  }

  predicate Pending(log: seq<Event>, i: nat, j: nat)
    requires i < |log| && j <= |log|
  {
    forall k :: i < k <= j ==> |Replay(log[..k]).held| > |Replay(log[..i]).held|
  }

  /** While a snapshot is pending nothing is erased, and each of its watchers that was
      in the loop is still there, the same watcher. */
  lemma {:induction false} PendingIsKept(log: seq<Event>, i: nat, j: nat)
    requires i < j <= |log| && !Replay(log).bad && log[i].Held? && Pending(log, i, j)
    ensures forall k :: i <= k < j ==> !log[k].Erased?
    ensures forall w :: w in Replay(log[..i]).members ==>
      w in Replay(log[..j]).members && Replay(log[..j]).members[w] == Replay(log[..i]).members[w]
    decreases j
  {
    At(log, j - 1);
    if j > i + 1 {
      PendingIsKept(log, i, j - 1);
      PendingStep(Replay(log[..j - 1]), log[j - 1]);
    }
  }

  lemma PendingStep(v: View, e: Event)
    requires !Next(v, e).bad && v.held != []
    ensures !e.Erased?
    ensures forall w :: w in v.members ==> w in Next(v, e).members && Next(v, e).members[w] == v.members[w]
  {
  }

  /** The open watchers among some: as often as they are there, and in that order. */
  ghost predicate OpenAmong(all: seq<nat>, closing: seq<nat>, open: seq<nat>) {
    InOrder(open, all) && forall w :: multiset(open)[w] == if w in closing then 0 else multiset(all)[w]
  }

  predicate IsReady(w: nat, closing: seq<nat>, events: map<nat, nat>) {
    w !in closing && w in events && events[w] != 0
  }

  /** The open watchers with an event among those polled, likewise. */
  ghost predicate ReadyAmong(polled: seq<nat>, closing: seq<nat>, events: map<nat, nat>, ready: seq<nat>) {
    && InOrder(ready, polled)
    && forall w :: multiset(ready)[w] == if IsReady(w, closing, events) then multiset(polled)[w] else 0
  }

  lemma AmongMembers(all: seq<nat>, open: seq<nat>)
    requires forall w :: multiset(open)[w] <= multiset(all)[w]
    ensures forall w :: w in open ==> w in all
  {
    forall w | w in open ensures w in all { assert w in multiset(open); }
  }

  lemma OpenMembers(all: seq<nat>, closing: seq<nat>, open: seq<nat>)
    requires OpenAmong(all, closing, open)
    ensures forall w :: w in open <==> w in all && w !in closing
  {
    forall w ensures w in open <==> w in all && w !in closing {
      assert (w in open <==> w in multiset(open)) && (w in all <==> w in multiset(all));
    }
  }

  /** `erase(remove(…))`: the list without a watcher. */
  function Without(s: seq<nat>, w: nat): (r: seq<nat>)
    ensures OpenAmong(s, [w], r)
  {
    if s == [] then NoneInOrder<nat>([]); [] else
    var init, x := s[..|s| - 1], s[|s| - 1];
    var r := Without(init, w);
    assert s == init + [x];
    if x == w then OrderSkips(r, init, x); r else OrderTakes(r, init, x); r + [x]
  }

  lemma OpenMore(all: seq<nat>, closing: seq<nat>, open: seq<nat>, w: nat, less: seq<nat>)
    requires OpenAmong(all, closing, open) && OpenAmong(open, [w], less)
    ensures OpenAmong(all, closing + [w], less)
  {
    OrderOfOrder(less, open, all);
  }

  predicate Extends(a: View, b: View) {
    && a.held == b.held && a.closing <= b.closing
    && forall w :: w in a.members ==> w in b.members && b.members[w] == a.members[w]
  }

  /** The snapshots' watchers are in the loop. */
  predicate Safe(v: View) {
    forall i :: 0 <= i < |v.held| ==> SafeAt(v, v.held[i])
  }

  predicate Distinct(s: seq<nat>) { forall i, j :: 0 <= i < j < |s| ==> s[i] != s[j] }

  /** A view over the loop's own fields. */
  ghost predicate Shows(v: View, borrowed: seq<nat>, owned: seq<nat>, closing: seq<nat>, depth: nat) {
    && !v.bad && Safe(v) && |v.held| <= depth && |v.calls| == |v.held| && Distinct(closing)
    && (forall w :: w in v.members <==> w in borrowed || w in owned)
    && (forall w :: w in v.closing <==> w in closing)
  }

  lemma LastOf<T>(s: seq<T>, i: nat)
    requires i < |s|
    ensures s[..i + 1][..i] == s[..i] && s[..i + 1] == s[..i] + [s[i]]
  {
  }

  /** The open watchers, borrowed ones first. */
  method PollSet(borrowed: seq<nat>, owned: seq<nat>, closing: seq<nat>) returns (polled: seq<nat>)
    ensures OpenAmong(borrowed + owned, closing, polled)
  {
    polled := [];
    var all := borrowed + owned;
    NoneInOrder(all[..0]);
    for i := 0 to |all|
      invariant OpenAmong(all[..i], closing, polled)
    {
      LastOf(all, i);
      if all[i] !in closing {
        OrderTakes(polled, all[..i], all[i]);
        polled := polled + [all[i]];
      } else {
        OrderSkips(polled, all[..i], all[i]);
      }
    }
    assert all[..|all|] == all;
  }

  /** The ready ones among those polled, less what has been closed since. */
  method ReadySet(polled: seq<nat>, closing: seq<nat>, events: map<nat, nat>) returns (ready: seq<nat>)
    ensures ReadyAmong(polled, closing, events, ready)
  {
    ready := [];
    NoneInOrder(polled[..0]);
    for i := 0 to |polled|
      invariant ReadyAmong(polled[..i], closing, events, ready)
    {
      LastOf(polled, i);
      var w := polled[i];
      if w !in closing && w in events && events[w] != 0 {
        OrderTakes(ready, polled[..i], w);
        ready := ready + [w];
      } else {
        OrderSkips(ready, polled[..i], w);
      }
    }
    assert polled[..|polled|] == polled;
  }

  /** An answer read from the tape; no more tape, no more work. */
  method Ask(tape: seq<Token>) returns (yes: bool, rest: seq<Token>)
    ensures |rest| <= |tape| && (yes ==> |rest| < |tape|)
  {
    if tape == [] { return false, tape; }
    return tape[0] == Yes, tape[1..];
  }

  /** `stopRequested` */
  method StopRequested(waiting: bool, tape: seq<Token>) returns (stop: bool, rest: seq<Token>)
    ensures |rest| <= |tape| && (stop ==> waiting)
  {
    if !waiting { return false, tape; }
    stop, rest := Ask(tape);
  }

  /** A watcher to poll, referenced unless the loop waits for a promise, or other work. */
  method HasWork(waiting: bool, polled: seq<nat>, tape: seq<Token>) returns (work: bool, rest: seq<Token>)
    ensures |rest| <= |tape|
  {
    var referenced, otherWork;
    referenced, rest := Ask(tape);
    otherWork, rest := Ask(rest);
    work := !((polled == [] || (!waiting && !referenced)) && !otherWork);
  }

  /** What the poll answers; `No` when it fails. */
  method Poll(tape: seq<Token>) returns (answer: Token, rest: seq<Token>)
    ensures |rest| <= |tape| && (answer.Ready? || answer.Interrupted? ==> |rest| < |tape|)
  {
    if tape == [] || !(tape[0].Ready? || tape[0].Interrupted?) { return No, tape; }
    return tape[0], tape[1..];
  }

  /** How a turn of the loop ends: with another one, out of the loop, or out of the method. */
  datatype Turned = Again | Leave | LeaveNow

  /** From the poll set to the poll's answer. */
  method Prepare(waiting: bool, polled: seq<nat>, tape: seq<Token>)
    returns (turned: Turned, stopped: bool, answer: Token, rest: seq<Token>)
    ensures |rest| <= |tape| && turned != LeaveNow && (turned == Again ==> |rest| < |tape| && !stopped)
  {
    var work, queued;
    answer := No;
    work, rest := HasWork(waiting, polled, tape);
    if !work {
      stopped, rest := StopRequested(waiting, rest);
      return Leave, stopped, answer, rest;
    }
    queued, rest := Ask(rest);
    if queued { return Again, false, answer, rest; }
    answer, rest := Poll(rest);
    if !answer.Ready? && !answer.Interrupted? {
      stopped, rest := StopRequested(waiting, rest);
      return Leave, stopped, answer, rest;
    }
    return Again, false, answer, rest;
  }

  /** The running snapshot has these watchers. */
  predicate Covered(v: View, watchers: seq<nat>)
    requires v.held != []
  {
    forall w :: w in watchers ==> CoveredAt(v, w)
  }

  predicate CoveredAt(v: View, w: nat)
    requires v.held != []
  {
    w in v.members && Watcher(w, v.members[w]) in v.held[|v.held| - 1]
  }

  lemma CoveredStays(v: View, u: View, watchers: seq<nat>)
    requires v.held != [] && Covered(v, watchers) && Extends(v, u)
    ensures Covered(u, watchers)
  {
    forall w | w in watchers ensures CoveredAt(u, w) { assert CoveredAt(v, w); }
  }

  /** The watchers of a pass whose turn ended in a call. */
  function Chosen(ready: seq<nat>, ran: seq<bool>): seq<nat>
    requires |ran| <= |ready|
  {
    if ran == [] then [] else
    var n := |ran| - 1;
    Chosen(ready, ran[..n]) + (if ran[n] then [ready[n]] else [])
  }

  /** A watcher was closed while these were all the calls of the pass. */
  predicate ClosedAt(log: seq<Event>, k: nat, w: nat, calls: seq<seq<nat>>) {
    k <= |log| && w in Replay(log[..k]).closing && Replay(log[..k]).calls == calls
  }

  ghost predicate ClosedInTime(log: seq<Event>, from: nat, w: nat, calls: seq<seq<nat>>) {
    exists k: nat :: from <= k && ClosedAt(log, k, w, calls)
  }

  /** A pass has come past the first `|ran|` ready watchers since `from`: it has called
      those that ran, in this order and no other, and each of the rest was closed before
      its turn, when only earlier ones had been called. */
  ghost predicate TookTurns(log: seq<Event>, from: nat, before: seq<seq<nat>>, ready: seq<nat>, ran: seq<bool>) {
    && |ran| <= |ready| && Replay(log).calls == WithCalls(before, Chosen(ready, ran))
    && forall m: nat :: m < |ran| && !ran[m] ==>
         ClosedInTime(log, from, ready[m], WithCalls(before, Chosen(ready, ran[..m])))
  }

  lemma NoTurnsYet(log: seq<Event>, ready: seq<nat>)
    ensures TookTurns(log, |log|, Replay(log).calls, ready, [])
  {
    CallsJoin(Replay(log).calls, [], []);
  }

  lemma ClosedStays(log: seq<Event>, now: seq<Event>, from: nat, w: nat, calls: seq<seq<nat>>)
    requires log <= now && ClosedInTime(log, from, w, calls)
    ensures ClosedInTime(now, from, w, calls)
  {
    var k: nat :| from <= k && ClosedAt(log, k, w, calls);
    assert now[..k] == log[..k];
    assert ClosedAt(now, k, w, calls);
  }

  lemma TurnsStay(log: seq<Event>, now: seq<Event>, from: nat, before: seq<seq<nat>>, ready: seq<nat>, ran: seq<bool>)
    requires log <= now && TookTurns(log, from, before, ready, ran) && Replay(now).calls == Replay(log).calls
    ensures TookTurns(now, from, before, ready, ran)
  {
    forall m: nat | m < |ran| && !ran[m]
      ensures ClosedInTime(now, from, ready[m], WithCalls(before, Chosen(ready, ran[..m])))
    {
      ClosedStays(log, now, from, ready[m], WithCalls(before, Chosen(ready, ran[..m])));
    }
  }

  /** What a turn makes of the calls of its pass. */
  predicate TurnOf(v: View, u: View, w: nat, called: bool) {
    && u.calls == WithCalls(v.calls, if called then [w] else [])
    && (called <==> w !in v.closing)
  }

  lemma TurnTaken(log: seq<Event>, now: seq<Event>, from: nat, before: seq<seq<nat>>, ready: seq<nat>,
                  ran: seq<bool>, called: bool)
    requires from <= |log| && log <= now && TookTurns(log, from, before, ready, ran) && |ran| < |ready|
    requires TurnOf(Replay(log), Replay(now), ready[|ran|], called)
    ensures TookTurns(now, from, before, ready, ran + [called])
  {
    var i, r := |ran|, ran + [called];
    var w := ready[i];
    assert r[..i] == ran && Chosen(ready, r) == Chosen(ready, ran) + if called then [w] else [];
    CallsJoin(before, Chosen(ready, ran), if called then [w] else []);
    forall m: nat | m < |r| && !r[m]
      ensures ClosedInTime(now, from, ready[m], WithCalls(before, Chosen(ready, r[..m])))
    {
      if m < i {
        assert r[..m] == ran[..m];
      } else {
        assert log[..|log|] == log;
        assert ClosedAt(log, |log|, w, WithCalls(before, Chosen(ready, ran)));
      }
      ClosedStays(log, now, from, ready[m], WithCalls(before, Chosen(ready, r[..m])));
    }
  }

  lemma SnapshotSafe(v: View, watchers: seq<nat>) returns (snapshot: set<Watcher>)
    requires forall w :: w in watchers ==> w in v.members
    ensures SafeAt(v, snapshot) && forall w :: w in watchers ==> Watcher(w, v.members[w]) in snapshot
  {
    snapshot := set w | w in watchers :: Watcher(w, v.members[w]);
  }

  /** A purge that has erased the first `i` closed watchers. */
  ghost predicate Purging(v: View, borrowed: seq<nat>, owned: seq<nat>, closing: seq<nat>, i: nat)
    requires i <= |closing|
  {
    && !v.bad && v.held == [] && v.calls == [] && Distinct(closing)
    && (forall w :: w in v.members <==> w in borrowed || w in owned)
    && (forall w :: w in v.closing <==> w in closing && w !in closing[..i])
  }

  lemma PurgeStep(v: View, borrowed: seq<nat>, owned: seq<nat>, closing: seq<nat>, i: nat)
    requires i < |closing| && Purging(v, borrowed, owned, closing, i)
    ensures Purging(Next(v, Erased(closing[i])), Without(borrowed, closing[i]), Without(owned, closing[i]), closing,
      i + 1)
  {
    LastOf(closing, i);
    OpenMembers(borrowed, [closing[i]], Without(borrowed, closing[i]));
    OpenMembers(owned, [closing[i]], Without(owned, closing[i]));
  }

  class EventLoop {
    var borrowed: seq<nat>
    var owned: seq<nat>
    var closing: seq<nat>
    var dispatchDepth: nat

    ghost var log: seq<Event>
    ghost var serial: nat

    ghost predicate Valid()
      reads this
    {
      Shows(Replay(log), borrowed, owned, closing, dispatchDepth)
    }

    constructor ()
      ensures Valid() && dispatchDepth == 0 && log == [] && closing == []
    {
      borrowed, owned, closing, dispatchDepth, log, serial := [], [], [], 0, [], 0;
    }

    ghost method Log(e: Event)
      modifies `log
      ensures log == old(log) + [e] && Replay(log) == Next(Replay(old(log)), e)
    {
      Snoc(log, e);
      log := log + [e];
    }

    /** The loop has at least what it had, and no pass has called anything. */
    twostate predicate Grown()
      reads this
    {
      Extends(old(Replay(log)), Replay(log)) && Replay(log).calls == old(Replay(log)).calls
    }

    method AddBorrowed(w: nat)
      requires Valid()
      modifies `borrowed, `log, `serial
      ensures Valid() && borrowed == old(borrowed) + [w] && Grown() && old(log) <= log
    {
      borrowed := borrowed + [w];
      serial := serial + 1;
      Log(Added(w, serial));
    }

    /** The loop becomes the owner of a new watcher. */
    method Adopt(w: nat)
      requires Valid()
      modifies `owned, `log, `serial
      ensures Valid() && owned == old(owned) + [w] && Grown() && old(log) <= log
    {
      serial := serial + 1;
      Log(Added(w, serial));
      owned := owned + [w];
    }

    /** `close`: the watcher is only marked. */
    method Close(w: nat)
      requires Valid()
      modifies `closing, `log
      ensures Valid() && Grown() && old(log) <= log
      ensures closing == if w in old(closing) then old(closing) else old(closing) + [w]
    {
      Log(Closed(w));
      if w in closing { return; }
      closing := closing + [w];
    }

    method PurgeClosed()
      requires Valid() && dispatchDepth == 0
      modifies `borrowed, `owned, `closing, `log
      ensures Valid() && closing == [] && old(log) <= log
      ensures OpenAmong(old(borrowed), old(closing), borrowed) && OpenAmong(old(owned), old(closing), owned)
    {
      var i := 0;
      OrderAll(borrowed);
      OrderAll(owned);
      while i < |closing|
        invariant i <= |closing| && closing == old(closing) && old(log) <= log
        invariant Purging(Replay(log), borrowed, owned, closing, i)
        invariant OpenAmong(old(borrowed), closing[..i], borrowed) && OpenAmong(old(owned), closing[..i], owned)
      {
        PurgeStep(Replay(log), borrowed, owned, closing, i);
        LastOf(closing, i);
        OpenMore(old(borrowed), closing[..i], borrowed, closing[i], Without(borrowed, closing[i]));
        OpenMore(old(owned), closing[..i], owned, closing[i], Without(owned, closing[i]));
        Log(Erased(closing[i]));
        borrowed := Without(borrowed, closing[i]);
        owned := Without(owned, closing[i]);
        i := i + 1;
      }
      assert closing[..i] == closing;
      closing := [];
    }

    method PurgeClosedIfSafe()
      requires Valid()
      modifies `borrowed, `owned, `closing, `log
      ensures Valid() && Replay(log).held == old(Replay(log).held) && Replay(log).calls == old(Replay(log).calls)
      ensures old(log) <= log && if dispatchDepth == 0 then closing == [] else Replay(log) == old(Replay(log))
    {
      if dispatchDepth == 0 { PurgeClosed(); }
    }

    /** What a callback leaves as it was; inside a pass nothing is erased. */
    twostate predicate Kept()
      reads this
    {
      && dispatchDepth == old(dispatchDepth) && old(log) <= log
      && Replay(log).held == old(Replay(log)).held
      && (dispatchDepth > 0 ==> Extends(old(Replay(log)), Replay(log)))
    }

    /** A callback also calls no watcher in the name of the pass that runs it. */
    twostate predicate Back()
      reads this
    {
      Kept() && Replay(log).calls == old(Replay(log)).calls
    }

    /** Whatever runs until control is back with the loop. */
    method Callback(tape: seq<Token>) returns (rest: seq<Token>)
      requires Valid()
      modifies this
      ensures Valid() && Back() && |rest| <= |tape|
      decreases |tape|, 1
    {
      rest := tape;
      while rest != [] && rest[0] != Return
        invariant Valid() && Back() && |rest| <= |tape|
        decreases |rest|
      {
        rest := Act(rest);
      }
      if rest != [] { rest := rest[1..]; }
    }

    method Act(tape: seq<Token>) returns (rest: seq<Token>)
      requires Valid() && tape != []
      modifies this
      ensures Valid() && Back() && |rest| < |tape|
      decreases |tape|, 0
    {
      rest := tape[1..];
      match tape[0] {
        case AddBorrowed(w) => AddBorrowed(w);
        case Adopt(w) => Adopt(w);
        case Close(w) => Close(w);
        case Pump(waiting) =>
          var stopped;
          stopped, rest := RunPoll(waiting, rest);
        case _ =>
      }
    }

    method DispatchWatcher(w: nat, tape: seq<Token>) returns (rest: seq<Token>)
      requires Valid() && Replay(log).held != [] && CoveredAt(Replay(log), w) && w !in closing
      modifies this
      ensures Valid() && Kept() && |rest| <= |tape|
      ensures old(log) + [Dispatched(w, old(Replay(log)).members[w])] <= log
      ensures Replay(log).calls == WithCalls(old(Replay(log)).calls, [w])
      decreases |tape|, 2
    {
      Log(Dispatched(w, Replay(log).members[w]));
      dispatchDepth := dispatchDepth + 1;
      rest := Callback(tape);
      dispatchDepth := dispatchDepth - 1;
    }

    /** The ready watchers are called one after the other, each at its one turn, less those
        closed before it; `ran` tells which. A stop ends the turns. */
    method DispatchReady(waiting: bool, ready: seq<nat>, tape: seq<Token>)
      returns (stop: bool, rest: seq<Token>, ghost ran: seq<bool>)
      requires Valid() && Replay(log).held != [] && dispatchDepth > 0
      requires Covered(Replay(log), ready)
      modifies this
      ensures Valid() && Kept() && |rest| <= |tape| && (stop ==> waiting)
      ensures TookTurns(log, |old(log)|, old(Replay(log)).calls, ready, ran) && (!stop ==> |ran| == |ready|)
      decreases |tape|, 4
    {
      rest, stop, ran := tape, false, [];
      NoTurnsYet(log, ready);
      var i := 0;
      while i < |ready| && !stop
        invariant i <= |ready| && |ran| == i && Valid() && Kept() && |rest| <= |tape| && (stop ==> waiting)
        invariant TookTurns(log, |old(log)|, old(Replay(log)).calls, ready, ran)
        decreases |ready| - i
      {
        ghost var past, called := log, false;
        stop, rest, called := DispatchNext(waiting, ready, i, rest);
        TurnTaken(past, log, |old(log)|, old(Replay(log)).calls, ready, ran, called);
        ran := ran + [called];
        i := i + 1;
      }
    }

    method DispatchNext(waiting: bool, ready: seq<nat>, i: nat, tape: seq<Token>)
      returns (stop: bool, rest: seq<Token>, ghost called: bool)
      requires Valid() && Replay(log).held != [] && dispatchDepth > 0 && i < |ready| && Covered(Replay(log), ready)
      modifies this
      ensures Valid() && Kept() && |rest| <= |tape| && Covered(Replay(log), ready) && (stop ==> waiting)
      ensures TurnOf(old(Replay(log)), Replay(log), ready[i], called)
      decreases |tape|, 3, 1
    {
      assert ready[i] in ready && CoveredAt(Replay(log), ready[i]);
      stop, rest, called := DispatchTurn(waiting, ready[i], tape);
      CoveredStays(old(Replay(log)), Replay(log), ready);
    }

    /** The turn of one ready watcher. */
    method DispatchTurn(waiting: bool, w: nat, tape: seq<Token>)
      returns (stop: bool, rest: seq<Token>, ghost called: bool)
      requires Valid() && Replay(log).held != [] && dispatchDepth > 0 && CoveredAt(Replay(log), w)
      modifies this
      ensures Valid() && Kept() && |rest| <= |tape| && TurnOf(old(Replay(log)), Replay(log), w, called)
      ensures stop ==> waiting
      decreases |tape|, 3, 0
    {
      stop, rest, called := false, tape, w !in closing;
      CallsJoin(Replay(log).calls, [], []);
      if w !in closing {
        rest := DispatchWatcher(w, tape);
        stop, rest := StopRequested(waiting, rest);
      }
    }

    /** The body of a pass: timers, microtasks, the ready watchers, then microtasks and
        immediates; every pointer the pass keeps is in the pending snapshot. */
    method HeldPass(waiting: bool, polled: seq<nat>, events: map<nat, nat>, tape: seq<Token>)
      returns (stopped: bool, rest: seq<Token>)
      requires Valid() && Replay(log).held != [] && dispatchDepth > 0
      requires Covered(Replay(log), polled)
      modifies this
      ensures Valid() && Kept() && |rest| <= |tape|
      ensures LessLast(Replay(log).calls) == LessLast(old(Replay(log)).calls)
      decreases |tape|, 6
    {
      ghost var before := Replay(log);
      rest := TwoCallbacks(tape);
      stopped, rest := StopRequested(waiting, rest);
      if stopped { return; }
      CoveredStays(before, Replay(log), polled);
      ghost var ready, ran;
      stopped, rest, ready, ran := DispatchPolled(waiting, polled, events, rest);
      CallsJoin(before.calls, Chosen(ready, ran), []);
    }

    /** The watchers of the pass: those polled that are ready and not closed by now take
        their turns. */
    method DispatchPolled(waiting: bool, polled: seq<nat>, events: map<nat, nat>, tape: seq<Token>)
      returns (stopped: bool, rest: seq<Token>, ghost ready: seq<nat>, ghost ran: seq<bool>)
      requires Valid() && Replay(log).held != [] && dispatchDepth > 0 && Covered(Replay(log), polled)
      modifies this
      ensures Valid() && Kept() && |rest| <= |tape|
      ensures ReadyAmong(polled, old(closing), events, ready)
      ensures TookTurns(log, |old(log)|, old(Replay(log)).calls, ready, ran)
      ensures !waiting ==> |ran| == |ready|
      decreases |tape|, 5
    {
      var chosen := ReadySet(polled, closing, events);
      ready := chosen;
      AmongMembers(polled, chosen);
      var stop;
      stop, rest, ran := DispatchReady(waiting, chosen, tape);
      ghost var past := log;
      rest := TwoCallbacks(rest);
      TurnsStay(past, log, |old(log)|, old(Replay(log)).calls, ready, ran);
      stopped, rest := StopRequested(waiting, rest);
    }

    /** Timers and microtasks before the watchers, microtasks and immediates after. */
    method TwoCallbacks(tape: seq<Token>) returns (rest: seq<Token>)
      requires Valid()
      modifies this
      ensures Valid() && Back() && |rest| <= |tape|
      decreases |tape|, 2
    {
      rest := Callback(tape);
      rest := Callback(rest);
    }

    method Pass(waiting: bool, polled: seq<nat>, events: map<nat, nat>, tape: seq<Token>)
      returns (stopped: bool, rest: seq<Token>)
      requires Valid() && forall w :: w in polled ==> w in Replay(log).members
      modifies this
      ensures Valid() && Back() && |rest| <= |tape| && (dispatchDepth == 0 ==> closing == [])
      decreases |tape|, 7
    {
      EnterPass(polled);
      stopped, rest := HeldPass(waiting, polled, events, tape);
      ghost var inside := Replay(log);
      LeavePass();
      assert Extends(old(Replay(log)), Next(inside, Dropped));
      PurgeClosedIfSafe();
    }

    method EnterPass(ghost polled: seq<nat>)
      requires Valid() && forall w :: w in polled ==> w in Replay(log).members
      modifies `dispatchDepth, `log
      ensures Valid() && dispatchDepth == old(dispatchDepth) + 1 && old(log) <= log
      ensures Replay(log).held != [] && Covered(Replay(log), polled)
      ensures Next(Replay(log), Dropped) == old(Replay(log))
    {
      dispatchDepth := dispatchDepth + 1;
      ghost var snapshot := SnapshotSafe(Replay(log), polled);
      Log(Held(snapshot));
    }

    method LeavePass()
      requires Valid() && dispatchDepth > 0 && Replay(log).held != []
      modifies `dispatchDepth, `log
      ensures Valid() && dispatchDepth == old(dispatchDepth) - 1 && old(log) <= log
      ensures Replay(log) == Next(old(Replay(log)), Dropped)
    {
      Log(Dropped);
      dispatchDepth := dispatchDepth - 1;
    }

    /** `runPoll`: pass after pass until told to stop or out of work. When it returns
        and no callback is running, every closed watcher has been erased. */
    method RunPoll(waiting: bool, tape: seq<Token>) returns (stopped: bool, rest: seq<Token>)
      requires Valid()
      modifies this
      ensures Valid() && Back() && |rest| <= |tape| && (dispatchDepth == 0 ==> closing == [])
      decreases |tape|, 9
    {
      rest := tape;
      while true
        invariant Valid() && Back() && |rest| <= |tape|
        decreases |rest|
      {
        var turned;
        turned, stopped, rest := Turn(waiting, rest);
        if turned == LeaveNow { return; }
        if turned == Leave { break; }
      }
      PurgeClosedIfSafe();
    }

    /** One turn of that loop: queued callbacks, then a pass, unless there is nothing to wait for. */
    method Turn(waiting: bool, tape: seq<Token>) returns (turned: Turned, stopped: bool, rest: seq<Token>)
      requires Valid()
      modifies this
      ensures Valid() && Back() && |rest| <= |tape|
      ensures turned == Again ==> |rest| < |tape|
      ensures turned == LeaveNow && dispatchDepth == 0 ==> closing == []
      decreases |tape|, 8
    {
      rest := Callback(tape);
      stopped, rest := StopRequested(waiting, rest);
      if stopped { return Leave, true, rest; }
      var polled := PollSet(borrowed, owned, closing);
      OpenMembers(borrowed + owned, closing, polled);
      var answer;
      turned, stopped, answer, rest := Prepare(waiting, polled, rest);
      if turned == Again && answer.Ready? {
        stopped, rest := Pass(waiting, polled, answer.events, rest);
        if stopped { turned := LeaveNow; }
      }
    }
  }
}
