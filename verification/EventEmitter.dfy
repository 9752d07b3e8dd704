/** `EventEmitter`: registrations, removals and emits, with listeners that may do all
    three to the emitter that is running them. */
module EventEmitters {
  import opened Wrappers
  import opened ListenerStore

  // ---- the history of a run -----------------------------------------------------------

  /** An emit under way: the listeners it took at its start, and how many have run. */
  datatype Frame = Frame(toRun: seq<Entry>, done: nat)

  datatype Event =
    | Registered(name: EventName, e: Entry, prepend: bool)
    | Unregistered(name: EventName, k: nat)
    | Begun(name: EventName, toRun: seq<Entry>)
    | Called(e: Entry)
    | Ended(early: bool)

  /** What a history leaves: the ordered map, the emits under way, the one-time
      registrations ever taken by an emit, and those run; and whether something
      forbidden has happened, or an emit took a one-time registration a second time. */
  datatype View = View(m: seq<Group>, stack: seq<Frame>, taken: set<nat>, spent: set<nat>, last: nat, bad: bool,
    twice: bool)

  function OnceRegs(entries: seq<Entry>): set<nat> { set e | e in entries && e.once :: e.reg }

  predicate DistinctRegs(entries: seq<Entry>) {
    forall i, j :: 0 <= i < j < |entries| ==> entries[i].reg != entries[j].reg
  }

  /** Forbidden: numbering two registrations alike; starting an emit with anything but
      the listeners of its name; calling anything but the running emit's next listener;
      and ending an emit before its last listener, unless it is cut short. */
  function Next(v: View, ev: Event): View {
    match ev
    case Registered(name, e, prepend) =>
      v.(m := Added(v.m, name, e, prepend), last := e.reg, bad := v.bad || e.reg <= v.last)
    case Unregistered(name, k) => v.(m := Dropped(v.m, name, k))
    case Begun(name, toRun) =>
      v.(stack := v.stack + [Frame(toRun, 0)], taken := v.taken + OnceRegs(toRun),
         bad := v.bad || toRun == [] || toRun != Lookup(v.m, name),
         twice := v.twice || !(OnceRegs(toRun) !! v.taken) || !DistinctRegs(toRun))
    case Called(e) =>
      if MayCall(v, e) then
        v.(stack := Advanced(v.stack), spent := if e.once then v.spent + {e.reg} else v.spent)
      else v.(bad := true)
    case Ended(early) =>
      if v.stack == [] then v.(bad := true) else
      v.(stack := Under(v.stack), bad := v.bad || (!early && Top(v.stack).done < |Top(v.stack).toRun|))
  }

  function Top(stack: seq<Frame>): Frame
    requires stack != []
  {
    stack[|stack| - 1]
  }

  function Under(stack: seq<Frame>): seq<Frame>
    requires stack != []
  {
    stack[..|stack| - 1]
  }

  predicate LastIs(log: seq<Event>, ev: Event) { log != [] && log[|log| - 1] == ev }

  predicate NthIs(log: seq<Event>, n: nat, ev: Event) { n < |log| && log[n] == ev }

  predicate MayCall(v: View, e: Entry) { CallFits(v.stack, e) }

  predicate CallFits(stack: seq<Frame>, e: Entry) {
    stack != [] && Top(stack).done < |Top(stack).toRun| && Top(stack).toRun[Top(stack).done] == e
  }

  function Advanced(stack: seq<Frame>): (r: seq<Frame>)
    requires stack != []
    ensures r != [] && Under(r) == Under(stack) && Top(r) == Frame(Top(stack).toRun, Top(stack).done + 1)
  {
    stack[|stack| - 1 := Frame(Top(stack).toRun, Top(stack).done + 1)]
  }

  const NOTHING: View := View([], [], {}, {}, 0, false, false)

  /** The state after the first `n` events. */
  function ViewAt(log: seq<Event>, n: nat): View
    requires n <= |log|
  {
    if n == 0 then NOTHING else Next(ViewAt(log, n - 1), log[n - 1])
  }

  function Replay(log: seq<Event>): View { ViewAt(log, |log|) }

  lemma {:induction false} SameStart(log: seq<Event>, more: seq<Event>, n: nat)
    requires n <= |log|
    ensures ViewAt(log + more, n) == ViewAt(log, n)
  {
    if n > 0 { SameStart(log, more, n - 1); }
  }

  lemma Snoc(log: seq<Event>, ev: Event)
    ensures Replay(log + [ev]) == Next(Replay(log), ev)
  {
    SameStart(log, [ev], |log|);
  }

  lemma {:induction false} StaysMarked(log: seq<Event>, n: nat, k: nat)
    requires n <= k <= |log|
    ensures ViewAt(log, n).bad ==> ViewAt(log, k).bad
    ensures ViewAt(log, n).twice ==> ViewAt(log, k).twice
    decreases k
  {
    if n < k {
      StaysMarked(log, n, k - 1);
      MarkStays(ViewAt(log, k - 1), log[k - 1]);
    }
  }

  lemma MarkStays(v: View, ev: Event)
    ensures (v.bad ==> Next(v, ev).bad) && (v.twice ==> Next(v, ev).twice)
  {
  }

  // ---- an emit calls its snapshot ------------------------------------------------------

  /** The emits under way, by themselves. */
  function StackNext(stack: seq<Frame>, ev: Event): seq<Frame> {
    match ev
    case Begun(_, toRun) => stack + [Frame(toRun, 0)]
    case Called(e) => if CallFits(stack, e) then Advanced(stack) else stack
    case Ended(_) => if stack == [] then stack else Under(stack)
    case _ => stack
  }

  function StackAt(log: seq<Event>, n: nat): seq<Frame>
    requires n <= |log|
  {
    if n == 0 then [] else StackNext(StackAt(log, n - 1), log[n - 1])
  }

  /** What is not forbidden to the emits under way. */
  predicate Orderly(stack: seq<Frame>, ev: Event) {
    && (ev.Called? ==> CallFits(stack, ev.e))
    && (ev.Ended? ==> stack != [] && (ev.early || Top(stack).done >= |Top(stack).toRun|))
  }

  lemma NextStack(v: View, ev: Event)
    ensures Next(v, ev).stack == StackNext(v.stack, ev) && (!Next(v, ev).bad ==> Orderly(v.stack, ev))
  {
  }

  lemma {:induction false} StackOf(log: seq<Event>, n: nat)
    requires n <= |log|
    ensures StackAt(log, n) == ViewAt(log, n).stack
  {
    if n > 0 {
      StackOf(log, n - 1);
      NextStack(ViewAt(log, n - 1), log[n - 1]);
    }
  }

  lemma OrderlyAt(log: seq<Event>, n: nat)
    requires n < |log| && !Replay(log).bad
    ensures Orderly(StackAt(log, n), log[n])
  {
    NotBadAt(log, n);
    StackOf(log, n);
    NextStack(ViewAt(log, n), log[n]);
  }

  /** The listeners called at a nesting depth, from place `i` of the history on. */
  function CallsAt(log: seq<Event>, depth: nat, i: nat, j: nat): seq<Entry>
    requires i <= j <= |log|
    decreases j
  {
    if i == j then [] else
    CallsAt(log, depth, i, j - 1) + (if log[j - 1].Called? && Depth(log, j - 1) == depth then [log[j - 1].e] else [])
  }

  /** How many emits are under way. */
  function Depth(log: seq<Event>, n: nat): nat
    requires n <= |log|
  {
    |StackAt(log, n)|
  }

  /** The emit begun at `i` is still under way at `j`. */
  predicate UnderWay(log: seq<Event>, i: nat, j: nat)
    requires i < |log| && j <= |log|
  {
    forall k :: i < k <= j ==> Depth(log, k) > Depth(log, i)
  }

  /** The frame at depth `d` is that of an emit of `toRun` that has made these calls. */
  predicate FrameIs(stack: seq<Frame>, d: nat, toRun: seq<Entry>, calls: seq<Entry>) {
    |stack| > d && stack[d].toRun == toRun && stack[d].done <= |toRun| && calls == toRun[..stack[d].done]
  }

  lemma FrameStep(stack: seq<Frame>, ev: Event, d: nat, toRun: seq<Entry>, calls: seq<Entry>)
    requires FrameIs(stack, d, toRun, calls) && |StackNext(stack, ev)| > d && Orderly(stack, ev)
    ensures FrameIs(StackNext(stack, ev), d, toRun, calls + if ev.Called? && |stack| == d + 1 then [ev.e] else [])
  {
    if ev.Called? && |stack| == d + 1 {
      var n := stack[d].done;
      assert toRun[..n + 1] == toRun[..n] + [toRun[n]];
    } else {
      assert calls + [] == calls;
    }
  }

  /** While an emit is under way it has called a prefix of what it took, in order. */
  lemma {:induction false} CallsPrefix(log: seq<Event>, i: nat, j: nat)
    requires i < j <= |log| && !Replay(log).bad && log[i].Begun? && UnderWay(log, i, j)
    ensures var d := Depth(log, i);
      FrameIs(StackAt(log, j), d, log[i].toRun, CallsAt(log, d + 1, i + 1, j))
    decreases j
  {
    var d := Depth(log, i);
    assert Depth(log, j) > d;
    if j > i + 1 {
      CallsPrefix(log, i, j - 1);
      OrderlyAt(log, j - 1);
      FrameStep(StackAt(log, j - 1), log[j - 1], d, log[i].toRun, CallsAt(log, d + 1, i + 1, j - 1));
    } else {
      FrameBegins(StackAt(log, i), log[i].name, log[i].toRun);
    }
  }

  lemma BegunUnder(v: View, name: EventName, toRun: seq<Entry>)
    ensures var stack := Next(v, Begun(name, toRun)).stack;
      stack != [] && Top(stack) == Frame(toRun, 0) && Under(stack) == v.stack
  {
  }

  lemma FrameBegins(stack: seq<Frame>, name: EventName, toRun: seq<Entry>)
    ensures FrameIs(StackNext(stack, Begun(name, toRun)), |stack|, toRun, [])
  {
  }

  /** An emit that is not cut short has called exactly the listeners registered when it
      began, in order. */
  lemma EmitCallsSnapshot(log: seq<Event>, i: nat, j: nat)
    requires i < j < |log| && !Replay(log).bad && log[i].Begun? && UnderWay(log, i, j)
    requires log[j] == Ended(false) && Depth(log, j) == Depth(log, i) + 1
    ensures CallsAt(log, Depth(log, i) + 1, i + 1, j) == Lookup(ViewAt(log, i).m, log[i].name)
  {
    var d := Depth(log, i);
    CallsPrefix(log, i, j);
    TookAll(log, i);
    OrderlyAt(log, j);
    AllCalled(StackAt(log, j), d, log[i].toRun, CallsAt(log, d + 1, i + 1, j));
  }

  lemma NotBadAt(log: seq<Event>, n: nat)
    requires n < |log| && !Replay(log).bad
    ensures !Next(ViewAt(log, n), log[n]).bad
  {
    StaysMarked(log, n + 1, |log|);
  }

  lemma TookAll(log: seq<Event>, i: nat)
    requires i < |log| && !Replay(log).bad && log[i].Begun?
    ensures log[i].toRun == Lookup(ViewAt(log, i).m, log[i].name)
  {
    NotBadAt(log, i);
    BegunIs(ViewAt(log, i), log[i].name, log[i].toRun);
  }

  lemma BegunIs(v: View, name: EventName, toRun: seq<Entry>)
    requires !Next(v, Begun(name, toRun)).bad
    ensures toRun == Lookup(v.m, name)
  {
  }

  lemma AllCalled(stack: seq<Frame>, d: nat, toRun: seq<Entry>, calls: seq<Entry>)
    requires FrameIs(stack, d, toRun, calls) && |stack| == d + 1 && Orderly(stack, Ended(false))
    ensures calls == toRun
  {
    assert toRun[..|toRun|] == toRun;
  }

  // ---- a one-time listener runs once ----------------------------------------------------

  /** A one-time listener an emit under way still has to run. */
  predicate ToCome(stack: seq<Frame>, f: nat, k: nat) {
    f < |stack| && stack[f].done <= k < |stack[f].toRun| && stack[f].toRun[k].once
  }

  function RegAt(stack: seq<Frame>, f: nat, k: nat): nat {
    if f < |stack| && k < |stack[f].toRun| then stack[f].toRun[k].reg else 0
  }

  /** Nothing that is still to come has been run. */
  ghost predicate Unspent(v: View) {
    v.spent <= v.taken
    && forall f: nat, k: nat :: ToCome(v.stack, f, k) ==>
         RegAt(v.stack, f, k) in v.taken && RegAt(v.stack, f, k) !in v.spent
  }

  /** Nothing is to come twice. */
  ghost predicate Single(stack: seq<Frame>) {
    forall f: nat, k: nat, g: nat, l: nat ::
      (ToCome(stack, f, k) && ToCome(stack, g, l) && RegAt(stack, f, k) == RegAt(stack, g, l)) ==> (f == g && k == l)
  }

  ghost predicate OnceOnly(v: View) { Unspent(v) && Single(v.stack) }

  lemma BegunOnce(v: View, name: EventName, toRun: seq<Entry>)
    requires OnceOnly(v) && !Next(v, Begun(name, toRun)).twice
    ensures OnceOnly(Next(v, Begun(name, toRun)))
  {
    var w := Next(v, Begun(name, toRun));
    var d := |v.stack|;
    forall f: nat, k: nat | ToCome(w.stack, f, k)
      ensures RegAt(w.stack, f, k) in w.taken && RegAt(w.stack, f, k) !in w.spent
      ensures f < d ==> ToCome(v.stack, f, k) && RegAt(w.stack, f, k) == RegAt(v.stack, f, k)
      ensures f == d ==> RegAt(w.stack, f, k) in OnceRegs(toRun) && RegAt(w.stack, f, k) !in v.taken
    {
      if f < d { assert ToCome(v.stack, f, k); } else { assert toRun[k] in toRun && toRun[k].reg in OnceRegs(toRun); }
    }
  }

  /** Fewer listeners to come, and no more of them run than that. */
  lemma FewerOnce(v: View, w: View)
    requires OnceOnly(v) && w.taken == v.taken && w.spent <= w.taken
    requires forall f: nat, k: nat :: ToCome(w.stack, f, k) ==>
      (ToCome(v.stack, f, k) && RegAt(w.stack, f, k) == RegAt(v.stack, f, k) && RegAt(w.stack, f, k) !in w.spent)
    ensures OnceOnly(w)
  {
  }

  lemma CalledOnce(v: View, e: Entry)
    requires OnceOnly(v) && MayCall(v, e)
    ensures OnceOnly(Next(v, Called(e))) && (e.once ==> e.reg !in v.spent)
  {
    var w := Next(v, Called(e));
    var d := |v.stack| - 1;
    var n := v.stack[d].done;
    assert e.once ==> ToCome(v.stack, d, n);
    assert RegAt(v.stack, d, n) == e.reg;
    forall f: nat, k: nat | ToCome(w.stack, f, k)
      ensures ToCome(v.stack, f, k) && RegAt(w.stack, f, k) == RegAt(v.stack, f, k) && RegAt(w.stack, f, k) !in w.spent
    {
      assert ToCome(v.stack, f, k) && (f != d || k != n);
    }
    FewerOnce(v, w);
  }

  lemma OnceStep(v: View, ev: Event)
    requires OnceOnly(v) && !Next(v, ev).bad && !Next(v, ev).twice
    ensures OnceOnly(Next(v, ev))
    ensures ev.Called? && ev.e.once ==> ev.e.reg !in v.spent
  {
    match ev
    case Begun(name, toRun) => BegunOnce(v, name, toRun);
    case Called(e) => CalledOnce(v, e);
    case Ended(_) =>
      var w := Next(v, ev);
      forall f: nat, k: nat | ToCome(w.stack, f, k)
        ensures ToCome(v.stack, f, k) && RegAt(w.stack, f, k) == RegAt(v.stack, f, k)
      {
      }
      FewerOnce(v, w);
    case _ =>
  }

  lemma {:induction false} AlwaysOnceOnly(log: seq<Event>, n: nat)
    requires n <= |log| && !Replay(log).bad && !Replay(log).twice
    ensures OnceOnly(ViewAt(log, n))
  {
    if n > 0 {
      AlwaysOnceOnly(log, n - 1);
      StaysMarked(log, n, |log|);
      OnceStep(ViewAt(log, n - 1), log[n - 1]);
    }
  }

  lemma {:induction false} StaysSpent(log: seq<Event>, n: nat, k: nat)
    requires n <= k <= |log|
    ensures ViewAt(log, n).spent <= ViewAt(log, k).spent
    decreases k
  {
    if n < k {
      StaysSpent(log, n, k - 1);
      SpentStep(ViewAt(log, k - 1), log[k - 1]);
    }
  }

  lemma SpentStep(v: View, ev: Event)
    ensures v.spent <= Next(v, ev).spent
  {
  }

  /** In a run where no emit takes a one-time registration that another has taken, a
      one-time registration runs at most once, nested emits included. */
  lemma OnceRunsOnce(log: seq<Event>, i: nat, j: nat)
    requires i < j < |log| && !Replay(log).bad && !Replay(log).twice
    requires log[i].Called? && log[i].e.once && log[j].Called? && log[j].e.once
    ensures log[i].e.reg != log[j].e.reg
  {
    CallSpends(log, i);
    StaysSpent(log, i + 1, j);
    CallUnspent(log, j);
  }

  lemma CallUnspent(log: seq<Event>, j: nat)
    requires j < |log| && !Replay(log).bad && !Replay(log).twice && log[j].Called? && log[j].e.once
    ensures log[j].e.reg !in ViewAt(log, j).spent
  {
    StaysMarked(log, j + 1, |log|);
    AlwaysOnceOnly(log, j);
    OnceStep(ViewAt(log, j), log[j]);
  }

  lemma CallSpends(log: seq<Event>, i: nat)
    requires i < |log| && !Replay(log).bad && log[i].Called? && log[i].e.once
    ensures log[i].e.reg in ViewAt(log, i + 1).spent
  {
    StaysMarked(log, i + 1, |log|);
  }

  // ---- registration numbers ----------------------------------------------------------------

  predicate Stands(m: seq<Group>, i: nat, k: nat) { i < |m| && k < |m[i].entries| }

  function EntryAt(m: seq<Group>, i: nat, k: nat): Entry
    requires Stands(m, i, k)
  {
    m[i].entries[k]
  }

  /** No two registrations have one number, and none is past the last. */
  ghost predicate Numbered(m: seq<Group>, last: nat) {
    && (forall i: nat, k: nat :: Stands(m, i, k) ==> EntryAt(m, i, k).reg <= last)
    && (forall i: nat, k: nat, j: nat, l: nat ::
          (Stands(m, i, k) && Stands(m, j, l) && EntryAt(m, i, k).reg == EntryAt(m, j, l).reg) ==> (i == j && k == l))
  }

  /** No emit has taken a one-time registration that still stands. */
  ghost predicate Untaken(m: seq<Group>, taken: set<nat>) {
    forall i: nat, k: nat :: (Stands(m, i, k) && EntryAt(m, i, k).once) ==> EntryAt(m, i, k).reg !in taken
  }

  /** The registrations of one map among those of another, each at its own place. */
  ghost predicate Within(w: seq<Group>, m: seq<Group>, from: (nat, nat) -> (nat, nat)) {
    && (forall i: nat, k: nat :: Stands(w, i, k) ==> StandsAs(w, m, i, k, from(i, k)))
    && (forall i: nat, k: nat, j: nat, l: nat ::
          (Stands(w, i, k) && Stands(w, j, l) && from(i, k) == from(j, l)) ==> (i == j && k == l))
  }

  predicate StandsAs(w: seq<Group>, m: seq<Group>, i: nat, k: nat, place: (nat, nat)) {
    Stands(w, i, k) && Stands(m, place.0, place.1) && EntryAt(w, i, k) == EntryAt(m, place.0, place.1)
  }

  lemma WithinNumbered(w: seq<Group>, m: seq<Group>, from: (nat, nat) -> (nat, nat), last: nat, taken: set<nat>)
    requires Within(w, m, from) && Numbered(m, last)
    ensures Numbered(w, last) && (Untaken(m, taken) ==> Untaken(w, taken))
  {
    forall i: nat, k: nat | Stands(w, i, k)
      ensures EntryAt(w, i, k).reg <= last
        && (Untaken(m, taken) && EntryAt(w, i, k).once ==> EntryAt(w, i, k).reg !in taken)
    {
      assert StandsAs(w, m, i, k, from(i, k));
    }
    forall i: nat, k: nat, j: nat, l: nat | Stands(w, i, k) && Stands(w, j, l)
      && EntryAt(w, i, k).reg == EntryAt(w, j, l).reg
      ensures i == j && k == l
    {
      assert StandsAs(w, m, i, k, from(i, k)) && StandsAs(w, m, j, l, from(j, l));
    }
  }

  lemma DroppedNumbered(m: seq<Group>, last: nat, name: EventName, k: nat, taken: set<nat>)
    requires Numbered(m, last)
    ensures Numbered(Dropped(m, name, k), last) && (Untaken(m, taken) ==> Untaken(Dropped(m, name, k), taken))
  {
    var p := IndexOf(m, name);
    var w := Dropped(m, name, k);
    if p < |m| && k < |m[p].entries| {
      if |m[p].entries| == 1 {
        var from := (i: nat, l: nat) => (if i < p then i else i + 1, l);
        forall i: nat, l: nat | Stands(w, i, l) ensures StandsAs(w, m, i, l, from(i, l)) {}
        WithinNumbered(w, m, from, last, taken);
      } else {
        var from := (i: nat, l: nat) => (i, if i == p && l >= k then l + 1 else l);
        forall i: nat, l: nat | Stands(w, i, l) ensures StandsAs(w, m, i, l, from(i, l)) {}
        WithinNumbered(w, m, from, last, taken);
      }
    }
  }

  lemma AddedNumbered(m: seq<Group>, last: nat, name: EventName, e: Entry, prepend: bool, taken: set<nat>)
    requires Numbered(m, last) && e.reg > last
    ensures Numbered(Added(m, name, e, prepend), e.reg)
    ensures Untaken(m, taken) && (forall r :: r in taken ==> r <= last) ==> Untaken(Added(m, name, e, prepend), taken)
  {
    var w := Added(m, name, e, prepend);
    var p := IndexOf(m, name);
    forall i: nat, k: nat | Stands(w, i, k)
      ensures NewPlace(m, p, prepend, i, k) ==> EntryAt(w, i, k) == e
      ensures !NewPlace(m, p, prepend, i, k) ==> StandsAs(w, m, i, k, OldPlace(p, prepend, i, k))
    {
    }
    forall i: nat, k: nat, j: nat, l: nat | Stands(w, i, k) && Stands(w, j, l)
      && EntryAt(w, i, k).reg == EntryAt(w, j, l).reg
      ensures i == j && k == l
    {
      if NewPlace(m, p, prepend, i, k) || NewPlace(m, p, prepend, j, l) {
      } else {
        assert StandsAs(w, m, i, k, OldPlace(p, prepend, i, k)) && StandsAs(w, m, j, l, OldPlace(p, prepend, j, l));
      }
    }
  }

  /** Where a new registration goes in its group, and where the others were. */
  predicate NewPlace(m: seq<Group>, p: nat, prepend: bool, i: nat, k: nat) {
    i == p && k == if prepend || p >= |m| then 0 else |m[p].entries|
  }

  function OldPlace(p: nat, prepend: bool, i: nat, k: nat): (nat, nat) {
    (i, if i == p && prepend && k > 0 then k - 1 else k)
  }

  /** While an emit drops the one-time listeners it took, those still standing are at
      the places it has not come to. */
  ghost predicate Clearing(m: seq<Group>, name: EventName, i: nat, taken: set<nat>) {
    forall j: nat, k: nat :: (Stands(m, j, k) && EntryAt(m, j, k).once && EntryAt(m, j, k).reg in taken)
      ==> (j == IndexOf(m, name) && k < i)
  }

  lemma ClearingStarts(m: seq<Group>, name: EventName, last: nat, taken: set<nat>)
    requires Numbered(m, last) && Untaken(m, taken) && IndexOf(m, name) < |m|
    ensures var toRun := Lookup(m, name);
      && OnceRegs(toRun) !! taken && DistinctRegs(toRun) && (forall r :: r in OnceRegs(toRun) ==> r <= last)
      && Clearing(m, name, |toRun|, taken + OnceRegs(toRun))
  {
    var p := IndexOf(m, name);
    var toRun := Lookup(m, name);
    forall r | r in OnceRegs(toRun)
      ensures r <= last && r !in taken && exists k: nat :: Stands(m, p, k) && EntryAt(m, p, k).reg == r
    {
      var e :| e in toRun && e.once && e.reg == r;
      var k: nat :| k < |toRun| && toRun[k] == e;
      assert Stands(m, p, k) && EntryAt(m, p, k) == e;
    }
    forall i, j | 0 <= i < j < |toRun|
      ensures toRun[i].reg != toRun[j].reg
    {
      assert Stands(m, p, i) && Stands(m, p, j) && EntryAt(m, p, i) == toRun[i] && EntryAt(m, p, j) == toRun[j];
    }
  }

  lemma ClearingStep(m: seq<Group>, name: EventName, i: nat, taken: set<nat>)
    requires Clearing(m, name, i + 1, taken)
    ensures var es := Lookup(m, name);
      Clearing(if i < |es| && es[i].once then Dropped(m, name, i) else m, name, i, taken)
  {
    var es := Lookup(m, name);
    var p := IndexOf(m, name);
    if i < |es| && es[i].once {
      var w := Dropped(m, name, i);
      DroppedPlaces(m, name, i);
      if |es| > 1 { SameIndex(m, w, name); }
      forall j: nat, k: nat | Stands(w, j, k) && EntryAt(w, j, k).once && EntryAt(w, j, k).reg in taken
        ensures j == IndexOf(w, name) && k < i
      {
      }
    }
  }

  /** Where a registration stood before a removal. */
  function PlaceBefore(m: seq<Group>, name: EventName, i: nat, j: nat, k: nat): (nat, nat) {
    var p := IndexOf(m, name);
    if |Lookup(m, name)| == 1 then (if j < p then j else j + 1, k) else (j, if j == p && k >= i then k + 1 else k)
  }

  lemma DroppedPlaces(m: seq<Group>, name: EventName, i: nat)
    requires i < |Lookup(m, name)|
    ensures var w := Dropped(m, name, i);
      forall j: nat, k: nat :: Stands(w, j, k) ==> StandsAs(w, m, j, k, PlaceBefore(m, name, i, j, k))
  {
  }

  lemma ClearingEnds(m: seq<Group>, name: EventName, taken: set<nat>)
    requires Clearing(m, name, 0, taken)
    ensures Untaken(m, taken)
  {
  }

  /** How many registrations stand. */
  function Size(m: seq<Group>): nat {
    if m == [] then 0 else Size(m[..|m| - 1]) + |m[|m| - 1].entries|
  }

  lemma {:induction false} SizeUpdated(m: seq<Group>, p: nat, g: Group)
    requires p < |m|
    ensures Size(m[p := g]) == Size(m) - |m[p].entries| + |g.entries|
  {
    var init := m[..|m| - 1];
    if p == |m| - 1 {
      assert m[p := g][..|m| - 1] == init;
    } else {
      SizeUpdated(init, p, g);
      assert m[p := g][..|m| - 1] == init[p := g];
    }
  }

  lemma {:induction false} SizeWithout(m: seq<Group>, p: nat)
    requires p < |m|
    ensures Size(WithoutAt(m, p)) == Size(m) - |m[p].entries|
  {
    var init := m[..|m| - 1];
    if p == |m| - 1 {
      assert WithoutAt(m, p) == init;
    } else {
      SizeWithout(init, p);
      assert WithoutAt(m, p)[..|m| - 2] == WithoutAt(init, p);
    }
  }

  lemma DroppedSize(m: seq<Group>, name: EventName, k: nat)
    requires k < |Lookup(m, name)|
    ensures Size(Dropped(m, name, k)) == Size(m) - 1
  {
    var p := IndexOf(m, name);
    if |m[p].entries| == 1 { SizeWithout(m, p); } else { SizeUpdated(m, p, Group(name, WithoutAt(m[p].entries, k))); }
  }

  // ---- the emitter ----------------------------------------------------------------------------

  /** What a listener does to the emitter: the stretch of a tape up to its `Return`. */
  datatype Token =
    | On(name: EventName, fn: nat, once: bool, prepend: bool)
    | Off(name: EventName, fn: nat)
    | OffAll(which: Option<EventName>)
    | Emit(name: EventName, caught: bool)
    | Throw | Return

  /** How a stretch of a run ends. It stops for good where the next drop, of group `h`,
      would put the index and the list at odds: what the emitter does from then on is no
      longer told. */
  datatype Ending = Returned | Thrown | Stopped(h: nat)

  lemma FirstPlace(groups: seq<nat>, h: nat, i: nat)
    requires i <= |groups| && (i < |groups| ==> groups[i] == h) && forall j :: 0 <= j < i ==> groups[j] != h
    ensures WithoutHandle(groups, h) == if i < |groups| then WithoutAt(groups, i) else groups
  {
    assert PlaceIn(groups, h) == i;
  }

  /** The table against the history. */
  ghost predicate Fits(v: View, s: Store, last: nat) {
    Sound(s) && v.m == Abs(s) && !v.bad && v.last == last && Numbered(v.m, last)
  }

  /** A group for the emitter's own events has been noted. */
  predicate Watched(table: map<nat, Group>, noted: bool) {
    forall h :: h in table ==> (table[h].name == NewListener || table[h].name == RemoveListener) ==> noted
  }

  /** Nobody listens for removals. */
  predicate Unwatched(m: seq<Group>) { IndexOf(m, RemoveListener) == |m| }

  /** An error that monitors hear of first. */
  predicate Monitored(m: seq<Group>, name: EventName) { name == Error && Lookup(m, ErrorMonitor) != [] }

  /** In a quiet run nobody listens for removals, and no emit has taken a one-time
      registration twice, nor one that still stands. */
  ghost predicate Quiet(v: View) {
    && !v.twice && Unwatched(v.m) && (forall r :: r in v.taken ==> r <= v.last)
  }

  /** A registration brings no other name into the map, and a removal none at all. */
  lemma AddedOther(m: seq<Group>, name: EventName, e: Entry, prepend: bool)
    ensures name != RemoveListener && Unwatched(m) ==> Unwatched(Added(m, name, e, prepend))
  {
    var w := Added(m, name, e, prepend);
    if IndexOf(w, RemoveListener) < |w| {
      assert name == RemoveListener || m[IndexOf(w, RemoveListener)].name == RemoveListener;
    }
  }

  lemma DroppedOther(m: seq<Group>, name: EventName, k: nat)
    ensures Unwatched(m) ==> Unwatched(Dropped(m, name, k))
  {
    var w := Dropped(m, name, k);
    var p, i := IndexOf(m, name), IndexOf(w, RemoveListener);
    if i < |w| && |w| < |m| { assert w[i] == m[if i < p then i else i + 1]; }
  }

  lemma AddedWatched(s: Store, name: EventName, e: Entry, prepend: bool, noted: bool, now: bool)
    requires Sound(s) && Watched(s.table, noted) && (noted ==> now)
    requires name !in s.byString && (name == NewListener || name == RemoveListener) ==> now
    ensures Watched(AddTo(s, name, e, prepend).table, now) && Grown(s.table, AddTo(s, name, e, prepend).table)
  {
    GroupOfFinds(s, name);
    match GroupOf(s, name)
    case Some(h) => WithEntryWatched(s, h, e, prepend, noted, now);
    case None =>
      EnteredWatched(s, name, noted, now);
      var (t, h) := Entered(s, name);
      WithEntryWatched(t, h, e, prepend, now, now);
  }

  lemma WithEntryWatched(s: Store, h: nat, e: Entry, prepend: bool, noted: bool, now: bool)
    requires h in s.table && Watched(s.table, noted) && (noted ==> now)
    ensures Watched(WithEntry(s, h, e, prepend).table, now) && Grown(s.table, WithEntry(s, h, e, prepend).table)
  {
  }

  lemma EnteredWatched(s: Store, name: EventName, noted: bool, now: bool)
    requires Sound(s) && GroupOf(s, name).None? && Watched(s.table, noted) && (noted ==> now)
    requires name == NewListener || name == RemoveListener ==> now
    ensures Watched(Entered(s, name).0.table, now) && Grown(s.table, Entered(s, name).0.table)
  {
  }

  /** Groups are never forgotten, and keep their names. */
  predicate Grown(a: map<nat, Group>, b: map<nat, Group>) {
    forall h :: h in a ==> h in b && b[h].name == a[h].name
  }

  /** An emit of a name with listeners may begin. */
  lemma BeginFits(v: View, s: Store, name: EventName)
    requires Fits(v, s, v.last) && Lookup(v.m, name) != []
    ensures var w := Next(v, Begun(name, Lookup(v.m, name)));
      && Fits(w, s, v.last) && w.m == v.m
      && (Quiet(v) && Untaken(v.m, v.taken) ==> Quiet(w) && Clearing(w.m, name, |Lookup(v.m, name)|, w.taken))
  {
    if Untaken(v.m, v.taken) { ClearingStarts(v.m, name, v.last, v.taken); }
  }

  lemma DropShrinks(v: View, s: Store, h: nat, k: nat)
    requires Fits(v, s, v.last) && h in s.table && k < |s.table[h].entries|
    ensures Size(Next(v, Unregistered(s.table[h].name, k)).m) == Size(v.m) - 1
    ensures Lookup(Next(v, Unregistered(s.table[h].name, k)).m, s.table[h].name) == WithoutAt(s.table[h].entries, k)
  {
    DropIsOfName(s, h, k);
    AbsNames(s);
    DroppedUnregisters(v.m, s.table[h].name, k);
    DroppedSize(v.m, s.table[h].name, k);
  }

  /** A registration fits the history it is noted in. */
  lemma InsertFits(v: View, s: Store, name: EventName, e: Entry, prepend: bool)
    requires Fits(v, s, v.last) && e.reg == v.last + 1
    ensures Fits(Next(v, Registered(name, e, prepend)), AddTo(s, name, e, prepend), v.last + 1)
    ensures name != RemoveListener && Quiet(v) ==> Quiet(Next(v, Registered(name, e, prepend)))
    ensures Untaken(v.m, v.taken) && Quiet(v) ==> Untaken(Added(v.m, name, e, prepend), v.taken)
  {
    AddRefines(s, name, e, prepend);
    AddedNumbered(v.m, v.last, name, e, prepend, v.taken);
    AddedOther(v.m, name, e, prepend);
  }

  /** The last event is a registration, and is seen as one. */
  ghost predicate JustRegistered(log: seq<Event>, name: EventName, e: Entry, prepend: bool) {
    && LastIs(log, Registered(name, e, prepend))
    && Registers(ViewAt(log, |log| - 1).m, Replay(log).m, name, e, prepend)
  }

  lemma RegisteredIsSeen(log: seq<Event>, name: EventName, e: Entry, prepend: bool)
    ensures JustRegistered(log + [Registered(name, e, prepend)], name, e, prepend)
    ensures Registers(Replay(log).m, Replay(log + [Registered(name, e, prepend)]).m, name, e, prepend)
  {
    SameStart(log, [Registered(name, e, prepend)], |log|);
    AddedRegisters(Replay(log).m, name, e, prepend);
  }

  /** The groups with one listener less. */
  function Cut(table: map<nat, Group>, h: nat, k: nat): (t: map<nat, Group>)
    requires h in table && k < |table[h].entries|
    ensures Grown(table, t)
  {
    table[h := Group(table[h].name, WithoutAt(table[h].entries, k))]
  }

  /** So does a removal. */
  lemma DropFits(v: View, s: Store, h: nat, k: nat)
    requires Fits(v, s, v.last) && h in s.table && k < |s.table[h].entries|
    ensures var w := Next(v, Unregistered(s.table[h].name, k));
      Fits(w, DropAt(s, h, k), v.last) && (Quiet(v) ==> Quiet(w)) && (Untaken(v.m, v.taken) ==> Untaken(w.m, v.taken))
    ensures Lookup(v.m, s.table[h].name) == s.table[h].entries
    ensures DropAt(s, h, k).table == Cut(s.table, h, k)
  {
    var name := s.table[h].name;
    DropIsOfName(s, h, k);
    DroppedNumbered(v.m, v.last, name, k, v.taken);
    DroppedOther(v.m, name, k);
  }

  lemma DropIsOfName(s: Store, h: nat, k: nat)
    requires Sound(s) && h in s.table && k < |s.table[h].entries|
    ensures Sound(DropAt(s, h, k)) && Abs(DropAt(s, h, k)) == Dropped(Abs(s), s.table[h].name, k)
    ensures Lookup(Abs(s), s.table[h].name) == s.table[h].entries
    ensures var t := DropAt(s, h, k).table;
      t == s.table[h := Group(s.table[h].name, WithoutAt(s.table[h].entries, k))]
  {
    assert InUse(s, h);
    DropRefines(s, h, k);
    var i :| 0 <= i < |s.groups| && s.groups[i] == h;
    PlaceOf(s, h, i);
  }

  /** The place of a listener's last registration, the length if it has none. */
  function LastPlace(entries: seq<Entry>, fn: nat): (i: nat)
    ensures i <= |entries| && (i < |entries| ==> entries[i].fn == fn)
    ensures forall j :: (if i < |entries| then i + 1 else 0) <= j < |entries| ==> entries[j].fn != fn
  {
    LastBefore(entries, fn, |entries|)
  }

  function LastBefore(entries: seq<Entry>, fn: nat, n: nat): (i: nat)
    requires n <= |entries| && forall j :: n <= j < |entries| ==> entries[j].fn != fn
    ensures i <= |entries| && (i < |entries| ==> entries[i].fn == fn)
    ensures forall j :: (if i < |entries| then i + 1 else 0) <= j < |entries| ==> entries[j].fn != fn
  {
    if n == 0 then |entries| else if entries[n - 1].fn == fn then n - 1 else LastBefore(entries, fn, n - 1)
  }

  /** The map without the last registration of a listener for a name. */
  function Removed(m: seq<Group>, name: EventName, fn: nat): seq<Group> {
    Dropped(m, name, LastPlace(Lookup(m, name), fn))
  }

  lemma RemovedNone(m: seq<Group>, name: EventName, fn: nat)
    ensures LastPlace(Lookup(m, name), fn) == |Lookup(m, name)| ==> Removed(m, name, fn) == m
    ensures Lookup(m, name) == [] ==> Removed(m, name, fn) == m
  {
  }

  function Fns(entries: seq<Entry>): seq<nat> { seq(|entries|, i requires 0 <= i < |entries| => entries[i].fn) }

  method Copied(entries: seq<Entry>) returns (fns: seq<nat>)
    ensures fns == Fns(entries)
  {
    fns := [];
    for i := 0 to |entries|
      invariant fns == Fns(entries)[..i]
    {
      fns := fns + [entries[i].fn];
    }
  }

  /** The map without a name. */
  function WithoutName(m: seq<Group>, name: EventName): seq<Group> {
    var p := IndexOf(m, name);
    if p < |m| then WithoutAt(m, p) else m
  }

  lemma InUseIsListed(s: Store, h: nat)
    requires Sound(s) && h in s.table && s.table[h].entries != []
    ensures var p := IndexOf(Abs(s), s.table[h].name); p < |s.groups| && Abs(s)[p] == s.table[h]
  {
    assert InUse(s, h);
    var i :| 0 <= i < |s.groups| && s.groups[i] == h;
    PlaceOf(s, h, i);
  }

  lemma TailWithout(m: seq<Group>, j: nat)
    requires DistinctNames(m) && j < |m|
    ensures WithoutName(m[j..], m[j].name) == m[j + 1..]
  {
    assert m[j..][0].name == m[j].name;
    assert IndexOf(m[j..], m[j].name) == 0;
  }

  /** From place `j` on, the groups of a snapshot are what they were. */
  predicate Still(table: map<nat, Group>, snapshot: seq<nat>, m: seq<Group>, j: nat) {
    |snapshot| == |m| && Distinct(snapshot)
    && forall k :: j <= k < |m| ==> snapshot[k] in table && table[snapshot[k]] == m[k] && m[k].entries != []
  }

  lemma StillNext(table: map<nat, Group>, snapshot: seq<nat>, m: seq<Group>, j: nat)
    requires Still(table, snapshot, m, j) && j < |m|
    ensures Still(table[snapshot[j] := Group(table[snapshot[j]].name, [])], snapshot, m, j + 1)
  {
  }

  lemma AllStill(s: Store)
    requires Sound(s)
    ensures Still(s.table, s.groups, Abs(s), 0)
  {
    forall k | 0 <= k < |s.groups| ensures s.groups[k] in s.table && s.table[s.groups[k]].entries != [] {
      assert InUse(s, s.groups[k]);
    }
  }

  /** A drop past the end of a group's array changes nothing in the map, and keeps the
      table sound unless it is stale. */
  lemma PastEndFits(v: View, s: Store, h: nat, k: nat)
    requires Fits(v, s, v.last) && h in s.table && k >= |s.table[h].entries| && !Stale(s, h)
    ensures Fits(v, DropAt(s, h, k), v.last) && DropAt(s, h, k).table == s.table
  {
    DropSafeExactly(s, h, k);
    if s.table[h].entries == [] {
      assert !InUse(s, h);
      assert forall i :: 0 <= i < |s.groups| ==> InUse(s, s.groups[i]);
    }
  }

  /** A name has gone, and a group with it; everything else is as it was. */
  ghost predicate Gone(m: seq<Group>, t: map<nat, Group>, h: nat, w: seq<Group>, u: map<nat, Group>) {
    h in t && w == WithoutName(m, t[h].name) && u == t[h := Group(t[h].name, [])]
  }

  lemma WithoutNameGone(m: seq<Group>, name: EventName)
    requires DistinctNames(m)
    ensures IndexOf(WithoutName(m, name), name) == |WithoutName(m, name)|
  {
  }

  lemma WithoutNameUnwatched(m: seq<Group>, name: EventName)
    requires Unwatched(m)
    ensures Unwatched(WithoutName(m, name))
  {
  }

  lemma WithoutChanged(m: seq<Group>, p: nat, g: Group)
    requires p < |m|
    ensures WithoutAt(m[p := g], p) == WithoutAt(m, p)
  {
  }

  /** A name that is to go may lose its last listener first. */
  lemma GoneMap(m: seq<Group>, name: EventName, i: nat)
    requires DistinctNames(m) && i == |Lookup(m, name)| > 0
    ensures WithoutName(Dropped(m, name, i - 1), name) == WithoutName(m, name)
    ensures i == 1 ==> Dropped(m, name, 0) == WithoutName(m, name)
  {
    var p, x := IndexOf(m, name), Dropped(m, name, i - 1);
    if i == 1 {
      WithoutNameGone(m, name);
    } else {
      SameIndex(m, x, name);
      WithoutChanged(m, p, x[p]);
    }
  }

  /** The last listener gone, the name is; before that, what is left goes. */
  lemma GoneThen(s: Store, m: seq<Group>, h: nat, i: nat, x: seq<Group>, y: map<nat, Group>,
        w: seq<Group>, u: map<nat, Group>)
    requires Sound(s) && m == Abs(s) && h in s.table && |s.table[h].entries| == i > 0
    requires x == Dropped(m, s.table[h].name, i - 1) && y == Cut(s.table, h, i - 1)
    requires if i == 1 then w == x && u == y else Gone(x, y, h, w, u)
    ensures Gone(m, s.table, h, w, u)
  {
    var name := s.table[h].name;
    AbsNames(s);
    InUseIsListed(s, h);
    GoneMap(m, name, i);
    assert s.table[h := Group(name, [])] == y[h := Group(name, [])];
  }

  /** With nobody told, the groups of a snapshot from place `j` on are what is left. */
  ghost predicate LeftFrom(w: seq<Group>, u: map<nat, Group>, snapshot: seq<nat>, m: seq<Group>, j: nat) {
    j <= |m| && w == m[j..] && Unwatched(w) && DistinctNames(m) && Still(u, snapshot, m, j)
  }

  lemma LeftNext(w: seq<Group>, u: map<nat, Group>, snapshot: seq<nat>, m: seq<Group>, j: nat)
    requires LeftFrom(w, u, snapshot, m, j) && j < |m|
    ensures snapshot[j] in u && u[snapshot[j]].entries != [] && u[snapshot[j]].name != RemoveListener
  {
    assert w[0] == m[j] == u[snapshot[j]];
  }

  lemma LeftThen(w: seq<Group>, u: map<nat, Group>, x: seq<Group>, y: map<nat, Group>,
        snapshot: seq<nat>, m: seq<Group>, j: nat)
    requires LeftFrom(w, u, snapshot, m, j) && j < |m| && snapshot[j] in u
    requires Gone(w, u, snapshot[j], x, y)
    ensures LeftFrom(x, y, snapshot, m, j + 1)
  {
    TailWithout(m, j);
    WithoutNameUnwatched(w, m[j].name);
    StillNext(u, snapshot, m, j);
  }

  /** The scan of `removeEntry`. */
  method LastOf(entries: seq<Entry>, fn: nat) returns (i: nat)
    ensures i == LastPlace(entries, fn)
  {
    i := |entries|;
    while i > 0
      invariant i <= |entries| && forall j :: i <= j < |entries| ==> entries[j].fn != fn
      invariant LastPlace(entries, fn) == LastBefore(entries, fn, i)
    {
      i := i - 1;
      if entries[i].fn == fn { return; }
    }
    i := |entries|;
  }

  class EventEmitter {
    const quiet: bool                // nobody registers a removeListener listener
    var groups: seq<nat>
    var byString: map<EventName, nat>
    var table: map<nat, Group>       // the groups, by identity
    var next: nat
    var metaWatched: bool
    var lastReg: nat

    ghost var log: seq<Event>

    ghost function Now(): Store
      reads `groups, `byString, `table, `next
    {
      Store(groups, byString, table, next)
    }

    /** The ordered map of listeners. */
    ghost function Listening(): seq<Group>
      reads `log
    {
      Replay(log).m
    }

    ghost predicate Core()
      reads this
    {
      && Fits(Replay(log), Now(), lastReg)
      && Watched(table, metaWatched)
      && (quiet ==> Quiet(Replay(log)))
    }

    ghost predicate Valid()
      reads this
    {
      Core() && (quiet ==> Untaken(Replay(log).m, Replay(log).taken))
    }

    constructor (quiet: bool)
      ensures Valid() && this.quiet == quiet && log == [] && Listening() == []
    {
      this.quiet := quiet;
      groups, byString, table, next, metaWatched, lastReg, log := [], map[], map[], 0, false, 0, [];
    }

    ghost method Log(ev: Event)
      modifies `log
      ensures log == old(log) + [ev] && Replay(log) == Next(Replay(old(log)), ev)
    {
      Snoc(log, ev);
      log := log + [ev];
    }

    /** `groupOf`: the index for a string, a search for a symbol. */
    method FindGroup(name: EventName) returns (h: Option<nat>)
      requires Sound(Now())
      ensures h == GroupOf(Now(), name)
    {
      if IsString(name) {
        return if name in byString && table[byString[name]].entries != [] then Some(byString[name]) else None;
      }
      var i := 0;
      while i < |groups|
        invariant i <= |groups| && forall j :: 0 <= j < i ==> Abs(Now())[j].name != name
      {
        if table[groups[i]].name == name {
          return Some(groups[i]);
        }
        i := i + 1;
      }
      return None;
    }

    /** `dropEntry` */
    method DropEntry(h: nat, k: nat)
      requires h in table
      modifies `groups, `byString, `table
      ensures Now() == DropAt(old(Now()), h, k)
    {
      if k < |table[h].entries| {
        table := table[h := Group(table[h].name, WithoutAt(table[h].entries, k))];
      }
      if |table[h].entries| > 0 { return; }
      var i := 0;
      while i < |groups| && groups[i] != h
        invariant i <= |groups| && forall j :: 0 <= j < i ==> groups[j] != h
      {
        i := i + 1;
      }
      FirstPlace(groups, h, i);
      if i < |groups| { groups := WithoutAt(groups, i); }
      if IsString(table[h].name) && |byString| > KEPT_NAMES { byString := byString - {table[h].name}; }
    }

    /** The table part of `addEntry`. */
    method InsertEntry(name: EventName, e: Entry, prepend: bool)
      requires Sound(Now())
      modifies `groups, `byString, `table, `next, `metaWatched
      ensures Now() == AddTo(old(Now()), name, e, prepend)
      ensures metaWatched == old(metaWatched)
        || (metaWatched && name !in old(byString) && (name == NewListener || name == RemoveListener))
      ensures name !in old(byString) && (name == NewListener || name == RemoveListener) ==> metaWatched
    {
      var found := FindGroup(name);
      GroupOfFinds(Now(), name);
      ghost var was := Now();
      var h;
      if found.Some? {
        h := found.value;
      } else {
        h := EnterGroup(name);
      }
      table := table[h := Group(table[h].name, Placed(table[h].entries, e, prepend))];
    }

    /** A group for a name without listeners goes to the end: the parked one, or a new one. */
    method EnterGroup(name: EventName) returns (h: nat)
      requires Sound(Now())
      modifies `groups, `byString, `table, `next, `metaWatched
      ensures (Now(), h) == Entered(old(Now()), name) && h in table
      ensures metaWatched == old(metaWatched)
        || (metaWatched && name !in old(byString) && (name == NewListener || name == RemoveListener))
      ensures name !in old(byString) && (name == NewListener || name == RemoveListener) ==> metaWatched
    {
      if IsString(name) && name in byString {
        h := byString[name];
        groups := groups + [h];
      } else {
        h := next;
        next := next + 1;
        table := table[h := Group(name, [])];
        if name == NewListener || name == RemoveListener { metaWatched := true; }
        if IsString(name) { byString := byString[name := h]; }
        groups := groups + [h];
      }
    }

    /** A run stops only where the next drop is stale. */
    ghost predicate Stops(how: Ending)
      reads this
    {
      how.Stopped? ==> Sound(Now()) && how.h in table && Stale(Now(), how.h)
    }

    /** What a callback leaves as it was, and that it makes progress: it uses up tape, or
        at least no registration is added. */
    twostate predicate Kept(was: seq<Token>, rest: seq<Token>)
      reads this
    {
      Replay(log).stack == old(Replay(log)).stack && Later(was, rest)
    }

    twostate predicate Later(was: seq<Token>, rest: seq<Token>)
      reads this
    {
      && old(log) <= log
      && |rest| <= |was| && (|rest| == |was| ==> Size(Listening()) <= old(Size(Listening())))
    }

    /** A registration, after its event. */
    method Insert(name: EventName, fn: nat, once: bool, prepend: bool)
      requires Valid() && !(quiet && name == RemoveListener)
      modifies this
      ensures Valid() && Replay(log).stack == old(Replay(log)).stack && Grown(old(table), table)
      ensures log == old(log) + [Registered(name, Entry(fn, once, lastReg), prepend)]
    {
      var e := Entry(fn, once, lastReg + 1);
      InsertQuietly(name, e, prepend);
      lastReg := lastReg + 1;
      Log(Registered(name, e, prepend));
    }

    /** A registration, before its event: the table is what the event will make it. */
    method InsertQuietly(name: EventName, e: Entry, prepend: bool)
      requires Core() && e.reg == lastReg + 1
      modifies `groups, `byString, `table, `next, `metaWatched
      ensures Fits(Next(Replay(log), Registered(name, e, prepend)), Now(), lastReg + 1)
      ensures Watched(table, metaWatched) && Grown(old(table), table)
      ensures name != RemoveListener && Quiet(Replay(log)) ==> Quiet(Next(Replay(log), Registered(name, e, prepend)))
      ensures Untaken(Replay(log).m, Replay(log).taken) && Quiet(Replay(log)) ==>
        Untaken(Added(Replay(log).m, name, e, prepend), Replay(log).taken)
    {
      ghost var was, noted := Now(), metaWatched;
      InsertFits(Replay(log), was, name, e, prepend);
      InsertEntry(name, e, prepend);
      AddedWatched(was, name, e, prepend, noted, metaWatched);
    }

    /** A removal, before its event: the table is what the event will make it. */
    method DropQuietly(h: nat, k: nat)
      requires Core() && h in table && k < |table[h].entries|
      modifies `groups, `byString, `table
      ensures Fits(Next(Replay(log), Unregistered(old(table[h].name), k)), Now(), lastReg)
        && Watched(table, metaWatched)
      ensures table == Cut(old(table), h, k)
    {
      DropFits(Replay(log), Now(), h, k);
      DropEntry(h, k);
    }

    /** A removal and its event. */
    method Drop(h: nat, k: nat)
      requires Core() && h in table && k < |table[h].entries|
      modifies `groups, `byString, `table, `log
      ensures Core() && Replay(log) == Next(old(Replay(log)), Unregistered(old(table[h].name), k)) && old(log) <= log
      ensures table == Cut(old(table), h, k)
      ensures old(Valid()) ==> Valid()
    {
      var name := table[h].name;
      DropFits(Replay(log), Now(), h, k);
      DropQuietly(h, k);
      Log(Unregistered(name, k));
    }

    /** Start an emit: the listeners it takes are those of its name. */
    method Begin(name: EventName, h: nat) returns (toRun: seq<Entry>)
      requires Valid() && GroupOf(Now(), name) == Some(h)
      modifies `log
      ensures Core() && h in table && table[h].name == name
        && toRun == table[h].entries == Lookup(old(Listening()), name)
      ensures Replay(log) == Next(old(Replay(log)), Begun(name, toRun)) && log == old(log) + [Begun(name, toRun)]
        && toRun != []
      ensures quiet ==> Clearing(Listening(), name, |toRun|, Replay(log).taken)
    {
      GroupOfFinds(Now(), name);
      toRun := table[h].entries;
      BeginFits(Replay(log), Now(), name);
      Log(Begun(name, toRun));
    }

    /** `notifyRemoved` */
    method NotifyRemoved(tape: seq<Token>) returns (rest: seq<Token>, how: Ending)
      requires Core()
      modifies this
      ensures Core() && Kept(tape, rest) && Grown(old(table), table) && Stops(how)
      ensures Unwatched(old(Listening())) ==>
        rest == tape && how.Returned? && log == old(log) && Now() == old(Now())
      decreases |tape|, Size(Listening()), 11
    {
      rest, how := tape, Returned;
      if metaWatched {
        var watcher := FindGroup(RemoveListener);
        GroupOfFinds(Now(), RemoveListener);
        if watcher.Some? {
          var handled;
          rest, how, handled := EmitDispatch(RemoveListener, rest);
        }
      }
    }

    /** Drop the one-time listeners an emit has taken, last first. */
    method DropOnce(h: nat, name: EventName, toRun: seq<Entry>, tape: seq<Token>)
      returns (rest: seq<Token>, how: Ending)
      requires Core() && h in table && table[h].name == name
      requires quiet ==>
        table[h].entries == Lookup(Listening(), name)
        && Clearing(Listening(), name, |toRun|, Replay(log).taken)
      modifies this
      ensures Valid() && Kept(tape, rest) && Grown(old(table), table) && Stops(how)
      decreases |tape|, Size(Listening()), 5
    {
      rest, how := tape, Returned;
      var i: nat := |toRun|;
      while i > 0
        invariant i <= |toRun| && Core() && Kept(tape, rest) && Grown(old(table), table) && how.Returned?
        invariant quiet ==>
          table[h].entries == Lookup(Listening(), name)
          && Clearing(Listening(), name, i, Replay(log).taken)
        decreases i
      {
        i := i - 1;
        rest, how := DropIfOnce(h, name, i, rest);
        if how != Returned { return; }
      }
      if quiet { ClearingEnds(Listening(), name, Replay(log).taken); }
    }

    method DropIfOnce(h: nat, name: EventName, i: nat, tape: seq<Token>) returns (rest: seq<Token>, how: Ending)
      requires Core() && h in table && table[h].name == name
      requires quiet ==>
        table[h].entries == Lookup(Listening(), name)
        && Clearing(Listening(), name, i + 1, Replay(log).taken)
      modifies this
      ensures Core() && Kept(tape, rest) && Grown(old(table), table) && (quiet ==> how.Returned?) && Stops(how)
      ensures quiet ==>
        table[h].entries == Lookup(Listening(), name)
        && Clearing(Listening(), name, i, Replay(log).taken)
      decreases |tape|, Size(Listening()), 4
    {
      rest, how := tape, Returned;
      if quiet { ClearingStep(Listening(), name, i, Replay(log).taken); }
      if i < |table[h].entries| && table[h].entries[i].once {
        rest, how := DropAndTell(h, i, true, rest);
      }
    }

    /** Drop a listener and, unless it is to be done in silence, tell those who listen
        for removals. */
    method DropAndTell(h: nat, k: nat, notify: bool, tape: seq<Token>) returns (rest: seq<Token>, how: Ending)
      requires Core() && h in table && k < |table[h].entries|
      modifies this
      ensures Core() && Kept(tape, rest) && Grown(old(table), table) && Stops(how)
      ensures Unwatched(old(Listening())) ==>
        how.Returned? && rest == tape && Replay(log) == Next(old(Replay(log)), Unregistered(old(table[h].name), k))
        && table[h].entries == Lookup(Listening(), old(table[h].name)) && (old(Valid()) ==> Valid())
        && table == Cut(old(table), h, k)
      decreases |tape|, Size(Listening()), 3
    {
      DropShrinks(Replay(log), Now(), h, k);
      DroppedOther(Listening(), table[h].name, k);
      Drop(h, k);
      rest, how := tape, Returned;
      if notify { rest, how := NotifyRemoved(rest); }
    }

    /** One listener of the running emit. */
    method RunListener(e: Entry, tape: seq<Token>) returns (rest: seq<Token>, how: Ending)
      requires Valid() && MayCall(Replay(log), e)
      modifies this
      ensures Valid() && Replay(log).stack == Advanced(old(Replay(log)).stack) && Later(tape, rest)
        && Grown(old(table), table)
      ensures Stops(how)
      decreases |tape|, Size(Listening()), 2
    {
      Log(Called(e));
      rest, how := Callback(tape);
    }

    /** The listeners an emit has taken, in order, until one throws. */
    method RunAll(toRun: seq<Entry>, tape: seq<Token>) returns (rest: seq<Token>, how: Ending)
      requires Valid() && Replay(log).stack != [] && Top(Replay(log).stack) == Frame(toRun, 0)
      modifies this
      ensures Valid() && Later(tape, rest) && Grown(old(table), table) && Replay(log).stack != [] && Stops(how)
      ensures Under(Replay(log).stack) == Under(old(Replay(log)).stack)
      ensures Top(Replay(log).stack).toRun == toRun && (how.Returned? ==> Top(Replay(log).stack).done == |toRun|)
      decreases |tape|, Size(Listening()), 3
    {
      rest, how := tape, Returned;
      var i := 0;
      while i < |toRun|
        invariant i <= |toRun| && Valid() && Later(tape, rest) && Grown(old(table), table) && how.Returned?
        invariant Replay(log).stack != [] && Top(Replay(log).stack) == Frame(toRun, i)
        invariant Under(Replay(log).stack) == Under(old(Replay(log)).stack)
        decreases |toRun| - i
      {
        rest, how := RunListener(toRun[i], rest);
        if how != Returned { return; }
        i := i + 1;
      }
    }

    /** `emitDispatch` */
    method EmitDispatch(name: EventName, tape: seq<Token>) returns (rest: seq<Token>, how: Ending, handled: bool)
      requires Valid()
      modifies this
      ensures Valid() && Kept(tape, rest) && Grown(old(table), table) && Stops(how)
      ensures name == Error && how.Returned? ==> handled && LastIs(log, Ended(false))
      ensures Monitored(old(Listening()), name) ==>
        NthIs(log, |old(log)|, Begun(ErrorMonitor, Lookup(old(Listening()), ErrorMonitor)))
      ensures !Monitored(old(Listening()), name) && Lookup(old(Listening()), name) == [] ==>
        log == old(log) && !handled && how == if name == Error then Thrown else Returned
      ensures !Monitored(old(Listening()), name) && Lookup(old(Listening()), name) != [] ==>
        handled && NthIs(log, |old(log)|, Begun(name, Lookup(old(Listening()), name)))
          && LastIs(log, Ended(how != Returned))
      decreases |tape|, Size(Listening()), if name == Error then 10 else 9
    {
      rest, how, handled := tape, Returned, false;
      if name == Error {
        var monitor := FindGroup(ErrorMonitor);
        GroupOfFinds(Now(), ErrorMonitor);
        if monitor.Some? {
          rest, how, handled := EmitDispatch(ErrorMonitor, rest);
          if how != Returned { return; }
        }
      }
      var group := FindGroup(name);
      GroupOfFinds(Now(), name);
      if group.None? {
        return rest, if name == Error then Thrown else Returned, false;
      }
      rest, how := EmitTo(name, group.value, rest);
      handled := true;
    }

    method EmitTo(name: EventName, h: nat, tape: seq<Token>) returns (rest: seq<Token>, how: Ending)
      requires Valid() && GroupOf(Now(), name) == Some(h)
      modifies this
      ensures Valid() && Kept(tape, rest) && Grown(old(table), table) && Stops(how)
      ensures NthIs(log, |old(log)|, Begun(name, Lookup(old(Listening()), name))) && LastIs(log, Ended(how != Returned))
      decreases |tape|, Size(Listening()), 8
    {
      ghost var v := Replay(log);
      var toRun := Begin(name, h);
      BegunUnder(v, name, toRun);
      rest, how := EmitTaken(h, name, toRun, tape);
    }

    /** An emit under way: its one-time listeners are dropped before any listener runs. A
        lone listener goes the same way. */
    method EmitTaken(h: nat, name: EventName, toRun: seq<Entry>, tape: seq<Token>)
      returns (rest: seq<Token>, how: Ending)
      requires Core() && h in table && table[h].name == name
      requires Replay(log).stack != [] && Top(Replay(log).stack) == Frame(toRun, 0)
      requires quiet ==>
        table[h].entries == Lookup(Listening(), name)
        && Clearing(Listening(), name, |toRun|, Replay(log).taken)
      modifies this
      ensures Valid() && Later(tape, rest) && Grown(old(table), table) && LastIs(log, Ended(how != Returned))
        && Stops(how)
      ensures Replay(log).stack == Under(old(Replay(log)).stack)
      decreases |tape|, Size(Listening()), 7
    {
      rest, how := RunTaken(h, name, toRun, tape);
      Finish(how);
    }

    /** What an emit does between its beginning and its end. */
    method RunTaken(h: nat, name: EventName, toRun: seq<Entry>, tape: seq<Token>)
      returns (rest: seq<Token>, how: Ending)
      requires Core() && h in table && table[h].name == name
      requires Replay(log).stack != [] && Top(Replay(log).stack) == Frame(toRun, 0)
      requires quiet ==>
        table[h].entries == Lookup(Listening(), name)
        && Clearing(Listening(), name, |toRun|, Replay(log).taken)
      modifies this
      ensures Valid() && Later(tape, rest) && Grown(old(table), table) && Replay(log).stack != [] && Stops(how)
      ensures Under(Replay(log).stack) == Under(old(Replay(log)).stack)
      ensures how.Returned? ==> Top(Replay(log).stack).done == |Top(Replay(log).stack).toRun|
      decreases |tape|, Size(Listening()), 6
    {
      rest, how := DropOnce(h, name, toRun, tape);
      if how.Returned? { rest, how := RunAll(toRun, rest); }
    }

    method Finish(how: Ending)
      requires Valid() && Replay(log).stack != []
      requires how.Returned? ==> Top(Replay(log).stack).done == |Top(Replay(log).stack).toRun|
      modifies `log
      ensures Valid() && Replay(log).stack == Under(old(Replay(log)).stack) && Listening() == old(Listening())
      ensures old(log) <= log && LastIs(log, Ended(how != Returned))
    {
      Log(Ended(how != Returned));
    }

    /** A listener: whatever it does until it returns or throws. */
    method Callback(tape: seq<Token>) returns (rest: seq<Token>, how: Ending)
      requires Valid()
      modifies this
      ensures Valid() && Kept(tape, rest) && Grown(old(table), table) && Stops(how)
      decreases |tape|, Size(Listening()), 1
    {
      rest, how := tape, Returned;
      while rest != [] && rest[0] != Return && rest[0] != Throw
        invariant Valid() && Kept(tape, rest) && Grown(old(table), table) && how.Returned?
        decreases |rest|
      {
        rest, how := Act(rest);
        if how != Returned { return; }
      }
      if rest != [] {
        if rest[0] == Throw { how := Thrown; }
        rest := rest[1..];
      }
    }

    method Act(tape: seq<Token>) returns (rest: seq<Token>, how: Ending)
      requires Valid() && tape != []
      modifies this
      ensures Valid() && Kept(tape, rest) && Grown(old(table), table) && |rest| < |tape| && Stops(how)
      decreases |tape|, Size(Listening()), 0
    {
      rest, how := tape[1..], Returned;
      match tape[0] {
        case On(name, fn, once, prepend) =>
          if !(quiet && name == RemoveListener) { rest, how := AddEntry(name, fn, once, prepend, rest); }
        case Off(name, fn) => rest, how := RemoveEntry(name, fn, rest);
        case OffAll(which) => rest, how := RemoveAllListeners(which, rest);
        case Emit(name, caught) =>
          var handled;
          rest, how, handled := EmitDispatch(name, rest);
          if caught && how.Thrown? { how := Returned; }
        case _ =>
      }
    }

    /** `addEntry`: those who listen for registrations are told first. */
    method AddEntry(name: EventName, fn: nat, once: bool, prepend: bool, tape: seq<Token>)
      returns (rest: seq<Token>, how: Ending)
      requires Valid() && !(quiet && name == RemoveListener)
      modifies this
      ensures Valid() && Replay(log).stack == old(Replay(log)).stack && old(log) <= log && |rest| <= |tape|
      ensures Grown(old(table), table) && Stops(how)
      ensures Lookup(old(Listening()), NewListener) == [] ==>
        how.Returned? && rest == tape
        && Registers(old(Listening()), Listening(), name, Entry(fn, once, lastReg), prepend)
      ensures how.Returned? ==> JustRegistered(log, name, Entry(fn, once, lastReg), prepend)
      decreases |tape|, Size(Listening()), 12
    {
      rest, how := NotifyAdding(tape);
      if how.Returned? {
        ghost var told := log;
        Insert(name, fn, once, prepend);
        RegisteredIsSeen(told, name, Entry(fn, once, lastReg), prepend);
      }
    }

    method NotifyAdding(tape: seq<Token>) returns (rest: seq<Token>, how: Ending)
      requires Valid()
      modifies this
      ensures Valid() && Kept(tape, rest) && Grown(old(table), table) && Stops(how)
      ensures Lookup(old(Listening()), NewListener) == [] ==>
        rest == tape && how.Returned? && log == old(log) && Now() == old(Now())
      decreases |tape|, Size(Listening()), 11
    {
      rest, how := tape, Returned;
      if metaWatched {
        var watcher := FindGroup(NewListener);
        GroupOfFinds(Now(), NewListener);
        if watcher.Some? {
          var handled;
          rest, how, handled := EmitDispatch(NewListener, rest);
        }
      }
    }

    /** `removeEntry`: the last registration of a listener. */
    method RemoveEntry(name: EventName, fn: nat, tape: seq<Token>) returns (rest: seq<Token>, how: Ending)
      requires Valid()
      modifies this
      ensures Valid() && Kept(tape, rest) && Grown(old(table), table) && Stops(how)
      ensures Unwatched(old(Listening())) ==>
        how.Returned? && rest == tape && Listening() == Removed(old(Listening()), name, fn)
      decreases |tape|, Size(Listening()), 12
    {
      rest, how := tape, Returned;
      var group := FindGroup(name);
      GroupOfFinds(Now(), name);
      RemovedNone(Listening(), name, fn);
      if group.Some? { rest, how := RemoveLast(group.value, fn, rest); }
    }

    /** The last registration of a listener in a group, if it has one. */
    method RemoveLast(h: nat, fn: nat, tape: seq<Token>) returns (rest: seq<Token>, how: Ending)
      requires Valid() && h in table && table[h].entries == Lookup(Listening(), table[h].name)
      modifies this
      ensures Valid() && Kept(tape, rest) && Grown(old(table), table) && Stops(how)
      ensures Unwatched(old(Listening())) ==>
        how.Returned? && rest == tape && Listening() == Removed(old(Listening()), old(table[h].name), fn)
      decreases |tape|, Size(Listening()), 11
    {
      rest, how := tape, Returned;
      RemovedNone(Listening(), table[h].name, fn);
      var i := LastOf(table[h].entries, fn);
      if i < |table[h].entries| {
        rest, how := DropAndTell(h, i, true, rest);
      }
    }

    /** A drop at a place past the end of the group's array, which listeners told of
        earlier removals have shortened. */
    method DropPastEnd(h: nat, k: nat, notify: bool, tape: seq<Token>) returns (rest: seq<Token>, how: Ending)
      requires Valid() && h in table && k >= |table[h].entries| && !Stale(Now(), h)
      modifies this
      ensures Valid() && Kept(tape, rest) && Grown(old(table), table) && Stops(how)
      decreases |tape|, Size(Listening()), 12
    {
      PastEndFits(Replay(log), Now(), h, k);
      DropEntry(h, k);
      rest, how := tape, Returned;
      if notify { rest, how := NotifyRemoved(rest); }
    }

    /** One turn of `removeGroup`. */
    method RemoveAt(h: nat, i: nat, notify: bool, tape: seq<Token>) returns (rest: seq<Token>, how: Ending)
      requires Valid() && h in table
      modifies this
      ensures Valid() && Kept(tape, rest) && Grown(old(table), table) && Stops(how)
      ensures Unwatched(old(Listening())) && i < old(|table[h].entries|) ==>
        how.Returned? && rest == tape && table == Cut(old(table), h, i)
        && Listening() == Dropped(old(Listening()), old(table[h].name), i)
      decreases |tape|, Size(Listening()), 13
    {
      rest, how := tape, Returned;
      if i < |table[h].entries| {
        rest, how := DropAndTell(h, i, notify, rest);
      } else if Stale(Store(groups, byString, table, next), h) {
        how := Stopped(h);
      } else {
        rest, how := DropPastEnd(h, i, notify, rest);
      }
    }

    /** The turns of `removeGroup` from place `i` down. With nobody told, `alone`, the
        group loses the listeners it has, and every other name and group stays as it was. */
    method RemoveFrom(h: nat, i: nat, notify: bool, tape: seq<Token>, ghost alone: bool)
      returns (rest: seq<Token>, how: Ending)
      requires Valid() && h in table && i > 0
      requires alone ==> Unwatched(Listening()) && |table[h].entries| == i
      modifies this
      ensures Valid() && Kept(tape, rest) && Grown(old(table), table) && Stops(how)
      ensures alone ==>
        how.Returned? && rest == tape && Gone(old(Listening()), old(table), h, Listening(), table)
      decreases |tape|, Size(Listening()), 14, i
    {
      ghost var s, m := Now(), Listening();
      DroppedOther(m, table[h].name, i - 1);
      rest, how := RemoveAt(h, i - 1, notify, tape);
      ghost var x, y := Listening(), table;
      if how.Returned? && i > 1 { rest, how := RemoveFrom(h, i - 1, notify, rest, alone); }
      if alone { GoneThen(s, m, h, i, x, y, Listening(), table); }
    }

    /** `removeGroup`: last registered first. */
    method RemoveGroup(h: nat, notify: bool, tape: seq<Token>) returns (rest: seq<Token>, how: Ending)
      requires Valid() && h in table
      modifies this
      ensures Valid() && Kept(tape, rest) && Grown(old(table), table) && Stops(how)
      ensures old(Unwatched(Listening()) && table[h].entries != []) ==>
        how.Returned? && rest == tape && Gone(old(Listening()), old(table), h, Listening(), table)
      decreases |tape|, Size(Listening()), 15
    {
      rest, how := tape, Returned;
      if table[h].entries != [] {
        rest, how := RemoveFrom(h, |table[h].entries|, notify, rest, Unwatched(Listening()));
      }
    }

    /** `removeAllListeners`, of one name or of all. */
    method RemoveAllListeners(which: Option<EventName>, tape: seq<Token>) returns (rest: seq<Token>, how: Ending)
      requires Valid()
      modifies this
      ensures Valid() && Kept(tape, rest) && Grown(old(table), table) && Stops(how)
      ensures Unwatched(old(Listening())) ==>
        how.Returned? && rest == tape
        && Listening() == match which case None => [] case Some(name) => WithoutName(old(Listening()), name)
      decreases |tape|, Size(Listening()), 19
    {
      match which
      case Some(name) =>
        rest, how := tape, Returned;
        var group := FindGroup(name);
        GroupOfFinds(Now(), name);
        if group.Some? { rest, how := RemoveGroup(group.value, true, rest); }
      case None => rest, how := RemoveEveryGroup(tape);
    }

    /** The next group of a snapshot, unless it is of those who listen for removals. */
    method RemoveNext(snapshot: seq<nat>, j: nat, ghost m: seq<Group>, tape: seq<Token>)
      returns (rest: seq<Token>, how: Ending, watching: bool)
      requires Valid() && j < |snapshot| && snapshot[j] in table
      modifies this
      ensures Valid() && Kept(tape, rest) && Grown(old(table), table) && Stops(how)
      ensures j < |m| && LeftFrom(old(Listening()), old(table), snapshot, m, j) ==>
        how.Returned? && rest == tape && !watching && LeftFrom(Listening(), table, snapshot, m, j + 1)
      decreases |tape|, Size(Listening()), 16
    {
      ghost var w, u := Listening(), table;
      if j < |m| && LeftFrom(w, u, snapshot, m, j) { LeftNext(w, u, snapshot, m, j); }
      watching := table[snapshot[j]].name == RemoveListener;
      if watching { return tape, Returned, true; }
      rest, how := RemoveGroup(snapshot[j], true, tape);
      if j < |m| && LeftFrom(w, u, snapshot, m, j) { LeftThen(w, u, Listening(), table, snapshot, m, j); }
    }

    /** Group by group, in the order of a snapshot; those who listen for removals go last,
        and untold. */
    method RemoveEveryGroup(tape: seq<Token>) returns (rest: seq<Token>, how: Ending)
      requires Valid()
      modifies this
      ensures Valid() && Kept(tape, rest) && Grown(old(table), table) && Stops(how)
      ensures Unwatched(old(Listening())) ==> how.Returned? && rest == tape && Listening() == []
      decreases |tape|, Size(Listening()), 18
    {
      ghost var m := Listening();
      AllStill(Now());
      AbsNames(Now());
      var watchers;
      rest, how, watchers := RemoveSnapshot(groups, m, tape);
      if how.Returned? && watchers.Some? { rest, how := RemoveGroup(watchers.value, false, rest); }
    }

    /** The groups of a snapshot, but for those who listen for removals. */
    method RemoveSnapshot(snapshot: seq<nat>, ghost m: seq<Group>, tape: seq<Token>)
      returns (rest: seq<Token>, how: Ending, watchers: Option<nat>)
      requires Valid() && |snapshot| == |m| && forall k :: 0 <= k < |snapshot| ==> snapshot[k] in table
      modifies this
      ensures Valid() && Kept(tape, rest) && Grown(old(table), table) && Stops(how)
      ensures watchers.Some? ==> watchers.value in old(table)
      ensures LeftFrom(old(Listening()), old(table), snapshot, m, 0) ==>
        how.Returned? && rest == tape && watchers.None? && LeftFrom(Listening(), table, snapshot, m, |m|)
      decreases |tape|, Size(Listening()), 17
    {
      rest, how, watchers := tape, Returned, None;
      ghost var unwatched := LeftFrom(Listening(), table, snapshot, m, 0);
      var j := 0;
      while j < |snapshot| && how == Returned
        invariant j <= |snapshot| && Valid() && Kept(tape, rest) && Grown(old(table), table) && Stops(how)
        invariant watchers.Some? ==> watchers.value in old(table)
        invariant unwatched ==>
          how.Returned? && rest == tape && watchers.None? && LeftFrom(Listening(), table, snapshot, m, j)
      {
        var watching;
        rest, how, watching := RemoveNext(snapshot, j, m, rest);
        if watching { watchers := Some(snapshot[j]); }
        j := j + 1;
      }
    }

    /** `listeners` */
    method Listeners(name: EventName) returns (fns: seq<nat>)
      requires Valid()
      ensures fns == Fns(Lookup(Listening(), name))
    {
      var group := FindGroup(name);
      GroupOfFinds(Now(), name);
      if group.None? { return []; }
      fns := Copied(table[group.value].entries);
    }

    /** `listenerCount`, of every listener of a name or of one. */
    method ListenerCount(name: EventName, fn: Option<nat>) returns (count: nat)
      requires Valid()
      ensures count == match fn
        case None => |Lookup(Listening(), name)|
        case Some(f) => multiset(Fns(Lookup(Listening(), name)))[f]
    {
      var fns := Listeners(name);
      if fn.None? { return |fns|; }
      count := 0;
      for i := 0 to |fns|
        invariant count == multiset(fns[..i])[fn.value]
      {
        assert fns[..i + 1] == fns[..i] + [fns[i]];
        if fns[i] == fn.value { count := count + 1; }
      }
      assert fns[..|fns|] == fns;
    }

    /** `eventNames` */
    method EventNames() returns (names: seq<EventName>)
      requires Valid()
      ensures names == Names(Listening())
    {
      names := [];
      var i := 0;
      while i < |groups|
        invariant i <= |groups| && names == Names(Listening())[..i]
      {
        names := names + [table[groups[i]].name];
        i := i + 1;
      }
    }
  }
}
