/** When a one-time listener runs more than once: exactly when two emits have taken the same
    registration, which takes a listener for removals that emits in its turn. */
module OnceRuns {
  import opened Wrappers
  import opened ListenerStore
  import opened EventEmitters

  /** A call of the one-time registration numbered `reg`. */
  predicate OnceCall(log: seq<Event>, p: nat, reg: nat) {
    p < |log| && log[p].Called? && log[p].e.once && log[p].e.reg == reg
  }

  ghost predicate RunsTwice(log: seq<Event>) {
    exists p: nat, q: nat, reg: nat :: p < q && OnceCall(log, p, reg) && OnceCall(log, q, reg)
  }

  /** The emit begun at `i` has taken the one-time registration numbered `reg`. */
  predicate Takes(log: seq<Event>, i: nat, reg: nat) {
    i < |log| && log[i].Begun? && reg in OnceRegs(log[i].toRun)
  }

  // ---- two emits that take one registration ----------------------------------------------------

  lemma {:induction false} NumberedAt(log: seq<Event>, n: nat)
    requires n <= |log| && !ViewAt(log, n).bad
    ensures Numbered(ViewAt(log, n).m, ViewAt(log, n).last)
  {
    if n > 0 {
      var v := ViewAt(log, n - 1);
      MarkStays(v, log[n - 1]);
      NumberedAt(log, n - 1);
      match log[n - 1]
      case Registered(name, e, prepend) => AddedNumbered(v.m, v.last, name, e, prepend, {});
      case Unregistered(name, k) => DroppedNumbered(v.m, v.last, name, k, {});
      case _ =>
    }
  }

  lemma LookupDistinct(m: seq<Group>, name: EventName, last: nat)
    requires Numbered(m, last)
    ensures DistinctRegs(Lookup(m, name))
  {
    var p, toRun := IndexOf(m, name), Lookup(m, name);
    forall i, j | 0 <= i < j < |toRun|
      ensures toRun[i].reg != toRun[j].reg
    {
      assert Stands(m, p, i) && Stands(m, p, j) && EntryAt(m, p, i) == toRun[i] && EntryAt(m, p, j) == toRun[j];
    }
  }

  lemma TakenStep(v: View, ev: Event, reg: nat)
    ensures reg in Next(v, ev).taken <==> reg in v.taken || (ev.Begun? && reg in OnceRegs(ev.toRun))
  {
  }

  lemma TakenOnce(log: seq<Event>, n: nat, reg: nat)
    requires n < |log|
    ensures reg in ViewAt(log, n + 1).taken <==> reg in ViewAt(log, n).taken || Takes(log, n, reg)
  {
    TakenStep(ViewAt(log, n), log[n], reg);
  }

  /** One of the first `n` events takes the registration. */
  predicate TakenBy(log: seq<Event>, n: nat, reg: nat) { exists i: nat :: i < n && Takes(log, i, reg) }

  lemma {:induction false} TakenIs(log: seq<Event>, n: nat, reg: nat)
    requires n <= |log|
    ensures reg in ViewAt(log, n).taken <==> TakenBy(log, n, reg)
  {
    if n > 0 {
      TakenIs(log, n - 1, reg);
      TakenOnce(log, n - 1, reg);
      TakenByMore(log, n - 1, reg);
    }
  }

  lemma TakenByMore(log: seq<Event>, n: nat, reg: nat)
    ensures TakenBy(log, n + 1, reg) <==> TakenBy(log, n, reg) || Takes(log, n, reg)
  {
  }

  /** Where an emit takes what another has taken. */
  lemma {:induction false} TwiceTaken(log: seq<Event>, n: nat) returns (i: nat, j: nat, reg: nat)
    requires n <= |log| && !ViewAt(log, n).bad && ViewAt(log, n).twice
    ensures i < j < n && Takes(log, i, reg) && Takes(log, j, reg)
  {
    MarkStays(ViewAt(log, n - 1), log[n - 1]);
    if ViewAt(log, n - 1).twice {
      i, j, reg := TwiceTaken(log, n - 1);
    } else {
      NumberedAt(log, n - 1);
      reg := TakesAgain(ViewAt(log, n - 1), log[n - 1]);
      TakenIs(log, n - 1, reg);
      i :| i < n - 1 && Takes(log, i, reg);
      j := n - 1;
    }
  }

  lemma TakesAgain(v: View, ev: Event) returns (reg: nat)
    requires !v.twice && Next(v, ev).twice && !Next(v, ev).bad && Numbered(v.m, v.last)
    ensures ev.Begun? && reg in OnceRegs(ev.toRun) && reg in v.taken
  {
    LookupDistinct(v.m, ev.name, v.last);
    reg :| reg in OnceRegs(ev.toRun) && reg in v.taken;
  }

  /** `twice` says exactly that two emits have taken one registration. */
  lemma TwiceIs(log: seq<Event>)
    requires !Replay(log).bad
    ensures Replay(log).twice <==> exists i: nat, j: nat, reg: nat :: i < j && Takes(log, i, reg) && Takes(log, j, reg)
  {
    if Replay(log).twice { var i, j, reg := TwiceTaken(log, |log|); }
    if i: nat, j: nat, reg: nat :| i < j && Takes(log, i, reg) && Takes(log, j, reg) {
      TakenIs(log, j, reg);
      AgainTaken(ViewAt(log, j), log[j], reg);
      StaysMarked(log, j + 1, |log|);
    }
  }

  lemma AgainTaken(v: View, ev: Event, reg: nat)
    requires reg in v.taken && ev.Begun? && reg in OnceRegs(ev.toRun)
    ensures Next(v, ev).twice
  {
  }

  // ---- what is taken is run --------------------------------------------------------------------

  lemma DepthStep(log: seq<Event>, k: nat)
    requires k < |log|
    ensures Depth(log, k + 1) >= Depth(log, k) || (log[k].Ended? && Depth(log, k + 1) == Depth(log, k) - 1)
  {
  }

  /** The end of an emit that is not under way any more. */
  lemma {:induction false} EndOf(log: seq<Event>, i: nat, n: nat) returns (j: nat)
    requires i < n <= |log| && log[i].Begun? && Depth(log, n) <= Depth(log, i)
    ensures i < j < n && UnderWay(log, i, j) && log[j].Ended? && Depth(log, j) == Depth(log, i) + 1
    decreases n
  {
    if k: nat :| i < k < n && Depth(log, k) <= Depth(log, i) {
      j := EndOf(log, i, k);
    } else {
      j := n - 1;
      assert Depth(log, i + 1) == Depth(log, i) + 1;
      DepthStep(log, j);
    }
  }

  lemma {:induction false} CallMade(log: seq<Event>, depth: nat, i: nat, j: nat, e: Entry) returns (p: nat)
    requires i <= j <= |log| && e in CallsAt(log, depth, i, j)
    ensures i <= p < j && log[p] == Called(e) && Depth(log, p) == depth
    decreases j
  {
    if log[j - 1] == Called(e) && Depth(log, j - 1) == depth { return j - 1; }
    p := CallMade(log, depth, i, j - 1, e);
  }

  /** No emit was cut short, and none is under way. */
  predicate Whole(log: seq<Event>) {
    Depth(log, |log|) == 0 && Ended(true) !in log
  }

  /** An emit that has taken a registration has called it, at its own depth. */
  lemma TakenRuns(log: seq<Event>, i: nat, reg: nat) returns (p: nat, j: nat)
    requires !Replay(log).bad && Whole(log) && Takes(log, i, reg)
    ensures i < p < j < |log| && UnderWay(log, i, j) && OnceCall(log, p, reg) && Depth(log, p) == Depth(log, i) + 1
  {
    j := WholeEnd(log, i);
    EmitCallsSnapshot(log, i, j);
    TookAll(log, i);
    var e := RegTaken(log[i].toRun, reg);
    p := CallMade(log, Depth(log, i) + 1, i + 1, j, e);
  }

  lemma WholeEnd(log: seq<Event>, i: nat) returns (j: nat)
    requires Whole(log) && i < |log| && log[i].Begun?
    ensures i < j < |log| && UnderWay(log, i, j) && log[j] == Ended(false) && Depth(log, j) == Depth(log, i) + 1
  {
    j := EndOf(log, i, |log|);
    assert log[j] in log;
  }

  lemma RegTaken(toRun: seq<Entry>, reg: nat) returns (e: Entry)
    requires reg in OnceRegs(toRun)
    ensures e in toRun && e.once && e.reg == reg
  {
    e :| e in toRun && e.once && e.reg == reg;
  }

  /** In a run whose emits are all over and none of them cut short, a one-time registration
      has run more than once if and only if two emits have taken it. */
  lemma TwiceExactly(log: seq<Event>)
    requires !Replay(log).bad && Whole(log)
    ensures RunsTwice(log) <==> Replay(log).twice
  {
    if Replay(log).twice {
      var i, k, reg := TwiceTaken(log, |log|);
      var p, j := TakenRuns(log, i, reg);
      var q, l := TakenRuns(log, k, reg);
      CallsApart(log, i, j, p, k, l, q);
      if p < q {
        assert OnceCall(log, p, reg) && OnceCall(log, q, reg);
      } else {
        assert OnceCall(log, q, reg) && OnceCall(log, p, reg);
      }
    } else if RunsTwice(log) {
      var p: nat, q: nat, reg: nat :| p < q && OnceCall(log, p, reg) && OnceCall(log, q, reg);
      OnceRunsOnce(log, p, q);
    }
  }

  /** Two emits make their calls at different places. */
  lemma CallsApart(log: seq<Event>, i: nat, j: nat, p: nat, k: nat, l: nat, q: nat)
    requires i < p < j < |log| && k < q < l < |log| && i < k
    requires UnderWay(log, i, j) && UnderWay(log, k, l)
    requires Depth(log, p) == Depth(log, i) + 1 && Depth(log, q) == Depth(log, k) + 1
    ensures p != q
  {
    if k <= j { assert Depth(log, k) > Depth(log, i); }
  }

  // ---- a run in which it happens -----------------------------------------------------------------

  /** `r` listens for removals, `a` and `b` once for `x`. An emit of `x` takes both and drops
      `b` first; told of that, `r` emits `x` again, which takes what is left, drops `a`, and
      runs it once `r` has been told and found nobody to emit to. Back in the first emit, `a` is
      run as it was taken. */
  function Meeting(x: EventName, r: Entry, a: Entry, b: Entry): seq<Event> {
    Registering(x, r, a, b) + (Telling(x, r, [a, b], 1) + (Telling(x, r, [a], 0) + Running(a, b)))
  }

  function Registering(x: EventName, r: Entry, a: Entry, b: Entry): seq<Event> {
    [Registered(RemoveListener, r, false), Registered(x, a, false), Registered(x, b, false)]
  }

  /** An emit, up to those told of its removal at place `k`. */
  function Telling(x: EventName, r: Entry, toRun: seq<Entry>, k: nat): seq<Event> {
    [Begun(x, toRun), Unregistered(x, k), Begun(RemoveListener, [r]), Called(r)]
  }

  function Running(a: Entry, b: Entry): seq<Event> {
    [Ended(false), Called(a), Ended(false)] + [Ended(false), Called(a), Called(b), Ended(false)]
  }

  /** What a stretch of the history makes of a view. */
  function After(v: View, evs: seq<Event>): View
    decreases |evs|
  {
    if evs == [] then v else After(Next(v, evs[0]), evs[1..])
  }

  lemma {:induction false} AfterMore(v: View, a: seq<Event>, b: seq<Event>)
    ensures After(v, a + b) == After(After(v, a), b)
    decreases |a|
  {
    if a == [] {
      assert a + b == b;
    } else {
      assert (a + b)[1..] == a[1..] + b;
      AfterMore(Next(v, a[0]), a[1..], b);
    }
  }

  lemma {:induction false} ReplayMore(log: seq<Event>, evs: seq<Event>)
    ensures Replay(log + evs) == After(Replay(log), evs)
    decreases |evs|
  {
    if evs == [] {
      assert log + evs == log;
    } else {
      Snoc(log, evs[0]);
      assert log + evs == (log + [evs[0]]) + evs[1..];
      ReplayMore(log + [evs[0]], evs[1..]);
    }
  }

  lemma AfterOne(v: View, e: Event)
    ensures After(v, [e]) == Next(v, e)
  {
    assert [e][1..] == [];
  }

  lemma AfterThree(v: View, e: Event, f: Event, g: Event)
    ensures After(v, [e, f, g]) == Next(Next(Next(v, e), f), g)
  {
    assert [e, f, g] == [e] + ([f] + [g]);
    AfterMore(v, [e], [f] + [g]);
    AfterMore(Next(v, e), [f], [g]);
    AfterOne(v, e);
    AfterOne(Next(v, e), f);
    AfterOne(Next(Next(v, e), f), g);
  }

  lemma AfterFour(v: View, e: Event, f: Event, g: Event, h: Event)
    ensures After(v, [e, f, g, h]) == Next(Next(Next(Next(v, e), f), g), h)
  {
    assert [e, f, g, h] == [e, f, g] + [h];
    AfterMore(v, [e, f, g], [h]);
    AfterThree(v, e, f, g);
    AfterOne(Next(Next(Next(v, e), f), g), h);
  }

  /** The maps of the run: a listener for removals, and none, one or two for `x`. */
  function Alone(r: Entry): seq<Group> { [Group(RemoveListener, [r])] }

  function With(x: EventName, r: Entry, entries: seq<Entry>): seq<Group> {
    if entries == [] then Alone(r) else Alone(r) + [Group(x, entries)]
  }

  lemma Found(x: EventName, r: Entry, entries: seq<Entry>)
    requires x != RemoveListener
    ensures IndexOf(With(x, r, entries), x) == 1 && IndexOf(With(x, r, entries), RemoveListener) == 0
    ensures Lookup(With(x, r, entries), x) == entries && Lookup(With(x, r, entries), RemoveListener) == [r]
  {
    assert With(x, r, entries)[0].name == RemoveListener;
    if entries != [] { assert With(x, r, entries)[1].name == x; }
  }

  lemma MapsAdded(x: EventName, r: Entry, a: Entry, b: Entry)
    requires x != RemoveListener
    ensures Added([], RemoveListener, r, false) == Alone(r) && Added(Alone(r), x, a, false) == With(x, r, [a])
    ensures Added(With(x, r, [a]), x, b, false) == With(x, r, [a, b])
  {
    Found(x, r, []);
    Found(x, r, [a]);
    assert Placed([a], b, false) == [a, b];
  }

  lemma MapsDropped(x: EventName, r: Entry, entries: seq<Entry>, e: Entry)
    requires x != RemoveListener
    ensures Dropped(With(x, r, entries + [e]), x, |entries|) == With(x, r, entries)
  {
    Found(x, r, entries + [e]);
    assert WithoutAt(entries + [e], |entries|) == entries;
    if entries == [] { assert WithoutAt(With(x, r, [e]), 1) == Alone(r); }
  }

  /** The three registered. */
  function Start(x: EventName, r: Entry, a: Entry, b: Entry): View {
    View(With(x, r, [a, b]), [], {}, {}, b.reg, false, false)
  }

  lemma Registers(x: EventName, r: Entry, a: Entry, b: Entry)
    requires x != RemoveListener && 0 < r.reg < a.reg < b.reg
    ensures After(NOTHING, Registering(x, r, a, b)) == Start(x, r, a, b)
  {
    MapsAdded(x, r, a, b);
    AfterThree(NOTHING, Registered(RemoveListener, r, false), Registered(x, a, false), Registered(x, b, false));
  }

  /** An emit of `x` comes to its removal of the last listener, and `r` is called. */
  lemma Tells(v: View, x: EventName, r: Entry, entries: seq<Entry>, e: Entry)
    requires x != RemoveListener && !r.once && v.m == With(x, r, entries + [e]) && !v.bad
    ensures var w := After(v, Telling(x, r, entries + [e], |entries|));
      && w.m == With(x, r, entries) && w.stack == v.stack + [Frame(entries + [e], 0), Frame([r], 1)]
      && w.taken == v.taken + OnceRegs(entries + [e]) && !w.bad && w.last == v.last
  {
    var toRun := entries + [e];
    AfterFour(v, Begun(x, toRun), Unregistered(x, |entries|), Begun(RemoveListener, [r]), Called(r));
    Found(x, r, toRun);
    Found(x, r, entries);
    MapsDropped(x, r, entries, e);
    var v1 := Next(v, Begun(x, toRun));
    assert v1.stack == v.stack + [Frame(toRun, 0)] && v1.m == v.m && !v1.bad;
    var v2 := Next(v1, Unregistered(x, |entries|));
    assert v2 == v1.(m := With(x, r, entries));
    var v3 := Next(v2, Begun(RemoveListener, [r]));
    assert OnceRegs([r]) == {};
    assert v3.stack == v1.stack + [Frame([r], 0)] && !v3.bad && v3.taken == v1.taken;
  }

  lemma Ends(v: View, under: seq<Frame>, f: Frame)
    requires v.stack == under + [f] && f.done >= |f.toRun| && !v.bad
    ensures Next(v, Ended(false)).stack == under && !Next(v, Ended(false)).bad
  {
  }

  lemma Calls(v: View, under: seq<Frame>, toRun: seq<Entry>, k: nat)
    requires v.stack == under + [Frame(toRun, k)] && k < |toRun| && !v.bad
    ensures var w := Next(v, Called(toRun[k])); w.stack == under + [Frame(toRun, k + 1)] && !w.bad
  {
  }

  /** Those told return, the inner emit runs `a`, and the outer one runs both. */
  lemma RunsInside(v: View, r: Entry, a: Entry, b: Entry)
    requires v.stack == [Frame([a, b], 0), Frame([r], 1), Frame([a], 0), Frame([r], 1)] && !v.bad
    ensures var w := After(v, [Ended(false), Called(a), Ended(false)]);
      w.stack == [Frame([a, b], 0), Frame([r], 1)] && !w.bad
  {
    var outer := [Frame([a, b], 0), Frame([r], 1)];
    AfterThree(v, Ended(false), Called(a), Ended(false));
    assert v.stack == (outer + [Frame([a], 0)]) + [Frame([r], 1)];
    Ends(v, outer + [Frame([a], 0)], Frame([r], 1));
    var v1 := Next(v, Ended(false));
    Calls(v1, outer, [a], 0);
    Ends(Next(v1, Called(a)), outer, Frame([a], 1));
  }

  lemma RunsOutside(v: View, r: Entry, a: Entry, b: Entry)
    requires v.stack == [Frame([a, b], 0), Frame([r], 1)] && !v.bad
    ensures var w := After(v, [Ended(false), Called(a), Called(b), Ended(false)]); w.stack == [] && !w.bad
  {
    AfterFour(v, Ended(false), Called(a), Called(b), Ended(false));
    assert v.stack == [Frame([a, b], 0)] + [Frame([r], 1)];
    Ends(v, [Frame([a, b], 0)], Frame([r], 1));
    var v1 := Next(v, Ended(false));
    assert v1.stack == [] + [Frame([a, b], 0)];
    Calls(v1, [], [a, b], 0);
    Calls(Next(v1, Called(a)), [], [a, b], 1);
    Ends(Next(Next(v1, Called(a)), Called(b)), [], Frame([a, b], 2));
  }

  lemma AfterAll(v: View, a: seq<Event>, b: seq<Event>, c: seq<Event>, d: seq<Event>)
    ensures After(v, a + (b + (c + d))) == After(After(After(After(v, a), b), c), d)
  {
    AfterMore(v, a, b + (c + d));
    AfterMore(After(v, a), b, c + d);
    AfterMore(After(After(v, a), b), c, d);
  }

  lemma TellsTwice(x: EventName, r: Entry, a: Entry, b: Entry)
    requires x != RemoveListener && !r.once
    ensures var v := After(After(Start(x, r, a, b), Telling(x, r, [a, b], 1)), Telling(x, r, [a], 0));
      v.stack == [Frame([a, b], 0), Frame([r], 1), Frame([a], 0), Frame([r], 1)] && !v.bad
  {
    assert [a] + [b] == [a, b] && [] + [a] == [a];
    Tells(Start(x, r, a, b), x, r, [a], b);
    var v := After(Start(x, r, a, b), Telling(x, r, [a, b], 1));
    Tells(v, x, r, [], a);
    assert v.stack == [Frame([a, b], 0), Frame([r], 1)];
  }

  lemma Runs(v: View, r: Entry, a: Entry, b: Entry)
    requires v.stack == [Frame([a, b], 0), Frame([r], 1), Frame([a], 0), Frame([r], 1)] && !v.bad
    ensures After(v, Running(a, b)).stack == [] && !After(v, Running(a, b)).bad
  {
    var inner := [Ended(false), Called(a), Ended(false)];
    AfterMore(v, inner, [Ended(false), Called(a), Called(b), Ended(false)]);
    RunsInside(v, r, a, b);
    RunsOutside(After(v, inner), r, a, b);
  }

  lemma Meets(x: EventName, r: Entry, a: Entry, b: Entry)
    requires x != RemoveListener && 0 < r.reg < a.reg < b.reg && !r.once && a.once && b.once
    ensures var v := Replay(Meeting(x, r, a, b)); v.stack == [] && !v.bad
  {
    assert [] + Meeting(x, r, a, b) == Meeting(x, r, a, b);
    ReplayMore([], Meeting(x, r, a, b));
    AfterAll(NOTHING, Registering(x, r, a, b), Telling(x, r, [a, b], 1), Telling(x, r, [a], 0), Running(a, b));
    Registers(x, r, a, b);
    TellsTwice(x, r, a, b);
    Runs(After(After(Start(x, r, a, b), Telling(x, r, [a, b], 1)), Telling(x, r, [a], 0)), r, a, b);
  }

  /** It happens: in this run, of emits that are never cut short, a one-time listener runs
      twice. */
  lemma OnceTwice(x: EventName, r: Entry, a: Entry, b: Entry)
    requires x != RemoveListener && 0 < r.reg < a.reg < b.reg && !r.once && a.once && b.once
    ensures var log := Meeting(x, r, a, b); !Replay(log).bad && Whole(log) && RunsTwice(log)
  {
    var log := Meeting(x, r, a, b);
    Meets(x, r, a, b);
    StackOf(log, |log|);
    assert log[3] == Begun(x, [a, b]) && log[7] == Begun(x, [a]);
    assert a in [a, b] && a in [a];
    assert Takes(log, 3, a.reg) && Takes(log, 7, a.reg);
    TwiceIs(log);
    TwiceExactly(log);
  }
}
