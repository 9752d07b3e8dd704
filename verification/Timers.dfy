/** Reactor timers: one pass of `fireDue`, with callbacks that set and clear timers.
    The clock's readings and what each callback does are inputs. */
module Timers {
  import opened Sequences

  datatype Timer = Timer(id: nat, dueMs: real, intervalMs: real, repeats: bool, referenced: bool)

  /** What a callback, and the microtasks after it, may do to the timers. */
  datatype Action = Set(now: real, delayMs: real, repeats: bool) | Clear(id: nat) | Unref(id: nat)

  /** What happens, with the time it happens at where that matters; a timer fires at the
      time its pass began. */
  datatype Event =
    | Added(id: nat, repeats: bool, at: real, delayMs: real)
    | Cleared(id: nat)
    | Fired(id: nat, at: real)

  /** When a pending timer may fire next, and how long after a firing it may again. */
  datatype Alarm = Alarm(repeats: bool, due: real, gap: real)

  /** What a history leaves: the timers still to fire, the last id, and whether something
      forbidden has happened. */
  datatype View = View(pending: map<nat, Alarm>, last: nat, bad: bool)

  function Larger(a: real, b: real): (r: real)
    ensures r >= a && r >= b && (r == a || r == b)
  {
    if a < b then b else a
  }

  /** Forbidden: using an id twice, and firing a timer that is not pending or before it
      is due. */
  function Next(v: View, e: Event): View {
    match e
    case Added(id, repeats, at, delayMs) =>
      var alarm := Alarm(repeats, at + Larger(delayMs, 0.0), Larger(delayMs, 1.0));
      View(v.pending[id := alarm], id, v.bad || id <= v.last)
    case Cleared(id) => v.(pending := v.pending - {id})
    case Fired(id, at) =>
      if id !in v.pending || at < v.pending[id].due then v.(bad := true)
      else if v.pending[id].repeats then v.(pending := v.pending[id := v.pending[id].(due := at + v.pending[id].gap)])
      else v.(pending := v.pending - {id})
  }

  const NOTHING: View := View(map[], 0, false)

  function Replay(log: seq<Event>): View {
    Fold(Next, NOTHING, log)
  }

  lemma Snoc(log: seq<Event>, e: Event)
    ensures Replay(log + [e]) == Next(Replay(log), e)
  {
    FoldSnoc(Next, NOTHING, log, e);
  }

  lemma Prefix(log: seq<Event>, n: nat)
    requires n <= |log| && !Replay(log).bad
    ensures !Replay(log[..n]).bad
  {
    FoldPrefix(Next, NOTHING, (v: View) => !v.bad, log, n);
  }

  lemma Step(log: seq<Event>, i: nat)
    requires i < |log| && !Replay(log).bad
    ensures Replay(log[..i + 1]) == Next(Replay(log[..i]), log[i]) && !Replay(log[..i + 1]).bad
  {
    Prefix(log, i + 1);
    FoldAt(Next, NOTHING, log, i);
  }

  lemma {:induction false} KnownIds(log: seq<Event>, i: nat, j: nat)
    requires i < j <= |log| && !Replay(log).bad && log[i].Added?
    ensures log[i].id <= Replay(log[..j]).last
    decreases j
  {
    Step(log, j - 1);
    if j > i + 1 { KnownIds(log, i, j - 1); }
  }

  /** Pending timers have been added. */
  lemma {:induction false} PendingKnown(log: seq<Event>, j: nat, id: nat)
    requires j <= |log| && !Replay(log).bad && id in Replay(log[..j]).pending
    ensures id <= Replay(log[..j]).last
    decreases j
  {
    if j > 0 {
      Step(log, j - 1);
      if id in Replay(log[..j - 1]).pending { PendingKnown(log, j - 1, id); }
    }
  }

  /** Once gone, a timer stays gone: its id is not used again. */
  lemma {:induction false} StaysGone(log: seq<Event>, i: nat, j: nat, id: nat)
    requires i <= j <= |log| && !Replay(log).bad
    requires id !in Replay(log[..i]).pending && id <= Replay(log[..i]).last
    ensures id !in Replay(log[..j]).pending && id <= Replay(log[..j]).last
    decreases j
  {
    if i < j {
      Step(log, j - 1);
      StaysGone(log, i, j - 1, id);
      GoneStep(Replay(log[..j - 1]), log[j - 1], id);
    }
  }

  lemma GoneStep(v: View, e: Event, id: nat)
    requires id !in v.pending && id <= v.last && !Next(v, e).bad
    ensures id !in Next(v, e).pending && id <= Next(v, e).last
  {
  }

  /** No timer fires after it is cleared. */
  lemma NeverAfterClear(log: seq<Event>, h: nat, i: nat, j: nat)
    requires h < i < j < |log| && !Replay(log).bad
    requires log[h].Added? && log[i] == Cleared(log[h].id)
    ensures !IsFiring(log[j], log[h].id)
  {
    var id := log[h].id;
    Step(log, i);
    Step(log, j);
    KnownIds(log, h, i + 1);
    StaysGone(log, i + 1, j, id);
  }

  predicate IsFiring(e: Event, id: nat) { e.Fired? && e.id == id }

  /** A one-shot timer fires at most once over the whole run. */
  lemma OneShotOnce(log: seq<Event>, h: nat, i: nat, j: nat)
    requires h < i < j < |log| && !Replay(log).bad
    requires log[h].Added? && !log[h].repeats && IsFiring(log[i], log[h].id)
    ensures !IsFiring(log[j], log[h].id)
  {
    var id := log[h].id;
    Step(log, i);
    Step(log, j);
    KnownIds(log, h, i);
    OneShotStays(log, h, i);
    KnownIds(log, h, i + 1);
    StaysGone(log, i + 1, j, id);
  }

  lemma {:induction false} OneShotStays(log: seq<Event>, h: nat, j: nat)
    requires h < j <= |log| && !Replay(log).bad && log[h].Added? && !log[h].repeats
    ensures log[h].id in Replay(log[..j]).pending ==> !Replay(log[..j]).pending[log[h].id].repeats
    decreases j
  {
    Step(log, j - 1);
    if j > h + 1 {
      OneShotStays(log, h, j - 1);
      KnownIds(log, h, j - 1);
      OneShotStep(Replay(log[..j - 1]), log[j - 1], log[h].id);
    }
  }

  /** A known timer that is a one-shot, or gone, does not become a repeating one. */
  lemma OneShotStep(v: View, e: Event, id: nat)
    requires id <= v.last && (id in v.pending ==> !v.pending[id].repeats) && !Next(v, e).bad
    ensures id in Next(v, e).pending ==> !Next(v, e).pending[id].repeats
  {
  }

  // ---- when timers fire ---------------------------------------------------------------------

  /** A timer set at a time is due no sooner than its delay after it, and its firings are
      no closer than that delay, or one millisecond. */
  predicate NotBefore(v: View, id: nat, time: real, gap: real) {
    id in v.pending ==> v.pending[id].due >= time && v.pending[id].gap >= gap >= 0.0
  }

  lemma NotBeforeStep(v: View, e: Event, id: nat, time: real, gap: real)
    requires id <= v.last && !Next(v, e).bad && NotBefore(v, id, time, gap)
    ensures NotBefore(Next(v, e), id, time, gap)
    ensures IsFiring(e, id) ==> e.at >= time && NotBefore(Next(v, e), id, e.at + gap, gap)
  {
  }

  lemma {:induction false} StillNotBefore(log: seq<Event>, i: nat, j: nat, id: nat, time: real, gap: real)
    requires i <= j <= |log| && !Replay(log).bad && id <= Replay(log[..i]).last
    requires NotBefore(Replay(log[..i]), id, time, gap)
    ensures NotBefore(Replay(log[..j]), id, time, gap) && id <= Replay(log[..j]).last
    decreases j
  {
    if i < j {
      Step(log, j - 1);
      StillNotBefore(log, i, j - 1, id, time, gap);
      NotBeforeStep(Replay(log[..j - 1]), log[j - 1], id, time, gap);
    }
  }

  /** No timer fires before the time it was set at plus its delay. */
  lemma NeverEarly(log: seq<Event>, h: nat, i: nat)
    requires h < i < |log| && !Replay(log).bad && log[h].Added? && IsFiring(log[i], log[h].id)
    ensures log[i].at >= log[h].at && log[i].at >= log[h].at + log[h].delayMs
  {
    Step(log, h);
    Step(log, i);
    StillNotBefore(log, h + 1, i, log[h].id, log[h].at + Larger(log[h].delayMs, 0.0), 0.0);
  }

  /** Two firings of one timer are at least its delay apart, and at least a millisecond. */
  lemma FiringsApart(log: seq<Event>, h: nat, i: nat, j: nat)
    requires h < i < j < |log| && !Replay(log).bad && log[h].Added?
    requires IsFiring(log[i], log[h].id) && IsFiring(log[j], log[h].id)
    ensures log[j].at >= log[i].at + log[h].delayMs && log[j].at >= log[i].at + 1.0
  {
    var id, gap := log[h].id, Larger(log[h].delayMs, 1.0);
    Step(log, h);
    Step(log, i);
    Step(log, j);
    StillNotBefore(log, h + 1, i, id, log[h].at + Larger(log[h].delayMs, 0.0), gap);
    NotBeforeStep(Replay(log[..i]), log[i], id, log[h].at + Larger(log[h].delayMs, 0.0), gap);
    StillNotBefore(log, i + 1, j, id, log[i].at + gap, gap);
  }

  predicate Armed(v: View, id: nat, due: real, gap: real) {
    id in v.pending ==> v.pending[id].due == due && v.pending[id].gap == gap
  }

  predicate Unfired(log: seq<Event>, i: nat, j: nat, id: nat)
    requires j <= |log|
  {
    forall k :: i <= k < j ==> !IsFiring(log[k], id)
  }

  /** A timer that does not fire stays armed for the same time. */
  lemma {:induction false} StillArmed(log: seq<Event>, i: nat, j: nat, id: nat, due: real, gap: real)
    requires i <= j <= |log| && !Replay(log).bad && id <= Replay(log[..i]).last && Unfired(log, i, j, id)
    requires Armed(Replay(log[..i]), id, due, gap)
    ensures Armed(Replay(log[..j]), id, due, gap) && id <= Replay(log[..j]).last
    decreases j
  {
    if i < j {
      Step(log, j - 1);
      StillArmed(log, i, j - 1, id, due, gap);
    }
  }

  lemma {:induction false} KeepsGap(log: seq<Event>, i: nat, j: nat, id: nat, gap: real)
    requires i <= j <= |log| && !Replay(log).bad && id <= Replay(log[..i]).last
    requires id in Replay(log[..i]).pending ==> Replay(log[..i]).pending[id].gap == gap
    ensures id in Replay(log[..j]).pending ==> Replay(log[..j]).pending[id].gap == gap
    ensures id <= Replay(log[..j]).last
    decreases j
  {
    if i < j {
      Step(log, j - 1);
      KeepsGap(log, i, j - 1, id, gap);
    }
  }

  /** When a registered timer is due: its delay after it was set while it has not fired,
      else its delay, or one millisecond, after it fired last. */
  lemma ArmedFor(log: seq<Event>, registry: seq<Timer>, last: nat, now: real, t: Timer, h: nat, i: nat)
    requires Agrees(Replay(log), registry, {}, last, now) && t in registry
    requires h <= i < |log| && log[h].Added? && log[h].id == t.id && Unfired(log, i + 1, |log|, t.id)
    requires i == h || IsFiring(log[i], t.id)
    ensures t.dueMs == if i == h then log[h].at + Larger(log[h].delayMs, 0.0)
                       else log[i].at + Larger(log[h].delayMs, 1.0)
  {
    var gap := Larger(log[h].delayMs, 1.0);
    assert log[..|log|] == log;
    Step(log, h);
    if i == h {
      StillArmed(log, h + 1, |log|, t.id, log[h].at + Larger(log[h].delayMs, 0.0), gap);
    } else {
      KeepsGap(log, h + 1, i, t.id, gap);
      Step(log, i);
      StillArmed(log, i + 1, |log|, t.id, log[i].at + gap, gap);
    }
  }

  // ---- the due timers, in order ---------------------------------------------------------

  predicate Before(a: Timer, b: Timer) { if a.dueMs != b.dueMs then a.dueMs < b.dueMs else a.id < b.id }

  predicate Sorted(s: seq<Timer>) { forall i, j :: 0 <= i < j < |s| ==> Before(s[i], s[j]) }

  predicate DistinctIds(s: seq<Timer>) { forall i, j :: 0 <= i < j < |s| ==> s[i].id != s[j].id }

  /** What the sort promises: the same timers, earliest first, by id among equals. */
  predicate SortedFrom(due: seq<Timer>, s: seq<Timer>) { multiset(due) == multiset(s) && Sorted(due) }

  function Insert(t: Timer, s: seq<Timer>): (r: seq<Timer>)
    ensures multiset(r) == multiset(s) + multiset{t}
  {
    if s == [] || Before(t, s[0]) then [t] + s
    else assert s == [s[0]] + s[1..]; [s[0]] + Insert(t, s[1..])
  }

  function Sort(s: seq<Timer>): (r: seq<Timer>)
    ensures multiset(r) == multiset(s)
  {
    if s == [] then [] else assert s == s[..|s| - 1] + [s[|s| - 1]]; Insert(s[|s| - 1], Sort(s[..|s| - 1]))
  }

  lemma {:induction false} InsertSorted(t: Timer, s: seq<Timer>)
    requires Sorted(s) && forall i :: 0 <= i < |s| ==> s[i].id != t.id
    ensures Sorted(Insert(t, s))
  {
    if s != [] && !Before(t, s[0]) {
      InsertSorted(t, s[1..]);
      var r := Insert(t, s[1..]);
      forall i | 0 <= i < |r|
        ensures Before(s[0], r[i])
      {
        assert r[i] in multiset(r);
        if r[i] != t { assert r[i] in s[1..]; }
      }
    }
  }

  lemma {:induction false} SortSorts(s: seq<Timer>)
    requires DistinctIds(s)
    ensures SortedFrom(Sort(s), s)
  {
    if s != [] {
      var init, t := s[..|s| - 1], s[|s| - 1];
      SortSorts(init);
      forall i | 0 <= i < |Sort(init)|
        ensures Sort(init)[i].id != t.id
      {
        assert Sort(init)[i] in multiset(Sort(init));
        assert Sort(init)[i] in init;
      }
      InsertSorted(t, Sort(init));
    }
  }

  lemma SortedDistinct(due: seq<Timer>, s: seq<Timer>)
    requires DistinctIds(s) && due == Sort(s)
    ensures DistinctIds(due) && forall t :: t in due <==> t in s
  {
    SortSorts(s);
    assert forall t :: t in due <==> t in multiset(due);
    assert forall t :: t in s <==> t in multiset(s);
    forall i, j | 0 <= i < j < |due|
      ensures due[i].id != due[j].id
    {
      assert Before(due[i], due[j]) && due[i] in s && due[j] in s;
    }
  }

  /** The timers due at a time, in registry order. */
  function DueOf(registry: seq<Timer>, now: real): (due: seq<Timer>)
    ensures forall t :: t in due <==> t in registry && t.dueMs <= now
  {
    if registry == [] then [] else
    var t := registry[|registry| - 1];
    DueOf(registry[..|registry| - 1], now) + (if t.dueMs <= now then [t] else [])
  }

  function Rearmed(t: Timer, now: real): Timer {
    t.(dueMs := now + if t.intervalMs > 1.0 then t.intervalMs else 1.0)
  }

  /** The registry once the due timers are collected: one-shots are gone, repeating
      ones are armed again. */
  function Collected(registry: seq<Timer>, now: real): (left: seq<Timer>) {
    if registry == [] then [] else
    var t := registry[|registry| - 1];
    Collected(registry[..|registry| - 1], now)
      + (if t.dueMs > now then [t] else if t.repeats then [Rearmed(t, now)] else [])
  }

  /** A due timer that repeats, armed again: due one interval after the pass began, but
      not in the same millisecond. */
  predicate Renewed(u: Timer, t: Timer, now: real) {
    && u.dueMs <= now && u.repeats
    && t.id == u.id && t.intervalMs == u.intervalMs && t.repeats && t.referenced == u.referenced
    && t.dueMs == now + Larger(u.intervalMs, 1.0)
  }

  /** What a collection leaves: nothing that is due; what was not due as it was; what was
      due and repeats armed again; nothing else; all in the order they had. */
  ghost predicate CollectedBy(registry: seq<Timer>, left: seq<Timer>, now: real) {
    && (forall t :: t in left ==> t.dueMs > now)
    && (forall u :: u in registry && u.dueMs > now ==> u in left)
    && (forall u :: u in registry && u.dueMs <= now && u.repeats ==> exists t :: t in left && Renewed(u, t, now))
    && (forall t :: t in left ==> exists u :: u in registry && (t == u || Renewed(u, t, now)))
    && InOrder(IdsOf(left), IdsOf(registry))
  }

  function IdsOf(s: seq<Timer>): seq<nat> { seq(|s|, i requires 0 <= i < |s| => s[i].id) }

  lemma {:induction false} CollectedIs(registry: seq<Timer>, now: real)
    ensures CollectedBy(registry, Collected(registry, now), now)
  {
    if registry == [] {
      NoneInOrder(IdsOf(registry));
      assert IdsOf(Collected(registry, now)) == [];
    } else {
      var init, t := registry[..|registry| - 1], registry[|registry| - 1];
      CollectedIs(init, now);
      CollectedOne(init, Collected(init, now), t, now);
      assert registry == init + [t];
    }
  }

  /** One more timer is looked at. */
  lemma CollectedOne(init: seq<Timer>, c: seq<Timer>, t: Timer, now: real)
    requires CollectedBy(init, c, now)
    ensures CollectedBy(init + [t],
      c + (if t.dueMs > now then [t] else if t.repeats then [Rearmed(t, now)] else []), now)
  {
    var more := if t.dueMs > now then [t] else if t.repeats then [Rearmed(t, now)] else [];
    var left, registry := c + more, init + [t];
    assert IdsOf(registry) == IdsOf(init) + [t.id];
    if more == [] {
      assert left == c;
      OrderSkips(IdsOf(c), IdsOf(init), t.id);
    } else {
      assert IdsOf(left) == IdsOf(c) + [t.id];
      OrderTakes(IdsOf(c), IdsOf(init), t.id);
      assert more[0] in left && t in registry && (more[0] == t || Renewed(t, more[0], now));
    }
    forall u | u in registry && u.dueMs <= now && u.repeats ensures exists x :: x in left && Renewed(u, x, now) {
      if u in init { var x :| x in c && Renewed(u, x, now); assert x in left; }
    }
    forall x | x in left ensures exists u :: u in registry && (x == u || Renewed(u, x, now)) {
      if x in c { var u :| u in init && (x == u || Renewed(u, x, now)); assert u in registry; }
    }
  }

  lemma LastOf<T>(s: seq<T>, i: nat)
    requires i < |s|
    ensures s[..i + 1][..i] == s[..i] && s[..i + 1] == s[..i] + [s[i]]
  {
  }

  lemma CollectStep(registry: seq<Timer>, now: real, n: nat, left: seq<Timer>, i: nat)
    requires n < |registry| && i == |Collected(registry[..n], now)|
      && left == Collected(registry[..n], now) + registry[n..]
    ensures i < |left| && left[i] == registry[n]
    ensures DueOf(registry[..n + 1], now) == DueOf(registry[..n], now) + if left[i].dueMs <= now then [left[i]] else []
    ensures left[i].dueMs <= now && left[i].repeats ==>
      left[i := Rearmed(left[i], now)] == Collected(registry[..n + 1], now) + registry[n + 1..]
    ensures left[i].dueMs <= now && !left[i].repeats ==>
      left[..i] + left[i + 1..] == Collected(registry[..n + 1], now) + registry[n + 1..]
    ensures left[i].dueMs > now ==> left == Collected(registry[..n + 1], now) + registry[n + 1..]
  {
    LastOf(registry, n);
    var c, t, rest := Collected(registry[..n], now), registry[n], registry[n + 1..];
    assert registry[n..] == [t] + rest;
    OneOut(c, t, rest);
    OneIn(c, t, Rearmed(t, now), rest);
    CollectedNext(registry, now, n);
  }

  lemma CollectedNext(registry: seq<Timer>, now: real, n: nat)
    requires n < |registry|
    ensures var c, t := Collected(registry[..n], now), registry[n];
      Collected(registry[..n + 1], now)
        == c + if t.dueMs > now then [t] else if t.repeats then [Rearmed(t, now)] else []
  {
    LastOf(registry, n);
  }

  lemma OneOut<T>(c: seq<T>, t: T, rest: seq<T>)
    ensures var s := c + ([t] + rest); s[|c|] == t && s[..|c|] + s[|c| + 1..] == c + rest
    ensures c + ([t] + rest) == c + [t] + rest && c + [] == c
  {
  }

  lemma OneIn<T>(c: seq<T>, t: T, u: T, rest: seq<T>)
    ensures (c + ([t] + rest))[|c| := u] == c + [u] + rest
  {
  }

  /** The first `n` timers have been looked at; `i` is where the next one now stands. */
  ghost predicate Sifted(registry: seq<Timer>, now: real, n: nat, due: seq<Timer>, left: seq<Timer>, i: nat) {
    && n <= |registry| && i == |Collected(registry[..n], now)| && left == Collected(registry[..n], now) + registry[n..]
    && due == DueOf(registry[..n], now)
  }

  lemma SiftStarts(registry: seq<Timer>, now: real)
    ensures Sifted(registry, now, 0, [], registry, 0)
  {
    assert Collected([], now) + registry == registry;
  }

  lemma SiftOn(registry: seq<Timer>, now: real, n: nat, due: seq<Timer>, left: seq<Timer>, i: nat)
    requires Sifted(registry, now, n, due, left, i) && i < |left|
    ensures n < |registry|
    ensures left[i].dueMs <= now && left[i].repeats ==>
      Sifted(registry, now, n + 1, due + [left[i]], left[i := Rearmed(left[i], now)], i + 1)
    ensures left[i].dueMs <= now && !left[i].repeats ==>
      Sifted(registry, now, n + 1, due + [left[i]], left[..i] + left[i + 1..], i)
    ensures left[i].dueMs > now ==> Sifted(registry, now, n + 1, due, left, i + 1)
  {
    CollectStep(registry, now, n, left, i);
    CollectedNext(registry, now, n);
  }

  lemma SiftEnds(registry: seq<Timer>, now: real, n: nat, due: seq<Timer>, left: seq<Timer>, i: nat)
    requires Sifted(registry, now, n, due, left, i) && i >= |left|
    ensures due == DueOf(registry, now) && left == Collected(registry, now)
  {
    assert n == |registry| && registry[..n] == registry;
  }

  /** The in-place collection. */
  method Collect(registry: seq<Timer>, now: real) returns (due: seq<Timer>, left: seq<Timer>)
    ensures due == DueOf(registry, now) && left == Collected(registry, now)
    ensures CollectedBy(registry, left, now)
  {
    CollectedIs(registry, now);
    due, left := [], registry;
    var i := 0;
    ghost var n := 0;
    SiftStarts(registry, now);
    while i < |left|
      invariant Sifted(registry, now, n, due, left, i)
      decreases |registry| - n
    {
      SiftOn(registry, now, n, due, left, i);
      if left[i].dueMs <= now {
        due := due + [left[i]];
        if left[i].repeats {
          left := left[i := Rearmed(left[i], now)];
          i := i + 1;
        } else {
          left := left[..i] + left[i + 1..];
        }
      } else {
        i := i + 1;
      }
      n := n + 1;
    }
    SiftEnds(registry, now, n, due, left, i);
  }

  // ---- the registry against the history ---------------------------------------------------

  function Ids(registry: seq<Timer>): set<nat> { set t | t in registry :: t.id }

  function WithoutId(registry: seq<Timer>, id: nat): (r: seq<Timer>)
    ensures forall t :: t in r <==> t in registry && t.id != id
  {
    if registry == [] then [] else
    var t := registry[|registry| - 1];
    WithoutId(registry[..|registry| - 1], id) + (if t.id == id then [] else [t])
  }

  /** The place of a timer, the length if it is not there. */
  function PlaceOf(registry: seq<Timer>, id: nat): (i: nat)
    ensures i <= |registry| && (i < |registry| ==> registry[i].id == id)
    ensures forall j :: 0 <= j < i ==> registry[j].id != id
  {
    PlaceFrom(registry, id, 0)
  }

  function PlaceFrom(registry: seq<Timer>, id: nat, from: nat): (i: nat)
    requires from <= |registry|
    ensures from <= i <= |registry| && (i < |registry| ==> registry[i].id == id)
    ensures forall j :: from <= j < i ==> registry[j].id != id
    decreases |registry| - from
  {
    if from == |registry| || registry[from].id == id then from else PlaceFrom(registry, id, from + 1)
  }

  function Unreferenced(registry: seq<Timer>, id: nat): seq<Timer> {
    var i := PlaceOf(registry, id);
    if i < |registry| then registry[i := registry[i].(referenced := false)] else registry
  }

  /** The timer of that id no longer keeps the loop alive; all else is as it was. */
  predicate UnrefOnly(registry: seq<Timer>, r: seq<Timer>, id: nat) {
    && |r| == |registry|
    && forall i :: 0 <= i < |r| ==>
      r[i] == if registry[i].id == id then registry[i].(referenced := false) else registry[i]
  }

  lemma UnrefIs(registry: seq<Timer>, id: nat)
    requires DistinctIds(registry)
    ensures UnrefOnly(registry, Unreferenced(registry, id), id)
  {
    var p := PlaceOf(registry, id);
    assert forall i :: 0 <= i < |registry| && i != p ==> registry[i].id != id;
  }

  /** An action's effect on the registry and the last id. */
  function Acted(registry: seq<Timer>, last: nat, action: Action): (seq<Timer>, nat) {
    match action
    case Set(now, delayMs, repeats) =>
      var d := if delayMs < 0.0 then 0.0 else delayMs;
      (registry + [Timer(last + 1, now + d, d, repeats, true)], last + 1)
    case Clear(id) => (WithoutId(registry, id), last)
    case Unref(id) => (Unreferenced(registry, id), last)
  }

  function ActedAll(registry: seq<Timer>, last: nat, actions: seq<Action>): (seq<Timer>, nat) {
    if actions == [] then (registry, last) else
    var (r, l) := ActedAll(registry, last, actions[..|actions| - 1]);
    Acted(r, l, actions[|actions| - 1])
  }

  /** The registry, the due set and the last id against a view: a timer is pending
      when it is in the registry or, a one-shot, collected and not yet run. */
  ghost predicate Agrees(v: View, registry: seq<Timer>, firing: set<nat>, last: nat, now: real) {
    && !v.bad && v.last == last && DistinctIds(registry)
    && (forall t :: t in registry ==> t.id in v.pending && Keeps(v.pending[t.id], t, t.id in firing, now))
    && (forall id :: id in firing ==> id in v.pending && Waits(v.pending[id], id in Ids(registry), now))
    && (forall id :: id in v.pending ==> id <= last && (id in Ids(registry) || id in firing))
  }

  /** A registered timer against its alarm: armed for it, or already for the next one
      while this one is still to ring in the pass that began at `now`. */
  predicate Keeps(alarm: Alarm, t: Timer, firing: bool, now: real) {
    && alarm.repeats == t.repeats && alarm.gap == Larger(t.intervalMs, 1.0)
    && t.dueMs == if firing then now + alarm.gap else alarm.due
  }

  /** A timer of the due set: it is due, and still registered when it repeats. */
  predicate Waits(alarm: Alarm, registered: bool, now: real) {
    alarm.due <= now && (alarm.repeats <==> registered)
  }

  lemma AddAgrees(v: View, registry: seq<Timer>, firing: set<nat>, last: nat, now: real, t: Timer, e: Event)
    requires Agrees(v, registry, firing, last, now) && t.id == last + 1
    requires e.Added? && e.id == t.id && e.repeats == t.repeats
    requires t.intervalMs == Larger(e.delayMs, 0.0) && t.dueMs == e.at + t.intervalMs
    ensures Agrees(Next(v, e), registry + [t], firing, last + 1, now)
  {
    var r := registry + [t];
    assert Ids(r) == Ids(registry) + {t.id};
    forall i, j | 0 <= i < j < |r|
      ensures r[i].id != r[j].id
    {
      assert r[i] in registry;
    }
  }

  lemma {:induction false} WithoutDistinct(registry: seq<Timer>, id: nat)
    requires DistinctIds(registry)
    ensures DistinctIds(WithoutId(registry, id))
  {
    if registry != [] {
      var init := registry[..|registry| - 1];
      WithoutDistinct(init, id);
      var r := WithoutId(registry, id);
      forall i, j | 0 <= i < j < |r|
        ensures r[i].id != r[j].id
      {
        if j == |WithoutId(init, id)| { assert r[i] in WithoutId(init, id) && r[i] in init; }
      }
    }
  }

  lemma ClearAgrees(v: View, registry: seq<Timer>, firing: set<nat>, last: nat, now: real, id: nat)
    requires Agrees(v, registry, firing, last, now)
    ensures Agrees(Next(v, Cleared(id)), WithoutId(registry, id), firing - {id}, last, now)
  {
    WithoutDistinct(registry, id);
    assert Ids(WithoutId(registry, id)) == Ids(registry) - {id};
  }

  lemma UnrefAgrees(v: View, registry: seq<Timer>, firing: set<nat>, last: nat, now: real, id: nat)
    requires Agrees(v, registry, firing, last, now)
    ensures Agrees(v, Unreferenced(registry, id), firing, last, now)
  {
    var r := Unreferenced(registry, id);
    UnrefIs(registry, id);
    forall x
      ensures x in Ids(r) <==> x in Ids(registry)
    {
      if x in Ids(r) {
        var t :| t in r && t.id == x;
        var i :| 0 <= i < |r| && r[i] == t;
        assert registry[i] in registry;
      }
      if x in Ids(registry) {
        var t :| t in registry && t.id == x;
        var i :| 0 <= i < |r| && registry[i] == t;
        assert r[i] in r;
      }
    }
    forall t | t in r
      ensures t.id in v.pending && Keeps(v.pending[t.id], t, t.id in firing, now)
    {
      var i :| 0 <= i < |r| && r[i] == t;
      assert registry[i] in registry;
    }
  }

  lemma {:induction false} DueDistinct(registry: seq<Timer>, now: real)
    requires DistinctIds(registry)
    ensures DistinctIds(DueOf(registry, now))
  {
    if registry != [] {
      var init, t := registry[..|registry| - 1], registry[|registry| - 1];
      DueDistinct(init, now);
      NotAmong(init, t);
    }
  }

  lemma NotAmong(init: seq<Timer>, t: Timer)
    requires DistinctIds(init + [t])
    ensures forall u :: u in init ==> u.id != t.id
  {
    forall u | u in init
      ensures u.id != t.id
    {
      var i :| 0 <= i < |init| && init[i] == u;
      assert (init + [t])[i] == u && (init + [t])[|init|] == t;
    }
  }

  lemma {:induction false} CollectedDistinct(registry: seq<Timer>, now: real)
    requires DistinctIds(registry)
    ensures DistinctIds(Collected(registry, now))
  {
    if registry != [] {
      var init, t := registry[..|registry| - 1], registry[|registry| - 1];
      CollectedDistinct(init, now);
      assert registry == init + [t];
      NotAmong(init, t);
      var c, r := Collected(init, now), Collected(registry, now);
      forall i, j | 0 <= i < j < |r|
        ensures r[i].id != r[j].id
      {
        if j == |c| {
          CollectedIs(init, now);
          assert r[i] in c;
        }
      }
    }
  }

  /** Collecting moves the due one-shots from the registry to the due set. */
  lemma CollectAgrees(v: View, registry: seq<Timer>, last: nat, was: real, now: real, due: seq<Timer>,
                      left: seq<Timer>)
    requires Agrees(v, registry, {}, last, was) && due == DueOf(registry, now) && left == Collected(registry, now)
    ensures DistinctIds(due) && Agrees(v, left, Ids(due), last, now)
  {
    DueDistinct(registry, now);
    CollectedDistinct(registry, now);
    CollectedIs(registry, now);
    LeftPending(v, registry, last, was, now);
    DueWaits(v, registry, last, was, now);
    forall u | u in registry && (u.dueMs > now || u.repeats)
      ensures u.id in Ids(left)
    {
      assert u in left || exists t :: t in left && Renewed(u, t, now);
    }
    assert forall t :: t in registry ==> t.id in Ids(registry);
  }

  lemma SameTimer(registry: seq<Timer>, t: Timer, u: Timer)
    requires DistinctIds(registry) && t in registry && u in registry && t.id == u.id
    ensures t == u
  {
  }

  lemma DueWaits(v: View, registry: seq<Timer>, last: nat, was: real, now: real)
    requires Agrees(v, registry, {}, last, was)
    ensures forall id :: id in Ids(DueOf(registry, now)) ==>
      id in v.pending && Waits(v.pending[id], id in Ids(Collected(registry, now)), now)
  {
    forall u | u in DueOf(registry, now)
      ensures u.id in v.pending && Waits(v.pending[u.id], u.id in Ids(Collected(registry, now)), now)
    {
      OnlyRepeatersStay(registry, now, u);
    }
  }

  /** A due timer is left in the registry exactly when it repeats. */
  lemma OnlyRepeatersStay(registry: seq<Timer>, now: real, u: Timer)
    requires DistinctIds(registry) && u in DueOf(registry, now)
    ensures u.id in Ids(Collected(registry, now)) <==> u.repeats
  {
    CollectedIs(registry, now);
    var left := Collected(registry, now);
    if u.id in Ids(left) {
      var t :| t in left && t.id == u.id;
      var w :| w in registry && (t == w || Renewed(w, t, now));
      SameTimer(registry, u, w);
    }
    if u.repeats {
      var t :| t in left && Renewed(u, t, now);
    }
  }

  lemma LeftPending(v: View, registry: seq<Timer>, last: nat, was: real, now: real)
    requires Agrees(v, registry, {}, last, was)
    ensures forall t :: t in Collected(registry, now) ==>
      t.id in v.pending && Keeps(v.pending[t.id], t, t.id in Ids(DueOf(registry, now)), now)
  {
    CollectedIs(registry, now);
    forall t | t in Collected(registry, now)
      ensures t.id in v.pending && Keeps(v.pending[t.id], t, t.id in Ids(DueOf(registry, now)), now)
    {
      var u :| u in registry && (t == u || Renewed(u, t, now));
      if t.id in Ids(DueOf(registry, now)) {
        var w :| w in DueOf(registry, now) && w.id == t.id;
        SameTimer(registry, u, w);
      }
      if u.dueMs <= now { assert u in DueOf(registry, now); }
    }
  }

  lemma StartAgrees(v: View, registry: seq<Timer>, last: nat, was: real, now: real, collected: seq<Timer>,
                    left: seq<Timer>)
    requires Agrees(v, registry, {}, last, was) && collected == DueOf(registry, now)
    requires left == Collected(registry, now)
    ensures Agrees(v, left, Ids(Sort(collected)), last, now)
    ensures DistinctIds(Sort(collected)) && SortedFrom(Sort(collected), collected)
  {
    CollectAgrees(v, registry, last, was, now, collected, left);
    SortSorts(collected);
    SortedDistinct(Sort(collected), collected);
    assert Ids(Sort(collected)) == Ids(collected);
  }

  // ---- a pass in the history ----------------------------------------------------------------

  function FiredIn(log: seq<Event>): seq<nat> {
    if log == [] then [] else
    var before := FiredIn(log[..|log| - 1]);
    if log[|log| - 1].Fired? then before + [log[|log| - 1].id] else before
  }

  /** The timers that ran, in order. */
  function RanIds(due: seq<Timer>, ran: seq<bool>): seq<nat>
    requires |ran| <= |due|
  {
    if ran == [] then [] else
    var n := |ran| - 1;
    RanIds(due, ran[..n]) + (if ran[n] then [due[n].id] else [])
  }

  function Count(ran: seq<bool>): nat {
    if ran == [] then 0 else Count(ran[..|ran| - 1]) + if ran[|ran| - 1] then 1 else 0
  }

  /** A timer fired in this part of the history stands before place `m`. */
  predicate Earlier(due: seq<Timer>, m: nat, id: nat)
    requires m <= |due|
  {
    exists e :: 0 <= e < m && due[e].id == id
  }

  predicate AllEarlier(log: seq<Event>, due: seq<Timer>, m: nat)
    requires m <= |due|
  {
    forall e :: e in log && e.Fired? ==> Earlier(due, m, e.id)
  }

  /** The timer at place `m` is cleared when only earlier ones have fired: before its turn. */
  predicate ClearedAt(log: seq<Event>, due: seq<Timer>, m: nat, k: nat)
    requires m < |due| && k < |log|
  {
    log[k] == Cleared(due[m].id) && AllEarlier(log[..k], due, m)
  }

  predicate ClearedInTime(log: seq<Event>, due: seq<Timer>, m: nat)
    requires m < |due|
  {
    exists k: nat :: k < |log| && ClearedAt(log, due, m, k)
  }

  predicate FiredAt(log: seq<Event>, id: nat, k: nat)
    requires k < |log|
  {
    IsFiring(log[k], id) && Cleared(id) !in log[..k]
  }

  /** The timer has fired, and had not been cleared in this pass. */
  predicate FiredFirst(log: seq<Event>, id: nat) { exists k: nat :: k < |log| && FiredAt(log, id, k) }

  lemma FirstStays(log: seq<Event>, e: Event, id: nat)
    requires FiredFirst(log, id)
    ensures FiredFirst(log + [e], id)
  {
    var k: nat :| k < |log| && FiredAt(log, id, k);
    assert (log + [e])[..k] == log[..k];
    assert FiredAt(log + [e], id, k);
  }

  /** Why a due timer ran, or did not. */
  predicate Explained(log: seq<Event>, due: seq<Timer>, m: nat, ran: bool)
    requires m < |due|
  {
    if ran then FiredFirst(log, due[m].id) else ClearedInTime(log, due, m)
  }

  lemma ExplainedStays(log: seq<Event>, e: Event, due: seq<Timer>, m: nat, ran: bool)
    requires m < |due| && Explained(log, due, m, ran)
    ensures Explained(log + [e], due, m, ran)
  {
    if ran { FirstStays(log, e, due[m].id); } else { InTimeStays(log, e, due, m); }
  }

  /** The state of a pass that has come past the first `|ran|` due timers: which ran,
      and why the others did not. */
  ghost predicate Turned(log: seq<Event>, now: real, due: seq<Timer>, firing: set<nat>, ran: seq<bool>) {
    && |ran| <= |due| && AllAt(log, now)
    && FiredIn(log) == RanIds(due, ran) && AllEarlier(log, due, |ran|)
    && (forall m: nat :: m < |ran| ==> Explained(log, due, m, ran[m]))
    && (forall m: nat :: |ran| <= m < |due| ==> (due[m].id in firing <==> Cleared(due[m].id) !in log))
  }

  /** Everything that fires in a pass fires at the time the pass began. */
  predicate AllAt(log: seq<Event>, now: real) { forall e :: e in log && e.Fired? ==> e.at == now }

  lemma InTimeStays(log: seq<Event>, e: Event, due: seq<Timer>, m: nat)
    requires m < |due| && ClearedInTime(log, due, m)
    ensures ClearedInTime(log + [e], due, m)
  {
    var k: nat :| k < |log| && ClearedAt(log, due, m, k);
    assert (log + [e])[..k] == log[..k];
    assert ClearedAt(log + [e], due, m, k);
  }

  lemma TurnEvent(log: seq<Event>, now: real, due: seq<Timer>, firing: set<nat>, ran: seq<bool>, e: Event)
    requires Turned(log, now, due, firing, ran) && !e.Fired?
    ensures Turned(log + [e], now, due, if e.Cleared? then firing - {e.id} else firing, ran)
  {
    var l := log + [e];
    assert l[..|log|] == log;
    forall m: nat | m < |ran| ensures Explained(l, due, m, ran[m]) { ExplainedStays(log, e, due, m, ran[m]); }
  }

  lemma TurnSkipped(log: seq<Event>, now: real, due: seq<Timer>, firing: set<nat>, ran: seq<bool>)
    requires Turned(log, now, due, firing, ran) && |ran| < |due| && due[|ran|].id !in firing
    ensures Turned(log, now, due, firing, ran + [false])
  {
    var i := |ran|;
    var k :| 0 <= k < |log| && log[k] == Cleared(due[i].id);
    forall e | e in log[..k] && e.Fired? ensures Earlier(due, i, e.id) { assert e in log; }
    assert ClearedAt(log, due, i, k);
    forall e | e in log && e.Fired? ensures Earlier(due, i + 1, e.id) { assert Earlier(due, i, e.id); }
    assert (ran + [false])[..i] == ran;
    forall m: nat | m < i ensures Explained(log, due, m, (ran + [false])[m]) { assert Explained(log, due, m, ran[m]); }
  }

  lemma FiredEarlier(log: seq<Event>, now: real, due: seq<Timer>, i: nat)
    requires i < |due| && AllEarlier(log, due, i)
    ensures AllEarlier(log + [Fired(due[i].id, now)], due, i + 1)
  {
    forall x | x in log + [Fired(due[i].id, now)] && x.Fired?
      ensures Earlier(due, i + 1, x.id)
    {
      if x in log { assert Earlier(due, i, x.id); } else { assert due[i].id == x.id; }
    }
  }

  lemma TurnFired(log: seq<Event>, now: real, due: seq<Timer>, firing: set<nat>, ran: seq<bool>)
    requires Turned(log, now, due, firing, ran) && |ran| < |due| && due[|ran|].id in firing && DistinctIds(due)
    ensures Turned(log + [Fired(due[|ran|].id, now)], now, due, firing - {due[|ran|].id}, ran + [true])
  {
    var i := |ran|;
    var e := Fired(due[i].id, now);
    var l := log + [e];
    assert l[..|log|] == log && (ran + [true])[..i] == ran;
    FiredEarlier(log, now, due, i);
    assert FiredAt(l, due[i].id, |log|);
    forall m: nat | m < i ensures Explained(l, due, m, ran[m]) { ExplainedStays(log, e, due, m, ran[m]); }
  }

  lemma PassStarts(log: seq<Event>, now: real, due: seq<Timer>)
    ensures Turned(log[|log|..], now, due, Ids(due), [])
  {
    forall m: nat | m < |due| ensures due[m].id in Ids(due) { assert due[m] in due; }
  }

  /** A finished pass: the due timers fire in order, at the time the pass began; each one fires before any clearing
      of it, or is cleared before its turn. */
  ghost predicate PassDone(log: seq<Event>, now: real, due: seq<Timer>, ran: seq<bool>) {
    && |ran| == |due| && AllAt(log, now) && FiredIn(log) == RanIds(due, ran)
    && (forall m: nat :: m < |due| ==> Explained(log, due, m, ran[m]))
  }

  lemma PassOver(log: seq<Event>, now: real, due: seq<Timer>, firing: set<nat>, ran: seq<bool>)
    requires Turned(log, now, due, firing, ran) && |ran| == |due|
    ensures PassDone(log, now, due, ran)
  {
  }

  lemma IdsLess(due: seq<Timer>, i: nat)
    requires i < |due|
    ensures Ids(due[i..]) - {due[i].id} <= Ids(due[i + 1..])
  {
    assert due[i..] == [due[i]] + due[i + 1..];
  }

  function EventsOf(action: Action, last: nat): seq<Event> {
    match action
    case Set(now, delayMs, repeats) => [Added(last + 1, repeats, now, delayMs)]
    case Clear(id) => [Cleared(id)]
    case Unref(_) => []
  }

  function FiringAfter(firing: set<nat>, action: Action): set<nat> {
    if action.Clear? then firing - {action.id} else firing
  }

  lemma TurnAct(log: seq<Event>, start: nat, now: real, due: seq<Timer>, firing: set<nat>, ran: seq<bool>,
                action: Action, last: nat)
    requires start <= |log| && Turned(log[start..], now, due, firing, ran)
    ensures var l := log + EventsOf(action, last);
      start <= |l| && Turned(l[start..], now, due, FiringAfter(firing, action), ran)
  {
    var more := EventsOf(action, last);
    assert (log + more)[start..] == log[start..] + more;
    if more != [] { TurnEvent(log[start..], now, due, firing, ran, more[0]); }
    else { assert log[start..] + more == log[start..]; }
  }

  function Told(script: seq<seq<Action>>, k: nat): seq<Action> { if k < |script| then script[k] else [] }

  /** The registry after the first `count` callbacks of a script. */
  function Passes(registry: seq<Timer>, last: nat, script: seq<seq<Action>>, count: nat): (seq<Timer>, nat) {
    if count == 0 then (registry, last) else
    var (r, l) := Passes(registry, last, script, count - 1);
    ActedAll(r, l, Told(script, count - 1))
  }

  lemma PassesNext(registry: seq<Timer>, last: nat, script: seq<seq<Action>>, count: nat)
    ensures var (r, l) := Passes(registry, last, script, count);
      Passes(registry, last, script, count + 1) == ActedAll(r, l, Told(script, count))
  {
  }

  lemma CountSnoc(ran: seq<bool>, fired: bool)
    ensures Count(ran + [fired]) == Count(ran) + if fired then 1 else 0
  {
    assert (ran + [fired])[..|ran|] == ran;
  }

  lemma FireAgrees(v: View, registry: seq<Timer>, firing: set<nat>, last: nat, now: real, id: nat)
    requires Agrees(v, registry, firing, last, now) && id in firing
    ensures Agrees(Next(v, Fired(id, now)), registry, firing - {id}, last, now)
  {
    forall t | t in registry && t.id == id ensures t.repeats { assert id in Ids(registry); }
  }

  /** The next due timer fires. */
  lemma FireStep(log: seq<Event>, start: nat, now: real, due: seq<Timer>, firing: set<nat>, ran: seq<bool>,
                 registry: seq<Timer>, last: nat)
    requires start <= |log| && |ran| < |due| && due[|ran|].id in firing && DistinctIds(due)
    requires Agrees(Replay(log), registry, firing, last, now) && Turned(log[start..], now, due, firing, ran)
    ensures var id := due[|ran|].id;
      var l := log + [Fired(id, now)];
      Agrees(Replay(l), registry, firing - {id}, last, now)
      && start <= |l| && Turned(l[start..], now, due, firing - {id}, ran + [true])
  {
    var e := Fired(due[|ran|].id, now);
    Snoc(log, e);
    FireAgrees(Replay(log), registry, firing, last, now, e.id);
    TurnFired(log[start..], now, due, firing, ran);
    assert (log + [e])[start..] == log[start..] + [e];
  }

  class TimerQueue {
    var registry: seq<Timer>
    var lastId: nat
    var firingDue: set<nat>

    ghost var log: seq<Event>
    ghost var passAt: real           // when the last pass began

    ghost predicate Valid()
      reads this
    {
      Agrees(Replay(log), registry, firingDue, lastId, passAt)
    }

    constructor ()
      ensures Valid() && registry == [] && firingDue == {} && log == []
    {
      registry, lastId, firingDue, log, passAt := [], 0, {}, [], 0.0;
    }

    ghost method Log(e: Event)
      modifies `log
      ensures log == old(log) + [e] && Replay(log) == Next(Replay(old(log)), e)
    {
      Snoc(log, e);
      log := log + [e];
    }

    /** `add` */
    method Add(now: real, delayMs: real, repeats: bool) returns (id: nat)
      requires Valid()
      modifies `registry, `lastId, `log
      ensures Valid() && (registry, lastId) == Acted(old(registry), old(lastId), Set(now, delayMs, repeats))
      ensures id == lastId && log == old(log) + [Added(id, repeats, now, delayMs)]
    {
      id := lastId + 1;
      var delay := if delayMs < 0.0 then 0.0 else delayMs;
      var timer := Timer(id, now + delay, delay, repeats, true);
      Enter(timer, Added(id, repeats, now, delayMs));
    }

    /** A timer joins the registry. */
    method Enter(timer: Timer, ghost e: Event)
      requires Valid() && timer.id == lastId + 1
      requires e.Added? && e.id == timer.id && e.repeats == timer.repeats
      requires timer.intervalMs == Larger(e.delayMs, 0.0) && timer.dueMs == e.at + timer.intervalMs
      modifies `registry, `lastId, `log
      ensures Valid() && registry == old(registry) + [timer] && lastId == timer.id
      ensures log == old(log) + [e]
    {
      AddAgrees(Replay(log), registry, firingDue, lastId, passAt, timer, e);
      lastId := timer.id;
      registry := registry + [timer];
      Log(e);
    }

    /** `remove`: out of the registry and out of the running pass. */
    method Remove(id: nat)
      requires Valid()
      modifies `registry, `firingDue, `log
      ensures Valid() && registry == WithoutId(old(registry), id) && firingDue == old(firingDue) - {id}
      ensures log == old(log) + [Cleared(id)]
    {
      ClearAgrees(Replay(log), registry, firingDue, lastId, passAt, id);
      firingDue := firingDue - {id};
      registry := WithoutId(registry, id);
      Log(Cleared(id));
    }

    /** `unref`: the first timer of that id, and it is the only one. */
    method Unref(id: nat)
      requires Valid()
      modifies `registry
      ensures Valid() && registry == Unreferenced(old(registry), id) && UnrefOnly(old(registry), registry, id)
    {
      UnrefAgrees(Replay(log), registry, firingDue, lastId, passAt, id);
      UnrefIs(registry, id);
      var i := 0;
      while i < |registry|
        invariant i <= |registry| && registry == old(registry)
        invariant forall j :: 0 <= j < i ==> registry[j].id != id
      {
        if registry[i].id == id {
          registry := registry[i := registry[i].(referenced := false)];
          return;
        }
        i := i + 1;
      }
    }

    method Act(action: Action)
      requires Valid()
      modifies `registry, `lastId, `firingDue, `log
      ensures Valid() && (registry, lastId) == Acted(old(registry), old(lastId), action)
      ensures log == old(log) + EventsOf(action, old(lastId)) && firingDue == FiringAfter(old(firingDue), action)
    {
      match action {
        case Set(now, delayMs, repeats) => var _ := Add(now, delayMs, repeats);
        case Clear(id) => Remove(id);
        case Unref(id) => Unref(id);
      }
    }

    /** A timer's callback and the microtasks after it. */
    method RunCallback(actions: seq<Action>, ghost start: nat, ghost due: seq<Timer>, ghost ran: seq<bool>)
      requires Valid() && start <= |log| && Turned(log[start..], passAt, due, firingDue, ran)
      modifies `registry, `lastId, `firingDue, `log
      ensures Valid() && start <= |log| && Turned(log[start..], passAt, due, firingDue, ran) && old(log) <= log
      ensures (registry, lastId) == ActedAll(old(registry), old(lastId), actions) && firingDue <= old(firingDue)
    {
      var n := 0;
      while n < |actions|
        invariant n <= |actions| && Valid() && start <= |log| && old(log) <= log
        invariant Turned(log[start..], passAt, due, firingDue, ran) && firingDue <= old(firingDue)
        invariant (registry, lastId) == ActedAll(old(registry), old(lastId), actions[..n])
      {
        LastOf(actions, n);
        TurnAct(log, start, passAt, due, firingDue, ran, actions[n], lastId);
        Act(actions[n]);
        n := n + 1;
      }
      assert actions[..n] == actions;
    }

    /** A due timer leaves the due set to run. */
    method Fire(due: seq<Timer>, i: nat, ghost start: nat, ghost ran: seq<bool>)
      requires Valid() && start <= |log| && i == |ran| < |due| && DistinctIds(due) && due[i].id in firingDue
      requires Turned(log[start..], passAt, due, firingDue, ran)
      modifies `firingDue, `log
      ensures Valid() && start <= |log| && old(log) <= log && firingDue == old(firingDue) - {due[i].id}
      ensures Turned(log[start..], passAt, due, firingDue, ran + [true])
    {
      var id := due[i].id;
      FireStep(log, start, passAt, due, firingDue, ran, registry, lastId);
      firingDue := firingDue - {id};
      log := log + [Fired(id, passAt)];
    }

    /** The turn of the next due timer: it runs unless it has been cleared since. */
    method Turn(due: seq<Timer>, i: nat, script: seq<seq<Action>>, ghost start: nat, ghost ran: seq<bool>, count: nat)
      returns (fired: bool)
      requires Valid() && start <= |log| && i == |ran| < |due| && DistinctIds(due)
      requires Turned(log[start..], passAt, due, firingDue, ran)
      modifies `registry, `lastId, `firingDue, `log
      ensures Valid() && start <= |log| && old(log) <= log
      ensures Turned(log[start..], passAt, due, firingDue, ran + [fired])
      ensures firingDue <= old(firingDue) - {due[i].id}
      ensures (registry, lastId) ==
        if fired then ActedAll(old(registry), old(lastId), Told(script, count)) else (old(registry), old(lastId))
    {
      var id := due[i].id;
      if id !in firingDue {
        TurnSkipped(log[start..], passAt, due, firingDue, ran);
        return false;
      }
      Fire(due, i, start, ran);
      RunCallback(Told(script, count), start, due, ran + [true]);
      fired := true;
    }

    /** Collect the due timers, ordered; they are the due set of the pass. */
    method StartPass(now: real) returns (due: seq<Timer>)
      requires Valid() && firingDue == {}
      modifies `registry, `firingDue, `passAt
      ensures Valid() && passAt == now && CollectedBy(old(registry), registry, now)
      ensures registry == Collected(old(registry), now) && firingDue == Ids(due) && DistinctIds(due)
      ensures SortedFrom(due, DueOf(old(registry), now))
    {
      var collected, left := Collect(registry, now);
      StartAgrees(Replay(log), registry, lastId, passAt, now, collected, left);
      due := Sort(collected);
      registry := left;
      passAt := now;
      firingDue := Ids(due);
    }

    /** `fireDue`. `script[k]` is what the k-th callback of the pass does. Exactly the
        timers due at the start fire, less those cleared before their turn, ordered by
        due time and then id. */
    method FireDue(now: real, script: seq<seq<Action>>) returns (ghost due: seq<Timer>, ghost ran: seq<bool>)
      requires Valid() && firingDue == {}
      modifies this
      ensures Valid() && firingDue == {} && old(log) <= log
      ensures SortedFrom(due, DueOf(old(registry), now)) && PassDone(log[|old(log)|..], now, due, ran)
      ensures CollectedBy(old(registry), Collected(old(registry), now), now)
      ensures (registry, lastId) == Passes(Collected(old(registry), now), old(lastId), script, Count(ran))
    {
      var sorted := StartPass(now);
      due := sorted;
      PassStarts(log, now, sorted);
      ran := RunDue(sorted, script);
      firingDue := {};
    }

    /** The due timers' turns, one after the other. */
    method RunDue(due: seq<Timer>, script: seq<seq<Action>>) returns (ghost ran: seq<bool>)
      requires Valid() && DistinctIds(due) && Turned(log[|log|..], passAt, due, firingDue, []) && firingDue <= Ids(due)
      modifies `registry, `lastId, `firingDue, `log
      ensures Valid() && firingDue == {} && old(log) <= log && PassDone(log[|old(log)|..], passAt, due, ran)
      ensures (registry, lastId) == Passes(old(registry), old(lastId), script, Count(ran))
    {
      ghost var start := |log|;
      var i, count := 0, 0;
      ran := [];
      while i < |due|
        invariant i <= |due| && Valid() && start <= |log| && old(log) <= log && i == |ran| && count == Count(ran)
        invariant Turned(log[start..], passAt, due, firingDue, ran) && firingDue <= Ids(due[i..])
        invariant (registry, lastId) == Passes(old(registry), old(lastId), script, count)
      {
        PassesNext(old(registry), old(lastId), script, count);
        var fired := Turn(due, i, script, start, ran, count);
        IdsLess(due, i);
        CountSnoc(ran, fired);
        ran := ran + [fired];
        if fired { count := count + 1; }
        i := i + 1;
      }
      PassOver(log[start..], passAt, due, firingDue, ran);
    }
  }
}
