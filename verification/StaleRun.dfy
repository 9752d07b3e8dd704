/** `removeGroup` with listeners that are told of each removal and may register and
    remove in their turn: what it makes of the table, when that stays sound, and a run in
    which it does not. */
module StaleRuns {
  import opened Wrappers
  import opened ListenerStore
  import opened EventEmitters

  /** What a listener told of a removal does to the table. */
  datatype Act = Put(name: EventName, e: Entry) | Take(name: EventName, fn: nat)

  /** `removeEntry` on the table: the last registration of a listener. */
  function Taken(s: Store, name: EventName, fn: nat): Store
    requires Sound(s)
  {
    match GroupOf(s, name)
    case None => s
    case Some(h) =>
      var k := LastPlace(s.table[h].entries, fn);
      if k < |s.table[h].entries| then DropAt(s, h, k) else s
  }

  function ActedOn(s: Store, act: Act): Store
    requires Sound(s)
  {
    match act
    case Put(name, e) => AddTo(s, name, e, false)
    case Take(name, fn) => Taken(s, name, fn)
  }

  /** Registering and removing by name keep the table sound, and forget no group. */
  lemma ActedSound(s: Store, act: Act)
    requires Sound(s)
    ensures Sound(ActedOn(s, act)) && s.table.Keys <= ActedOn(s, act).table.Keys
  {
    GroupOfFinds(s, act.name);
    match act
    case Put(name, e) => AddRefines(s, name, e, false);
    case Take(name, fn) =>
      var h := GroupOf(s, name);
      if h.Some? {
        var k := LastPlace(s.table[h.value].entries, fn);
        if k < |s.table[h.value].entries| { DropRefines(s, h.value, k); }
      }
  }

  function ActedOnAll(s: Store, acts: seq<Act>): Store
    requires Sound(s)
    decreases |acts|
  {
    if acts == [] then s else
    var t := ActedOn(s, acts[0]);
    if Sound(t) then ActedOnAll(t, acts[1..]) else t
  }

  lemma {:induction false} AllActedSound(s: Store, acts: seq<Act>)
    requires Sound(s)
    ensures Sound(ActedOnAll(s, acts)) && s.table.Keys <= ActedOnAll(s, acts).table.Keys
    decreases |acts|
  {
    if acts != [] {
      ActedSound(s, acts[0]);
      AllActedSound(ActedOn(s, acts[0]), acts[1..]);
    }
  }

  /** Whatever those told of a removal do, the table they leave is sound and has forgotten no
      group. */
  predicate Follows(t: Store, u: Store) { Sound(u) && t.table.Keys <= u.table.Keys }

  lemma ActedFollows(t: Store, acts: seq<Act>)
    requires Sound(t)
    ensures Follows(t, ActedOnAll(t, acts))
  {
    AllActedSound(t, acts);
  }

  /** The turns of `removeGroup` from the last place of `told` down; `told[i]` is the table
      that those told of the removal at place `i` leave. A table that is no longer sound is
      where the account ends. */
  function Turns(s: Store, h: nat, told: seq<Store>): Store
    requires Sound(s) && h in s.table
    decreases |told|
  {
    if told == [] then s else
    var i := |told| - 1;
    var t := DropAt(s, h, i);
    if Sound(t) && Follows(t, told[i]) && h in told[i].table then Turns(told[i], h, told[..i]) else t
  }

  /** The tables left follow one upon the other, as far as the account goes. */
  predicate Account(s: Store, h: nat, told: seq<Store>)
    requires Sound(s) && h in s.table
    decreases |told|
  {
    told != [] ==>
      var i := |told| - 1;
      var t := DropAt(s, h, i);
      Sound(t) ==> Follows(t, told[i]) && h in told[i].table && Account(told[i], h, told[..i])
  }

  /** One of the turns makes a drop that is stale. */
  predicate MeetsStale(s: Store, h: nat, told: seq<Store>)
    requires Sound(s) && h in s.table
    decreases |told|
  {
    told != [] &&
      var i := |told| - 1;
      Stale(s, h) || (Sound(told[i]) && h in told[i].table && MeetsStale(told[i], h, told[..i]))
  }

  /** Whatever those told do, `removeGroup` keeps index and list in agreement exactly when
      none of its drops is stale, which can be seen before each of them. */
  lemma {:induction false} TurnsSafeExactly(s: Store, h: nat, told: seq<Store>)
    requires Sound(s) && h in s.table && Account(s, h, told)
    ensures Sound(Turns(s, h, told)) <==> !MeetsStale(s, h, told)
    decreases |told|
  {
    if told != [] {
      var i := |told| - 1;
      DropSafeExactly(s, h, i);
      if !Stale(s, h) { TurnsSafeExactly(told[i], h, told[..i]); }
    }
  }

  // ---- a run that meets a stale drop ---------------------------------------------------------

  lemma ActsFirst(s: Store, a: Act, more: seq<Act>, t: Store)
    requires Sound(s) && t == ActedOn(s, a) && Sound(t)
    ensures ActedOnAll(s, [a] + more) == ActedOnAll(t, more)
  {
    assert ([a] + more)[1..] == more;
  }

  lemma ActsTwo(s: Store, a: Act, b: Act, t: Store, u: Store)
    requires Sound(s) && t == ActedOn(s, a) && Sound(t) && u == ActedOn(t, b) && Sound(u)
    ensures ActedOnAll(s, [a, b]) == u
  {
    ActsFirst(s, a, [b], t);
    ActsFirst(t, b, [], u);
    assert [a] + [b] == [a, b] && [b] + [] == [b];
  }

  /** A name the index does not have, with two listeners: they are in a new group. */
  lemma TwoAdded(s: Store, name: EventName, e: Entry, f: Entry) returns (t: Store)
    requires Sound(s) && IsString(name) && name !in s.byString
    ensures t == ActedOnAll(s, [Put(name, e), Put(name, f)]) && Sound(t)
    ensures s.next in t.groups && t.next == s.next + 1 && s.next !in s.table
    ensures t.table == s.table[s.next := Group(name, [e, f])] && t.byString == s.byString[name := s.next]
  {
    var u := AddTo(s, name, e, false);
    AddUnknown(s, name, e);
    t := SecondAdded(u, s.next, name, e, f);
    ActsTwo(s, Put(name, e), Put(name, f), u, t);
    LastIn(s.groups, s.next);
  }

  lemma SecondAdded(u: Store, h: nat, name: EventName, e: Entry, f: Entry) returns (t: Store)
    requires Sound(u) && h in u.table && u.table[h] == Group(name, [e]) && IsString(name)
    requires name in u.byString && u.byString[name] == h
    ensures t == AddTo(u, name, f, false) && Sound(t)
    ensures t == u.(table := u.table[h := Group(name, [e, f])])
  {
    t := AddTo(u, name, f, false);
    AddRefines(u, name, f, false);
    assert [e] + [f] == [e, f];
  }

  /** The later listener removed: the earlier one is left, in the same group. */
  lemma OneLeft(t: Store, h: nat, name: EventName, e: Entry, f: Entry) returns (u: Store)
    requires Sound(t) && h in t.groups && h in t.table && t.table[h] == Group(name, [e, f])
    ensures u == DropAt(t, h, 1) && Sound(u) && u == t.(table := t.table[h := Group(name, [e])])
  {
    u := DropAt(t, h, 1);
    DropRefines(t, h, 1);
    assert WithoutAt([e, f], 1) == [e];
  }

  /** `removeEntry` of the one listener left, with many names: the group is forgotten. */
  lemma LastTaken(u: Store, h: nat, name: EventName, e: Entry) returns (v: Store)
    requires Sound(u) && h in u.groups && h in u.table && u.table[h] == Group(name, [e]) && IsString(name)
    requires |u.byString| > KEPT_NAMES
    ensures v == Taken(u, name, e.fn) && Sound(v)
    ensures v.byString == u.byString - {name} && v.next == u.next && v.table == u.table[h := Group(name, [])]
  {
    v := DropAt(u, h, 0);
    assert NameOf(u, h) == name;
    assert GroupOf(u, name) == Some(h);
    assert LastPlace([e], e.fn) == 0;
    Forgotten(u, h, name);
  }

  /** The name registered once more, under another group: a drop on the old one is stale. */
  lemma NamedAgain(v: Store, h: nat, name: EventName, g: Entry) returns (w: Store)
    requires Sound(v) && h in v.table && v.table[h] == Group(name, []) && IsString(name)
    requires name !in v.byString && |v.byString| >= KEPT_NAMES
    ensures w == AddTo(v, name, g, false) && Sound(w) && h in w.table && Stale(w, h)
  {
    w := AddTo(v, name, g, false);
    AddUnknown(v, name, g);
    SizeOfAdded(v.byString, name, v.next);
    assert h < v.next && w.table[h] == Group(name, []) && InUse(w, w.byString[name]);
  }

  /** What those told of the first removal do: remove the other listener, and register the
      name again. */
  function Meddling(name: EventName, fn: nat, g: Entry): seq<Act> { [Take(name, fn), Put(name, g)] }

  lemma Meddled(u: Store, h: nat, name: EventName, e: Entry, g: Entry) returns (w: Store)
    requires Sound(u) && h in u.groups && h in u.table && u.table[h] == Group(name, [e]) && IsString(name)
    requires |u.byString| > KEPT_NAMES && name in u.byString
    ensures w == ActedOnAll(u, Meddling(name, e.fn, g)) && Sound(w) && h in w.table && Stale(w, h)
  {
    var v := LastTaken(u, h, name, e);
    SizeOfRemoved(u.byString, name);
    w := NamedAgain(v, h, name, g);
    ActsTwo(u, Take(name, e.fn), Put(name, g), v, w);
  }

  /** Two turns, the second with a stale drop. */
  lemma TwoTurns(t: Store, h: nat, u: Store, w: Store) returns (told: seq<Store>)
    requires Sound(t) && h in t.table && !Stale(t, h) && u == DropAt(t, h, 1) && Sound(u)
    requires Follows(u, w) && h in w.table && Stale(w, h)
    ensures told == [w, w] && Account(t, h, told) && !Sound(Turns(t, h, told))
  {
    told := [w, w];
    assert told[..1] == [w] && [w][..0] == [];
    DropSafeExactly(w, h, 0);
    assert Account(w, h, [w]);
    assert Turns(w, h, [w]) == DropAt(w, h, 0);
    assert Turns(t, h, told) == Turns(w, h, told[..1]);
  }

  /** With 32 names or more: register two listeners for one more name and remove all of
      that name, while a listener told of the first removal removes the other one and
      registers the name again. The second drop is stale, and breaks the table. */
  lemma StaleRun(s: Store, name: EventName, e: Entry, f: Entry, g: Entry)
    returns (t: Store, h: nat, told: seq<Store>)
    requires Sound(s) && IsString(name) && name !in s.byString && |s.byString| >= KEPT_NAMES
    ensures t == ActedOnAll(s, [Put(name, e), Put(name, f)]) && Sound(t)
    ensures h in t.table && t.table[h] == Group(name, [e, f])
    ensures |told| == 2 && Account(t, h, told)
    ensures Sound(DropAt(t, h, 1)) && told[1] == ActedOnAll(DropAt(t, h, 1), Meddling(name, e.fn, g))
    ensures !Sound(Turns(t, h, told))
  {
    h := s.next;
    t := TwoAdded(s, name, e, f);
    SizeOfAdded(s.byString, name, h);
    var u := OneLeft(t, h, name, e, f);
    var w := Meddled(u, h, name, e, g);
    ActedFollows(u, Meddling(name, e.fn, g));
    told := TwoTurns(t, h, u, w);
  }

  lemma SizeOfRemoved<K, V>(a: map<K, V>, k: K)
    requires k in a
    ensures |a - {k}| == |a| - 1
  {
    assert (a - {k}).Keys == a.Keys - {k};
  }

  // ---- such a table -----------------------------------------------------------------------------

  function Crosses(n: nat): string { seq(n, i => 'x') }

  function NthName(n: nat): EventName { if n == 0 then RemoveListener else OtherString(Crosses(n)) }

  /** Registrations after which someone listens for removals and `n` other names have a
      listener each. */
  lemma {:induction false} ManyNames(n: nat) returns (acts: seq<Act>, s: Store)
    ensures s == ActedOnAll(EMPTY, acts) && Sound(s) && |s.byString| == n + 1
    ensures RemoveListener in s.byString && forall m: nat :: m > n ==> NthName(m) !in s.byString
  {
    var put := Put(NthName(n), Entry(n, false, n));
    var before := EMPTY;
    acts := [];
    if n > 0 { acts, before := ManyNames(n - 1); }
    s := NextName(before, NthName(n), put.e);
    ActsLast(EMPTY, acts, put, before, s);
    acts := acts + [put];
    forall m: nat | m > n
      ensures NthName(m) !in s.byString
    {
      assert |Crosses(m)| == m && |Crosses(n)| == n;
    }
  }

  lemma NextName(s: Store, name: EventName, e: Entry) returns (t: Store)
    requires Sound(s) && IsString(name) && name !in s.byString
    ensures t == AddTo(s, name, e, false) && Sound(t)
    ensures t.byString == s.byString[name := s.next] && |t.byString| == |s.byString| + 1
  {
    t := AddTo(s, name, e, false);
    AddUnknown(s, name, e);
    SizeOfAdded(s.byString, name, s.next);
  }

  lemma {:induction false} ActsLast(s: Store, acts: seq<Act>, a: Act, t: Store, u: Store)
    requires Sound(s) && t == ActedOnAll(s, acts) && Sound(t) && u == ActedOn(t, a) && Sound(u)
    ensures ActedOnAll(s, acts + [a]) == u
    decreases |acts|
  {
    if acts == [] {
      assert acts + [a] == [a] + [];
      ActsFirst(s, a, [], u);
    } else {
      ActedSound(s, acts[0]);
      ActsLast(ActedOn(s, acts[0]), acts[1..], a, t, u);
      ActsFirst(s, acts[0], acts[1..] + [a], ActedOn(s, acts[0]));
      assert acts + [a] == [acts[0]] + (acts[1..] + [a]);
    }
  }

  /** From an empty emitter: registrations, a removal listener's among them, and then a
      `removeAllListeners` of one name in which a stale drop leaves the table broken. */
  lemma StaleReached(e: Entry, f: Entry, g: Entry)
    returns (acts: seq<Act>, s: Store, name: EventName, t: Store, h: nat, told: seq<Store>)
    ensures s == ActedOnAll(EMPTY, acts) && Sound(s) && RemoveListener in s.byString
    ensures t == ActedOnAll(s, [Put(name, e), Put(name, f)]) && Sound(t)
    ensures h in t.table && t.table[h] == Group(name, [e, f])
    ensures |told| == 2 && Account(t, h, told)
    ensures Sound(DropAt(t, h, 1)) && told[1] == ActedOnAll(DropAt(t, h, 1), Meddling(name, e.fn, g))
    ensures !Sound(Turns(t, h, told))
  {
    acts, s := ManyNames(31);
    name := NthName(32);
    t, h, told := StaleRun(s, name, e, f, g);
  }
}
