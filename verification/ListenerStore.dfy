/** The listener table of `EventEmitter`: groups of listeners, an index of the string
    names with parked empty groups, and the ordered map they stand for. */
module ListenerStore {
  import opened Wrappers

  /** The names the emitter treats specially, and all the others. */
  datatype EventName =
    | Error
    | NewListener
    | RemoveListener
    | OtherString(text: string)
    | ErrorMonitor
    | OtherSymbol(id: nat)

  predicate IsString(name: EventName) { !name.ErrorMonitor? && !name.OtherSymbol? }

  /** A registration; `reg` numbers the registrations of a run. */
  datatype Entry = Entry(fn: nat, once: bool, reg: nat)

  datatype Group = Group(name: EventName, entries: seq<Entry>)

  // ---- the ordered map ------------------------------------------------------------------

  /** The place of a name, the length if it is not there. */
  function IndexOf(m: seq<Group>, name: EventName): (i: nat)
    ensures i <= |m| && (i < |m| ==> m[i].name == name)
    ensures forall j :: 0 <= j < i ==> m[j].name != name
  {
    IndexFrom(m, name, 0)
  }

  function IndexFrom(m: seq<Group>, name: EventName, from: nat): (i: nat)
    requires from <= |m|
    ensures from <= i <= |m| && (i < |m| ==> m[i].name == name)
    ensures forall j :: from <= j < i ==> m[j].name != name
    decreases |m| - from
  {
    if from == |m| || m[from].name == name then from else IndexFrom(m, name, from + 1)
  }

  /** The listeners of a name. */
  function Lookup(m: seq<Group>, name: EventName): seq<Entry> {
    var i := IndexOf(m, name);
    if i < |m| then m[i].entries else []
  }

  function Names(m: seq<Group>): seq<EventName> { seq(|m|, i requires 0 <= i < |m| => m[i].name) }

  function Placed(entries: seq<Entry>, e: Entry, prepend: bool): seq<Entry> {
    if prepend then [e] + entries else entries + [e]
  }

  /** A registration: a new name goes to the end. */
  function Added(m: seq<Group>, name: EventName, e: Entry, prepend: bool): seq<Group> {
    var i := IndexOf(m, name);
    if i < |m| then m[i := Group(name, Placed(m[i].entries, e, prepend))] else m + [Group(name, [e])]
  }

  function WithoutAt<T>(s: seq<T>, k: nat): (r: seq<T>)
    requires k < |s|
    ensures |r| == |s| - 1 && forall j :: 0 <= j < |r| ==> r[j] == s[if j < k then j else j + 1]
  {
    s[..k] + s[k + 1..]
  }

  /** A removal: a name goes with its last listener. */
  function Dropped(m: seq<Group>, name: EventName, k: nat): seq<Group> {
    var i := IndexOf(m, name);
    if i < |m| && k < |m[i].entries| then
      var entries := WithoutAt(m[i].entries, k);
      if entries == [] then WithoutAt(m, i) else m[i := Group(name, entries)]
    else m
  }

  // ---- what the two mean to those who look a name up ---------------------------------------

  /** One more listener among those of a name: first with `prepend`, else last. */
  predicate Joins(before: seq<Entry>, after: seq<Entry>, e: Entry, prepend: bool) {
    && |after| == |before| + 1
    && after[if prepend then 0 else |before|] == e
    && forall i :: 0 <= i < |before| ==> after[if prepend then i + 1 else i] == before[i]
  }

  /** A registration as it is seen: only its own name's listeners change, and only a name
      that was absent is new among the names, at their end. */
  ghost predicate Registers(m: seq<Group>, w: seq<Group>, name: EventName, e: Entry, prepend: bool) {
    && Joins(Lookup(m, name), Lookup(w, name), e, prepend)
    && (forall other :: other != name ==> Lookup(w, other) == Lookup(m, other))
    && Names(w) == if name in Names(m) then Names(m) else Names(m) + [name]
  }

  /** A removal as it is seen: one listener goes, the rest close up, and the name goes with
      its only listener. */
  ghost predicate Unregisters(m: seq<Group>, w: seq<Group>, name: EventName, k: nat)
    requires k < |Lookup(m, name)|
  {
    && Lookup(w, name) == WithoutAt(Lookup(m, name), k)
    && (forall other :: other != name ==> Lookup(w, other) == Lookup(m, other))
    && Names(w) == if |Lookup(m, name)| > 1 then Names(m) else WithoutAt(Names(m), IndexOf(m, name))
  }

  lemma NamedAt(m: seq<Group>, name: EventName)
    ensures name in Names(m) <==> IndexOf(m, name) < |m|
  {
    if name in Names(m) {
      var i :| 0 <= i < |m| && Names(m)[i] == name;
      assert m[i].name == name;
    }
    if IndexOf(m, name) < |m| { assert Names(m)[IndexOf(m, name)] == name; }
  }

  /** The first place of a name is the only thing a lookup depends on. */
  lemma SameIndex(m: seq<Group>, w: seq<Group>, name: EventName)
    requires |m| == |w| && forall i :: 0 <= i < |m| ==> m[i].name == w[i].name
    ensures IndexOf(m, name) == IndexOf(w, name)
  {
    var i, j := IndexOf(m, name), IndexOf(w, name);
    assert i < |m| ==> w[i].name == name;
    assert j < |m| ==> m[j].name == name;
  }

  lemma IndexWithout(m: seq<Group>, p: nat, other: EventName)
    requires p < |m| && m[p].name != other
    ensures Lookup(WithoutAt(m, p), other) == Lookup(m, other)
  {
    var w := WithoutAt(m, p);
    var i, j := IndexOf(m, other), IndexOf(w, other);
    if i < |m| { assert w[if i < p then i else i - 1] == m[i]; }
    if j < |w| { assert w[j] == m[if j < p then j else j + 1]; }
  }

  lemma IndexWith(m: seq<Group>, g: Group, other: EventName)
    ensures other != g.name ==> Lookup(m + [g], other) == Lookup(m, other)
    ensures IndexOf(m, g.name) == |m| ==> Lookup(m + [g], g.name) == g.entries
  {
    var w := m + [g];
    var i, j := IndexOf(m, other), IndexOf(w, other);
    if i < |m| { assert w[i] == m[i]; }
    if j < |w| && j < |m| { assert w[j] == m[j]; }
    assert w[|m|] == g;
  }

  /** Every registration is seen as one. */
  lemma AddedRegisters(m: seq<Group>, name: EventName, e: Entry, prepend: bool)
    ensures Registers(m, Added(m, name, e, prepend), name, e, prepend)
  {
    NamedAt(m, name);
    if IndexOf(m, name) < |m| { JoinRegisters(m, name, e, prepend); } else { NewRegisters(m, name, e, prepend); }
  }

  lemma JoinRegisters(m: seq<Group>, name: EventName, e: Entry, prepend: bool)
    requires IndexOf(m, name) < |m| && name in Names(m)
    ensures Registers(m, Added(m, name, e, prepend), name, e, prepend)
  {
    var p := IndexOf(m, name);
    var w := m[p := Group(name, Placed(m[p].entries, e, prepend))];
    assert Added(m, name, e, prepend) == w;
    forall other ensures IndexOf(w, other) == IndexOf(m, other) { SameIndex(m, w, other); }
    assert Names(w) == Names(m);
  }

  lemma NewRegisters(m: seq<Group>, name: EventName, e: Entry, prepend: bool)
    requires IndexOf(m, name) == |m| && name !in Names(m)
    ensures Registers(m, Added(m, name, e, prepend), name, e, prepend)
  {
    var w := m + [Group(name, [e])];
    assert Added(m, name, e, prepend) == w;
    forall other ensures other != name ==> Lookup(w, other) == Lookup(m, other) {
      IndexWith(m, Group(name, [e]), other);
    }
    IndexWith(m, Group(name, [e]), name);
    assert Names(w) == Names(m) + [name];
  }

  predicate DistinctNames(m: seq<Group>) { forall i, j :: 0 <= i < j < |m| ==> m[i].name != m[j].name }

  /** Every removal is seen as one. */
  lemma DroppedUnregisters(m: seq<Group>, name: EventName, k: nat)
    requires DistinctNames(m) && k < |Lookup(m, name)|
    ensures Unregisters(m, Dropped(m, name, k), name, k)
  {
    if |Lookup(m, name)| == 1 { LastUnregisters(m, name); } else { OneUnregisters(m, name, k); }
  }

  lemma LastUnregisters(m: seq<Group>, name: EventName)
    requires DistinctNames(m) && |Lookup(m, name)| == 1
    ensures Unregisters(m, Dropped(m, name, 0), name, 0)
  {
    var p := IndexOf(m, name);
    var w := WithoutAt(m, p);
    assert Dropped(m, name, 0) == w;
    forall other | other != name ensures Lookup(w, other) == Lookup(m, other) { IndexWithout(m, p, other); }
    forall j | 0 <= j < |w| ensures w[j].name != name { assert w[j] == m[if j < p then j else j + 1]; }
    assert Names(w) == WithoutAt(Names(m), p);
  }

  lemma OneUnregisters(m: seq<Group>, name: EventName, k: nat)
    requires k < |Lookup(m, name)| && |Lookup(m, name)| > 1
    ensures Unregisters(m, Dropped(m, name, k), name, k)
  {
    var p := IndexOf(m, name);
    var w := m[p := Group(name, WithoutAt(m[p].entries, k))];
    assert Dropped(m, name, k) == w;
    forall other ensures IndexOf(w, other) == IndexOf(m, other) { SameIndex(m, w, other); }
    assert Names(w) == Names(m);
  }

  // ---- the table --------------------------------------------------------------------------

  const KEPT_NAMES: nat := 32

  /** Groups are objects: a handle is the object's identity. */
  datatype Store = Store(
    groups: seq<nat>,                 // groups_
    byString: map<EventName, nat>,    // byString_
    table: map<nat, Group>,           // every group ever made
    next: nat)

  function EntriesOf(s: Store, h: nat): seq<Entry> { if h in s.table then s.table[h].entries else [] }

  predicate Distinct(a: seq<nat>) { forall i, j :: 0 <= i < j < |a| ==> a[i] != a[j] }

  /** Every group in use holds listeners; a group that holds listeners is in use; and a
      string name's group in use is the one the index gives, while any other group the
      index gives is an empty one of that name. */
  predicate Sound(s: Store) { Ordered(s) && Complete(s) && Indexed(s) }

  /** The groups in use: distinct, each with listeners, no name twice. */
  predicate Ordered(s: Store) {
    && (forall h :: h in s.table ==> h < s.next)
    && (forall i :: 0 <= i < |s.groups| ==> InUse(s, s.groups[i]))
    && Distinct(s.groups)
    && (forall h, g :: h in s.groups && g in s.groups && NameOf(s, h) == NameOf(s, g) ==> h == g)
  }

  predicate InUse(s: Store, h: nat) { EntriesOf(s, h) != [] }

  function NameOf(s: Store, h: nat): EventName { if h in s.table then s.table[h].name else Error }

  predicate Complete(s: Store) { forall h :: h in s.table && InUse(s, h) ==> h in s.groups }

  predicate Indexed(s: Store) {
    && (forall name :: name in s.byString ==> IsString(name) && IndexedAt(s, name))
    && (forall h :: h in s.groups && IsString(NameOf(s, h)) ==>
          NameOf(s, h) in s.byString && s.byString[NameOf(s, h)] == h)
  }

  predicate IndexedAt(s: Store, name: EventName)
    requires name in s.byString
  {
    s.byString[name] in s.table && NameOf(s, s.byString[name]) == name
  }

  /** The ordered map a table stands for. */
  function Abs(s: Store): (m: seq<Group>)
    requires forall i :: 0 <= i < |s.groups| ==> s.groups[i] in s.table
    ensures |m| == |s.groups| && forall i :: 0 <= i < |m| ==> m[i] == s.table[s.groups[i]]
  {
    seq(|s.groups|, i requires 0 <= i < |s.groups| => s.table[s.groups[i]])
  }

  const EMPTY: Store := Store([], map[], map[], 0)

  /** `groupOf` */
  function GroupOf(s: Store, name: EventName): (h: Option<nat>)
    requires Sound(s)
    ensures h.Some? ==> h.value in s.table
  {
    if IsString(name) then
      if name in s.byString && s.table[s.byString[name]].entries != [] then Some(s.byString[name]) else None
    else
      var i := IndexOf(Abs(s), name);
      if i < |s.groups| then Some(s.groups[i]) else None
  }

  lemma PlaceOf(s: Store, h: nat, i: nat)
    requires Sound(s) && i < |s.groups| && s.groups[i] == h
    ensures IndexOf(Abs(s), s.table[h].name) == i
  {
    var j := IndexOf(Abs(s), s.table[h].name);
    assert Abs(s)[i].name == s.table[h].name;
    if j < |s.groups| { assert s.groups[j] in s.groups && s.groups[i] in s.groups; }
  }

  /** The lookup through the index, or through the list for a symbol, is the map's. */
  lemma GroupOfFinds(s: Store, name: EventName)
    requires Sound(s)
    ensures match GroupOf(s, name)
      case Some(h) => h in s.groups && s.table[h].name == name && EntriesOf(s, h) == Lookup(Abs(s), name) != []
      case None => Lookup(Abs(s), name) == [] && IndexOf(Abs(s), name) == |Abs(s)|
  {
    if IsString(name) { IndexFinds(s, name); } else { SearchFinds(s, name); }
  }

  lemma SearchFinds(s: Store, name: EventName)
    requires Sound(s) && !IsString(name)
    ensures var i := IndexOf(Abs(s), name);
      if i < |s.groups| then s.table[s.groups[i]].name == name
        && Lookup(Abs(s), name) == EntriesOf(s, s.groups[i]) != []
      else Lookup(Abs(s), name) == []
  {
    var i := IndexOf(Abs(s), name);
    if i < |s.groups| { assert InUse(s, s.groups[i]); }
  }

  lemma IndexFinds(s: Store, name: EventName)
    requires Sound(s) && IsString(name)
    ensures if name in s.byString && InUse(s, s.byString[name])
            then s.byString[name] in s.groups && NameOf(s, s.byString[name]) == name
              && Lookup(Abs(s), name) == EntriesOf(s, s.byString[name])
            else IndexOf(Abs(s), name) == |Abs(s)|
  {
    if name in s.byString && InUse(s, s.byString[name]) {
      var h := s.byString[name];
      assert IndexedAt(s, name);
      var i :| 0 <= i < |s.groups| && s.groups[i] == h;
      PlaceOf(s, h, i);
    } else {
      assert forall j :: 0 <= j < |s.groups| ==> InUse(s, s.groups[j]) && s.groups[j] in s.groups;
    }
  }

  // ---- adding -------------------------------------------------------------------------------

  function WithEntry(s: Store, h: nat, e: Entry, prepend: bool): Store
    requires h in s.table
  {
    s.(table := s.table[h := Group(s.table[h].name, Placed(s.table[h].entries, e, prepend))])
  }

  /** A group for a name without listeners: the parked one or a new one. */
  function Entered(s: Store, name: EventName): (Store, nat)
    requires Sound(s)
  {
    if name in s.byString then (s.(groups := s.groups + [s.byString[name]]), s.byString[name]) else
    (Store(s.groups + [s.next], if IsString(name) then s.byString[name := s.next] else s.byString,
           s.table[s.next := Group(name, [])], s.next + 1), s.next)
  }

  /** `addEntry`, after its event. */
  function AddTo(s: Store, name: EventName, e: Entry, prepend: bool): Store
    requires Sound(s)
  {
    match GroupOf(s, name)
    case Some(h) => WithEntry(s, h, e, prepend)
    case None => var (t, h) := Entered(s, name); WithEntry(t, h, e, prepend)
  }

  lemma AddRefines(s: Store, name: EventName, e: Entry, prepend: bool)
    requires Sound(s)
    ensures Sound(AddTo(s, name, e, prepend))
    ensures Abs(AddTo(s, name, e, prepend)) == Added(Abs(s), name, e, prepend)
  {
    GroupOfFinds(s, name);
    if GroupOf(s, name).Some? {
      AddToGroup(s, GroupOf(s, name).value, e, prepend);
    } else {
      AddNewGroup(s, name, e, prepend);
    }
  }

  /** A registration in the table is seen as one in the map. */
  lemma AddIsSeen(s: Store, name: EventName, e: Entry, prepend: bool)
    requires Sound(s)
    ensures Sound(AddTo(s, name, e, prepend))
    ensures Registers(Abs(s), Abs(AddTo(s, name, e, prepend)), name, e, prepend)
  {
    AddRefines(s, name, e, prepend);
    AddedRegisters(Abs(s), name, e, prepend);
  }

  lemma AddToGroup(s: Store, h: nat, e: Entry, prepend: bool)
    requires Sound(s) && h in s.groups
    ensures Sound(WithEntry(s, h, e, prepend))
    ensures Abs(WithEntry(s, h, e, prepend)) == Added(Abs(s), NameOf(s, h), e, prepend)
  {
    var i :| 0 <= i < |s.groups| && s.groups[i] == h;
    assert InUse(s, h);
    PlaceOf(s, h, i);
    var t := WithEntry(s, h, e, prepend);
    SameNames(s, t);
    OneChanged(s, t, h, i);
  }

  /** Only the changed group differs in the map. */
  lemma OneChanged(s: Store, t: Store, h: nat, i: nat)
    requires Sound(s) && Sound(t) && i < |s.groups| && s.groups[i] == h && t.groups == s.groups && h in t.table
    requires t.table == s.table[h := t.table[h]]
    ensures Abs(t) == Abs(s)[i := t.table[h]]
  {
  }

  /** A change of a used group's listeners that leaves it some keeps the table sound. */
  lemma SameNames(s: Store, t: Store)
    requires Sound(s) && t.groups == s.groups && t.byString == s.byString && t.next == s.next
      && t.table.Keys == s.table.Keys
    requires forall h :: h in s.table ==> NameOf(t, h) == NameOf(s, h) && InUse(t, h) == InUse(s, h)
    ensures Sound(t)
  {
    assert forall name :: name in t.byString ==> IndexedAt(s, name) ==> IndexedAt(t, name);
  }

  lemma AddNewGroup(s: Store, name: EventName, e: Entry, prepend: bool)
    requires Sound(s) && GroupOf(s, name).None?
    ensures var (t, h) := Entered(s, name);
      Sound(WithEntry(t, h, e, prepend)) && Abs(WithEntry(t, h, e, prepend)) == Abs(s) + [Group(name, [e])]
  {
    GroupOfFinds(s, name);
    var (t, h) := Entered(s, name);
    var u := WithEntry(t, h, e, prepend);
    NoGroupNamed(s, name);
    assert u.table[h] == Group(name, [e]);
    assert !InUse(s, h);
    NewGroupSound(s, u, h, name);
    NewGroupAbs(s, u, h);
  }

  lemma NoGroupNamed(s: Store, name: EventName)
    requires Sound(s) && IndexOf(Abs(s), name) == |Abs(s)|
    ensures forall g :: g in s.groups ==> NameOf(s, g) != name
  {
    forall g | g in s.groups
      ensures NameOf(s, g) != name
    {
      var i :| 0 <= i < |s.groups| && s.groups[i] == g;
      assert Abs(s)[i].name != name;
    }
  }

  lemma NewGroupAbs(s: Store, u: Store, h: nat)
    requires Sound(s) && Sound(u) && u.groups == s.groups + [h] && h !in s.groups && h in u.table
    requires u.table == s.table[h := u.table[h]]
    ensures Abs(u) == Abs(s) + [u.table[h]]
  {
    assert forall j :: 0 <= j < |s.groups| ==> u.groups[j] == s.groups[j] && s.groups[j] in s.groups;
    assert u.groups[|s.groups|] == h;
  }

  lemma NewGroupSound(s: Store, u: Store, h: nat, name: EventName)
    requires Sound(s) && u.groups == s.groups + [h] && h !in s.groups && h < u.next && s.next <= u.next
    requires u.byString == if IsString(name) then s.byString[name := h] else s.byString
    requires h in u.table && u.table == s.table[h := u.table[h]] && InUse(u, h) && NameOf(u, h) == name
    requires forall g :: g in s.groups ==> NameOf(s, g) != name
    requires h in s.table ==> NameOf(s, h) == name
    ensures Sound(u)
  {
    forall g | g in s.table && g != h ensures NameOf(u, g) == NameOf(s, g) && InUse(u, g) == InUse(s, g) {}
    NewGroupOrdered(s, u, h, name);
    forall x | x in u.byString ensures IsString(x) && IndexedAt(u, x) { if x in s.byString { assert IndexedAt(s, x); } }
  }

  lemma NewGroupOrdered(s: Store, u: Store, h: nat, name: EventName)
    requires Ordered(s) && u.groups == s.groups + [h] && h !in s.groups && h < u.next && s.next <= u.next
    requires h in u.table && u.table.Keys == s.table.Keys + {h} && InUse(u, h) && NameOf(u, h) == name
    requires forall g :: g in s.groups ==> NameOf(s, g) != name
    requires forall g :: g in s.table && g != h ==> NameOf(u, g) == NameOf(s, g) && InUse(u, g) == InUse(s, g)
    ensures Ordered(u)
  {
    forall i | 0 <= i < |u.groups|
      ensures InUse(u, u.groups[i])
    {
      if i < |s.groups| { assert InUse(s, s.groups[i]) && s.groups[i] in s.groups; }
    }
    forall g | g in u.groups ensures g == h || (g in s.groups && g in s.table) { if g != h { assert InUse(s, g); } }
  }

  // ---- dropping -----------------------------------------------------------------------------

  function PlaceIn(groups: seq<nat>, h: nat): (i: nat)
    ensures i <= |groups| && (i < |groups| ==> groups[i] == h)
    ensures forall j :: 0 <= j < i ==> groups[j] != h
  {
    PlaceFrom(groups, h, 0)
  }

  function PlaceFrom(groups: seq<nat>, h: nat, from: nat): (i: nat)
    requires from <= |groups|
    ensures from <= i <= |groups| && (i < |groups| ==> groups[i] == h)
    ensures forall j :: from <= j < i ==> groups[j] != h
    decreases |groups| - from
  {
    if from == |groups| || groups[from] == h then from else PlaceFrom(groups, h, from + 1)
  }

  /** `groups_` without a group, if it is there. */
  function WithoutHandle(groups: seq<nat>, h: nat): seq<nat> {
    var i := PlaceIn(groups, h);
    if i < |groups| then WithoutAt(groups, i) else groups
  }

  /** The group's array after `splice(k, 1)`: an index past the end removes nothing. */
  function Spliced(s: Store, h: nat, k: nat): Store
    requires h in s.table
  {
    if k < |s.table[h].entries| then
      s.(table := s.table[h := Group(s.table[h].name, WithoutAt(s.table[h].entries, k))])
    else s
  }

  /** The emptied group leaves the list; its index entry is kept unless there are many. */
  function Emptied(s: Store, h: nat): Store {
    var t := s.(groups := WithoutHandle(s.groups, h));
    if IsString(NameOf(s, h)) && |s.byString| > KEPT_NAMES then t.(byString := t.byString - {NameOf(s, h)}) else t
  }

  /** `dropEntry`, for any group ever made and any index. */
  function DropAt(s: Store, h: nat, k: nat): Store
    requires h in s.table
  {
    var t := Spliced(s, h, k);
    if t.table[h].entries != [] then t else Emptied(t, h)
  }

  lemma AbsNames(s: Store)
    requires Sound(s)
    ensures DistinctNames(Abs(s))
  {
    forall i, j | 0 <= i < j < |s.groups|
      ensures Abs(s)[i].name != Abs(s)[j].name
    {
      assert s.groups[i] in s.groups && s.groups[j] in s.groups;
    }
  }

  /** Dropping a listener is the map's removal: the name goes with its last listener,
      whether its group is parked or forgotten. */
  lemma DropRefines(s: Store, h: nat, k: nat)
    requires Sound(s) && h in s.groups && h in s.table && k < |s.table[h].entries|
    ensures Sound(DropAt(s, h, k)) && Abs(DropAt(s, h, k)) == Dropped(Abs(s), NameOf(s, h), k)
  {
    var i :| 0 <= i < |s.groups| && s.groups[i] == h;
    PlaceOf(s, h, i);
    if |s.table[h].entries| > 1 { DropOne(s, h, k, i); } else { DropLast(s, h, i); }
  }

  /** A removal in the table is seen as one in the map. */
  lemma DropIsSeen(s: Store, h: nat, k: nat)
    requires Sound(s) && h in s.groups && h in s.table && k < |s.table[h].entries|
    ensures Sound(DropAt(s, h, k)) && Lookup(Abs(s), NameOf(s, h)) == s.table[h].entries
    ensures Unregisters(Abs(s), Abs(DropAt(s, h, k)), NameOf(s, h), k)
  {
    DropRefines(s, h, k);
    var i :| 0 <= i < |s.groups| && s.groups[i] == h;
    PlaceOf(s, h, i);
    AbsNames(s);
    DroppedUnregisters(Abs(s), NameOf(s, h), k);
  }

  lemma DropOne(s: Store, h: nat, k: nat, i: nat)
    requires Sound(s) && h in s.table && k < |s.table[h].entries| && |s.table[h].entries| > 1
    requires i < |s.groups| && s.groups[i] == h && IndexOf(Abs(s), NameOf(s, h)) == i
    ensures Sound(Spliced(s, h, k)) && Abs(Spliced(s, h, k)) == Dropped(Abs(s), NameOf(s, h), k)
  {
    var t := Spliced(s, h, k);
    assert InUse(s, h);
    SameNames(s, t);
    assert Abs(t) == Dropped(Abs(s), NameOf(s, h), k);
  }

  lemma DropLast(s: Store, h: nat, i: nat)
    requires Sound(s) && h in s.table && |s.table[h].entries| == 1
    requires i < |s.groups| && s.groups[i] == h && IndexOf(Abs(s), NameOf(s, h)) == i
    ensures Sound(DropAt(s, h, 0)) && Abs(DropAt(s, h, 0)) == WithoutAt(Abs(s), i)
  {
    var t := Spliced(s, h, 0);
    EmptiedSound(s, t, h, i);
    PlaceIs(s.groups, h, i);
    forall j | 0 <= j < |s.groups| ensures s.groups[j] in s.table { assert InUse(s, s.groups[j]); }
    EmptiedAbs(s, Emptied(t, h), h, i);
  }

  lemma PlaceIs(groups: seq<nat>, h: nat, i: nat)
    requires Distinct(groups) && i < |groups| && groups[i] == h
    ensures PlaceIn(groups, h) == i
  {
  }

  lemma EmptiedAbs(s: Store, u: Store, h: nat, i: nat)
    requires i < |s.groups| && s.groups[i] == h && Distinct(s.groups) && u.groups == WithoutAt(s.groups, i)
    requires forall j :: 0 <= j < |s.groups| ==> s.groups[j] in s.table && s.groups[j] in u.table
    requires forall g :: g in s.table && g in u.table && g != h ==> u.table[g] == s.table[g]
    ensures (forall j :: 0 <= j < |u.groups| ==> u.groups[j] in u.table) && Abs(u) == WithoutAt(Abs(s), i)
  {
  }

  lemma EmptiedSound(s: Store, t: Store, h: nat, i: nat)
    requires Sound(s) && i < |s.groups| && s.groups[i] == h && h in s.table && t == s.(table := t.table)
    requires t.table == s.table[h := Group(NameOf(s, h), [])]
    ensures Sound(Emptied(t, h))
  {
    PlaceIs(s.groups, h, i);
    var u := Emptied(t, h);
    assert u.groups == WithoutAt(s.groups, i);
    forall g | g in s.table ensures NameOf(u, g) == NameOf(s, g) && (InUse(u, g) <==> g != h && InUse(s, g)) {}
    GroupsLess(s.groups, i);
    EmptiedOrdered(s, u, h);
    assert InUse(s, h);
    EmptiedIndexed(s, u, h);
  }

  lemma EmptiedIndexed(s: Store, u: Store, h: nat)
    requires Ordered(s) && Indexed(s) && h in s.groups && u.table.Keys == s.table.Keys
    requires forall g :: g in u.groups <==> g in s.groups && g != h
    requires forall g :: g in s.table ==> NameOf(u, g) == NameOf(s, g)
    requires u.byString == s.byString || u.byString == s.byString - {NameOf(s, h)}
    ensures Indexed(u)
  {
    forall x | x in u.byString ensures IsString(x) && IndexedAt(u, x) { assert IndexedAt(s, x); }
    forall g | g in u.groups && IsString(NameOf(u, g))
      ensures NameOf(u, g) in u.byString && u.byString[NameOf(u, g)] == g
    {
      var j :| 0 <= j < |s.groups| && s.groups[j] == g;
      assert InUse(s, s.groups[j]);
    }
  }

  lemma GroupsLess(groups: seq<nat>, i: nat)
    requires Distinct(groups) && i < |groups|
    ensures Distinct(WithoutAt(groups, i)) && forall g :: g in WithoutAt(groups, i) <==> g in groups && g != groups[i]
  {
    var r := WithoutAt(groups, i);
    forall g | g in groups && g != groups[i]
      ensures g in r
    {
      var j :| 0 <= j < |groups| && groups[j] == g;
      assert r[if j < i then j else j - 1] == g;
    }
  }

  lemma EmptiedOrdered(s: Store, u: Store, h: nat)
    requires Sound(s) && u.table.Keys == s.table.Keys && u.next == s.next && Distinct(u.groups)
    requires forall g :: g in u.groups <==> g in s.groups && g != h
    requires forall g :: g in s.table ==> NameOf(u, g) == NameOf(s, g) && (InUse(u, g) <==> g != h && InUse(s, g))
    ensures Ordered(u) && Complete(u)
  {
    forall g | g in u.groups
      ensures g in s.table && InUse(u, g)
    {
      assert g in s.groups && InUse(s, g);
    }
    forall j | 0 <= j < |u.groups| ensures InUse(u, u.groups[j]) { assert u.groups[j] in u.groups; }
  }

  /** Where a drop on a group that has already been emptied goes wrong: its name has been
      registered again under a new group, and there are too many names to park. */
  predicate Stale(s: Store, h: nat)
    requires Sound(s) && h in s.table
  {
    && s.table[h].entries == [] && IsString(NameOf(s, h)) && |s.byString| > KEPT_NAMES
    && NameOf(s, h) in s.byString && InUse(s, s.byString[NameOf(s, h)])
  }

  /** A drop keeps the table sound exactly when it is not stale; a stale one leaves a
      name that is listed but not found. */
  lemma DropSafeExactly(s: Store, h: nat, k: nat)
    requires Sound(s) && h in s.table
    ensures Sound(DropAt(s, h, k)) <==> !Stale(s, h)
  {
    if k < |s.table[h].entries| {
      assert InUse(s, h);
      DropRefines(s, h, k);
    } else if s.table[h].entries == [] {
      assert !InUse(s, h);
      assert forall i :: 0 <= i < |s.groups| ==> InUse(s, s.groups[i]);
      ForgetExactly(s, h);
    }
  }

  lemma ForgetExactly(s: Store, h: nat)
    requires Sound(s) && h in s.table && s.table[h].entries == [] && h !in s.groups
    ensures Sound(Emptied(s, h)) <==> !Stale(s, h)
  {
    if Stale(s, h) { StaleBreaks(s, h); } else { ForgetKeeps(s, h); }
  }

  lemma StaleBreaks(s: Store, h: nat)
    requires Sound(s) && h in s.table && Stale(s, h)
    ensures !Indexed(Emptied(s, h))
  {
    var t, name := Emptied(s, h), NameOf(s, h);
    var g := s.byString[name];
    assert IndexedAt(s, name) && g in s.groups && g != h;
    StaysListed(s.groups, h, g);
    assert NameOf(t, g) == name && name !in t.byString;
  }

  lemma StaysListed(groups: seq<nat>, h: nat, g: nat)
    requires g in groups && g != h
    ensures g in WithoutHandle(groups, h)
  {
    var i := PlaceIn(groups, h);
    var j :| 0 <= j < |groups| && groups[j] == g;
    if i < |groups| { assert WithoutAt(groups, i)[if j < i then j else j - 1] == g; }
  }

  lemma ForgetKeeps(s: Store, h: nat)
    requires Sound(s) && h in s.table && s.table[h].entries == [] && h !in s.groups && !Stale(s, h)
    ensures Sound(Emptied(s, h))
  {
    var t := Emptied(s, h);
    assert t.groups == s.groups && t.table == s.table;
    forall x | x in t.byString ensures IsString(x) && IndexedAt(t, x) { assert IndexedAt(s, x); }
    forall g | g in t.groups && IsString(NameOf(t, g))
      ensures NameOf(t, g) in t.byString && t.byString[NameOf(t, g)] == g
    {
      var i :| 0 <= i < |s.groups| && s.groups[i] == g;
      assert InUse(s, s.groups[i]);
    }
  }

  /** What registering a name the index does not have makes of the table. */
  lemma AddUnknown(s: Store, name: EventName, e: Entry)
    requires Sound(s) && IsString(name) && name !in s.byString
    ensures var t := AddTo(s, name, e, false);
      Sound(t) && t.byString == s.byString[name := s.next] && t.next == s.next + 1
      && t.table == s.table[s.next := Group(name, [e])] && t.groups == s.groups + [s.next]
  {
    AddRefines(s, name, e, false);
  }

  /** What dropping the last listener of a name leaves when there are many names. */
  lemma Forgotten(s: Store, h: nat, name: EventName)
    requires Sound(s) && h in s.groups && h in s.table && |s.table[h].entries| == 1 && s.table[h].name == name
    requires IsString(name) && |s.byString| > KEPT_NAMES
    ensures var t := DropAt(s, h, 0);
      Sound(t) && t.byString == s.byString - {name} && t.next == s.next && t.table == s.table[h := Group(name, [])]
  {
    DropRefines(s, h, 0);
  }

  lemma LastIn(a: seq<nat>, x: nat)
    ensures x in a + [x]
  {
  }

  lemma SizeOfAdded<K, V>(a: map<K, V>, k: K, v: V)
    requires k !in a
    ensures |a[k := v]| == |a| + 1
  {
    assert a[k := v].Keys == a.Keys + {k};
  }
}
