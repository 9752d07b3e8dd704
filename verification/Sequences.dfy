/** What every component needs of sequences. */
module Sequences {

  lemma Associates<T>(a: seq<T>, b: seq<T>, c: seq<T>)
    ensures (a + b) + c == a + (b + c)
  {
  }

  lemma NothingMore<T>(a: seq<T>)
    ensures a + [] == a && [] + a == a
  {
  }

  // ---- order -------------------------------------------------------------------------------

  /** Places in a sequence of length `n`, in their order. */
  predicate Places(at: seq<nat>, n: nat) {
    (forall i :: 0 <= i < |at| ==> at[i] < n) && forall i, j :: 0 <= i < j < |at| ==> at[i] < at[j]
  }

  /** `r` is what stands at the places `at` of `s`. */
  predicate StandsAt<T(==)>(r: seq<T>, s: seq<T>, at: seq<nat>) {
    Places(at, |s|) && |at| == |r| && forall i :: 0 <= i < |r| ==> r[i] == s[at[i]]
  }

  /** `r` is some of `s`, in the order they have there. */
  ghost predicate InOrder<T>(r: seq<T>, s: seq<T>) { exists at: seq<nat> :: StandsAt(r, s, at) }

  lemma NoneInOrder<T>(s: seq<T>)
    ensures InOrder([], s)
  {
    assert StandsAt([], s, []);
  }

  lemma OrderSkips<T>(r: seq<T>, s: seq<T>, x: T)
    requires InOrder(r, s)
    ensures InOrder(r, s + [x])
  {
    var at: seq<nat> :| StandsAt(r, s, at);
    assert StandsAt(r, s + [x], at);
  }

  lemma OrderTakes<T>(r: seq<T>, s: seq<T>, x: T)
    requires InOrder(r, s)
    ensures InOrder(r + [x], s + [x])
  {
    var at: seq<nat> :| StandsAt(r, s, at);
    assert StandsAt(r + [x], s + [x], at + [|s|]);
  }

  lemma OrderAll<T>(s: seq<T>)
    ensures InOrder(s, s)
  {
    assert StandsAt(s, s, seq(|s|, i => i));
  }

  lemma OrderOfOrder<T>(r: seq<T>, s: seq<T>, t: seq<T>)
    requires InOrder(r, s) && InOrder(s, t)
    ensures InOrder(r, t)
  {
    var a: seq<nat> :| StandsAt(r, s, a);
    var b: seq<nat> :| StandsAt(s, t, b);
    assert StandsAt(r, t, seq(|a|, i requires 0 <= i < |a| => b[a[i]]));
  }

  // ---- what a history leaves ---------------------------------------------------------------

  /** What the events of a log make of a start, one after another. */
  function Fold<V, E>(next: (V, E) -> V, start: V, log: seq<E>): V {
    if log == [] then start else next(Fold(next, start, log[..|log| - 1]), log[|log| - 1])
  }

  lemma FoldSnoc<V, E>(next: (V, E) -> V, start: V, log: seq<E>, e: E)
    ensures Fold(next, start, log + [e]) == next(Fold(next, start, log), e)
  {
    assert (log + [e])[..|log|] == log;
  }

  lemma FoldAt<V, E>(next: (V, E) -> V, start: V, log: seq<E>, i: nat)
    requires i < |log|
    ensures Fold(next, start, log[..i + 1]) == next(Fold(next, start, log[..i]), log[i])
  {
    assert log[..i + 1][..i] == log[..i];
  }

  /** What no event can mend held all along. */
  lemma {:induction false} FoldPrefix<V(!new), E(!new)>(next: (V, E) -> V, start: V, good: V -> bool,
                                                       log: seq<E>, n: nat)
    requires forall v, e :: good(next(v, e)) ==> good(v)
    requires n <= |log| && good(Fold(next, start, log))
    ensures good(Fold(next, start, log[..n]))
    decreases |log|
  {
    if n < |log| {
      FoldPrefix(next, start, good, log[..|log| - 1], n);
      assert log[..|log| - 1][..n] == log[..n];
    } else {
      assert log[..n] == log;
    }
  }
}
