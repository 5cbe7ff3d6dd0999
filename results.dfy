/** The exceptions the modelled Python code raises, and the failure-compatible
    wrappers that carry them in place of raising. */
module Results {

  /** The exception classes the core raises; messages are not modelled. */
  datatype Error = ValueError | TypeError | KeyError | IndexError | ZeroDivisionError

  /** A value, or the exception raised instead of returning it. */
  datatype Result<+T> = Ok(value: T) | Err(error: Error) {
    predicate IsFailure() { Err? }

    function PropagateFailure<U>(): Result<U>
      requires Err?
    {
      Err(error)
    }

    function Extract(): T
      requires Ok?
    {
      value
    }
  }

  /** The outcome of a check that returns nothing or raises. */
  datatype Outcome = Pass | Fail(error: Error) {
    predicate IsFailure() { Fail? }

    function PropagateFailure<U>(): Result<U>
      requires Fail?
    {
      Err(error)
    }
  }

  /** Python's `None` or a value. */
  datatype Option<+T> = None | Some(value: T)
}

/** Small facts about sequences used by several modules. */
module Seqs {

  /** The set of elements of a sequence (Python's `set(list)`). */
  function Elems<T>(s: seq<T>): set<T> {
    set x | x in s
  }

  /** No element occurs twice. */
  predicate NoDup<T(==)>(s: seq<T>) {
    forall i, j | 0 <= i < j < |s| :: s[i] != s[j]
  }

  /** In a list without duplicates, equal elements sit at the same position. */
  lemma NoDupSamePosition<T>(s: seq<T>, i: nat, j: nat)
    requires NoDup(s) && i < |s| && j < |s| && s[i] == s[j]
    ensures i == j
  {
    if i < j || j < i {
      assert false;
    }
  }

  /** The elements of `s` other than `x`, in order (`[v for v in s if v != x]`). */
  function Without<T(==)>(s: seq<T>, x: T): (r: seq<T>)
    ensures Elems(r) == Elems(s) - {x}
    ensures NoDup(s) ==> NoDup(r)
    ensures x !in s ==> r == s
  {
    if s == [] then []
    else
      var rest := Without(s[1..], x);
      assert s == [s[0]] + s[1..];
      assert Elems(s) == {s[0]} + Elems(s[1..]);
      if s[0] == x then rest
      else
        assert Elems([s[0]] + rest) == {s[0]} + Elems(rest);
        assert NoDup(s) ==> s[0] !in s[1..] && NoDup(s[1..]);
        [s[0]] + rest
  }

  /** `Without` drops every copy of `x` and keeps every other element as often as it occurs. */
  lemma {:induction false} WithoutCounts<T>(s: seq<T>, x: T)
    ensures multiset(Without(s, x)) == multiset(s)[x := 0]
  {
    if s != [] {
      WithoutCounts(s[1..], x);
      assert s == [s[0]] + s[1..];
      assert multiset(s) == multiset{s[0]} + multiset(s[1..]);
      if s[0] != x {
        assert Without(s, x) == [s[0]] + Without(s[1..], x);
        assert multiset(Without(s, x)) == multiset{s[0]} + multiset(Without(s[1..], x));
      }
    }
  }

  /** The first occurrence of every element, in order; stands for `list(set(s))`,
      whose order Python leaves to hashing. */
  function Dedup<T(==)>(s: seq<T>): (r: seq<T>)
    ensures Elems(r) == Elems(s)
    ensures NoDup(r)
  {
    if s == [] then []
    else
      var rest := Dedup(s[..|s| - 1]);
      var x := s[|s| - 1];
      assert s == s[..|s| - 1] + [x];
      assert Elems(s) == Elems(s[..|s| - 1]) + {x};
      if x in rest then rest
      else
        assert Elems(rest + [x]) == Elems(rest) + {x};
        rest + [x]
  }

  lemma {:induction false} NoDupCard<T>(s: seq<T>)
    requires NoDup(s)
    ensures |Elems(s)| == |s|
  {
    if s != [] {
      var last := s[|s| - 1];
      var init := s[..|s| - 1];
      assert NoDup(init);
      NoDupCard(init);
      assert Elems(s) == Elems(init) + {last};
      assert last !in Elems(init);
    }
  }

  // ---------------------------------------------------------------------------
  // Positions: a filter that keeps order, stated by the positions it keeps
  // ---------------------------------------------------------------------------

  /** Positions listed in strictly increasing order. */
  predicate Increasing(ps: seq<nat>) {
    forall i, j | 0 <= i < j < |ps| :: ps[i] < ps[j]
  }

  /** The positions `i, i + 1, ..., n - 1`. */
  function Span(i: nat, n: nat): (ps: seq<nat>)
    ensures |ps| == if i <= n then n - i else 0
    ensures forall k | 0 <= k < |ps| :: ps[k] == i + k
    ensures forall p :: p in ps <==> i <= p < n
    decreases n - i
  {
    if i >= n then [] else [i] + Span(i + 1, n)
  }

  /** The positions `0, 1, ..., n - 1`. */
  function Positions(n: nat): (ps: seq<nat>)
    ensures |ps| == n && forall i | 0 <= i < n :: ps[i] == i
  {
    Span(0, n)
  }

  lemma PositionsIncreasing(n: nat)
    ensures Increasing(Positions(n)) && forall p :: p in Positions(n) <==> 0 <= p < n
  {
  }

  /** The elements of `s` at the positions `ps`, in the order of `ps`. */
  function At<T>(s: seq<T>, ps: seq<nat>): (r: seq<T>)
    requires forall p | p in ps :: p < |s|
    ensures |r| == |ps|
    ensures forall k | 0 <= k < |ps| :: ps[k] in ps && r[k] == s[ps[k]]
  {
    if ps == [] then []
    else
      assert ps[0] in ps && forall p | p in ps[1..] :: p in ps;
      [s[ps[0]]] + At(s, ps[1..])
  }

  lemma AtCons<T>(s: seq<T>, p: nat, ps: seq<nat>)
    requires p < |s| && forall q | q in ps :: q < |s|
    ensures At(s, [p] + ps) == [s[p]] + At(s, ps)
  {
  }

  /** The positions of `ps`, in order, whose flag in `mask` is `want`. */
  function WithValue(mask: seq<bool>, ps: seq<nat>, want: bool): (r: seq<nat>)
    requires forall p | p in ps :: p < |mask|
    ensures forall p :: p in r <==> p in ps && mask[p] == want
    ensures Increasing(ps) ==> Increasing(r)
  {
    if ps == [] then []
    else
      assert ps[0] in ps && forall p | p in ps[1..] :: p in ps;
      var rest := WithValue(mask, ps[1..], want);
      if mask[ps[0]] == want then
        assert Increasing(ps) ==> forall k | 0 <= k < |rest| :: ps[0] < rest[k] by {
          if Increasing(ps) {
            forall k | 0 <= k < |rest| ensures ps[0] < rest[k] {
              assert rest[k] in rest;
              var j :| 0 <= j < |ps[1..]| && ps[1..][j] == rest[k];
              assert ps[j + 1] == rest[k];
            }
          }
        }
        [ps[0]] + rest
      else rest
  }

  /** One flag per element: whether it differs from `x`. */
  function Differs<T(==)>(s: seq<T>, x: T): (m: seq<bool>)
    ensures |m| == |s| && forall k | 0 <= k < |s| :: m[k] == (s[k] != x)
  {
    seq(|s|, k requires 0 <= k < |s| => s[k] != x)
  }

  /** `Without` keeps exactly the positions holding another element, in their
      original order. */
  lemma WithoutInOrder<T>(s: seq<T>, x: T)
    ensures Without(s, x) == At(s, WithValue(Differs(s, x), Positions(|s|), true))
  {
    WithoutFrom(s, x, 0);
    assert s[0..] == s;
  }

  lemma {:induction false} WithoutFrom<T>(s: seq<T>, x: T, i: nat)
    requires i <= |s|
    ensures Without(s[i..], x) == At(s, WithValue(Differs(s, x), Span(i, |s|), true))
    decreases |s| - i
  {
    if i < |s| {
      WithoutFrom(s, x, i + 1);
      var m := Differs(s, x);
      var rest := WithValue(m, Span(i + 1, |s|), true);
      assert Span(i, |s|) == [i] + Span(i + 1, |s|);
      assert s[i..][1..] == s[i + 1..];
      if m[i] {
        assert WithValue(m, Span(i, |s|), true) == [i] + rest;
        AtCons(s, i, rest);
      } else {
        assert WithValue(m, Span(i, |s|), true) == rest;
      }
    }
  }
}
