/** Sequence operations shared by the models: filtering, mapping, and the stable sort that both
    `Array.prototype.sort` and `ORDER BY` are specified to deliver. */
module Sequences {

  datatype Option<+T> = None | Some(value: T)

  datatype Result<+T, +E> = Ok(value: T) | Err(error: E) {
    predicate IsFailure() { Err? }

    function PropagateFailure<U>(): Result<U, E>
      requires Err?
    {
      Err(error)
    }

    function Extract(): T
      requires Ok?
    {
      value
    }
  }

  function Require<E>(condition: bool, error: E): Result<(), E> {
    if condition then Ok(()) else Err(error)
  }

  function Filter<T(!new)>(s: seq<T>, keep: T -> bool): (r: seq<T>)
    ensures forall x :: x in r <==> x in s && keep(x)
  {
    if s == [] then [] else (if keep(s[0]) then [s[0]] else []) + Filter(s[1..], keep)
  }

  function MapSeq<A, B>(s: seq<A>, f: A -> B): (r: seq<B>)
    ensures |r| == |s|
    ensures forall i :: 0 <= i < |s| ==> r[i] == f(s[i])
  {
    if s == [] then [] else [f(s[0])] + MapSeq(s[1..], f)
  }

  function RowAt<K, V>(m: map<K, V>, k: K): Option<V> {
    if k in m then Some(m[k]) else None
  }

  /** m with the row, if there is one. */
  function Put<K, V>(m: map<K, V>, k: K, row: Option<V>): map<K, V> {
    if row.Some? then m[k := row.value] else m
  }

  predicate Distinct<T(==)>(s: seq<T>) {
    forall i, j :: 0 <= i < j < |s| ==> s[i] != s[j]
  }

  // ---- Stable sorting by a comparator ----

  function Insert<T>(cmp: (T, T) -> int, x: T, s: seq<T>): seq<T> {
    if s == [] then [x]
    else if cmp(x, s[0]) <= 0 then [x] + s
    else [s[0]] + Insert(cmp, x, s[1..])
  }

  function SortBy<T>(cmp: (T, T) -> int, s: seq<T>): seq<T> {
    if s == [] then [] else Insert(cmp, s[0], SortBy(cmp, s[1..]))
  }

  /** The comparator is total and transitive on the elements of s. */
  ghost predicate Linear<T>(cmp: (T, T) -> int, s: seq<T>) {
    && (forall x, y {:trigger cmp(x, y)} :: x in s && y in s ==> cmp(x, y) <= 0 || cmp(y, x) <= 0)
    && (forall x, y, z {:trigger cmp(x, y), cmp(y, z)} ::
          x in s && y in s && z in s && cmp(x, y) <= 0 && cmp(y, z) <= 0 ==> cmp(x, z) <= 0)
  }

  ghost predicate Antisymmetric<T>(cmp: (T, T) -> int, s: seq<T>) {
    forall x, y {:trigger cmp(x, y), cmp(y, x)} :: x in s && y in s && cmp(x, y) <= 0 && cmp(y, x) <= 0 ==> x == y
  }

  ghost predicate Sorted<T>(cmp: (T, T) -> int, s: seq<T>) {
    forall i, j :: 0 <= i < j < |s| ==> cmp(s[i], s[j]) <= 0
  }

  lemma {:induction false} InsertPermutes<T>(cmp: (T, T) -> int, x: T, s: seq<T>)
    ensures multiset(Insert(cmp, x, s)) == multiset(s) + multiset{x}
  {
    if s == [] {
    } else if cmp(x, s[0]) <= 0 {
    } else {
      assert s == [s[0]] + s[1..];
      InsertPermutes(cmp, x, s[1..]);
    }
  }

  lemma {:induction false} SortPermutes<T>(cmp: (T, T) -> int, s: seq<T>)
    ensures multiset(SortBy(cmp, s)) == multiset(s)
    ensures |SortBy(cmp, s)| == |s|
    ensures forall x :: x in SortBy(cmp, s) <==> x in s
  {
    if s == [] {
    } else {
      assert s == [s[0]] + s[1..];
      SortPermutes(cmp, s[1..]);
      InsertPermutes(cmp, s[0], SortBy(cmp, s[1..]));
      assert multiset(SortBy(cmp, s)) == multiset(s);
    }
    assert |multiset(SortBy(cmp, s))| == |SortBy(cmp, s)|;
    assert forall x :: x in SortBy(cmp, s) <==> x in multiset(SortBy(cmp, s));
  }

  lemma {:induction false} InsertSorts<T>(cmp: (T, T) -> int, x: T, s: seq<T>)
    requires Linear(cmp, [x] + s) && Sorted(cmp, s)
    ensures Sorted(cmp, Insert(cmp, x, s))
  {
    if s == [] {
    } else if cmp(x, s[0]) <= 0 {
      forall j | 0 < j < |s|
        ensures cmp(x, s[j]) <= 0
      {
        LinearAt(cmp, [x] + s, 0, 1, j + 1);
      }
      PrependSorted(cmp, x, s);
    } else {
      LinearAt(cmp, [x] + s, 1, 0, 0);
      LinearSubset(cmp, [x] + s, [x] + s[1..]);
      InsertSorts(cmp, x, s[1..]);
      InsertStaysAbove(cmp, s[0], x, s[1..]);
      PrependSorted(cmp, s[0], Insert(cmp, x, s[1..]));
    }
  }

  lemma PrependSorted<T>(cmp: (T, T) -> int, low: T, s: seq<T>)
    requires Sorted(cmp, s) && forall j :: 0 <= j < |s| ==> cmp(low, s[j]) <= 0
    ensures Sorted(cmp, [low] + s)
  {
  }

  lemma LinearAt<T>(cmp: (T, T) -> int, s: seq<T>, i: nat, j: nat, k: nat)
    requires Linear(cmp, s) && i < |s| && j < |s| && k < |s|
    ensures cmp(s[i], s[j]) <= 0 || cmp(s[j], s[i]) <= 0
    ensures cmp(s[i], s[j]) <= 0 && cmp(s[j], s[k]) <= 0 ==> cmp(s[i], s[k]) <= 0
  {
  }

  lemma {:induction false} InsertStaysAbove<T>(cmp: (T, T) -> int, low: T, x: T, s: seq<T>)
    requires cmp(low, x) <= 0 && forall j :: 0 <= j < |s| ==> cmp(low, s[j]) <= 0
    ensures forall j :: 0 <= j < |Insert(cmp, x, s)| ==> cmp(low, Insert(cmp, x, s)[j]) <= 0
  {
    if s != [] && cmp(x, s[0]) > 0 {
      InsertStaysAbove(cmp, low, x, s[1..]);
    }
  }

  lemma LinearSubset<T>(cmp: (T, T) -> int, all: seq<T>, some: seq<T>)
    requires Linear(cmp, all) && forall x :: x in some ==> x in all
    ensures Linear(cmp, some)
  {
  }

  lemma {:induction false} SortSorts<T>(cmp: (T, T) -> int, s: seq<T>)
    requires Linear(cmp, s)
    ensures Sorted(cmp, SortBy(cmp, s))
  {
    if s == [] {
    } else {
      var tail, r := s[1..], SortBy(cmp, s[1..]);
      LinearSubset(cmp, s, tail);
      SortSorts(cmp, tail);
      SortPermutes(cmp, tail);
      assert multiset(r) == multiset(tail);
      forall x | x in [s[0]] + r
        ensures x in s
      {
        if x != s[0] { SameMultisetSameElements(r, tail, x); }
      }
      LinearSubset(cmp, s, [s[0]] + r);
      InsertSorts(cmp, s[0], r);
    }
  }

  lemma SameMultisetSameElements<T>(a: seq<T>, b: seq<T>, x: T)
    requires multiset(a) == multiset(b) && x in a
    ensures x in b
  {
    assert x in multiset(b);
  }

  /** Under a strict order a sorted arrangement is unique, whatever order the elements arrived in. */
  lemma {:induction false} SortedIsUnique<T>(cmp: (T, T) -> int, a: seq<T>, b: seq<T>)
    requires multiset(a) == multiset(b)
    requires Sorted(cmp, a) && Sorted(cmp, b) && Antisymmetric(cmp, a)
    ensures a == b
    decreases |a|
  {
    SameMultisetSameLength(a, b);
    if a != [] {
      SortedHeadsAgree(cmp, a, b);
      var s, t := a[1..], b[1..];
      TailsAgree(a, b);
      AntisymmetricSubset(cmp, a, s);
      SortedTail(cmp, a);
      SortedTail(cmp, b);
      SortedIsUnique(cmp, s, t);
      SameHeadAndTail(a, b);
    }
  }

  lemma SameHeadAndTail<T>(a: seq<T>, b: seq<T>)
    requires a != [] && b != [] && a[0] == b[0] && a[1..] == b[1..]
    ensures a == b
  {
    assert a == [a[0]] + a[1..] && b == [b[0]] + b[1..];
  }

  lemma SortedTail<T>(cmp: (T, T) -> int, s: seq<T>)
    requires s != [] && Sorted(cmp, s)
    ensures Sorted(cmp, s[1..])
  {
  }

  lemma SameMultisetSameLength<T>(a: seq<T>, b: seq<T>)
    requires multiset(a) == multiset(b)
    ensures |a| == |b|
  {
    assert |multiset(a)| == |a| && |multiset(b)| == |b|;
  }

  lemma AntisymmetricSubset<T>(cmp: (T, T) -> int, all: seq<T>, some: seq<T>)
    requires Antisymmetric(cmp, all) && forall x :: x in some ==> x in all
    ensures Antisymmetric(cmp, some)
  {
  }

  lemma SortedHeadsAgree<T>(cmp: (T, T) -> int, a: seq<T>, b: seq<T>)
    requires a != [] && b != [] && multiset(a) == multiset(b)
    requires Sorted(cmp, a) && Sorted(cmp, b) && Antisymmetric(cmp, a)
    ensures a[0] == b[0]
  {
    assert a[0] in multiset(b) && b[0] in multiset(a);
    var i :| 0 <= i < |b| && b[i] == a[0];
    var j :| 0 <= j < |a| && a[j] == b[0];
    if i > 0 && j > 0 {
      assert cmp(b[0], b[i]) <= 0 && cmp(a[0], a[j]) <= 0;
    }
  }

  lemma TailsAgree<T>(a: seq<T>, b: seq<T>)
    requires a != [] && b != [] && a[0] == b[0] && multiset(a) == multiset(b)
    ensures multiset(a[1..]) == multiset(b[1..])
  {
    assert a == [a[0]] + a[1..] && b == [b[0]] + b[1..];
    assert multiset(a) == multiset{a[0]} + multiset(a[1..]);
    assert multiset(b) == multiset{b[0]} + multiset(b[1..]);
    assert multiset(a[1..]) == multiset(a) - multiset{a[0]};
  }

  /** What `[...candidates].sort(cmp)[0]` and `ORDER BY … LIMIT 1` select: an element no other precedes. */
  lemma SortHeadIsLeast<T>(cmp: (T, T) -> int, s: seq<T>)
    requires s != [] && Linear(cmp, s)
    ensures |SortBy(cmp, s)| > 0 && SortBy(cmp, s)[0] in s
    ensures forall x :: x in s && x != SortBy(cmp, s)[0] ==> cmp(SortBy(cmp, s)[0], x) <= 0
  {
    SortPermutes(cmp, s);
    SortSorts(cmp, s);
    var r := SortBy(cmp, s);
    forall x | x in s && x != r[0]
      ensures cmp(r[0], x) <= 0
    {
      var j :| 0 <= j < |r| && r[j] == x;
    }
  }

  // ---- Finite sets ----

  /** Some element of a non-empty set. */
  method AnyOf<T>(s: set<T>) returns (x: T)
    requires s != {}
    ensures x in s
  {
    x :| x in s;
  }

  lemma {:induction false} SubsetCardinality<T>(small: set<T>, large: set<T>)
    requires small <= large
    ensures |small| <= |large|
  {
    if small != {} {
      var x :| x in small;
      SubsetCardinality(small - {x}, large - {x});
    }
  }

  lemma Shrinks<T>(small: set<T>, large: set<T>, x: T)
    requires small <= large && x in large && x !in small
    ensures |small| < |large|
  {
    SubsetCardinality(small, large - {x});
  }
}
