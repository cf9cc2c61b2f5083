/** The standard library's stable sort, as a function, and what characterises it. */
module Sorting {
  type Order<!T> = (T, T) -> bool

  ghost predicate TotalPreorder<T(!new)>(leq: Order<T>) {
    && (forall x, y :: leq(x, y) || leq(y, x))
    && (forall x, y, z :: leq(x, y) && leq(y, z) ==> leq(x, z))
  }

  ghost predicate SortedBy<T>(s: seq<T>, leq: Order<T>) {
    forall i, j :: 0 <= i < j < |s| ==> leq(s[i], s[j])
  }

  /** Inserts `x` before the first element it may precede. */
  function Insert<T>(x: T, s: seq<T>, leq: Order<T>): seq<T> {
    if s == [] then [x]
    else if leq(x, s[0]) then [x] + s
    else [s[0]] + Insert(x, s[1..], leq)
  }

  function StableSort<T>(s: seq<T>, leq: Order<T>): seq<T> {
    if s == [] then [] else Insert(s[0], StableSort(s[1..], leq), leq)
  }

  /** The elements of `s` that tie with `x`, in order. */
  function Ties<T>(s: seq<T>, x: T, leq: Order<T>): seq<T> {
    if s == [] then []
    else if leq(s[0], x) && leq(x, s[0]) then [s[0]] + Ties(s[1..], x, leq)
    else Ties(s[1..], x, leq)
  }

  lemma {:induction false} InsertMembers<T>(x: T, s: seq<T>, leq: Order<T>)
    ensures multiset(Insert(x, s, leq)) == multiset(s) + multiset{x}
  {
    if s != [] {
      assert s == [s[0]] + s[1..];
      InsertMembers(x, s[1..], leq);
    }
  }

  lemma {:induction false} InsertSorted<T(!new)>(x: T, s: seq<T>, leq: Order<T>)
    requires TotalPreorder(leq) && SortedBy(s, leq)
    ensures SortedBy(Insert(x, s, leq), leq)
  {
    if s != [] && !leq(x, s[0]) {
      var r := Insert(x, s[1..], leq);
      InsertSorted(x, s[1..], leq);
      InsertMembers(x, s[1..], leq);
      forall j | 0 <= j < |r| ensures leq(s[0], r[j]) {
        assert r[j] in multiset(r);
        assert r[j] == x || r[j] in s[1..];
      }
    }
  }

  lemma TiesCons<T>(x: T, s: seq<T>, y: T, leq: Order<T>)
    ensures Ties([x] + s, y, leq) == if leq(x, y) && leq(y, x) then [x] + Ties(s, y, leq) else Ties(s, y, leq)
  {
    assert ([x] + s)[1..] == s;
  }

  /** Elements that do not tie can be exchanged without a trace among the ties. */
  lemma TiesSwap<T(!new)>(x: T, z: T, s: seq<T>, y: T, leq: Order<T>)
    requires TotalPreorder(leq) && !leq(x, z)
    ensures Ties([z] + ([x] + s), y, leq) == Ties([x] + ([z] + s), y, leq)
  {
    TiesCons(x, s, y, leq);
    TiesCons(z, s, y, leq);
    TiesCons(z, [x] + s, y, leq);
    TiesCons(x, [z] + s, y, leq);
  }

  lemma {:induction false} InsertTies<T(!new)>(x: T, s: seq<T>, y: T, leq: Order<T>)
    requires TotalPreorder(leq)
    ensures Ties(Insert(x, s, leq), y, leq) == Ties([x] + s, y, leq)
  {
    if s != [] && !leq(x, s[0]) {
      var t := s[1..];
      InsertTies(x, t, y, leq);
      TiesCons(s[0], Insert(x, t, leq), y, leq);
      TiesCons(s[0], [x] + t, y, leq);
      TiesSwap(x, s[0], t, y, leq);
      assert s == [s[0]] + t;
    }
  }

  lemma {:induction false} SortSorted<T(!new)>(s: seq<T>, leq: Order<T>)
    requires TotalPreorder(leq)
    ensures SortedBy(StableSort(s, leq), leq)
  {
    if s != [] {
      SortSorted(s[1..], leq);
      InsertSorted(s[0], StableSort(s[1..], leq), leq);
    }
  }

  lemma {:induction false} SortMembers<T>(s: seq<T>, leq: Order<T>)
    ensures multiset(StableSort(s, leq)) == multiset(s)
  {
    if s != [] {
      SortMembers(s[1..], leq);
      InsertMembers(s[0], StableSort(s[1..], leq), leq);
      assert s == [s[0]] + s[1..];
    }
  }

  lemma {:induction false} SortTies<T(!new)>(s: seq<T>, y: T, leq: Order<T>)
    requires TotalPreorder(leq)
    ensures Ties(StableSort(s, leq), y, leq) == Ties(s, y, leq)
  {
    if s != [] {
      var r := StableSort(s[1..], leq);
      SortTies(s[1..], y, leq);
      InsertTies(s[0], r, y, leq);
      TiesCons(s[0], r, y, leq);
    }
  }

  /** The sort is a sorted permutation that keeps tied elements in their order. */
  lemma StableSortProperties<T(!new)>(s: seq<T>, leq: Order<T>)
    requires TotalPreorder(leq)
    ensures SortedBy(StableSort(s, leq), leq)
    ensures multiset(StableSort(s, leq)) == multiset(s)
    ensures |StableSort(s, leq)| == |s|
    ensures forall y :: Ties(StableSort(s, leq), y, leq) == Ties(s, y, leq)
  {
    SortSorted(s, leq);
    SortMembers(s, leq);
    assert |multiset(StableSort(s, leq))| == |multiset(s)|;
    forall y ensures Ties(StableSort(s, leq), y, leq) == Ties(s, y, leq) {
      SortTies(s, y, leq);
    }
  }

  /** The first element of a sorted sequence is below every element of a permutation of it. */
  lemma HeadIsLeast<T>(a: seq<T>, b: seq<T>, leq: Order<T>)
    requires SortedBy(a, leq) && multiset(a) == multiset(b)
    requires a != [] && b != [] && leq(a[0], a[0])
    ensures leq(a[0], b[0]) && b[0] in a
  {
    assert b[0] in multiset(b);
    assert b[0] in multiset(a);
    var j :| 0 <= j < |a| && a[j] == b[0];
  }

  lemma TailMultiset<T>(a: seq<T>)
    requires a != []
    ensures multiset(a[1..]) == multiset(a) - multiset{a[0]}
  {
    assert a == [a[0]] + a[1..];
  }

  /** A permutation has the first element somewhere; the rests are permutations again. */
  lemma HeadOf<T>(a: seq<T>, b: seq<T>) returns (before: seq<T>, after: seq<T>)
    requires multiset(a) == multiset(b) && a != []
    ensures b == before + ([a[0]] + after) && multiset(before + after) == multiset(a[1..])
  {
    assert a[0] in multiset(b);
    var i :| 0 <= i < |b| && b[i] == a[0];
    before, after := b[..i], b[i + 1..];
    assert b == before + ([a[0]] + after);
    assert multiset(b) == multiset(before + after) + multiset{a[0]};
    TailMultiset(a);
  }

  lemma SameTail<T>(a: seq<T>, b: seq<T>)
    requires multiset(a) == multiset(b) && a != [] && b != [] && a[0] == b[0]
    ensures multiset(a[1..]) == multiset(b[1..])
  {
    TailMultiset(a);
    TailMultiset(b);
  }

  /** No two different elements tie. */
  ghost predicate Untied<T(!new)>(a: seq<T>, leq: Order<T>) {
    && (forall x :: x in a ==> leq(x, x))
    && (forall x, y :: x in a && y in a && leq(x, y) && leq(y, x) ==> x == y)
  }

  lemma UntiedTail<T(!new)>(a: seq<T>, leq: Order<T>)
    requires Untied(a, leq) && SortedBy(a, leq) && a != []
    ensures Untied(a[1..], leq) && SortedBy(a[1..], leq)
  {
    assert forall x :: x in a[1..] ==> x in a;
  }

  /** Without ties among different elements, sorted permutations are equal. */
  lemma {:induction false} SortedUnique<T(!new)>(a: seq<T>, b: seq<T>, leq: Order<T>)
    requires SortedBy(a, leq) && SortedBy(b, leq) && multiset(a) == multiset(b) && Untied(a, leq)
    ensures a == b
  {
    assert |multiset(a)| == |a| && |multiset(b)| == |b|;
    if a == [] {
      assert b == [];
    } else {
      SameHead(a, b, leq);
      SameTail(a, b);
      UntiedTail(a, leq);
      SortedUnique(a[1..], b[1..], leq);
      assert a == [a[0]] + a[1..] && b == [b[0]] + b[1..];
    }
  }

  lemma SameHead<T(!new)>(a: seq<T>, b: seq<T>, leq: Order<T>)
    requires SortedBy(a, leq) && SortedBy(b, leq) && multiset(a) == multiset(b) && a != [] && b != []
    requires Untied(a, leq)
    ensures a[0] == b[0]
  {
    HeadIsLeast(a, b, leq);
    assert b[0] in a;
    HeadIsLeast(b, a, leq);
  }
}
