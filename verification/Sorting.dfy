/** The meaning of the library's stable sort: the one sorted sequence that keeps
    the order of elements the comparison does not separate. */
module Sorting {

  /** What `sort.SliceStable` asks of its comparison. */
  ghost predicate Ordering<T(!new)>(less: (T, T) -> bool) {
    && (forall a :: !less(a, a))
    && (forall a, b :: less(a, b) ==> !less(b, a))
    && (forall a, b, c :: less(a, b) ==> less(a, c) || less(c, b))
  }

  predicate Tied<T>(less: (T, T) -> bool, a: T, b: T) {
    !less(a, b) && !less(b, a)
  }

  ghost predicate Sorted<T>(s: seq<T>, less: (T, T) -> bool) {
    forall i, j | 0 <= i < j < |s| :: !less(s[j], s[i])
  }

  /** The elements of `s` tied with `z`, in order. */
  function Tie<T>(s: seq<T>, less: (T, T) -> bool, z: T): seq<T> {
    if s == [] then []
    else (if Tied(less, s[0], z) then [s[0]] else []) + Tie(s[1..], less, z)
  }

  /** `out` is sorted and holds, for every tie, the elements of `s` in their original order. */
  ghost predicate IsStableSort<T(!new)>(out: seq<T>, s: seq<T>, less: (T, T) -> bool) {
    && Sorted(out, less)
    && forall z :: Tie(out, less, z) == Tie(s, less, z)
  }

  function Insert<T>(s: seq<T>, x: T, less: (T, T) -> bool): seq<T> {
    if s == [] then [x]
    else if less(x, s[0]) then [x] + s
    else [s[0]] + Insert(s[1..], x, less)
  }

  function Sort<T>(s: seq<T>, less: (T, T) -> bool): seq<T> {
    if s == [] then [] else Insert(Sort(s[..|s| - 1], less), s[|s| - 1], less)
  }

  lemma {:induction false} InsertMultiset<T>(s: seq<T>, x: T, less: (T, T) -> bool)
    ensures multiset(Insert(s, x, less)) == multiset(s) + multiset{x}
  {
    if s != [] && !less(x, s[0]) {
      InsertMultiset(s[1..], x, less);
      assert s == [s[0]] + s[1..];
    }
  }

  lemma {:induction false} SortMultiset<T>(s: seq<T>, less: (T, T) -> bool)
    ensures multiset(Sort(s, less)) == multiset(s)
  {
    if s != [] {
      SortMultiset(s[..|s| - 1], less);
      InsertMultiset(Sort(s[..|s| - 1], less), s[|s| - 1], less);
      assert s == s[..|s| - 1] + [s[|s| - 1]];
    }
  }

  lemma InsertMember<T>(s: seq<T>, x: T, less: (T, T) -> bool, y: T)
    ensures y in Insert(s, x, less) <==> y == x || y in s
  {
    InsertMultiset(s, x, less);
    assert y in Insert(s, x, less) <==> y in multiset(Insert(s, x, less));
    assert y in s <==> y in multiset(s);
  }

  lemma {:induction false} InsertSorted<T(!new)>(s: seq<T>, x: T, less: (T, T) -> bool)
    requires Ordering(less) && Sorted(s, less)
    ensures Sorted(Insert(s, x, less), less)
  {
    if s != [] {
      var r := Insert(s[1..], x, less);
      InsertSorted(s[1..], x, less);
      if less(x, s[0]) {
        forall j | 0 <= j < |s| ensures !less(s[j], x) { }
      } else {
        forall y | y in r ensures !less(y, s[0]) {
          InsertMember(s[1..], x, less, y);
        }
      }
    }
  }

  lemma {:induction false} NoTieAbove<T(!new)>(s: seq<T>, less: (T, T) -> bool, x: T, z: T)
    requires Ordering(less)
    requires forall y | y in s :: less(x, y)
    requires Tied(less, x, z)
    ensures Tie(s, less, z) == []
  {
    if s != [] {
      assert less(x, s[0]);
      NoTieAbove(s[1..], less, x, z);
    }
  }

  lemma TieCons<T>(h: T, t: seq<T>, less: (T, T) -> bool, z: T)
    ensures Tie([h] + t, less, z) == (if Tied(less, h, z) then [h] else []) + Tie(t, less, z)
  {
    assert ([h] + t)[1..] == t;
  }

  lemma TieBelow<T(!new)>(s: seq<T>, x: T, less: (T, T) -> bool, z: T)
    requires Ordering(less) && Sorted(s, less) && s != [] && less(x, s[0])
    ensures Tie([x] + s, less, z) == Tie(s, less, z) + (if Tied(less, x, z) then [x] else [])
  {
    TieCons(x, s, less, z);
    if Tied(less, x, z) {
      forall y | y in s ensures less(x, y) {
        assert y == s[0] || !less(y, s[0]);
      }
      NoTieAbove(s, less, x, z);
    }
  }

  lemma {:induction false} InsertTie<T(!new)>(s: seq<T>, x: T, less: (T, T) -> bool, z: T)
    requires Ordering(less) && Sorted(s, less)
    ensures Tie(Insert(s, x, less), less, z) == Tie(s, less, z) + (if Tied(less, x, z) then [x] else [])
  {
    if s == [] {
      TieCons(x, [], less, z);
      assert [x] + [] == [x];
    } else if less(x, s[0]) {
      TieBelow(s, x, less, z);
    } else {
      InsertTie(s[1..], x, less, z);
      TieCons(s[0], Insert(s[1..], x, less), less, z);
      TieCons(s[0], s[1..], less, z);
      assert [s[0]] + s[1..] == s;
    }
  }

  lemma {:induction false} TieSnoc<T>(s: seq<T>, x: T, less: (T, T) -> bool, z: T)
    ensures Tie(s + [x], less, z) == Tie(s, less, z) + (if Tied(less, x, z) then [x] else [])
  {
    if s == [] {
      assert s + [x] == [x] && [x][1..] == [];
    } else {
      TieSnoc(s[1..], x, less, z);
      assert (s + [x])[1..] == s[1..] + [x];
    }
  }

  lemma {:induction false} SortIsStable<T(!new)>(s: seq<T>, less: (T, T) -> bool)
    requires Ordering(less)
    ensures IsStableSort(Sort(s, less), s, less)
  {
    if s != [] {
      var front, x := s[..|s| - 1], s[|s| - 1];
      SortIsStable(front, less);
      InsertSorted(Sort(front, less), x, less);
      forall z ensures Tie(Sort(s, less), less, z) == Tie(s, less, z) {
        InsertTie(Sort(front, less), x, less, z);
        TieSnoc(front, x, less, z);
        assert s == front + [x];
      }
    }
  }

  lemma {:induction false} TieNonempty<T>(s: seq<T>, less: (T, T) -> bool, z: T)
    ensures Tie(s, less, z) != [] ==> exists y :: y in s && Tied(less, y, z)
    ensures (exists y :: y in s && Tied(less, y, z)) ==> Tie(s, less, z) != []
  {
    if s != [] {
      TieNonempty(s[1..], less, z);
      assert s == [s[0]] + s[1..];
    }
  }

  lemma TieTail<T>(s: seq<T>, less: (T, T) -> bool, z: T)
    requires s != []
    ensures Tied(less, s[0], z) ==> Tie(s, less, z) != []
    ensures Tie(s[1..], less, z) == if Tied(less, s[0], z) then Tie(s, less, z)[1..] else Tie(s, less, z)
  {
  }

  /** Whoever comes first in one stable sort has a tied element in the other. */
  lemma HeadBound<T(!new)>(a: seq<T>, b: seq<T>, less: (T, T) -> bool)
    requires Ordering(less) && Sorted(a, less) && Sorted(b, less)
    requires a != [] && b != []
    requires forall z :: Tie(a, less, z) == Tie(b, less, z)
    ensures !less(a[0], b[0])
  {
    TieNonempty(a, less, a[0]);
    TieNonempty(b, less, a[0]);
    assert a[0] in a && Tied(less, a[0], a[0]);
    assert Tie(a, less, a[0]) == Tie(b, less, a[0]);
    var y :| y in b && Tied(less, y, a[0]);
    assert y == b[0] || !less(y, b[0]);
  }

  lemma SameHead<T(!new)>(a: seq<T>, b: seq<T>, less: (T, T) -> bool)
    requires Ordering(less) && Sorted(a, less) && Sorted(b, less)
    requires a != [] && b != []
    requires forall z :: Tie(a, less, z) == Tie(b, less, z)
    ensures a[0] == b[0]
  {
    HeadBound(a, b, less);
    HeadBound(b, a, less);
    assert Tie(a, less, a[0]) == Tie(b, less, a[0]);
    TieCons(a[0], a[1..], less, a[0]);
    TieCons(b[0], b[1..], less, a[0]);
    assert a == [a[0]] + a[1..] && b == [b[0]] + b[1..];
    assert Tie(a, less, a[0])[0] == a[0] && Tie(b, less, a[0])[0] == b[0];
  }

  lemma TailsTie<T>(a: seq<T>, b: seq<T>, less: (T, T) -> bool, z: T)
    requires a != [] && b != [] && a[0] == b[0] && Tie(a, less, z) == Tie(b, less, z)
    ensures Tie(a[1..], less, z) == Tie(b[1..], less, z)
  {
    TieTail(a, less, z);
    TieTail(b, less, z);
  }

  /** There is only one stable sort of a sequence. */
  lemma {:induction false} StableSortUnique<T(!new)>(a: seq<T>, b: seq<T>, less: (T, T) -> bool)
    requires Ordering(less) && Sorted(a, less) && Sorted(b, less)
    requires forall z :: Tie(a, less, z) == Tie(b, less, z)
    ensures a == b
    decreases |a|
  {
    if a != [] {
      TieTail(a, less, a[0]);
    }
    if b != [] {
      TieTail(b, less, b[0]);
    }
    if a != [] && b != [] {
      SameHead(a, b, less);
      forall z ensures Tie(a[1..], less, z) == Tie(b[1..], less, z) {
        TailsTie(a, b, less, z);
      }
      assert Sorted(a[1..], less) && Sorted(b[1..], less);
      StableSortUnique(a[1..], b[1..], less);
      assert a == [a[0]] + a[1..] && b == [b[0]] + b[1..];
    }
  }
}
