/** Values and sequence operations shared by every component. */
module Common {

  datatype Option<+T> = None | Some(value: T)

  /** Nanoseconds on the server clock. Zero is the zero time of the source language. */
  type Time = int

  const ZERO_TIME: Time := 0

  function Min(a: real, b: real): real { if a <= b then a else b }

  function MaxInt(a: int, b: int): int { if a >= b then a else b }

  /** A character with its ASCII case taken off. */
  function LowerChar(c: char): char {
    if 'A' <= c <= 'Z' then c - 'A' + 'a' else c
  }

  /** The elements of `s` that satisfy `p`, in order. */
  function Filter<T>(s: seq<T>, p: T -> bool): seq<T> {
    if s == [] then []
    else (if p(s[0]) then [s[0]] else []) + Filter(s[1..], p)
  }

  lemma FilterHead<T>(s: seq<T>, p: T -> bool)
    requires s != []
    ensures Filter(s, p) == if p(s[0]) then [s[0]] + Filter(s[1..], p) else Filter(s[1..], p)
  {
  }

  lemma {:induction false} FilterConcat<T>(s: seq<T>, t: seq<T>, p: T -> bool)
    ensures Filter(s + t, p) == Filter(s, p) + Filter(t, p)
  {
    if s == [] {
      assert s + t == t;
    } else {
      FilterConcat(s[1..], t, p);
      var head := if p(s[0]) then [s[0]] else [];
      assert (s + t)[0] == s[0] && (s + t)[1..] == s[1..] + t;
      assert head + (Filter(s[1..], p) + Filter(t, p)) == (head + Filter(s[1..], p)) + Filter(t, p);
    }
  }

  lemma FilterSnoc<T>(s: seq<T>, x: T, p: T -> bool)
    ensures Filter(s + [x], p) == Filter(s, p) + (if p(x) then [x] else [])
  {
    FilterConcat(s, [x], p);
    assert Filter([x], p) == (if p(x) then [x] else []) by {
      assert [x][1..] == [];
    }
  }

  lemma {:induction false} FilterMember<T>(s: seq<T>, p: T -> bool, x: T)
    ensures x in Filter(s, p) <==> x in s && p(x)
  {
    if s != [] {
      FilterMember(s[1..], p, x);
      assert s == [s[0]] + s[1..];
    }
  }

  /** The positions of the elements that satisfy `p`. */
  function Where<T>(s: seq<T>, p: T -> bool): set<nat> {
    set i: nat | i < |s| && p(s[i])
  }

  lemma WhereSnoc<T>(s: seq<T>, x: T, p: T -> bool)
    ensures |Where(s + [x], p)| == |Where(s, p)| + (if p(x) then 1 else 0)
  {
    assert |s| !in Where(s, p);
    assert Where(s + [x], p) == if p(x) then Where(s, p) + {|s|} else Where(s, p);
  }

  lemma {:induction false} FilterCounts<T>(s: seq<T>, p: T -> bool)
    ensures |Filter(s, p)| == |Where(s, p)|
  {
    if s != [] {
      var front, x := s[..|s| - 1], s[|s| - 1];
      assert s == front + [x];
      FilterCounts(front, p);
      FilterSnoc(front, x, p);
      WhereSnoc(front, x, p);
    }
  }

  lemma {:induction false} FilterAll<T>(s: seq<T>, p: T -> bool)
    requires forall x | x in s :: p(x)
    ensures Filter(s, p) == s
  {
    if s != [] {
      FilterAll(s[1..], p);
      assert s == [s[0]] + s[1..];
    }
  }

  lemma {:induction false} FilterNone<T>(s: seq<T>, p: T -> bool)
    requires forall x | x in s :: !p(x)
    ensures Filter(s, p) == []
  {
    if s != [] {
      FilterNone(s[1..], p);
    }
  }

  /** The last `n` elements of `s`, or all of `s` when it is shorter. */
  function LastN<T>(s: seq<T>, n: nat): seq<T> {
    if |s| <= n then s else s[|s| - n..]
  }

  /** Cutting before an append does not change what a later cut keeps. */
  lemma LastNAppend<T>(s: seq<T>, t: seq<T>, n: nat)
    ensures LastN(LastN(s, n) + t, n) == LastN(s + t, n)
  {
  }

  /** All elements of a sequence of sequences, in order. */
  function Flatten<T>(ss: seq<seq<T>>): seq<T> {
    if ss == [] then [] else ss[0] + Flatten(ss[1..])
  }

  lemma {:induction false} FlattenSnoc<T>(ss: seq<seq<T>>, s: seq<T>)
    ensures Flatten(ss + [s]) == Flatten(ss) + s
  {
    if ss == [] {
      assert ss + [s] == [s];
      assert [s][1..] == [];
      assert Flatten([s]) == s + Flatten([s][1..]);
    } else {
      FlattenSnoc(ss[1..], s);
      assert (ss + [s])[1..] == ss[1..] + [s];
    }
  }

  /** What a partial function gives for each key that has a value, in the order of the keys. */
  function Collected<K, V>(keys: seq<K>, f: K -> Option<V>): seq<V> {
    if keys == [] then []
    else Collected(keys[..|keys| - 1], f) + (match f(keys[|keys| - 1]) case Some(v) => [v] case None => [])
  }

  lemma CollectedSnoc<K, V>(keys: seq<K>, k: K, f: K -> Option<V>)
    ensures Collected(keys + [k], f) == Collected(keys, f) + (match f(k) case Some(v) => [v] case None => [])
  {
    assert (keys + [k])[..|keys|] == keys;
  }

  lemma CollectedFurther<K, V>(keys: seq<K>, i: nat, f: K -> Option<V>)
    requires i < |keys|
    ensures Collected(keys[..i + 1], f) == Collected(keys[..i], f) + (match f(keys[i]) case Some(v) => [v] case None => [])
  {
    CollectedSnoc(keys[..i], keys[i], f);
    assert keys[..i + 1] == keys[..i] + [keys[i]];
  }

  predicate Distinct<T(==)>(s: seq<T>) {
    forall i, j | 0 <= i < j < |s| :: s[i] != s[j]
  }

  lemma DistinctSnoc<T>(s: seq<T>, x: T)
    requires Distinct(s) && x !in s
    ensures Distinct(s + [x])
  {
  }
}
