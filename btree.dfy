/** Iteration order of Rust's `BTreeMap`: keys come out in ascending order
    of the key type's `Ord`. Tuples compare lexicographically by component,
    `String`s by their UTF-8 bytes, which is lexicographic order on code
    points with a proper prefix first. A map is modelled as a Dafny `map`
    and its iteration as `SortedKeys` of its key set. */
module BTree {

  type Pair = (int, int)

  /** `Ord` for `(i32, i32)`. */
  predicate PairLt(a: Pair, b: Pair) {
    a.0 < b.0 || (a.0 == b.0 && a.1 < b.1)
  }

  /** `Ord` for `String`. */
  predicate StringLt(a: string, b: string)
    decreases |a|
  {
    if a == [] then b != []
    else if b == [] then false
    else if a[0] != b[0] then a[0] < b[0]
    else StringLt(a[1..], b[1..])
  }

  ghost predicate StrictTotalOn<T>(s: set<T>, lt: (T, T) -> bool) {
    && (forall a :: a in s ==> !lt(a, a))
    && (forall a, b, c :: a in s && b in s && c in s && lt(a, b) && lt(b, c) ==> lt(a, c))
    && (forall a, b :: a in s && b in s && a != b ==> lt(a, b) || lt(b, a))
  }

  predicate IsLeast<T(==)>(m: T, s: set<T>, lt: (T, T) -> bool) {
    m in s && forall y :: y in s && y != m ==> lt(m, y)
  }

  ghost predicate StrictlySorted<T>(r: seq<T>, lt: (T, T) -> bool) {
    forall i, j :: 0 <= i < j < |r| ==> lt(r[i], r[j])
  }

  /** The elements of a sequence listing exactly the members of `s`. */
  lemma {:induction false} ElementsAre<T>(r: seq<T>, s: set<T>)
    requires forall x :: x in r <==> x in s
    ensures (set x | x in r) == s
  {
    forall x | x in s ensures x in (set y | y in r) {
      assert x in r;
    }
  }

  lemma {:induction false} PairLtIsTotal(s: set<Pair>)
    ensures StrictTotalOn(s, PairLt)
  {
  }

  lemma {:induction false} StringLtIrreflexive(a: string)
    ensures !StringLt(a, a)
    decreases |a|
  {
    if a != [] { StringLtIrreflexive(a[1..]); }
  }

  lemma {:induction false} StringLtTransitive(a: string, b: string, c: string)
    requires StringLt(a, b) && StringLt(b, c)
    ensures StringLt(a, c)
    decreases |a|
  {
    if a != [] && b != [] && c != [] && a[0] == b[0] && b[0] == c[0] {
      StringLtTransitive(a[1..], b[1..], c[1..]);
    }
  }

  lemma {:induction false} StringLtTotal(a: string, b: string)
    requires a != b
    ensures StringLt(a, b) || StringLt(b, a)
    decreases |a|
  {
    if a != [] && b != [] && a[0] == b[0] {
      assert a == [a[0]] + a[1..] && b == [b[0]] + b[1..];
      StringLtTotal(a[1..], b[1..]);
    }
  }

  lemma {:induction false} StringLtIsTotal(s: set<string>)
    ensures StrictTotalOn(s, StringLt)
  {
    forall a | a in s ensures !StringLt(a, a) { StringLtIrreflexive(a); }
    forall a, b, c | a in s && b in s && c in s && StringLt(a, b) && StringLt(b, c)
      ensures StringLt(a, c)
    {
      StringLtTransitive(a, b, c);
    }
    forall a, b | a in s && b in s && a != b ensures StringLt(a, b) || StringLt(b, a) {
      StringLtTotal(a, b);
    }
  }

  lemma {:induction false} LeastExists<T>(s: set<T>, lt: (T, T) -> bool)
    requires s != {} && StrictTotalOn(s, lt)
    ensures exists m :: IsLeast(m, s, lt)
    decreases |s|
  {
    var x :| x in s;
    if s - {x} == {} {
      assert s == {x};
      assert IsLeast(x, s, lt);
    } else {
      var rest := s - {x};
      assert StrictTotalOn(rest, lt);
      LeastExists(rest, lt);
      var m :| IsLeast(m, rest, lt);
      if lt(m, x) {
        assert IsLeast(m, s, lt);
      } else {
        assert IsLeast(x, s, lt);
      }
    }
  }

  /** The keys of a map over `s`, in the order a `BTreeMap` iterates them. */
  function SortedKeys<T(==,!new)>(s: set<T>, lt: (T, T) -> bool): (r: seq<T>)
    requires StrictTotalOn(s, lt)
    ensures |r| == |s|
    ensures forall x :: x in r <==> x in s
    ensures StrictlySorted(r, lt)
    decreases |s|
  {
    if s == {} then []
    else
      LeastExists(s, lt);
      var m :| IsLeast(m, s, lt);
      assert StrictTotalOn(s - {m}, lt);
      var rest := SortedKeys(s - {m}, lt);
      LeastFirst(m, s, lt, rest);
      [m] + rest
  }

  /** The least element put before a sorted listing of the others lists
      the whole set in order. */
  lemma {:induction false} LeastFirst<T>(m: T, s: set<T>, lt: (T, T) -> bool, rest: seq<T>)
    requires IsLeast(m, s, lt)
    requires |rest| == |s - {m}| && (forall x :: x in rest <==> x in s - {m}) && StrictlySorted(rest, lt)
    ensures |[m] + rest| == |s|
    ensures forall x :: x in [m] + rest <==> x in s
    ensures StrictlySorted([m] + rest, lt)
  {
    var r := [m] + rest;
    forall i, j | 0 <= i < j < |r| ensures lt(r[i], r[j]) {
      if i > 0 {
        assert r[i] == rest[i - 1] && r[j] == rest[j - 1];
      } else {
        assert r[j] == rest[j - 1];
        assert r[j] in s - {m};
      }
    }
  }

  /** Iteration order of a `BTreeMap<(i32, i32), _>` with keys `s`. */
  function SortedPairs(s: set<Pair>): (r: seq<Pair>)
    ensures |r| == |s|
    ensures forall x :: x in r <==> x in s
    ensures forall i, j :: 0 <= i < j < |r| ==> PairLt(r[i], r[j])
  {
    PairLtIsTotal(s);
    SortedKeys(s, PairLt)
  }

  /** Iteration order of a `BTreeMap<String, _>` with keys `s`. */
  function SortedStrings(s: set<string>): (r: seq<string>)
    ensures |r| == |s|
    ensures forall x :: x in r <==> x in s
    ensures forall i, j :: 0 <= i < j < |r| ==> StringLt(r[i], r[j])
  {
    StringLtIsTotal(s);
    SortedKeys(s, StringLt)
  }
}
