/**
 * What the store's ordered queries answer: the largest position of a set
 * of rows (a descending query with `Limit: 1`), and a listing of rows in
 * ascending key order (a query with `ScanIndexForward: true`), where the
 * order between rows with equal keys is left to the store.
 */
module Queries {

  import opened Store

  lemma {:induction false} MaxExists(s: set<real>)
    requires s != {}
    ensures exists m :: m in s && forall x :: x in s ==> x <= m
  {
    var y := Pick(s);
    if s - {y} != {} {
      MaxExists(s - {y});
      var m :| m in s - {y} && forall x :: x in s - {y} ==> x <= m;
      assert forall x :: x in s ==> x == y || x in s - {y};
      if y > m {
        assert forall x :: x in s ==> x <= y;
      } else {
        assert forall x :: x in s ==> x <= m;
      }
    } else {
      assert s == {y};
    }
  }

  /** The largest value of `s`, or 0 when `s` is empty (no row matched). */
  function MaxOf(s: set<real>): (r: real)
    ensures s == {} ==> r == 0.0
    ensures s != {} ==> r in s
    ensures forall x :: x in s ==> x <= r
  {
    if s == {} then 0.0
    else
      MaxExists(s);
      var m :| m in s && forall x :: x in s ==> x <= m; m
  }

  /** Adding one value moves the maximum of a non-empty set only upwards. */
  lemma MaxOfInsert(s: set<real>, x: real)
    requires s != {}
    ensures MaxOf(s + {x}) == if x > MaxOf(s) then x else MaxOf(s)
  {
    var m, m' := MaxOf(s), MaxOf(s + {x});
    assert m' == x || m' in s;
    assert m <= m';
  }

  // ---- ordering of listings ----

  ghost predicate Total<T(!new)>(s: set<T>, le: (T, T) -> bool) {
    forall a, b :: a in s && b in s ==> le(a, b) || le(b, a)
  }

  ghost predicate Transitive<T(!new)>(s: set<T>, le: (T, T) -> bool) {
    forall a, b, c :: a in s && b in s && c in s && le(a, b) && le(b, c) ==> le(a, c)
  }

  predicate SortedBy<T>(q: seq<T>, le: (T, T) -> bool) {
    forall i, j :: 0 <= i < j < |q| ==> le(q[i], q[j])
  }

  /** `q` lists every element of `s`, each exactly once, in `le` order. */
  predicate IsListing<T(==)>(q: seq<T>, s: set<T>, le: (T, T) -> bool) {
    multiset(q) == multiset(s) && SortedBy(q, le)
  }

  /** A listing of a set never repeats an element. */
  lemma ListingHasNoRepeats<T>(q: seq<T>, s: set<T>, i: nat, j: nat)
    requires multiset(q) == multiset(s)
    requires i < j < |q|
    ensures q[i] != q[j]
  {
    assert q == q[..j] + [q[j]] + q[j+1..];
    assert q[i] in multiset(q[..j]);
    assert multiset(q)[q[j]] == multiset(q[..j])[q[j]] + 1 + multiset(q[j+1..])[q[j]];
    assert multiset(s)[q[j]] <= 1;
  }

  lemma {:induction false} MinExists<T(!new)>(s: set<T>, le: (T, T) -> bool) returns (m: T)
    requires s != {}
    requires Total(s, le) && Transitive(s, le)
    ensures m in s && forall x :: x in s ==> le(m, x)
    decreases s
  {
    var y := Pick(s);
    if s - {y} == {} {
      assert s == {y};
      m := y;
    } else {
      var m' := MinExists(s - {y}, le);
      assert forall x :: x in s ==> x == y || x in s - {y};
      m := if le(y, m') then y else m';
    }
  }

  /** The store can always answer an ordered query over a finite table. */
  lemma {:induction false} ListingExists<T(!new)>(s: set<T>, le: (T, T) -> bool) returns (q: seq<T>)
    requires Total(s, le) && Transitive(s, le)
    ensures IsListing(q, s, le)
    decreases s
  {
    if s == {} {
      q := [];
    } else {
      var m := MinExists(s, le);
      var rest := ListingExists(s - {m}, le);
      q := [m] + rest;
      assert multiset(s) == multiset{m} + multiset(s - {m});
      forall j | 0 <= j < |rest| ensures rest[j] in s {
        assert rest[j] in multiset(rest);
      }
    }
  }

  // ---- the store's order on string keys ----

  /** Lexicographic order of string attributes, character by character. */
  predicate StringLe(a: string, b: string)
    decreases |a|
  {
    a == [] || (b != [] && (a[0] < b[0] || (a[0] == b[0] && StringLe(a[1..], b[1..]))))
  }

  lemma {:induction false} StringLeTotal(a: string, b: string)
    ensures StringLe(a, b) || StringLe(b, a)
    decreases |a|
  {
    if a != [] && b != [] && a[0] == b[0] {
      StringLeTotal(a[1..], b[1..]);
    }
  }

  lemma {:induction false} StringLeTransitive(a: string, b: string, c: string)
    requires StringLe(a, b) && StringLe(b, c)
    ensures StringLe(a, c)
    decreases |a|
  {
    if a != [] && a[0] == b[0] && b[0] == c[0] {
      StringLeTransitive(a[1..], b[1..], c[1..]);
    }
  }

  lemma {:induction false} StringLeAntisymmetric(a: string, b: string)
    requires StringLe(a, b) && StringLe(b, a)
    ensures a == b
    decreases |a|
  {
    if a != [] {
      StringLeAntisymmetric(a[1..], b[1..]);
      assert a == [a[0]] + a[1..] && b == [b[0]] + b[1..];
    }
  }
}
