/** Small shared vocabulary: optional values, results, the order of text and
    the listing of a finite set in order. */
module Prelude {

  datatype Option<+T> = None | Some(value: T)

  datatype Result<+T, +E> = Ok(value: T) | Err(error: E)

  // ---------------------------------------------------------------- text

  /** Strict lexicographic order, the order in which Go and a "C" collation compare strings. */
  predicate TextBefore(a: string, b: string) {
    |b| > 0 && (|a| == 0 || a[0] < b[0] || (a[0] == b[0] && TextBefore(a[1..], b[1..])))
  }

  predicate HasPrefix(text: string, prefix: string) {
    |prefix| <= |text| && text[..|prefix|] == prefix
  }

  lemma {:induction false} TextOrderIsTotal(a: string, b: string)
    ensures a != b ==> TextBefore(a, b) != TextBefore(b, a)
    ensures a == b ==> !TextBefore(a, b)
  {
    if |a| > 0 && |b| > 0 && a[0] == b[0] {
      TextOrderIsTotal(a[1..], b[1..]);
      if a[1..] == b[1..] {
        assert a == [a[0]] + a[1..] == b;
      }
    }
  }

  lemma {:induction false} TextOrderIsTransitive(a: string, b: string, c: string)
    requires TextBefore(a, b) && TextBefore(b, c)
    ensures TextBefore(a, c)
  {
    if |a| > 0 && a[0] == b[0] && b[0] == c[0] {
      TextOrderIsTransitive(a[1..], b[1..], c[1..]);
    }
  }

  // ------------------------------------------------------- ordered listing

  /** less is a strict total order on the members of s. */
  ghost predicate OrdersSet<T(!new)>(less: (T, T) -> bool, s: set<T>) {
    && (forall x, y | x in s && y in s && x != y :: less(x, y) != less(y, x))
    && (forall x | x in s :: !less(x, x))
    && (forall x, y, z | x in s && y in s && z in s && less(x, y) && less(y, z) :: less(x, z))
  }

  ghost predicate Ascending<T(!new)>(less: (T, T) -> bool, r: seq<T>) {
    forall i, j | 0 <= i < j < |r| :: less(r[i], r[j])
  }

  lemma {:induction false} LeastExists<T(!new)>(less: (T, T) -> bool, s: set<T>)
    requires s != {} && OrdersSet(less, s)
    ensures exists x :: x in s && forall y | y in s :: y == x || less(x, y)
  {
    var x :| x in s;
    if s - {x} != {} {
      LeastExists(less, s - {x});
      var z :| z in s - {x} && forall y | y in s - {x} :: y == z || less(z, y);
      if less(x, z) {
        assert forall y | y in s :: y == x || less(x, y);
      } else {
        assert forall y | y in s :: y == z || less(z, y);
      }
    } else {
      assert s == {x};
    }
  }

  /** The members of s, each once, in ascending order: what ORDER BY lists. */
  function Listed<T(==, !new)>(less: (T, T) -> bool, s: set<T>): (r: seq<T>)
    requires OrdersSet(less, s)
    ensures Ascending(less, r)
    ensures forall x :: x in r <==> x in s
    ensures |r| == |s|
  {
    if s == {} then []
    else
      LeastExists(less, s);
      var x :| x in s && forall y | y in s :: y == x || less(x, y);
      var rest := Listed(less, s - {x});
      assert forall i | 0 <= i < |rest| :: rest[i] in s - {x};
      [x] + rest
  }

  /** Two ascending sequences with the same members are the same sequence. */
  lemma {:induction false} AscendingIsUnique<T(!new)>(less: (T, T) -> bool, s: set<T>, a: seq<T>, b: seq<T>)
    requires OrdersSet(less, s)
    requires Ascending(less, a) && Ascending(less, b)
    requires forall x :: x in a <==> x in s
    requires forall x :: x in b <==> x in s
    ensures a == b
  {
    if a == [] {
      NonEmptyHasMember(b);
    } else {
      assert a[0] in s && b[0] in s;
      assert a[0] in b && b[0] in a && a[0] == b[0];
      var x := a[0];
      forall y ensures y in a[1..] <==> y in s - {x} { AscendingTail(less, s, a, y); }
      forall y ensures y in b[1..] <==> y in s - {x} { AscendingTail(less, s, b, y); }
      AscendingIsUnique(less, s - {x}, a[1..], b[1..]);
      assert a == [x] + a[1..] && b == [x] + b[1..];
    }
  }

  lemma NonEmptyHasMember<T>(a: seq<T>)
    ensures a != [] ==> exists x :: x in a
  {
    if a != [] { assert a[0] in a; }
  }

  lemma AscendingTail<T(!new)>(less: (T, T) -> bool, s: set<T>, a: seq<T>, y: T)
    requires OrdersSet(less, s) && a != [] && Ascending(less, a)
    requires forall x :: x in a <==> x in s
    ensures y in a[1..] <==> y in s - {a[0]}
  {
    if y in a[1..] {
      var i :| 0 <= i < |a[1..]| && a[1..][i] == y;
      assert a[i + 1] == y && less(a[0], y);
      assert y in s;
      assert a[0] in s;
    }
    if y in s - {a[0]} {
      var i :| 0 <= i < |a| && a[i] == y;
      assert a[1..][i - 1] == y;
    }
  }

  /** A permuted sequence has the same members. */
  lemma PermutedMembers<T>(a: seq<T>, b: seq<T>)
    requires multiset(a) == multiset(b)
    ensures |a| == |b|
    ensures forall x :: x in a <==> x in b
  {
    assert |a| == |multiset(a)| == |multiset(b)| == |b|;
    forall x ensures x in a <==> x in b {
      assert x in a <==> x in multiset(a);
      assert x in b <==> x in multiset(b);
    }
  }
}
