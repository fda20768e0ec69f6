/** Sequence helpers shared by the server and the client models. */
module Sequences {

  /** No element occurs twice. */
  predicate NoDup<T(==)>(s: seq<T>) {
    forall i, j :: 0 <= i < j < |s| ==> s[i] != s[j]
  }

  /** `q.filter(e => e !== x)`: every occurrence of `x` dropped, the other
      elements kept in their order. */
  function Without<T(==,!new)>(q: seq<T>, x: T): (r: seq<T>)
    ensures |r| <= |q|
  {
    if q == [] then [] else (if q[0] == x then [] else [q[0]]) + Without(q[1..], x)
  }

  /** Filtering drops exactly the occurrences of `x`. */
  lemma {:induction false} WithoutMembers<T(!new)>(q: seq<T>, x: T)
    ensures forall y :: y in Without(q, x) <==> y in q && y != x
  {
    if q != [] {
      WithoutMembers(q[1..], x);
      assert q == [q[0]] + q[1..];
    }
  }

  /** Filtering distributes over concatenation, so the survivors keep
      their relative order. */
  lemma {:induction false} WithoutAppend<T(!new)>(a: seq<T>, b: seq<T>, x: T)
    ensures Without(a + b, x) == Without(a, x) + Without(b, x)
  {
    if a == [] {
      assert a + b == b;
    } else {
      assert (a + b)[1..] == a[1..] + b;
      WithoutAppend(a[1..], b, x);
    }
  }

  /** Filtering out an absent element changes nothing. */
  lemma {:induction false} WithoutAbsent<T(!new)>(q: seq<T>, x: T)
    requires x !in q
    ensures Without(q, x) == q
  {
    if q != [] {
      assert x !in q[1..];
      WithoutAbsent(q[1..], x);
    }
  }

  /** Filtering keeps a duplicate-free sequence duplicate-free. */
  lemma {:induction false} WithoutNoDup<T(!new)>(q: seq<T>, x: T)
    requires NoDup(q)
    ensures NoDup(Without(q, x))
  {
    if q != [] {
      assert NoDup(q[1..]) by {
        forall i, j | 0 <= i < j < |q[1..]| ensures q[1..][i] != q[1..][j] {
          assert q[1..][i] == q[i + 1] && q[1..][j] == q[j + 1];
        }
      }
      WithoutNoDup(q[1..], x);
      WithoutMembers(q[1..], x);
      assert q[0] !in q[1..] by {
        forall k | 0 <= k < |q[1..]| ensures q[1..][k] != q[0] {
          assert q[1..][k] == q[k + 1];
        }
      }
    }
  }
}
