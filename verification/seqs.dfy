/** Lists as the handlers manipulate them: `Array.prototype.filter` with
    `!==`, membership, occurrence counts and duplicate-freedom. */
module Seqs {

  /** Number of occurrences of `x` in `s`. */
  function Count<T(==)>(s: seq<T>, x: T): nat {
    if s == [] then 0 else (if s[0] == x then 1 else 0) + Count(s[1..], x)
  }

  predicate NoDup<T(==)>(s: seq<T>) {
    forall i, j :: 0 <= i < j < |s| ==> s[i] != s[j]
  }

  /** `s.filter(e => e !== x)`: every occurrence of `x` removed, the rest
      kept in order. */
  function Without<T(==,!new)>(s: seq<T>, x: T): (r: seq<T>)
    ensures |r| <= |s|
    ensures forall y :: y in r <==> y in s && y != x
    ensures Count(r, x) == 0
  {
    if s == [] then []
    else if s[0] == x then Without(s[1..], x)
    else [s[0]] + Without(s[1..], x)
  }

  /** A generic `filter` with a predicate. */
  function Filter<T(!new)>(s: seq<T>, p: T -> bool): (r: seq<T>)
    ensures |r| <= |s|
    ensures forall i :: 0 <= i < |r| ==> p(r[i])
    ensures forall x :: x in r <==> x in s && p(x)
  {
    if s == [] then []
    else if p(s[0]) then [s[0]] + Filter(s[1..], p)
    else Filter(s[1..], p)
  }

  lemma {:induction false} CountAppend<T>(a: seq<T>, b: seq<T>, x: T)
    ensures Count(a + b, x) == Count(a, x) + Count(b, x)
  {
    if a == [] {
      assert a + b == b;
    } else {
      assert (a + b)[0] == a[0];
      assert (a + b)[1..] == a[1..] + b;
      CountAppend(a[1..], b, x);
    }
  }

  lemma {:induction false} CountZero<T>(s: seq<T>, x: T)
    ensures Count(s, x) == 0 <==> x !in s
  {
    if s != [] {
      CountZero(s[1..], x);
      assert s == [s[0]] + s[1..];
    }
  }

  /** Filtering out `x` leaves the count of every other value alone. */
  lemma {:induction false} CountWithout<T(!new)>(s: seq<T>, x: T, y: T)
    ensures Count(Without(s, x), y) == if y == x then 0 else Count(s, y)
  {
    if s != [] {
      CountWithout(s[1..], x, y);
      if s[0] != x {
        assert ([s[0]] + Without(s[1..], x))[1..] == Without(s[1..], x);
      }
    }
  }

  /** Filtering distributes over concatenation. */
  lemma {:induction false} WithoutAppend<T(!new)>(a: seq<T>, b: seq<T>, x: T)
    ensures Without(a + b, x) == Without(a, x) + Without(b, x)
  {
    if a == [] {
      assert a + b == b;
    } else {
      assert (a + b)[1..] == a[1..] + b;
      WithoutAppend(a[1..], b, x);
    }
  }

  /** Filtering a list that lacks `x` changes nothing. */
  lemma {:induction false} WithoutAbsent<T(!new)>(s: seq<T>, x: T)
    requires x !in s
    ensures Without(s, x) == s
  {
    if s != [] {
      assert x !in s[1..];
      WithoutAbsent(s[1..], x);
      assert s == [s[0]] + s[1..];
    }
  }

  lemma WithoutTwice<T(!new)>(s: seq<T>, x: T)
    ensures Without(Without(s, x), x) == Without(s, x)
  {
    WithoutAbsent(Without(s, x), x);
  }

  lemma {:induction false} NoDupCount<T>(s: seq<T>)
    ensures NoDup(s) <==> forall x :: Count(s, x) <= 1
  {
    if s != [] {
      NoDupCount(s[1..]);
      CountZero(s[1..], s[0]);
      if NoDup(s) {
        assert s[0] !in s[1..];
        assert NoDup(s[1..]);
        forall x ensures Count(s, x) <= 1 {
          assert Count(s, x) == (if s[0] == x then 1 else 0) + Count(s[1..], x);
          assert Count(s[1..], x) <= 1;
          if s[0] == x {
            assert Count(s[1..], x) == 0;
          }
        }
      } else {
        var i, j :| 0 <= i < j < |s| && s[i] == s[j];
        if i == 0 {
          assert s[j] in s[1..];
          assert Count(s, s[0]) >= 2;
        } else {
          assert !NoDup(s[1..]) by {
            assert s[1..][i - 1] == s[1..][j - 1];
          }
          var x :| Count(s[1..], x) > 1;
          assert Count(s, x) > 1;
        }
      }
    }
  }

  /** Appending a value that is absent keeps a list duplicate-free. */
  lemma AppendFreshNoDup<T>(s: seq<T>, x: T)
    requires NoDup(s) && x !in s
    ensures NoDup(s + [x])
  {
  }
}
