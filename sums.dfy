/** Sums of a per-element contribution over a sequence, and the facts that
    make them order independent. Used for per-ticker totals of a trade list
    and for the market value of a portfolio. Quantities are integers and
    money is real; with no common numeric type to abstract over, each sum
    and its two lemmas come in an int and a real version. */
module Sums {

  /** Sum of f over s, for integer contributions. */
  function SumInt<T>(s: seq<T>, f: T -> int): int
  {
    if s == [] then 0 else f(s[0]) + SumInt(s[1..], f)
  }

  /** Sum of f over s, for real contributions. */
  function SumReal<T>(s: seq<T>, f: T -> real): real
  {
    if s == [] then 0.0 else f(s[0]) + SumReal(s[1..], f)
  }

  lemma {:induction false} SumIntConcat<T>(a: seq<T>, b: seq<T>, f: T -> int)
    ensures SumInt(a + b, f) == SumInt(a, f) + SumInt(b, f)
    decreases |a|
  {
    if a == [] {
      assert a + b == b;
    } else {
      assert (a + b)[1..] == a[1..] + b;
      SumIntConcat(a[1..], b, f);
    }
  }

  lemma {:induction false} SumRealConcat<T>(a: seq<T>, b: seq<T>, f: T -> real)
    ensures SumReal(a + b, f) == SumReal(a, f) + SumReal(b, f)
    decreases |a|
  {
    if a == [] {
      assert a + b == b;
    } else {
      assert (a + b)[1..] == a[1..] + b;
      SumRealConcat(a[1..], b, f);
    }
  }

  /** Taking the first element of a out of a and an equal element out of
      its permutation b leaves two permutations of each other. */
  lemma RemoveMatching<T>(a: seq<T>, b: seq<T>, j: int)
    requires multiset(a) == multiset(b)
    requires a != [] && 0 <= j < |b| && b[j] == a[0]
    ensures multiset(a[1..]) == multiset(b[..j] + b[j + 1..])
  {
    var x, rest := a[0], b[..j] + b[j + 1..];
    var left, right := multiset(a[1..]), multiset(rest);
    assert a == [x] + a[1..];
    assert multiset(a) == multiset{x} + left;
    assert b == b[..j] + [x] + b[j + 1..];
    assert multiset(b) == multiset(b[..j]) + multiset{x} + multiset(b[j + 1..]);
    assert right == multiset(b[..j]) + multiset(b[j + 1..]);
    forall y ensures left[y] == right[y] {
      assert (multiset{x} + left)[y] == multiset(b)[y];
    }
  }

  /** Integer sums do not depend on the order of the elements. */
  lemma {:induction false} SumIntPermutation<T>(a: seq<T>, b: seq<T>, f: T -> int)
    requires multiset(a) == multiset(b)
    ensures SumInt(a, f) == SumInt(b, f)
    decreases |a|
  {
    if a == [] {
      assert |b| == |multiset(b)| == 0;
    } else {
      assert a[0] in multiset(b);
      var j :| 0 <= j < |b| && b[j] == a[0];
      RemoveMatching(a, b, j);
      SumIntPermutation(a[1..], b[..j] + b[j + 1..], f);
      assert b == b[..j] + [b[j]] + b[j + 1..];
      SumIntConcat(b[..j] + [b[j]], b[j + 1..], f);
      SumIntConcat(b[..j], [b[j]], f);
      SumIntConcat(b[..j], b[j + 1..], f);
    }
  }

  /** Real sums do not depend on the order of the elements. */
  lemma {:induction false} SumRealPermutation<T>(a: seq<T>, b: seq<T>, f: T -> real)
    requires multiset(a) == multiset(b)
    ensures SumReal(a, f) == SumReal(b, f)
    decreases |a|
  {
    if a == [] {
      assert |b| == |multiset(b)| == 0;
    } else {
      assert a[0] in multiset(b);
      var j :| 0 <= j < |b| && b[j] == a[0];
      RemoveMatching(a, b, j);
      SumRealPermutation(a[1..], b[..j] + b[j + 1..], f);
      assert b == b[..j] + [b[j]] + b[j + 1..];
      SumRealConcat(b[..j] + [b[j]], b[j + 1..], f);
      SumRealConcat(b[..j], [b[j]], f);
      SumRealConcat(b[..j], b[j + 1..], f);
    }
  }

  /** The elements of s other than x, in order. */
  function Without<T(==)>(s: seq<T>, x: T): seq<T>
  {
    if s == [] then [] else (if s[0] == x then [] else [s[0]]) + Without(s[1..], x)
  }

  /** Dropping an element that contributes nothing leaves the sum unchanged,
      when every other element contributes the same to both sums. */
  lemma {:induction false} SumRealSkip<T>(s: seq<T>, f: T -> real, g: T -> real, x: T)
    requires f(x) == 0.0
    requires forall y :: y in s && y != x ==> f(y) == g(y)
    ensures SumReal(s, f) == SumReal(Without(s, x), g)
    decreases |s|
  {
    if s != [] {
      SumRealSkip(s[1..], f, g, x);
      var head := if s[0] == x then [] else [s[0]];
      SumRealConcat(head, Without(s[1..], x), g);
    }
  }

  /** No element occurs twice in s. */
  ghost predicate Distinct<T>(s: seq<T>)
  {
    forall i, j :: 0 <= i < j < |s| ==> s[i] != s[j]
  }

  /** In a sequence without repetitions every element occurs once. */
  lemma {:induction false} DistinctCount<T>(s: seq<T>, x: T)
    requires Distinct(s)
    ensures multiset(s)[x] == if x in s then 1 else 0
    decreases |s|
  {
    if s != [] {
      assert s == [s[0]] + s[1..];
      assert Distinct(s[1..]) by {
        forall i, j | 0 <= i < j < |s[1..]| ensures s[1..][i] != s[1..][j] {
          assert s[1..][i] == s[i + 1] && s[1..][j] == s[j + 1];
        }
      }
      DistinctCount(s[1..], x);
      if s[0] == x {
        assert x !in s[1..] by {
          forall j | 0 <= j < |s[1..]| ensures s[1..][j] != x {
            assert s[1..][j] == s[j + 1];
          }
        }
      }
    }
  }

  /** Two sequences without repetitions and with the same elements are
      permutations of each other. */
  lemma DistinctPermutation<T>(a: seq<T>, b: seq<T>)
    requires Distinct(a) && Distinct(b)
    requires forall x :: x in a <==> x in b
    ensures multiset(a) == multiset(b)
  {
    forall x | true ensures multiset(a)[x] == multiset(b)[x] {
      DistinctCount(a, x);
      DistinctCount(b, x);
    }
  }
}
