/** Sequence helpers shared by the components: optional values, Python's `s[-n:]`
    slice, and duplicate-free sequences. */
module Sequences {

  datatype Option<T> = None | Some(value: T)

  /** Python's `s[-n:]` for `n > 0`: the last `n` elements, or all of them. */
  function LastN<T>(s: seq<T>, n: nat): seq<T> {
    if |s| <= n then s else s[|s| - n..]
  }

  /** Truncating early changes nothing once the longer sequence is truncated too. */
  lemma LastNAbsorbs<T>(s: seq<T>, t: seq<T>, n: nat)
    ensures LastN(LastN(s, n) + t, n) == LastN(s + t, n)
  {
  }

  /** A long enough tail hides what comes before it. */
  lemma LastNOfTail<T>(p: seq<T>, q: seq<T>, n: nat)
    requires n <= |q|
    ensures LastN(p + q, n) == LastN(q, n)
  {
  }

  ghost predicate Distinct<T(!new)>(s: seq<T>) {
    forall i, j :: 0 <= i < j < |s| ==> s[i] != s[j]
  }

  /** `s` without the elements equal to `x`, in order. */
  function Without<T(==,!new)>(s: seq<T>, x: T): (r: seq<T>)
    ensures x !in r
    ensures forall y :: y in r <==> y in s && y != x
  {
    if s == [] then [] else (if s[0] == x then [] else [s[0]]) + Without(s[1..], x)
  }

  lemma WithoutCons<T(!new)>(a: T, t: seq<T>, x: T)
    ensures Without([a] + t, x) == (if a == x then [] else [a]) + Without(t, x)
  {
    assert ([a] + t)[1..] == t;
  }

  lemma {:induction false} WithoutConcat<T(!new)>(s: seq<T>, t: seq<T>, x: T)
    ensures Without(s + t, x) == Without(s, x) + Without(t, x)
  {
    if s == [] {
      assert s + t == t;
    } else {
      WithoutConcat(s[1..], t, x);
      assert s + t == [s[0]] + (s[1..] + t) && s == [s[0]] + s[1..];
      WithoutCons(s[0], s[1..] + t, x);
      WithoutCons(s[0], s[1..], x);
    }
  }

  lemma {:induction false} WithoutAbsent<T(!new)>(s: seq<T>, x: T)
    requires x !in s
    ensures Without(s, x) == s
  {
    if s != [] {
      WithoutAbsent(s[1..], x);
    }
  }

  lemma {:induction false} WithoutDistinct<T(!new)>(s: seq<T>, x: T)
    requires Distinct(s)
    ensures Distinct(Without(s, x))
    ensures |Without(s, x)| == |s| - (if x in s then 1 else 0)
  {
    if s != [] {
      var rest := s[1..];
      assert Distinct(rest);
      WithoutDistinct(rest, x);
      assert s == [s[0]] + rest;
      assert s[0] !in rest;
      assert x in s <==> x == s[0] || x in rest;
    }
  }

  // ---------------------------------------------------------------- what deleting leaves

  /** `part` is what remains of `whole` after deleting some elements, the order kept. */
  ghost predicate Subsequence<T(!new)>(part: seq<T>, whole: seq<T>) {
    if part == [] then true
    else if whole == [] then false
    else (part[0] == whole[0] && Subsequence(part[1..], whole[1..])) || Subsequence(part, whole[1..])
  }

  lemma {:induction false} SubsequenceOfSelf<T(!new)>(s: seq<T>)
    ensures Subsequence(s, s)
  {
    if s != [] { SubsequenceOfSelf(s[1..]); }
  }

  lemma {:induction false} SuffixOfSubsequence<T(!new)>(part: seq<T>, whole: seq<T>, k: nat)
    requires Subsequence(part, whole) && k <= |part|
    ensures Subsequence(part[k..], whole)
    decreases |whole|
  {
    if part != [] && k > 0 {
      if part[0] == whole[0] && Subsequence(part[1..], whole[1..]) {
        SuffixOfSubsequence(part[1..], whole[1..], k - 1);
        assert part[1..][k - 1..] == part[k..];
      } else {
        SuffixOfSubsequence(part, whole[1..], k);
      }
    } else {
      assert part[k..] == part;
    }
  }

  lemma {:induction false} SubsequenceOneMore<T(!new)>(part: seq<T>, whole: seq<T>, x: T)
    requires Subsequence(part, whole)
    ensures Subsequence(part, whole + [x]) && Subsequence(part + [x], whole + [x])
  {
    if whole == [] {
      assert part == [] && whole + [x] == [x] && part + [x] == [x];
      SubsequenceOfSelf([x]);
    } else {
      assert (whole + [x])[1..] == whole[1..] + [x];
      if part == [] {
        SubsequenceOneMore(part, whole[1..], x);
      } else if part[0] == whole[0] && Subsequence(part[1..], whole[1..]) {
        SubsequenceOneMore(part[1..], whole[1..], x);
        assert (part + [x])[1..] == part[1..] + [x];
      } else {
        SubsequenceOneMore(part, whole[1..], x);
      }
    }
  }
}
