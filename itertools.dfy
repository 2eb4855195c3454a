/**
 * The part of Python's itertools that the fault search relies on:
 * `combinations(s, r)` yields every choice of `r` positions of `s`, positions
 * increasing, tuples in lexicographic order of their positions.
 */
module Itertools {

  /** `c` is obtained from `s` by deleting elements, keeping the order of the rest. */
  predicate IsSubsequence<T(==)>(c: seq<T>, s: seq<T>)
    decreases |s|
  {
    if c == [] then true
    else if s == [] then false
    else (c[0] == s[0] && IsSubsequence(c[1..], s[1..])) || IsSubsequence(c, s[1..])
  }

  /** Puts `x` in front of every sequence of `cs`. */
  function Prepend<T>(x: T, cs: seq<seq<T>>): (r: seq<seq<T>>)
    ensures |r| == |cs|
    ensures forall i :: 0 <= i < |cs| ==> r[i] == [x] + cs[i]
  {
    seq(|cs|, i requires 0 <= i < |cs| => [x] + cs[i])
  }

  /** `itertools.combinations(s, r)`: the tuples that use `s[0]` first, then those that skip it. */
  function Combinations<T>(s: seq<T>, r: nat): (cs: seq<seq<T>>)
    ensures |cs| > 0 <==> r <= |s|
    decreases |s|
  {
    if r == 0 then [[]]
    else if |s| < r then []
    else Prepend(s[0], Combinations(s[1..], r - 1)) + Combinations(s[1..], r)
  }

  /** `combinations(s, 1)`, then `combinations(s, 2)`, ..., up to `combinations(s, n)`. */
  function CombinationsUpTo<T>(s: seq<T>, n: nat): seq<seq<T>>
  {
    if n == 0 then [] else CombinationsUpTo(s, n - 1) + Combinations(s, n)
  }

  /** Keeps, in order of `s`, the first occurrence of each element of `f`. */
  function Pick<T(==)>(s: seq<T>, f: set<T>): seq<T>
  {
    if s == [] then []
    else if s[0] in f then [s[0]] + Pick(s[1..], f - {s[0]})
    else Pick(s[1..], f)
  }

  lemma {:induction false} SubsequenceLength<T>(c: seq<T>, s: seq<T>)
    requires IsSubsequence(c, s)
    ensures |c| <= |s|
    decreases |s|
  {
    if c != [] {
      if c[0] == s[0] && IsSubsequence(c[1..], s[1..]) {
        SubsequenceLength(c[1..], s[1..]);
      } else {
        SubsequenceLength(c, s[1..]);
      }
    }
  }

  /** The elements of a subsequence are elements of the sequence. */
  lemma {:induction false} SubsequenceElements<T>(c: seq<T>, s: seq<T>, x: T)
    requires IsSubsequence(c, s) && x in c
    ensures x in s
    decreases |s|
  {
    if c[0] == s[0] && IsSubsequence(c[1..], s[1..]) {
      if x != c[0] {
        SubsequenceElements(c[1..], s[1..], x);
      }
    } else {
      SubsequenceElements(c, s[1..], x);
    }
  }

  lemma PrependMembers<T>(x: T, cs: seq<seq<T>>, c: seq<T>)
    ensures c in Prepend(x, cs) <==> c != [] && c[0] == x && c[1..] in cs
  {
    var p := Prepend(x, cs);
    if c in p {
      var i :| 0 <= i < |p| && p[i] == c;
      assert c[1..] == cs[i];
    }
    if c != [] && c[0] == x && c[1..] in cs {
      var i :| 0 <= i < |cs| && cs[i] == c[1..];
      assert p[i] == c;
    }
  }

  /** `combinations(s, r)` yields exactly the subsequences of `s` of length `r`. */
  lemma {:induction false} CombinationsMembers<T>(s: seq<T>, r: nat, c: seq<T>)
    ensures c in Combinations(s, r) <==> |c| == r && IsSubsequence(c, s)
    decreases |s|
  {
    if r == 0 {
    } else if |s| < r {
      if |c| == r && IsSubsequence(c, s) {
        SubsequenceLength(c, s);
      }
    } else {
      var tail := Combinations(s[1..], r - 1);
      assert Combinations(s, r) == Prepend(s[0], tail) + Combinations(s[1..], r);
      CombinationsMembers(s[1..], r, c);
      PrependMembers(s[0], tail, c);
      if c != [] {
        CombinationsMembers(s[1..], r - 1, c[1..]);
      }
    }
  }

  /** The candidates of sizes 1 to `n` are exactly the non-empty subsequences of length at most `n`. */
  lemma {:induction false} CombinationsUpToMembers<T>(s: seq<T>, n: nat, c: seq<T>)
    ensures c in CombinationsUpTo(s, n) <==> 1 <= |c| <= n && IsSubsequence(c, s)
  {
    if n > 0 {
      CombinationsUpToMembers(s, n - 1, c);
      CombinationsMembers(s, n, c);
    }
  }

  /** Candidates come in ascending size, every size between 1 and `n`. */
  lemma {:induction false} CombinationsUpToAscending<T>(s: seq<T>, n: nat)
    ensures forall i :: 0 <= i < |CombinationsUpTo(s, n)| ==> 1 <= |CombinationsUpTo(s, n)[i]| <= n
    ensures forall i, j :: 0 <= i < j < |CombinationsUpTo(s, n)| ==>
      |CombinationsUpTo(s, n)[i]| <= |CombinationsUpTo(s, n)[j]|
  {
    if n > 0 {
      CombinationsUpToAscending(s, n - 1);
      var prev := CombinationsUpTo(s, n - 1);
      var last := Combinations(s, n);
      forall i | 0 <= i < |last|
        ensures |last[i]| == n
      {
        CombinationsMembers(s, n, last[i]);
      }
      assert CombinationsUpTo(s, n) == prev + last;
    }
  }

  /** `Pick` chooses a subsequence of `s` with no more elements than `f`. */
  lemma {:induction false} PickSubsequence<T>(s: seq<T>, f: set<T>)
    ensures IsSubsequence(Pick(s, f), s)
    ensures |Pick(s, f)| <= |f|
  {
    if s != [] {
      if s[0] in f {
        PickSubsequence(s[1..], f - {s[0]});
        var p := Pick(s[1..], f - {s[0]});
        assert ([s[0]] + p)[1..] == p;
        assert |f - {s[0]}| == |f| - 1;
      } else {
        PickSubsequence(s[1..], f);
        SkipHead(Pick(s[1..], f), s);
      }
    }
  }

  /** `Pick` keeps exactly the elements of `f` that occur in `s`. */
  lemma {:induction false} PickMember<T>(s: seq<T>, f: set<T>, x: T)
    ensures x in Pick(s, f) <==> x in f && x in s
  {
    if s != [] {
      if s[0] in f {
        PickMember(s[1..], f - {s[0]}, x);
      } else {
        PickMember(s[1..], f, x);
      }
    }
  }

  lemma SkipHead<T>(c: seq<T>, s: seq<T>)
    requires s != [] && IsSubsequence(c, s[1..])
    ensures IsSubsequence(c, s)
  {
  }
}
