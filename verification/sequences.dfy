/** Generic sequence operations that the provider-status model is built on:
    the filtering done by `List.RemoveAll` / `Where`, the single removal done by
    `List.Remove`, and order-preserving sub-sequences. */
module Sequences {

  /** The elements of `s` for which `keep` holds, in their original order. */
  function Filter<T(!new)>(s: seq<T>, keep: T -> bool): (r: seq<T>)
    ensures |r| <= |s|
    ensures forall x :: x in r <==> x in s && keep(x)
  {
    if s == [] then []
    else if keep(s[0]) then [s[0]] + Filter(s[1..], keep)
    else Filter(s[1..], keep)
  }

  /** Filtering keeps every copy of a kept element and no copy of a dropped one. */
  lemma {:induction false} FilterMultiset<T(!new)>(s: seq<T>, keep: T -> bool)
    ensures forall x :: multiset(Filter(s, keep))[x] == if keep(x) then multiset(s)[x] else 0
  {
    if s != [] {
      assert s == [s[0]] + s[1..];
      FilterMultiset(s[1..], keep);
    }
  }

  /** `s` without its first occurrence of `x` (unchanged when `x` does not occur). */
  function RemoveFirst<T(==)>(s: seq<T>, x: T): (r: seq<T>)
    ensures |r| == if x in s then |s| - 1 else |s|
  {
    if s == [] then []
    else if s[0] == x then s[1..]
    else [s[0]] + RemoveFirst(s[1..], x)
  }

  /** RemoveFirst takes away exactly one copy of `x`, when there is one. */
  lemma {:induction false} RemoveFirstMultiset<T>(s: seq<T>, x: T)
    ensures multiset(RemoveFirst(s, x)) == multiset(s) - multiset{x}
  {
    if s != [] {
      assert s == [s[0]] + s[1..];
      RemoveFirstMultiset(s[1..], x);
    }
  }

  /** RemoveFirst leaves `s` alone when `x` does not occur; otherwise it cuts out
      the first occurrence of `x` and keeps everything else in order. */
  lemma {:induction false} RemoveFirstShape<T>(s: seq<T>, x: T)
    ensures x !in s ==> RemoveFirst(s, x) == s
    ensures x in s ==> exists i :: 0 <= i < |s| && s[i] == x && x !in s[..i] && RemoveFirst(s, x) == s[..i] + s[i + 1..]
  {
    if s == [] {
    } else if s[0] == x {
      assert s[..0] == [] && RemoveFirst(s, x) == s[..0] + s[0 + 1..];
    } else {
      var t := s[1..];
      assert s == [s[0]] + t;
      RemoveFirstShape(t, x);
      if x in s {
        var j :| 0 <= j < |t| && t[j] == x && x !in t[..j] && RemoveFirst(t, x) == t[..j] + t[j + 1..];
        CutShifts(s, j);
        assert RemoveFirst(s, x) == [s[0]] + RemoveFirst(t, x);
        assert RemoveFirst(s, x) == s[..j + 1] + s[j + 2..];
        assert s[j + 1] == x && x !in s[..j + 1];
      } else {
        assert RemoveFirst(s, x) == [s[0]] + RemoveFirst(t, x);
      }
    }
  }

  /** Cutting one element out of a non-empty sequence commutes with dropping its head. */
  lemma CutShifts<T>(s: seq<T>, j: nat)
    requires j + 1 < |s|
    ensures s[..j + 1] == [s[0]] + s[1..][..j]
    ensures s[j + 2..] == s[1..][j + 1..]
    ensures [s[0]] + (s[1..][..j] + s[1..][j + 1..]) == s[..j + 1] + s[j + 2..]
  {
  }

  /** `a` can be obtained from `b` by deleting elements, keeping the order of the rest. */
  ghost predicate SubsequenceOf<T>(a: seq<T>, b: seq<T>)
    decreases |b|
  {
    a == [] || (b != [] && ((a[0] == b[0] && SubsequenceOf(a[1..], b[1..])) || SubsequenceOf(a, b[1..])))
  }

  lemma {:induction false} FilterIsSubsequence<T(!new)>(s: seq<T>, keep: T -> bool)
    ensures SubsequenceOf(Filter(s, keep), s)
  {
    if s != [] {
      FilterIsSubsequence(s[1..], keep);
    }
  }

  lemma {:induction false} FilterAppend<T(!new)>(a: seq<T>, b: seq<T>, keep: T -> bool)
    ensures Filter(a + b, keep) == Filter(a, keep) + Filter(b, keep)
  {
    if a != [] {
      assert (a + b)[1..] == a[1..] + b;
      FilterAppend(a[1..], b, keep);
    } else {
      assert a + b == b;
    }
  }

  /** Filtering a sequence all of whose elements are kept changes nothing. */
  lemma {:induction false} FilterKeepsAll<T(!new)>(s: seq<T>, keep: T -> bool)
    requires forall x :: x in s ==> keep(x)
    ensures Filter(s, keep) == s
  {
    if s != [] {
      FilterKeepsAll(s[1..], keep);
    }
  }

  /** Filtering is idempotent. */
  lemma FilterTwice<T(!new)>(s: seq<T>, keep: T -> bool)
    ensures Filter(Filter(s, keep), keep) == Filter(s, keep)
  {
    FilterKeepsAll(Filter(s, keep), keep);
  }

  /** Filtering a sequence none of whose elements are kept leaves nothing. */
  lemma FilterKeepsNone<T(!new)>(s: seq<T>, keep: T -> bool)
    requires forall x :: x in s ==> !keep(x)
    ensures Filter(s, keep) == []
  {
  }
}
