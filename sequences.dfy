/**
 * The list operations of the .NET base library that the save/load code uses
 * (LINQ `Where`, `FirstOrDefault`, `List.Remove`) over Dafny sequences.
 */
module Sequences {
  import opened Options

  /** `r` occurs in `s` in the same order, possibly with gaps. */
  predicate IsSubsequence<T(==)>(r: seq<T>, s: seq<T>)
    decreases |s|
  {
    if r == [] then true
    else if s == [] then false
    else if r[0] == s[0] then IsSubsequence(r[1..], s[1..])
    else IsSubsequence(r, s[1..])
  }

  predicate NoDuplicates<T(==)>(s: seq<T>) {
    forall i, j :: 0 <= i < j < |s| ==> s[i] != s[j]
  }

  /** Putting a new element in front of a list without repeats keeps it without repeats. */
  lemma ConsNoDuplicates<T>(x: T, s: seq<T>)
    requires NoDuplicates(s) && x !in s
    ensures NoDuplicates([x] + s)
  {
    var r := [x] + s;
    forall i, j | 0 <= i < j < |r| ensures r[i] != r[j] {
      assert r[j] == s[j - 1];
      if i > 0 {
        assert r[i] == s[i - 1];
      }
    }
  }

  /** The last element of a non-empty sequence. */
  function Last<T>(s: seq<T>): T
    requires |s| > 0
  {
    s[|s| - 1]
  }

  /** An element at a position inside a known suffix is an element of that suffix. */
  lemma SuffixMember<T>(s: seq<T>, tail: seq<T>, i: nat)
    requires |tail| <= |s| && s[|s| - |tail|..] == tail
    requires |s| - |tail| <= i < |s|
    ensures s[i] in tail
  {
    assert tail[i - (|s| - |tail|)] == s[i];
  }

  /** `s` without its first `n` elements, or empty when it has fewer. */
  function DropFront<T>(s: seq<T>, n: nat): (r: seq<T>)
    ensures |r| == if n <= |s| then |s| - n else 0
  {
    s[if n <= |s| then n else |s|..]
  }

  /** Dropping `a` elements and then `b` more drops `a + b`. */
  lemma DropFrontTwice<T>(s: seq<T>, a: nat, b: nat)
    ensures DropFront(DropFront(s, a), b) == DropFront(s, a + b)
  {
    var i := if a <= |s| then a else |s|;
    var j := if b <= |s| - i then b else |s| - i;
    assert DropFront(s, a) == s[i..];
    assert DropFront(s[i..], b) == s[i..][j..];
    assert DropFront(s, a + b) == s[i + j..];
    assert s[i..][j..] == s[i + j..];
  }

  lemma {:induction false} SubsequenceOfItself<T>(s: seq<T>)
    ensures IsSubsequence(s, s)
    decreases |s|
  {
    if s != [] {
      SubsequenceOfItself(s[1..]);
    }
  }

  /** Dropping the head of `r` keeps it a subsequence. */
  lemma {:induction false} SubsequenceDropHead<T>(r: seq<T>, s: seq<T>)
    requires r != [] && IsSubsequence(r, s)
    ensures IsSubsequence(r[1..], s)
    decreases |s|, 0
  {
    if r[0] == s[0] {
      SubsequenceWiden(r[1..], s[1..], s[0]);
    } else {
      SubsequenceDropHead(r, s[1..]);
      SubsequenceWiden(r[1..], s[1..], s[0]);
    }
  }

  /** Putting any element in front of `s` keeps `r` a subsequence of it. */
  lemma {:induction false} SubsequenceWiden<T>(r: seq<T>, s: seq<T>, x: T)
    requires IsSubsequence(r, s)
    ensures IsSubsequence(r, [x] + s)
    decreases |s|, 1
  {
    var xs := [x] + s;
    assert xs[1..] == s;
    if r != [] && r[0] == x {
      SubsequenceDropHead(r, s);
    }
  }

  lemma {:induction false} SubsequenceTransitive<T>(a: seq<T>, b: seq<T>, c: seq<T>)
    requires IsSubsequence(a, b) && IsSubsequence(b, c)
    ensures IsSubsequence(a, c)
    decreases |c|
  {
    if a != [] {
      if b[0] == c[0] {
        if a[0] == b[0] {
          SubsequenceTransitive(a[1..], b[1..], c[1..]);
        } else {
          SubsequenceTransitive(a, b[1..], c[1..]);
        }
      } else {
        SubsequenceTransitive(a, b, c[1..]);
        if a[0] == c[0] {
          SubsequenceDropHead(a, c[1..]);
        }
      }
    }
  }

  lemma {:induction false} SubsequenceMembers<T>(r: seq<T>, s: seq<T>)
    requires IsSubsequence(r, s)
    ensures |r| <= |s|
    ensures forall x :: x in r ==> x in s
    decreases |s|
  {
    if r != [] {
      if r[0] == s[0] {
        SubsequenceMembers(r[1..], s[1..]);
        assert forall x :: x in r ==> x == r[0] || x in r[1..];
      } else {
        SubsequenceMembers(r, s[1..]);
      }
    }
  }

  /** LINQ `s.Where(keep).ToList()`: the elements `keep` accepts, in their order. */
  function Where<T(==)>(s: seq<T>, keep: T -> bool): (r: seq<T>)
    ensures IsSubsequence(r, s)
    ensures forall x :: x in r ==> x in s && keep(x)
    ensures forall x :: x in s && keep(x) ==> x in r
    decreases |s|
  {
    if s == [] then []
    else
      var rest := Where(s[1..], keep);
      if keep(s[0]) then
        assert ([s[0]] + rest)[1..] == rest;
        [s[0]] + rest
      else
        assert rest != [] ==> rest[0] != s[0] by {
          if rest != [] { assert rest[0] in rest; }
        }
        rest
  }

  /** `Where` keeps every copy of an element it accepts and none of one it rejects. */
  lemma {:induction false} WhereCounts<T>(s: seq<T>, keep: T -> bool, x: T)
    ensures multiset(Where(s, keep))[x] == if keep(x) then multiset(s)[x] else 0
    decreases |s|
  {
    if s != [] {
      WhereCounts(s[1..], keep, x);
      assert s == [s[0]] + s[1..];
      var rest := Where(s[1..], keep);
      if keep(s[0]) {
        assert Where(s, keep) == [s[0]] + rest;
        assert multiset([s[0]] + rest) == multiset{s[0]} + multiset(rest);
      } else {
        assert Where(s, keep) == rest;
      }
    }
  }

  /** `List.Remove(x)`: drops the first occurrence of `x`, if there is one. */
  function RemoveFirst<T(==)>(s: seq<T>, x: T): (r: seq<T>)
    ensures x in s ==> |r| == |s| - 1
    ensures x !in s ==> r == s
    ensures multiset(r) == multiset(s) - multiset{x}
    ensures IsSubsequence(r, s)
    ensures forall y :: y in s && y != x ==> y in r
    decreases |s|
  {
    if s == [] then []
    else if s[0] == x then
      SubsequenceDropFirst(s);
      assert s == [s[0]] + s[1..];
      s[1..]
    else
      var rest := RemoveFirst(s[1..], x);
      SubsequenceKeepFirst(s, rest);
      assert s == [s[0]] + s[1..];
      [s[0]] + rest
  }

  /** The tail of a list is a subsequence of it. */
  lemma SubsequenceDropFirst<T>(s: seq<T>)
    requires s != []
    ensures IsSubsequence(s[1..], s)
  {
    SubsequenceOfItself(s);
    SubsequenceDropHead(s, s);
  }

  /** A subsequence of the tail, with the head in front, is a subsequence of the list. */
  lemma SubsequenceKeepFirst<T>(s: seq<T>, rest: seq<T>)
    requires s != [] && IsSubsequence(rest, s[1..])
    ensures IsSubsequence([s[0]] + rest, s)
  {
    var r := [s[0]] + rest;
    assert r[0] == s[0] && r[1..] == rest;
  }

  /** A subsequence of the tail is a subsequence of the list. */
  lemma SubsequenceSkipFirst<T>(s: seq<T>, r: seq<T>)
    requires s != [] && IsSubsequence(r, s[1..])
    ensures IsSubsequence(r, s)
  {
    SubsequenceWiden(r, s[1..], s[0]);
    assert [s[0]] + s[1..] == s;
  }

  /** Removing the first `x` from a list whose prefix `a` holds none cuts out the `x` after `a`. */
  lemma {:induction false} RemoveFirstAfter<T>(a: seq<T>, x: T, b: seq<T>)
    requires x !in a
    ensures RemoveFirst(a + [x] + b, x) == a + b
    decreases |a|
  {
    var s := a + [x] + b;
    if a == [] {
      assert s[1..] == b;
    } else {
      assert s[0] == a[0] && s[1..] == a[1..] + [x] + b;
      RemoveFirstAfter(a[1..], x, b);
      assert [a[0]] + (a[1..] + b) == a + b;
    }
  }

  /** Removing `s[k]` when it does not occur before `k` cuts out index `k`. */
  lemma RemoveFirstAt<T>(s: seq<T>, k: nat)
    requires k < |s| && s[k] !in s[..k]
    ensures RemoveFirst(s, s[k]) == s[..k] + s[k + 1..]
  {
    assert s == s[..k] + [s[k]] + s[k + 1..];
    RemoveFirstAfter(s[..k], s[k], s[k + 1..]);
  }

  /** The index of the first element satisfying `p`, or `|s|` when there is none. */
  function IndexOfFirst<T>(s: seq<T>, p: T -> bool): (i: nat)
    ensures i <= |s|
    ensures i < |s| ==> p(s[i])
    ensures forall j :: 0 <= j < i ==> !p(s[j])
    decreases |s|
  {
    if s == [] then 0
    else if p(s[0]) then 0
    else 1 + IndexOfFirst(s[1..], p)
  }

  /** LINQ `FirstOrDefault(p)`: the first element satisfying `p`, or null. */
  function FindFirst<T>(s: seq<T>, p: T -> bool): (r: Option<T>)
    ensures r.Null? <==> forall x :: x in s ==> !p(x)
    ensures r.Some? ==> r.value in s && p(r.value)
    ensures r.Some? ==> r.value == s[IndexOfFirst(s, p)]
  {
    var i := IndexOfFirst(s, p);
    if i < |s| then Some(s[i]) else Null
  }

  lemma {:induction false} SubsequenceNoDuplicates<T>(r: seq<T>, s: seq<T>)
    requires IsSubsequence(r, s) && NoDuplicates(s)
    ensures NoDuplicates(r)
    decreases |s|
  {
    if r != [] {
      assert NoDuplicates(s[1..]) by {
        forall i, j | 0 <= i < j < |s[1..]| ensures s[1..][i] != s[1..][j] {
          assert s[1..][i] == s[i + 1] && s[1..][j] == s[j + 1];
        }
      }
      if r[0] == s[0] {
        SubsequenceNoDuplicates(r[1..], s[1..]);
        SubsequenceMembers(r[1..], s[1..]);
        forall j | 0 < j < |r| ensures r[0] != r[j] {
          assert r[j] == r[1..][j - 1];
          assert r[j] in s[1..];
        }
      } else {
        SubsequenceNoDuplicates(r, s[1..]);
      }
    }
  }
}
