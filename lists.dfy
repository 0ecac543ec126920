/** The array operations the core uses — `indexOf`, `splice(i, 1)`,
    `filter`, `includes` + `push` toggles, `slice` and `sort` by a key —
    and what they guarantee. */
module Lists {

  /** No element occurs twice. */
  predicate NoDup<T(==)>(s: seq<T>) {
    forall i, j :: 0 <= i < j < |s| ==> s[i] != s[j]
  }

  /** `a` is `b` with some elements left out, the rest in their order. */
  predicate IsSubsequence<T(==)>(a: seq<T>, b: seq<T>)
    decreases |b|
  {
    if a == [] then true
    else if b == [] then false
    else (a[0] == b[0] && IsSubsequence(a[1..], b[1..])) || IsSubsequence(a, b[1..])
  }

  /** Every sequence is a subsequence of itself. */
  lemma {:induction false} SubsequenceOfSelf<T>(s: seq<T>)
    ensures IsSubsequence(s, s)
    decreases |s|
  {
    if s != [] { SubsequenceOfSelf(s[1..]); }
  }

  /** Elements of a subsequence come from the sequence. */
  lemma {:induction false} SubsequenceMembers<T>(a: seq<T>, b: seq<T>, x: T)
    requires IsSubsequence(a, b) && x in a
    ensures x in b
    decreases |b|
  {
    if a[0] == b[0] && IsSubsequence(a[1..], b[1..]) {
      if x != a[0] { SubsequenceMembers(a[1..], b[1..], x); }
    } else {
      SubsequenceMembers(a, b[1..], x);
    }
  }

  /** `s.indexOf(x)`: the first index holding `x`, or -1. */
  function IndexOf<T(==)>(s: seq<T>, x: T): (r: int)
    ensures r == -1 <==> x !in s
    ensures r != -1 ==> 0 <= r < |s| && s[r] == x && x !in s[..r]
    decreases |s|
  {
    if s == [] then -1
    else if s[0] == x then 0
    else
      var k := IndexOf(s[1..], x);
      if k == -1 then -1
      else assert s[..k + 1] == [s[0]] + s[1..][..k]; k + 1
  }

  /** The index of the first element satisfying `matches`, or -1 (the
      document `findOne` / `findById` returns, in natural order). */
  function FindIndex<T>(s: seq<T>, matches: T -> bool): (r: int)
    ensures r == -1 <==> forall k :: 0 <= k < |s| ==> !matches(s[k])
    ensures r != -1 ==> 0 <= r < |s| && matches(s[r])
    ensures r != -1 ==> forall k :: 0 <= k < r ==> !matches(s[k])
    decreases |s|
  {
    if s == [] then -1
    else if matches(s[0]) then 0
    else
      var k := FindIndex(s[1..], matches);
      if k == -1 then -1 else k + 1
  }

  /** `s.splice(i, 1)`: `s` without its element at index `i`. */
  function RemoveAt<T>(s: seq<T>, i: nat): (r: seq<T>)
    requires i < |s|
    ensures |r| == |s| - 1
    ensures r[..i] == s[..i] && r[i..] == s[i + 1..]
  {
    s[..i] + s[i + 1..]
  }

  /** `s.filter(y => y !== x)`. */
  function RemoveAll<T(==,!new)>(s: seq<T>, x: T): (r: seq<T>)
    ensures forall y :: multiset(r)[y] == if y == x then 0 else multiset(s)[y]
    ensures forall y :: y in r <==> y in s && y != x
    decreases |s|
  {
    if s == [] then []
    else
      assert s == [s[0]] + s[1..];
      if s[0] == x then RemoveAll(s[1..], x)
      else [s[0]] + RemoveAll(s[1..], x)
  }

  /** What `filter` keeps is a subsequence of its input. */
  lemma {:induction false} RemoveAllIsSubsequence<T(!new)>(s: seq<T>, x: T)
    ensures IsSubsequence(RemoveAll(s, x), s)
    decreases |s|
  {
    if s != [] {
      RemoveAllIsSubsequence(s[1..], x);
      var r := RemoveAll(s, x);
      if s[0] != x {
        assert r[0] == s[0] && r[1..] == RemoveAll(s[1..], x);
      }
    }
  }

  /** Removing an element that is absent changes nothing. */
  lemma {:induction false} RemoveAllAbsent<T(!new)>(s: seq<T>, x: T)
    requires x !in s
    ensures RemoveAll(s, x) == s
    decreases |s|
  {
    if s != [] {
      RemoveAllAbsent(s[1..], x);
      assert s == [s[0]] + s[1..];
    }
  }

  /** `filter` distributes over concatenation. */
  lemma {:induction false} RemoveAllAppend<T(!new)>(a: seq<T>, b: seq<T>, x: T)
    ensures RemoveAll(a + b, x) == RemoveAll(a, x) + RemoveAll(b, x)
    decreases |a|
  {
    if a != [] {
      assert (a + b)[1..] == a[1..] + b;
      RemoveAllAppend(a[1..], b, x);
    } else {
      assert a + b == b;
    }
  }

  /** `s.filter(keep)` for a pure predicate `keep`. */
  function Filter<T(!new)>(s: seq<T>, keep: T -> bool): (r: seq<T>)
    ensures forall y :: y in r <==> y in s && keep(y)
    decreases |s|
  {
    if s == [] then []
    else if keep(s[0]) then [s[0]] + Filter(s[1..], keep)
    else Filter(s[1..], keep)
  }

  /** `filter` returns an order-preserving subsequence of its input. */
  lemma {:induction false} FilterIsSubsequence<T(!new)>(s: seq<T>, keep: T -> bool)
    ensures IsSubsequence(Filter(s, keep), s)
    decreases |s|
  {
    if s != [] {
      FilterIsSubsequence(s[1..], keep);
      var r := Filter(s, keep);
      if keep(s[0]) {
        assert r[0] == s[0] && r[1..] == Filter(s[1..], keep);
      }
    }
  }

  /** A filter whose predicate holds everywhere keeps the whole input. */
  lemma {:induction false} FilterKeepsAll<T(!new)>(s: seq<T>, keep: T -> bool)
    requires forall k :: 0 <= k < |s| ==> keep(s[k])
    ensures Filter(s, keep) == s
    decreases |s|
  {
    if s != [] {
      assert keep(s[0]);
      FilterKeepsAll(s[1..], keep);
      assert s == [s[0]] + s[1..];
    }
  }

  /** The `splice` toggle of `limitless-backend`: append `x` when it is
      absent, otherwise remove its first occurrence only. */
  function ToggleFirst<T(==)>(s: seq<T>, x: T): (r: seq<T>)
    ensures x !in s ==> r == s + [x]
    ensures x in s ==> |r| == |s| - 1 && multiset(r) == multiset(s) - multiset{x}
    ensures x in s ==> var i := IndexOf(s, x); r[..i] == s[..i] && r[i..] == s[i + 1..]
  {
    var i := IndexOf(s, x);
    if i == -1 then s + [x]
    else
      assert s == s[..i] + [x] + s[i + 1..];
      RemoveAt(s, i)
  }

  /** The `filter` toggle of `backend`: append `x` when it is absent,
      otherwise remove every occurrence of it. Afterwards `x` is present
      exactly when it was absent before, and no other value changes
      membership. */
  function ToggleEvery<T(==,!new)>(s: seq<T>, x: T): (r: seq<T>)
    ensures x !in s ==> r == s + [x]
    ensures x in s ==> x !in r && IsSubsequence(r, s)
    ensures x in s ==> multiset(r) == multiset(s)[x := 0]
    ensures x in r <==> x !in s
    ensures forall y :: y != x ==> (y in r <==> y in s)
  {
    if x in s then
      RemoveAllIsSubsequence(s, x);
      var r := RemoveAll(s, x);
      assert forall y :: multiset(r)[y] == multiset(s)[x := 0][y];
      r
    else s + [x]
  }

  /** Liking and then unliking, from a list without the caller, restores
      the list exactly (the `splice` variant). */
  lemma ToggleFirstTwiceRestores<T>(s: seq<T>, x: T)
    requires x !in s
    ensures ToggleFirst(ToggleFirst(s, x), x) == s
  {
    var t := s + [x];
    var i := IndexOf(t, x);
    assert i == |s|;
    assert t[..|s|] == s;
  }

  /** The same round trip for the `filter` variant. */
  lemma ToggleEveryTwiceRestores<T(!new)>(s: seq<T>, x: T)
    requires x !in s
    ensures ToggleEvery(ToggleEvery(s, x), x) == s
  {
    RemoveAllAppend(s, [x], x);
    RemoveAllAbsent(s, x);
    assert RemoveAll([x], x) == [];
  }

  /** In a duplicate-free list, `x` at index `i` occurs nowhere else. */
  lemma OnlyOccurrence<T>(s: seq<T>, i: nat, x: T)
    requires i < |s| && s[i] == x && NoDup(s)
    ensures x !in s[..i] && x !in s[i + 1..]
  {
  }

  /** Removing the only occurrence of `x` by index equals filtering it out. */
  lemma RemoveOnlyOccurrence<T(!new)>(s: seq<T>, i: nat, x: T)
    requires i < |s| && s[i] == x && NoDup(s)
    ensures RemoveAt(s, i) == RemoveAll(s, x)
  {
    var a, b := s[..i], s[i + 1..];
    assert s == a + [x] + b;
    OnlyOccurrence(s, i, x);
    RemoveAllAppend(a + [x], b, x);
    RemoveAllAppend(a, [x], x);
    RemoveAllAbsent(a, x);
    RemoveAllAbsent(b, x);
    assert RemoveAll([x], x) == [];
    assert RemoveAll(s, x) == a + b;
  }

  /** On a list without duplicates the two like toggles agree. */
  lemma TogglesAgreeWithoutDuplicates<T(!new)>(s: seq<T>, x: T)
    requires NoDup(s)
    ensures ToggleFirst(s, x) == ToggleEvery(s, x)
  {
    if x in s {
      RemoveOnlyOccurrence(s, IndexOf(s, x), x);
    }
  }

  /** So on such a list the `splice` toggle also flips the caller's
      membership. */
  lemma ToggleFirstFlipsMembership<T(!new)>(s: seq<T>, x: T)
    requires NoDup(s)
    ensures x in ToggleFirst(s, x) <==> x !in s
  {
    TogglesAgreeWithoutDuplicates(s, x);
  }

  /** With a duplicate the `splice` toggle leaves the caller in the list. */
  lemma ToggleFirstWithDuplicate<T>(x: T)
    ensures ToggleFirst([x, x], x) == [x]
  {
    assert IndexOf([x, x], x) == 0;
  }

  /** Appending an absent value keeps a list duplicate-free. */
  lemma AppendAbsentKeepsNoDup<T>(s: seq<T>, x: T)
    requires NoDup(s) && x !in s
    ensures NoDup(s + [x])
  {
    var t := s + [x];
    forall i, j | 0 <= i < j < |t| ensures t[i] != t[j] {
      if j == |s| { assert t[i] == s[i]; }
    }
  }

  /** A subsequence of a duplicate-free list is duplicate-free. */
  lemma {:induction false} SubsequenceKeepsNoDup<T>(a: seq<T>, b: seq<T>)
    requires IsSubsequence(a, b) && NoDup(b)
    ensures NoDup(a)
    decreases |b|
  {
    if a != [] {
      assert NoDup(b[1..]) by {
        forall i, j | 0 <= i < j < |b| - 1 ensures b[1..][i] != b[1..][j] {
          assert b[i + 1] != b[j + 1];
        }
      }
      if a[0] == b[0] && IsSubsequence(a[1..], b[1..]) {
        SubsequenceKeepsNoDup(a[1..], b[1..]);
        forall i, j | 0 <= i < j < |a| ensures a[i] != a[j] {
          if i == 0 {
            assert a[j] == a[1..][j - 1];
            assert a[j] in a[1..];
            SubsequenceMembers(a[1..], b[1..], a[j]);
            var k :| 0 <= k < |b[1..]| && b[1..][k] == a[j];
            assert b[k + 1] == a[j] && b[0] == a[0];
          } else {
            assert a[i] == a[1..][i - 1] && a[j] == a[1..][j - 1];
          }
        }
      } else {
        SubsequenceKeepsNoDup(a, b[1..]);
      }
    }
  }

  /** Both toggles keep a like list duplicate-free. */
  lemma TogglesKeepNoDup<T(!new)>(s: seq<T>, x: T)
    requires NoDup(s)
    ensures NoDup(ToggleFirst(s, x)) && NoDup(ToggleEvery(s, x))
  {
    TogglesAgreeWithoutDuplicates(s, x);
    if x in s {
      SubsequenceKeepsNoDup(ToggleEvery(s, x), s);
    } else {
      AppendAbsentKeepsNoDup(s, x);
    }
  }

  /** `s.slice(0, n)`. */
  function Take<T>(s: seq<T>, n: nat): (r: seq<T>)
    ensures |r| == if n < |s| then n else |s|
    ensures forall k :: 0 <= k < |r| ==> r[k] == s[k]
  {
    if n < |s| then s[..n] else s
  }

  /** Ascending by `key`. */
  predicate SortedBy<T>(s: seq<T>, key: T -> int) {
    forall i, j :: 0 <= i < j < |s| ==> key(s[i]) <= key(s[j])
  }

  /** In a sorted sequence the first key is the least. */
  lemma SortedHeadIsLeast<T>(s: seq<T>, key: T -> int)
    requires SortedBy(s, key)
    ensures s != [] ==> forall k :: 0 <= k < |s| ==> key(s[0]) <= key(s[k])
  {
  }

  /** A sorted sequence stays sorted under a head no larger than its keys. */
  lemma ConsSorted<T>(h: T, t: seq<T>, key: T -> int)
    requires SortedBy(t, key)
    requires forall k :: 0 <= k < |t| ==> key(h) <= key(t[k])
    ensures SortedBy([h] + t, key)
  {
    var r := [h] + t;
    forall i, j | 0 <= i < j < |r| ensures key(r[i]) <= key(r[j]) {
      assert r[j] == t[j - 1];
      if i > 0 { assert r[i] == t[i - 1]; }
    }
  }

  /** `x` placed before the first element of sorted `s` with a larger key. */
  function InsertBy<T>(x: T, s: seq<T>, key: T -> int): (r: seq<T>)
    requires SortedBy(s, key)
    ensures SortedBy(r, key)
    ensures multiset(r) == multiset(s) + multiset{x}
    ensures forall k :: 0 <= k < |r| ==> r[k] == x || r[k] in s
    decreases |s|
  {
    if s == [] || key(x) <= key(s[0]) then
      SortedHeadIsLeast(s, key);
      ConsSorted(x, s, key);
      [x] + s
    else
      var t := InsertBy(x, s[1..], key);
      InsertStep(x, s, t, key);
      [s[0]] + t
  }

  /** The step of `InsertBy` that keeps the head of `s` in front. */
  lemma InsertStep<T>(x: T, s: seq<T>, t: seq<T>, key: T -> int)
    requires SortedBy(s, key) && s != [] && key(s[0]) < key(x)
    requires SortedBy(t, key)
    requires multiset(t) == multiset(s[1..]) + multiset{x}
    requires forall k :: 0 <= k < |t| ==> t[k] == x || t[k] in s[1..]
    ensures SortedBy([s[0]] + t, key)
    ensures multiset([s[0]] + t) == multiset(s) + multiset{x}
    ensures forall k :: 0 <= k < |t| + 1 ==> ([s[0]] + t)[k] == x || ([s[0]] + t)[k] in s
  {
    assert s == [s[0]] + s[1..];
    forall k | 0 <= k < |t| ensures key(s[0]) <= key(t[k]) {
      if t[k] != x {
        var m :| 0 <= m < |s[1..]| && s[1..][m] == t[k];
        assert s[m + 1] == t[k];
      }
    }
    ConsSorted(s[0], t, key);
    var r := [s[0]] + t;
    forall k | 0 <= k < |r| ensures r[k] == x || r[k] in s {
      if k > 0 {
        assert r[k] == t[k - 1];
        if r[k] != x {
          var m :| 0 <= m < |s[1..]| && s[1..][m] == r[k];
          assert s[m + 1] == r[k];
        }
      }
    }
  }

  /** `s` sorted ascending by `key` (the order of equal keys is whatever
      insertion gives; the database leaves it unspecified). */
  function SortBy<T>(s: seq<T>, key: T -> int): (r: seq<T>)
    ensures SortedBy(r, key)
    ensures multiset(r) == multiset(s)
    decreases |s|
  {
    if s == [] then []
    else
      assert s == [s[0]] + s[1..];
      InsertBy(s[0], SortBy(s[1..], key), key)
  }
}
