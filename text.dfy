/** The JavaScript string operations the core relies on: `trim`,
    `toLowerCase` (ASCII only), `includes`, `startsWith`, `replace` with a
    string pattern, `split` with a string separator and `join`. */
module Text {

  /** The characters `String.prototype.trim` removes: ECMAScript WhiteSpace
      and LineTerminator code points. */
  predicate IsSpace(c: char) {
    || c == ' ' || c == '\t' || c == '\n' || c == '\r'
    || c == '\U{000B}' || c == '\U{000C}' || c == '\U{00A0}' || c == '\U{1680}'
    || ('\U{2000}' <= c <= '\U{200A}')
    || c == '\U{2028}' || c == '\U{2029}' || c == '\U{202F}' || c == '\U{205F}'
    || c == '\U{3000}' || c == '\U{FEFF}'
  }

  /** Every character of `s` is white space (then `s.trim()` is empty). */
  predicate AllSpace(s: string) {
    forall k :: 0 <= k < |s| ==> IsSpace(s[k])
  }

  /** `s` with its leading white space removed. */
  function TrimStart(s: string): (r: string)
    ensures |r| <= |s| && r == s[|s| - |r|..]
    ensures AllSpace(s[..|s| - |r|])
    ensures r == [] || !IsSpace(r[0])
    decreases |s|
  {
    if |s| > 0 && IsSpace(s[0]) then TrimStart(s[1..]) else s
  }

  /** `s` with its trailing white space removed. */
  function TrimEnd(s: string): (r: string)
    ensures |r| <= |s| && r == s[..|r|]
    ensures AllSpace(s[|r|..])
    ensures r == [] || !IsSpace(r[|r| - 1])
    decreases |s|
  {
    if |s| > 0 && IsSpace(s[|s| - 1]) then
      var r := TrimEnd(s[..|s| - 1]);
      assert s[|r|..] == s[..|s| - 1][|r|..] + [s[|s| - 1]];
      r
    else s
  }

  /** `s.trim()`: the part of `s` between its leading and trailing white
      space; it neither starts nor ends with white space (`TrimIsSlice`
      shows that what it drops is white space). */
  function Trim(s: string): (r: string)
    ensures r == [] || (!IsSpace(r[0]) && !IsSpace(r[|r| - 1]))
    ensures |r| <= |s|
  {
    TrimEnd(TrimStart(s))
  }

  /** `Trim` keeps a slice of `s` and drops white space at either end. */
  lemma TrimIsSlice(s: string)
    ensures exists i, j :: 0 <= i <= j <= |s| && Trim(s) == s[i..j] && AllSpace(s[..i]) && AllSpace(s[j..])
  {
    var t := TrimStart(s);
    var r := TrimEnd(t);
    var i := |s| - |t|;
    var j := i + |r|;
    assert AllSpace(s[..i]);
    assert t == s[i..];
    assert r == s[i..j] by {
      assert r == t[..|r|];
    }
    assert AllSpace(s[j..]) by {
      assert AllSpace(t[|r|..]);
      assert s[j..] == t[|r|..];
    }
  }

  /** `!s || s.trim().length === 0` for a string `s`: nothing but white
      space (`BlankIffTrimEmpty` connects it with `Trim`). */
  predicate IsBlank(s: string) {
    AllSpace(s)
  }

  lemma {:induction false} TrimStartOfTrimmed(s: string)
    requires s == [] || !IsSpace(s[0])
    ensures TrimStart(s) == s
  {
  }

  lemma {:induction false} TrimEndOfTrimmed(s: string)
    requires s == [] || !IsSpace(s[|s| - 1])
    ensures TrimEnd(s) == s
  {
  }

  /** Trimming twice is trimming once (the schema's `trim: true` setter
      applied to a value the route has already trimmed changes nothing). */
  lemma TrimIdempotent(s: string)
    ensures Trim(Trim(s)) == Trim(s)
  {
    var t := Trim(s);
    TrimStartOfTrimmed(t);
    TrimEndOfTrimmed(t);
  }

  lemma TrimStartAllSpace(s: string)
    ensures TrimStart(s) == [] <==> AllSpace(s)
  {
    var r := TrimStart(s);
    if r == [] {
      assert s[..|s|] == s;
    } else {
      assert r[0] == s[|s| - |r|];
    }
  }

  /** A string trims to the empty string exactly when it is all white space. */
  lemma BlankIffTrimEmpty(s: string)
    ensures IsBlank(s) <==> Trim(s) == []
  {
    TrimStartAllSpace(s);
    var t := TrimStart(s);
    if t != [] {
      assert !IsSpace(t[0]);
      assert TrimEnd(t) != [];
    }
  }

  /** ASCII-only `toLowerCase` of one character. */
  function LowerChar(c: char): char {
    if 'A' <= c <= 'Z' then (c as int + 32) as char else c
  }

  /** `s.toLowerCase()`, for ASCII letters. */
  function Lower(s: string): (r: string)
    ensures |r| == |s|
    ensures forall k :: 0 <= k < |s| ==> r[k] == LowerChar(s[k])
  {
    seq(|s|, k requires 0 <= k < |s| => LowerChar(s[k]))
  }

  /** Lower-casing is idempotent: comparing lowered values is stable. */
  lemma LowerIdempotent(s: string)
    ensures Lower(Lower(s)) == Lower(s)
  {
  }

  /** `s.startsWith(p)`. */
  predicate StartsWith(s: string, p: string) {
    |p| <= |s| && s[..|p|] == p
  }

  /** `sub` occurs in `s` starting at index `i`. */
  predicate OccursAt(s: string, sub: string, i: int) {
    0 <= i && i + |sub| <= |s| && s[i..i + |sub|] == sub
  }

  /** `s.includes(sub)`. */
  predicate Contains(s: string, sub: string)
    decreases |s|
  {
    StartsWith(s, sub) || (|s| > 0 && Contains(s[1..], sub))
  }

  /** `includes` holds exactly when `sub` occurs at some index of `s`. */
  lemma {:induction false} ContainsIff(s: string, sub: string)
    ensures Contains(s, sub) <==> exists i :: OccursAt(s, sub, i)
    decreases |s|
  {
    if StartsWith(s, sub) {
      assert OccursAt(s, sub, 0);
    } else if |s| > 0 {
      ContainsIff(s[1..], sub);
      if exists i :: OccursAt(s[1..], sub, i) {
        var i :| OccursAt(s[1..], sub, i);
        assert s[i + 1..i + 1 + |sub|] == s[1..][i..i + |sub|];
        assert OccursAt(s, sub, i + 1);
      }
      if exists i :: OccursAt(s, sub, i) {
        var i :| OccursAt(s, sub, i);
        assert i != 0;
        assert s[1..][i - 1..i - 1 + |sub|] == s[i..i + |sub|];
        assert OccursAt(s[1..], sub, i - 1);
      }
    }
  }

  /** A string contains each of the pieces it is concatenated from. */
  lemma ContainsPiece(a: string, b: string, c: string)
    ensures Contains(a + b + c, b)
  {
    var s := a + b + c;
    assert s[|a|..|a| + |b|] == b;
    assert OccursAt(s, b, |a|);
    ContainsIff(s, b);
  }

  /** Text put before a string keeps what it contains. */
  lemma ContainsAfter(x: string, t: string, sub: string)
    requires Contains(t, sub)
    ensures Contains(x + t, sub)
  {
    ContainsIff(t, sub);
    var i :| OccursAt(t, sub, i);
    var s := x + t;
    assert s[|x| + i..|x| + i + |sub|] == t[i..i + |sub|];
    assert OccursAt(s, sub, |x| + i);
    ContainsIff(s, sub);
  }

  /** Text put after a string keeps what it contains. */
  lemma ContainsBefore(t: string, z: string, sub: string)
    requires Contains(t, sub)
    ensures Contains(t + z, sub)
  {
    ContainsIff(t, sub);
    var i :| OccursAt(t, sub, i);
    var s := t + z;
    assert s[i..i + |sub|] == t[i..i + |sub|];
    assert OccursAt(s, sub, i);
    ContainsIff(s, sub);
  }

  /** Every string contains the empty string (an empty search matches). */
  lemma ContainsEmpty(s: string)
    ensures Contains(s, "")
  {
  }

  /** An occurrence at index `j` + 1 of `s` is one at `j` of its tail. */
  lemma OccursAtTail(s: string, sub: string, j: int)
    requires |s| > 0 && j >= 0
    ensures OccursAt(s, sub, j + 1) <==> OccursAt(s[1..], sub, j)
  {
    if j + 1 + |sub| <= |s| {
      assert s[1..][j..j + |sub|] == s[j + 1..j + 1 + |sub|];
    }
  }

  /** `s.indexOf(sub)`: the index of the first occurrence of `sub`, or -1. */
  function FirstOccurrence(s: string, sub: string): (r: int)
    ensures r == -1 <==> !Contains(s, sub)
    ensures r != -1 ==> OccursAt(s, sub, r) && forall j :: 0 <= j < r ==> !OccursAt(s, sub, j)
    decreases |s|
  {
    if StartsWith(s, sub) then 0
    else if s == [] then -1
    else
      var k := FirstOccurrence(s[1..], sub);
      if k == -1 then -1
      else
        OccursAtTail(s, sub, k);
        assert forall j :: 0 <= j < k ==> !OccursAt(s[1..], sub, j);
        assert forall j :: 1 <= j < k + 1 ==> !OccursAt(s, sub, j) by {
          forall j | 1 <= j < k + 1 ensures !OccursAt(s, sub, j) { OccursAtTail(s, sub, j - 1); }
        }
        k + 1
  }

  /** `s.replace(pat, rep)` with a string pattern: the first occurrence of
      `pat`, if any, is replaced by `rep` and the rest of `s` is kept. */
  function ReplaceFirst(s: string, pat: string, rep: string): (r: string)
    ensures !Contains(s, pat) ==> r == s
    ensures Contains(s, pat) ==>
      var i := FirstOccurrence(s, pat);
      i + |pat| <= |s| && r == s[..i] + rep + s[i + |pat|..]
    ensures Contains(s, pat) ==> |r| == |s| - |pat| + |rep|
    decreases |s|
  {
    if StartsWith(s, pat) then
      assert FirstOccurrence(s, pat) == 0;
      assert s[..0] + rep + s[|pat|..] == rep + s[|pat|..];
      rep + s[|pat|..]
    else if s == [] then []
    else
      var t := ReplaceFirst(s[1..], pat, rep);
      if Contains(s[1..], pat) then
        var k := FirstOccurrence(s[1..], pat);
        FirstOccurrenceTail(s, pat);
        ReplaceFirstStep(s, rep, k, |pat|, t);
        [s[0]] + t
      else
        assert [s[0]] + s[1..] == s;
        [s[0]] + t
  }

  /** Past a first character that does not start `sub`, the first
      occurrence is one further on than in the tail. */
  lemma FirstOccurrenceTail(s: string, sub: string)
    requires |s| > 0 && !StartsWith(s, sub) && Contains(s[1..], sub)
    ensures FirstOccurrence(s, sub) == FirstOccurrence(s[1..], sub) + 1
  {
    var k := FirstOccurrence(s[1..], sub);
    var i := FirstOccurrence(s, sub);
    OccursAtTail(s, sub, k);
    assert !OccursAt(s, sub, 0);
    if i < k + 1 {
      OccursAtTail(s, sub, i - 1);
    }
  }

  /** The step of `ReplaceFirst` past the first character: replacing at
      index `k` of the tail is replacing at `k + 1` of the whole. */
  lemma ReplaceFirstStep(s: string, rep: string, k: nat, n: nat, t: string)
    requires |s| > 0 && k + n <= |s| - 1
    requires t == s[1..][..k] + rep + s[1..][k + n..]
    ensures [s[0]] + t == s[..k + 1] + rep + s[k + 1 + n..]
  {
    var a, b := s[1..][..k], s[1..][k + n..];
    assert [s[0]] + a == s[..k + 1];
    assert b == s[k + 1 + n..];
    calc {
      [s[0]] + t;
      [s[0]] + (a + rep + b);
      ([s[0]] + a) + rep + b;
    }
  }

  /** A string that starts with `pat` loses exactly that prefix. */
  lemma ReplaceFirstAtStart(pat: string, t: string)
    ensures ReplaceFirst(pat + t, pat, "") == t
  {
    assert (pat + t)[..|pat|] == pat;
    assert (pat + t)[|pat|..] == t;
  }

  /** `s.split(sep)` for a non-empty string separator: the pieces between
      the non-overlapping occurrences of `sep`, found left to right. */
  function Split(s: string, sep: string): (r: seq<string>)
    requires sep != []
    ensures |r| >= 1
    decreases |s|
  {
    if StartsWith(s, sep) then [""] + Split(s[|sep|..], sep)
    else if s == [] then [""]
    else var t := Split(s[1..], sep); [[s[0]] + t[0]] + t[1..]
  }

  /** `xs.join(sep)`. */
  function Join(xs: seq<string>, sep: string): string
    decreases |xs|
  {
    if |xs| == 0 then ""
    else if |xs| == 1 then xs[0]
    else xs[0] + sep + Join(xs[1..], sep)
  }

  /** Joining a list of two or more pieces puts `sep` after the first. */
  lemma JoinCons(a: string, t: seq<string>, sep: string)
    requires t != []
    ensures Join([a] + t, sep) == a + sep + Join(t, sep)
  {
    assert ([a] + t)[1..] == t;
  }

  /** Prepending a character to the first piece prepends it to the join. */
  lemma JoinPrependChar(c: char, t: seq<string>, sep: string)
    requires t != []
    ensures Join([[c] + t[0]] + t[1..], sep) == [c] + Join(t, sep)
  {
    if |t| > 1 {
      JoinCons([c] + t[0], t[1..], sep);
      JoinCons(t[0], t[1..], sep);
      assert [t[0]] + t[1..] == t;
    } else {
      assert [[c] + t[0]] + t[1..] == [[c] + t[0]];
    }
  }

  /** Joining the pieces of a split gives the string back. */
  lemma {:induction false} JoinSplit(s: string, sep: string)
    requires sep != []
    ensures Join(Split(s, sep), sep) == s
    decreases |s|
  {
    if StartsWith(s, sep) {
      var t := Split(s[|sep|..], sep);
      JoinSplit(s[|sep|..], sep);
      JoinCons("", t, sep);
      assert s == sep + s[|sep|..];
    } else if s != [] {
      var t := Split(s[1..], sep);
      JoinSplit(s[1..], sep);
      JoinPrependChar(s[0], t, sep);
      assert s == [s[0]] + s[1..];
    }
  }

  /** Splitting `w + t` where no occurrence of `sep` starts inside `w`: the
      first piece is `w` followed by the first piece of `t`. */
  lemma {:induction false} SplitAfterWord(w: string, t: string, sep: string)
    requires sep != []
    requires forall i :: 0 <= i < |w| ==> !StartsWith((w + t)[i..], sep)
    ensures Split(w + t, sep) == [w + Split(t, sep)[0]] + Split(t, sep)[1..]
    decreases |w|
  {
    if w == [] {
      assert w + t == t;
      var v := Split(t, sep);
      assert w + v[0] == v[0];
      assert [v[0]] + v[1..] == v;
    } else {
      var s := w + t;
      assert s[0..] == s;
      assert s[1..] == w[1..] + t;
      forall i | 0 <= i < |w[1..]|
        ensures !StartsWith((w[1..] + t)[i..], sep)
      {
        assert (w[1..] + t)[i..] == s[i + 1..];
      }
      assert !StartsWith(s, sep);
      SplitAfterWord(w[1..], t, sep);
      var u := Split(s[1..], sep);
      var v := Split(t, sep);
      assert u == [w[1..] + v[0]] + v[1..];
      assert Split(s, sep) == [[s[0]] + u[0]] + u[1..];
      assert u[1..] == v[1..];
      assert [s[0]] + u[0] == w + v[0];
    }
  }

  /** The separator the profile editor joins and splits list fields with. */
  const ListSeparator: string := ", "

  /** No occurrence of ", " starts inside `x` when `x` is followed by
      `rest` (which starts with ", " or is empty), given `x` itself does
      not contain ", ". */
  lemma NoSeparatorInside(x: string, rest: string)
    requires !Contains(x, ListSeparator)
    requires rest == [] || rest[0] == ','
    ensures forall i :: 0 <= i < |x| ==> !StartsWith((x + rest)[i..], ListSeparator)
  {
    forall i | 0 <= i < |x|
      ensures !StartsWith((x + rest)[i..], ListSeparator)
    {
      var tail := (x + rest)[i..];
      if i + 2 <= |x| {
        if StartsWith(tail, ListSeparator) {
          assert x[i..i + 2] == tail[..2];
          assert OccursAt(x, ListSeparator, i);
          ContainsIff(x, ListSeparator);
        }
      } else if rest != [] {
        assert tail[1] == rest[0];
        assert tail[..2][1] == ',';
      }
    }
  }

  /** Splitting the joined text of a non-empty list gives the list back,
      provided no item itself contains ", ". */
  lemma {:induction false} SplitJoinList(xs: seq<string>)
    requires |xs| >= 1
    requires forall k :: 0 <= k < |xs| ==> !Contains(xs[k], ListSeparator)
    ensures Split(Join(xs, ListSeparator), ListSeparator) == xs
    decreases |xs|
  {
    var x := xs[0];
    if |xs| == 1 {
      NoSeparatorInside(x, "");
      SplitAfterWord(x, "", ListSeparator);
      assert x + "" == x;
    } else {
      var j := Join(xs[1..], ListSeparator);
      var rest := ListSeparator + j;
      assert Join(xs, ListSeparator) == x + rest;
      NoSeparatorInside(x, rest);
      SplitAfterWord(x, rest, ListSeparator);
      assert rest[..2] == ListSeparator;
      assert rest[2..] == j;
      SplitJoinList(xs[1..]);
      assert Split(rest, ListSeparator) == [""] + xs[1..];
      assert [x] + xs[1..] == xs;
    }
  }

  /** An empty list shows as empty text, which splits into one empty item. */
  lemma SplitJoinEmptyList()
    ensures Split(Join([], ListSeparator), ListSeparator) == [""]
  {
  }

  /** No occurrence of `sep` starts inside `x` when `x` is followed by
      `sep`: splitting at `sep` keeps `x` whole. */
  predicate SeparatorFree(x: string, sep: string) {
    forall i :: 0 <= i < |x| ==> !StartsWith((x + sep)[i..], sep)
  }

  /** An occurrence of `sep` starting inside `x` in `x + rest` is one in
      `x + sep` too, when `rest` is nothing or starts with `sep`. */
  lemma OccurrenceBeforeSeparator(x: string, rest: string, sep: string, i: int)
    requires 0 <= i < |x|
    requires rest == [] || StartsWith(rest, sep)
    requires StartsWith((x + rest)[i..], sep)
    ensures StartsWith((x + sep)[i..], sep)
  {
    forall j | 0 <= j < |sep| ensures (x + sep)[i..][j] == sep[j] {
      assert (x + rest)[i..][j] == sep[j];
      if i + j >= |x| {
        assert rest[i + j - |x|] == sep[i + j - |x|];
      }
    }
  }

  /** A separator-free piece stays whole whatever follows it, as long as
      that is nothing or another separator. */
  lemma SeparatorFreeBeforeAny(x: string, rest: string, sep: string)
    requires SeparatorFree(x, sep)
    requires rest == [] || StartsWith(rest, sep)
    ensures forall i :: 0 <= i < |x| ==> !StartsWith((x + rest)[i..], sep)
  {
    forall i | 0 <= i < |x| && StartsWith((x + rest)[i..], sep)
      ensures false
    {
      OccurrenceBeforeSeparator(x, rest, sep, i);
    }
  }

  /** A piece without the separator's first character is separator-free. */
  lemma FirstCharAbsent(x: string, sep: string)
    requires sep != [] && sep[0] !in x
    ensures SeparatorFree(x, sep)
  {
    forall i | 0 <= i < |x|
      ensures !StartsWith((x + sep)[i..], sep)
    {
      assert (x + sep)[i..][0] == x[i];
    }
  }

  /** Splitting the joined text of a non-empty list gives the list back,
      provided every item is separator-free. */
  lemma {:induction false} SplitJoinFreeOf(xs: seq<string>, sep: string)
    requires sep != [] && |xs| >= 1
    requires forall k :: 0 <= k < |xs| ==> SeparatorFree(xs[k], sep)
    ensures Split(Join(xs, sep), sep) == xs
    decreases |xs|
  {
    var x := xs[0];
    if |xs| == 1 {
      SeparatorFreeBeforeAny(x, "", sep);
      SplitAfterWord(x, "", sep);
      assert x + "" == x;
    } else {
      var j := Join(xs[1..], sep);
      var rest := sep + j;
      assert Join(xs, sep) == x + rest;
      assert StartsWith(rest, sep);
      SeparatorFreeBeforeAny(x, rest, sep);
      SplitAfterWord(x, rest, sep);
      assert rest[|sep|..] == j;
      SplitJoinFreeOf(xs[1..], sep);
      assert Split(rest, sep) == [""] + xs[1..];
      assert x + "" == x;
      assert [x] + xs[1..] == xs;
    }
  }

  /** A string that neither starts nor ends with white space is its own
      trim. */
  lemma TrimOfTrimmed(s: string)
    requires s == [] || (!IsSpace(s[0]) && !IsSpace(s[|s| - 1]))
    ensures Trim(s) == s
  {
    TrimStartOfTrimmed(s);
    TrimEndOfTrimmed(s);
  }
}
