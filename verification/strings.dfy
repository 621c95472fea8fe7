/** The pieces of Python's `str` behaviour that the sort-key transform relies
    on: `strip()`, `lower()`, `split(' ')` and `' '.join(...)`. Strings are
    sequences of Unicode scalar values. */
module Strings {

  /** Python's `str.isspace()`: the characters `strip()` removes when it is
      called without arguments. */
  predicate IsSpace(c: char) {
    var n := c as int;
    || 0x09 <= n <= 0x0D
    || 0x1C <= n <= 0x20
    || n == 0x85 || n == 0xA0 || n == 0x1680
    || 0x2000 <= n <= 0x200A
    || n == 0x2028 || n == 0x2029 || n == 0x202F || n == 0x205F || n == 0x3000
  }

  /** Every character of `s` is white space in the sense of `sp`. Stripping
      is parameterised by the white-space set because `str.strip()` and
      `int()` do not drop the same characters. */
  predicate AllSpace(sp: char -> bool, s: string) {
    forall i :: 0 <= i < |s| ==> sp(s[i])
  }

  /** Every character of `s` from index `lo` up to (not including) `hi` is
      white space in the sense of `sp`. */
  predicate SpaceBetween(sp: char -> bool, s: string, lo: nat, hi: nat)
    requires lo <= hi <= |s|
  {
    forall i :: lo <= i < hi ==> sp(s[i])
  }

  /** Number of white-space characters at the start of `s`. */
  function LeadingSpaces(sp: char -> bool, s: string): (n: nat)
    ensures n <= |s|
    ensures SpaceBetween(sp, s, 0, n)
    ensures n == |s| || !sp(s[n])
  {
    if |s| > 0 && sp(s[0]) then
      var k := LeadingSpaces(sp, s[1..]);
      assert forall i :: 1 <= i < k + 1 ==> s[i] == s[1..][i - 1];
      1 + k
    else 0
  }

  /** Number of white-space characters at the end of `s`. */
  function TrailingSpaces(sp: char -> bool, s: string): (n: nat)
    ensures n <= |s|
    ensures SpaceBetween(sp, s, |s| - n, |s|)
    ensures n == |s| || !sp(s[|s| - n - 1])
  {
    if |s| > 0 && sp(s[|s| - 1]) then
      var t := s[..|s| - 1];
      var k := TrailingSpaces(sp, t);
      assert forall i :: 0 <= i < |t| ==> s[i] == t[i];
      1 + k
    else 0
  }

  /** Python's `s.strip()` when `sp` is `IsSpace`: the longest infix of `s`
      that neither starts nor ends with white space, found by dropping white
      space from both ends. */
  function Strip(sp: char -> bool, s: string): (r: string)
    ensures LeadingSpaces(sp, s) + |r| <= |s|
    ensures r == s[LeadingSpaces(sp, s)..LeadingSpaces(sp, s) + |r|]
    ensures SpaceBetween(sp, s, 0, LeadingSpaces(sp, s))
    ensures SpaceBetween(sp, s, LeadingSpaces(sp, s) + |r|, |s|)
    ensures |r| == 0 || (!sp(r[0]) && !sp(r[|r| - 1]))
  {
    var n := LeadingSpaces(sp, s);
    var t := s[n..];
    var m := TrailingSpaces(sp, t);
    assert forall i :: n <= i < |s| ==> s[i] == t[i - n];
    t[..|t| - m]
  }

  /** Whatever white space surrounds a string, stripping yields the same
      result: `Strip` depends only on the non-blank core of its input. */
  lemma StripIgnoresPadding(sp: char -> bool, pre: string, s: string, post: string)
    requires AllSpace(sp, pre) && AllSpace(sp, post)
    ensures Strip(sp, pre + s + post) == Strip(sp, s)
  {
    var r := Strip(sp, s);
    var i := LeadingSpaces(sp, s);
    var w := pre + s + post;
    assert forall k :: 0 <= k < |pre| ==> w[k] == pre[k];
    assert forall k :: 0 <= k < |s| ==> w[|pre| + k] == s[k];
    assert forall k :: 0 <= k < |post| ==> w[|pre| + |s| + k] == post[k];
    assert w[|pre| + i..|pre| + i + |r|] == r;
    StripUnique(sp, w, |pre| + i, r);
  }

  /** `Strip(sp, w)` is the only infix of `w` with blank surroundings that
      neither starts nor ends with white space. */
  lemma StripUnique(sp: char -> bool, w: string, i: nat, r: string)
    requires i + |r| <= |w| && w[i..i + |r|] == r
    requires SpaceBetween(sp, w, 0, i) && SpaceBetween(sp, w, i + |r|, |w|)
    requires |r| == 0 || (!sp(r[0]) && !sp(r[|r| - 1]))
    ensures Strip(sp, w) == r
  {
    if |r| == 0 {
      LeadingSpacesAt(sp, w, |w|);
    } else {
      assert w[i] == r[0];
      LeadingSpacesAt(sp, w, i);
      var t := w[i..];
      SpaceAfterShift(sp, w, i, |r|);
      assert t[|r| - 1] == r[|r| - 1];
      TrailingSpacesAt(sp, t, |t| - |r|);
      assert t[..|r|] == r;
    }
  }

  /** White space after position `i + k` of `w` is white space after
      position `k` of `w[i..]`. */
  lemma SpaceAfterShift(sp: char -> bool, w: string, i: nat, k: nat)
    requires i + k <= |w| && SpaceBetween(sp, w, i + k, |w|)
    ensures SpaceBetween(sp, w[i..], k, |w| - i)
  {
    forall j | k <= j < |w| - i
      ensures sp(w[i..][j])
    {
      assert w[i..][j] == w[i + j];
    }
  }

  /** The count of leading white space is the only count it could be. */
  lemma LeadingSpacesAt(sp: char -> bool, s: string, n: nat)
    requires n <= |s| && SpaceBetween(sp, s, 0, n)
    requires n == |s| || !sp(s[n])
    ensures LeadingSpaces(sp, s) == n
  {
  }

  /** The count of trailing white space is the only count it could be. */
  lemma TrailingSpacesAt(sp: char -> bool, s: string, n: nat)
    requires n <= |s| && SpaceBetween(sp, s, |s| - n, |s|)
    requires n == |s| || !sp(s[|s| - n - 1])
    ensures TrailingSpaces(sp, s) == n
  {
  }

  /** Exactly the blank strings strip to nothing. */
  lemma StripBlank(sp: char -> bool, s: string)
    ensures Strip(sp, s) == "" <==> AllSpace(sp, s)
  {
    if AllSpace(sp, s) {
      StripUnique(sp, s, 0, "");
    }
  }

  /** A string with no white space at either end is its own stripped form. */
  lemma StripUnpadded(sp: char -> bool, s: string)
    requires |s| > 0 && !sp(s[0]) && !sp(s[|s| - 1])
    ensures Strip(sp, s) == s
  {
    assert s[0..|s|] == s;
    StripUnique(sp, s, 0, s);
  }
  predicate IsUpper(c: char) {
    'A' <= c <= 'Z'
  }

  /** ASCII lower-casing of one character. */
  function LowerChar(c: char): (d: char)
    ensures !IsUpper(d)
    ensures !IsUpper(c) ==> d == c
  {
    if IsUpper(c) then (c as int - 'A' as int + 'a' as int) as char else c
  }

  /** No capital letter occurs in `s`. */
  predicate IsLowerCase(s: string) {
    forall i :: 0 <= i < |s| ==> !IsUpper(s[i])
  }

  /** Python's `s.lower()`, restricted to the ASCII letters. */
  function Lower(s: string): (r: string)
    ensures |r| == |s|
    ensures IsLowerCase(r)
    ensures forall i :: 0 <= i < |s| && !IsUpper(s[i]) ==> r[i] == s[i]
    ensures forall i :: 0 <= i < |s| && IsUpper(s[i]) ==> r[i] as int == s[i] as int + 32
  {
    seq(|s|, i requires 0 <= i < |s| => LowerChar(s[i]))
  }

  /** Lower-casing works character by character, so it distributes over
      concatenation. */
  lemma LowerAppend(a: string, b: string)
    ensures Lower(a + b) == Lower(a) + Lower(b)
  {
    assert forall i :: 0 <= i < |a| ==> (a + b)[i] == a[i];
    assert forall i :: |a| <= i < |a| + |b| ==> (a + b)[i] == b[i - |a|];
  }

  /** A string without capitals is its own lower-case form. */
  lemma LowerOfLowerCase(s: string)
    requires IsLowerCase(s)
    ensures Lower(s) == s
  {
  }

  lemma LowerCaseAppend(a: string, b: string)
    ensures IsLowerCase(a + b) <==> IsLowerCase(a) && IsLowerCase(b)
  {
    assert forall i :: 0 <= i < |a| ==> (a + b)[i] == a[i];
    assert forall i :: 0 <= i < |b| ==> (a + b)[|a| + i] == b[i];
  }

  /** Python's `s.split(' ')`: the pieces between single spaces. Two spaces in
      a row give an empty piece, there is always at least one piece, and no
      piece contains a space. */
  function Split(s: string): (parts: seq<string>)
    ensures |parts| >= 1
    ensures forall k :: 0 <= k < |parts| ==> ' ' !in parts[k]
  {
    if |s| == 0 then [""]
    else
      var rest := Split(s[1..]);
      if s[0] == ' ' then [""] + rest
      else
        var p := [s[0]] + rest[0];
        assert ' ' !in p;
        [p] + rest[1..]
  }

  /** Python's `' '.join(parts)`. */
  function Join(parts: seq<string>): string {
    if |parts| == 0 then ""
    else if |parts| == 1 then parts[0]
    else parts[0] + " " + Join(parts[1..])
  }

  function FirstWord(s: string): string {
    Split(s)[0]
  }

  function LastWord(s: string): string {
    var parts := Split(s);
    parts[|parts| - 1]
  }

  /** `s` starts with the word `w` followed by a space. */
  predicate StartsWithWord(s: string, w: string) {
    |s| > |w| && s[..|w|] == w && s[|w|] == ' '
  }

  lemma JoinCons(x: string, tail: seq<string>)
    requires |tail| >= 1
    ensures Join([x] + tail) == x + " " + Join(tail)
  {
    assert ([x] + tail)[1..] == tail;
  }

  /** Joining with single spaces undoes splitting on single spaces. */
  lemma {:induction false} JoinSplit(s: string)
    ensures Join(Split(s)) == s
  {
    if |s| > 0 {
      var rest := Split(s[1..]);
      JoinSplit(s[1..]);
      if s[0] == ' ' {
        JoinCons("", rest);
        assert s == [s[0]] + s[1..];
      } else {
        var tail := rest[1..];
        assert rest == [rest[0]] + tail;
        if |tail| == 0 {
          assert Join(rest) == rest[0];
        } else {
          JoinCons(rest[0], tail);
          JoinCons([s[0]] + rest[0], tail);
        }
        assert s == [s[0]] + s[1..];
      }
    }
  }

  /** A string with no space is a single piece. */
  lemma {:induction false} SplitNoSpace(s: string)
    requires ' ' !in s
    ensures Split(s) == [s]
  {
    if |s| > 0 {
      assert ' ' !in s[1..] by {
        forall k | 0 <= k < |s[1..]| ensures s[1..][k] != ' ' {
          assert s[1..][k] == s[k + 1];
        }
      }
      SplitNoSpace(s[1..]);
      assert [s[0]] + s[1..] == s;
    }
  }

  lemma SplitSpaceThen(t: string)
    ensures Split([' '] + t) == [""] + Split(t)
  {
    assert ([' '] + t)[1..] == t;
  }

  lemma SplitCharThen(c: char, t: string)
    requires c != ' '
    ensures Split([c] + t) == [[c] + Split(t)[0]] + Split(t)[1..]
  {
    assert ([c] + t)[1..] == t;
  }

  /** Splitting at a space splits the two sides independently. */
  lemma {:induction false} SplitAppend(a: string, b: string)
    ensures Split(a + " " + b) == Split(a) + Split(b)
  {
    if |a| == 0 {
      assert a + " " + b == [' '] + b;
      SplitSpaceThen(b);
    } else {
      SplitAppend(a[1..], b);
      SplitAppendStep(a[0], a[1..], b);
      assert a == [a[0]] + a[1..];
      assert a + " " + b == [a[0]] + (a[1..] + " " + b);
    }
  }

  /** The inductive step of `SplitAppend`: one character in front. */
  lemma SplitAppendStep(c: char, t: string, b: string)
    requires Split(t + " " + b) == Split(t) + Split(b)
    ensures Split([c] + (t + " " + b)) == Split([c] + t) + Split(b)
  {
    if c == ' ' {
      SplitSpaceStep(t, b);
    } else {
      SplitCharStep(c, t, b);
    }
  }

  /** The space case of `SplitAppendStep`. */
  lemma SplitSpaceStep(t: string, b: string)
    requires Split(t + " " + b) == Split(t) + Split(b)
    ensures Split([' '] + (t + " " + b)) == Split([' '] + t) + Split(b)
  {
    var A, B, AB := Split(t), Split(b), Split(t + " " + b);
    SplitSpaceThen(t);
    SplitSpaceThen(t + " " + b);
    assert [""] + AB == ([""] + A) + B;
  }

  /** The non-space case of `SplitAppendStep`. */
  lemma SplitCharStep(c: char, t: string, b: string)
    requires c != ' '
    requires Split(t + " " + b) == Split(t) + Split(b)
    ensures Split([c] + (t + " " + b)) == Split([c] + t) + Split(b)
  {
    SplitCharThenAppend(c, Split(t), Split(b), Split(t + " " + b));
    SplitCharThen(c, t);
    SplitCharThen(c, t + " " + b);
  }

  /** The list arithmetic behind the non-space case of `SplitAppendStep`. */
  lemma SplitCharThenAppend(c: char, A: seq<string>, B: seq<string>, AB: seq<string>)
    requires |A| >= 1 && AB == A + B
    ensures [[c] + AB[0]] + AB[1..] == ([[c] + A[0]] + A[1..]) + B
  {
    assert AB[0] == A[0];
    assert AB[1..] == A[1..] + B;
  }

  /** Splitting before a single word (one without spaces). */
  lemma SplitWordThen(w: string, rest: string)
    requires ' ' !in w
    ensures Split(w + " " + rest) == [w] + Split(rest)
  {
    SplitAppend(w, rest);
    SplitNoSpace(w);
  }

  /** Splitting after a single word (one without spaces). */
  lemma SplitThenWord(rest: string, w: string)
    requires ' ' !in w
    ensures Split(rest + " " + w) == Split(rest) + [w]
  {
    SplitAppend(rest, w);
    SplitNoSpace(w);
  }

  /** Splitting undoes joining, as long as no piece contains a space. */
  lemma {:induction false} SplitJoin(parts: seq<string>)
    requires |parts| >= 1
    requires forall k :: 0 <= k < |parts| ==> ' ' !in parts[k]
    ensures Split(Join(parts)) == parts
  {
    if |parts| == 1 {
      SplitNoSpace(parts[0]);
    } else {
      SplitJoin(parts[1..]);
      SplitWordThen(parts[0], Join(parts[1..]));
    }
  }

  /** A string whose split has several pieces is its first piece, a space,
      and the rest. */
  lemma SplitHead(s: string)
    requires |Split(s)| > 1
    ensures s == FirstWord(s) + " " + Join(Split(s)[1..])
  {
    var parts := Split(s);
    JoinSplit(s);
    JoinCons(parts[0], parts[1..]);
    assert parts == [parts[0]] + parts[1..];
  }
}
