/** The Python string operations the services lean on: `strip`, `find`, `rfind`, `in` and `join`. */
module Text {
  import opened Wrappers

  /** `str.isspace` on one character. */
  predicate IsSpace(c: char) {
    var n := c as int;
    || 0x09 <= n <= 0x0D || 0x1C <= n <= 0x20 || n == 0x85 || n == 0xA0 || n == 0x1680
    || 0x2000 <= n <= 0x200A || n == 0x2028 || n == 0x2029 || n == 0x202F || n == 0x205F || n == 0x3000
  }

  predicate IsDigit(c: char) {
    '0' <= c <= '9'
  }

  predicate Blank(s: string) {
    forall i :: 0 <= i < |s| ==> IsSpace(s[i])
  }

  /** Neither end is a whitespace character. */
  predicate Trimmed(s: string) {
    s != "" ==> !IsSpace(s[0]) && !IsSpace(s[|s| - 1])
  }

  /** The first position from `i` on that is not whitespace. */
  function SkipForward(s: string, i: nat): (r: nat)
    requires i <= |s|
    ensures i <= r <= |s| && (r < |s| ==> !IsSpace(s[r])) && forall k :: i <= k < r ==> IsSpace(s[k])
    decreases |s| - i
  {
    if i < |s| && IsSpace(s[i]) then SkipForward(s, i + 1) else i
  }

  function SkipBackward(s: string, n: nat): (r: nat)
    requires n <= |s|
    ensures r <= n && (r > 0 ==> !IsSpace(s[r - 1])) && forall k :: r <= k < n ==> IsSpace(s[k])
  {
    if n > 0 && IsSpace(s[n - 1]) then SkipBackward(s, n - 1) else n
  }

  function StripLeft(s: string): string {
    s[SkipForward(s, 0)..]
  }

  function StripRight(s: string): string {
    s[..SkipBackward(s, |s|)]
  }

  /** `str.strip()`. */
  function Strip(s: string): string {
    StripRight(StripLeft(s))
  }

  /** Stripping cuts a blank prefix and a blank suffix and leaves a trimmed middle. */
  lemma StripSplits(s: string) returns (before: string, after: string)
    ensures Blank(before) && Blank(after)
    ensures s == before + Strip(s) + after
    ensures Trimmed(Strip(s))
  {
    var i := SkipForward(s, 0);
    var j := SkipBackward(s[i..], |s| - i);
    before, after := s[..i], s[i..][j..];
  }

  lemma StripOfTrimmed(s: string)
    requires Trimmed(s)
    ensures Strip(s) == s
  {
  }

  lemma StripOfPadded(s: string, after: string)
    requires s != "" && Trimmed(s) && Blank(after)
    ensures Strip(s + after) == s
  {
    var all := s + after;
    assert all[0] == s[0] && all[|s| - 1] == s[|s| - 1];
    assert StripLeft(all) == all;
    forall k | |s| <= k < |all|
      ensures IsSpace(all[k])
    {
      assert all[k] == after[k - |s|];
    }
  }

  lemma StripOfBlank(s: string)
    requires Blank(s)
    ensures Strip(s) == ""
  {
  }

  lemma StripIsEmptyOnlyOnBlank(s: string)
    ensures Strip(s) == "" <==> Blank(s)
  {
    var before, after := StripSplits(s);
    if Blank(s) {
      StripOfBlank(s);
    }
    if Strip(s) == "" {
      assert s == before + after;
    }
  }

  predicate NonBlank(s: string) {
    Strip(s) != ""
  }

  lemma NonBlankAt(s: string, i: nat)
    requires i < |s| && !IsSpace(s[i])
    ensures NonBlank(s) && NonBlank(Strip(s))
  {
    StripIsEmptyOnlyOnBlank(s);
    StrippedStaysNonBlank(s);
  }

  lemma NonBlankPrefix(a: string, b: string)
    requires NonBlank(a)
    ensures NonBlank(a + b)
  {
    StripIsEmptyOnlyOnBlank(a);
    StripIsEmptyOnlyOnBlank(a + b);
    var i :| 0 <= i < |a| && !IsSpace(a[i]);
    assert (a + b)[i] == a[i];
  }

  lemma StrippedStaysNonBlank(s: string)
    requires NonBlank(s)
    ensures NonBlank(Strip(s))
  {
    var before, after := StripSplits(s);
    StripOfTrimmed(Strip(s));
  }

  /** The characters of `s` that are not whitespace, in order. */
  function Ink(s: string): string {
    if s == "" then ""
    else (if IsSpace(s[0]) then "" else [s[0]]) + Ink(s[1..])
  }

  lemma {:induction false} InkOfConcat(a: string, b: string)
    ensures Ink(a + b) == Ink(a) + Ink(b)
  {
    if a == "" {
      assert a + b == b;
    } else {
      assert (a + b)[1..] == a[1..] + b;
      InkOfConcat(a[1..], b);
    }
  }

  lemma {:induction false} InkOfBlank(s: string)
    requires Blank(s)
    ensures Ink(s) == ""
  {
    if s != "" {
      InkOfBlank(s[1..]);
    }
  }

  lemma {:induction false} InkIsEmptyOnlyOnBlank(s: string)
    ensures Ink(s) == "" <==> Blank(s)
  {
    if s != "" {
      InkIsEmptyOnlyOnBlank(s[1..]);
      assert s == [s[0]] + s[1..];
    }
  }

  lemma InkOfStrip(s: string)
    ensures Ink(Strip(s)) == Ink(s)
  {
    var before, after := StripSplits(s);
    InkOfConcat(before + Strip(s), after);
    InkOfConcat(before, Strip(s));
    InkOfBlank(before);
    InkOfBlank(after);
  }

  lemma {:induction false} InkIsNoLonger(s: string)
    ensures |Ink(s)| <= |s|
  {
    if s != "" {
      InkIsNoLonger(s[1..]);
    }
  }

  /** `s.find(c)`, with `None` for -1. */
  function Find(s: string, c: char): (r: Option<nat>)
    ensures r.None? <==> c !in s
    ensures r.Some? ==> r.value < |s| && s[r.value] == c && forall k :: 0 <= k < r.value ==> s[k] != c
  {
    FindFrom(s, c, 0)
  }

  function FindFrom(s: string, c: char, i: nat): (r: Option<nat>)
    requires i <= |s|
    ensures r.None? <==> forall k :: i <= k < |s| ==> s[k] != c
    ensures r.Some? ==> i <= r.value < |s| && s[r.value] == c && forall k :: i <= k < r.value ==> s[k] != c
    decreases |s| - i
  {
    if i == |s| then None else if s[i] == c then Some(i) else FindFrom(s, c, i + 1)
  }

  /** `s.rfind(c)`, with `None` for -1. */
  function FindLast(s: string, c: char): (r: Option<nat>)
    ensures r.None? <==> c !in s
    ensures r.Some? ==> r.value < |s| && s[r.value] == c && forall k :: r.value < k < |s| ==> s[k] != c
  {
    FindLastBelow(s, c, |s|)
  }

  function FindLastBelow(s: string, c: char, n: nat): (r: Option<nat>)
    requires n <= |s|
    ensures r.None? <==> forall k :: 0 <= k < n ==> s[k] != c
    ensures r.Some? ==> r.value < n && s[r.value] == c && forall k :: r.value < k < n ==> s[k] != c
  {
    if n == 0 then None else if s[n - 1] == c then Some(n - 1) else FindLastBelow(s, c, n - 1)
  }

  lemma AbsentBefore(s: string, c: char, i: nat)
    requires i <= |s| && c !in s[..i]
    ensures forall k :: 0 <= k < i ==> s[k] != c
  {
    assert forall k :: 0 <= k < i ==> s[..i][k] == s[k];
  }

  lemma AbsentFrom(s: string, c: char, i: nat)
    requires i <= |s| && c !in s[i..]
    ensures forall k :: i <= k < |s| ==> s[k] != c
  {
    forall k | i <= k < |s|
      ensures s[k] != c
    {
      assert s[i..][k - i] == s[k];
    }
  }

  lemma FindIsFirst(s: string, c: char, i: nat)
    requires i < |s| && s[i] == c && c !in s[..i]
    ensures Find(s, c) == Some(i)
  {
    AbsentBefore(s, c, i);
  }

  lemma FindLastIsLast(s: string, c: char, i: nat)
    requires i < |s| && s[i] == c && c !in s[i + 1..]
    ensures FindLast(s, c) == Some(i)
  {
    AbsentFrom(s, c, i + 1);
  }

  lemma FindAfter(a: string, t: string, c: char)
    requires c !in a
    ensures Find(a + t, c) == match Find(t, c) case None => None case Some(i) => Some(|a| + i)
  {
    var s := a + t;
    assert forall k :: 0 <= k < |t| ==> s[|a| + k] == t[k];
  }

  lemma FindBefore(t: string, b: string, c: char)
    requires c !in b
    ensures Find(t + b, c) == Find(t, c)
  {
    var s := t + b;
    assert forall k :: 0 <= k < |t| ==> s[k] == t[k];
  }

  lemma FindLastAfter(a: string, t: string, c: char)
    requires c !in a
    ensures FindLast(a + t, c) == match FindLast(t, c) case None => None case Some(i) => Some(|a| + i)
  {
    var s := a + t;
    assert forall k :: 0 <= k < |t| ==> s[|a| + k] == t[k];
  }

  lemma FindLastBefore(t: string, b: string, c: char)
    requires c !in b
    ensures FindLast(t + b, c) == FindLast(t, c)
  {
    var s := t + b;
    assert forall k :: 0 <= k < |t| ==> s[k] == t[k];
  }

  lemma SliceAfter(a: string, t: string, i: nat, j: nat)
    requires i <= j <= |t|
    ensures (a + t)[|a| + i..|a| + j] == t[i..j]
  {
  }

  lemma SliceBefore(t: string, b: string, i: nat, j: nat)
    requires i <= j <= |t|
    ensures (t + b)[i..j] == t[i..j]
  {
  }

  /** `part in s`. */
  predicate Contains(s: string, part: string) {
    exists i, j :: 0 <= i <= j <= |s| && s[i..j] == part
  }

  lemma ContainsItself(s: string)
    ensures Contains(s, s)
  {
    assert s[0..|s|] == s;
  }

  lemma ContainsFront(a: string, b: string, part: string)
    requires Contains(a, part)
    ensures Contains(a + b, part)
  {
    var i, j :| 0 <= i <= j <= |a| && a[i..j] == part;
    SliceBefore(a, b, i, j);
  }

  lemma ContainsBack(a: string, b: string, part: string)
    requires Contains(b, part)
    ensures Contains(a + b, part)
  {
    var i, j :| 0 <= i <= j <= |b| && b[i..j] == part;
    SliceAfter(a, b, i, j);
  }

  /** `separator.join(parts)`. */
  function JoinWith(parts: seq<string>, separator: string): string {
    if parts == [] then ""
    else if |parts| == 1 then parts[0]
    else parts[0] + separator + JoinWith(parts[1..], separator)
  }
}
