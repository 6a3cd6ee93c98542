/** The handful of Python string operations the tools rely on, on `seq<char>`. */
module Strings {

  /** `s.startswith(prefix)` */
  predicate StartsWith(s: string, prefix: string) {
    |prefix| <= |s| && s[..|prefix|] == prefix
  }

  /** `s.endswith(suffix)` */
  predicate EndsWith(s: string, suffix: string) {
    |suffix| <= |s| && s[|s| - |suffix|..] == suffix
  }

  /** `needle` occurs in `s` starting at index `i`. */
  predicate OccursAt(s: string, needle: string, i: int) {
    0 <= i <= |s| - |needle| && s[i..i + |needle|] == needle
  }

  /** `needle in s` for strings: some window of `s` equals `needle`. */
  predicate Contains(s: string, needle: string) {
    exists i :: 0 <= i <= |s| - |needle| && OccursAt(s, needle, i)
  }

  /** `sep.join(parts)` */
  function Join(sep: string, parts: seq<string>): (r: string)
    ensures |parts| == 1 ==> r == parts[0]
    ensures parts == [] ==> r == ""
  {
    if parts == [] then ""
    else if |parts| == 1 then parts[0]
    else parts[0] + sep + Join(sep, parts[1..])
  }

  /** `s.split(c)[0]`: the text before the first occurrence of `c`, or all of `s`. */
  function BeforeFirst(s: string, c: char): (r: string)
    ensures StartsWith(s, r)
    ensures c !in r
    ensures r == s || s[|r|] == c
  {
    if s == [] then []
    else if s[0] == c then []
    else [s[0]] + BeforeFirst(s[1..], c)
  }

  /** `os.path.basename(p)` on POSIX: the text after the last `/`. */
  function Basename(p: string): (r: string)
    ensures EndsWith(p, r)
    ensures '/' !in r
    ensures r == p || p[|p| - |r| - 1] == '/'
  {
    if p == [] then []
    else if p[|p| - 1] == '/' then []
    else Basename(p[..|p| - 1]) + [p[|p| - 1]]
  }

  /** `c.upper()` for ASCII letters; every other character is left as it is. */
  function UpperChar(c: char): char {
    if 'a' <= c <= 'z' then (c as int - 'a' as int + 'A' as int) as char else c
  }

  /** `s.upper()` restricted to ASCII case mapping. */
  function Upper(s: string): (r: string)
    ensures |r| == |s|
    ensures forall i :: 0 <= i < |s| ==> r[i] == UpperChar(s[i])
  {
    if s == [] then [] else [UpperChar(s[0])] + Upper(s[1..])
  }

  /** A string does not end with a suffix whose `k`-th character from the end differs from its own. */
  lemma EndsWithCharDiffers(s: string, suffix: string, k: nat)
    requires 0 < k <= |suffix|
    requires k <= |s| ==> s[|s| - k] != suffix[|suffix| - k]
    ensures !EndsWith(s, suffix)
  {
    if |suffix| <= |s| {
      assert s[|s| - |suffix|..][|suffix| - k] == s[|s| - k];
    }
  }

  /** `s.split(c)` for a one-character separator. */
  function Split(s: string, c: char): (parts: seq<string>)
    ensures |parts| >= 1
    ensures forall i :: 0 <= i < |parts| ==> c !in parts[i]
    decreases |s|
  {
    var head := BeforeFirst(s, c);
    if head == s then [s] else [head] + Split(s[|head| + 1..], c)
  }

  /** The text before the first separator of `a + [c] + b` is `a` when `a` holds no separator. */
  lemma {:induction false} BeforeFirstOfConcat(a: string, c: char, b: string)
    requires c !in a
    ensures BeforeFirst(a + [c] + b, c) == a
  {
    if a != [] {
      assert (a + [c] + b)[1..] == a[1..] + [c] + b;
      BeforeFirstOfConcat(a[1..], c, b);
    }
  }

  /** Splitting a join on a separator that no part contains gives the parts back. */
  lemma {:induction false} SplitJoin(parts: seq<string>, c: char)
    requires |parts| >= 1
    requires forall i :: 0 <= i < |parts| ==> c !in parts[i]
    ensures Split(Join([c], parts), c) == parts
  {
    if |parts| == 1 {
      assert BeforeFirst(parts[0], c) == parts[0] by {
        BeforeFirstWhole(parts[0], c);
      }
    } else {
      var rest := Join([c], parts[1..]);
      var s := parts[0] + [c] + rest;
      BeforeFirstOfConcat(parts[0], c, rest);
      assert |s| > |parts[0]|;
      assert s[|parts[0]| + 1..] == rest;
      assert Split(s, c) == [parts[0]] + Split(rest, c);
      SplitJoin(parts[1..], c);
      assert [parts[0]] + parts[1..] == parts;
    }
  }

  /** A string without the separator is its own text before the first separator. */
  lemma {:induction false} BeforeFirstWhole(s: string, c: char)
    requires c !in s
    ensures BeforeFirst(s, c) == s
  {
    if s != [] {
      BeforeFirstWhole(s[1..], c);
      assert [s[0]] + s[1..] == s;
    }
  }

  /** One step of `split`: a separator-free first piece comes off whole. */
  lemma SplitStep(a: string, c: char, rest: string)
    requires c !in a
    ensures Split(a + [c] + rest, c) == [a] + Split(rest, c)
  {
    var s := a + [c] + rest;
    BeforeFirstOfConcat(a, c, rest);
    assert |s| > |a|;
    assert s[|a| + 1..] == rest;
  }

  /**
   * Splitting a join followed by a separator and any text gives the parts, then the pieces of
   * that text: the separators inside the text split it too.
   */
  lemma {:induction false} SplitJoinThen(parts: seq<string>, c: char, tail: string)
    requires |parts| >= 1
    requires forall i :: 0 <= i < |parts| ==> c !in parts[i]
    ensures Split(Join([c], parts) + [c] + tail, c) == parts + Split(tail, c)
  {
    if |parts| == 1 {
      SplitStep(parts[0], c, tail);
      assert parts == [parts[0]];
    } else {
      var inner := Join([c], parts[1..]);
      assert Join([c], parts) + [c] + tail == parts[0] + [c] + (inner + [c] + tail);
      SplitStep(parts[0], c, inner + [c] + tail);
      assert forall i :: 0 <= i < |parts[1..]| ==> c !in parts[1..][i];
      SplitJoinThen(parts[1..], c, tail);
      assert [parts[0]] + (parts[1..] + Split(tail, c)) == ([parts[0]] + parts[1..]) + Split(tail, c);
      assert [parts[0]] + parts[1..] == parts;
    }
  }

  /** A concatenation starts with its first part and ends with its second. */
  lemma ConcatParts(a: string, b: string)
    ensures StartsWith(a + b, a) && EndsWith(a + b, b)
  {
    assert (a + b)[..|a|] == a;
    assert (a + b)[|a + b| - |b|..] == b;
  }
}
