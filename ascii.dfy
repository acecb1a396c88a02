/**
 * ASCII character classes and the few Python string operations the code generator uses:
 * `str.isdigit`, `str.strip`, `str.split()` without arguments, `str.split('=', 1)`,
 * `str.startswith` and `"\n".join`. Characters outside ASCII belong to no class.
 */
module Ascii {

  /** `[0-9]` in a pattern; also `str.isdigit` on a single ASCII character. */
  predicate IsDigit(c: char) { '0' <= c <= '9' }

  /** `\w` on ASCII: letters, digits and the underscore. */
  predicate IsWordChar(c: char) { 'a' <= c <= 'z' || 'A' <= c <= 'Z' || IsDigit(c) || c == '_' }

  /**
   * Python's notion of whitespace on ASCII (used by `\s`, `str.strip` and `str.split`):
   * tab, line feed, vertical tab, form feed, carriage return, the separators 0x1C-0x1F and space.
   */
  predicate IsSpace(c: char) { 9 <= c as int <= 13 || 28 <= c as int <= 32 }

  predicate IsNonSpace(c: char) { !IsSpace(c) }

  /** `.` in a pattern without DOTALL: anything but a line feed. */
  predicate IsNotNewline(c: char) { c != '\n' }

  /** `s.isdigit()`: at least one character, and all of them digits. */
  predicate IsDigits(s: string) { |s| > 0 && forall i :: 0 <= i < |s| ==> IsDigit(s[i]) }

  /** A match of `\w+`. */
  predicate IsWord(s: string) { |s| > 0 && forall i :: 0 <= i < |s| ==> IsWordChar(s[i]) }

  /** A match of `\s*`. */
  predicate AllSpace(s: string) { forall i :: 0 <= i < |s| ==> IsSpace(s[i]) }

  predicate NoSpace(s: string) { forall i :: 0 <= i < |s| ==> !IsSpace(s[i]) }

  /** `s.startswith(p)`. */
  predicate StartsWith(s: string, p: string) { |p| <= |s| && s[..|p|] == p }

  /** The end of the longest run of characters satisfying `p` that starts at `i` (a greedy `p*`). */
  function RunEnd(s: string, i: nat, p: char -> bool): (j: nat)
    requires i <= |s|
    ensures i <= j <= |s|
    ensures forall k :: i <= k < j ==> p(s[k])
    ensures j == |s| || !p(s[j])
    decreases |s| - i
  {
    if i < |s| && p(s[i]) then RunEnd(s, i + 1, p) else i
  }

  /** A run is determined by its two ends: whoever can show where it stops knows `RunEnd`. */
  lemma RunEndIs(s: string, i: nat, j: nat, p: char -> bool)
    requires i <= j <= |s|
    requires forall k :: i <= k < j ==> p(s[k])
    requires j == |s| || !p(s[j])
    ensures RunEnd(s, i, p) == j
  {
  }

  /** `s` with its trailing whitespace removed. */
  function TrimEnd(s: string): (r: string)
    ensures r <= s && AllSpace(s[|r|..])
    ensures r == [] || !IsSpace(r[|r| - 1])
  {
    if |s| > 0 && IsSpace(s[|s| - 1]) then
      var r := TrimEnd(s[..|s| - 1]);
      assert s[|r|..] == s[..|s| - 1][|r|..] + [s[|s| - 1]];
      r
    else s
  }

  /** `s.strip()`. */
  function Strip(s: string): (r: string)
    ensures |r| <= |s|
    ensures r == [] || (!IsSpace(r[0]) && !IsSpace(r[|r| - 1]))
  {
    TrimEnd(s[RunEnd(s, 0, IsSpace)..])
  }

  /** Stripping removes exactly the padding around a string that has none of its own. */
  lemma StripPadded(a: string, t: string, b: string)
    requires AllSpace(a) && AllSpace(b)
    requires t == [] || (!IsSpace(t[0]) && !IsSpace(t[|t| - 1]))
    ensures Strip(a + t + b) == t
  {
    var s := a + t + b;
    if t == [] {
      assert s == a + b;
      RunEndIs(s, 0, |s|, IsSpace);
      assert s[|s|..] == [];
    } else {
      RunEndIs(s, 0, |a|, IsSpace);
      assert s[|a|..] == t + b;
      TrimEndPadded(t, b);
    }
  }

  lemma {:induction false} TrimEndPadded(t: string, b: string)
    requires AllSpace(b)
    requires t == [] || !IsSpace(t[|t| - 1])
    ensures TrimEnd(t + b) == t
    decreases |b|
  {
    if b == [] {
      assert t + b == t;
    } else {
      var s := t + b;
      assert s[..|s| - 1] == t + b[..|b| - 1];
      TrimEndPadded(t, b[..|b| - 1]);
    }
  }

  /** `s.split()`: the maximal runs of non-whitespace characters, in order. */
  function Split(s: string): (toks: seq<string>)
    ensures forall k :: 0 <= k < |toks| ==> |toks[k]| > 0 && NoSpace(toks[k])
    decreases |s|
  {
    var i := RunEnd(s, 0, IsSpace);
    if i == |s| then []
    else
      var j := RunEnd(s, i, IsNonSpace);
      [s[i..j]] + Split(s[j..])
  }

  /** A space-padded word is split off as the first token. */
  lemma SplitFirst(a: string, w: string, rest: string)
    requires AllSpace(a) && |w| > 0 && NoSpace(w)
    requires rest == [] || IsSpace(rest[0])
    ensures Split(a + w + rest) == [w] + Split(rest)
  {
    var s := a + w + rest;
    RunEndIs(s, 0, |a|, IsSpace);
    RunEndIs(s, |a|, |a| + |w|, IsNonSpace);
    assert s[|a|..|a| + |w|] == w;
    assert s[|a| + |w|..] == rest;
  }

  lemma SplitBlank(a: string)
    requires AllSpace(a)
    ensures Split(a) == []
  {
    RunEndIs(a, 0, |a|, IsSpace);
  }

  /** The index of the first occurrence of `c` in `s`, which must occur. */
  function FirstIndex(s: string, c: char): (k: nat)
    requires c in s
    ensures k < |s| && s[k] == c && c !in s[..k]
  {
    if s[0] == c then 0
    else
      assert c in s[1..] by { var i :| 0 <= i < |s| && s[i] == c; assert s[1..][i - 1] == c; }
      var k := 1 + FirstIndex(s[1..], c);
      assert s[..k] == [s[0]] + s[1..][..k - 1];
      k
  }

  /** `sep.join(lines)`. */
  function Join(lines: seq<string>, sep: string): string
  {
    if |lines| == 0 then ""
    else if |lines| == 1 then lines[0]
    else lines[0] + sep + Join(lines[1..], sep)
  }

  /** Joining two nonempty blocks of lines puts one separator between them. */
  lemma {:induction false} JoinAppend(a: seq<string>, b: seq<string>, sep: string)
    requires |a| > 0 && |b| > 0
    ensures Join(a + b, sep) == Join(a, sep) + sep + Join(b, sep)
    decreases |a|
  {
    if |a| == 1 {
      assert (a + b)[1..] == b;
    } else {
      assert (a + b)[1..] == a[1..] + b;
      JoinAppend(a[1..], b, sep);
    }
  }
}
