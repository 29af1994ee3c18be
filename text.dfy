/**
 * String primitives of the JavaScript runtime that the application relies on:
 * the whitespace class shared by `\s` and `String.prototype.trim`, prefix and
 * substring tests, the first occurrence of a substring, truthiness of strings
 * and lower-casing.
 */
module Text {
  import opened Wrappers

  /** The characters JavaScript's `\s` matches and `trim` removes (WhiteSpace and LineTerminator). */
  predicate IsSpace(c: char) {
    || c == '\t' || c == '\n' || c == '\U{000B}' || c == '\U{000C}' || c == '\r' || c == ' '
    || c == '\U{00A0}' || c == '\U{1680}' || ('\U{2000}' <= c <= '\U{200A}')
    || c == '\U{2028}' || c == '\U{2029}' || c == '\U{202F}' || c == '\U{205F}'
    || c == '\U{3000}' || c == '\U{FEFF}'
  }

  predicate AllSpace(s: string) {
    forall i :: 0 <= i < |s| ==> IsSpace(s[i])
  }

  /** A string is truthy in JavaScript exactly when it is not empty. */
  predicate Truthy(s: Option<string>) {
    s.Some? && s.value != ""
  }

  /** `s.trimStart()`: the longest suffix of `s` that does not start with whitespace. */
  function TrimStart(s: string): (r: string)
    ensures |r| <= |s| && r == s[|s| - |r|..]
    ensures AllSpace(s[..|s| - |r|])
    ensures r != [] ==> !IsSpace(r[0])
  {
    if s != [] && IsSpace(s[0]) then
      var r := TrimStart(s[1..]);
      assert s[1..][..|s| - 1 - |r|] == s[1..|s| - |r|];
      r
    else s
  }

  /** `s.trimEnd()`: the longest prefix of `s` that does not end with whitespace. */
  function TrimEnd(s: string): (r: string)
    ensures |r| <= |s| && r == s[..|r|]
    ensures AllSpace(s[|r|..])
    ensures r != [] ==> !IsSpace(r[|r| - 1])
  {
    if s != [] && IsSpace(s[|s| - 1]) then
      var r := TrimEnd(s[..|s| - 1]);
      assert s[..|s| - 1][|r|..] == s[|r|..|s| - 1];
      r
    else s
  }

  /** `s.trim()`. */
  function Trim(s: string): (r: string)
    ensures r == [] || (!IsSpace(r[0]) && !IsSpace(r[|r| - 1]))
  {
    TrimEnd(TrimStart(s))
  }

  /** Trimming removes whitespace only: `s` is `r` with whitespace around it. */
  lemma TrimIsInfix(s: string)
    ensures exists a, b :: 0 <= a <= b <= |s| && Trim(s) == s[a..b] && AllSpace(s[..a]) && AllSpace(s[b..])
  {
    var t := TrimStart(s);
    var a := |s| - |t|;
    var r := TrimEnd(t);
    var b := a + |r|;
    assert t == s[a..];
    assert r == s[a..b];
    assert t[|r|..] == s[b..];
  }

  /** Trimming a string that starts and ends with non-whitespace changes nothing. */
  lemma TrimOfTrimmed(s: string)
    requires s == [] || (!IsSpace(s[0]) && !IsSpace(s[|s| - 1]))
    ensures Trim(s) == s
  {
  }

  /** `!s.trim()`: a string trims to nothing exactly when it is all whitespace. */
  lemma TrimEmptyIff(s: string)
    ensures Trim(s) == [] <==> AllSpace(s)
  {
    var t := TrimStart(s);
    if Trim(s) == [] {
      assert AllSpace(s[..|s| - |t|]);
      assert AllSpace(t[|TrimEnd(t)|..]);
      assert s == s[..|s| - |t|] + t;
    } else if AllSpace(s) {
      AllSpaceTrimsAway(s);
    }
  }

  lemma {:induction false} AllSpaceTrimsAway(s: string)
    requires AllSpace(s)
    ensures TrimStart(s) == []
  {
    if s != [] {
      AllSpaceTrimsAway(s[1..]);
    }
  }

  predicate StartsWith(s: string, p: string) {
    |p| <= |s| && s[..|p|] == p
  }

  predicate EndsWith(s: string, p: string) {
    |p| <= |s| && s[|s| - |p|..] == p
  }

  /** The markdown code fence, bare and with the `html` language tag. */
  const Fence: string := "```"
  const HtmlFence: string := "```html"

  predicate NoBacktick(s: string) {
    forall i :: 0 <= i < |s| ==> s[i] != '`'
  }

  /** `p` occurs in `s` at index `i`. */
  predicate OccursAt(s: string, p: string, i: int) {
    0 <= i && i + |p| <= |s| && s[i..i + |p|] == p
  }

  /** `s.includes(p)`. */
  predicate Contains(s: string, p: string) {
    exists i | 0 <= i <= |s| :: OccursAt(s, p, i)
  }

  /**
   * The index of the first occurrence of `p` in `s` at or after `from`
   * (`s.indexOf(p, from)`), or None when there is none.
   */
  function IndexOf(s: string, p: string, from: nat): (r: Option<nat>)
    requires p != []
    ensures r.Some? ==> from <= r.value && OccursAt(s, p, r.value)
    ensures r.Some? ==> forall j :: from <= j < r.value ==> !OccursAt(s, p, j)
    ensures r.None? ==> forall j :: from <= j ==> !OccursAt(s, p, j)
    decreases |s| - from
  {
    if from + |p| > |s| then None
    else if s[from..from + |p|] == p then Some(from)
    else IndexOf(s, p, from + 1)
  }

  lemma IndexOfFindsContained(s: string, p: string)
    requires p != []
    ensures IndexOf(s, p, 0).Some? <==> Contains(s, p)
  {
    if Contains(s, p) {
      var i :| OccursAt(s, p, i);
    }
  }

  /** A match either starts at the front of `c + t` or lies inside `t`. */
  lemma ContainsCons(c: char, t: string, p: string)
    ensures Contains([c] + t, p) <==> StartsWith([c] + t, p) || Contains(t, p)
  {
    var s := [c] + t;
    if Contains(s, p) && !StartsWith(s, p) {
      var i :| 0 <= i <= |s| && OccursAt(s, p, i);
      assert i != 0;
      assert t[i - 1..i - 1 + |p|] == s[i..i + |p|];
      assert OccursAt(t, p, i - 1);
    }
    if Contains(t, p) {
      var i :| 0 <= i <= |t| && OccursAt(t, p, i);
      forall k | 0 <= k < |p| ensures s[i + 1 + k] == p[k] {
        assert t[i..i + |p|][k] == p[k];
      }
      assert s[i + 1..i + 1 + |p|] == p;
      assert OccursAt(s, p, i + 1);
    }
    if StartsWith(s, p) {
      assert OccursAt(s, p, 0);
    }
  }

  /** A string contains each of its infixes. */
  lemma ContainsInfix(a: string, p: string, b: string)
    ensures Contains(a + p + b, p)
  {
    assert (a + p + b)[|a|..|a| + |p|] == p;
    assert OccursAt(a + p + b, p, |a|);
  }

  lemma ContainsSelf(p: string)
    ensures Contains(p, p)
  {
    assert OccursAt(p, p, 0);
  }

  /** A match survives text added on either side. */
  lemma ContainsAppend(x: string, y: string, p: string)
    requires Contains(x, p)
    ensures Contains(x + y, p) && Contains(y + x, p)
  {
    var i :| 0 <= i <= |x| && OccursAt(x, p, i);
    assert (x + y)[i..i + |p|] == x[i..i + |p|];
    assert OccursAt(x + y, p, i);
    assert (y + x)[|y| + i..|y| + i + |p|] == x[i..i + |p|];
    assert OccursAt(y + x, p, |y| + i);
  }

  /** A match inside a slice is a match inside the whole string. */
  lemma ContainsSlice(s: string, a: nat, b: nat, p: string)
    requires a <= b <= |s|
    requires Contains(s[a..b], p)
    ensures Contains(s, p)
  {
    var i :| 0 <= i <= b - a && OccursAt(s[a..b], p, i);
    forall k | 0 <= k < |p| ensures s[a + i + k] == p[k] {
      assert s[a..b][i..i + |p|][k] == p[k];
    }
    assert s[a + i..a + i + |p|] == p;
    assert OccursAt(s, p, a + i);
  }

  /** `c.toLowerCase()` on the ASCII range. */
  function LowerChar(c: char): (r: char)
    ensures 'A' <= c <= 'Z' ==> 'a' <= r <= 'z' && r as int == c as int + 32
    ensures !('A' <= c <= 'Z') ==> r == c
  {
    if 'A' <= c <= 'Z' then (c as int - 'A' as int + 'a' as int) as char else c
  }

  /** `s.toLowerCase()`, character by character. */
  function Lower(s: string): (r: string)
    ensures |r| == |s|
    ensures forall i :: 0 <= i < |s| ==> r[i] == LowerChar(s[i])
  {
    if s == [] then [] else [LowerChar(s[0])] + Lower(s[1..])
  }
}
