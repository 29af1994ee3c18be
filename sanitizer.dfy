/**
 * The client-side cleaner `cleanHtml` of the result display
 * (src/components/LeadResultDisplay.tsx:19-33): four string rewrites applied in order.
 * Each regular expression is written out as a recursive function with the
 * left-to-right, non-overlapping semantics of `String.prototype.replace` with
 * the `g` flag.
 */
module Sanitizer {
  import opened Text

  /**
   * Step 1, `replace(/```html|```/g, '')`: scanning from the left, an
   * occurrence of "```html" (tried first) or "```" is dropped and the scan
   * resumes after it; every other character is kept.
   */
  function StripFences(s: string): string
    decreases |s|
  {
    if s == [] then []
    else if StartsWith(s, HtmlFence) then StripFences(s[|HtmlFence|..])
    else if StartsWith(s, Fence) then StripFences(s[|Fence|..])
    else [s[0]] + StripFences(s[1..])
  }

  /**
   * Step 2, the anchored pattern "<html>", or "html" or "HTML" followed by
   * any whitespace, replaced by nothing: without the `m` flag at most one
   * token at the very start is removed, and the whitespace after the word
   * goes with it.
   */
  function StripLeadingTag(s: string): string {
    if StartsWith(s, "<html>") then s[6..]
    else if StartsWith(s, "html") || StartsWith(s, "HTML") then TrimStart(s[4..])
    else s
  }

  predicate IsBreakChar(c: char) {
    c == '\r' || c == '\n'
  }

  /** The length of the line break `\r?\n` at the front of `s`, or 0 when `s` starts with none. */
  function BreakLen(s: string): (n: nat)
    ensures n <= |s|
    ensures n > 0 ==> s[n - 1] == '\n' && (n == 2 ==> s[0] == '\r')
    ensures n == 0 <==> !StartsWith(s, "\n") && !StartsWith(s, "\r\n")
  {
    if StartsWith(s, "\r\n") then 2 else if StartsWith(s, "\n") then 1 else 0
  }

  /**
   * The greedy run `(\r?\n)*` at the front of `s`: how many characters it
   * covers and how many line breaks it holds.
   */
  function BreakRun(s: string): (r: (nat, nat))
    ensures r.1 <= r.0 <= |s|
    ensures (r.0 == 0) == (r.1 == 0) == (BreakLen(s) == 0)
    ensures forall i :: 0 <= i < r.0 ==> IsBreakChar(s[i])
    ensures BreakLen(s[r.0..]) == 0
    decreases |s|
  {
    var n := BreakLen(s);
    if n == 0 then (0, 0)
    else
      var r := BreakRun(s[n..]);
      BreakRunGlue(s, n, s[n..], r.0);
      (n + r.0, 1 + r.1)
  }

  /** The line break at the front and the run after it make one run. */
  lemma BreakRunGlue(s: string, n: nat, t: string, k: nat)
    requires 0 < n == BreakLen(s) && t == s[n..] && k <= |t|
    requires forall i :: 0 <= i < k ==> IsBreakChar(t[i])
    ensures t[k..] == s[n + k..]
    ensures forall i :: 0 <= i < n + k ==> IsBreakChar(s[i])
  {
    forall i | 0 <= i < n + k
      ensures IsBreakChar(s[i])
    {
      if i >= n {
        assert s[i] == t[i - n];
      }
    }
  }

  /**
   * Step 4, `replace(/(\r?\n){2,}/g, '\n')`: a run of two or more line breaks
   * becomes one "\n"; anything else is kept one character at a time.
   */
  function CollapseBreaks(s: string): string
    decreases |s|
  {
    if s == [] then []
    else
      var run := BreakRun(s);
      if run.1 >= 2 then "\n" + CollapseBreaks(s[run.0..])
      else [s[0]] + CollapseBreaks(s[1..])
  }

  /** `cleanHtml`: fences removed, one leading wrapper token removed, trimmed, blank lines collapsed. */
  function CleanHtml(raw: string): string {
    CollapseBreaks(Trim(StripLeadingTag(StripFences(raw))))
  }

  /** No two line feeds are adjacent. */
  predicate NoBlankLine(s: string) {
    forall i :: 0 <= i < |s| - 1 ==> !(s[i] == '\n' && s[i + 1] == '\n')
  }

  // ---------------------------------------------------------------------------
  // Step 1: no fence survives.

  lemma StripFencesBacktickHead(u: string)
    requires StripFences(u) != [] && StripFences(u)[0] == '`'
    ensures u != [] && u[0] == '`'
  {
  }

  lemma StripFencesDoubleHead(u: string)
    requires StartsWith(StripFences(u), "``")
    ensures StartsWith(u, "``")
  {
    StripFencesBacktickHead(u);
    if !StartsWith(u, Fence) {
      var rest := StripFences(u[1..]);
      assert StripFences(u) == [u[0]] + rest;
      assert StripFences(u)[1] == '`';
      assert rest != [] && rest[0] == '`';
      StripFencesBacktickHead(u[1..]);
    }
  }

  /** After step 1 the text contains no "```" at all. */
  lemma {:induction false} StripFencesRemovesAll(s: string)
    ensures !Contains(StripFences(s), Fence)
    decreases |s|
  {
    if s == [] {
    } else if StartsWith(s, HtmlFence) {
      StripFencesRemovesAll(s[|HtmlFence|..]);
    } else if StartsWith(s, Fence) {
      StripFencesRemovesAll(s[|Fence|..]);
    } else {
      var rest := StripFences(s[1..]);
      StripFencesRemovesAll(s[1..]);
      ContainsCons(s[0], rest, Fence);
      if s[0] == '`' {
        if |s| >= 3 {
          assert s[..3] == [s[0]] + s[1..][..2];
        }
        StripFencesNoDoubleHead(s[1..]);
        assert |rest| < 2 || rest[..2] != "``";
      }
      assert !StartsWith([s[0]] + rest, Fence);
    }
  }

  lemma StripFencesNoDoubleHead(u: string)
    requires !StartsWith(u, "``")
    ensures !StartsWith(StripFences(u), "``")
  {
    if StartsWith(StripFences(u), "``") {
      StripFencesDoubleHead(u);
    }
  }

  /** Text without backticks passes step 1 untouched, whatever follows it. */
  lemma {:induction false} StripFencesPlain(t: string, u: string)
    requires NoBacktick(t)
    ensures StripFences(t + u) == t + StripFences(u)
    decreases |t|
  {
    if t == [] {
      assert t + u == u;
    } else {
      var s := t + u;
      assert s[0] == t[0] != '`';
      assert !StartsWith(s, HtmlFence) && !StartsWith(s, Fence);
      assert s[1..] == t[1..] + u;
      assert StripFences(s) == [t[0]] + StripFences(t[1..] + u);
      StripFencesPlain(t[1..], u);
      calc {
        StripFences(t + u);
        [t[0]] + StripFences(t[1..] + u);
        [t[0]] + (t[1..] + StripFences(u));
        ([t[0]] + t[1..]) + StripFences(u);
        { assert [t[0]] + t[1..] == t; }
        t + StripFences(u);
      }
    }
  }

  /** A fenced block loses its two fences and keeps the text between them exactly. */
  lemma StripFencesBlock(t: string)
    requires NoBacktick(t)
    ensures StripFences(HtmlFence + t + Fence) == t
  {
    assert (HtmlFence + t + Fence)[|HtmlFence|..] == t + Fence;
    StripFencesPlain(t, Fence);
    assert StripFences(Fence) == StripFences([]);
  }

  /** The fences of a block are the only thing step 1 takes out: the cleaner treats the block as its body. */
  lemma CleanHtmlOfFencedBlock(t: string)
    requires NoBacktick(t)
    ensures CleanHtml(HtmlFence + t + Fence) == CleanHtml(t)
  {
    StripFencesBlock(t);
    StripFencesPlain(t, []);
    assert t + [] == t;
  }

  // ---------------------------------------------------------------------------
  // Step 4: what collapsing keeps.

  lemma CollapseKeepsHead(s: string)
    requires s != [] && !IsBreakChar(s[0])
    ensures CollapseBreaks(s) == [s[0]] + CollapseBreaks(s[1..])
  {
    assert BreakLen(s) == 0;
  }

  lemma CollapseHead(s: string)
    requires CollapseBreaks(s) != []
    ensures s != []
    ensures CollapseBreaks(s)[0] == '\n' ==> BreakLen(s) > 0
    ensures CollapseBreaks(s)[0] != '\n' ==> CollapseBreaks(s)[0] == s[0]
  {
  }

  /** Collapsing leaves no two adjacent line feeds. */
  lemma {:induction false} CollapseNoBlankLine(s: string)
    ensures NoBlankLine(CollapseBreaks(s))
    decreases |s|
  {
    if s != [] {
      var run := BreakRun(s);
      CollapseStep(s);
      if run.1 >= 2 {
        var rest := CollapseBreaks(s[run.0..]);
        CollapseNoBlankLine(s[run.0..]);
        if rest != [] {
          CollapseHead(s[run.0..]);
        }
        NoBlankLineCons('\n', rest);
      } else {
        var rest := CollapseBreaks(s[1..]);
        CollapseNoBlankLine(s[1..]);
        if s[0] == '\n' {
          SingleBreakNext(s);
          if rest != [] {
            CollapseHead(s[1..]);
          }
        }
        NoBlankLineCons(s[0], rest);
      }
    }
  }

  lemma NoBlankLineCons(c: char, rest: string)
    requires NoBlankLine(rest)
    requires c == '\n' && rest != [] ==> rest[0] != '\n'
    ensures NoBlankLine([c] + rest)
  {
    var t := [c] + rest;
    forall i | 1 <= i < |t| ensures t[i] == rest[i - 1] {
    }
  }

  /** A lone "\n" at the front is not followed by another line break. */
  lemma SingleBreakNext(s: string)
    requires s != [] && s[0] == '\n' && BreakRun(s).1 < 2
    ensures BreakLen(s[1..]) == 0
  {
    assert !StartsWith(s, "\r\n");
    assert s[..1] == "\n";
    assert BreakLen(s) == 1;
  }

  /** A collapsed text that starts with a backtick starts with the input's own first character. */
  lemma CollapseBacktickHead(u: string)
    requires CollapseBreaks(u) != [] && CollapseBreaks(u)[0] == '`'
    ensures u != [] && u[0] == '`'
    ensures CollapseBreaks(u) == [u[0]] + CollapseBreaks(u[1..])
  {
    CollapseHead(u);
    CollapseKeepsHead(u);
  }

  /** A "```" at the front of a kept character and the collapsed rest was a "```" in the input. */
  lemma CollapseFenceAtHead(s: string)
    requires s != [] && s[0] == '`'
    requires StartsWith([s[0]] + CollapseBreaks(s[1..]), Fence)
    ensures StartsWith(s, Fence)
  {
    var u := s[1..];
    var rest := CollapseBreaks(u);
    TicksAfterHead(s[0], rest);
    CollapseBacktickHead(u);
    var v := u[1..];
    SecondOfCons(u[0], CollapseBreaks(v), rest);
    CollapseBacktickHead(v);
    FenceOfTicks(s, u, v);
  }

  lemma TicksAfterHead(c: char, rest: string)
    requires StartsWith([c] + rest, Fence)
    ensures |rest| >= 2 && rest[0] == '`' && rest[1] == '`'
  {
    var x := [c] + rest;
    assert x[1] == x[..3][1] && x[2] == x[..3][2];
  }

  lemma SecondOfCons(c: char, r: string, rest: string)
    requires rest == [c] + r && |rest| >= 2
    ensures r != [] && r[0] == rest[1]
  {
  }

  lemma FenceOfTicks(s: string, u: string, v: string)
    requires s != [] && u == s[1..] && u != [] && v == u[1..] && v != []
    requires s[0] == '`' && u[0] == '`' && v[0] == '`'
    ensures StartsWith(s, Fence)
  {
    assert s[..3] == [s[0], u[0], v[0]];
  }

  lemma ContainsSuffix(s: string, k: nat, p: string)
    requires k <= |s| && Contains(s[k..], p)
    ensures Contains(s, p)
  {
    assert s[k..] == s[k..|s|];
    ContainsSlice(s, k, |s|, p);
  }

  /** Collapsing never creates a fence: a "```" after it was already there before. */
  lemma {:induction false} CollapseKeepsNoFence(s: string)
    requires !Contains(s, Fence)
    ensures !Contains(CollapseBreaks(s), Fence)
    decreases |s|
  {
    if s != [] {
      var run := BreakRun(s);
      if run.1 >= 2 {
        var rest := CollapseBreaks(s[run.0..]);
        if Contains(s[run.0..], Fence) {
          ContainsSuffix(s, run.0, Fence);
        }
        CollapseKeepsNoFence(s[run.0..]);
        assert CollapseBreaks(s) == ['\n'] + rest;
        ContainsCons('\n', rest, Fence);
        assert !StartsWith(['\n'] + rest, Fence) by {
          assert Fence[0] == '`';
        }
      } else {
        var rest := CollapseBreaks(s[1..]);
        if Contains(s[1..], Fence) {
          ContainsSuffix(s, 1, Fence);
        }
        CollapseKeepsNoFence(s[1..]);
        assert CollapseBreaks(s) == [s[0]] + rest;
        ContainsCons(s[0], rest, Fence);
        if StartsWith([s[0]] + rest, Fence) {
          assert s[0] == Fence[0];
          CollapseFenceAtHead(s);
          assert OccursAt(s, Fence, 0);
          assert false;
        }
      }
    }
  }

  /** When `s` ends in a character other than a line break, so does its collapsed form. */
  lemma {:induction false} CollapseKeepsLast(s: string)
    requires s != [] && !IsBreakChar(s[|s| - 1])
    ensures CollapseBreaks(s) != []
    ensures CollapseBreaks(s)[|CollapseBreaks(s)| - 1] == s[|s| - 1]
    decreases |s|
  {
    var k, head := CollapseSplit(s);
    if k < |s| {
      var t := s[k..];
      assert t[|t| - 1] == s[|s| - 1];
      CollapseKeepsLast(t);
      LastOfAppend(head, CollapseBreaks(t));
    } else {
      assert CollapseBreaks(s[k..]) == [];
    }
  }

  /** Step 4 emits one character for the front of `s` and goes on after `k` characters. */
  lemma CollapseSplit(s: string) returns (k: nat, head: string)
    requires s != [] && !IsBreakChar(s[|s| - 1])
    ensures 1 <= k <= |s| && |head| == 1
    ensures CollapseBreaks(s) == head + CollapseBreaks(s[k..])
    ensures k == |s| ==> head == [s[|s| - 1]]
  {
    var run := BreakRun(s);
    CollapseStep(s);
    if run.1 >= 2 {
      k, head := run.0, "\n";
    } else {
      k, head := 1, [s[0]];
    }
  }

  /** One step of step 4: a long run becomes "\n", anything else keeps its first character. */
  lemma CollapseStep(s: string)
    requires s != []
    ensures var run := BreakRun(s);
      && (run.1 >= 2 ==> run.0 >= 1 && CollapseBreaks(s) == "\n" + CollapseBreaks(s[run.0..]))
      && (run.1 < 2 ==> CollapseBreaks(s) == [s[0]] + CollapseBreaks(s[1..]))
      && (run.1 >= 2 && !IsBreakChar(s[|s| - 1]) ==> run.0 < |s|)
  {
  }

  lemma LastOfAppend(a: string, b: string)
    requires b != []
    ensures (a + b)[|a + b| - 1] == b[|b| - 1]
  {
  }

  /** Text without line breaks is not changed by step 4. */
  lemma {:induction false} CollapseNoBreaks(s: string)
    requires forall i :: 0 <= i < |s| ==> !IsBreakChar(s[i])
    ensures CollapseBreaks(s) == s
    decreases |s|
  {
    if s != [] {
      CollapseKeepsHead(s);
      CollapseNoBreaks(s[1..]);
    }
  }

  /** Text without line breaks in front of `z` passes through step 4 unchanged. */
  lemma {:induction false} CollapsePlainPrefix(x: string, z: string)
    requires forall i :: 0 <= i < |x| ==> !IsBreakChar(x[i])
    ensures CollapseBreaks(x + z) == x + CollapseBreaks(z)
    decreases |x|
  {
    if x == [] {
      assert x + z == z;
    } else {
      CollapsePlainPrefix(x[1..], z);
      CollapsePlainStep(x, z, x[1..]);
    }
  }

  lemma CollapsePlainStep(x: string, z: string, t: string)
    requires x != [] && !IsBreakChar(x[0]) && t == x[1..]
    requires CollapseBreaks(t + z) == t + CollapseBreaks(z)
    ensures CollapseBreaks(x + z) == x + CollapseBreaks(z)
  {
    DropOfAppend(x, z, 1);
    assert (x + z)[0] == x[0];
    CollapseKeepsHead(x + z);
    ConsAppend(x[0], t, x, CollapseBreaks(z));
  }

  /** Dropping part of the front of a concatenation. */
  lemma DropOfAppend(w: string, y: string, n: nat)
    requires n <= |w|
    ensures (w + y)[n..] == w[n..] + y
  {
  }

  lemma DropAll(w: string, y: string)
    ensures (w + y)[|w|..] == y
  {
  }

  lemma ConsAppend(c: char, t: string, x: string, z: string)
    requires x == [c] + t
    ensures [c] + (t + z) == x + z
  {
  }

  /** A whole run of line breaks followed by text that starts with none is the same run. */
  lemma {:induction false} BreakRunAppend(w: string, y: string)
    requires BreakRun(w).0 == |w| && BreakLen(y) == 0
    ensures BreakRun(w + y).0 == |w| && BreakRun(w + y).1 == BreakRun(w).1
    decreases |w|
  {
    if w == [] {
      assert w + y == y;
    } else {
      var n := BreakLen(w);
      BreakRunUnfold(w, n);
      BreakRunAppend(w[n..], y);
      BreakRunAppendStep(w, y, n, w[n..]);
    }
  }

  lemma BreakRunAppendStep(w: string, y: string, n: nat, u: string)
    requires n == BreakLen(w) > 0 && u == w[n..]
    requires BreakRun(u + y).0 == |u| && BreakRun(u + y).1 == BreakRun(u).1
    ensures BreakRun(w + y).0 == n + |u| && BreakRun(w + y).1 == BreakRun(w).1
  {
    BreakLenAppend(w, y);
    DropOfAppend(w, y, n);
    BreakRunUnfold(w, n);
    BreakRunUnfold(w + y, n);
  }

  /** One step of the run: the first line break, then the run after it. */
  lemma BreakRunUnfold(s: string, n: nat)
    requires n == BreakLen(s) > 0
    ensures BreakRun(s).0 == n + BreakRun(s[n..]).0
    ensures BreakRun(s).1 == 1 + BreakRun(s[n..]).1
  {
  }

  /** A line break at the front of `w` stays the same when text follows. */
  lemma BreakLenAppend(w: string, y: string)
    requires BreakLen(w) > 0
    ensures BreakLen(w + y) == BreakLen(w)
  {
    var n := BreakLen(w);
    assert (w + y)[..n] == w[..n];
    if n == 1 {
      assert (w + y)[0] == w[0] == '\n';
    }
  }

  /** A run of two or more line breaks, followed by text that starts with none, becomes one "\n". */
  lemma CollapseLongRun(w: string, y: string)
    requires BreakRun(w).0 == |w| && BreakRun(w).1 >= 2 && BreakLen(y) == 0
    ensures CollapseBreaks(w + y) == "\n" + CollapseBreaks(y)
  {
    BreakRunAppend(w, y);
    CollapseStep(w + y);
    DropAll(w, y);
  }

  /** A lone line break, "\n" or "\r\n", followed by text that starts with none, is kept as it is. */
  lemma CollapseLoneBreak(b: string, y: string)
    requires b == "\n" || b == "\r\n"
    requires BreakLen(y) == 0
    ensures CollapseBreaks(b + y) == b + CollapseBreaks(y)
    decreases |b|
  {
    LoneBreakRun(b);
    BreakRunAppend(b, y);
    CollapseStep(b + y);
    DropOfAppend(b, y, 1);
    if b == "\r\n" {
      assert b[1..] == "\n";
      CollapseLoneBreak("\n", y);
      ConsAppend(b[0], "\n", b, CollapseBreaks(y));
    } else {
      assert b[1..] == [];
      ConsAppend(b[0], [], b, CollapseBreaks(y));
    }
  }

  /**
   * A "\n" that stands before a lone '\r' is not part of a run, so the
   * collapsed text can still hold "\n" followed by "\r\n": two line breaks
   * in a row, though never two adjacent line feeds.
   */
  lemma CollapseMayKeepBreakPair(two: string, tail: string)
    requires |two| == 2 && two[0] == '\n' && two[1] == '\n'
    requires |tail| == 4 && tail[0] == '\r' && tail[1] == '\r' && tail[2] == '\n' && tail[3] == '\n'
    ensures CollapseBreaks(two + tail) == "\n\r\n"
    ensures BreakRun(CollapseBreaks(two + tail)).0 == 3 && BreakRun(CollapseBreaks(two + tail)).1 == 2
  {
    LfPairRun(two);
    CollapseLoneReturn(tail);
    CollapseLongRun(two, tail);
    BreakPairRun(CollapseBreaks(two + tail));
  }

  /** "\n\n" is one run of two line breaks. */
  lemma LfPairRun(w: string)
    requires |w| == 2 && w[0] == '\n' && w[1] == '\n'
    ensures BreakRun(w).0 == 2 && BreakRun(w).1 == 2
  {
    var lf := w[1..];
    assert BreakLen(w) == 1;
    BreakRunUnfold(w, 1);
    assert lf == "\n";
    LoneBreakRun(lf);
  }

  /** A '\r' that does not start "\r\n" is kept, and the run after it becomes "\n". */
  lemma CollapseLoneReturn(t: string)
    requires |t| == 4 && t[0] == '\r' && t[1] == '\r' && t[2] == '\n' && t[3] == '\n'
    ensures BreakLen(t) == 0 && CollapseBreaks(t) == "\r\n"
  {
    CollapseStep(t);
    CollapseRunAtEnd(t[1..]);
  }

  /** "\n\r\n" is one run of two line breaks. */
  lemma BreakPairRun(r: string)
    requires r == "\n\r\n"
    ensures BreakRun(r).0 == 3 && BreakRun(r).1 == 2
  {
    var lf, crlf: string := "\n", "\r\n";
    assert r == lf + crlf;
    BreakLenAppend(lf, crlf);
    BreakRunUnfold(r, 1);
    assert r[1..] == crlf;
    LoneBreakRun(crlf);
  }

  /** "\r\n\n", two line breaks at the end of the text, becomes one "\n". */
  lemma CollapseRunAtEnd(w: string)
    requires |w| == 3 && w[0] == '\r' && w[1] == '\n' && w[2] == '\n'
    ensures CollapseBreaks(w) == "\n"
  {
    var crlf, lf := w[..2], w[2..];
    assert crlf == "\r\n" && lf == "\n";
    LoneBreakRun(crlf);
    LoneBreakRun(lf);
    BreakLenAppend(crlf, lf);
    assert w == crlf + lf;
    BreakRunUnfold(w, 2);
    CollapseLongRun(w, []);
    assert w + [] == w;
  }

  /** "\n" and "\r\n" are each a run of one line break. */
  lemma LoneBreakRun(b: string)
    requires b == "\n" || b == "\r\n"
    ensures BreakRun(b).0 == |b| && BreakRun(b).1 == 1
  {
    assert BreakLen(b) == |b|;
    EmptyRun(b);
    BreakRunUnfold(b, |b|);
  }

  lemma EmptyRun(b: string)
    ensures BreakRun(b[|b|..]).0 == 0 && BreakRun(b[|b|..]).1 == 0
  {
    assert b[|b|..] == [];
  }

  /** Removing every '\r' and '\n' from a string. */
  function Unbroken(s: string): (r: string)
    ensures |r| <= |s|
  {
    if s == [] then []
    else if IsBreakChar(s[0]) then Unbroken(s[1..])
    else [s[0]] + Unbroken(s[1..])
  }

  lemma {:induction false} UnbrokenAppend(a: string, b: string)
    ensures Unbroken(a + b) == Unbroken(a) + Unbroken(b)
    decreases |a|
  {
    if a == [] {
      assert a + b == b;
    } else {
      var s := a + b;
      assert s[0] == a[0];
      assert s[1..] == a[1..] + b;
      UnbrokenAppend(a[1..], b);
      if IsBreakChar(a[0]) {
        assert Unbroken(s) == Unbroken(a[1..] + b);
      } else {
        assert Unbroken(s) == [a[0]] + Unbroken(a[1..] + b);
      }
    }
  }

  lemma {:induction false} UnbrokenOfBreaks(s: string)
    requires forall i :: 0 <= i < |s| ==> IsBreakChar(s[i])
    ensures Unbroken(s) == []
    decreases |s|
  {
    if s != [] {
      UnbrokenOfBreaks(s[1..]);
    }
  }

  /** A prefix made of line breaks contributes nothing once line breaks are removed. */
  lemma {:induction false} UnbrokenSkipsBreaks(s: string, n: nat)
    requires n <= |s|
    requires forall i :: 0 <= i < n ==> IsBreakChar(s[i])
    ensures Unbroken(s) == Unbroken(s[n..])
    decreases n
  {
    if n > 0 {
      assert s[1..][n - 1..] == s[n..];
      UnbrokenSkipsBreaks(s[1..], n - 1);
    }
  }

  /** Step 4 only touches line breaks: every other character survives, in order. */
  lemma {:induction false} CollapseKeepsText(s: string)
    ensures Unbroken(CollapseBreaks(s)) == Unbroken(s)
    decreases |s|
  {
    if s != [] {
      var run := BreakRun(s);
      if run.1 >= 2 {
        var t := s[run.0..];
        var rest := CollapseBreaks(t);
        var r := "\n" + rest;
        assert CollapseBreaks(s) == r;
        assert r[1..] == rest;
        assert Unbroken(r) == Unbroken(rest);
        CollapseKeepsText(t);
        UnbrokenSkipsBreaks(s, run.0);
      } else {
        var t := s[1..];
        var rest := CollapseBreaks(t);
        var r := [s[0]] + rest;
        assert CollapseBreaks(s) == r;
        assert r[1..] == rest;
        CollapseKeepsText(t);
      }
    }
  }

  // ---------------------------------------------------------------------------
  // The whole cleaner.

  /** Step 2 only removes a prefix. */
  lemma StripLeadingTagIsSuffix(s: string)
    ensures var r := StripLeadingTag(s); |r| <= |s| && r == s[|s| - |r|..]
  {
    if !StartsWith(s, "<html>") && (StartsWith(s, "html") || StartsWith(s, "HTML")) {
      var k := TrimStartSplit(s, 4);
    }
  }

  lemma StripLeadingTagKeepsNoFence(s: string)
    requires !Contains(s, Fence)
    ensures !Contains(StripLeadingTag(s), Fence)
  {
    var r := StripLeadingTag(s);
    StripLeadingTagIsSuffix(s);
    assert s[|s| - |r|..|s|] == r;
    if Contains(r, Fence) {
      ContainsSlice(s, |s| - |r|, |s|, Fence);
    }
  }

  lemma TrimKeepsNoFence(s: string)
    requires !Contains(s, Fence)
    ensures !Contains(Trim(s), Fence)
  {
    TrimIsInfix(s);
    var a, b :| 0 <= a <= b <= |s| && Trim(s) == s[a..b] && AllSpace(s[..a]) && AllSpace(s[b..]);
    if Contains(Trim(s), Fence) {
      ContainsSlice(s, a, b, Fence);
    }
  }

  /**
   * What `cleanHtml` guarantees: no "```" remains, the result neither starts
   * nor ends with whitespace, and no two line feeds are adjacent.
   */
  lemma CleanHtmlShape(raw: string)
    ensures !Contains(CleanHtml(raw), Fence)
    ensures var r := CleanHtml(raw); r == [] || (!IsSpace(r[0]) && !IsSpace(r[|r| - 1]))
    ensures NoBlankLine(CleanHtml(raw))
  {
    var s1 := StripFences(raw);
    StripFencesRemovesAll(raw);
    var s2 := StripLeadingTag(s1);
    StripLeadingTagKeepsNoFence(s1);
    var s3 := Trim(s2);
    TrimKeepsNoFence(s2);
    CollapseKeepsNoFence(s3);
    CollapseNoBlankLine(s3);
    if s3 != [] {
      CollapseKeepsHead(s3);
      CollapseKeepsLast(s3);
    }
  }

  lemma StripFencesNoBacktick(t: string)
    requires NoBacktick(t)
    ensures StripFences(t) == t
  {
    StripFencesPlain(t, []);
    assert t + [] == t;
  }

  /**
   * The effect of step 2: a leading "<html>" is dropped; otherwise a leading
   * "html" or "HTML" is dropped together with all the whitespace after it,
   * so what is left is a suffix that does not start with whitespace;
   * any other text is kept.
   */
  lemma StripLeadingTagEffect(s: string)
    ensures StartsWith(s, "<html>") ==> StripLeadingTag(s) == s[6..]
    ensures StartsWith(s, "html") || StartsWith(s, "HTML") ==>
      exists k :: 4 <= k <= |s| && AllSpace(s[4..k]) && StripLeadingTag(s) == s[k..] &&
        (k < |s| ==> !IsSpace(s[k]))
    ensures !StartsWith(s, "<html>") && !StartsWith(s, "html") && !StartsWith(s, "HTML") ==>
      StripLeadingTag(s) == s
  {
    if StartsWith(s, "html") || StartsWith(s, "HTML") {
      assert s[0] == s[..4][0];
      assert !StartsWith(s, "<html>") by { assert s[0] != '<'; }
      var k := TrimStartSplit(s, 4);
    }
  }

  /** Trimming the start of `s[n..]` skips whitespace up to some `k` and keeps `s[k..]`. */
  lemma TrimStartSplit(s: string, n: nat) returns (k: nat)
    requires n <= |s|
    ensures n <= k <= |s| && k == |s| - |TrimStart(s[n..])|
    ensures AllSpace(s[n..k]) && TrimStart(s[n..]) == s[k..]
    ensures k < |s| ==> !IsSpace(s[k])
  {
    var x := s[n..];
    var r := TrimStart(x);
    k := |s| - |r|;
    assert x[..k - n] == s[n..k];
    assert x[k - n..] == s[k..];
    assert k < |s| ==> s[k] == r[0];
  }

  lemma StripLeadingWord(t: string)
    requires StartsWith(t, "html")
    ensures StripLeadingTag(t) == TrimStart(t[4..])
  {
    assert t[..4] == "html";
    assert t[0] == 'h';
    assert !StartsWith(t, "<html>");
  }

  /** Trimming never brings in a line break. */
  lemma TrimKeepsNoBreaks(s: string)
    requires forall i :: 0 <= i < |s| ==> !IsBreakChar(s[i])
    ensures forall i :: 0 <= i < |Trim(s)| ==> !IsBreakChar(Trim(s)[i])
  {
    TrimIsInfix(s);
    var a, b :| 0 <= a <= b <= |s| && Trim(s) == s[a..b];
    forall i | 0 <= i < b - a ensures !IsBreakChar(s[a..b][i]) {
      assert s[a..b][i] == s[a + i];
    }
  }

  /** A plain text reaches step 2 unchanged and loses its leading "html" there. */
  lemma CleanHtmlLeadingWordSteps(t: string)
    requires NoBacktick(t) && StartsWith(t, "html")
    requires forall i :: 0 <= i < |t| ==> !IsBreakChar(t[i])
    ensures CleanHtml(t) == Trim(TrimStart(t[4..]))
  {
    StripFencesNoBacktick(t);
    StripLeadingWord(t);
    var u := TrimStart(t[4..]);
    var k := TrimStartSplit(t, 4);
    forall i | 0 <= i < |u| ensures !IsBreakChar(u[i]) {
      assert u[i] == t[k + i];
    }
    TrimKeepsNoBreaks(u);
    CollapseNoBreaks(Trim(u));
  }

  lemma TrimAfterWord(x: string, t: string)
    requires x != [] && !IsSpace(x[0]) && !IsSpace(x[|x| - 1])
    requires t == "html " + x
    ensures Trim(TrimStart(t[4..])) == x
  {
    assert t[4..] == " " + x;
    assert (" " + x)[1..] == x;
    TrimOfTrimmed(x);
  }

  /** Putting "html " in front of a plain text keeps it plain. */
  lemma WordPrefixPlain(x: string)
    requires NoBacktick(x) && forall i :: 0 <= i < |x| ==> !IsBreakChar(x[i])
    ensures var t := "html " + x; NoBacktick(t) && (forall i :: 0 <= i < |t| ==> !IsBreakChar(t[i]))
    ensures x != [] ==> ("html " + x)[|"html " + x| - 1] == x[|x| - 1]
  {
    var t := "html " + x;
    forall i | 5 <= i < |t| ensures t[i] == x[i - 5] {
    }
  }

  /** Of a plain text after the word "html" and a space, the cleaner keeps exactly the text. */
  lemma CleanHtmlDropsLeadingWord(x: string)
    requires x != [] && NoBacktick(x) && !IsSpace(x[0]) && !IsSpace(x[|x| - 1])
    requires forall i :: 0 <= i < |x| ==> !IsBreakChar(x[i])
    ensures CleanHtml("html " + x) == x
  {
    var t := "html " + x;
    WordPrefixPlain(x);
    assert t[..4] == "html";
    CleanHtmlLeadingWordSteps(t);
    TrimAfterWord(x, t);
  }

  lemma DoubleWord(x: string)
    ensures "html html " + x == "html " + ("html " + x)
  {
    assert "html html " == "html " + "html ";
  }

  /**
   * `cleanHtml` is not idempotent: only one leading "html" token is removed
   * per call, so of "html html x" the first call leaves "html x" and the
   * second call "x".
   */
  lemma CleanHtmlNotIdempotent(x: string)
    requires x != [] && NoBacktick(x) && !IsSpace(x[0]) && !IsSpace(x[|x| - 1])
    requires forall i :: 0 <= i < |x| ==> !IsBreakChar(x[i])
    ensures CleanHtml("html html " + x) == "html " + x
    ensures CleanHtml(CleanHtml("html html " + x)) == x
  {
    var once := "html " + x;
    CleanHtmlDropsLeadingWord(x);
    WordPrefixPlain(x);
    DoubleWord(x);
    CleanHtmlDropsLeadingWord(once);
  }
}
