/**
 The output-line cleaner: one left-to-right pass of Python's `re.sub` with the pattern
 `(\x1b\[[0-?]*[ -/]*[@-~])|(\t\s*)` and an empty replacement.

 At each position the first alternative is tried, then the second; a match is deleted
 and scanning resumes after it; otherwise the character is kept. The three character
 classes of the escape alternative (parameter bytes 0x30-0x3F, intermediate bytes
 0x20-0x2F, final bytes 0x40-0x7E) are pairwise disjoint, so backtracking inside the
 greedy repetitions can never produce a match the greedy reading misses: the escape
 alternative matches exactly when the longest parameter run, then the longest
 intermediate run, is followed by a final byte.
 */
module Ansi {
  import opened Strings

  const Esc: char := '\U{1B}'

  predicate IsParameterByte(c: char) { '0' <= c <= '?' }
  predicate IsIntermediateByte(c: char) { ' ' <= c <= '/' }
  predicate IsFinalByte(c: char) { '@' <= c <= '~' }

  /** Length of the longest prefix of `s` whose characters all satisfy `p`. */
  function RunLength(s: string, p: char -> bool): (n: nat)
    ensures n <= |s|
    ensures forall i :: 0 <= i < n ==> p(s[i])
    ensures n == |s| || !p(s[n])
  {
    if |s| > 0 && p(s[0]) then 1 + RunLength(s[1..], p) else 0
  }

  /** Length of the control sequence `ESC [ params* intermediates* final` at the start
      of `s`, or 0 when `s` does not start with one. */
  function CsiLength(s: string): (n: nat)
    ensures n <= |s|
    ensures n > 0 ==> n >= 3 && s[0] == Esc && s[1] == '[' && IsFinalByte(s[n - 1])
    ensures |s| == 0 || s[0] != Esc ==> n == 0
  {
    if |s| >= 2 && s[0] == Esc && s[1] == '[' then
      var a := 2 + RunLength(s[2..], IsParameterByte);
      var b := a + RunLength(s[a..], IsIntermediateByte);
      if b < |s| && IsFinalByte(s[b]) then b + 1 else 0
    else 0
  }

  /** Length of the match of `\t\s*` at the start of `s`, or 0. */
  function TabRunLength(s: string): (n: nat)
    ensures n <= |s|
    ensures n > 0 <==> |s| > 0 && s[0] == '\t'
  {
    if |s| > 0 && s[0] == '\t' then 1 + RunLength(s[1..], IsSpace) else 0
  }

  /** `_remove_ansi_escape_and_tabs`: deletes every control sequence and every tab
      together with the whitespace that follows it. */
  function Clean(s: string): (r: string)
    ensures |r| <= |s|
    ensures '\t' !in r
    ensures Esc !in s && '\t' !in s ==> r == s
    decreases |s|
  {
    if |s| == 0 then ""
    else if CsiLength(s) > 0 then Clean(s[CsiLength(s)..])
    else if s[0] == '\t' then Clean(s[TabRunLength(s)..])
    else [s[0]] + Clean(s[1..])
  }

  /** The control sequence `ESC [ params intermediates final`. */
  function Csi(params: string, intermediates: string, final: char): string {
    [Esc, '['] + params + intermediates + [final]
  }

  predicate IsCsiParts(params: string, intermediates: string, final: char) {
    && (forall i :: 0 <= i < |params| ==> IsParameterByte(params[i]))
    && (forall i :: 0 <= i < |intermediates| ==> IsIntermediateByte(intermediates[i]))
    && IsFinalByte(final)
  }

  lemma {:induction false} RunLengthOfPrefix(pre: string, rest: string, p: char -> bool)
    requires forall i :: 0 <= i < |pre| ==> p(pre[i])
    requires |rest| > 0 && !p(rest[0])
    ensures RunLength(pre + rest, p) == |pre|
  {
    if |pre| > 0 {
      assert (pre + rest)[1..] == pre[1..] + rest;
      RunLengthOfPrefix(pre[1..], rest, p);
    } else {
      assert pre + rest == rest;
    }
  }

  /** A control sequence at the front of a line is recognised in full. */
  lemma CsiLengthOfCsi(params: string, intermediates: string, final: char, s: string)
    requires IsCsiParts(params, intermediates, final)
    ensures CsiLength(Csi(params, intermediates, final) + s) == |Csi(params, intermediates, final)|
  {
    var x := Csi(params, intermediates, final) + s;
    assert x[2..] == params + (intermediates + [final] + s);
    RunLengthOfPrefix(params, intermediates + [final] + s, IsParameterByte);
    var a := 2 + |params|;
    assert x[a..] == intermediates + ([final] + s);
    RunLengthOfPrefix(intermediates, [final] + s, IsIntermediateByte);
    assert x[a + |intermediates|] == final;
  }

  /** Cleaning deletes a control sequence at the front of the text. */
  lemma CleanSkipsCsi(params: string, intermediates: string, final: char, s: string)
    requires IsCsiParts(params, intermediates, final)
    ensures Clean(Csi(params, intermediates, final) + s) == Clean(s)
  {
    var csi := Csi(params, intermediates, final);
    CsiLengthOfCsi(params, intermediates, final, s);
    assert (csi + s)[|csi|..] == s;
  }

  /** Cleaning copies a prefix free of escapes and tabs and then carries on. */
  lemma {:induction false} CleanKeepsPlainPrefix(a: string, b: string)
    requires Esc !in a && '\t' !in a
    ensures Clean(a + b) == a + Clean(b)
  {
    if |a| > 0 {
      HeadTail(a, b);
      var rest := a[1..] + b;
      assert (a + b)[1..] == rest;
      assert a[0] in a;
      assert Esc !in a[1..] && '\t' !in a[1..] by {
        assert forall c :: c in a[1..] ==> c in a;
      }
      CleanKeepsPlainPrefix(a[1..], b);
      CleanPlainHead(a + b);
      HeadTail(a, Clean(b));
    } else {
      assert a + b == b;
    }
  }

  lemma HeadTail(a: string, t: string)
    requires |a| > 0
    ensures a + t == [a[0]] + (a[1..] + t)
    ensures (a + t)[1..] == a[1..] + t
  {
  }

  /** One ordinary character is copied. */
  lemma CleanPlainHead(x: string)
    requires |x| > 0 && x[0] != Esc && x[0] != '\t'
    ensures Clean(x) == [x[0]] + Clean(x[1..])
  {
  }

  /** A tab swallows the whitespace run after it. */
  lemma CleanSkipsTab(ws: string, b: string)
    requires AllIn(ws, Whitespace)
    requires |b| == 0 || !IsSpace(b[0])
    ensures Clean(['\t'] + ws + b) == Clean(b)
  {
    var x := ['\t'] + ws + b;
    assert x[1..] == ws + b;
    if |b| > 0 {
      RunLengthOfPrefix(ws, b, IsSpace);
    } else {
      assert ws + b == ws;
      assert RunLength(ws, IsSpace) == |ws| by { RunLengthAll(ws); }
    }
    assert x[1 + |ws|..] == b;
  }

  lemma {:induction false} RunLengthAll(ws: string)
    requires AllIn(ws, Whitespace)
    ensures RunLength(ws, IsSpace) == |ws|
  {
    if |ws| > 0 {
      RunLengthAll(ws[1..]);
    }
  }

  /** Cleaning leaves nothing of a text made of control sequences around plain text. */
  lemma CleanStripsNoise(p1: string, i1: string, f1: char, plain: string, p2: string, i2: string, f2: char)
    requires IsCsiParts(p1, i1, f1) && IsCsiParts(p2, i2, f2)
    requires Esc !in plain && '\t' !in plain
    ensures Clean(Csi(p1, i1, f1) + plain + Csi(p2, i2, f2)) == plain
  {
    var tail := Csi(p2, i2, f2);
    assert Csi(p1, i1, f1) + plain + tail == Csi(p1, i1, f1) + (plain + tail);
    CleanSkipsCsi(p1, i1, f1, plain + tail);
    CleanKeepsPlainPrefix(plain, tail);
    CleanSkipsCsi(p2, i2, f2, "");
    assert tail + "" == tail;
  }
}
