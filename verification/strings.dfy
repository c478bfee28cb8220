/**
 Python string primitives used by the player wrapper, written out over `seq<char>`:
 character-set stripping (`str.strip(chars)`), `str.find`, `str.split(sep)` with a
 one-character separator, `sep.join(parts)`, `in`, `startswith` and `endswith`.
 */
module Strings {

  /** The characters Python's `str.isspace()` accepts (tab through carriage return, the
      four information separators, space, NEL, no-break space and the Unicode space
      separators); `str.strip()` with no argument and the regular-expression class `\s`
      both use this set. */
  predicate IsSpace(c: char) {
    || ('\t' <= c <= '\r')
    || ('\U{1C}' <= c <= ' ')
    || c == '\U{85}' || c == '\U{A0}' || c == '\U{1680}'
    || ('\U{2000}' <= c <= '\U{200A}')
    || c == '\U{2028}' || c == '\U{2029}' || c == '\U{202F}' || c == '\U{205F}' || c == '\U{3000}'
  }

  const Whitespace: set<char> := set c: char | '\t' <= c <= '\U{3000}' && IsSpace(c)

  /** Every character of `s` belongs to `cs`. */
  predicate AllIn(s: string, cs: set<char>) {
    forall i :: 0 <= i < |s| ==> s[i] in cs
  }

  /** Number of occurrences of `c` in `s`. */
  function Count(s: string, c: char): nat {
    if |s| == 0 then 0 else (if s[0] == c then 1 else 0) + Count(s[1..], c)
  }

  /** `s.lstrip(chars)`: drops the longest prefix made only of characters in `cs`. */
  function StripLeft(s: string, cs: set<char>): (r: string)
    ensures |r| <= |s|
    ensures |r| == 0 || r[0] !in cs
  {
    if |s| > 0 && s[0] in cs then StripLeft(s[1..], cs) else s
  }

  /** `lstrip` keeps a suffix and what it drops consists of characters of the set only. */
  lemma {:induction false} StripLeftDrops(s: string, cs: set<char>)
    ensures StripLeft(s, cs) == s[|s| - |StripLeft(s, cs)|..]
    ensures AllIn(s[..|s| - |StripLeft(s, cs)|], cs)
  {
    if |s| > 0 && s[0] in cs {
      StripLeftDrops(s[1..], cs);
      var n := |s| - |StripLeft(s, cs)|;
      assert s[1..][n - 1..] == s[n..];
      assert s[..n] == [s[0]] + s[1..][..n - 1];
    }
  }

  /** `s.rstrip(chars)`: drops the longest suffix made only of characters in `cs`. */
  function StripRight(s: string, cs: set<char>): (r: string)
    ensures |r| <= |s|
    ensures |r| == 0 || r[|r| - 1] !in cs
  {
    if |s| > 0 && s[|s| - 1] in cs then StripRight(s[..|s| - 1], cs) else s
  }

  /** `rstrip` keeps a prefix and what it drops consists of characters of the set only. */
  lemma {:induction false} StripRightDrops(s: string, cs: set<char>)
    ensures StripRight(s, cs) == s[..|StripRight(s, cs)|]
    ensures AllIn(s[|StripRight(s, cs)|..], cs)
  {
    if |s| > 0 && s[|s| - 1] in cs {
      StripRightDrops(s[..|s| - 1], cs);
      var n := |StripRight(s, cs)|;
      assert s[..|s| - 1][..n] == s[..n];
      assert s[n..] == s[..|s| - 1][n..] + [s[|s| - 1]];
    }
  }

  /** `s.strip(chars)`: `chars` is a SET of characters removed from both ends, not a
      prefix or suffix. The result is the infix of `s` left after dropping such runs. */
  function Strip(s: string, cs: set<char>): (r: string)
    ensures |r| <= |s|
    ensures |r| == 0 || (r[0] !in cs && r[|r| - 1] !in cs)
  {
    StripRightDrops(StripLeft(s, cs), cs);
    StripRight(StripLeft(s, cs), cs)
  }

  /** A text whose first character is kept keeps it in front. */
  lemma StripKeepsHead(s: string, cs: set<char>)
    requires |s| > 0 && s[0] !in cs
    ensures |Strip(s, cs)| > 0 && Strip(s, cs)[0] == s[0]
  {
    assert StripLeft(s, cs) == s;
    StripRightDrops(s, cs);
  }

  /** The result of `strip` is the infix of the text at `i` framed by set-only runs. */
  lemma StripFrame(s: string, cs: set<char>) returns (i: nat)
    ensures i + |Strip(s, cs)| <= |s| && Strip(s, cs) == s[i..i + |Strip(s, cs)|]
    ensures AllIn(s[..i], cs) && AllIn(s[i + |Strip(s, cs)|..], cs)
  {
    var l := StripLeft(s, cs);
    var r := StripRight(l, cs);
    i := |s| - |l|;
    StripLeftDrops(s, cs);
    StripRightDrops(l, cs);
    SliceOfSuffix(s, i, |r|);
  }

  /** Slicing a suffix is slicing the text at shifted positions. */
  lemma SliceOfSuffix(s: string, i: nat, n: nat)
    requires i + n <= |s|
    ensures s[i..][..n] == s[i..i + n]
    ensures s[i..][n..] == s[i + n..]
  {
  }

  /** `s.find(c)`: the first index of `c`, or -1. */
  function Find(s: string, c: char): (i: int)
    ensures -1 <= i < |s|
  {
    if |s| == 0 then -1
    else if s[0] == c then 0
    else
      var k := Find(s[1..], c);
      if k == -1 then -1 else k + 1
  }

  /** `Find` reports -1 exactly when `c` does not occur, and otherwise an occurrence with
      none before it. */
  lemma {:induction false} FindSpec(s: string, c: char)
    ensures Find(s, c) == -1 <==> c !in s
    ensures 0 <= Find(s, c) ==> s[Find(s, c)] == c && c !in s[..Find(s, c)]
  {
    if |s| > 0 && s[0] != c {
      FindSpec(s[1..], c);
      var k := Find(s[1..], c);
      if k >= 0 {
        assert s[1..][..k] == s[1..k + 1];
        assert s[..k + 1] == [s[0]] + s[1..k + 1];
      } else {
        assert s == [s[0]] + s[1..];
      }
    }
  }

  /** `s.find(c, start)`: the first index at or after `start` holding `c`, or -1. */
  function FindFrom(s: string, c: char, start: nat): (i: int)
    ensures i == -1 || start <= i < |s|
  {
    if start >= |s| then -1
    else
      var k := Find(s[start..], c);
      if k == -1 then -1 else start + k
  }

  /** `FindFrom` reports the first occurrence at or after `start`, and -1 exactly when
      there is none. */
  lemma FindFromSpec(s: string, c: char, start: nat)
    ensures FindFrom(s, c, start) == -1 || (s[FindFrom(s, c, start)] == c && c !in s[start..FindFrom(s, c, start)])
    ensures FindFrom(s, c, start) == -1 <==> start >= |s| || c !in s[start..]
  {
    if start < |s| {
      FindSpec(s[start..], c);
      var k := Find(s[start..], c);
      if k >= 0 {
        assert s[start..][..k] == s[start..start + k];
      }
    }
  }

  /** `s.startswith(p)` */
  predicate StartsWith(s: string, p: string) {
    |p| <= |s| && s[..|p|] == p
  }

  /** `s.endswith(p)` */
  predicate EndsWith(s: string, p: string) {
    |p| <= |s| && s[|s| - |p|..] == p
  }

  /** `p in s` for a string `p`: some position of `s` starts with `p`. */
  predicate Contains(s: string, p: string)
    decreases |s|
  {
    StartsWith(s, p) || (|s| > 0 && Contains(s[1..], p))
  }

  /** `s.split(c)` for a one-character separator: the pieces between occurrences of `c`. */
  function Split(s: string, c: char): (parts: seq<string>)
    ensures |parts| >= 1
    decreases |s|
  {
    var i := Find(s, c);
    if i < 0 then [s] else [s[..i]] + Split(s[i + 1..], c)
  }

  /** There is one piece more than there are separators, and no piece holds one. */
  lemma {:induction false} SplitShapeCount(s: string, c: char)
    ensures |Split(s, c)| == Count(s, c) + 1
    ensures forall k :: 0 <= k < |Split(s, c)| ==> c !in Split(s, c)[k]
    decreases |s|
  {
    var i := Find(s, c);
    FindSpec(s, c);
    if i < 0 {
      NoOccurrenceCount(s, c);
    } else {
      CountSplit(s, c, i);
      SplitShapeCount(s[i + 1..], c);
    }
  }

  /** `sep.join(parts)` */
  function JoinWith(parts: seq<string>, sep: string): string {
    if |parts| == 0 then ""
    else if |parts| == 1 then parts[0]
    else parts[0] + sep + JoinWith(parts[1..], sep)
  }

  lemma {:induction false} NoOccurrenceCount(s: string, c: char)
    requires c !in s
    ensures Count(s, c) == 0
  {
    if |s| > 0 {
      assert s[0] in s;
      assert forall x :: x in s[1..] ==> x in s;
      NoOccurrenceCount(s[1..], c);
    }
  }

  lemma {:induction false} CountAppend(a: string, b: string, c: char)
    ensures Count(a + b, c) == Count(a, c) + Count(b, c)
  {
    if |a| > 0 {
      assert (a + b)[1..] == a[1..] + b;
      CountAppend(a[1..], b, c);
    } else {
      assert a + b == b;
    }
  }

  lemma CountSplit(s: string, c: char, i: nat)
    requires i < |s| && s[i] == c && c !in s[..i]
    ensures Count(s, c) == 1 + Count(s[i + 1..], c)
  {
    assert s == s[..i] + ([s[i]] + s[i + 1..]);
    CountAppend(s[..i], [s[i]] + s[i + 1..], c);
    CountAppend([s[i]], s[i + 1..], c);
    NoOccurrenceCount(s[..i], c);
  }

  /** `Find` returns the first occurrence, whichever index is reported. */
  lemma {:induction false} FindIs(s: string, c: char, i: nat)
    requires i < |s| && s[i] == c && c !in s[..i]
    ensures Find(s, c) == i
  {
    if i > 0 {
      assert s[0] == s[..i][0];
      assert s[1..][..i - 1] == s[1..i];
      assert forall x :: x in s[1..i] ==> x in s[..i];
      FindIs(s[1..], c, i - 1);
    }
  }

  /** Stripping from the left drops exactly a set-only prefix `p` in front of `x`. */
  lemma {:induction false} StripLeftPrefix(p: string, x: string, cs: set<char>)
    requires AllIn(p, cs)
    requires |x| == 0 || x[0] !in cs
    ensures StripLeft(p + x, cs) == x
  {
    if |p| > 0 {
      assert (p + x)[1..] == p[1..] + x;
      StripLeftPrefix(p[1..], x, cs);
    } else {
      assert p + x == x;
    }
  }

  /** Stripping from the right drops exactly a set-only suffix `q` behind `x`. */
  lemma {:induction false} StripRightSuffix(x: string, q: string, cs: set<char>)
    requires AllIn(q, cs)
    requires |x| == 0 || x[|x| - 1] !in cs
    ensures StripRight(x + q, cs) == x
  {
    if |q| > 0 {
      assert (x + q)[..|x + q| - 1] == x + q[..|q| - 1];
      StripRightSuffix(x, q[..|q| - 1], cs);
    } else {
      assert x + q == x;
    }
  }

  /** A text whose ends are outside the set is left as it is. */
  lemma StripUnchanged(s: string, cs: set<char>)
    requires |s| == 0 || (s[0] !in cs && s[|s| - 1] !in cs)
    ensures Strip(s, cs) == s
  {
    assert StripLeft(s, cs) == s;
  }

  /** The converse of `Strip`'s contract: `m` framed by set-only runs strips to `m`. */
  lemma StripOf(p: string, m: string, q: string, cs: set<char>)
    requires AllIn(p, cs) && AllIn(q, cs)
    requires |m| == 0 || (m[0] !in cs && m[|m| - 1] !in cs)
    ensures Strip(p + m + q, cs) == m
  {
    if |m| == 0 {
      assert p + m + q == (p + q) + "";
      StripLeftPrefix(p + q, "", cs);
    } else {
      assert p + m + q == p + (m + q);
      StripLeftPrefix(p, m + q, cs);
      StripRightSuffix(m, q, cs);
    }
  }

  lemma AllInExcludes(s: string, cs: set<char>, c: char)
    requires AllIn(s, cs) && c !in cs
    ensures c !in s
  {
    assert forall k :: 0 <= k < |s| ==> s[k] != c;
  }

  lemma CountFrame(p: string, m: string, q: string, c: char)
    requires c !in p && c !in q
    ensures Count(p + m + q, c) == Count(m, c)
  {
    CountAppend(p + m, q, c);
    CountAppend(p, m, c);
    NoOccurrenceCount(p, c);
    NoOccurrenceCount(q, c);
  }

  lemma StripLeftKeepsCount(s: string, cs: set<char>, c: char)
    requires c !in cs
    ensures Count(StripLeft(s, cs), c) == Count(s, c)
  {
    var r := StripLeft(s, cs);
    var p := s[..|s| - |r|];
    StripLeftDrops(s, cs);
    assert s == p + r;
    AllInExcludes(p, cs, c);
    CountFrame(p, r, "", c);
    assert p + r + "" == s;
  }

  lemma StripRightKeepsCount(s: string, cs: set<char>, c: char)
    requires c !in cs
    ensures Count(StripRight(s, cs), c) == Count(s, c)
  {
    var r := StripRight(s, cs);
    var q := s[|r|..];
    StripRightDrops(s, cs);
    assert s == r + q;
    AllInExcludes(q, cs, c);
    CountFrame("", r, q, c);
    assert "" + r + q == s;
  }

  /** Stripping characters other than `c` keeps every occurrence of `c`. */
  lemma StripKeepsCount(s: string, cs: set<char>, c: char)
    requires c !in cs
    ensures Count(Strip(s, cs), c) == Count(s, c)
  {
    StripLeftKeepsCount(s, cs, c);
    StripRightKeepsCount(StripLeft(s, cs), cs, c);
  }

  /** Splitting at a first separator: the text before it is the first piece. */
  lemma SplitAround(x: string, y: string, c: char)
    requires c !in x
    ensures Split(x + [c] + y, c) == [x] + Split(y, c)
  {
    var s := x + [c] + y;
    assert s[..|x|] == x;
    FindIs(s, c, |x|);
    assert s[|x| + 1..] == y;
  }

  lemma SplitUnfoldNone(s: string, c: char)
    requires Find(s, c) < 0
    ensures Split(s, c) == [s]
  {
  }

  lemma SplitSeparatorFree(s: string, c: char)
    requires c !in s
    ensures Split(s, c) == [s]
  {
    FindSpec(s, c);
    SplitUnfoldNone(s, c);
  }

  lemma SplitUnfold(s: string, c: char, i: nat)
    requires Find(s, c) == i
    ensures Split(s, c) == [s[..i]] + Split(s[i + 1..], c)
  {
  }

  lemma SplitPrefixAt(p: string, x: string, c: char, i: nat)
    requires c !in p && Find(x, c) == i
    ensures Split(p + x, c) == [p + x[..i]] + Split(x[i + 1..], c)
  {
    FindSpec(x, c);
    var y := p + x;
    assert y[..|p| + i] == p + x[..i];
    FindIs(y, c, |p| + i);
    assert y[|p| + i + 1..] == x[i + 1..];
    SplitUnfold(y, c, |p| + i);
  }

  lemma SplitPrefixNone(p: string, x: string, c: char)
    requires c !in p && c !in x
    ensures Split(p + x, c) == [p + x]
  {
    assert c !in p + x;
    FindSpec(p + x, c);
    SplitUnfoldNone(p + x, c);
  }

  /** Separator-free text in front only lengthens the first piece. */
  lemma SplitExtendFirst(p: string, x: string, c: char)
    requires c !in p
    ensures Split(p + x, c) == [p + Split(x, c)[0]] + Split(x, c)[1..]
  {
    var i := Find(x, c);
    FindSpec(x, c);
    if i < 0 {
      SplitPrefixNone(p, x, c);
      SplitUnfoldNone(x, c);
    } else {
      SplitPrefixAt(p, x, c, i);
      SplitUnfold(x, c, i);
      var rest := Split(x[i + 1..], c);
      assert Split(x, c)[0] == x[..i];
      assert Split(x, c)[1..] == rest;
    }
  }

  /** `split` turns a separator between two texts into a concatenation of their pieces. */
  lemma {:induction false} SplitConcat(x: string, y: string, c: char)
    ensures Split(x + [c] + y, c) == Split(x, c) + Split(y, c)
    decreases |x|
  {
    var i := Find(x, c);
    if i < 0 {
      FindSpec(x, c);
      SplitAround(x, y, c);
      SplitUnfoldNone(x, c);
    } else {
      SplitConcatStep(x, y, c, i);
      SplitConcat(x[i + 1..], y, c);
    }
  }

  lemma SplitConcatStep(x: string, y: string, c: char, i: nat)
    requires Find(x, c) == i
    ensures Split(x, c) == [x[..i]] + Split(x[i + 1..], c)
    ensures Split(x + [c] + y, c) == [x[..i]] + Split(x[i + 1..] + [c] + y, c)
  {
    FindSpec(x, c);
    SplitUnfold(x, c, i);
    var t := x[i + 1..];
    assert x + [c] + y == x[..i] + [c] + (t + [c] + y);
    SplitAround(x[..i], t + [c] + y, c);
  }

  /** The last piece of a split, and everything before it. */
  function LastPiece(s: string, c: char): string {
    var ps := Split(s, c); ps[|ps| - 1]
  }

  function InitPieces(s: string, c: char): seq<string> {
    var ps := Split(s, c); ps[..|ps| - 1]
  }

  lemma SplitShape(s: string, c: char)
    ensures Split(s, c) == InitPieces(s, c) + [LastPiece(s, c)]
  {
  }

  lemma SplitExtendSeparatorFree(x: string, y: string, c: char)
    requires c !in x && c !in y
    ensures Split(x + y, c) == InitPieces(x, c) + [LastPiece(x, c) + y]
  {
    assert c !in x + y;
    FindSpec(x + y, c);
    FindSpec(x, c);
  }

  /** Appending separator-free text only lengthens the last piece. */
  lemma {:induction false} SplitExtendLast(x: string, y: string, c: char)
    requires c !in y
    ensures Split(x + y, c) == InitPieces(x, c) + [LastPiece(x, c) + y]
    decreases |x|
  {
    var i := Find(x, c);
    FindSpec(x, c);
    if i < 0 {
      SplitExtendSeparatorFree(x, y, c);
    } else {
      var t := x[i + 1..];
      var rest := Split(t, c);
      assert Split(x, c) == [x[..i]] + rest by {
        SplitUnfold(x, c, i);
      }
      assert Split(x + y, c) == [x[..i]] + Split(t + y, c) by {
        var s := x + y;
        assert s[..i] == x[..i];
        FindIs(s, c, i);
        assert s[i + 1..] == t + y;
        SplitUnfold(s, c, i);
      }
      assert Split(t + y, c) == InitPieces(t, c) + [LastPiece(t, c) + y] by {
        SplitExtendLast(t, y, c);
      }
      assert LastPiece(x, c) == LastPiece(t, c);
      assert InitPieces(x, c) == [x[..i]] + InitPieces(t, c);
    }
  }

  /** Joining the pieces of a split with the separator gives back the text. */
  lemma {:induction false} JoinSplit(s: string, c: char)
    ensures JoinWith(Split(s, c), [c]) == s
    decreases |s|
  {
    var i := Find(s, c);
    FindSpec(s, c);
    if i >= 0 {
      var t := s[i + 1..];
      JoinSplit(t, c);
      SplitUnfold(s, c, i);
      JoinCons(s[..i], Split(t, c), [c]);
      assert s == s[..i] + [c] + t;
    } else {
      SplitUnfoldNone(s, c);
    }
  }

  lemma JoinCons(a: string, ps: seq<string>, sep: string)
    requires |ps| >= 1
    ensures JoinWith([a] + ps, sep) == a + sep + JoinWith(ps, sep)
  {
    assert ([a] + ps)[1..] == ps;
  }

  /** Splitting a join of separator-free pieces gives back the pieces. */
  lemma {:induction false} JoinSnoc(ps: seq<string>, x: string, sep: string)
    requires |ps| >= 1
    ensures JoinWith(ps + [x], sep) == JoinWith(ps, sep) + sep + x
  {
    if |ps| == 1 {
      assert ps + [x] == [ps[0], x];
    } else {
      JoinSnoc(ps[1..], x, sep);
      assert (ps + [x])[1..] == ps[1..] + [x];
    }
  }

  lemma {:induction false} SplitJoin(parts: seq<string>, c: char)
    requires |parts| > 0
    requires forall k :: 0 <= k < |parts| ==> c !in parts[k]
    ensures Split(JoinWith(parts, [c]), c) == parts
  {
    if |parts| == 1 {
      FindSpec(parts[0], c);
      SplitUnfoldNone(parts[0], c);
    } else {
      var rest := JoinWith(parts[1..], [c]);
      assert JoinWith(parts, [c]) == parts[0] + [c] + rest;
      SplitAround(parts[0], rest, c);
      SplitJoin(parts[1..], c);
      assert parts == [parts[0]] + parts[1..];
    }
  }

  /** No separator-free piece joined by a separator-free glue contains the character. */
  lemma {:induction false} JoinExcludes(parts: seq<string>, sep: string, c: char)
    requires c !in sep
    requires forall k :: 0 <= k < |parts| ==> c !in parts[k]
    ensures c !in JoinWith(parts, sep)
  {
    if |parts| > 1 {
      JoinExcludes(parts[1..], sep, c);
    }
  }

  /** A text that contains a pattern contains each prefix of the pattern. */
  lemma {:induction false} ContainsPrefix(s: string, p: string, q: string)
    requires Contains(s, p + q)
    ensures Contains(s, p)
    decreases |s|
  {
    if StartsWith(s, p + q) {
      assert s[..|p|] == (p + q)[..|p|];
    } else {
      ContainsPrefix(s[1..], p, q);
    }
  }

  /** Stripping twice is stripping once. */
  lemma StripIdempotent(s: string, cs: set<char>)
    ensures Strip(Strip(s, cs), cs) == Strip(s, cs)
  {
    StripUnchanged(Strip(s, cs), cs);
  }

  lemma {:induction false} StripLeftKeepsEnding(x: string, w: string, cs: set<char>)
    requires EndsWith(x, w) && |w| > 0 && w[0] !in cs
    ensures EndsWith(StripLeft(x, cs), w)
    decreases |x|
  {
    if |x| > 0 && x[0] in cs {
      assert x[|x| - |w|] == w[0];
      assert |x| > |w|;
      assert x[1..][|x| - 1 - |w|..] == w;
      StripLeftKeepsEnding(x[1..], w, cs);
    }
  }

  /** An ending whose outer characters are outside the set survives stripping. */
  lemma StripKeepsEnding(x: string, w: string, cs: set<char>)
    requires EndsWith(x, w) && |w| > 0
    requires w[0] !in cs && w[|w| - 1] !in cs
    ensures EndsWith(Strip(x, cs), w)
  {
    StripLeftKeepsEnding(x, w, cs);
    var l := StripLeft(x, cs);
    assert l[|l| - 1] == w[|w| - 1];
    assert StripRight(l, cs) == l;
  }
}
