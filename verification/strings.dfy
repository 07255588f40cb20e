/** The JavaScript string operations the panel relies on: `trim`, the
    regular-expression class `\s`, `toLowerCase` on ASCII letters,
    `startsWith`, `includes`, `join`, and `replace(/\s+/g, " ")`. */
module Strings {

  /** The characters JavaScript counts as white space, both for
      `String.prototype.trim` and for the regular-expression class `\s`:
      the WhiteSpace and LineTerminator productions of ECMAScript. */
  predicate IsSpace(c: char) {
    || c == '\t' || c == '\n' || c == '\U{000B}' || c == '\U{000C}' || c == '\r'
    || c == ' ' || c == '\U{00A0}' || c == '\U{1680}'
    || ('\U{2000}' <= c <= '\U{200A}')
    || c == '\U{2028}' || c == '\U{2029}' || c == '\U{202F}' || c == '\U{205F}'
    || c == '\U{3000}' || c == '\U{FEFF}'
  }

  predicate AllSpace(s: string) {
    forall i :: 0 <= i < |s| ==> IsSpace(s[i])
  }

  /** Neither end of `s` is white space. */
  predicate IsTrimmed(s: string) {
    |s| == 0 || (!IsSpace(s[0]) && !IsSpace(s[|s| - 1]))
  }

  /** `r` sits in `s` at offset `lead`, with only white space around it. */
  predicate Surrounded(s: string, r: string, lead: int) {
    && 0 <= lead && lead + |r| <= |s|
    && s[lead..lead + |r|] == r
    && AllSpace(s[..lead])
    && AllSpace(s[lead + |r|..])
  }

  /** Drops leading white space (`trimStart`). Its shape is stated by
      `TrimStartShape`, kept apart so that the facts are only in scope
      where a proof asks for them. */
  function TrimStart(s: string): string
    decreases |s|
  {
    if |s| > 0 && IsSpace(s[0]) then TrimStart(s[1..]) else s
  }

  /** Drops trailing white space (`trimEnd`); see `TrimEndShape`. */
  function TrimEnd(s: string): string
    decreases |s|
  {
    if |s| > 0 && IsSpace(s[|s| - 1]) then TrimEnd(s[..|s| - 1]) else s
  }

  /** `trimStart` removes a white-space prefix and stops at a non-space. */
  lemma {:induction false} TrimStartShape(s: string)
    ensures |TrimStart(s)| <= |s| && TrimStart(s) == s[|s| - |TrimStart(s)|..]
    ensures AllSpace(s[..|s| - |TrimStart(s)|])
    ensures |TrimStart(s)| > 0 ==> !IsSpace(TrimStart(s)[0])
    decreases |s|
  {
    if |s| > 0 && IsSpace(s[0]) {
      TrimStartShape(s[1..]);
      var r := TrimStart(s[1..]);
      assert s[1..][|s| - 1 - |r|..] == s[|s| - |r|..];
      assert forall i :: 0 <= i < |s| - |r| ==> i == 0 || s[i] == s[1..][..|s| - 1 - |r|][i - 1];
    }
  }

  /** `trimEnd` removes a white-space suffix and stops at a non-space. */
  lemma {:induction false} TrimEndShape(s: string)
    ensures |TrimEnd(s)| <= |s| && TrimEnd(s) == s[..|TrimEnd(s)|]
    ensures AllSpace(s[|TrimEnd(s)|..])
    ensures |TrimEnd(s)| > 0 ==> !IsSpace(TrimEnd(s)[|TrimEnd(s)| - 1])
    decreases |s|
  {
    if |s| > 0 && IsSpace(s[|s| - 1]) {
      var u := s[..|s| - 1];
      TrimEndShape(u);
      var r := TrimEnd(u);
      assert u[..|r|] == s[..|r|];
      assert forall i :: |r| <= i < |s| ==> i == |s| - 1 || s[i] == u[|r|..][i - |r|];
    }
  }

  /** `s.trim()`. */
  function Trim(s: string): (r: string)
    ensures IsTrimmed(r)
  {
    TrimStartShape(s);
    TrimEndShape(TrimStart(s));
    var t := TrimStart(s);
    var r := TrimEnd(t);
    assert |r| > 0 ==> r[0] == t[0];
    r
  }

  /** `trim` removes white space from both ends and nothing else. */
  lemma TrimSurrounded(s: string)
    ensures exists lead :: Surrounded(s, Trim(s), lead)
  {
    TrimStartShape(s);
    var t := TrimStart(s);
    TrimEndShape(t);
    var r := TrimEnd(t);
    var lead := |s| - |t|;
    assert r == Trim(s);
    assert Surrounded(s, r, lead) by {
      assert s[lead..] == t;
      assert s[lead..lead + |r|] == t[..|r|];
      assert s[lead + |r|..] == t[|r|..];
    }
  }

  lemma {:induction false} TrimStartSkips(a: string, t: string)
    requires AllSpace(a)
    requires |t| == 0 || !IsSpace(t[0])
    ensures TrimStart(a + t) == t
    decreases |a|
  {
    if |a| > 0 {
      assert (a + t)[1..] == a[1..] + t;
      TrimStartSkips(a[1..], t);
    } else {
      assert a + t == t;
    }
  }

  lemma {:induction false} TrimEndSkips(t: string, b: string)
    requires AllSpace(b)
    requires |t| == 0 || !IsSpace(t[|t| - 1])
    ensures TrimEnd(t + b) == t
    decreases |b|
  {
    if |b| > 0 {
      assert (t + b)[..|t + b| - 1] == t + b[..|b| - 1];
      TrimEndSkips(t, b[..|b| - 1]);
    } else {
      assert t + b == t;
    }
  }

  /** Trimming is determined by the trimmed core: any non-empty trimmed
      string with only white space around it is what `trim` returns. */
  lemma TrimUnique(s: string, r: string, lead: int)
    requires Surrounded(s, r, lead)
    requires IsTrimmed(r) && |r| > 0
    ensures Trim(s) == r
  {
    var a, b := s[..lead], s[lead + |r|..];
    assert s == a + (r + b);
    TrimStartSkips(a, r + b);
    TrimEndSkips(r, b);
  }

  /** A string with no white space at its ends is its own trim. */
  lemma TrimOfTrimmed(s: string)
    requires IsTrimmed(s)
    ensures Trim(s) == s
  {
    if |s| > 0 {
      assert s[0..|s|] == s;
      TrimUnique(s, s, 0);
    }
  }

  /** `trim` is idempotent. */
  lemma TrimIdempotent(s: string)
    ensures Trim(Trim(s)) == Trim(s)
  {
    TrimOfTrimmed(Trim(s));
  }

  /** `trim` yields the empty string exactly on all-white-space input. */
  lemma TrimEmptyIff(s: string)
    ensures Trim(s) == "" <==> AllSpace(s)
  {
    TrimSurrounded(s);
    var lead :| Surrounded(s, Trim(s), lead);
    SurroundedEmptyIff(s, Trim(s), lead);
  }

  lemma SurroundedEmptyIff(s: string, r: string, lead: int)
    requires Surrounded(s, r, lead) && IsTrimmed(r)
    ensures r == "" <==> AllSpace(s)
  {
    if r == "" {
      assert s == s[..lead] + s[lead..];
    } else {
      assert r[0] == s[lead];
    }
  }

  lemma SplitSurrounded(s: string, r: string, lead: int)
    requires Surrounded(s, r, lead)
    ensures s == s[..lead] + r + s[lead + |r|..]
  {
  }

  lemma SurroundedBy(a: string, r: string, b: string)
    requires AllSpace(a) && AllSpace(b)
    ensures Surrounded(a + r + b, r, |a|)
  {
    var s := a + r + b;
    assert s[..|a|] == a;
    assert s[|a|..|a| + |r|] == r;
    assert s[|a| + |r|..] == b;
  }

  /** With a trimmed core inside white space, trimming the tail leaves the
      leading white space and the core. */
  lemma TrimEndAround(x: string, m: string, lead: int)
    requires Surrounded(x, m, lead)
    requires IsTrimmed(m) && |m| > 0
    ensures TrimEnd(x) == x[..lead + |m|]
    ensures Surrounded(x[..lead + |m|], m, lead)
  {
    var a, b := x[..lead], x[lead + |m|..];
    SplitSurrounded(x, m, lead);
    TrimEndSkips(a + m, b);
    assert x[..lead + |m|] == a + m;
    SurroundedBy(a, m, "");
    assert a + m + "" == a + m;
  }

  /** Trimming the tail first does not change the final trim. */
  lemma TrimEndThenTrim(x: string)
    requires Trim(x) != ""
    ensures Trim(TrimEnd(x)) == Trim(x)
  {
    var m := Trim(x);
    TrimSurrounded(x);
    var lead :| Surrounded(x, m, lead);
    TrimEndAround(x, m, lead);
    TrimUnique(x[..lead + |m|], m, lead);
  }

  lemma PrefixSurrounded(p: string, x: string, k: int)
    requires 0 <= k <= |x| && AllSpace(x[k..])
    ensures Surrounded(p + x, p + x[..k], 0)
  {
    var s := p + x;
    assert s[0..|p| + k] == p + x[..k];
    assert s[|p| + k..] == x[k..];
  }

  /** Trimming text that starts with a non-space prefix only trims its tail. */
  lemma TrimAfterPrefix(p: string, x: string)
    requires |p| > 0 && !IsSpace(p[0])
    requires Trim(x) != ""
    ensures Trim(p + x) == p + TrimEnd(x)
  {
    var m := Trim(x);
    TrimSurrounded(x);
    var lead :| Surrounded(x, m, lead);
    var k := lead + |m|;
    assert TrimEnd(x) == x[..k] && 0 < k <= |x| && !IsSpace(x[k - 1]) by {
      TrimEndAround(x, m, lead);
      assert x[k - 1] == m[|m| - 1];
    }
    var r := p + x[..k];
    assert IsTrimmed(r) && |r| > 0 by {
      assert r[0] == p[0] && r[|r| - 1] == x[k - 1];
    }
    PrefixSurrounded(p, x, k);
    TrimUnique(p + x, r, 0);
  }

  function LowerChar(c: char): char {
    if 'A' <= c <= 'Z' then (c as int + 32) as char else c
  }

  /** `s.toLowerCase()` on ASCII letters; every other character is kept. */
  function Lower(s: string): (r: string)
    ensures |r| == |s|
    ensures forall i :: 0 <= i < |s| ==> r[i] == LowerChar(s[i])
  {
    seq(|s|, i requires 0 <= i < |s| => LowerChar(s[i]))
  }

  /** `s.startsWith(p)` */
  predicate StartsWith(s: string, p: string) {
    |p| <= |s| && s[..|p|] == p
  }

  predicate OccursAt(s: string, t: string, i: int) {
    0 <= i && i + |t| <= |s| && s[i..i + |t|] == t
  }

  /** `s.includes(t)` */
  predicate Contains(s: string, t: string) {
    exists i | 0 <= i <= |s| - |t| :: OccursAt(s, t, i)
  }

  /** `xs.join(sep)` */
  function Join(xs: seq<string>, sep: string): string
    decreases |xs|
  {
    if |xs| == 0 then ""
    else if |xs| == 1 then xs[0]
    else xs[0] + sep + Join(xs[1..], sep)
  }

  /** The characters of `s` that are not white space, in order. */
  function NonSpace(s: string): string
    decreases |s|
  {
    if |s| == 0 then ""
    else (if IsSpace(s[0]) then "" else [s[0]]) + NonSpace(s[1..])
  }

  lemma {:induction false} NonSpaceAppend(a: string, b: string)
    ensures NonSpace(a + b) == NonSpace(a) + NonSpace(b)
    decreases |a|
  {
    if |a| > 0 {
      assert (a + b)[1..] == a[1..] + b;
      NonSpaceAppend(a[1..], b);
    } else {
      assert a + b == b;
    }
  }

  lemma {:induction false} NonSpaceOfSpace(a: string)
    requires AllSpace(a)
    ensures NonSpace(a) == ""
    decreases |a|
  {
    if |a| > 0 {
      NonSpaceOfSpace(a[1..]);
    }
  }

  /** White space only as single ' ' characters, never two in a row. */
  predicate SingleSpaced(s: string) {
    forall i :: 0 <= i < |s| && IsSpace(s[i]) ==>
      s[i] == ' ' && (i + 1 < |s| ==> !IsSpace(s[i + 1]))
  }

  /** `s.replace(/\s+/g, " ")`: every maximal run of white space becomes one
      space character. */
  function CollapseRuns(s: string): (r: string)
    ensures |r| == 0 <==> |s| == 0
    ensures |s| > 0 ==> r[0] == (if IsSpace(s[0]) then ' ' else s[0])
    ensures SingleSpaced(r)
    ensures NonSpace(r) == NonSpace(s)
    decreases |s|
  {
    if |s| == 0 then ""
    else if IsSpace(s[0]) then
      var t := TrimStart(s);
      assert |t| < |s| by { TrimStartShape(s); }
      var a := s[..|s| - |t|];
      assert s == a + t && AllSpace(a) && (|t| > 0 ==> !IsSpace(t[0])) by {
        TrimStartShape(s);
      }
      var r := " " + CollapseRuns(t);
      assert NonSpace(r) == NonSpace(s) by {
        NonSpaceAppend(" ", CollapseRuns(t));
        NonSpaceAppend(a, t);
        NonSpaceOfSpace(a);
      }
      r
    else
      var r := [s[0]] + CollapseRuns(s[1..]);
      assert NonSpace(r) == NonSpace(s) by {
        NonSpaceAppend([s[0]], CollapseRuns(s[1..]));
        assert s == [s[0]] + s[1..];
        NonSpaceAppend([s[0]], s[1..]);
      }
      r
  }

  lemma SingleSpacedSlice(c: string, i: int, j: int)
    requires 0 <= i <= j <= |c|
    requires SingleSpaced(c)
    ensures SingleSpaced(c[i..j])
  {
    var r := c[i..j];
    forall k | 0 <= k < |r| && IsSpace(r[k])
      ensures r[k] == ' ' && (k + 1 < |r| ==> !IsSpace(r[k + 1]))
    {
      assert r[k] == c[i + k];
      if k + 1 < |r| {
        assert r[k + 1] == c[i + k + 1];
      }
    }
  }

  /** Trimming drops only white space. */
  lemma TrimKeepsNonSpace(c: string)
    ensures NonSpace(Trim(c)) == NonSpace(c)
  {
    var r := Trim(c);
    TrimSurrounded(c);
    var lead :| Surrounded(c, r, lead);
    var a, b := c[..lead], c[lead + |r|..];
    assert c == (a + r) + b;
    calc {
      NonSpace(c);
      { NonSpaceAppend(a + r, b); }
      NonSpace(a + r) + NonSpace(b);
      { NonSpaceAppend(a, r); }
      NonSpace(a) + NonSpace(r) + NonSpace(b);
      { NonSpaceOfSpace(a); NonSpaceOfSpace(b); }
      NonSpace(r);
    }
  }

  /** Trimming keeps single spacing and drops only white space. */
  lemma TrimKeepsShape(c: string)
    requires SingleSpaced(c)
    ensures SingleSpaced(Trim(c))
    ensures NonSpace(Trim(c)) == NonSpace(c)
  {
    TrimSurrounded(c);
    var lead :| Surrounded(c, Trim(c), lead);
    SingleSpacedSlice(c, lead, lead + |Trim(c)|);
    TrimKeepsNonSpace(c);
  }

  /** `s.replace(/\s+/g, " ").trim()`. */
  function CollapseWhitespace(s: string): (r: string)
    ensures IsTrimmed(r)
    ensures SingleSpaced(r)
    ensures NonSpace(r) == NonSpace(s)
  {
    TrimKeepsShape(CollapseRuns(s));
    Trim(CollapseRuns(s))
  }

  /** No character of `s` is white space. */
  predicate NoSpace(s: string) {
    forall i :: 0 <= i < |s| ==> !IsSpace(s[i])
  }

  /** When `a` holds a non-space, leading white space ends inside `a`. */
  lemma {:induction false} TrimStartAppend(a: string, b: string)
    requires !AllSpace(a)
    ensures TrimStart(a + b) == TrimStart(a) + b
    decreases |a|
  {
    assert (a + b)[0] == a[0];
    if IsSpace(a[0]) {
      assert (a + b)[1..] == a[1..] + b;
      assert !AllSpace(a[1..]) by {
        var i :| 0 <= i < |a| && !IsSpace(a[i]);
        assert a[1..][i - 1] == a[i];
      }
      TrimStartAppend(a[1..], b);
    }
  }

  /** A non-empty run of white space becomes exactly one space. */
  lemma CollapseRunsOfSpace(w: string)
    requires |w| > 0 && AllSpace(w)
    ensures CollapseRuns(w) == " "
  {
    TrimStartSkips(w, "");
    assert w + "" == w;
  }

  /** Run collapsing works piece by piece across a boundary that is not
      inside a run: a non-space on either side of the cut keeps the runs of
      the two pieces apart. */
  lemma {:induction false} CollapseRunsAppend(a: string, b: string)
    requires (|a| > 0 && !IsSpace(a[|a| - 1])) || (|b| > 0 && !IsSpace(b[0]))
    ensures CollapseRuns(a + b) == CollapseRuns(a) + CollapseRuns(b)
    decreases |a|, 1
  {
    if |a| == 0 {
      assert a + b == b;
    } else if !IsSpace(a[0]) {
      AppendAtWord(a, b);
    } else if AllSpace(a) {
      AppendAfterRun(a, b);
    } else {
      AppendAtRun(a, b);
    }
  }

  lemma {:induction false} AppendAtWord(a: string, b: string)
    requires |a| > 0 && !IsSpace(a[0])
    requires !IsSpace(a[|a| - 1]) || (|b| > 0 && !IsSpace(b[0]))
    ensures CollapseRuns(a + b) == CollapseRuns(a) + CollapseRuns(b)
    decreases |a|, 0
  {
    var a' := a[1..];
    var x, y := CollapseRuns(a' + b), CollapseRuns(a');
    assert CollapseRuns(a + b) == [a[0]] + x by {
      assert (a + b)[1..] == a' + b;
      CollapseRunsWord(a + b);
    }
    assert CollapseRuns(a) == [a[0]] + y by {
      CollapseRunsWord(a);
    }
    assert x == y + CollapseRuns(b) by {
      if |a'| == 0 {
        assert a' + b == b;
      } else {
        assert a'[|a'| - 1] == a[|a| - 1];
        CollapseRunsAppend(a', b);
      }
    }
    ConcatAssoc([a[0]], y, CollapseRuns(b));
  }

  lemma ConcatAssoc(x: string, y: string, z: string)
    ensures x + (y + z) == (x + y) + z
  {
  }

  lemma AppendAfterRun(a: string, b: string)
    requires |a| > 0 && AllSpace(a)
    requires |b| > 0 && !IsSpace(b[0])
    ensures CollapseRuns(a + b) == CollapseRuns(a) + CollapseRuns(b)
  {
    CollapseRunsRun(a + b);
    TrimStartSkips(a, b);
    CollapseRunsOfSpace(a);
  }

  lemma {:induction false} AppendAtRun(a: string, b: string)
    requires |a| > 0 && IsSpace(a[0]) && !AllSpace(a)
    requires !IsSpace(a[|a| - 1]) || (|b| > 0 && !IsSpace(b[0]))
    ensures CollapseRuns(a + b) == CollapseRuns(a) + CollapseRuns(b)
    decreases |a|, 0
  {
    var t := TrimStart(a);
    assert |t| < |a| && |t| > 0 && t[|t| - 1] == a[|a| - 1] by {
      TrimStartShape(a);
      assert a[..|a|] == a;
    }
    assert CollapseRuns(a + b) == " " + CollapseRuns(t + b) by {
      assert (a + b)[0] == a[0];
      CollapseRunsRun(a + b);
      TrimStartAppend(a, b);
    }
    assert CollapseRuns(a) == " " + CollapseRuns(t) by {
      CollapseRunsRun(a);
    }
    CollapseRunsAppend(t, b);
    ConcatAssoc(" ", CollapseRuns(t), CollapseRuns(b));
  }

  /** One unfolding of `CollapseRuns` at a non-space. */
  lemma CollapseRunsWord(s: string)
    requires |s| > 0 && !IsSpace(s[0])
    ensures CollapseRuns(s) == [s[0]] + CollapseRuns(s[1..])
  {
  }

  /** One unfolding of `CollapseRuns` at the start of a run. */
  lemma CollapseRunsRun(s: string)
    requires |s| > 0 && IsSpace(s[0])
    ensures CollapseRuns(s) == " " + CollapseRuns(TrimStart(s))
  {
  }

  /** Two words with any white space between them come out separated by
      one space. */
  lemma CollapseWhitespaceSeparatesWords(x: string, w: string, y: string)
    requires |x| > 0 && |y| > 0 && NoSpace(x) && NoSpace(y)
    requires |w| > 0 && AllSpace(w)
    ensures CollapseWhitespace(x + w + y) == x + " " + y
  {
    CollapseRunsSeparatesWords(x, w, y);
    var r := x + " " + y;
    assert IsTrimmed(r) by {
      assert r[0] == x[0] && r[|r| - 1] == y[|y| - 1];
    }
    TrimOfTrimmed(r);
  }

  lemma CollapseRunsSeparatesWords(x: string, w: string, y: string)
    requires |x| > 0 && |y| > 0 && NoSpace(x) && NoSpace(y)
    requires |w| > 0 && AllSpace(w)
    ensures CollapseRuns(x + w + y) == x + " " + y
  {
    ConcatAssoc(x, w, y);
    assert !IsSpace(x[|x| - 1]) && !IsSpace(y[0]);
    CollapseRunsAppend(x, w + y);
    CollapseRunsAppend(w, y);
    CollapseRunsOfSpace(w);
    NoSpaceCollapse(x);
    NoSpaceCollapse(y);
    ConcatAssoc(x, " ", y);
  }

  lemma NoSpaceCollapse(x: string)
    requires NoSpace(x)
    ensures CollapseRuns(x) == x
  {
    assert SingleSpaced(x);
    CollapseRunsOfSingleSpaced(x);
  }

  /** A single-spaced string is left alone by run collapsing. */
  lemma {:induction false} CollapseRunsOfSingleSpaced(s: string)
    requires SingleSpaced(s)
    ensures CollapseRuns(s) == s
    decreases |s|
  {
    if |s| > 0 {
      assert SingleSpaced(s[1..]);
      if IsSpace(s[0]) {
        TrimStartShape(s);
        var t := TrimStart(s);
        if |s| > 1 {
          assert !IsSpace(s[1]);
        }
        assert t == s[1..];
      }
      CollapseRunsOfSingleSpaced(s[1..]);
      assert s == [s[0]] + s[1..];
    }
  }

  /** Collapsing white space is idempotent. */
  lemma CollapseWhitespaceIdempotent(s: string)
    ensures CollapseWhitespace(CollapseWhitespace(s)) == CollapseWhitespace(s)
  {
    var r := CollapseWhitespace(s);
    CollapseRunsOfSingleSpaced(r);
    TrimOfTrimmed(r);
  }
}
