/** The few Python string operations the core relies on: `str.strip()`,
    `str.split('\n')`, the "non-blank stripped lines" idiom, prefixes, ASCII
    lower-casing and character filters. */
module Text {

  /** Python's `str.isspace()` for one character. */
  predicate IsSpace(c: char) {
    c == ' ' || ('\t' <= c <= '\r') || ('\U{1C}' <= c <= '\U{1F}')
    || c == '\U{85}' || c == '\U{A0}' || c == '\U{1680}'
    || ('\U{2000}' <= c <= '\U{200A}') || c == '\U{2028}' || c == '\U{2029}'
    || c == '\U{202F}' || c == '\U{205F}' || c == '\U{3000}'
  }

  predicate IsDigit(c: char) {
    '0' <= c <= '9'
  }

  predicate AllDigits(s: string) {
    forall i :: 0 <= i < |s| ==> IsDigit(s[i])
  }

  predicate StartsWith(s: string, p: string) {
    |p| <= |s| && forall i :: 0 <= i < |p| ==> s[i] == p[i]
  }

  /** `str.lstrip()`: drops the leading whitespace. */
  function LStrip(s: string): (r: string)
    ensures |r| <= |s| && r == s[|s| - |r|..]
    ensures forall k :: 0 <= k < |s| - |r| ==> IsSpace(s[k])
    ensures r == [] || !IsSpace(r[0])
    decreases |s|
  {
    if s != [] && IsSpace(s[0]) then LStrip(s[1..]) else s
  }

  /** `str.rstrip()`: drops the trailing whitespace. */
  function RStrip(s: string): (r: string)
    ensures |r| <= |s| && r == s[..|r|]
    ensures forall k :: |r| <= k < |s| ==> IsSpace(s[k])
    ensures r == [] || !IsSpace(r[|r| - 1])
    decreases |s|
  {
    if s != [] && IsSpace(s[|s| - 1]) then RStrip(s[..|s| - 1]) else s
  }

  /** `str.strip()`. */
  function Strip(s: string): string {
    RStrip(LStrip(s))
  }

  predicate IsBlank(s: string) {
    Strip(s) == []
  }

  /** `s.split('\n')`: the pieces between newlines (always at least one). */
  function Split(s: string): (r: seq<string>)
    ensures |r| >= 1
    ensures forall i :: 0 <= i < |r| ==> '\n' !in r[i]
  {
    if s == [] then [[]]
    else if s[0] == '\n' then [[]] + Split(s[1..])
    else
      var t := Split(s[1..]);
      [[s[0]] + t[0]] + t[1..]
  }

  /** `'\n'.join(lines)`, the inverse of Split. */
  function Join(lines: seq<string>): string
    requires |lines| >= 1
  {
    if |lines| == 1 then lines[0] else lines[0] + "\n" + Join(lines[1..])
  }

  /** `[l.strip() for l in lines if l.strip()]`. */
  function Clean(lines: seq<string>): (r: seq<string>)
    ensures |r| <= |lines|
    ensures forall i :: 0 <= i < |r| ==> r[i] != []
  {
    if lines == [] then []
    else if Strip(lines[0]) == [] then Clean(lines[1..])
    else [Strip(lines[0])] + Clean(lines[1..])
  }

  /** `[l.strip() for l in s.strip().split('\n') if l.strip()]`, the way every
      parser of an event description reads its lines. */
  function NonBlankLines(s: string): seq<string> {
    Clean(Split(Strip(s)))
  }

  /** ASCII lower-casing, the part of `str.lower()` the model relies on. */
  function LowerChar(c: char): char {
    if 'A' <= c <= 'Z' then (c as int + 32) as char else c
  }

  function Lower(s: string): (r: string)
    ensures |r| == |s|
    ensures forall i :: 0 <= i < |s| ==> r[i] == LowerChar(s[i])
  {
    seq(|s|, i requires 0 <= i < |s| => LowerChar(s[i]))
  }

  function Min(a: int, b: int): int {
    if a <= b then a else b
  }

  /** `s[:n]` for n >= 0. */
  function Take(s: string, n: nat): (r: string)
    ensures |r| == Min(n, |s|) && r == s[..|r|]
  {
    if n <= |s| then s[..n] else s
  }

  // ---------------------------------------------------------------------
  // Lemmas

  lemma JoinCons(x: string, t: seq<string>)
    requires |t| >= 1
    ensures Join([x] + t) == x + "\n" + Join(t)
  {
    assert ([x] + t)[1..] == t;
  }

  lemma {:induction false} SplitJoinInverse(s: string)
    ensures Join(Split(s)) == s
    decreases |s|
  {
    if s == [] {
    } else if s[0] == '\n' {
      SplitJoinInverse(s[1..]);
      JoinCons([], Split(s[1..]));
      assert s == "\n" + s[1..];
    } else {
      var t := Split(s[1..]);
      SplitJoinInverse(s[1..]);
      assert Split(s) == [[s[0]] + t[0]] + t[1..];
      if |t| == 1 {
        assert s == [s[0]] + s[1..];
      } else {
        JoinCons([s[0]] + t[0], t[1..]);
        assert t == [t[0]] + t[1..];
        JoinCons(t[0], t[1..]);
        assert s == [s[0]] + Join(t);
      }
    }
  }

  /** Splitting at a newline splits the pieces. */
  lemma {:induction false} SplitAtNewline(a: string, b: string)
    ensures Split(a + "\n" + b) == Split(a) + Split(b)
    decreases |a|
  {
    if a == [] {
      assert a + "\n" + b == "\n" + b;
      assert ("\n" + b)[1..] == b;
    } else {
      var s := a + "\n" + b;
      assert s[0] == a[0] && s[1..] == a[1..] + "\n" + b;
      SplitAtNewline(a[1..], b);
    }
  }

  lemma {:induction false} SplitNoNewline(a: string)
    requires '\n' !in a
    ensures Split(a) == [a]
    decreases |a|
  {
    if a != [] {
      assert a[1..] == a[1..];
      assert '\n' !in a[1..] by {
        forall i | 0 <= i < |a[1..]| ensures a[1..][i] != '\n' {
          assert a[1..][i] == a[i + 1];
        }
      }
      SplitNoNewline(a[1..]);
      assert [a[0]] + a[1..] == a;
    }
  }

  /** `c` appended to the last of the pieces `t`. */
  function AppendToLast(t: seq<string>, c: char): (r: seq<string>)
    requires |t| >= 1
    ensures |r| == |t| && r[..|t| - 1] == t[..|t| - 1] && r[|t| - 1] == t[|t| - 1] + [c]
  {
    t[..|t| - 1] + [t[|t| - 1] + [c]]
  }

  /** Extending the first piece by a character in front. */
  function PrependToFirst(h: char, t: seq<string>): (r: seq<string>)
    requires |t| >= 1
    ensures |r| == |t| && r[0] == [h] + t[0] && r[1..] == t[1..]
  {
    [[h] + t[0]] + t[1..]
  }

  lemma AppendToLastCons(x: string, u: seq<string>, c: char)
    requires |u| >= 1
    ensures AppendToLast([x] + u, c) == [x] + AppendToLast(u, c)
  {
    var l := AppendToLast([x] + u, c);
    var r := [x] + AppendToLast(u, c);
    assert |l| == |r|;
    forall i | 0 <= i < |l| ensures l[i] == r[i] {
      if i < |u| {
        assert l[i] == ([x] + u)[i];
      }
    }
  }

  lemma AppendToLastPrepend(h: char, u: seq<string>, c: char)
    requires |u| >= 1
    ensures AppendToLast(PrependToFirst(h, u), c) == PrependToFirst(h, AppendToLast(u, c))
  {
    var l := AppendToLast(PrependToFirst(h, u), c);
    var r := PrependToFirst(h, AppendToLast(u, c));
    assert |l| == |r|;
    forall i | 0 <= i < |l| ensures l[i] == r[i] {
      if i == 0 && |u| == 1 {
        assert l[0] == ([h] + u[0]) + [c];
        assert r[0] == [h] + (u[0] + [c]);
      } else if i == 0 {
        assert l[0] == PrependToFirst(h, u)[0];
      } else if i < |u| - 1 {
        assert l[i] == PrependToFirst(h, u)[i] == u[i];
        assert r[i] == AppendToLast(u, c)[i] == u[i];
      }
    }
  }

  /** Appending a non-newline character extends the last piece. */
  lemma {:induction false} SplitSnoc(a: string, c: char)
    requires c != '\n'
    ensures Split(a + [c]) == AppendToLast(Split(a), c)
    decreases |a|
  {
    if a == [] {
      assert a + [c] == [c] && [c][1..] == [];
      var e: seq<string> := [[]];
      assert Split(a) == e;
      assert Split([c][1..]) == e;
      assert Split([c]) == PrependToFirst(c, e);
      assert e[0] == [] && [c] + e[0] == [c] && e[0] + [c] == [c];
      var r := PrependToFirst(c, e);
      assert |r| == 1 && r[0] == [c];
      assert r == [[c]];
      var l := AppendToLast(e, c);
      assert |l| == 1 && l[0] == [c];
      assert l == [[c]];
    } else {
      var s := a + [c];
      assert s[0] == a[0] && s[1..] == a[1..] + [c];
      var u := Split(a[1..]);
      SplitSnoc(a[1..], c);
      if a[0] == '\n' {
        assert Split(a) == [[]] + u;
        assert Split(s) == [[]] + AppendToLast(u, c);
        AppendToLastCons([], u, c);
      } else {
        assert Split(a) == PrependToFirst(a[0], u);
        assert Split(s) == PrependToFirst(a[0], AppendToLast(u, c));
        AppendToLastPrepend(a[0], u, c);
      }
    }
  }

  lemma {:induction false} CleanAppend(xs: seq<string>, ys: seq<string>)
    ensures Clean(xs + ys) == Clean(xs) + Clean(ys)
    decreases |xs|
  {
    if xs != [] {
      var x, rest := xs[0], xs[1..];
      assert xs == [x] + rest;
      assert xs + ys == [x] + (rest + ys);
      CleanAppend(rest, ys);
      CleanCons(x, rest);
      CleanCons(x, rest + ys);
    } else {
      assert xs + ys == ys;
    }
  }

  lemma CleanCons(x: string, t: seq<string>)
    ensures Clean([x] + t) == (if Strip(x) == [] then Clean(t) else [Strip(x)] + Clean(t))
  {
    assert ([x] + t)[0] == x && ([x] + t)[1..] == t;
  }


  lemma LStripSpaceCons(c: char, x: string)
    requires IsSpace(c)
    ensures LStrip([c] + x) == LStrip(x)
  {
    assert ([c] + x)[1..] == x;
  }

  lemma {:induction false} LStripSnoc(x: string, c: char)
    ensures LStrip(x + [c]) == if LStrip(x) == [] then LStrip([c]) else LStrip(x) + [c]
    decreases |x|
  {
    if x != [] {
      assert (x + [c])[0] == x[0] && (x + [c])[1..] == x[1..] + [c];
      if IsSpace(x[0]) {
        LStripSnoc(x[1..], c);
      }
    } else {
      assert x + [c] == [c];
    }
  }

  lemma LStripAllSpace(c: char)
    requires IsSpace(c)
    ensures LStrip([c]) == []
  {
    assert [c][1..] == [];
  }

  lemma RStripSpaceSnoc(y: string, c: char)
    requires IsSpace(c)
    ensures RStrip(y + [c]) == RStrip(y)
  {
    var z := y + [c];
    assert z[|z| - 1] == c;
    assert z[..|z| - 1] == y;
  }

  lemma StripSpaceSnoc(x: string, c: char)
    requires IsSpace(c)
    ensures Strip(x + [c]) == Strip(x)
  {
    LStripSnoc(x, c);
    if LStrip(x) == [] {
      LStripAllSpace(c);
    } else {
      RStripSpaceSnoc(LStrip(x), c);
    }
  }

  /** Dropping one leading space does not change the cleaned pieces. */
  lemma CleanSplitSpaceCons(s: string)
    requires s != [] && IsSpace(s[0])
    ensures Clean(Split(s)) == Clean(Split(s[1..]))
  {
    var t := Split(s[1..]);
    if s[0] == '\n' {
      var w := [[]] + t;
      assert Split(s) == w;
      assert w[0] == [] && w[1..] == t;
    } else {
      var w := [[s[0]] + t[0]] + t[1..];
      assert Split(s) == w;
      LStripSpaceCons(s[0], t[0]);
      assert Strip(w[0]) == Strip(t[0]);
      assert w[1..] == t[1..];
      assert Clean(w) == Clean(t);
    }
  }

  lemma CleanAppendToLastSpace(t: seq<string>, c: char)
    requires |t| >= 1 && IsSpace(c)
    ensures Clean(AppendToLast(t, c)) == Clean(t)
  {
    var n := |t|;
    var init := t[..n - 1];
    assert t == init + [t[n - 1]];
    assert AppendToLast(t, c) == init + [t[n - 1] + [c]];
    CleanAppend(init, [t[n - 1] + [c]]);
    CleanAppend(init, [t[n - 1]]);
    StripSpaceSnoc(t[n - 1], c);
  }

  lemma CleanSplitNewlineSnoc(x: string)
    ensures Clean(Split(x + "\n")) == Clean(Split(x))
  {
    var t := Split(x);
    SplitAtNewline(x, "");
    assert x + "\n" == x + "\n" + "";
    CleanAppend(t, [[]]);
    assert Clean([[]]) == [];
    assert Clean(t) + [] == Clean(t);
  }

  /** Dropping one trailing space does not change the cleaned pieces. */
  lemma CleanSplitSpaceSnoc(x: string, c: char)
    requires IsSpace(c)
    ensures Clean(Split(x + [c])) == Clean(Split(x))
  {
    if c == '\n' {
      CleanSplitNewlineSnoc(x);
    } else {
      SplitSnoc(x, c);
      CleanAppendToLastSpace(Split(x), c);
    }
  }

  lemma {:induction false} CleanSplitLStrip(s: string)
    ensures Clean(Split(LStrip(s))) == Clean(Split(s))
    decreases |s|
  {
    if s != [] && IsSpace(s[0]) {
      CleanSplitSpaceCons(s);
      CleanSplitLStrip(s[1..]);
    }
  }

  lemma {:induction false} CleanSplitRStrip(s: string)
    ensures Clean(Split(RStrip(s))) == Clean(Split(s))
    decreases |s|
  {
    if s != [] && IsSpace(s[|s| - 1]) {
      var x := s[..|s| - 1];
      assert s == x + [s[|s| - 1]];
      CleanSplitSpaceSnoc(x, s[|s| - 1]);
      CleanSplitRStrip(x);
    }
  }

  /** The outer `strip()` in the line idiom never matters. */
  lemma NonBlankLinesOfRaw(s: string)
    ensures NonBlankLines(s) == Clean(Split(s))
  {
    CleanSplitLStrip(s);
    CleanSplitRStrip(LStrip(s));
  }

  /** A stripped, non-blank, single-line text is one line of its own. */
  lemma CleanSingleLine(a: string)
    requires '\n' !in a && Strip(a) == a && a != []
    ensures Clean(Split(a)) == [a]
  {
    SplitNoNewline(a);
  }

  lemma CleanEmpty()
    ensures Clean(Split("")) == []
  {
  }

  /** Joining two texts with a newline joins their non-blank lines. */
  lemma CleanSplitJoin(x: string, y: string)
    ensures Clean(Split(x + "\n" + y)) == Clean(Split(x)) + Clean(Split(y))
  {
    SplitAtNewline(x, y);
    CleanAppend(Split(x), Split(y));
  }
}
