/**
 * The Python `str` built-ins the notifier and the configuration loader use:
 * `strip`, `replace`, `split`, `join`, slicing with clamped bounds, `in` on
 * strings and ASCII `lower`.  Strings are sequences of code points.
 */
module PyStr {

  /** The characters `str.strip()` removes: the ASCII characters Python's
      `isspace` accepts (tab, line feed, vertical tab, form feed, carriage
      return, the four information separators, space). */
  predicate IsSpace(c: char) {
    ('\t' <= c <= '\r') || ('\U{1C}' <= c <= '\U{1F}') || c == ' '
  }

  /** `not s.strip()`: the string is empty or made of whitespace only. */
  predicate IsBlank(s: string) {
    forall i :: 0 <= i < |s| ==> IsSpace(s[i])
  }

  /** `s.lstrip()`: drop leading whitespace. */
  function LStrip(s: string): (r: string)
    ensures |r| <= |s| && r == s[|s| - |r|..]
    ensures r == [] || !IsSpace(r[0])
    ensures forall i :: 0 <= i < |s| - |r| ==> IsSpace(s[i])
  {
    if |s| > 0 && IsSpace(s[0]) then LStrip(s[1..]) else s
  }

  /** `s.rstrip()`: drop trailing whitespace. */
  function RStrip(s: string): (r: string)
    ensures |r| <= |s| && r == s[..|r|]
    ensures r == [] || !IsSpace(r[|r| - 1])
    ensures forall i :: |r| <= i < |s| ==> IsSpace(s[i])
  {
    if |s| > 0 && IsSpace(s[|s| - 1]) then RStrip(s[..|s| - 1]) else s
  }

  /** `s.strip()`: the contiguous middle of `s` left once the whitespace at
      both ends is cut off.  It is empty exactly for blank input, otherwise it
      neither begins nor ends with whitespace (`StripUnique` shows these
      facts pin it down). */
  function Strip(s: string): (r: string)
    ensures r == "" <==> IsBlank(s)
    ensures r == "" || (!IsSpace(r[0]) && !IsSpace(r[|r| - 1]))
    ensures exists a, b :: 0 <= a <= b <= |s| && r == s[a..b] && IsBlank(s[..a]) && IsBlank(s[b..])
    ensures forall i :: 0 <= i < |r| ==> r[i] in s
  {
    var l := LStrip(s);
    var r := RStrip(l);
    StripPieces(s, l, r);
    r
  }

  lemma StripPieces(s: string, l: string, r: string)
    requires l == LStrip(s) && r == RStrip(l)
    ensures r == "" <==> IsBlank(s)
    ensures exists a, b :: 0 <= a <= b <= |s| && r == s[a..b] && IsBlank(s[..a]) && IsBlank(s[b..])
    ensures forall i :: 0 <= i < |r| ==> r[i] in s
  {
    var d := |s| - |l|;
    assert l == s[d..];
    StripMiddle(s, l, r);
    if r == "" {
      assert forall j :: 0 <= j < |l| ==> IsSpace(l[j]);
      forall i | 0 <= i < |s| ensures IsSpace(s[i]) {
        if i >= d { assert s[i] == l[i - d]; }
      }
    } else {
      assert r[0] == s[d] && !IsSpace(s[d]);
    }
    StripWithin(s, l, r);
  }

  lemma StripWithin(s: string, l: string, r: string)
    requires l == LStrip(s) && r == RStrip(l)
    ensures forall i :: 0 <= i < |r| ==> r[i] in s
  {
    var d := |s| - |l|;
    assert l == s[d..];
    assert r == l[..|r|];
    assert d + |r| <= |s|;
    forall i | 0 <= i < |r| ensures r[i] in s {
      assert r[i] == l[i];
      assert l[i] == s[d + i];
    }
  }

  lemma StripMiddle(s: string, l: string, r: string)
    requires l == LStrip(s) && r == RStrip(l)
    ensures exists a, b :: 0 <= a <= b <= |s| && r == s[a..b] && IsBlank(s[..a]) && IsBlank(s[b..])
  {
    MiddlePiece(s, l, r);
  }

  /** A suffix of `s` after blanks, cut before blanks, is a middle piece of
      `s` with blank ends. */
  lemma MiddlePiece(s: string, l: string, r: string)
    requires |l| <= |s| && l == s[|s| - |l|..] && forall i :: 0 <= i < |s| - |l| ==> IsSpace(s[i])
    requires |r| <= |l| && r == l[..|r|] && forall i :: |r| <= i < |l| ==> IsSpace(l[i])
    ensures exists a, b :: 0 <= a <= b <= |s| && r == s[a..b] && IsBlank(s[..a]) && IsBlank(s[b..])
  {
    var a := |s| - |l|;
    var b := a + |r|;
    assert r == s[a..b];
    assert IsBlank(s[..a]);
    assert IsBlank(s[b..]) by {
      forall i | 0 <= i < |s| - b ensures IsSpace(s[b..][i]) {
        assert s[b..][i] == l[|r| + i];
      }
    }
  }

  /** The facts `Strip` promises determine its result: a middle piece of `s`
      with blank ends around it that is empty or starts and ends with a
      non-whitespace character is `s.strip()`. */
  lemma StripUnique(s: string, t: string, a: nat, b: nat)
    requires a <= b <= |s| && t == s[a..b] && IsBlank(s[..a]) && IsBlank(s[b..])
    requires t == "" || (!IsSpace(t[0]) && !IsSpace(t[|t| - 1]))
    ensures t == Strip(s)
  {
    var r := Strip(s);
    var c, d :| 0 <= c <= d <= |s| && r == s[c..d] && IsBlank(s[..c]) && IsBlank(s[d..]);
    SameMiddle(s, t, a, b, r, c, d);
  }

  /** Two middle pieces of `s` with blank ends, each empty or with
      non-whitespace ends, are the same piece. */
  lemma SameMiddle(s: string, t: string, a: nat, b: nat, u: string, c: nat, d: nat)
    requires a <= b <= |s| && t == s[a..b] && IsBlank(s[..a]) && IsBlank(s[b..])
    requires t == "" || (!IsSpace(t[0]) && !IsSpace(t[|t| - 1]))
    requires c <= d <= |s| && u == s[c..d] && IsBlank(s[..c]) && IsBlank(s[d..])
    requires u == "" || (!IsSpace(u[0]) && !IsSpace(u[|u| - 1]))
    ensures t == u
  {
    BlankEnds(s, a, b);
    BlankEnds(s, c, d);
    assert t != "" ==> !IsSpace(s[a]) && !IsSpace(s[b - 1]);
    assert u != "" ==> !IsSpace(s[c]) && !IsSpace(s[d - 1]);
  }

  /** The blank pieces around `s[a..b]`, position by position. */
  lemma BlankEnds(s: string, a: nat, b: nat)
    requires a <= b <= |s| && IsBlank(s[..a]) && IsBlank(s[b..])
    ensures forall i :: 0 <= i < a ==> IsSpace(s[i])
    ensures forall i :: b <= i < |s| ==> IsSpace(s[i])
  {
    forall i | 0 <= i < a ensures IsSpace(s[i]) {
      assert s[..a][i] == s[i];
    }
    forall i | b <= i < |s| ensures IsSpace(s[i]) {
      assert s[b..][i - b] == s[i];
    }
  }

  /** `s.startswith(p)`. */
  predicate StartsWith(s: string, p: string) {
    |p| <= |s| && s[..|p|] == p
  }

  /** The pieces of `a + (b + rest)` sit where they were put. */
  lemma PrefixThenPiece(s: string, a: string, b: string, rest: string)
    requires s == a + (b + rest)
    ensures |s| >= |a| + |b| && s[..|a|] == a && s[|a|..|a| + |b|] == b
  {
    assert s[|a|..] == b + rest;
  }

  /** `sub in s`: `sub` occurs in `s` as a contiguous piece. */
  predicate Contains(s: string, sub: string)
    decreases |s|
  {
    StartsWith(s, sub) || (|s| > 0 && Contains(s[1..], sub))
  }

  /** `sub` sits in `s` at offset `k`. */
  predicate OccursAt(s: string, sub: string, k: int) {
    0 <= k <= |s| - |sub| && s[k..k + |sub|] == sub
  }

  /** `sub in s` holds exactly when `sub` sits at some offset of `s`. */
  lemma {:induction false} ContainsAt(s: string, sub: string)
    ensures Contains(s, sub) <==> exists k :: OccursAt(s, sub, k)
    decreases |s|
  {
    if StartsWith(s, sub) {
      assert OccursAt(s, sub, 0);
    } else if |s| > 0 {
      ContainsAt(s[1..], sub);
      if exists k :: OccursAt(s, sub, k) {
        var k :| OccursAt(s, sub, k);
        assert k != 0;
        assert s[1..][k - 1..k - 1 + |sub|] == s[k..k + |sub|];
        assert OccursAt(s[1..], sub, k - 1);
      }
      if Contains(s[1..], sub) {
        var k :| OccursAt(s[1..], sub, k);
        assert s[k + 1..k + 1 + |sub|] == s[1..][k..k + |sub|];
        assert OccursAt(s, sub, k + 1);
      }
    } else {
      assert forall k :: !OccursAt(s, sub, k);
    }
  }

  /** A string contains its prefixes. */
  lemma ContainsPrefix(b: string, c: string)
    ensures Contains(b + c, b)
  {
    assert (b + c)[..|b|] == b;
  }

  /** A string that contains `sub` still does once text is put around it. */
  lemma ContainsWithin(a: string, b: string, c: string, sub: string)
    requires Contains(b, sub)
    ensures Contains(a + b + c, sub)
  {
    ContainsAt(b, sub);
    var k :| OccursAt(b, sub, k);
    var s := a + b + c;
    assert s[|a| + k..|a| + k + |sub|] == b[k..k + |sub|];
    assert OccursAt(s, sub, |a| + k);
    ContainsAt(s, sub);
  }

  /** A string shorter than `sub` does not contain it. */
  lemma ContainsNeedsLength(s: string, sub: string)
    requires |s| < |sub|
    ensures !Contains(s, sub)
  {
    ContainsAt(s, sub);
  }

  /** `s.replace(pat, rep)`: every non-overlapping occurrence of `pat`,
      scanning from the left, is replaced by `rep`. */
  function Replace(s: string, pat: string, rep: string): string
    requires |pat| > 0
    decreases |s|
  {
    if |s| < |pat| then s
    else if s[..|pat|] == pat then rep + Replace(s[|pat|..], pat, rep)
    else [s[0]] + Replace(s[1..], pat, rep)
  }

  /** A string without the first character of `pat` is left as it is. */
  lemma {:induction false} ReplaceAbsent(s: string, pat: string, rep: string)
    requires |pat| > 0 && pat[0] !in s
    ensures Replace(s, pat, rep) == s
    decreases |s|
  {
    if |s| >= |pat| {
      assert s[0] != pat[0];
      assert s[..|pat|] != pat;
      ReplaceAbsent(s[1..], pat, rep);
    }
  }
  /** A prefix without the first character of `pat` is copied as it is, and
      the replacement goes on after it. */
  lemma {:induction false} ReplaceSkip(x: string, y: string, pat: string, rep: string)
    requires |pat| > 0 && pat[0] !in x
    ensures Replace(x + y, pat, rep) == x + Replace(y, pat, rep)
    decreases |x|
  {
    if |x| > 0 {
      var s := x + y;
      assert s[0] == x[0] != pat[0];
      assert s[1..] == x[1..] + y;
      if |s| >= |pat| {
        ReplaceSkip(x[1..], y, pat, rep);
        assert s[..|pat|][0] != pat[0];
        assert x == [x[0]] + x[1..];
      } else {
        assert Replace(s, pat, rep) == s && Replace(y, pat, rep) == y;
      }
    } else {
      assert x + y == y;
    }
  }

  /** An occurrence of `pat` after a prefix that cannot start one is
      replaced by `rep`, and the replacement goes on after it. */
  lemma ReplaceStep(x: string, y: string, pat: string, rep: string)
    requires |pat| > 0 && pat[0] !in x
    ensures Replace(x + pat + y, pat, rep) == x + rep + Replace(y, pat, rep)
  {
    ReplaceSkip(x, pat + y, pat, rep);
    assert x + pat + y == x + (pat + y);
    assert (pat + y)[..|pat|] == pat && (pat + y)[|pat|..] == y;
  }

  /** A two-character string `q` that starts like the two-character `pat`
      but is not `pat`, and whose second character cannot start `pat`, is
      copied as it is. */
  lemma ReplaceMiss(q: string, y: string, pat: string, rep: string)
    requires |pat| == 2 && |q| == 2 && q != pat && q[1] != pat[0]
    ensures Replace(q + y, pat, rep) == q + Replace(y, pat, rep)
  {
    var s := q + y;
    assert s[..2] == q && s[1..] == [q[1]] + y;
    ReplaceSkip([q[1]], y, pat, rep);
    assert q == [q[0]] + [q[1]];
  }

  /** A character that does not start an occurrence of `pat` is copied as
      it is, after a prefix that cannot start one either. */
  lemma ReplaceCopy(x: string, c: char, y: string, pat: string, rep: string)
    requires |pat| > 0 && pat[0] !in x && !StartsWith([c] + y, pat)
    ensures Replace(x + [c] + y, pat, rep) == x + [c] + Replace(y, pat, rep)
  {
    var s := [c] + y;
    assert x + [c] + y == x + s;
    assert s[1..] == y;
    ReplaceSkip(x, s, pat, rep);
    if |s| < |pat| {
      assert Replace(y, pat, rep) == y;
    }
  }

  /** The first character of a replacement: the first character of `rep`
      where `pat` begins the string, its own first character otherwise. */
  lemma ReplaceHead(y: string, pat: string, rep: string)
    requires |pat| > 0 && |rep| > 0 && y != ""
    ensures var r := Replace(y, pat, rep);
      r != "" && r[0] == (if StartsWith(y, pat) then rep[0] else y[0])
  {
  }

  /** `ReplaceMiss` after a prefix that cannot start `pat`. */
  lemma ReplaceMissAfter(x: string, q: string, y: string, pat: string, rep: string)
    requires |pat| == 2 && |q| == 2 && q != pat && q[1] != pat[0] && pat[0] !in x
    ensures Replace(x + q + y, pat, rep) == x + q + Replace(y, pat, rep)
  {
    assert x + q + y == x + (q + y);
    ReplaceSkip(x, q + y, pat, rep);
    ReplaceMiss(q, y, pat, rep);
  }

  /** Replacing a two-character `pat` by a single character `c` that is
      neither character of `q` (a two-character string starting like `pat`)
      leaves no `q` behind: not `pat` itself, and no other `q` that was not
      there before. */
  lemma {:induction false} ReplaceKeepsOut(s: string, pat: string, c: char, q: string)
    requires |pat| == 2 && |q| == 2 && q[0] == pat[0]
    requires c != q[0] && c != q[1]
    requires q == pat || !Contains(s, q)
    ensures !Contains(Replace(s, pat, [c]), q)
    decreases |s|
  {
    if |s| < 2 {
      ContainsNeedsLength(s, q);
    } else if s[..2] == pat {
      var rest := s[2..];
      assert s[1..][1..] == rest;
      ReplaceKeepsOut(rest, pat, c, q);
      var out := [c] + Replace(rest, pat, [c]);
      assert out[1..] == Replace(rest, pat, [c]);
      assert out[0] == c;
    } else {
      var rest := s[1..];
      ReplaceKeepsOut(rest, pat, c, q);
      var tail := Replace(rest, pat, [c]);
      assert |tail| > 0 && tail[0] == (if |rest| >= 2 && rest[..2] == pat then c else s[1]);
      var out := [s[0]] + tail;
      assert out[1..] == tail;
      assert out[0] == s[0] && out[1] == tail[0];
      assert s[..2] == [s[0], s[1]];
    }
  }


  /** `s.split(sep)` for a one-character separator: the pieces between
      separators, always at least one. */
  function Split(s: string, sep: char): (r: seq<string>)
    ensures |r| >= 1
    ensures forall i :: 0 <= i < |r| ==> sep !in r[i]
    ensures |r| == 1 ==> r[0] == s
    decreases |s|
  {
    if |s| == 0 then [""]
    else
      var rest := Split(s[1..], sep);
      if s[0] == sep then [""] + rest
      else [[s[0]] + rest[0]] + rest[1..]
  }

  /** `sep.join(pieces)`. */
  function Join(pieces: seq<string>, sep: char): string
    decreases |pieces|
  {
    if |pieces| == 0 then ""
    else if |pieces| == 1 then pieces[0]
    else pieces[0] + [sep] + Join(pieces[1..], sep)
  }

  /** Splitting and joining on the same separator gives back the string. */
  lemma {:induction false} JoinSplit(s: string, sep: char)
    ensures Join(Split(s, sep), sep) == s
    decreases |s|
  {
    if |s| > 0 {
      JoinSplit(s[1..], sep);
      var rest := Split(s[1..], sep);
      if s[0] == sep {
        assert s == [sep] + s[1..];
      } else if |rest| == 1 {
        assert s == [s[0]] + s[1..];
      } else {
        assert Join(rest, sep) == rest[0] + [sep] + Join(rest[1..], sep);
        assert s == [s[0]] + s[1..];
      }
    }
  }

  /** A piece without the separator, followed by a separator, splits off as
      the first piece. */
  lemma {:induction false} SplitAfterPiece(x: string, sep: char, y: string)
    requires sep !in x
    ensures Split(x + [sep] + y, sep) == [x] + Split(y, sep)
    decreases |x|
  {
    if |x| > 0 {
      SplitAfterPiece(x[1..], sep, y);
      assert (x + [sep] + y)[1..] == x[1..] + [sep] + y;
      assert x == [x[0]] + x[1..];
    } else {
      assert x + [sep] + y == [sep] + y;
    }
  }

  /** A string without the separator splits into itself alone. */
  lemma {:induction false} SplitNoSeparator(x: string, sep: char)
    requires sep !in x
    ensures Split(x, sep) == [x]
    decreases |x|
  {
    if |x| > 0 {
      SplitNoSeparator(x[1..], sep);
    }
  }

  /** Joining non-empty many pieces free of the separator and splitting again
      gives back the pieces. */
  lemma {:induction false} SplitJoin(pieces: seq<string>, sep: char)
    requires |pieces| >= 1
    requires forall i :: 0 <= i < |pieces| ==> sep !in pieces[i]
    ensures Split(Join(pieces, sep), sep) == pieces
    decreases |pieces|
  {
    if |pieces| == 1 {
      SplitNoSeparator(pieces[0], sep);
    } else {
      SplitJoin(pieces[1..], sep);
      SplitAfterPiece(pieces[0], sep, Join(pieces[1..], sep));
      assert [pieces[0]] + pieces[1..] == pieces;
    }
  }

  /** The join of pieces whose first piece is not empty is not empty. */
  lemma JoinNonEmpty(pieces: seq<string>, sep: char)
    requires |pieces| >= 1 && pieces[0] != ""
    ensures Join(pieces, sep) != ""
  {
  }

  /** Replacing a pattern in the pattern itself gives the replacement. */
  lemma ReplaceWhole(pat: string, rep: string)
    requires |pat| > 0
    ensures Replace(pat, pat, rep) == rep
  {
    assert pat[..|pat|] == pat && pat[|pat|..] == "";
  }

  /** A concatenation is blank exactly when both parts are. */
  lemma BlankConcat(a: string, b: string)
    ensures IsBlank(a + b) <==> IsBlank(a) && IsBlank(b)
  {
    if IsBlank(a + b) {
      assert forall i :: 0 <= i < |a| ==> a[i] == (a + b)[i];
      assert forall i :: 0 <= i < |b| ==> b[i] == (a + b)[|a| + i];
    }
    if IsBlank(a) && IsBlank(b) {
      forall i | 0 <= i < |a + b| ensures IsSpace((a + b)[i]) {
        if i >= |a| { assert (a + b)[i] == b[i - |a|]; }
      }
    }
  }

  /** Joining with a whitespace separator gives a blank string exactly when
      every piece is blank. */
  lemma {:induction false} BlankJoin(pieces: seq<string>, sep: char)
    requires IsSpace(sep)
    ensures IsBlank(Join(pieces, sep)) <==> forall i :: 0 <= i < |pieces| ==> IsBlank(pieces[i])
    decreases |pieces|
  {
    if |pieces| > 1 {
      BlankJoin(pieces[1..], sep);
      BlankConcat(pieces[0] + [sep], Join(pieces[1..], sep));
      BlankConcat(pieces[0], [sep]);
      assert forall i :: 1 <= i < |pieces| ==> pieces[i] == pieces[1..][i - 1];
    }
  }

  /** Joining a piece in front of at least one more adds it and a
      separator in front. */
  lemma JoinCons(x: string, rest: seq<string>, sep: char)
    requires |rest| >= 1
    ensures Join([x] + rest, sep) == x + [sep] + Join(rest, sep)
  {
    assert ([x] + rest)[1..] == rest;
  }

  /** The join of pieces whose first piece is not empty begins with the
      first character of that piece. */
  lemma JoinFirst(pieces: seq<string>, sep: char)
    requires |pieces| >= 1 && pieces[0] != ""
    ensures var s := Join(pieces, sep); s != "" && s[0] == pieces[0][0]
  {
  }

  /** The join of pieces whose last piece is not empty ends with the last
      character of that piece. */
  lemma {:induction false} JoinLast(pieces: seq<string>, sep: char)
    requires |pieces| >= 1 && pieces[|pieces| - 1] != ""
    ensures var s := Join(pieces, sep); var last := pieces[|pieces| - 1];
      s != "" && s[|s| - 1] == last[|last| - 1]
    decreases |pieces|
  {
    if |pieces| > 1 {
      JoinLast(pieces[1..], sep);
    }
  }

  function Min(a: int, b: int): int { if a <= b then a else b }

  /** `s[:n]` for `n >= 0`: the first `n` characters, or all of `s`. */
  function Head(s: string, n: nat): (r: string)
    ensures |r| == Min(n, |s|) && r == s[..|r|]
  {
    s[..Min(n, |s|)]
  }

  /** `s[-n:]` for `n > 0`: the last `n` characters, or all of `s`. */
  function Tail(s: string, n: nat): (r: string)
    requires n > 0
    ensures |r| == Min(n, |s|) && r == s[|s| - |r|..]
  {
    s[|s| - Min(n, |s|)..]
  }

  /** ASCII lower-casing of one character. */
  function LowerChar(c: char): char {
    if 'A' <= c <= 'Z' then (c as int + 32) as char else c
  }

  /** ASCII `str.lower()`: upper-case ASCII letters become lower-case. */
  function LowerAscii(s: string): (r: string)
    ensures |r| == |s|
    decreases |s|
  {
    if |s| == 0 then "" else [LowerChar(s[0])] + LowerAscii(s[1..])
  }

  /** A string without upper-case ASCII letters is its own lower-casing. */
  lemma {:induction false} LowerAsciiKeeps(s: string)
    requires forall i :: 0 <= i < |s| ==> !('A' <= s[i] <= 'Z')
    ensures LowerAscii(s) == s
    decreases |s|
  {
    if |s| > 0 {
      LowerAsciiKeeps(s[1..]);
      assert s == [s[0]] + s[1..];
    }
  }
}
