/**
 * The part of Python's `urllib.parse.urlsplit` the webhook check relies on:
 * the split of a URL into scheme, authority ("netloc"), path, query and
 * fragment, following section 3 of RFC 3986 and the order in which the
 * library cuts them off (scheme at the first `:`, authority after `//` up to
 * the first `/`, `?` or `#`, then the fragment at the first `#`, then the
 * query at the first `?`).  Absent components are `None` here; the library
 * reports them as empty strings.
 */
module UrlParse {
  import opened Wrappers
  import opened PyStr

  datatype UrlParts = UrlParts(
    scheme: Option<string>,
    authority: Option<string>,
    path: string,
    query: Option<string>,
    fragment: Option<string>)
  {
    /** `parsed.scheme`: lower-cased, empty when absent. */
    function Scheme(): string { LowerAscii(scheme.GetOr("")) }

    /** `parsed.netloc`: empty when absent. */
    function Netloc(): string { authority.GetOr("") }
  }

  /** `s.find(c)`, with `|s|` standing for "not found". */
  function IndexOf(s: string, c: char): (i: nat)
    ensures i <= |s| && (i < |s| ==> s[i] == c)
    ensures forall k :: 0 <= k < i ==> s[k] != c
  {
    if |s| == 0 || s[0] == c then 0 else 1 + IndexOf(s[1..], c)
  }

  /** The first position holding one of `stops`, or `|s|`. */
  function IndexOfAny(s: string, stops: set<char>): (i: nat)
    ensures i <= |s| && (i < |s| ==> s[i] in stops)
    ensures forall k :: 0 <= k < i ==> s[k] !in stops
  {
    if |s| == 0 || s[0] in stops then 0 else 1 + IndexOfAny(s[1..], stops)
  }

  predicate IsAsciiLetter(c: char) {
    ('a' <= c <= 'z') || ('A' <= c <= 'Z')
  }

  /** The characters a scheme may consist of: ASCII letters, digits, `+-.`. */
  predicate IsSchemeChar(c: char) {
    IsAsciiLetter(c) || ('0' <= c <= '9') || c == '+' || c == '-' || c == '.'
  }

  /** A scheme: non-empty, an ASCII letter first, scheme characters only. */
  predicate IsScheme(s: string) {
    |s| > 0 && IsAsciiLetter(s[0]) && forall k :: 0 <= k < |s| ==> IsSchemeChar(s[k])
  }

  /** Cut a scheme off: the text before the first `:` is the scheme when it
      is one.  The two halves reassemble the input (`SchemeAbsent` shows no
      scheme is cut off exactly when no text before a `:` is a scheme). */
  function SplitScheme(url: string): (r: (Option<string>, string))
    ensures r.0.Some? ==> url == r.0.value + ":" + r.1 && |r.0.value| > 0 && IsAsciiLetter(r.0.value[0])
    ensures r.0.Some? ==> forall k :: 0 <= k < |r.0.value| ==> IsSchemeChar(r.0.value[k])
    ensures r.0.None? ==> r.1 == url
    ensures url == (if r.0.Some? then r.0.value + ":" else "") + r.1
  {
    var i := IndexOf(url, ':');
    if 0 < i < |url| && IsAsciiLetter(url[0]) && forall k :: 0 <= k < i ==> IsSchemeChar(url[k]) then
      assert url == url[..i] + ":" + url[i + 1..];
      assert IsScheme(url[..i]);
      (Some(url[..i]), url[i + 1..])
    else
      (None, url)
  }

  /** No scheme is cut off exactly when no text before a `:` is a scheme. */
  lemma SchemeAbsent(url: string)
    ensures SplitScheme(url).0.None? <==> forall j :: 0 <= j < |url| && url[j] == ':' ==> !IsScheme(url[..j])
  {
    var i := IndexOf(url, ':');
    if SplitScheme(url).0.None? {
      forall j | 0 <= j < |url| && url[j] == ':' ensures !IsScheme(url[..j]) {
        assert i <= j;
        assert forall k :: 0 <= k < j ==> url[..j][k] == url[k];
      }
    } else {
      assert url[i] == ':' && IsScheme(url[..i]);
    }
  }

  /** Cut an authority off: after a leading `//`, up to the first `/`, `?`
      or `#`.  The pieces reassemble the input. */
  function SplitAuthority(s: string): (r: (Option<string>, string))
    ensures r.0.Some? ==> s == "//" + r.0.value + r.1
    ensures r.0.Some? ==> forall k :: 0 <= k < |r.0.value| ==> r.0.value[k] !in {'/', '?', '#'}
    ensures r.0.Some? ==> r.1 == "" || r.1[0] in {'/', '?', '#'}
    ensures r.0.None? ==> r.1 == s && !StartsWith(s, "//")
    ensures s == (if r.0.Some? then "//" + r.0.value else "") + r.1
  {
    if StartsWith(s, "//") then
      var j := 2 + IndexOfAny(s[2..], {'/', '?', '#'});
      assert s == "//" + s[2..j] + s[j..];
      (Some(s[2..j]), s[j..])
    else
      (None, s)
  }

  /** `s.split(c, 1)` when `c` occurs, otherwise `s` alone: the pieces
      reassemble the input and the first holds no `c`. */
  function SplitAt(s: string, c: char): (r: (string, Option<string>))
    ensures r.1.Some? ==> s == r.0 + [c] + r.1.value
    ensures r.1.None? ==> r.0 == s
    ensures c !in r.0
    ensures s == r.0 + (if r.1.Some? then [c] + r.1.value else "")
  {
    var i := IndexOf(s, c);
    if i < |s| then
      assert s == s[..i] + [c] + s[i + 1..];
      (s[..i], Some(s[i + 1..]))
    else
      (s, None)
  }

  /** `urlsplit(url)`. */
  function SplitUrl(url: string): (p: UrlParts)
    ensures '?' !in p.path && '#' !in p.path
  {
    var (scheme, afterScheme) := SplitScheme(url);
    var (authority, afterAuthority) := SplitAuthority(afterScheme);
    var (beforeFragment, fragment) := SplitAt(afterAuthority, '#');
    var (path, query) := SplitAt(beforeFragment, '?');
    assert forall k :: 0 <= k < |path| ==> path[k] in beforeFragment;
    UrlParts(scheme, authority, path, query, fragment)
  }

  /** Component recomposition, section 5.3 of RFC 3986. */
  function Recompose(p: UrlParts): string {
    (if p.scheme.Some? then p.scheme.value + ":" else "")
    + (if p.authority.Some? then "//" + p.authority.value else "")
    + p.path
    + (if p.query.Some? then "?" + p.query.value else "")
    + (if p.fragment.Some? then "#" + p.fragment.value else "")
  }

  /** Splitting loses nothing: recomposing the components gives back the URL. */
  lemma RecomposeSplit(url: string)
    ensures Recompose(SplitUrl(url)) == url
  {
    var s1 := SplitScheme(url);
    var s2 := SplitAuthority(s1.1);
    var s3 := SplitAt(s2.1, '#');
    var s4 := SplitAt(s3.0, '?');
    var p := SplitUrl(url);
    assert p == UrlParts(s1.0, s2.0, s4.0, s4.1, s3.1);
    var sc := if s1.0.Some? then s1.0.value + ":" else "";
    var au := if s2.0.Some? then "//" + s2.0.value else "";
    var q := if s4.1.Some? then "?" + s4.1.value else "";
    var f := if s3.1.Some? then "#" + s3.1.value else "";
    assert Recompose(p) == sc + au + s4.0 + q + f;
    Regroup(sc, au, s4.0, q, f);
  }

  /** The query and fragment parts of a URL, with their delimiters. */
  function QueryAndFragment(p: UrlParts): string {
    (if p.query.Some? then "?" + p.query.value else "")
    + (if p.fragment.Some? then "#" + p.fragment.value else "")
  }

  /** A URL with a scheme and an authority is laid out as
      `scheme://authority path query fragment`. */
  lemma LayoutWithAuthority(url: string)
    requires SplitUrl(url).scheme.Some? && SplitUrl(url).authority.Some?
    ensures var p := SplitUrl(url);
      && url == p.scheme.value + ("://" + (p.authority.value + p.path + QueryAndFragment(p)))
      && url == (p.scheme.value + "://") + p.authority.value + (p.path + QueryAndFragment(p))
      && url == (p.scheme.value + "://" + p.authority.value) + p.path + QueryAndFragment(p)
  {
    var p := SplitUrl(url);
    RecomposeSplit(url);
    var sc := p.scheme.value;
    var au := p.authority.value;
    var q := if p.query.Some? then "?" + p.query.value else "";
    var f := if p.fragment.Some? then "#" + p.fragment.value else "";
    assert Recompose(p) == (sc + ":") + ("//" + au) + p.path + q + f;
    Regroup3(sc, au, p.path, q, f);
  }

  lemma Regroup3(sc: string, au: string, path: string, q: string, f: string)
    ensures (sc + ":") + ("//" + au) + path + q + f == sc + ("://" + (au + path + (q + f)))
    ensures (sc + ":") + ("//" + au) + path + q + f == (sc + "://") + au + (path + (q + f))
    ensures (sc + ":") + ("//" + au) + path + q + f == (sc + "://" + au) + path + (q + f)
  {
    assert "://" == ":" + "//";
  }

  /** A well-formed scheme followed by `:` is split off as the scheme. */
  lemma SchemeSplitOf(scheme: string, rest: string)
    requires |scheme| > 0 && IsAsciiLetter(scheme[0])
    requires forall k :: 0 <= k < |scheme| ==> IsSchemeChar(scheme[k])
    ensures SplitScheme(scheme + ":" + rest) == (Some(scheme), rest)
  {
    var url := scheme + ":" + rest;
    assert ':' !in scheme by {
      forall k | 0 <= k < |scheme| ensures scheme[k] != ':' { assert IsSchemeChar(scheme[k]); }
    }
    assert url == scheme + (":" + rest);
    IndexOfAfter(scheme, ":" + rest, ':');
    assert url[..|scheme|] == scheme && url[|scheme| + 1..] == rest;
  }

  /** After `//`, a host without `/`, `?` or `#` followed by a path that
      starts with `/` is split off as the authority. */
  lemma AuthoritySplitOf(host: string, path: string)
    requires forall k :: 0 <= k < |host| ==> host[k] !in {'/', '?', '#'}
    requires |path| > 0 && path[0] == '/'
    ensures SplitAuthority("//" + host + path) == (Some(host), path)
  {
    ThreePieces("//", host, path);
    IndexOfAnyAfter(host, path, {'/', '?', '#'});
  }

  /** A URL whose scheme and authority split off, and whose remainder has
      neither `#` nor `?`, is all path after the authority. */
  lemma SplitUrlOf(url: string, scheme: string, afterScheme: string, host: string, rest: string)
    requires SplitScheme(url) == (Some(scheme), afterScheme)
    requires SplitAuthority(afterScheme) == (Some(host), rest)
    requires '#' !in rest && '?' !in rest
    ensures SplitUrl(url) == UrlParts(Some(scheme), Some(host), rest, None, None)
  {
    assert SplitAt(rest, '#') == (rest, None) && SplitAt(rest, '?') == (rest, None);
  }

  /** Where the pieces of `a + b + c` sit. */
  lemma ThreePieces(a: string, b: string, c: string)
    ensures var s := a + b + c;
      && s[..|a|] == a && s[|a|..] == b + c
      && s[|a|..|a| + |b|] == b && s[|a| + |b|..] == c
  {
  }

  lemma Regroup(a: string, b: string, c: string, d: string, e: string)
    ensures a + b + c + d + e == a + (b + ((c + d) + e))
  {
  }

  /** `s.find(c)` skips a prefix that does not hold `c`. */
  lemma {:induction false} IndexOfAfter(a: string, b: string, c: char)
    requires c !in a
    ensures IndexOf(a + b, c) == |a| + IndexOf(b, c)
    decreases |a|
  {
    if |a| > 0 {
      IndexOfAfter(a[1..], b, c);
      assert (a + b)[1..] == a[1..] + b;
    } else {
      assert a + b == b;
    }
  }

  /** The search for a stop character skips a prefix without one. */
  lemma {:induction false} IndexOfAnyAfter(a: string, b: string, stops: set<char>)
    requires forall k :: 0 <= k < |a| ==> a[k] !in stops
    ensures IndexOfAny(a + b, stops) == |a| + IndexOfAny(b, stops)
    decreases |a|
  {
    if |a| > 0 {
      IndexOfAnyAfter(a[1..], b, stops);
      assert (a + b)[1..] == a[1..] + b;
    } else {
      assert a + b == b;
    }
  }
}
