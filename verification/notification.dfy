/**
 * The notifier of src/feishu/notification.py: the normalisation of message
 * text, the JSON payloads of text and rich-text messages, the classification
 * of one webhook's reply, and the delivery of one payload to every webhook
 * with the aggregation of the per-webhook outcomes into one verdict.
 *
 * The HTTP client is not modelled: what `requests.post` gives for the k-th
 * webhook of a delivery is the value of a function `post` supplied by the
 * caller, so a model run fixes every reply in advance.
 */
module Notification {
  import opened Wrappers
  import opened PyStr

  // ------------------------------------------------------ message format

  /** Steps 1 and 2: the two-character escapes `\n`, `\t` and `\r` become
      line feed, tab and carriage return, in that order. */
  function ExpandEscapes(text: string): string {
    Replace(Replace(Replace(text, "\\n", "\n"), "\\t", "\t"), "\\r", "\r")
  }

  /** After the expansion no escape pair `\n`, `\t` or `\r` is left: each
      replacement removes its own pair, and the single control character it
      puts in place cannot complete a pair with its neighbours. */
  lemma ExpandEscapesDone(text: string)
    ensures var e := ExpandEscapes(text);
      !Contains(e, "\\n") && !Contains(e, "\\t") && !Contains(e, "\\r")
  {
    var n, tab, cr := "\\n", "\\t", "\\r";
    var s1 := Replace(text, n, "\n");
    var s2 := Replace(s1, tab, "\t");
    ReplaceKeepsOut(text, n, '\n', n);
    ReplaceKeepsOut(s1, tab, '\t', n);
    ReplaceKeepsOut(s1, tab, '\t', tab);
    ReplaceKeepsOut(s2, cr, '\r', n);
    ReplaceKeepsOut(s2, cr, '\r', tab);
    ReplaceKeepsOut(s2, cr, '\r', cr);
  }

  /** Each escape becomes its control character: after a backslash-free
      prefix, `\n` turns into a line feed, `\t` into a tab and `\r` into a
      carriage return, and the expansion goes on with the rest. */
  lemma ExpandEscapesStep(a: string, b: string)
    requires '\\' !in a
    ensures ExpandEscapes(a + "\\n" + b) == a + "\n" + ExpandEscapes(b)
    ensures ExpandEscapes(a + "\\t" + b) == a + "\t" + ExpandEscapes(b)
    ensures ExpandEscapes(a + "\\r" + b) == a + "\r" + ExpandEscapes(b)
  {
    ExpandNewline(a, b);
    ExpandTab(a, b);
    ExpandReturn(a, b);
  }

  /** The line-feed case of `ExpandEscapesStep`. */
  lemma ExpandNewline(a: string, b: string)
    requires '\\' !in a
    ensures ExpandEscapes(a + "\\n" + b) == a + "\n" + ExpandEscapes(b)
  {
    var n, tab, cr := "\\n", "\\t", "\\r";
    var b1 := Replace(b, n, "\n");
    var b2 := Replace(b1, tab, "\t");
    ReplaceStep(a, b, n, "\n");
    ReplaceSkip(a + "\n", b1, tab, "\t");
    ReplaceSkip(a + "\n", b2, cr, "\r");
  }

  /** The tab case of `ExpandEscapesStep`. */
  lemma ExpandTab(a: string, b: string)
    requires '\\' !in a
    ensures ExpandEscapes(a + "\\t" + b) == a + "\t" + ExpandEscapes(b)
  {
    var n, tab, cr := "\\n", "\\t", "\\r";
    var b1 := Replace(b, n, "\n");
    var b2 := Replace(b1, tab, "\t");
    ReplaceMissAfter(a, tab, b, n, "\n");
    ReplaceStep(a, b1, tab, "\t");
    ReplaceSkip(a + "\t", b2, cr, "\r");
  }

  /** The carriage-return case of `ExpandEscapesStep`. */
  lemma ExpandReturn(a: string, b: string)
    requires '\\' !in a
    ensures ExpandEscapes(a + "\\r" + b) == a + "\r" + ExpandEscapes(b)
  {
    var n, tab, cr := "\\n", "\\t", "\\r";
    var b1 := Replace(b, n, "\n");
    var b2 := Replace(b1, tab, "\t");
    ReplaceMissAfter(a, cr, b, n, "\n");
    ReplaceMissAfter(a, cr, b1, tab, "\t");
    ReplaceStep(a, b2, cr, "\r");
  }

  /** A backslash that starts none of the three escapes is kept, and the
      expansion goes on with the rest.  With `ExpandEscapesStep` and
      `ExpandEscapesPlain` this fixes the expansion of every text, one
      backslash at a time. */
  lemma ExpandEscapesKeepsBackslash(a: string, b: string)
    requires '\\' !in a
    requires b == "" || b[0] !in {'n', 't', 'r'}
    ensures ExpandEscapes(a + "\\" + b) == a + "\\" + ExpandEscapes(b)
  {
    var n, tab, cr := "\\n", "\\t", "\\r";
    var b1 := Replace(b, n, "\n");
    var b2 := Replace(b1, tab, "\t");
    if b != "" {
      ReplaceHead(b, n, "\n");
      ReplaceHead(b1, tab, "\t");
    }
    KeepsBackslash(a, b, n, "\n");
    KeepsBackslash(a, b1, tab, "\t");
    KeepsBackslash(a, b2, cr, "\r");
  }

  /** One pass of `ExpandEscapesKeepsBackslash`. */
  lemma KeepsBackslash(a: string, b: string, pat: string, rep: string)
    requires '\\' !in a && |pat| == 2 && pat[0] == '\\'
    requires b == "" || b[0] != pat[1]
    ensures Replace(a + "\\" + b, pat, rep) == a + "\\" + Replace(b, pat, rep)
  {
    assert ['\\'] == "\\";
    ReplaceCopy(a, '\\', b, pat, rep);
  }

  /** A text without a backslash has nothing to expand. */
  lemma ExpandEscapesPlain(text: string)
    requires '\\' !in text
    ensures ExpandEscapes(text) == text
  {
    ReplaceAbsent(text, "\\n", "\n");
    ReplaceAbsent(text, "\\t", "\t");
    ReplaceAbsent(text, "\\r", "\r");
  }

  /** `[line.strip() for line in lines]`. */
  function StripAll(lines: seq<string>): (r: seq<string>)
    ensures |r| == |lines|
    ensures forall i :: 0 <= i < |lines| ==> r[i] == Strip(lines[i])
  {
    seq(|lines|, i requires 0 <= i < |lines| => Strip(lines[i]))
  }

  /** Step 3: the stripped lines of the escape-expanded text. */
  function StrippedLines(text: string): seq<string> {
    StripAll(Split(ExpandEscapes(text), '\n'))
  }

  /** Step 4, the `prev_empty` loop: a blank line is kept as one empty line
      unless the line before it was blank as well; other lines are kept. */
  function Collapse(lines: seq<string>): seq<string>
    decreases |lines|
  {
    if |lines| == 0 then []
    else
      var init := lines[..|lines| - 1];
      var line := lines[|lines| - 1];
      if !IsBlank(line) then Collapse(init) + [line]
      else if |init| > 0 && IsBlank(init[|init| - 1]) then Collapse(init)
      else Collapse(init) + [""]
  }

  /** Step 5, first loop: drop the blank lines at the front. */
  function DropLeading(lines: seq<string>): (r: seq<string>)
    ensures |r| <= |lines| && r == lines[|lines| - |r|..]
    ensures r == [] || !IsBlank(r[0])
    ensures forall i :: 0 <= i < |lines| - |r| ==> IsBlank(lines[i])
  {
    if |lines| > 0 && IsBlank(lines[0]) then DropLeading(lines[1..]) else lines
  }

  /** Step 5, second loop: drop the blank lines at the back. */
  function DropTrailing(lines: seq<string>): (r: seq<string>)
    ensures |r| <= |lines| && r == lines[..|r|]
    ensures r == [] || !IsBlank(r[|r| - 1])
    ensures forall i :: |r| <= i < |lines| ==> IsBlank(lines[i])
  {
    if |lines| > 0 && IsBlank(lines[|lines| - 1]) then DropTrailing(lines[..|lines| - 1]) else lines
  }

  /** The lines `_format_message` joins. */
  function Cleaned(text: string): seq<string> {
    DropTrailing(DropLeading(Collapse(StrippedLines(text))))
  }

  /** What `_format_message` makes of a text. */
  function Format(text: string): string {
    Join(Cleaned(text), '\n')
  }

  /** `_format_message`: `None` and the empty string come back unchanged;
      any other text is expanded, split, stripped, collapsed, trimmed of
      blank lines at both ends and joined again. */
  method FormatMessage(text: Option<string>) returns (r: Option<string>)
    ensures text.None? ==> r == None
    ensures text.Some? ==> r == Some(Format(text.value))
  {
    if text.None? || text.value == "" {
      if text.Some? {
        FormatEmpty();
      }
      return text;
    }
    var formatted := Replace(text.value, "\\n", "\n");
    formatted := Replace(formatted, "\\t", "\t");
    formatted := Replace(formatted, "\\r", "\r");
    var lines := StripAll(Split(formatted, '\n'));
    var cleaned := CollapseBlankRuns(lines);
    cleaned := TrimBlankLines(cleaned);
    return Some(Join(cleaned, '\n'));
  }

  /** Step 4: the `prev_empty` loop over the stripped lines. */
  method CollapseBlankRuns(lines: seq<string>) returns (cleaned: seq<string>)
    ensures cleaned == Collapse(lines)
  {
    cleaned := [];
    var prevEmpty := false;
    for i := 0 to |lines|
      invariant cleaned == Collapse(lines[..i])
      invariant prevEmpty == (i > 0 && IsBlank(lines[i - 1]))
    {
      CollapseStep(lines, i);
      var isEmpty := Strip(lines[i]) == "";
      if isEmpty {
        if !prevEmpty {
          cleaned := cleaned + [""];
        }
        prevEmpty := true;
      } else {
        cleaned := cleaned + [lines[i]];
        prevEmpty := false;
      }
    }
    assert lines[..|lines|] == lines;
  }

  /** Step 5: pop blank lines off the front, then off the back. */
  method TrimBlankLines(lines: seq<string>) returns (r: seq<string>)
    ensures r == DropTrailing(DropLeading(lines))
  {
    r := lines;
    while |r| > 0 && Strip(r[0]) == ""
      invariant DropLeading(r) == DropLeading(lines)
      decreases |r|
    {
      r := r[1..];
    }
    ghost var leading := r;
    while |r| > 0 && Strip(r[|r| - 1]) == ""
      invariant DropTrailing(r) == DropTrailing(leading)
      decreases |r|
    {
      r := r[..|r| - 1];
    }
  }

  /** One turn of the `prev_empty` loop. */
  lemma CollapseStep(lines: seq<string>, i: nat)
    requires i < |lines|
    ensures Collapse(lines[..i + 1]) ==
      if !IsBlank(lines[i]) then Collapse(lines[..i]) + [lines[i]]
      else if i > 0 && IsBlank(lines[i - 1]) then Collapse(lines[..i])
      else Collapse(lines[..i]) + [""]
  {
    assert lines[..i + 1][..i] == lines[..i];
  }

  /** The empty text formats to itself. */
  lemma FormatEmpty()
    ensures Format("") == ""
  {
    ReplaceAbsent("", "\\n", "\n");
    ReplaceAbsent("", "\\t", "\t");
    ReplaceAbsent("", "\\r", "\r");
    assert StrippedLines("") == [""];
    assert Collapse([""]) == [""] by {
      assert [""][..0] == [];
    }
  }

  /** A text whose expansion joins lines that are already stripped formats
      to the join of those lines, collapsed and trimmed. */
  lemma FormatOf(text: string, lines: seq<string>)
    requires |lines| >= 1 && ExpandEscapes(text) == Join(lines, '\n')
    requires forall i :: 0 <= i < |lines| ==> '\n' !in lines[i]
    requires forall i :: 0 <= i < |lines| ==> lines[i] == "" || (!IsSpace(lines[i][0]) && !IsSpace(lines[i][|lines[i]| - 1]))
    ensures Format(text) == Join(DropTrailing(DropLeading(Collapse(lines))), '\n')
  {
    SplitJoin(lines, '\n');
    forall i | 0 <= i < |lines|
      ensures Strip(lines[i]) == lines[i]
    {
      assert lines[i][..0] == [] && lines[i][|lines[i]|..] == [];
      StripUnique(lines[i], lines[i], 0, |lines[i]|);
    }
    assert StrippedLines(text) == lines;
  }

  /** A word of a message: non-empty, without backslash or line break, and
      with no whitespace at either end. */
  predicate IsWord(w: string) {
    w != "" && '\\' !in w && '\n' !in w && !IsSpace(w[0]) && !IsSpace(w[|w| - 1])
  }

  /** An escaped line break between two words becomes a real one:
      `"a\\nb"` formats to `"a\nb"`. */
  lemma FormatExpandsEscape(a: string, b: string)
    requires IsWord(a) && IsWord(b)
    ensures Format(a + "\\n" + b) == a + "\n" + b
  {
    var lines := [a] + [b];
    assert Join([b], '\n') == b;
    JoinCons(a, [b], '\n');
    ExpandEscapesStep(a, b);
    ExpandEscapesPlain(b);
    FormatOf(a + "\\n" + b, lines);
    WordsKept(a, b);
  }

  /** A single empty line between two words, a paragraph break, is kept:
      `"a\\n\\nb"` formats to `"a\n\nb"`. */
  lemma FormatKeepsParagraph(a: string, b: string)
    requires IsWord(a) && IsWord(b)
    ensures Format(a + "\\n\\n" + b) == a + "\n\n" + b
  {
    var lines := [a] + ([""] + [b]);
    assert a + "\n" + ("" + "\n" + b) == a + "\n\n" + b;
    assert Join([b], '\n') == b;
    JoinCons("", [b], '\n');
    JoinCons(a, [""] + [b], '\n');
    ParagraphExpanded(a, b);
    FormatOf(a + "\\n\\n" + b, lines);
    ParagraphKept(a, b);
  }

  /** The expansion of the text of `FormatKeepsParagraph`. */
  lemma ParagraphExpanded(a: string, b: string)
    requires IsWord(a) && IsWord(b)
    ensures ExpandEscapes(a + "\\n\\n" + b) == a + "\n\n" + b
  {
    var esc, nl := "\\n", "\n";
    var t1 := esc + b;
    assert "" + esc + b == t1;
    assert a + esc + t1 == a + "\\n\\n" + b;
    assert a + nl + ("" + nl + b) == a + "\n\n" + b;
    ExpandEscapesPlain(b);
    ExpandNewline("", b);
    ExpandNewline(a, t1);
  }

  /** The lines of `FormatKeepsParagraph`: the empty line between two words
      survives collapsing and trimming. */
  lemma ParagraphKept(a: string, b: string)
    requires IsWord(a) && IsWord(b)
    ensures DropTrailing(DropLeading(Collapse([a] + ([""] + [b])))) == [a] + ([""] + [b])
  {
    assert !IsSpace(a[0]) && !IsSpace(b[0]);
    assert [a][..0] == [] && [b][..0] == [];
    assert Collapse([a]) == [a] && Collapse([b]) == [b];
    CollapseBlankBetween([a], [""], [b]);
    assert [a] + [""] + [b] == [a] + ([""] + [b]);
  }

  /** A run of escaped line breaks between two words leaves one empty line
      between them: `"a\\n\\n\\n\\nb"` formats to `"a\n\nb"`. */
  lemma FormatCollapsesRun(a: string, b: string)
    requires IsWord(a) && IsWord(b)
    ensures Format(a + "\\n\\n\\n\\n" + b) == a + "\n\n" + b
  {
    var lines := [a] + ([""] + ([""] + ([""] + [b])));
    assert a + "\n" + ("" + "\n" + b) == a + "\n\n" + b;
    assert Join([b], '\n') == b;
    RunLines(a, b);
    FormatOf(a + "\\n\\n\\n\\n" + b, lines);
    RunCollapsed(a, b);
    JoinCons("", [b], '\n');
    JoinCons(a, [""] + [b], '\n');
  }

  /** The lines of `FormatCollapsesRun` after the expansion. */
  lemma RunLines(a: string, b: string)
    requires IsWord(a) && IsWord(b)
    ensures ExpandEscapes(a + "\\n\\n\\n\\n" + b) == Join([a] + ([""] + ([""] + ([""] + [b]))), '\n')
  {
    RunExpanded(a, b);
    JoinCons("", [b], '\n');
    JoinCons("", [""] + [b], '\n');
    JoinCons("", [""] + ([""] + [b]), '\n');
    JoinCons(a, [""] + ([""] + ([""] + [b])), '\n');
  }

  /** The expansion of the text of `FormatCollapsesRun`. */
  lemma RunExpanded(a: string, b: string)
    requires IsWord(a) && IsWord(b)
    ensures ExpandEscapes(a + "\\n\\n\\n\\n" + b) == a + "\n\n\n\n" + b
  {
    var esc, nl := "\\n", "\n";
    var t1, t2, t3 := esc + b, esc + esc + b, esc + esc + esc + b;
    assert "" + esc + b == t1 && "" + esc + t1 == t2 && "" + esc + t2 == t3;
    assert a + esc + t3 == a + "\\n\\n\\n\\n" + b;
    assert a + nl + ("" + nl + ("" + nl + ("" + nl + b))) == a + "\n\n\n\n" + b;
    ExpandEscapesPlain(b);
    ExpandNewline("", b);
    ExpandNewline("", t1);
    ExpandNewline("", t2);
    ExpandNewline(a, t3);
  }

  /** Escaped line breaks at both ends of a text are trimmed away:
      `"\\n\\na\\nb\\n\\n"` formats to `"a\nb"`. */
  lemma FormatTrimsEnds(a: string, b: string)
    requires IsWord(a) && IsWord(b)
    ensures Format("\\n\\n" + a + "\\n" + b + "\\n\\n") == a + "\n" + b
  {
    var lines := [""] + ([""] + ([a] + ([b] + ([""] + [""]))));
    EndLines(a, b);
    FormatOf("\\n\\n" + a + "\\n" + b + "\\n\\n", lines);
    assert Join([b], '\n') == b;
    EndsTrimmed(a, b);
    JoinCons(a, [b], '\n');
  }

  /** The lines of `FormatTrimsEnds` after the expansion. */
  lemma EndLines(a: string, b: string)
    requires IsWord(a) && IsWord(b)
    ensures ExpandEscapes("\\n\\n" + a + "\\n" + b + "\\n\\n") == Join([""] + ([""] + ([a] + ([b] + ([""] + [""])))), '\n')
  {
    EndsExpanded(a, b);
    JoinCons("", [""], '\n');
    JoinCons(b, [""] + [""], '\n');
    JoinCons(a, [b] + ([""] + [""]), '\n');
    JoinCons("", [a] + ([b] + ([""] + [""])), '\n');
    JoinCons("", [""] + ([a] + ([b] + ([""] + [""]))), '\n');
  }

  /** The expansion of the text of `FormatTrimsEnds`. */
  lemma EndsExpanded(a: string, b: string)
    requires IsWord(a) && IsWord(b)
    ensures ExpandEscapes("\\n\\n" + a + "\\n" + b + "\\n\\n") == "\n\n" + a + "\n" + b + "\n\n"
  {
    var esc, nl := "\\n", "\n";
    var t1 := esc;
    var t2 := b + esc + t1;
    var t3 := a + esc + t2;
    var t4 := "" + esc + t3;
    var t5 := "" + esc + t4;
    assert "" + esc + "" == t1;
    assert t5 == "\\n\\n" + a + "\\n" + b + "\\n\\n";
    assert "" + nl + ("" + nl + (a + nl + (b + nl + ("" + nl + "")))) == "\n\n" + a + "\n" + b + "\n\n";
    ExpandEscapesPlain("");
    ExpandNewline("", "");
    ExpandNewline(b, t1);
    ExpandNewline(a, t2);
    ExpandNewline("", t3);
    ExpandNewline("", t4);
  }

  /** Two words are left as they are by collapsing and trimming. */
  lemma WordsKept(a: string, b: string)
    requires IsWord(a) && IsWord(b)
    ensures DropTrailing(DropLeading(Collapse([a] + [b]))) == [a] + [b]
  {
    assert !IsSpace(a[0]) && !IsSpace(b[0]);
    assert ([a] + [b])[..1] == [a] && [a][..0] == [];
    assert Collapse([a]) == [a];
    assert Collapse([a] + [b]) == [a] + [b];
  }

  /** The lines of `FormatCollapsesRun`: three empty lines between two words
      collapse to one. */
  lemma RunCollapsed(a: string, b: string)
    requires IsWord(a) && IsWord(b)
    ensures DropTrailing(DropLeading(Collapse([a] + ([""] + ([""] + ([""] + [b])))))) == [a] + ([""] + [b])
  {
    var lines := [a] + ([""] + ([""] + ([""] + [b])));
    assert !IsSpace(a[0]) && !IsSpace(b[0]);
    var p4 := [a, "", "", ""];
    var p3 := [a, "", ""];
    var p2 := [a, ""];
    assert lines[..4] == p4 && p4[..3] == p3 && p3[..2] == p2 && p2[..1] == [a] && [a][..0] == [];
    assert Collapse([a]) == [a];
    assert Collapse(p2) == p2;
    assert Collapse(p3) == p2;
    assert Collapse(p4) == p2;
    assert Collapse(lines) == [a, "", b];
    assert [a, "", b] == [a] + ([""] + [b]);
  }

  /** The lines of `FormatTrimsEnds`: the empty lines around two words are
      collapsed and then trimmed. */
  lemma EndsTrimmed(a: string, b: string)
    requires IsWord(a) && IsWord(b)
    ensures DropTrailing(DropLeading(Collapse([""] + ([""] + ([a] + ([b] + ([""] + [""]))))))) == [a] + [b]
  {
    var collapsed := ["", a, b, ""];
    assert collapsed[1..] == [a, b, ""];
    assert [a, b, ""][..2] == [a, b];
    assert [a, b] == [a] + [b];
    assert !IsSpace(a[0]) && !IsSpace(b[0]);
    EndsCollapsed(a, b);
    assert DropLeading(collapsed) == [a, b, ""];
  }

  /** The collapse step of `EndsTrimmed`. */
  lemma EndsCollapsed(a: string, b: string)
    requires IsWord(a) && IsWord(b)
    ensures Collapse([""] + ([""] + ([a] + ([b] + ([""] + [""]))))) == ["", a, b, ""]
  {
    var lines := [""] + ([""] + ([a] + ([b] + ([""] + [""]))));
    var p5 := ["", "", a, b, ""];
    var p4 := ["", "", a, b];
    var p3 := ["", "", a];
    var p2 := ["", ""];
    assert lines[..5] == p5 && p5[..4] == p4 && p4[..3] == p3 && p3[..2] == p2 && p2[..1] == [""] && [""][..0] == [];
    assert !IsSpace(a[0]) && !IsSpace(b[0]);
    assert Collapse(p2) == [""];
    assert Collapse(p3) == ["", a];
    assert Collapse(p4) == ["", a, b];
    assert Collapse(p5) == ["", a, b, ""];
  }

  // ------------------------------------------- the shape of the result

  /** A line without a line feed that neither begins nor ends with
      whitespace. */
  predicate Tidy(line: string) {
    '\n' !in line && (line == "" || (!IsSpace(line[0]) && !IsSpace(line[|line| - 1])))
  }

  predicate AllTidy(lines: seq<string>) {
    forall i :: 0 <= i < |lines| ==> Tidy(lines[i])
  }

  /** No two neighbouring lines are both blank. */
  predicate NoDoubleBlank(lines: seq<string>) {
    forall i :: 0 <= i < |lines| - 1 ==> !(IsBlank(lines[i]) && IsBlank(lines[i + 1]))
  }

  /** The non-blank lines, in order. */
  function NonBlank(lines: seq<string>): seq<string>
    decreases |lines|
  {
    if |lines| == 0 then []
    else
      var last := lines[|lines| - 1];
      NonBlank(lines[..|lines| - 1]) + (if IsBlank(last) then [] else [last])
  }

  lemma StrippedLinesTidy(text: string)
    ensures AllTidy(StrippedLines(text))
  {
    var pieces := Split(ExpandEscapes(text), '\n');
    var lines := StrippedLines(text);
    forall i | 0 <= i < |lines| ensures Tidy(lines[i]) {
      assert lines[i] == Strip(pieces[i]);
      assert '\n' !in pieces[i];
    }
  }

  /** What one more line adds to a collapse: the line itself, one empty
      line at the start of a blank run, or nothing inside one. */
  function Added(init: seq<string>, line: string): seq<string> {
    if !IsBlank(line) then [line]
    else if |init| > 0 && IsBlank(init[|init| - 1]) then []
    else [""]
  }

  /** `Collapse` line by line from the front of its last line. */
  lemma CollapseSnoc(init: seq<string>, line: string)
    ensures Collapse(init + [line]) == Collapse(init) + Added(init, line)
  {
    var s := init + [line];
    assert s[..|s| - 1] == init && s[|s| - 1] == line;
  }

  /** Collapsing works piece by piece where the pieces do not meet in two
      blank lines. */
  lemma {:induction false} CollapseConcat(x: seq<string>, z: seq<string>)
    requires !(|x| > 0 && |z| > 0 && IsBlank(x[|x| - 1]) && IsBlank(z[0]))
    ensures Collapse(x + z) == Collapse(x) + Collapse(z)
    decreases |z|
  {
    if |z| == 0 {
      assert x + z == x;
    } else {
      var zi := z[..|z| - 1];
      var line := z[|z| - 1];
      assert z == zi + [line];
      assert x + z == (x + zi) + [line];
      if |zi| > 0 {
        assert zi[0] == z[0];
        assert (x + zi)[|x + zi| - 1] == zi[|zi| - 1];
      } else {
        assert x + zi == x;
      }
      assert Added(x + zi, line) == Added(zi, line);
      CollapseConcat(x, zi);
      CollapseSnoc(x + zi, line);
      CollapseSnoc(zi, line);
    }
  }

  /** A run of blank lines collapses to a single empty line. */
  lemma {:induction false} CollapseRun(lines: seq<string>)
    requires |lines| > 0
    requires forall i :: 0 <= i < |lines| ==> IsBlank(lines[i])
    ensures Collapse(lines) == [""]
    decreases |lines|
  {
    var init := lines[..|lines| - 1];
    if |init| > 0 {
      CollapseRun(init);
    }
  }

  /** Between two pieces that do not end and start blank, a run of blank
      lines becomes exactly one empty line. */
  lemma CollapseBlankBetween(x: seq<string>, run: seq<string>, z: seq<string>)
    requires |x| == 0 || !IsBlank(x[|x| - 1])
    requires |z| == 0 || !IsBlank(z[0])
    requires |run| > 0 && forall i :: 0 <= i < |run| ==> IsBlank(run[i])
    ensures Collapse(x + run + z) == Collapse(x) + [""] + Collapse(z)
  {
    CollapseConcat(x, run);
    CollapseRun(run);
    assert (x + run)[|x + run| - 1] == run[|run| - 1];
    CollapseConcat(x + run, z);
  }

  /** The last collapsed line is blank exactly when the last input line is. */
  lemma {:induction false} CollapseLast(lines: seq<string>)
    requires |lines| > 0
    ensures var c := Collapse(lines);
      |c| > 0 && (IsBlank(c[|c| - 1]) <==> IsBlank(lines[|lines| - 1]))
    decreases |lines|
  {
    var init := lines[..|lines| - 1];
    if IsBlank(lines[|lines| - 1]) && |init| > 0 && IsBlank(init[|init| - 1]) {
      CollapseLast(init);
    }
  }

  lemma {:induction false} CollapseNoDoubleBlank(lines: seq<string>)
    ensures NoDoubleBlank(Collapse(lines))
    decreases |lines|
  {
    if |lines| > 0 {
      var init := lines[..|lines| - 1];
      var line := lines[|lines| - 1];
      CollapseNoDoubleBlank(init);
      var c := Collapse(init);
      if !IsBlank(line) {
        assert Collapse(lines) == c + [line];
      } else if !(|init| > 0 && IsBlank(init[|init| - 1])) {
        if |init| > 0 {
          CollapseLast(init);
        }
        assert Collapse(lines) == c + [""];
      }
    }
  }

  lemma {:induction false} CollapseTidy(lines: seq<string>)
    requires AllTidy(lines)
    ensures AllTidy(Collapse(lines))
    decreases |lines|
  {
    if |lines| > 0 {
      var init := lines[..|lines| - 1];
      assert forall i :: 0 <= i < |init| ==> init[i] == lines[i];
      CollapseTidy(init);
    }
  }

  /** The non-blank lines of a concatenation. */
  lemma {:induction false} NonBlankConcat(a: seq<string>, b: seq<string>)
    ensures NonBlank(a + b) == NonBlank(a) + NonBlank(b)
    decreases |b|
  {
    if |b| == 0 {
      assert a + b == a;
    } else {
      var b' := b[..|b| - 1];
      NonBlankConcat(a, b');
      assert (a + b)[..|a + b| - 1] == a + b';
    }
  }

  /** A list has no non-blank lines exactly when all its lines are blank. */
  lemma {:induction false} NonBlankNone(lines: seq<string>)
    ensures NonBlank(lines) == [] <==> forall i :: 0 <= i < |lines| ==> IsBlank(lines[i])
    decreases |lines|
  {
    if |lines| > 0 {
      var init := lines[..|lines| - 1];
      NonBlankNone(init);
      assert forall i :: 0 <= i < |init| ==> init[i] == lines[i];
    }
  }

  /** Collapsing keeps the non-blank lines. */
  lemma {:induction false} CollapseKeeps(lines: seq<string>)
    ensures NonBlank(Collapse(lines)) == NonBlank(lines)
    decreases |lines|
  {
    if |lines| > 0 {
      var init := lines[..|lines| - 1];
      var line := lines[|lines| - 1];
      CollapseKeeps(init);
      var c := Collapse(init);
      if !IsBlank(line) {
        assert (c + [line])[..|c|] == c;
      } else if !(|init| > 0 && IsBlank(init[|init| - 1])) {
        assert (c + [""])[..|c|] == c;
      }
    }
  }

  /** Dropping the blank lines at the front keeps the non-blank lines. */
  lemma DropLeadingKeeps(lines: seq<string>)
    ensures NonBlank(DropLeading(lines)) == NonBlank(lines)
  {
    var d := DropLeading(lines);
    var k := |lines| - |d|;
    assert lines == lines[..k] + d;
    NonBlankConcat(lines[..k], d);
    NonBlankNone(lines[..k]);
  }

  /** Dropping the blank lines at the back keeps the non-blank lines. */
  lemma DropTrailingKeeps(lines: seq<string>)
    ensures NonBlank(DropTrailing(lines)) == NonBlank(lines)
  {
    var t := DropTrailing(lines);
    assert lines == t + lines[|t|..];
    NonBlankConcat(t, lines[|t|..]);
    NonBlankNone(lines[|t|..]);
  }

  /** Collapsing and trimming keep the non-blank lines of the text. */
  lemma CleanedKeeps(text: string)
    ensures NonBlank(Cleaned(text)) == NonBlank(StrippedLines(text))
  {
    var lines := StrippedLines(text);
    CollapseKeeps(lines);
    DropLeadingKeeps(Collapse(lines));
    DropTrailingKeeps(DropLeading(Collapse(lines)));
  }

  /** A piece of a list keeps its shape. */
  lemma SliceShape(lines: seq<string>, a: nat, b: nat)
    requires a <= b <= |lines|
    requires AllTidy(lines) && NoDoubleBlank(lines)
    ensures AllTidy(lines[a..b]) && NoDoubleBlank(lines[a..b])
  {
    var s := lines[a..b];
    assert forall i :: 0 <= i < |s| ==> s[i] == lines[a + i];
  }

  /** Collapsed stripped lines are tidy and never two blank in a row. */
  lemma CollapsedShape(text: string)
    ensures AllTidy(Collapse(StrippedLines(text))) && NoDoubleBlank(Collapse(StrippedLines(text)))
  {
    StrippedLinesTidy(text);
    CollapseTidy(StrippedLines(text));
    CollapseNoDoubleBlank(StrippedLines(text));
  }

  /** Trimming blank lines keeps the shape and leaves no blank line at
      either end. */
  lemma TrimmedShape(lines: seq<string>)
    requires AllTidy(lines) && NoDoubleBlank(lines)
    ensures var t := DropTrailing(DropLeading(lines));
      AllTidy(t) && NoDoubleBlank(t) && (t == [] || (!IsBlank(t[0]) && !IsBlank(t[|t| - 1])))
  {
    var d := DropLeading(lines);
    SliceShape(lines, |lines| - |d|, |lines|);
    var t := DropTrailing(d);
    SliceShape(d, 0, |t|);
    assert t == [] || t[0] == d[0];
  }

  /** The lines that are joined are tidy, never two blank ones in a row,
      and neither the first nor the last is blank. */
  lemma CleanedShape(text: string)
    ensures var l := Cleaned(text);
      AllTidy(l) && NoDoubleBlank(l) && (l == [] || (!IsBlank(l[0]) && !IsBlank(l[|l| - 1])))
  {
    CollapsedShape(text);
    TrimmedShape(Collapse(StrippedLines(text)));
  }

  /** Tidy lines joined with newlines split back into themselves (one empty
      line when there are none). */
  lemma TidySplitJoin(l: seq<string>)
    requires AllTidy(l)
    ensures Split(Join(l, '\n'), '\n') == if l == [] then [""] else l
  {
    if l != [] {
      assert forall i :: 0 <= i < |l| ==> '\n' !in l[i] by {
        forall i | 0 <= i < |l| ensures '\n' !in l[i] {
          assert Tidy(l[i]);
        }
      }
      SplitJoin(l, '\n');
    }
  }

  /** The lines of the result are the cleaned lines (one empty line when
      there are none). */
  lemma FormatLines(text: string)
    ensures Split(Format(text), '\n') == if Cleaned(text) == [] then [""] else Cleaned(text)
  {
    CleanedShape(text);
    TidySplitJoin(Cleaned(text));
  }

  /** Every line of `out`, the cleaned lines or a single empty line, is empty
      or starts and ends with a non-whitespace character. */
  lemma TidyOut(l: seq<string>, out: seq<string>)
    requires AllTidy(l) && out == (if l == [] then [""] else l)
    ensures forall i :: 0 <= i < |out| ==> out[i] == "" || (!IsSpace(out[i][0]) && !IsSpace(out[i][|out[i]| - 1]))
  {
    forall i | 0 <= i < |out|
      ensures out[i] == "" || (!IsSpace(out[i][0]) && !IsSpace(out[i][|out[i]| - 1]))
    {
      if l != [] {
        assert Tidy(l[i]);
      }
    }
  }

  /** No line of the result has leading or trailing whitespace. */
  lemma FormatLinesStripped(text: string)
    ensures var out := Split(Format(text), '\n');
      forall i :: 0 <= i < |out| ==> out[i] == "" || (!IsSpace(out[i][0]) && !IsSpace(out[i][|out[i]| - 1]))
  {
    FormatLines(text);
    CleanedShape(text);
    TidyOut(Cleaned(text), Split(Format(text), '\n'));
  }

  /** Neither the cleaned lines nor the single empty line that stands for
      none hold two empty lines in a row. */
  lemma NoDoubleOut(l: seq<string>, out: seq<string>)
    requires NoDoubleBlank(l) && out == (if l == [] then [""] else l)
    ensures forall i :: 0 <= i < |out| - 1 ==> !(out[i] == "" && out[i + 1] == "")
  {
    forall i | 0 <= i < |out| - 1 ensures !(out[i] == "" && out[i + 1] == "") {
      assert !(IsBlank(l[i]) && IsBlank(l[i + 1]));
    }
  }

  /** The result never holds two empty lines in a row. */
  lemma FormatNoDoubleBlank(text: string)
    ensures var out := Split(Format(text), '\n');
      forall i :: 0 <= i < |out| - 1 ==> !(out[i] == "" && out[i + 1] == "")
  {
    FormatLines(text);
    CleanedShape(text);
    NoDoubleOut(Cleaned(text), Split(Format(text), '\n'));
  }

  /** A non-empty join of tidy lines whose first and last lines are not
      blank has non-empty first and last lines and starts and ends with a
      non-whitespace character. */
  lemma TidyJoinEdges(l: seq<string>, s: string)
    requires AllTidy(l) && (l == [] || (!IsBlank(l[0]) && !IsBlank(l[|l| - 1])))
    requires s == Join(l, '\n') && s != ""
    ensures var out := Split(s, '\n'); |out| == |l| > 0 && out[0] != "" && out[|out| - 1] != ""
    ensures !IsSpace(s[0]) && !IsSpace(s[|s| - 1])
  {
    assert l != [];
    TidySplitJoin(l);
    assert Tidy(l[0]) && Tidy(l[|l| - 1]);
    JoinFirst(l, '\n');
    JoinLast(l, '\n');
  }

  /** A non-empty result neither begins nor ends with an empty line, nor
      with any whitespace character. */
  lemma FormatEdges(text: string)
    requires Format(text) != ""
    ensures var out := Split(Format(text), '\n');
      out[0] != "" && out[|out| - 1] != ""
    ensures !IsSpace(Format(text)[0]) && !IsSpace(Format(text)[|Format(text)| - 1])
  {
    CleanedShape(text);
    TidyJoinEdges(Cleaned(text), Format(text));
  }

  /** Non-blank content is kept: the non-empty lines of the result are the
      stripped non-blank lines of the escape-expanded text, in order. */
  lemma FormatKeepsContent(text: string)
    ensures NonBlank(Split(Format(text), '\n')) == NonBlank(StrippedLines(text))
  {
    FormatLines(text);
    CleanedKeeps(text);
    if Cleaned(text) == [] {
      assert [""][..0] == [];
    }
  }

  /** The result is empty exactly when no line survives the cleaning. */
  lemma FormatEmptyWhenNoContent(text: string)
    ensures Format(text) == "" <==> NonBlank(Cleaned(text)) == []
  {
    var l := Cleaned(text);
    CleanedShape(text);
    NonBlankNone(l);
    if l != [] {
      JoinNonEmpty(l, '\n');
    }
  }

  /** Stripping every line leaves no non-blank line exactly when every line
      was blank. */
  lemma StripAllBlank(pieces: seq<string>)
    ensures NonBlank(StripAll(pieces)) == [] <==> forall i :: 0 <= i < |pieces| ==> IsBlank(pieces[i])
  {
    var lines := StripAll(pieces);
    NonBlankNone(lines);
    forall i | 0 <= i < |pieces| ensures IsBlank(lines[i]) <==> IsBlank(pieces[i]) {
      if lines[i] != "" {
        assert !IsSpace(lines[i][0]);
      }
    }
  }

  /** The stripped lines are all blank exactly when the text they come from
      is. */
  lemma StrippedLinesBlank(text: string)
    ensures NonBlank(StrippedLines(text)) == [] <==> IsBlank(ExpandEscapes(text))
  {
    var expanded := ExpandEscapes(text);
    StripAllBlank(Split(expanded, '\n'));
    JoinSplit(expanded, '\n');
    BlankJoin(Split(expanded, '\n'), '\n');
  }

  /** The result is empty exactly when the escape-expanded text is blank. */
  lemma FormatEmptyIff(text: string)
    ensures Format(text) == "" <==> IsBlank(ExpandEscapes(text))
  {
    FormatEmptyWhenNoContent(text);
    CleanedKeeps(text);
    StrippedLinesBlank(text);
  }

  /** A whitespace-only text formats to the empty string. */
  lemma FormatBlank(text: string)
    requires IsBlank(text)
    ensures Format(text) == ""
  {
    ReplaceAbsent(text, "\\n", "\n");
    ReplaceAbsent(text, "\\t", "\t");
    ReplaceAbsent(text, "\\r", "\r");
    FormatEmptyIff(text);
  }

  /** Text whose only content is written as escapes is not blank, yet
      formats to the empty string. */
  lemma EscapeOnlyFormatsEmpty(text: string)
    requires text == "\\n"
    ensures !IsBlank(text) && Format(text) == ""
  {
    assert !IsSpace(text[0]);
    ReplaceWhole(text, "\n");
    ReplaceAbsent("\n", "\\t", "\t");
    ReplaceAbsent("\n", "\\r", "\r");
    assert IsBlank(ExpandEscapes(text));
    FormatEmptyIff(text);
  }

  // ------------------------------------------------------ JSON payloads

  /** A JSON value; numbers are integers (floating point is not modelled). */
  datatype Json =
    | JNull
    | JBool(b: bool)
    | JNumber(n: int)
    | JString(s: string)
    | JArray(items: seq<Json>)
    | JObject(members: map<string, Json>)

  /** The payload `send_text` posts. */
  function TextPayload(text: string): (p: Json)
    ensures p.JObject? && p.members.Keys == {"msg_type", "content"}
    ensures p.members["msg_type"] == JString("text")
    ensures p.members["content"] == JObject(map["text" := JString(text)])
  {
    JObject(map["msg_type" := JString("text"), "content" := JObject(map["text" := JString(text)])])
  }

  /** The payload `send_rich_text` posts. */
  function PostPayload(content: map<string, Json>): (p: Json)
    ensures p.JObject? && p.members.Keys == {"msg_type", "content"}
    ensures p.members["msg_type"] == JString("post")
    ensures p.members["content"] == JObject(map["post" := JObject(content)])
  {
    JObject(map["msg_type" := JString("post"), "content" := JObject(map["post" := JObject(content)])])
  }

  /** The text a text payload carries, if it is one. */
  function CarriedText(p: Json): Option<string> {
    if p.JObject? && "msg_type" in p.members && p.members["msg_type"] == JString("text")
      && "content" in p.members && p.members["content"].JObject?
      && "text" in p.members["content"].members && p.members["content"].members["text"].JString?
    then Some(p.members["content"].members["text"].s)
    else None
  }

  /** A text payload carries exactly the text it was built from, and a
      rich-text payload carries none. */
  lemma PayloadRoundTrip(text: string, content: map<string, Json>)
    ensures CarriedText(TextPayload(text)) == Some(text)
    ensures CarriedText(PostPayload(content)) == None
  {
  }

  // ------------------------------------------------- one webhook's reply

  /** What `requests.post` raised, by the exception classes it belongs to
      (a connect timeout is both a timeout and a connection error, and
      both are request exceptions). */
  datatype Raised = Raised(isTimeout: bool, isConnectionError: bool, isRequestException: bool)

  /** The body of a response: not JSON, or parsed JSON. */
  datatype Body = NotJson | Parsed(value: Json)

  /** What posting to one webhook gave: a response or an exception. */
  datatype Reply = Response(status: int, body: Body) | Failed(raised: Raised)

  /** Why the generic handler of `_send_single_webhook` fired. */
  datatype Cause =
    | HttpStatus(status: int)      // the status code was not 200
    | ApiError(code: Option<Json>) // the JSON object's `code` was not 0
    | NotAnObject                  // the JSON value has no `.get`
    | Crashed                      // some other exception

  /** The error one webhook delivery ends with, by the handler that
      produced it. */
  datatype DeliveryError =
    | TimedOut
    | ConnectionFailed
    | RequestFailed
    | Unknown(cause: Cause)

  /** `result.get('code') != 0` is false: Python compares `0 == 0` and
      `False == 0` as equal. */
  predicate IsZeroCode(code: Option<Json>) {
    code == Some(JNumber(0)) || code == Some(JBool(false))
  }

  /** `dict.get`. */
  function GetKey(m: map<string, Json>, key: string): Option<Json> {
    if key in m then Some(m[key]) else None
  }

  /** `_send_single_webhook` without the transport: which handler, if any,
      a reply ends in.  The errors raised inside the `try` for a bad status
      or a bad code are caught again by its last handler. */
  function ClassifyReply(reply: Reply): Outcome<DeliveryError> {
    match reply
    case Failed(e) =>
      if e.isTimeout then Fail(TimedOut)
      else if e.isConnectionError then Fail(ConnectionFailed)
      else if e.isRequestException then Fail(RequestFailed)
      else Fail(Unknown(Crashed))
    case Response(status, body) =>
      if status != 200 then Fail(Unknown(HttpStatus(status)))
      else match body
        case NotJson => Pass
        case Parsed(JObject(m)) =>
          var code := GetKey(m, "code");
          if IsZeroCode(code) then Pass else Fail(Unknown(ApiError(code)))
        case Parsed(_) => Fail(Unknown(NotAnObject))
  }

  /** A webhook accepts the message exactly when it answers 200 with a body
      that is not JSON, or with a JSON object whose `code` is 0. */
  lemma AcceptedReplies(reply: Reply)
    ensures ClassifyReply(reply).Pass? <==>
      reply.Response? && reply.status == 200
      && (reply.body.NotJson?
          || (reply.body.value.JObject? && "code" in reply.body.value.members
              && reply.body.value.members["code"] in {JNumber(0), JBool(false)}))
  {
  }

  /** A status other than 200 is an error whatever the body; a JSON reply
      that is not an object, or whose `code` is not 0, ends in the generic
      handler; an exception is an error of the first handler whose class it
      belongs to, and the generic handler takes the rest. */
  lemma RejectedReplies(reply: Reply)
    ensures reply.Response? && reply.status != 200 ==> ClassifyReply(reply) == Fail(Unknown(HttpStatus(reply.status)))
    ensures reply.Failed? && reply.raised.isTimeout ==> ClassifyReply(reply) == Fail(TimedOut)
    ensures reply.Failed? && !reply.raised.isTimeout && reply.raised.isConnectionError ==> ClassifyReply(reply) == Fail(ConnectionFailed)
    ensures reply.Failed? && (reply.raised.isTimeout || reply.raised.isConnectionError || reply.raised.isRequestException)
      ==> ClassifyReply(reply).error != Unknown(Crashed)
    ensures reply.Failed? && !reply.raised.isTimeout && !reply.raised.isConnectionError && reply.raised.isRequestException
      ==> ClassifyReply(reply) == Fail(RequestFailed)
    ensures reply.Failed? && !reply.raised.isTimeout && !reply.raised.isConnectionError && !reply.raised.isRequestException
      ==> ClassifyReply(reply) == Fail(Unknown(Crashed))
    ensures reply.Response? && reply.status == 200 && reply.body.Parsed? && !reply.body.value.JObject?
      ==> ClassifyReply(reply) == Fail(Unknown(NotAnObject))
    ensures reply.Response? && reply.status == 200 && reply.body.Parsed? && reply.body.value.JObject?
      && !IsZeroCode(GetKey(reply.body.value.members, "code"))
      ==> ClassifyReply(reply) == Fail(Unknown(ApiError(GetKey(reply.body.value.members, "code"))))
  {
  }

  // ----------------------------------------------- delivery to all hooks

  /** One call of `requests.post`. */
  datatype Request = Request(url: string, payload: Json, headers: map<string, string>, timeout: int)

  /** The requests a delivery makes, in the order of the webhooks. */
  function Requests(webhooks: seq<string>, payload: Json, headers: map<string, string>, timeout: int): (r: seq<Request>)
    ensures |r| == |webhooks|
    ensures forall i :: 0 <= i < |r| ==> r[i] == Request(webhooks[i], payload, headers, timeout)
  {
    seq(|webhooks|, i requires 0 <= i < |webhooks| => Request(webhooks[i], payload, headers, timeout))
  }

  /** The outcome of each request, given what the transport answers to the
      i-th request of the delivery. */
  function Outcomes(reqs: seq<Request>, post: (nat, Request) -> Reply): (r: seq<Outcome<DeliveryError>>)
    ensures |r| == |reqs|
    ensures forall i :: 0 <= i < |r| ==> r[i] == ClassifyReply(post(i, reqs[i]))
  {
    seq(|reqs|, i requires 0 <= i < |reqs| => ClassifyReply(post(i, reqs[i])))
  }

  /** `success_count`: the number of webhooks that accepted. */
  function Delivered(outcomes: seq<Outcome<DeliveryError>>): nat
    decreases |outcomes|
  {
    if |outcomes| == 0 then 0
    else Delivered(outcomes[..|outcomes| - 1]) + (if outcomes[|outcomes| - 1].Pass? then 1 else 0)
  }

  /** `errors`: each failed webhook's 1-based position with its error. */
  function FailureLog(outcomes: seq<Outcome<DeliveryError>>): seq<(nat, DeliveryError)>
    decreases |outcomes|
  {
    if |outcomes| == 0 then []
    else
      var last := outcomes[|outcomes| - 1];
      FailureLog(outcomes[..|outcomes| - 1]) + (if last.Fail? then [(|outcomes|, last.error)] else [])
  }

  /** The `NotificationError` a delivery raises. */
  datatype NotificationError =
    | AllFailed(errors: seq<(nat, DeliveryError)>)
    | PartialFailure(delivered: nat, total: nat, errors: seq<(nat, DeliveryError)>)

  /** The end of `_send_to_webhooks`: no success at all, some failures, or
      `True`. */
  function Verdict(outcomes: seq<Outcome<DeliveryError>>): (r: Result<bool, NotificationError>)
    ensures r.Success? ==> r.value
  {
    var delivered := Delivered(outcomes);
    if delivered == 0 then Failure(AllFailed(FailureLog(outcomes)))
    else if delivered < |outcomes| then Failure(PartialFailure(delivered, |outcomes|, FailureLog(outcomes)))
    else Success(true)
  }

  /** The count and the log together account for every webhook once. */
  lemma {:induction false} FailureLogCount(outcomes: seq<Outcome<DeliveryError>>)
    ensures Delivered(outcomes) + |FailureLog(outcomes)| == |outcomes|
    decreases |outcomes|
  {
    if |outcomes| > 0 {
      FailureLogCount(outcomes[..|outcomes| - 1]);
    }
  }

  /** Each log entry names a failed webhook by its 1-based position, with
      the error it failed with. */
  lemma {:induction false} FailureLogSound(outcomes: seq<Outcome<DeliveryError>>)
    ensures forall k :: 0 <= k < |FailureLog(outcomes)| ==>
      1 <= FailureLog(outcomes)[k].0 <= |outcomes|
      && outcomes[FailureLog(outcomes)[k].0 - 1] == Fail(FailureLog(outcomes)[k].1)
    decreases |outcomes|
  {
    if |outcomes| > 0 {
      var init := outcomes[..|outcomes| - 1];
      FailureLogSound(init);
      assert forall i :: 0 <= i < |init| ==> init[i] == outcomes[i];
    }
  }

  /** The log is in increasing order of position. */
  lemma {:induction false} FailureLogOrdered(outcomes: seq<Outcome<DeliveryError>>)
    ensures forall k, l :: 0 <= k < l < |FailureLog(outcomes)| ==> FailureLog(outcomes)[k].0 < FailureLog(outcomes)[l].0
    decreases |outcomes|
  {
    if |outcomes| > 0 {
      var init := outcomes[..|outcomes| - 1];
      FailureLogOrdered(init);
      FailureLogSound(init);
    }
  }

  /** Position `pos` has an entry in the log. */
  predicate Logged(log: seq<(nat, DeliveryError)>, pos: nat) {
    exists k :: 0 <= k < |log| && log[k].0 == pos
  }

  /** Every failed webhook is in the log. */
  lemma {:induction false} FailureLogComplete(outcomes: seq<Outcome<DeliveryError>>)
    ensures forall i :: 0 <= i < |outcomes| && outcomes[i].Fail? ==> Logged(FailureLog(outcomes), i + 1)
    decreases |outcomes|
  {
    if |outcomes| > 0 {
      var init := outcomes[..|outcomes| - 1];
      FailureLogComplete(init);
      var log := FailureLog(init);
      var full := FailureLog(outcomes);
      forall i | 0 <= i < |outcomes| && outcomes[i].Fail?
        ensures Logged(full, i + 1)
      {
        if i < |init| {
          assert init[i] == outcomes[i];
          var k :| 0 <= k < |log| && log[k].0 == i + 1;
          assert full[k] == log[k];
        } else {
          assert full[|log|].0 == i + 1;
        }
      }
    }
  }

  /** Every webhook accepted exactly when the count reaches the total; none
      did exactly when it stays 0. */
  lemma {:induction false} DeliveredExtremes(outcomes: seq<Outcome<DeliveryError>>)
    ensures Delivered(outcomes) <= |outcomes|
    ensures Delivered(outcomes) == |outcomes| <==> forall i :: 0 <= i < |outcomes| ==> outcomes[i].Pass?
    ensures Delivered(outcomes) == 0 <==> forall i :: 0 <= i < |outcomes| ==> outcomes[i].Fail?
    decreases |outcomes|
  {
    if |outcomes| > 0 {
      var init := outcomes[..|outcomes| - 1];
      DeliveredExtremes(init);
      assert forall i :: 0 <= i < |init| ==> init[i] == outcomes[i];
    }
  }

  /** `_send_to_webhooks` returns `True` exactly when there are webhooks and
      all of them accepted; it reports total failure exactly when none
      accepted, and partial failure, with the count, otherwise. */
  lemma VerdictMeaning(outcomes: seq<Outcome<DeliveryError>>)
    ensures Verdict(outcomes).Success? <==> |outcomes| > 0 && forall i :: 0 <= i < |outcomes| ==> outcomes[i].Pass?
    ensures Verdict(outcomes).Failure? && Verdict(outcomes).error.AllFailed? <==>
      forall i :: 0 <= i < |outcomes| ==> outcomes[i].Fail?
    ensures Verdict(outcomes).Failure? && Verdict(outcomes).error.PartialFailure? ==>
      && 0 < Verdict(outcomes).error.delivered < |outcomes| == Verdict(outcomes).error.total
      && |Verdict(outcomes).error.errors| == |outcomes| - Verdict(outcomes).error.delivered
  {
    DeliveredExtremes(outcomes);
    FailureLogCount(outcomes);
  }
  /** A delivery to at least one webhook succeeds exactly when every webhook
      accepts the message. */
  lemma AllAccepted(reqs: seq<Request>, post: (nat, Request) -> Reply)
    requires |reqs| > 0
    ensures Verdict(Outcomes(reqs, post)).Success? <==>
      forall i :: 0 <= i < |reqs| ==> ClassifyReply(post(i, reqs[i])).Pass?
  {
    var outcomes := Outcomes(reqs, post);
    VerdictMeaning(outcomes);
    assert forall i :: 0 <= i < |reqs| ==> outcomes[i] == ClassifyReply(post(i, reqs[i]));
  }


  /** Two webhooks, the first answering 200 with code 0 and the second
      answering 400: the delivery reports one success out of two, and the
      second webhook's HTTP error. */
  lemma PartialDeliveryExample(reqs: seq<Request>, post: (nat, Request) -> Reply)
    requires |reqs| == 2
    requires post(0, reqs[0]) == Response(200, Parsed(JObject(map["code" := JNumber(0)])))
    requires post(1, reqs[1]) == Response(400, NotJson)
    ensures Verdict(Outcomes(reqs, post)) == Failure(PartialFailure(1, 2, [(2, Unknown(HttpStatus(400)))]))
  {
    var o := Outcomes(reqs, post);
    assert o == [Pass, Fail(Unknown(HttpStatus(400)))];
    assert o[..1] == [Pass] && o[..1][..0] == [];
    assert Delivered(o[..1]) == 1 && FailureLog(o[..1]) == [];
    assert Delivered(o) == 1;
    assert FailureLog(o) == [(2, Unknown(HttpStatus(400)))];
  }

  // --------------------------------------------------------- the notifier

  /** The headers of every request. */
  const JsonHeaders: map<string, string> := map["Content-Type" := "application/json; charset=utf-8"]

  /** The `ValueError`s of the notifier. */
  datatype ArgumentError = EmptyWebhooks | NonPositiveTimeout | EmptyContent

  /** What a send ends with when it does not return `True`. */
  datatype SendError = Invalid(reason: ArgumentError) | Undelivered(error: NotificationError)

  /** The checks of `FeishuNotifier.__init__`, in order. */
  function CheckArguments(webhooks: seq<string>, timeout: int): (r: Outcome<ArgumentError>)
    ensures r.Pass? <==> |webhooks| > 0 && timeout > 0
    ensures r == Fail(EmptyWebhooks) <==> |webhooks| == 0
  {
    if |webhooks| == 0 then Fail(EmptyWebhooks)
    else if timeout <= 0 then Fail(NonPositiveTimeout)
    else Pass
  }

  class FeishuNotifier {
    const webhooks: seq<string>
    const timeout: int
    const headers: map<string, string>

    /** What `__init__` guarantees of a notifier. */
    predicate Valid() {
      |webhooks| > 0 && timeout > 0 && headers == JsonHeaders
    }

    constructor(webhooks: seq<string>, timeout: int)
      requires CheckArguments(webhooks, timeout).Pass?
      ensures this.webhooks == webhooks && this.timeout == timeout
      ensures Valid()
    {
      this.webhooks := webhooks;
      this.timeout := timeout;
      this.headers := JsonHeaders;
    }

    /** `_send_to_webhooks`: post the payload to every webhook in turn,
        counting the successes and logging each failure, then give the
        verdict.  `sent` is the sequence of requests made. */
    method SendToWebhooks(payload: Json, post: (nat, Request) -> Reply)
      returns (r: Result<bool, NotificationError>, sent: seq<Request>)
      requires Valid()
      ensures sent == Requests(webhooks, payload, headers, timeout)
      ensures r == Verdict(Outcomes(sent, post))
      ensures r.Success? <==> forall i :: 0 <= i < |sent| ==> ClassifyReply(post(i, sent[i])).Pass?
    {
      ghost var reqs := Requests(webhooks, payload, headers, timeout);
      ghost var outcomes := Outcomes(reqs, post);
      var successCount := 0;
      var errors: seq<(nat, DeliveryError)> := [];
      sent := [];
      for i := 0 to |webhooks|
        invariant sent == reqs[..i]
        invariant successCount == Delivered(outcomes[..i])
        invariant errors == FailureLog(outcomes[..i])
      {
        var request := Request(webhooks[i], payload, headers, timeout);
        var outcome := ClassifyReply(post(i, request));
        assert outcomes[..i + 1][..i] == outcomes[..i];
        if outcome.Pass? {
          successCount := successCount + 1;
        } else {
          errors := errors + [(i + 1, outcome.error)];
        }
        sent := sent + [request];
      }
      assert outcomes[..|webhooks|] == outcomes;
      assert sent == reqs;
      AllAccepted(sent, post);
      if successCount == 0 {
        r := Failure(AllFailed(errors));
      } else if successCount < |webhooks| {
        r := Failure(PartialFailure(successCount, |webhooks|, errors));
      } else {
        r := Success(true);
      }
    }

    /** `send_text`: a missing or blank text is refused before anything is
        sent; otherwise the formatted text goes to every webhook. */
    method SendText(text: Option<string>, post: (nat, Request) -> Reply)
      returns (r: Result<bool, SendError>, sent: seq<Request>)
      requires Valid()
      ensures text.None? || IsBlank(text.value) ==> r == Failure(Invalid(EmptyContent)) && sent == []
      ensures text.Some? && !IsBlank(text.value) ==>
        && sent == Requests(webhooks, TextPayload(Format(text.value)), headers, timeout)
        && r == Lift(Verdict(Outcomes(sent, post)))
    {
      if text.None? || text.value == "" || Strip(text.value) == "" {
        return Failure(Invalid(EmptyContent)), [];
      }
      var formatted := FormatMessage(text);
      var payload := TextPayload(formatted.value);
      var v;
      v, sent := SendToWebhooks(payload, post);
      r := Lift(v);
    }

    /** `send_rich_text`: missing or empty content is refused before
        anything is sent; otherwise it goes to every webhook. */
    method SendRichText(content: Option<map<string, Json>>, post: (nat, Request) -> Reply)
      returns (r: Result<bool, SendError>, sent: seq<Request>)
      requires Valid()
      ensures content.None? || content.value == map[] ==> r == Failure(Invalid(EmptyContent)) && sent == []
      ensures content.Some? && content.value != map[] ==>
        && sent == Requests(webhooks, PostPayload(content.value), headers, timeout)
        && r == Lift(Verdict(Outcomes(sent, post)))
    {
      if content.None? || |content.value| == 0 {
        return Failure(Invalid(EmptyContent)), [];
      }
      var v;
      v, sent := SendToWebhooks(PostPayload(content.value), post);
      r := Lift(v);
    }
  }

  /** A delivery verdict as the result of a send. */
  function Lift(v: Result<bool, NotificationError>): (r: Result<bool, SendError>)
    ensures r.Success? <==> v.Success?
    ensures v.Failure? ==> r == Failure(Undelivered(v.error))
    ensures v.Success? ==> r.value == v.value
  {
    match v
    case Success(b) => Success(b)
    case Failure(e) => Failure(Undelivered(e))
  }

  /** `FeishuNotifier(webhooks, timeout)`: the `ValueError` of the first
      failed check, or a notifier holding the arguments. */
  method NewNotifier(webhooks: seq<string>, timeout: int) returns (r: Result<FeishuNotifier, ArgumentError>)
    ensures r.Failure? <==> CheckArguments(webhooks, timeout).Fail?
    ensures r.Failure? ==> r.error == CheckArguments(webhooks, timeout).error
    ensures r.Success? ==>
      fresh(r.value) && r.value.Valid() && r.value.webhooks == webhooks && r.value.timeout == timeout
  {
    var check := CheckArguments(webhooks, timeout);
    if check.Fail? {
      return Failure(check.error);
    }
    var notifier := new FeishuNotifier(webhooks, timeout);
    return Success(notifier);
  }
}
