/** The value of an Html document (html_writer.py, class Html): the committed
    lines with their indentation deltas and the uncommitted buffer, and the
    effect of every mutating operation written as a function of that value. */
module Document {
  import opened Indentation

  /** _HtmlLine: a committed line and the delta that takes effect after it. */
  datatype Line = Line(text: string, indent: Indent)

  /** The state of an Html object: _inner_html and _buffer. */
  datatype Doc = Doc(lines: seq<Line>, buffer: string)

  /** Html.__init__: every given string becomes a line with delta nothing
      (None gives no lines, a single string one line). */
  function Seeded(content: seq<string>): Doc
  {
    Doc(seq(|content|, i requires 0 <= i < |content| => Line(content[i], Nothing)), "")
  }

  /** The condition under which newline folds its delta into the last line
      instead of committing the buffer. */
  predicate Merges(d: Doc, force: bool)
  {
    !force && |d.buffer| == 0 && |d.lines| > 0
  }

  /** Html.newline. */
  function CommitLine(d: Doc, force: bool, indent: Indent): Doc
  {
    if Merges(d, force) then
      var last := d.lines[|d.lines| - 1];
      Doc(d.lines[..|d.lines| - 1] + [Line(last.text, Add(last.indent, indent))], d.buffer)
    else
      Doc(d.lines + [Line(d.buffer, indent)], "")
  }

  /** Html.__iadd__ with a string. */
  function WriteText(d: Doc, s: string): Doc
  {
    Doc(d.lines, d.buffer + s)
  }

  /** The loop of Html.__iadd__ with a document: each line's text is put in
      the buffer and committed with that line's delta. */
  function Splice(d: Doc, ls: seq<Line>): Doc
    decreases |ls|
  {
    if ls == [] then d
    else
      var before := Splice(d, ls[..|ls| - 1]);
      var l := ls[|ls| - 1];
      CommitLine(Doc(before.lines, l.text), false, l.indent)
  }

  /** Html.__iadd__ with a document: commit, splice the other lines, then take
      over the other buffer. */
  function SpliceDoc(d: Doc, other: Doc): Doc
  {
    Doc(Splice(CommitLine(d, false, Nothing), other.lines).lines, other.buffer)
  }

  /** What __iadd__ accepts, as a value: a string or another document. */
  datatype Piece = TextPiece(text: string) | DocPiece(doc: Doc)

  /** Html.__iadd__, dispatching on the kind of operand. */
  function AppendPiece(d: Doc, p: Piece): Doc
  {
    match p
    case TextPiece(s) => WriteText(d, s)
    case DocPiece(other) => SpliceDoc(d, other)
  }

  /** The open half of Html.tag. */
  function OpenScope(d: Doc, openTag: string): Doc
  {
    CommitLine(WriteText(CommitLine(d, false, Nothing), openTag), false, Indent)
  }

  /** The close half of Html.tag, also the end of Html.enclose_with_tag. */
  function CloseScope(d: Doc, closeTag: string): Doc
  {
    CommitLine(WriteText(CommitLine(d, false, Dedent), closeTag), false, Nothing)
  }

  /** Html.enclose_with_tag: the open line goes in front of every line. */
  function Enclose(d: Doc, openTag: string, closeTag: string): Doc
  {
    CloseScope(Doc([Line(openTag, Indent)] + d.lines, d.buffer), closeTag)
  }

  /** The running level before line k is rendered: the sum of the deltas of
      lines 0..k-1. */
  function Level(lines: seq<Line>, k: nat): int
    requires k <= |lines|
  {
    if k == 0 then 0 else Level(lines, k - 1) + ToInt(lines[k - 1].indent)
  }

  /** The level after every line. */
  function Total(lines: seq<Line>): int
  {
    Level(lines, |lines|)
  }

  /** The texts of the lines that are not empty, in order. */
  function Texts(lines: seq<Line>): seq<string>
  {
    if lines == [] then []
    else Texts(lines[..|lines| - 1]) + (if lines[|lines| - 1].text == "" then [] else [lines[|lines| - 1].text])
  }

  // ---------------------------------------------------------------------
  // newline

  /** newline without force, with an empty buffer and at least one line:
      the line count stays, only the last line's delta changes (to the old
      delta plus the given one) and the buffer stays empty. */
  lemma CommitLineMerges(d: Doc, indent: Indent)
    requires d.buffer == "" && |d.lines| > 0
    ensures var r := CommitLine(d, false, indent);
      && |r.lines| == |d.lines|
      && r.lines[..|r.lines| - 1] == d.lines[..|d.lines| - 1]
      && r.lines[|r.lines| - 1].text == d.lines[|d.lines| - 1].text
      && r.lines[|r.lines| - 1].indent == Add(d.lines[|d.lines| - 1].indent, indent)
      && r.buffer == ""
  {
  }

  /** newline otherwise: exactly one line (buffer, indent) is appended after
      the unchanged earlier lines and the buffer is emptied. */
  lemma CommitLineAppends(d: Doc, force: bool, indent: Indent)
    requires force || d.buffer != "" || d.lines == []
    ensures CommitLine(d, force, indent) == Doc(d.lines + [Line(d.buffer, indent)], "")
  {
  }

  /** Whichever way it goes, newline leaves the buffer empty, adds at most one
      line and loses no text. */
  lemma CommitLineKeepsTexts(d: Doc, force: bool, indent: Indent)
    ensures var r := CommitLine(d, force, indent);
      && r.buffer == ""
      && |d.lines| <= |r.lines| <= |d.lines| + 1
      && |r.lines| > 0
      && Texts(r.lines) == Texts(d.lines) + (if d.buffer == "" then [] else [d.buffer])
  {
    var r := CommitLine(d, force, indent);
    if Merges(d, force) {
      var n := |d.lines|;
      assert r.lines[..n - 1] == d.lines[..n - 1];
    } else {
      assert r.lines[..|r.lines| - 1] == d.lines;
    }
  }

  /** Level only depends on the lines before k. */
  lemma {:induction false} LevelPrefix(a: seq<Line>, b: seq<Line>, k: nat)
    requires k <= |a| && k <= |b| && a[..k] == b[..k]
    ensures Level(a, k) == Level(b, k)
  {
    if k > 0 {
      assert a[..k - 1] == a[..k][..k - 1] && b[..k - 1] == b[..k][..k - 1];
      assert a[k - 1] == a[..k][k - 1] && b[k - 1] == b[..k][k - 1];
      LevelPrefix(a, b, k - 1);
    }
  }

  /** The level after a line added at the end. */
  lemma LevelSnoc(a: seq<Line>, l: Line)
    ensures Total(a + [l]) == Total(a) + ToInt(l.indent)
  {
    LevelPrefix(a + [l], a, |a|);
  }

  /** A plain newline (delta nothing) never changes the level after the last
      line, whether it merges or appends. */
  lemma CommitNothingKeepsTotal(d: Doc)
    ensures Total(CommitLine(d, false, Nothing).lines) == Total(d.lines)
  {
    var r := CommitLine(d, false, Nothing);
    if Merges(d, false) {
      var n := |d.lines|;
      var init := d.lines[..n - 1];
      assert d.lines == init + [d.lines[n - 1]];
      LevelSnoc(init, d.lines[n - 1]);
      LevelSnoc(init, r.lines[n - 1]);
      assert r.lines == init + [r.lines[n - 1]];
      AddIdentity(d.lines[n - 1].indent);
    } else {
      LevelSnoc(d.lines, Line(d.buffer, Nothing));
    }
  }

  // ---------------------------------------------------------------------
  // __iadd__ with a document

  /** Splicing loses no text and keeps every committed line but the last. */
  lemma {:induction false} SpliceKeepsTexts(d: Doc, ls: seq<Line>)
    ensures Texts(Splice(d, ls).lines) == Texts(d.lines) + Texts(ls)
    ensures |Splice(d, ls).lines| >= |d.lines|
    ensures ls != [] ==> Splice(d, ls).buffer == ""
    ensures ls == [] ==> Splice(d, ls) == d
    decreases |ls|
  {
    if ls != [] {
      var init := ls[..|ls| - 1];
      var l := ls[|ls| - 1];
      SpliceKeepsTexts(d, init);
      var before := Splice(d, init);
      CommitLineKeepsTexts(Doc(before.lines, l.text), false, l.indent);
    }
  }

  /** When no line of the other document has empty text, the splice is an
      exact concatenation of the line sequences. */
  lemma {:induction false} SpliceExact(d: Doc, ls: seq<Line>)
    requires forall k :: 0 <= k < |ls| ==> ls[k].text != ""
    ensures Splice(d, ls).lines == d.lines + ls
    decreases |ls|
  {
    if ls != [] {
      var init := ls[..|ls| - 1];
      SpliceExact(d, init);
      assert d.lines + init + [ls[|ls| - 1]] == d.lines + ls;
    }
  }

  /** A line of the other document with empty text is not appended: its
      delta is folded into the line before it. */
  lemma SpliceMergesEmpty(d: Doc, ls: seq<Line>, delta: Indent)
    requires |Splice(d, ls).lines| > 0
    ensures var before := Splice(d, ls).lines;
      var after := Splice(d, ls + [Line("", delta)]).lines;
      && |after| == |before|
      && after[..|after| - 1] == before[..|before| - 1]
      && after[|after| - 1] == Line(before[|before| - 1].text, Add(before[|before| - 1].indent, delta))
  {
    assert (ls + [Line("", delta)])[..|ls|] == ls;
  }

  /** Appending a document: the buffer becomes the other's buffer, the pending
      text of this one is committed first, and the other's texts follow in
      order; when the other has no empty-text lines its lines are copied
      verbatim after the commit. */
  lemma SpliceDocShape(d: Doc, other: Doc)
    ensures var r := SpliceDoc(d, other);
      && r.buffer == other.buffer
      && Texts(r.lines) == Texts(d.lines) + (if d.buffer == "" then [] else [d.buffer]) + Texts(other.lines)
      && ((forall k :: 0 <= k < |other.lines| ==> other.lines[k].text != "") ==>
            r.lines == CommitLine(d, false, Nothing).lines + other.lines)
  {
    var c := CommitLine(d, false, Nothing);
    CommitLineKeepsTexts(d, false, Nothing);
    SpliceKeepsTexts(c, other.lines);
    if forall k :: 0 <= k < |other.lines| ==> other.lines[k].text != "" {
      SpliceExact(c, other.lines);
    }
  }

  /** The running levels of a concatenation: inside b they are b's own
      levels raised by the level at the end of a. */
  lemma {:induction false} LevelAppend(a: seq<Line>, b: seq<Line>, k: nat)
    requires k <= |b|
    ensures Level(a + b, |a| + k) == Total(a) + Level(b, k)
    decreases k
  {
    if k == 0 {
      assert (a + b)[..|a|] == a[..|a|];
      LevelPrefix(a + b, a, |a|);
    } else {
      LevelAppend(a, b, k - 1);
      assert (a + b)[|a| + k - 1] == b[k - 1];
    }
  }

  /** When no line of the other document has empty text, appending it keeps
      its structure: its lines follow the committed ones verbatim and each
      renders at its own depth in the other document plus the level reached
      before it. */
  lemma SpliceLevels(d: Doc, other: Doc)
    requires forall k :: 0 <= k < |other.lines| ==> other.lines[k].text != ""
    ensures var c := CommitLine(d, false, Nothing).lines;
      var r := SpliceDoc(d, other);
      && r.lines == c + other.lines
      && Total(c) == Total(d.lines)
      && forall k :: 0 <= k <= |other.lines| ==> Level(r.lines, |c| + k) == Total(d.lines) + Level(other.lines, k)
  {
    var c := CommitLine(d, false, Nothing);
    SpliceExact(c, other.lines);
    CommitNothingKeepsTotal(d);
    forall k | 0 <= k <= |other.lines|
      ensures Level(c.lines + other.lines, |c.lines| + k) == Total(d.lines) + Level(other.lines, k)
    {
      LevelAppend(c.lines, other.lines, k);
    }
  }

  /** An empty-text line of the other document that opens a level, spliced
      after a line that already opens one, loses that level: its delta is
      folded into the earlier line and the clamping sum keeps only one
      indent. The other document is what Html(), newline(indent=indent),
      += "x", newline(indent=-1) build; there "x" is at depth 1, and after
      the splice into a document whose last line opens a div it is still at
      depth 1 instead of 2. */
  lemma SpliceLosesLevel()
    ensures var other := Doc([Line("", Indent), Line("x", Dedent)], "");
      && other == CommitLine(WriteText(CommitLine(Seeded([]), false, Indent), "x"), false, FromInt(-1))
      && Level(other.lines, 1) == 1
      && var d := Doc([Line("<div>", Indent)], "");
         var r := SpliceDoc(d, other);
         && Total(d.lines) == 1
         && r.lines == [Line("<div>", Indent), Line("x", Dedent)]
         && Level(r.lines, 1) == 1
         && Level(r.lines, 1) != Total(d.lines) + Level(other.lines, 1)
  {
    var other := Doc([Line("", Indent), Line("x", Dedent)], "");
    var d := Doc([Line("<div>", Indent)], "");
    assert other == CommitLine(WriteText(CommitLine(Seeded([]), false, Indent), "x"), false, FromInt(-1)) by {
      assert Seeded([]) == Doc([], "");
      var e := CommitLine(Doc([], ""), false, Indent);
      assert e == Doc([Line("", Indent)], "");
      assert "" + "x" == "x";
      assert WriteText(e, "x") == Doc([Line("", Indent)], "x");
      assert FromInt(-1) == Dedent;
      assert [Line("", Indent)] + [Line("x", Dedent)] == other.lines;
    }
    var one := [Line("", Indent)];
    var s1 := Splice(d, one);
    assert s1.lines == [Line("<div>", Indent)] by {
      assert one[..0] == [];
      assert s1 == CommitLine(Doc(d.lines, ""), false, Indent);
      IndentClamps();
    }
    assert SpliceDoc(d, other).lines == [Line("<div>", Indent), Line("x", Dedent)] by {
      AddIdentity(Indent);
      assert CommitLine(d, false, Nothing) == d;
      assert other.lines[..|other.lines| - 1] == one;
      assert Splice(d, other.lines) == CommitLine(Doc(s1.lines, "x"), false, Dedent);
    }
  }

  // ---------------------------------------------------------------------
  // the halves of a tag scope

  /** After the open half the buffer is empty and the last line is the open
      tag with delta indent, right after the committed pending text. */
  lemma OpenScopeShape(d: Doc, openTag: string)
    requires openTag != ""
    ensures OpenScope(d, openTag) == Doc(CommitLine(d, false, Nothing).lines + [Line(openTag, Indent)], "")
  {
    CommitLineKeepsTexts(d, false, Nothing);
    var w := WriteText(CommitLine(d, false, Nothing), openTag);
    assert w.buffer == openTag;
  }

  /** After the close half the buffer is empty and the last line is the close
      tag with delta nothing, right after the pending text committed with
      delta dedent. */
  lemma CloseScopeShape(d: Doc, closeTag: string)
    requires closeTag != ""
    ensures CloseScope(d, closeTag) == Doc(CommitLine(d, false, Dedent).lines + [Line(closeTag, Nothing)], "")
  {
    CommitLineKeepsTexts(d, false, Dedent);
    var w := WriteText(CommitLine(d, false, Dedent), closeTag);
    assert w.buffer == closeTag;
  }

  /** Putting a line in front raises every later level by that line's delta. */
  lemma {:induction false} LevelCons(x: Line, s: seq<Line>, k: nat)
    requires k <= |s|
    ensures Level([x] + s, k + 1) == ToInt(x.indent) + Level(s, k)
  {
    if k > 0 {
      LevelCons(x, s, k - 1);
      assert ([x] + s)[k] == s[k - 1];
    }
  }

  /** A plain newline with nothing pending after a committed line changes
      nothing. */
  lemma CommitNothingIdle(d: Doc)
    requires d.buffer == "" && |d.lines| > 0
    ensures CommitLine(d, false, Nothing) == d
  {
    var n := |d.lines|;
    AddIdentity(d.lines[n - 1].indent);
    assert d.lines == d.lines[..n - 1] + [d.lines[n - 1]];
  }
}
