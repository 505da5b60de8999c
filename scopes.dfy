/** Properties of tag scopes built from the halves of Html.tag, of
    enclose_with_tag and of html_template, stated on document values. */
module Scopes {
  import opened Wrappers
  import opened Indentation
  import opened Tags
  import opened Document
  import opened Rendering

  /** The document html_template builds from its head and body. */
  function TemplateDoc(head: Piece, body: Piece): Doc
  {
    var html := Bare("html");
    var headTag := Bare("head");
    var bodyTag := Bare("body");
    var d0 := OpenScope(OpenScope(Seeded(["<!DOCTYPE html>"]), OpenTagText(html)), OpenTagText(headTag));
    var d1 := CloseScope(AppendPiece(d0, head), CloseTagText(headTag));
    var d2 := CloseScope(AppendPiece(OpenScope(d1, OpenTagText(bodyTag)), body), CloseTagText(bodyTag));
    CloseScope(d2, CloseTagText(html))
  }

  /** A bare tag formats as <name> and </name>. */
  lemma BareTagTexts(name: string)
    ensures OpenTagText(Bare(name)) == "<" + name + ">"
    ensures CloseTagText(Bare(name)) == "</" + name + ">"
  {
    OpenTagWords(Bare(name));
  }

  /** Opening and at once closing a scope gives exactly two lines, the open
      and the close tag, both with delta nothing: they render at the same
      level, and the level after them is the level before. */
  lemma TagScopeWithoutWrites(d: Doc, openTag: string, closeTag: string)
    requires openTag != "" && closeTag != ""
    ensures var base := CommitLine(d, false, Nothing).lines;
      var r := CloseScope(OpenScope(d, openTag), closeTag);
      && r == Doc(base + [Line(openTag, Nothing), Line(closeTag, Nothing)], "")
      && Level(r.lines, |base|) == Total(d.lines)
      && Level(r.lines, |base| + 1) == Total(d.lines)
      && Total(r.lines) == Total(d.lines)
  {
    var base := CommitLine(d, false, Nothing).lines;
    OpenScopeShape(d, openTag);
    var o := OpenScope(d, openTag);
    // the close half folds its dedent into the open line
    CommitLineMerges(o, Dedent);
    AddCancels();
    var m := CommitLine(o, false, Dedent);
    assert m.lines == base + [Line(openTag, Nothing)];
    CloseScopeShape(o, closeTag);
    var r := CloseScope(o, closeTag);
    assert r.lines == base + [Line(openTag, Nothing)] + [Line(closeTag, Nothing)];
    CommitNothingKeepsTotal(d);
    LevelPrefix(r.lines, base, |base|);
    LevelSnoc(base, Line(openTag, Nothing));
    LevelPrefix(r.lines, base + [Line(openTag, Nothing)], |base| + 1);
    LevelSnoc(base + [Line(openTag, Nothing)], Line(closeTag, Nothing));
  }

  /** Opening a scope, writing text and closing it gives three lines: the
      text renders one level deeper than the open and close tags, and the
      scope as a whole leaves the level unchanged. */
  lemma TagScopeWithText(d: Doc, openTag: string, s: string, closeTag: string)
    requires openTag != "" && s != "" && closeTag != ""
    ensures var base := CommitLine(d, false, Nothing).lines;
      var r := CloseScope(WriteText(OpenScope(d, openTag), s), closeTag);
      && r == Doc(base + [Line(openTag, Indent), Line(s, Dedent), Line(closeTag, Nothing)], "")
      && Level(r.lines, |base|) == Total(d.lines)
      && Level(r.lines, |base| + 1) == Total(d.lines) + 1
      && Level(r.lines, |base| + 2) == Total(d.lines)
      && Total(r.lines) == Total(d.lines)
  {
    var base := CommitLine(d, false, Nothing).lines;
    OpenScopeShape(d, openTag);
    var w := WriteText(OpenScope(d, openTag), s);
    CloseScopeShape(w, closeTag);
    var r := CloseScope(w, closeTag);
    var a := base + [Line(openTag, Indent)];
    assert w == Doc(a, s);
    CommitLineAppends(w, false, Dedent);
    var b := a + [Line(s, Dedent)];
    assert CommitLine(w, false, Dedent).lines == b;
    assert r.lines == b + [Line(closeTag, Nothing)];
    CommitNothingKeepsTotal(d);
    LevelPrefix(r.lines, base, |base|);
    LevelSnoc(base, Line(openTag, Indent));
    LevelPrefix(r.lines, a, |a|);
    LevelSnoc(a, Line(s, Dedent));
    LevelPrefix(r.lines, b, |b|);
    LevelSnoc(b, Line(closeTag, Nothing));
  }

  /** enclose_with_tag puts the open tag first and renders every line of the
      original document one level deeper, with its text unchanged; the close
      tag ends the document and the buffer is empty. */
  lemma EncloseIndentsContent(d: Doc, openTag: string, closeTag: string)
    requires closeTag != ""
    ensures var e := Enclose(d, openTag, closeTag);
      && |e.lines| == |d.lines| + (if d.buffer == "" then 2 else 3)
      && e.lines[0].text == openTag
      && e.lines[|e.lines| - 1] == Line(closeTag, Nothing)
      && e.buffer == ""
      && (forall k :: 0 <= k < |d.lines| ==> e.lines[k + 1].text == d.lines[k].text)
      && (forall k :: 0 <= k < |d.lines| ==> Level(e.lines, k + 1) == Level(d.lines, k) + 1)
      && (d.buffer != "" ==>
            e.lines[|d.lines| + 1] == Line(d.buffer, Dedent) && Level(e.lines, |d.lines| + 1) == Total(d.lines) + 1)
  {
    var front := Doc([Line(openTag, Indent)] + d.lines, d.buffer);
    CloseScopeShape(front, closeTag);
    var c := CommitLine(front, false, Dedent);
    var e := Enclose(d, openTag, closeTag);
    assert e.lines == c.lines + [Line(closeTag, Nothing)];
    var n := |d.lines|;
    if Merges(front, false) {
      CommitLineMerges(front, Dedent);
      assert e.lines[..n] == front.lines[..n];
    } else {
      CommitLineAppends(front, false, Dedent);
      assert e.lines[..n + 1] == front.lines;
      LevelPrefix(e.lines, front.lines, n + 1);
      LevelCons(Line(openTag, Indent), d.lines, n);
    }
    EncloseLevels(d, openTag, closeTag);
  }

  /** Every line of the enclosed content is one level deeper than before. */
  lemma EncloseLevels(d: Doc, openTag: string, closeTag: string)
    requires closeTag != ""
    ensures var e := Enclose(d, openTag, closeTag);
      forall k :: 0 <= k < |d.lines| ==> Level(e.lines, k + 1) == Level(d.lines, k) + 1
  {
    var front := Doc([Line(openTag, Indent)] + d.lines, d.buffer);
    var e := Enclose(d, openTag, closeTag);
    var n := |d.lines|;
    assert |e.lines| >= n && e.lines[..n] == front.lines[..n] by {
      CloseScopeShape(front, closeTag);
      var c := CommitLine(front, false, Dedent);
      assert e.lines == c.lines + [Line(closeTag, Nothing)];
      if Merges(front, false) {
        CommitLineMerges(front, Dedent);
      } else {
        CommitLineAppends(front, false, Dedent);
      }
    }
    forall k | 0 <= k < n
      ensures Level(e.lines, k + 1) == Level(d.lines, k) + 1
    {
      assert e.lines[..k + 1] == e.lines[..n][..k + 1];
      assert front.lines[..k + 1] == front.lines[..n][..k + 1];
      LevelPrefix(e.lines, front.lines, k + 1);
      LevelCons(Line(openTag, Indent), d.lines, k);
    }
  }

  /** The lines of a document holding one first line and an outer scope
      that nests two inner scopes, each around one text. */
  function NestedLines(first: string, outerOpen: string, innerOpen1: string, text1: string, innerClose1: string,
                       innerOpen2: string, text2: string, innerClose2: string, outerClose: string): seq<Line>
  {
    [ Line(first, Nothing),
      Line(outerOpen, Indent),
      Line(innerOpen1, Indent),
      Line(text1, Dedent),
      Line(innerClose1, Nothing),
      Line(innerOpen2, Indent),
      Line(text2, Dedent),
      Line(innerClose2, Dedent),
      Line(outerClose, Nothing) ]
  }

  /** Closing an outer scope right after an inner one: the inner close tag
      takes the dedent and the outer close tag follows at the outer level. */
  lemma CloseAfterScope(c: seq<Line>, innerClose: string, outerClose: string)
    requires innerClose != "" && outerClose != ""
    ensures CloseScope(Doc(c + [Line(innerClose, Nothing)], ""), outerClose)
      == Doc(c + [Line(innerClose, Dedent), Line(outerClose, Nothing)], "")
  {
    var d := Doc(c + [Line(innerClose, Nothing)], "");
    CloseScopeShape(d, outerClose);
    CommitLineMerges(d, Dedent);
    AddIdentity(Dedent);
    var m := CommitLine(d, false, Dedent);
    assert m.lines == m.lines[..|c|] + [m.lines[|c|]];
    assert m.lines == c + [Line(innerClose, Dedent)];
  }

  /** Opening a scope on a document with lines and nothing pending. */
  lemma OpenOnLines(a: seq<Line>, openTag: string)
    requires |a| > 0 && openTag != ""
    ensures OpenScope(Doc(a, ""), openTag) == Doc(a + [Line(openTag, Indent)], "")
  {
    CommitNothingIdle(Doc(a, ""));
    OpenScopeShape(Doc(a, ""), openTag);
  }

  /** A whole tag scope holding one text, on a document with lines and
      nothing pending. */
  lemma ScopeOnLines(a: seq<Line>, openTag: string, s: string, closeTag: string)
    requires |a| > 0 && openTag != "" && s != "" && closeTag != ""
    ensures CloseScope(WriteText(OpenScope(Doc(a, ""), openTag), s), closeTag)
      == Doc(a + [Line(openTag, Indent), Line(s, Dedent), Line(closeTag, Nothing)], "")
  {
    CommitNothingIdle(Doc(a, ""));
    TagScopeWithText(Doc(a, ""), openTag, s, closeTag);
  }

  /** NestedLines as the steps of NestedScopes build it. */
  lemma NestedLinesInSteps(first: string, outerOpen: string, innerOpen1: string, text1: string, innerClose1: string,
                           innerOpen2: string, text2: string, innerClose2: string, outerClose: string)
    ensures NestedLines(first, outerOpen, innerOpen1, text1, innerClose1, innerOpen2, text2, innerClose2, outerClose)
      == [Line(first, Nothing), Line(outerOpen, Indent)]
         + [Line(innerOpen1, Indent), Line(text1, Dedent), Line(innerClose1, Nothing)]
         + [Line(innerOpen2, Indent), Line(text2, Dedent)]
         + [Line(innerClose2, Dedent), Line(outerClose, Nothing)]
  {
    var a := [Line(first, Nothing), Line(outerOpen, Indent)];
    var b := a + [Line(innerOpen1, Indent), Line(text1, Dedent), Line(innerClose1, Nothing)];
    var c := b + [Line(innerOpen2, Indent), Line(text2, Dedent)];
    var e := c + [Line(innerClose2, Dedent), Line(outerClose, Nothing)];
    var ls := NestedLines(first, outerOpen, innerOpen1, text1, innerClose1, innerOpen2, text2, innerClose2, outerClose);
    assert |ls| == |e|;
    forall k | 0 <= k < |ls|
      ensures ls[k] == e[k]
    {
      if k < |a| {
        assert e[k] == a[k];
      } else if k < |b| {
        assert e[k] == b[k];
      } else if k < |c| {
        assert e[k] == c[k];
      }
    }
  }

  /** The first inner scope of NestedScopes. */
  lemma FirstNestedScope(first: string, outerOpen: string, innerOpen: string, text: string, innerClose: string)
    requires first != "" && outerOpen != "" && innerOpen != "" && text != "" && innerClose != ""
    ensures
      var d1 := OpenScope(Doc([Line(first, Nothing)], ""), outerOpen);
      CloseScope(WriteText(OpenScope(d1, innerOpen), text), innerClose)
        == Doc([Line(first, Nothing), Line(outerOpen, Indent)]
               + [Line(innerOpen, Indent), Line(text, Dedent), Line(innerClose, Nothing)], "")
  {
    var a := [Line(first, Nothing), Line(outerOpen, Indent)];
    var d1 := OpenScope(Doc([Line(first, Nothing)], ""), outerOpen);
    assert d1 == Doc(a, "") by {
      OpenOnLines([Line(first, Nothing)], outerOpen);
    }
    calc {
      CloseScope(WriteText(OpenScope(d1, innerOpen), text), innerClose);
      CloseScope(WriteText(OpenScope(Doc(a, ""), innerOpen), text), innerClose);
      { ScopeOnLines(a, innerOpen, text, innerClose); }
      Doc(a + [Line(innerOpen, Indent), Line(text, Dedent), Line(innerClose, Nothing)], "");
    }
  }

  /** The scopes of html_template over arbitrary non-empty texts. */
  lemma NestedScopes(first: string, outerOpen: string, innerOpen1: string, text1: string, innerClose1: string,
                     innerOpen2: string, text2: string, innerClose2: string, outerClose: string)
    requires first != "" && outerOpen != "" && innerOpen1 != "" && text1 != "" && innerClose1 != ""
    requires innerOpen2 != "" && text2 != "" && innerClose2 != "" && outerClose != ""
    ensures
      var d1 := OpenScope(Doc([Line(first, Nothing)], ""), outerOpen);
      var d2 := CloseScope(WriteText(OpenScope(d1, innerOpen1), text1), innerClose1);
      var d3 := CloseScope(WriteText(OpenScope(d2, innerOpen2), text2), innerClose2);
      CloseScope(d3, outerClose)
        == Doc(NestedLines(first, outerOpen, innerOpen1, text1, innerClose1, innerOpen2, text2, innerClose2, outerClose), "")
  {
    var a := [Line(first, Nothing), Line(outerOpen, Indent)];
    var b := a + [Line(innerOpen1, Indent), Line(text1, Dedent), Line(innerClose1, Nothing)];
    var c := b + [Line(innerOpen2, Indent), Line(text2, Dedent)];
    var e := c + [Line(innerClose2, Dedent), Line(outerClose, Nothing)];
    var d1 := OpenScope(Doc([Line(first, Nothing)], ""), outerOpen);
    var d2 := CloseScope(WriteText(OpenScope(d1, innerOpen1), text1), innerClose1);
    assert d2 == Doc(b, "") by {
      FirstNestedScope(first, outerOpen, innerOpen1, text1, innerClose1);
    }
    var d3 := CloseScope(WriteText(OpenScope(d2, innerOpen2), text2), innerClose2);
    assert d3 == Doc(c + [Line(innerClose2, Nothing)], "") by {
      ScopeOnLines(b, innerOpen2, text2, innerClose2);
      assert b + [Line(innerOpen2, Indent), Line(text2, Dedent), Line(innerClose2, Nothing)]
          == c + [Line(innerClose2, Nothing)];
    }
    assert CloseScope(d3, outerClose) == Doc(e, "") by {
      CloseAfterScope(c, innerClose2, outerClose);
    }
    NestedLinesInSteps(first, outerOpen, innerOpen1, text1, innerClose1, innerOpen2, text2, innerClose2, outerClose);
  }

  /** The lines html_template builds from a non-empty head text and body
      text. */
  function TemplateLines(head: string, body: string): seq<Line>
  {
    NestedLines("<!DOCTYPE html>", "<html>", "<head>", head, "</head>", "<body>", body, "</body>", "</html>")
  }

  /** The tags html_template uses. */
  lemma TemplateTagTexts()
    ensures OpenTagText(Bare("html")) == "<html>" && CloseTagText(Bare("html")) == "</html>"
    ensures OpenTagText(Bare("head")) == "<head>" && CloseTagText(Bare("head")) == "</head>"
    ensures OpenTagText(Bare("body")) == "<body>" && CloseTagText(Bare("body")) == "</body>"
  {
    BareTagTexts("html");
    BareTagTexts("head");
    BareTagTexts("body");
    assert "<" + "html" + ">" == "<html>" && "</" + "html" + ">" == "</html>";
    assert "<" + "head" + ">" == "<head>" && "</" + "head" + ">" == "</head>";
    assert "<" + "body" + ">" == "<body>" && "</" + "body" + ">" == "</body>";
  }

  /** html_template nests the head and body scopes inside the html scope,
      after the DOCTYPE line, and leaves nothing pending. */
  lemma TemplateWithText(head: string, body: string)
    requires head != "" && body != ""
    ensures TemplateDoc(TextPiece(head), TextPiece(body)) == Doc(TemplateLines(head, body), "")
  {
    TemplateTagTexts();
    assert Seeded(["<!DOCTYPE html>"]) == Doc([Line("<!DOCTYPE html>", Nothing)], "");
    NestedScopes("<!DOCTYPE html>", "<html>", "<head>", head, "</head>", "<body>", body, "</body>", "</html>");
  }

  /** The running levels of the nested document: the texts at depth 2, the
      inner tags at depth 1, the first line and the outer tags at depth 0. */
  lemma NestedLevels(first: string, outerOpen: string, innerOpen1: string, text1: string, innerClose1: string,
                     innerOpen2: string, text2: string, innerClose2: string, outerClose: string)
    ensures var ls := NestedLines(first, outerOpen, innerOpen1, text1, innerClose1, innerOpen2, text2, innerClose2, outerClose);
      && Level(ls, 0) == 0 && Level(ls, 1) == 0 && Level(ls, 2) == 1 && Level(ls, 3) == 2 && Level(ls, 4) == 1
      && Level(ls, 5) == 1 && Level(ls, 6) == 2 && Level(ls, 7) == 1 && Level(ls, 8) == 0 && Level(ls, 9) == 0
  {
    var ls := NestedLines(first, outerOpen, innerOpen1, text1, innerClose1, innerOpen2, text2, innerClose2, outerClose);
    assert Level(ls, 1) == 0;
    assert Level(ls, 2) == 1;
    assert Level(ls, 3) == 2;
    assert Level(ls, 4) == 1;
    assert Level(ls, 5) == 1;
    assert Level(ls, 6) == 2;
    assert Level(ls, 7) == 1;
    assert Level(ls, 8) == 0;
    assert Level(ls, 9) == 0;
  }

  /** Rendered, the nested document shows each line at its depth, and the
      empty pending line after it. */
  lemma NestedRendering(first: string, outerOpen: string, innerOpen1: string, text1: string, innerClose1: string,
                        innerOpen2: string, text2: string, innerClose2: string, outerClose: string, n: int)
    ensures Render(Doc(NestedLines(first, outerOpen, innerOpen1, text1, innerClose1, innerOpen2, text2, innerClose2, outerClose), ""), n)
      == Ok(IndentedLine(n, 0, first) + IndentedLine(n, 0, outerOpen) + IndentedLine(n, 1, innerOpen1)
            + IndentedLine(n, 2, text1) + IndentedLine(n, 1, innerClose1) + IndentedLine(n, 1, innerOpen2)
            + IndentedLine(n, 2, text2) + IndentedLine(n, 1, innerClose2) + IndentedLine(n, 0, outerClose)
            + Repeat(" ", n) + "\n")
  {
    var ls := NestedLines(first, outerOpen, innerOpen1, text1, innerClose1, innerOpen2, text2, innerClose2, outerClose);
    NestedLevels(first, outerOpen, innerOpen1, text1, innerClose1, innerOpen2, text2, innerClose2, outerClose);
    assert IndentationValid(ls);
    assert RenderedPrefix(ls, n, 1) == IndentedLine(n, 0, first);
    assert RenderedPrefix(ls, n, 2) == RenderedPrefix(ls, n, 1) + IndentedLine(n, 0, outerOpen);
    assert RenderedPrefix(ls, n, 3) == RenderedPrefix(ls, n, 2) + IndentedLine(n, 1, innerOpen1);
    assert RenderedPrefix(ls, n, 4) == RenderedPrefix(ls, n, 3) + IndentedLine(n, 2, text1);
    assert RenderedPrefix(ls, n, 5) == RenderedPrefix(ls, n, 4) + IndentedLine(n, 1, innerClose1);
    assert RenderedPrefix(ls, n, 6) == RenderedPrefix(ls, n, 5) + IndentedLine(n, 1, innerOpen2);
    assert RenderedPrefix(ls, n, 7) == RenderedPrefix(ls, n, 6) + IndentedLine(n, 2, text2);
    assert RenderedPrefix(ls, n, 8) == RenderedPrefix(ls, n, 7) + IndentedLine(n, 1, innerClose2);
    assert RenderedPrefix(ls, n, 9) == RenderedPrefix(ls, n, 8) + IndentedLine(n, 0, outerClose);
    var p := RenderedPrefix(ls, n, 9) + Repeat(" ", n);
    assert p + "" == p;
  }

  /** Rendered, html_template shows the head and body texts at depth 2, the
      head and body tags at depth 1, the DOCTYPE line and the html tags at
      depth 0; the empty pending line follows. */
  lemma TemplateRendering(head: string, body: string, indentSize: int)
    ensures Render(Doc(TemplateLines(head, body), ""), indentSize)
      == Ok(IndentedLine(indentSize, 0, "<!DOCTYPE html>") + IndentedLine(indentSize, 0, "<html>")
            + IndentedLine(indentSize, 1, "<head>") + IndentedLine(indentSize, 2, head)
            + IndentedLine(indentSize, 1, "</head>") + IndentedLine(indentSize, 1, "<body>")
            + IndentedLine(indentSize, 2, body) + IndentedLine(indentSize, 1, "</body>")
            + IndentedLine(indentSize, 0, "</html>") + Repeat(" ", indentSize) + "\n")
  {
    NestedRendering("<!DOCTYPE html>", "<html>", "<head>", head, "</head>", "<body>", body, "</body>", "</html>", indentSize);
  }

  /** The lines of a fresh document holding a scope nested in a scope, with
      one text inside. The first line is empty: the first newline of a fresh
      document commits its empty buffer. */
  function PairLines(outerOpen: string, innerOpen: string, text: string, innerClose: string, outerClose: string): seq<Line>
  {
    [ Line("", Nothing),
      Line(outerOpen, Indent),
      Line(innerOpen, Indent),
      Line(text, Dedent),
      Line(innerClose, Dedent),
      Line(outerClose, Nothing) ]
  }

  lemma NestedPair(outerOpen: string, innerOpen: string, text: string, innerClose: string, outerClose: string)
    requires outerOpen != "" && innerOpen != "" && text != "" && innerClose != "" && outerClose != ""
    ensures CloseScope(CloseScope(WriteText(OpenScope(OpenScope(Doc([], ""), outerOpen), innerOpen), text), innerClose), outerClose)
      == Doc(PairLines(outerOpen, innerOpen, text, innerClose, outerClose), "")
  {
    var empty := Doc([], "");
    OpenScopeShape(empty, outerOpen);
    var d1 := OpenScope(empty, outerOpen);
    var a := [Line("", Nothing), Line(outerOpen, Indent)];
    assert d1 == Doc(a, "");
    CommitNothingIdle(d1);
    TagScopeWithText(d1, innerOpen, text, innerClose);
    var d2 := CloseScope(WriteText(OpenScope(d1, innerOpen), text), innerClose);
    var b := a + [Line(innerOpen, Indent), Line(text, Dedent)];
    assert d2 == Doc(b + [Line(innerClose, Nothing)], "");
    CloseAfterScope(b, innerClose, outerClose);
    var r := CloseScope(d2, outerClose);
    assert r.lines == b + [Line(innerClose, Dedent), Line(outerClose, Nothing)];
    var ls := PairLines(outerOpen, innerOpen, text, innerClose, outerClose);
    forall k | 0 <= k < |ls|
      ensures ls[k] == r.lines[k]
    {
      if k < |a| {
        assert r.lines[k] == a[k];
      } else if k < |b| {
        assert r.lines[k] == b[k];
      }
    }
  }

  lemma PairRendering(outerOpen: string, innerOpen: string, text: string, innerClose: string, outerClose: string, n: int)
    ensures Render(Doc(PairLines(outerOpen, innerOpen, text, innerClose, outerClose), ""), n)
      == Ok(IndentedLine(n, 0, "") + IndentedLine(n, 0, outerOpen) + IndentedLine(n, 1, innerOpen)
            + IndentedLine(n, 2, text) + IndentedLine(n, 1, innerClose) + IndentedLine(n, 0, outerClose)
            + Repeat(" ", n) + "\n")
  {
    var ls := PairLines(outerOpen, innerOpen, text, innerClose, outerClose);
    assert Level(ls, 1) == 0;
    assert Level(ls, 2) == 1;
    assert Level(ls, 3) == 2;
    assert Level(ls, 4) == 1;
    assert Level(ls, 5) == 0;
    assert Level(ls, 6) == 0;
    assert IndentationValid(ls);
    assert RenderedPrefix(ls, n, 1) == IndentedLine(n, 0, "");
    assert RenderedPrefix(ls, n, 2) == RenderedPrefix(ls, n, 1) + IndentedLine(n, 0, outerOpen);
    assert RenderedPrefix(ls, n, 3) == RenderedPrefix(ls, n, 2) + IndentedLine(n, 1, innerOpen);
    assert RenderedPrefix(ls, n, 4) == RenderedPrefix(ls, n, 3) + IndentedLine(n, 2, text);
    assert RenderedPrefix(ls, n, 5) == RenderedPrefix(ls, n, 4) + IndentedLine(n, 1, innerClose);
    assert RenderedPrefix(ls, n, 6) == RenderedPrefix(ls, n, 5) + IndentedLine(n, 0, outerClose);
    var p := RenderedPrefix(ls, n, 6) + Repeat(" ", n);
    assert p + "" == p;
  }

  /** The rendered lines of the demo output, one by one. */
  lemma HelloWorldLines()
    ensures IndentedLine(2, 0, "") == "\n"
    ensures IndentedLine(2, 0, "<div>") == "<div>\n"
    ensures IndentedLine(2, 1, "<p>") == "  <p>\n"
    ensures IndentedLine(2, 2, "Hello World!") == "    Hello World!\n"
    ensures IndentedLine(2, 1, "</p>") == "  </p>\n"
    ensures IndentedLine(2, 0, "</div>") == "</div>\n"
    ensures Repeat(" ", 2) == "  "
  {
    assert Repeat(" ", 0) == "";
    assert Repeat(" ", 2) == "  ";
    assert Repeat(" ", 4) == "    ";
    assert IndentedLine(2, 2, "Hello World!") == "    Hello World!\n" by {
      assert Repeat(" ", 2 * 2) == "    ";
      assert "    " + "Hello World!" == "    Hello World!";
      assert "    Hello World!" + "\n" == "    Hello World!\n";
    }
  }

  /** The demo output, joined from its lines. */
  lemma HelloWorldJoin()
    ensures "\n" + "<div>\n" + "  <p>\n" + "    Hello World!\n" + "  </p>\n" + "</div>\n" + "  " + "\n"
         == "\n<div>\n  <p>\n    Hello World!\n  </p>\n</div>\n  \n"
  {
    assert "\n" + "<div>\n" == "\n<div>\n";
    assert "\n<div>\n" + "  <p>\n" == "\n<div>\n  <p>\n";
    assert "\n<div>\n  <p>\n" + "    Hello World!\n" == "\n<div>\n  <p>\n    Hello World!\n";
    assert "\n<div>\n  <p>\n    Hello World!\n" + "  </p>\n" == "\n<div>\n  <p>\n    Hello World!\n  </p>\n";
    assert "\n<div>\n  <p>\n    Hello World!\n  </p>\n" + "</div>\n" == "\n<div>\n  <p>\n    Hello World!\n  </p>\n</div>\n";
    assert "\n<div>\n  <p>\n    Hello World!\n  </p>\n</div>\n" + "  " == "\n<div>\n  <p>\n    Hello World!\n  </p>\n</div>\n  ";
  }

  /** The example of the source's demo script: a div holding a p holding
      "Hello World!", rendered with indent size 2. The output starts with an
      empty line and ends with the pending line of two spaces. */
  lemma HelloWorld()
    ensures var div := Bare("div");
      var p := Bare("p");
      var doc := CloseScope(CloseScope(WriteText(OpenScope(OpenScope(Seeded([]), OpenTagText(div)), OpenTagText(p)),
                   "Hello World!"), CloseTagText(p)), CloseTagText(div));
      Render(doc, 2) == Ok("\n<div>\n  <p>\n    Hello World!\n  </p>\n</div>\n  \n")
  {
    BareTagTexts("div");
    BareTagTexts("p");
    assert "<" + "div" + ">" == "<div>" && "</" + "div" + ">" == "</div>";
    assert "<" + "p" + ">" == "<p>" && "</" + "p" + ">" == "</p>";
    assert Seeded([]) == Doc([], "");
    NestedPair("<div>", "<p>", "Hello World!", "</p>", "</div>");
    var doc := CloseScope(CloseScope(WriteText(OpenScope(OpenScope(Doc([], ""), "<div>"), "<p>"),
                 "Hello World!"), "</p>"), "</div>");
    assert doc == Doc(PairLines("<div>", "<p>", "Hello World!", "</p>", "</div>"), "");
    PairRendering("<div>", "<p>", "Hello World!", "</p>", "</div>", 2);
    HelloWorldLines();
    HelloWorldJoin();
  }
}
