/** The Html class of html_writer.py: a document under construction, held as
    committed lines (each with the delta that follows it) and one pending
    buffer. Every mutating method says its new state as a function of the old
    state (module Document); the properties of those functions are proved
    there and in module Scopes. */
module HtmlWriter {
  import opened Wrappers
  import opened Indentation
  import opened Tags
  import opened Document
  import opened Rendering
  import opened Scopes

  /** What __iadd__, __add__ and tag_with_content accept: a string or
      another Html. */
  datatype Content = Text(text: string) | Fragment(html: Html)

  /** The value a Content stands for. */
  function Snapshot(c: Content): Piece
    reads if c.Fragment? then {c.html} else {}
  {
    match c
    case Text(s) => TextPiece(s)
    case Fragment(h) => DocPiece(h.Value())
  }

  class Html {
    /** _inner_html */
    var lines: seq<Line>
    /** _buffer */
    var buffer: string

    function Value(): Doc
      reads this
    {
      Doc(lines, buffer)
    }

    /** Html.__init__: no content gives no lines, a single string one line,
        a sequence of strings one line each; all with delta nothing. */
    constructor (content: seq<string>)
      ensures Value() == Seeded(content)
      ensures |lines| == |content| && buffer == ""
      ensures forall i :: 0 <= i < |content| ==> lines[i] == Line(content[i], Nothing)
    {
      lines := seq(|content|, i requires 0 <= i < |content| => Line(content[i], Nothing));
      buffer := "";
    }

    /** Html.newline. */
    method Newline(force: bool, indent: Indent)
      modifies this
      ensures Value() == CommitLine(old(Value()), force, indent)
      ensures buffer == ""
      ensures Merges(old(Value()), force) ==>
        var n := |old(lines)|;
        && |lines| == n
        && lines[..n - 1] == old(lines)[..n - 1]
        && lines[n - 1] == Line(old(lines)[n - 1].text, Add(old(lines)[n - 1].indent, indent))
      ensures !Merges(old(Value()), force) ==> lines == old(lines) + [Line(old(buffer), indent)]
    {
      if !force && |buffer| == 0 && |lines| > 0 {
        var last := lines[|lines| - 1];
        lines := lines[..|lines| - 1] + [Line(last.text, Add(last.indent, indent))];
        return;
      }
      lines := lines + [Line(buffer, indent)];
      buffer := "";
    }

    /** Html.newline called with an integer delta, converted by from_int. */
    method NewlineBy(force: bool, indent: int)
      modifies this
      ensures Value() == CommitLine(old(Value()), force, FromInt(indent))
    {
      Newline(force, FromInt(indent));
    }

    /** Html.__iadd__ with a string: only the buffer grows. */
    method AppendText(s: string)
      modifies this
      ensures Value() == WriteText(old(Value()), s)
      ensures lines == old(lines) && buffer == old(buffer) + s
    {
      buffer := buffer + s;
    }

    /** Html.__iadd__ with another document: commit the pending text, commit
        each of the other's lines through newline, take over its buffer. */
    method AppendHtml(other: Html)
      requires other != this
      modifies this
      ensures Value() == SpliceDoc(old(Value()), other.Value())
      ensures buffer == other.buffer
      ensures other.Value() == old(other.Value())
    {
      Newline(false, Nothing);
      ghost var start := Value();
      var otherLines := other.lines;
      var i := 0;
      while i < |otherLines|
        invariant 0 <= i <= |otherLines|
        invariant Value() == Splice(start, otherLines[..i])
      {
        var line := otherLines[i];
        buffer := line.text;
        Newline(false, line.indent);
        assert otherLines[..i + 1][..i] == otherLines[..i];
        i := i + 1;
      }
      assert otherLines[..i] == otherLines;
      buffer := other.buffer;
    }

    /** Html.__iadd__: dispatches on the kind of operand. */
    method Append(c: Content)
      requires c.Fragment? ==> c.html != this
      modifies this
      ensures Value() == AppendPiece(old(Value()), old(Snapshot(c)))
    {
      match c
      case Text(s) => AppendText(s);
      case Fragment(h) => AppendHtml(h);
    }

    /** Html.deepcopy: an independent object with the same lines and buffer. */
    method DeepCopy() returns (r: Html)
      ensures fresh(r)
      ensures r.Value() == Value()
    {
      r := new Html([]);
      r.lines := lines;
      r.buffer := buffer;
    }

    /** Html.__add__: append to a copy; neither operand changes. */
    method Concat(c: Content) returns (target: Html)
      ensures fresh(target)
      ensures target.Value() == AppendPiece(Value(), Snapshot(c))
      ensures Value() == old(Value()) && Snapshot(c) == old(Snapshot(c))
    {
      target := DeepCopy();
      target.Append(c);
    }

    /** The open half of Html.tag: commit, write the open tag, commit it with
        delta indent. */
    method OpenTag(t: TagSpec)
      modifies this
      ensures Value() == OpenScope(old(Value()), OpenTagText(t))
      ensures lines == CommitLine(old(Value()), false, Nothing).lines + [Line(OpenTagText(t), Indent)]
      ensures buffer == ""
    {
      var openTag, closeTag := GetOpenAndCloseTags(t);
      OpenTagShape(t);
      OpenScopeShape(Value(), openTag);
      Newline(false, Nothing);
      AppendText(openTag);
      Newline(false, Indent);
    }

    /** The close half of Html.tag, which the source runs in a finally block:
        commit with delta dedent, write the close tag, commit it. */
    method CloseTag(t: TagSpec)
      modifies this
      ensures Value() == CloseScope(old(Value()), CloseTagText(t))
      ensures lines == CommitLine(old(Value()), false, Dedent).lines + [Line(CloseTagText(t), Nothing)]
      ensures buffer == ""
    {
      var openTag, closeTag := GetOpenAndCloseTags(t);
      OpenTagShape(t);
      CloseScopeShape(Value(), closeTag);
      Newline(false, Dedent);
      AppendText(closeTag);
      Newline(false, Nothing);
    }

    /** Html.enclose_with_tag: the open line goes in front of the document,
        the close half runs at its end. */
    method EncloseWithTag(t: TagSpec)
      modifies this
      ensures Value() == Enclose(old(Value()), OpenTagText(t), CloseTagText(t))
    {
      var openTag, closeTag := GetOpenAndCloseTags(t);
      lines := [Line(openTag, Indent)] + lines;
      Newline(false, Dedent);
      AppendText(closeTag);
      Newline(false, Nothing);
    }

    /** Html.tag_with_content: a tag scope whose body appends c. */
    method TagWithContent(c: Content, t: TagSpec)
      requires c.Fragment? ==> c.html != this
      modifies this
      ensures Value() == CloseScope(AppendPiece(OpenScope(old(Value()), OpenTagText(t)), old(Snapshot(c))), CloseTagText(t))
    {
      OpenTag(t);
      Append(c);
      CloseTag(t);
    }

    /** Html.to_raw_html: one pass over the lines with a running level. */
    method ToRawHtml(indentSize: int) returns (r: Result<string, WriteOutError>)
      ensures r == Render(Value(), indentSize)
    {
      var returnStr := "";
      var indent := 0;
      var i := 0;
      while i < |lines|
        invariant 0 <= i <= |lines|
        invariant indent == Level(lines, i)
        invariant forall k: nat :: 1 <= k <= i ==> Level(lines, k) >= 0
        invariant returnStr == RenderedPrefix(lines, indentSize, i)
      {
        assert indent >= 0;
        RepeatRepeat(indentSize, indent);
        returnStr := returnStr + Repeat(Repeat(" ", indentSize), indent) + lines[i].text + "\n";
        indent := indent + ToInt(lines[i].indent);
        if indent < 0 {
          assert Level(lines, i + 1) < 0;
          return Err(WriteOutError(INVALID_INDENTATION));
        }
        i := i + 1;
      }
      returnStr := returnStr + Repeat(" ", indentSize) + buffer + "\n";
      return Ok(returnStr);
    }

    /** Html.__str__: the rendering with indent_size 2. */
    method ToStr() returns (r: Result<string, WriteOutError>)
      ensures r == Render(Value(), 2)
    {
      r := ToRawHtml(2);
    }

    /** Html.html_template: a DOCTYPE line, then an html scope holding a head
        scope with head and a body scope with body. */
    static method HtmlTemplate(head: Content, body: Content) returns (r: Html)
      ensures fresh(r)
      ensures r.Value() == TemplateDoc(Snapshot(head), Snapshot(body))
    {
      r := new Html(["<!DOCTYPE html>"]);
      r.OpenTag(Bare("html"));
      r.OpenTag(Bare("head"));
      r.Append(head);
      r.CloseTag(Bare("head"));
      r.OpenTag(Bare("body"));
      r.Append(body);
      r.CloseTag(Bare("body"));
      r.CloseTag(Bare("html"));
    }
  }
}
