# html_writer in Dafny

A model of `html_writer/html_writer.py`, a small library that builds
indented HTML text line by line. The module has two parts:

- `Indent` is a three-valued indentation delta (dedent, nothing, indent).
  It converts to and from integers, and its sum is clamped by sign.
- `Html` is a document under construction. It holds committed lines
  (`_inner_html`, each line a text plus the delta that takes effect after
  it) and one uncommitted string (`_buffer`). `newline` is the rule that
  commits the buffer. Around it sit string and document appends, tag
  scopes, `enclose_with_tag`, `html_template`, the tag formatter and the
  renderer `to_raw_html`.

Layout:

- `wrappers.dfy` (module `Wrappers`): `Option` and `Result`.
- `indentation.dfy` (module `Indentation`): the `Indent` datatype, with
  `from_int`, `to_int` and `+`.
- `tags.dfy` (module `Tags`): the tag arguments as a value, the open and
  close tag texts as functions, and `_get_open_and_close_tags` as a method
  with loops, proved equal to them.
- `document.dfy` (module `Document`): the state of an `Html` as a value
  `Doc(lines, buffer)`. Here the effect of every mutating operation is a
  function of the old value, and the running level `Level` is defined.
- `rendering.dfy` (module `Rendering`): `Render`, the reference definition
  of `to_raw_html`, with the `WriteOutError` case.
- `scopes.dfy` (module `Scopes`): properties of tag scopes,
  `enclose_with_tag` and `html_template`, and the `div`/`p`/"Hello World!"
  example rendered end to end.
- `html.dfy` (module `HtmlWriter`): `class Html` with the fields `lines`
  and `buffer`, one method per operation of the source. Each mutating
  method states its new `Value()` as the `Document` function of the old
  one. `ToRawHtml` is the source's loop, proved equal to `Render`.

Four behaviours of the code that the model keeps as written:

- `Indent.from_int` classifies any integer by its sign. It raises no error
  for values outside -1..1 (lines 21-27).
- The first `newline` on an empty `Html` commits the empty buffer as a
  line. So a document built from `Html()` by opening tags renders with a
  leading empty line (`Scopes.HelloWorld`).
- The pending line is always rendered after `indent_size` spaces, whatever
  the final level (line 132).
- Appending a document re-commits its lines through `newline` (lines
  151-153). A line of the other document with empty text is therefore
  folded into the line before it, and the clamping `+=` of line 116 can
  drop a level. For example, splicing the lines ("", indent), ("x", dedent)
  after a line ("<div>", indent) puts "x" at depth 1 instead of 2
  (`Document.SpliceLosesLevel`). Without empty-text lines the other
  document's depths are kept (`Document.SpliceLevels`).

## Model

| member | source | states |
|---|---|---|
| Indentation.ToIntRange | html_writer/html_writer.py:29-35 | to_int lies in -1..1 and is 1, -1 or 0 exactly for indent, dedent and nothing |
| Indentation.FromIntToInt | html_writer/html_writer.py:21-35 | from_int(to_int(x)) == x for every delta |
| Indentation.ToIntInjective | html_writer/html_writer.py:29-35 | two deltas have the same integer exactly when they are equal |
| Indentation.ToIntFromInt | html_writer/html_writer.py:21-27 | from_int keeps exactly the sign of any integer, out-of-range ones included, with no error |
| Indentation.AddIsFromIntOfSum | html_writer/html_writer.py:37-39 | a + b is from_int(a.to_int() + b.to_int()) |
| Indentation.AddIsClampedSum | html_writer/html_writer.py:37-39 | the sum's integer is the sign of the integer sum, and is the exact sum when that lies in -1..1 |
| Indentation.AddCommutative | html_writer/html_writer.py:37-39 | a + b == b + a |
| Indentation.AddIdentity | html_writer/html_writer.py:37-39 | nothing is a left and right identity |
| Indentation.AddCancels | html_writer/html_writer.py:37-39 | indent + dedent and dedent + indent are nothing |
| Indentation.IndentClamps | html_writer/html_writer.py:37-39 | indent + indent == indent (clamped) |
| Indentation.DedentClamps | html_writer/html_writer.py:37-39 | dedent + dedent == dedent (clamped) |
| Indentation.AddNotAssociative | html_writer/html_writer.py:37-39 | because of the clamping, (indent + indent) + dedent differs from indent + (indent + dedent) |
| Tags.GetOpenAndCloseTags | html_writer/html_writer.py:168-193 | the loops build exactly OpenTagText and CloseTagText: `<` + the space-joined words + `>`, the words being the name, `id=ID`, `class="..."` with the classes space-joined, `style="k: v; ..."`, and one `key="val"` per attribute in the order supplied; the close tag is `</name>` |
| Tags.Join | html_writer/html_writer.py:191 | Python's join of a non-empty list starts with its first item |
| Tags.OpenTagShape | html_writer/html_writer.py:191-192 | the open tag starts with `<` and the name and ends with `>`; the close tag is `</` + name + `>` |
| Tags.OpenTagWords | html_writer/html_writer.py:176-191 | the name is the only word exactly when no id, classes or styles are given and the attributes are absent or empty; then the tag is `<name>`, and otherwise the name is followed by a space and the other words joined by spaces |
| Document.CommitLineMerges | html_writer/html_writer.py:114-117 | newline without force, with an empty buffer and at least one line, keeps the line count and every line but the last; the last keeps its text and gets old delta + given delta; the buffer stays empty |
| Document.CommitLineAppends | html_writer/html_writer.py:118-119 | otherwise newline appends exactly the line (buffer, delta) after the unchanged lines and empties the buffer |
| Document.CommitLineKeepsTexts | html_writer/html_writer.py:107-119 | either way the buffer ends empty, at most one line is added, and the non-empty committed texts are the old ones followed by the old buffer |
| Document.CommitNothingIdle | html_writer/html_writer.py:114-117 | a plain newline with nothing pending, after at least one line, leaves the document unchanged |
| Document.CommitNothingKeepsTotal | html_writer/html_writer.py:107-119 | a plain newline never changes the running level after the last line |
| Document.LevelPrefix | html_writer/html_writer.py:126-129 | the running level before line k depends only on lines 0..k-1 |
| Document.LevelSnoc | html_writer/html_writer.py:129 | a line added at the end adds its delta to the final level |
| Document.LevelCons | html_writer/html_writer.py:92 | a line put in front adds its delta to every later running level |
| Document.SpliceKeepsTexts | html_writer/html_writer.py:151-153 | re-committing the other document's lines loses no text, never removes a line, ends with an empty buffer when any line was spliced, and changes nothing when there is none |
| Document.SpliceExact | html_writer/html_writer.py:151-153 | when no line of the other document has empty text, its lines are appended verbatim |
| Document.SpliceMergesEmpty | html_writer/html_writer.py:151-153 | a line of the other document with empty text is not appended: its delta is folded into the line before |
| Document.SpliceDocShape | html_writer/html_writer.py:149-155 | appending a document commits the pending text, adds the other's texts in order and takes over the other's buffer; without empty-text lines the other's lines follow verbatim |
| Document.LevelAppend | html_writer/html_writer.py:126-129 | inside the second part of a concatenation the running levels are its own, raised by the level at the end of the first part |
| Document.SpliceLevels | html_writer/html_writer.py:149-155 | when no line of the other document has empty text, appending it puts its lines verbatim after the committed ones, and each renders at its own depth plus the level reached before it |
| Document.SpliceLosesLevel | html_writer/html_writer.py:151-153 | the document Html(), newline(indent=indent), += "x", newline(indent=-1) has "x" at depth 1; spliced after ("<div>", indent) its empty line's indent merges into the div's indent by the clamping sum, and "x" stays at depth 1 instead of 2 |
| Document.OpenScopeShape | html_writer/html_writer.py:75-77 | after the open half of tag the buffer is empty and the last line is (open tag, indent), right after the committed pending text |
| Document.CloseScopeShape | html_writer/html_writer.py:81-83 | after the close half the buffer is empty and the last line is (close tag, nothing), right after a newline with delta dedent |
| Rendering.Repeat | html_writer/html_writer.py:128 | Python's `s * n` has n times the length of s, is empty for n <= 0, and holds only characters of s, so a repeated space is all spaces |
| Rendering.RepeatAdd | html_writer/html_writer.py:128 | repeating p + q times is repeating p times, then q times |
| Rendering.RepeatRepeat | html_writer/html_writer.py:128 | `' ' * indent_size * indent` is indent_size * level spaces for any level that is not negative |
| Rendering.RenderedPrefixGrows | html_writer/html_writer.py:127-128 | the output grows line by line: the output of the first k lines is a prefix of that of the first j, for k <= j |
| Rendering.RenderFailsExactly | html_writer/html_writer.py:129-131 | rendering fails exactly when some running level after a line is negative, and the error is WriteOutError('Invalid indentation found.') |
| Rendering.ValidLevelsNonNegative | html_writer/html_writer.py:126-131 | in a document that renders, no running level is negative |
| Scopes.BareTagTexts | html_writer/html_writer.py:191-192 | a tag with only a name formats as `<name>` and `</name>` |
| Scopes.TagScopeWithoutWrites | html_writer/html_writer.py:75-83 | a tag scope with no writes inside adds exactly the open and close lines, both with delta nothing, at the level before the scope, and leaves the final level unchanged |
| Scopes.TagScopeWithText | html_writer/html_writer.py:75-83 | a tag scope holding one text adds the lines (open, indent), (text, dedent), (close, nothing); the text renders one level deeper and the final level is unchanged |
| Scopes.OpenOnLines | html_writer/html_writer.py:75-77 | the open half on a document with lines and nothing pending appends just (open tag, indent) |
| Scopes.ScopeOnLines | html_writer/html_writer.py:75-83 | a tag scope holding one text, on a document with lines and nothing pending, appends exactly its three lines |
| Scopes.CloseAfterScope | html_writer/html_writer.py:81-83 | closing an outer scope right after an inner one gives the inner close line the dedent, and the outer close line follows with delta nothing |
| Scopes.EncloseIndentsContent | html_writer/html_writer.py:85-96 | enclose_with_tag puts the open tag first, keeps every text in order one line later, ends with (close tag, nothing), empties the buffer, and commits pending text with delta dedent |
| Scopes.EncloseLevels | html_writer/html_writer.py:85-96 | after enclose_with_tag every original line renders one level deeper |
| Scopes.FirstNestedScope | html_writer/html_writer.py:161-163 | an outer scope opened after a first line, then an inner scope with one text, gives the first five lines of the template |
| Scopes.NestedScopes | html_writer/html_writer.py:159-166 | the template's nesting over any non-empty texts gives exactly the nine lines of NestedLines and an empty buffer |
| Scopes.NestedLevels | html_writer/html_writer.py:126-129 | in the nested document the texts are at depth 2, the inner tags at depth 1, and the first line and outer tags at depth 0 |
| Scopes.NestedRendering | html_writer/html_writer.py:121-133 | the nested document renders each line after indent_size * depth spaces, then the pending line |
| Scopes.TemplateTagTexts | html_writer/html_writer.py:161-164 | the html, head and body tags format as `<html>`, `</html>` and so on |
| Scopes.TemplateWithText | html_writer/html_writer.py:158-166 | html_template with non-empty head and body texts gives the DOCTYPE line, then the html, head and body scopes nested in that order, with nothing pending |
| Scopes.TemplateRendering | html_writer/html_writer.py:158-166 | rendered, the template shows head and body at depth 2, their tags at depth 1, and DOCTYPE and the html tags at depth 0 |
| Scopes.NestedPair | html_writer/html_writer.py:64-83 | on an empty Html, a scope in a scope holding one text gives six lines, the first being the empty line the first newline commits |
| Scopes.PairRendering | html_writer/html_writer.py:121-133 | those six lines render at depths 0, 0, 1, 2, 1, 0, then the pending line |
| Scopes.HelloWorld | html_writer/html_writer.py:64-83 | div containing p containing "Hello World!", built on an empty Html and rendered with indent size 2, is `"\n<div>\n  <p>\n    Hello World!\n  </p>\n</div>\n  \n"` |
| HtmlWriter.Html.constructor | html_writer/html_writer.py:50-61 | one line per given string, each with delta nothing, and an empty buffer |
| HtmlWriter.Html.Newline | html_writer/html_writer.py:107-119 | the new state is CommitLine of the old one: merge into the last line, or append (buffer, delta); the buffer ends empty |
| HtmlWriter.Html.NewlineBy | html_writer/html_writer.py:112-113 | an integer delta is first converted by from_int |
| HtmlWriter.Html.AppendText | html_writer/html_writer.py:146-148 | the buffer becomes old buffer + s and the lines are untouched |
| HtmlWriter.Html.AppendHtml | html_writer/html_writer.py:149-155 | the new state is SpliceDoc of the old state and the other document, the buffer is the other's buffer, and the other document is unchanged |
| HtmlWriter.Html.Append | html_writer/html_writer.py:145-156 | `+=` with a string or a document, dispatched on the kind of operand |
| HtmlWriter.Html.DeepCopy | html_writer/html_writer.py:135-136 | a new object with the same lines and buffer |
| HtmlWriter.Html.Concat | html_writer/html_writer.py:141-143 | `a + b` is a new object equal to appending b to a copy of a; neither a nor b changes |
| HtmlWriter.Html.OpenTag | html_writer/html_writer.py:72-77 | the open half of tag: the state becomes OpenScope with the formatted open tag |
| HtmlWriter.Html.CloseTag | html_writer/html_writer.py:81-83 | the close half of tag: the state becomes CloseScope with the formatted close tag |
| HtmlWriter.Html.EncloseWithTag | html_writer/html_writer.py:85-96 | the state becomes Enclose with the formatted open and close tags |
| HtmlWriter.Html.TagWithContent | html_writer/html_writer.py:98-105 | open half, then `+=` with the content, then close half |
| HtmlWriter.Html.ToRawHtml | html_writer/html_writer.py:121-133 | the loop returns exactly Render: each line after indent_size times its running level in spaces, then the pending line after indent_size spaces, or WriteOutError once a level goes negative |
| HtmlWriter.Html.ToStr | html_writer/html_writer.py:138-139 | str() is the rendering with indent size 2 |
| HtmlWriter.Html.HtmlTemplate | html_writer/html_writer.py:158-166 | a new document equal to TemplateDoc of the head and body contents |

## Left out

- The `__main__` demo script (lines 196-208): it reads the clock and prints. Its first part, the div/p example, is `Scopes.HelloWorld`.
- The generator and `contextmanager` machinery of `tag`, and exceptions passing through its `try`/`finally` (lines 63, 78-80). `tag` is split into `OpenTag` and `CloseTag`, and a scope is OpenTag, the body, then CloseTag. The close half is modelled as always running once the body is done. Exceptions are not modelled.
- `NotImplemented` for operands of other types (lines 40, 156), and the `isinstance` and `type` tests. Operands are the `Content` datatype (a string or an `Html`), and `Indent` operands are always `Indent`.
- Python dictionaries for `styles` and `attributes`: these are sequences of key/value pairs in the order the caller gives. Repeated keys are not merged.
- `classes` given as a plain string, which Python would join character by character: classes are a sequence of strings.
- `copy.deepcopy` (line 136) is modelled as a copy of the two fields. Line records are values here, so no sharing can occur.
- The constructor's `str` and `None` forms are its sequence form with one string and with none.
- The deque is a sequence. `appendleft` and `[-1].indent +=` become reassignments of `lines`.
- HtmlWriter.Html.AppendHtml: requires `other != this`. In Python `h += h` mutates the deque while iterating over it, which raises RuntimeError once a line is appended. That case is not modelled.
- No HTML escaping or well-formedness checks are done by the source, and none are modelled.
