/** Html.to_raw_html as a reference definition: every committed line is
    prefixed by indent_size times its running level in spaces, the pending
    buffer follows on one more line, and a negative running level is a
    WriteOutError. */
module Rendering {
  import opened Wrappers
  import opened Indentation
  import opened Document

  /** WriteOutError, raised for a negative running level. */
  datatype WriteOutError = WriteOutError(message: string)

  const INVALID_INDENTATION: string := "Invalid indentation found."

  /** Python's s * n: n copies of s, and the empty string when n <= 0; it
      is made of s's characters only, so a repeated space is all spaces. */
  function Repeat(s: string, n: int): (r: string)
    ensures |r| == if n <= 0 then 0 else |s| * n
    ensures forall i :: 0 <= i < |r| ==> r[i] in s
    decreases if n <= 0 then 0 else n
  {
    if n <= 0 then ""
    else
      assert |s| * n == |s| + |s| * (n - 1);
      s + Repeat(s, n - 1)
  }

  /** No running level is negative after any line. */
  predicate IndentationValid(lines: seq<Line>)
  {
    forall k :: 1 <= k <= |lines| ==> Level(lines, k) >= 0
  }

  /** One output line: indent_size * level spaces, the text, a newline. */
  function IndentedLine(indentSize: int, level: int, text: string): string
  {
    Repeat(" ", indentSize * level) + text + "\n"
  }

  /** The output of committed line k. */
  function RenderedLine(lines: seq<Line>, indentSize: int, k: nat): string
    requires k < |lines|
  {
    IndentedLine(indentSize, Level(lines, k), lines[k].text)
  }

  /** The output of committed lines 0..k-1. */
  function RenderedPrefix(lines: seq<Line>, indentSize: int, k: nat): string
    requires k <= |lines|
  {
    if k == 0 then "" else RenderedPrefix(lines, indentSize, k - 1) + RenderedLine(lines, indentSize, k - 1)
  }

  /** The whole rendering. The pending line is always prefixed by exactly
      indent_size spaces, whatever the final level. */
  function Render(d: Doc, indentSize: int): Result<string, WriteOutError>
  {
    if IndentationValid(d.lines) then
      Ok(RenderedPrefix(d.lines, indentSize, |d.lines|) + Repeat(" ", indentSize) + d.buffer + "\n")
    else
      Err(WriteOutError(INVALID_INDENTATION))
  }

  lemma {:induction false} RepeatAdd(s: string, p: nat, q: nat)
    ensures Repeat(s, p + q) == Repeat(s, p) + Repeat(s, q)
    decreases p
  {
    if p > 0 {
      RepeatAdd(s, p - 1, q);
      assert Repeat(s, p + q) == s + Repeat(s, p - 1 + q);
    }
  }

  /** The source writes ' ' * indent_size * indent, which groups as
      (' ' * indent_size) * indent; for a level that is not negative this is
      indent_size * level spaces, even for a negative indent_size. */
  lemma {:induction false} RepeatRepeat(size: int, level: nat)
    ensures Repeat(Repeat(" ", size), level) == Repeat(" ", size * level)
    decreases level
  {
    if level > 0 {
      RepeatRepeat(size, level - 1);
      if size > 0 {
        assert size * level == size + size * (level - 1);
        RepeatAdd(" ", size, size * (level - 1));
      } else {
        assert Repeat(" ", size) == "";
        assert size * level <= 0;
      }
    }
  }

  /** The output of the first k lines is a prefix of the output of the
      first j, for k <= j: lines are emitted in order and never revised. */
  lemma {:induction false} RenderedPrefixGrows(lines: seq<Line>, indentSize: int, k: nat, j: nat)
    requires k <= j <= |lines|
    ensures |RenderedPrefix(lines, indentSize, k)| <= |RenderedPrefix(lines, indentSize, j)|
    ensures RenderedPrefix(lines, indentSize, j)[..|RenderedPrefix(lines, indentSize, k)|] == RenderedPrefix(lines, indentSize, k)
    decreases j
  {
    if k < j {
      RenderedPrefixGrows(lines, indentSize, k, j - 1);
      var pk := RenderedPrefix(lines, indentSize, k);
      var p := RenderedPrefix(lines, indentSize, j - 1);
      var x := RenderedLine(lines, indentSize, j - 1);
      assert RenderedPrefix(lines, indentSize, j) == p + x;
      assert (p + x)[..|pk|] == p[..|pk|];
    }
  }

  /** A rendering succeeds exactly when no running level is negative; the
      error names the invalid indentation. */
  lemma RenderFailsExactly(d: Doc, indentSize: int)
    ensures Render(d, indentSize).Err? ==> exists k: nat :: 1 <= k <= |d.lines| && Level(d.lines, k) < 0
    ensures (exists k: nat :: 1 <= k <= |d.lines| && Level(d.lines, k) < 0) ==> Render(d, indentSize).Err?
    ensures Render(d, indentSize).Err? ==> Render(d, indentSize).error.message == INVALID_INDENTATION
  {
  }

  /** The rendered lines of a valid document start at level 0, never at a
      negative level. */
  lemma ValidLevelsNonNegative(lines: seq<Line>, k: nat)
    requires IndentationValid(lines) && k <= |lines|
    ensures Level(lines, k) >= 0
  {
  }
}
