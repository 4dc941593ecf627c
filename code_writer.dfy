/**
 * The indented code writer the code generators write through: a text buffer
 * that only grows, a nesting level, and blocks that write an opening line,
 * indent what follows by one unit, and write a closing line and an empty
 * line when disposed.
 */
module CodeWriter {
  import opened Text

  /** The text a line at nesting level `level` starts with: `level` units, and nothing at or below zero. */
  function Indent(unit: string, level: int): (r: string)
    ensures |r| == (if level < 0 then 0 else level) * |unit|
  {
    Repeat(unit, if level < 0 then 0 else level)
  }

  /** One more level is one more unit, at the end. */
  lemma IndentStep(unit: string, level: int)
    requires level >= 0
    ensures Indent(unit, level + 1) == Indent(unit, level) + unit
  {
    RepeatAdd(unit, level, 1);
    assert Repeat(unit, 1) == unit + "";
  }

  /** An indent made of spaces is all spaces, one unit's width per level. */
  lemma {:induction false} IndentIsSpaces(width: nat, level: nat)
    ensures |Indent(Repeat(" ", width), level)| == level * width
    ensures forall i :: 0 <= i < |Indent(Repeat(" ", width), level)| ==> Indent(Repeat(" ", width), level)[i] == ' '
    decreases level
  {
    SpacesAreSpaces(width);
    if level > 0 {
      IndentIsSpaces(width, level - 1);
      IndentStep(Repeat(" ", width), level - 1);
    }
  }

  lemma {:induction false} SpacesAreSpaces(width: nat)
    ensures forall i :: 0 <= i < |Repeat(" ", width)| ==> Repeat(" ", width)[i] == ' '
    decreases width
  {
    if width > 0 {
      SpacesAreSpaces(width - 1);
    }
  }

  /** `IndentedCodeWriter`. */
  class IndentedCodeWriter {
    /** The nesting level, `indentSize` in the source: incremented by a block, decremented by its disposal. */
    var level: int
    /** The indent unit: `indentSize` spaces. */
    const unit: string
    const blockStart: string
    const blockEnd: string
    /** The line terminator `AppendLine` writes, which is the host's. */
    const newline: string
    /** The text written so far, the `StringBuilder`'s content. */
    var output: string

    constructor(blockStart: string, blockEnd: string, indentSize: nat, newline: string)
      ensures this.blockStart == blockStart && this.blockEnd == blockEnd && this.newline == newline
      ensures unit == Repeat(" ", indentSize)
      ensures level == 0 && output == ""
    {
      this.blockStart := blockStart;
      this.blockEnd := blockEnd;
      this.unit := Repeat(" ", indentSize);
      this.newline := newline;
      level := 0;
      output := "";
    }

    /** `AppendLine`: the current indent, the line and a line terminator are appended; the level is kept. */
    method AppendLine(line: string)
      modifies this
      ensures level == old(level)
      ensures output == old(output) + Indent(unit, level) + line + newline
    {
      var i := 0;
      while i < level
        invariant 0 <= i && (i <= level || i == 0)
        invariant level == old(level)
        invariant output == old(output) + Indent(unit, i)
      {
        IndentStep(unit, i);
        output := output + unit;
        i := i + 1;
      }
      assert Indent(unit, i) == Indent(unit, level);
      output := output + line + newline;
    }

    /** `WithBlock`: the opening line at the current level, then one level deeper. */
    method WithBlock() returns (d: SimpleDisposable)
      modifies this
      ensures fresh(d) && d.writer == this
      ensures level == old(level) + 1
      ensures output == old(output) + Indent(unit, old(level)) + blockStart + newline
    {
      d := new SimpleDisposable(this);
    }
  }

  /** The block `WithBlock` returns: disposing it closes the block. */
  class SimpleDisposable {
    const writer: IndentedCodeWriter

    constructor(writer: IndentedCodeWriter)
      modifies writer
      ensures this.writer == writer
      ensures writer.level == old(writer.level) + 1
      ensures writer.output == old(writer.output) + Indent(writer.unit, old(writer.level)) + writer.blockStart + writer.newline
    {
      this.writer := writer;
      new;
      writer.AppendLine(writer.blockStart);
      writer.level := writer.level + 1;
    }

    /**
     * `Dispose`: one level shallower, then the closing line and an empty line,
     * both at the level the block was opened at (so the empty line carries
     * that level's indent).
     */
    method Dispose()
      modifies writer
      ensures writer.level == old(writer.level) - 1
      ensures writer.output == old(writer.output)
        + Indent(writer.unit, writer.level) + writer.blockEnd + writer.newline
        + Indent(writer.unit, writer.level) + writer.newline
    {
      writer.level := writer.level - 1;
      writer.AppendLine(writer.blockEnd);
      writer.AppendLine("");
    }
  }

  /**
   * A block opened and disposed around one line: the level is restored, and
   * the output gains the opening line, the line one unit deeper, the closing
   * line and an empty line, nothing before the old output changing.
   */
  method BlockAround(w: IndentedCodeWriter, line: string)
    modifies w
    ensures w.level == old(w.level)
    ensures w.output == old(w.output)
      + Indent(w.unit, w.level) + w.blockStart + w.newline
      + Indent(w.unit, w.level + 1) + line + w.newline
      + Indent(w.unit, w.level) + w.blockEnd + w.newline
      + Indent(w.unit, w.level) + w.newline
  {
    var d := w.WithBlock();
    w.AppendLine(line);
    d.Dispose();
  }
}
