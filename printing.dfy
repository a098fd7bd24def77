/** The output side of protobuf's io::Printer as the generator uses it: an indent level
    and the lines written so far, each already substituted and indented. */
module Printing {
  import opened SeqFacts

  function Spaces(n: nat): (r: string)
    ensures |r| == n
    ensures forall i :: 0 <= i < n ==> r[i] == ' '
  {
    seq(n, _ => ' ')
  }

  /** A line as the printer writes it at `level`: two spaces per level before any
      non-empty text; an empty line stays empty. */
  function Indented(level: nat, text: string): string
  {
    if text == [] then [] else Spaces(2 * level) + text
  }

  /** A non-empty line is its text after exactly 2 * level spaces. */
  lemma IndentedShape(level: nat, text: string)
    requires text != []
    ensures var r := Indented(level, text);
      && |r| == 2 * level + |text|
      && (forall i :: 0 <= i < 2 * level ==> r[i] == ' ')
      && r[2 * level..] == text
  {
  }

  class Printer {
    var lines: seq<string>
    var level: nat

    constructor ()
      ensures lines == [] && level == 0
    {
      lines := [];
      level := 0;
    }

    /** Writes one line of text at the current level. */
    method Print(text: string)
      modifies this
      ensures lines == old(lines) + [Indented(level, text)]
      ensures level == old(level)
    {
      lines := lines + [Indented(level, text)];
    }

    /** Print, for a caller that follows what it has written since `start`: the lines
        are `start + written` before and `start + written'` after. */
    method PrintAfter(text: string, ghost start: seq<string>, ghost written: seq<string>)
      returns (ghost written': seq<string>)
      requires lines == start + written
      modifies this
      ensures level == old(level)
      ensures written' == written + [Indented(level, text)]
      ensures lines == start + written'
    {
      Print(text);
      AppendAssoc(start, written, [Indented(level, text)]);
      written' := written + [Indented(level, text)];
    }

    method Indent()
      modifies this
      ensures level == old(level) + 1
      ensures lines == old(lines)
    {
      level := level + 1;
    }

    /** Every Outdent closes an earlier Indent. */
    method Outdent()
      requires level > 0
      modifies this
      ensures level == old(level) - 1
      ensures lines == old(lines)
    {
      level := level - 1;
    }
  }
}
