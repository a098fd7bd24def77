/** The text of a generated unit: the fixed head and tail of the file and, between
    them, one block per declared type. */
module UnitLayout {
  import opened Printing
  import opened Decimal
  import opened EnumLayout
  import opened FieldLayout
  import opened SeqFacts

  /** A type declaration of the type section: a record with its fields, or an
      enumeration with its entries. */
  datatype Block =
    | Record(name: string, fields: seq<Field>)
    | Enumeration(name: string, entries: seq<EnumEntry>)

  function FieldLines(level: nat, emitJsonNames: bool, fields: seq<Field>): (r: seq<string>)
    ensures |r| == |fields|
  {
    seq(|fields|, i requires 0 <= i < |fields| => Indented(level, FieldDeclaration(fields[i], emitJsonNames)))
  }

  function EntryLines(level: nat, entries: seq<EnumEntry>): (r: seq<string>)
    ensures |r| == |entries|
  {
    seq(|entries|, i requires 0 <= i < |entries| => Indented(level, EntryText(entries[i])))
  }

  function RecordHeader(name: string): string { name + " = record" }

  function EnumHeader(name: string): string { name + " = (" }

  /** The first line of a declaration, before indentation. */
  function HeaderText(b: Block): string
  {
    match b
    case Record(name, _) => RecordHeader(name)
    case Enumeration(name, _) => EnumHeader(name)
  }

  /** The members of a declaration: its fields or its entries, each on a line of its own. */
  function MemberLines(level: nat, emitJsonNames: bool, b: Block): seq<string>
  {
    match b
    case Record(_, fields) => FieldLines(level, emitJsonNames, fields)
    case Enumeration(_, entries) => EntryLines(level, entries)
  }

  function ClosingText(b: Block): string
  {
    if b.Record? then "end;" else ");"
  }

  /** The lines of one declaration at `level`: its header, its members one level
      deeper, its closing line and an empty line. */
  function BlockLines(level: nat, emitJsonNames: bool, b: Block): seq<string>
  {
    [Indented(level, HeaderText(b))] + MemberLines(level + 1, emitJsonNames, b)
    + [Indented(level, ClosingText(b)), ""]
  }

  lemma RecordLines(level: nat, emitJsonNames: bool, name: string, fields: seq<Field>)
    ensures BlockLines(level, emitJsonNames, Record(name, fields))
      == [Indented(level, RecordHeader(name))] + FieldLines(level + 1, emitJsonNames, fields)
         + [Indented(level, "end;"), Indented(level, "")]
  {
  }

  lemma EnumerationLines(level: nat, emitJsonNames: bool, name: string, entries: seq<EnumEntry>)
    ensures BlockLines(level, emitJsonNames, Enumeration(name, entries))
      == [Indented(level, EnumHeader(name))] + EntryLines(level + 1, entries)
         + [Indented(level, ");"), Indented(level, "")]
  {
  }

  /** The blocks `bs` written one after another. */
  function Render(level: nat, emitJsonNames: bool, bs: seq<Block>): seq<string>
  {
    if bs == [] then []
    else Render(level, emitJsonNames, bs[..|bs| - 1]) + BlockLines(level, emitJsonNames, bs[|bs| - 1])
  }

  lemma RenderSnoc(level: nat, emitJsonNames: bool, bs: seq<Block>, b: Block)
    ensures Render(level, emitJsonNames, bs + [b]) == Render(level, emitJsonNames, bs) + BlockLines(level, emitJsonNames, b)
  {
    assert (bs + [b])[..|bs|] == bs;
  }

  lemma {:induction false} RenderAppend(level: nat, emitJsonNames: bool, a: seq<Block>, b: seq<Block>)
    ensures Render(level, emitJsonNames, a + b) == Render(level, emitJsonNames, a) + Render(level, emitJsonNames, b)
  {
    if b == [] {
      assert a + b == a;
    } else {
      var init, x := b[..|b| - 1], b[|b| - 1];
      assert b == init + [x];
      assert a + b == (a + init) + [x];
      RenderAppend(level, emitJsonNames, a, init);
      RenderSnoc(level, emitJsonNames, a + init, x);
      RenderSnoc(level, emitJsonNames, init, x);
      AppendAssoc(Render(level, emitJsonNames, a), Render(level, emitJsonNames, init), BlockLines(level, emitJsonNames, x));
    }
  }

  lemma FieldLinesSnoc(level: nat, emitJsonNames: bool, fields: seq<Field>, f: Field)
    ensures FieldLines(level, emitJsonNames, fields + [f])
      == FieldLines(level, emitJsonNames, fields) + [Indented(level, FieldDeclaration(f, emitJsonNames))]
  {
  }

  lemma EntryLinesSnoc(level: nat, entries: seq<EnumEntry>, e: EnumEntry)
    ensures EntryLines(level, entries + [e]) == EntryLines(level, entries) + [Indented(level, EntryText(e))]
  {
  }

  lemma EntryLinesAppend(level: nat, a: seq<EnumEntry>, b: seq<EnumEntry>)
    ensures EntryLines(level, a + b) == EntryLines(level, a) + EntryLines(level, b)
  {
    var joined := EntryLines(level, a) + EntryLines(level, b);
    forall i | 0 <= i < |a + b|
      ensures EntryLines(level, a + b)[i] == joined[i]
    {
      if i < |a| {
        assert (a + b)[i] == a[i];
      } else {
        assert (a + b)[i] == b[i - |a|];
      }
    }
  }

  /** The line of the placeholder for the number k. */
  lemma PlaceholderLine(level: nat, k: int)
    ensures EntryLines(level, [Placeholder(k)])
      == [Indented(level, "_unused" + IntToString(k) + " = " + IntToString(k) + ",")]
  {
  }

  /** The head of the unit up to the type section: the unit name, scoped enumerations,
      the uses clause (Delphi.Serial only when JSON names are written) and `type`. */
  function UnitHeader(unitName: string, emitJsonNames: bool, level: nat): (r: seq<string>)
    ensures |r| == if emitJsonNames then 12 else 11
    ensures r[0] == Indented(level, "unit " + unitName + ";")
    ensures r[2] == Indented(level, "{$SCOPEDENUMS ON}")
    ensures r[7] == Indented(level + 1, if emitJsonNames then "Delphi.Serial," else "Delphi.Serial.Protobuf;")
    ensures r[|r| - 2] == Indented(level, "type") && r[|r| - 1] == ""
  {
    var uses := [Indented(level, "unit " + unitName + ";")] + [Indented(level, "")]
      + [Indented(level, "{$SCOPEDENUMS ON}")] + [Indented(level, "")]
      + [Indented(level, "interface")] + [Indented(level, "")]
      + [Indented(level, "uses")];
    var modules := if emitJsonNames then uses + [Indented(level + 1, "Delphi.Serial,")] else uses;
    modules + [Indented(level + 1, "Delphi.Serial.Protobuf;")] + [Indented(level + 1, "")]
      + [Indented(level, "type")] + [Indented(level, "")]
  }

  /** The tail of the unit: an empty implementation section. */
  function UnitFooter(level: nat): (r: seq<string>)
    ensures |r| == 3 && r[2] == Indented(level, "end.")
  {
    [Indented(level, "implementation"), "", Indented(level, "end.")]
  }

  // Reading the declarations back from the text.

  /** The type a line declares at `level`: the text between the indentation and
      " = record" or " = (", when the line starts exactly at that level. */
  function DeclaredName(level: nat, line: string): Option<string>
  {
    if |line| > 2 * level && line[..2 * level] == Spaces(2 * level) && line[2 * level] != ' ' then
      var text := line[2 * level..];
      if |text| >= 9 && text[|text| - 9..] == " = record" then Some(text[..|text| - 9])
      else if |text| >= 4 && text[|text| - 4..] == " = (" then Some(text[..|text| - 4])
      else None
    else None
  }

  /** The names declared at `level` by `lines`, in order. */
  function Declarations(level: nat, lines: seq<string>): seq<string>
  {
    if lines == [] then []
    else
      (match DeclaredName(level, lines[0]) case Some(n) => [n] case None => [])
      + Declarations(level, lines[1..])
  }

  lemma {:induction false} DeclarationsAppend(level: nat, a: seq<string>, b: seq<string>)
    ensures Declarations(level, a + b) == Declarations(level, a) + Declarations(level, b)
  {
    if a != [] {
      assert (a + b)[1..] == a[1..] + b;
      DeclarationsAppend(level, a[1..], b);
    } else {
      assert a + b == b;
    }
  }

  lemma {:induction false} QuietLines(level: nat, lines: seq<string>)
    requires forall i :: 0 <= i < |lines| ==> DeclaredName(level, lines[i]) == None
    ensures Declarations(level, lines) == []
  {
    if lines != [] {
      assert DeclaredName(level, lines[0]) == None;
      QuietLines(level, lines[1..]);
    }
  }

  /** A line one level deeper declares nothing at `level`. */
  lemma DeeperLineQuiet(level: nat, text: string)
    ensures DeclaredName(level, Indented(level + 1, text)) == None
  {
    if text != [] {
      var line := Indented(level + 1, text);
      assert line[2 * level] == ' ';
    }
  }

  lemma ClosingLineQuiet(level: nat, text: string)
    requires text == "end;" || text == ");" || text == ""
    ensures DeclaredName(level, Indented(level, text)) == None
  {
  }

  /** A header names its type when the name does not start with a space. */
  lemma HeaderDeclares(level: nat, b: Block)
    requires b.name != [] && b.name[0] != ' '
    ensures DeclaredName(level, Indented(level, HeaderText(b))) == Some(b.name)
  {
    var text := HeaderText(b);
    var line := Indented(level, text);
    IndentedShape(level, text);
    assert line[..2 * level] == Spaces(2 * level);
    assert line[2 * level..] == text;
    if b.Record? {
      assert text[..|text| - 9] == b.name;
    } else {
      assert |text| >= 9 ==> text[|text| - 9..][8] == '(';
      assert text[|text| - 4..] == " = (";
      assert text[..|text| - 4] == b.name;
    }
  }

  lemma MembersQuiet(level: nat, emitJsonNames: bool, b: Block)
    ensures Declarations(level, MemberLines(level + 1, emitJsonNames, b)) == []
  {
    var members := MemberLines(level + 1, emitJsonNames, b);
    forall i | 0 <= i < |members|
      ensures DeclaredName(level, members[i]) == None
    {
      match b
      case Record(_, fields) =>
        DeeperLineQuiet(level, FieldDeclaration(fields[i], emitJsonNames));
      case Enumeration(_, entries) =>
        DeeperLineQuiet(level, EntryText(entries[i]));
    }
    QuietLines(level, members);
  }

  lemma BlockDeclares(level: nat, emitJsonNames: bool, b: Block)
    requires b.name != [] && b.name[0] != ' '
    ensures Declarations(level, BlockLines(level, emitJsonNames, b)) == [b.name]
  {
    var header := [Indented(level, HeaderText(b))];
    var members := MemberLines(level + 1, emitJsonNames, b);
    var closing := [Indented(level, ClosingText(b)), ""];
    HeaderDeclares(level, b);
    assert Declarations(level, header) == [b.name];
    MembersQuiet(level, emitJsonNames, b);
    ClosingLineQuiet(level, ClosingText(b));
    ClosingLineQuiet(level, "");
    assert closing[1..] == [""] && closing[1..][1..] == [];
    assert Declarations(level, closing[1..]) == [];
    assert Declarations(level, closing) == [];
    DeclarationsAppend(level, header, members);
    DeclarationsAppend(level, header + members, closing);
  }

  function Names(bs: seq<Block>): (r: seq<string>)
    ensures |r| == |bs|
  {
    seq(|bs|, i requires 0 <= i < |bs| => bs[i].name)
  }

  lemma NamesSnoc(bs: seq<Block>)
    requires bs != []
    ensures Names(bs) == Names(bs[..|bs| - 1]) + [bs[|bs| - 1].name]
  {
  }

  /** The type section declares exactly the blocks' types, in the order of the blocks,
      and nothing else. */
  lemma {:induction false} RenderDeclares(level: nat, emitJsonNames: bool, bs: seq<Block>)
    requires forall i :: 0 <= i < |bs| ==> bs[i].name != [] && bs[i].name[0] != ' '
    ensures Declarations(level, Render(level, emitJsonNames, bs)) == Names(bs)
  {
    if bs != [] {
      var init, last := bs[..|bs| - 1], bs[|bs| - 1];
      RenderDeclares(level, emitJsonNames, init);
      BlockDeclares(level, emitJsonNames, last);
      DeclarationsAppend(level, Render(level, emitJsonNames, init), BlockLines(level, emitJsonNames, last));
      NamesSnoc(bs);
    }
  }
}
