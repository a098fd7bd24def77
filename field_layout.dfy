/** The record fields of a message: DelphiUnitGenerator::Field, what GetFields and
    GetFieldType fill into it, and the declaration line Print(const Field &) writes. */
module FieldLayout {
  import opened Chars
  import opened Decimal
  import opened DelphiUtils
  import opened Descriptors

  datatype Option<T> = None | Some(value: T)

  /** DelphiUnitGenerator::Field: the Delphi field name and type and the protobuf
      attributes of one message field. */
  datatype Field = Field(
    name: string,
    jsonName: string,
    typeName: string,
    required: bool,
    repeated: bool,
    packable: bool,
    packed: bool,
    tag: int)

  /** The attributes after FieldTag: Required for a required field, UnPacked for a
      packable field that is not packed, and the JSON name when emit_json_names is set,
      always in this order. */
  function FieldOptions(f: Field, emitJsonNames: bool): string
  {
    (if f.required then ", Required" else "")
    + (if f.packable && !f.packed then ", UnPacked" else "")
    + (if emitJsonNames then ", FieldName('" + f.jsonName + "')" else "")
  }

  /** The attributes as a reader of the declaration sees them. */
  datatype Attributes = Attributes(required: bool, unpacked: bool, fieldName: Option<string>)

  function ReadFieldName(s: string): Option<string>
  {
    if |s| >= 15 && s[..13] == ", FieldName('" && s[|s| - 2..] == "')" then Some(s[13..|s| - 2]) else None
  }

  /** Reads the attribute list back, left to right. */
  function ReadOptions(s: string): Attributes
  {
    var required := |s| >= 10 && s[..10] == ", Required";
    var s1 := if required then s[10..] else s;
    var unpacked := |s1| >= 10 && s1[..10] == ", UnPacked";
    var s2 := if unpacked then s1[10..] else s1;
    Attributes(required, unpacked, ReadFieldName(s2))
  }

  lemma FieldNameRoundTrip(emitJsonNames: bool, jsonName: string)
    ensures ReadFieldName(if emitJsonNames then ", FieldName('" + jsonName + "')" else "")
      == if emitJsonNames then Some(jsonName) else None
  {
    if emitJsonNames {
      var s := ", FieldName('" + jsonName + "')";
      assert s[..13] == ", FieldName('";
      assert s[|s| - 2..] == "')";
      assert s[13..|s| - 2] == jsonName;
    }
  }

  /** Reading one optional ten-character flag off the front of a list whose remainder
      does not start with it. */
  lemma StripFlag(flag: string, on: bool, rest: string)
    requires |flag| == 10 && (|rest| < 10 || rest[2] != flag[2])
    ensures var s := (if on then flag else "") + rest;
      && ((|s| >= 10 && s[..10] == flag) <==> on)
      && (if on then s[10..] else s) == rest
  {
    var s := (if on then flag else "") + rest;
    if on {
      assert s[..10] == flag && s[10..] == rest;
    } else {
      assert |s| >= 10 ==> s[..10][2] != flag[2];
    }
  }

  /** Reading the two flags off a list whose remainder starts with neither. */
  lemma ReadFlags(required: bool, unpacked: bool, rest: string)
    requires |rest| < 10 || rest[2] == 'F'
    ensures ReadOptions((if required then ", Required" else "") + ((if unpacked then ", UnPacked" else "") + rest))
      == Attributes(required, unpacked, ReadFieldName(rest))
  {
    var b := if unpacked then ", UnPacked" else "";
    StripFlag(", UnPacked", unpacked, rest);
    if unpacked {
      assert (b + rest)[2] == 'U';
    } else {
      assert b + rest == rest;
    }
    StripFlag(", Required", required, b + rest);
  }

  /** The attribute list is unambiguous: every flag, and the JSON name, can be read
      back from it. */
  lemma OptionsRoundTrip(f: Field, emitJsonNames: bool)
    ensures ReadOptions(FieldOptions(f, emitJsonNames))
      == Attributes(f.required, f.packable && !f.packed, if emitJsonNames then Some(f.jsonName) else None)
  {
    var c := if emitJsonNames then ", FieldName('" + f.jsonName + "')" else "";
    assert FieldOptions(f, emitJsonNames)
      == (if f.required then ", Required" else "") + ((if f.packable && !f.packed then ", UnPacked" else "") + c);
    if emitJsonNames {
      assert c[2] == ", FieldName('"[2];
    }
    ReadFlags(f.required, f.packable && !f.packed, c);
    FieldNameRoundTrip(emitJsonNames, f.jsonName);
  }

  /** The declared type of a field: an array of its element type when it is repeated. */
  function DeclaredType(f: Field): (r: string)
    ensures f.repeated ==> |r| == |f.typeName| + 8 && r[..7] == "TArray<" && r[7..|r| - 1] == f.typeName
    ensures !f.repeated ==> r == f.typeName
  {
    if f.repeated then GetArrayType(f.typeName) else f.typeName
  }

  /** The declaration Print(const Field &) writes, before indentation. */
  function FieldDeclaration(f: Field, emitJsonNames: bool): (r: string)
    ensures |r| > 10 && r[..10] == "[FieldTag(" && r[|r| - 1] == ';'
  {
    "[FieldTag(" + IntToString(f.tag) + ")" + FieldOptions(f, emitJsonNames) + "] "
      + f.name + ": " + DeclaredType(f) + ";"
  }

  /** Where the tag and the attribute list sit in a declaration. */
  lemma TagAndOptionsPlaced(t: string, opts: string, name: string, declaredType: string)
    ensures var line := "[FieldTag(" + t + ")" + opts + "] " + name + ": " + declaredType + ";";
      && 10 + |t| + 1 + |opts| <= |line|
      && line[10..10 + |t|] == t
      && line[10 + |t|] == ')'
      && line[10 + |t| + 1..10 + |t| + 1 + |opts|] == opts
  {
    var line := "[FieldTag(" + t + ")" + opts + "] " + name + ": " + declaredType + ";";
    assert line == "[FieldTag(" + t + ")" + opts + ("] " + name + ": " + declaredType + ";");
    assert line[10..10 + |t|] == t;
    assert line[10 + |t| + 1..10 + |t| + 1 + |opts|] == opts;
  }

  lemma NoParenthesis(t: string)
    requires SignedDigits(t)
    ensures ')' !in t
  {
    forall i | 0 <= i < |t|
      ensures t[i] != ')'
    {
      assert i == 0 || IsDigit(t[i]);
    }
  }

  /** The tag is the first number of the declaration and reads back as the field number;
      its attribute list follows the closing parenthesis and reads back as well. */
  lemma {:induction false} FieldTagReadsBack(f: Field, emitJsonNames: bool)
    ensures var line := FieldDeclaration(f, emitJsonNames);
      var t := IntToString(f.tag);
      var opts := FieldOptions(f, emitJsonNames);
      && ')' !in t
      && 10 + |t| + 1 + |opts| <= |line|
      && line[10..10 + |t|] == t
      && line[10 + |t|] == ')'
      && SignedDigits(line[10..10 + |t|]) && ParseInt(line[10..10 + |t|]) == f.tag
      && ReadOptions(line[10 + |t| + 1..10 + |t| + 1 + |opts|])
        == Attributes(f.required, f.packable && !f.packed, if emitJsonNames then Some(f.jsonName) else None)
  {
    var line := FieldDeclaration(f, emitJsonNames);
    var t := IntToString(f.tag);
    var opts := FieldOptions(f, emitJsonNames);
    assert line == "[FieldTag(" + t + ")" + opts + "] " + f.name + ": " + DeclaredType(f) + ";";
    TagAndOptionsPlaced(t, opts, f.name, DeclaredType(f));
    IntToStringRoundTrip(f.tag);
    NoParenthesis(t);
    assert line[10..10 + |t|] == t;
    OptionsRoundTrip(f, emitJsonNames);
    assert line[10 + |t| + 1..10 + |t| + 1 + |opts|] == opts;
  }

  /** The declared type name of a field's type: the protobuf name of a scalar type, the
      enumeration or record name of a referenced type (GetFieldType without the output
      it triggers). */
  function FieldTypeName(schema: Schema, fd: FieldDescriptor): string
    requires ValidKind(schema, fd.kind)
  {
    match fd.kind
    case ScalarType(typeName) => typeName
    case EnumType(e) => GetEnumName(schema.enums[e].name)
    case MessageType(m) => GetRecordName(schema.messages[m].name)
  }

  /** The Field GetFields builds for a field descriptor. */
  function FieldOf(schema: Schema, fd: FieldDescriptor): Field
    requires ValidKind(schema, fd.kind)
  {
    Field(GetFieldName(fd.name), fd.jsonName, FieldTypeName(schema, fd),
          fd.isRequired, fd.isRepeated, fd.isPackable, fd.isPacked, fd.number)
  }

  predicate KindsValid(schema: Schema, d: Descriptor)
  {
    forall j :: 0 <= j < |d.fields| ==> ValidKind(schema, d.fields[j].kind)
  }

  /** The fields of a message, one per field descriptor, in declaration order. */
  function Fields(schema: Schema, d: Descriptor): (r: seq<Field>)
    requires KindsValid(schema, d)
    ensures |r| == |d.fields|
  {
    seq(|d.fields|, j requires 0 <= j < |d.fields| => FieldOf(schema, d.fields[j]))
  }

  /** The names of the enumeration and record types the fields of `d` refer to. */
  function References(schema: Schema, d: Descriptor): set<string>
    requires KindsValid(schema, d)
  {
    set j | 0 <= j < |d.fields| && !d.fields[j].kind.ScalarType? :: FieldTypeName(schema, d.fields[j])
  }

  /** The type names a record's field declarations mention: every field type that is
      not a protobuf scalar type name. */
  function Mentions(fields: seq<Field>): set<string>
  {
    set j | 0 <= j < |fields| && fields[j].typeName !in ScalarTypeNames :: fields[j].typeName
  }

  /** The record written for a message mentions exactly the types its fields refer to. */
  lemma MentionsAreReferences(schema: Schema, d: Descriptor)
    requires KindsValid(schema, d)
    ensures Mentions(Fields(schema, d)) == References(schema, d)
  {
    var fields := Fields(schema, d);
    forall n | n in Mentions(fields)
      ensures n in References(schema, d)
    {
      var j :| 0 <= j < |fields| && fields[j].typeName !in ScalarTypeNames && fields[j].typeName == n;
      assert fields[j] == FieldOf(schema, d.fields[j]);
    }
    forall n | n in References(schema, d)
      ensures n in Mentions(fields)
    {
      var j :| 0 <= j < |d.fields| && !d.fields[j].kind.ScalarType? && FieldTypeName(schema, d.fields[j]) == n;
      assert fields[j] == FieldOf(schema, d.fields[j]);
      if n in ScalarTypeNames {
        ScalarNamesLowerCase(n);
      }
    }
  }
}
