# Delphi unit generator for protobuf schemas — a Dafny model

Delphi-Serial ships a protoc plugin that turns a `.proto` file into a Delphi unit. The
unit declares one `record` per message and one enumeration per enum. Its core is the
class `DelphiUnitGenerator` and the identifier helpers it uses (`GetCamelCase` and the
inline helpers of `delphiutils.h`). This project models that core in Dafny and proves
what it writes:

- **Identifiers.**
  - `GetCamelCase` drops underscores and capitalises every letter that opens a run of
    letters. It is proved equal to a recursive specification, which is shown to be
    idempotent and to keep every other character in order.
  - `GetFullName`, `GetUnitName`, `ToLower` and `ToUpper` rewrite a copied buffer in
    place. Each is a method over a `char` array, proved equal to a specification
    function.
- **The unit.**
  - `DelphiUnitGenerator` is a class. It has the registry `types` of declared type
    names and a printer that holds the indent level and the lines written so far.
  - Every `Print` overload is a method. The printers of one piece of text
    (`PrintUnitHeader`, `PrintRecord`, `PrintEnumeration`, `PrintEntries`,
    `PrintFields`, `PrintField`, `PrintUnitFooter`) state the exact lines they append.
    The recursive ones (`Generate`, `PrintFile`, `PrintTypes`, `PrintMessage`,
    `GetFields`, `GetFieldType`) state that what they append is the rendering of the
    blocks they add, and say which blocks through the invariants below.
  - Across the whole recursive walk (a field's enumeration or message type is written
    before the record that uses it), the generator keeps an invariant, `Extends`.
    Blocks are only appended. Each block comes from the schema and names a type that
    was not registered before. The registry grows by exactly the new names. As a
    result, the type section declares every registered type exactly once
    (`DeclaredOnce`).
  - Every type a record refers to is declared in the unit (`DeclaredInOrder`, stated
    by `Generate`). It is declared before the record, or it is the record itself, or
    it is declared after the record and refers back to it through a chain of records,
    each with a field of the next one's type. In the last case the two lie on a cycle
    of field types. A message is registered before its fields are visited, so the
    records still being written form such a chain; the ghost field `pending` keeps,
    for each block, the chain in progress when it was written.
  - Nothing else is declared. A call for a message adds only that message's record and
    blocks for types reached from it through fields (`SpawnedBy`); its fields alone add
    only blocks reached from it (`Below`); a scalar field adds nothing. At the top, every
    new block is a top-level enumeration of the file or a type reached from a top-level
    message (`FromTopLevel`, stated by `Generate`).
- **Enumerations.**
  - The values are sorted by number with an insertion sort over an array, standing for
    `std::sort`.
  - For sorted, distinct, non-negative numbers, the gap-filling loop writes the entries
    0, 1, …, max in order. Each enumerator sits at the position of its number, and
    `_unusedK = K,` fills every other position K. Every line but the last ends in a
    comma (`GapFilling`).
- **Fields.**
  - A field line is `[FieldTag(tag), options] name: type;`.
  - The tag reads back as the field number (`FieldTagReadsBack`, via
    `IntToStringRoundTrip`).
  - The attribute list `, Required`, `, UnPacked`, `, FieldName('…')` reads back as the
    field's flags and JSON name (`OptionsRoundTrip`).

Modules, in dependency order:
- `Chars` holds ASCII `isalpha`, `toupper` and `tolower`.
- `Strings` holds remove, erase and replace.
- `CamelCasing`.
- `DelphiUtils`.
- `Decimal` is `std::to_string`.
- `Descriptors` is the descriptor tree. A field refers to its enum or message type by
  position in the schema.
- `Printing` is the output side of `io::Printer`.
- `EnumLayout`, `FieldLayout` and `UnitLayout` are the text of the unit.
- `SeqFacts`.
- `UnitGenerator` is the class.

The model keeps these behaviours of `delphiunitgenerator.cpp` and `delphiutils.cpp`
as written:

- GetCamelCase capitalises the letter after *any* non-letter, digits included, not only
  after an underscore.
- The unit has no `oneof` blocks, no default-value attributes and no
  `emit_unused_types` option. Top-level enumerations are written unconditionally, before
  the top-level messages.
- Value names are `GetCamelCase(ToLower(name))`. No enum-name prefix is stripped, and no
  value is dropped.
- The registry key is the declared name (`T` + camel-cased short name). As a result,
  a schema name with underscores and its own camel-cased form (`a_b` and `AB`, both
  `TAB`) share one declaration (`UnderscoredNamesCollide`). Other names that differ
  only by underscores need not collide: `ab` gives `TAb`.
- The constructor takes a list of key/value parameters, as the `.cpp` does. The
  declaration in `delphiunitgenerator.h` is stale: a single string parameter, no
  `_emitJsonNames` member, no `Enumerator` struct. `_emitJsonNames` has no initialiser
  in the `.cpp`; the model takes it to start false.

## Model

| member | source | states |
|---|---|---|
| Chars.UpperChar | generator/protobuf/src/delphiutils.cpp:16 | std::toupper: a lower-case letter becomes its capital, which maps back under tolower; everything else is kept; letters stay letters |
| Chars.LowerChar | generator/protobuf/src/delphiutils.h:46-48 | std::tolower: capitals become lower case, everything else is kept, letters stay letters |
| Strings.RemoveAll | generator/protobuf/src/delphiutils.h:12 | the remove–erase idiom leaves no occurrence of the removed character |
| Strings.RemoveAllKeepsTheRest | generator/protobuf/src/delphiutils.h:12 | exactly the occurrences of the character are removed; every other character is still there |
| Strings.ReplaceAll | generator/protobuf/src/delphiutils.h:24 | std::replace: same length, each `from` becomes `to`, every other position unchanged |
| CamelCasing.CamelFrom | generator/protobuf/src/delphiutils.cpp:7-19 | what the loop appends for the rest of a name, given whether the previous character was a letter; it never contains an underscore |
| CamelCasing.CamelCase | generator/protobuf/src/delphiutils.cpp:3-21 | the result has no underscore, is shorter than the name by exactly its underscores, and keeps every character that is neither a letter nor an underscore, in order |
| CamelCasing.GetCamelCase | generator/protobuf/src/delphiutils.cpp:3-21 | the loop with its isAlpha flag computes CamelCase(name) |
| CamelCasing.CamelCaseCapitalises | generator/protobuf/src/delphiutils.cpp:13-17 | position by position: a letter is upper-cased iff it is first or follows a non-letter (underscores included), then the underscores are dropped |
| CamelCasing.CamelCaseIdempotent | generator/protobuf/src/delphiutils.cpp:3-21 | camel-casing a camel-cased name changes nothing |
| DelphiUtils.Lower | generator/protobuf/src/delphiutils.h:43-50 | every character mapped through tolower, same length |
| DelphiUtils.Upper | generator/protobuf/src/delphiutils.h:52-59 | every character mapped through toupper, same length |
| DelphiUtils.ToLower | generator/protobuf/src/delphiutils.h:43-50 | the in-place transform of a copy yields Lower(name) |
| DelphiUtils.ToUpper | generator/protobuf/src/delphiutils.h:52-59 | the in-place transform of a copy yields Upper(name) |
| DelphiUtils.CaseMappingKeepsShape | generator/protobuf/src/delphiutils.h:43-59 | both mappings keep the length and every non-letter, and map letters to letters |
| DelphiUtils.LowerIdempotent | generator/protobuf/src/delphiutils.h:43-50 | lower-casing twice is lower-casing once |
| DelphiUtils.LowerOfUpper | generator/protobuf/src/delphiutils.h:43-59 | lower-casing forgets an earlier upper-casing |
| DelphiUtils.FullName | generator/protobuf/src/delphiutils.h:9-14 | the camel-cased name without its dots: contains neither '.' nor '_', shorter by exactly its dots |
| DelphiUtils.Remove | generator/protobuf/src/delphiutils.h:12 | std::remove on a buffer: the kept prefix is the buffer's old contents without the character, in order |
| DelphiUtils.GetFullName | generator/protobuf/src/delphiutils.h:9-14 | the copy-and-erase method yields FullName(name) |
| DelphiUtils.UnitName | generator/protobuf/src/delphiutils.h:21-26 | the camel-cased path with every '/' turned into '.', position by position; no '/' is left |
| DelphiUtils.GetUnitName | generator/protobuf/src/delphiutils.h:21-26 | the in-place replace yields UnitName(name) |
| DelphiUtils.GetEnumName | generator/protobuf/src/delphiutils.h:28-31 | starts with 'T' and contains no '.' and no '_' |
| DelphiUtils.GetRecordName | generator/protobuf/src/delphiutils.h:16-19 | the same name GetEnumName gives: records and enumerations share one name space |
| DelphiUtils.GetFieldName | generator/protobuf/src/delphiutils.h:33-36 | 'F' followed by the camel-cased name; no underscore; length 1 + name length − underscores |
| DelphiUtils.GetArrayType | generator/protobuf/src/delphiutils.h:38-41 | `TArray<` + element + `>`, and the element type can be read back from it |
| DelphiUtils.UnderscoredNamesCollide | generator/protobuf/src/delphiutils.h:9-19 | a name with an underscore and its camel-cased form are different names that get the same declared type name |
| Decimal.NatToString | generator/protobuf/src/delphiunitgenerator.cpp:83 | the decimal digits of a natural number, at least one, no leading zero |
| Decimal.IntToString | generator/protobuf/src/delphiunitgenerator.cpp:96 | std::to_string: ends in a digit, starts with '-' iff the number is negative |
| Decimal.IntToStringRoundTrip | generator/protobuf/src/delphiunitgenerator.cpp:118 | the text is an optionally signed digit string that parses back to the number, so different numbers print differently |
| Printing.Printer.Print | generator/protobuf/src/delphiunitgenerator.cpp:26 | appends one line: the text after two spaces per indent level, or an empty line |
| Printing.Printer.Indent | generator/protobuf/src/delphiunitgenerator.cpp:30 | one level deeper, nothing written |
| Printing.Printer.Outdent | generator/protobuf/src/delphiunitgenerator.cpp:35 | one level back, nothing written; only after an Indent |
| EnumLayout.EntryText | generator/protobuf/src/delphiunitgenerator.cpp:93-102 | `name = value` ends in a comma exactly when the entry has one, otherwise in a digit |
| EnumLayout.GapShape | generator/protobuf/src/delphiunitgenerator.cpp:82-85 | the placeholders from `from` up to `to` number to − from, the k-th for from + k |
| EnumLayout.SortedAscending | generator/protobuf/src/delphiunitgenerator.cpp:132-134 | sorted, distinct numbers none below the cursor are strictly ascending from it |
| EnumLayout.EntriesAt | generator/protobuf/src/delphiunitgenerator.cpp:81-88 | indexing the entries: placeholders before the first enumerator's number, the enumerator at it, the rest's entries after it |
| EnumLayout.EntriesAreDense | generator/protobuf/src/delphiunitgenerator.cpp:80-88 | the entries number max + 1 − cursor, and the k-th carries value cursor + k |
| EnumLayout.EnumeratorAt | generator/protobuf/src/delphiunitgenerator.cpp:86 | an enumerator sits at the position of its number |
| EnumLayout.EnumeratorsInPlace | generator/protobuf/src/delphiunitgenerator.cpp:80-88 | every enumerator sits at the position of its number |
| EnumLayout.PlaceholderAt | generator/protobuf/src/delphiunitgenerator.cpp:82-85 | a position whose number no enumerator has holds that number's placeholder |
| EnumLayout.PlaceholdersFillGaps | generator/protobuf/src/delphiunitgenerator.cpp:82-85 | every number no enumerator has gets the placeholder `_unusedK` |
| EnumLayout.CommaAfterAllButLast | generator/protobuf/src/delphiunitgenerator.cpp:97-101 | with only the last enumerator flagged, exactly the final entry has no comma; placeholders always have one |
| EnumLayout.GapFilling | generator/protobuf/src/delphiunitgenerator.cpp:68-91 | for sorted, distinct, non-negative numbers starting the cursor at 0: values 0..max in order, enumerators at their numbers, placeholders elsewhere, a comma after all but the last |
| FieldLayout.FieldNameRoundTrip | generator/protobuf/src/delphiunitgenerator.cpp:113-115 | the JSON-name attribute reads back as the JSON name, and is absent without emit_json_names |
| FieldLayout.ReadFlags | generator/protobuf/src/delphiunitgenerator.cpp:107-112 | the Required and UnPacked flags read back from the front of the list |
| FieldLayout.OptionsRoundTrip | generator/protobuf/src/delphiunitgenerator.cpp:106-115 | the attribute list reads back as (required, packable and not packed, JSON name iff emit_json_names) |
| FieldLayout.DeclaredType | generator/protobuf/src/delphiunitgenerator.cpp:117 | a repeated field is declared as TArray of its element type, which reads back; any other as its type |
| FieldLayout.FieldDeclaration | generator/protobuf/src/delphiunitgenerator.cpp:120 | the line starts with `[FieldTag(` and ends with `;` |
| FieldLayout.FieldTagReadsBack | generator/protobuf/src/delphiunitgenerator.cpp:118-120 | the tag text sits right after `[FieldTag(`, contains no ')', is followed by ')', and parses back to the field number; the attribute list after it reads back as the field's attributes |
| FieldLayout.Fields | generator/protobuf/src/delphiunitgenerator.cpp:139-155 | one Field for each of the message's field descriptors (the same count); GetFields states which |
| FieldLayout.MentionsAreReferences | generator/protobuf/src/delphiunitgenerator.cpp:139-170 | the non-scalar type names a record's field lines mention are exactly the types its message's fields refer to |
| UnitLayout.EntryLinesAppend | generator/protobuf/src/delphiunitgenerator.cpp:81-88 | the lines of two runs of entries are the lines of each, in order |
| UnitLayout.RenderAppend | generator/protobuf/src/delphiunitgenerator.cpp:38-43 | the lines of two runs of blocks are the lines of each, in order |
| UnitLayout.UnitHeader | generator/protobuf/src/delphiunitgenerator.cpp:26-37 | the head: the unit name, `{$SCOPEDENUMS ON}`, the uses clause with Delphi.Serial only under emit_json_names, then `type` |
| UnitLayout.UnitFooter | generator/protobuf/src/delphiunitgenerator.cpp:45-46 | the tail ends with `end.` |
| UnitLayout.HeaderDeclares | generator/protobuf/src/delphiunitgenerator.cpp:59 | a block's header line declares its type name at the block's level |
| UnitLayout.MembersQuiet | generator/protobuf/src/delphiunitgenerator.cpp:60-64 | member lines, one level deeper, declare nothing at the block's level |
| UnitLayout.BlockDeclares | generator/protobuf/src/delphiunitgenerator.cpp:58-65 | a whole block declares exactly its own name |
| UnitLayout.RenderDeclares | generator/protobuf/src/delphiunitgenerator.cpp:38-43 | the type section declares exactly the blocks' names, in order |
| UnitGenerator.ExtendsTrans | generator/protobuf/src/delphiunitgenerator.cpp:51-54 | two successive extensions of registry and blocks are one extension |
| UnitGenerator.ExtendsWithBlock | generator/protobuf/src/delphiunitgenerator.cpp:54-65 | appending the block of a type registered just before it keeps the invariant |
| UnitGenerator.FromSchemaNamed | generator/protobuf/src/delphiunitgenerator.cpp:51 | every block's name starts with 'T' |
| UnitGenerator.DeclaredOnce | generator/protobuf/src/delphiunitgenerator.cpp:51-54 | from an empty registry, the type section declares every registered type exactly once, and nothing else |
| UnitGenerator.Registering | generator/protobuf/src/delphiunitgenerator.cpp:51-54 | registering a new name before visiting the fields keeps the registry equal to the declared names plus the records in progress, the new one last |
| UnitGenerator.FieldLeads | generator/protobuf/src/delphiunitgenerator.cpp:143-147 | a chain of records in progress leading to a message, extended by that message, leads to the type of each of its non-scalar fields |
| UnitGenerator.LeadsFrom | generator/protobuf/src/delphiunitgenerator.cpp:143-166 | any suffix of a chain of records in progress still leads to the same type |
| UnitGenerator.BlockOrdered | generator/protobuf/src/delphiunitgenerator.cpp:54-73 | a block appended while a chain of records leading to it is in progress is ordered: its mentioned types are declared, itself, or on that chain |
| UnitGenerator.RecordPlaced | generator/protobuf/src/delphiunitgenerator.cpp:54-65 | appending a record whose references are registered closes it: it leaves the chain in progress, and its references are earlier blocks, itself, or still in progress |
| UnitGenerator.NestedTrans | generator/protobuf/src/delphiunitgenerator.cpp:143-166 | blocks ordered by one call, then by the next, are ordered together |
| UnitGenerator.NestedDeclares | generator/protobuf/src/delphiunitgenerator.cpp:19-66 | once the recursion has finished, every type a new record mentions is declared, and before it unless it is the record itself or declared after it and leading back to it through records |
| UnitGenerator.ReachesThrough | generator/protobuf/src/delphiunitgenerator.cpp:143-147 | a type reached from the type of a message's non-scalar field is reached from the message |
| UnitGenerator.BelowStep | generator/protobuf/src/delphiunitgenerator.cpp:143-147 | after one more field, every block written for the message's fields is still reached from the message |
| UnitGenerator.TopLevelMessage | generator/protobuf/src/delphiunitgenerator.cpp:41-43 | the blocks written for a top-level message keep every new block a top-level type or reached from one |
| UnitGenerator.SortByNumber | generator/protobuf/src/delphiunitgenerator.cpp:132-134 | the array ends sorted by number and is a permutation of what it was |
| UnitGenerator.InsertAt | generator/protobuf/src/delphiunitgenerator.cpp:132-134 | one insertion step extends the sorted prefix by one, as a permutation |
| UnitGenerator.DelphiUnitGenerator.constructor | generator/protobuf/src/delphiunitgenerator.cpp:5-17 | records the unit name; emit_json_names is on iff some parameter has that key, whatever its value; empty registry and output |
| UnitGenerator.DelphiUnitGenerator.Generate | generator/protobuf/src/delphiunitgenerator.cpp:19-22 | writes the head, the new blocks one level deeper, and the tail; every top-level enum and message is registered; every new block is a top-level enumeration or a type reached from a top-level message; every type a new record mentions is declared in the unit, before the record unless it is the record itself or lies on a cycle of field types with it |
| UnitGenerator.DelphiUnitGenerator.PrintFile | generator/protobuf/src/delphiunitgenerator.cpp:24-47 | output = head + the new blocks one level deeper + tail; the invariant holds and every new block is ordered; every top-level enum and message is registered, and every new block is one of them or reached from a top-level message; the level is restored |
| UnitGenerator.DelphiUnitGenerator.PrintUnitHeader | generator/protobuf/src/delphiunitgenerator.cpp:26-36 | appends exactly the unit head at the current level |
| UnitGenerator.DelphiUnitGenerator.PrintBody | generator/protobuf/src/delphiunitgenerator.cpp:37-44 | one level deeper, the new blocks, each ordered and each a top-level enumeration or reached from a top-level message; the level is restored |
| UnitGenerator.DelphiUnitGenerator.PrintTypes | generator/protobuf/src/delphiunitgenerator.cpp:38-43 | both loops: the lines are the new blocks, each ordered; every top-level enumeration and message is registered, and every new block is one of them or reached from a top-level message |
| UnitGenerator.DelphiUnitGenerator.PrintUnitFooter | generator/protobuf/src/delphiunitgenerator.cpp:45-46 | appends exactly the unit tail |
| UnitGenerator.DelphiUnitGenerator.PrintMessage | generator/protobuf/src/delphiunitgenerator.cpp:49-66 | a registered name changes nothing; otherwise the last new block is the message's record with its fields; the name ends up registered; every new block is the record or a type reached from it; the registry stays the declared names plus the records in progress, and every new block is ordered with respect to them |
| UnitGenerator.DelphiUnitGenerator.DeclareRecord | generator/protobuf/src/delphiunitgenerator.cpp:51-65 | the name is registered before the fields are visited; the record is the last new block and every block before it is reached from the message; every type it refers to is declared in an earlier block, is the record itself, or is one of the records still being written, which lead to it |
| UnitGenerator.DelphiUnitGenerator.PlaceRecord | generator/protobuf/src/delphiunitgenerator.cpp:56-65 | writes the record after its fields, appends its block and takes it off the chain in progress; the block is ordered, and the new blocks are the record and types reached from it |
| UnitGenerator.DelphiUnitGenerator.EmitRecord | generator/protobuf/src/delphiunitgenerator.cpp:58-65 | writes the record block and appends it; the invariant is kept |
| UnitGenerator.DelphiUnitGenerator.PrintRecord | generator/protobuf/src/delphiunitgenerator.cpp:58-65 | appends exactly the record block's lines |
| UnitGenerator.DelphiUnitGenerator.PrintFields | generator/protobuf/src/delphiunitgenerator.cpp:61-63 | appends one declaration line per field, in order |
| UnitGenerator.DelphiUnitGenerator.GetFields | generator/protobuf/src/delphiunitgenerator.cpp:139-155 | the result is the message's Fields, and every type the fields refer to is registered; every block it adds is reached from the message through its fields; whatever it writes keeps the invariant and is ordered, the message being in progress |
| UnitGenerator.DelphiUnitGenerator.GetFieldType | generator/protobuf/src/delphiunitgenerator.cpp:157-170 | the scalar type name, with nothing written or registered; or the enumeration or record name, which is then registered, and every block added is that type or reached from it; whatever it writes keeps the invariant and is ordered |
| UnitGenerator.DelphiUnitGenerator.PrintEnum | generator/protobuf/src/delphiunitgenerator.cpp:68-91 | a registered name changes nothing; otherwise exactly one block is added, named after the enum: the enumeration of its values sorted by number with gaps filled, ordered after the records in progress |
| UnitGenerator.DelphiUnitGenerator.PrintEnumeration | generator/protobuf/src/delphiunitgenerator.cpp:77-90 | appends exactly the enumeration block's lines |
| UnitGenerator.DelphiUnitGenerator.PrintEntries | generator/protobuf/src/delphiunitgenerator.cpp:80-88 | the nested loops write exactly the lines of Entries(enumerators, 0) |
| UnitGenerator.DelphiUnitGenerator.PrintPlaceholders | generator/protobuf/src/delphiunitgenerator.cpp:82-85 | writes the placeholder lines from `from` up to `to` |
| UnitGenerator.DelphiUnitGenerator.PrintEnumerator | generator/protobuf/src/delphiunitgenerator.cpp:93-102 | writes the value's line: lower-cased, camel-cased name, number, comma unless last |
| UnitGenerator.DelphiUnitGenerator.PrintField | generator/protobuf/src/delphiunitgenerator.cpp:104-121 | writes the field's declaration line |
| UnitGenerator.DelphiUnitGenerator.FieldOptionsText | generator/protobuf/src/delphiunitgenerator.cpp:106-115 | the appended attributes are FieldOptions: Required, UnPacked, FieldName, in that order, each only when it applies |
| UnitGenerator.DelphiUnitGenerator.GetEnumerators | generator/protobuf/src/delphiunitgenerator.cpp:123-137 | the enum's values sorted by number, a permutation of the descriptor order, exactly the last one flagged |

## Left out

- `io::Printer` is modelled by its output only: a list of lines and an indent level of
  two spaces. Its `$name$` substitution and the `_variables` map are not modelled, so
  the lines carry the substituted values. The output stream and `delphiunitgenerator.h`'s
  `_parameters` member are not part of this model.
- The protoc plugin glue (`delphicodegenerator.cpp`, the `main` programs) is not part of
  this model. The unit name reaches the constructor as a parameter.
- Characters are ASCII in the "C" locale. `isalpha`, `toupper` and `tolower` of other
  locales or of bytes above 127 are not modelled.
- Integers are unbounded. The 32-bit `int` of numbers and tags is not modelled, so the
  undefined overflow of `enumerator.number + 1` at INT_MAX is absent.
- UnitGenerator.SortByNumber: states sortedness and permutation only. The order of
  enumerators with equal numbers is left open, as `std::sort` leaves it.
- UnitGenerator.DelphiUnitGenerator.GetEnumerators: requires at least one value.
  protobuf guarantees this, and `result.back()` is undefined on an empty vector.
- EnumLayout.GapFilling: says nothing about enumerations with duplicate numbers (aliases)
  or negative numbers. For those the loop still writes `Entries(es, 0)`, but the
  positions are not the numbers.
- UnitGenerator.DelphiUnitGenerator.PrintTypes: does not state that the blocks of the
  top-level enumerations come before those of the top-level messages, only which
  blocks are written.
- The generator's methods that split one source function are helpers of the model,
  not extra operations:
  - PrintFile splits into PrintUnitHeader, PrintBody, PrintTypes and PrintUnitFooter.
  - Print(const Descriptor *) splits into DeclareRecord, PlaceRecord, EmitRecord,
    PrintRecord and PrintFields.
  - Print(const EnumDescriptor *) splits into PrintEnumeration, PrintEntries and
    PrintPlaceholders.
  - Print(const Field &) uses FieldOptionsText.
- The ghost fields `blocks` (the declarations written) and `pending` (for each, the
  records in progress when it was written) and the ghost `path` parameters serve the
  proofs only. They have no counterpart in the source.
- Termination of the recursion through field types is shown by the number of schema
  type names not yet registered. A type is registered before its fields are visited,
  so a cycle of messages writes each record once. The record reached first through
  the cycle is then written after a record that refers to it.
