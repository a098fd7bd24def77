/** The parts of protobuf's descriptor tree the unit generator reads. A descriptor
    refers to the enumeration or message type of a field by its position in the
    schema, which stands for the descriptor pointer. */
module Descriptors {

  /** How a field's type is resolved: a scalar by its protobuf type name, an enum or a
      message (or group) by reference. */
  datatype FieldKind =
    | ScalarType(typeName: string)
    | EnumType(enumIndex: nat)
    | MessageType(messageIndex: nat)

  datatype FieldDescriptor = FieldDescriptor(
    name: string,
    jsonName: string,
    kind: FieldKind,
    isRequired: bool,
    isRepeated: bool,
    isPackable: bool,
    isPacked: bool,
    number: int)

  /** A message type: its short name and its fields in declaration order. */
  datatype Descriptor = Descriptor(name: string, fields: seq<FieldDescriptor>)

  datatype EnumValueDescriptor = EnumValueDescriptor(name: string, number: int)

  /** An enumeration type: its short name and its values in declaration order. */
  datatype EnumDescriptor = EnumDescriptor(name: string, values: seq<EnumValueDescriptor>)

  /** Every message and enumeration type a file can reach: its own, the nested ones and
      those of the files it imports. */
  datatype Schema = Schema(messages: seq<Descriptor>, enums: seq<EnumDescriptor>)

  /** A file: the schema it sees and the positions of its top-level enumeration and
      message types in that schema. */
  datatype FileDescriptor = FileDescriptor(
    name: string,
    schema: Schema,
    enumTypes: seq<nat>,
    messageTypes: seq<nat>)

  /** The names FieldDescriptor::type_name() gives the scalar types: every type but
      enum, message and group. */
  const ScalarTypeNames: set<string> := {
    "double", "float", "int64", "uint64", "int32", "fixed64", "fixed32", "bool",
    "string", "bytes", "uint32", "sfixed32", "sfixed64", "sint32", "sint64"}

  /** No scalar type name starts with a capital. */
  lemma ScalarNamesLowerCase(t: string)
    requires t in ScalarTypeNames
    ensures t != [] && 'a' <= t[0] <= 'z'
  {
  }

  predicate ValidKind(schema: Schema, kind: FieldKind)
  {
    match kind
    case ScalarType(typeName) => typeName in ScalarTypeNames
    case EnumType(e) => e < |schema.enums|
    case MessageType(m) => m < |schema.messages|
  }

  /** What protobuf guarantees of a descriptor tree: every type reference resolves and
      every enumeration has at least one value. */
  predicate WellFormed(schema: Schema)
  {
    && (forall m, j :: 0 <= m < |schema.messages| && 0 <= j < |schema.messages[m].fields| ==>
          ValidKind(schema, schema.messages[m].fields[j].kind))
    && (forall e :: 0 <= e < |schema.enums| ==> |schema.enums[e].values| > 0)
  }

  predicate WellFormedFile(file: FileDescriptor)
  {
    && WellFormed(file.schema)
    && (forall i :: 0 <= i < |file.enumTypes| ==> file.enumTypes[i] < |file.schema.enums|)
    && (forall i :: 0 <= i < |file.messageTypes| ==> file.messageTypes[i] < |file.schema.messages|)
  }
}
