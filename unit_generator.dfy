/** DelphiUnitGenerator (generator/protobuf/src/delphiunitgenerator.cpp): walks a file's
    descriptors and writes one Delphi unit. The registry `types` of declared type names
    makes every type declared once; a field whose type is an enumeration or a message
    has that type written first, before the record that uses it. */
module UnitGenerator {
  import opened Decimal
  import opened CamelCasing
  import opened DelphiUtils
  import opened Descriptors
  import opened Printing
  import opened EnumLayout
  import opened FieldLayout
  import opened UnitLayout
  import opened SeqFacts

  /** The type names the schema can declare: one record per message, one enumeration
      per enum. */
  function TypeNames(schema: Schema): set<string>
  {
    (set i | 0 <= i < |schema.messages| :: GetRecordName(schema.messages[i].name))
    + (set i | 0 <= i < |schema.enums| :: GetEnumName(schema.enums[i].name))
  }

  /** A block the generator writes for `schema`: the record of a message with its fields,
      or an enumeration whose values are sorted and whose gaps are filled. */
  ghost predicate FromSchema(schema: Schema, b: Block)
  {
    match b
    case Record(name, fields) =>
      exists i :: 0 <= i < |schema.messages| && name == GetRecordName(schema.messages[i].name)
        && KindsValid(schema, schema.messages[i]) && fields == Fields(schema, schema.messages[i])
    case Enumeration(name, entries) =>
      exists i, es :: 0 <= i < |schema.enums| && name == GetEnumName(schema.enums[i].name)
        && EnumeratorOrder(es, schema.enums[i].values) && entries == Entries(es, 0)
  }

  function NamesFrom(bs: seq<Block>, k: nat): set<string>
  {
    set i | k <= i < |bs| :: bs[i].name
  }

  /** What a run of the generator does to its registry and to the list of blocks it has
      written: it only appends blocks, each taken from the schema, each naming a type
      that was not registered before and that no other new block names; the registry
      grows by exactly the new blocks' names. */
  ghost predicate Extends(schema: Schema, t0: set<string>, b0: seq<Block>, t1: set<string>, b1: seq<Block>)
  {
    && b0 <= b1
    && t1 == t0 + NamesFrom(b1, |b0|)
    && (forall i :: |b0| <= i < |b1| ==> b1[i].name !in t0 && FromSchema(schema, b1[i]))
    && (forall i, j :: |b0| <= i < j < |b1| ==> b1[i].name != b1[j].name)
  }

  lemma ExtendsRefl(schema: Schema, t: set<string>, b: seq<Block>)
    ensures Extends(schema, t, b, t, b)
  {
  }

  lemma ExtendsTrans(schema: Schema, t0: set<string>, b0: seq<Block>, t1: set<string>, b1: seq<Block>,
                     t2: set<string>, b2: seq<Block>)
    requires Extends(schema, t0, b0, t1, b1) && Extends(schema, t1, b1, t2, b2)
    ensures Extends(schema, t0, b0, t2, b2)
  {
    assert NamesFrom(b2, |b0|) == NamesFrom(b1, |b0|) + NamesFrom(b2, |b1|) by {
      forall i | |b0| <= i < |b1|
        ensures b2[i] == b1[i]
      {
      }
    }
    forall i, j | |b0| <= i < j < |b2|
      ensures b2[i].name != b2[j].name
    {
      if j >= |b1| && i < |b1| {
        assert b2[i] == b1[i];
        assert b1[i].name in NamesFrom(b1, |b0|);
      }
    }
  }

  /** Registering a type first and writing its block last is an extension too. */
  lemma ExtendsWithBlock(schema: Schema, t0: set<string>, b0: seq<Block>, t1: set<string>, b1: seq<Block>, x: Block)
    requires Extends(schema, t0 + {x.name}, b0, t1, b1)
    requires x.name !in t0 && FromSchema(schema, x)
    ensures Extends(schema, t0, b0, t1, b1 + [x])
  {
    assert (b1 + [x])[..|b0|] == b1[..|b0|];
    NamesFromSnoc(b1, |b0|, x);
    NewBlocksSnoc(schema, t0, |b0|, b1, x);
    NewNamesSnoc(t0, |b0|, b1, x);
  }

  lemma NewBlocksSnoc(schema: Schema, t0: set<string>, k: nat, b1: seq<Block>, x: Block)
    requires forall i :: k <= i < |b1| ==> b1[i].name !in t0 + {x.name} && FromSchema(schema, b1[i])
    requires x.name !in t0 && FromSchema(schema, x)
    ensures forall i :: k <= i < |b1 + [x]| ==> (b1 + [x])[i].name !in t0 && FromSchema(schema, (b1 + [x])[i])
  {
    var b2 := b1 + [x];
    forall i | k <= i < |b2|
      ensures b2[i].name !in t0 && FromSchema(schema, b2[i])
    {
      if i < |b1| {
        assert b2[i] == b1[i];
      }
    }
  }

  lemma NewNamesSnoc(t0: set<string>, k: nat, b1: seq<Block>, x: Block)
    requires forall i :: k <= i < |b1| ==> b1[i].name !in t0 + {x.name}
    requires forall i, j :: k <= i < j < |b1| ==> b1[i].name != b1[j].name
    ensures forall i, j :: k <= i < j < |b1 + [x]| ==> (b1 + [x])[i].name != (b1 + [x])[j].name
  {
    var b2 := b1 + [x];
    forall i, j | k <= i < j < |b2|
      ensures b2[i].name != b2[j].name
    {
      assert b2[i] == b1[i];
      if j < |b1| {
        assert b2[j] == b1[j];
      }
    }
  }

  lemma NamesFromSnoc(bs: seq<Block>, k: nat, x: Block)
    requires k <= |bs|
    ensures NamesFrom(bs + [x], k) == NamesFrom(bs, k) + {x.name}
  {
    var b2 := bs + [x];
    assert b2[|bs|] == x;
    forall i | k <= i < |bs|
      ensures b2[i] == bs[i]
    {
    }
  }

  /** Every block the generator writes declares a name that starts with 'T'. */
  lemma FromSchemaNamed(schema: Schema, b: Block)
    requires FromSchema(schema, b)
    ensures b.name != [] && b.name[0] == 'T'
  {
    match b
    case Record(name, _) =>
      var i :| 0 <= i < |schema.messages| && name == GetRecordName(schema.messages[i].name);
    case Enumeration(name, _) =>
      var i, es :| 0 <= i < |schema.enums| && name == GetEnumName(schema.enums[i].name)
        && EnumeratorOrder(es, schema.enums[i].values) && Block.Enumeration(name, Entries(es, 0)) == b;
  }

  /** Starting from an empty registry, the type section the generator writes declares
      every registered type exactly once, in the order of the blocks. */
  lemma DeclaredOnce(schema: Schema, types: set<string>, blocks: seq<Block>, level: nat, emitJsonNames: bool)
    requires Extends(schema, {}, [], types, blocks)
    ensures Declarations(level, Render(level, emitJsonNames, blocks)) == Names(blocks)
    ensures forall i, j :: 0 <= i < j < |blocks| ==> Names(blocks)[i] != Names(blocks)[j]
    ensures forall n :: n in types <==> n in Names(blocks)
  {
    BlocksNamed(schema, types, blocks);
    RenderDeclares(level, emitJsonNames, blocks);
    NamesDistinct(schema, types, blocks);
    NamesRegistered(schema, types, blocks);
  }

  lemma BlocksNamed(schema: Schema, types: set<string>, blocks: seq<Block>)
    requires Extends(schema, {}, [], types, blocks)
    ensures forall i :: 0 <= i < |blocks| ==> blocks[i].name != [] && blocks[i].name[0] != ' '
  {
    forall i | 0 <= i < |blocks|
      ensures blocks[i].name != [] && blocks[i].name[0] != ' '
    {
      FromSchemaNamed(schema, blocks[i]);
    }
  }

  lemma NamesDistinct(schema: Schema, types: set<string>, blocks: seq<Block>)
    requires Extends(schema, {}, [], types, blocks)
    ensures forall i, j :: 0 <= i < j < |blocks| ==> Names(blocks)[i] != Names(blocks)[j]
  {
  }

  lemma NamesRegistered(schema: Schema, types: set<string>, blocks: seq<Block>)
    requires Extends(schema, {}, [], types, blocks)
    ensures forall n :: n in types <==> n in Names(blocks)
  {
    forall n
      ensures n in types <==> n in Names(blocks)
    {
      if n in types {
        var i :| 0 <= i < |blocks| && blocks[i].name == n;
        assert Names(blocks)[i] == n;
      }
    }
  }

  // The output grows by the blocks appended.

  /** What a step of the generator does: the registry and the blocks extend as
      `Extends` says, and the lines written are exactly the new blocks at `level`. */
  ghost predicate Progress(schema: Schema, emitJsonNames: bool, level: nat,
                           t0: set<string>, b0: seq<Block>, l0: seq<string>,
                           t1: set<string>, b1: seq<Block>, l1: seq<string>)
  {
    Extends(schema, t0, b0, t1, b1) && l1 == l0 + Render(level, emitJsonNames, b1[|b0|..])
  }

  lemma Stay(schema: Schema, emitJsonNames: bool, level: nat, t: set<string>, b: seq<Block>, l: seq<string>)
    ensures Progress(schema, emitJsonNames, level, t, b, l, t, b, l)
  {
    ExtendsRefl(schema, t, b);
    EmptySuffix(b);
    AppendEmpty(l);
  }

  lemma Chain(schema: Schema, emitJsonNames: bool, level: nat,
              t0: set<string>, b0: seq<Block>, l0: seq<string>,
              t1: set<string>, b1: seq<Block>, l1: seq<string>,
              t2: set<string>, b2: seq<Block>, l2: seq<string>)
    requires Progress(schema, emitJsonNames, level, t0, b0, l0, t1, b1, l1)
    requires Progress(schema, emitJsonNames, level, t1, b1, l1, t2, b2, l2)
    ensures Progress(schema, emitJsonNames, level, t0, b0, l0, t2, b2, l2)
    ensures t0 <= t1 <= t2
  {
    ExtendsTrans(schema, t0, b0, t1, b1, t2, b2);
    SuffixOfExtension(b0, b1, b2);
    RenderAppend(level, emitJsonNames, b1[|b0|..], b2[|b1|..]);
    AppendAssoc(l0, Render(level, emitJsonNames, b1[|b0|..]), Render(level, emitJsonNames, b2[|b1|..]));
  }

  /** Registering a type, writing what it depends on, then writing its own block. */
  lemma WithBlock(schema: Schema, emitJsonNames: bool, level: nat,
                  t0: set<string>, b0: seq<Block>, l0: seq<string>,
                  t1: set<string>, b1: seq<Block>, l1: seq<string>, x: Block, l2: seq<string>)
    requires Progress(schema, emitJsonNames, level, t0 + {x.name}, b0, l0, t1, b1, l1)
    requires x.name !in t0 && FromSchema(schema, x)
    requires l2 == l1 + BlockLines(level, emitJsonNames, x)
    ensures Progress(schema, emitJsonNames, level, t0, b0, l0, t1, b1 + [x], l2)
    ensures (b1 + [x])[..|b1|] == b1 && t1 == t0 + {x.name} + NamesFrom(b1, |b0|)
  {
    ExtendsWithBlock(schema, t0, b0, t1, b1, x);
    SuffixSnoc(b0, b1, x);
    RenderSnoc(level, emitJsonNames, b1[|b0|..], x);
    AppendAssoc(l0, Render(level, emitJsonNames, b1[|b0|..]), BlockLines(level, emitJsonNames, x));
    PrefixOfSnoc(b1, x);
  }

  lemma MessageKindsValid(schema: Schema, mi: nat)
    requires WellFormed(schema) && mi < |schema.messages|
    ensures KindsValid(schema, schema.messages[mi])
  {
  }

  lemma AllFields(schema: Schema, m: Descriptor, fields: seq<Field>)
    requires KindsValid(schema, m) && |fields| == |m.fields|
    requires forall j :: 0 <= j < |fields| ==> fields[j] == FieldOf(schema, m.fields[j])
    ensures fields == Fields(schema, m)
  {
  }

  lemma FieldsStep(schema: Schema, m: Descriptor, done: seq<Field>, i: int, x: Field)
    requires KindsValid(schema, m) && 0 <= i < |m.fields| && |done| == i
    requires forall j :: 0 <= j < i ==> done[j] == FieldOf(schema, m.fields[j])
    requires x == FieldOf(schema, m.fields[i])
    ensures forall j :: 0 <= j < i + 1 ==> (done + [x])[j] == FieldOf(schema, m.fields[j])
  {
  }

  lemma TypesStep(schema: Schema, m: Descriptor, i: int, t1: set<string>, t2: set<string>)
    requires KindsValid(schema, m) && 0 <= i < |m.fields| && t1 <= t2
    requires forall j :: 0 <= j < i && !m.fields[j].kind.ScalarType? ==> FieldTypeName(schema, m.fields[j]) in t1
    requires !m.fields[i].kind.ScalarType? ==> FieldTypeName(schema, m.fields[i]) in t2
    ensures forall j :: 0 <= j < i + 1 && !m.fields[j].kind.ScalarType? ==> FieldTypeName(schema, m.fields[j]) in t2
  {
  }

  /** The first `ne` top-level enumerations and the first `nm` top-level messages of
      `file` are registered in `types`. */
  predicate Registered(file: FileDescriptor, ne: nat, nm: nat, types: set<string>)
    requires WellFormedFile(file) && ne <= |file.enumTypes| && nm <= |file.messageTypes|
  {
    && (forall k :: 0 <= k < ne ==> GetEnumName(file.schema.enums[file.enumTypes[k]].name) in types)
    && (forall k :: 0 <= k < nm ==> GetRecordName(file.schema.messages[file.messageTypes[k]].name) in types)
  }

  lemma RegisteredEnum(file: FileDescriptor, i: nat, t1: set<string>, t2: set<string>)
    requires WellFormedFile(file) && i < |file.enumTypes| && t1 <= t2
    requires Registered(file, i, 0, t1)
    requires GetEnumName(file.schema.enums[file.enumTypes[i]].name) in t2
    ensures Registered(file, i + 1, 0, t2)
  {
  }

  lemma RegisteredMessage(file: FileDescriptor, i: nat, t1: set<string>, t2: set<string>)
    requires WellFormedFile(file) && i < |file.messageTypes| && t1 <= t2
    requires Registered(file, |file.enumTypes|, i, t1)
    requires GetRecordName(file.schema.messages[file.messageTypes[i]].name) in t2
    ensures Registered(file, |file.enumTypes|, i + 1, t2)
  {
  }

  /** Every type a message's fields refer to is registered once each field's type is. */
  lemma ReferencesDeclared(schema: Schema, d: Descriptor, types: set<string>)
    requires KindsValid(schema, d)
    requires forall j :: 0 <= j < |d.fields| && !d.fields[j].kind.ScalarType? ==> FieldTypeName(schema, d.fields[j]) in types
    ensures References(schema, d) <= types
  {
  }

  /** One more field declaration, written after the first `i`. */
  lemma FieldLinesStep(start: seq<string>, level: nat, emitJsonNames: bool, fields: seq<Field>, i: nat)
    requires i < |fields|
    ensures start + FieldLines(level, emitJsonNames, fields[..i]) + [Indented(level, FieldDeclaration(fields[i], emitJsonNames))]
      == start + FieldLines(level, emitJsonNames, fields[..i + 1])
  {
    assert fields[..i + 1] == fields[..i] + [fields[i]];
    FieldLinesSnoc(level, emitJsonNames, fields[..i], fields[i]);
    AppendAssoc(start, FieldLines(level, emitJsonNames, fields[..i]),
      [Indented(level, FieldDeclaration(fields[i], emitJsonNames))]);
  }

  // Declaration order. A record is written after the types its fields mention, except
  // for records still being written further up the recursion: their names are
  // registered first (delphiunitgenerator.cpp:54) and their blocks come later. Those
  // records form a chain, each reached through a field of the one before.

  /** Message `m`, whose record is named `a`, has a field of the type named `b`. */
  ghost predicate MessageRefers(schema: Schema, m: nat, a: string, b: string)
  {
    && m < |schema.messages|
    && KindsValid(schema, schema.messages[m])
    && GetRecordName(schema.messages[m].name) == a
    && b in References(schema, schema.messages[m])
  }

  /** The record named `a` has a field of the type named `b`. */
  ghost predicate Refers(schema: Schema, a: string, b: string)
  {
    exists m :: MessageRefers(schema, m, a, b)
  }

  /** The record at position `k` of `chain` has a field of the type of the next record,
      or of type `target` when it is the last. */
  ghost predicate LinkAt(schema: Schema, chain: seq<string>, target: string, k: nat)
    requires k < |chain|
  {
    Refers(schema, chain[k], if k + 1 < |chain| then chain[k + 1] else target)
  }

  /** The records of `chain`, in order, each have a field of the next one's type, and the
      last has a field of type `target`. */
  ghost predicate Leads(schema: Schema, chain: seq<string>, target: string)
  {
    forall k :: 0 <= k < |chain| ==> LinkAt(schema, chain, target, k)
  }

  /** A chain of records that starts at `a` and leads to `b`. */
  ghost predicate Reaches(schema: Schema, a: string, b: string)
  {
    exists chain :: chain != [] && chain[0] == a && Leads(schema, chain, b)
  }

  /** Any suffix of a chain leads to the same type. */
  lemma LeadsFrom(schema: Schema, chain: seq<string>, target: string, k: nat)
    requires Leads(schema, chain, target) && k < |chain|
    ensures Leads(schema, chain[k..], target)
  {
    forall j | 0 <= j < |chain| - k
      ensures LinkAt(schema, chain[k..], target, j)
    {
      assert LinkAt(schema, chain, target, j + k);
    }
  }

  /** The records in progress while a message's fields are visited, ending with the
      message's own record, lead to the type of each of its non-scalar fields. */
  lemma FieldLeads(schema: Schema, mi: nat, j: nat, path: seq<string>)
    requires mi < |schema.messages| && KindsValid(schema, schema.messages[mi])
    requires j < |schema.messages[mi].fields| && !schema.messages[mi].fields[j].kind.ScalarType?
    requires Leads(schema, path, GetRecordName(schema.messages[mi].name))
    ensures Leads(schema, path + [GetRecordName(schema.messages[mi].name)], FieldTypeName(schema, schema.messages[mi].fields[j]))
  {
    var m := schema.messages[mi];
    var name, target := GetRecordName(m.name), FieldTypeName(schema, m.fields[j]);
    assert target in References(schema, m);
    assert MessageRefers(schema, mi, name, target);
    forall k | 0 <= k < |path| + 1
      ensures LinkAt(schema, path + [name], target, k)
    {
      if k < |path| {
        assert LinkAt(schema, path, name, k);
      }
    }
  }

  /** The last block of `bs` was written while the records of `path` were still being
      written: none of them is declared yet, they lead to the block's type, and a record
      mentions only types declared before it, itself, and those records. */
  ghost predicate OrderedLast(schema: Schema, bs: seq<Block>, path: seq<string>)
    requires bs != []
  {
    var last := bs[|bs| - 1];
    && Elements(path) !! NamesFrom(bs, 0)
    && Leads(schema, path, last.name)
    && (last.Record? ==> Mentions(last.fields) <= NamesFrom(bs[..|bs| - 1], 0) + {last.name} + Elements(path))
  }

  /** Every block of `b` from index `n` on is ordered, and the records in progress when it
      was written are registered in `t`. */
  ghost predicate OrderedSince(schema: Schema, n: nat, b: seq<Block>, p: seq<seq<string>>, t: set<string>)
    requires |p| == |b|
    decreases |b|
  {
    || |b| <= n
    || (&& OrderedLast(schema, b, p[|b| - 1])
        && Elements(p[|b| - 1]) <= t
        && OrderedSince(schema, n, b[..|b| - 1], p[..|p| - 1], t))
  }

  /** What a run of the generator does to the blocks and to `pending`, the records in
      progress when each block was written: both grow together, every new block is
      ordered, and its records in progress are registered in `t1`. */
  ghost predicate Nested(schema: Schema, b0: seq<Block>, p0: seq<seq<string>>,
                         b1: seq<Block>, p1: seq<seq<string>>, t1: set<string>)
  {
    && b0 <= b1 && p0 <= p1 && |p0| == |b0| && |p1| == |b1|
    && OrderedSince(schema, |b0|, b1, p1, t1)
  }

  lemma {:induction false} OrderedAt(schema: Schema, n: nat, b: seq<Block>, p: seq<seq<string>>, t: set<string>, i: nat)
    requires |p| == |b| && OrderedSince(schema, n, b, p, t) && n <= i < |b|
    ensures OrderedLast(schema, b[..i + 1], p[i]) && Elements(p[i]) <= t
    decreases |b|
  {
    if i < |b| - 1 {
      OrderedAt(schema, n, b[..|b| - 1], p[..|p| - 1], t, i);
      assert b[..|b| - 1][..i + 1] == b[..i + 1];
    } else {
      assert b[..i + 1] == b;
    }
  }

  lemma {:induction false} OrderedWeaken(schema: Schema, n: nat, b: seq<Block>, p: seq<seq<string>>,
                                         t: set<string>, t': set<string>)
    requires |p| == |b| && OrderedSince(schema, n, b, p, t) && t <= t'
    ensures OrderedSince(schema, n, b, p, t')
    decreases |b|
  {
    if |b| > n {
      OrderedWeaken(schema, n, b[..|b| - 1], p[..|p| - 1], t, t');
    }
  }

  /** Blocks ordered up to `b1`, then from `b1` on, are ordered throughout. */
  lemma {:induction false} OrderedJoin(schema: Schema, n: nat, b1: seq<Block>, p1: seq<seq<string>>, t1: set<string>,
                                       b2: seq<Block>, p2: seq<seq<string>>, t2: set<string>)
    requires |p1| == |b1| && |p2| == |b2| && b1 <= b2 && p1 <= p2 && n <= |b1| && t1 <= t2
    requires OrderedSince(schema, n, b1, p1, t1) && OrderedSince(schema, |b1|, b2, p2, t2)
    ensures OrderedSince(schema, n, b2, p2, t2)
    decreases |b2|
  {
    if |b2| == |b1| {
      assert b2 == b1 && p2 == p1;
      OrderedWeaken(schema, n, b1, p1, t1, t2);
    } else {
      OrderedJoin(schema, n, b1, p1, t1, b2[..|b2| - 1], p2[..|p2| - 1], t2);
    }
  }

  lemma NestedRefl(schema: Schema, b: seq<Block>, p: seq<seq<string>>, t: set<string>)
    requires |p| == |b|
    ensures Nested(schema, b, p, b, p, t)
  {
  }

  lemma NestedTrans(schema: Schema, b0: seq<Block>, p0: seq<seq<string>>,
                    b1: seq<Block>, p1: seq<seq<string>>, t1: set<string>,
                    b2: seq<Block>, p2: seq<seq<string>>, t2: set<string>)
    requires Nested(schema, b0, p0, b1, p1, t1) && Nested(schema, b1, p1, b2, p2, t2) && t1 <= t2
    ensures Nested(schema, b0, p0, b2, p2, t2)
  {
    OrderedJoin(schema, |b0|, b1, p1, t1, b2, p2, t2);
  }

  lemma NestedSnoc(schema: Schema, b0: seq<Block>, p0: seq<seq<string>>,
                   b1: seq<Block>, p1: seq<seq<string>>, t1: set<string>, x: Block, path: seq<string>)
    requires Nested(schema, b0, p0, b1, p1, t1) && OrderedLast(schema, b1 + [x], path) && Elements(path) <= t1
    ensures Nested(schema, b0, p0, b1 + [x], p1 + [path], t1)
  {
    assert (b1 + [x])[..|b1|] == b1;
    assert (p1 + [path])[..|p1|] == p1;
  }

  /** Appending a block whose name was registered last, while the records of `path`,
      which lead to it, are in progress. */
  lemma BlockOrdered(schema: Schema, b: seq<Block>, x: Block, path: seq<string>, t: set<string>)
    requires t == NamesFrom(b, 0) + Elements(path) + {x.name}
    requires (Elements(path) + {x.name}) !! NamesFrom(b, 0) && x.name !in Elements(path)
    requires Leads(schema, path, x.name)
    requires x.Record? ==> Mentions(x.fields) <= t
    ensures OrderedLast(schema, b + [x], path)
    ensures t == NamesFrom(b + [x], 0) + Elements(path) && Elements(path) !! NamesFrom(b + [x], 0)
  {
    NamesFromSnoc(b, 0, x);
    PrefixOfSnoc(b, x);
  }

  /** The registry `t` holds the names the blocks `b` declare and those of `path`, the
      records still being written, and `p` has an entry for every block. */
  ghost predicate Tracking(t: set<string>, b: seq<Block>, p: seq<seq<string>>, path: seq<string>)
  {
    && t == NamesFrom(b, 0) + Elements(path)
    && Elements(path) !! NamesFrom(b, 0)
    && |p| == |b|
  }

  /** Registering a record's name before its fields are visited: the record joins the
      records in progress. */
  lemma Registering(t: set<string>, b: seq<Block>, p: seq<seq<string>>, path: seq<string>, name: string)
    requires Tracking(t, b, p, path) && name !in t
    ensures Tracking(t + {name}, b, p, path + [name]) && name !in Elements(path)
  {
    ElementsSnoc(path, name);
  }

  /** A message's record appended once its fields' types are written: the record comes
      after every type it refers to, bar itself and the records still in progress. */
  lemma RecordPlaced(schema: Schema, m: Descriptor, x: Block, path: seq<string>,
                     b0: seq<Block>, p0: seq<seq<string>>, t: set<string>, b: seq<Block>, p: seq<seq<string>>)
    requires KindsValid(schema, m) && x.Record? && x.fields == Fields(schema, m) && References(schema, m) <= t
    requires Tracking(t, b, p, path + [x.name]) && x.name !in Elements(path) && Leads(schema, path, x.name)
    requires Nested(schema, b0, p0, b, p, t)
    ensures Tracking(t, b + [x], p + [path], path)
    ensures Nested(schema, b0, p0, b + [x], p + [path], t)
    ensures References(schema, m) <= NamesFrom((b + [x])[..|b|], 0) + {x.name} + Elements(path)
  {
    ElementsSnoc(path, x.name);
    MentionsAreReferences(schema, m);
    BlockOrdered(schema, b, x, path, t);
    NestedSnoc(schema, b0, p0, b, p, t, x, path);
    PrefixOfSnoc(b, x);
  }

  /** The type section from block `n` on, as a whole: every type a record mentions is
      declared in the unit, and before the record, unless it is the record itself or it
      is declared after the record and leads back to it, so that the two lie on a cycle
      of field types. */
  ghost predicate DeclaredInOrder(schema: Schema, n: nat, b: seq<Block>)
  {
    forall i, name :: n <= i < |b| && b[i].Record? && name in Mentions(b[i].fields) ==>
      && name in NamesFrom(b, 0)
      && (|| name in NamesFrom(b[..i], 0)
          || name == b[i].name
          || (name in NamesFrom(b, i + 1) && Reaches(schema, name, b[i].name)))
  }

  lemma NestedDeclares(schema: Schema, b0: seq<Block>, p0: seq<seq<string>>, b1: seq<Block>, p1: seq<seq<string>>)
    requires Nested(schema, b0, p0, b1, p1, NamesFrom(b1, 0))
    ensures DeclaredInOrder(schema, |b0|, b1)
  {
    forall i, name | |b0| <= i < |b1| && b1[i].Record? && name in Mentions(b1[i].fields)
      ensures name in NamesFrom(b1, 0)
      ensures || name in NamesFrom(b1[..i], 0)
              || name == b1[i].name
              || (name in NamesFrom(b1, i + 1) && Reaches(schema, name, b1[i].name))
    {
      var upto := b1[..i + 1];
      OrderedAt(schema, |b0|, b1, p1, NamesFrom(b1, 0), i);
      assert upto[..|upto| - 1] == b1[..i];
      assert NamesFrom(b1, 0) == NamesFrom(upto, 0) + NamesFrom(b1, i + 1) by {
        forall k | 0 <= k <= i
          ensures upto[k] == b1[k]
        {
        }
      }
      assert NamesFrom(b1[..i], 0) <= NamesFrom(b1, 0) by {
        forall k | 0 <= k < i
          ensures b1[..i][k] == b1[k]
        {
        }
      }
      if name !in NamesFrom(b1[..i], 0) && name != b1[i].name {
        var k :| 0 <= k < |p1[i]| && p1[i][k] == name;
        LeadsFrom(schema, p1[i], b1[i].name, k);
      }
    }
  }

  // What is written: the blocks a call adds are for the type it is given and the types
  // reached from it through fields, and nothing else.

  /** `name` is `root` or is reached from it through fields. */
  ghost predicate ReachedFrom(schema: Schema, root: string, name: string)
  {
    name == root || Reaches(schema, root, name)
  }

  /** Every block from position `n` on is `root`'s own or reached from it. */
  ghost predicate SpawnedBy(schema: Schema, root: string, n: nat, b: seq<Block>)
  {
    forall k :: n <= k < |b| ==> ReachedFrom(schema, root, b[k].name)
  }

  /** Every block from position `n` on is reached from `root` through its fields. */
  ghost predicate Below(schema: Schema, root: string, n: nat, b: seq<Block>)
  {
    forall k :: n <= k < |b| ==> Reaches(schema, root, b[k].name)
  }

  /** A type reached from the type of a message's field is reached from the message. */
  lemma ReachesThrough(schema: Schema, mi: nat, j: nat, name: string)
    requires mi < |schema.messages| && KindsValid(schema, schema.messages[mi])
    requires j < |schema.messages[mi].fields| && !schema.messages[mi].fields[j].kind.ScalarType?
    requires ReachedFrom(schema, FieldTypeName(schema, schema.messages[mi].fields[j]), name)
    ensures Reaches(schema, GetRecordName(schema.messages[mi].name), name)
  {
    var m := schema.messages[mi];
    var root, first := GetRecordName(m.name), FieldTypeName(schema, m.fields[j]);
    assert first in References(schema, m);
    assert MessageRefers(schema, mi, root, first);
    if name == first {
      assert LinkAt(schema, [root], name, 0);
      assert Leads(schema, [root], name);
    } else {
      var chain :| chain != [] && chain[0] == first && Leads(schema, chain, name);
      forall k | 0 <= k < |[root] + chain|
        ensures LinkAt(schema, [root] + chain, name, k)
      {
        if k > 0 {
          assert LinkAt(schema, chain, name, k - 1);
        }
      }
      assert ([root] + chain)[0] == root;
    }
  }

  /** The blocks written for one more field of a message are reached from the message. */
  lemma BelowStep(schema: Schema, mi: nat, j: nat, n: nat, b1: seq<Block>, b2: seq<Block>)
    requires mi < |schema.messages| && KindsValid(schema, schema.messages[mi])
    requires j < |schema.messages[mi].fields| && b1 <= b2
    requires Below(schema, GetRecordName(schema.messages[mi].name), n, b1)
    requires schema.messages[mi].fields[j].kind.ScalarType? ==> b2 == b1
    requires SpawnedBy(schema, FieldTypeName(schema, schema.messages[mi].fields[j]), |b1|, b2)
    ensures Below(schema, GetRecordName(schema.messages[mi].name), n, b2)
  {
    forall k | n <= k < |b2|
      ensures Reaches(schema, GetRecordName(schema.messages[mi].name), b2[k].name)
    {
      if k < |b1| {
        assert b2[k] == b1[k];
      } else {
        ReachesThrough(schema, mi, j, b2[k].name);
      }
    }
  }

  /** A record appended after blocks reached from it: all of them are its own or reached
      from it. */
  lemma RecordSpawned(schema: Schema, n: nat, b: seq<Block>, x: Block)
    requires Below(schema, x.name, n, b)
    ensures SpawnedBy(schema, x.name, n, b + [x])
    ensures Below(schema, x.name, n, (b + [x])[..|b|])
  {
    assert (b + [x])[..|b|] == b;
    forall k | n <= k < |b| + 1
      ensures ReachedFrom(schema, x.name, (b + [x])[k].name)
    {
      if k < |b| {
        assert (b + [x])[k] == b[k];
      }
    }
  }

  /** The file's top-level enumerations, and the types reached from its top-level
      messages. */
  ghost predicate TopLevel(file: FileDescriptor, name: string)
    requires WellFormedFile(file)
  {
    || (exists i :: 0 <= i < |file.enumTypes| && name == GetEnumName(file.schema.enums[file.enumTypes[i]].name))
    || (exists i :: 0 <= i < |file.messageTypes|
          && ReachedFrom(file.schema, GetRecordName(file.schema.messages[file.messageTypes[i]].name), name))
  }

  /** Every block from position `n` on is for a top-level type or a type it reaches. */
  ghost predicate FromTopLevel(file: FileDescriptor, n: nat, b: seq<Block>)
    requires WellFormedFile(file)
  {
    forall k :: n <= k < |b| ==> TopLevel(file, b[k].name)
  }

  /** The blocks written for the `i`-th top-level enumeration. */
  lemma TopLevelEnum(file: FileDescriptor, i: nat, n: nat, b1: seq<Block>, b2: seq<Block>)
    requires WellFormedFile(file) && i < |file.enumTypes| && b1 <= b2
    requires FromTopLevel(file, n, b1)
    requires forall k :: |b1| <= k < |b2| ==> b2[k].name == GetEnumName(file.schema.enums[file.enumTypes[i]].name)
    ensures FromTopLevel(file, n, b2)
  {
    forall k | n <= k < |b2|
      ensures TopLevel(file, b2[k].name)
    {
      if k < |b1| {
        assert b2[k] == b1[k];
      }
    }
  }

  /** The blocks written for the `i`-th top-level message. */
  lemma TopLevelMessage(file: FileDescriptor, i: nat, n: nat, b1: seq<Block>, b2: seq<Block>)
    requires WellFormedFile(file) && i < |file.messageTypes| && b1 <= b2
    requires FromTopLevel(file, n, b1)
    requires SpawnedBy(file.schema, GetRecordName(file.schema.messages[file.messageTypes[i]].name), |b1|, b2)
    ensures FromTopLevel(file, n, b2)
  {
    forall k | n <= k < |b2|
      ensures TopLevel(file, b2[k].name)
    {
      if k < |b1| {
        assert b2[k] == b1[k];
      }
    }
  }

  // Termination: every written block registers a schema type that was not registered.

  lemma MeasureShrinks(all: set<string>, done: set<string>, x: string)
    requires x in all && x !in done
    ensures |all - (done + {x})| < |all - done|
  {
    assert all - (done + {x}) == (all - done) - {x};
  }

  lemma MeasureMonotone(all: set<string>, a: set<string>, b: set<string>)
    requires a <= b
    ensures |all - b| <= |all - a|
  {
    var d := (all - a) - (all - b);
    assert all - a == (all - b) + d;
    assert (all - b) * d == {};
  }

  /** std::sort with the comparator lhs.number < rhs.number, as an insertion sort by
      adjacent swaps. The order of enumerators with equal numbers is not specified. */
  method SortByNumber(a: array<Enumerator>)
    modifies a
    ensures SortedByNumber(a[..])
    ensures multiset(a[..]) == multiset(old(a[..]))
  {
    for i := 0 to a.Length
      invariant SortedPrefix(a[..], i)
      invariant multiset(a[..]) == multiset(old(a[..]))
    {
      InsertAt(a, i);
    }
  }

  /** Moves a[i] down past every larger number before it. */
  method InsertAt(a: array<Enumerator>, i: int)
    requires 0 <= i < a.Length && SortedPrefix(a[..], i)
    modifies a
    ensures SortedPrefix(a[..], i + 1)
    ensures multiset(a[..]) == multiset(old(a[..]))
  {
    var j := i;
    while j > 0 && a[j - 1].number > a[j].number
      invariant 0 <= j <= i
      invariant SortedExcept(a[..], i + 1, j)
      invariant multiset(a[..]) == multiset(old(a[..]))
    {
      SwapStep(a[..], i + 1, j);
      Swap(a, j - 1, j);
      j := j - 1;
    }
  }

  method Swap(a: array<Enumerator>, i: int, j: int)
    requires 0 <= i < a.Length && 0 <= j < a.Length
    modifies a
    ensures a[..] == old(a[..])[i := old(a[j])][j := old(a[i])]
    ensures multiset(a[..]) == multiset(old(a[..]))
  {
    a[i], a[j] := a[j], a[i];
  }

  /** The first n enumerators are sorted by number. */
  predicate SortedPrefix(s: seq<Enumerator>, n: int)
    requires 0 <= n <= |s|
  {
    forall p, q :: 0 <= p < q < n ==> s[p].number <= s[q].number
  }

  /** The first n enumerators are sorted apart from position j, whose number is at most
      every number after it. */
  predicate SortedExcept(s: seq<Enumerator>, n: int, j: int)
    requires 0 <= j < n <= |s|
  {
    && (forall p, q :: 0 <= p < q < n && p != j && q != j ==> s[p].number <= s[q].number)
    && (forall q :: j < q < n ==> s[j].number <= s[q].number)
  }

  lemma SwapStep(s: seq<Enumerator>, n: int, j: int)
    requires 0 < j < n <= |s| && SortedExcept(s, n, j) && s[j - 1].number > s[j].number
    ensures SortedExcept(s[j - 1 := s[j]][j := s[j - 1]], n, j - 1)
  {
  }

  class DelphiUnitGenerator {
    const unitName: string
    const emitJsonNames: bool
    const printer: Printer
    /** The names of the types declared so far, or being declared. */
    var types: set<string>
    /** The type declarations written so far, in order. */
    ghost var blocks: seq<Block>
    /** For each block, the records still being written when it was written: those whose
        fields led, field type by field type, to it. */
    ghost var pending: seq<seq<string>>

    /** The registry holds the names declared so far and those of `path`, the records
        being written further up the recursion, whose blocks are still to come. */
    ghost predicate Tracks(path: seq<string>)
      reads this
    {
      Tracking(types, blocks, pending, path)
    }

    /** Records the unit name and turns on emit_json_names when some parameter has that
        key, whatever its value. */
    constructor (unitName: string, parameters: seq<(string, string)>)
      ensures this.unitName == unitName
      ensures emitJsonNames <==> exists i :: 0 <= i < |parameters| && parameters[i].0 == "emit_json_names"
      ensures fresh(printer) && printer.lines == [] && printer.level == 0
      ensures types == {} && blocks == [] && pending == []
      ensures Tracks([])
    {
      var json := false;
      for i := 0 to |parameters|
        invariant json <==> exists j :: 0 <= j < i && parameters[j].0 == "emit_json_names"
      {
        if parameters[i].0 == "emit_json_names" {
          json := true;
        }
      }
      this.unitName := unitName;
      emitJsonNames := json;
      printer := new Printer();
      types := {};
      blocks := [];
      pending := [];
    }

    /** The whole unit. It declares the top-level types and the types they reach, and
        nothing else. Every type a record mentions is declared in the unit, and before
        the record, unless it is the record itself or a record still being written when
        this one was, which is declared after it. */
    method Generate(file: FileDescriptor)
      requires WellFormedFile(file) && Tracks([])
      modifies this, printer
      ensures printer.level == old(printer.level) && Tracks([])
      ensures Extends(file.schema, old(types), old(blocks), types, blocks)
      ensures printer.lines == old(printer.lines) + UnitHeader(unitName, emitJsonNames, old(printer.level))
        + Render(old(printer.level) + 1, emitJsonNames, blocks[|old(blocks)|..]) + UnitFooter(old(printer.level))
      ensures Registered(file, |file.enumTypes|, |file.messageTypes|, types)
      ensures DeclaredInOrder(file.schema, |old(blocks)|, blocks)
      ensures FromTopLevel(file, |old(blocks)|, blocks)
    {
      PrintFile(file);
      assert types == NamesFrom(blocks, 0);
      NestedDeclares(file.schema, old(blocks), old(pending), blocks, pending);
    }

    /** The unit: its head, every top-level enumeration, every top-level message, and
        its tail. */
    method PrintFile(file: FileDescriptor)
      requires WellFormedFile(file) && Tracks([])
      modifies this, printer
      ensures printer.level == old(printer.level) && Tracks([])
      ensures Nested(file.schema, old(blocks), old(pending), blocks, pending, types)
      ensures Extends(file.schema, old(types), old(blocks), types, blocks)
      ensures printer.lines == old(printer.lines) + UnitHeader(unitName, emitJsonNames, old(printer.level))
        + Render(old(printer.level) + 1, emitJsonNames, blocks[|old(blocks)|..]) + UnitFooter(old(printer.level))
      ensures Registered(file, |file.enumTypes|, |file.messageTypes|, types)
      ensures FromTopLevel(file, |old(blocks)|, blocks)
    {
      PrintUnitHeader();
      PrintBody(file, old(printer.level) + 1);
      PrintUnitFooter();
    }

    /** The type section of Print(const FileDescriptor *), one level deeper than the
        head and the tail of the unit, at `inner`. */
    method PrintBody(file: FileDescriptor, ghost inner: nat)
      requires WellFormedFile(file) && Tracks([])
      requires printer.level + 1 == inner
      modifies this, printer
      ensures printer.level == old(printer.level) && Tracks([])
      ensures Nested(file.schema, old(blocks), old(pending), blocks, pending, types)
      ensures Extends(file.schema, old(types), old(blocks), types, blocks)
      ensures printer.lines == old(printer.lines) + Render(inner, emitJsonNames, blocks[|old(blocks)|..])
      ensures Registered(file, |file.enumTypes|, |file.messageTypes|, types)
      ensures FromTopLevel(file, |old(blocks)|, blocks)
    {
      printer.Indent();
      PrintTypes(file, inner);
      printer.Outdent();
    }

    /** The type section of Print(const FileDescriptor *), written at `level`: every
        top-level enumeration, then every top-level message. */
    method PrintTypes(file: FileDescriptor, ghost level: nat)
      requires WellFormedFile(file) && Tracks([])
      requires printer.level == level
      modifies this, printer
      ensures printer.level == level && Tracks([])
      ensures Nested(file.schema, old(blocks), old(pending), blocks, pending, types)
      ensures Extends(file.schema, old(types), old(blocks), types, blocks)
      ensures printer.lines == old(printer.lines) + Render(level, emitJsonNames, blocks[|old(blocks)|..])
      ensures Registered(file, |file.enumTypes|, |file.messageTypes|, types)
      ensures FromTopLevel(file, |old(blocks)|, blocks)
    {
      var schema := file.schema;
      Stay(schema, emitJsonNames, level, types, blocks, printer.lines);
      NestedRefl(schema, blocks, pending, types);
      for i := 0 to |file.enumTypes|
        invariant printer.level == level
        invariant Progress(schema, emitJsonNames, level, old(types), old(blocks), old(printer.lines),
                           types, blocks, printer.lines)
        invariant Registered(file, i, 0, types)
        invariant Tracks([]) && Nested(schema, old(blocks), old(pending), blocks, pending, types)
        invariant FromTopLevel(file, |old(blocks)|, blocks)
      {
        ghost var t1, b1, l1, p1 := types, blocks, printer.lines, pending;
        PrintEnum(schema, file.enumTypes[i], []);
        Chain(schema, emitJsonNames, level, old(types), old(blocks), old(printer.lines),
              t1, b1, l1, types, blocks, printer.lines);
        NestedTrans(schema, old(blocks), old(pending), b1, p1, t1, blocks, pending, types);
        RegisteredEnum(file, i, t1, types);
        TopLevelEnum(file, i, |old(blocks)|, b1, blocks);
      }
      for i := 0 to |file.messageTypes|
        invariant printer.level == level
        invariant Progress(schema, emitJsonNames, level, old(types), old(blocks), old(printer.lines),
                           types, blocks, printer.lines)
        invariant Registered(file, |file.enumTypes|, i, types)
        invariant Tracks([]) && Nested(schema, old(blocks), old(pending), blocks, pending, types)
        invariant FromTopLevel(file, |old(blocks)|, blocks)
      {
        ghost var t1, b1, l1, p1 := types, blocks, printer.lines, pending;
        PrintMessage(schema, file.messageTypes[i], []);
        Chain(schema, emitJsonNames, level, old(types), old(blocks), old(printer.lines),
              t1, b1, l1, types, blocks, printer.lines);
        NestedTrans(schema, old(blocks), old(pending), b1, p1, t1, blocks, pending, types);
        RegisteredMessage(file, i, t1, types);
        TopLevelMessage(file, i, |old(blocks)|, b1, blocks);
      }
    }

    /** The head of the unit, up to and including `type`. */
    method PrintUnitHeader()
      modifies printer
      ensures printer.level == old(printer.level)
      ensures printer.lines == old(printer.lines) + UnitHeader(unitName, emitJsonNames, old(printer.level))
    {
      ghost var start := printer.lines;
      printer.Print("unit " + unitName + ";");
      ghost var written := [Indented(printer.level, "unit " + unitName + ";")];
      written := printer.PrintAfter("", start, written);
      written := printer.PrintAfter("{$SCOPEDENUMS ON}", start, written);
      written := printer.PrintAfter("", start, written);
      written := printer.PrintAfter("interface", start, written);
      written := printer.PrintAfter("", start, written);
      written := printer.PrintAfter("uses", start, written);
      printer.Indent();
      if emitJsonNames {
        written := printer.PrintAfter("Delphi.Serial,", start, written);
      }
      written := printer.PrintAfter("Delphi.Serial.Protobuf;", start, written);
      written := printer.PrintAfter("", start, written);
      printer.Outdent();
      written := printer.PrintAfter("type", start, written);
      written := printer.PrintAfter("", start, written);
    }

    /** The tail of the unit: an empty implementation section and `end.`. */
    method PrintUnitFooter()
      modifies printer
      ensures printer.level == old(printer.level)
      ensures printer.lines == old(printer.lines) + UnitFooter(old(printer.level))
    {
      printer.Print("implementation");
      printer.Print("");
      printer.Print("end.");
    }

    /** A message's record, unless its name is registered already, while the records
        `path` are being written. */
    method PrintMessage(schema: Schema, mi: nat, ghost path: seq<string>)
      requires WellFormed(schema) && mi < |schema.messages| && Tracks(path)
      requires Leads(schema, path, GetRecordName(schema.messages[mi].name))
      modifies this, printer
      decreases |TypeNames(schema) - types|, 1
      ensures printer.level == old(printer.level) && Tracks(path)
      ensures Nested(schema, old(blocks), old(pending), blocks, pending, types)
      ensures Progress(schema, emitJsonNames, printer.level, old(types), old(blocks), old(printer.lines),
                       types, blocks, printer.lines)
      ensures GetRecordName(schema.messages[mi].name) in types
      ensures GetRecordName(schema.messages[mi].name) in old(types) ==>
        types == old(types) && blocks == old(blocks)
      ensures GetRecordName(schema.messages[mi].name) !in old(types) ==>
        && |blocks| > |old(blocks)|
        && blocks[|blocks| - 1] == Record(GetRecordName(schema.messages[mi].name), Fields(schema, schema.messages[mi]))
      ensures SpawnedBy(schema, GetRecordName(schema.messages[mi].name), |old(blocks)|, blocks)
    {
      if GetRecordName(schema.messages[mi].name) in types {
        Stay(schema, emitJsonNames, printer.level, types, blocks, printer.lines);
        NestedRefl(schema, blocks, pending, types);
      } else {
        DeclareRecord(schema, mi, path);
      }
    }

    /** The record of a message whose name is not registered yet: the name is
        registered, the types of the fields are written, then the record. So every type
        the record refers to is declared before it, unless it is the record itself or one
        of the records `path` still being written. */
    method DeclareRecord(schema: Schema, mi: nat, ghost path: seq<string>)
      requires WellFormed(schema) && mi < |schema.messages| && Tracks(path)
      requires Leads(schema, path, GetRecordName(schema.messages[mi].name))
      requires GetRecordName(schema.messages[mi].name) !in types
      modifies this, printer
      decreases |TypeNames(schema) - types|, 0
      ensures printer.level == old(printer.level) && Tracks(path)
      ensures Nested(schema, old(blocks), old(pending), blocks, pending, types)
      ensures Progress(schema, emitJsonNames, printer.level, old(types), old(blocks), old(printer.lines),
                       types, blocks, printer.lines)
      ensures GetRecordName(schema.messages[mi].name) in types
      ensures |blocks| > |old(blocks)|
      ensures blocks[|blocks| - 1] == Record(GetRecordName(schema.messages[mi].name), Fields(schema, schema.messages[mi]))
      ensures References(schema, schema.messages[mi])
        <= NamesFrom(blocks[..|blocks| - 1], 0) + {GetRecordName(schema.messages[mi].name)} + Elements(path)
      ensures Below(schema, GetRecordName(schema.messages[mi].name), |old(blocks)|, blocks[..|blocks| - 1])
      ensures SpawnedBy(schema, GetRecordName(schema.messages[mi].name), |old(blocks)|, blocks)
    {
      var recordName := GetRecordName(schema.messages[mi].name);
      assert recordName in TypeNames(schema);
      MeasureShrinks(TypeNames(schema), types, recordName);
      Registering(types, blocks, pending, path, recordName);
      types := types + {recordName};
      var fields := GetFields(schema, mi, path);
      PlaceRecord(schema, mi, fields, path, old(types), old(blocks), old(pending), old(printer.lines));
    }

    /** The record of a message whose fields' types are written: the block comes after
        every type the record refers to, bar itself and the records `path` still being
        written. */
    method PlaceRecord(schema: Schema, mi: nat, fields: seq<Field>, ghost path: seq<string>,
                       ghost t0: set<string>, ghost b0: seq<Block>, ghost p0: seq<seq<string>>, ghost l0: seq<string>)
      requires mi < |schema.messages| && KindsValid(schema, schema.messages[mi])
      requires fields == Fields(schema, schema.messages[mi]) && References(schema, schema.messages[mi]) <= types
      requires GetRecordName(schema.messages[mi].name) !in t0
      requires Progress(schema, emitJsonNames, printer.level, t0 + {GetRecordName(schema.messages[mi].name)}, b0, l0,
                        types, blocks, printer.lines)
      requires Tracks(path + [GetRecordName(schema.messages[mi].name)])
      requires GetRecordName(schema.messages[mi].name) !in Elements(path)
      requires Leads(schema, path, GetRecordName(schema.messages[mi].name))
      requires Nested(schema, b0, p0, blocks, pending, types)
      requires Below(schema, GetRecordName(schema.messages[mi].name), |b0|, blocks)
      modifies this, printer
      ensures printer.level == old(printer.level) && Tracks(path) && types == old(types)
      ensures Nested(schema, b0, p0, blocks, pending, types)
      ensures Progress(schema, emitJsonNames, printer.level, t0, b0, l0, types, blocks, printer.lines)
      ensures blocks == old(blocks) + [Record(GetRecordName(schema.messages[mi].name), fields)]
      ensures References(schema, schema.messages[mi])
        <= NamesFrom(old(blocks), 0) + {GetRecordName(schema.messages[mi].name)} + Elements(path)
      ensures Below(schema, GetRecordName(schema.messages[mi].name), |b0|, blocks[..|blocks| - 1])
      ensures SpawnedBy(schema, GetRecordName(schema.messages[mi].name), |b0|, blocks)
    {
      var recordName := GetRecordName(schema.messages[mi].name);
      assert FromSchema(schema, Record(recordName, fields));
      ghost var t2, b2, p2 := types, blocks, pending;
      EmitRecord(schema, recordName, fields, t0, b0, l0, path);
      RecordPlaced(schema, schema.messages[mi], Record(recordName, fields), path, b0, p0, t2, b2, p2);
      RecordSpawned(schema, |b0|, b2, Record(recordName, fields));
    }

    /** Writes the record of a type just registered and appends its block, written while
        the records `path` are in progress. */
    method EmitRecord(ghost schema: Schema, recordName: string, fields: seq<Field>,
                      ghost t0: set<string>, ghost b0: seq<Block>, ghost l0: seq<string>, ghost path: seq<string>)
      requires Progress(schema, emitJsonNames, printer.level, t0 + {recordName}, b0, l0, types, blocks, printer.lines)
      requires recordName !in t0 && FromSchema(schema, Record(recordName, fields))
      modifies this, printer
      ensures printer.level == old(printer.level) && types == old(types)
      ensures blocks == old(blocks) + [Record(recordName, fields)] && pending == old(pending) + [path]
      ensures Progress(schema, emitJsonNames, printer.level, t0, b0, l0, types, blocks, printer.lines)
      ensures types == t0 + {recordName} + NamesFrom(old(blocks), |b0|)
    {
      ghost var level, t1, b1, l1 := printer.level, types, blocks, printer.lines;
      PrintRecord(recordName, fields);
      ghost var l2 := printer.lines;
      WithBlock(schema, emitJsonNames, level, t0, b0, l0, t1, b1, l1, Record(recordName, fields), l2);
      blocks := blocks + [Record(recordName, fields)];
      pending := pending + [path];
    }

    /** The record block of Print(const Descriptor *): its header, a field per line one
        level deeper, and `end;`. */
    method PrintRecord(recordName: string, fields: seq<Field>)
      modifies printer
      ensures printer.level == old(printer.level)
      ensures printer.lines == old(printer.lines) + BlockLines(printer.level, emitJsonNames, Record(recordName, fields))
    {
      var level := printer.level;
      printer.Print(recordName + " = record");
      printer.Indent();
      PrintFields(fields);
      printer.Outdent();
      printer.Print("end;");
      printer.Print("");
      Bracketed(old(printer.lines), Indented(level, RecordHeader(recordName)),
        FieldLines(level + 1, emitJsonNames, fields), Indented(level, "end;"), Indented(level, ""));
      RecordLines(level, emitJsonNames, recordName, fields);
    }

    /** The loop of Print(const Descriptor *) over the fields, one line each. */
    method PrintFields(fields: seq<Field>)
      modifies printer
      ensures printer.level == old(printer.level)
      ensures printer.lines == old(printer.lines) + FieldLines(printer.level, emitJsonNames, fields)
    {
      AppendEmpty(printer.lines);
      for i := 0 to |fields|
        invariant printer.level == old(printer.level)
        invariant printer.lines == old(printer.lines) + FieldLines(printer.level, emitJsonNames, fields[..i])
      {
        PrintField(fields[i]);
        FieldLinesStep(old(printer.lines), printer.level, emitJsonNames, fields, i);
      }
      assert fields[..|fields|] == fields;
    }

    /** The fields of a message in declaration order, the type of each written first. */
    method GetFields(schema: Schema, mi: nat, ghost path: seq<string>) returns (result: seq<Field>)
      requires WellFormed(schema) && mi < |schema.messages|
      requires Tracks(path + [GetRecordName(schema.messages[mi].name)])
      requires Leads(schema, path, GetRecordName(schema.messages[mi].name))
      modifies this, printer
      decreases |TypeNames(schema) - types|, 3
      ensures printer.level == old(printer.level) && Tracks(path + [GetRecordName(schema.messages[mi].name)])
      ensures Nested(schema, old(blocks), old(pending), blocks, pending, types)
      ensures Progress(schema, emitJsonNames, printer.level, old(types), old(blocks), old(printer.lines),
                       types, blocks, printer.lines)
      ensures KindsValid(schema, schema.messages[mi]) && result == Fields(schema, schema.messages[mi])
      ensures References(schema, schema.messages[mi]) <= types
      ensures Below(schema, GetRecordName(schema.messages[mi].name), |old(blocks)|, blocks)
    {
      var m := schema.messages[mi];
      ghost var inner := path + [GetRecordName(m.name)];
      MessageKindsValid(schema, mi);
      result := [];
      Stay(schema, emitJsonNames, printer.level, types, blocks, printer.lines);
      NestedRefl(schema, blocks, pending, types);
      for i := 0 to |m.fields|
        invariant printer.level == old(printer.level)
        invariant Progress(schema, emitJsonNames, printer.level, old(types), old(blocks), old(printer.lines),
                           types, blocks, printer.lines)
        invariant old(types) <= types
        invariant |result| == i
        invariant forall j :: 0 <= j < i ==> result[j] == FieldOf(schema, m.fields[j])
        invariant forall j :: 0 <= j < i && !m.fields[j].kind.ScalarType? ==> FieldTypeName(schema, m.fields[j]) in types
        invariant Tracks(inner) && Nested(schema, old(blocks), old(pending), blocks, pending, types)
        invariant Below(schema, GetRecordName(m.name), |old(blocks)|, blocks)
      {
        var fd := m.fields[i];
        ghost var t1, b1, l1, p1 := types, blocks, printer.lines, pending;
        MeasureMonotone(TypeNames(schema), old(types), types);
        if !fd.kind.ScalarType? {
          FieldLeads(schema, mi, i, path);
        }
        var typeName := GetFieldType(schema, fd, inner);
        ghost var done := result;
        result := result + [Field(GetFieldName(fd.name), fd.jsonName, typeName,
                                  fd.isRequired, fd.isRepeated, fd.isPackable, fd.isPacked, fd.number)];
        Chain(schema, emitJsonNames, printer.level, old(types), old(blocks), old(printer.lines),
              t1, b1, l1, types, blocks, printer.lines);
        NestedTrans(schema, old(blocks), old(pending), b1, p1, t1, blocks, pending, types);
        FieldsStep(schema, m, done, i, result[i]);
        TypesStep(schema, m, i, t1, types);
        BelowStep(schema, mi, i, |old(blocks)|, b1, blocks);
      }
      AllFields(schema, m, result);
      ReferencesDeclared(schema, m, types);
    }

    /** The declared name of a field's type. An enumeration or a message type is written
        first, or found registered. */
    method GetFieldType(schema: Schema, fd: FieldDescriptor, ghost path: seq<string>) returns (t: string)
      requires WellFormed(schema) && ValidKind(schema, fd.kind) && Tracks(path)
      requires !fd.kind.ScalarType? ==> Leads(schema, path, FieldTypeName(schema, fd))
      modifies this, printer
      decreases |TypeNames(schema) - types|, 2
      ensures printer.level == old(printer.level) && Tracks(path)
      ensures Nested(schema, old(blocks), old(pending), blocks, pending, types)
      ensures Progress(schema, emitJsonNames, printer.level, old(types), old(blocks), old(printer.lines),
                       types, blocks, printer.lines)
      ensures t == FieldTypeName(schema, fd)
      ensures !fd.kind.ScalarType? ==> t in types
      ensures fd.kind.ScalarType? ==>
        types == old(types) && blocks == old(blocks) && pending == old(pending) && printer.lines == old(printer.lines)
      ensures SpawnedBy(schema, t, |old(blocks)|, blocks)
    {
      match fd.kind
      case EnumType(e) =>
        PrintEnum(schema, e, path);
        t := GetEnumName(schema.enums[e].name);
      case MessageType(mi) =>
        PrintMessage(schema, mi, path);
        t := GetRecordName(schema.messages[mi].name);
      case ScalarType(typeName) =>
        Stay(schema, emitJsonNames, printer.level, types, blocks, printer.lines);
        NestedRefl(schema, blocks, pending, types);
        t := typeName;
    }

    /** An enumeration, unless its name is registered already: its values sorted by
        number, a placeholder for every number skipped. */
    method PrintEnum(schema: Schema, ei: nat, ghost path: seq<string>)
      requires WellFormed(schema) && ei < |schema.enums| && Tracks(path)
      requires Leads(schema, path, GetEnumName(schema.enums[ei].name))
      modifies this, printer
      ensures printer.level == old(printer.level) && Tracks(path)
      ensures Nested(schema, old(blocks), old(pending), blocks, pending, types)
      ensures Progress(schema, emitJsonNames, printer.level, old(types), old(blocks), old(printer.lines),
                       types, blocks, printer.lines)
      ensures GetEnumName(schema.enums[ei].name) in types
      ensures GetEnumName(schema.enums[ei].name) in old(types) ==> types == old(types) && blocks == old(blocks)
      ensures GetEnumName(schema.enums[ei].name) !in old(types) ==>
        && |blocks| == |old(blocks)| + 1
        && exists es :: EnumeratorOrder(es, schema.enums[ei].values)
             && blocks[|blocks| - 1] == Enumeration(GetEnumName(schema.enums[ei].name), Entries(es, 0))
      ensures forall k :: |old(blocks)| <= k < |blocks| ==> blocks[k].name == GetEnumName(schema.enums[ei].name)
    {
      var e := schema.enums[ei];
      var enumName := GetEnumName(e.name);
      if enumName in types {
        Stay(schema, emitJsonNames, printer.level, types, blocks, printer.lines);
        NestedRefl(schema, blocks, pending, types);
        return;
      }
      types := types + {enumName};
      var enumerators := GetEnumerators(e);
      ghost var t1, b1, l1 := types, blocks, printer.lines;
      Stay(schema, emitJsonNames, printer.level, t1, b1, l1);
      PrintEnumeration(enumName, enumerators);
      var enumeration := Enumeration(enumName, Entries(enumerators, 0));
      assert FromSchema(schema, enumeration);
      WithBlock(schema, emitJsonNames, printer.level, old(types), old(blocks), old(printer.lines),
                t1, b1, l1, enumeration, printer.lines);
      blocks := blocks + [enumeration];
      pending := pending + [path];
      BlockOrdered(schema, b1, enumeration, path, t1);
      NestedRefl(schema, b1, old(pending), t1);
      NestedSnoc(schema, b1, old(pending), b1, old(pending), t1, enumeration, path);
    }

    /** The enumeration block of Print(const EnumDescriptor *): its header, the entries
        one level deeper, and `);`. */
    method PrintEnumeration(enumName: string, enumerators: seq<Enumerator>)
      modifies printer
      ensures printer.level == old(printer.level)
      ensures printer.lines
        == old(printer.lines) + BlockLines(printer.level, emitJsonNames, Enumeration(enumName, Entries(enumerators, 0)))
    {
      var level := printer.level;
      printer.Print(enumName + " = (");
      printer.Indent();
      PrintEntries(enumerators);
      printer.Outdent();
      printer.Print(");");
      printer.Print("");
      Bracketed(old(printer.lines), Indented(level, EnumHeader(enumName)),
        EntryLines(level + 1, Entries(enumerators, 0)), Indented(level, ");"), Indented(level, ""));
      EnumerationLines(level, emitJsonNames, enumName, Entries(enumerators, 0));
    }

    /** The loop of Print(const EnumDescriptor *) over the sorted enumerators: the
        placeholders for the numbers skipped since the previous one, then the enumerator. */
    method PrintEntries(enumerators: seq<Enumerator>)
      modifies printer
      ensures printer.level == old(printer.level)
      ensures printer.lines == old(printer.lines) + EntryLines(printer.level, Entries(enumerators, 0))
    {
      ghost var start := printer.lines;
      ghost var level := printer.level;
      ghost var goal := Entries(enumerators, 0);
      ghost var written: seq<EnumEntry> := [];
      AppendEmpty(start);
      AppendEmpty(goal);
      var nextNumber := 0;
      for idx := 0 to |enumerators|
        invariant printer.level == level
        invariant printer.lines == start + EntryLines(level, written)
        invariant written + Entries(enumerators[idx..], nextNumber) == goal
      {
        var enumerator := enumerators[idx];
        ghost var gap := Gap(nextNumber, enumerator.number);
        ghost var entry := EnumeratorEntry(enumerator);
        ghost var rest := Entries(enumerators[idx + 1..], enumerator.number + 1);
        EntriesStep(enumerators[idx..], nextNumber);
        assert enumerators[idx..][1..] == enumerators[idx + 1..];
        ghost var l0 := printer.lines;
        PrintPlaceholders(nextNumber, enumerator.number);
        PrintEnumerator(enumerator);
        EntryLinesSnoc(level, gap, entry);
        EntryLinesAppend(level, written, gap + [entry]);
        AppendAssoc(l0, EntryLines(level, gap), [Indented(level, EntryText(entry))]);
        AppendAssoc(start, EntryLines(level, written), EntryLines(level, gap + [entry]));
        ShiftPart(written, gap, entry, rest);
        AppendAssoc(written, gap, [entry]);
        written := written + (gap + [entry]);
        nextNumber := enumerator.number + 1;
      }
      assert enumerators[|enumerators|..] == [];
    }

    /** `_unusedK = K,` for every K from `from` up to, not including, `to`. */
    method PrintPlaceholders(from: int, to: int)
      modifies printer
      ensures printer.level == old(printer.level)
      ensures printer.lines == old(printer.lines) + EntryLines(printer.level, Gap(from, to))
    {
      var k := from;
      ghost var level := printer.level;
      AppendEmpty(old(printer.lines));
      while k < to
        invariant printer.level == level
        invariant printer.lines + EntryLines(level, Gap(k, to)) == old(printer.lines) + EntryLines(level, Gap(from, to))
      {
        var valueNumber := IntToString(k);
        ghost var l0 := printer.lines;
        printer.Print("_unused" + valueNumber + " = " + valueNumber + ",");
        assert Gap(k, to) == [Placeholder(k)] + Gap(k + 1, to);
        PlaceholderLine(level, k);
        EntryLinesAppend(level, [Placeholder(k)], Gap(k + 1, to));
        AppendAssoc(l0, EntryLines(level, [Placeholder(k)]), EntryLines(level, Gap(k + 1, to)));
        k := k + 1;
      }
      AppendEmpty(printer.lines);
    }

    /** One enumeration value: its name lower-cased and camel-cased, its number, and a
        comma unless it is the last. */
    method PrintEnumerator(enumerator: Enumerator)
      modifies printer
      ensures printer.level == old(printer.level)
      ensures printer.lines == old(printer.lines) + [Indented(printer.level, EntryText(EnumeratorEntry(enumerator)))]
    {
      var lowered := ToLower(enumerator.name);
      var valueName := GetCamelCase(lowered);
      var valueNumber := IntToString(enumerator.number);
      if enumerator.isLast {
        AppendEmpty(valueName + " = " + valueNumber);
        printer.Print(valueName + " = " + valueNumber);
      } else {
        printer.Print(valueName + " = " + valueNumber + ",");
      }
    }

    /** One field declaration: its tag, its attributes, its name and its type. */
    method PrintField(field: Field)
      modifies printer
      ensures printer.level == old(printer.level)
      ensures printer.lines == old(printer.lines) + [Indented(printer.level, FieldDeclaration(field, emitJsonNames))]
    {
      var fieldOptions := FieldOptionsText(field);
      var fieldType := if field.repeated then GetArrayType(field.typeName) else field.typeName;
      var fieldTag := IntToString(field.tag);
      printer.Print("[FieldTag(" + fieldTag + ")" + fieldOptions + "] " + field.name + ": " + fieldType + ";");
    }

    /** The attribute list of Print(const Field &), built by appending each attribute
        that applies. */
    method FieldOptionsText(field: Field) returns (fieldOptions: string)
      ensures fieldOptions == FieldOptions(field, emitJsonNames)
    {
      fieldOptions := "";
      if field.required {
        fieldOptions := fieldOptions + ", Required";
      }
      ghost var required := fieldOptions;
      if field.packable && !field.packed {
        fieldOptions := fieldOptions + ", UnPacked";
      }
      ghost var unpacked := if field.packable && !field.packed then ", UnPacked" else "";
      assert fieldOptions == required + unpacked;
      ghost var named := if emitJsonNames then ", FieldName('" + field.jsonName + "')" else "";
      if emitJsonNames {
        fieldOptions := fieldOptions + ", FieldName('" + field.jsonName + "')";
      }
      assert fieldOptions == required + unpacked + named;
    }

    /** The values of an enumeration sorted by number, the last one flagged. */
    static method GetEnumerators(desc: EnumDescriptor) returns (result: seq<Enumerator>)
      requires |desc.values| > 0
      ensures EnumeratorOrder(result, desc.values)
    {
      var n := |desc.values|;
      var a := new Enumerator[n];
      for i := 0 to n
        invariant forall j :: 0 <= j < i ==> a[j] == Enumerator(desc.values[j].name, desc.values[j].number, false)
      {
        a[i] := Enumerator(desc.values[i].name, desc.values[i].number, false);
      }
      assert a[..] == Collected(desc.values);
      SortByNumber(a);
      ghost var sorted := a[..];
      forall j | 0 <= j < n
        ensures !sorted[j].isLast
      {
        assert sorted[j] in multiset(Collected(desc.values));
      }
      a[n - 1] := a[n - 1].(isLast := true);
      result := a[..];
      assert Unflagged(result) == sorted;
    }
  }
}
