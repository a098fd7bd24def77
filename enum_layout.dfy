/** The entries of an enumeration block: the enumerators in ascending order of their
    numbers, with a placeholder `_unusedK = K` for every number the loop in
    DelphiUnitGenerator::Print(const EnumDescriptor *) steps over. */
module EnumLayout {
  import opened Chars
  import opened Decimal
  import opened CamelCasing
  import opened DelphiUtils
  import opened Descriptors

  /** DelphiUnitGenerator::Enumerator: a value's name and number, and whether it is
      the last one of the block. */
  datatype Enumerator = Enumerator(name: string, number: int, isLast: bool)

  /** One line of an enumeration block: an enumerator of the enum, or the placeholder
      `_unusedK` for a number K that none of them has. */
  datatype EnumEntry = EnumeratorEntry(enumerator: Enumerator) | Placeholder(number: int)
  {
    /** The number written after `=`. */
    function Value(): int
    {
      if EnumeratorEntry? then enumerator.number else number
    }

    /** Whether a comma follows: after every placeholder, and after every enumerator
        but the last. */
    predicate Comma()
    {
      Placeholder? || !enumerator.isLast
    }

    function Name(): string
    {
      if EnumeratorEntry? then ValueName(enumerator.name) else "_unused" + IntToString(number)
    }
  }

  /** The declared name of an enumeration value: lower-cased, then camel-cased. */
  function ValueName(name: string): string
  {
    CamelCase(Lower(name))
  }

  /** The placeholders for the numbers from `from` up to, not including, `to`. */
  function Gap(from: int, to: int): seq<EnumEntry>
    decreases to - from
  {
    if from >= to then [] else [Placeholder(from)] + Gap(from + 1, to)
  }

  lemma {:induction false} GapShape(from: int, to: int)
    decreases to - from
    ensures |Gap(from, to)| == if from < to then to - from else 0
    ensures forall k :: 0 <= k < |Gap(from, to)| ==> Gap(from, to)[k] == Placeholder(from + k)
  {
    if from < to {
      GapShape(from + 1, to);
    }
  }

  /** The entries written for `es` when the loop's cursor nextNumber is `next`. */
  function Entries(es: seq<Enumerator>, next: int): seq<EnumEntry>
  {
    if es == [] then []
    else Gap(next, es[0].number) + [EnumeratorEntry(es[0])] + Entries(es[1..], es[0].number + 1)
  }

  /** Indexing into a sequence with one element spliced between two others. */
  lemma Splice<T>(a: seq<T>, x: T, b: seq<T>, k: int)
    requires 0 <= k < |a| + 1 + |b|
    ensures |a + [x] + b| == |a| + 1 + |b|
    ensures (a + [x] + b)[k] == if k < |a| then a[k] else if k == |a| then x else b[k - |a| - 1]
  {
  }

  /** One step of Entries: its first gap, its first enumerator, then the rest. */
  lemma EntriesStep(es: seq<Enumerator>, next: int)
    requires es != []
    ensures Entries(es, next) == Gap(next, es[0].number) + [EnumeratorEntry(es[0])] + Entries(es[1..], es[0].number + 1)
  {
  }

  /** The text of an entry: `name = value`, followed by a comma unless it is the last. */
  function EntryText(e: EnumEntry): (r: string)
    ensures r != [] && (r[|r| - 1] == ',' || IsDigit(r[|r| - 1]))
    ensures e.Comma() <==> r[|r| - 1] == ','
  {
    e.Name() + " = " + IntToString(e.Value()) + (if e.Comma() then "," else "")
  }

  predicate SortedByNumber(es: seq<Enumerator>)
  {
    forall p, q :: 0 <= p < q < |es| ==> es[p].number <= es[q].number
  }

  predicate DistinctNumbers(es: seq<Enumerator>)
  {
    forall p, q :: 0 <= p < q < |es| ==> es[p].number != es[q].number
  }

  predicate OnlyLastFlagged(es: seq<Enumerator>)
  {
    forall k :: 0 <= k < |es| ==> (es[k].isLast <==> k == |es| - 1)
  }

  function Unflagged(es: seq<Enumerator>): seq<Enumerator>
  {
    seq(|es|, k requires 0 <= k < |es| => es[k].(isLast := false))
  }

  /** The vector GetEnumerators builds before sorting: one unflagged enumerator per value. */
  function Collected(values: seq<EnumValueDescriptor>): seq<Enumerator>
  {
    seq(|values|, k requires 0 <= k < |values| => Enumerator(values[k].name, values[k].number, false))
  }

  /** What GetEnumerators promises of its result: the enum's values, sorted by number,
      with exactly the last one flagged. */
  predicate EnumeratorOrder(es: seq<Enumerator>, values: seq<EnumValueDescriptor>)
  {
    && |es| == |values|
    && SortedByNumber(es)
    && OnlyLastFlagged(es)
    && multiset(Unflagged(es)) == multiset(Collected(values))
  }

  /** No enumerator of `es` has the number `n`. */
  predicate Unnumbered(es: seq<Enumerator>, n: int)
  {
    forall j :: 0 <= j < |es| ==> es[j].number != n
  }

  lemma UnnumberedTail(es: seq<Enumerator>, n: int)
    requires es != [] && Unnumbered(es, n)
    ensures es[0].number != n && Unnumbered(es[1..], n)
  {
    forall j | 0 <= j < |es[1..]|
      ensures es[1..][j].number != n
    {
      assert es[1..][j] == es[j + 1];
    }
  }

  /** Numbers strictly increasing from one enumerator to the next, none below `next`. */
  predicate Ascending(es: seq<Enumerator>, next: int)
  {
    es == [] || (next <= es[0].number && Ascending(es[1..], es[0].number + 1))
  }

  /** A sorted sequence of distinct numbers, none below `next`, is ascending. */
  lemma {:induction false} SortedAscending(es: seq<Enumerator>, next: int)
    requires SortedByNumber(es) && DistinctNumbers(es) && (es != [] ==> next <= es[0].number)
    ensures Ascending(es, next)
  {
    if |es| > 1 {
      assert es[0].number < es[1].number;
      assert SortedByNumber(es[1..]) && DistinctNumbers(es[1..]) by {
        forall p, q | 0 <= p < q < |es| - 1
          ensures es[1..][p].number <= es[1..][q].number && es[1..][p].number != es[1..][q].number
        {
          assert es[1..][p] == es[p + 1] && es[1..][q] == es[q + 1];
        }
      }
      SortedAscending(es[1..], es[0].number + 1);
    }
  }

  /** Indexing into Entries: the first gap's placeholders, then the first enumerator,
      then the entries of the rest. */
  lemma EntriesAt(es: seq<Enumerator>, next: int, k: int)
    requires es != [] && next <= es[0].number && 0 <= k
    ensures |Entries(es, next)| == es[0].number - next + 1 + |Entries(es[1..], es[0].number + 1)|
    ensures k < es[0].number - next ==> Entries(es, next)[k] == Placeholder(next + k)
    ensures k == es[0].number - next ==> Entries(es, next)[k] == EnumeratorEntry(es[0])
    ensures es[0].number - next < k < |Entries(es, next)| ==>
      Entries(es, next)[k] == Entries(es[1..], es[0].number + 1)[k - (es[0].number - next) - 1]
  {
    var n0 := es[0].number;
    var gap := Gap(next, n0);
    GapShape(next, n0);
    EntriesStep(es, next);
    if k < |Entries(es, next)| {
      Splice(gap, EnumeratorEntry(es[0]), Entries(es[1..], n0 + 1), k);
    }
  }

  /** Gap filling: the entry at position k carries the value next + k, and the block
      ends with the largest number. */
  lemma {:induction false} EntriesAreDense(es: seq<Enumerator>, next: int)
    requires Ascending(es, next)
    ensures |Entries(es, next)| == if es == [] then 0 else es[|es| - 1].number + 1 - next
    ensures forall k :: 0 <= k < |Entries(es, next)| ==> Entries(es, next)[k].Value() == next + k
  {
    if es != [] {
      EntriesAreDense(es[1..], es[0].number + 1);
      EntriesAt(es, next, 0);
      forall k | 0 <= k < |Entries(es, next)|
        ensures Entries(es, next)[k].Value() == next + k
      {
        EntriesAt(es, next, k);
      }
    }
  }

  /** The enumerator at index j sits at the position of its number. */
  lemma {:induction false} EnumeratorAt(es: seq<Enumerator>, next: int, j: int)
    requires Ascending(es, next) && 0 <= j < |es|
    decreases j
    ensures 0 <= es[j].number - next < |Entries(es, next)|
    ensures Entries(es, next)[es[j].number - next] == EnumeratorEntry(es[j])
  {
    var n0 := es[0].number;
    if j == 0 {
      EntriesAt(es, next, n0 - next);
    } else {
      EnumeratorAt(es[1..], n0 + 1, j - 1);
      assert es[1..][j - 1] == es[j];
      EntriesAt(es, next, es[j].number - next);
    }
  }

  /** Every enumerator sits at the position of its number. */
  lemma EnumeratorsInPlace(es: seq<Enumerator>, next: int)
    requires Ascending(es, next)
    ensures forall j :: 0 <= j < |es| ==>
      0 <= es[j].number - next < |Entries(es, next)| &&
      Entries(es, next)[es[j].number - next] == EnumeratorEntry(es[j])
  {
    forall j | 0 <= j < |es|
      ensures 0 <= es[j].number - next < |Entries(es, next)|
      ensures Entries(es, next)[es[j].number - next] == EnumeratorEntry(es[j])
    {
      EnumeratorAt(es, next, j);
    }
  }

  /** A position whose number no enumerator has holds the placeholder for it. */
  lemma {:induction false} PlaceholderAt(es: seq<Enumerator>, next: int, k: int)
    requires Ascending(es, next) && 0 <= k < |Entries(es, next)| && Unnumbered(es, next + k)
    decreases |es|
    ensures Entries(es, next)[k] == Placeholder(next + k)
  {
    var n0 := es[0].number;
    EntriesAt(es, next, k);
    UnnumberedTail(es, next + k);
    if k > n0 - next {
      PlaceholderAt(es[1..], n0 + 1, k - (n0 - next) - 1);
    }
  }

  /** Every number that no enumerator has gets a placeholder named after it. */
  lemma PlaceholdersFillGaps(es: seq<Enumerator>, next: int)
    requires Ascending(es, next)
    ensures forall k :: 0 <= k < |Entries(es, next)| && Unnumbered(es, next + k) ==>
      Entries(es, next)[k] == Placeholder(next + k)
  {
    forall k | 0 <= k < |Entries(es, next)| && Unnumbered(es, next + k)
      ensures Entries(es, next)[k] == Placeholder(next + k)
    {
      PlaceholderAt(es, next, k);
    }
  }

  /** Only the final entry lacks its comma; placeholders always carry one. */
  lemma {:induction false} CommaAfterAllButLast(es: seq<Enumerator>, next: int)
    requires es != [] && OnlyLastFlagged(es)
    ensures Entries(es, next) != []
    ensures forall k :: 0 <= k < |Entries(es, next)| ==>
      (Entries(es, next)[k].Comma() <==> k != |Entries(es, next)| - 1)
  {
    var n0 := es[0].number;
    var gap := Gap(next, n0);
    var x := EnumeratorEntry(es[0]);
    var rest := Entries(es[1..], n0 + 1);
    GapShape(next, n0);
    EntriesStep(es, next);
    Splice(gap, x, rest, 0);
    if |es| == 1 {
      assert rest == [];
      assert es[0].isLast;
    } else {
      assert !es[0].isLast;
      assert OnlyLastFlagged(es[1..]) by {
        forall k | 0 <= k < |es[1..]|
          ensures es[1..][k].isLast <==> k == |es[1..]| - 1
        {
          assert es[1..][k] == es[k + 1];
        }
      }
      CommaAfterAllButLast(es[1..], n0 + 1);
    }
    forall k | 0 <= k < |gap + [x] + rest|
      ensures (gap + [x] + rest)[k].Comma() <==> k != |gap + [x] + rest| - 1
    {
      Splice(gap, x, rest, k);
    }
  }

  /** The layout of an enumeration block whose numbers are sorted, distinct and not
      negative: the entries carry exactly the values 0, 1, ..., max in order, every
      enumerator at the position of its number, `_unusedK` at every other position K,
      and a comma after every entry but the last. */
  lemma GapFilling(es: seq<Enumerator>)
    requires es != [] && SortedByNumber(es) && DistinctNumbers(es) && es[0].number >= 0
    requires OnlyLastFlagged(es)
    ensures |Entries(es, 0)| == es[|es| - 1].number + 1
    ensures forall k :: 0 <= k < |Entries(es, 0)| ==> Entries(es, 0)[k].Value() == k
    ensures forall j :: 0 <= j < |es| ==> Entries(es, 0)[es[j].number] == EnumeratorEntry(es[j])
    ensures forall k :: 0 <= k < |Entries(es, 0)| && Unnumbered(es, k) ==> Entries(es, 0)[k] == Placeholder(k)
    ensures forall k :: 0 <= k < |Entries(es, 0)| ==> (Entries(es, 0)[k].Comma() <==> k != |Entries(es, 0)| - 1)
  {
    SortedAscending(es, 0);
    EntriesAreDense(es, 0);
    EnumeratorsInPlace(es, 0);
    PlaceholdersFillGaps(es, 0);
    CommaAfterAllButLast(es, 0);
  }
}
