/** Generic facts about concatenation and slicing. Stated once over any element type,
    so that using them never exposes what the elements are made of. */
module SeqFacts {

  lemma AppendAssoc<T>(x: seq<T>, y: seq<T>, z: seq<T>)
    ensures (x + y) + z == x + (y + z)
  {
  }

  lemma AppendEmpty<T>(x: seq<T>)
    ensures [] + x == x && x + [] == x
  {
  }

  /** Taking a suffix of an extended sequence: the old suffix followed by the extension. */
  lemma SuffixOfExtension<T>(a: seq<T>, b: seq<T>, c: seq<T>)
    requires a <= b <= c
    ensures c[|a|..] == b[|a|..] + c[|b|..]
  {
  }

  lemma SuffixSnoc<T>(a: seq<T>, b: seq<T>, x: T)
    requires a <= b
    ensures (b + [x])[|a|..] == b[|a|..] + [x]
  {
  }

  /** The elements of a sequence, as a set. */
  function Elements<T>(s: seq<T>): set<T>
  {
    set x | x in s
  }

  lemma ElementsSnoc<T>(s: seq<T>, x: T)
    ensures Elements(s + [x]) == Elements(s) + {x}
  {
  }

  lemma EmptySuffix<T>(a: seq<T>)
    ensures a[|a|..] == []
  {
  }

  lemma PrefixOfSnoc<T>(b: seq<T>, x: T)
    ensures (b + [x])[..|b|] == b
  {
  }

  /** A block written line by line: an opening line, the members, a closing line and
      an empty line, after what was there before. */
  lemma Bracketed<T>(l: seq<T>, open: T, members: seq<T>, close: T, last: T)
    ensures l + [open] + members + [close] + [last] == l + ([open] + members + [close, last])
  {
  }

  /** Moving a whole part from the front of the remainder to the end of what is done. */
  lemma ShiftPart<T>(w: seq<T>, g: seq<T>, x: T, rest: seq<T>)
    ensures w + (g + [x] + rest) == (w + g + [x]) + rest
  {
  }
}
