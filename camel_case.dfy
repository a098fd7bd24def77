/** GetCamelCase (generator/protobuf/src/delphiutils.cpp): underscores are dropped and
    every letter that does not follow another letter is capitalised. */
module CamelCasing {
  import opened Chars
  import opened Strings

  /** The characters of `s` that are neither letters nor underscores, in order. */
  function Others(s: string): (r: string)
    ensures forall i :: 0 <= i < |r| ==> !IsAlpha(r[i]) && r[i] != '_'
  {
    if s == [] then []
    else if IsAlpha(s[0]) || s[0] == '_' then Others(s[1..])
    else [s[0]] + Others(s[1..])
  }

  /** What GetCamelCase's loop appends for the rest `s` of the name when its flag
      isAlpha (the previous character was a letter) is `afterLetter`. */
  function CamelFrom(s: string, afterLetter: bool): (r: string)
    ensures '_' !in r
  {
    if s == [] then []
    else if s[0] == '_' then CamelFrom(s[1..], false)
    else if !IsAlpha(s[0]) then [s[0]] + CamelFrom(s[1..], false)
    else if afterLetter then [s[0]] + CamelFrom(s[1..], true)
    else [UpperChar(s[0])] + CamelFrom(s[1..], true)
  }

  /** Only underscores are dropped. */
  lemma {:induction false} CamelFromLength(s: string, afterLetter: bool)
    ensures |CamelFrom(s, afterLetter)| == |s| - Occurrences(s, '_')
  {
    if s != [] {
      CamelFromLength(s[1..], IsAlpha(s[0]));
    }
  }

  /** Characters that are neither letters nor underscores come through unchanged and
      in order; letters stay letters. */
  lemma {:induction false} CamelFromKeepsOthers(s: string, afterLetter: bool)
    ensures Others(CamelFrom(s, afterLetter)) == Others(s)
  {
    if s != [] {
      CamelFromKeepsOthers(s[1..], IsAlpha(s[0]));
      var r := CamelFrom(s, afterLetter);
      if s[0] != '_' {
        assert r[1..] == CamelFrom(s[1..], IsAlpha(s[0]));
      }
    }
  }

  /** The identifier GetCamelCase makes of `s`. */
  function CamelCase(s: string): (r: string)
    ensures '_' !in r
    ensures |r| == |s| - Occurrences(s, '_') <= |s|
    ensures s == [] ==> r == []
    ensures Others(r) == Others(s)
  {
    CamelFromLength(s, false);
    CamelFromKeepsOthers(s, false);
    CamelFrom(s, false)
  }

  /** One step of GetCamelCase's loop: what the first character of `s` contributes
      and the flag the rest is processed with. */
  lemma CamelFromStep(s: string, afterLetter: bool)
    requires s != []
    ensures CamelFrom(s, afterLetter) ==
      (if s[0] == '_' then []
       else if !IsAlpha(s[0]) || afterLetter then [s[0]]
       else [UpperChar(s[0])])
      + CamelFrom(s[1..], IsAlpha(s[0]))
  {
  }

  method GetCamelCase(name: string) returns (result: string)
    ensures result == CamelCase(name)
  {
    var isAlpha := false;
    result := "";
    ghost var goal := CamelFrom(name, false);
    for i := 0 to |name|
      invariant result + CamelFrom(name[i..], isAlpha) == goal
    {
      var ch := name[i];
      CamelFromStep(name[i..], isAlpha);
      assert name[i..][1..] == name[i + 1..];
      ghost var tail := CamelFrom(name[i + 1..], IsAlpha(ch));
      if ch == '_' {
        isAlpha := false;
      } else if !IsAlpha(ch) {
        assert result + [ch] + tail == result + ([ch] + tail);
        result := result + [ch];
        isAlpha := false;
      } else if isAlpha {
        assert result + [ch] + tail == result + ([ch] + tail);
        result := result + [ch];
      } else {
        assert result + [UpperChar(ch)] + tail == result + ([UpperChar(ch)] + tail);
        result := result + [UpperChar(ch)];
        isAlpha := true;
      }
    }
  }

  // Capitalisation, stated position by position.

  /** `s` with a letter upper-cased exactly when it opens a run of letters: it is the
      first character and `afterLetter` is false, or the character before it is not a
      letter (an underscore included). Every other character is kept. */
  function Capitalise(s: string, afterLetter: bool): (r: string)
    ensures |r| == |s|
  {
    seq(|s|, i requires 0 <= i < |s| =>
      if IsAlpha(s[i]) && !(if i == 0 then afterLetter else IsAlpha(s[i - 1]))
      then UpperChar(s[i]) else s[i])
  }

  lemma {:induction false} CamelFromCapitalises(s: string, afterLetter: bool)
    ensures CamelFrom(s, afterLetter) == RemoveAll(Capitalise(s, afterLetter), '_')
  {
    if s != [] {
      var t := Capitalise(s, afterLetter);
      var rest := Capitalise(s[1..], IsAlpha(s[0]));
      assert t == [t[0]] + rest;
      assert t[0] == '_' <==> s[0] == '_';
      assert ([t[0]] + rest)[1..] == rest;
      CamelFromCapitalises(s[1..], IsAlpha(s[0]));
    }
  }

  /** A letter of the result is upper-cased iff it is the first character of the name
      or follows a non-letter (an underscore included); underscores are then dropped. */
  lemma CamelCaseCapitalises(s: string)
    ensures CamelCase(s) == RemoveAll(Capitalise(s, false), '_')
  {
    CamelFromCapitalises(s, false);
  }

  // Idempotence.

  /** Every letter of `t` that opens a run of letters is already a capital. */
  predicate UpperAtWordStarts(t: string, afterLetter: bool)
  {
    t == [] ||
    ((IsAlpha(t[0]) && !afterLetter ==> IsUpper(t[0])) && UpperAtWordStarts(t[1..], IsAlpha(t[0])))
  }

  lemma {:induction false} CamelFromStartsWordsUpper(s: string, afterLetter: bool)
    ensures UpperAtWordStarts(CamelFrom(s, afterLetter), afterLetter)
  {
    if s != [] {
      var r := CamelFrom(s, afterLetter);
      if s[0] == '_' {
        CamelFromStartsWordsUpper(s[1..], false);
        if r != [] {
          assert UpperAtWordStarts(r, false);
        }
      } else if !IsAlpha(s[0]) {
        CamelFromStartsWordsUpper(s[1..], false);
        assert r[1..] == CamelFrom(s[1..], false);
      } else if afterLetter {
        CamelFromStartsWordsUpper(s[1..], true);
        assert r[1..] == CamelFrom(s[1..], true);
      } else {
        CamelFromStartsWordsUpper(s[1..], true);
        assert r[1..] == CamelFrom(s[1..], true);
      }
    }
  }

  lemma {:induction false} CamelFromFixesWordStarts(t: string, afterLetter: bool)
    requires '_' !in t
    requires UpperAtWordStarts(t, afterLetter)
    ensures CamelFrom(t, afterLetter) == t
  {
    if t != [] {
      assert '_' !in t[1..];
      CamelFromFixesWordStarts(t[1..], IsAlpha(t[0]));
      assert t == [t[0]] + t[1..];
    }
  }

  /** Applying GetCamelCase to its own output changes nothing. */
  lemma CamelCaseIdempotent(s: string)
    ensures CamelCase(CamelCase(s)) == CamelCase(s)
  {
    CamelFromStartsWordsUpper(s, false);
    CamelFromFixesWordStarts(CamelCase(s), false);
  }
}
