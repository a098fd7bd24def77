/** The identifier helpers of generator/protobuf/src/delphiutils.h. GetFullName,
    GetUnitName, ToLower and ToUpper copy a string and rewrite the copy in place; they
    are methods over a character buffer, each proved equal to a specification
    function. GetRecordName, GetEnumName, GetFieldName and GetArrayType are plain
    concatenations and are functions. */
module DelphiUtils {
  import opened Chars
  import opened Strings
  import opened CamelCasing

  // Case mapping (std::transform with std::tolower / std::toupper).

  /** Every character of `s` mapped through std::tolower. */
  function Lower(s: string): (r: string)
    ensures |r| == |s|
    ensures forall i :: 0 <= i < |s| ==> r[i] == LowerChar(s[i])
  {
    if s == [] then [] else [LowerChar(s[0])] + Lower(s[1..])
  }

  /** Every character of `s` mapped through std::toupper. */
  function Upper(s: string): (r: string)
    ensures |r| == |s|
    ensures forall i :: 0 <= i < |s| ==> r[i] == UpperChar(s[i])
  {
    if s == [] then [] else [UpperChar(s[0])] + Upper(s[1..])
  }

  /** Both mappings keep the length, keep every non-letter where it was, and map
      letters to letters. */
  lemma CaseMappingKeepsShape(s: string)
    ensures |Lower(s)| == |s| && |Upper(s)| == |s|
    ensures forall i :: 0 <= i < |s| && !IsAlpha(s[i]) ==> Lower(s)[i] == s[i] && Upper(s)[i] == s[i]
    ensures forall i :: 0 <= i < |s| ==> IsAlpha(Lower(s)[i]) == IsAlpha(s[i]) == IsAlpha(Upper(s)[i])
  {
  }

  lemma LowerIdempotent(s: string)
    ensures Lower(Lower(s)) == Lower(s)
  {
  }

  lemma LowerOfUpper(s: string)
    ensures Lower(Upper(s)) == Lower(s)
  {
    forall i | 0 <= i < |s|
      ensures Lower(Upper(s))[i] == Lower(s)[i]
    {
      LowerOfUpperChar(s[i]);
    }
  }

  method ToLower(name: string) returns (result: string)
    ensures result == Lower(name)
  {
    var buf := new char[|name|](i requires 0 <= i < |name| => name[i]);
    for i := 0 to buf.Length
      invariant forall k :: 0 <= k < i ==> buf[k] == LowerChar(name[k])
      invariant forall k :: i <= k < buf.Length ==> buf[k] == name[k]
    {
      buf[i] := LowerChar(buf[i]);
    }
    result := buf[..];
  }

  method ToUpper(name: string) returns (result: string)
    ensures result == Upper(name)
  {
    var buf := new char[|name|](i requires 0 <= i < |name| => name[i]);
    for i := 0 to buf.Length
      invariant forall k :: 0 <= k < i ==> buf[k] == UpperChar(name[k])
      invariant forall k :: i <= k < buf.Length ==> buf[k] == name[k]
    {
      buf[i] := UpperChar(buf[i]);
    }
    result := buf[..];
  }

  // Type, unit and field names.

  /** GetCamelCase of `name` with every '.' removed. */
  function FullName(name: string): (r: string)
    ensures '.' !in r && '_' !in r
    ensures |r| == |CamelCase(name)| - Occurrences(CamelCase(name), '.')
  {
    RemoveAllKeepsTheRest(CamelCase(name), '.');
    RemoveAll(CamelCase(name), '.')
  }

  /** std::remove: moves the characters other than `c` to the front of `buf`, in
      order, and returns how many there are. */
  method Remove(buf: array<char>, c: char) returns (w: nat)
    modifies buf
    ensures w <= buf.Length
    ensures buf[..w] == RemoveAll(old(buf[..]), c)
  {
    ghost var s := buf[..];
    w := 0;
    for r := 0 to buf.Length
      invariant w <= r
      invariant buf[..w] == RemoveAll(s[..r], c)
      invariant forall k :: r <= k < buf.Length ==> buf[k] == s[k]
    {
      ghost var done := buf[..w];
      assert s[..r + 1] == s[..r] + [s[r]];
      RemoveAllAppend(s[..r], [s[r]], c);
      if buf[r] != c {
        buf[w] := buf[r];
        assert buf[..w + 1] == done + [s[r]];
        w := w + 1;
      }
    }
    assert s[..buf.Length] == s;
  }

  method GetFullName(name: string) returns (result: string)
    ensures result == FullName(name)
  {
    var camel := GetCamelCase(name);
    var buf := new char[|camel|](i requires 0 <= i < |camel| => camel[i]);
    assert buf[..] == camel;
    var end := Remove(buf, '.');
    result := buf[..end];
  }

  /** GetCamelCase of a path, with each '/' turned into the unit separator '.'. */
  function UnitName(name: string): (r: string)
    ensures '/' !in r
    ensures |r| == |CamelCase(name)|
    ensures forall i :: 0 <= i < |r| ==> r[i] == if CamelCase(name)[i] == '/' then '.' else CamelCase(name)[i]
  {
    ReplaceAll(CamelCase(name), '/', '.')
  }

  method GetUnitName(name: string) returns (result: string)
    ensures result == UnitName(name)
  {
    var camel := GetCamelCase(name);
    var buf := new char[|camel|](i requires 0 <= i < |camel| => camel[i]);
    for i := 0 to buf.Length
      invariant forall k :: 0 <= k < i ==> buf[k] == if camel[k] == '/' then '.' else camel[k]
      invariant forall k :: i <= k < buf.Length ==> buf[k] == camel[k]
    {
      if buf[i] == '/' {
        buf[i] := '.';
      }
    }
    result := buf[..];
  }

  /** The declared name of an enumeration type. */
  function GetEnumName(name: string): (r: string)
    ensures |r| > 0 && r[0] == 'T'
    ensures '.' !in r && '_' !in r
  {
    "T" + FullName(name)
  }

  /** The declared name of a record type: messages and enumerations share one name space. */
  function GetRecordName(name: string): (r: string)
    ensures r == GetEnumName(name)
  {
    "T" + FullName(name)
  }

  /** The declared name of a record field. */
  function GetFieldName(name: string): (r: string)
    ensures |r| == 1 + |name| - Occurrences(name, '_')
    ensures r[0] == 'F' && '_' !in r
  {
    "F" + CamelCase(name)
  }

  /** The dynamic-array type with elements of type `name`; the element type can be
      read back from the result. */
  function GetArrayType(name: string): (r: string)
    ensures |r| == |name| + 8
    ensures r[..7] == "TArray<" && r[|r| - 1] == '>'
    ensures r[7..|r| - 1] == name
  {
    "TArray<" + name + ">"
  }

  /** A schema name with an underscore and its GetCamelCase form are different names
      that give the same declared type name. */
  lemma UnderscoredNamesCollide(name: string)
    requires '_' in name
    ensures CamelCase(name) != name
    ensures GetRecordName(CamelCase(name)) == GetRecordName(name)
    ensures GetEnumName(CamelCase(name)) == GetRecordName(name)
  {
    CamelCaseIdempotent(name);
  }
}
