/** ASCII character classes and case mappings, standing for the C library's
    std::isalpha, std::toupper and std::tolower in the "C" locale. */
module Chars {

  predicate IsUpper(c: char) { 'A' <= c <= 'Z' }

  predicate IsLower(c: char) { 'a' <= c <= 'z' }

  predicate IsAlpha(c: char) { IsUpper(c) || IsLower(c) }

  predicate IsDigit(c: char) { '0' <= c <= '9' }

  /** std::toupper: maps a lower-case letter to its capital, every other character to itself. */
  function UpperChar(c: char): (r: char)
    ensures IsAlpha(r) <==> IsAlpha(c)
    ensures !IsLower(r)
    ensures !IsLower(c) ==> r == c
    ensures IsLower(c) ==> IsUpper(r) && LowerChar(r) == c
  {
    if IsLower(c) then (c as int - 32) as char else c
  }

  /** std::tolower: maps a capital letter to its lower-case form, every other character to itself. */
  function LowerChar(c: char): (r: char)
    ensures IsAlpha(r) <==> IsAlpha(c)
    ensures !IsUpper(r)
    ensures !IsUpper(c) ==> r == c
  {
    if IsUpper(c) then (c as int + 32) as char else c
  }

  lemma LowerOfUpperChar(c: char)
    ensures LowerChar(UpperChar(c)) == LowerChar(c)
  {
  }
}
