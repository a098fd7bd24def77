/** The standard-library string algorithms the identifier helpers rely on:
    counting a character, std::remove followed by erase, and std::replace. */
module Strings {

  /** How many times `c` occurs in `s`. */
  function Occurrences(s: string, c: char): (n: nat)
    ensures n <= |s|
    ensures n == 0 <==> c !in s
  {
    if s == [] then 0 else (if s[0] == c then 1 else 0) + Occurrences(s[1..], c)
  }

  /** `s` with every `c` taken out and the other characters kept in order
      (`s.erase(std::remove(s.begin(), s.end(), c), s.end())`). */
  function RemoveAll(s: string, c: char): (r: string)
    ensures c !in r
  {
    if s == [] then [] else (if s[0] == c then [] else [s[0]]) + RemoveAll(s[1..], c)
  }

  /** Only the occurrences of `c` are taken out: every other character stays. */
  lemma {:induction false} RemoveAllKeepsTheRest(s: string, c: char)
    ensures |RemoveAll(s, c)| == |s| - Occurrences(s, c)
    ensures forall x :: x != c ==> (x in RemoveAll(s, c) <==> x in s)
  {
    if s != [] {
      RemoveAllKeepsTheRest(s[1..], c);
      assert s == [s[0]] + s[1..];
    }
  }

  lemma {:induction false} RemoveAllAppend(a: string, b: string, c: char)
    ensures RemoveAll(a + b, c) == RemoveAll(a, c) + RemoveAll(b, c)
  {
    if a == [] {
      assert a + b == b;
    } else {
      assert (a + b)[1..] == a[1..] + b;
      RemoveAllAppend(a[1..], b, c);
    }
  }

  /** `s` with every `from` replaced by `to` in place (`std::replace`). */
  function ReplaceAll(s: string, from: char, to: char): (r: string)
    ensures |r| == |s|
    ensures forall i :: 0 <= i < |s| ==> r[i] == (if s[i] == from then to else s[i])
  {
    if s == [] then [] else [if s[0] == from then to else s[0]] + ReplaceAll(s[1..], from, to)
  }
}
