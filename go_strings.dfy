/** The few functions of Go's `strings` package that fission/common.go relies on,
    over `string` = `seq<char>`. */
module GoStrings {

  /** `p` is a prefix of `s`. */
  predicate HasPrefix(s: string, p: string) {
    |p| <= |s| && s[..|p|] == p
  }

  /** `p` is a suffix of `s`. */
  predicate HasSuffix(s: string, p: string) {
    |p| <= |s| && s[|s| - |p|..] == p
  }

  /** `sub` occurs in `s` starting at position `i`. */
  predicate OccursAt(s: string, sub: string, i: int) {
    0 <= i && i + |sub| <= |s| && s[i..i + |sub|] == sub
  }

  /** strings.Index: the position of the first occurrence of `sub` in `s`,
      or -1 when there is none (an empty `sub` is found at 0). */
  function Index(s: string, sub: string): (r: int)
    ensures r == -1 || OccursAt(s, sub, r)
    ensures r == -1 ==> forall i :: !OccursAt(s, sub, i)
    ensures r != -1 ==> forall i :: 0 <= i < r ==> !OccursAt(s, sub, i)
    decreases |s|
  {
    if HasPrefix(s, sub) then 0
    else if |s| == 0 then -1
    else
      var k := Index(s[1..], sub);
      ShiftOccurrence(s, sub);
      if k == -1 then -1 else k + 1
  }

  /** Occurrences in `s[1..]` are the occurrences in `s` past position 0, shifted by one. */
  lemma ShiftOccurrence(s: string, sub: string)
    requires |s| > 0
    ensures forall i :: OccursAt(s[1..], sub, i) ==> OccursAt(s, sub, i + 1)
    ensures forall i :: 1 <= i && OccursAt(s, sub, i) ==> OccursAt(s[1..], sub, i - 1)
  {
  }

  /** `strings.Index(s, p) == 0` is Go's way of asking whether `s` starts with `p`. */
  lemma IndexZeroIffPrefix(s: string, p: string)
    ensures Index(s, p) == 0 <==> HasPrefix(s, p)
  {
  }

  /** strings.TrimSuffix: `s` without one trailing `suffix`, or `s` itself. */
  function TrimSuffix(s: string, suffix: string): (r: string)
    ensures HasSuffix(s, suffix) ==> r + suffix == s
    ensures !HasSuffix(s, suffix) ==> r == s
  {
    if HasSuffix(s, suffix) then s[..|s| - |suffix|] else s
  }

  predicate IsUpper(c: char) {
    'A' <= c <= 'Z'
  }

  /** The lower-case form of one letter; every other character is kept. */
  function LowerChar(c: char): (d: char)
    ensures !IsUpper(d)
    ensures IsUpper(c) ==> d as int == c as int + 32
    ensures !IsUpper(c) ==> d == c
  {
    if IsUpper(c) then (c as int + 32) as char else c
  }

  /** strings.ToLower, restricted to the ASCII letters. */
  function ToLower(s: string): (r: string)
    ensures |r| == |s|
    ensures forall i :: 0 <= i < |s| ==> r[i] == LowerChar(s[i])
    ensures forall i :: 0 <= i < |r| ==> !IsUpper(r[i])
  {
    if s == [] then [] else [LowerChar(s[0])] + ToLower(s[1..])
  }

  /** Lower-casing twice is lower-casing once. */
  lemma ToLowerIdempotent(s: string)
    ensures ToLower(ToLower(s)) == ToLower(s)
  {
  }
}
