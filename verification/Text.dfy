/** The few string operations the sources rely on: white space, trimming, ASCII case. */
module Text {

  predicate IsSpace(c: char) {
    var n := c as int;
    9 <= n <= 13 || n in {32, 0x85, 0xA0, 0x1680, 0x2028, 0x2029, 0x202F, 0x205F, 0x3000} || 0x2000 <= n <= 0x200A
  }

  predicate IsBlank(s: string) {
    forall i :: 0 <= i < |s| ==> IsSpace(s[i])
  }

  function Trim(s: string): string {
    if s == "" then s
    else if IsSpace(s[0]) then Trim(s[1..])
    else if IsSpace(s[|s| - 1]) then Trim(s[..|s| - 1])
    else s
  }

  // A string is blank exactly when nothing is left of it after trimming.
  lemma {:induction false} BlankIff(s: string)
    ensures IsBlank(s) <==> Trim(s) == ""
    decreases |s|
  {
    if s == "" {
    } else if IsSpace(s[0]) {
      BlankIff(s[1..]);
    } else if IsSpace(s[|s| - 1]) {
      BlankIff(s[..|s| - 1]);
    }
  }

  function LowerChar(c: char): char {
    if 'A' <= c <= 'Z' then (c as int + 32) as char else c
  }

  function Lower(s: string): string {
    seq(|s|, i requires 0 <= i < |s| => LowerChar(s[i]))
  }

  predicate EqIgnoreCase(a: string, b: string) {
    Lower(a) == Lower(b)
  }

  lemma BlankJoin(a: string, b: string)
    requires IsBlank(a) && IsBlank(b)
    ensures IsBlank(a + b)
  {}

  // Trimming takes white space off both ends, all of it, and nothing else.
  lemma {:induction false} TrimIs(s: string) returns (before: string, after: string)
    ensures s == before + Trim(s) + after && IsBlank(before) && IsBlank(after)
    ensures Trim(s) != "" ==> !IsSpace(Trim(s)[0]) && !IsSpace(Trim(s)[|Trim(s)| - 1])
    decreases |s|
  {
    before, after := "", "";
    if s == "" {
    } else if IsSpace(s[0]) {
      before, after := TrimIs(s[1..]);
      BlankJoin(s[..1], before);
      before := s[..1] + before;
    } else if IsSpace(s[|s| - 1]) {
      before, after := TrimIs(s[..|s| - 1]);
      BlankJoin(after, s[|s| - 1..]);
      after := after + s[|s| - 1..];
    }
  }

  // The characters that Unicode counts as white space.
  const WHITE: string :=
    "\t\n\U{b}\U{c}\r \U{85}\U{a0}\U{1680}\U{2000}\U{2001}\U{2002}\U{2003}\U{2004}\U{2005}\U{2006}\U{2007}\U{2008}\U{2009}\U{200a}\U{2028}\U{2029}\U{202f}\U{205f}\U{3000}"

  lemma IsSpaceIff(c: char)
    ensures IsSpace(c) <==> c in WHITE
  {}

  // Lowering maps the 26 upper-case letters of ASCII to their lower-case ones, and no other
  // character.
  lemma LowerIs(c: char)
    ensures Lower("ABCDEFGHIJKLMNOPQRSTUVWXYZ") == "abcdefghijklmnopqrstuvwxyz"
    ensures c !in "ABCDEFGHIJKLMNOPQRSTUVWXYZ" ==> Lower([c]) == [c]
  {}
}
