/** Digits, white space, and texts with the white space around them trimmed. */
module Texts {

  predicate IsDigit(c: char) {
    '0' <= c <= '9'
  }

  predicate IsSpace(c: char) {
    c == ' ' || c == '\t' || c == '\n' || c == '\r'
  }

  function TrimLeft(s: string): string {
    if s != [] && IsSpace(s[0]) then TrimLeft(s[1..]) else s
  }

  function TrimRight(s: string): string {
    if s != [] && IsSpace(s[|s| - 1]) then TrimRight(s[..|s| - 1]) else s
  }

  function Trim(s: string): string {
    TrimRight(TrimLeft(s))
  }

  /** Blank, tab, line feed and carriage return. */
  predicate Blank(c: char) {
    c as int == 32 || c as int == 9 || c as int == 10 || c as int == 13
  }

  lemma {:induction false} TrimLeftCuts(s: string) returns (i: nat)
    ensures i <= |s| && TrimLeft(s) == s[i..] && (forall n :: 0 <= n < i ==> Blank(s[n]))
    ensures i < |s| ==> !Blank(s[i])
  {
    i := 0;
    if s != [] && IsSpace(s[0]) {
      var j := TrimLeftCuts(s[1..]);
      i := j + 1;
    }
  }

  lemma {:induction false} TrimRightCuts(s: string) returns (j: nat)
    ensures j <= |s| && TrimRight(s) == s[..j] && (forall n :: j <= n < |s| ==> Blank(s[n]))
    ensures j > 0 ==> !Blank(s[j - 1])
  {
    j := |s|;
    if s != [] && IsSpace(s[|s| - 1]) {
      j := TrimRightCuts(s[..|s| - 1]);
    }
  }

  /** Trimming cuts off exactly the blanks at both ends. */
  lemma TrimCuts(s: string) returns (i: nat, j: nat)
    ensures i <= j <= |s| && Trim(s) == s[i..j]
    ensures forall n :: 0 <= n < i || j <= n < |s| ==> Blank(s[n])
    ensures i < j ==> !Blank(s[i]) && !Blank(s[j - 1])
  {
    i := TrimLeftCuts(s);
    var rest := s[i..];
    var k := TrimRightCuts(rest);
    j := i + k;
    forall n | j <= n < |s|
      ensures Blank(s[n])
    {
      assert s[n] == rest[n - i];
    }
  }
}
