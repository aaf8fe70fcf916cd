/** The few Python string operations the models share. */
module Strings {
  predicate Space(c: char) { c == ' ' || '\t' <= c <= '\r' }

  predicate Blank(s: string) { forall i | 0 <= i < |s| :: Space(s[i]) }

  function StripLeft(s: string): string {
    if s != [] && Space(s[0]) then StripLeft(s[1..]) else s
  }

  function Strip(s: string): string
    decreases |s|
  {
    if s != [] && Space(s[|s| - 1]) then Strip(s[..|s| - 1]) else StripLeft(s)
  }

  predicate EndsWith(s: string, end: string) { |end| <= |s| && s[|s| - |end|..] == end }

  function RemovePrefix(s: string, prefix: string): string {
    if prefix <= s then s[|prefix|..] else s
  }

  /** `stripped` is `s` without the blanks around it, from `i` up to `j`. */
  predicate StrippedAt(s: string, stripped: string, i: nat, j: nat) {
    && i <= j <= |s| && stripped == s[i..j] && Blank(s[..i]) && Blank(s[j..])
    && (i < j ==> !Space(s[i]) && !Space(s[j - 1]))
  }

  ghost predicate IsStripped(s: string, stripped: string) { exists i: nat, j: nat :: StrippedAt(s, stripped, i, j) }

  lemma {:induction false} StripLeftIs(s: string)
    ensures var n := |StripLeft(s)|;
            n <= |s| && StripLeft(s) == s[|s| - n..] && Blank(s[..|s| - n]) && (n > 0 ==> !Space(s[|s| - n]))
  {
    if s != [] && Space(s[0]) {
      StripLeftIs(s[1..]);
      var n := |StripLeft(s)|;
      assert s[1..][|s| - 1 - n..] == s[|s| - n..] && s[..|s| - n] == [s[0]] + s[1..][..|s| - 1 - n];
    }
  }

  lemma {:induction false} StripsAt(s: string) returns (i: nat, j: nat)
    ensures StrippedAt(s, Strip(s), i, j)
    decreases |s|
  {
    if s != [] && Space(s[|s| - 1]) {
      i, j := StripsAt(s[..|s| - 1]);
      BlankAtTheEnd(s, Strip(s), i, j);
    } else {
      StripLeftIs(s);
      i, j := |s| - |StripLeft(s)|, |s|;
      assert s[i..j] == s[i..];
    }
  }

  lemma BlankAtTheEnd(s: string, stripped: string, i: nat, j: nat)
    requires s != [] && Space(s[|s| - 1]) && StrippedAt(s[..|s| - 1], stripped, i, j)
    ensures StrippedAt(s, stripped, i, j)
  {
    var front := s[..|s| - 1];
    assert s[i..j] == front[i..j] && s[..i] == front[..i] && s[j..] == front[j..] + [s[|s| - 1]];
  }

  /** Stripping takes the blanks around a string and nothing else. */
  lemma StripIs(s: string)
    ensures IsStripped(s, Strip(s))
  {
    var i, j := StripsAt(s);
  }
}
