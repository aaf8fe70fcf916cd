/**
 The glossary check's words (scripts/check_glossary_words.py): an identifier in
 any style is cut into lower-case words, and a phrase is looked for among them.
 */
module GlossaryWords {
  import opened Decimals

  predicate IsLower(c: char) { 'a' <= c <= 'z' }
  predicate IsUpper(c: char) { 'A' <= c <= 'Z' }

  function Lower(c: char): char { if IsUpper(c) then c + 32 as char else c }
  function Upper(c: char): char { if IsLower(c) then c - 32 as char else c }

  function LowerAll(s: string): string { seq(|s|, i requires 0 <= i < |s| => Lower(s[i])) }
  function UpperAll(s: string): string { seq(|s|, i requires 0 <= i < |s| => Upper(s[i])) }

  /** How many leading characters are of a kind. */
  function Run(kind: char -> bool, s: string): (n: nat)
    ensures n <= |s| && (forall i | 0 <= i < n :: kind(s[i])) && (n < |s| ==> !kind(s[n]))
  {
    if s != [] && kind(s[0]) then 1 + Run(kind, s[1..]) else 0
  }

  /** The length of what `[A-Z]?[a-z]+|[A-Z]+(?![a-z])|\d+` matches at the start of `s`; 0 for no match. */
  function WordAt(s: string): (n: nat)
    ensures n <= |s|
  {
    if s == [] then 0
    else if IsLower(s[0]) then Run(IsLower, s)
    else if IsUpper(s[0]) then
      if |s| > 1 && IsLower(s[1]) then 1 + Run(IsLower, s[1..])
      else
        var n := Run(IsUpper, s);
        if n < |s| && IsLower(s[n]) then n - 1 else n
    else Run(IsDigit, s)
  }

  function Words(s: string): seq<string>
    decreases |s|
  {
    if s == [] then []
    else if WordAt(s) == 0 then Words(s[1..])
    else [LowerAll(s[..WordAt(s)])] + Words(s[WordAt(s)..])
  }

  /** `" ".join(words)` between spaces, as the search sees it. */
  function Said(words: seq<string>): string { " " + Joined(' ', words) + " " }

  function Joined(mark: char, words: seq<string>): string {
    if words == [] then "" else if |words| == 1 then words[0] else words[0] + ([mark] + Joined(mark, words[1..]))
  }

  predicate At<T(==)>(part: seq<T>, whole: seq<T>, k: nat) {
    k + |part| <= |whole| && whole[k..k + |part|] == part
  }

  /** `part` stands somewhere in `whole`. */
  ghost predicate Within<T>(part: seq<T>, whole: seq<T>) { exists k: nat :: At(part, whole, k) }

  /** What the check asks of an added line. */
  ghost predicate Holds(line: string, phrase: string) { Within(Said(Words(phrase)), Said(Words(line))) }

  // ------------------------------------------------------------- renderings

  predicate LowerWord(w: string) { w != [] && forall i | 0 <= i < |w| :: IsLower(w[i]) }

  predicate LowerWords(ws: seq<string>) { forall i | 0 <= i < |ws| :: LowerWord(ws[i]) }

  function Capital(w: string): string
    requires w != []
  {
    [Upper(w[0])] + w[1..]
  }

  function Shouted(ws: seq<string>): seq<string> { seq(|ws|, i requires 0 <= i < |ws| => UpperAll(ws[i])) }

  function Pascal(ws: seq<string>): string
    requires LowerWords(ws)
  {
    if ws == [] then "" else Capital(ws[0]) + Pascal(ws[1..])
  }

  function Camel(ws: seq<string>): string
    requires LowerWords(ws)
  {
    if ws == [] then "" else ws[0] + Pascal(ws[1..])
  }

  predicate TwoSingles(ws: seq<string>, i: nat) { i + 1 < |ws| && |ws[i]| == 1 && |ws[i + 1]| == 1 }

  predicate SinglesApart(ws: seq<string>) { forall i | 0 <= i < |ws| :: !TwoSingles(ws, i) }

  datatype Style = SnakeStyle | KebabStyle | ShoutedStyle | CamelStyle | PascalStyle

  function Rendered(style: Style, ws: seq<string>): string
    requires LowerWords(ws)
  {
    match style
    case SnakeStyle => Joined('_', ws)
    case KebabStyle => Joined('-', ws)
    case ShoutedStyle => Joined('_', Shouted(ws))
    case CamelStyle => Camel(ws)
    case PascalStyle => Pascal(ws)
  }

  // ------------------------------------------------------------- round trips

  lemma {:induction false} RunIs(kind: char -> bool, s: string, rest: string)
    requires forall i | 0 <= i < |s| :: kind(s[i])
    requires rest == [] || !kind(rest[0])
    ensures Run(kind, s + rest) == |s|
  {
    if s == [] {
      assert s + rest == rest;
    } else {
      RunIs(kind, s[1..], rest);
      assert (s + rest)[1..] == s[1..] + rest;
    }
  }

  lemma LowerOfUpper(w: string)
    requires forall i | 0 <= i < |w| :: IsLower(w[i])
    ensures LowerAll(w) == w && LowerAll(UpperAll(w)) == w && (w != [] ==> LowerAll(Capital(w)) == w)
    ensures |UpperAll(w)| == |w| && forall i | 0 <= i < |w| :: IsUpper(UpperAll(w)[i])
  {}

  /** The next match is `s`, whatever case it is in. */
  lemma Takes(s: string, rest: string)
    requires s != [] && WordAt(s + rest) == |s|
    ensures Words(s + rest) == [LowerAll(s)] + Words(rest)
  {
    assert (s + rest)[..|s|] == s && (s + rest)[|s|..] == rest;
  }

  lemma TakesLower(w: string, rest: string)
    requires LowerWord(w) && (rest == [] || !IsLower(rest[0]))
    ensures Words(w + rest) == [w] + Words(rest)
  {
    RunIs(IsLower, w, rest);
    Takes(w, rest);
    LowerOfUpper(w);
  }

  lemma TakesUpper(w: string, rest: string)
    requires LowerWord(w) && (rest == [] || (!IsLower(rest[0]) && !IsUpper(rest[0])))
    ensures Words(UpperAll(w) + rest) == [w] + Words(rest)
  {
    var u := UpperAll(w);
    LowerOfUpper(w);
    RunIs(IsUpper, u, rest);
    assert |u + rest| > 1 ==> (u + rest)[1] == if |u| > 1 then u[1] else rest[0];
    Takes(u, rest);
  }

  lemma SkipsMark(mark: char, rest: string)
    requires mark == '_' || mark == '-'
    ensures Words([mark] + rest) == Words(rest)
  {
    assert ([mark] + rest)[1..] == rest;
  }

  lemma {:induction false} LowerRoundTrip(mark: char, ws: seq<string>)
    requires LowerWords(ws) && (mark == '_' || mark == '-')
    ensures Words(Joined(mark, ws)) == ws
  {
    if ws != [] {
      var w, rest := ws[0], ws[1..];
      LowerRoundTrip(mark, rest);
      assert ws == [w] + rest;
      if rest == [] {
        TakesLower(w, "");
        assert w + "" == w;
      } else {
        TakesLower(w, [mark] + Joined(mark, rest));
        SkipsMark(mark, Joined(mark, rest));
      }
    }
  }

  lemma {:induction false} UpperRoundTrip(mark: char, ws: seq<string>)
    requires LowerWords(ws) && (mark == '_' || mark == '-')
    ensures Words(Joined(mark, Shouted(ws))) == ws
  {
    if ws != [] {
      var w, rest := ws[0], ws[1..];
      UpperRoundTrip(mark, rest);
      assert Shouted(ws)[0] == UpperAll(w) && Shouted(ws)[1..] == Shouted(rest);
      assert ws == [w] + rest;
      if rest == [] {
        TakesUpper(w, "");
        assert UpperAll(w) + "" == UpperAll(w);
      } else {
        TakesUpper(w, [mark] + Joined(mark, Shouted(rest)));
        SkipsMark(mark, Joined(mark, Shouted(rest)));
      }
    }
  }

  lemma JoinedRoundTrip(mark: char, ws: seq<string>)
    requires LowerWords(ws) && (mark == '_' || mark == '-')
    ensures Words(Joined(mark, ws)) == ws && Words(Joined(mark, Shouted(ws))) == ws
  {
    LowerRoundTrip(mark, ws);
    UpperRoundTrip(mark, ws);
  }

  // ---------------------------------------------------------------- capitals

  /** How many one-letter words `ws` starts with. */
  function Singles(ws: seq<string>): (n: nat)
    ensures n <= |ws| && (forall i | 0 <= i < n :: |ws[i]| == 1) && (n < |ws| ==> |ws[n]| != 1)
  {
    if ws != [] && |ws[0]| == 1 then 1 + Singles(ws[1..]) else 0
  }

  function Glued(ws: seq<string>): string { if ws == [] then "" else ws[0] + Glued(ws[1..]) }

  /** Each run of one-letter words as one word: what capitals cannot keep apart. */
  function SinglesMerged(ws: seq<string>): seq<string>
    decreases |ws|
  {
    if ws == [] then []
    else if Singles(ws) == 0 then [ws[0]] + SinglesMerged(ws[1..])
    else [Glued(ws[..Singles(ws)])] + SinglesMerged(ws[Singles(ws)..])
  }

  lemma CapitalMatch(w: string, rest: string)
    requires LowerWord(w) && |w| > 1 && (rest == [] || !IsLower(rest[0]))
    ensures WordAt(Capital(w) + rest) == |w|
  {
    var s := Capital(w) + rest;
    RunIs(IsLower, w[1..], rest);
    assert s[1..] == w[1..] + rest && s[1] == w[1];
  }

  lemma TakesCapital(w: string, rest: string)
    requires LowerWord(w) && |w| > 1 && (rest == [] || !IsLower(rest[0]))
    ensures Words(Capital(w) + rest) == [w] + Words(rest)
  {
    CapitalMatch(w, rest);
    Takes(Capital(w), rest);
    LowerOfUpper(w);
  }

  lemma SinglesMatch(u: string, rest: string)
    requires u != [] && (forall i | 0 <= i < |u| :: IsUpper(u[i]))
    requires |rest| > 1 && IsUpper(rest[0]) && IsLower(rest[1])
    ensures WordAt(u + rest) == |u|
  {
    var s := u + rest;
    RunIs(IsUpper, u + [rest[0]], rest[1..]);
    assert s == (u + [rest[0]]) + rest[1..];
    assert s[1] == (if |u| > 1 then u[1] else rest[0]) && s[|u| + 1] == rest[1];
  }

  /** One-letter words are capitals in a row, which are one match even before a capitalised word. */
  lemma TakesSingles(letters: string, rest: string)
    requires LowerWord(letters)
    requires rest == [] || (|rest| > 1 && IsUpper(rest[0]) && IsLower(rest[1]))
    ensures Words(UpperAll(letters) + rest) == [letters] + Words(rest)
  {
    var u := UpperAll(letters);
    LowerOfUpper(letters);
    if rest == [] {
      TakesUpper(letters, rest);
    } else {
      SinglesMatch(u, rest);
      Takes(u, rest);
    }
  }

  lemma {:induction false} PascalShape(ws: seq<string>)
    requires LowerWords(ws)
    ensures (Pascal(ws) == [] <==> ws == []) && (ws != [] ==> IsUpper(Pascal(ws)[0]))
    ensures ws != [] && |ws[0]| > 1 ==> |Pascal(ws)| > 1 && IsLower(Pascal(ws)[1])
  {}

  lemma {:induction false} GluedSingles(ws: seq<string>, n: nat)
    requires LowerWords(ws) && n <= |ws| && forall i | 0 <= i < n :: |ws[i]| == 1
    ensures |Glued(ws[..n])| == n && (n > 0 ==> LowerWord(Glued(ws[..n])))
    ensures Pascal(ws) == UpperAll(Glued(ws[..n])) + Pascal(ws[n..])
  {
    if n == 0 {
      assert ws[..0] == [] && ws[0..] == ws && UpperAll("") + Pascal(ws) == Pascal(ws);
    } else {
      GluedSingles(ws[1..], n - 1);
      assert ws[1..][..n - 1] == ws[..n][1..] && ws[1..][n - 1..] == ws[n..];
      assert Capital(ws[0]) == UpperAll(ws[0]);
      UpperInTurn(ws[0], Glued(ws[..n][1..]));
      JoinThree(UpperAll(ws[0]), UpperAll(Glued(ws[..n][1..])), Pascal(ws[n..]));
    }
  }

  lemma UpperInTurn(a: string, b: string)
    ensures UpperAll(a + b) == UpperAll(a) + UpperAll(b)
  {}

  lemma JoinThree(a: string, b: string, c: string)
    ensures a + (b + c) == (a + b) + c
  {}

  /** Capitalised and run together, words come back with their runs of one-letter words merged. */
  lemma {:induction false} PascalMergesSingles(ws: seq<string>)
    requires LowerWords(ws)
    ensures Words(Pascal(ws)) == SinglesMerged(ws)
    decreases |ws|
  {
    if ws == [] {
    } else if Singles(ws) == 0 {
      PascalShape(ws[1..]);
      PascalMergesSingles(ws[1..]);
      TakesCapital(ws[0], Pascal(ws[1..]));
    } else {
      var n := Singles(ws);
      PascalMergesSingles(ws[n..]);
      GluedSingles(ws, n);
      PascalShape(ws[n..]);
      TakesSingles(Glued(ws[..n]), Pascal(ws[n..]));
    }
  }

  lemma {:induction false} MergingKeeps(ws: seq<string>)
    requires LowerWords(ws)
    ensures |SinglesMerged(ws)| <= |ws|
    ensures SinglesMerged(ws) == ws <==> SinglesApart(ws)
    decreases |ws|
  {
    if ws != [] {
      var n := Singles(ws);
      if n <= 1 {
        MergingKeeps(ws[1..]);
        assert ws == [ws[0]] + ws[1..];
        if n == 1 {
          assert ws[..1] == [ws[0]] && [ws[0]][1..] == [] && ws[0] + "" == ws[0];
          assert Glued(ws[..1]) == ws[0];
        }
        ApartFromHead(ws);
      } else {
        MergingKeeps(ws[n..]);
        assert TwoSingles(ws, 0);
      }
    }
  }

  lemma ApartFromHead(ws: seq<string>)
    requires ws != []
    ensures SinglesApart(ws) <==> !TwoSingles(ws, 0) && SinglesApart(ws[1..])
  {
    var rest := ws[1..];
    forall i | 0 <= i < |rest| ensures TwoSingles(rest, i) <==> TwoSingles(ws, i + 1) {}
    forall i | 0 < i < |ws| ensures TwoSingles(ws, i) <==> TwoSingles(rest, i - 1) {}
  }

  /** Every style gives its words back; capitals alone exactly when no two one-letter words they
      start are neighbours. */
  lemma StylesRoundTrip(style: Style, ws: seq<string>)
    requires LowerWords(ws)
    ensures style.SnakeStyle? || style.KebabStyle? || style.ShoutedStyle? ==> Words(Rendered(style, ws)) == ws
    ensures style.PascalStyle? ==> (Words(Rendered(style, ws)) == ws <==> SinglesApart(ws))
    ensures style.CamelStyle? ==> (Words(Rendered(style, ws)) == ws <==> ws == [] || SinglesApart(ws[1..]))
  {
    JoinedRoundTrip('_', ws);
    JoinedRoundTrip('-', ws);
    PascalMergesSingles(ws);
    MergingKeeps(ws);
    if ws != [] {
      PascalShape(ws[1..]);
      PascalMergesSingles(ws[1..]);
      MergingKeeps(ws[1..]);
      TakesLower(ws[0], Pascal(ws[1..]));
      assert ws == [ws[0]] + ws[1..];
    }
  }

  lemma TakesDigits(digits: string, rest: string)
    requires digits != [] && (forall i | 0 <= i < |digits| :: IsDigit(digits[i])) && (rest == [] || !IsDigit(rest[0]))
    ensures Words(digits + rest) == [digits] + Words(rest)
  {
    RunIs(IsDigit, digits, rest);
    Takes(digits, rest);
    assert LowerAll(digits) == digits;
  }

  lemma NumberThenWord(n: nat, w: string)
    requires LowerWord(w)
    ensures Words(Decimal(n) + w) == [Decimal(n), w]
  {
    TakesDigits(Decimal(n), w);
    TakesLower(w, "");
    assert w + "" == w && [w] + Words("") == [w];
  }

  lemma WordThenNumber(w: string, n: nat)
    requires LowerWord(w)
    ensures Words(w + Decimal(n)) == [w, Decimal(n)]
  {
    TakesLower(w, Decimal(n));
    TakesDigits(Decimal(n), "");
    assert Decimal(n) + "" == Decimal(n) && [Decimal(n)] + Words("") == [Decimal(n)];
  }

  /** A number is a word of its own, whether letters come before it or after. */
  lemma NumbersAreWords(w: string, n: nat)
    requires LowerWord(w)
    ensures Words(w + Decimal(n)) == [w, Decimal(n)] && Words(Decimal(n) + w) == [Decimal(n), w]
  {
    WordThenNumber(w, n);
    NumberThenWord(n, w);
  }

  // ------------------------------------------------------------- the search

  predicate Solid(w: string) { w != [] && ' ' !in w }

  predicate AllSolid(ws: seq<string>) { forall i | 0 <= i < |ws| :: Solid(ws[i]) }

  /** A space before each word and one at the end. */
  function Spaced(ws: seq<string>): string { if ws == [] then " " else " " + (ws[0] + Spaced(ws[1..])) }

  lemma {:induction false} SaidIsSpaced(ws: seq<string>)
    requires ws != []
    ensures Said(ws) == Spaced(ws)
  {
    if |ws| > 1 {
      SaidIsSpaced(ws[1..]);
      assert Said(ws) == " " + (ws[0] + Said(ws[1..]));
    } else {
      assert ws[1..] == [];
    }
  }

  lemma SameFirstWord(a: string, x: string, b: string, y: string)
    requires ' ' !in a && ' ' !in b && a + ([' '] + x) <= b + ([' '] + y)
    ensures a == b && x <= y
  {
    var s, t := a + ([' '] + x), b + ([' '] + y);
    assert s[|a|] == ' ' && forall i | 0 <= i < |b| :: t[i] == b[i];
    assert t[|b|] == ' ' && forall i | 0 <= i < |a| :: t[i] == s[i] == a[i];
    assert t[..|a|] == a && t[..|b|] == b;
    assert s[|a| + 1..] == x && t[|b| + 1..] == y && s[|a| + 1..] == t[|a| + 1..|s|];
  }

  lemma {:induction false} PrefixWords(part: seq<string>, whole: seq<string>)
    requires AllSolid(part) && AllSolid(whole)
    ensures Spaced(part) <= Spaced(whole) <==> part <= whole
  {
    if part == [] {
      assert Spaced(whole)[0] == ' ';
    } else if whole != [] {
      PrefixWords(part[1..], whole[1..]);
      var x, y := Spaced(part[1..]), Spaced(whole[1..]);
      assert part == [part[0]] + part[1..] && whole == [whole[0]] + whole[1..];
      assert x == [' '] + x[1..] && y == [' '] + y[1..];
      if Spaced(part) <= Spaced(whole) {
        assert Spaced(part)[1..] == part[0] + x && Spaced(whole)[1..] == whole[0] + y;
        assert Spaced(part)[1..] <= Spaced(whole)[1..];
        SameFirstWord(part[0], x[1..], whole[0], y[1..]);
      }
    }
  }

  lemma MatchInTail<T>(part: seq<T>, head: seq<T>, tail: seq<T>, k: nat)
    ensures At(part, head + tail, |head| + k) <==> At(part, tail, k)
  {
    if k + |part| <= |tail| { assert (head + tail)[|head| + k..|head| + k + |part|] == tail[k..k + |part|]; }
  }

  /** A match is at the start, or one in the tail, when none starts elsewhere in the head. */
  lemma MatchesSplit<T>(part: seq<T>, head: seq<T>, tail: seq<T>)
    requires forall k | 0 < k < |head| :: !At(part, head + tail, k)
    requires head != []
    ensures Within(part, head + tail) <==> At(part, head + tail, 0) || Within(part, tail)
  {
    if Within(part, head + tail) {
      var k: nat :| At(part, head + tail, k);
      if k >= |head| { MatchInTail(part, head, tail, k - |head|); }
    }
    if Within(part, tail) {
      var k: nat :| At(part, tail, k);
      MatchInTail(part, head, tail, k);
    }
  }

  /** A match of whole words starts at a space, so at the first one or in the rest. */
  lemma {:induction false} SpacedWithin(part: seq<string>, whole: seq<string>)
    requires part != [] && AllSolid(part) && AllSolid(whole)
    ensures Within(Spaced(part), Spaced(whole)) <==> Within(part, whole)
  {
    var p := Spaced(part);
    assert p[0] == ' ';
    if whole == [] {
      assert |p| > 1;
    } else {
      var head, tail := " " + whole[0], Spaced(whole[1..]);
      assert Spaced(whole) == head + tail && whole == [whole[0]] + whole[1..];
      SpacedWithin(part, whole[1..]);
      PrefixWords(part, whole);
      StartsOnlyAtASpace(p, whole[0], tail);
      MatchesSplit(p, head, tail);
      MatchesSplit(part, [whole[0]], whole[1..]);
      MatchAtStart(p, Spaced(whole));
      MatchAtStart(part, whole);
    }
  }

  lemma MatchAtStart<T>(part: seq<T>, whole: seq<T>)
    ensures At(part, whole, 0) <==> part <= whole
  {}

  lemma StartsOnlyAtASpace(p: string, word: string, tail: string)
    requires p != [] && p[0] == ' ' && ' ' !in word
    ensures forall k | 0 < k < |word| + 1 :: !At(p, (" " + word) + tail, k)
  {
    var s := (" " + word) + tail;
    forall k | 0 < k < |word| + 1 ensures !At(p, s, k) {
      assert s[k] == word[k - 1];
      if k + |p| <= |s| { assert s[k..k + |p|][0] == s[k]; }
    }
  }

  lemma {:induction false} WordsAreSolid(s: string)
    ensures AllSolid(Words(s))
    decreases |s|
  {
    if s != [] {
      var n := WordAt(s);
      WordsAreSolid(s[if n == 0 then 1 else n..]);
      assert forall i | 0 <= i < n :: s[i] != ' ';
    }
  }

  lemma {:induction false} NoGapIn(ws: seq<string>)
    requires ws != [] && AllSolid(ws)
    ensures forall k | 0 <= k < |Spaced(ws)| - 1 :: !(Spaced(ws)[k] == ' ' && Spaced(ws)[k + 1] == ' ')
  {
    var rest := Spaced(ws[1..]);
    var s := " " + (ws[0] + rest);
    if ws[1..] != [] { NoGapIn(ws[1..]); }
    assert rest[0] == ' ';
    forall k | 0 <= k < |s| - 1 ensures !(s[k] == ' ' && s[k + 1] == ' ') {
      if k >= 1 + |ws[0]| { assert s[k] == rest[k - 1 - |ws[0]|] && s[k + 1] == rest[k - |ws[0]|]; }
    }
  }

  /** The check finds a phrase in a line exactly when its words are neighbours there, in order. A
      phrase without words is found in the lines without words, and in no other. */
  lemma PhraseIsFound(line: string, phrase: string)
    ensures Holds(line, phrase) <==>
            if Words(phrase) == [] then Words(line) == [] else Within(Words(phrase), Words(line))
  {
    var p, s := Words(phrase), Words(line);
    WordsAreSolid(phrase);
    WordsAreSolid(line);
    if p != [] { SaidIsSpaced(p); }
    if s != [] { SaidIsSpaced(s); }
    if p != [] && s != [] {
      SpacedWithin(p, s);
    } else if p != [] {
      assert |Spaced(p)| > 2;
    } else if s != [] {
      NoGapIn(s);
      assert |Said(p)| == 2 && Said(p)[0] == ' ' && Said(p)[1] == ' ';
      forall k: nat | k + 2 <= |Said(s)| ensures !At(Said(p), Said(s), k) {
        assert Said(s)[k..k + 2][0] == Said(s)[k] && Said(s)[k..k + 2][1] == Said(s)[k + 1];
      }
    } else {
      assert At(Said(p), Said(s), 0);
    }
  }

  /** What is heard of words written in a style. */
  function Heard(style: Style, ws: seq<string>): seq<string> {
    match style
    case PascalStyle => SinglesMerged(ws)
    case CamelStyle => if ws == [] then [] else [ws[0]] + SinglesMerged(ws[1..])
    case _ => ws
  }

  lemma RenderedIsHeard(style: Style, ws: seq<string>)
    requires LowerWords(ws)
    ensures Words(Rendered(style, ws)) == Heard(style, ws)
    ensures Heard(style, ws) == [] <==> ws == []
  {
    JoinedRoundTrip('_', ws);
    JoinedRoundTrip('-', ws);
    PascalMergesSingles(ws);
    if ws != [] {
      PascalShape(ws[1..]);
      PascalMergesSingles(ws[1..]);
      TakesLower(ws[0], Pascal(ws[1..]));
    }
  }

  /** A checked phrase is found in an identifier of any style, whatever style it is itself written in,
      exactly when what is heard of the phrase stands in a row in what is heard of the identifier; that
      is the words themselves wherever no style merges any. */
  lemma AnyStyleIsFound(style: Style, ws: seq<string>, other: Style, phrase: seq<string>)
    requires LowerWords(ws) && LowerWords(phrase)
    ensures Holds(Rendered(style, ws), Rendered(other, phrase)) <==>
            if phrase == [] then ws == [] else Within(Heard(other, phrase), Heard(style, ws))
    ensures SinglesApart(ws) ==> Heard(style, ws) == ws
    ensures SinglesApart(phrase) ==> Heard(other, phrase) == phrase
  {
    RenderedIsHeard(style, ws);
    RenderedIsHeard(other, phrase);
    PhraseIsFound(Rendered(style, ws), Rendered(other, phrase));
    ApartIsHeard(style, ws);
    ApartIsHeard(other, phrase);
  }

  lemma ApartIsHeard(style: Style, ws: seq<string>)
    requires LowerWords(ws)
    ensures SinglesApart(ws) ==> Heard(style, ws) == ws
  {
    MergingKeeps(ws);
    if ws != [] {
      ApartFromHead(ws);
      MergingKeeps(ws[1..]);
      assert ws == [ws[0]] + ws[1..];
    }
  }
}
