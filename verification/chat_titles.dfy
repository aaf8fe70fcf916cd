/**
 What a chat made of a summary says, field by field, and its title: the label it had, or
 the first thing its user said, with single spaces between the words.
 */
module ChatTitles {
  import opened Options
  import opened Strings
  import opened ChatBackfill
  import opened ChatBackfillLaws

  // ------------------------------------------------------------------- words

  /** How many characters there are before the first blank. */
  function WordRun(s: string): (n: nat)
    ensures n <= |s| && (forall i | 0 <= i < n :: !Space(s[i])) && (n < |s| ==> Space(s[n]))
  {
    if s != [] && !Space(s[0]) then 1 + WordRun(s[1..]) else 0
  }

  /** `s.split()`. */
  function WordsOf(s: string): seq<string>
    decreases |s|
  {
    if s == [] then []
    else if Space(s[0]) then WordsOf(s[1..])
    else [s[..WordRun(s)]] + WordsOf(s[WordRun(s)..])
  }

  /** `" ".join(words)`. */
  function Spaced(words: seq<string>): string {
    if words == [] then "" else if |words| == 1 then words[0] else words[0] + (" " + Spaced(words[1..]))
  }

  predicate NoSpace(w: string) { forall i | 0 <= i < |w| :: !Space(w[i]) }

  lemma {:induction false} CollapseWord(w: string, rest: string)
    requires NoSpace(w)
    ensures Collapse(w + rest) == w + Collapse(rest)
  {
    if w == "" {
      assert w + rest == rest;
    } else {
      CollapseWord(w[1..], rest);
      assert (w + rest)[1..] == w[1..] + rest && [w[0]] + (w[1..] + Collapse(rest)) == w + Collapse(rest);
    }
  }

  lemma BlankAfter(s: string)
    requires s != [] && Space(s[0])
    ensures Blank(s[1..]) <==> Blank(s)
  {
    var rest := s[1..];
    assert forall i | 0 <= i < |rest| :: rest[i] == s[i + 1];
  }

  lemma {:induction false} StripLeftKeepsTheEnd(s: string)
    requires s != [] && Space(s[0]) && !Blank(s)
    ensures StripLeft(s) != [] && !Space(StripLeft(s)[0]) && |StripLeft(s)| < |s|
    ensures s[|s| - 1] == StripLeft(s)[|StripLeft(s)| - 1]
  {
    BlankAfter(s);
    if Space(s[1]) { StripLeftKeepsTheEnd(s[1..]); }
  }

  lemma {:induction false} CollapseGap(s: string)
    requires s != [] && Space(s[0]) && !Blank(s)
    ensures Collapse(s) == " " + Collapse(StripLeft(s))
  {
    BlankAfter(s);
    if Space(s[1]) { CollapseGap(s[1..]); }
  }

  lemma {:induction false} WordsAfterGap(s: string)
    ensures WordsOf(s) == WordsOf(StripLeft(s))
  {
    if s != [] && Space(s[0]) { WordsAfterGap(s[1..]); }
  }

  lemma WordThen(s: string)
    requires s != [] && !Space(s[0])
    ensures var n := WordRun(s);
            n > 0 && NoSpace(s[..n]) && s == s[..n] + s[n..] && WordsOf(s) == [s[..n]] + WordsOf(s[n..])
  {}

  lemma {:induction false} CollapseJoins(s: string)
    requires s != [] && !Space(s[0]) && !Space(s[|s| - 1])
    ensures Collapse(s) == Spaced(WordsOf(s))
    decreases |s|
  {
    var n := WordRun(s);
    var w, rest := s[..n], s[n..];
    WordThen(s);
    CollapseWord(w, rest);
    if rest == [] {
      assert WordsOf(s) == [w] && w + "" == w;
    } else {
      assert rest[|rest| - 1] == s[|s| - 1] && Space(rest[0]);
      var next := StripLeft(rest);
      StripLeftKeepsTheEnd(rest);
      CollapseGap(rest);
      WordsAfterGap(rest);
      CollapseJoins(next);
      WordThen(next);
      assert WordsOf(s)[1..] == WordsOf(next);
    }
  }

  lemma {:induction false} BlankHasNoWords(s: string)
    requires Blank(s)
    ensures WordsOf(s) == []
  {
    if s != [] { BlankHasNoWords(s[1..]); }
  }

  lemma {:induction false} LeadingBlanks(a: string, s: string)
    requires Blank(a)
    ensures WordsOf(a + s) == WordsOf(s)
  {
    if a == [] {
      assert a + s == s;
    } else {
      LeadingBlanks(a[1..], s);
      assert (a + s)[1..] == a[1..] + s;
    }
  }

  lemma {:induction false} WordRunInto(s: string, b: string)
    requires Blank(b)
    ensures WordRun(s + b) == WordRun(s)
  {
    if s == [] {
      assert s + b == b;
    } else if !Space(s[0]) {
      WordRunInto(s[1..], b);
      assert (s + b)[1..] == s[1..] + b;
    }
  }

  lemma {:induction false} TrailingBlanks(s: string, b: string)
    requires Blank(b)
    ensures WordsOf(s + b) == WordsOf(s)
    decreases |s|
  {
    if s == [] {
      assert s + b == b;
      BlankHasNoWords(b);
    } else if Space(s[0]) {
      TrailingBlanks(s[1..], b);
      assert (s + b)[1..] == s[1..] + b;
    } else {
      var n := WordRun(s);
      WordRunInto(s, b);
      TrailingBlanks(s[n..], b);
      assert (s + b)[n..] == s[n..] + b && (s + b)[..n] == s[..n];
    }
  }

  lemma StrippedToNothing(s: string, i: nat, j: nat)
    requires StrippedAt(s, Strip(s), i, j)
    ensures i == j <==> Blank(s)
  {
    if i == j { assert s == s[..i] + s[j..]; }
  }

  /** Collapsed text is its words with one space between each two. */
  lemma CollapsedIs(s: string)
    requires !Blank(s)
    ensures Strip(s) != "" && Collapse(Strip(s)) == Spaced(WordsOf(s))
  {
    var i, j := StripsAt(s);
    var inner := s[i..j];
    StrippedToNothing(s, i, j);
    assert s == s[..i] + (inner + s[j..]);
    LeadingBlanks(s[..i], inner + s[j..]);
    TrailingBlanks(inner, s[j..]);
    CollapseJoins(inner);
  }

  lemma BlankStrips(s: string)
    ensures Strip(s) == "" <==> Blank(s)
  {
    var i, j := StripsAt(s);
    StrippedToNothing(s, i, j);
  }

  // ------------------------------------------------------------------- titles

  predicate SaysSomething(m: Message) { m.role == "user" && !Blank(m.text) }

  /** The title made of a transcript: what its user first says, cut to 80 characters with an ellipsis. */
  ghost predicate TitleOfTurns(turns: seq<Message>, title: string) {
    if forall i | 0 <= i < |turns| :: !SaysSomething(turns[i]) then title == ""
    else
      exists i: nat :: i < |turns| && FirstSaid(turns, i) && CutTo80(Spaced(WordsOf(turns[i].text)), title)
  }

  predicate FirstSaid(turns: seq<Message>, i: nat)
    requires i < |turns|
  {
    SaysSomething(turns[i]) && forall j | 0 <= j < i :: !SaysSomething(turns[j])
  }

  predicate CutTo80(full: string, title: string) {
    if |full| <= 80 then title == full else |title| == 80 && title[..79] == full[..79] && title[79] == '\U{2026}'
  }

  lemma {:induction false} TitleIsDerived(turns: seq<Message>)
    ensures TitleOfTurns(turns, DerivedTitle(turns))
  {
    if turns != [] {
      BlankStrips(turns[0].text);
      if SaysSomething(turns[0]) {
        CollapsedIs(turns[0].text);
        assert FirstSaid(turns, 0);
      } else {
        var rest := turns[1..];
        TitleIsDerived(rest);
        assert forall i | 0 <= i < |rest| :: rest[i] == turns[i + 1];
        if i: nat :| i < |rest| && FirstSaid(rest, i) && CutTo80(Spaced(WordsOf(rest[i].text)), DerivedTitle(rest)) {
          assert FirstSaid(turns, i + 1);
        }
        if i :| 0 <= i < |turns| && SaysSomething(turns[i]) { assert SaysSomething(rest[i - 1]); }
      }
    }
  }

  /** What a chat says of the summary it is made of, and of its transcript. */
  ghost predicate Tells(s: Summary, turns: seq<Message>, chat: Chat) {
    && chat.owner == s.owner && chat.scope == s.scope && chat.language == s.language && chat.model == s.model
    && chat.mode == "full_scope" && chat.postCount == s.postCount && chat.timestamp == s.timestamp
    && chat.messages == turns && chat.messageCount == |turns|
    && chat.extra == (if "Chat: " <= s.text then s.extra else map[])
    && if "Chat: " <= s.text && !Blank(s.text[6..]) then IsStripped(s.text[6..], chat.title)
       else TitleOfTurns(turns, chat.title)
  }

  lemma ChatTells(s: Summary, turns: seq<Message>)
    ensures Tells(s, turns, ChatOf(s, turns))
  {
    TitleIsDerived(turns);
    if "Chat: " <= s.text {
      BlankStrips(s.text[6..]);
      StripIs(s.text[6..]);
    }
  }

  // -------------------------------------------------------------------- walks

  /** The id a summary's chat gets: its own when it was only the chat. */
  function IdOfChat(id: string, s: Summary): string { if "Chat: " <= s.text then id else id + ":chat" }

  /** Every chat a walk adds is made of one of its summaries, under the id that gives, and tells all of it. */
  lemma {:induction false} ChatsTellTheirSummaries(db: Tables, counts: Counts, ids: seq<string>, c: string)
    requires Listed(db, ids) && c in Visits(db, counts, ids).0.chats && c !in db.chats
    ensures exists x | x in ids ::
              && x in db.summaries && x in db.payloads && db.payloads[x].messages.Turns?
                 && c == IdOfChat(x, db.summaries[x])
              && Tells(db.summaries[x], db.payloads[x].messages.turns, Visits(db, counts, ids).0.chats[c])
    decreases |ids|
  {
    var n := |ids| - 1;
    var (before, sofar) := Visits(db, counts, ids[..n]);
    LastRowUntouched(db, counts, ids);
    assert ids[n] in ids;
    if c in before.chats {
      ChatsTellTheirSummaries(db, counts, ids[..n], c);
      var x :| x in ids[..n] && x in db.summaries && x in db.payloads && db.payloads[x].messages.Turns?
               && c == IdOfChat(x, db.summaries[x])
               && Tells(db.summaries[x], db.payloads[x].messages.turns, before.chats[c]);
      assert x in ids;
      VisitKeeps(before, sofar, ids[n], c);
    } else {
      VisitKeeps(before, sofar, ids[n], c);
      ChatTells(db.summaries[ids[n]], db.payloads[ids[n]].messages.turns);
    }
  }

  /** A complete run visits exactly the summaries whose payload holds an array of at least one message. */
  lemma WhatIsMoved(db: Tables, rank: Collation, x: string)
    requires Proper(rank)
    ensures x in Ordered(rank, Candidates(db)) <==>
              && x in db.summaries && x in db.payloads
              && db.payloads[x].messages.Turns? && |db.payloads[x].messages.turns| > 0
  {
    OrderedLists(rank, Candidates(db));
  }
}
