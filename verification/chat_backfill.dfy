/**
 Moving chats out of the summaries (backend/scripts/backfill_chat_sessions.py):
 a keyset walk in batches, with a dry run that rolls every batch back.

 The database's collation is a parameter: any ranking of ids under which
 different ids compare differently.
 */
module ChatBackfill {
  import opened Options
  import opened Strings

  datatype Message = Message(role: string, text: string)
  /** The stored `chat_messages`: SQL NULL, JSON null, some other JSON value, or an array. */
  datatype Messages = SqlNull | JsonNull | OtherJson | Turns(turns: seq<Message>)

  datatype Summary = Summary(
    owner: nat, text: string, scope: Option<string>, language: string, model: string,
    postCount: int, timestamp: int, extra: map<string, string>, chatMessageCount: nat)
  /** `others` stands for the payload's other heavy columns, `None` when all of them are null. */
  datatype Payload = Payload(messages: Messages, others: Option<string>)
  datatype Chat = Chat(
    owner: nat, title: string, scope: Option<string>, language: string, model: string, mode: string,
    postCount: int, timestamp: int, extra: map<string, string>, messages: seq<Message>, messageCount: nat)

  datatype Tables = Tables(summaries: map<string, Summary>, payloads: map<string, Payload>, chats: map<string, Chat>)
  datatype Counts = Counts(chatOnly: nat, summaryPlusChat: nat, alreadyMoved: nat)

  const ZERO := Counts(0, 0, 0)
  const CHAT_PREFIX := "Chat: "
  const CHAT_TITLE_CHARS := 80

  // ----------------------------------------------------------------- titles

  /** Runs of blanks as one space, for text already stripped. */
  function Collapse(s: string): string {
    if s == [] then ""
    else if Space(s[0]) then (if |s| > 1 && Space(s[1]) then "" else " ") + Collapse(s[1..])
    else [s[0]] + Collapse(s[1..])
  }

  function DerivedTitle(messages: seq<Message>): string {
    if messages == [] then ""
    else if messages[0].role == "user" && Strip(messages[0].text) != "" then
      var title := Collapse(Strip(messages[0].text));
      if |title| <= CHAT_TITLE_CHARS then title else title[..CHAT_TITLE_CHARS - 1] + "\U{2026}"
    else DerivedTitle(messages[1..])
  }

  // --------------------------------------------------------------- one move

  predicate HasTranscript(m: Messages) { m.Turns? && m.turns != [] }

  predicate ChatOnly(s: Summary) { CHAT_PREFIX <= s.text }

  predicate Candidate(db: Tables, id: string) {
    id in db.summaries && id in db.payloads && HasTranscript(db.payloads[id].messages)
  }

  function Candidates(db: Tables): set<string> { set id | id in db.summaries && Candidate(db, id) }

  function ChatId(db: Tables, id: string): string
    requires id in db.summaries
  {
    if ChatOnly(db.summaries[id]) then id else id + ":chat"
  }

  function ChatOf(s: Summary, turns: seq<Message>): Chat {
    var title := if ChatOnly(s) then Strip(s.text[|CHAT_PREFIX|..]) else DerivedTitle(turns);
    Chat(s.owner, if title == "" then DerivedTitle(turns) else title, s.scope, s.language, s.model, "full_scope",
         s.postCount, s.timestamp, if ChatOnly(s) then s.extra else map[], turns, |turns|)
  }

  function Move(db: Tables, id: string): Tables
    requires Candidate(db, id)
  {
    var s, p := db.summaries[id], db.payloads[id];
    var chats := db.chats[ChatId(db, id) := ChatOf(s, p.messages.turns)];
    if ChatOnly(s) then Tables(db.summaries - {id}, db.payloads - {id}, chats)
    else Tables(db.summaries[id := s.(chatMessageCount := 0)],
                if p.others.None? then db.payloads - {id} else db.payloads[id := p.(messages := JsonNull)],
                chats)
  }

  /** One row of the walk, skipped when its chat is already there. */
  function Visit(db: Tables, counts: Counts, id: string): (Tables, Counts)
    requires Candidate(db, id)
  {
    if ChatId(db, id) in db.chats then (db, counts.(alreadyMoved := counts.alreadyMoved + 1))
    else if ChatOnly(db.summaries[id]) then (Move(db, id), counts.(chatOnly := counts.chatOnly + 1))
    else (Move(db, id), counts.(summaryPlusChat := counts.summaryPlusChat + 1))
  }

  /** Visiting one row leaves every other candidate, summary, payload and chat as it was. */
  lemma VisitKeeps(db: Tables, counts: Counts, id: string, x: string)
    requires Candidate(db, id)
    ensures var after := Visit(db, counts, id).0;
            && (x != id ==> (Candidate(after, x) <==> Candidate(db, x)) && SameRow(db, after, x))
            && (x in db.chats ==> x in after.chats && after.chats[x] == db.chats[x])
            && after.chats.Keys == db.chats.Keys + {ChatId(db, id)}
            && (Candidate(after, id) <==> ChatId(db, id) in db.chats)
            && (Candidate(after, id) ==> after == db)
  {}

  /** `x`'s summary and payload rows are the same in both. */
  predicate SameRow(db: Tables, after: Tables, x: string) {
    && (x in after.summaries <==> x in db.summaries) && (x in db.summaries ==> after.summaries[x] == db.summaries[x])
    && (x in after.payloads <==> x in db.payloads) && (x in db.payloads ==> after.payloads[x] == db.payloads[x])
  }

  /** The rows of one walk, in the order given. */
  function Visits(db: Tables, counts: Counts, ids: seq<string>): (r: (Tables, Counts))
    requires Listed(db, ids)
    ensures forall x | x !in ids :: Candidate(r.0, x) <==> Candidate(db, x)
    decreases |ids|
  {
    if ids == [] then (db, counts)
    else
      var n := |ids| - 1;
      var (before, sofar) := Visits(db, counts, ids[..n]);
      assert ids[n] !in ids[..n];
      assert forall x | x != ids[n] :: Candidate(Visit(before, sofar, ids[n]).0, x) <==> Candidate(before, x) by {
        forall x | x != ids[n] ensures Candidate(Visit(before, sofar, ids[n]).0, x) <==> Candidate(before, x) {
          VisitKeeps(before, sofar, ids[n], x);
        }
      }
      Visit(before, sofar, ids[n])
  }

  lemma {:induction false} VisitsKeep(db: Tables, counts: Counts, ids: seq<string>, x: string)
    requires Listed(db, ids)
    ensures var after := Visits(db, counts, ids).0;
            && (x !in ids ==> SameRow(db, after, x))
            && (x in db.chats ==> x in after.chats && after.chats[x] == db.chats[x])
            && (x in ids ==> ChatId(db, x) in after.chats)
    decreases |ids|
  {
    if ids != [] {
      var n := |ids| - 1;
      var (before, sofar) := Visits(db, counts, ids[..n]);
      assert x in ids ==> x == ids[n] || x in ids[..n];
      assert ids[n] !in ids[..n];
      VisitsKeep(db, counts, ids[..n], x);
      VisitsKeep(db, counts, ids[..n], ids[n]);
      VisitKeeps(before, sofar, ids[n], x);
      if x in ids[..n] { VisitKeeps(before, sofar, ids[n], ChatId(db, x)); }
    }
  }

  /** Distinct candidates. */
  predicate Listed(db: Tables, ids: seq<string>) {
    && (forall i, j | 0 <= i < j < |ids| :: ids[i] != ids[j])
    && (forall x | x in ids :: Candidate(db, x))
  }

  // ------------------------------------------------------------ keyset order

  /** The database's order of ids, as a rank. */
  type Collation = string -> int

  ghost predicate Proper(rank: Collation) { forall a, b :: rank(a) == rank(b) ==> a == b }

  predicate Ascending(rank: Collation, ids: seq<string>) {
    forall i, j | 0 <= i < j < |ids| :: rank(ids[i]) < rank(ids[j])
  }

  lemma {:induction false} LeastExists(rank: Collation, ids: set<string>)
    requires ids != {}
    ensures exists m :: m in ids && forall x | x in ids :: rank(m) <= rank(x)
    decreases ids
  {
    var a :| a in ids;
    if ids - {a} == {} {
      assert ids == {a};
    } else {
      LeastExists(rank, ids - {a});
      var m :| m in ids - {a} && forall x | x in ids - {a} :: rank(m) <= rank(x);
      var least := if rank(a) < rank(m) then a else m;
      assert forall x | x in ids :: x == a || x in ids - {a};
      assert least in ids && forall x | x in ids :: rank(least) <= rank(x);
    }
  }

  /** The ids in the order a keyset query returns them. */
  ghost function Ordered(rank: Collation, ids: set<string>): seq<string>
    decreases ids
  {
    if ids == {} then []
    else
      LeastExists(rank, ids);
      var m :| m in ids && forall x | x in ids :: rank(m) <= rank(x);
      [m] + Ordered(rank, ids - {m})
  }

  lemma {:induction false} OrderedLists(rank: Collation, ids: set<string>)
    requires Proper(rank)
    ensures Ascending(rank, Ordered(rank, ids)) && forall x :: x in Ordered(rank, ids) <==> x in ids
    decreases ids
  {
    if ids != {} {
      var m := Ordered(rank, ids)[0];
      OrderedLists(rank, ids - {m});
    }
  }

  lemma FirstIsLeast(rank: Collation, s: seq<string>, x: string)
    requires Ascending(rank, s) && x in s
    ensures rank(s[0]) <= rank(x)
  {
    var j :| 0 <= j < |s| && s[j] == x;
  }

  /** Only one sequence lists a set in order. */
  lemma SameFirst(rank: Collation, ids: set<string>, s: seq<string>, o: seq<string>)
    requires Proper(rank) && Ascending(rank, s) && Ascending(rank, o) && s != []
    requires (forall x :: x in s <==> x in ids) && forall x :: x in o <==> x in ids
    ensures o != [] && s[0] == o[0]
  {
    assert s[0] in s && s[0] in o;
    assert o[0] in o && o[0] in s;
    FirstIsLeast(rank, o, s[0]);
    FirstIsLeast(rank, s, o[0]);
  }

  lemma {:induction false} OrderedIsOnly(rank: Collation, ids: set<string>, s: seq<string>)
    requires Proper(rank) && Ascending(rank, s) && forall x :: x in s <==> x in ids
    ensures s == Ordered(rank, ids)
    decreases |s|
  {
    var o := Ordered(rank, ids);
    OrderedLists(rank, ids);
    if s == [] {
      assert ids == {};
    } else {
      SameFirst(rank, ids, s, o);
      forall x ensures x in s[1..] <==> x in ids - {s[0]} { TailHas(rank, s, x); }
      OrderedIsOnly(rank, ids - {s[0]}, s[1..]);
      TailOfOrdered(rank, ids);
    }
  }

  lemma TailHas(rank: Collation, s: seq<string>, x: string)
    requires Ascending(rank, s) && s != []
    ensures x in s[1..] <==> x in s && x != s[0]
  {
    if x in s && x != s[0] {
      var j :| 0 <= j < |s| && s[j] == x;
      assert s[1..][j - 1] == x;
    }
  }

  lemma TailOfOrdered(rank: Collation, ids: set<string>)
    requires ids != {}
    ensures var o := Ordered(rank, ids); o != [] && o[0] in ids && o[1..] == Ordered(rank, ids - {o[0]})
  {}

  /** Dropping a prefix of an ordered listing leaves the ordered listing of what ranks past it. */
  lemma RestOfOrdered(rank: Collation, ids: set<string>, rest: set<string>, n: nat)
    requires Proper(rank) && 0 < n <= |Ordered(rank, ids)|
    requires forall x :: x in rest <==> x in ids && rank(Ordered(rank, ids)[n - 1]) < rank(x)
    ensures Ordered(rank, ids)[n..] == Ordered(rank, rest)
  {
    var o := Ordered(rank, ids);
    OrderedLists(rank, ids);
    forall x ensures x in o[n..] <==> x in rest {
      if x in ids {
        var k :| 0 <= k < |o| && o[k] == x;
        if k >= n { assert o[n..][k - n] == x; }
      }
    }
    OrderedIsOnly(rank, rest, o[n..]);
  }

  predicate Past(rank: Collation, cursor: Option<string>, id: string) { cursor.Some? ==> rank(cursor.value) < rank(id) }

  function Unread(db: Tables, rank: Collation, cursor: Option<string>): set<string> {
    set id | id in Candidates(db) && Past(rank, cursor, id)
  }

  /** What the walk has still to read from `cursor` on. */
  ghost function Ahead(db: Tables, rank: Collation, cursor: Option<string>): seq<string> {
    Ordered(rank, Unread(db, rank, cursor))
  }

  function Min(a: nat, b: nat): nat { if a < b then a else b }

  // -------------------------------------------------------------- whole runs

  /** What a complete real run leaves and reports: one visit of every candidate in order. */
  ghost function RealRun(db: Tables, rank: Collation): (Tables, Counts)
    requires Proper(rank)
  {
    OrderedLists(rank, Candidates(db));
    Visits(db, ZERO, Ordered(rank, Candidates(db)))
  }

  /** What a dry run counts: each batch is visited in the unchanged tables. */
  function DryCounts(db: Tables, counts: Counts, ids: seq<string>, batch: nat): Counts
    requires Listed(db, ids) && batch > 0
    decreases |ids|
  {
    if ids == [] then counts
    else
      var n := Min(batch, |ids|);
      DryCounts(db, Visits(db, counts, ids[..n]).1, ids[n..], batch)
  }

  /** After a batch is visited, what lies ahead is the rest of what lay ahead before. */
  lemma BatchAhead(db: Tables, counts: Counts, rank: Collation, cursor: Option<string>, n: nat)
    requires Proper(rank) && 0 < n <= |Ahead(db, rank, cursor)|
    ensures var ids := Ahead(db, rank, cursor);
            Listed(db, ids[..n])
            && Ahead(Visits(db, counts, ids[..n]).0, rank, Some(ids[n - 1])) == ids[n..]
            && Ahead(db, rank, Some(ids[n - 1])) == ids[n..]
  {
    var ids := Ahead(db, rank, cursor);
    OrderedLists(rank, Unread(db, rank, cursor));
    assert forall x | x in ids[..n] :: x in ids;
    var after := Visits(db, counts, ids[..n]).0;
    forall x
      ensures x in Unread(after, rank, Some(ids[n - 1]))
              <==> x in Unread(db, rank, cursor) && rank(ids[n - 1]) < rank(x)
    {
      StillUnread(db, counts, rank, cursor, n, x);
    }
    assert ids[n - 1] in Unread(db, rank, cursor);
    RestOfOrdered(rank, Unread(db, rank, cursor), Unread(after, rank, Some(ids[n - 1])), n);
    RestOfOrdered(rank, Unread(db, rank, cursor), Unread(db, rank, Some(ids[n - 1])), n);
  }

  /** What a visited batch leaves unread past its last row is what was unread there before. */
  lemma StillUnread(db: Tables, counts: Counts, rank: Collation, cursor: Option<string>, n: nat, x: string)
    requires Proper(rank) && 0 < n <= |Ahead(db, rank, cursor)| && Listed(db, Ahead(db, rank, cursor)[..n])
    ensures var ids := Ahead(db, rank, cursor);
            x in Unread(Visits(db, counts, ids[..n]).0, rank, Some(ids[n - 1]))
            <==> x in Unread(db, rank, cursor) && rank(ids[n - 1]) < rank(x)
  {
    var ids := Ahead(db, rank, cursor);
    OrderedLists(rank, Unread(db, rank, cursor));
    assert ids[n - 1] in ids;
    if rank(ids[n - 1]) < rank(x) { NotReadYet(rank, ids, n, x); }
  }

  lemma NotReadYet(rank: Collation, ids: seq<string>, n: nat, x: string)
    requires 0 < n <= |ids| && Ascending(rank, ids) && rank(ids[n - 1]) < rank(x)
    ensures x !in ids[..n]
  {}

  lemma {:induction false} VisitsConcat(db: Tables, counts: Counts, a: seq<string>, b: seq<string>)
    requires Listed(db, a + b)
    ensures Listed(db, a) && Listed(Visits(db, counts, a).0, b)
    ensures var (mid, sofar) := Visits(db, counts, a); Visits(mid, sofar, b) == Visits(db, counts, a + b)
    decreases |b|
  {
    PartsAreListed(db, counts, a, b);
    if b == [] {
      NothingMore(a, b);
    } else {
      FrontOfBoth(a, b);
      assert forall x | x in a + b[..|b| - 1] :: x in a + b;
      VisitsConcat(db, counts, a, b[..|b| - 1]);
      OneVisitMore(db, counts, a + b);
      OneVisitMore(Visits(db, counts, a).0, Visits(db, counts, a).1, b);
    }
  }

  lemma NothingMore(a: seq<string>, b: seq<string>)
    requires b == []
    ensures a + b == a
  {}

  lemma OneVisitMore(db: Tables, counts: Counts, ids: seq<string>)
    requires Listed(db, ids) && ids != []
    ensures var n := |ids| - 1;
            Listed(db, ids[..n]) && Candidate(Visits(db, counts, ids[..n]).0, ids[n])
            && Visits(db, counts, ids)
               == Visit(Visits(db, counts, ids[..n]).0, Visits(db, counts, ids[..n]).1, ids[n])
  {
    assert ids[|ids| - 1] !in ids[..|ids| - 1];
  }

  lemma FrontOfBoth(a: seq<string>, b: seq<string>)
    requires b != []
    ensures (a + b)[..|a + b| - 1] == a + b[..|b| - 1] && (a + b)[|a + b| - 1] == b[|b| - 1]
  {}

  lemma PartsAreListed(db: Tables, counts: Counts, a: seq<string>, b: seq<string>)
    requires Listed(db, a + b)
    ensures Listed(db, a) && Listed(db, b) && Listed(Visits(db, counts, a).0, b)
  {
    assert forall x | x in a :: x in a + b;
    assert forall x | x in b :: x in a + b;
    assert forall i | 0 <= i < |a| :: (a + b)[i] == a[i];
    assert forall i | 0 <= i < |b| :: (a + b)[|a| + i] == b[i];
    forall x | x in b ensures x !in a {
      var j :| 0 <= j < |b| && b[j] == x;
      assert forall i | 0 <= i < |a| :: (a + b)[i] != (a + b)[|a| + j];
    }
  }

  /** What a run over `ids` in batches leaves and reports. */
  function Outcome(db: Tables, counts: Counts, ids: seq<string>, batch: nat, dryRun: bool): (Tables, Counts)
    requires Listed(db, ids) && batch > 0
  {
    if dryRun then (db, DryCounts(db, counts, ids, batch)) else Visits(db, counts, ids)
  }

  lemma OutcomeAfterBatch(db: Tables, counts: Counts, ids: seq<string>, batch: nat, dryRun: bool, n: nat)
    requires batch > 0 && ids != [] && n == Min(batch, |ids|) && Listed(db, ids)
    ensures Listed(db, ids[..n])
    ensures var (after, sofar) := Visits(db, counts, ids[..n]);
            var left := if dryRun then db else after;
            Listed(left, ids[n..]) && Outcome(left, sofar, ids[n..], batch, dryRun)
              == Outcome(db, counts, ids, batch, dryRun)
  {
    assert ids[..n] + ids[n..] == ids;
    VisitsConcat(db, counts, ids[..n], ids[n..]);
  }

  // -------------------------------------------------------------- the script

  lemma OrderedHead(rank: Collation, ids: set<string>, m: string)
    requires Proper(rank) && m in ids && forall x | x in ids :: rank(m) <= rank(x)
    ensures Ordered(rank, ids) == [m] + Ordered(rank, ids - {m})
  {}

  lemma AheadListed(db: Tables, rank: Collation, cursor: Option<string>)
    requires Proper(rank)
    ensures Listed(db, Ahead(db, rank, cursor))
  {
    OrderedLists(rank, Unread(db, rank, cursor));
  }

  lemma AllAhead(db: Tables, rank: Collation)
    requires Proper(rank)
    ensures Ahead(db, rank, None) == Ordered(rank, Candidates(db)) && Listed(db, Ordered(rank, Candidates(db)))
  {
    assert Unread(db, rank, None) == Candidates(db);
    AheadListed(db, rank, None);
  }

  lemma Regroup(a: seq<string>, m: string, b: seq<string>)
    ensures a + ([m] + b) == (a + [m]) + b
  {}

  class Store {
    var summaries: map<string, Summary>
    var payloads: map<string, Payload>
    var chats: map<string, Chat>

    function Rows(): Tables
      reads this
    {
      Tables(summaries, payloads, chats)
    }

    /** The next page: candidates past the cursor, in order, at most `limit`. */
    method Page(rank: Collation, cursor: Option<string>, limit: nat) returns (rows: seq<string>)
      requires Proper(rank)
      ensures rows == Ahead(Rows(), rank, cursor)[..Min(limit, |Ahead(Rows(), rank, cursor)|)]
    {
      rows := [];
      var rest := Unread(Rows(), rank, cursor);
      ghost var ahead := Ordered(rank, rest);
      while |rows| < limit && rest != {}
        invariant |rows| <= limit && rows + Ordered(rank, rest) == ahead
        decreases limit - |rows|
      {
        LeastExists(rank, rest);
        var m :| m in rest && forall x | x in rest :: rank(m) <= rank(x);
        OrderedHead(rank, rest, m);
        Regroup(rows, m, Ordered(rank, rest - {m}));
        rows, rest := rows + [m], rest - {m};
      }
      assert rest == {} ==> Ordered(rank, rest) == [];
    }

    /** Move one chat out of its summary; says whether the summary was the chat alone. */
    method MoveOne(id: string) returns (chatOnly: bool)
      requires Candidate(Rows(), id)
      modifies this
      ensures Rows() == Move(old(Rows()), id) && chatOnly == ChatOnly(old(summaries[id]))
    {
      var summary, payload := summaries[id], payloads[id];
      var turns := payload.messages.turns;
      chatOnly := CHAT_PREFIX <= summary.text;
      var chatId := if chatOnly then id else id + ":chat";
      var title := if chatOnly then Strip(summary.text[|CHAT_PREFIX|..]) else DerivedTitle(turns);
      if title == "" { title := DerivedTitle(turns); }
      chats := chats[chatId := Chat(summary.owner, title, summary.scope, summary.language, summary.model, "full_scope",
                                    summary.postCount, summary.timestamp, if chatOnly then summary.extra else map[],
                                    turns, |turns|)];
      if chatOnly {
        summaries, payloads := summaries - {id}, payloads - {id};
      } else {
        payloads := if payload.others.None? then payloads - {id} else payloads[id := payload.(messages := JsonNull)];
        summaries := summaries[id := summary.(chatMessageCount := 0)];
      }
    }

    method VisitRow(id: string, counts: Counts) returns (after: Counts)
      requires Candidate(Rows(), id)
      modifies this
      ensures (Rows(), after) == Visit(old(Rows()), counts, id)
    {
      var chatId := if CHAT_PREFIX <= summaries[id].text then id else id + ":chat";
      if chatId in chats {
        return counts.(alreadyMoved := counts.alreadyMoved + 1);
      }
      var chatOnly := MoveOne(id);
      after := if chatOnly then counts.(chatOnly := counts.chatOnly + 1)
        else counts.(summaryPlusChat := counts.summaryPlusChat + 1);
    }

    method VisitBatch(rows: seq<string>, counts: Counts) returns (after: Counts)
      requires Listed(Rows(), rows)
      modifies this
      ensures (Rows(), after) == Visits(old(Rows()), counts, rows)
    {
      after := counts;
      for i := 0 to |rows|
        invariant Listed(old(Rows()), rows[..i]) && (Rows(), after) == Visits(old(Rows()), counts, rows[..i])
      {
        assert rows[..i + 1][..i] == rows[..i] && rows[i] !in rows[..i];
        assert Listed(old(Rows()), rows[..i + 1]);
        after := VisitRow(rows[i], after);
      }
      assert rows[..|rows|] == rows;
    }

    /** One transaction over a page: visit its rows, and commit or roll back. */
    method Transact(rows: seq<string>, dryRun: bool, counts: Counts) returns (after: Counts)
      requires Listed(Rows(), rows)
      modifies this
      ensures after == Visits(old(Rows()), counts, rows).1
      ensures Rows() == if dryRun then old(Rows()) else Visits(old(Rows()), counts, rows).0
    {
      var kept := Rows();
      after := VisitBatch(rows, counts);
      if dryRun {
        summaries, payloads, chats := kept.summaries, kept.payloads, kept.chats;
      }
    }

    /** Move every chat in batches; a dry run rolls each batch back and only counts. */
    method BackfillChats(rank: Collation, dryRun: bool, batch: nat) returns (counts: Counts)
      requires Proper(rank)
      modifies this
      ensures batch == 0 || dryRun ==> Rows() == old(Rows())
      ensures batch == 0 ==> counts == ZERO
      ensures var db := old(Rows()); var ids := Ordered(rank, Candidates(db));
              Listed(db, ids) && (batch > 0 ==> (Rows(), counts) == Outcome(db, ZERO, ids, batch, dryRun))
    {
      AllAhead(Rows(), rank);
      counts := ZERO;
      var cursor := None;
      ghost var ids := Ahead(Rows(), rank, cursor);
      ghost var promised := if batch > 0 then Outcome(Rows(), ZERO, ids, batch, dryRun) else (Rows(), ZERO);
      while true
        invariant ids == Ahead(Rows(), rank, cursor) && Listed(Rows(), ids)
        invariant batch == 0 ==> (Rows(), counts) == promised
        invariant batch > 0 ==> Outcome(Rows(), counts, ids, batch, dryRun) == promised
        invariant dryRun ==> Rows() == old(Rows())
        decreases |ids|
      {
        var rows := Page(rank, cursor, batch);
        if rows == [] { return; }
        ghost var n := |rows|;
        BatchAhead(Rows(), counts, rank, cursor, n);
        OutcomeAfterBatch(Rows(), counts, ids, batch, dryRun, n);
        cursor := Some(rows[|rows| - 1]);
        counts := Transact(rows, dryRun, counts);
        ids := ids[n..];
      }
    }
  }
}
