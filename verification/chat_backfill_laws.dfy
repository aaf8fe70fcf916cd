/**
 What moving the chats keeps, whatever the batch size, however often it is
 interrupted, and exactly when its dry run tells the truth.
 */
module ChatBackfillLaws {
  import opened Options
  import opened ChatBackfill

  // ------------------------------------------------------------ conservation

  datatype Carrier = FromSummary(id: string) | FromChat(id: string)

  predicate Carries(db: Tables, c: Carrier) {
    if c.FromSummary? then Candidate(db, c.id) else c.id in db.chats
  }

  /** Whose transcript `c` carries, and the transcript. */
  function At(db: Tables, c: Carrier): (nat, seq<Message>)
    requires Carries(db, c)
  {
    if c.FromSummary? then (db.summaries[c.id].owner, db.payloads[c.id].messages.turns)
    else (db.chats[c.id].owner, db.chats[c.id].messages)
  }

  /** Everything in the database that carries a transcript. */
  function Carriers(db: Tables): set<Carrier> {
    (set id | id in Candidates(db) :: FromSummary(id)) + (set id | id in db.chats :: FromChat(id))
  }

  ghost function Carried(db: Tables, cs: set<Carrier>): multiset<(nat, seq<Message>)>
    requires forall c | c in cs :: Carries(db, c)
    decreases cs
  {
    if cs == {} then multiset{}
    else
      var c :| c in cs;
      Carried(db, cs - {c}) + multiset{At(db, c)}
  }

  /** The transcripts of the database, each with its owner, as often as it is there. */
  ghost function Transcripts(db: Tables): multiset<(nat, seq<Message>)> { Carried(db, Carriers(db)) }

  lemma {:induction false} CarriedWithout(db: Tables, cs: set<Carrier>, c: Carrier)
    requires (forall x | x in cs :: Carries(db, x)) && c in cs
    ensures Carried(db, cs) == Carried(db, cs - {c}) + multiset{At(db, c)}
    decreases cs
  {
    var d :| d in cs && Carried(db, cs) == Carried(db, cs - {d}) + multiset{At(db, d)};
    if c != d {
      CarriedWithout(db, cs - {d}, c);
      assert (cs - {d}) - {c} == (cs - {c}) - {d};
      CarriedWithout(db, cs - {c}, d);
    }
  }

  lemma {:induction false} CarriedSame(db: Tables, after: Tables, cs: set<Carrier>)
    requires forall c | c in cs :: Carries(db, c) && Carries(after, c) && At(after, c) == At(db, c)
    ensures Carried(after, cs) == Carried(db, cs)
    decreases cs
  {
    if cs != {} {
      var c :| c in cs;
      CarriedSame(db, after, cs - {c});
      CarriedWithout(db, cs, c);
      CarriedWithout(after, cs, c);
    }
  }

  lemma MoveConserves(db: Tables, id: string)
    requires Candidate(db, id) && ChatId(db, id) !in db.chats
    ensures Transcripts(Move(db, id)) == Transcripts(db)
  {
    var after := Move(db, id);
    var from, to := FromSummary(id), FromChat(ChatId(db, id));
    var rest := Carriers(db) - {from};
    MovedCarriers(db, id);
    assert At(after, to) == At(db, from);
    CarriedSame(db, after, rest);
    assert Carriers(after) - {to} == rest;
    CarriedWithout(db, Carriers(db), from);
    CarriedWithout(after, Carriers(after), to);
  }

  lemma MovedCarriers(db: Tables, id: string)
    requires Candidate(db, id) && ChatId(db, id) !in db.chats
    ensures var from, to := FromSummary(id), FromChat(ChatId(db, id));
            && from in Carriers(db) && to !in Carriers(db)
            && Carriers(Move(db, id)) == Carriers(db) - {from} + {to}
            && forall c | c in Carriers(db) - {from} :: Carries(Move(db, id), c) && At(Move(db, id), c) == At(db, c)
  {
    var after := Move(db, id);
    VisitKeeps(db, ZERO, id, id);
    assert after == Visit(db, ZERO, id).0;
    forall x | x != id
      ensures (Candidate(after, x) <==> Candidate(db, x)) && SameRow(db, after, x)
    {
      VisitKeeps(db, ZERO, id, x);
    }
    forall c | c in Carriers(db) && c != FromSummary(id) ensures Carries(after, c) && At(after, c) == At(db, c) {
      if c.FromChat? { VisitKeeps(db, ZERO, id, c.id); }
    }
    assert Candidates(after) == Candidates(db) - {id};
  }

  /** Nobody's transcript is lost, duplicated or handed to another owner. */
  lemma {:induction false} TranscriptsConserved(db: Tables, counts: Counts, ids: seq<string>)
    requires Listed(db, ids)
    ensures Transcripts(Visits(db, counts, ids).0) == Transcripts(db)
    decreases |ids|
  {
    if ids != [] {
      var n := |ids| - 1;
      LastRowUntouched(db, counts, ids);
      TranscriptsConserved(db, counts, ids[..n]);
      var before := Visits(db, counts, ids[..n]).0;
      if ChatId(before, ids[n]) !in before.chats { MoveConserves(before, ids[n]); }
    }
  }

  // ------------------------------------------------------------ interruption

  /** A visited row that is still a candidate was skipped, and its chat is there. */
  lemma {:induction false} SkippedStays(db: Tables, counts: Counts, ids: seq<string>, x: string)
    requires Listed(db, ids) && x in ids && Candidate(Visits(db, counts, ids).0, x)
    ensures SameRow(db, Visits(db, counts, ids).0, x) && ChatId(db, x) in Visits(db, counts, ids).0.chats
    decreases |ids|
  {
    var n := |ids| - 1;
    var (before, sofar) := Visits(db, counts, ids[..n]);
    assert ids[n] !in ids[..n];
    VisitsKeep(db, counts, ids, x);
    VisitKeeps(before, sofar, ids[n], x);
    if x == ids[n] {
      VisitsKeep(db, counts, ids[..n], x);
    } else {
      assert x in ids[..n];
      SkippedStays(db, counts, ids[..n], x);
    }
  }

  lemma {:induction false} AllSkipped(db: Tables, counts: Counts, ids: seq<string>)
    requires Listed(db, ids) && forall x | x in ids :: ChatId(db, x) in db.chats
    ensures Visits(db, counts, ids) == (db, counts.(alreadyMoved := counts.alreadyMoved + |ids|))
    decreases |ids|
  {
    if ids != [] {
      var n := |ids| - 1;
      PartsListed(db, ids, n);
      AllSkipped(db, counts, ids[..n]);
      OneVisitMore(db, counts, ids);
    }
  }

  lemma {:induction false} CountsDoNotSteer(db: Tables, a: Counts, b: Counts, ids: seq<string>)
    requires Listed(db, ids)
    ensures Visits(db, a, ids).0 == Visits(db, b, ids).0
    decreases |ids|
  {
    if ids != [] {
      CountsDoNotSteer(db, a, b, ids[..|ids| - 1]);
      assert ids[|ids| - 1] !in ids[..|ids| - 1];
    }
  }

  function Still(ids: seq<string>, keep: set<string>): seq<string>
    decreases |ids|
  {
    if ids == [] then []
    else Still(ids[..|ids| - 1], keep) + if ids[|ids| - 1] in keep then [ids[|ids| - 1]] else []
  }

  lemma {:induction false} StillAscends(rank: Collation, ids: seq<string>, keep: set<string>)
    requires Ascending(rank, ids)
    ensures Ascending(rank, Still(ids, keep))
    ensures forall x :: x in Still(ids, keep) <==> x in ids && x in keep
    decreases |ids|
  {
    if ids != [] {
      var n := |ids| - 1;
      StillAscends(rank, ids[..n], keep);
      assert forall x :: x in ids <==> x in ids[..n] || x == ids[n];
      forall i | 0 <= i < |Still(ids[..n], keep)| ensures rank(Still(ids[..n], keep)[i]) < rank(ids[n]) {
        var x := Still(ids[..n], keep)[i];
        assert x in ids[..n];
        var k :| 0 <= k < n && ids[..n][k] == x;
      }
    }
  }

  lemma StillThenRest(rank: Collation, ids: seq<string>, j: nat, left: set<string>)
    requires Proper(rank) && Ascending(rank, ids) && j <= |ids|
    requires (forall x | x in left :: x in ids) && forall x | x in ids[j..] :: x in left
    ensures Ordered(rank, left) == Still(ids[..j], left) + ids[j..]
  {
    var skipped := Still(ids[..j], left);
    StillAscends(rank, ids[..j], left);
    assert forall x :: x in ids <==> x in ids[..j] || x in ids[j..] by { assert ids == ids[..j] + ids[j..]; }
    forall i, k | 0 <= i < |skipped| && j <= k < |ids| ensures rank(skipped[i]) < rank(ids[k]) {
      assert skipped[i] in skipped;
      var m :| 0 <= m < j && ids[..j][m] == skipped[i];
    }
    OrderedIsOnly(rank, left, skipped + ids[j..]);
  }

  /** What a re-run reads after `done` was committed and `rest` was not: the rows of `done` that
      were skipped, then `rest`. */
  lemma RerunReads(db: Tables, rank: Collation, done: seq<string>, rest: seq<string>)
    requires Proper(rank) && Listed(db, done) && done + rest == Ordered(rank, Candidates(db))
    ensures var left := Candidates(Visits(db, ZERO, done).0); Ordered(rank, left) == Still(done, left) + rest
  {
    var ids := done + rest;
    var left := Candidates(Visits(db, ZERO, done).0);
    OrderedLists(rank, Candidates(db));
    assert ids[..|done|] == done && ids[|done|..] == rest;
    forall x | x in left ensures x in ids {
      if x !in done { assert Candidate(db, x); }
    }
    forall x | x in rest ensures x in left {
      assert x in ids;
      NotTwice(ids, |done|, x);
    }
    StillThenRest(rank, ids, |done|, left);
  }

  lemma NotTwice(ids: seq<string>, n: nat, x: string)
    requires n <= |ids| && x in ids[n..] && forall i, j | 0 <= i < j < |ids| :: ids[i] != ids[j]
    ensures x !in ids[..n]
  {
    var k :| 0 <= k < |ids[n..]| && ids[n..][k] == x;
    assert ids[n + k] == x;
  }

  lemma RerunSkips(db: Tables, done: seq<string>, skipped: seq<string>)
    requires Listed(db, done) && Listed(Visits(db, ZERO, done).0, skipped) && forall x | x in skipped :: x in done
    ensures Visits(Visits(db, ZERO, done).0, ZERO, skipped).0 == Visits(db, ZERO, done).0
  {
    var after := Visits(db, ZERO, done).0;
    forall x | x in skipped ensures ChatId(after, x) in after.chats { SkippedStays(db, ZERO, done, x); }
    AllSkipped(after, ZERO, skipped);
  }

  /** Stopped after any number of committed rows and run again, the job ends where it would have. */
  lemma InterruptedAndRerun(db: Tables, rank: Collation, done: seq<string>, rest: seq<string>)
    requires Proper(rank) && done + rest == Ordered(rank, Candidates(db)) && Listed(db, done)
    ensures RealRun(Visits(db, ZERO, done).0, rank).0 == RealRun(db, rank).0
  {
    var after := Visits(db, ZERO, done).0;
    var skipped := Still(done, Candidates(after));
    RerunReads(db, rank, done, rest);
    AllAhead(after, rank);
    AllAhead(db, rank);
    VisitsConcat(after, ZERO, skipped, rest);
    OrderedLists(rank, Candidates(db));
    assert (done + rest)[..|done|] == done;
    StillAscends(rank, done, Candidates(after));
    RerunSkips(db, done, skipped);
    VisitsConcat(db, ZERO, done, rest);
    CountsDoNotSteer(after, Visits(after, ZERO, skipped).1, Visits(db, ZERO, done).1, rest);
  }

  // ------------------------------------------------- when a dry run is right

  /** A kept summary and a chat-only one whose id is the chat id the first would get. */
  predicate Clash(db: Tables, a: string, b: string) {
    && Candidate(db, a) && Candidate(db, b) && b == a + ":chat"
    && !ChatOnly(db.summaries[a]) && ChatOnly(db.summaries[b]) && b !in db.chats
  }

  ghost predicate NoClash(db: Tables) { forall a, b :: !Clash(db, a, b) }

  /** The two rows of a clash, in either order. */
  predicate Partners(db: Tables, x: string, y: string) { Clash(db, x, y) || Clash(db, y, x) }

  /** What one row adds to the counts after the rows of `before` have been visited. */
  function CountAfter(db: Tables, before: seq<string>, id: string): Counts {
    if !Candidate(db, id) then ZERO
    else if ChatId(db, id) in db.chats || Partnered(db, before, id) then Counts(0, 0, 1)
    else if ChatOnly(db.summaries[id]) then Counts(1, 0, 0) else Counts(0, 1, 0)
  }

  predicate Partnered(db: Tables, before: seq<string>, id: string) { exists y | y in before :: Partners(db, y, id) }

  function Plus(a: Counts, b: Counts): Counts {
    Counts(a.chatOnly + b.chatOnly, a.summaryPlusChat + b.summaryPlusChat, a.alreadyMoved + b.alreadyMoved)
  }

  /** What one walk counts. */
  function Walked(db: Tables, ids: seq<string>): Counts
    decreases |ids|
  {
    if ids == [] then ZERO
    else Plus(Walked(db, ids[..|ids| - 1]), CountAfter(db, ids[..|ids| - 1], ids[|ids| - 1]))
  }

  lemma SameStem(a: string, b: string)
    requires a + ":chat" == b + ":chat"
    ensures a == b
  {
    assert |a + ":chat"| == |b + ":chat"|;
    assert forall i | 0 <= i < |a| :: a[i] == (a + ":chat")[i];
    assert forall i | 0 <= i < |b| :: b[i] == (b + ":chat")[i];
  }

  /** Two candidates would get the same new chat only in a clash. */
  lemma SameChatIsClash(db: Tables, a: string, b: string)
    requires Candidate(db, a) && Candidate(db, b) && a != b && ChatId(db, a) == ChatId(db, b)
             && ChatId(db, a) !in db.chats
    ensures Clash(db, a, b) || Clash(db, b, a)
  {
    if !ChatOnly(db.summaries[a]) && !ChatOnly(db.summaries[b]) { SameStem(a, b); }
  }

  /** The chats there after a walk: those before it and those its rows would get. */
  lemma {:induction false} ChatsAfter(db: Tables, counts: Counts, ids: seq<string>, c: string)
    requires Listed(db, ids) && c in Visits(db, counts, ids).0.chats && c !in db.chats
    ensures exists x :: x in ids && ChatId(db, x) == c
    decreases |ids|
  {
    var n := |ids| - 1;
    var (before, sofar) := Visits(db, counts, ids[..n]);
    assert ids[n] !in ids[..n] && ids[n] in ids;
    if c in before.chats {
      ChatsAfter(db, counts, ids[..n], c);
      var x :| x in ids[..n] && ChatId(db, x) == c;
      assert x in ids;
    } else {
      VisitsKeep(db, counts, ids[..n], ids[n]);
      VisitKeeps(before, sofar, ids[n], ids[n]);
      assert ChatId(db, ids[n]) == c;
    }
  }

  /** Without a clash a row's chat is there after a walk of other rows only if it was before. */
  lemma ChatStaysMissing(db: Tables, counts: Counts, ids: seq<string>, x: string)
    requires Listed(db, ids) && NoClash(db) && Candidate(db, x) && x !in ids && ChatId(db, x) !in db.chats
    ensures ChatId(db, x) !in Visits(db, counts, ids).0.chats
  {
    if ChatId(db, x) in Visits(db, counts, ids).0.chats {
      ChatsAfter(db, counts, ids, ChatId(db, x));
      var y :| y in ids && ChatId(db, y) == ChatId(db, x);
      SameChatIsClash(db, x, y);
    }
  }

  /** The row visited last is as it was before the walk. */
  lemma LastRowUntouched(db: Tables, counts: Counts, ids: seq<string>)
    requires Listed(db, ids) && ids != []
    ensures var n := |ids| - 1; var before := Visits(db, counts, ids[..n]).0;
            ids[n] !in ids[..n] && Listed(db, ids[..n]) && Candidate(before, ids[n]) && Candidate(db, ids[n])
            && SameRow(db, before, ids[n]) && ChatId(before, ids[n]) == ChatId(db, ids[n])
            && (ChatId(db, ids[n]) in db.chats ==> ChatId(db, ids[n]) in before.chats)
            && Visits(db, counts, ids) == Visit(before, Visits(db, counts, ids[..n]).1, ids[n])
  {
    var n := |ids| - 1;
    assert ids[n] !in ids[..n];
    VisitsKeep(db, counts, ids[..n], ids[n]);
    VisitsKeep(db, counts, ids[..n], ChatId(db, ids[n]));
  }

  lemma {:induction false} WalkCounts(db: Tables, counts: Counts, ids: seq<string>)
    requires Listed(db, ids)
    ensures Visits(db, counts, ids).1 == Plus(counts, Walked(db, ids))
    decreases |ids|
  {
    if ids != [] {
      var n := |ids| - 1;
      PartsListed(db, ids, n);
      WalkCounts(db, counts, ids[..n]);
      LastCounted(db, counts, ids);
    }
  }

  lemma LastCounted(db: Tables, counts: Counts, ids: seq<string>)
    requires Listed(db, ids) && ids != []
    ensures var n := |ids| - 1;
            Listed(db, ids[..n])
            && Visits(db, counts, ids).1 == Plus(Visits(db, counts, ids[..n]).1, CountAfter(db, ids[..n], ids[n]))
  {
    LastRowUntouched(db, counts, ids);
    ChatThereAfter(db, counts, ids[..|ids| - 1], ids[|ids| - 1]);
  }

  /** A row's chat is there after a walk of others if it was before, or its partner was among them. */
  lemma ChatThereAfter(db: Tables, counts: Counts, ids: seq<string>, x: string)
    requires Listed(db, ids) && Candidate(db, x) && x !in ids
    ensures ChatId(db, x) in Visits(db, counts, ids).0.chats <==> ChatId(db, x) in db.chats || Partnered(db, ids, x)
  {
    VisitsKeep(db, counts, ids, ChatId(db, x));
    if Partnered(db, ids, x) {
      var y :| y in ids && Partners(db, y, x);
      VisitsKeep(db, counts, ids, y);
    }
    if ChatId(db, x) in Visits(db, counts, ids).0.chats && ChatId(db, x) !in db.chats {
      ChatsAfter(db, counts, ids, ChatId(db, x));
      var y :| y in ids && ChatId(db, y) == ChatId(db, x);
      SameChatIsClash(db, x, y);
    }
  }

  lemma OnePartner(db: Tables, x: string, y: string, z: string)
    requires Partners(db, y, x) && Partners(db, z, x)
    ensures y == z
  {
    if Clash(db, y, x) && Clash(db, z, x) { SameStem(y, z); }
  }

  /** No row of one part is the partner of a row of the other. */
  predicate NoneAcross(db: Tables, p: seq<string>, q: seq<string>) {
    forall j | 0 <= j < |q| :: !Partnered(db, p, q[j])
  }

  lemma DistinctParts(p: seq<string>, q: seq<string>)
    requires forall i, j | 0 <= i < j < |p + q| :: (p + q)[i] != (p + q)[j]
    ensures forall y | y in p :: y !in q
  {
    forall i, j | 0 <= i < |p| && 0 <= j < |q| ensures p[i] != q[j] {
      assert (p + q)[i] == p[i] && (p + q)[|p| + j] == q[j];
    }
  }

  lemma RowAcross(db: Tables, p: seq<string>, front: seq<string>, x: string)
    requires Listed(db, p + front) && Candidate(db, x)
    ensures CountAfter(db, p + front, x) == if Partnered(db, p, x) then Counts(0, 0, 1) else CountAfter(db, front, x)
    ensures Partnered(db, p, x) ==> CountAfter(db, front, x).alreadyMoved == 0
  {
    DistinctParts(p, front);
    if Partnered(db, p, x) {
      var y :| y in p && Partners(db, y, x);
      assert y in p + front;
      if Partnered(db, front, x) {
        var z :| z in front && Partners(db, z, x);
        OnePartner(db, x, y, z);
      }
    } else {
      assert Partnered(db, p + front, x) <==> Partnered(db, front, x);
    }
  }

  lemma NoneAcrossLast(db: Tables, p: seq<string>, q: seq<string>)
    requires q != []
    ensures NoneAcross(db, p, q) <==> NoneAcross(db, p, q[..|q| - 1]) && !Partnered(db, p, q[|q| - 1])
  {
    var front := q[..|q| - 1];
    assert forall j | 0 <= j < |front| :: front[j] == q[j];
  }

  /** One walk counts what its two parts count apart, or finds more of its chats already moved. */
  predicate Counted(whole: Counts, p: Counts, q: Counts, apart: bool) {
    && (apart ==> whole == Plus(p, q))
    && whole.alreadyMoved >= p.alreadyMoved + q.alreadyMoved
    && (!apart ==> whole.alreadyMoved > p.alreadyMoved + q.alreadyMoved)
  }

  /** Two walks in place of one miss the moves of the first that stood in the way of the second. */
  lemma {:induction false} WalkedApart(db: Tables, p: seq<string>, q: seq<string>)
    requires Listed(db, p + q)
    ensures Counted(Walked(db, p + q), Walked(db, p), Walked(db, q), NoneAcross(db, p, q))
    decreases |q|
  {
    if q == [] {
      WalkedNothing(db, p, q);
    } else {
      FrontListed(db, p, q);
      WalkedApart(db, p, q[..|q| - 1]);
      RowApart(db, p, q);
    }
  }

  lemma WalkedNothing(db: Tables, p: seq<string>, q: seq<string>)
    requires q == []
    ensures Counted(Walked(db, p + q), Walked(db, p), Walked(db, q), NoneAcross(db, p, q))
  {
    assert p + q == p && Walked(db, q) == ZERO;
  }

  lemma RowApart(db: Tables, p: seq<string>, q: seq<string>)
    requires Listed(db, p + q) && q != []
    requires var front := q[..|q| - 1];
             Counted(Walked(db, p + front), Walked(db, p), Walked(db, front), NoneAcross(db, p, front))
    ensures Counted(Walked(db, p + q), Walked(db, p), Walked(db, q), NoneAcross(db, p, q))
  {
    var front, x := q[..|q| - 1], q[|q| - 1];
    FrontListed(db, p, q);
    RowAcross(db, p, front, x);
    NoneAcrossLast(db, p, q);
    WalkedLast(db, p, q);
    RowCounted(Walked(db, p + front), Walked(db, p), Walked(db, front),
               CountAfter(db, p + front, x), CountAfter(db, front, x),
               NoneAcross(db, p, front), Partnered(db, p, x));
  }

  lemma RowCounted(whole: Counts, p: Counts, q: Counts, rowWhole: Counts, row: Counts, apart: bool, met: bool)
    requires Counted(whole, p, q, apart)
    requires rowWhole == (if met then Counts(0, 0, 1) else row) && (met ==> row.alreadyMoved == 0)
    ensures Counted(Plus(whole, rowWhole), p, Plus(q, row), apart && !met)
  {}

  lemma FrontListed(db: Tables, p: seq<string>, q: seq<string>)
    requires Listed(db, p + q) && q != []
    ensures Listed(db, p + q[..|q| - 1]) && Candidate(db, q[|q| - 1])
  {
    assert (p + q)[..|p + q| - 1] == p + q[..|q| - 1] && (p + q)[|p + q| - 1] == q[|q| - 1];
    PartsListed(db, p + q, |p + q| - 1);
    assert q[|q| - 1] in p + q;
  }

  lemma WalkedLast(db: Tables, p: seq<string>, q: seq<string>)
    requires q != []
    ensures Walked(db, p + q) == Plus(Walked(db, p + q[..|q| - 1]), CountAfter(db, p + q[..|q| - 1], q[|q| - 1]))
  {
    assert (p + q)[..|p + q| - 1] == p + q[..|q| - 1] && (p + q)[|p + q| - 1] == q[|q| - 1];
  }

  lemma PartsListed(db: Tables, ids: seq<string>, n: nat)
    requires Listed(db, ids) && n <= |ids|
    ensures Listed(db, ids[..n]) && Listed(db, ids[n..])
  {
    assert forall x | x in ids[..n] :: x in ids;
    assert forall x | x in ids[n..] :: x in ids;
  }

  /** The two rows of every clash are read in one batch. */
  predicate PagedTogether(db: Tables, ids: seq<string>, batch: nat)
    requires batch > 0
  {
    forall i, j | 0 <= i < j < |ids| && Partners(db, ids[i], ids[j]) :: Page(i, batch) == Page(j, batch)
  }

  /** The batch the `i`-th row is read in. */
  function Page(i: nat, batch: nat): nat
    requires batch > 0
  {
    if i < batch then 0 else 1 + Page(i - batch, batch)
  }

  lemma PagesSplit(db: Tables, ids: seq<string>, batch: nat)
    requires batch > 0 && ids != []
    ensures var n := Min(batch, |ids|);
            PagedTogether(db, ids, batch) <==> NoneAcross(db, ids[..n], ids[n..]) && PagedTogether(db, ids[n..], batch)
  {
    var n := Min(batch, |ids|);
    var p, q := ids[..n], ids[n..];
    if PagedTogether(db, ids, batch) {
      forall j | 0 <= j < |q| ensures !Partnered(db, p, q[j]) {
        assert forall i | 0 <= i < |p| :: p[i] == ids[i];
        assert q[j] == ids[j + n] && n == batch && Page(j + n, batch) > 0;
      }
      forall i, j | 0 <= i < j < |q| && Partners(db, q[i], q[j]) ensures Page(i, batch) == Page(j, batch) {
        assert q[i] == ids[i + n] && q[j] == ids[j + n] && n == batch;
        assert Page(i + n, batch) == Page(j + n, batch);
      }
    }
    if NoneAcross(db, p, q) && PagedTogether(db, q, batch) { JoinPages(db, ids, batch); }
  }

  lemma JoinPages(db: Tables, ids: seq<string>, batch: nat)
    requires batch > 0 && ids != []
    requires var n := Min(batch, |ids|); NoneAcross(db, ids[..n], ids[n..]) && PagedTogether(db, ids[n..], batch)
    ensures PagedTogether(db, ids, batch)
  {
    var n := Min(batch, |ids|);
    var p, q := ids[..n], ids[n..];
    forall i, j | 0 <= i < n <= j < |ids| ensures !Partners(db, ids[i], ids[j]) {
      assert q[j - n] == ids[j] && !Partnered(db, p, q[j - n]);
      assert p[i] == ids[i] && p[i] in p;
    }
    forall i, j | 0 <= i < j < |ids| && Partners(db, ids[i], ids[j]) ensures Page(i, batch) == Page(j, batch) {
      if i >= n {
        assert q[i - n] == ids[i] && q[j - n] == ids[j] && n == batch;
        assert Page(i - n, batch) == Page(j - n, batch);
      }
    }
  }

  lemma {:induction false} DryIsWalked(db: Tables, counts: Counts, ids: seq<string>, batch: nat)
    requires Listed(db, ids) && batch > 0
    ensures DryCounts(db, counts, ids, batch).alreadyMoved <= counts.alreadyMoved + Walked(db, ids).alreadyMoved
    ensures DryCounts(db, counts, ids, batch) == Plus(counts, Walked(db, ids)) <==> PagedTogether(db, ids, batch)
    decreases |ids|
  {
    if ids != [] {
      var n := Min(batch, |ids|);
      var p, q := ids[..n], ids[n..];
      assert p + q == ids;
      PartsListed(db, ids, n);
      WalkCounts(db, counts, p);
      DryIsWalked(db, Plus(counts, Walked(db, p)), q, batch);
      WalkedApart(db, p, q);
      PagesSplit(db, ids, batch);
      DryAgrees(counts, Walked(db, p), Walked(db, q), Walked(db, ids), DryCounts(db, counts, ids, batch),
                NoneAcross(db, p, q), PagedTogether(db, q, batch));
    }
  }

  lemma DryAgrees(counts: Counts, p: Counts, q: Counts, whole: Counts, dry: Counts, apart: bool, rest: bool)
    requires Counted(whole, p, q, apart) && dry.alreadyMoved <= Plus(counts, p).alreadyMoved + q.alreadyMoved
    requires dry == Plus(Plus(counts, p), q) <==> rest
    ensures dry.alreadyMoved <= counts.alreadyMoved + whole.alreadyMoved
    ensures dry == Plus(counts, whole) <==> apart && rest
  {}

  /** A dry run of one batch size reports what the real run then does exactly when the two rows of
      every clash are read in one batch. */
  lemma DryRunTellsTheTruth(db: Tables, rank: Collation, batch: nat)
    requires Proper(rank) && batch > 0
    ensures Listed(db, Ordered(rank, Candidates(db)))
    ensures DryCounts(db, ZERO, Ordered(rank, Candidates(db)), batch) == RealRun(db, rank).1
       <==> PagedTogether(db, Ordered(rank, Candidates(db)), batch)
  {
    OrderedLists(rank, Candidates(db));
    WalkCounts(db, ZERO, Ordered(rank, Candidates(db)));
    DryIsWalked(db, ZERO, Ordered(rank, Candidates(db)), batch);
  }

  /** Whatever the batch size, exactly when no kept summary's chat would take the id of a chat-only
      summary. */
  lemma DryRunAlwaysTellsTheTruth(db: Tables, rank: Collation)
    requires Proper(rank)
    ensures Listed(db, Ordered(rank, Candidates(db)))
    ensures (forall batch: nat | batch > 0 ::
             DryCounts(db, ZERO, Ordered(rank, Candidates(db)), batch) == RealRun(db, rank).1)
            <==> NoClash(db)
  {
    OrderedLists(rank, Candidates(db));
    if NoClash(db) {
      forall batch: nat | batch > 0
        ensures DryCounts(db, ZERO, Ordered(rank, Candidates(db)), batch) == RealRun(db, rank).1
      {
        DryRunTellsTheTruth(db, rank, batch);
      }
    } else {
      var a, b :| Clash(db, a, b);
      RowByRowMisses(db, rank, a, b);
    }
  }

  lemma RowByRowMisses(db: Tables, rank: Collation, a: string, b: string)
    requires Proper(rank) && Clash(db, a, b)
    ensures Listed(db, Ordered(rank, Candidates(db)))
    ensures DryCounts(db, ZERO, Ordered(rank, Candidates(db)), 1) != RealRun(db, rank).1
  {
    OrderedLists(rank, Candidates(db));
    DryRunTellsTheTruth(db, rank, 1);
    NotPagedByOne(db, Ordered(rank, Candidates(db)), a, b);
  }

  lemma NotPagedByOne(db: Tables, ids: seq<string>, a: string, b: string)
    requires Clash(db, a, b) && a in ids && b in ids
    ensures !PagedTogether(db, ids, 1)
  {
    var i :| 0 <= i < |ids| && ids[i] == a;
    var j :| 0 <= j < |ids| && ids[j] == b;
    assert a != b && Partners(db, ids[i], ids[j]) && Partners(db, ids[j], ids[i]);
    PagesOfOne(i);
    PagesOfOne(j);
  }

  lemma {:induction false} PagesOfOne(i: nat)
    ensures Page(i, 1) == i
  {
    if i > 0 { PagesOfOne(i - 1); }
  }

  /** A clash: a kept summary and a chat-only one whose id is what the first one's chat would get. Read
      one row at a time, a dry run promises a move that the real run does not make. */
  lemma ClashMisleads(kept: Summary, only: Summary, payload: Payload, rank: Collation)
    requires Proper(rank) && !ChatOnly(kept) && ChatOnly(only) && HasTranscript(payload.messages)
    ensures var db := Tables(map["s" := kept, "s:chat" := only], map["s" := payload, "s:chat" := payload], map[]);
            Listed(db, Ordered(rank, Candidates(db)))
            && DryCounts(db, ZERO, Ordered(rank, Candidates(db)), 1) != RealRun(db, rank).1
  {
    var db := Tables(map["s" := kept, "s:chat" := only], map["s" := payload, "s:chat" := payload], map[]);
    assert "s:chat" == "s" + ":chat" && Clash(db, "s", "s:chat");
    RowByRowMisses(db, rank, "s", "s:chat");
  }

  // ------------------------------------------------------ what is left behind

  /** Without a clash every chat not yet moved becomes a session of its own: its summary goes with
      it when it was only the chat, and otherwise stays with its transcript cleared. */
  lemma {:induction false} EveryChatMoved(db: Tables, counts: Counts, ids: seq<string>, x: string)
    requires Listed(db, ids) && NoClash(db) && x in ids && ChatId(db, x) !in db.chats
    ensures var after := Visits(db, counts, ids).0; var s := db.summaries[x];
            && ChatId(db, x) in after.chats && after.chats[ChatId(db, x)] == ChatOf(s, db.payloads[x].messages.turns)
            && !Candidate(after, x)
            && (ChatOnly(s) ==> x !in after.summaries && x !in after.payloads)
            && (!ChatOnly(s) ==> x in after.summaries && after.summaries[x] == s.(chatMessageCount := 0)
                                 && (x in after.payloads <==> db.payloads[x].others.Some?)
                                 && (x in after.payloads ==>
                                       after.payloads[x] == db.payloads[x].(messages := JsonNull)))
    decreases |ids|
  {
    var n := |ids| - 1;
    var (before, sofar) := Visits(db, counts, ids[..n]);
    assert ids[n] !in ids[..n];
    if x == ids[n] {
      LastRowUntouched(db, counts, ids);
      ChatStaysMissing(db, counts, ids[..n], x);
    } else {
      assert x in ids[..n];
      EveryChatMoved(db, counts, ids[..n], x);
      VisitKeeps(before, sofar, ids[n], x);
      VisitKeeps(before, sofar, ids[n], ChatId(db, x));
    }
  }
}
