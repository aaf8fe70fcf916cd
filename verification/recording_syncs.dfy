/**
 One Request of each sync run says whether that sync failed: which one, and that
 it is the only one, whatever else runs meanwhile.
 */
module RecordingSyncs {
  import opened Options
  import opened RequestRecording
  import opened RecordingRuns
  import opened RecordingConservation
  import opened RecordingPages

  /** The first of the run's own records, or of its charged ones. */
  function FirstMine(who: Attribution, records: seq<Record>, chargedOnly: bool): Option<Record>
    decreases |records|
  {
    if records == [] then None
    else
      var n := |records| - 1;
      var before := FirstMine(who, records[..n], chargedOnly);
      if before.Some? then before
      else if records[n].kind == who.kind && records[n].channel == who.channel && (chargedOnly ==> records[n].charged)
      then Some(records[n]) else None
  }

  /** The record a run should answer on: its first charged one, or its first at all. */
  function Chosen(who: Attribution, records: seq<Record>): Option<Record> {
    var charged := FirstMine(who, records, true);
    if charged.Some? then charged else FirstMine(who, records, false)
  }

  lemma {:induction false} FirstMineIs(who: Attribution, records: seq<Record>, chargedOnly: bool)
    ensures FirstMine(who, records, chargedOnly).None? <==>
            forall r | r in records :: !(r.kind == who.kind && r.channel == who.channel && (chargedOnly ==> r.charged))
    ensures FirstMine(who, records, chargedOnly).Some? ==>
              exists i :: 0 <= i < |records| && records[i] == FirstMine(who, records, chargedOnly).value
                && records[i].kind == who.kind && records[i].channel == who.channel
                   && (chargedOnly ==> records[i].charged)
                && forall j | 0 <= j < i :: !(records[j].kind == who.kind && records[j].channel == who.channel
                                              && (chargedOnly ==> records[j].charged))
    decreases |records|
  {
    if records != [] {
      var n := |records| - 1;
      FirstMineIs(who, records[..n], chargedOnly);
      assert forall r | r in records :: r in records[..n] || r == records[n];
      if FirstMine(who, records[..n], chargedOnly).Some? {
        var i :| 0 <= i < n && records[..n][i] == FirstMine(who, records[..n], chargedOnly).value
          && records[..n][i].kind == who.kind && records[..n][i].channel == who.channel
             && (chargedOnly ==> records[..n][i].charged)
          && forall j | 0 <= j < i :: !(records[..n][j].kind == who.kind && records[..n][j].channel == who.channel
                                        && (chargedOnly ==> records[..n][j].charged));
        assert records[i] == records[..n][i];
        forall j | 0 <= j < i
          ensures !(records[j].kind == who.kind && records[j].channel == who.channel
                    && (chargedOnly ==> records[j].charged))
        {
          assert records[j] == records[..n][j];
        }
      }
    }
  }

  /** What an open run holds is always the choice among what it has been offered. */
  lemma {:induction false} HoldChooses(run: SyncCell, before: seq<Record>, records: seq<Record>)
    requires !run.closed && run.held == Chosen(run.who, before)
    ensures Hold(run, records).0.held == Chosen(run.who, before + records)
    decreases |records|
  {
    if records == [] {
      assert before + records == before;
    } else {
      var n := |records| - 1;
      HoldChooses(run, before, records[..n]);
      HoldKeepsShape(run, records[..n]);
      assert (before + records)[..|before| + n] == before + records[..n];
      ChosenGrows(run.who, before + records);
    }
  }

  /** The choice after one more record, from the choice before it. */
  lemma ChosenGrows(who: Attribution, records: seq<Record>)
    requires records != []
    ensures var n := |records| - 1;
            var before := Chosen(who, records[..n]);
            var mine := records[n].kind == who.kind && records[n].channel == who.channel;
            Chosen(who, records)
            == if mine && (before.None? || (records[n].charged && !before.value.charged))
               then Some(records[n]) else before
  {
    var n := |records| - 1;
    FirstMineIs(who, records[..n], true);
    FirstMineIs(who, records[..n], false);
  }

  // ------------------------------------------------------------- invariants

  predicate Distinct(records: seq<Record>) {
    forall i, j | 0 <= i < j < |records| :: records[i].id != records[j].id
  }

  /** Whether the record `id` should say its sync failed: only the choice of a closed run does. */
  function Expected(s: State, id: nat): Option<bool> {
    if id in s.through && s.through[id] < |s.runs|
    then
      var run := s.runs[s.through[id]];
      var chosen := Chosen(run.cell.who, run.seen);
      if run.cell.closed && chosen.Some? && chosen.value.id == id then Some(run.verdict) else None
    else None
  }

  predicate RunLaw(s: State, k: nat)
    requires k < |s.runs|
  {
    var run := s.runs[k];
    && (!run.cell.closed ==> run.cell.held == Chosen(run.cell.who, run.seen))
    && (forall r | r in run.seen :: r.id in s.through && s.through[r.id] == k && r.syncFailed.None?)
    && Distinct(run.seen)
  }

  predicate Shut(s: State, sync: Option<nat>) {
    sync.Some? ==> sync.value < |s.runs| && s.runs[sync.value].cell.closed
  }

  /** Run `k` closes into no open run, and nothing closes into it while it is open. */
  ghost predicate Enclosed(s: State, t: nat, d: nat, k: nat)
    requires IsBlock(s, t, d)
  {
    var block := s.tasks[t].blocks[d];
    block.InSync? && (block.run == k || block.was == Some(k)) ==> Shut(s, block.was)
  }

  /** What a run holds was last offered to it. */
  predicate HoldsItsOwn(s: State, j: nat)
    requires j < |s.runs|
  {
    var held := s.runs[j].cell.held;
    held.Some? ==> held.value.id in s.through && s.through[held.value.id] == j
  }

  predicate LetGo(s: State, r: Record) { r in s.buffer || r in s.drained }

  /** What a record that was let go says, if it was offered to no run, or to run `k` last. */
  predicate SaysRight(s: State, r: Record, k: nat) {
    if r.id !in s.through then r.syncFailed.None? else s.through[r.id] == k ==> r.syncFailed == Expected(s, r.id)
  }

  ghost predicate SyncInv(s: State, k: nat) {
    && (forall t, d | 0 <= t < |s.tasks| && 0 <= d < |s.tasks[t].blocks| :: Enclosed(s, t, d, k))
    && (k < |s.runs| ==> RunLaw(s, k))
    && (forall j | 0 <= j < |s.runs| :: HoldsItsOwn(s, j))
    && (forall p, r | 0 <= p < |s.pages| && r in s.pages[p].cell.answered :: r.id !in s.through)
    && (forall id | id in s.through :: id < |s.log| && s.through[id] < |s.runs|)
    && (forall r | LetGo(s, r) :: SaysRight(s, r, k))
  }

  /** Run `k` is opened inside no open run, and none is opened inside it while it is open. */
  predicate Alone(steps: seq<Step>, k: nat)
    requires After(steps).Some?
    decreases |steps|
  {
    steps == []
    || var n := |steps| - 1;
       && Alone(steps[..n], k)
       && (steps[n].EnterSync? ==> OpensApart(After(steps[..n]).value, steps[n].task, k))
  }

  predicate OpensApart(s: State, t: nat, k: nat) {
    t < |s.tasks| && (|s.runs| == k || s.tasks[t].vars.sync == Some(k) ==> Shut(s, s.tasks[t].vars.sync))
  }

  // ------------------------------------------------------------------ steps

  /** Records never offered to a run before, and in no page. */
  ghost predicate Unoffered(s: State, records: seq<Record>) {
    && Distinct(records)
    && (forall r | r in records :: r.id !in s.through && r.id < |s.log| && r.syncFailed.None?)
    && (forall p, r, x | 0 <= p < |s.pages| && r in s.pages[p].cell.answered && x in records :: r.id != x.id)
  }

  /** Records no run holds and no page has, and none of them last offered to run `k`. */
  ghost predicate Elsewhere(s: State, records: seq<Record>, k: nat) {
    && (forall r | r in records ::
          r.id < |s.log| && if r.id in s.through then s.through[r.id] != k else r.syncFailed.None?)
    && (forall j, r | 0 <= j < |s.runs| && r in records && s.runs[j].cell.held.Some? ::
        s.runs[j].cell.held.value.id != r.id)
    && (forall p, r, x | 0 <= p < |s.pages| && r in s.pages[p].cell.answered && x in records :: r.id != x.id)
  }

  lemma PushUnoffered(s: State, sync: Option<nat>, records: seq<Record>, k: nat)
    requires SyncInv(s, k) && RefOk(sync, |s.runs|) && Unoffered(s, records)
    ensures SyncInv(PushVia(s, sync, records), k)
  {
    forall j, r | 0 <= j < |s.runs| && r in records && s.runs[j].cell.held.Some?
      ensures s.runs[j].cell.held.value.id != r.id
    {
      assert HoldsItsOwn(s, j);
    }
    if sync == Some(k) && !s.runs[k].cell.closed {
      OfferedToIt(s, records, k);
    } else {
      PushElsewhere(s, sync, records, k);
    }
  }

  lemma StillEnclosed(s: State, s': State, k: nat)
    requires (forall t, d | 0 <= t < |s.tasks| && 0 <= d < |s.tasks[t].blocks| :: Enclosed(s, t, d, k))
    requires s'.tasks == s.tasks && |s'.runs| >= |s.runs|
    requires forall j | 0 <= j < |s.runs| && s.runs[j].cell.closed :: s'.runs[j].cell.closed
    ensures forall t, d | 0 <= t < |s'.tasks| && 0 <= d < |s'.tasks[t].blocks| :: Enclosed(s', t, d, k)
  {
    forall t, d | 0 <= t < |s'.tasks| && 0 <= d < |s'.tasks[t].blocks| ensures Enclosed(s', t, d, k) {
      assert Enclosed(s, t, d, k);
    }
  }

  /** What is pushed past run `k` changes nothing for it. */
  lemma PushElsewhere(s: State, sync: Option<nat>, records: seq<Record>, k: nat)
    requires SyncInv(s, k) && RefOk(sync, |s.runs|) && Elsewhere(s, records, k)
    requires sync == Some(k) ==> s.runs[k].cell.closed
    ensures SyncInv(PushVia(s, sync, records), k)
  {
    var s' := PushVia(s, sync, records);
    if sync.None? || s.runs[sync.value].cell.closed {
      assert s'.runs == s.runs && s'.through == s.through;
      StillEnclosed(s, s', k);
      if k < |s.runs| { assert RunLaw(s', k); }
      forall j | 0 <= j < |s'.runs| ensures HoldsItsOwn(s', j) { assert HoldsItsOwn(s, j); }
      forall r | LetGo(s', r) ensures SaysRight(s', r, k) { assert LetGo(s, r) ==> SaysRight(s, r, k); }
    } else {
      OfferedToAnother(s, sync.value, records, k);
    }
  }

  lemma OfferedHolds(s: State, j: nat, records: seq<Record>)
    requires j < |s.runs| && !s.runs[j].cell.closed && forall i | 0 <= i < |s.runs| :: HoldsItsOwn(s, i)
    requires forall i, r | 0 <= i < |s.runs| && r in records && s.runs[i].cell.held.Some? ::
             s.runs[i].cell.held.value.id != r.id
    ensures var s' := PushVia(s, Some(j), records); forall i | 0 <= i < |s'.runs| :: HoldsItsOwn(s', i)
  {
    var s' := PushVia(s, Some(j), records);
    HoldKeepsShape(s.runs[j].cell, records);
    HoldFrom(s.runs[j].cell, records);
    forall i | 0 <= i < |s'.runs| ensures HoldsItsOwn(s', i) {
      assert HoldsItsOwn(s, i);
      if i != j { assert s'.runs[i] == s.runs[i]; }
    }
  }

  lemma OfferedToAnother(s: State, j: nat, records: seq<Record>, k: nat)
    requires SyncInv(s, k) && j < |s.runs| && !s.runs[j].cell.closed && j != k && Elsewhere(s, records, k)
    ensures SyncInv(PushVia(s, Some(j), records), k)
  {
    var s' := PushVia(s, Some(j), records);
    HoldKeepsShape(s.runs[j].cell, records);
    HoldFrom(s.runs[j].cell, records);
    StillEnclosed(s, s', k);
    OfferedHolds(s, j, records);
    assert HoldsItsOwn(s, j);
    if k < |s.runs| { assert RunLaw(s, k) && s'.runs[k] == s.runs[k]; }
    forall r | LetGo(s', r) ensures SaysRight(s', r, k) {
      assert LetGo(s, r) ==> SaysRight(s, r, k);
      if k < |s.runs| { assert s'.runs[k] == s.runs[k]; }
    }
  }

  lemma OfferedToIt(s: State, records: seq<Record>, k: nat)
    requires SyncInv(s, k) && k < |s.runs| && !s.runs[k].cell.closed && Unoffered(s, records)
    requires forall j, r | 0 <= j < |s.runs| && r in records && s.runs[j].cell.held.Some? ::
             s.runs[j].cell.held.value.id != r.id
    ensures SyncInv(PushVia(s, Some(k), records), k)
  {
    var s' := PushVia(s, Some(k), records);
    var run := s.runs[k];
    assert RunLaw(s, k);
    HoldChooses(run.cell, run.seen, records);
    HoldKeepsShape(run.cell, records);
    HoldFrom(run.cell, records);
    StillEnclosed(s, s', k);
    OfferedHolds(s, k, records);
    OfferedRunLaw(s, s', k, records);
    OfferedSayNothing(s, records, k);
  }

  lemma OfferedSayNothing(s: State, records: seq<Record>, k: nat)
    requires SyncInv(s, k) && k < |s.runs| && !s.runs[k].cell.closed && Unoffered(s, records)
    ensures forall r | LetGo(PushVia(s, Some(k), records), r) :: SaysRight(PushVia(s, Some(k), records), r, k)
  {
    var s' := PushVia(s, Some(k), records);
    var run := s.runs[k];
    assert RunLaw(s, k);
    HoldKeepsShape(run.cell, records);
    HoldFrom(run.cell, records);
    FirstMineIs(run.cell.who, run.seen, true);
    FirstMineIs(run.cell.who, run.seen, false);
    forall r | LetGo(s', r) ensures SaysRight(s', r, k) {
      if LetGo(s, r) { assert SaysRight(s, r, k); } else if r !in records { assert r in run.seen; }
    }
  }

  lemma OfferedRunLaw(s: State, s': State, k: nat, records: seq<Record>)
    requires k < |s.runs| == |s'.runs| && RunLaw(s, k) && Unoffered(s, records)
    requires s'.runs[k].seen == s.runs[k].seen + records && s'.through == s.through + map id | id in IdSet(records) :: k
    requires !s'.runs[k].cell.closed ==> s'.runs[k].cell.held == Chosen(s'.runs[k].cell.who, s'.runs[k].seen)
    ensures RunLaw(s', k)
  {
    var seen := s.runs[k].seen;
    forall r | r in s'.runs[k].seen ensures r.id in s'.through && s'.through[r.id] == k && r.syncFailed.None? {
      assert r in seen || r in records;
    }
    forall i, j | 0 <= i < j < |seen + records| ensures (seen + records)[i].id != (seen + records)[j].id {
      if i < |seen| <= j {
        assert seen[i] in seen && records[j - |seen|] in records;
      }
    }
  }

  /** The state between a run's close and the push of what it held. */
  function Shutting(s: State, j: nat, failed: bool): State
    requires j < |s.runs|
  {
    var run := s.runs[j];
    var ended := run.cell.(failed := run.cell.failed || failed);
    s.(runs := s.runs[j := RunSlot(Closed(ended).0, Done, run.seen, ended.failed)])
  }

  /** Run `k` closing: its choice is stamped with the verdict, and nothing else is. */
  lemma CloseItKeeps(s: State, k: nat, failed: bool, outer: Option<nat>)
    requires SyncInv(s, k) && k < |s.runs| && !s.runs[k].cell.closed && Shut(s, outer)
    requires forall id: nat :: Census(s, id) <= 1
    ensures SyncInv(CloseRun(s, k, failed, outer), k)
  {
    var run := s.runs[k];
    var s' := CloseRun(s, k, failed, outer);
    var ended := run.cell.(failed := run.cell.failed || failed);
    assert RunLaw(s, k);
    assert s'.buffer == s.buffer + Closed(ended).1;
    assert s'.runs == Shutting(s, k, failed).runs;
    StillEnclosed(s, s', k);
    assert RunLaw(s', k);
    forall j | 0 <= j < |s'.runs| ensures HoldsItsOwn(s', j) { assert HoldsItsOwn(s, j); }
    forall r | LetGo(s', r) ensures SaysRight(s', r, k) {
      if LetGo(s, r) {
        assert SaysRight(s, r, k);
        if run.cell.held.Some? && run.cell.held.value.id == r.id { HeldOnlyThere(s, k, r); }
      } else {
        FirstMineIs(run.cell.who, run.seen, true);
        FirstMineIs(run.cell.who, run.seen, false);
        assert run.cell.held.value in run.seen;
      }
    }
  }

  /** Another run closing, into any run but an open `k`. */
  lemma CloseOtherKeeps(s: State, j: nat, failed: bool, outer: Option<nat>, k: nat)
    requires SyncInv(s, k) && j < |s.runs| && j != k && RefOk(outer, |s.runs|) && (outer == Some(k) ==> Shut(s, outer))
    ensures SyncInv(CloseRun(s, j, failed, outer), k)
  {
    var run := s.runs[j];
    var shut := Shutting(s, j, failed);
    var stamped := Closed(run.cell.(failed := run.cell.failed || failed)).1;
    assert HoldsItsOwn(s, j);
    StillEnclosed(s, shut, k);
    if k < |s.runs| { assert RunLaw(s, k) && shut.runs[k] == s.runs[k]; }
    forall i | 0 <= i < |shut.runs| ensures HoldsItsOwn(shut, i) { assert HoldsItsOwn(s, i); }
    forall r | LetGo(shut, r) ensures SaysRight(shut, r, k) { assert SaysRight(s, r, k); }
    forall i, r | 0 <= i < |shut.runs| && r in stamped && shut.runs[i].cell.held.Some?
      ensures shut.runs[i].cell.held.value.id != r.id
    {
      assert HoldsItsOwn(shut, i) && i != j && s.through[r.id] == j;
    }
    PushElsewhere(shut, outer, stamped, k);
  }

  lemma HeldOnlyThere(s: State, k: nat, r: Record)
    requires k < |s.runs| && s.runs[k].cell.held.Some? && s.runs[k].cell.held.value.id == r.id
    requires r in s.buffer || r in s.drained
    ensures Census(s, r.id) >= 2
  {
    assert HeldBack(s.runs)[k][0].id == r.id;
    TotalMember(HeldBack(s.runs), k, 0);
    if i :| 0 <= i < |s.buffer| && s.buffer[i] == r { TimesMember(s.buffer, i); }
    if i :| 0 <= i < |s.drained| && s.drained[i] == r { TimesMember(s.drained, i); }
  }

  lemma JudgedOne(s: State, p: nat, j: nat)
    requires PagesInv(s) && p < |s.pages| && j < |s.pages[p].cell.answered|
    ensures var judged := Judged(s.pages[p].cell); var r := s.pages[p].cell.answered[j];
            judged[j].id == r.id && r.id < |s.log| && s.log[r.id].page == p && judged[j].syncFailed.None?
            && forall i | 0 <= i < j :: judged[i].id < judged[j].id
  {
    assert PageLaw(s, p) && forall i | 0 <= i < |s.log| :: EntryLaw(s.log, i);
    WaitingIs(s.log, p, s.pages[p].home.Done?, j);
    assert EntryLaw(s.log, s.pages[p].cell.answered[j].id);
  }

  /** A page's answers are its own: no other page or run has been given them. */
  lemma JudgedUnoffered(s: State, marked: State, p: nat, k: nat)
    requires PagesInv(s) && SyncInv(s, k) && p < |s.pages|
    requires marked.log == s.log && marked.through == s.through
    requires marked.pages == s.pages[p := PageSlot(s.pages[p].cell.(answered := []), Done)]
    ensures Unoffered(marked, Judged(s.pages[p].cell))
  {
    var judged := Judged(s.pages[p].cell);
    forall i, j | 0 <= i < j < |judged| ensures judged[i].id != judged[j].id { JudgedOne(s, p, j); }
    forall x | x in judged ensures x.id !in s.through && x.id < |s.log| && x.syncFailed.None? {
      var j :| 0 <= j < |judged| && judged[j] == x;
      JudgedOne(s, p, j);
      assert s.pages[p].cell.answered[j] in s.pages[p].cell.answered;
    }
    forall q, r, x | 0 <= q < |marked.pages| && r in marked.pages[q].cell.answered && x in judged ensures r.id != x.id {
      var j :| 0 <= j < |judged| && judged[j] == x;
      var i :| 0 <= i < |s.pages[q].cell.answered| && s.pages[q].cell.answered[i] == r;
      JudgedOne(s, p, j);
      JudgedOne(s, q, i);
    }
  }

  /** Popping a block, or any step that leaves runs' cells, pages' answers and the log alone. */
  lemma QuietSyncs(s: State, s': State, k: nat)
    requires SyncInv(s, k) && s'.through == s.through && |s'.log| == |s.log|
    requires |s'.runs| >= |s.runs|
    requires forall j | 0 <= j < |s.runs| ::
             s'.runs[j] == s.runs[j].(cell := s.runs[j].cell.(failed := s'.runs[j].cell.failed))
    requires forall j | |s.runs| <= j < |s'.runs| :: s'.runs[j].seen == [] && s'.runs[j].cell.held.None?
    requires forall p, r | 0 <= p < |s'.pages| && r in s'.pages[p].cell.answered ::
             p < |s.pages| && r in s.pages[p].cell.answered
    requires forall r | LetGo(s', r) :: LetGo(s, r)
    requires forall t, d | 0 <= t < |s'.tasks| && 0 <= d < |s'.tasks[t].blocks| ::
               (IsBlock(s, t, d) && s'.tasks[t].blocks[d] == s.tasks[t].blocks[d]) || Enclosed(s', t, d, k)
    ensures SyncInv(s', k)
  {
    forall t, d | 0 <= t < |s'.tasks| && 0 <= d < |s'.tasks[t].blocks| ensures Enclosed(s', t, d, k) {
      if IsBlock(s, t, d) { assert Enclosed(s, t, d, k); }
    }
    if k < |s.runs| { assert RunLaw(s, k) && RunLaw(s', k); } else if k < |s'.runs| { assert RunLaw(s', k); }
    forall j | 0 <= j < |s'.runs| ensures HoldsItsOwn(s', j) {
      if j < |s.runs| { assert HoldsItsOwn(s, j); }
    }
    forall r | LetGo(s', r) ensures SaysRight(s', r, k) {
      assert SaysRight(s, r, k);
    }
  }

  lemma LeaveSyncs(s: State, t: nat, failed: bool, k: nat)
    requires WellFormed(s) && PagesInv(s) && SyncInv(s, k) && t < |s.tasks| && s.tasks[t].blocks != []
    requires forall id: nat :: Census(s, id) <= 1
    ensures SyncInv(Leave(s, t, failed), k)
  {
    var task := s.tasks[t];
    var d := |task.blocks| - 1;
    assert BlockOk(s, t, d) && VarsOk(s, task.vars) && Enclosed(s, t, d, k);
    var vars := Restored(task.vars, task.blocks[d]);
    var left := s.(tasks := s.tasks[t := Task(vars, task.blocks[..d])]);
    forall u, e | 0 <= u < |left.tasks| && 0 <= e < |left.tasks[u].blocks|
      ensures IsBlock(s, u, e) && left.tasks[u].blocks[e] == s.tasks[u].blocks[e] {}
    QuietSyncs(s, left, k);
    match task.blocks[d]
    case InPage(p, _) =>
      ClosePageSyncs(s, left, p, vars.sync, k);
    case InSync(j, outer) =>
      assert RunHomeOk(s, j);
      forall id: nat ensures Census(left, id) <= 1 { assert Census(left, id) == Census(s, id); }
      if j == k { CloseItKeeps(left, k, failed, outer); } else { CloseOtherKeeps(left, j, failed, outer, k); }
    case _ =>
  }

  lemma ClosePageSyncs(s: State, left: State, p: nat, sync: Option<nat>, k: nat)
    requires PagesInv(s) && SyncInv(s, k) && p < |s.pages| && RefOk(sync, |s.runs|)
    requires left == s.(tasks := left.tasks)
    requires forall t, d | 0 <= t < |left.tasks| && 0 <= d < |left.tasks[t].blocks| ::
               IsBlock(s, t, d) && left.tasks[t].blocks[d] == s.tasks[t].blocks[d]
    ensures SyncInv(ClosePage(left, p, sync), k)
  {
    var cell := s.pages[p].cell;
    var marked := left.(pages := s.pages[p := PageSlot(cell.(answered := []), Done)]);
    QuietSyncs(s, marked, k);
    JudgedUnoffered(s, marked, p, k);
    PushUnoffered(marked, sync, Judged(cell), k);
  }

  lemma AttemptSyncs(s: State, t: nat, p: nat, a: Attempt, k: nat)
    requires WellFormed(s) && PagesInv(s) && SyncInv(s, k) && t < |s.tasks| && p < |s.pages|
    ensures SyncInv(Record1(s, t, p, a), k)
  {
    var vars := s.tasks[t].vars;
    assert VarsOk(s, vars);
    var r := NewRecord(s.pages[p].cell, a, vars.who, |s.log|);
    var counted := Counted(s, t, p, a);
    assert |s.log| !in s.through;
    AnswersLogged(s);
    StillEnclosed(s, counted, k);
    if k < |counted.runs| { assert RunLaw(s, k) && RunLaw(counted, k); }
    forall j | 0 <= j < |counted.runs| ensures HoldsItsOwn(counted, j) { assert HoldsItsOwn(s, j); }
    forall x | LetGo(counted, x) ensures SaysRight(counted, x, k) { assert SaysRight(s, x, k); }
    if !(r.cause.None? && vars.page == Some(p)) {
      assert counted.pages[p].cell.answered == s.pages[p].cell.answered;
      PushUnoffered(counted, vars.sync, [r], k);
    }
  }

  lemma AnswersLogged(s: State)
    requires PagesInv(s)
    ensures forall p, r | 0 <= p < |s.pages| && r in s.pages[p].cell.answered :: r.id < |s.log|
  {
    forall p, r | 0 <= p < |s.pages| && r in s.pages[p].cell.answered ensures r.id < |s.log| {
      assert Exists(s, r);
      ExistsFits(s, r);
    }
  }

  lemma NextSyncs(s: State, step: Step, k: nat)
    requires WellFormed(s) && PagesInv(s) && SyncInv(s, k) && Enabled(s, step)
    requires forall id: nat :: Census(s, id) <= 1
    requires step.EnterSync? ==> OpensApart(s, step.task, k)
    ensures SyncInv(Next(s, step), k)
  {
    match step
    case Exit(t, failed) => LeaveSyncs(s, t, failed, k);
    case Attempted(t, p, a) => AttemptSyncs(s, t, p, a, k);
    case _ => OtherSyncs(s, step, k);
  }

  lemma OtherSyncs(s: State, step: Step, k: nat)
    requires WellFormed(s) && SyncInv(s, k) && Enabled(s, step) && !step.Exit? && !step.Attempted?
    requires step.EnterSync? ==> OpensApart(s, step.task, k)
    ensures SyncInv(Next(s, step), k)
  {
    if step.EnterSync? {
      QuietSyncs(s, Next(s, step), k);
    } else if step.EnterAttributed? || step.EnterTallied? || step.EnterPage? {
      QuietSyncs(s, Next(s, step), k);
    } else {
      QuietSyncs(s, Next(s, step), k);
    }
  }

  lemma {:induction false} SyncsAlways(steps: seq<Step>, k: nat)
    requires After(steps).Some? && Alone(steps, k)
    ensures SyncInv(After(steps).value, k)
    decreases |steps|
  {
    if steps != [] {
      var before := steps[..|steps| - 1];
      SyncsAlways(before, k);
      PagesAlways(before);
      forall id: nat ensures Census(After(before).value, id) <= 1 { Conservation(before, id); }
      NextSyncs(After(before).value, steps[|steps| - 1], k);
    }
  }

  // --------------------------------------------------------------- theorems

  /** A closed run that no run enclosed or was opened in, however other runs nest: it stamped exactly one
      of the records of its own it was offered, the first charged one or the first at all, with whether
      the sync failed as it closed. */
  lemma StampsAlone(steps: seq<Step>, k: nat)
    requires After(steps).Some? && Alone(steps, k)
    requires k < |After(steps).value.runs| && After(steps).value.runs[k].cell.closed
    ensures var s := After(steps).value; var run := s.runs[k]; var chosen := Chosen(run.cell.who, run.seen);
            forall r | LetGo(s, r) && r.id in IdSet(run.seen) ::
              r.syncFailed == if chosen.Some? && r.id == chosen.value.id then Some(run.verdict) else None
    ensures var s := After(steps).value; var run := s.runs[k]; var chosen := Chosen(run.cell.who, run.seen);
            chosen.Some? ==>
              chosen.value in run.seen
              && Times(s.buffer, chosen.value.id) + Times(s.drained, chosen.value.id) == 1
  {
    var s := After(steps).value;
    var run := s.runs[k];
    var chosen := Chosen(run.cell.who, run.seen);
    SyncsAlways(steps, k);
    assert RunLaw(s, k);
    FirstMineIs(run.cell.who, run.seen, true);
    FirstMineIs(run.cell.who, run.seen, false);
    forall r | LetGo(s, r) && r.id in IdSet(run.seen) ensures SaysRight(s, r, k) && s.through[r.id] == k {}
    if chosen.Some? {
      assert chosen.value in run.seen;
      Conservation(steps, chosen.value.id);
      NowhereElse(s, k, chosen.value.id);
    }
  }

  /** What a closed run was offered is in no page and held by no run. */
  lemma NowhereElse(s: State, k: nat, id: nat)
    requires WellFormed(s) && SyncInv(s, k) && k < |s.runs| && s.runs[k].cell.closed
    requires id in s.through && s.through[id] == k
    ensures Total(Answers(s.pages), id) == 0 && Total(HeldBack(s.runs), id) == 0
  {
    forall p | 0 <= p < |Answers(s.pages)| ensures Times(Answers(s.pages)[p], id) == 0 {
      TimesNone(s.pages[p].cell.answered, id);
    }
    TotalNone(Answers(s.pages), id);
    forall j | 0 <= j < |HeldBack(s.runs)| ensures Times(HeldBack(s.runs)[j], id) == 0 {
      HeldElsewhere(s, j, k, id);
    }
    TotalNone(HeldBack(s.runs), id);
  }

  lemma HeldElsewhere(s: State, j: nat, k: nat, id: nat)
    requires WellFormed(s) && SyncInv(s, k) && j < |s.runs| && k < |s.runs| && s.runs[k].cell.closed
    requires id in s.through && s.through[id] == k
    ensures Times(HeldBy(s.runs[j].cell), id) == 0
  {
    assert HoldsItsOwn(s, j) && RunHomeOk(s, j);
    if s.runs[j].cell.held.Some? { TimesOne(s.runs[j].cell.held.value, id); }
  }

  lemma HoldSingle(run: SyncCell, r: Record)
    requires !run.closed
    ensures Hold(run, [r]) == HoldOne(run, r)
  {
    assert [r][..0] == [];
    var none: seq<Record> := [];
    assert none + HoldOne(run, r).1 == HoldOne(run, r).1;
    assert HoldAll(run, [r][..0]) == (run, none);
  }

  /** Why runs must not nest: what an inner run lets go, stamped, an open outer run of the same kind
      and Channel with nothing to hold keeps in turn, and stamps again with its own verdict. */
  lemma NestedRunLosesItsStamp(outer: SyncCell, inner: SyncCell, failed: bool)
    requires !outer.closed && outer.held.None? && inner.held.Some? && Mine(outer, inner.held.value)
    ensures Closed(inner).1 == [inner.held.value.(syncFailed := Some(inner.failed))]
    ensures Hold(outer, Closed(inner).1).1 == []
    ensures var kept := Hold(outer, Closed(inner).1).0.(failed := failed);
            Closed(kept).1 == [inner.held.value.(syncFailed := Some(failed))]
  {
    HoldSingle(outer, Closed(inner).1[0]);
  }
}
