/**
 What every page keeps under every interleaving: its chain of attempts, the
 answers that wait in it, which one of them may be Useful; and, with
 conservation, that only an answer into a closed page can fail to be drained.
 */
module RecordingPages {
  import opened Options
  import opened RequestRecording
  import opened RecordingRuns
  import opened RecordingConservation

  // ---------------------------------------------------- a page's own history

  function CountOf(log: seq<Entry>, p: nat): nat
    decreases |log|
  {
    if log == [] then 0 else CountOf(log[..|log| - 1], p) + if log[|log| - 1].page == p then 1 else 0
  }

  function FirstOf(log: seq<Entry>, p: nat): Option<nat>
    decreases |log|
  {
    if log == [] then None
    else
      var before := FirstOf(log[..|log| - 1], p);
      if before.Some? then before else if log[|log| - 1].page == p then Some(|log| - 1) else None
  }

  /** The answers recorded into page `p`, before it closed or after. */
  function Waiting(log: seq<Entry>, p: nat, late: bool): seq<Record>
    decreases |log|
  {
    if log == [] then []
    else
      var e := log[|log| - 1];
      Waiting(log[..|log| - 1], p, late) + if e.page == p && e.kept && e.late == late then [e.record] else []
  }

  lemma Logged(log: seq<Entry>, e: Entry, p: nat, late: bool)
    ensures CountOf(log + [e], p) == CountOf(log, p) + if e.page == p then 1 else 0
    ensures FirstOf(log + [e], p)
         == if FirstOf(log, p).Some? then FirstOf(log, p) else if e.page == p then Some(|log|) else None
    ensures Waiting(log + [e], p, late)
         == Waiting(log, p, late) + if e.page == p && e.kept && e.late == late then [e.record] else []
  {
    assert (log + [e])[..|log|] == log;
  }

  lemma {:induction false} FirstOfIs(log: seq<Entry>, p: nat)
    ensures FirstOf(log, p).None? <==> CountOf(log, p) == 0
    ensures FirstOf(log, p).Some? ==> FirstOf(log, p).value < |log| && log[FirstOf(log, p).value].page == p
    ensures CountOf(log, p) == 0 <==> forall i | 0 <= i < |log| :: log[i].page != p
    decreases |log|
  {
    if log != [] {
      var before := log[..|log| - 1];
      FirstOfIs(before, p);
      assert forall i | 0 <= i < |before| :: before[i] == log[i];
    }
  }

  /** `Waiting` holds kept answers of the page, in the order they were made. */
  lemma {:induction false} WaitingIs(log: seq<Entry>, p: nat, late: bool, j: nat)
    requires forall i | 0 <= i < |log| :: log[i].record.id == i
    requires j < |Waiting(log, p, late)|
    ensures var r := Waiting(log, p, late)[j];
            r.id < |log| && r == log[r.id].record && log[r.id].page == p && log[r.id].kept && log[r.id].late == late
    ensures forall i | 0 <= i < j :: Waiting(log, p, late)[i].id < Waiting(log, p, late)[j].id
    decreases |log|
  {
    var n := |log| - 1;
    var before := Waiting(log[..n], p, late);
    if j < |before| {
      WaitingIs(log[..n], p, late, j);
    } else {
      forall i | 0 <= i < j ensures before[i].id < n { WaitingIs(log[..n], p, late, i); }
    }
  }

  /** ... and all of them. */
  lemma {:induction false} WaitingHas(log: seq<Entry>, i: nat)
    requires i < |log| && log[i].kept
    ensures log[i].record in Waiting(log, log[i].page, log[i].late)
    decreases |log|
  {
    if i < |log| - 1 { WaitingHas(log[..|log| - 1], i); }
  }

  lemma {:induction false} NoneLate(log: seq<Entry>, p: nat)
    requires forall i | 0 <= i < |log| && log[i].page == p :: !log[i].late
    ensures Waiting(log, p, true) == []
    decreases |log|
  {
    if log != [] { NoneLate(log[..|log| - 1], p); }
  }

  // ------------------------------------------------------------- invariants

  /** A record with what closing a page or run may still write into it blanked. */
  function Core(r: Record): Record { r.(outcome := Idle, newPosts := None, repeatedPosts := None, syncFailed := None) }

  predicate EntryLaw(log: seq<Entry>, i: nat)
    requires i < |log|
  {
    var e := log[i];
    && e.record.id == i
    && e.record.attempt == CountOf(log[..i], e.page) + 1
    && e.record.chainId == Or(FirstOf(log[..i], e.page), i)
    && (e.record.outcome == Wasted <==> e.record.cause.Some?) && e.record.outcome != Useful
    && e.record.newPosts.None? && e.record.syncFailed.None?
    && e.record.charged == (e.paid && e.record.budget.Some?)
    && (e.kept ==> e.record.cause.None?) && (e.late ==> e.kept)
  }

  predicate PageLaw(s: State, p: nat)
    requires p < |s.pages|
  {
    var slot := s.pages[p];
    && slot.cell.attempts == CountOf(s.log, p)
    && slot.cell.chainId == FirstOf(s.log, p)
    && slot.cell.answered == Waiting(s.log, p, slot.home.Done?)
    && (!slot.home.Done? ==> forall i | 0 <= i < |s.log| && s.log[i].page == p :: !s.log[i].late)
    && (slot.home.Loose? ==> forall i | 0 <= i < |s.log| && s.log[i].page == p :: !s.log[i].kept)
  }

  /** The last answer a closed page had when it closed. */
  predicate IsLastAnswer(s: State, id: nat) {
    && id < |s.log|
    && var p := s.log[id].page;
       && p < |s.pages| && s.pages[p].home.Done?
       && var answers := Waiting(s.log, p, false);
          answers != [] && answers[|answers| - 1].id == id
  }

  predicate Fits(s: State, r: Record) {
    && r.id < |s.log| && Core(r) == Core(s.log[r.id].record)
    && (r.outcome == Wasted <==> r.cause.Some?)
    && (r.outcome == Useful ==> IsLastAnswer(s, r.id))
  }

  predicate Released(s: State, r: Record) {
    r in s.buffer || r in s.drained || exists k :: 0 <= k < |s.runs| && s.runs[k].cell.held == Some(r)
  }

  ghost predicate PagesInv(s: State) {
    && (forall i | 0 <= i < |s.log| :: EntryLaw(s.log, i) && s.log[i].page < |s.pages|)
    && (forall p | 0 <= p < |s.pages| :: PageLaw(s, p))
    && (forall r | Released(s, r) :: Fits(s, r))
  }

  /** Nothing comes out of a run that did not go into it. */
  lemma {:induction false} HoldFrom(run: SyncCell, records: seq<Record>)
    ensures forall r | r in Hold(run, records).1 :: r in records || run.held == Some(r)
    ensures Hold(run, records).0.held.Some? ==>
              Hold(run, records).0.held.value in records || Hold(run, records).0.held == run.held
    decreases |records|
  {
    if !run.closed && records != [] {
      var n := |records| - 1;
      HoldFrom(run, records[..n]);
      HoldKeepsShape(run, records[..n]);
      var (before, out) := HoldAll(run, records[..n]);
      assert forall r | r in records[..n] :: r in records;
      assert records[n] in records;
    }
  }

  lemma PushReleases(s: State, sync: Option<nat>, records: seq<Record>)
    requires RefOk(sync, |s.runs|)
    ensures forall r | Released(PushVia(s, sync, records), r) :: Released(s, r) || r in records
  {
    var s' := PushVia(s, sync, records);
    forall r | Released(s', r) ensures Released(s, r) || r in records {
      if sync.Some? {
        HoldFrom(s.runs[sync.value].cell, records);
        if r !in s'.buffer && r !in s'.drained {
          var k :| 0 <= k < |s'.runs| && s'.runs[k].cell.held == Some(r);
          assert k == sync.value || s.runs[k].cell.held == Some(r);
        }
      }
    }
  }

  /** Pushing records that fit keeps the invariant. */
  lemma PushKeeps(s: State, sync: Option<nat>, records: seq<Record>)
    requires PagesInv(s) && RefOk(sync, |s.runs|) && forall r | r in records :: Fits(s, r)
    ensures PagesInv(PushVia(s, sync, records))
  {
    var s' := PushVia(s, sync, records);
    assert s'.log == s.log && s'.pages == s.pages;
    PushReleases(s, sync, records);
    forall p | 0 <= p < |s'.pages| ensures PageLaw(s', p) { assert PageLaw(s, p); }
    forall r | Released(s', r) ensures Fits(s', r) { assert Fits(s, r); }
  }

  /** A step that leaves the log and each page's answers and home alone keeps the invariant. */
  lemma QuietKeeps(s: State, s': State)
    requires PagesInv(s) && s'.log == s.log && |s.pages| <= |s'.pages|
    requires forall p | 0 <= p < |s.pages| ::
               s'.pages[p].home == s.pages[p].home
               && s'.pages[p].cell == s.pages[p].cell.(
                    newPosts := s'.pages[p].cell.newPosts, repeatedPosts := s'.pages[p].cell.repeatedPosts,
                    changed := s'.pages[p].cell.changed)
    requires forall p | |s.pages| <= p < |s'.pages| ::
               !s'.pages[p].home.Done? && s'.pages[p].cell.attempts == 0 && s'.pages[p].cell.chainId.None?
                 && s'.pages[p].cell.answered == []
    requires forall r | Released(s', r) :: Released(s, r)
    ensures PagesInv(s')
  {
    forall p | 0 <= p < |s'.pages| ensures PageLaw(s', p) {
      if p < |s.pages| {
        assert PageLaw(s, p);
      } else {
        FirstOfIs(s.log, p);
        assert forall i | 0 <= i < |s.log| :: EntryLaw(s.log, i) && s.log[i].page != p;
        Untouched(s.log, p);
      }
    }
    forall r | Released(s', r) ensures Fits(s', r) { assert Fits(s, r); }
  }

  lemma {:induction false} Untouched(log: seq<Entry>, p: nat)
    requires forall i | 0 <= i < |log| :: log[i].page != p
    ensures CountOf(log, p) == 0 && FirstOf(log, p).None? && Waiting(log, p, false) == []
    decreases |log|
  {
    if log != [] { Untouched(log[..|log| - 1], p); }
  }

  lemma LeaveKeeps(s: State, t: nat, failed: bool)
    requires WellFormed(s) && PagesInv(s) && t < |s.tasks| && s.tasks[t].blocks != []
    ensures PagesInv(Leave(s, t, failed))
  {
    var task := s.tasks[t];
    var d := |task.blocks| - 1;
    assert BlockOk(s, t, d) && VarsOk(s, task.vars);
    var vars := Restored(task.vars, task.blocks[d]);
    var left := s.(tasks := s.tasks[t := Task(vars, task.blocks[..d])]);
    match task.blocks[d]
    case InPage(p, _) =>
      var cell := s.pages[p].cell;
      var marked := left.(pages := s.pages[p := PageSlot(cell.(answered := []), Done)]);
      CloseKeeps(s, marked, p);
      PushKeeps(marked, vars.sync, Judged(cell));
    case InSync(k, outer) =>
      CloseRunKeepsPages(s, left, k, failed, outer);
    case _ =>
      QuietKeeps(s, left);
  }

  lemma CloseRunKeepsPages(s: State, left: State, k: nat, failed: bool, outer: Option<nat>)
    requires PagesInv(s) && k < |s.runs| && RefOk(outer, |s.runs|) && left == s.(tasks := left.tasks)
    ensures PagesInv(CloseRun(left, k, failed, outer))
  {
    var run := s.runs[k];
    var ended := run.cell.(failed := run.cell.failed || failed);
    var marked := left.(runs := s.runs[k := RunSlot(Closed(ended).0, Done, run.seen, ended.failed)]);
    forall r | Released(marked, r) ensures Released(s, r) {
      if r !in s.buffer && r !in s.drained {
        var j :| 0 <= j < |marked.runs| && marked.runs[j].cell.held == Some(r);
        assert j != k && s.runs[j].cell.held == Some(r);
      }
    }
    QuietKeeps(s, marked);
    if run.cell.held.Some? {
      assert Released(s, run.cell.held.value) && Fits(s, run.cell.held.value);
      assert Fits(marked, Closed(ended).1[0]);
    }
    PushKeeps(marked, outer, Closed(ended).1);
  }

  lemma CloseKeeps(s: State, marked: State, p: nat)
    requires PagesInv(s) && p < |s.pages| && s.pages[p].home.Open?
    requires marked.log == s.log && marked.runs == s.runs && marked.buffer == s.buffer && marked.drained == s.drained
    requires marked.pages == s.pages[p := PageSlot(s.pages[p].cell.(answered := []), Done)]
    ensures PagesInv(marked)
    ensures forall r | r in Judged(s.pages[p].cell) :: Fits(marked, r)
  {
    assert PageLaw(s, p);
    NoneLate(s.log, p);
    forall q | 0 <= q < |marked.pages| ensures PageLaw(marked, q) { assert PageLaw(s, q); }
    forall r | Released(marked, r) ensures Fits(marked, r) {
      assert Released(s, r) && Fits(s, r);
    }
    forall j | 0 <= j < |Judged(s.pages[p].cell)| ensures Fits(marked, Judged(s.pages[p].cell)[j]) {
      JudgedFits(marked, s.pages[p].cell, p, j);
    }
  }

  lemma JudgedFits(s: State, cell: PageCell, p: nat, j: nat)
    requires PagesInv(s) && p < |s.pages| && s.pages[p].home.Done?
    requires cell.answered == Waiting(s.log, p, false) && j < |Judged(cell)|
    ensures Fits(s, Judged(cell)[j])
  {
    assert forall i | 0 <= i < |s.log| :: EntryLaw(s.log, i);
    WaitingIs(s.log, p, false, j);
    var was := Waiting(s.log, p, false)[j];
    assert EntryLaw(s.log, was.id) && Core(Judged(cell)[j]) == Core(was);
  }

  lemma AttemptKeeps(s: State, t: nat, p: nat, a: Attempt)
    requires WellFormed(s) && PagesInv(s) && t < |s.tasks| && p < |s.pages|
    ensures PagesInv(Record1(s, t, p, a))
  {
    var vars := s.tasks[t].vars;
    assert VarsOk(s, vars);
    var cell := s.pages[p].cell;
    var r := NewRecord(cell, a, vars.who, |s.log|);
    var counted := Counted(s, t, p, a);
    var e := counted.log[|s.log|];
    assert LogsOne(s, counted, e, p);
    CountedKeeps(s, counted, e, p);
    if !e.kept { PushKeeps(counted, vars.sync, [r]); }
  }

  /** What logging one attempt of page `p` does to the log and to that page. */
  predicate LogsOne(s: State, counted: State, e: Entry, p: nat) {
    && p < |s.pages| && e.page == p
    && counted.log == s.log + [e] && counted.buffer == s.buffer && counted.drained == s.drained
       && counted.runs == s.runs
    && |counted.pages| == |s.pages|
    && (forall q | 0 <= q < |s.pages| && q != p :: counted.pages[q] == s.pages[q])
    && counted.pages[p].home == s.pages[p].home
    && counted.pages[p].cell.attempts == s.pages[p].cell.attempts + 1
    && counted.pages[p].cell.chainId == Some(Or(s.pages[p].cell.chainId, |s.log|))
    && counted.pages[p].cell.answered == s.pages[p].cell.answered + (if e.kept then [e.record] else [])
    && e.record.id == |s.log| && e.record.attempt == s.pages[p].cell.attempts + 1
    && e.record.chainId == Or(s.pages[p].cell.chainId, |s.log|)
    && (e.record.outcome == Wasted <==> e.record.cause.Some?) && e.record.outcome != Useful
    && e.record.newPosts.None? && e.record.syncFailed.None?
    && e.record.charged == (e.paid && e.record.budget.Some?)
    && (e.kept ==> e.record.cause.None? && !s.pages[p].home.Loose?) && e.late == (e.kept && s.pages[p].home.Done?)
  }

  lemma CountedKeeps(s: State, counted: State, e: Entry, p: nat)
    requires PagesInv(s) && LogsOne(s, counted, e, p)
    ensures PagesInv(counted) && Fits(counted, e.record)
  {
    forall q | 0 <= q < |counted.pages| ensures PageLaw(counted, q) {
      assert PageLaw(s, q);
      Logged(s.log, e, q, s.pages[q].home.Done?);
    }
    forall i | 0 <= i < |counted.log| ensures EntryLaw(counted.log, i) && counted.log[i].page < |counted.pages| {
      CountedEntry(s, counted, e, p, i);
    }
    forall x | Released(counted, x) ensures Fits(counted, x) { CountedReleased(s, counted, e, p, x); }
    CountedEntry(s, counted, e, p, |s.log|);
  }

  lemma CountedEntry(s: State, counted: State, e: Entry, p: nat, i: nat)
    requires PagesInv(s) && LogsOne(s, counted, e, p) && i < |counted.log|
    ensures EntryLaw(counted.log, i) && counted.log[i].page < |counted.pages|
  {
    if i < |s.log| {
      assert EntryLaw(s.log, i) && counted.log[..i] == s.log[..i];
    } else {
      assert counted.log[..i] == s.log && PageLaw(s, p);
    }
  }

  lemma CountedReleased(s: State, counted: State, e: Entry, p: nat, x: Record)
    requires PagesInv(s) && LogsOne(s, counted, e, p) && Released(counted, x)
    ensures Fits(counted, x)
  {
    assert Released(s, x) && Fits(s, x);
    if x.outcome == Useful { Logged(s.log, e, s.log[x.id].page, false); }
  }

  lemma NextKeeps(s: State, step: Step)
    requires WellFormed(s) && PagesInv(s) && Enabled(s, step)
    ensures PagesInv(Next(s, step))
  {
    var s' := Next(s, step);
    match step
    case Exit(t, failed) => LeaveKeeps(s, t, failed);
    case Attempted(t, p, a) => AttemptKeeps(s, t, p, a);
    case _ =>
      forall r | Released(s', r) ensures Released(s, r) {
        if r !in s'.buffer && r !in s'.drained {
          var k :| 0 <= k < |s'.runs| && s'.runs[k].cell.held == Some(r);
          assert s.runs[k].cell.held == Some(r);
        }
      }
      QuietKeeps(s, s');
  }

  lemma {:induction false} PagesAlways(steps: seq<Step>)
    requires After(steps).Some?
    ensures PagesInv(After(steps).value)
    decreases |steps|
  {
    if steps != [] {
      PagesAlways(steps[..|steps| - 1]);
      NextKeeps(After(steps[..|steps| - 1]).value, steps[|steps| - 1]);
    }
  }

  // --------------------------------------------------------------- theorems

  lemma {:induction false} PrefixOfPage(log: seq<Entry>, i: nat, p: nat)
    requires i <= |log|
    ensures CountOf(log[..i], p) <= CountOf(log, p)
    ensures FirstOf(log[..i], p).Some? ==> FirstOf(log, p) == FirstOf(log[..i], p)
    ensures i < |log| && log[i].page == p ==>
              CountOf(log[..i], p) < CountOf(log, p) && FirstOf(log, p) == Some(Or(FirstOf(log[..i], p), i))
    decreases |log|
  {
    if i < |log| {
      var before := log[..|log| - 1];
      assert before[..i] == log[..i];
      PrefixOfPage(before, i, p);
    } else {
      assert log[..i] == log;
    }
  }

  /** A record the process holds or has drained, wherever it is. */
  predicate Exists(s: State, r: Record) {
    Released(s, r) || exists p :: 0 <= p < |s.pages| && r in s.pages[p].cell.answered
  }

  lemma ExistsFits(s: State, r: Record)
    requires PagesInv(s) && Exists(s, r)
    ensures Fits(s, r) && EntryLaw(s.log, r.id) && s.log[r.id].page < |s.pages|
  {
    if !Released(s, r) {
      var p :| 0 <= p < |s.pages| && r in s.pages[p].cell.answered;
      assert PageLaw(s, p) && forall i | 0 <= i < |s.log| :: EntryLaw(s.log, i);
      var late := s.pages[p].home.Done?;
      var j :| 0 <= j < |Waiting(s.log, p, late)| && Waiting(s.log, p, late)[j] == r;
      WaitingIs(s.log, p, late, j);
    }
  }

  /** Attempts share a chain id exactly when they share a page, and a page numbers them in order. */
  lemma ChainIsThePage(steps: seq<Step>, a: Record, b: Record)
    requires After(steps).Some? && Exists(After(steps).value, a) && Exists(After(steps).value, b)
    ensures var s := After(steps).value; a.id < |s.log| && b.id < |s.log| && s.log[a.id].page < |s.pages|
    ensures var log := After(steps).value.log; a.chainId == b.chainId <==> log[a.id].page == log[b.id].page
    ensures a.chainId == b.chainId && a.id < b.id ==> a.attempt < b.attempt
    ensures var s := After(steps).value; 1 <= a.attempt <= s.pages[s.log[a.id].page].cell.attempts
    ensures a.attempt == 1 <==> a.id == a.chainId
    ensures a.outcome == Wasted <==> a.cause.Some?
  {
    var s := After(steps).value;
    PagesAlways(steps);
    ExistsFits(s, a);
    ExistsFits(s, b);
    OneInItsChain(s, a);
    OneInItsChain(s, b);
    FirstOfIs(s.log, s.log[a.id].page);
    FirstOfIs(s.log, s.log[b.id].page);
    if s.log[a.id].page == s.log[b.id].page && a.id < b.id { LaterInItsChain(s, a, b); }
  }

  lemma OneInItsChain(s: State, a: Record)
    requires PagesInv(s) && Fits(s, a)
    ensures a.id < |s.log| && s.log[a.id].page < |s.pages|
    ensures var p := s.log[a.id].page;
            CountOf(s.log, p) > 0 && FirstOf(s.log, p) == Some(a.chainId) && 1 <= a.attempt <= s.pages[p].cell.attempts
    ensures a.attempt == 1 <==> a.id == a.chainId
    ensures a.outcome == Wasted <==> a.cause.Some?
  {
    var p := s.log[a.id].page;
    PrefixOfPage(s.log, a.id, p);
    FirstOfIs(s.log, p);
    FirstOfIs(s.log[..a.id], p);
    assert PageLaw(s, p);
  }

  lemma LaterInItsChain(s: State, a: Record, b: Record)
    requires PagesInv(s) && Fits(s, a) && Fits(s, b) && a.id < b.id < |s.log| && s.log[a.id].page == s.log[b.id].page
    ensures a.attempt < b.attempt
  {
    assert s.log[..b.id][..a.id] == s.log[..a.id];
    PrefixOfPage(s.log[..b.id], a.id, s.log[a.id].page);

  }

  lemma {:induction false} NoNumberMissing(log: seq<Entry>, p: nat, k: nat)
    requires 1 <= k <= CountOf(log, p)
    ensures exists i :: 0 <= i < |log| && log[i].page == p && CountOf(log[..i], p) + 1 == k
    decreases |log|
  {
    var n := |log| - 1;
    if k <= CountOf(log[..n], p) {
      NoNumberMissing(log[..n], p, k);
      var i :| 0 <= i < n && log[..n][i].page == p && CountOf(log[..n][..i], p) + 1 == k;
      assert log[..n][..i] == log[..i] && log[i].page == p;
    } else {
      assert log[n].page == p && CountOf(log[..n], p) + 1 == k;
    }
  }

  /** A page's attempts are numbered from 1 to its count, none missing. */
  lemma NumberedWithoutGaps(steps: seq<Step>, p: nat, k: nat)
    requires After(steps).Some? && p < |After(steps).value.pages|
    requires 1 <= k <= After(steps).value.pages[p].cell.attempts
    ensures var log := After(steps).value.log;
            exists i :: 0 <= i < |log| && log[i].page == p && log[i].record.attempt == k
  {
    var s := After(steps).value;
    PagesAlways(steps);
    assert PageLaw(s, p);
    NoNumberMissing(s.log, p, k);
    var i :| 0 <= i < |s.log| && s.log[i].page == p && CountOf(s.log[..i], p) + 1 == k;
    assert EntryLaw(s.log, i);
  }

  /** At most one Request of a page is Useful, and it is the last answer the page had at its close. */
  lemma OneUsefulPerPage(steps: seq<Step>, a: Record, b: Record)
    requires After(steps).Some? && Exists(After(steps).value, a) && Exists(After(steps).value, b)
    requires a.outcome == Useful && b.chainId == a.chainId
    ensures IsLastAnswer(After(steps).value, a.id)
    ensures b.outcome == Useful ==> b.id == a.id
  {
    PagesAlways(steps);
    ExistsFits(After(steps).value, a);
    ExistsFits(After(steps).value, b);
    ChainIsThePage(steps, a, b);
    OneLastAnswer(After(steps).value, a, b);
  }

  lemma OneLastAnswer(s: State, a: Record, b: Record)
    requires Fits(s, a) && Fits(s, b) && a.outcome == Useful && s.log[a.id].page == s.log[b.id].page
    ensures IsLastAnswer(s, a.id) && (b.outcome == Useful ==> b.id == a.id)
  {}

  // ----------------------------------------------- what reaches the database

  /** No task is inside a block and the buffer has been drained. */
  predicate Quiet(s: State) {
    s.buffer == [] && forall t | 0 <= t < |s.tasks| :: s.tasks[t].blocks == []
  }

  lemma {:induction false} TimesNone(records: seq<Record>, id: nat)
    requires forall r | r in records :: r.id != id
    ensures Times(records, id) == 0
    decreases |records|
  {
    if records != [] { TimesNone(records[..|records| - 1], id); }
  }

  lemma AnswersAtRest(s: State, p: nat, id: nat)
    requires WellFormed(s) && PagesInv(s) && Quiet(s) && p < |s.pages| && id < |s.log|
    ensures !s.log[id].late ==> Times(s.pages[p].cell.answered, id) == 0
    ensures s.log[id].late && s.log[id].page == p ==> s.log[id].record in s.pages[p].cell.answered
  {
    assert PageHomeOk(s, p) && PageLaw(s, p) && EntryLaw(s.log, id);
    assert !s.pages[p].home.Open?;
    var late := s.pages[p].home.Done?;
    var answers := Waiting(s.log, p, late);
    assert forall i | 0 <= i < |s.log| :: EntryLaw(s.log, i);
    if s.log[id].late {
      if s.log[id].page == p { WaitingHas(s.log, id); }
    } else {
      forall r | r in answers ensures r.id != id {
        var j :| 0 <= j < |answers| && answers[j] == r;
        WaitingIs(s.log, p, late, j);
      }
      TimesNone(answers, id);
    }
  }

  /** At rest an attempt has been drained once, or never when it was answered into a closed page. */
  lemma DrainedUnlessLate(steps: seq<Step>, id: nat)
    requires After(steps).Some? && Quiet(After(steps).value) && id < |After(steps).value.log|
    ensures Times(After(steps).value.drained, id) == if After(steps).value.log[id].late then 0 else 1
  {
    var s := After(steps).value;
    Conservation(steps, id);
    PagesAlways(steps);
    forall k | 0 <= k < |HeldBack(s.runs)| ensures Times(HeldBack(s.runs)[k], id) == 0 {
      assert RunHomeOk(s, k);
    }
    TotalNone(HeldBack(s.runs), id);
    var p := s.log[id].page;
    if s.log[id].late {
      assert EntryLaw(s.log, id) && p < |s.pages|;
      AnswersAtRest(s, p, id);
      var j :| 0 <= j < |Answers(s.pages)[p]| && Answers(s.pages)[p][j] == s.log[id].record;
      TotalMember(Answers(s.pages), p, j);
    } else {
      forall q | 0 <= q < |Answers(s.pages)| ensures Times(Answers(s.pages)[q], id) == 0 {
        AnswersAtRest(s, q, id);
      }
      TotalNone(Answers(s.pages), id);
    }
  }

  /** A step that answers into a page whose block has closed, from a task still inside it. */
  predicate AnswersClosedPage(s: State, step: Step) {
    && step.Attempted? && Enabled(s, step)
    && s.pages[step.page].home.Done?
    && s.tasks[step.task].vars.page == Some(step.page)
    && FinalCause(s.pages[step.page].cell, step.a).None?
  }

  lemma NextLogs(s: State, step: Step)
    requires WellFormed(s) && Enabled(s, step)
    ensures step.Attempted? ==>
              |Next(s, step).log| == |s.log| + 1 && s.log == Next(s, step).log[..|s.log|]
              && Next(s, step).log[|s.log|].late == AnswersClosedPage(s, step)
    ensures !step.Attempted? ==> Next(s, step).log == s.log
  {
    match step
    case Attempted(t, p, a) =>
      assert VarsOk(s, s.tasks[t].vars);
    case Exit(t, _) =>
      assert BlockOk(s, t, |s.tasks[t].blocks| - 1);
    case _ =>
  }

  /** No step of the run answered into a closed page. */
  predicate NoLateAnswer(steps: seq<Step>)
    requires After(steps).Some?
    decreases |steps|
  {
    steps == []
    || var before := steps[..|steps| - 1];
       NoLateAnswer(before) && !AnswersClosedPage(After(before).value, steps[|steps| - 1])
  }

  lemma {:induction false} LateIsAStep(steps: seq<Step>)
    requires After(steps).Some?
    ensures NoLateAnswer(steps) <==> forall id | 0 <= id < |After(steps).value.log| :: !After(steps).value.log[id].late
    decreases |steps|
  {
    if steps != [] {
      var before := steps[..|steps| - 1];
      LateIsAStep(before);
      var s, s' := After(before).value, After(steps).value;
      NextLogs(s, steps[|steps| - 1]);
      forall id | 0 <= id < |s.log| ensures s'.log[id] == s.log[id] {}
    }
  }

  // ------------------------------------------------------------ soft blocks

  /** The `i`-th attempt is of its page's type, and is a soft block only in a page that calls it one. */
  predicate OfItsPage(s: State, i: nat)
    requires i < |s.log|
  {
    var e := s.log[i];
    && e.page < |s.pages| && e.record.pageType == s.pages[e.page].cell.pageType
    && (e.record.cause == Some(SoftBlock) ==> s.pages[e.page].cell.softBlock == SoftBlock)
  }

  predicate AllOfTheirPages(s: State) { forall i | 0 <= i < |s.log| :: OfItsPage(s, i) }

  /** No step changes what a page is. */
  lemma PagesStayTheSame(s: State, step: Step, p: nat)
    requires WellFormed(s) && Enabled(s, step) && p < |s.pages|
    ensures p < |Next(s, step).pages|
    ensures Next(s, step).pages[p].cell.pageType == s.pages[p].cell.pageType
    ensures Next(s, step).pages[p].cell.softBlock == s.pages[p].cell.softBlock
  {
    match step
    case Attempted(t, _, _) => assert VarsOk(s, s.tasks[t].vars);
    case Exit(t, _) => assert BlockOk(s, t, |s.tasks[t].blocks| - 1);
    case _ =>
  }

  lemma NextOfItsPage(s: State, step: Step)
    requires WellFormed(s) && Enabled(s, step) && AllOfTheirPages(s)
    ensures AllOfTheirPages(Next(s, step))
  {
    var s' := Next(s, step);
    NextLogs(s, step);
    forall i | 0 <= i < |s'.log| ensures OfItsPage(s', i) {
      if i < |s.log| {
        assert OfItsPage(s, i) && s'.log[i] == s.log[i];
        PagesStayTheSame(s, step, s.log[i].page);
      } else {
        assert VarsOk(s, s.tasks[step.task].vars);
        PagesStayTheSame(s, step, step.page);
      }
    }
  }

  lemma {:induction false} AlwaysOfTheirPages(steps: seq<Step>)
    requires After(steps).Some?
    ensures AllOfTheirPages(After(steps).value)
    decreases |steps|
  {
    if steps != [] {
      AlwaysOfTheirPages(steps[..|steps| - 1]);
      NextOfItsPage(After(steps[..|steps| - 1]).value, steps[|steps| - 1]);
    }
  }

  /** Wherever a record is, it has its page's type, and it says soft block only when its page calls a
      withheld page that: in a page that asks for a handle none does. */
  lemma SoftBlocksAreNamed(steps: seq<Step>, r: Record)
    requires After(steps).Some? && Exists(After(steps).value, r)
    ensures var s := After(steps).value;
            r.id < |s.log| && s.log[r.id].page < |s.pages|
            && r.pageType == s.pages[s.log[r.id].page].cell.pageType
            && (r.cause == Some(SoftBlock) ==> s.pages[s.log[r.id].page].cell.softBlock == SoftBlock)
  {
    PagesAlways(steps);
    ExistsFits(After(steps).value, r);
    AlwaysOfTheirPages(steps);
    assert OfItsPage(After(steps).value, r.id);
  }

  /** Once everything has closed and drained, each attempt was drained exactly once,
      if and only if no answer was ever recorded into a page after its close. */
  lemma DrainedExactlyOnce(steps: seq<Step>)
    requires After(steps).Some? && Quiet(After(steps).value)
    ensures (forall id | 0 <= id < |After(steps).value.log| :: Times(After(steps).value.drained, id) == 1)
            <==> NoLateAnswer(steps)
  {
    var s := After(steps).value;
    LateIsAStep(steps);
    forall id | 0 <= id < |s.log| ensures Times(s.drained, id) == 1 <==> !s.log[id].late {
      DrainedUnlessLate(steps, id);
    }
    if !NoLateAnswer(steps) {
      var id :| 0 <= id < |s.log| && s.log[id].late;
      assert Times(s.drained, id) != 1;
    }
  }
}
