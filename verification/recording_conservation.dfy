/**
 Conservation: whatever the interleaving, every attempt's record is in exactly
 one place, and once all blocks have closed and the buffer is drained it has been
 drained exactly once, unless it was answered into a page that had already closed.
 */
module RecordingConservation {
  import opened Options
  import opened RequestRecording
  import opened RecordingRuns

  // ---------------------------------------------------------------- counting

  function Times(records: seq<Record>, id: nat): nat
    decreases |records|
  {
    if records == [] then 0
    else Times(records[..|records| - 1], id) + if records[|records| - 1].id == id then 1 else 0
  }

  function Total(lists: seq<seq<Record>>, id: nat): nat
    decreases |lists|
  {
    if lists == [] then 0
    else Total(lists[..|lists| - 1], id) + Times(lists[|lists| - 1], id)
  }

  function HeldBy(run: SyncCell): seq<Record> { if run.held.Some? then [run.held.value] else [] }

  function Answers(pages: seq<PageSlot>): seq<seq<Record>> {
    seq(|pages|, i requires 0 <= i < |pages| => pages[i].cell.answered)
  }

  function HeldBack(runs: seq<RunSlot>): seq<seq<Record>> {
    seq(|runs|, i requires 0 <= i < |runs| => HeldBy(runs[i].cell))
  }

  /** How often `id` is held anywhere in the process or has been drained from it. */
  function Census(s: State, id: nat): nat {
    Total(Answers(s.pages), id) + Total(HeldBack(s.runs), id) + Times(s.buffer, id) + Times(s.drained, id)
  }

  lemma {:induction false} TimesConcat(a: seq<Record>, b: seq<Record>, id: nat)
    ensures Times(a + b, id) == Times(a, id) + Times(b, id)
    decreases |b|
  {
    if b == [] {
      assert a + b == a;
    } else {
      var n := |b| - 1;
      TimesConcat(a, b[..n], id);
      assert (a + b)[..|a + b| - 1] == a + b[..n];
    }
  }

  lemma TimesOne(r: Record, id: nat)
    ensures Times([r], id) == if r.id == id then 1 else 0
  {
    assert [r][..0] == [];
  }

  lemma {:induction false} TimesMember(records: seq<Record>, i: nat)
    requires i < |records|
    ensures Times(records, records[i].id) >= 1
    decreases |records|
  {
    if i < |records| - 1 { TimesMember(records[..|records| - 1], i); }
  }

  lemma {:induction false} TotalUpdate(lists: seq<seq<Record>>, i: nat, list: seq<Record>, id: nat)
    requires i < |lists|
    ensures Total(lists[i := list], id) + Times(lists[i], id) == Total(lists, id) + Times(list, id)
    decreases |lists|
  {
    var n := |lists| - 1;
    if i < n {
      TotalUpdate(lists[..n], i, list, id);
      assert lists[i := list][..n] == lists[..n][i := list];
    } else {
      assert lists[i := list][..n] == lists[..n];
    }
  }

  lemma TotalGrow(lists: seq<seq<Record>>, list: seq<Record>, id: nat)
    ensures Total(lists + [list], id) == Total(lists, id) + Times(list, id)
  {
    assert (lists + [list])[..|lists|] == lists;
  }

  lemma {:induction false} TotalMember(lists: seq<seq<Record>>, i: nat, j: nat)
    requires i < |lists| && j < |lists[i]|
    ensures Total(lists, lists[i][j].id) >= 1
    decreases |lists|
  {
    if i < |lists| - 1 { TotalMember(lists[..|lists| - 1], i, j); } else { TimesMember(lists[i], j); }
  }

  lemma {:induction false} TotalNone(lists: seq<seq<Record>>, id: nat)
    requires forall i | 0 <= i < |lists| :: Times(lists[i], id) == 0
    ensures Total(lists, id) == 0
    decreases |lists|
  {
    if lists != [] { TotalNone(lists[..|lists| - 1], id); }
  }

  // ------------------------------------------------------------ conservation

  lemma {:induction false} HoldConserves(run: SyncCell, records: seq<Record>, id: nat)
    ensures Times(Hold(run, records).1, id) + Times(HeldBy(Hold(run, records).0), id)
            == Times(records, id) + Times(HeldBy(run), id)
    decreases |records|
  {
    if !run.closed && records != [] {
      var n := |records| - 1;
      HoldConserves(run, records[..n], id);
      HoldKeepsShape(run, records[..n]);
      var (before, out) := HoldAll(run, records[..n]);
      TimesConcat(out, HoldOne(before, records[n]).1, id);
      TimesOne(records[n], id);
      if before.held.Some? { TimesOne(before.held.value, id); }
    }
  }

  lemma JudgedTimes(page: PageCell, id: nat)
    ensures Times(Judged(page), id) == Times(page.answered, id)
  {
    if page.answered != [] && page.newPosts.Some? {
      var n := |page.answered| - 1;
      assert Judged(page)[..n] == page.answered[..n];
    }
  }

  lemma PushConserves(s: State, sync: Option<nat>, records: seq<Record>, id: nat)
    requires RefOk(sync, |s.runs|)
    ensures Census(PushVia(s, sync, records), id) == Census(s, id) + Times(records, id)
  {
    var s' := PushVia(s, sync, records);
    if sync.None? {
      TimesConcat(s.buffer, records, id);
    } else {
      var k := sync.value;
      var run := s.runs[k].cell;
      var (after, out) := Hold(run, records);
      TimesConcat(s.buffer, out, id);
      HoldConserves(run, records, id);
      TotalUpdate(HeldBack(s.runs), k, HeldBy(after), id);
      assert HeldBack(s'.runs) == HeldBack(s.runs)[k := HeldBy(after)];
    }
  }

  lemma ClosePageConserves(s: State, p: nat, sync: Option<nat>, id: nat)
    requires p < |s.pages| && RefOk(sync, |s.runs|)
    ensures Census(ClosePage(s, p, sync), id) == Census(s, id)
  {
    var cell := s.pages[p].cell;
    var marked := s.(pages := s.pages[p := PageSlot(cell.(answered := []), Done)]);
    TotalUpdate(Answers(s.pages), p, [], id);
    assert Answers(marked.pages) == Answers(s.pages)[p := []];
    JudgedTimes(cell, id);
    PushConserves(marked, sync, Judged(cell), id);
  }

  lemma CloseRunConserves(s: State, k: nat, failed: bool, outer: Option<nat>, id: nat)
    requires k < |s.runs| && RefOk(outer, |s.runs|)
    ensures Census(CloseRun(s, k, failed, outer), id) == Census(s, id)
  {
    var run := s.runs[k];
    var ended := run.cell.(failed := run.cell.failed || failed);
    var marked := s.(runs := s.runs[k := RunSlot(Closed(ended).0, Done, run.seen, ended.failed)]);
    TotalUpdate(HeldBack(s.runs), k, [], id);
    assert HeldBack(marked.runs) == HeldBack(s.runs)[k := []];
    if run.cell.held.Some? {
      TimesOne(run.cell.held.value, id);
      TimesOne(Closed(ended).1[0], id);
    }
    PushConserves(marked, outer, Closed(ended).1, id);
  }

  lemma LeaveConserves(s: State, t: nat, failed: bool, id: nat)
    requires WellFormed(s) && t < |s.tasks| && s.tasks[t].blocks != []
    ensures Census(Leave(s, t, failed), id) == Census(s, id)
  {
    var task := s.tasks[t];
    var d := |task.blocks| - 1;
    assert BlockOk(s, t, d) && VarsOk(s, task.vars);
    var vars := Restored(task.vars, task.blocks[d]);
    var left := s.(tasks := s.tasks[t := Task(vars, task.blocks[..d])]);
    match task.blocks[d]
    case InPage(p, _) => ClosePageConserves(left, p, vars.sync, id);
    case InSync(k, outer) => CloseRunConserves(left, k, failed, outer, id);
    case _ =>
  }

  lemma AttemptConserves(s: State, t: nat, p: nat, a: Attempt, id: nat)
    requires WellFormed(s) && t < |s.tasks| && p < |s.pages|
    ensures Census(Record1(s, t, p, a), id) == Census(s, id) + if id == |s.log| then 1 else 0
  {
    var vars := s.tasks[t].vars;
    assert VarsOk(s, vars);
    var cell := s.pages[p].cell;
    var r := NewRecord(cell, a, vars.who, |s.log|);
    var counted := Counted(s, t, p, a);
    var list := counted.pages[p].cell.answered;
    TotalUpdate(Answers(s.pages), p, list, id);
    assert Answers(counted.pages) == Answers(s.pages)[p := list];
    TimesOne(r, id);
    if r.cause.None? && vars.page == Some(p) {
      TimesConcat(cell.answered, [r], id);
    } else {
      PushConserves(counted, vars.sync, [r], id);
    }
  }

  /** Opening a page or a run adds an empty list. */
  lemma OpeningConserves(s: State, step: Step, id: nat)
    requires WellFormed(s) && Enabled(s, step) && (step.EnterPage? || step.OwnPage? || step.EnterSync?)
    ensures Census(Next(s, step), id) == Census(s, id) && Next(s, step).log == s.log
  {
    var s' := Next(s, step);
    if step.EnterSync? {
      TotalGrow(HeldBack(s.runs), [], id);
      assert HeldBack(s'.runs) == HeldBack(s.runs) + [[]];
    } else {
      TotalGrow(Answers(s.pages), [], id);
      assert Answers(s'.pages) == Answers(s.pages) + [[]];
    }
  }

  lemma NextConserves(s: State, step: Step, id: nat)
    requires WellFormed(s) && Enabled(s, step)
    ensures Census(Next(s, step), id) == Census(s, id) + if step.Attempted? && id == |s.log| then 1 else 0
    ensures |Next(s, step).log| == |s.log| + if step.Attempted? then 1 else 0
  {
    match step
    case Exit(t, failed) => LeaveConserves(s, t, failed, id);
    case Attempted(t, p, a) => AttemptConserves(s, t, p, a, id);
    case EnterPage(_, _, _) | OwnPage(_) | EnterSync(_) => OpeningConserves(s, step, id);
    case ReportPosts(_, _, _, _) | SetFailed(_, _) | Drain => SharedStepConserves(s, step, id);
    case _ => TaskStepConserves(s, step, id);
  }

  lemma TaskStepConserves(s: State, step: Step, id: nat)
    requires WellFormed(s) && Enabled(s, step)
    requires step.Start? || step.Spawn? || step.EnterAttributed? || step.EnterTallied?
    ensures Census(Next(s, step), id) == Census(s, id) && Next(s, step).log == s.log
  {}

  lemma SharedStepConserves(s: State, step: Step, id: nat)
    requires WellFormed(s) && Enabled(s, step) && (step.ReportPosts? || step.SetFailed? || step.Drain?)
    ensures Census(Next(s, step), id) == Census(s, id) && Next(s, step).log == s.log
  {
    match step
    case ReportPosts(_, _, _, _) => assert Answers(Next(s, step).pages) == Answers(s.pages);
    case SetFailed(_, _) => assert HeldBack(Next(s, step).runs) == HeldBack(s.runs);
    case Drain => TimesConcat(s.drained, s.buffer, id);
  }

  /** Every attempt's record is in exactly one page, run, the buffer or the drained records. */
  lemma {:induction false} Conservation(steps: seq<Step>, id: nat)
    requires After(steps).Some?
    ensures Census(After(steps).value, id) == if id < |After(steps).value.log| then 1 else 0
    decreases |steps|
  {
    if steps != [] {
      var n := |steps| - 1;
      Conservation(steps[..n], id);
      NextConserves(After(steps[..n]).value, steps[n], id);
    }
  }
}
