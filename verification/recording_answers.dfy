/**
 What the records say, in every interleaving: each tells the attempt it was made
 for, and a page's last answer, alone, the Posts the page reported before it closed.
 */
module RecordingAnswers {
  import opened Options
  import opened RequestRecording
  import opened RecordingRuns
  import opened RecordingConservation
  import opened RecordingPages
  import opened RecordingSyncs

  // ----------------------------------------------------------- what was reported

  /** The Posts last reported to a page: new ones, repeated ones, and whether it changed any. */
  datatype Report = Report(brandNew: int, repeated: int, changed: bool)

  function Reported(steps: seq<Step>, p: nat): Option<Report> {
    if steps == [] then None
    else
      var step := steps[|steps| - 1];
      if step.ReportPosts? && step.page == p then Some(Report(step.brandNew, step.repeated, step.changed))
      else Reported(steps[..|steps| - 1], p)
  }

  /** The step leaves the block that opened page `p`. */
  predicate ClosesPage(s: State, step: Step, p: nat) {
    && step.Exit? && step.task < |s.tasks| && s.tasks[step.task].blocks != [] && p < |s.pages|
    && var block := s.tasks[step.task].blocks[|s.tasks[step.task].blocks| - 1];
       block.InPage? && block.page == p
  }

  /** The report a step judges record `id` by: its page closes, `id` is its last answer, and Posts were reported. */
  function JudgedNow(steps: seq<Step>, s: State, step: Step, id: nat): Option<Report> {
    if step.Exit? && step.task < |s.tasks| && s.tasks[step.task].blocks != [] then
      var block := s.tasks[step.task].blocks[|s.tasks[step.task].blocks| - 1];
      if block.InPage? && block.page < |s.pages| && IsLastOf(s.pages[block.page].cell, id)
      then Reported(steps, block.page) else None
    else None
  }

  predicate IsLastOf(page: PageCell, id: nat) {
    page.answered != [] && page.answered[|page.answered| - 1].id == id
  }

  /** The report record `id` was judged by, if it was. */
  function JudgedBy(steps: seq<Step>, id: nat): Option<Report>
    requires After(steps).Some?
    decreases |steps|
  {
    if steps == [] then None
    else
      var front, step := steps[..|steps| - 1], steps[|steps| - 1];
      var now := JudgedNow(front, After(front).value, step, id);
      if now.Some? then now else JudgedBy(front, id)
  }

  // --------------------------------------------------------------- invariant

  /** The record bears the report, and is Useful if that brought something; without one it bears nothing. */
  predicate Bears(r: Record, report: Option<Report>) {
    match report
    case None => r.newPosts.None? && r.repeatedPosts.None? && r.outcome != Useful
    case Some(x) =>
      && r.newPosts == Some(x.brandNew) && r.repeatedPosts == Some(x.repeated)
      && (r.outcome == Useful <==> x.brandNew > 0 || x.changed)
  }

  /** A page holds the report it was last given. */
  predicate HoldsReport(page: PageCell, report: Option<Report>) {
    match report
    case None => page.newPosts.None? && page.repeatedPosts.None? && !page.changed
    case Some(x) =>
      && page.newPosts == Some(x.brandNew) && page.repeatedPosts == Some(x.repeated) && page.changed == x.changed
  }

  ghost predicate AnswerInv(s: State, judged: nat -> Option<Report>, reported: nat -> Option<Report>) {
    && (forall r | Released(s, r) :: Bears(r, judged(r.id)))
    && (forall p, r | 0 <= p < |s.pages| && r in s.pages[p].cell.answered :: judged(r.id).None? && Bears(r, None))
    && (forall id: nat | judged(id).Some? :: id < |s.log|)
    && (forall p | 0 <= p < |s.pages| :: HoldsReport(s.pages[p].cell, reported(p)))
    && (forall p: nat | reported(p).Some? :: p < |s.pages|)
  }

  // ------------------------------------------------------------------- steps

  lemma PushAnswers(s: State, sync: Option<nat>, records: seq<Record>, judged: nat -> Option<Report>,
                    reported: nat -> Option<Report>)
    requires AnswerInv(s, judged, reported) && RefOk(sync, |s.runs|)
    requires forall r | r in records :: Bears(r, judged(r.id))
    ensures AnswerInv(PushVia(s, sync, records), judged, reported)
  {
    PushReleases(s, sync, records);
  }

  /** Steps that let nothing new go, make no answer and report no Posts. */
  lemma QuietAnswers(s: State, s': State, judged: nat -> Option<Report>, reported: nat -> Option<Report>)
    requires AnswerInv(s, judged, reported) && |s'.log| >= |s.log| && |s'.pages| >= |s.pages|
    requires forall r | Released(s', r) :: Released(s, r)
    requires forall p | 0 <= p < |s.pages| ::
               && s'.pages[p].cell.newPosts == s.pages[p].cell.newPosts
                  && s'.pages[p].cell.changed == s.pages[p].cell.changed
               && s'.pages[p].cell.repeatedPosts == s.pages[p].cell.repeatedPosts
               && forall r | r in s'.pages[p].cell.answered ::
                  r in s.pages[p].cell.answered || (judged(r.id).None? && Bears(r, None))
    requires forall p | |s.pages| <= p < |s'.pages| ::
               s'.pages[p].cell.answered == [] && HoldsReport(s'.pages[p].cell, None)
    ensures AnswerInv(s', judged, reported)
  {
    forall p | 0 <= p < |s'.pages| ensures HoldsReport(s'.pages[p].cell, reported(p)) {
      if p < |s.pages| { assert HoldsReport(s.pages[p].cell, reported(p)); }
    }
  }

  lemma AttemptAnswers(s: State, t: nat, p: nat, a: Attempt, judged: nat -> Option<Report>,
                       reported: nat -> Option<Report>)
    requires WellFormed(s) && AnswerInv(s, judged, reported) && t < |s.tasks| && p < |s.pages|
    ensures AnswerInv(Record1(s, t, p, a), judged, reported)
  {
    var vars := s.tasks[t].vars;
    assert VarsOk(s, vars) && judged(|s.log|).None?;
    var r := NewRecord(s.pages[p].cell, a, vars.who, |s.log|);
    var counted := Counted(s, t, p, a);
    forall x | Released(counted, x) ensures Released(s, x) {
      if x !in s.buffer && x !in s.drained {
        var k :| 0 <= k < |counted.runs| && counted.runs[k].cell.held == Some(x);
        assert s.runs[k].cell.held == Some(x);
      }
    }
    QuietAnswers(s, counted, judged, reported);
    if !(r.cause.None? && vars.page == Some(p)) { PushAnswers(counted, vars.sync, [r], judged, reported); }
  }

  /** A page's answers are let go by no one before it closes, and are in no other page. */
  lemma AnswersOnlyThere(s: State, p: nat, r: Record, x: Record)
    requires PagesInv(s) && p < |s.pages| && r in s.pages[p].cell.answered && x.id == r.id
    requires forall id: nat :: Census(s, id) <= 1
    ensures !Released(s, x)
    ensures forall q | 0 <= q < |s.pages| && q != p :: x !in s.pages[q].cell.answered
  {
    var j :| 0 <= j < |s.pages[p].cell.answered| && s.pages[p].cell.answered[j] == r;
    assert Answers(s.pages)[p][j].id == x.id;
    TotalMember(Answers(s.pages), p, j);
    assert Census(s, x.id) <= 1;
    if Released(s, x) { ReleasedCounts(s, x); }
    forall q | 0 <= q < |s.pages| && q != p ensures x !in s.pages[q].cell.answered {
      if x in s.pages[q].cell.answered {
        var i :| 0 <= i < |s.pages[q].cell.answered| && s.pages[q].cell.answered[i] == x;
        JudgedOne(s, p, j);
        JudgedOne(s, q, i);
      }
    }
  }

  lemma ReleasedCounts(s: State, x: Record)
    requires Released(s, x)
    ensures Total(HeldBack(s.runs), x.id) + Times(s.buffer, x.id) + Times(s.drained, x.id) >= 1
  {
    if i :| 0 <= i < |s.buffer| && s.buffer[i] == x {
      TimesMember(s.buffer, i);
    } else if i :| 0 <= i < |s.drained| && s.drained[i] == x {
      TimesMember(s.drained, i);
    } else {
      var k :| 0 <= k < |s.runs| && s.runs[k].cell.held == Some(x);
      assert HeldBack(s.runs)[k][0].id == x.id;
      TotalMember(HeldBack(s.runs), k, 0);
    }
  }

  /** What a closing page lets go bears its report, the last answer, or nothing, the others. */
  lemma JudgedBears(s: State, p: nat, judged: nat -> Option<Report>, reported: nat -> Option<Report>,
                    later: nat -> Option<Report>)
    requires PagesInv(s) && AnswerInv(s, judged, reported) && p < |s.pages|
    requires forall id: nat ::
               later(id) == if IsLastOf(s.pages[p].cell, id) && reported(p).Some? then reported(p) else judged(id)
    ensures forall r | r in Judged(s.pages[p].cell) :: Bears(r, later(r.id))
  {
    var page := s.pages[p].cell;
    forall r | r in Judged(page) ensures Bears(r, later(r.id)) {
      var j :| 0 <= j < |Judged(page)| && Judged(page)[j] == r;
      JudgedOne(s, p, j);
      LastAloneIs(s, p, j);
      assert page.answered[j] in s.pages[p].cell.answered && HoldsReport(page, reported(p));
      OneJudged(page, j, reported(p));
    }
  }

  lemma LastAloneIs(s: State, p: nat, j: nat)
    requires PagesInv(s) && p < |s.pages| && j < |s.pages[p].cell.answered|
    ensures var page := s.pages[p].cell; IsLastOf(page, page.answered[j].id) <==> j == |page.answered| - 1
  {
    var n := |s.pages[p].cell.answered| - 1;
    JudgedOne(s, p, j);
    JudgedOne(s, p, n);
    assert j < n ==> Judged(s.pages[p].cell)[j].id < Judged(s.pages[p].cell)[n].id;
  }

  lemma OneJudged(page: PageCell, j: nat, report: Option<Report>)
    requires j < |page.answered| && HoldsReport(page, report) && Bears(page.answered[j], None)
    ensures Bears(Judged(page)[j], if j == |page.answered| - 1 then report else None)
  {}

  lemma ClosePageAnswers(s: State, left: State, p: nat, sync: Option<nat>, judged: nat -> Option<Report>,
                         reported: nat -> Option<Report>, later: nat -> Option<Report>)
    requires PagesInv(s) && AnswerInv(s, judged, reported) && p < |s.pages| && RefOk(sync, |s.runs|)
    requires left == s.(tasks := left.tasks) && forall id: nat :: Census(s, id) <= 1
    requires forall id: nat ::
               later(id) == if IsLastOf(s.pages[p].cell, id) && reported(p).Some? then reported(p) else judged(id)
    ensures AnswerInv(ClosePage(left, p, sync), later, reported)
  {
    var cell := s.pages[p].cell;
    var marked := left.(pages := s.pages[p := PageSlot(cell.(answered := []), Done)]);
    JudgedBears(s, p, judged, reported, later);
    MarkedAnswers(s, marked, p, judged, reported, later);
    PushAnswers(marked, sync, Judged(cell), later, reported);
  }

  lemma MarkedAnswers(s: State, marked: State, p: nat, judged: nat -> Option<Report>,
                      reported: nat -> Option<Report>, later: nat -> Option<Report>)
    requires PagesInv(s) && AnswerInv(s, judged, reported) && p < |s.pages| && forall id: nat :: Census(s, id) <= 1
    requires marked == s.(tasks := marked.tasks,
                          pages := s.pages[p := PageSlot(s.pages[p].cell.(answered := []), Done)])
    requires forall id: nat ::
               later(id) == if IsLastOf(s.pages[p].cell, id) && reported(p).Some? then reported(p) else judged(id)
    ensures AnswerInv(marked, later, reported)
  {
    var cell := s.pages[p].cell;
    forall r | Released(marked, r) ensures Bears(r, later(r.id)) {
      assert Released(s, r);
      if IsLastOf(cell, r.id) { AnswersOnlyThere(s, p, cell.answered[|cell.answered| - 1], r); }
    }
    forall q, r | 0 <= q < |marked.pages| && r in marked.pages[q].cell.answered
      ensures later(r.id).None? && Bears(r, None)
    {
      assert q != p && r in s.pages[q].cell.answered;
      if IsLastOf(cell, r.id) { AnswersOnlyThere(s, p, cell.answered[|cell.answered| - 1], r); }
    }
    forall id: nat | later(id).Some? ensures id < |marked.log| {
      if IsLastOf(cell, id) { JudgedOne(s, p, |cell.answered| - 1); }
    }
    forall q | 0 <= q < |marked.pages| ensures HoldsReport(marked.pages[q].cell, reported(q)) {
      assert HoldsReport(s.pages[q].cell, reported(q));
    }
  }

  lemma CloseRunAnswers(s: State, k: nat, failed: bool, outer: Option<nat>, judged: nat -> Option<Report>,
                        reported: nat -> Option<Report>)
    requires AnswerInv(s, judged, reported) && k < |s.runs| && RefOk(outer, |s.runs|)
    ensures AnswerInv(CloseRun(s, k, failed, outer), judged, reported)
  {
    var run := s.runs[k];
    var shut := Shutting(s, k, failed);
    forall x | Released(shut, x) ensures Released(s, x) {
      if x !in s.buffer && x !in s.drained {
        var j :| 0 <= j < |shut.runs| && shut.runs[j].cell.held == Some(x);
        assert j != k && s.runs[j].cell.held == Some(x);
      }
    }
    QuietAnswers(s, shut, judged, reported);
    if run.cell.held.Some? { assert Released(s, run.cell.held.value); }
    PushAnswers(shut, outer, Closed(run.cell.(failed := run.cell.failed || failed)).1, judged, reported);
  }

  lemma LeaveAnswers(s: State, steps: seq<Step>, t: nat, failed: bool, judged: nat -> Option<Report>,
                     later: nat -> Option<Report>)
    requires WellFormed(s) && PagesInv(s) && t < |s.tasks| && s.tasks[t].blocks != []
    requires AnswerInv(s, judged, (p: nat) => Reported(steps, p)) && forall id: nat :: Census(s, id) <= 1
    requires forall id: nat ::
               later(id) == var now := JudgedNow(steps, s, Exit(t, failed), id); if now.Some? then now else judged(id)
    ensures AnswerInv(Leave(s, t, failed), later, (p: nat) => Reported(steps, p))
  {
    var reported := (p: nat) => Reported(steps, p);
    var task := s.tasks[t];
    var d := |task.blocks| - 1;
    assert BlockOk(s, t, d) && VarsOk(s, task.vars);
    var vars := Restored(task.vars, task.blocks[d]);
    var left := s.(tasks := s.tasks[t := Task(vars, task.blocks[..d])]);
    match task.blocks[d]
    case InPage(p, _) =>
      ClosePageAnswers(s, left, p, vars.sync, judged, reported, later);
    case InSync(k, outer) =>
      SameAnswers(s, judged, later, reported);
      QuietAnswers(s, left, later, reported);
      CloseRunAnswers(left, k, failed, outer, later, reported);
    case _ =>
      SameAnswers(s, judged, later, reported);
      QuietAnswers(s, left, later, reported);
  }

  lemma SameAnswers(s: State, judged: nat -> Option<Report>, later: nat -> Option<Report>,
                    reported: nat -> Option<Report>)
    requires AnswerInv(s, judged, reported) && forall id: nat :: later(id) == judged(id)
    ensures AnswerInv(s, later, reported)
  {}

  /** Opening a page, reporting Posts, and whatever touches neither. */
  lemma OtherAnswers(s: State, step: Step, judged: nat -> Option<Report>, reported: nat -> Option<Report>,
                     now: nat -> Option<Report>)
    requires WellFormed(s) && AnswerInv(s, judged, reported) && Enabled(s, step) && !step.Exit? && !step.Attempted?
    requires forall p: nat ::
               now(p) == if step.ReportPosts? && step.page == p
                         then Some(Report(step.brandNew, step.repeated, step.changed)) else reported(p)
    ensures AnswerInv(Next(s, step), judged, now)
  {
    var s' := Next(s, step);
    forall x | Released(s', x) ensures Released(s, x) {
      if x !in s'.buffer && x !in s'.drained {
        var k :| 0 <= k < |s'.runs| && s'.runs[k].cell.held == Some(x);
        assert k < |s.runs| && s.runs[k].cell.held == Some(x);
      }
    }
    if step.ReportPosts? {
      forall p | 0 <= p < |s'.pages| ensures HoldsReport(s'.pages[p].cell, now(p)) {
        assert HoldsReport(s.pages[p].cell, reported(p));
      }
    } else {
      QuietAnswers(s, s', judged, reported);
      forall p | 0 <= p < |s'.pages| ensures HoldsReport(s'.pages[p].cell, now(p)) {}
    }
  }

  lemma {:induction false} AnswersAlways(steps: seq<Step>)
    requires After(steps).Some?
    ensures AnswerInv(After(steps).value, (id: nat) => JudgedBy(steps, id), (p: nat) => Reported(steps, p))
    decreases |steps|
  {
    if steps != [] {
      var front, step := steps[..|steps| - 1], steps[|steps| - 1];
      AnswersAlways(front);
      PagesAlways(front);
      forall id: nat ensures Census(After(front).value, id) <= 1 { Conservation(front, id); }
      NextAnswers(After(front).value, front, step, (id: nat) => JudgedBy(front, id), (id: nat) => JudgedBy(steps, id),
                  (p: nat) => Reported(steps, p));
    }
  }

  lemma NextAnswers(s: State, steps: seq<Step>, step: Step, judged: nat -> Option<Report>, later: nat -> Option<Report>,
                    now: nat -> Option<Report>)
    requires WellFormed(s) && PagesInv(s) && Enabled(s, step) && forall id: nat :: Census(s, id) <= 1
    requires AnswerInv(s, judged, (p: nat) => Reported(steps, p))
    requires forall id: nat ::
               later(id) == var was := JudgedNow(steps, s, step, id); if was.Some? then was else judged(id)
    requires forall p: nat ::
               now(p) == if step.ReportPosts? && step.page == p
                         then Some(Report(step.brandNew, step.repeated, step.changed)) else Reported(steps, p)
    ensures AnswerInv(Next(s, step), later, now)
  {
    var reported := (p: nat) => Reported(steps, p);
    match step
    case Exit(t, failed) =>
      LeaveAnswers(s, steps, t, failed, judged, later);
      SameReports(Next(s, step), later, reported, now);
    case Attempted(t, p, a) =>
      AttemptAnswers(s, t, p, a, judged, reported);
      SameAnswers(Next(s, step), judged, later, reported);
      SameReports(Next(s, step), later, reported, now);
    case _ =>
      OtherAnswers(s, step, judged, reported, now);
      SameAnswers(Next(s, step), judged, later, now);
  }

  lemma SameReports(s: State, judged: nat -> Option<Report>, reported: nat -> Option<Report>,
                    now: nat -> Option<Report>)
    requires AnswerInv(s, judged, reported) && forall p: nat :: now(p) == reported(p)
    ensures AnswerInv(s, judged, now)
  {}

  // ---------------------------------------------------------------- theorems

  /** Over every run each record, wherever it is, bears what its page had been told as it closed if it was the
      page's last answer then, and is Useful exactly when that brought new Posts or changed some; every other
      record bears no Posts and is not Useful. */
  lemma AnswersAreJudged(steps: seq<Step>, r: Record)
    requires After(steps).Some? && Exists(After(steps).value, r)
    ensures match JudgedBy(steps, r.id)
            case None => r.newPosts.None? && r.repeatedPosts.None? && r.outcome != Useful
            case Some(x) => r.newPosts == Some(x.brandNew) && r.repeatedPosts == Some(x.repeated)
                            && (r.outcome == Useful <==> x.brandNew > 0 || x.changed)
  {
    BearsItsReport(steps, r);
  }

  lemma BearsItsReport(steps: seq<Step>, r: Record)
    requires After(steps).Some? && Exists(After(steps).value, r)
    ensures Bears(r, JudgedBy(steps, r.id))
  {
    AnswersAlways(steps);
    AnswersBear(After(steps).value, (id: nat) => JudgedBy(steps, id), (p: nat) => Reported(steps, p), r);
  }

  lemma AnswersBear(s: State, judged: nat -> Option<Report>, reported: nat -> Option<Report>, r: Record)
    requires AnswerInv(s, judged, reported) && Exists(s, r)
    ensures Bears(r, judged(r.id))
  {}

  /** As a page's block is left, its last answer goes on with what the page was last told, every other answer
      with nothing; and each goes on once. */
  lemma PageCloses(steps: seq<Step>, step: Step, p: nat, i: nat, r: Record)
    requires After(steps).Some? && Enabled(After(steps).value, step) && ClosesPage(After(steps).value, step, p)
    requires i < |After(steps).value.pages[p].cell.answered| && Exists(Next(After(steps).value, step), r)
    requires r.id == After(steps).value.pages[p].cell.answered[i].id
    ensures var answers := After(steps).value.pages[p].cell.answered;
            Bears(r, if i == |answers| - 1 then Reported(steps, p) else None)
            && Census(Next(After(steps).value, step), r.id) == 1
  {
    OneMore(steps, step);
    JudgedAsItCloses(steps, step, p, i);
    BearsItsReport(steps + [step], r);
    AnswerIsLogged(steps, p, i);
    NextConserves(After(steps).value, step, r.id);
    Conservation(steps, r.id);
  }

  lemma JudgedAsItCloses(steps: seq<Step>, step: Step, p: nat, i: nat)
    requires After(steps).Some? && Enabled(After(steps).value, step) && ClosesPage(After(steps).value, step, p)
    requires i < |After(steps).value.pages[p].cell.answered| && After(steps + [step]).Some?
    ensures var answers := After(steps).value.pages[p].cell.answered;
            JudgedBy(steps + [step], answers[i].id) == if i == |answers| - 1 then Reported(steps, p) else None
  {
    var s := After(steps).value;
    var answers := s.pages[p].cell.answered;
    assert (steps + [step])[..|steps|] == steps && (steps + [step])[|steps|] == step;
    OnlyTheLast(steps, p, i);
    NotJudgedYet(steps, p, i);
    assert JudgedNow(steps, s, step, answers[i].id) == if i == |answers| - 1 then Reported(steps, p) else None;
  }

  lemma OnlyTheLast(steps: seq<Step>, p: nat, i: nat)
    requires After(steps).Some? && p < |After(steps).value.pages| && i < |After(steps).value.pages[p].cell.answered|
    ensures var page := After(steps).value.pages[p].cell;
            IsLastOf(page, page.answered[i].id) <==> i == |page.answered| - 1
  {
    PagesAlways(steps);
    LastAloneIs(After(steps).value, p, i);
  }

  lemma AnswerIsLogged(steps: seq<Step>, p: nat, i: nat)
    requires After(steps).Some? && p < |After(steps).value.pages| && i < |After(steps).value.pages[p].cell.answered|
    ensures After(steps).value.pages[p].cell.answered[i].id < |After(steps).value.log|
  {
    PagesAlways(steps);
    JudgedOne(After(steps).value, p, i);
  }

  lemma NotJudgedYet(steps: seq<Step>, p: nat, i: nat)
    requires After(steps).Some? && p < |After(steps).value.pages| && i < |After(steps).value.pages[p].cell.answered|
    ensures JudgedBy(steps, After(steps).value.pages[p].cell.answered[i].id).None?
  {
    AnswersAlways(steps);
    AnswerWaitsUnjudged(After(steps).value, (id: nat) => JudgedBy(steps, id), (q: nat) => Reported(steps, q), p, i);
  }

  lemma AnswerWaitsUnjudged(s: State, judged: nat -> Option<Report>, reported: nat -> Option<Report>, p: nat, i: nat)
    requires AnswerInv(s, judged, reported) && p < |s.pages| && i < |s.pages[p].cell.answered|
    ensures judged(s.pages[p].cell.answered[i].id).None?
  {
    assert s.pages[p].cell.answered[i] in s.pages[p].cell.answered;
  }

  // ------------------------------------------------------- what was attempted

  lemma {:induction false} LogOnlyGrows(steps: seq<Step>, n: nat)
    requires After(steps).Some? && n <= |steps|
    ensures After(steps[..n]).Some? && After(steps[..n]).value.log <= After(steps).value.log
    decreases |steps|
  {
    if n == |steps| {
      assert steps[..n] == steps;
    } else {
      var front := steps[..|steps| - 1];
      assert front[..n] == steps[..n];
      LogOnlyGrows(front, n);
      NextLogs(After(front).value, steps[|steps| - 1]);
    }
  }

  /** The cause and the error an attempt is recorded with: a soft block is the page's to name, and no fault
      where a private Channel's page answers that it exists. */
  predicate NamesTheFault(r: Record, a: Attempt, page: PageCell) {
    if a.cause == Some(SoftBlock) && a.isPrivate && page.softBlock == MissingHandle
    then r.cause.None? && r.errorCode.None?
    else r.cause == (if a.cause == Some(SoftBlock) then Some(page.softBlock) else a.cause) && r.errorCode == a.errorCode
  }

  predicate TellsWhose(r: Record, who: Attribution) {
    && r.kind == who.kind && r.accountId == who.accountId && r.budget == who.budget && r.channel == who.channel
    && r.bestEffort == who.bestEffort && r.jobId == who.jobId
  }

  predicate TellsWhat(r: Record, a: Attempt, page: PageCell) {
    && r.at == a.at && r.latencyMs == a.latencyMs && r.lane == a.lane && r.pageType == page.pageType
    && (r.charged <==> a.webView && a.answered && r.budget.Some?)
    && r.attempt == page.attempts + 1 && (r.outcome == Wasted <==> r.cause.Some?)
  }

  lemma {:induction false} LoggedTells(s: State, t: nat, p: nat, a: Attempt)
    requires WellFormed(s) && t < |s.tasks| && p < |s.pages|
    ensures |Record1(s, t, p, a).log| == |s.log| + 1
    ensures var r := Record1(s, t, p, a).log[|s.log|].record;
            TellsWhose(r, s.tasks[t].vars.who) && TellsWhat(r, a, s.pages[p].cell)
              && NamesTheFault(r, a, s.pages[p].cell)
  {
    assert VarsOk(s, s.tasks[t].vars);
  }

  /** Over every run a record, wherever it is, tells the attempt it was made for, whose it was then, and the
      fault as its page names it. */
  lemma RecordsTellTheAttempt(steps: seq<Step>, n: nat, r: Record)
    requires After(steps).Some? && n < |steps| && steps[n].Attempted? && Exists(After(steps).value, r)
    requires After(steps[..n]).Some? && r.id == |After(steps[..n]).value.log|
    requires Enabled(After(steps[..n]).value, steps[n])
    ensures var s := After(steps[..n]).value; var page := s.pages[steps[n].page].cell;
            && TellsWhose(r, s.tasks[steps[n].task].vars.who)
            && TellsWhat(r, steps[n].a, page) && NamesTheFault(r, steps[n].a, page)
  {
    var s := After(steps[..n]).value;
    assert steps[..n + 1][..n] == steps[..n];
    LogOnlyGrows(steps, n + 1);
    LoggedTells(s, steps[n].task, steps[n].page, steps[n].a);
    PagesAlways(steps);
    ExistsFits(After(steps).value, r);
  }

  /** An answer waits in the page it was made for only where that is the page the task is in. */
  lemma AnswersWait(steps: seq<Step>, t: nat, p: nat, a: Attempt)
    requires After(steps).Some? && Enabled(After(steps).value, Attempted(t, p, a))
    ensures var s := After(steps).value; var s' := Next(s, Attempted(t, p, a)); var r := s'.log[|s.log|].record;
            |s'.log| == |s.log| + 1
            && (r in s'.pages[p].cell.answered <==> r.cause.None? && s.tasks[t].vars.page == Some(p))
            && (r !in s'.pages[p].cell.answered ==> Released(s', r))
  {
    var s := After(steps).value;
    assert VarsOk(s, s.tasks[t].vars);
    PagesAlways(steps);
    AnswersLogged(s);
    var r := NewRecord(s.pages[p].cell, a, s.tasks[t].vars.who, |s.log|);
    assert r !in s.pages[p].cell.answered;
    if !(r.cause.None? && s.tasks[t].vars.page == Some(p)) {
      PushLetsGo(Counted(s, t, p, a), s.tasks[t].vars.sync, [r]);
    }
  }

  lemma PushLetsGo(s: State, sync: Option<nat>, records: seq<Record>)
    requires RefOk(sync, |s.runs|)
    ensures forall r | r in records :: Released(PushVia(s, sync, records), r)
  {
    var s' := PushVia(s, sync, records);
    if sync.Some? && !s.runs[sync.value].cell.closed {
      HoldLetsGo(s.runs[sync.value].cell, records);
      forall r | r in records ensures Released(s', r) {
        if r !in s'.buffer { assert s'.runs[sync.value].cell.held == Some(r); }
      }
    }
  }

  lemma {:induction false} HoldLetsGo(run: SyncCell, records: seq<Record>)
    ensures forall r | r in records || run.held == Some(r) ::
            r in HoldAll(run, records).1 || HoldAll(run, records).0.held == Some(r)
    decreases |records|
  {
    if records != [] {
      HoldLetsGo(run, records[..|records| - 1]);
      assert records == records[..|records| - 1] + [records[|records| - 1]];
    }
  }

  // --------------------------------------------------------------- contexts

  /** What a block that names something makes of the attribution around it: each value named, or the one there was. */
  predicate Refines(now: Attribution, was: Attribution, named: Refinement) {
    && now.kind == (if named.kind.Some? then named.kind.value else was.kind)
    && now.accountId == (if named.accountId.Some? then named.accountId else was.accountId)
    && now.budget == (if named.budget.Some? then named.budget else was.budget)
    && now.channel == (if named.channel.Some? then named.channel else was.channel)
    && now.bestEffort == (if named.bestEffort.Some? then named.bestEffort.value else was.bestEffort)
    && now.jobId == (if named.jobId.Some? then named.jobId else was.jobId)
  }

  /** How a step changes task `t`'s variables, other than leaving a block: entering one sets the one variable it
      is for, to a page, tally or run that is new. */
  predicate EntersIn(s: State, step: Step, was: Variables, now: Variables) {
    match step
    case EnterAttributed(_, named) => Refines(now.who, was.who, named) && now == was.(who := now.who)
    case EnterTallied(_) => now == was.(tally := Some(|s.tallies|))
    case EnterPage(_, _, _) => now == was.(page := Some(|s.pages|))
    case EnterSync(_) => now == was.(sync := Some(|s.runs|))
    case _ => now == was
  }

  /** A task starts with nothing attributed and nothing open, one spawned with what the spawning task had then;
      from there only its own steps change its variables. */
  lemma ContextsAreInherited(s: State, step: Step)
    requires WellFormed(s) && Enabled(s, step)
    ensures var s' := Next(s, step);
            && |s'.tasks| == |s.tasks| + (if step.Start? || step.Spawn? then 1 else 0)
            && (step.Start? ==> s'.tasks[|s.tasks|].vars
                                == Variables(Attribution(Other, None, None, None, false, None), None, None, None))
            && (step.Spawn? ==> s'.tasks[|s.tasks|].vars == s.tasks[step.task].vars)
            && forall t | 0 <= t < |s.tasks| && !(step.Exit? && step.task == t) ::
                 EntersIn(s, if StepOf(step, t) then step else Drain, s.tasks[t].vars, s'.tasks[t].vars)
  {
    forall t | 0 <= t < |s.tasks| ensures TaskMoves(s.tasks[t], Next(s, step).tasks[t]) { NextTask(s, step, t); }
    match step
    case Exit(t, failed) => OthersStay(s, t, failed);
    case Attempted(t, _, _) => assert VarsOk(s, s.tasks[t].vars);
    case _ =>
  }

  /** The step enters a block in task `t`. */
  predicate StepOf(step: Step, t: nat) {
    (step.EnterAttributed? || step.EnterTallied? || step.EnterPage? || step.EnterSync?) && step.task == t
  }

  /** What a block opens: a page of the type asked for, naming a withheld page as asked; a run for what is attributed
      as it is entered; a tally at zero, with a Budget if one is attributed then. A fetch's own page is a picture's or
      the metadata's, and calls a soft block that. */
  lemma OpenedFor(s: State, step: Step)
    requires WellFormed(s) && Enabled(s, step)
    ensures var s' := Next(s, step);
            match step
            case EnterPage(_, pageType, softBlock) =>
              && |s'.pages| == |s.pages| + 1
              && s'.pages[|s.pages|].cell.pageType == pageType && s'.pages[|s.pages|].cell.softBlock == softBlock
            case OwnPage(media) =>
              && |s'.pages| == |s.pages| + 1 && s'.pages[|s.pages|].cell.softBlock == SoftBlock
              && s'.pages[|s.pages|].cell.pageType == if media then Media else Metadata
            case EnterSync(t) => |s'.runs| == |s.runs| + 1 && s'.runs[|s.runs|].cell.who == s.tasks[t].vars.who
            case EnterTallied(t) =>
              && |s'.tallies| == |s.tallies| + 1 && s'.tallies[|s.tallies|].requests == 0
              && s'.tallies[|s.tallies|].budgeted == s.tasks[t].vars.who.budget.Some?
            case _ => |s'.tallies| == |s.tallies|
  {
    match step
    case Exit(t, failed) => assert BlockOk(s, t, |s.tasks[t].blocks| - 1) && VarsOk(s, s.tasks[t].vars);
    case Attempted(t, _, _) => assert VarsOk(s, s.tasks[t].vars);
    case _ =>
  }

  lemma OthersStay(s: State, t: nat, failed: bool)
    requires WellFormed(s) && t < |s.tasks| && s.tasks[t].blocks != []
    ensures |Leave(s, t, failed).tasks| == |s.tasks|
    ensures forall u | 0 <= u < |s.tasks| && u != t :: Leave(s, t, failed).tasks[u] == s.tasks[u]
  {
    assert BlockOk(s, t, |s.tasks[t].blocks| - 1) && VarsOk(s, s.tasks[t].vars);
  }
}
