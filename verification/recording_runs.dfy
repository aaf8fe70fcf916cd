/**
 The request recorder under every interleaving of tasks.

 A task has its own copy of the context variables (attribution, page, tally,
 sync run) and a stack of the blocks it is inside; pages, runs, tallies and the
 buffer are shared. A run of the process is a sequence of steps, each taken by
 some task. Beside the process's own state a `State` keeps history that the
 code does not: the log of attempts, which block a page or run belongs to, and
 what each run was offered while it was open.
 */
module RecordingRuns {
  import opened Options
  import opened RequestRecording

  datatype Variables = Variables(who: Attribution, page: Option<nat>, tally: Option<nat>, sync: Option<nat>)

  /** An open block, with the value its context variable is reset to. */
  datatype Block =
    | InAttributed(wasWho: Attribution)
    | InTallied(was: Option<nat>)
    | InPage(page: nat, was: Option<nat>)
    | InSync(run: nat, was: Option<nat>)

  datatype Task = Task(vars: Variables, blocks: seq<Block>)

  /** Where a page or run stands: in no block yet, in one task's block, or closed. */
  datatype Home = Loose | Open(task: nat, depth: nat) | Done

  datatype PageSlot = PageSlot(cell: PageCell, home: Home)
  /** `seen` is what the run was offered while open; `verdict` is `failed` as it closed. */
  datatype RunSlot = RunSlot(cell: SyncCell, home: Home, seen: seq<Record>, verdict: bool)
  datatype TallySlot = TallySlot(requests: nat, budgeted: bool)

  /** One attempt as logged: `kept` in its page's answers, `late` when that page had closed. */
  datatype Entry = Entry(record: Record, page: nat, tally: Option<nat>, paid: bool, kept: bool, late: bool)

  datatype State = State(
    tasks: seq<Task>, pages: seq<PageSlot>, runs: seq<RunSlot>, tallies: seq<TallySlot>,
    buffer: seq<Record>, drained: seq<Record>, log: seq<Entry>, through: map<nat, nat>)

  const START := State([], [], [], [], [], [], [], map[])

  datatype Step =
    | Start
    | Spawn(task: nat)
    | EnterAttributed(task: nat, refinement: Refinement)
    | EnterTallied(task: nat)
    | EnterPage(task: nat, pageType: PageType, softBlock: Cause)
    | EnterSync(task: nat)
    | Exit(task: nat, failed: bool)
    | OwnPage(media: bool)
    | Attempted(task: nat, page: nat, a: Attempt)
    | ReportPosts(page: nat, brandNew: int, repeated: int, changed: bool)
    | SetFailed(run: nat, failed: bool)
    | Drain

  // ------------------------------------------------------------------ steps

  predicate RefOk(o: Option<nat>, n: nat) { o.Some? ==> o.value < n }

  function IdSet(records: seq<Record>): set<nat> { set r | r in records :: r.id }

  function PushVia(s: State, sync: Option<nat>, records: seq<Record>): State
    requires RefOk(sync, |s.runs|)
  {
    if sync.None? then s.(buffer := Pushed(None, s.buffer, records).1)
    else
      var k := sync.value;
      var run := s.runs[k];
      var (cell, buffer) := Pushed(Some(run.cell), s.buffer, records);
      s.(buffer := buffer,
         runs := s.runs[k := run.(cell := cell.value,
                                  seen := if run.cell.closed then run.seen else run.seen + records)],
         through := if run.cell.closed then s.through else s.through + map id | id in IdSet(records) :: k)
  }

  /** `task` enters `block` with its variables now `vars`. */
  function Enter(s: State, task: nat, vars: Variables, block: Block): State
    requires task < |s.tasks|
  {
    s.(tasks := s.tasks[task := Task(vars, s.tasks[task].blocks + [block])])
  }

  function Restored(vars: Variables, block: Block): Variables {
    match block
    case InAttributed(was) => vars.(who := was)
    case InTallied(was) => vars.(tally := was)
    case InPage(_, was) => vars.(page := was)
    case InSync(_, was) => vars.(sync := was)
  }

  function ClosePage(s: State, p: nat, sync: Option<nat>): State
    requires p < |s.pages| && RefOk(sync, |s.runs|)
  {
    var cell := s.pages[p].cell;
    PushVia(s.(pages := s.pages[p := PageSlot(cell.(answered := []), Done)]), sync, Judged(cell))
  }

  function CloseRun(s: State, k: nat, failed: bool, outer: Option<nat>): State
    requires k < |s.runs| && RefOk(outer, |s.runs|)
  {
    var run := s.runs[k];
    var ended := run.cell.(failed := run.cell.failed || failed);
    PushVia(s.(runs := s.runs[k := RunSlot(Closed(ended).0, Done, run.seen, ended.failed)]), outer, Closed(ended).1)
  }

  function Leave(s: State, task: nat, failed: bool): State
    requires WellFormed(s) && task < |s.tasks| && s.tasks[task].blocks != []
  {
    var t := s.tasks[task];
    var depth := |t.blocks| - 1;
    var vars := Restored(t.vars, t.blocks[depth]);
    var left := s.(tasks := s.tasks[task := Task(vars, t.blocks[..depth])]);
    assert BlockOk(s, task, depth);
    match t.blocks[depth]
    case InPage(p, _) => ClosePage(left, p, vars.sync)
    case InSync(k, outer) => CloseRun(left, k, failed, outer)
    case _ => left
  }

  /** The page, tally and log after an attempt, before its record goes anywhere else. */
  function Counted(s: State, task: nat, p: nat, a: Attempt): State
    requires WellFormed(s) && task < |s.tasks| && p < |s.pages|
  {
    var vars := s.tasks[task].vars;
    var cell := s.pages[p].cell;
    var r := NewRecord(cell, a, vars.who, |s.log|);
    var kept := r.cause.None? && vars.page == Some(p);
    s.(
      pages := s.pages[p := s.pages[p].(cell := Recorded(cell, a, vars.who, |s.log|, vars.page == Some(p)))],
      tallies := if Paid(a) && vars.tally.Some?
                 then
                   var slot := s.tallies[vars.tally.value];
                   s.tallies[vars.tally.value := slot.(requests := slot.requests + 1)]
                 else s.tallies,
      log := s.log + [Entry(r, p, vars.tally, Paid(a), kept, kept && s.pages[p].home.Done?)])
  }

  function Record1(s: State, task: nat, p: nat, a: Attempt): State
    requires WellFormed(s) && task < |s.tasks| && p < |s.pages|
  {
    var vars := s.tasks[task].vars;
    var cell := s.pages[p].cell;
    var r := NewRecord(cell, a, vars.who, |s.log|);
    var kept := r.cause.None? && vars.page == Some(p);
    var counted := Counted(s, task, p, a);
    if kept then counted else PushVia(counted, vars.sync, [r])
  }

  predicate Enabled(s: State, step: Step) {
    match step
    case Start => true
    case Spawn(t) => t < |s.tasks|
    case EnterAttributed(t, _) => t < |s.tasks|
    case EnterTallied(t) => t < |s.tasks|
    case EnterPage(t, _, _) => t < |s.tasks|
    case EnterSync(t) => t < |s.tasks|
    case Exit(t, _) => t < |s.tasks| && s.tasks[t].blocks != []
    case OwnPage(_) => true
    case Attempted(t, p, _) => t < |s.tasks| && p < |s.pages|
    case ReportPosts(p, _, _, _) => p < |s.pages|
    case SetFailed(k, _) => k < |s.runs|
    case Drain => true
  }

  function Next(s: State, step: Step): State
    requires WellFormed(s) && Enabled(s, step)
  {
    match step
    case Start => s.(tasks := s.tasks + [Task(Variables(NOBODY, None, None, None), [])])
    case Spawn(t) => s.(tasks := s.tasks + [Task(s.tasks[t].vars, [])])
    case EnterAttributed(t, refinement) =>
      var vars := s.tasks[t].vars;
      Enter(s, t, vars.(who := Refine(vars.who, refinement)), InAttributed(vars.who))
    case EnterTallied(t) =>
      var vars := s.tasks[t].vars;
      Enter(s.(tallies := s.tallies + [TallySlot(0, vars.who.budget.Some?)]),
            t, vars.(tally := Some(|s.tallies|)), InTallied(vars.tally))
    case EnterPage(t, pageType, softBlock) =>
      var vars := s.tasks[t].vars;
      Enter(s.(pages := s.pages + [PageSlot(NewPage(pageType, softBlock), Open(t, |s.tasks[t].blocks|))]),
            t, vars.(page := Some(|s.pages|)), InPage(|s.pages|, vars.page))
    case EnterSync(t) =>
      var vars := s.tasks[t].vars;
      Enter(s.(runs := s.runs + [RunSlot(SyncCell(vars.who, false, None, false), Open(t, |s.tasks[t].blocks|), [],
                                         false)]),
            t, vars.(sync := Some(|s.runs|)), InSync(|s.runs|, vars.sync))
    case Exit(t, failed) => Leave(s, t, failed)
    case OwnPage(media) =>
      s.(pages := s.pages + [PageSlot(NewPage(if media then Media else Metadata, SoftBlock), Loose)])
    case Attempted(t, p, a) => Record1(s, t, p, a)
    case ReportPosts(p, brandNew, repeated, changed) =>
      s.(pages := s.pages[p := s.pages[p].(cell := s.pages[p].cell.(
          newPosts := Some(brandNew), repeatedPosts := Some(repeated), changed := changed))])
    case SetFailed(k, failed) => s.(runs := s.runs[k := s.runs[k].(cell := s.runs[k].cell.(failed := failed))])
    case Drain => s.(drained := s.drained + s.buffer, buffer := [])
  }

  // ------------------------------------------------------- well-formedness

  predicate VarsOk(s: State, v: Variables) {
    && RefOk(v.page, |s.pages|) && RefOk(v.tally, |s.tallies|) && RefOk(v.sync, |s.runs|)
    && (v.page.Some? ==> s.pages[v.page.value].home != Loose)
  }

  predicate BlockOk(s: State, t: nat, d: nat)
    requires t < |s.tasks| && d < |s.tasks[t].blocks|
  {
    match s.tasks[t].blocks[d]
    case InAttributed(_) => true
    case InTallied(was) => RefOk(was, |s.tallies|)
    case InPage(p, was) =>
      && p < |s.pages| && s.pages[p].home == Open(t, d)
      && RefOk(was, |s.pages|) && (was.Some? ==> s.pages[was.value].home != Loose)
    case InSync(k, was) => k < |s.runs| && s.runs[k].home == Open(t, d) && RefOk(was, |s.runs|)
  }

  predicate IsBlock(s: State, t: nat, d: nat) { t < |s.tasks| && d < |s.tasks[t].blocks| }

  /** Blocks and the pages and runs they opened point at each other, so each has one block. */
  predicate WellFormed(s: State) {
    && (forall t | 0 <= t < |s.tasks| :: VarsOk(s, s.tasks[t].vars))
    && (forall t, d | 0 <= t < |s.tasks| && 0 <= d < |s.tasks[t].blocks| :: BlockOk(s, t, d))
    && (forall p | 0 <= p < |s.pages| :: PageHomeOk(s, p))
    && (forall k | 0 <= k < |s.runs| :: RunHomeOk(s, k))
  }

  predicate PageHomeOk(s: State, p: nat)
    requires p < |s.pages|
  {
    s.pages[p].home.Open? ==>
      var h := s.pages[p].home;
      IsBlock(s, h.task, h.depth) && s.tasks[h.task].blocks[h.depth].InPage?
        && s.tasks[h.task].blocks[h.depth].page == p
  }

  predicate RunHomeOk(s: State, k: nat)
    requires k < |s.runs|
  {
    var run := s.runs[k];
    && (run.home.Done? <==> run.cell.closed) && (run.cell.closed ==> run.cell.held.None?)
    && run.home != Loose
    && (run.home.Open? ==>
          IsBlock(s, run.home.task, run.home.depth)
          && s.tasks[run.home.task].blocks[run.home.depth].InSync?
          && s.tasks[run.home.task].blocks[run.home.depth].run == k)
  }

  lemma PushViaWellFormed(s: State, sync: Option<nat>, records: seq<Record>)
    requires WellFormed(s) && RefOk(sync, |s.runs|)
    ensures WellFormed(PushVia(s, sync, records))
    ensures var s' := PushVia(s, sync, records);
            s'.tasks == s.tasks && s'.pages == s.pages && s'.log == s.log
            && s'.tallies == s.tallies && s'.drained == s.drained && |s'.runs| == |s.runs|
  {
    var s' := PushVia(s, sync, records);
    forall t, d | 0 <= t < |s'.tasks| && 0 <= d < |s'.tasks[t].blocks| ensures BlockOk(s', t, d) {
      assert BlockOk(s, t, d);
    }
    forall t | 0 <= t < |s'.tasks| ensures VarsOk(s', s'.tasks[t].vars) {
      assert VarsOk(s, s.tasks[t].vars);
    }
    forall p | 0 <= p < |s'.pages| ensures PageHomeOk(s', p) {
      assert PageHomeOk(s, p);
    }
    forall k | 0 <= k < |s'.runs| ensures RunHomeOk(s', k) {
      assert RunHomeOk(s, k);
      if sync == Some(k) { HoldKeepsShape(s.runs[k].cell, records); }
    }
  }

  lemma HoldKeepsShape(run: SyncCell, records: seq<Record>)
    ensures Hold(run, records).0 == run.(held := Hold(run, records).0.held)
    ensures run.closed ==> Hold(run, records) == (run, records)
    decreases |records|
  {
    if !run.closed && records != [] {
      HoldKeepsShape(run, records[..|records| - 1]);
    }
  }

  /** Opening a block that adds at most one page, run or tally, whose home is that block. */
  lemma EnterWellFormed(s: State, wider: State, t: nat, vars: Variables, block: Block)
    requires WellFormed(s) && t < |s.tasks|
    requires wider.tasks == s.tasks && s.pages <= wider.pages && s.runs <= wider.runs && |s.tallies| <= |wider.tallies|
    requires VarsOk(wider, vars)
    requires var s' := Enter(wider, t, vars, block); BlockOk(s', t, |s.tasks[t].blocks|)
    requires var s' := Enter(wider, t, vars, block);
             && (forall p | |s.pages| <= p < |wider.pages| :: PageHomeOk(s', p))
             && (forall k | |s.runs| <= k < |wider.runs| :: RunHomeOk(s', k))
    ensures WellFormed(Enter(wider, t, vars, block))
  {
    var s' := Enter(wider, t, vars, block);
    forall u, d | 0 <= u < |s'.tasks| && 0 <= d < |s'.tasks[u].blocks| ensures BlockOk(s', u, d) {
      if u != t || d < |s.tasks[t].blocks| { assert BlockOk(s, u, d); }
    }
    forall u | 0 <= u < |s'.tasks| ensures VarsOk(s', s'.tasks[u].vars) {
      assert VarsOk(s, s.tasks[u].vars);
    }
    forall p | 0 <= p < |s'.pages| ensures PageHomeOk(s', p) {
      if p < |s.pages| { assert PageHomeOk(s, p); }
    }
    forall k | 0 <= k < |s'.runs| ensures RunHomeOk(s', k) {
      if k < |s.runs| { assert RunHomeOk(s, k); }
    }
  }

  /** Leaving a block, once the page or run it opened is marked closed. */
  lemma PoppedWellFormed(s: State, s': State, t: nat)
    requires WellFormed(s) && t < |s.tasks| && s.tasks[t].blocks != []
    requires var d := |s.tasks[t].blocks| - 1; var block := s.tasks[t].blocks[d];
             && s'.tasks == s.tasks[t := Task(Restored(s.tasks[t].vars, block), s.tasks[t].blocks[..d])]
             && |s'.pages| == |s.pages| && |s'.runs| == |s.runs| && s'.tallies == s.tallies
             && (forall p | 0 <= p < |s.pages| ::
                 if block.InPage? && block.page == p then s'.pages[p].home == Done else s'.pages[p] == s.pages[p])
             && (forall k | 0 <= k < |s.runs| ::
                   if block.InSync? && block.run == k
                   then s'.runs[k].home == Done && s'.runs[k].cell.closed && s'.runs[k].cell.held.None?
                   else s'.runs[k] == s.runs[k])
    ensures WellFormed(s')
    ensures RefOk(s'.tasks[t].vars.sync, |s'.runs|)
  {
    var d := |s.tasks[t].blocks| - 1;
    assert BlockOk(s, t, d) && VarsOk(s, s.tasks[t].vars);
    forall u, e | 0 <= u < |s'.tasks| && 0 <= e < |s'.tasks[u].blocks| ensures BlockOk(s', u, e) {
      assert BlockOk(s, u, e);
    }
    forall u | 0 <= u < |s'.tasks| ensures VarsOk(s', s'.tasks[u].vars) {
      assert VarsOk(s, s.tasks[u].vars);
    }
    forall p | 0 <= p < |s'.pages| ensures PageHomeOk(s', p) { assert PageHomeOk(s, p); }
    forall k | 0 <= k < |s'.runs| ensures RunHomeOk(s', k) { assert RunHomeOk(s, k); }
  }

  lemma LeaveWellFormed(s: State, t: nat, failed: bool)
    requires WellFormed(s) && t < |s.tasks| && s.tasks[t].blocks != []
    ensures WellFormed(Leave(s, t, failed))
  {
    var task := s.tasks[t];
    var d := |task.blocks| - 1;
    assert BlockOk(s, t, d) && VarsOk(s, task.vars);
    var vars := Restored(task.vars, task.blocks[d]);
    var left := s.(tasks := s.tasks[t := Task(vars, task.blocks[..d])]);
    match task.blocks[d]
    case InPage(p, _) =>
      var cell := s.pages[p].cell;
      var marked := left.(pages := s.pages[p := PageSlot(cell.(answered := []), Done)]);
      PoppedWellFormed(s, marked, t);
      PushViaWellFormed(marked, vars.sync, Judged(cell));
    case InSync(k, outer) =>
      var run := s.runs[k];
      var ended := run.cell.(failed := run.cell.failed || failed);
      var marked := left.(runs := s.runs[k := RunSlot(Closed(ended).0, Done, run.seen, ended.failed)]);
      PoppedWellFormed(s, marked, t);
      PushViaWellFormed(marked, outer, Closed(ended).1);
    case _ =>
      PoppedWellFormed(s, left, t);
  }

  /** Steps that only change cells keep every home. */
  lemma CellsWellFormed(s: State, s': State)
    requires WellFormed(s) && s'.tasks == s.tasks && |s'.tallies| == |s.tallies|
    requires |s'.pages| == |s.pages| && forall p | 0 <= p < |s.pages| :: s'.pages[p].home == s.pages[p].home
    requires |s'.runs| == |s.runs|
    requires forall k | 0 <= k < |s.runs| ::
               s'.runs[k].home == s.runs[k].home && s'.runs[k].cell.closed == s.runs[k].cell.closed
                 && s'.runs[k].cell.held == s.runs[k].cell.held
    ensures WellFormed(s')
  {
    forall t, d | 0 <= t < |s'.tasks| && 0 <= d < |s'.tasks[t].blocks|
      ensures BlockOk(s', t, d)
    {
      assert BlockOk(s, t, d);
    }
    forall t | 0 <= t < |s'.tasks| ensures VarsOk(s', s'.tasks[t].vars) { assert VarsOk(s, s.tasks[t].vars); }
    forall p | 0 <= p < |s'.pages| ensures PageHomeOk(s', p) { assert PageHomeOk(s, p); }
    forall k | 0 <= k < |s'.runs| ensures RunHomeOk(s', k) { assert RunHomeOk(s, k); }
  }

  lemma AttemptWellFormed(s: State, t: nat, p: nat, a: Attempt)
    requires WellFormed(s) && t < |s.tasks| && p < |s.pages|
    ensures WellFormed(Record1(s, t, p, a))
  {
    var vars := s.tasks[t].vars;
    assert VarsOk(s, vars);
    var cell := s.pages[p].cell;
    var r := NewRecord(cell, a, vars.who, |s.log|);
    var counted := Counted(s, t, p, a);
    CellsWellFormed(s, counted);
    PushViaWellFormed(counted, vars.sync, [r]);
  }

  lemma NextWellFormed(s: State, step: Step)
    requires WellFormed(s) && Enabled(s, step)
    ensures WellFormed(Next(s, step))
  {
    match step
    case Start | Spawn(_) | OwnPage(_) => GrownWellFormed(s, step);
    case EnterAttributed(t, refinement) =>
      assert VarsOk(s, s.tasks[t].vars);
      EnterWellFormed(s, s, t, s.tasks[t].vars.(who := Refine(s.tasks[t].vars.who, refinement)),
                      InAttributed(s.tasks[t].vars.who));
    case EnterTallied(t) =>
      var vars := s.tasks[t].vars;
      assert VarsOk(s, vars);
      EnterWellFormed(s, s.(tallies := s.tallies + [TallySlot(0, vars.who.budget.Some?)]), t,
                      vars.(tally := Some(|s.tallies|)), InTallied(vars.tally));
    case EnterPage(t, pageType, softBlock) =>
      var vars := s.tasks[t].vars;
      assert VarsOk(s, vars);
      EnterWellFormed(s, s.(pages := s.pages + [PageSlot(NewPage(pageType, softBlock), Open(t, |s.tasks[t].blocks|))]),
                      t, vars.(page := Some(|s.pages|)), InPage(|s.pages|, vars.page));
    case EnterSync(t) =>
      var vars := s.tasks[t].vars;
      assert VarsOk(s, vars);
      EnterWellFormed(s, s.(runs := s.runs + [RunSlot(SyncCell(vars.who, false, None, false),
                                                      Open(t, |s.tasks[t].blocks|), [], false)]),
                      t, vars.(sync := Some(|s.runs|)), InSync(|s.runs|, vars.sync));
    case Exit(t, failed) => LeaveWellFormed(s, t, failed);
    case Attempted(t, p, a) => AttemptWellFormed(s, t, p, a);
    case ReportPosts(_, _, _, _) | SetFailed(_, _) | Drain => CellsWellFormed(s, Next(s, step));
  }

  lemma GrownWellFormed(s: State, step: Step)
    requires WellFormed(s) && Enabled(s, step) && (step.Start? || step.Spawn? || step.OwnPage?)
    ensures WellFormed(Next(s, step))
  {
    var s' := Next(s, step);
    forall t, d | 0 <= t < |s'.tasks| && 0 <= d < |s'.tasks[t].blocks|
      ensures BlockOk(s', t, d)
    {
      assert BlockOk(s, t, d);
    }
    forall t | 0 <= t < |s'.tasks| ensures VarsOk(s', s'.tasks[t].vars) {
      if step.Spawn? { assert VarsOk(s, s.tasks[step.task].vars); }
      if t < |s.tasks| { assert VarsOk(s, s.tasks[t].vars); }
    }
    forall p | 0 <= p < |s'.pages| ensures PageHomeOk(s', p) { if p < |s.pages| { assert PageHomeOk(s, p); } }
    forall k | 0 <= k < |s'.runs| ensures RunHomeOk(s', k) { assert RunHomeOk(s, k); }
  }

  // ------------------------------------------------------------------- runs

  /** The state a sequence of steps leads to from the start, if each was enabled. */
  function After(steps: seq<Step>): (r: Option<State>)
    ensures r.Some? ==> WellFormed(r.value)
    decreases |steps|
  {
    if steps == [] then Some(START)
    else
      var n := |steps| - 1;
      var before := After(steps[..n]);
      if before.None? || !Enabled(before.value, steps[n]) then None
      else
        NextWellFormed(before.value, steps[n]);
        Some(Next(before.value, steps[n]))
  }

  lemma OneMore(steps: seq<Step>, step: Step)
    requires After(steps).Some? && Enabled(After(steps).value, step)
    ensures After(steps + [step]) == Some(Next(After(steps).value, step))
  {
    assert (steps + [step])[..|steps|] == steps;
  }

  lemma Reaches(steps: seq<Step>, s: State, step: Step, t: State)
    requires After(steps) == Some(s) && Enabled(s, step) && Next(s, step) == t
    ensures After(steps + [step]) == Some(t)
  {
    OneMore(steps, step);
  }

  // ------------------------------------------------------------ nested blocks

  /** The variables `task` had when it was `depth` blocks deep. */
  function Outer(vars: Variables, blocks: seq<Block>, depth: nat): Variables
    requires depth <= |blocks|
    decreases |blocks|
  {
    if |blocks| == depth then vars
    else Outer(Restored(vars, blocks[|blocks| - 1]), blocks[..|blocks| - 1], depth)
  }

  /** Task `t` stays at least `depth` blocks deep from the `n`-th step on. */
  predicate StaysInside(steps: seq<Step>, n: nat, t: nat, depth: nat)
    requires n <= |steps|
    decreases |steps|
  {
    && After(steps).Some? && t < |After(steps).value.tasks| && depth <= |After(steps).value.tasks[t].blocks|
    && (n < |steps| ==> StaysInside(steps[..|steps| - 1], n, t, depth))
  }

  /** What a step may do to a task: nothing, open one block, or leave its innermost one. */
  predicate TaskMoves(was: Task, now: Task) {
    || now == was
    || (|now.blocks| == |was.blocks| + 1 && now.blocks[..|was.blocks|] == was.blocks
        && Restored(now.vars, now.blocks[|was.blocks|]) == was.vars)
    || (was.blocks != [] && now == Task(Restored(was.vars, was.blocks[|was.blocks| - 1]),
                                        was.blocks[..|was.blocks| - 1]))
  }

  lemma NextTask(s: State, step: Step, t: nat)
    requires WellFormed(s) && Enabled(s, step) && t < |s.tasks|
    ensures t < |Next(s, step).tasks| && TaskMoves(s.tasks[t], Next(s, step).tasks[t])
  {
    match step
    case Exit(u, failed) =>
      ExitTask(s, u, failed, t);
    case Attempted(u, p, _) =>
      assert VarsOk(s, s.tasks[u].vars);
    case EnterAttributed(_, _) | EnterTallied(_) | EnterPage(_, _, _) | EnterSync(_) =>
      EnterTask(s, step, t);
    case _ =>
  }

  lemma EnterTask(s: State, step: Step, t: nat)
    requires WellFormed(s) && Enabled(s, step) && t < |s.tasks|
    requires step.EnterAttributed? || step.EnterTallied? || step.EnterPage? || step.EnterSync?
    ensures t < |Next(s, step).tasks| && TaskMoves(s.tasks[t], Next(s, step).tasks[t])
  {}

  lemma ExitTask(s: State, u: nat, failed: bool, t: nat)
    requires WellFormed(s) && u < |s.tasks| && s.tasks[u].blocks != [] && t < |s.tasks|
    ensures t < |Leave(s, u, failed).tasks| && TaskMoves(s.tasks[t], Leave(s, u, failed).tasks[t])
  {
    assert BlockOk(s, u, |s.tasks[u].blocks| - 1) && VarsOk(s, s.tasks[u].vars);
  }

  lemma MovesKeepOuter(was: Task, now: Task, depth: nat)
    requires TaskMoves(was, now) && depth <= |was.blocks| && depth <= |now.blocks|
    ensures Outer(now.vars, now.blocks, depth) == Outer(was.vars, was.blocks, depth)
  {}

  /** Whatever runs inside a block, and whatever other tasks do meanwhile, a task leaves it with
      the attribution, page, tally and sync run it entered it with. */
  lemma {:induction false} BlocksRestore(steps: seq<Step>, n: nat, t: nat, depth: nat)
    requires n <= |steps| && StaysInside(steps, n, t, depth)
    ensures After(steps[..n]).Some? && t < |After(steps[..n]).value.tasks|
            && depth <= |After(steps[..n]).value.tasks[t].blocks|
    ensures var was := After(steps[..n]).value.tasks[t]; var now := After(steps).value.tasks[t];
            Outer(now.vars, now.blocks, depth) == Outer(was.vars, was.blocks, depth)
            && (|was.blocks| == depth && |now.blocks| == depth ==> now.vars == was.vars)
    decreases |steps|
  {
    if n == |steps| {
      assert steps[..n] == steps;
    } else {
      var before := steps[..|steps| - 1];
      assert before[..n] == steps[..n];
      BlocksRestore(before, n, t, depth);
      assert StaysInside(before, n, t, depth);
      NextTask(After(before).value, steps[|steps| - 1], t);
      MovesKeepOuter(After(before).value.tasks[t], After(steps).value.tasks[t], depth);
    }
  }
}
