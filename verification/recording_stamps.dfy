/**
 Whose verdict a record bears, in every interleaving and however sync runs nest:
 that of the last run that held it as it closed.
 */
module RecordingStamps {
  import opened Options
  import opened RequestRecording
  import opened RecordingRuns
  import opened RecordingConservation
  import opened RecordingPages
  import opened RecordingSyncs

  /** The run this step closes, if it holds record `id`. */
  function Closing(s: State, step: Step, id: nat): Option<nat> {
    if step.Exit? && step.task < |s.tasks| && s.tasks[step.task].blocks != [] then
      var block := s.tasks[step.task].blocks[|s.tasks[step.task].blocks| - 1];
      if block.InSync? && block.run < |s.runs| && Holds(s.runs[block.run].cell, id) then Some(block.run) else None
    else None
  }

  predicate Holds(run: SyncCell, id: nat) { run.held.Some? && run.held.value.id == id }

  /** The last run that held record `id` as it closed. */
  function Stamper(steps: seq<Step>, id: nat): Option<nat>
    requires After(steps).Some?
    decreases |steps|
  {
    if steps == [] then None
    else
      var n := |steps| - 1;
      var closing := Closing(After(steps[..n]).value, steps[n], id);
      if closing.Some? then closing else Stamper(steps[..n], id)
  }

  // --------------------------------------------------------------- invariant

  /** The record says what the run `last` names for it decided, or nothing. */
  predicate Says(s: State, last: nat -> Option<nat>, r: Record) {
    match last(r.id)
    case None => r.syncFailed.None?
    case Some(k) => k < |s.runs| && s.runs[k].cell.closed && r.syncFailed == Some(s.runs[k].verdict)
  }

  /** A closed run that stamped `id` had chosen it. */
  predicate ChoseIt(s: State, k: nat, id: nat) {
    && k < |s.runs| && s.runs[k].cell.closed
    && var chosen := Chosen(s.runs[k].cell.who, s.runs[k].seen);
       chosen.Some? && chosen.value.id == id
  }

  predicate HoldsItsChoice(s: State, k: nat)
    requires k < |s.runs|
  {
    var run := s.runs[k];
    && (!run.cell.closed ==> run.cell.held == Chosen(run.cell.who, run.seen))
    && (run.cell.closed ==> run.cell.held.None?)
  }

  /** What a closed run chose has been stamped, by it or by a later one. */
  predicate ChoiceStamped(s: State, last: nat -> Option<nat>, k: nat)
    requires k < |s.runs|
  {
    var chosen := Chosen(s.runs[k].cell.who, s.runs[k].seen);
    s.runs[k].cell.closed && chosen.Some? ==> last(chosen.value.id).Some?
  }

  ghost predicate StampInv(s: State, last: nat -> Option<nat>) {
    && (forall r | LetGo(s, r) :: Says(s, last, r))
    && (forall k | 0 <= k < |s.runs| && s.runs[k].cell.held.Some? :: Says(s, last, s.runs[k].cell.held.value))
    && (forall p, r | 0 <= p < |s.pages| && r in s.pages[p].cell.answered :: last(r.id).None? && r.syncFailed.None?)
    && (forall id: nat | last(id).Some? :: id < |s.log| && ChoseIt(s, last(id).value, id))
    && (forall k | 0 <= k < |s.runs| :: HoldsItsChoice(s, k))
    && (forall k | 0 <= k < |s.runs| :: ChoiceStamped(s, last, k))
  }

  // ------------------------------------------------------------------- steps

  /** A step after which every run has been offered what it had been, and closed ones stay as they were. */
  predicate RunsKept(s: State, s': State) {
    && |s'.runs| >= |s.runs|
    && (forall k | 0 <= k < |s.runs| ::
          s'.runs[k] == s.runs[k].(cell := s.runs[k].cell.(failed := s'.runs[k].cell.failed)))
    && forall k | |s.runs| <= k < |s'.runs| ::
         s'.runs[k].seen == [] && s'.runs[k].cell.held.None? && !s'.runs[k].cell.closed
  }

  lemma QuietStamps(s: State, s': State, last: nat -> Option<nat>)
    requires StampInv(s, last) && RunsKept(s, s') && |s'.log| >= |s.log|
    requires forall r | LetGo(s', r) :: LetGo(s, r)
    requires forall p, r | 0 <= p < |s'.pages| && r in s'.pages[p].cell.answered ::
               (p < |s.pages| && r in s.pages[p].cell.answered) || (last(r.id).None? && r.syncFailed.None?)
    ensures StampInv(s', last)
  {
    forall k | 0 <= k < |s'.runs| ensures HoldsItsChoice(s', k) && ChoiceStamped(s', last, k) {
      if k < |s.runs| { assert HoldsItsChoice(s, k) && ChoiceStamped(s, last, k); }
    }
    forall r | LetGo(s', r) ensures Says(s', last, r) { assert Says(s, last, r); }
    forall k | 0 <= k < |s'.runs| && s'.runs[k].cell.held.Some? ensures Says(s', last, s'.runs[k].cell.held.value) {
      assert Says(s, last, s.runs[k].cell.held.value);
    }
    forall id: nat | last(id).Some? ensures ChoseIt(s', last(id).value, id) { assert ChoseIt(s, last(id).value, id); }
  }

  lemma PushStamps(s: State, sync: Option<nat>, records: seq<Record>, last: nat -> Option<nat>)
    requires StampInv(s, last) && RefOk(sync, |s.runs|) && forall r | r in records :: Says(s, last, r)
    ensures StampInv(PushVia(s, sync, records), last)
  {
    var s' := PushVia(s, sync, records);
    if sync.None? || s.runs[sync.value].cell.closed {
      assert s'.runs == s.runs;
      forall r | LetGo(s', r) ensures Says(s', last, r) { assert LetGo(s, r) || r in records; }
      forall k | 0 <= k < |s'.runs| ensures HoldsItsChoice(s', k) && ChoiceStamped(s', last, k) {
        assert HoldsItsChoice(s, k) && ChoiceStamped(s, last, k);
      }
      forall id: nat | last(id).Some? ensures ChoseIt(s', last(id).value, id) { assert ChoseIt(s, last(id).value, id); }
    } else {
      OfferedStamps(s, sync.value, records, last);
    }
  }

  lemma OfferedStamps(s: State, k: nat, records: seq<Record>, last: nat -> Option<nat>)
    requires StampInv(s, last) && k < |s.runs| && !s.runs[k].cell.closed && forall r | r in records :: Says(s, last, r)
    ensures StampInv(PushVia(s, Some(k), records), last)
  {
    var s' := PushVia(s, Some(k), records);
    var run := s.runs[k];
    assert HoldsItsChoice(s, k);
    HoldChooses(run.cell, run.seen, records);
    HoldKeepsShape(run.cell, records);
    HoldFrom(run.cell, records);
    assert forall j | 0 <= j < |s.runs| && j != k :: s'.runs[j] == s.runs[j];
    forall r | Says(s, last, r) ensures Says(s', last, r) {}
    forall r | LetGo(s', r) ensures Says(s', last, r) {
      assert LetGo(s, r) || r in records || run.cell.held == Some(r);
    }
    forall j | 0 <= j < |s'.runs| && s'.runs[j].cell.held.Some? ensures Says(s', last, s'.runs[j].cell.held.value) {
      if j != k { assert Says(s, last, s.runs[j].cell.held.value); }
    }
    forall j | 0 <= j < |s'.runs| ensures HoldsItsChoice(s', j) && ChoiceStamped(s', last, j) {
      assert HoldsItsChoice(s, j) && ChoiceStamped(s, last, j);
    }
    forall id: nat | last(id).Some? ensures ChoseIt(s', last(id).value, id) { assert ChoseIt(s, last(id).value, id); }
  }

  lemma ClosePageStamps(s: State, left: State, p: nat, sync: Option<nat>, last: nat -> Option<nat>)
    requires StampInv(s, last) && PagesInv(s) && p < |s.pages| && RefOk(sync, |s.runs|)
    requires left == s.(tasks := left.tasks)
    ensures StampInv(ClosePage(left, p, sync), last)
  {
    var cell := s.pages[p].cell;
    var marked := left.(pages := s.pages[p := PageSlot(cell.(answered := []), Done)]);
    QuietStamps(s, marked, last);
    forall r | r in Judged(cell) ensures Says(marked, last, r) {
      var j :| 0 <= j < |Judged(cell)| && Judged(cell)[j] == r;
      JudgedOne(s, p, j);
      assert cell.answered[j] in s.pages[p].cell.answered;
    }
    PushStamps(marked, sync, Judged(cell), last);
  }

  lemma AttemptStamps(s: State, t: nat, p: nat, a: Attempt, last: nat -> Option<nat>)
    requires WellFormed(s) && StampInv(s, last) && t < |s.tasks| && p < |s.pages|
    ensures StampInv(Record1(s, t, p, a), last)
  {
    var vars := s.tasks[t].vars;
    assert VarsOk(s, vars) && last(|s.log|).None?;
    var r := NewRecord(s.pages[p].cell, a, vars.who, |s.log|);
    var counted := Counted(s, t, p, a);
    QuietStamps(s, counted, last);
    if !(r.cause.None? && vars.page == Some(p)) { PushStamps(counted, vars.sync, [r], last); }
  }

  /** The record a closing run holds is nowhere else, so only its stamp changes hands. */
  lemma OnlyHere(s: State, k: nat, far: nat, r: Record)
    requires SyncInv(s, far) && k < |s.runs| && Holds(s.runs[k].cell, r.id)
    requires forall id: nat :: Census(s, id) <= 1
    ensures !LetGo(s, r)
    ensures forall j | 0 <= j < |s.runs| && j != k :: !Holds(s.runs[j].cell, r.id)
    ensures forall p, x | 0 <= p < |s.pages| && x in s.pages[p].cell.answered :: x.id != r.id
  {
    assert HoldsItsOwn(s, k);
    if LetGo(s, r) { HeldOnlyThere(s, k, r); }
    forall j | 0 <= j < |s.runs| && j != k ensures !Holds(s.runs[j].cell, r.id) { assert HoldsItsOwn(s, j); }
  }

  lemma CloseRunStamps(s: State, k: nat, failed: bool, outer: Option<nat>, far: nat,
                       last: nat -> Option<nat>, later: nat -> Option<nat>)
    requires StampInv(s, last) && SyncInv(s, far) && k < |s.runs| && !s.runs[k].cell.closed && RefOk(outer, |s.runs|)
    requires forall id: nat :: Census(s, id) <= 1
    requires forall id: nat :: later(id) == if Holds(s.runs[k].cell, id) then Some(k) else last(id)
    ensures StampInv(CloseRun(s, k, failed, outer), later)
  {
    ShutStamps(s, k, failed, far, last, later);
    var shut := Shutting(s, k, failed);
    PushStamps(shut, outer, Closed(s.runs[k].cell.(failed := s.runs[k].cell.failed || failed)).1, later);
  }

  lemma ShutStamps(s: State, k: nat, failed: bool, far: nat, last: nat -> Option<nat>, later: nat -> Option<nat>)
    requires StampInv(s, last) && SyncInv(s, far) && k < |s.runs| && !s.runs[k].cell.closed
    requires forall id: nat :: Census(s, id) <= 1
    requires forall id: nat :: later(id) == if Holds(s.runs[k].cell, id) then Some(k) else last(id)
    ensures StampInv(Shutting(s, k, failed), later)
    ensures forall r | r in Closed(s.runs[k].cell.(failed := s.runs[k].cell.failed || failed)).1 ::
              Says(Shutting(s, k, failed), later, r)
  {
    var shut := Shutting(s, k, failed);
    var run := s.runs[k];
    assert HoldsItsChoice(s, k) && HoldsItsOwn(s, k);
    assert forall j | 0 <= j < |s.runs| && j != k :: shut.runs[j] == s.runs[j];
    forall r | Says(s, last, r) && !Holds(run.cell, r.id) ensures Says(shut, later, r) {}
    forall r | LetGo(shut, r) ensures Says(shut, later, r) {
      if Holds(run.cell, r.id) { OnlyHere(s, k, far, r); }
    }
    forall j | 0 <= j < |shut.runs| && shut.runs[j].cell.held.Some?
      ensures Says(shut, later, shut.runs[j].cell.held.value)
    {
      assert j != k && HoldsItsOwn(s, j);
      assert Says(s, last, s.runs[j].cell.held.value);
    }
    forall j | 0 <= j < |shut.runs| ensures HoldsItsChoice(shut, j) && ChoiceStamped(shut, later, j) {
      assert HoldsItsChoice(s, j) && ChoiceStamped(s, last, j);
    }
    forall id: nat | later(id).Some? ensures id < |shut.log| && ChoseIt(shut, later(id).value, id) {
      if !Holds(run.cell, id) { assert ChoseIt(s, last(id).value, id); }
    }
  }

  lemma LeaveStamps(s: State, t: nat, failed: bool, far: nat, last: nat -> Option<nat>, later: nat -> Option<nat>)
    requires WellFormed(s) && PagesInv(s) && SyncInv(s, far) && StampInv(s, last)
    requires t < |s.tasks| && s.tasks[t].blocks != [] && forall id: nat :: Census(s, id) <= 1
    requires forall id: nat ::
               later(id) == var closing := Closing(s, Exit(t, failed), id); if closing.Some? then closing else last(id)
    ensures StampInv(Leave(s, t, failed), later)
  {
    var task := s.tasks[t];
    var d := |task.blocks| - 1;
    assert BlockOk(s, t, d) && VarsOk(s, task.vars);
    var vars := Restored(task.vars, task.blocks[d]);
    var left := s.(tasks := s.tasks[t := Task(vars, task.blocks[..d])]);
    QuietStamps(s, left, last);
    match task.blocks[d]
    case InPage(p, _) =>
      ClosePageStamps(s, left, p, vars.sync, last);
      SameStamps(Leave(s, t, failed), last, later);
    case InSync(k, outer) =>
      assert RunHomeOk(s, k);
      LeftCensus(s, left, far);
      ClosingIs(s, t, failed, k, last, later);
      CloseRunStamps(left, k, failed, outer, far, last, later);
    case _ =>
      SameStamps(left, last, later);
  }

  lemma ClosingIs(s: State, t: nat, failed: bool, k: nat, last: nat -> Option<nat>, later: nat -> Option<nat>)
    requires t < |s.tasks| && s.tasks[t].blocks != [] && k < |s.runs|
    requires var block := s.tasks[t].blocks[|s.tasks[t].blocks| - 1]; block.InSync? && block.run == k
    requires forall id: nat ::
               later(id) == var closing := Closing(s, Exit(t, failed), id); if closing.Some? then closing else last(id)
    ensures forall id: nat :: later(id) == if Holds(s.runs[k].cell, id) then Some(k) else last(id)
  {}

  lemma LeftCensus(s: State, left: State, far: nat)
    requires SyncInv(s, far) && left == s.(tasks := left.tasks) && |left.tasks| == |s.tasks|
    requires forall u | 0 <= u < |left.tasks| :: left.tasks[u].blocks <= s.tasks[u].blocks
    requires forall id: nat :: Census(s, id) <= 1
    ensures SyncInv(left, far) && forall id: nat :: Census(left, id) <= 1
  {
    LeftSyncs(s, left, far);
    forall id: nat ensures Census(left, id) <= 1 { assert Census(left, id) == Census(s, id); }
  }

  lemma SameStamps(s: State, last: nat -> Option<nat>, later: nat -> Option<nat>)
    requires StampInv(s, last) && forall id: nat :: later(id) == last(id)
    ensures StampInv(s, later)
  {
    forall r | Says(s, last, r) ensures Says(s, later, r) {}
    forall k | 0 <= k < |s.runs| ensures ChoiceStamped(s, later, k) { assert ChoiceStamped(s, last, k); }
  }

  lemma LeftSyncs(s: State, left: State, far: nat)
    requires SyncInv(s, far) && left == s.(tasks := left.tasks) && |left.tasks| == |s.tasks|
    requires forall u | 0 <= u < |left.tasks| :: left.tasks[u].blocks <= s.tasks[u].blocks
    ensures SyncInv(left, far)
  {
    QuietSyncs(s, left, far);
  }

  lemma NextStamps(s: State, step: Step, far: nat, last: nat -> Option<nat>, later: nat -> Option<nat>)
    requires WellFormed(s) && PagesInv(s) && SyncInv(s, far) && StampInv(s, last) && Enabled(s, step)
    requires forall id: nat :: Census(s, id) <= 1
    requires forall id: nat ::
               later(id) == var closing := Closing(s, step, id); if closing.Some? then closing else last(id)
    ensures StampInv(Next(s, step), later)
  {
    match step
    case Exit(t, failed) => LeaveStamps(s, t, failed, far, last, later);
    case Attempted(t, p, a) =>
      AttemptStamps(s, t, p, a, last);
      SameStamps(Next(s, step), last, later);
    case _ =>
      OtherStamps(s, step, last);
      SameStamps(Next(s, step), last, later);
  }

  lemma OtherStamps(s: State, step: Step, last: nat -> Option<nat>)
    requires WellFormed(s) && StampInv(s, last) && Enabled(s, step) && !step.Exit? && !step.Attempted?
    ensures StampInv(Next(s, step), last)
  {
    if step.EnterPage? || step.OwnPage? || step.ReportPosts? || step.Drain? {
      QuietStamps(s, Next(s, step), last);
    } else {
      QuietStamps(s, Next(s, step), last);
    }
  }

  // -------------------------------------------------------------------- runs

  lemma {:induction false} AloneFar(steps: seq<Step>, k: nat)
    requires After(steps).Some? && k > |steps|
    ensures |After(steps).value.runs| <= |steps| && Alone(steps, k)
    decreases |steps|
  {
    if steps != [] {
      var n := |steps| - 1;
      var s := After(steps[..n]).value;
      AloneFar(steps[..n], k);
      NextRuns(s, steps[n]);
      if steps[n].EnterSync? { assert VarsOk(s, s.tasks[steps[n].task].vars); }
    }
  }

  /** A step opens one run at most, and a closed run stays as it closed. */
  lemma NextRuns(s: State, step: Step)
    requires WellFormed(s) && Enabled(s, step)
    ensures |s.runs| <= |Next(s, step).runs| <= |s.runs| + 1
    ensures forall k | 0 <= k < |s.runs| && s.runs[k].cell.closed :: Next(s, step).runs[k].cell.closed
  {
    match step
    case Exit(t, failed) => LeaveRuns(s, t, failed);
    case Attempted(t, p, a) => AttemptRuns(s, t, p, a);
    case _ =>
  }

  lemma PushRuns(s: State, sync: Option<nat>, records: seq<Record>)
    requires RefOk(sync, |s.runs|)
    ensures |PushVia(s, sync, records).runs| == |s.runs|
    ensures forall k | 0 <= k < |s.runs| && s.runs[k].cell.closed :: PushVia(s, sync, records).runs[k].cell.closed
  {
    if sync.Some? { HoldKeepsShape(s.runs[sync.value].cell, records); }
  }

  lemma AttemptRuns(s: State, t: nat, p: nat, a: Attempt)
    requires WellFormed(s) && t < |s.tasks| && p < |s.pages|
    ensures |Record1(s, t, p, a).runs| == |s.runs|
    ensures forall k | 0 <= k < |s.runs| && s.runs[k].cell.closed :: Record1(s, t, p, a).runs[k].cell.closed
  {
    assert VarsOk(s, s.tasks[t].vars);
    PushRuns(Counted(s, t, p, a), s.tasks[t].vars.sync, [NewRecord(s.pages[p].cell, a, s.tasks[t].vars.who, |s.log|)]);
  }

  lemma LeaveRuns(s: State, t: nat, failed: bool)
    requires WellFormed(s) && t < |s.tasks| && s.tasks[t].blocks != []
    ensures |Leave(s, t, failed).runs| == |s.runs|
    ensures forall k | 0 <= k < |s.runs| && s.runs[k].cell.closed :: Leave(s, t, failed).runs[k].cell.closed
  {
    var task := s.tasks[t];
    var d := |task.blocks| - 1;
    assert BlockOk(s, t, d) && VarsOk(s, task.vars);
    var left := s.(tasks := s.tasks[t := Task(Restored(task.vars, task.blocks[d]), task.blocks[..d])]);
    match task.blocks[d]
    case InPage(p, _) =>
      var cell := s.pages[p].cell;
      PushRuns(left.(pages := s.pages[p := PageSlot(cell.(answered := []), Done)]),
               Restored(task.vars, task.blocks[d]).sync, Judged(cell));
    case InSync(k, outer) =>
      PushRuns(Shutting(left, k, failed), outer, Closed(s.runs[k].cell.(failed := s.runs[k].cell.failed || failed)).1);
    case _ =>
  }

  lemma {:induction false} StampsAlways(steps: seq<Step>)
    requires After(steps).Some?
    ensures StampInv(After(steps).value, (id: nat) => Stamper(steps, id))
    decreases |steps|
  {
    if steps != [] {
      var before := steps[..|steps| - 1];
      StampsAlways(before);
      AloneFar(before, |before| + 1);
      SyncsAlways(before, |before| + 1);
      PagesAlways(before);
      forall id: nat ensures Census(After(before).value, id) <= 1 { Conservation(before, id); }
      NextStamps(After(before).value, steps[|steps| - 1], |before| + 1,
                 (id: nat) => Stamper(before, id), (id: nat) => Stamper(steps, id));
    }
  }

  // ---------------------------------------------------------------- theorems

  /** In every interleaving, however runs nest, a record that was let go bears the verdict of the last run
      that held it as it closed, and none if no run did; and the one record a run can have stamped is the
      one it should answer on. */
  lemma StampIsTheLastHolders(steps: seq<Step>, r: Record)
    requires After(steps).Some? && LetGo(After(steps).value, r)
    ensures var s := After(steps).value; var last := Stamper(steps, r.id);
            last.Some? ==>
              && last.value < |s.runs| && s.runs[last.value].cell.closed
              && r.syncFailed == Some(s.runs[last.value].verdict)
              && ChoseIt(s, last.value, r.id)
    ensures Stamper(steps, r.id).None? ==> r.syncFailed.None?
  {
    StampsAlways(steps);
    assert Says(After(steps).value, (id: nat) => Stamper(steps, id), r);
  }

  /** One stamp per sync run, in every interleaving and however runs nest: the record a closed run should
      answer on is in one place and bears the verdict of that run or of a later one that held it; no other
      record bears that run's stamp; and where no run enclosed it or was opened in it, the stamp is its own. */
  lemma OneStampPerRun(steps: seq<Step>, k: nat)
    requires After(steps).Some? && k < |After(steps).value.runs| && After(steps).value.runs[k].cell.closed
    ensures var s := After(steps).value; var chosen := Chosen(s.runs[k].cell.who, s.runs[k].seen);
            chosen.Some? ==> Stamper(steps, chosen.value.id).Some? && Census(s, chosen.value.id) == 1
    ensures var s := After(steps).value; var chosen := Chosen(s.runs[k].cell.who, s.runs[k].seen);
            forall r | LetGo(s, r) && Stamper(steps, r.id) == Some(k) ::
              chosen.Some? && r.id == chosen.value.id && r.syncFailed == Some(s.runs[k].verdict)
    ensures var s := After(steps).value; var chosen := Chosen(s.runs[k].cell.who, s.runs[k].seen);
            Alone(steps, k) ==>
              forall r | LetGo(s, r) && r.id in IdSet(s.runs[k].seen) ::
                r.syncFailed == if chosen.Some? && r.id == chosen.value.id then Some(s.runs[k].verdict) else None
  {
    var s := After(steps).value;
    var chosen := Chosen(s.runs[k].cell.who, s.runs[k].seen);
    var last := (id: nat) => Stamper(steps, id);
    StampsAlways(steps);
    if chosen.Some? {
      assert ChoiceStamped(s, last, k) && last(chosen.value.id).Some?;
      Conservation(steps, chosen.value.id);
    }
    forall r | LetGo(s, r) && Stamper(steps, r.id) == Some(k)
      ensures chosen.Some? && r.id == chosen.value.id && r.syncFailed == Some(s.runs[k].verdict)
    {
      StampIsTheLastHolders(steps, r);
    }
    if Alone(steps, k) { StampsAlone(steps, k); }
  }

  /** No run closes holding record `id` after the first `n` steps. */
  predicate NoneClosesHolding(steps: seq<Step>, n: nat, id: nat)
    requires After(steps).Some? && n <= |steps|
    decreases |steps|
  {
    n == |steps|
    || (NoneClosesHolding(steps[..|steps| - 1], n, id)
        && Closing(After(steps[..|steps| - 1]).value, steps[|steps| - 1], id).None?)
  }

  lemma {:induction false} ClosedStays(steps: seq<Step>, n: nat, k: nat)
    requires After(steps).Some? && n <= |steps| && After(steps[..n]).Some?
    requires k < |After(steps[..n]).value.runs| && After(steps[..n]).value.runs[k].cell.closed
    ensures k < |After(steps).value.runs| && After(steps).value.runs[k].cell.closed
    decreases |steps|
  {
    if n == |steps| {
      assert steps[..n] == steps;
    } else {
      var front := steps[..|steps| - 1];
      assert front[..n] == steps[..n];
      ClosedStays(front, n, k);
      NextRuns(After(front).value, steps[|steps| - 1]);
    }
  }

  lemma {:induction false} LastHolder(steps: seq<Step>, n: nat, k: nat, id: nat)
    requires After(steps).Some? && n <= |steps| && After(steps[..n]).Some?
    requires Stamper(steps[..n], id) == Some(k)
    requires k < |After(steps[..n]).value.runs| && After(steps[..n]).value.runs[k].cell.closed
    ensures Stamper(steps, id) == Some(k) <==> NoneClosesHolding(steps, n, id)
    decreases |steps|
  {
    if n == |steps| {
      assert steps[..n] == steps;
    } else {
      var front := steps[..|steps| - 1];
      var s := After(front).value;
      assert front[..n] == steps[..n];
      LastHolder(front, n, k, id);
      ClosedStays(front, n, k);
      assert RunHomeOk(s, k);
      if Stamper(front, id) != Some(k) { NotAgain(front, steps[|steps| - 1], k, id); }
    }
  }

  /** A closed run closes no more. */
  lemma NotAgain(front: seq<Step>, step: Step, k: nat, id: nat)
    requires After(front).Some? && k < |After(front).value.runs| && After(front).value.runs[k].cell.closed
    ensures Closing(After(front).value, step, id) != Some(k)
  {
    assert RunHomeOk(After(front).value, k);
  }

  /** The step closes run `k`. */
  predicate Closes(s: State, step: Step, k: nat) {
    && step.Exit? && step.task < |s.tasks| && s.tasks[step.task].blocks != [] && k < |s.runs|
    && var block := s.tasks[step.task].blocks[|s.tasks[step.task].blocks| - 1];
       block.InSync? && block.run == k
  }

  /** In every interleaving, however runs nest: the stamp a run puts on the record it should answer on, as it
      closes, lasts exactly when no run closes holding that record after it. */
  lemma StampLasts(steps: seq<Step>, n: nat, k: nat, chosen: Record)
    requires After(steps).Some? && n < |steps| && After(steps[..n]).Some? && After(steps[..n + 1]).Some?
    requires var s := After(steps[..n]).value;
             Closes(s, steps[n], k) && Chosen(s.runs[k].cell.who, s.runs[k].seen) == Some(chosen)
    ensures Stamper(steps, chosen.id) == Some(k) <==> NoneClosesHolding(steps, n + 1, chosen.id)
  {
    var upTo := steps[..n + 1];
    assert upTo[..n] == steps[..n] && upTo[n] == steps[n] && |upTo| - 1 == n;
    ChoiceIsStamped(upTo, k, chosen);
    StamperIsClosed(upTo, chosen.id);
    LastHolder(steps, n + 1, k, chosen.id);
  }

  lemma ChoiceIsStamped(steps: seq<Step>, k: nat, chosen: Record)
    requires steps != [] && After(steps).Some?
    requires var s := After(steps[..|steps| - 1]).value;
             Closes(s, steps[|steps| - 1], k) && Chosen(s.runs[k].cell.who, s.runs[k].seen) == Some(chosen)
    ensures Stamper(steps, chosen.id) == Some(k)
  {
    var before, step := steps[..|steps| - 1], steps[|steps| - 1];
    var s := After(before).value;
    StampsAlways(before);
    assert BlockOk(s, step.task, |s.tasks[step.task].blocks| - 1) && RunHomeOk(s, k) && HoldsItsChoice(s, k);
    assert Closing(s, step, chosen.id) == Some(k);
  }

  lemma StamperIsClosed(steps: seq<Step>, id: nat)
    requires After(steps).Some? && Stamper(steps, id).Some?
    ensures var k := Stamper(steps, id).value; k < |After(steps).value.runs| && After(steps).value.runs[k].cell.closed
  {
    StampsAlways(steps);
    var last := (id: nat) => Stamper(steps, id);
    assert last(id).Some? && ChoseIt(After(steps).value, last(id).value, id);
  }

  // ------------------------------------------------------------- the verdict

  /** Whether run `k` was last set to failed. */
  function SetToFailed(steps: seq<Step>, k: nat): bool {
    if steps == [] then false
    else
      var step := steps[|steps| - 1];
      if step.SetFailed? && step.run == k then step.failed else SetToFailed(steps[..|steps| - 1], k)
  }

  predicate OpenAsSet(s: State, k: nat, failed: bool)
    requires k < |s.runs|
  {
    !s.runs[k].cell.closed ==> s.runs[k].cell.failed == failed
  }

  lemma PushKeepsFailed(s: State, sync: Option<nat>, records: seq<Record>)
    requires RefOk(sync, |s.runs|)
    ensures var s' := PushVia(s, sync, records);
            |s'.runs| == |s.runs| && forall k | 0 <= k < |s.runs| ::
              s'.runs[k].cell.failed == s.runs[k].cell.failed && s'.runs[k].cell.closed == s.runs[k].cell.closed
              && s'.runs[k].verdict == s.runs[k].verdict
  {
    if sync.Some? { HoldKeepsShape(s.runs[sync.value].cell, records); }
  }

  lemma LeaveKeepsFailed(s: State, t: nat, failed: bool)
    requires WellFormed(s) && t < |s.tasks| && s.tasks[t].blocks != []
    ensures var s' := Leave(s, t, failed);
            |s'.runs| == |s.runs| && forall k | 0 <= k < |s.runs| ::
              if Closes(s, Exit(t, failed), k)
              then s'.runs[k].cell.closed && s'.runs[k].verdict == (s.runs[k].cell.failed || failed)
              else s'.runs[k].cell.failed == s.runs[k].cell.failed && s'.runs[k].cell.closed == s.runs[k].cell.closed
  {
    var task := s.tasks[t];
    var d := |task.blocks| - 1;
    assert BlockOk(s, t, d) && VarsOk(s, task.vars);
    var vars := Restored(task.vars, task.blocks[d]);
    var left := s.(tasks := s.tasks[t := Task(vars, task.blocks[..d])]);
    match task.blocks[d]
    case InPage(p, _) =>
      var cell := s.pages[p].cell;
      PushKeepsFailed(left.(pages := s.pages[p := PageSlot(cell.(answered := []), Done)]), vars.sync, Judged(cell));
    case InSync(k, outer) =>
      PushKeepsFailed(Shutting(left, k, failed), outer,
                      Closed(s.runs[k].cell.(failed := s.runs[k].cell.failed || failed)).1);
    case _ =>
  }

  lemma NextOpenAsSet(s: State, step: Step, k: nat, was: bool)
    requires WellFormed(s) && Enabled(s, step) && k < |Next(s, step).runs|
    requires if k < |s.runs| then OpenAsSet(s, k, was) else !was
    ensures OpenAsSet(Next(s, step), k, if step.SetFailed? && step.run == k then step.failed else was)
  {
    match step
    case Exit(t, failed) => LeaveKeepsFailed(s, t, failed);
    case Attempted(t, p, a) =>
      assert VarsOk(s, s.tasks[t].vars);
      var r := NewRecord(s.pages[p].cell, a, s.tasks[t].vars.who, |s.log|);
      if !(r.cause.None? && s.tasks[t].vars.page == Some(p)) {
        PushKeepsFailed(Counted(s, t, p, a), s.tasks[t].vars.sync, [r]);
      }
    case _ =>
  }

  lemma {:induction false} NeverSet(steps: seq<Step>, k: nat)
    requires After(steps).Some? && k >= |After(steps).value.runs|
    ensures !SetToFailed(steps, k)
    decreases |steps|
  {
    if steps != [] {
      NextRuns(After(steps[..|steps| - 1]).value, steps[|steps| - 1]);
      NeverSet(steps[..|steps| - 1], k);
    }
  }

  lemma {:induction false} OpenRunsAreAsSet(steps: seq<Step>, k: nat)
    requires After(steps).Some? && k < |After(steps).value.runs|
    ensures OpenAsSet(After(steps).value, k, SetToFailed(steps, k))
    decreases |steps|
  {
    if steps != [] {
      var front := steps[..|steps| - 1];
      if k < |After(front).value.runs| { OpenRunsAreAsSet(front, k); } else { NeverSet(front, k); }
      NextOpenAsSet(After(front).value, steps[|steps| - 1], k, SetToFailed(front, k));
    }
  }

  /** A closing run's verdict: failed exactly when it was last set to failed or the block was left by a fault. */
  lemma VerdictIs(steps: seq<Step>, step: Step, k: nat)
    requires After(steps).Some? && Enabled(After(steps).value, step) && Closes(After(steps).value, step, k)
    ensures var s' := Next(After(steps).value, step);
            k < |s'.runs| && s'.runs[k].cell.closed && (s'.runs[k].verdict <==> SetToFailed(steps, k) || step.failed)
  {
    var s := After(steps).value;
    assert BlockOk(s, step.task, |s.tasks[step.task].blocks| - 1) && RunHomeOk(s, k);
    OpenRunsAreAsSet(steps, k);
    LeaveKeepsFailed(s, step.task, step.failed);
  }

  // --------------------------------------------------------- a run that loses

  lemma PushToEmpty(s: State, k: nat, r: Record)
    requires k < |s.runs| && !s.runs[k].cell.closed && s.runs[k].cell.held.None? && Mine(s.runs[k].cell, r)
    ensures var s' := PushVia(s, Some(k), [r]);
            && s'.tasks == s.tasks && s'.buffer == s.buffer && |s'.runs| == |s.runs|
            && s'.runs[k].cell == s.runs[k].cell.(held := Some(r))
            && forall j | 0 <= j < |s.runs| && j != k :: s'.runs[j] == s.runs[j]
  {
    HoldSingle(s.runs[k].cell, r);
    assert s.buffer + [] == s.buffer;
  }

  /** Two runs of one task, one in the other, with nobody attributed, and a page of its own. */
  function TwoRuns(): seq<Step> { [] + [Start] + [EnterSync(0)] + [EnterSync(0)] + [OwnPage(false)] }

  const OPEN_RUN := SyncCell(NOBODY, false, None, false)

  const UNSET := Variables(NOBODY, None, None, None)

  /** The outer run open, and then the inner one too. */
  const OUTER_OPEN := START.(runs := [RunSlot(OPEN_RUN, Open(0, 0), [], false)],
                             tasks := [Task(UNSET.(sync := Some(0)), [InSync(0, None)])])
  const BOTH_OPEN := OUTER_OPEN.(
    runs := [RunSlot(OPEN_RUN, Open(0, 0), [], false), RunSlot(OPEN_RUN, Open(0, 1), [], false)],
    tasks := [Task(UNSET.(sync := Some(1)), [InSync(0, None), InSync(1, Some(0))])])

  lemma OuterReached()
    ensures After([] + [Start] + [EnterSync(0)]) == Some(OUTER_OPEN)
  {
    var none: seq<Block> := [];
    var started := START.(tasks := [Task(UNSET, [])]);
    assert none + [InSync(0, None)] == [InSync(0, None)];
    assert started.tasks[0 := OUTER_OPEN.tasks[0]] == OUTER_OPEN.tasks;
    assert started.runs + OUTER_OPEN.runs == OUTER_OPEN.runs;
    Reaches([], START, Start, started);
    Reaches([] + [Start], started, EnterSync(0), OUTER_OPEN);
  }

  lemma TwoRunsReach()
    ensures After(TwoRuns()).Some?
    ensures var s := After(TwoRuns()).value;
            && s.buffer == [] && s.log == [] && s.pages == [PageSlot(NewPage(Metadata, SoftBlock), Loose)]
            && s.tasks == [Task(Variables(NOBODY, None, None, Some(1)), [InSync(0, None), InSync(1, Some(0))])]
            && |s.runs| == 2 && s.runs[0].cell == OPEN_RUN && s.runs[1].cell == OPEN_RUN
  {
    OuterReached();
    assert [InSync(0, None)] + [InSync(1, Some(0))] == [InSync(0, None), InSync(1, Some(0))];
    assert OUTER_OPEN.tasks[0 := BOTH_OPEN.tasks[0]] == BOTH_OPEN.tasks;
    assert OUTER_OPEN.runs + [BOTH_OPEN.runs[1]] == BOTH_OPEN.runs;
    Reaches([] + [Start] + [EnterSync(0)], OUTER_OPEN, EnterSync(0), BOTH_OPEN);
    OneMore([] + [Start] + [EnterSync(0)] + [EnterSync(0)], OwnPage(false));
  }

  /** An attempt of the inner run, which fails; the outer one, which does not, takes over its record and says
      so: the failed sync has no Request that tells of it. */
  lemma NestedRunLosesItsVerdict(a: Attempt)
    ensures var run := TwoRuns() + [Attempted(0, 0, a)] + [Exit(0, true)] + [Exit(0, false)];
            && After(run).Some? && |After(run).value.runs| == 2 && After(run).value.runs[1].verdict
            && |After(run).value.buffer| == 1 && After(run).value.buffer[0].id == 0
            && After(run).value.buffer[0].syncFailed == Some(false)
  {
    TwoRunsReach();
    var s := After(TwoRuns()).value;
    var attempted := Next(s, Attempted(0, 0, a));
    AttemptIsHeld(s, a);
    OneMore(TwoRuns(), Attempted(0, 0, a));
    var failed := Next(attempted, Exit(0, true));
    InnerCloses(attempted, NewRecord(s.pages[0].cell, a, NOBODY, 0));
    OneMore(TwoRuns() + [Attempted(0, 0, a)], Exit(0, true));
    OuterCloses(failed, NewRecord(s.pages[0].cell, a, NOBODY, 0).(syncFailed := Some(true)));
    OneMore(TwoRuns() + [Attempted(0, 0, a)] + [Exit(0, true)], Exit(0, false));
  }

  lemma AttemptIsHeld(s: State, a: Attempt)
    requires WellFormed(s) && s.buffer == [] && s.log == [] && |s.pages| == 1
    requires s.tasks == [Task(Variables(NOBODY, None, None, Some(1)), [InSync(0, None), InSync(1, Some(0))])]
    requires |s.runs| == 2 && s.runs[0].cell == OPEN_RUN && s.runs[1].cell == OPEN_RUN
    ensures var s' := Next(s, Attempted(0, 0, a));
            && s'.tasks == s.tasks && s'.buffer == [] && |s'.runs| == 2 && s'.runs[0].cell == OPEN_RUN
            && s'.runs[1].cell == OPEN_RUN.(held := Some(NewRecord(s.pages[0].cell, a, NOBODY, 0)))
  {
    PushToEmpty(Counted(s, 0, 0, a), 1, NewRecord(s.pages[0].cell, a, NOBODY, 0));
  }

  lemma InnerCloses(s: State, r: Record)
    requires WellFormed(s) && s.buffer == [] && Mine(OPEN_RUN, r)
    requires s.tasks == [Task(Variables(NOBODY, None, None, Some(1)), [InSync(0, None), InSync(1, Some(0))])]
    requires |s.runs| == 2 && s.runs[0].cell == OPEN_RUN && s.runs[1].cell == OPEN_RUN.(held := Some(r))
    ensures var s' := Next(s, Exit(0, true));
            && s'.tasks == [Task(Variables(NOBODY, None, None, Some(0)), [InSync(0, None)])] && s'.buffer == []
            && |s'.runs| == 2 && s'.runs[1].verdict
            && s'.runs[0].cell == OPEN_RUN.(held := Some(r.(syncFailed := Some(true))))
  {
    var left := s.(tasks := [Task(Variables(NOBODY, None, None, Some(0)), [InSync(0, None)])]);
    assert s.tasks[0].blocks[..1] == [InSync(0, None)] && s.tasks[0 := left.tasks[0]] == left.tasks;
    PushToEmpty(Shutting(left, 1, true), 0, r.(syncFailed := Some(true)));
  }

  lemma OuterCloses(s: State, r: Record)
    requires WellFormed(s) && s.buffer == []
    requires s.tasks == [Task(Variables(NOBODY, None, None, Some(0)), [InSync(0, None)])]
    requires |s.runs| == 2 && s.runs[0].cell == OPEN_RUN.(held := Some(r)) && s.runs[1].verdict
    ensures var s' := Next(s, Exit(0, false));
            |s'.runs| == 2 && s'.runs[1].verdict && s'.buffer == [r.(syncFailed := Some(false))]
  {
    assert [] + [r.(syncFailed := Some(false))] == [r.(syncFailed := Some(false))];
  }
}
