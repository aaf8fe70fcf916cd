/**
 The one charge rule under every interleaving: what a tally counts, and when it
 is exactly the number of Charged records.
 */
module RecordingCharges {
  import opened Options
  import opened RequestRecording
  import opened RecordingRuns
  import opened RecordingPages

  /** The attempts made with tally `t` innermost that the rule counts. */
  function PaidUnder(log: seq<Entry>, t: nat): nat
    decreases |log|
  {
    if log == [] then 0
    else
      var e := log[|log| - 1];
      PaidUnder(log[..|log| - 1], t) + if e.tally == Some(t) && e.paid then 1 else 0
  }

  /** The Charged records among the attempts made with tally `t` innermost. */
  function ChargedUnder(log: seq<Entry>, t: nat): nat
    decreases |log|
  {
    if log == [] then 0
    else
      var e := log[|log| - 1];
      ChargedUnder(log[..|log| - 1], t) + if e.tally == Some(t) && e.record.charged then 1 else 0
  }

  /** Variables whose tally was opened with a Budget have one; those whose tally is `only` have one only then. */
  predicate Backed(tallies: seq<TallySlot>, budget: Option<string>, tally: Option<nat>, only: Option<nat>) {
    tally.Some? ==>
      && tally.value < |tallies|
      && (tallies[tally.value].budgeted ==> budget.Some?)
      && (tally == only && budget.Some? ==> tallies[tally.value].budgeted)
  }

  /** The same for the variables as they will be at every block still open. */
  predicate AllBacked(tallies: seq<TallySlot>, vars: Variables, blocks: seq<Block>, only: Option<nat>)
    decreases |blocks|
  {
    && Backed(tallies, vars.who.budget, vars.tally, only)
    && (blocks != [] ==>
          var n := |blocks| - 1;
          AllBacked(tallies, Restored(vars, blocks[n]), blocks[..n], only))
  }

  lemma {:induction false} AllBackedLater(tallies: seq<TallySlot>, later: seq<TallySlot>, vars: Variables,
                                          blocks: seq<Block>, only: Option<nat>)
    requires AllBacked(tallies, vars, blocks, only) && |tallies| <= |later|
    requires forall i | 0 <= i < |tallies| :: later[i].budgeted == tallies[i].budgeted
    ensures AllBacked(later, vars, blocks, only)
    decreases |blocks|
  {
    if blocks != [] {
      AllBackedLater(tallies, later, Restored(vars, blocks[|blocks| - 1]), blocks[..|blocks| - 1], only);
    }
  }

  predicate ChargesInv(s: State, only: Option<nat>) {
    && (forall t | 0 <= t < |s.tallies| :: s.tallies[t].requests == PaidUnder(s.log, t))
    && (forall i | 0 <= i < |s.log| :: Backed(s.tallies, s.log[i].record.budget, s.log[i].tally, only))
    && (forall t | 0 <= t < |s.tasks| :: AllBacked(s.tallies, s.tasks[t].vars, s.tasks[t].blocks, only))
  }

  /** No block that names a Budget is entered while tally `t` is the innermost. */
  predicate NoBudgetInside(steps: seq<Step>, t: nat)
    requires After(steps).Some?
    decreases |steps|
  {
    steps == []
    || var n := |steps| - 1;
       && NoBudgetInside(steps[..n], t)
       && !NamesBudgetIn(After(steps[..n]).value, steps[n], t)
  }

  predicate NamesBudgetIn(s: State, step: Step, t: nat) {
    && step.EnterAttributed? && step.refinement.budget.Some?
    && step.task < |s.tasks| && s.tasks[step.task].vars.tally == Some(t)
  }

  lemma {:induction false} Uncounted(log: seq<Entry>, t: nat)
    requires forall i | 0 <= i < |log| :: log[i].tally != Some(t)
    ensures PaidUnder(log, t) == 0
    decreases |log|
  {
    if log != [] { Uncounted(log[..|log| - 1], t); }
  }

  /** The tally and the log after an attempt, whether or not its record goes on. */
  lemma RecordedTallies(s: State, t: nat, p: nat, a: Attempt)
    requires WellFormed(s) && t < |s.tasks| && p < |s.pages|
    ensures Record1(s, t, p, a).tallies == Counted(s, t, p, a).tallies
            && Record1(s, t, p, a).log == Counted(s, t, p, a).log
    ensures Record1(s, t, p, a).tasks == s.tasks
  {
    assert VarsOk(s, s.tasks[t].vars);
  }

  lemma AttemptCharges(s: State, t: nat, p: nat, a: Attempt, only: Option<nat>)
    requires WellFormed(s) && ChargesInv(s, only) && t < |s.tasks| && p < |s.pages|
    ensures ChargesInv(Record1(s, t, p, a), only)
  {
    var s' := Record1(s, t, p, a);
    RecordedTallies(s, t, p, a);
    AttemptBacked(s, t, p, a, only);
    assert AllBacked(s.tallies, s.tasks[t].vars, s.tasks[t].blocks, only) && VarsOk(s, s.tasks[t].vars);
    forall u | 0 <= u < |s'.tasks| ensures AllBacked(s'.tallies, s'.tasks[u].vars, s'.tasks[u].blocks, only) {
      AllBackedLater(s.tallies, s'.tallies, s.tasks[u].vars, s.tasks[u].blocks, only);
    }
  }

  lemma AttemptBacked(s: State, t: nat, p: nat, a: Attempt, only: Option<nat>)
    requires WellFormed(s) && ChargesInv(s, only) && t < |s.tasks| && p < |s.pages|
    ensures var s' := Counted(s, t, p, a);
            (forall u | 0 <= u < |s'.tallies| :: s'.tallies[u].requests == PaidUnder(s'.log, u))
            && (forall i | 0 <= i < |s'.log| :: Backed(s'.tallies, s'.log[i].record.budget, s'.log[i].tally, only))
  {
    var s' := Counted(s, t, p, a);
    assert VarsOk(s, s.tasks[t].vars) && AllBacked(s.tallies, s.tasks[t].vars, s.tasks[t].blocks, only);
    assert s'.log[..|s.log|] == s.log;
    forall u | 0 <= u < |s'.tallies| ensures s'.tallies[u].requests == PaidUnder(s'.log, u) {
      assert s.tallies[u].requests == PaidUnder(s.log, u);
    }
    forall i | 0 <= i < |s'.log| ensures Backed(s'.tallies, s'.log[i].record.budget, s'.log[i].tally, only) {
      if i < |s.log| { assert Backed(s.tallies, s.log[i].record.budget, s.log[i].tally, only); }
    }
  }

  lemma NextCharges(s: State, step: Step, only: Option<nat>)
    requires WellFormed(s) && ChargesInv(s, only) && Enabled(s, step)
    requires only.Some? ==> !NamesBudgetIn(s, step, only.value)
    ensures ChargesInv(Next(s, step), only)
  {
    match step
    case Attempted(t, p, a) => AttemptCharges(s, t, p, a, only);
    case Exit(t, failed) => LeaveCharges(s, t, failed, only);
    case EnterAttributed(_, _) | EnterTallied(_) | EnterPage(_, _, _) | EnterSync(_) => EnterStepCharges(s, step, only);
    case Spawn(t) =>
      assert AllBacked(s.tallies, s.tasks[t].vars, s.tasks[t].blocks, only);
      SameCharges(s, Next(s, step), only);
    case _ => SameCharges(s, Next(s, step), only);
  }

  lemma LeaveCharges(s: State, t: nat, failed: bool, only: Option<nat>)
    requires WellFormed(s) && ChargesInv(s, only) && t < |s.tasks| && s.tasks[t].blocks != []
    ensures ChargesInv(Leave(s, t, failed), only)
  {
    assert BlockOk(s, t, |s.tasks[t].blocks| - 1) && VarsOk(s, s.tasks[t].vars);
    assert AllBacked(s.tallies, s.tasks[t].vars, s.tasks[t].blocks, only);
    SameCharges(s, Leave(s, t, failed), only);
  }

  lemma EnterStepCharges(s: State, step: Step, only: Option<nat>)
    requires WellFormed(s) && ChargesInv(s, only) && Enabled(s, step)
    requires step.EnterAttributed? || step.EnterTallied? || step.EnterPage? || step.EnterSync?
    requires only.Some? ==> !NamesBudgetIn(s, step, only.value)
    ensures ChargesInv(Next(s, step), only)
  {
    Uncounted(s.log, |s.tallies|);
    EnterCharges(s, Next(s, step), step.task, only);
  }

  lemma SameCharges(s: State, s': State, only: Option<nat>)
    requires ChargesInv(s, only) && s'.log == s.log && s'.tallies == s.tallies
    requires forall t | 0 <= t < |s'.tasks| ::
               (t < |s.tasks| && s'.tasks[t] == s.tasks[t])
                 || AllBacked(s.tallies, s'.tasks[t].vars, s'.tasks[t].blocks, only)
    ensures ChargesInv(s', only)
  {}

  /** Opening a block whose new variables are backed; a new tally starts at zero. */
  lemma EnterCharges(s: State, s': State, t: nat, only: Option<nat>)
    requires ChargesInv(s, only) && t < |s.tasks| && s'.log == s.log
    requires s.tallies <= s'.tallies
    requires forall u | |s.tallies| <= u < |s'.tallies| :: s'.tallies[u].requests == 0 && PaidUnder(s.log, u) == 0
    requires |s'.tasks| == |s.tasks| && forall u | 0 <= u < |s.tasks| && u != t :: s'.tasks[u] == s.tasks[u]
    requires |s'.tasks[t].blocks| == |s.tasks[t].blocks| + 1
             && s'.tasks[t].blocks[..|s.tasks[t].blocks|] == s.tasks[t].blocks
    requires Restored(s'.tasks[t].vars, s'.tasks[t].blocks[|s.tasks[t].blocks|]) == s.tasks[t].vars
    requires AllBacked(s.tallies, s.tasks[t].vars, s.tasks[t].blocks, only) ==>
               Backed(s'.tallies, s'.tasks[t].vars.who.budget, s'.tasks[t].vars.tally, only)
    ensures ChargesInv(s', only)
  {
    forall i | 0 <= i < |s'.log| ensures Backed(s'.tallies, s'.log[i].record.budget, s'.log[i].tally, only) {
      assert Backed(s.tallies, s.log[i].record.budget, s.log[i].tally, only);
    }
    forall u | 0 <= u < |s'.tasks| ensures AllBacked(s'.tallies, s'.tasks[u].vars, s'.tasks[u].blocks, only) {
      AllBackedLater(s.tallies, s'.tallies, s.tasks[u].vars, s.tasks[u].blocks, only);
      if u == t { Entered(s'.tallies, s.tasks[t], s'.tasks[t], only); }
    }
  }

  lemma Entered(tallies: seq<TallySlot>, before: Task, after: Task, only: Option<nat>)
    requires AllBacked(tallies, before.vars, before.blocks, only)
    requires |after.blocks| == |before.blocks| + 1 && after.blocks[..|before.blocks|] == before.blocks
    requires Restored(after.vars, after.blocks[|before.blocks|]) == before.vars
    requires Backed(tallies, after.vars.who.budget, after.vars.tally, only)
    ensures AllBacked(tallies, after.vars, after.blocks, only)
  {}

  lemma {:induction false} ChargesAlways(steps: seq<Step>, only: Option<nat>)
    requires After(steps).Some? && (only.Some? ==> NoBudgetInside(steps, only.value))
    ensures ChargesInv(After(steps).value, only)
    decreases |steps|
  {
    if steps != [] {
      var n := |steps| - 1;
      ChargesAlways(steps[..n], only);
      NextCharges(After(steps[..n]).value, steps[n], only);
    }
  }

  lemma {:induction false} CountCharges(log: seq<Entry>, tallies: seq<TallySlot>, t: nat, only: Option<nat>)
    requires t < |tallies|
    requires forall i | 0 <= i < |log| :: Backed(tallies, log[i].record.budget, log[i].tally, only)
    requires forall i | 0 <= i < |log| :: log[i].record.charged == (log[i].paid && log[i].record.budget.Some?)
    ensures ChargedUnder(log, t) <= PaidUnder(log, t)
    ensures tallies[t].budgeted ==> ChargedUnder(log, t) == PaidUnder(log, t)
    ensures only == Some(t) && !tallies[t].budgeted ==> ChargedUnder(log, t) == 0
    decreases |log|
  {
    if log != [] {
      var n := |log| - 1;
      assert Backed(tallies, log[n].record.budget, log[n].tally, only);
      CountCharges(log[..n], tallies, t, only);
    }
  }

  /** With a Budget the tally is exactly the Charged records; without one it is the answered
      web view attempts, and none of them is Charged while no Budget is named right inside it. */
  lemma TallyAgreesWithCharges(steps: seq<Step>, t: nat)
    requires After(steps).Some? && t < |After(steps).value.tallies|
    ensures var s := After(steps).value;
            s.tallies[t].requests == PaidUnder(s.log, t) && ChargedUnder(s.log, t) <= s.tallies[t].requests
    ensures var s := After(steps).value; s.tallies[t].budgeted ==> s.tallies[t].requests == ChargedUnder(s.log, t)
    ensures var s := After(steps).value;
            NoBudgetInside(steps, t) && !s.tallies[t].budgeted ==> ChargedUnder(s.log, t) == 0
  {
    var s := After(steps).value;
    var only := if NoBudgetInside(steps, t) then Some(t) else None;
    ChargesAlways(steps, only);
    PagesAlways(steps);
    assert forall i | 0 <= i < |s.log| :: EntryLaw(s.log, i);
    CountCharges(s.log, s.tallies, t, only);
  }

  // ---------------------------------------------------- exactly what is charged

  /** The step is an attempt that is paid for inside tally `t`, with a Budget attributed or without one. */
  predicate PaysInside(s: State, step: Step, t: nat, budgeted: bool) {
    && step.Attempted? && step.task < |s.tasks| && Paid(step.a)
    && s.tasks[step.task].vars.tally == Some(t) && s.tasks[step.task].vars.who.budget.Some? == budgeted
  }

  predicate NeverPaysInside(steps: seq<Step>, t: nat, budgeted: bool)
    requires After(steps).Some?
    decreases |steps|
  {
    steps == []
    || var n := |steps| - 1;
       NeverPaysInside(steps[..n], t, budgeted) && !PaysInside(After(steps[..n]).value, steps[n], t, budgeted)
  }

  lemma NextPays(s: State, step: Step, t: nat)
    requires WellFormed(s) && Enabled(s, step)
    ensures PaidUnder(Next(s, step).log, t)
         == PaidUnder(s.log, t) + if PaysInside(s, step, t, true) || PaysInside(s, step, t, false) then 1 else 0
    ensures ChargedUnder(Next(s, step).log, t) == ChargedUnder(s.log, t) + if PaysInside(s, step, t, true) then 1 else 0
  {
    NextLogs(s, step);
    if step.Attempted? {
      RecordedTallies(s, step.task, step.page, step.a);
      assert Next(s, step).log[..|s.log|] == s.log;
    }
  }

  lemma {:induction false} PaysCounted(steps: seq<Step>, t: nat)
    requires After(steps).Some?
    ensures ChargedUnder(After(steps).value.log, t) <= PaidUnder(After(steps).value.log, t)
    ensures ChargedUnder(After(steps).value.log, t) == 0 <==> NeverPaysInside(steps, t, true)
    ensures ChargedUnder(After(steps).value.log, t) == PaidUnder(After(steps).value.log, t)
       <==> NeverPaysInside(steps, t, false)
    decreases |steps|
  {
    if steps != [] {
      var n := |steps| - 1;
      PaysCounted(steps[..n], t);
      NextPays(After(steps[..n]).value, steps[n], t);
    }
  }

  /** Over every run a tally, however it was opened, is exactly its Charged records if and only if nothing is
      paid for inside it without a Budget, and has no Charged record if and only if nothing is with one. */
  lemma TallyExactly(steps: seq<Step>, t: nat)
    requires After(steps).Some? && t < |After(steps).value.tallies|
    ensures var s := After(steps).value;
            s.tallies[t].requests == ChargedUnder(s.log, t) <==> NeverPaysInside(steps, t, false)
    ensures var s := After(steps).value; ChargedUnder(s.log, t) == 0 <==> NeverPaysInside(steps, t, true)
  {
    TallyAgreesWithCharges(steps, t);
    PaysCounted(steps, t);
  }

  /** A Budget named inside a tally that was opened without one. */
  function BudgetInside(budget: string): seq<Step> {
    [] + [Start] + [EnterTallied(0)] + [EnterAttributed(0, Naming(budget))] + [OwnPage(false)]
  }

  function Naming(budget: string): Refinement { Refinement(None, None, Some(budget), None, None, None) }

  lemma BudgetInsideReaches(budget: string)
    ensures After(BudgetInside(budget)).Some?
    ensures var s := After(BudgetInside(budget)).value;
            && |s.tasks| == 1 && |s.pages| == 1 && s.tallies == [TallySlot(0, false)] && s.log == []
            && s.tasks[0].vars.tally == Some(0) && s.tasks[0].vars.who.budget == Some(budget)
  {
    var vars := Variables(NOBODY, None, None, None);
    var named := vars.(who := Refine(NOBODY, Naming(budget)), tally := Some(0));
    var started := START.(tasks := [Task(vars, [])]);
    var tallied := started.(tallies := [TallySlot(0, false)],
                            tasks := [Task(vars.(tally := Some(0)), [InTallied(None)])]);
    var attributed := tallied.(tasks := [Task(named, [InTallied(None), InAttributed(NOBODY)])]);
    var ready := attributed.(pages := [PageSlot(NewPage(Metadata, SoftBlock), Loose)]);
    var a := [] + [Start];
    var none: seq<Block> := [];
    assert none + [InTallied(None)] == [InTallied(None)];
    assert [InTallied(None)] + [InAttributed(NOBODY)] == [InTallied(None), InAttributed(NOBODY)];
    assert started.tasks[0 := tallied.tasks[0]] == tallied.tasks;
    assert started.tallies + tallied.tallies == tallied.tallies;
    assert tallied.tasks[0 := attributed.tasks[0]] == attributed.tasks;
    Reaches([], START, Start, started);
    Reaches(a, started, EnterTallied(0), tallied);
    Reaches(a + [EnterTallied(0)], tallied, EnterAttributed(0, Naming(budget)), attributed);
    Reaches(a + [EnterTallied(0)] + [EnterAttributed(0, Naming(budget))], attributed, OwnPage(false), ready);
  }

  /** An attempt paid for there is Charged, and the tally opened without a Budget counts it. */
  lemma BudgetInsideCharges(budget: string, a: Attempt)
    requires Paid(a)
    ensures var run := BudgetInside(budget) + [Attempted(0, 0, a)];
            After(run).Some? && |After(run).value.tallies| == 1 && !After(run).value.tallies[0].budgeted
            && ChargedUnder(After(run).value.log, 0) == 1
  {
    BudgetInsideReaches(budget);
    var s := After(BudgetInside(budget)).value;
    OneMore(BudgetInside(budget), Attempted(0, 0, a));
    RecordedTallies(s, 0, 0, a);
    assert PaysInside(s, Attempted(0, 0, a), 0, true);
    NextPays(s, Attempted(0, 0, a), 0);
  }
}
