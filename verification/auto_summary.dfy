/**
 Unattended regeneration (backend/app/jobs/auto_summary.py): when a Summary is
 due, the growing wait after a failed run, and ticks that may overlap because a
 run can be requested while a scheduled one is going on. One Summary's chain.
 */
module AutoSummary {
  import opened Options

  const BACKOFF_MS := 60000
  const BACKOFF_CAP_MS := 24 * 60 * 60 * 1000
  const SHORTEST_WINDOW_MS := 60000

  function Pow2(n: nat): nat { if n == 0 then 1 else 2 * Pow2(n - 1) }

  function Wait(failures: nat): nat {
    var doubled := BACKOFF_MS * Pow2(if failures == 0 then 0 else failures - 1);
    if doubled < BACKOFF_CAP_MS then doubled else BACKOFF_CAP_MS
  }

  /** A Summary's schedule; `window` is its frozen Scope's start and end. */
  datatype Schedule = Schedule(regenerates: bool, window: Option<(int, int)>, failures: nat, retryAfter: Option<int>)

  predicate IsDue(s: Schedule, now: int) {
    && s.regenerates && s.window.Some?
    && var length := s.window.value.1 - s.window.value.0;
       length >= SHORTEST_WINDOW_MS && !(s.retryAfter.Some? && now < s.retryAfter.value)
         && now >= s.window.value.1 + length
  }

  function FailedAt(s: Schedule, now: int): Schedule {
    s.(failures := s.failures + 1, retryAfter := Some(now + Wait(s.failures + 1)))
  }

  /** A Summary whose chain was handed over by a run that had read it as `read`: the rest of what it read
      is written back. */
  function WithoutChain(s: Schedule, read: Schedule): Schedule {
    s.(regenerates := false, failures := read.failures, retryAfter := read.retryAfter)
  }

  /** The Summary a run opens: it takes the chain, and not the ladder. */
  function Successor(window: (int, int)): Schedule { Schedule(true, Some(window), 0, None) }

  class Row {
    var regenerates: bool
    var window: Option<(int, int)>
    var failures: nat
    var retryAfter: Option<int>

    function Value(): Schedule
      reads this
    {
      Schedule(regenerates, window, failures, retryAfter)
    }

    constructor (s: Schedule)
      ensures Value() == s
    {
      regenerates, window, failures, retryAfter := s.regenerates, s.window, s.failures, s.retryAfter;
    }

    method RecordFailure(now: int)
      modifies this
      ensures Value() == FailedAt(old(Value()), now)
      ensures failures == old(failures) + 1 && retryAfter == Some(now + Wait(failures))
      ensures regenerates == old(regenerates) && window == old(window)
    {
      failures := failures + 1;
      retryAfter := Some(now + Wait(failures));
    }

    /** Open the successor and hand it the chain, having read this one as `read`. */
    method HandOver(read: Schedule, next: (int, int)) returns (successor: Row)
      modifies this
      ensures Value() == WithoutChain(old(Value()), read)
      ensures !regenerates && failures == read.failures && retryAfter == read.retryAfter && window == old(window)
      ensures fresh(successor) && successor.Value() == Successor(next)
      ensures successor.regenerates && successor.failures == 0 && successor.retryAfter.None?
              && successor.window == Some(next)
    {
      regenerates, failures, retryAfter := false, read.failures, read.retryAfter;
      successor := new Row(Successor(next));
    }
  }

  // ------------------------------------------------------------------- ticks

  /** A tick: the clock as it read it, and whether it means to visit the Summary, is at it having read its
      schedule, has handed its chain over and is starting the successor's run, or is done. */
  datatype Tick =
    | Selected(now: int)
    | Attempting(now: int, read: Schedule)
    | HandedOver(now: int)
    | Finished(now: int)
  /** A failed run: the clock its tick read, and when it was recorded. */
  datatype Failure = Failure(ticked: int, recorded: int)

  datatype State = State(
    row: Schedule, ticks: seq<Tick>, regenerating: bool, clock: int, failed: seq<Failure>, successors: nat)

  datatype Step =
    | Begin(now: int)
    | Visit(tick: nat)
    | HandOver(tick: nat)
    | Fail(tick: nat, now: int)
    | Finish(tick: nat)

  function Opened(window: (int, int), clock: int): State { State(Successor(window), [], false, clock, [], 0) }

  predicate Enabled(s: State, step: Step) {
    match step
    case Begin(now) => s.clock <= now
    case Visit(t) => t < |s.ticks| && s.ticks[t].Selected?
    case HandOver(t) => t < |s.ticks| && s.ticks[t].Attempting?
    case Fail(t, now) => AtIt(s, t) && s.clock <= now
    case Finish(t) => t < |s.ticks| && s.ticks[t].HandedOver?
  }

  function Next(s: State, step: Step): State
    requires Enabled(s, step)
  {
    match step
    case Begin(now) =>
      var tick := if IsDue(s.row, now) && !s.regenerating then Selected(now) else Finished(now);
      s.(ticks := s.ticks + [tick], clock := now)
    case Visit(t) =>
      if IsDue(s.row, s.ticks[t].now)
      then s.(ticks := s.ticks[t := Attempting(s.ticks[t].now, s.row)], regenerating := true)
      else s.(ticks := s.ticks[t := Finished(s.ticks[t].now)], regenerating := false)
    case HandOver(t) =>
      s.(row := WithoutChain(s.row, s.ticks[t].read), ticks := s.ticks[t := HandedOver(s.ticks[t].now)],
         successors := s.successors + 1)
    case Fail(t, now) =>
      s.(row := FailedAt(s.row, now), ticks := s.ticks[t := Finished(s.ticks[t].now)], regenerating := false,
         clock := now, failed := s.failed + [Failure(s.ticks[t].now, now)])
    case Finish(t) => s.(ticks := s.ticks[t := Finished(s.ticks[t].now)], regenerating := false)
  }

  function After(start: State, steps: seq<Step>): Option<State>
    decreases |steps|
  {
    if steps == [] then Some(start)
    else
      var n := |steps| - 1;
      var before := After(start, steps[..n]);
      if before.None? || !Enabled(before.value, steps[n]) then None else Some(Next(before.value, steps[n]))
  }

  /** The state before step `j`. */
  function Before(start: State, steps: seq<Step>, j: nat): State
    requires After(start, steps).Some? && j <= |steps|
  {
    PrefixRuns(start, steps, j);
    After(start, steps[..j]).value
  }

  lemma {:induction false} PrefixRuns(start: State, steps: seq<Step>, j: nat)
    requires After(start, steps).Some? && j <= |steps|
    ensures After(start, steps[..j]).Some?
    decreases |steps|
  {
    if j < |steps| {
      PrefixRuns(start, steps[..|steps| - 1], j);
      assert steps[..|steps| - 1][..j] == steps[..j];
    } else {
      assert steps[..j] == steps;
    }
  }

  lemma BeforeNext(start: State, steps: seq<Step>, j: nat)
    requires After(start, steps).Some? && j < |steps|
    ensures Enabled(Before(start, steps, j), steps[j])
    ensures Before(start, steps, j + 1) == Next(Before(start, steps, j), steps[j])
  {
    PrefixRuns(start, steps, j + 1);
    assert steps[..j + 1][..j] == steps[..j];
  }

  predicate AtIt(s: State, tick: nat) {
    tick < |s.ticks| && (s.ticks[tick].Attempting? || s.ticks[tick].HandedOver?)
  }

  /** The tick was at the Summary when step `j` recorded another tick's failure. */
  predicate OvertakenAt(start: State, steps: seq<Step>, tick: nat, j: nat)
    requires After(start, steps).Some? && j < |steps|
  {
    steps[j].Fail? && steps[j].tick != tick && AtIt(Before(start, steps, j), tick)
  }

  predicate Overtaken(start: State, steps: seq<Step>, tick: nat)
    requires After(start, steps).Some?
  {
    exists j | 0 <= j < |steps| :: OvertakenAt(start, steps, tick, j)
  }

  /** No tick records a failure after another's was recorded while it was at the Summary. */
  predicate NoneFailsLate(start: State, steps: seq<Step>)
    requires After(start, steps).Some?
  {
    forall j, i | 0 <= j < i < |steps| && steps[i].Fail? :: !OvertakenAt(start, steps, steps[i].tick, j)
  }

  // -------------------------------------------------------------------- laws

  lemma {:induction false} Pow2Grows(n: nat)
    ensures 1 <= Pow2(n) && Pow2(n) <= Pow2(n + 1)
    ensures n >= 11 ==> Pow2(n) >= 2048
  {
    if n > 0 { Pow2Grows(n - 1); }
    if n == 11 { assert Pow2(11) == 2048 by { assert Pow2(5) == 32; assert Pow2(8) == 256; } }
  }

  /** The waits start at a minute and double with each failure until they are a day, which they are from the
      twelfth on, and never more. */
  lemma WaitLadder(failures: nat)
    ensures BACKOFF_MS <= Wait(failures) <= Wait(failures + 1) <= BACKOFF_CAP_MS
    ensures failures >= 12 ==> Wait(failures) == BACKOFF_CAP_MS
    ensures failures <= 1 ==> Wait(failures) == 60_000
    ensures failures >= 1 ==>
              Wait(failures + 1) == if 2 * Wait(failures) < 86_400_000 then 2 * Wait(failures) else 86_400_000
  {
    Pow2Grows(if failures == 0 then 0 else failures - 1);
  }

  /** The waits served before the `k`-th failure. */
  function Waited(k: nat): nat { if k <= 1 then 0 else Waited(k - 1) + Wait(k - 1) }

  /** Each failed run was ticked no earlier than the one before was recorded and its wait served. */
  predicate Paced(failed: seq<Failure>) {
    && (forall k | 0 <= k < |failed| :: failed[k].ticked <= failed[k].recorded)
    && (forall k | 0 < k < |failed| :: failed[k - 1].recorded + Wait(k) <= failed[k].ticked)
  }

  lemma OneMore(start: State, steps: seq<Step>, step: Step)
    requires After(start, steps).Some? && Enabled(After(start, steps).value, step)
    ensures After(start, steps + [step]) == Some(Next(After(start, steps).value, step))
  {
    assert (steps + [step])[..|steps|] == steps;
  }

  /** Whatever is at the Summary has served the wait, unless another's failure overtook it; and the ladder
      stands at the failures as long as the Summary has its chain. */
  ghost predicate Inv(s: State, late: nat -> bool) {
    && (s.row.regenerates ==> s.row.failures == |s.failed| && s.row.retryAfter == WaitEnds(s.failed))
    && (forall k | 0 <= k < |s.failed| :: s.failed[k].ticked <= s.failed[k].recorded)
    && (s.failed != [] ==> LastRecorded(s) <= s.clock)
    && (forall t | 0 <= t < |s.ticks| :: s.ticks[t].now <= s.clock)
    && (forall t: nat | late(t) ::
          t < |s.ticks| && !s.ticks[t].Selected? && s.failed != [] && s.ticks[t].now <= LastRecorded(s))
    && (forall t: nat | AtIt(s, t) && !late(t) :: Served(s.failed, s.ticks[t].now))
  }

  function LastRecorded(s: State): int
    requires s.failed != []
  {
    s.failed[|s.failed| - 1].recorded
  }

  /** When the wait after the last failure is over. */
  function WaitEnds(failed: seq<Failure>): Option<int> {
    if failed == [] then None else Some(failed[|failed| - 1].recorded + Wait(|failed|))
  }

  predicate Served(failed: seq<Failure>, now: int) { WaitEnds(failed).Some? ==> WaitEnds(failed).value <= now }

  lemma OvertakenMore(start: State, steps: seq<Step>, step: Step, tick: nat)
    requires After(start, steps).Some? && After(start, steps + [step]).Some?
    ensures Overtaken(start, steps + [step], tick)
       <==> Overtaken(start, steps, tick) || (step.Fail? && step.tick != tick && AtIt(After(start, steps).value, tick))
  {
    var more := steps + [step];
    forall j | 0 <= j < |steps| ensures OvertakenAt(start, more, tick, j) <==> OvertakenAt(start, steps, tick, j) {
      assert more[..j] == steps[..j];
    }
    assert more[..|steps|] == steps;
    if Overtaken(start, steps, tick) {
      var j :| 0 <= j < |steps| && OvertakenAt(start, steps, tick, j);
      assert OvertakenAt(start, more, tick, j);
    }
    assert OvertakenAt(start, more, tick, |steps|)
           <==> step.Fail? && step.tick != tick && AtIt(After(start, steps).value, tick);
  }

  lemma LateMore(start: State, steps: seq<Step>, step: Step)
    requires After(start, steps).Some? && After(start, steps + [step]).Some?
    ensures NoneFailsLate(start, steps + [step])
       <==> NoneFailsLate(start, steps) && (step.Fail? ==> !Overtaken(start, steps, step.tick))
  {
    var more := steps + [step];
    forall j, tick: nat | 0 <= j < |steps|
      ensures OvertakenAt(start, more, tick, j) <==> OvertakenAt(start, steps, tick, j)
    {
      assert more[..j] == steps[..j];
    }
    assert more[|steps|] == step && forall i | 0 <= i < |steps| :: more[i] == steps[i];
    if step.Fail? && Overtaken(start, steps, step.tick) {
      var j :| 0 <= j < |steps| && OvertakenAt(start, steps, step.tick, j);
      assert OvertakenAt(start, more, more[|steps|].tick, j);
    }
    if !NoneFailsLate(start, steps) {
      var j, i :| 0 <= j < i < |steps| && steps[i].Fail? && OvertakenAt(start, steps, steps[i].tick, j);
      assert OvertakenAt(start, more, more[i].tick, j);
    }
  }

  lemma PacedMore(failed: seq<Failure>, f: Failure)
    requires f.ticked <= f.recorded
    ensures Paced(failed + [f])
       <==> Paced(failed) && (failed != [] ==> failed[|failed| - 1].recorded + Wait(|failed|) <= f.ticked)
  {
    var more := failed + [f];
    assert forall k | 0 <= k < |failed| :: more[k] == failed[k];
    assert more[|failed|] == f;
    if Paced(more) {
      forall k | 0 < k < |failed| ensures failed[k - 1].recorded + Wait(k) <= failed[k].ticked {
        assert more[k - 1].recorded + Wait(k) <= more[k].ticked;
      }
      forall k | 0 <= k < |failed| ensures failed[k].ticked <= failed[k].recorded {
        assert more[k].ticked <= more[k].recorded;
      }
    }
  }

  lemma StepKeeps(s: State, late: nat -> bool, step: Step, later: nat -> bool)
    requires Inv(s, late) && Enabled(s, step)
    requires forall t: nat :: later(t) <==> late(t) || (step.Fail? && step.tick != t && AtIt(s, t))
    ensures Inv(Next(s, step), later)
    ensures Paced(Next(s, step).failed) <==> Paced(s.failed) && (step.Fail? ==> !late(step.tick))
  {
    match step
    case Fail(t, now) =>
      FailKeeps(s, late, t, now, later);
    case _ =>
  }

  lemma FailKeeps(s: State, late: nat -> bool, tick: nat, now: int, later: nat -> bool)
    requires Inv(s, late) && Enabled(s, Fail(tick, now))
    requires forall t: nat :: later(t) <==> late(t) || (t != tick && AtIt(s, t))
    ensures Inv(Next(s, Fail(tick, now)), later)
    ensures Paced(Next(s, Fail(tick, now)).failed) <==> Paced(s.failed) && !late(tick)
  {
    WaitLadder(|s.failed|);
    WaitLadder(|s.failed| + 1);
    PacedMore(s.failed, Failure(s.ticks[tick].now, now));
  }

  lemma {:induction false} InvAlways(start: State, steps: seq<Step>)
    requires Inv(start, _ => false) && start.failed == [] && After(start, steps).Some?
    ensures Inv(After(start, steps).value, (t: nat) => Overtaken(start, steps, t))
    ensures Paced(After(start, steps).value.failed) <==> NoneFailsLate(start, steps)
    decreases |steps|
  {
    if steps != [] {
      var front, last := steps[..|steps| - 1], steps[|steps| - 1];
      InvAlways(start, front);
      assert front + [last] == steps;
      forall t: nat
        ensures Overtaken(start, steps, t)
           <==> Overtaken(start, front, t) || (last.Fail? && last.tick != t && AtIt(After(start, front).value, t))
      {
        OvertakenMore(start, front, last, t);
      }
      LateMore(start, front, last);
      StepKeeps(After(start, front).value, (t: nat) => Overtaken(start, front, t), last,
                (t: nat) => Overtaken(start, steps, t));
    }
  }

  /** Over every run, however ticks overlap: the failures are spaced by their waits exactly when no
      tick records one after another's was recorded while it was at the Summary. */
  lemma PacedExactly(window: (int, int), clock: int, steps: seq<Step>)
    requires After(Opened(window, clock), steps).Some?
    ensures Paced(After(Opened(window, clock), steps).value.failed) <==> NoneFailsLate(Opened(window, clock), steps)
    ensures var s := After(Opened(window, clock), steps).value; s.row.regenerates ==> s.row.failures == |s.failed|
  {
    InvAlways(Opened(window, clock), steps);
  }

  lemma {:induction false} PacedSums(failed: seq<Failure>, k: nat)
    requires Paced(failed) && 1 <= k <= |failed|
    ensures failed[0].ticked + Waited(k) <= failed[k - 1].ticked
  {
    if k > 1 { PacedSums(failed, k - 1); }
  }

  /** Over any run in which no tick fails late, the k-th failed run comes at least the first k - 1 waits
      after the first. */
  lemma FailuresAreSpacedOut(window: (int, int), clock: int, steps: seq<Step>, k: nat)
    requires After(Opened(window, clock), steps).Some? && NoneFailsLate(Opened(window, clock), steps)
    requires 1 <= k <= |After(Opened(window, clock), steps).value.failed|
    ensures var s := After(Opened(window, clock), steps).value; s.failed[0].ticked + Waited(k) <= s.failed[k - 1].ticked
  {
    PacedExactly(window, clock, steps);
    PacedSums(After(Opened(window, clock), steps).value.failed, k);
  }

  /** No tick starts on the Summary while another is at it. */
  ghost predicate OneAtATime(start: State, steps: seq<Step>)
    requires After(start, steps).Some?
  {
    forall i, t: nat | 0 <= i < |steps| && steps[i].Visit? :: !AtIt(Before(start, steps, i), t)
  }

  ghost predicate AtMostOne(s: State) { forall t: nat, u: nat | AtIt(s, t) && AtIt(s, u) :: t == u }

  lemma {:induction false} OneIsAtIt(start: State, steps: seq<Step>, i: nat)
    requires After(start, steps).Some? && OneAtATime(start, steps) && AtMostOne(start) && i <= |steps|
    ensures AtMostOne(Before(start, steps, i))
  {
    if i > 0 {
      OneIsAtIt(start, steps, i - 1);
      BeforeNext(start, steps, i - 1);
      VisitAlone(Before(start, steps, i - 1), steps[i - 1]);
    }
  }

  lemma VisitAlone(s: State, step: Step)
    requires AtMostOne(s) && Enabled(s, step) && (step.Visit? ==> forall t: nat :: !AtIt(s, t))
    ensures AtMostOne(Next(s, step))
  {
    var after := Next(s, step);
    forall t: nat | AtIt(after, t) ensures AtIt(s, t) || (step.Visit? && step.tick == t) {}
  }

  /** Ticks that never overlap never fail late. */
  lemma OneAtATimeIsNeverLate(window: (int, int), clock: int, steps: seq<Step>)
    requires After(Opened(window, clock), steps).Some? && OneAtATime(Opened(window, clock), steps)
    ensures NoneFailsLate(Opened(window, clock), steps)
  {
    var start := Opened(window, clock);
    forall j, i | 0 <= j < i < |steps| && steps[i].Fail? ensures !OvertakenAt(start, steps, steps[i].tick, j) {
      OneIsAtIt(start, steps, j);
      BeforeNext(start, steps, j);
      assert steps[j].Fail? ==> AtIt(Before(start, steps, j), steps[j].tick);
    }
  }

  /** Two ticks that both chose the Summary before either was at it run it twice in a row: the second
      does not look whether it is being regenerated, and its failure serves no wait. */
  lemma OverlappingTicksServeNoWait(window: (int, int), now: int)
    requires window.1 - window.0 >= SHORTEST_WINDOW_MS && now >= window.1 + (window.1 - window.0)
    ensures var run := [Begin(now)] + [Begin(now)] + [Visit(0)] + [Visit(1)] + [Fail(0, now)] + [Fail(1, now)];
            var end := After(Opened(window, now), run);
            end.Some? && |end.value.failed| == 2 && end.value.failed[1].ticked < end.value.failed[0].ticked + Waited(2)
  {
    var start := Opened(window, now);
    var a := Next(start, Begin(now));
    var b := Next(a, Begin(now));
    var c := Next(b, Visit(0));
    var d := Next(c, Visit(1));
    var e := Next(d, Fail(0, now));
    assert a.ticks == [Selected(now)] && b.ticks == [Selected(now), Selected(now)];
    var chosen := Attempting(now, start.row);
    assert c.ticks == [chosen, Selected(now)] && d.ticks == [chosen, chosen];
    assert e.ticks == [Finished(now), chosen];
    assert After(start, []) == Some(start) && [] + [Begin(now)] == [Begin(now)];
    OneMore(start, [], Begin(now));
    OneMore(start, [Begin(now)], Begin(now));
    OneMore(start, [Begin(now)] + [Begin(now)], Visit(0));
    OneMore(start, [Begin(now)] + [Begin(now)] + [Visit(0)], Visit(1));
    OneMore(start, [Begin(now)] + [Begin(now)] + [Visit(0)] + [Visit(1)], Fail(0, now));
    OneMore(start, [Begin(now)] + [Begin(now)] + [Visit(0)] + [Visit(1)] + [Fail(0, now)], Fail(1, now));
    WaitLadder(1);
    assert Waited(2) == Waited(1) + Wait(1);
  }

  // ------------------------------------------------------------ when it is due

  lemma {:induction false} ChainAndWindow(window: (int, int), clock: int, steps: seq<Step>)
    requires After(Opened(window, clock), steps).Some?
    ensures var s := After(Opened(window, clock), steps).value;
            s.row.window == Some(window) && (s.row.regenerates <==> s.successors == 0)
    ensures forall t | 0 <= t < |After(Opened(window, clock), steps).value.ticks| ::
              After(Opened(window, clock), steps).value.ticks[t].Attempting? ==>
                After(Opened(window, clock), steps).value.ticks[t].read.window == Some(window)
    decreases |steps|
  {
    if steps != [] { ChainAndWindow(window, clock, steps[..|steps| - 1]); }
  }

  /** The window is a minute long at least, its length has passed again since its end, the Summary has no successor,
      and the wait after its last failed run is over. */
  predicate Timely(window: (int, int), s: State, now: int) {
    && s.successors == 0 && window.1 - window.0 >= 60_000 && now >= window.1 + (window.1 - window.0)
    && (s.failed != [] ==> now >= s.failed[|s.failed| - 1].recorded + Wait(|s.failed|))
  }

  /** Over every run: a tick chooses the Summary exactly when it is timely and not being regenerated, and is at it
      exactly when it is timely, by the clock it started with, as the tick comes to it. */
  lemma TicksAreTimely(window: (int, int), clock: int, steps: seq<Step>, step: Step)
    requires After(Opened(window, clock), steps).Some?
    requires Enabled(After(Opened(window, clock), steps).value, step)
    ensures var s := After(Opened(window, clock), steps).value; var s' := Next(s, step);
            match step
            case Begin(now) => |s'.ticks| == |s.ticks| + 1
                               && (s'.ticks[|s.ticks|].Selected? <==> Timely(window, s, now) && !s.regenerating)
                               && (!s'.ticks[|s.ticks|].Selected? ==> s'.ticks[|s.ticks|].Finished?)
            case Visit(t) => && (s'.ticks[t].Attempting? <==> Timely(window, s, s.ticks[t].now))
                             && (!s'.ticks[t].Attempting? ==> s'.ticks[t].Finished?)
            case _ => true
  {
    ChainAndWindow(window, clock, steps);
    InvAlways(Opened(window, clock), steps);
    DueIsTimely(window, After(Opened(window, clock), steps).value,
                (t: nat) => Overtaken(Opened(window, clock), steps, t));
  }

  lemma DueIsTimely(window: (int, int), s: State, late: nat -> bool)
    requires Inv(s, late) && s.row.window == Some(window) && (s.row.regenerates <==> s.successors == 0)
    ensures forall now :: IsDue(s.row, now) <==> Timely(window, s, now)
  {}

  /** The Summary is marked as being regenerated exactly while a tick is at it. */
  ghost predicate Marked(s: State) { s.regenerating <==> exists t: nat :: AtIt(s, t) }

  /** So it is at every moment of a run in which ticks come to it one at a time. */
  lemma {:induction false} MarkedWhileAtIt(window: (int, int), clock: int, steps: seq<Step>, i: nat)
    requires After(Opened(window, clock), steps).Some? && OneAtATime(Opened(window, clock), steps) && i <= |steps|
    ensures Marked(Before(Opened(window, clock), steps, i))
  {
    if i > 0 {
      var start := Opened(window, clock);
      MarkedWhileAtIt(window, clock, steps, i - 1);
      OneIsAtIt(start, steps, i - 1);
      BeforeNext(start, steps, i - 1);
      MarkKept(Before(start, steps, i - 1), steps[i - 1]);
    }
  }

  lemma MarkKept(s: State, step: Step)
    requires Enabled(s, step) && AtMostOne(s) && Marked(s) && (step.Visit? ==> forall t: nat :: !AtIt(s, t))
    ensures Marked(Next(s, step))
  {
    var s' := Next(s, step);
    match step
    case Begin(_) =>
      forall u: nat ensures AtIt(s', u) <==> AtIt(s, u) {}
    case Visit(t) =>
      forall u: nat ensures AtIt(s', u) <==> u == t && s'.ticks[t].Attempting? { assert !AtIt(s, u); }
      assert AtIt(s', t) <==> s'.regenerating;
    case HandOver(t) =>
      forall u: nat ensures AtIt(s', u) <==> AtIt(s, u) {}
    case Fail(t, _) => NobodyAfter(s, s', t);
    case Finish(t) => NobodyAfter(s, s', t);
  }

  lemma NobodyAfter(s: State, s': State, tick: nat)
    requires AtMostOne(s) && AtIt(s, tick) && s'.ticks == s.ticks[tick := Finished(s.ticks[tick].now)]
    ensures forall u: nat :: !AtIt(s', u)
  {
    forall u: nat ensures !AtIt(s', u) {
      if u != tick { OnlyThatOne(s, tick, u); }
    }
  }

  // ------------------------------------------------------------- the chain

  /** After a hand-over the Summary is never due, and whoever is still attempting it was so by then. */
  lemma {:induction false} ChainGone(start: State, steps: seq<Step>, j: nat, i: nat)
    requires After(start, steps).Some? && j < i <= |steps| && steps[j].HandOver?
    ensures !Before(start, steps, i).row.regenerates
    ensures forall t | 0 <= t < |Before(start, steps, i).ticks| && Before(start, steps, i).ticks[t].Attempting? ::
              AtIt(Before(start, steps, j), t)
  {
    BeforeNext(start, steps, i - 1);
    if j + 1 < i { ChainGone(start, steps, j, i - 1); }
  }

  /** No tick hands the chain over after another did while it was at the Summary. */
  predicate NoneForks(start: State, steps: seq<Step>)
    requires After(start, steps).Some?
  {
    forall j, i | 0 <= j < i < |steps| && steps[j].HandOver? && steps[i].HandOver? ::
      !AtIt(Before(start, steps, j), steps[i].tick)
  }

  lemma {:induction false} SuccessorsAreHandOvers(start: State, steps: seq<Step>)
    requires After(start, steps).Some? && start.successors == 0
    ensures After(start, steps).value.successors >= 1 <==> exists j :: 0 <= j < |steps| && steps[j].HandOver?
    ensures After(start, steps).value.successors >= 2
       <==> exists j, i :: 0 <= j < i < |steps| && steps[j].HandOver? && steps[i].HandOver?
    decreases |steps|
  {
    if steps != [] {
      SuccessorsAreHandOvers(start, steps[..|steps| - 1]);
      OneMoreHandOver(steps);
    }
  }

  lemma OneMoreHandOver(steps: seq<Step>)
    requires steps != []
    ensures var front, last := steps[..|steps| - 1], steps[|steps| - 1];
            ((exists j :: 0 <= j < |steps| && steps[j].HandOver?)
               <==> last.HandOver? || exists j :: 0 <= j < |front| && front[j].HandOver?)
            && ((exists j, i :: 0 <= j < i < |steps| && steps[j].HandOver? && steps[i].HandOver?)
                  <==> (last.HandOver? && exists j :: 0 <= j < |front| && front[j].HandOver?)
                       || exists j, i :: 0 <= j < i < |front| && front[j].HandOver? && front[i].HandOver?)
  {
    var n := |steps| - 1;
    var front := steps[..n];
    assert forall j | 0 <= j < n :: front[j] == steps[j];
    if j :| 0 <= j < |front| && front[j].HandOver? { assert steps[j].HandOver?; }
    if j, i :| 0 <= j < i < |front| && front[j].HandOver? && front[i].HandOver? {
      assert steps[j].HandOver? && steps[i].HandOver?;
    }
  }

  /** Over every run, however ticks overlap: the Summary has one successor at most exactly when no tick hands
      its chain over after another did while it was at the Summary; and once it has one it is never due. */
  lemma ChainForksExactly(window: (int, int), clock: int, steps: seq<Step>, now: int)
    requires After(Opened(window, clock), steps).Some?
    ensures After(Opened(window, clock), steps).value.successors <= 1 <==> NoneForks(Opened(window, clock), steps)
    ensures var s := After(Opened(window, clock), steps).value; s.successors >= 1 ==> !IsDue(s.row, now)
  {
    var start := Opened(window, clock);
    SuccessorsAreHandOvers(start, steps);
    forall j, i | 0 <= j < i < |steps| && steps[j].HandOver? && steps[i].HandOver?
      ensures AtIt(Before(start, steps, j), steps[i].tick)
    {
      ChainGone(start, steps, j, i);
      BeforeNext(start, steps, i);
    }
    if j :| 0 <= j < |steps| && steps[j].HandOver? {
      ChainGone(start, steps, j, |steps|);
      assert steps[..|steps|] == steps;
    }
  }

  /** Ticks that never overlap never fork the chain. */
  lemma OneAtATimeNeverForks(window: (int, int), clock: int, steps: seq<Step>)
    requires After(Opened(window, clock), steps).Some? && OneAtATime(Opened(window, clock), steps)
    ensures After(Opened(window, clock), steps).value.successors <= 1
  {
    var start := Opened(window, clock);
    forall j, i | 0 <= j < i < |steps| && steps[j].HandOver? && steps[i].HandOver?
      ensures !AtIt(Before(start, steps, j), steps[i].tick)
    {
      OneHandsOver(start, steps, j, i);
    }
    ChainForksExactly(window, clock, steps, 0);
  }

  lemma OneHandsOver(start: State, steps: seq<Step>, j: nat, i: nat)
    requires After(start, steps).Some? && OneAtATime(start, steps) && AtMostOne(start)
    requires j < i < |steps| && steps[j].HandOver? && steps[i].HandOver?
    ensures !AtIt(Before(start, steps, j), steps[i].tick)
  {
    OneIsAtIt(start, steps, j);
    HandsOverAttempting(start, steps, j);
    HandsOverAttempting(start, steps, i);
    HandedOverStays(start, steps, j, i, steps[j].tick);
    OnlyThatOne(Before(start, steps, j), steps[j].tick, steps[i].tick);
  }

  lemma HandsOverAttempting(start: State, steps: seq<Step>, j: nat)
    requires After(start, steps).Some? && j < |steps| && steps[j].HandOver?
    ensures AtIt(Before(start, steps, j), steps[j].tick)
    ensures Before(start, steps, j).ticks[steps[j].tick].Attempting?
  {
    BeforeNext(start, steps, j);
  }

  lemma OnlyThatOne(s: State, tick: nat, other: nat)
    requires AtMostOne(s) && AtIt(s, tick) && tick != other
    ensures !AtIt(s, other)
  {}

  lemma {:induction false} HandedOverStays(start: State, steps: seq<Step>, j: nat, i: nat, tick: nat)
    requires After(start, steps).Some? && j < i <= |steps| && steps[j] == HandOver(tick)
    ensures tick < |Before(start, steps, i).ticks| && !Before(start, steps, i).ticks[tick].Attempting?
    ensures !Before(start, steps, i).ticks[tick].Selected?
  {
    BeforeNext(start, steps, i - 1);
    if j + 1 < i { HandedOverStays(start, steps, j, i - 1, tick); }
  }

  /** Two ticks that both chose the Summary before either was at it open two successors. */
  lemma OverlappingTicksFork(window: (int, int), now: int)
    requires window.1 - window.0 >= SHORTEST_WINDOW_MS && now >= window.1 + (window.1 - window.0)
    ensures var run := [Begin(now)] + [Begin(now)] + [Visit(0)] + [Visit(1)] + [HandOver(0)] + [HandOver(1)];
            var end := After(Opened(window, now), run);
            end.Some? && end.value.successors == 2
  {
    var start := Opened(window, now);
    var a := Next(start, Begin(now));
    var b := Next(a, Begin(now));
    var c := Next(b, Visit(0));
    var d := Next(c, Visit(1));
    var e := Next(d, HandOver(0));
    var chosen := Attempting(now, start.row);
    assert a.ticks == [Selected(now)] && b.ticks == [Selected(now), Selected(now)];
    assert c.ticks == [chosen, Selected(now)] && d.ticks == [chosen, chosen];
    assert e.ticks == [HandedOver(now), chosen];
    assert After(start, []) == Some(start) && [] + [Begin(now)] == [Begin(now)];
    OneMore(start, [], Begin(now));
    OneMore(start, [Begin(now)], Begin(now));
    OneMore(start, [Begin(now)] + [Begin(now)], Visit(0));
    OneMore(start, [Begin(now)] + [Begin(now)] + [Visit(0)], Visit(1));
    OneMore(start, [Begin(now)] + [Begin(now)] + [Visit(0)] + [Visit(1)], HandOver(0));
    OneMore(start, [Begin(now)] + [Begin(now)] + [Visit(0)] + [Visit(1)] + [HandOver(0)], HandOver(1));
  }
}
