/**
 Every run of the status protocol: processes that mark, announce, hear and are
 started again, over a broadcast that keeps each sender's order and may miss any
 listener.
 */
module JobStatusRuns {
  import opened Options
  import opened JobStatus

  /** An announcement's place among all of them, waiting in a process's inbox. */
  datatype Waiting = Waiting(at: nat, event: Event)

  /** A process. `heard` is the place of the last announcement of another process it folded in, `own`
      what its own marks alone would have made of the entry, `born` how many announcements there had
      been when it started. */
  datatype Process = Process(cell: Cell, inbox: seq<Waiting>, heard: Option<nat>, own: Entry, born: nat)
  datatype State = State(processes: seq<Process>, published: seq<Event>)

  datatype Step =
    | Start(pid: nat)
    | Mark(p: nat, mark: Mark)
    | Announce(p: nat, reached: set<nat>)
    | Hear(p: nat)
    | Restart(p: nat, pid: nat)

  const EMPTY := State([], [])

  function New(pid: nat, s: State): Process { Process(Cell(pid, NOTHING_YET, 0), [], None, NOTHING_YET, |s.published|) }

  predicate Enabled(s: State, step: Step) {
    match step
    case Start(pid) => Unused(s, pid)
    case Mark(p, _) => p < |s.processes|
    case Announce(p, _) => p < |s.processes|
    case Hear(p) => p < |s.processes| && s.processes[p].inbox != []
    case Restart(p, pid) => p < |s.processes| && Unused(s, pid)
  }

  /** A process id nobody has had. */
  predicate Unused(s: State, pid: nat) {
    && (forall q | 0 <= q < |s.processes| :: s.processes[q].cell.pid != pid)
    && (forall i | 0 <= i < |s.published| :: s.published[i].pid != pid)
  }

  function Received(p: Process, w: Waiting): Process { p.(inbox := p.inbox + [w]) }

  function Heard(p: Process): Process
    requires p.inbox != []
  {
    var w := p.inbox[0];
    p.(cell := Applied(p.cell, w.event), inbox := p.inbox[1..],
       heard := if w.event.pid == p.cell.pid then p.heard else Some(w.at))
  }

  function Next(s: State, step: Step): State
    requires Enabled(s, step)
  {
    match step
    case Start(pid) => s.(processes := s.processes + [New(pid, s)])
    case Mark(p, mark) =>
      var was := s.processes[p];
      s.(processes := s.processes[p := was.(cell := Marked(was.cell, mark),
                                            own := Marked(Cell(0, was.own, 0), mark).entry)])
    case Announce(p, reached) =>
      var (cell, event) := Announced(s.processes[p].cell);
      var w := Waiting(|s.published|, event);
      State(seq(|s.processes|, q requires 0 <= q < |s.processes| =>
              var counted := if q == p then s.processes[q].(cell := cell) else s.processes[q];
              if q in reached then Received(counted, w) else counted),
            s.published + [event])
    case Hear(p) => s.(processes := s.processes[p := Heard(s.processes[p])])
    case Restart(p, pid) => s.(processes := s.processes[p := New(pid, s)])
  }

  function After(steps: seq<Step>): Option<State>
    decreases |steps|
  {
    if steps == [] then Some(EMPTY)
    else
      var n := |steps| - 1;
      var before := After(steps[..n]);
      if before.None? || !Enabled(before.value, steps[n]) then None else Some(Next(before.value, steps[n]))
  }

  /** A process that never marks the job, as the API never does. */
  predicate OnlyListens(steps: seq<Step>, p: nat) {
    forall i | 0 <= i < |steps| && (steps[i].Mark? || steps[i].Announce?) :: steps[i].p != p
  }

  // -------------------------------------------------------------- invariants

  /** An inbox holds announcements in order, all later than the last one heard. */
  predicate InboxOk(s: State, p: Process) {
    && (forall i | 0 <= i < |p.inbox| ::
          p.inbox[i].at < |s.published| && p.inbox[i].event == s.published[p.inbox[i].at])
    && (forall i, j | 0 <= i < j < |p.inbox| :: p.inbox[i].at < p.inbox[j].at)
    && (p.heard.Some? ==> p.heard.value < |s.published| && s.published[p.heard.value].pid != p.cell.pid)
    && (forall i | 0 <= i < |p.inbox| && p.heard.Some? :: p.heard.value < p.inbox[i].at)
  }

  /** The entry shown is what the process's own marks made it, until it hears of another's. */
  predicate EntryOk(s: State, p: Process) {
    && (p.heard.None? ==> p.cell.entry == p.own)
    && p.born <= |s.published|
    && (forall i | 0 <= i < |p.inbox| :: p.born <= p.inbox[i].at)
    && (p.heard.Some? ==> p.born <= p.heard.value)
  }

  ghost predicate ProcessOk(s: State, p: Process) { InboxOk(s, p) && EntryOk(s, p) }

  ghost predicate Inv(s: State) {
    forall q | 0 <= q < |s.processes| :: ProcessOk(s, s.processes[q])
  }

  lemma HeardKeeps(s: State, p: Process)
    requires ProcessOk(s, p) && p.inbox != []
    ensures ProcessOk(s, Heard(p))
  {
    var rest := p.inbox[1..];
    assert forall i | 0 <= i < |rest| :: rest[i] == p.inbox[i + 1];
    assert p.inbox[0].at < |s.published|;
  }

  /** One announcement more, from `sender`'s cell, heard by `p` or not. */
  lemma AnnouncedKeeps(s: State, event: Event, p: Process, counted: Cell, reached: bool)
    requires ProcessOk(s, p) && counted.pid == p.cell.pid && counted.entry == p.cell.entry
    ensures var after := s.(published := s.published + [event]); var q := p.(cell := counted);
            ProcessOk(after, if reached then Received(q, Waiting(|s.published|, event)) else q)
  {
    var after := s.(published := s.published + [event]);
    assert forall i | 0 <= i < |s.published| :: after.published[i] == s.published[i];
  }

  lemma SameHistory(s: State, t: State, p: Process)
    requires ProcessOk(s, p) && t.published == s.published
    ensures ProcessOk(t, p)
  {}

  lemma ProcessKeeps(s: State, step: Step, q: nat)
    requires Inv(s) && Enabled(s, step) && q < |Next(s, step).processes|
    ensures ProcessOk(Next(s, step), Next(s, step).processes[q])
  {
    if q < |s.processes| { assert ProcessOk(s, s.processes[q]); }
    match step
    case Announce(p, reached) => AnnounceKeeps(s, p, reached, q);
    case Hear(p) => if q == p { HeardKeeps(s, s.processes[p]); }
    case Start(_) | Restart(_, _) => BornKeeps(s, step, q);
    case Mark(_, _) =>
  }

  lemma BornKeeps(s: State, step: Step, q: nat)
    requires Inv(s) && Enabled(s, step) && (step.Start? || step.Restart?) && q < |Next(s, step).processes|
    ensures ProcessOk(Next(s, step), Next(s, step).processes[q])
  {
    if q < |s.processes| { assert ProcessOk(s, s.processes[q]); }
  }

  lemma AnnounceKeeps(s: State, p: nat, reached: set<nat>, q: nat)
    requires p < |s.processes| && q < |s.processes| && ProcessOk(s, s.processes[q])
    ensures ProcessOk(Next(s, Announce(p, reached)), Next(s, Announce(p, reached)).processes[q])
  {
    var (cell, event) := Announced(s.processes[p].cell);
    AnnouncedKeeps(s, event, s.processes[q], if q == p then cell else s.processes[q].cell, q in reached);
    SameHistory(s.(published := s.published + [event]), Next(s, Announce(p, reached)),
                Next(s, Announce(p, reached)).processes[q]);
  }

  lemma StepKeeps(s: State, step: Step)
    requires Inv(s) && Enabled(s, step)
    ensures Inv(Next(s, step))
  {
    forall q | 0 <= q < |Next(s, step).processes| ensures ProcessOk(Next(s, step), Next(s, step).processes[q]) {
      ProcessKeeps(s, step, q);
    }
  }

  lemma {:induction false} InvAlways(steps: seq<Step>)
    requires After(steps).Some?
    ensures Inv(After(steps).value)
    decreases |steps|
  {
    if steps != [] {
      InvAlways(steps[..|steps| - 1]);
      StepKeeps(After(steps[..|steps| - 1]).value, steps[|steps| - 1]);
    }
  }

  // -------------------------------------------------------------------- laws

  /** What a listener shows is one whole announcement: the last of those delivered to it. */
  predicate ShowsLatest(s: State, p: Process) {
    if p.heard.None? then p.cell.entry == NOTHING_YET && p.cell.count == 0
    else p.heard.value < |s.published| && p.cell.entry == s.published[p.heard.value].entry
         && p.cell.count == s.published[p.heard.value].count
  }

  /** In every run a process that only listens shows the initial entry, or exactly the entry and count
      of the latest announcement delivered to it. */
  lemma {:induction false} ListenerShowsLatest(steps: seq<Step>, p: nat)
    requires After(steps).Some? && OnlyListens(steps, p) && p < |After(steps).value.processes|
    ensures ShowsLatest(After(steps).value, After(steps).value.processes[p])
    decreases |steps|
  {
    if steps != [] {
      var front, step := steps[..|steps| - 1], steps[|steps| - 1];
      var before := After(front).value;
      InvAlways(front);
      assert step == steps[|steps| - 1];
      if p < |before.processes| {
        assert OnlyListens(front, p);
        ListenerShowsLatest(front, p);
        assert ProcessOk(before, before.processes[p]);
      }
    }
  }

  /** What a process shows never goes back: the announcement it shows is later after each step, unless
      it was started again. */
  lemma NeverGoesBack(steps: seq<Step>, step: Step, p: nat)
    requires After(steps).Some? && Enabled(After(steps).value, step) && p < |After(steps).value.processes|
    requires !(step.Restart? && step.p == p)
    ensures var before, after := After(steps).value.processes[p], Next(After(steps).value, step).processes[p];
            before.heard.Some? ==> after.heard.Some? && before.heard.value <= after.heard.value
  {
    InvAlways(steps);
    assert ProcessOk(After(steps).value, After(steps).value.processes[p]);
  }

  /** A runner's own entry is what its marks made it for as long as nobody else has announced the job
      since it started, whatever echoes of its own it hears and when. */
  lemma EchoesChangeNothing(steps: seq<Step>, p: nat)
    requires After(steps).Some? && p < |After(steps).value.processes|
    requires var s := After(steps).value;
             forall i | s.processes[p].born <= i < |s.published| :: s.published[i].pid == s.processes[p].cell.pid
    ensures After(steps).value.processes[p].cell.entry == After(steps).value.processes[p].own
  {
    InvAlways(steps);
    var s := After(steps).value;
    assert ProcessOk(s, s.processes[p]);
  }

  // ----------------------------------------------------------------- counts

  /** A process that has heard of no other has counted every announcement it made. */
  predicate CountOk(s: State, p: Process) {
    p.heard.None? ==> forall i | 0 <= i < |s.published| && s.published[i].pid == p.cell.pid ::
      s.published[i].count <= p.cell.count
  }

  ghost predicate CountInv(s: State) {
    && (forall q | 0 <= q < |s.processes| :: CountOk(s, s.processes[q]))
    && (forall q, r | 0 <= q < r < |s.processes| :: s.processes[q].cell.pid != s.processes[r].cell.pid)
  }

  lemma CountKeeps(s: State, step: Step, q: nat)
    requires CountInv(s) && Enabled(s, step) && q < |Next(s, step).processes|
    ensures CountOk(Next(s, step), Next(s, step).processes[q])
  {
    if q < |s.processes| { assert CountOk(s, s.processes[q]); }
    match step
    case Announce(p, _) => assert p < q ==> s.processes[p].cell.pid != s.processes[q].cell.pid;
    case _ =>
  }

  lemma {:induction false} CountAlways(steps: seq<Step>)
    requires After(steps).Some?
    ensures CountInv(After(steps).value)
    decreases |steps|
  {
    if steps != [] {
      var front, step := steps[..|steps| - 1], steps[|steps| - 1];
      var s := After(front).value;
      CountAlways(front);
      forall q | 0 <= q < |Next(s, step).processes|
        ensures CountOk(Next(s, step), Next(s, step).processes[q])
      {
        CountKeeps(s, step, q);
      }
    }
  }

  predicate LastNewsFrom(s: State, p: Process, pid: nat) {
    p.heard.Some? && p.heard.value < |s.published| ==> s.published[p.heard.value].pid == pid
  }

  /** A requested run that finishes and is heard of is missed only by a listener whose last news came
      from another worker process than the one that ran it. */
  lemma OnlyARestartHidesARun(steps: seq<Step>, api: nat, worker: nat, now: int, failure: Option<string>)
    requires After(steps).Some? && OnlyListens(steps, api)
    requires api < |After(steps).value.processes| && worker < |After(steps).value.processes| && api != worker
    requires After(steps).value.processes[worker].heard.None?
    requires LastNewsFrom(After(steps).value, After(steps).value.processes[api],
                          After(steps).value.processes[worker].cell.pid)
    ensures var s := After(steps).value; var a, w := s.processes[api].cell, s.processes[worker].cell;
            var ended := Entry(if failure.Some? then Failed else Succeeded, Some(now), failure);
            Settled(AllApplied(a, [Event(w.pid, w.count + 1, Entry(Running, Some(now), None)),
                                   Event(w.pid, w.count + 2, ended)]), a.count)
  {
    CountsAgree(steps, api, worker);
    FinishedRunIsSeen(After(steps).value.processes[api].cell, After(steps).value.processes[worker].cell, now, failure);
  }

  lemma CountsAgree(steps: seq<Step>, api: nat, worker: nat)
    requires After(steps).Some? && OnlyListens(steps, api)
    requires api < |After(steps).value.processes| && worker < |After(steps).value.processes| && api != worker
    requires After(steps).value.processes[worker].heard.None?
    requires LastNewsFrom(After(steps).value, After(steps).value.processes[api],
                          After(steps).value.processes[worker].cell.pid)
    ensures After(steps).value.processes[api].cell.count <= After(steps).value.processes[worker].cell.count
    ensures After(steps).value.processes[api].cell.pid != After(steps).value.processes[worker].cell.pid
  {
    var s := After(steps).value;
    ListenerShowsLatest(steps, api);
    CountAlways(steps);
    assert CountOk(s, s.processes[worker]);
    var first, second := if api < worker then api else worker, if api < worker then worker else api;
    assert s.processes[first].cell.pid != s.processes[second].cell.pid;
  }

  /** What each step leaves of process `q`: one started, or started again, has a new id, knows nothing and has
      announced nothing; a mark changes the entry alone, an announcement counts one more and sends the entry with
      that count to those it reaches; and what is heard of another replaces entry and count. */
  lemma StepsOfAProcess(s: State, step: Step, q: nat)
    requires Enabled(s, step) && q < |Next(s, step).processes|
    ensures var now := Next(s, step).processes[q];
            match step
            case Start(pid) =>
              if q == |s.processes| then now.cell == Cell(pid, Entry(Idle, None, None), 0) && now.inbox == []
              else now == s.processes[q]
            case Restart(p, pid) =>
              if q == p then now.cell == Cell(pid, Entry(Idle, None, None), 0) && now.inbox == []
              else now == s.processes[q]
            case Mark(p, _) => now.inbox == s.processes[q].inbox && now.cell.count == s.processes[q].cell.count
                               && (q != p ==> now == s.processes[q])
            case Announce(p, reached) =>
              var sent := Event(s.processes[p].cell.pid, s.processes[p].cell.count + 1, s.processes[p].cell.entry);
              && now.cell == (if q == p then s.processes[p].cell.(count := s.processes[p].cell.count + 1)
                              else s.processes[q].cell)
              && |now.inbox| == |s.processes[q].inbox| + (if q in reached then 1 else 0)
              && s.processes[q].inbox <= now.inbox
              && (q in reached ==> now.inbox[|now.inbox| - 1].event == sent)
            case Hear(p) =>
              if q != p then now == s.processes[q]
              else
                var first := s.processes[p].inbox[0].event;
                && now.inbox == s.processes[p].inbox[1..] && now.cell.pid == s.processes[p].cell.pid
                && (if first.pid == now.cell.pid then now.cell == s.processes[p].cell
                    else now.cell.entry == first.entry && now.cell.count == first.count)
  {}
}
