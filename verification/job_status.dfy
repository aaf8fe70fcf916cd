/**
 A scheduled job's status across processes (backend/app/jobs/scheduler.py): the
 worker announces each change over a broadcast that may lose it
 (backend/app/core/pg_notify.py), the API folds in what arrives, and a requested
 run waits for an answer. One job; the others are independent of it.
 */
module JobStatus {
  import opened Options

  datatype Phase = Idle | Disabled | Running | Succeeded | Failed
  datatype Entry = Entry(phase: Phase, lastRun: Option<int>, error: Option<string>)
  /** What a process holds of the job: its entry and the number of announcements it knows of. */
  datatype Cell = Cell(pid: nat, entry: Entry, count: nat)
  datatype Event = Event(pid: nat, count: nat, entry: Entry)

  const NOTHING_YET := Entry(Idle, None, None)

  /** The marks a guarded run makes; `failure` is the exception's text. */
  datatype Mark = MarkDisabled | MarkRunning(now: int) | MarkOk | MarkError(failure: string)

  function Marked(c: Cell, m: Mark): Cell {
    c.(entry := match m
                case MarkDisabled => c.entry.(phase := Disabled)
                case MarkRunning(now) => Entry(Running, Some(now), None)
                case MarkOk => c.entry.(phase := Succeeded, error := None)
                case MarkError(failure) => c.entry.(phase := Failed, error := Some(failure)))
  }

  /** An announcement: the process counts it, whether or not anybody hears it. */
  function Announced(c: Cell): (Cell, Event) {
    (c.(count := c.count + 1), Event(c.pid, c.count + 1, c.entry))
  }

  function Applied(c: Cell, e: Event): Cell {
    if e.pid == c.pid then c else Cell(c.pid, e.entry, e.count)
  }

  function AllApplied(c: Cell, events: seq<Event>): Cell {
    if events == [] then c else Applied(AllApplied(c, events[..|events| - 1]), events[|events| - 1])
  }

  /** What a waiter takes for an answer: a new count, and a job that is not running. */
  predicate Settled(c: Cell, before: nat) { c.count != before && c.entry.phase != Running }

  class Job {
    const pid: nat
    var entry: Entry
    var count: nat

    function Value(): Cell
      reads this
    {
      Cell(pid, entry, count)
    }

    constructor (pid: nat)
      ensures Value() == Cell(pid, NOTHING_YET, 0)
    {
      this.pid, entry, count := pid, NOTHING_YET, 0;
    }

    method MarkAs(m: Mark)
      modifies this
      ensures Value() == Marked(old(Value()), m)
    {
      match m {
        case MarkDisabled => entry := entry.(phase := Disabled);
        case MarkRunning(now) => entry := Entry(Running, Some(now), None);
        case MarkOk => entry := entry.(phase := Succeeded, error := None);
        case MarkError(failure) => entry := entry.(phase := Failed, error := Some(failure));
      }
    }

    method Announce() returns (e: Event)
      modifies this
      ensures (Value(), e) == Announced(old(Value()))
    {
      count := count + 1;
      e := Event(pid, count, entry);
    }

    method ApplyEvent(e: Event)
      modifies this
      ensures Value() == Applied(old(Value()), e)
    {
      if e.pid == pid { return; }
      entry := e.entry;
      count := e.count;
    }

    /** One guarded run: what it announces, and the entry it leaves. */
    method RunGuarded(enabled: bool, now: int, failure: Option<string>) returns (announced: seq<Event>)
      modifies this
      ensures !enabled ==> announced == [Event(pid, old(count) + 1, old(entry).(phase := Disabled))]
      ensures enabled ==> announced == [Event(pid, old(count) + 1, Entry(Running, Some(now), None)),
                                        Event(pid, old(count) + 2, entry)]
      ensures enabled ==> entry == Entry(if failure.Some? then Failed else Succeeded, Some(now), failure)
      ensures count == old(count) + |announced|
    {
      if !enabled {
        MarkAs(MarkDisabled);
        var only := Announce();
        return [only];
      }
      MarkAs(MarkRunning(now));
      var first := Announce();
      if failure.Some? { MarkAs(MarkError(failure.value)); } else { MarkAs(MarkOk); }
      var last := Announce();
      announced := [first, last];
    }

    /** Wait for a requested run: `arrivals[i]` are the events that arrive during the i-th sleep before
        the deadline. `slept` tells how many sleeps it took. */
    method WaitForRun(arrivals: seq<seq<Event>>) returns (slept: nat, answered: bool)
      modifies this
      ensures slept <= |arrivals|
      ensures Value() == AllApplied(old(Value()), Joined(arrivals[..slept]))
      ensures answered ==> Settled(Value(), old(count)) && exists e | e in Joined(arrivals[..slept]) :: e.pid != pid
      ensures !answered ==> slept == |arrivals|
      ensures forall k | 0 <= k < slept :: !Settled(AllApplied(old(Value()), Joined(arrivals[..k])), old(count))
    {
      var before := count;
      slept, answered := 0, false;
      while slept < |arrivals|
        invariant slept <= |arrivals| && !answered
        invariant Value() == AllApplied(old(Value()), Joined(arrivals[..slept]))
        invariant forall k | 0 <= k < slept :: !Settled(AllApplied(old(Value()), Joined(arrivals[..k])), before)
        decreases |arrivals| - slept
      {
        if count != before && entry.phase != Running {
          OnlyOthersCount(old(Value()), Joined(arrivals[..slept]));
          return slept, true;
        }
        ghost var was := Joined(arrivals[..slept]);
        assert was + arrivals[slept][..0] == was;
        for i := 0 to |arrivals[slept]|
          invariant Value() == AllApplied(old(Value()), was + arrivals[slept][..i])
        {
          ApplyEvent(arrivals[slept][i]);
          OneMoreEvent(old(Value()), was, arrivals[slept], i);
        }
        assert arrivals[slept][..|arrivals[slept]|] == arrivals[slept];
        assert arrivals[..slept + 1][..slept] == arrivals[..slept];
        slept := slept + 1;
      }
    }
  }

  function Joined(batches: seq<seq<Event>>): seq<Event> {
    if batches == [] then [] else Joined(batches[..|batches| - 1]) + batches[|batches| - 1]
  }

  lemma OneMoreEvent(c: Cell, was: seq<Event>, batch: seq<Event>, i: nat)
    requires i < |batch|
    ensures AllApplied(c, was + batch[..i + 1]) == Applied(AllApplied(c, was + batch[..i]), batch[i])
  {
    assert (was + batch[..i + 1])[..|was| + i] == was + batch[..i];
  }

  // -------------------------------------------------------------------- laws

  /** A process's own echo is never news, and its process id never changes. */
  lemma {:induction false} OnlyOthersCount(c: Cell, events: seq<Event>)
    ensures AllApplied(c, events).pid == c.pid
    ensures (forall e | e in events :: e.pid == c.pid) ==> AllApplied(c, events) == c
  {
    if events != [] {
      var front, last := events[..|events| - 1], events[|events| - 1];
      OnlyOthersCount(c, front);
      assert events == front + [last];
    }
  }

  /** After any events the entry and count are those of the last one from another process, or what
      they were: no field is ever a mixture. */
  lemma {:induction false} LatestWins(c: Cell, events: seq<Event>)
    ensures (forall e | e in events :: e.pid == c.pid) ==> AllApplied(c, events) == c
    ensures (exists e | e in events :: e.pid != c.pid) ==>
              exists k ::
                IsLatest(c, events, k) && AllApplied(c, events) == Cell(c.pid, events[k].entry, events[k].count)
  {
    OnlyOthersCount(c, events);
    if events != [] {
      var front, last := events[..|events| - 1], events[|events| - 1];
      LatestWins(c, front);
      OnlyOthersCount(c, front);
      assert events == front + [last];
      if last.pid != c.pid {
        assert IsLatest(c, events, |front|);
      } else if exists e :: e in events && e.pid != c.pid {
        var k :| IsLatest(c, front, k) && AllApplied(c, front) == Cell(c.pid, front[k].entry, front[k].count);
        assert IsLatest(c, events, k);
      }
    }
  }

  predicate IsLatest(c: Cell, events: seq<Event>, k: int) {
    0 <= k < |events| && events[k].pid != c.pid && forall j | k < j < |events| :: events[j].pid == c.pid
  }

  /** A finished run whose two announcements arrive is taken for an answer exactly when its last count
      differs from the one remembered: it is missed when the worker, started again since, happens to
      reach that count with this run. */
  lemma FinishedRunIsSeen(api: Cell, worker: Cell, now: int, failure: Option<string>)
    requires api.pid != worker.pid
    ensures var ended := Entry(if failure.Some? then Failed else Succeeded, Some(now), failure);
            var after := AllApplied(api, [Event(worker.pid, worker.count + 1, Entry(Running, Some(now), None)),
                                          Event(worker.pid, worker.count + 2, ended)]);
            after.entry == ended && (Settled(after, api.count) <==> api.count != worker.count + 2)
  {
    var ended := Entry(if failure.Some? then Failed else Succeeded, Some(now), failure);
    var events := [Event(worker.pid, worker.count + 1, Entry(Running, Some(now), None)),
                   Event(worker.pid, worker.count + 2, ended)];
    assert events[..1] == [events[0]] && events[..1][..0] == [];
    assert AllApplied(api, events[..1]) == Applied(api, events[0]);
  }

  /** A worker that has run the job once, started again and asked to run it once more: both
      announcements arrive and the waiter still waits. */
  lemma RestartHidesARun(api: Cell, restarted: nat, now: int, failure: Option<string>)
    requires api.count == 2 && api.pid != restarted
    ensures var ended := Entry(if failure.Some? then Failed else Succeeded, Some(now), failure);
            !Settled(AllApplied(api, [Event(restarted, 1, Entry(Running, Some(now), None)),
                                      Event(restarted, 2, ended)]), api.count)
  {
    FinishedRunIsSeen(api, Cell(restarted, NOTHING_YET, 0), now, failure);
  }
}
