/**
 The Directory's two sweeps and the probe lane between them
 (backend/app/jobs/discover_probe.py, backend/app/jobs/directory_harvest.py),
 as steps that interleave with the lane's consumers: claims, lapsed visibility
 timeouts, verdicts, archived and put-back messages.
 */
module DiscoverLane {
  import opened Options

  const BATCH_SIZE := 600
  const CEILING := 3000

  /** A consumer at work on a message it has claimed. */
  datatype Holder = Holder(id: nat, handle: string)

  /** Where a probe sweep is while it holds its lock: it has seen the lane empty, or has read a batch. */
  datatype ProbeSweep = ProbeIdle | SawEmpty | HasRead(handles: seq<string>)
  /** A harvest sweep holding its lock has read the backlog; `grown` is what others queued since. */
  datatype HarvestSweep = HarvestIdle | HasPending(pending: nat, grown: nat)

  /** `pending` and `answered` are the Directory's handles without a verdict and with one. `lane` is
      every message due or in flight, `hidden` the claimed ones. */
  datatype State = State(
    pending: set<string>, answered: set<string>, lane: map<nat, string>, hidden: set<nat>,
    running: seq<Holder>, nextId: nat, probe: ProbeSweep, harvest: HarvestSweep)

  const START := State({}, {}, map[], {}, [], 0, ProbeIdle, HarvestIdle)

  /** `OthersQueue` is a report, a paste or a recheck making handles pending; `OthersAnswer` is a sync
      bringing verdicts of its own. */
  datatype Step =
    | ProbeLook
    | ProbeRead(handles: seq<string>)
    | ProbeEnqueue
    | ProbeStop
    | HarvestLook
    | HarvestQueue(unknown: set<string>)
    | HarvestStop
    | OthersQueue(named: set<string>)
    | OthersAnswer(named: set<string>)
    | Claim(id: nat)
    | Lapse(id: nat)
    | Verdict(holder: nat, conclusive: bool)
    | Archive(holder: nat)
    | PutBack(holder: nat)
    | Crash(holder: nat)

  predicate NoRepeats(handles: seq<string>) { forall i, j | 0 <= i < j < |handles| :: handles[i] != handles[j] }

  predicate Enabled(s: State, step: Step) {
    match step
    case ProbeLook => s.probe.ProbeIdle?
    case ProbeRead(handles) =>
      && s.probe.SawEmpty? && NoRepeats(handles) && |handles| <= BATCH_SIZE
      && forall i | 0 <= i < |handles| :: handles[i] in s.pending + s.answered
    case ProbeEnqueue => s.probe.HasRead?
    case ProbeStop => true
    case HarvestLook => s.harvest.HarvestIdle?
    case HarvestQueue(unknown) =>
      s.harvest.HasPending? && unknown !! s.pending + s.answered && s.harvest.pending + |unknown| <= CEILING
    case HarvestStop => true
    case OthersQueue(_) => true
    case OthersAnswer(_) => true
    case Claim(id) => id in s.lane && id !in s.hidden
    case Lapse(id) => id in s.hidden
    case Verdict(holder, _) => holder < |s.running|
    case Archive(holder) => holder < |s.running|
    case PutBack(holder) => holder < |s.running|
    case Crash(holder) => holder < |s.running|
  }

  function Without(running: seq<Holder>, i: nat): seq<Holder>
    requires i < |running|
  {
    running[..i] + running[i + 1..]
  }

  /** One message for each handle, numbered from `id`. */
  function Sent(handles: seq<string>, id: nat): map<nat, string> {
    if handles == [] then map[]
    else Sent(handles[..|handles| - 1], id)[id + |handles| - 1 := handles[|handles| - 1]]
  }

  function Next(s: State, step: Step): State
    requires Enabled(s, step)
  {
    match step
    case ProbeLook => if s.lane == map[] then s.(probe := SawEmpty) else s
    case ProbeRead(handles) => s.(probe := if handles == [] then ProbeIdle else HasRead(handles))
    case ProbeEnqueue =>
      s.(lane := s.lane + Sent(s.probe.handles, s.nextId), nextId := s.nextId + |s.probe.handles|, probe := ProbeIdle)
    case ProbeStop => s.(probe := ProbeIdle)
    case HarvestLook => if |s.pending| >= CEILING then s else s.(harvest := HasPending(|s.pending|, 0))
    case HarvestQueue(unknown) => s.(pending := s.pending + unknown, harvest := HarvestIdle)
    case HarvestStop => s.(harvest := HarvestIdle)
    case OthersQueue(named) =>
      var more := named - s.pending;
      s.(pending := s.pending + more, answered := s.answered - more,
         harvest := if s.harvest.HasPending? then s.harvest.(grown := s.harvest.grown + |more|) else s.harvest)
    case OthersAnswer(named) => s.(pending := s.pending - named, answered := s.answered + named)
    case Claim(id) => s.(hidden := s.hidden + {id}, running := s.running + [Holder(id, s.lane[id])])
    case Lapse(id) => s.(hidden := s.hidden - {id})
    case Verdict(holder, conclusive) =>
      var h := s.running[holder].handle;
      if conclusive then s.(pending := s.pending - {h}, answered := s.answered + {h})
      else if h in s.answered then s else s.(pending := s.pending + {h})
    case Archive(holder) =>
      var id := s.running[holder].id;
      s.(lane := s.lane - {id}, hidden := s.hidden - {id}, running := Without(s.running, holder))
    case PutBack(holder) =>
      var id := s.running[holder].id;
      s.(lane := (s.lane - {id})[s.nextId := s.running[holder].handle], hidden := s.hidden - {id},
         nextId := s.nextId + 1, running := Without(s.running, holder))
    case Crash(holder) => s.(running := Without(s.running, holder))
  }

  // ------------------------------------------------------------------- runs

  function After(steps: seq<Step>): Option<State>
    decreases |steps|
  {
    if steps == [] then Some(START)
    else
      var n := |steps| - 1;
      var before := After(steps[..n]);
      if before.None? || !Enabled(before.value, steps[n]) then None else Some(Next(before.value, steps[n]))
  }

  /** What the lane promises: no handle on it twice, and no more than a batch. */
  predicate Kept(lane: map<nat, string>) { NoHandleTwice(lane) && |lane| <= BATCH_SIZE }

  predicate NoHandleTwice(lane: map<nat, string>) {
    forall a, b | a in lane && b in lane && lane[a] == lane[b] :: a == b
  }

  /** There is room on the lane for what a sweep in progress may still enqueue. */
  predicate SweepFits(s: State) {
    match s.probe
    case ProbeIdle => true
    case SawEmpty => s.lane == map[]
    case HasRead(handles) =>
      && NoRepeats(handles) && |s.lane| + |handles| <= BATCH_SIZE
      && forall i | 0 <= i < |handles| :: handles[i] !in s.lane.Values
  }

  predicate LaneInv(s: State) {
    && (forall m | m in s.lane :: m < s.nextId)
    && Kept(s.lane) && SweepFits(s)
    && (forall i | 0 <= i < |s.running| :: HolderOk(s, s.running[i]))
  }

  predicate HolderOk(s: State, h: Holder) { h.id < s.nextId && (h.id in s.lane ==> s.lane[h.id] == h.handle) }

  /** When a put-back does no harm: its message is still on the lane, or there is room for the handle
      on the lane and beside what a sweep in progress has read. */
  predicate Harmless(s: State, holder: nat)
    requires holder < |s.running|
  {
    var h := s.running[holder];
    || h.id in s.lane
    || (h.handle !in s.lane.Values && |s.lane| < BATCH_SIZE
        && match s.probe
           case ProbeIdle => true
           case SawEmpty => false
           case HasRead(handles) => h.handle !in handles && |s.lane| + |handles| < BATCH_SIZE)
  }

  predicate HarmlessStep(s: State, step: Step)
    requires Enabled(s, step)
  {
    step.PutBack? ==> Harmless(s, step.holder)
  }

  predicate PutBacksHarmless(steps: seq<Step>)
    requires After(steps).Some?
    decreases |steps|
  {
    steps != [] ==>
      var n := |steps| - 1;
      PutBacksHarmless(steps[..n]) && HarmlessStep(After(steps[..n]).value, steps[n])
  }

  lemma {:induction false} SentIs(handles: seq<string>, id: nat)
    ensures |Sent(handles, id)| == |handles|
    ensures forall m :: m in Sent(handles, id) <==> id <= m < id + |handles|
    ensures forall m | m in Sent(handles, id) :: Sent(handles, id)[m] == handles[m - id]
  {
    if handles != [] { SentIs(handles[..|handles| - 1], id); }
  }

  lemma LaneKeeps(s: State, step: Step)
    requires LaneInv(s) && Enabled(s, step) && HarmlessStep(s, step)
    ensures LaneInv(Next(s, step))
  {
    match step
    case ProbeEnqueue => EnqueueKeeps(s);
    case PutBack(holder) => PutBackKeepsExactly(s, holder);
    case Archive(holder) => ArchiveKeeps(s, holder);
    case Claim(_) | Crash(_) => ConsumersKeep(s, step);
    case _ =>
  }

  lemma ConsumersKeep(s: State, step: Step)
    requires LaneInv(s) && Enabled(s, step) && (step.Claim? || step.Crash?)
    ensures LaneInv(Next(s, step))
  {
    if step.Crash? { WithoutOne(s.running, step.holder); }
  }

  lemma ArchiveKeeps(s: State, holder: nat)
    requires LaneInv(s) && holder < |s.running|
    ensures LaneInv(Next(s, Archive(holder)))
  {
    Shrinks(s.lane, s.running[holder].id);
    WithoutOne(s.running, holder);
  }

  lemma Shrinks(lane: map<nat, string>, id: nat)
    ensures |lane - {id}| == |lane| - if id in lane then 1 else 0
  {
    assert (lane - {id}).Keys == lane.Keys - {id};
    assert |lane.Keys| == |lane| && |(lane - {id}).Keys| == |lane - {id}|;
  }

  lemma EnqueueKeeps(s: State)
    requires LaneInv(s) && s.probe.HasRead?
    ensures LaneInv(Next(s, ProbeEnqueue))
  {
    SentIs(s.probe.handles, s.nextId);
    AddedSize(s.lane, Sent(s.probe.handles, s.nextId));
    SentOnce(s.lane, s.probe.handles, s.nextId);
    EnqueueIds(s, Sent(s.probe.handles, s.nextId), Next(s, ProbeEnqueue));
  }

  lemma EnqueueIds(s: State, sent: map<nat, string>, after: State)
    requires LaneInv(s) && after.running == s.running && after.lane == s.lane + sent && after.nextId >= s.nextId
    requires forall m | m in sent :: s.nextId <= m < after.nextId
    ensures (forall m | m in after.lane :: m < after.nextId)
    ensures forall i | 0 <= i < |after.running| :: HolderOk(after, after.running[i])
  {
    forall i | 0 <= i < |after.running| ensures HolderOk(after, after.running[i]) {
      assert HolderOk(s, s.running[i]);
    }
  }

  lemma SentOnce(lane: map<nat, string>, handles: seq<string>, id: nat)
    requires NoHandleTwice(lane) && NoRepeats(handles) && forall m | m in lane :: m < id
    requires forall i | 0 <= i < |handles| :: handles[i] !in lane.Values
    ensures NoHandleTwice(lane + Sent(handles, id))
  {
    var sent := Sent(handles, id);
    SentIs(handles, id);
    assert NoHandleTwice(sent);
    forall a, b | a in lane && b in sent ensures lane[a] != sent[b] {
      assert lane[a] in lane.Values && sent[b] == handles[b - id];
    }
    TwoLanes(lane, sent);
  }

  lemma TwoLanes(lane: map<nat, string>, more: map<nat, string>)
    requires NoHandleTwice(lane) && NoHandleTwice(more)
    requires forall a, b | a in lane && b in more :: a != b && lane[a] != more[b]
    ensures NoHandleTwice(lane + more)
  {}

  lemma AddedSize(lane: map<nat, string>, more: map<nat, string>)
    requires forall m | m in lane :: m !in more
    ensures |lane + more| == |lane| + |more|
  {
    assert (lane + more).Keys == lane.Keys + more.Keys && lane.Keys !! more.Keys;
    assert |lane.Keys + more.Keys| == |lane.Keys| + |more.Keys|;
    assert |lane.Keys| == |lane| && |more.Keys| == |more| && |(lane + more).Keys| == |lane + more|;
  }

  /** A put-back leaves the lane as it should be exactly when it is harmless. */
  lemma PutBackKeepsExactly(s: State, holder: nat)
    requires LaneInv(s) && holder < |s.running|
    ensures LaneInv(Next(s, PutBack(holder))) <==> Harmless(s, holder)
  {
    WithoutOne(s.running, holder);
    if s.running[holder].id in s.lane { TimelyPutBack(s, holder); } else { LatePutBack(s, holder); }
  }

  lemma HoldersAfter(s: State, holder: nat)
    requires LaneInv(s) && holder < |s.running|
    ensures var after := Next(s, PutBack(holder));
            (forall m | m in after.lane :: m < after.nextId)
            && forall i | 0 <= i < |after.running| :: HolderOk(after, after.running[i])
  {
    WithoutOne(s.running, holder);
    var after := Next(s, PutBack(holder));
    forall i | 0 <= i < |after.running| ensures HolderOk(after, after.running[i]) {
      var h := s.running[if i < holder then i else i + 1];
      assert after.running[i] == h && HolderOk(s, h);
    }
  }

  /** The handle is sent again in the old message's place. */
  lemma TimelyPutBack(s: State, holder: nat)
    requires LaneInv(s) && holder < |s.running| && s.running[holder].id in s.lane
    ensures LaneInv(Next(s, PutBack(holder)))
  {
    var h := s.running[holder];
    HoldersAfter(s, holder);
    Resent(s.lane, h.id, s.nextId);
    assert HolderOk(s, h) && s.lane != map[];
  }

  lemma Resent(lane: map<nat, string>, id: nat, next: nat)
    requires id in lane && Kept(lane) && forall m | m in lane :: m < next
    ensures var after := (lane - {id})[next := lane[id]];
            Kept(after) && |after| == |lane| && after.Values <= lane.Values
  {
    var kept := lane - {id};
    Shrinks(lane, id);
    assert forall m | m in kept :: kept[m] == lane[m] && lane[m] != lane[id];
    assert lane[id] !in kept.Values;
    OneMessageMore(kept, next, lane[id]);
  }

  lemma OneMessageMore(lane: map<nat, string>, id: nat, handle: string)
    requires id !in lane && Kept(lane)
    ensures |lane[id := handle]| == |lane| + 1
    ensures forall v :: v in lane[id := handle].Values <==> v in lane.Values || v == handle
    ensures Kept(lane[id := handle]) <==> handle !in lane.Values && |lane| < BATCH_SIZE
  {
    AddedSize(lane, map[id := handle]);
    assert lane[id := handle] == lane + map[id := handle];
    OneValueMore(lane, id, handle);
    if handle in lane.Values { HandleTwice(lane, id, handle); } else { HandleOnce(lane, id, handle); }
  }

  lemma OneValueMore(lane: map<nat, string>, id: nat, handle: string)
    requires id !in lane
    ensures forall v :: v in lane[id := handle].Values <==> v in lane.Values || v == handle
  {
    var after := lane[id := handle];
    assert id in after && after[id] == handle;
    forall v | v in lane.Values ensures v in after.Values {
      var m :| m in lane && lane[m] == v;
      assert m in after && after[m] == v;
    }
  }

  lemma HandleTwice(lane: map<nat, string>, id: nat, handle: string)
    requires id !in lane && handle in lane.Values
    ensures !NoHandleTwice(lane[id := handle])
  {
    var m :| m in lane && lane[m] == handle;
    var after := lane[id := handle];
    assert m in after && id in after && after[m] == after[id];
  }

  lemma HandleOnce(lane: map<nat, string>, id: nat, handle: string)
    requires id !in lane && handle !in lane.Values && NoHandleTwice(lane)
    ensures NoHandleTwice(lane[id := handle])
  {
    assert forall m | m in lane :: lane[m] in lane.Values;
  }

  /** The handle is sent again though nothing was taken off for it. */
  lemma LatePutBack(s: State, holder: nat)
    requires LaneInv(s) && holder < |s.running| && s.running[holder].id !in s.lane
    ensures Next(s, PutBack(holder)).lane == s.lane[s.nextId := s.running[holder].handle]
    ensures LaneInv(Next(s, PutBack(holder))) <==> Harmless(s, holder)
  {
    assert s.lane - {s.running[holder].id} == s.lane;
    OneMessageMore(s.lane, s.nextId, s.running[holder].handle);
    LateSweepFits(s, holder);
    HoldersAfter(s, holder);
  }

  lemma LateSweepFits(s: State, holder: nat)
    requires LaneInv(s) && holder < |s.running| && s.running[holder].id !in s.lane
    ensures var h := s.running[holder].handle;
            SweepFits(Next(s, PutBack(holder))) <==>
              match s.probe
              case ProbeIdle => true
              case SawEmpty => false
              case HasRead(handles) => h !in handles && |s.lane| + |handles| < BATCH_SIZE
  {
    var h := s.running[holder].handle;
    assert s.lane - {s.running[holder].id} == s.lane;
    OneMessageMore(s.lane, s.nextId, h);
    if s.probe.HasRead? && h in s.probe.handles {
      var i :| 0 <= i < |s.probe.handles| && s.probe.handles[i] == h;
    }
  }

  /** In every interleaving whose put-backs are harmless, the probe lane never holds a handle twice and
      never more than one batch, and has room for what a sweep in progress is about to enqueue. */
  lemma {:induction false} LaneAlways(steps: seq<Step>)
    requires After(steps).Some? && PutBacksHarmless(steps)
    ensures LaneInv(After(steps).value)
    decreases |steps|
  {
    if steps != [] {
      LaneAlways(steps[..|steps| - 1]);
      LaneKeeps(After(steps[..|steps| - 1]).value, steps[|steps| - 1]);
    }
  }

  lemma OneMore(steps: seq<Step>, step: Step)
    requires After(steps).Some? && Enabled(After(steps).value, step)
    ensures After(steps + [step]) == Some(Next(After(steps).value, step))
  {
    assert (steps + [step])[..|steps|] == steps;
  }

  /** So a message whose timeout lapsed under its holder can come back twice: after any run that
      leaves a message waiting and nobody at work, one that is claimed, lapses, is claimed again and
      is put back by both. */
  lemma LapsedMessageComesBackTwice(steps: seq<Step>, id: nat)
    requires After(steps).Some? && LaneInv(After(steps).value)
    requires var s := After(steps).value; s.running == [] && id in s.lane && id !in s.hidden
    ensures var run := steps + [Claim(id)] + [Lapse(id)] + [Claim(id)] + [PutBack(0)] + [PutBack(0)];
            After(run).Some? && !NoHandleTwice(After(run).value.lane)
  {
    var s := After(steps).value;
    BothPutBack(s, id);
    var a := Next(s, Claim(id));
    var b := Next(a, Lapse(id));
    var c := Next(b, Claim(id));
    OneMore(steps, Claim(id));
    OneMore(steps + [Claim(id)], Lapse(id));
    OneMore(steps + [Claim(id)] + [Lapse(id)], Claim(id));
    OneMore(steps + [Claim(id)] + [Lapse(id)] + [Claim(id)], PutBack(0));
    OneMore(steps + [Claim(id)] + [Lapse(id)] + [Claim(id)] + [PutBack(0)], PutBack(0));
  }

  lemma BothPutBack(s: State, id: nat)
    requires LaneInv(s) && s.running == [] && id in s.lane && id !in s.hidden
    ensures var c := Next(Next(Next(s, Claim(id)), Lapse(id)), Claim(id));
            Enabled(c, PutBack(0)) && Enabled(Next(c, PutBack(0)), PutBack(0))
            && !NoHandleTwice(Next(Next(c, PutBack(0)), PutBack(0)).lane)
  {
    var h := Holder(id, s.lane[id]);
    var c := Next(Next(Next(s, Claim(id)), Lapse(id)), Claim(id));
    assert c.running == [h, h] && c.lane == s.lane && c.nextId == s.nextId;
    PutBackFirst(c, [h], h);
    PutBackSecond(Next(c, PutBack(0)), h);
  }

  lemma PutBackFirst(s: State, rest: seq<Holder>, h: Holder)
    requires s.running == [h] + rest
    ensures var after := Next(s, PutBack(0));
            after.running == rest && after.nextId == s.nextId + 1 && s.nextId in after.lane
              && after.lane[s.nextId] == h.handle
  {
    assert Without([h] + rest, 0) == rest;
  }

  lemma PutBackSecond(s: State, h: Holder)
    requires s.running == [h] && s.nextId > 0 && s.nextId - 1 in s.lane && s.lane[s.nextId - 1] == h.handle
             && h.id < s.nextId - 1
    ensures !NoHandleTwice(Next(s, PutBack(0)).lane)
  {
    var after := Next(s, PutBack(0)).lane;
    assert s.nextId in after && s.nextId - 1 in after && after[s.nextId] == after[s.nextId - 1];
  }

  // ------------------------------------------------------- exactly when it holds

  predicate SweepOnly(steps: seq<Step>) { forall i | 0 <= i < |steps| :: steps[i].ProbeRead? || steps[i].ProbeEnqueue? }

  /** After every part of the run, and however a probe sweep then goes on, the lane keeps its promise. */
  ghost predicate AlwaysKept(steps: seq<Step>) {
    forall n, more: seq<Step> | 0 <= n <= |steps| && SweepOnly(more) && After(steps[..n] + more).Some? ::
      Kept(After(steps[..n] + more).value.lane)
  }

  /** A put-back that is not harmless breaks the promise at once, or as soon as a sweep goes on. */
  lemma HarmfulPutBackBreaks(steps: seq<Step>, holder: nat)
    requires After(steps).Some? && LaneInv(After(steps).value)
    requires holder < |After(steps).value.running| && !Harmless(After(steps).value, holder)
    ensures exists more ::
              SweepOnly(more) && After(steps + [PutBack(holder)] + more).Some?
              && !Kept(After(steps + [PutBack(holder)] + more).value.lane)
  {
    var s := After(steps).value;
    var run := steps + [PutBack(holder)];
    OneMore(steps, PutBack(holder));
    LatePutBack(s, holder);
    OneMessageMore(s.lane, s.nextId, s.running[holder].handle);
    BacklogAlways(run);
    BacklogAlways(steps);
    var after := Next(s, PutBack(holder));
    if !Kept(after.lane) {
      assert run + [] == run && SweepOnly([]);
    } else if s.probe.SawEmpty? {
      SeenEmptyBreaks(run, s.nextId, s.running[holder].handle);
    } else {
      ReadBreaks(run, s.nextId);
    }
  }

  /** A sweep that saw the lane empty may read any handle the Directory knows. */
  lemma SeenEmptyBreaks(run: seq<Step>, id: nat, handle: string)
    requires After(run).Some? && BacklogInv(After(run).value)
    requires var s := After(run).value; s.probe.SawEmpty? && id in s.lane && s.lane[id] == handle && id < s.nextId
    ensures var more := [ProbeRead([handle]), ProbeEnqueue];
            SweepOnly(more) && After(run + more).Some? && !Kept(After(run + more).value.lane)
  {
    var s := After(run).value;
    assert Known(s, handle);
    OneMore(run, ProbeRead([handle]));
    OneMore(run + [ProbeRead([handle])], ProbeEnqueue);
    TwoInTurn(run, ProbeRead([handle]), ProbeEnqueue);
    HandleSentTwice(s.lane, handle, s.nextId, id);
  }

  lemma TwoInTurn(run: seq<Step>, first: Step, second: Step)
    ensures run + [first] + [second] == run + [first, second]
  {}

  lemma HandleSentTwice(lane: map<nat, string>, handle: string, next: nat, id: nat)
    requires id in lane && lane[id] == handle && id < next
    ensures !Kept(lane + Sent([handle], next))
  {
    SentIs([handle], next);
    var after := lane + Sent([handle], next);
    assert after[id] == after[next] == handle;
  }

  /** A sweep that has read a batch enqueues it whatever has come onto the lane since. */
  lemma ReadBreaks(run: seq<Step>, id: nat)
    requires After(run).Some?
    requires var s := After(run).value;
             && s.probe.HasRead? && id in s.lane && id < s.nextId && (forall m | m in s.lane :: m < s.nextId)
             && (s.lane[id] in s.probe.handles || |s.lane| + |s.probe.handles| > BATCH_SIZE)
    ensures var more := [ProbeEnqueue];
            SweepOnly(more) && After(run + more).Some? && !Kept(After(run + more).value.lane)
  {
    var s := After(run).value;
    OneMore(run, ProbeEnqueue);
    SentBreaks(s.lane, s.probe.handles, s.nextId, id);
  }

  /** What is sent onto a lane that holds one of the handles, or has no room for them all. */
  lemma SentBreaks(lane: map<nat, string>, handles: seq<string>, next: nat, id: nat)
    requires id in lane && (forall m | m in lane :: m < next)
    requires lane[id] in handles || |lane| + |handles| > BATCH_SIZE
    ensures !Kept(lane + Sent(handles, next))
  {
    var sent := Sent(handles, next);
    SentIs(handles, next);
    AddedSize(lane, sent);
    if lane[id] in handles {
      var i :| 0 <= i < |handles| && handles[i] == lane[id];
      assert next + i in sent && sent[next + i] == lane[id];
      assert (lane + sent)[next + i] == (lane + sent)[id];
    }
  }

  /** Over every run the lane keeps its promise, however sweeps go on, if and only if each put-back is
      harmless when it happens. */
  lemma LaneKeptExactly(steps: seq<Step>)
    requires After(steps).Some?
    ensures AlwaysKept(steps) <==> PutBacksHarmless(steps)
  {
    if PutBacksHarmless(steps) {
      forall n, more: seq<Step> | 0 <= n <= |steps| && SweepOnly(more) && After(steps[..n] + more).Some?
        ensures Kept(After(steps[..n] + more).value.lane)
      {
        PrefixHarmless(steps, n);
        SweepIsHarmless(steps[..n], more);
        LaneAlways(steps[..n] + more);
      }
    } else {
      HarmfulSomewhere(steps);
      var n :| 0 <= n < |steps| && HarmfulAt(steps, n);
      LaneAlways(steps[..n]);
      HarmfulIsSeen(steps, n);
    }
  }

  lemma HarmfulIsSeen(steps: seq<Step>, n: nat)
    requires After(steps).Some? && n < |steps| && HarmfulAt(steps, n) && LaneInv(After(steps[..n]).value)
    ensures !AlwaysKept(steps)
  {
    HarmfulPutBackBreaks(steps[..n], steps[n].holder);
    OneLonger(steps, n);
    var more: seq<Step> :|
      && SweepOnly(more) && After(steps[..n + 1] + more).Some?
      && !Kept(After(steps[..n + 1] + more).value.lane);
  }

  lemma OneLonger(steps: seq<Step>, n: nat)
    requires n < |steps|
    ensures steps[..n] + [steps[n]] == steps[..n + 1]
  {}

  lemma {:induction false} PrefixHarmless(steps: seq<Step>, n: nat)
    requires After(steps).Some? && PutBacksHarmless(steps) && n <= |steps|
    ensures After(steps[..n]).Some? && PutBacksHarmless(steps[..n])
    decreases |steps|
  {
    if n == |steps| {
      assert steps[..n] == steps;
    } else {
      PrefixHarmless(steps[..|steps| - 1], n);
      assert steps[..|steps| - 1][..n] == steps[..n];
    }
  }

  lemma {:induction false} SweepIsHarmless(steps: seq<Step>, more: seq<Step>)
    requires After(steps).Some? && PutBacksHarmless(steps) && SweepOnly(more) && After(steps + more).Some?
    ensures PutBacksHarmless(steps + more)
    decreases |more|
  {
    if more == [] {
      assert steps + more == steps;
    } else {
      var front := more[..|more| - 1];
      assert (steps + more)[..|steps + more| - 1] == steps + front;
      assert more[|more| - 1].ProbeRead? || more[|more| - 1].ProbeEnqueue?;
      SweepIsHarmless(steps, front);
    }
  }

  /** The `n`-th step is the first put-back that is not harmless. */
  predicate HarmfulAt(steps: seq<Step>, n: nat) {
    && n < |steps| && steps[n].PutBack? && After(steps[..n]).Some? && PutBacksHarmless(steps[..n])
    && steps[n].holder < |After(steps[..n]).value.running| && !Harmless(After(steps[..n]).value, steps[n].holder)
  }

  lemma {:induction false} HarmfulSomewhere(steps: seq<Step>)
    requires After(steps).Some? && !PutBacksHarmless(steps)
    ensures exists n :: 0 <= n < |steps| && HarmfulAt(steps, n)
    decreases |steps|
  {
    var front := steps[..|steps| - 1];
    if PutBacksHarmless(front) {
      assert HarmfulAt(steps, |steps| - 1);
    } else {
      HarmfulSomewhere(front);
      var n :| 0 <= n < |front| && HarmfulAt(front, n);
      assert front[..n] == steps[..n] && front[n] == steps[n];
      assert HarmfulAt(steps, n);
    }
  }

  lemma Reaches(steps: seq<Step>, s: State, step: Step, t: State)
    requires After(steps) == Some(s) && Enabled(s, step) && Next(s, step) == t
    ensures After(steps + [step]) == Some(t)
  {
    OneMore(steps, step);
  }

  /** One handle queued, read and claimed by two consumers after its timeout lapsed. */
  function ClaimedTwice(handle: string): seq<Step> {
    OneSweep(handle) + [Claim(0)] + [Lapse(0)] + [Claim(0)]
  }

  /** A sweep enqueues a handle others queued. */
  function OneSweep(handle: string): seq<Step> {
    [] + [OthersQueue({handle})] + [ProbeLook] + [ProbeRead([handle])] + [ProbeEnqueue]
  }

  lemma SentReaches(handle: string)
    ensures After(OneSweep(handle))
         == Some(State({handle}, {}, map[0 := handle], {}, [], 1, ProbeIdle, HarvestIdle))
  {
    var queued := State({handle}, {}, map[], {}, [], 0, ProbeIdle, HarvestIdle);
    var sent := State({handle}, {}, map[0 := handle], {}, [], 1, ProbeIdle, HarvestIdle);
    assert [handle][..0] == [] && Sent([handle], 0) == map[0 := handle];
    assert queued.lane + map[0 := handle] == sent.lane;
    var a := [] + [OthersQueue({handle})];
    Reaches([], START, OthersQueue({handle}), queued);
    Reaches(a, queued, ProbeLook, queued.(probe := SawEmpty));
    Reaches(a + [ProbeLook], queued.(probe := SawEmpty), ProbeRead([handle]), queued.(probe := HasRead([handle])));
    Reaches(a + [ProbeLook] + [ProbeRead([handle])], queued.(probe := HasRead([handle])), ProbeEnqueue, sent);
  }

  lemma ClaimedTwiceReaches(handle: string)
    ensures After(ClaimedTwice(handle))
         == Some(State({handle}, {}, map[0 := handle], {0}, [Holder(0, handle), Holder(0, handle)], 1, ProbeIdle,
                       HarvestIdle))
  {
    var h := Holder(0, handle);
    var sent := State({handle}, {}, map[0 := handle], {}, [], 1, ProbeIdle, HarvestIdle);
    var b := OneSweep(handle);
    SentReaches(handle);
    Reaches(b, sent, Claim(0), sent.(hidden := {0}, running := [h]));
    Reaches(b + [Claim(0)], sent.(hidden := {0}, running := [h]), Lapse(0), sent.(running := [h]));
    Reaches(b + [Claim(0)] + [Lapse(0)], sent.(running := [h]), Claim(0), sent.(hidden := {0}, running := [h, h]));
  }

  /** Archived by one of them while a new sweep has read the handle, and put back by the other: it is on
      the lane once, until the sweep enqueues it. */
  lemma PutBackDuringASweep(handle: string)
    ensures var run := ReadAgain(handle) + [PutBack(0)];
            After(run).Some? && Kept(After(run).value.lane)
            && After(run + [ProbeEnqueue]).Some? && !Kept(After(run + [ProbeEnqueue]).value.lane)
  {
    ReadAgainReaches(handle);
    var read := State({handle}, {}, map[], {}, [Holder(0, handle)], 1, HasRead([handle]), HarvestIdle);
    var back := State({handle}, {}, map[1 := handle], {}, [], 2, HasRead([handle]), HarvestIdle);
    assert Without([Holder(0, handle)], 0) == [];
    Reaches(ReadAgain(handle), read, PutBack(0), back);
    ReadBreaks(ReadAgain(handle) + [PutBack(0)], 1);
  }

  function ReadAgain(handle: string): seq<Step> {
    ClaimedTwice(handle) + [Archive(1)] + [ProbeLook] + [ProbeRead([handle])]
  }

  lemma ReadAgainReaches(handle: string)
    ensures After(ReadAgain(handle))
         == Some(State({handle}, {}, map[], {}, [Holder(0, handle)], 1, HasRead([handle]), HarvestIdle))
  {
    ClaimedTwiceReaches(handle);
    var h := Holder(0, handle);
    var c := ClaimedTwice(handle);
    var archived := State({handle}, {}, map[], {}, [h], 1, ProbeIdle, HarvestIdle);
    assert Without([h, h], 1) == [h];
    Reaches(c, After(c).value, Archive(1), archived);
    Reaches(c + [Archive(1)], archived, ProbeLook, archived.(probe := SawEmpty));
    Reaches(c + [Archive(1)] + [ProbeLook], archived.(probe := SawEmpty), ProbeRead([handle]),
            archived.(probe := HasRead([handle])));
  }

  // ----------------------------------------------------------------- backlog

  /** While a harvest sweep goes on, the backlog is at most what it read and what others queued since;
      whoever is at work probes a handle the Directory knows. */
  predicate BacklogInv(s: State) {
    && (s.harvest.HasPending? ==> s.harvest.pending < CEILING && |s.pending| <= s.harvest.pending + s.harvest.grown)
    && (forall m | m in s.lane :: Known(s, s.lane[m]))
    && (forall i | 0 <= i < |s.running| :: Known(s, s.running[i].handle))
    && (s.probe.HasRead? ==> forall i | 0 <= i < |s.probe.handles| :: Known(s, s.probe.handles[i]))
    && s.pending !! s.answered
  }

  predicate Known(s: State, handle: string) { handle in s.pending || handle in s.answered }

  lemma BacklogKeeps(s: State, step: Step)
    requires BacklogInv(s) && Enabled(s, step)
    ensures BacklogInv(Next(s, step))
  {
    match step
    case HarvestLook | HarvestQueue(_) | HarvestStop | OthersQueue(_) | OthersAnswer(_) | Verdict(_, _) =>
      DirectoryStepKeeps(s, step);
    case _ => LaneStepKeeps(s, step);
  }

  /** Steps that leave the lane, its consumers and the probe sweep alone. */
  lemma DirectoryStepKeeps(s: State, step: Step)
    requires BacklogInv(s) && Enabled(s, step)
    requires step.HarvestLook? || step.HarvestQueue? || step.HarvestStop? || step.OthersQueue? || step.OthersAnswer?
             || step.Verdict?
    ensures BacklogInv(Next(s, step))
  {
    var after := Next(s, step);
    assert forall h | Known(s, h) :: Known(after, h);
    match step
    case OthersQueue(named) =>
      var more := named - s.pending;
      assert |s.pending + more| == |s.pending| + |more|;
    case OthersAnswer(named) => FewerPending(s.pending, named);
    case Verdict(holder, conclusive) => VerdictKeeps(s, holder, conclusive);
    case _ =>
  }

  /** Steps that leave the Directory and the harvest alone. */
  lemma LaneStepKeeps(s: State, step: Step)
    requires BacklogInv(s) && Enabled(s, step)
    requires !step.HarvestLook? && !step.HarvestQueue? && !step.HarvestStop? && !step.OthersQueue?
             && !step.OthersAnswer? && !step.Verdict?
    ensures BacklogInv(Next(s, step))
  {
    match step
    case ProbeEnqueue => SentKnown(s);
    case Archive(_) | PutBack(_) | Crash(_) => LeavingKeeps(s, step);
    case _ =>
  }

  lemma SentKnown(s: State)
    requires BacklogInv(s) && s.probe.HasRead?
    ensures BacklogInv(Next(s, ProbeEnqueue))
  {
    SentIs(s.probe.handles, s.nextId);
    var after := Next(s, ProbeEnqueue);
    forall m | m in after.lane ensures Known(after, after.lane[m]) {
      assert m !in s.lane ==> Known(s, s.probe.handles[m - s.nextId]);
    }
    forall i | 0 <= i < |after.running| ensures Known(after, after.running[i].handle) {
      assert Known(s, s.running[i].handle);
    }
  }

  lemma LeavingKeeps(s: State, step: Step)
    requires BacklogInv(s) && Enabled(s, step) && (step.Archive? || step.PutBack? || step.Crash?)
    ensures BacklogInv(Next(s, step))
  {
    WithoutOne(s.running, step.holder);
  }

  lemma WithoutOne(running: seq<Holder>, i: nat)
    requires i < |running|
    ensures forall j | 0 <= j < |Without(running, i)| :: Without(running, i)[j] == running[if j < i then j else j + 1]
  {}

  lemma FewerPending(pending: set<string>, named: set<string>)
    ensures |pending - named| <= |pending|
  {
    assert pending == (pending - named) + (pending * named);
  }

  lemma VerdictKeeps(s: State, holder: nat, conclusive: bool)
    requires BacklogInv(s) && holder < |s.running|
    ensures Next(s, Verdict(holder, conclusive)).pending <= s.pending
    ensures |Next(s, Verdict(holder, conclusive)).pending| <= |s.pending|
    ensures Next(s, Verdict(holder, conclusive)).pending !! Next(s, Verdict(holder, conclusive)).answered
  {
    var h := s.running[holder].handle;
    assert Known(s, h);
    if !conclusive && h in s.pending { assert s.pending + {h} == s.pending; }
    if conclusive && h in s.pending { assert |s.pending - {h}| == |s.pending| - 1; }
    if conclusive && h !in s.pending { assert s.pending - {h} == s.pending; }
  }

  lemma {:induction false} BacklogAlways(steps: seq<Step>)
    requires After(steps).Some?
    ensures BacklogInv(After(steps).value)
    decreases |steps|
  {
    if steps != [] {
      BacklogAlways(steps[..|steps| - 1]);
      BacklogKeeps(After(steps[..|steps| - 1]).value, steps[|steps| - 1]);
    }
  }

  /** Over every run a conclusive verdict answers its handle, which is then pending no more, and changes no other;
      an inconclusive one changes none at all. */
  lemma VerdictsAnswer(steps: seq<Step>, holder: nat, conclusive: bool, handle: string)
    requires After(steps).Some? && Enabled(After(steps).value, Verdict(holder, conclusive))
    ensures var s := After(steps).value; var s' := Next(s, Verdict(holder, conclusive));
            var probed := s.running[holder].handle;
            && (handle in s'.pending <==> handle in s.pending && !(conclusive && handle == probed))
            && (handle in s'.answered <==> handle in s.answered || (conclusive && handle == probed))
  {
    BacklogAlways(steps);
    assert Known(After(steps).value, After(steps).value.running[holder].handle);
  }

  /** What a consumer does to the lane: a claim hides a message and leaves it there; an archive takes it off, a
      put-back puts its handle back under a new number, and a crash does neither. No other message is touched. */
  lemma ConsumersOnTheLane(s: State, step: Step, id: nat)
    requires Enabled(s, step) && (step.Claim? || step.Lapse? || step.Archive? || step.PutBack? || step.Crash?)
    ensures var s' := Next(s, step);
            match step
            case Claim(m) => && s'.lane == s.lane && (id in s'.hidden <==> id in s.hidden || id == m)
                             && s'.running == s.running + [Holder(m, s.lane[m])]
            case Lapse(m) => && s'.lane == s.lane && (id in s'.hidden <==> id in s.hidden && id != m)
                             && s'.running == s.running
            case Archive(h) => && (id in s'.lane <==> id in s.lane && id != s.running[h].id)
                               && (id in s'.lane ==> s'.lane[id] == s.lane[id])
            case PutBack(h) => && (id in s'.lane <==> id == s.nextId || (id in s.lane && id != s.running[h].id))
                               && (id in s'.lane ==>
                                     s'.lane[id] == if id == s.nextId then s.running[h].handle else s.lane[id])
                               && s'.nextId == s.nextId + 1
            case Crash(_) => s'.lane == s.lane && s'.hidden == s.hidden
    ensures step.Archive? || step.PutBack? || step.Crash? ==>
              && |Next(s, step).running| == |s.running| - 1
              && forall i | 0 <= i < |s.running| - 1 ::
                   Next(s, step).running[i] == s.running[if i < step.holder then i else i + 1]
  {}

  /** What a probe sweep does to the lane: it goes on only from an empty one, then sends one message for each handle
      read, in order, and nothing if it is stopped. */
  lemma SweepsOnTheLane(s: State, step: Step)
    requires Enabled(s, step) && (step.ProbeLook? || step.ProbeRead? || step.ProbeEnqueue? || step.ProbeStop?)
    ensures var s' := Next(s, step);
            match step
            case ProbeLook => s'.lane == s.lane && (s'.probe.SawEmpty? <==> s.lane == map[]) && !s'.probe.HasRead?
            case ProbeRead(handles) =>
              s'.lane == s.lane && (s'.probe == HasRead(handles) || (handles == [] && s'.probe.ProbeIdle?))
            case ProbeEnqueue =>
              && s'.probe.ProbeIdle? && s'.nextId == s.nextId + |s.probe.handles|
              && SentOn(s.lane, s'.lane, s.probe.handles, s.nextId)
            case ProbeStop => s'.lane == s.lane && s'.probe.ProbeIdle?
  {
    if step.ProbeEnqueue? { SentOnTheLane(s.lane, s.probe.handles, s.nextId); }
  }

  /** The lane after each of `handles` is sent, numbered from `id`. */
  predicate SentOn(lane: map<nat, string>, after: map<nat, string>, handles: seq<string>, id: nat) {
    && (forall m: nat | id <= m < id + |handles| :: m in after && after[m] == handles[m - id])
    && (forall m: nat | m < id :: (m in after <==> m in lane) && (m in lane ==> after[m] == lane[m]))
  }

  lemma SentOnTheLane(lane: map<nat, string>, handles: seq<string>, id: nat)
    ensures SentOn(lane, lane + Sent(handles, id), handles, id)
  {
    SentIs(handles, id);
  }

  function Max(a: nat, b: nat): nat { if a < b then b else a }

  /** However the harvest tick ends, it takes the backlog no further than the ceiling, or than it was. */
  ghost predicate KeepsTheCeiling(s: State) {
    forall unknown | Enabled(s, HarvestQueue(unknown)) ::
      |Next(s, HarvestQueue(unknown)).pending| <= Max(|s.pending|, CEILING)
  }

  lemma QueuedSize(s: State, unknown: set<string>)
    requires Enabled(s, HarvestQueue(unknown))
    ensures |Next(s, HarvestQueue(unknown)).pending| == |s.pending| + |unknown|
  {
    assert |s.pending + unknown| == |s.pending| + |unknown|;
  }

  lemma {:induction false} LongestOf(known: set<string>) returns (n: nat)
    ensures forall h | h in known :: |h| <= n
  {
    if known == {} {
      n := 0;
    } else {
      var h :| h in known;
      n := LongestOf(known - {h});
      n := Max(n, |h|);
    }
  }

  /** There are always as many handles as one likes that the Directory does not know. */
  lemma {:induction false} UnknownHandles(known: set<string>, n: nat) returns (unknown: set<string>)
    ensures |unknown| == n && unknown !! known
  {
    if n == 0 {
      unknown := {};
    } else {
      unknown := UnknownHandles(known, n - 1);
      var longest := LongestOf(known + unknown);
      var h := seq(longest + 1, _ => 'x');
      assert h !in known && h !in unknown;
      unknown := unknown + {h};
    }
  }

  /** Over every run, a harvest tick that has read the backlog will respect the ceiling, whatever it finds,
      if and only if the backlog is no larger than what it read. */
  lemma HarvestRespectsTheCeiling(steps: seq<Step>)
    requires After(steps).Some? && After(steps).value.harvest.HasPending?
    ensures KeepsTheCeiling(After(steps).value)
       <==> |After(steps).value.pending| <= After(steps).value.harvest.pending
  {
    var s := After(steps).value;
    BacklogAlways(steps);
    forall unknown | Enabled(s, HarvestQueue(unknown))
      ensures |Next(s, HarvestQueue(unknown)).pending| == |s.pending| + |unknown|
    {
      QueuedSize(s, unknown);
    }
    if |s.pending| > s.harvest.pending {
      var unknown := UnknownHandles(s.pending + s.answered, CEILING - s.harvest.pending);
      assert Enabled(s, HarvestQueue(unknown));
    }
  }

  /** It overshoots by no more than the backlog has grown since it was read, and by no more than others have
      queued since; and by that growth it can. */
  lemma OvershootIsTheGrowth(steps: seq<Step>)
    requires After(steps).Some? && After(steps).value.harvest.HasPending?
    ensures var s := After(steps).value;
            forall unknown | Enabled(s, HarvestQueue(unknown)) ::
              |Next(s, HarvestQueue(unknown)).pending| <= CEILING + |s.pending| - s.harvest.pending
    ensures var s := After(steps).value;
            exists unknown :: Enabled(s, HarvestQueue(unknown))
              && |Next(s, HarvestQueue(unknown)).pending| == CEILING + |s.pending| - s.harvest.pending
    ensures var s := After(steps).value; |s.pending| - s.harvest.pending <= s.harvest.grown
  {
    var s := After(steps).value;
    BacklogAlways(steps);
    forall unknown | Enabled(s, HarvestQueue(unknown))
      ensures |Next(s, HarvestQueue(unknown)).pending| <= CEILING + |s.pending| - s.harvest.pending
    {
      QueuedSize(s, unknown);
    }
    var unknown := UnknownHandles(s.pending + s.answered, CEILING - s.harvest.pending);
    assert Enabled(s, HarvestQueue(unknown));
    QueuedSize(s, unknown);
  }

  /** A handle reported between the two steps of a tick takes the backlog past the ceiling. */
  lemma ReportTakesItPastTheCeiling(handle: string) returns (unknown: set<string>)
    ensures var before := After([] + [HarvestLook] + [OthersQueue({handle})]);
            before.Some? && |before.value.pending| == 1
    ensures var end := After([] + [HarvestLook] + [OthersQueue({handle})] + [HarvestQueue(unknown)]);
            end.Some? && |end.value.pending| == CEILING + 1
  {
    unknown := UnknownHandles({handle}, CEILING);
    var looked := START.(harvest := HasPending(0, 0));
    var reported := looked.(pending := {handle}, harvest := HasPending(0, 1));
    assert {handle} - START.pending == {handle};
    Reaches([], START, HarvestLook, looked);
    Reaches([] + [HarvestLook], looked, OthersQueue({handle}), reported);
    OneMore([] + [HarvestLook] + [OthersQueue({handle})], HarvestQueue(unknown));
    QueuedSize(reported, unknown);
  }

  lemma ProbesNeverAddToTheBacklog(steps: seq<Step>, step: Step)
    requires After(steps).Some? && Enabled(After(steps).value, step) && !step.HarvestQueue? && !step.OthersQueue?
    ensures Next(After(steps).value, step).pending <= After(steps).value.pending
  {
    BacklogAlways(steps);
    if step.Verdict? { VerdictKeeps(After(steps).value, step.holder, step.conclusive); }
  }
}
