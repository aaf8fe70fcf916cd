/**
 Auto-sync's scheduler state (backend/app/jobs/auto_sync.py): the rotation over
 Channels with incomplete history, and the failure counter with its pause.
 */
module AutoSync {
  import opened Options
  import opened Ordering

  datatype Candidate = Candidate(owner: string, channel: string, name: string)

  function Min(a: int, b: int): int { if a < b then a else b }
  function Max(a: int, b: int): int { if a < b then b else a }

  // --------------------------------------------------------------- rotation

  /** By channel id, then owner. */
  predicate CandidateAtMost(a: Candidate, b: Candidate) {
    if a.channel != b.channel then AtMost(a.channel, b.channel)
    else if a.owner != b.owner then AtMost(a.owner, b.owner) else true
  }

  function InOrder(candidates: seq<Candidate>): (ordered: seq<Candidate>)
    ensures |ordered| == |candidates|
  {
    SortKeeps(CandidateAtMost, candidates);
    Sort(CandidateAtMost, candidates)
  }

  function BatchLength(n: nat, batchSize: int): nat { Min(Max(1, batchSize), n) }

  /** Consecutive places of the ordered candidates, round and round. */
  function Lap(ordered: seq<Candidate>, cursor: int, length: nat): (lap: seq<Candidate>)
    requires ordered != []
    ensures |lap| == length
    decreases length
  {
    if length == 0 then [] else [ordered[cursor % |ordered|]] + Lap(ordered, cursor + 1, length - 1)
  }

  lemma {:induction false} LapAt(ordered: seq<Candidate>, cursor: int, length: nat, i: nat)
    requires ordered != [] && i < length
    ensures Lap(ordered, cursor, length)[i] == ordered[(cursor + i) % |ordered|]
    decreases length
  {
    if i > 0 { LapAt(ordered, cursor + 1, length - 1, i - 1); }
  }

  /** The slice one tick takes, at most one lap of the ordered candidates. */
  function PartialBatch(candidates: seq<Candidate>, cursor: int, batchSize: int): seq<Candidate> {
    if candidates == [] then [] else Lap(InOrder(candidates), cursor, BatchLength(|candidates|, batchSize))
  }

  /** One tick: the candidates as it finds them, and the stored batch size. */
  datatype Tick = Tick(found: seq<Candidate>, batchSize: int)

  /** What the ticks take in all, starting at `cursor`, which each moves on by what it took. */
  function Taken(ticks: seq<Tick>, cursor: int): seq<Candidate> {
    if ticks == [] then []
    else
      var batch := PartialBatch(ticks[0].found, cursor, ticks[0].batchSize);
      batch + Taken(ticks[1..], cursor + |batch|)
  }

  function Times(x: Candidate, xs: seq<Candidate>): nat {
    if xs == [] then 0 else (if xs[0] == x then 1 else 0) + Times(x, xs[1..])
  }

  /** A follow: no account follows a Channel twice. */
  predicate SameFollow(a: Candidate, b: Candidate) { a.channel == b.channel && a.owner == b.owner }

  predicate DistinctFollows(candidates: seq<Candidate>) {
    forall i, j | 0 <= i < |candidates| && 0 <= j < |candidates| && i != j :: !SameFollow(candidates[i], candidates[j])
  }

  predicate Distinct(xs: seq<Candidate>) { forall i, j | 0 <= i < j < |xs| :: xs[i] != xs[j] }

  lemma CandidatesTotal()
    ensures TotalOrder(CandidateAtMost)
  {
    forall a, b ensures CandidateAtMost(a, b) || CandidateAtMost(b, a) {
      AtMostTotal(a.channel, b.channel);
      AtMostTotal(a.owner, b.owner);
    }
    forall a, b, c | CandidateAtMost(a, b) && CandidateAtMost(b, c) ensures CandidateAtMost(a, c) {
      if a.channel != b.channel && b.channel != c.channel {
        AtMostTransitive(a.channel, b.channel, c.channel);
        AtMostTotal(a.channel, b.channel);
      } else if a.channel == b.channel == c.channel && a.owner != b.owner && b.owner != c.owner {
        AtMostTransitive(a.owner, b.owner, c.owner);
      }
    }
  }

  lemma FollowsDoNotTie(candidates: seq<Candidate>, a: Candidate, b: Candidate)
    requires DistinctFollows(candidates) && a in candidates && b in candidates && CandidateAtMost(a, b)
             && CandidateAtMost(b, a)
    ensures a == b
  {
    AtMostTotal(a.channel, b.channel);
    AtMostTotal(a.owner, b.owner);
    assert SameFollow(a, b);
    var i :| 0 <= i < |candidates| && candidates[i] == a;
    var j :| 0 <= j < |candidates| && candidates[j] == b;
  }

  lemma OrderIsStable(a: seq<Candidate>, b: seq<Candidate>)
    requires multiset(a) == multiset(b) && DistinctFollows(a)
    ensures InOrder(a) == InOrder(b)
  {
    CandidatesTotal();
    SortPermutes(CandidateAtMost, a);
    SortPermutes(CandidateAtMost, b);
    SortSorts(CandidateAtMost, a);
    SortSorts(CandidateAtMost, b);
    SortKeeps(CandidateAtMost, a);
    var xs := InOrder(a);
    forall i, j | 0 <= i < |xs| && 0 <= j < |xs| && CandidateAtMost(xs[i], xs[j]) && CandidateAtMost(xs[j], xs[i])
      ensures xs[i] == xs[j]
    {
      assert xs[i] in xs && xs[j] in xs;
      FollowsDoNotTie(a, xs[i], xs[j]);
    }
    SortedIsOnly(CandidateAtMost, xs, InOrder(b));
  }

  /** A batch does not depend on how the candidates came in. */
  lemma BatchIgnoresOrder(a: seq<Candidate>, b: seq<Candidate>, cursor: int, batchSize: int)
    requires multiset(a) == multiset(b) && DistinctFollows(a)
    ensures PartialBatch(a, cursor, batchSize) == PartialBatch(b, cursor, batchSize)
  {
    OrderIsStable(a, b);
    SameMembers(a, b);
  }

  predicate SameCandidates(ticks: seq<Tick>, candidates: seq<Candidate>) {
    forall k | 0 <= k < |ticks| :: multiset(ticks[k].found) == multiset(candidates)
  }

  /** `xs` is a walk round the ordered candidates from `cursor` on. */
  predicate IsLap(ordered: seq<Candidate>, cursor: int, xs: seq<Candidate>)
    requires ordered != []
  {
    xs == Lap(ordered, cursor, |xs|)
  }

  lemma BatchIsALap(candidates: seq<Candidate>, cursor: int, batchSize: int)
    requires candidates != []
    ensures IsLap(InOrder(candidates), cursor, PartialBatch(candidates, cursor, batchSize))
  {}

  lemma LapsAdd(ordered: seq<Candidate>, cursor: int, a: seq<Candidate>, b: seq<Candidate>, both: seq<Candidate>)
    requires ordered != [] && IsLap(ordered, cursor, a) && IsLap(ordered, cursor + |a|, b) && both == a + b
    ensures IsLap(ordered, cursor, both)
  {
    LapsJoin(ordered, cursor, |a|, |b|);
    assert |a + b| == |a| + |b|;
  }

  lemma FirstBatchIsALap(ticks: seq<Tick>, candidates: seq<Candidate>, cursor: int)
    requires candidates != [] && DistinctFollows(candidates) && SameCandidates(ticks, candidates) && ticks != []
    ensures IsLap(InOrder(candidates), cursor, PartialBatch(ticks[0].found, cursor, ticks[0].batchSize))
    ensures SameCandidates(ticks[1..], candidates)
  {
    assert multiset(ticks[0].found) == multiset(candidates);
    BatchIgnoresOrder(candidates, ticks[0].found, cursor, ticks[0].batchSize);
    BatchIsALap(candidates, cursor, ticks[0].batchSize);
  }

  /** Over any ticks that find the same candidates, the batches join into one walk round them. */
  lemma {:induction false} BatchesJoin(ticks: seq<Tick>, candidates: seq<Candidate>, cursor: int)
    requires candidates != [] && DistinctFollows(candidates) && SameCandidates(ticks, candidates)
    ensures IsLap(InOrder(candidates), cursor, Taken(ticks, cursor))
  {
    if ticks != [] {
      var batch := PartialBatch(ticks[0].found, cursor, ticks[0].batchSize);
      FirstBatchIsALap(ticks, candidates, cursor);
      BatchesJoin(ticks[1..], candidates, cursor + |batch|);
      TakenStep(ticks, cursor);
      LapsAdd(InOrder(candidates), cursor, batch, Taken(ticks[1..], cursor + |batch|), Taken(ticks, cursor));
    } else {
      NoLap(InOrder(candidates), cursor);
    }
  }

  lemma TakenStep(ticks: seq<Tick>, cursor: int)
    requires ticks != []
    ensures var batch := PartialBatch(ticks[0].found, cursor, ticks[0].batchSize);
            Taken(ticks, cursor) == batch + Taken(ticks[1..], cursor + |batch|)
  {}

  lemma NoLap(ordered: seq<Candidate>, cursor: int)
    requires ordered != []
    ensures IsLap(ordered, cursor, [])
  {}

  lemma {:induction false} TimesConcat(x: Candidate, a: seq<Candidate>, b: seq<Candidate>)
    ensures Times(x, a + b) == Times(x, a) + Times(x, b)
  {
    if a == [] {
      assert a + b == b;
    } else {
      TimesConcat(x, a[1..], b);
      assert (a + b)[1..] == a[1..] + b;
    }
  }

  lemma {:induction false} TimesOnce(x: Candidate, xs: seq<Candidate>)
    requires Distinct(xs)
    ensures Times(x, xs) == if x in xs then 1 else 0
  {
    if xs != [] {
      TimesOnce(x, xs[1..]);
      assert xs == [xs[0]] + xs[1..];
      assert forall j | 0 < j < |xs| :: xs[0] != xs[j];
    }
  }

  lemma SmallMultiple(k: int, n: int, d: int)
    requires n > 0
    ensures k * n == d && -n < d < n ==> k == 0
  {
    assert k >= 1 ==> k * n >= n;
    assert k <= -1 ==> k * n <= -n;
  }

  lemma DivMod(a: int, n: nat, q: int, r: int)
    requires a == q * n + r && 0 <= r < n
    ensures a % n == r && a / n == q
  {
    assert (a / n - q) * n == r - a % n;
    SmallMultiple(a / n - q, n, r - a % n);
  }

  /** Places closer than a lap are different. */
  lemma PlacesDiffer(cursor: int, i: nat, j: nat, n: nat)
    requires i < j < i + n
    ensures (cursor + i) % n != (cursor + j) % n
  {
    var a, b := cursor + i, cursor + j;
    assert (b / n - a / n) * n == (b - a) - (b % n - a % n);
    SmallMultiple(b / n - a / n, n, b - a);
  }

  lemma LapIsDistinct(ordered: seq<Candidate>, cursor: int, length: nat)
    requires ordered != [] && length <= |ordered| && Distinct(ordered)
    ensures Distinct(Lap(ordered, cursor, length))
  {
    forall i, j | 0 <= i < j < length ensures Lap(ordered, cursor, length)[i] != Lap(ordered, cursor, length)[j] {
      PlacesDiffer(cursor, i, j, |ordered|);
      LapAt(ordered, cursor, length, i);
      LapAt(ordered, cursor, length, j);
      DifferentPlaces(ordered, (cursor + i) % |ordered|, (cursor + j) % |ordered|);
    }
  }

  lemma DifferentPlaces(ordered: seq<Candidate>, p: nat, q: nat)
    requires p < |ordered| && q < |ordered| && p != q && Distinct(ordered)
    ensures ordered[p] != ordered[q]
  {
    assert ordered[if p < q then p else q] != ordered[if p < q then q else p];
  }

  /** Some place of every lap holds `ordered[p]`. */
  lemma LapReaches(ordered: seq<Candidate>, cursor: int, p: nat)
    requires p < |ordered|
    ensures ordered[p] in Lap(ordered, cursor, |ordered|)
  {
    var n := |ordered|;
    var i := (p - cursor) % n;
    var q := (p - cursor) / n;
    assert cursor + i == (-q) * n + p;
    DivMod(cursor + i, n, -q, p);
    LapAt(ordered, cursor, n, i);
  }

  lemma {:induction false} LapsJoin(ordered: seq<Candidate>, cursor: int, a: nat, b: nat)
    requires ordered != []
    ensures Lap(ordered, cursor, a + b) == Lap(ordered, cursor, a) + Lap(ordered, cursor + a, b)
    decreases a
  {
    if a > 0 { LapsJoin(ordered, cursor + 1, a - 1, b); }
  }

  /** One whole lap visits each candidate once. */
  lemma WholeLap(ordered: seq<Candidate>, cursor: int, x: Candidate)
    requires x in ordered && Distinct(ordered)
    ensures Times(x, Lap(ordered, cursor, |ordered|)) == 1
  {
    LapIsDistinct(ordered, cursor, |ordered|);
    TimesOnce(x, Lap(ordered, cursor, |ordered|));
    var p :| 0 <= p < |ordered| && ordered[p] == x;
    LapReaches(ordered, cursor, p);
  }

  function Floor(slots: nat, n: nat): nat
    requires n > 0
  {
    slots / n
  }

  function Ceiling(slots: nat, n: nat): nat
    requires n > 0
  {
    (slots + n - 1) / n
  }

  lemma LessThanALap(slots: nat, n: nat)
    requires slots < n
    ensures Floor(slots, n) == 0 && Ceiling(slots, n) == if slots == 0 then 0 else 1
  {
    DivMod(slots, n, 0, slots);
    if slots == 0 { DivMod(n - 1, n, 0, n - 1); } else { DivMod(slots + n - 1, n, 1, slots - 1); }
  }

  lemma LapMore(slots: nat, n: nat)
    requires 0 < n <= slots
    ensures Floor(slots, n) == Floor(slots - n, n) + 1 && Ceiling(slots, n) == Ceiling(slots - n, n) + 1
  {
    var a, b := slots - n, slots - n + n - 1;
    DivMod(slots, n, a / n + 1, a % n);
    DivMod(slots + n - 1, n, b / n + 1, b % n);
  }

  /** A walk of so many places visits each candidate the floor or the ceiling of its share. */
  lemma {:induction false} LapIsFair(ordered: seq<Candidate>, cursor: int, length: nat, x: Candidate)
    requires x in ordered && Distinct(ordered)
    ensures Floor(length, |ordered|) <= Times(x, Lap(ordered, cursor, length)) <= Ceiling(length, |ordered|)
    decreases length
  {
    var n := |ordered|;
    if length < n {
      LapIsDistinct(ordered, cursor, length);
      TimesOnce(x, Lap(ordered, cursor, length));
      LessThanALap(length, n);
      if length == 0 { assert Lap(ordered, cursor, 0) == []; }
    } else {
      LapIsFair(ordered, cursor + n, length - n, x);
      WholeLap(ordered, cursor, x);
      LapsJoin(ordered, cursor, n, length - n);
      TimesConcat(x, Lap(ordered, cursor, n), Lap(ordered, cursor + n, length - n));
      LapMore(length, n);
    }
  }

  lemma {:induction false} DistinctCounts(xs: seq<Candidate>)
    ensures Distinct(xs) <==> forall x :: multiset(xs)[x] <= 1
  {
    if xs != [] {
      var front, last := xs[..|xs| - 1], xs[|xs| - 1];
      DistinctCounts(front);
      assert xs == front + [last];
      OneMoreDistinct(front, last);
      OneMoreCounts(front, last);
    }
  }

  lemma OneMoreDistinct(front: seq<Candidate>, last: Candidate)
    ensures Distinct(front + [last]) <==> Distinct(front) && last !in front
  {
    var xs := front + [last];
    assert forall i | 0 <= i < |front| :: xs[i] == front[i];
    assert xs[|front|] == last;
  }

  lemma OneMoreCounts(front: seq<Candidate>, last: Candidate)
    ensures (forall x :: multiset(front + [last])[x] <= 1) <==> (forall x :: multiset(front)[x] <= 1) && last !in front
  {
    forall x ensures multiset(front + [last])[x] == multiset(front)[x] + if x == last then 1 else 0 {}
    assert last in front <==> multiset(front)[last] >= 1;
    if x :| multiset(front)[x] > 1 { assert multiset(front + [last])[x] > 1; }
    if last in front { assert multiset(front + [last])[last] > 1; }
  }

  lemma OrderedIsDistinct(candidates: seq<Candidate>)
    requires DistinctFollows(candidates)
    ensures Distinct(InOrder(candidates))
  {
    assert forall i, j | 0 <= i < j < |candidates| && candidates[i] == candidates[j] ::
           SameFollow(candidates[i], candidates[j]);
    SortPermutes(CandidateAtMost, candidates);
    DistinctCounts(candidates);
    DistinctCounts(InOrder(candidates));
  }

  /** While the candidates stay the same, every one has been taken the floor or the ceiling of its
      share of the slots, whatever the batch sizes, the first cursor and the order they are found in. */
  lemma RotationIsFair(ticks: seq<Tick>, candidates: seq<Candidate>, cursor: int, x: Candidate)
    requires x in candidates && DistinctFollows(candidates) && SameCandidates(ticks, candidates)
    ensures var slots := |Taken(ticks, cursor)|;
            Floor(slots, |candidates|) <= Times(x, Taken(ticks, cursor)) <= Ceiling(slots, |candidates|)
  {
    SortKeeps(CandidateAtMost, candidates);
    OrderedIsDistinct(candidates);
    BatchesJoin(ticks, candidates, cursor);
    LapIsFair(InOrder(candidates), cursor, |Taken(ticks, cursor)|, x);
  }

  /** No batch takes a candidate twice, and it takes as many as it may. */
  lemma BatchTakesEachOnce(candidates: seq<Candidate>, cursor: int, batchSize: int, x: Candidate)
    requires DistinctFollows(candidates)
    ensures Times(x, PartialBatch(candidates, cursor, batchSize)) <= 1
    ensures batchSize >= |candidates| && x in candidates ==> x in PartialBatch(candidates, cursor, batchSize)
    ensures |PartialBatch(candidates, cursor, batchSize)| == Min(Max(1, batchSize), |candidates|)
  {
    if candidates != [] {
      var ordered := InOrder(candidates);
      OrderedIsDistinct(candidates);
      SortKeeps(CandidateAtMost, candidates);
      var length := BatchLength(|ordered|, batchSize);
      LapIsDistinct(ordered, cursor, length);
      TimesOnce(x, Lap(ordered, cursor, length));
      if batchSize >= |candidates| && x in candidates {
        var p :| 0 <= p < |ordered| && ordered[p] == x;
        LapReaches(ordered, cursor, p);
      }
    }
  }

  /** Within a lap a batch goes by Channel id and then by account, and takes up where the cursor stands: at the
      start of a lap with the first of all. */
  lemma BatchesGoInOrder(candidates: seq<Candidate>, cursor: int, batchSize: int, i: nat, x: Candidate)
    requires candidates != [] && i < |PartialBatch(candidates, cursor, batchSize)|
    ensures var batch := PartialBatch(candidates, cursor, batchSize);
            && (i + 1 < |batch| && cursor % |candidates| + i + 1 < |candidates| ==> GoesBefore(batch[i], batch[i + 1]))
            && (x in candidates && (cursor + i) % |candidates| == 0 ==> GoesBefore(batch[i], x))
  {
    var ordered, length := InOrder(candidates), BatchLength(|candidates|, batchSize);
    CandidatesTotal();
    SortSorts(CandidateAtMost, candidates);
    SortKeeps(CandidateAtMost, candidates);
    LapAt(ordered, cursor, length, i);
    if i + 1 < length { NextInLap(ordered, cursor, length, i); }
    if x in candidates && (cursor + i) % |candidates| == 0 { FirstOfAll(ordered, x); }
  }

  lemma NextInLap(ordered: seq<Candidate>, cursor: int, length: nat, i: nat)
    requires ordered != [] && SortedBy(CandidateAtMost, ordered) && i + 1 < length
    ensures cursor % |ordered| + i + 1 < |ordered| ==>
              GoesBefore(Lap(ordered, cursor, length)[i], Lap(ordered, cursor, length)[i + 1])
  {
    var n := |ordered|;
    if cursor % n + i + 1 < n {
      LapAt(ordered, cursor, length, i);
      LapAt(ordered, cursor, length, i + 1);
      DivMod(cursor + i, n, cursor / n, cursor % n + i);
      DivMod(cursor + (i + 1), n, cursor / n, cursor % n + i + 1);
      OrderedGoes(ordered[cursor % n + i], ordered[cursor % n + i + 1]);
    }
  }

  lemma FirstOfAll(ordered: seq<Candidate>, x: Candidate)
    requires SortedBy(CandidateAtMost, ordered) && x in ordered
    ensures GoesBefore(ordered[0], x)
  {
    var p :| 0 <= p < |ordered| && ordered[p] == x;
    AtMostTotal(x.channel, x.channel);
    AtMostTotal(x.owner, x.owner);
    if p > 0 { OrderedGoes(ordered[0], ordered[p]); }
  }

  lemma OrderedGoes(a: Candidate, b: Candidate)
    requires CandidateAtMost(a, b)
    ensures GoesBefore(a, b)
  {
    AtMostTotal(a.channel, b.channel);
    AtMostTotal(a.owner, b.owner);
  }

  predicate GoesBefore(a: Candidate, b: Candidate) {
    AtMost(a.channel, b.channel) && (a.channel == b.channel ==> AtMost(a.owner, b.owner))
  }

  // ---------------------------------------------------------- failures, pause

  const FAILURE_THRESHOLD_MIN := 3
  const PAUSE_MS := 10 * 60 * 1000

  datatype Runtime = Runtime(failures: nat, pauseUntil: Option<int>)

  /** What happens to the counter: a tick looks at the pause, or a job ends with so many failed and
      so many successful Channels while so many could be scheduled. */
  datatype Event = Ticked(now: int) | Ended(failed: nat, succeeded: nat, schedulable: nat, now: int)

  predicate Paused(s: Runtime, now: int) { s.pauseUntil.Some? && s.pauseUntil.value != 0 && now < s.pauseUntil.value }

  function Handle(s: Runtime, e: Event): Runtime {
    match e
    case Ticked(now) =>
      if s.pauseUntil.Some? && s.pauseUntil.value != 0 && now >= s.pauseUntil.value then Runtime(0, None) else s
    case Ended(failed, succeeded, schedulable, now) =>
      if failed > 0 then
        Runtime(s.failures + failed,
                if s.failures + failed >= Max(FAILURE_THRESHOLD_MIN, schedulable)
                then Some(now + PAUSE_MS) else s.pauseUntil)
      else if succeeded > 0 then s.(failures := 0)
      else s
  }

  class SchedulerState {
    var failures: nat
    var pauseUntil: Option<int>

    function Value(): Runtime
      reads this
    {
      Runtime(failures, pauseUntil)
    }

    constructor ()
      ensures Value() == Runtime(0, None)
    {
      failures, pauseUntil := 0, None;
    }

    /** The start of a tick: whether it may plan anything. */
    method StartTick(now: int) returns (runs: bool)
      modifies this
      ensures Value() == Handle(old(Value()), Ticked(now)) && runs == !Paused(old(Value()), now)
    {
      runs := true;
      if pauseUntil.Some? && pauseUntil.value != 0 {
        if now < pauseUntil.value { return false; }
        failures, pauseUntil := 0, None;
      }
    }

    method RecordOutcome(failed: nat, succeeded: nat, schedulable: nat, now: int)
      modifies this
      ensures Value() == Handle(old(Value()), Ended(failed, succeeded, schedulable, now))
    {
      if failed == 0 && succeeded == 0 { return; }
      if failed > 0 {
        failures := failures + failed;
        var threshold := Max(FAILURE_THRESHOLD_MIN, schedulable);
        if failures >= threshold {
          pauseUntil := Some(now + PAUSE_MS);
        }
      } else {
        failures := 0;
      }
    }
  }

  function AfterEvents(events: seq<Event>): Runtime {
    if events == [] then Runtime(0, None) else Handle(AfterEvents(events[..|events| - 1]), events[|events| - 1])
  }

  /** The `i`-th event is a job without a failure, or a tick that finds the pause over: the count starts again. */
  predicate ResetsAt(events: seq<Event>, i: nat)
    requires i < |events|
  {
    match events[i]
    case Ticked(now) =>
      var pause := AfterEvents(events[..i]).pauseUntil;
      pause.Some? && Lifts(events[i], pause.value)
    case Ended(failed, succeeded, _, _) => failed == 0 && succeeded > 0
  }

  /** A tick at or past the end of a pause. */
  predicate Lifts(e: Event, until: int) { e.Ticked? && until != 0 && e.now >= until }

  /** The Channels that failed in the jobs among `events`. */
  function FailedIn(events: seq<Event>): nat {
    if events == [] then 0
    else FailedIn(events[..|events| - 1]) + if events[|events| - 1].Ended? then events[|events| - 1].failed else 0
  }

  /** Nothing among the events from `k` on resets the count, and what comes just before does, or nothing does. */
  predicate SinceReset(events: seq<Event>, k: nat) {
    && k <= |events| && (k > 0 ==> ResetsAt(events, k - 1))
    && forall i | k <= i < |events| :: !ResetsAt(events, i)
  }

  lemma InFront(events: seq<Event>, i: nat)
    requires i < |events| - 1
    ensures ResetsAt(events[..|events| - 1], i) == ResetsAt(events, i)
    ensures Crosses(events[..|events| - 1], i) == Crosses(events, i)
  {
    assert events[..|events| - 1][..i] == events[..i];
  }

  lemma {:induction false} CountedSince(events: seq<Event>, k: nat)
    requires SinceReset(events, k)
    ensures AfterEvents(events).failures == FailedIn(events[k..])
  {
    if k < |events| {
      var front := events[..|events| - 1];
      forall i | 0 <= i < |front| ensures ResetsAt(front, i) == ResetsAt(events, i) { InFront(events, i); }
      CountedSince(front, k);
      assert front[k..] == events[k..][..|events[k..]| - 1];
      assert !ResetsAt(events, |front|);
    } else if events != [] {
      assert ResetsAt(events, |events| - 1);
    }
  }

  /** There is always such a start. */
  lemma {:induction false} LastReset(events: seq<Event>) returns (k: nat)
    ensures SinceReset(events, k)
  {
    if events == [] {
      k := 0;
    } else if ResetsAt(events, |events| - 1) {
      k := |events|;
    } else {
      k := LastReset(events[..|events| - 1]);
      forall i | 0 <= i < |events| - 1
        ensures ResetsAt(events[..|events| - 1], i) == ResetsAt(events, i)
      {
        InFront(events, i);
      }
    }
  }

  /** Over every run the counter is the Channels that failed since the count was last started again, and there
      is always such a start. */
  lemma CounterCountsFailures(events: seq<Event>)
    ensures exists k: nat :: SinceReset(events, k)
    ensures forall k: nat | SinceReset(events, k) :: AfterEvents(events).failures == FailedIn(events[k..])
  {
    var start := LastReset(events);
    forall k: nat | SinceReset(events, k) ensures AfterEvents(events).failures == FailedIn(events[k..]) {
      CountedSince(events, k);
    }
  }

  /** The `k`-th event is a job whose failures bring the counter to the threshold. */
  predicate Crosses(events: seq<Event>, k: nat) {
    && k < |events| && events[k].Ended? && events[k].failed > 0
    && AfterEvents(events[..k]).failures + events[k].failed >= Max(FAILURE_THRESHOLD_MIN, events[k].schedulable)
  }

  /** The `k`-th event set the pause until `until`, and nothing since has moved or lifted it. */
  predicate Stands(events: seq<Event>, k: nat, until: int) {
    && Crosses(events, k) && until == events[k].now + PAUSE_MS
    && forall j | k < j < |events| :: !Crosses(events, j) && !Lifts(events[j], until)
  }

  lemma StandsOn(events: seq<Event>, k: nat, until: int)
    requires k < |events| - 1 && !Crosses(events, |events| - 1)
    ensures Stands(events, k, until)
       <==> Stands(events[..|events| - 1], k, until) && !Lifts(events[|events| - 1], until)
  {
    var front := events[..|events| - 1];
    forall i: nat | i < |front| ensures Crosses(front, i) == Crosses(events, i) { InFront(events, i); }
    assert forall j | k < j < |front| :: front[j] == events[j] && Crosses(front, j) == Crosses(events, j);
  }

  /** A pause is set exactly when a job brought the counter to the threshold and no later job did again
      and no tick came at or after its end, ten minutes on. */
  lemma {:induction false} PauseStands(events: seq<Event>, until: int)
    ensures AfterEvents(events).pauseUntil == Some(until) <==> exists k: nat :: Stands(events, k, until)
  {
    if events != [] {
      var n := |events| - 1;
      var front, last := events[..n], events[n];
      PauseStands(front, until);
      forall i: nat | i < n ensures Crosses(front, i) == Crosses(events, i) { InFront(events, i); }
      if Crosses(events, n) {
        assert Stands(events, n, last.now + PAUSE_MS);
      } else {
        forall k: nat | k < n ensures Stands(events, k, until) <==> Stands(front, k, until) && !Lifts(last, until) {
          StandsOn(events, k, until);
        }
        assert AfterEvents(events).pauseUntil == Some(until)
          <==> AfterEvents(front).pauseUntil == Some(until) && !Lifts(last, until);
      }
    }
  }

  /** A tick plans nothing exactly when such a pause has yet to end. */
  lemma TickIsSkipped(events: seq<Event>, now: int)
    ensures Paused(AfterEvents(events), now)
            <==> exists k: nat, until :: Stands(events, k, until) && until != 0 && now < until
  {
    if Paused(AfterEvents(events), now) {
      var until := AfterEvents(events).pauseUntil.value;
      PauseStands(events, until);
      var k: nat :| Stands(events, k, until);
      assert Stands(events, k, until) && until != 0 && now < until;
    }
    if k: nat, until :| Stands(events, k, until) && until != 0 && now < until { PauseStands(events, until); }
  }
}
