/** The age and count caps on one account's Discover reports (backend/app/jobs/retention.py). */
module RetentionReports {
  import opened Options
  import opened Ordering
  import opened Dicts
  import opened Retention

  datatype Report = Report(owner: Option<nat>, timestamp: int)
  type Reports = map<string, Report>

  function Own(reports: Reports, account: nat): set<string> {
    set r | r in reports && reports[r].owner == Some(account)
  }

  function Aged(reports: Reports, account: nat, cutoff: int): set<string> {
    set r | r in Own(reports, account) && reports[r].timestamp < cutoff
  }

  function Time(reports: Reports, r: string): int { if r in reports then reports[r].timestamp else 0 }

  /** Newest first, ids breaking ties. */
  predicate Newer(reports: Reports, a: string, b: string) {
    if Time(reports, a) != Time(reports, b) then Time(reports, a) > Time(reports, b) else AtMost(a, b)
  }

  function ByAge(reports: Reports): (string, string) -> bool { (a, b) => Newer(reports, a, b) }

  function NewerThan(reports: Reports, own: set<string>, r: string): set<string> {
    set o | o in own && o != r && Newer(reports, o, r)
  }

  /** The reports of `own` with `keep` newer ones or more. */
  function PastNewest(reports: Reports, own: set<string>, keep: nat): set<string> {
    set r | r in own && |NewerThan(reports, own, r)| >= keep
  }

  /** What the age cap leaves; 0 disables it. */
  function Fresh(reports: Reports, account: nat, maxDays: int, now: int): Reports {
    reports - if maxDays > 0 then Aged(reports, account, CutoffMs(now, maxDays)) else {}
  }

  /** What the count cap then leaves; 0 disables it. */
  function Capped(reports: Reports, account: nat, maxCount: int): Reports {
    reports - if maxCount > 0 then PastNewest(reports, Own(reports, account), maxCount) else {}
  }

  lemma NewerTotal(reports: Reports)
    ensures TotalOrder(ByAge(reports))
  {
    forall a, b ensures Newer(reports, a, b) || Newer(reports, b, a) { AtMostTotal(a, b); }
    forall a, b, c | Newer(reports, a, b) && Newer(reports, b, c) ensures Newer(reports, a, c) {
      if Time(reports, a) == Time(reports, b) == Time(reports, c) { AtMostTransitive(a, b, c); }
    }
  }

  method Listed(own: set<string>) returns (ids: seq<string>)
    ensures NoRepeats(ids) && forall r :: r in ids <==> r in own
  {
    ids := [];
    var todo := own;
    while todo != {}
      invariant todo <= own && NoRepeats(ids) && forall r :: r in ids <==> r in own && r !in todo
    {
      var r :| r in todo;
      ids, todo := ids + [r], todo - {r};
    }
  }

  lemma {:induction false} SizeOf(xs: seq<string>)
    requires NoRepeats(xs)
    ensures |set x | x in xs| == |xs|
  {
    if xs != [] {
      var front, last := xs[..|xs| - 1], xs[|xs| - 1];
      SizeOf(front);
      assert (set x | x in xs) == (set x | x in front) + {last};
      assert last !in front;
    }
  }

  /** In the newest-first order a report's place is the number of newer ones. */
  lemma PlaceIsRank(reports: Reports, own: set<string>, xs: seq<string>, i: nat)
    requires NoRepeats(xs) && SortedBy(ByAge(reports), xs) && (forall r :: r in xs <==> r in own) && i < |xs|
    ensures |NewerThan(reports, own, xs[i])| == i
  {
    forall r | r in NewerThan(reports, own, xs[i]) ensures r in xs[..i] {
      var j :| 0 <= j < |xs| && xs[j] == r;
      if j > i { assert Newer(reports, xs[i], xs[j]); AtMostTotal(xs[i], xs[j]); }
      assert j < i;
    }
    forall r | r in xs[..i] ensures r in NewerThan(reports, own, xs[i]) {
      var j :| 0 <= j < i && xs[j] == r;
      assert Newer(reports, xs[j], xs[i]) && xs[j] in xs;
    }
    assert NewerThan(reports, own, xs[i]) == set r | r in xs[..i];
    SizeOf(xs[..i]);
  }

  /** `offset(keep)`. */
  function Past(xs: seq<string>, keep: nat): seq<string> { if keep <= |xs| then xs[keep..] else [] }

  function AsIds(xs: seq<string>): set<string> { set r | r in xs }

  lemma OffsetIsPastNewest(reports: Reports, own: set<string>, xs: seq<string>, keep: nat)
    requires NoRepeats(xs) && SortedBy(ByAge(reports), xs) && (forall r :: r in xs <==> r in own)
    ensures PastNewest(reports, own, keep) == AsIds(Past(xs, keep))
  {
    forall r | r in own ensures r in PastNewest(reports, own, keep) <==> keep <= |xs| && r in xs[keep..] {
      var i :| 0 <= i < |xs| && xs[i] == r;
      PlaceIsRank(reports, own, xs, i);
      if keep <= |xs| && r in xs[keep..] {
        var j :| keep <= j < |xs| && xs[j] == r;
      }
      if keep <= i { assert xs[keep..][i - keep] == r; }
    }
  }

  /** The account's reports in a table. */
  function OwnIn(reports: Reports, account: nat): set<string> {
    set r | r in reports && reports[r].owner == Some(account)
  }

  /** What pruning one account's reports leaves: every other report, none of its own past the age it keeps nor
      more than the number, and what went was too old or no newer than any of a full number that stayed. */
  predicate Pruned(was: Reports, left: Reports, account: nat, maxDays: int, now: int, maxCount: int) {
    && (forall r | r in left :: r in was && left[r] == was[r])
    && (forall r | r in was && was[r].owner != Some(account) :: r in left)
    && (maxDays > 0 ==> forall r | r in OwnIn(left, account) :: left[r].timestamp >= now - maxDays * 86_400_000)
    && (maxCount > 0 ==> |OwnIn(left, account)| <= maxCount)
    && forall r | r in OwnIn(was, account) && r !in left ::
         || (maxDays > 0 && was[r].timestamp < now - maxDays * 86_400_000)
         || (maxCount > 0 && |OwnIn(left, account)| == maxCount
             && forall kept | kept in OwnIn(left, account) :: left[kept].timestamp >= was[r].timestamp)
  }

  lemma {:induction false} ListingOf(own: set<string>) returns (ids: seq<string>)
    ensures NoRepeats(ids) && |ids| == |own| && forall r :: r in ids <==> r in own
  {
    if own == {} {
      ids := [];
    } else {
      var r :| r in own;
      ids := ListingOf(own - {r});
      ids := ids + [r];
    }
  }

  lemma PruneIs(reports: Reports, account: nat, maxDays: int, now: int, maxCount: int)
    ensures Pruned(reports, Capped(Fresh(reports, account, maxDays, now), account, maxCount), account, maxDays, now,
                   maxCount)
  {
    var young := Fresh(reports, account, maxDays, now);
    AgeCapIs(reports, account, maxDays, now);
    CountCapIs(young, account, maxCount);
    CapsAdd(reports, young, Capped(young, account, maxCount), account, maxDays, now, maxCount);
  }

  /** What the age cap leaves, and what the count cap leaves of that. */
  predicate AgeCapped(was: Reports, young: Reports, account: nat, maxDays: int, now: int) {
    && (forall r | r in young :: r in was && young[r] == was[r])
    && (forall r | r in was && was[r].owner != Some(account) :: r in young)
    && (maxDays > 0 ==> forall r | r in OwnIn(young, account) :: young[r].timestamp >= now - maxDays * 86_400_000)
    && forall r | r in OwnIn(was, account) && r !in young ::
       maxDays > 0 && was[r].timestamp < now - maxDays * 86_400_000
  }

  predicate CountCapped(young: Reports, left: Reports, account: nat, maxCount: int) {
    && (forall r | r in left :: r in young && left[r] == young[r])
    && (forall r | r in young && young[r].owner != Some(account) :: r in left)
    && (maxCount > 0 ==> |OwnIn(left, account)| <= maxCount)
    && forall r | r in OwnIn(young, account) && r !in left ::
         && maxCount > 0 && |OwnIn(left, account)| == maxCount
         && forall kept | kept in OwnIn(left, account) :: left[kept].timestamp >= young[r].timestamp
  }

  lemma CapsAdd(was: Reports, young: Reports, left: Reports, account: nat, maxDays: int, now: int, maxCount: int)
    requires AgeCapped(was, young, account, maxDays, now) && CountCapped(young, left, account, maxCount)
    ensures Pruned(was, left, account, maxDays, now, maxCount)
  {
    forall r | r in OwnIn(was, account) && r !in left && r in young ensures r in OwnIn(young, account) {}
  }

  lemma AgeCapIs(reports: Reports, account: nat, maxDays: int, now: int)
    ensures AgeCapped(reports, Fresh(reports, account, maxDays, now), account, maxDays, now)
  {}

  lemma CountCapIs(young: Reports, account: nat, maxCount: int)
    ensures CountCapped(young, Capped(young, account, maxCount), account, maxCount)
  {
    if maxCount > 0 {
      var left := Capped(young, account, maxCount);
      var own := ListingOf(Own(young, account));
      assert OwnIn(left, account) == Own(left, account) && OwnIn(young, account) == Own(young, account);
      CapKeepsTheNewest(young, account, maxCount, own, "", "");
      forall gone | gone in Own(young, account) && gone !in left
        ensures |Own(left, account)| == maxCount
        ensures forall kept | kept in Own(left, account) :: left[kept].timestamp >= young[gone].timestamp
      {
        Smaller(Own(left, account), Own(young, account), gone);
        forall kept | kept in Own(left, account) ensures left[kept].timestamp >= young[gone].timestamp {
          CapKeepsTheNewest(young, account, maxCount, own, kept, gone);
        }
      }
    }
  }

  lemma Smaller(part: set<string>, whole: set<string>, x: string)
    requires part <= whole && x in whole && x !in part
    ensures |part| < |whole|
  {
    assert part <= whole - {x};
    Within(part, whole - {x});
  }

  lemma Within(part: set<string>, whole: set<string>)
    requires part <= whole
    ensures |part| <= |whole|
  {
    assert whole == part + (whole - part);
  }

  class ReportTable {
    var reports: Reports

    constructor (reports: Reports)
      ensures this.reports == reports
    {
      this.reports := reports;
    }

    method Prune(account: nat, maxDays: int, now: int, maxCount: int) returns (deleted: nat)
      modifies this
      ensures reports == Capped(Fresh(old(reports), account, maxDays, now), account, maxCount)
      ensures deleted == |old(reports)| - |reports|
      ensures Pruned(old(reports), reports, account, maxDays, now, maxCount)
    {
      PruneIs(old(reports), account, maxDays, now, maxCount);
      deleted := 0;
      if maxDays > 0 {
        var gone := Aged(reports, account, CutoffMs(now, maxDays));
        Removed(reports, gone);
        deleted := |gone|;
        reports := reports - gone;
      }
      assert reports == Fresh(old(reports), account, maxDays, now);
      if maxCount > 0 {
        var n := PruneByCount(account, maxCount);
        deleted := deleted + n;
      }
    }

    /** Everything past the account's newest `keep`. */
    method PruneByCount(account: nat, keep: nat) returns (deleted: nat)
      requires keep > 0
      modifies this
      ensures reports == Capped(old(reports), account, keep) && deleted == |old(reports)| - |reports|
    {
      var own := Listed(Own(reports, account));
      var sorted := Sort(ByAge(reports), own);
      NewestFirst(reports, own);
      SortKeeps(ByAge(reports), own);
      var stale := AsIds(Past(sorted, keep));
      OffsetIsPastNewest(reports, Own(reports, account), sorted, keep);
      Removed(reports, stale);
      deleted := |stale|;
      reports := reports - stale;
    }
  }

  lemma NewestFirst(reports: Reports, own: seq<string>)
    requires NoRepeats(own)
    ensures var sorted := Sort(ByAge(reports), own);
            NoRepeats(sorted) && SortedBy(ByAge(reports), sorted) && forall r :: r in sorted <==> r in own
  {
    NewerTotal(reports);
    SortPermutes(ByAge(reports), own);
    SortSorts(ByAge(reports), own);
    SortKeeps(ByAge(reports), own);
    NoRepeatsKept(own, Sort(ByAge(reports), own));
  }

  /** One account's caps reach nobody else's reports. */
  lemma CapsAreOnesOwn(reports: Reports, account: nat, maxDays: int, now: int, maxCount: int, r: string)
    requires r in reports && reports[r].owner != Some(account)
    ensures var left := Capped(Fresh(reports, account, maxDays, now), account, maxCount);
            r in left && left[r] == reports[r]
  {
    assert r !in Own(reports, account) && r !in Own(Fresh(reports, account, maxDays, now), account);
  }

  /** The count cap keeps as many of the account's reports as it allows, each newer than any it removes. */
  lemma CapKeepsTheNewest(reports: Reports, account: nat, maxCount: nat, own: seq<string>, kept: string, gone: string)
    requires maxCount > 0 && NoRepeats(own) && forall r :: r in own <==> r in Own(reports, account)
    ensures |Own(Capped(reports, account, maxCount), account)| == if |own| < maxCount then |own| else maxCount
    ensures kept in Own(Capped(reports, account, maxCount), account) && gone in Own(reports, account)
            && gone !in Capped(reports, account, maxCount)
            ==> Newer(reports, kept, gone)
  {
    var sorted := Sort(ByAge(reports), own);
    NewestFirst(reports, own);
    SortKeeps(ByAge(reports), own);
    var n := if |own| < maxCount then |own| else maxCount;
    CapKeepsFirst(reports, account, maxCount, sorted, n);
    SizeOf(sorted[..n]);
    assert forall r :: r in Own(Capped(reports, account, maxCount), account) <==> r in sorted[..n];
    if kept in sorted[..n] && gone in Own(reports, account) && gone !in Capped(reports, account, maxCount) {
      assert gone in sorted && gone !in Own(Capped(reports, account, maxCount), account);
      FirstIsNewer(reports, sorted, n, kept, gone);
    }
  }

  lemma CapKeepsFirst(reports: Reports, account: nat, maxCount: nat, sorted: seq<string>, n: nat)
    requires NoRepeats(sorted) && SortedBy(ByAge(reports), sorted)
    requires forall r :: r in sorted <==> r in Own(reports, account)
    requires maxCount > 0 && n == if |sorted| < maxCount then |sorted| else maxCount
    ensures Own(Capped(reports, account, maxCount), account) == set r | r in sorted[..n]
  {
    OffsetIsPastNewest(reports, Own(reports, account), sorted, maxCount);
    assert PastNewest(reports, Own(reports, account), maxCount) == set r | r in sorted[n..];
    forall r ensures r in Own(Capped(reports, account, maxCount), account) <==> r in sorted[..n] {
      KeptAreFirst(reports, account, sorted, n, r);
    }
  }

  lemma FirstIsNewer(reports: Reports, sorted: seq<string>, n: nat, kept: string, gone: string)
    requires SortedBy(ByAge(reports), sorted) && n <= |sorted| && kept in sorted[..n] && gone in sorted
             && gone !in sorted[..n]
    ensures Newer(reports, kept, gone)
  {
    var i :| 0 <= i < n && sorted[..n][i] == kept;
    var j :| 0 <= j < |sorted| && sorted[j] == gone;
    assert forall m | 0 <= m < n :: sorted[..n][m] == sorted[m];
    assert ByAge(reports)(sorted[i], sorted[j]);
  }

  lemma KeptAreFirst(left: Reports, account: nat, sorted: seq<string>, n: nat, r: string)
    requires n <= |sorted| && NoRepeats(sorted) && forall x :: x in sorted <==> x in Own(left, account)
    ensures r in Own(left - (set x | x in sorted[n..]), account) <==> r in sorted[..n]
  {
    if r in sorted {
      var i :| 0 <= i < |sorted| && sorted[i] == r;
      assert i < n ==> sorted[..n][i] == r;
      assert i >= n ==> sorted[n..][i - n] == r;
    }
  }
}
