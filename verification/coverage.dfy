/**
 Frontend coverage (scripts/crap/frontend_crap.ts): end-to-end reports merged
 into the unit tests' report line by line, and the coverage of one function.
 */
module Coverage {
  import opened Ratchet
  import RatchetLaws

  type Lines = map<nat, nat>
  type Report = map<string, Lines>

  function Hits(lines: Lines, n: nat): nat { if n in lines then lines[n] else 0 }

  function LinesOf(report: Report, file: string): Lines { if file in report then report[file] else map[] }

  /** A file's lines after a merge: one the unit tests loaded keeps its own lines. */
  function MergedLines(lines: Lines, extra: Lines, loaded: bool): Lines {
    map n | n in lines.Keys + (if loaded then {} else extra.Keys) :: Hits(lines, n) + Hits(extra, n)
  }

  function MergedFile(hits: Report, extra: Report, unit: set<string>, file: string): Lines {
    MergedLines(LinesOf(hits, file), LinesOf(extra, file), file in unit)
  }

  function Merged(hits: Report, extra: Report, unit: set<string>): Report {
    map f | f in hits.Keys + extra.Keys :: MergedFile(hits, extra, unit, f)
  }

  function MergedAll(hits: Report, reports: seq<Report>, unit: set<string>): Report {
    if reports == [] then hits
    else Merged(MergedAll(hits, reports[..|reports| - 1], unit), reports[|reports| - 1], unit)
  }

  lemma MergedAt(hits: Report, extra: Report, unit: set<string>, file: string)
    ensures LinesOf(Merged(hits, extra, unit), file) == MergedFile(hits, extra, unit, file)
  {}

  /** One end-to-end report's lines of one file, taken in any order. */
  method MergeFile(da: Lines, extra: Lines, loaded: bool) returns (lines: Lines)
    ensures lines == MergedLines(da, extra, loaded)
  {
    lines := da;
    var ns := extra.Keys;
    while ns != {}
      invariant ns <= extra.Keys && lines.Keys == da.Keys + (if loaded then {} else extra.Keys - ns)
      invariant forall n | n in lines :: lines[n] == Hits(da, n) + if n in ns then 0 else Hits(extra, n)
    {
      var n :| n in ns;
      if !loaded || n in lines {
        lines := lines[n := Hits(lines, n) + extra[n]];
      }
      ns := ns - {n};
    }
  }

  /** One end-to-end report, its files taken in any order. */
  method Merge(hits: Report, extra: Report, unit: set<string>) returns (out: Report)
    ensures out == Merged(hits, extra, unit)
  {
    out := hits;
    var files := extra.Keys;
    while files != {}
      invariant files <= extra.Keys && out.Keys == hits.Keys + (extra.Keys - files)
      invariant MergedBut(hits, extra, unit, files, out)
    {
      var file :| file in files;
      var lines := MergeFile(LinesOf(out, file), extra[file], file in unit);
      OneFileMerged(hits, extra, unit, files, out, file, lines);
      out := out[file := lines];
      files := files - {file};
    }
    MergedThroughout(hits, extra, unit, out);
  }

  /** All but `files` of the report are merged into `out`. */
  ghost predicate MergedBut(hits: Report, extra: Report, unit: set<string>, files: set<string>, out: Report) {
    forall f | f in out ::
      out[f] == if f in extra && f !in files then MergedFile(hits, extra, unit, f) else LinesOf(hits, f)
  }

  lemma OneFileMerged(hits: Report, extra: Report, unit: set<string>, files: set<string>, out: Report,
                      file: string, lines: Lines)
    requires MergedBut(hits, extra, unit, files, out) && file in files && file in extra
    requires file in hits ==> file in out
    requires lines == MergedLines(LinesOf(out, file), extra[file], file in unit)
    ensures MergedBut(hits, extra, unit, files - {file}, out[file := lines])
  {
    assert LinesOf(out, file) == LinesOf(hits, file);
    assert lines == MergedFile(hits, extra, unit, file);
  }

  lemma MergedThroughout(hits: Report, extra: Report, unit: set<string>, out: Report)
    requires MergedBut(hits, extra, unit, {}, out) && out.Keys == hits.Keys + extra.Keys
    ensures out == Merged(hits, extra, unit)
  {
    forall f | f in out ensures out[f] == MergedFile(hits, extra, unit, f) {
      if f !in extra { MergedWithNothing(LinesOf(hits, f), f in unit); }
    }
  }

  lemma MergedWithNothing(lines: Lines, loaded: bool)
    ensures MergedLines(lines, map[], loaded) == lines
  {}

  /** Every report in turn; the files the unit tests loaded are fixed at the start. */
  method MergeAll(unitHits: Report, reports: seq<Report>) returns (hits: Report)
    ensures hits == MergedAll(unitHits, reports, unitHits.Keys)
  {
    hits := unitHits;
    for i := 0 to |reports|
      invariant hits == MergedAll(unitHits, reports[..i], unitHits.Keys)
    {
      assert reports[..i + 1][..i] == reports[..i];
      hits := Merge(hits, reports[i], unitHits.Keys);
    }
    assert reports[..|reports|] == reports;
  }

  // -------------------------------------------------------------- a function

  /** A function's place in its file; `nested` are the lines of functions inside it. */
  datatype Function = Function(first: nat, last: nat, nested: set<nat>, cc: nat)

  /** The lines that count: reported ones, less those of nested functions below the first line. */
  function Counted(fn: Function, lines: Lines): set<nat> {
    set n | n in lines && fn.first <= n <= fn.last && (n !in fn.nested || n == fn.first)
  }

  function Covered(fn: Function, lines: Lines): set<nat> {
    set n | n in Counted(fn, lines) && lines[n] > 0
  }

  function Share(covered: nat, total: nat): real {
    if total == 0 then 0.0 else covered as real / total as real
  }

  function CoverageOf(fn: Function, lines: Lines): real {
    Share(|Covered(fn, lines)|, |Counted(fn, lines)|)
  }

  lemma OwnLinesCount(fn: Function, lines: Lines)
    ensures var own := set n | n in lines && fn.first <= n <= fn.last && (n == fn.first || n !in fn.nested);
            var run := set n | n in own && lines[n] > 0;
            CoverageOf(fn, lines) == if own == {} then 0.0 else |run| as real / |own| as real
  {
    var own := set n | n in lines && fn.first <= n <= fn.last && (n == fn.first || n !in fn.nested);
    var run := set n | n in own && lines[n] > 0;
    assert Counted(fn, lines) == own && Covered(fn, lines) == run;
    assert own == {} <==> |own| == 0;
  }

  method MeasureCoverage(fn: Function, file: string, hits: Report) returns (coverage: real)
    ensures coverage == CoverageOf(fn, LinesOf(hits, file))
    ensures var lines := LinesOf(hits, file);
            var own := set n | n in lines && fn.first <= n <= fn.last && (n == fn.first || n !in fn.nested);
            var run := set n | n in own && lines[n] > 0;
            if own == {} then coverage == 0.0 else coverage == |run| as real / |own| as real
  {
    coverage := CountLines(fn, file, hits);
    OwnLinesCount(fn, LinesOf(hits, file));
  }

  /** The loop over the function's lines. */
  method CountLines(fn: Function, file: string, hits: Report) returns (coverage: real)
    ensures coverage == CoverageOf(fn, LinesOf(hits, file))
  {
    var total, covered := 0, 0;
    if file in hits {
      var da := hits[file];
      ghost var below: set<nat> := {};
      ghost var run: set<nat> := {};
      var n := fn.first;
      while n <= fn.last
        invariant below == set l | l in Counted(fn, da) && l < n
        invariant run == set l | l in Covered(fn, da) && l < n
        invariant total == |below| && covered == |run|
        decreases fn.last + 1 - n
      {
        if !(n in fn.nested && n != fn.first) && n in da {
          total := total + 1;
          below := below + {n};
          if da[n] > 0 {
            covered := covered + 1;
            run := run + {n};
          }
        }
        n := n + 1;
      }
      assert below == Counted(fn, da) && run == Covered(fn, da);
    } else {
      assert Counted(fn, map[]) == {} && Covered(fn, map[]) == {};
    }
    coverage := if total == 0 then 0.0 else covered as real / total as real;
  }

  // -------------------------------------------------------------------- laws

  /** The hits of one line in all the reports. */
  function HitsIn(reports: seq<Report>, file: string, n: nat): nat {
    if reports == [] then 0
    else
      var last := reports[|reports| - 1];
      HitsIn(reports[..|reports| - 1], file, n) + if file in last && n in last[file] then last[file][n] else 0
  }

  /** The unit tests have the line, or never loaded its file and a report has it. */
  ghost predicate HasLine(unitHits: Report, reports: seq<Report>, file: string, n: nat) {
    if file in unitHits then n in unitHits[file]
    else exists i | 0 <= i < |reports| :: file in reports[i] && n in reports[i][file]
  }

  lemma HasLineMore(unitHits: Report, reports: seq<Report>, file: string, n: nat)
    requires reports != []
    ensures var front, last := reports[..|reports| - 1], reports[|reports| - 1];
            HasLine(unitHits, reports, file, n)
            <==> HasLine(unitHits, front, file, n) || (file !in unitHits && file in last && n in last[file])
  {
    var front := reports[..|reports| - 1];
    if file !in unitHits {
      assert forall i | 0 <= i < |front| :: front[i] == reports[i];
      if i :| 0 <= i < |front| && file in front[i] && n in front[i][file] { assert file in reports[i]; }
    }
  }

  /** The lines after the merge are those, each with the unit tests' hits and every report's added up. */
  lemma {:induction false} HitsAreSummed(unitHits: Report, reports: seq<Report>, file: string, n: nat)
    ensures var lines := LinesOf(MergedAll(unitHits, reports, unitHits.Keys), file);
            && (n in lines <==> HasLine(unitHits, reports, file, n))
            && (n in lines ==> lines[n] == (if file in unitHits && n in unitHits[file] then unitHits[file][n] else 0)
                                           + HitsIn(reports, file, n))
  {
    if reports != [] {
      var front, last := reports[..|reports| - 1], reports[|reports| - 1];
      HitsAreSummed(unitHits, front, file, n);
      MergedAt(MergedAll(unitHits, front, unitHits.Keys), last, unitHits.Keys, file);
      HasLineMore(unitHits, reports, file, n);
      if file !in unitHits && !HasLine(unitHits, front, file, n) { NoHits(front, file, n); }
    }
  }

  lemma {:induction false} NoHits(reports: seq<Report>, file: string, n: nat)
    requires forall i | 0 <= i < |reports| :: !(file in reports[i] && n in reports[i][file])
    ensures HitsIn(reports, file, n) == 0
  {
    if reports != [] { NoHits(reports[..|reports| - 1], file, n); }
  }

  lemma ShareRange(covered: nat, total: nat)
    requires covered <= total
    ensures 0.0 <= Share(covered, total) <= 1.0
  {
    if total > 0 { assert covered as real / total as real <= total as real / total as real; }
  }

  lemma ShareGrows(less: nat, more: nat, total: nat)
    requires less <= more <= total
    ensures Share(less, total) <= Share(more, total)
  {}

  lemma SubsetSize(a: set<nat>, b: set<nat>)
    requires a <= b
    ensures |a| <= |b|
  {
    if a != {} {
      var x :| x in a;
      SubsetSize(a - {x}, b - {x});
    }
  }

  lemma CoverageRange(fn: Function, lines: Lines)
    ensures 0.0 <= CoverageOf(fn, lines) <= 1.0
  {
    SubsetSize(Covered(fn, lines), Counted(fn, lines));
    ShareRange(|Covered(fn, lines)|, |Counted(fn, lines)|);
  }

  /** With the same lines, more hits never lower a function's coverage. */
  lemma MoreHitsMoreCoverage(fn: Function, lines: Lines, more: Lines)
    requires lines.Keys == more.Keys && forall n | n in lines :: lines[n] <= more[n]
    ensures CoverageOf(fn, lines) <= CoverageOf(fn, more)
  {
    assert Counted(fn, lines) == Counted(fn, more);
    assert Covered(fn, lines) <= Covered(fn, more) <= Counted(fn, more);
    SubsetSize(Covered(fn, lines), Covered(fn, more));
    SubsetSize(Covered(fn, more), Counted(fn, more));
    ShareGrows(|Covered(fn, lines)|, |Covered(fn, more)|, |Counted(fn, more)|);
  }

  lemma {:induction false} LoadedFilesKeepTheirLines(unitHits: Report, reports: seq<Report>, file: string)
    requires file in unitHits
    ensures var merged := MergedAll(unitHits, reports, unitHits.Keys);
            file in merged && merged[file].Keys == unitHits[file].Keys
            && forall n | n in unitHits[file] :: unitHits[file][n] <= merged[file][n]
  {
    if reports != [] { LoadedFilesKeepTheirLines(unitHits, reports[..|reports| - 1], file); }
  }

  /** However many end-to-end reports are merged, no function of any file scores higher than it does
      on the unit tests alone. */
  lemma EndToEndNeverRaisesAScore(unitHits: Report, reports: seq<Report>, file: string, fn: Function)
    ensures var merged := MergedAll(unitHits, reports, unitHits.Keys);
            CoverageOf(fn, LinesOf(unitHits, file)) <= CoverageOf(fn, LinesOf(merged, file))
            && Crap(fn.cc, CoverageOf(fn, LinesOf(merged, file)))
               <= Crap(fn.cc, CoverageOf(fn, LinesOf(unitHits, file)))
  {
    var merged := MergedAll(unitHits, reports, unitHits.Keys);
    CoverageRange(fn, LinesOf(unitHits, file));
    CoverageRange(fn, LinesOf(merged, file));
    if file in unitHits {
      LoadedFilesKeepTheirLines(unitHits, reports, file);
      MoreHitsMoreCoverage(fn, unitHits[file], merged[file]);
    } else {
      assert Counted(fn, map[]) == {};
    }
    RatchetLaws.CrapFallsWithCoverage(fn.cc, CoverageOf(fn, LinesOf(unitHits, file)),
                                      CoverageOf(fn, LinesOf(merged, file)));
  }

  ghost predicate NeverScoresHigher(was: Lines, now: Lines) {
    forall fn: Function :: Crap(fn.cc, CoverageOf(fn, now)) <= Crap(fn.cc, CoverageOf(fn, was))
  }

  /** The report brings no unrun line to a file that has a run one, or none at all. */
  predicate BringsNoGap(was: Lines, more: Lines, loaded: bool) {
    || loaded
    || (forall n | n in more && n !in was :: more[n] > 0)
    || (forall m | m in was :: was[m] == 0)
  }

  /** One report more raises no function's score, wherever in the file it is, if and only if the unit
      tests loaded the file, or every line the report adds was run, or no line was before. */
  lemma OneMoreReport(hits: Report, extra: Report, unit: set<string>, file: string)
    ensures NeverScoresHigher(LinesOf(hits, file), LinesOf(Merged(hits, extra, unit), file))
       <==> BringsNoGap(LinesOf(hits, file), LinesOf(extra, file), file in unit)
  {
    var was, more := LinesOf(hits, file), LinesOf(extra, file);
    MergedAt(hits, extra, unit, file);
    if BringsNoGap(was, more, file in unit) {
      forall fn: Function
        ensures Crap(fn.cc, CoverageOf(fn, MergedLines(was, more, file in unit))) <= Crap(fn.cc, CoverageOf(fn, was))
      {
        NoGapNoLoss(fn, was, more, file in unit);
      }
    } else {
      var n :| n in more && n !in was && more[n] == 0;
      var m :| m in was && was[m] > 0;
      GapLowers(was, more, m, n);
    }
  }

  lemma NoGapNoLoss(fn: Function, was: Lines, more: Lines, loaded: bool)
    requires BringsNoGap(was, more, loaded)
    ensures Crap(fn.cc, CoverageOf(fn, MergedLines(was, more, loaded))) <= Crap(fn.cc, CoverageOf(fn, was))
  {
    var now := MergedLines(was, more, loaded);
    CoverageRange(fn, was);
    CoverageRange(fn, now);
    if forall m | m in was :: was[m] == 0 {
      assert Covered(fn, was) == {};
    } else {
      NewLinesAllRun(fn, was, more, loaded);
    }
    RatchetLaws.CrapFallsWithCoverage(fn.cc, CoverageOf(fn, was), CoverageOf(fn, now));
  }

  /** The function of the run line and the new unrun one alone. */
  lemma GapLowers(was: Lines, more: Lines, m: nat, n: nat)
    requires m in was && was[m] > 0 && n in more && n !in was && more[n] == 0
    ensures !NeverScoresHigher(was, MergedLines(was, more, false))
  {
    var first, last := if m < n then m else n, if m < n then n else m;
    var fn := Function(first, last, was.Keys + more.Keys - {m, n}, 1);
    var now := MergedLines(was, more, false);
    assert Counted(fn, was) == {m} && Covered(fn, was) == {m};
    assert Counted(fn, now) == {m, n} && Covered(fn, now) == {m};
    assert CoverageOf(fn, was) == 1.0 && CoverageOf(fn, now) == 0.5;
    assert Crap(1, 1.0) == 1.0 && Crap(1, 0.5) == 1.125;
  }

  lemma NewLinesAllRun(fn: Function, was: Lines, more: Lines, loaded: bool)
    requires loaded || forall n | n in Counted(fn, more) && n !in was :: more[n] > 0
    ensures CoverageOf(fn, was) <= CoverageOf(fn, MergedLines(was, more, loaded))
  {
    AddedAreCovered(fn, was, more, loaded);
    var now := MergedLines(was, more, loaded);
    SharesOfSets(Covered(fn, was), Counted(fn, was), Covered(fn, now), Counted(fn, now));
  }

  lemma SharesOfSets(p: set<nat>, c: set<nat>, q: set<nat>, d: set<nat>)
    requires p <= c <= d && p + (d - c) <= q <= d
    ensures Share(|p|, |c|) <= Share(|q|, |d|)
  {
    var added := d - c;
    assert d == c + added && p !! added;
    assert |d| == |c| + |added| && |p + added| == |p| + |added|;
    SubsetSize(p + added, q);
    SubsetSize(p, c);
    SubsetSize(q, d);
    ShareWithMore(|p|, |c|, |added|);
    ShareGrows(|p| + |added|, |q|, |d|);
  }

  lemma AddedAreCovered(fn: Function, was: Lines, more: Lines, loaded: bool)
    requires loaded || forall n | n in Counted(fn, more) && n !in was :: more[n] > 0
    ensures var now := MergedLines(was, more, loaded);
            Counted(fn, was) <= Counted(fn, now)
            && Covered(fn, was) + (Counted(fn, now) - Counted(fn, was)) <= Covered(fn, now) <= Counted(fn, now)
  {
    var now := MergedLines(was, more, loaded);
    forall n | n in Counted(fn, now) && n !in Counted(fn, was) ensures n in Covered(fn, now) {
      assert n in Counted(fn, more);
    }
    forall n | n in Covered(fn, was) ensures n in Covered(fn, now) {
      assert n in now && now[n] >= was[n];
    }
  }

  lemma ShareWithMore(covered: nat, total: nat, added: nat)
    requires covered <= total
    ensures Share(covered, total) <= Share(covered + added, total + added)
  {
    if total > 0 {
      var c, t, a := covered as real, total as real, added as real;
      var share := c / t;
      assert share * t == c && share <= 1.0;
      assert share * a <= a;
      assert share * (t + a) <= c + a;
      assert share <= (c + a) / (t + a) by { DivideBoth(share, c + a, t + a); }
    }
  }

  lemma DivideBoth(x: real, y: real, d: real)
    requires d > 0.0 && x * d <= y
    ensures x <= y / d
  {
    assert x == (x * d) / d;
  }

  /** A later report can lower the coverage of a file the unit tests never loaded: it brings a line of
      the function that it did not run. */
  lemma LaterReportCanLower(fn: Function, file: string, n: nat)
    requires fn.first < n <= fn.last && n !in fn.nested
    ensures var hits: Report := map[file := map[fn.first := 1]];
            CoverageOf(fn, LinesOf(hits, file)) == 1.0
            && CoverageOf(fn, LinesOf(Merged(hits, map[file := map[n := 0]], {}), file)) == 0.5
  {
    var hits: Report := map[file := map[fn.first := 1]];
    var one: Lines, two: Lines := map[fn.first := 1], map[fn.first := 1, n := 0];
    MergedAt(hits, map[file := map[n := 0]], {}, file);
    assert MergedLines(one, map[n := 0], false) == two;
    OneOfOne(fn, one);
    OneOfTwo(fn, two, n);
  }

  lemma OneOfOne(fn: Function, lines: Lines)
    requires fn.first <= fn.last && lines == map[fn.first := 1]
    ensures CoverageOf(fn, lines) == 1.0
  {
    assert Counted(fn, lines) == {fn.first} && Covered(fn, lines) == {fn.first};
  }

  lemma OneOfTwo(fn: Function, lines: Lines, n: nat)
    requires fn.first < n <= fn.last && n !in fn.nested && lines == map[fn.first := 1, n := 0]
    ensures CoverageOf(fn, lines) == 0.5
  {
    assert Counted(fn, lines) == {fn.first, n} && Covered(fn, lines) == {fn.first};
  }

  // ------------------------------------------------------ order of the reports

  lemma LinesCommute(da: Lines, a: Lines, b: Lines, loaded: bool)
    ensures MergedLines(MergedLines(da, a, loaded), b, loaded) == MergedLines(MergedLines(da, b, loaded), a, loaded)
  {}

  lemma MergesCommute(hits: Report, a: Report, b: Report, unit: set<string>)
    ensures Merged(Merged(hits, a, unit), b, unit) == Merged(Merged(hits, b, unit), a, unit)
  {
    var ab, ba := Merged(Merged(hits, a, unit), b, unit), Merged(Merged(hits, b, unit), a, unit);
    assert ab.Keys == ba.Keys;
    forall f | f in ab ensures ab[f] == ba[f] { FilesCommute(hits, a, b, unit, f); }
  }

  lemma FilesCommute(hits: Report, a: Report, b: Report, unit: set<string>, f: string)
    ensures LinesOf(Merged(Merged(hits, a, unit), b, unit), f) == LinesOf(Merged(Merged(hits, b, unit), a, unit), f)
  {
    MergedAt(hits, a, unit, f);
    MergedAt(hits, b, unit, f);
    MergedAt(Merged(hits, a, unit), b, unit, f);
    MergedAt(Merged(hits, b, unit), a, unit, f);
    LinesCommute(LinesOf(hits, f), LinesOf(a, f), LinesOf(b, f), f in unit);
  }

  lemma MergedOneMore(hits: Report, reports: seq<Report>, x: Report, unit: set<string>)
    ensures MergedAll(hits, reports + [x], unit) == Merged(MergedAll(hits, reports, unit), x, unit)
  {
    assert (reports + [x])[..|reports|] == reports;
  }

  lemma {:induction false} MergedLast(hits: Report, before: seq<Report>, x: Report, after: seq<Report>,
                                      unit: set<string>)
    ensures MergedAll(hits, before + [x] + after, unit) == Merged(MergedAll(hits, before + after, unit), x, unit)
  {
    if after == [] {
      assert before + [x] + after == before + [x] && before + after == before;
      MergedOneMore(hits, before, x, unit);
    } else {
      var front, y := after[..|after| - 1], after[|after| - 1];
      assert after == front + [y];
      assert before + [x] + after == (before + [x] + front) + [y] && before + after == (before + front) + [y];
      MergedLast(hits, before, x, front, unit);
      MergedOneMore(hits, before + [x] + front, y, unit);
      MergedOneMore(hits, before + front, y, unit);
      MergesCommute(MergedAll(hits, before + front, unit), x, y, unit);
    }
  }

  lemma WithoutOneReport(front: seq<Report>, x: Report, before: seq<Report>, after: seq<Report>)
    requires multiset(front + [x]) == multiset(before + [x] + after)
    ensures multiset(front) == multiset(before + after)
  {
    assert multiset(front) == multiset(front + [x]) - multiset{x};
    assert multiset(before + after) == multiset(before + [x] + after) - multiset{x};
  }

  /** The merge does not depend on the order of the reports. */
  lemma PulledOut(reports: seq<Report>, x: Report) returns (before: seq<Report>, after: seq<Report>)
    requires multiset(reports)[x] > 0
    ensures reports == before + [x] + after
  {
    assert x in reports;
    var j :| 0 <= j < |reports| && reports[j] == x;
    before, after := reports[..j], reports[j + 1..];
  }

  lemma {:induction false} ReportsInAnyOrder(hits: Report, reports: seq<Report>, shuffled: seq<Report>,
                                             unit: set<string>)
    requires multiset(reports) == multiset(shuffled)
    ensures MergedAll(hits, reports, unit) == MergedAll(hits, shuffled, unit)
    decreases |reports|
  {
    assert |reports| == |multiset(reports)| == |multiset(shuffled)| == |shuffled|;
    if reports == [] {
      assert shuffled == [];
    } else {
      var front, x := reports[..|reports| - 1], reports[|reports| - 1];
      assert reports == front + [x];
      var before, after := PulledOut(shuffled, x);
      MergedLast(hits, before, x, after, unit);
      WithoutOneReport(front, x, before, after);
      ReportsInAnyOrder(hits, front, before + after, unit);
    }
  }
}
