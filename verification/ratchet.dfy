/**
 The CRAP ratchet (scripts/crap/ratchet.py) and the pre-push check that must
 agree with it (scripts/crap/backend_complexity.py). Scores are real numbers.
 */
module Ratchet {
  import opened Options
  import opened Ordering
  import opened Decimals
  import opened Dicts
  import opened Strings

  datatype Row = Row(file: string, line: nat, name: string, cc: nat, cov: real)
  datatype Entry = Entry(score: real, reason: string)
  datatype Failure =
    | New(key: string, row: Row)
    | Rose(key: string, row: Row, recorded: real)
    | Improved(key: string, row: Row, recorded: real)
    | Stale(key: string, recorded: real, now: Option<real>)
    | NoReason(key: string)

  const THRESHOLD := 30.0
  const TOLERANCE := 0.75
  const WARN_AT := 25

  function Crap(cc: nat, cov: real): real {
    (cc * cc) as real * ((1.0 - cov) * (1.0 - cov) * (1.0 - cov)) + cc as real
  }

  function Score(r: Row): real { Crap(r.cc, r.cov) }

  predicate Over(r: Row) { Score(r) > THRESHOLD }

  /** `round(x, 2)`: to hundredths, a half going to the even one. */
  function Round2(x: real): real {
    var hundredths := x * 100.0;
    var below := hundredths.Floor;
    var past := hundredths - below as real;
    (if past < 0.5 || (past == 0.5 && below % 2 == 0) then below else below + 1) as real / 100.0
  }

  // ------------------------------------------------------------------- keys

  predicate RowAtMost(a: Row, b: Row) {
    if a.file != b.file then AtMost(a.file, b.file)
    else if a.line != b.line then a.line < b.line
    else AtMost(a.name, b.name)
  }

  function Key(file: string, name: string, n: nat): string {
    file + "::" + name + if n > 1 then "#" + Decimal(n) else ""
  }

  /** The rows of one name in one file, in order. */
  function Named(rows: seq<Row>, file: string, name: string): seq<Row> {
    if rows == [] then []
    else
      var last := rows[|rows| - 1];
      Named(rows[..|rows| - 1], file, name) + if last.file == file && last.name == name then [last] else []
  }

  const NO_ROWS: Dict<Row> := Dict([], map[])

  function KeyedInOrder(rows: seq<Row>): Dict<Row> {
    if rows == [] then NO_ROWS
    else
      var last := rows[|rows| - 1];
      Put(KeyedInOrder(rows[..|rows| - 1]), Key(last.file, last.name, |Named(rows, last.file, last.name)|), last)
  }

  function InSourceOrder(rows: seq<Row>): seq<Row> { Sort(RowAtMost, rows) }

  function Keyed(rows: seq<Row>): Dict<Row> { KeyedInOrder(InSourceOrder(rows)) }

  lemma OneMoreNamed(rows: seq<Row>, i: nat)
    requires i < |rows|
    ensures forall file, name :: |Named(rows[..i + 1], file, name)|
              == |Named(rows[..i], file, name)| + if rows[i].file == file && rows[i].name == name then 1 else 0
    ensures var r := rows[i];
            KeyedInOrder(rows[..i + 1])
            == Put(KeyedInOrder(rows[..i]), Key(r.file, r.name, |Named(rows[..i + 1], r.file, r.name)|), r)
  {
    assert rows[..i + 1][..i] == rows[..i];
  }

  method KeyRows(rows: seq<Row>) returns (out: Dict<Row>)
    ensures out == Keyed(rows)
  {
    var sorted := InSourceOrder(rows);
    var seen: map<(string, string), nat> := map[];
    out := NO_ROWS;
    for i := 0 to |sorted|
      invariant out == KeyedInOrder(sorted[..i])
      invariant forall f, n :: |Named(sorted[..i], f, n)| == if (f, n) in seen then seen[(f, n)] else 0
    {
      var r := sorted[i];
      OneMoreNamed(sorted, i);
      var n := 1 + if (r.file, r.name) in seen then seen[(r.file, r.name)] else 0;
      seen := seen[(r.file, r.name) := n];
      out := Put(out, Key(r.file, r.name, n), r);
    }
    assert sorted[..|sorted|] == sorted;
  }

  /** `s.split("/", 1)[0]`. */
  function Side(s: string): string {
    if s == [] || s[0] == '/' then "" else [s[0]] + Side(s[1..])
  }

  function Mine(baseline: Dict<Entry>, sides: set<string>): Dict<Entry> {
    Only(k => Side(k) in sides, baseline)
  }

  // ------------------------------------------------------------------ check

  function RowFailures(key: string, r: Row, mine: map<string, Entry>): seq<Failure> {
    if Score(r) <= THRESHOLD then []
    else if key !in mine then [New(key, r)]
    else if Score(r) > mine[key].score + TOLERANCE then [Rose(key, r, mine[key].score)]
    else if Score(r) < mine[key].score - TOLERANCE then [Improved(key, r, mine[key].score)]
    else []
  }

  function EntryFailures(key: string, e: Entry, fns: map<string, Row>): seq<Failure> {
    (if key !in fns then [Stale(key, e.score, None)]
     else if Score(fns[key]) <= THRESHOLD then [Stale(key, e.score, Some(Score(fns[key])))] else [])
    + if Blank(e.reason) then [NoReason(key)] else []
  }

  function AllRowFailures(keys: seq<string>, fns: map<string, Row>, mine: map<string, Entry>): seq<Failure>
    requires forall k | k in keys :: k in fns
  {
    if keys == [] then []
    else
      var k := keys[|keys| - 1];
      AllRowFailures(keys[..|keys| - 1], fns, mine) + RowFailures(k, fns[k], mine)
  }

  function AllEntryFailures(keys: seq<string>, fns: map<string, Row>, mine: map<string, Entry>): seq<Failure>
    requires forall k | k in keys :: k in mine
  {
    if keys == [] then []
    else
      var k := keys[|keys| - 1];
      AllEntryFailures(keys[..|keys| - 1], fns, mine) + EntryFailures(k, mine[k], fns)
  }

  /** Every failure, in the order it is reported. */
  function Failures(rows: seq<Row>, baseline: Dict<Entry>, sides: set<string>): seq<Failure>
    requires Sound(baseline)
  {
    var fns, mine := Keyed(rows), Mine(baseline, sides);
    KeyedSound(InSourceOrder(rows));
    OnlySound(k => Side(k) in sides, baseline);
    SortKeeps(AtMost, mine.order);
    AllRowFailures(fns.order, fns.at, mine.at) + AllEntryFailures(Sort(AtMost, mine.order), fns.at, mine.at)
  }

  lemma {:induction false} KeyedSound(rows: seq<Row>)
    ensures Sound(KeyedInOrder(rows))
  {
    if rows != [] {
      var last := rows[|rows| - 1];
      KeyedSound(rows[..|rows| - 1]);
      PutSound(KeyedInOrder(rows[..|rows| - 1]), Key(last.file, last.name, |Named(rows, last.file, last.name)|), last);
    }
  }

  method Check(rows: seq<Row>, baseline: Dict<Entry>, sides: set<string>) returns (failures: seq<Failure>)
    requires Sound(baseline)
    ensures failures == Failures(rows, baseline, sides)
  {
    var fns := KeyRows(rows);
    var mine := Mine(baseline, sides);
    KeyedSound(InSourceOrder(rows));
    OnlySound(k => Side(k) in sides, baseline);
    SortKeeps(AtMost, mine.order);
    var over := CheckRows(fns.order, fns.at, mine.at);
    var leftover := CheckEntries(Sort(AtMost, mine.order), fns.at, mine.at);
    failures := over + leftover;
  }

  /** Rules (a), (b) and (e): the first loop of `check`. */
  method CheckRows(keys: seq<string>, fns: map<string, Row>, mine: map<string, Entry>) returns (failures: seq<Failure>)
    requires forall k | k in keys :: k in fns
    ensures failures == AllRowFailures(keys, fns, mine)
  {
    failures := [];
    for i := 0 to |keys|
      invariant failures == AllRowFailures(keys[..i], fns, mine)
    {
      var key := keys[i];
      var r := fns[key];
      assert keys[..i + 1][..i] == keys[..i];
      assert failures + [] == failures;
      var score := Score(r);
      if score <= THRESHOLD { continue; }
      if key !in mine {
        failures := failures + [New(key, r)];
      } else if score > mine[key].score + TOLERANCE {
        failures := failures + [Rose(key, r, mine[key].score)];
      } else if score < mine[key].score - TOLERANCE {
        failures := failures + [Improved(key, r, mine[key].score)];
      }
    }
    assert keys[..|keys|] == keys;
  }

  /** Rules (c) and (d): the second loop of `check`. */
  method CheckEntries(keys: seq<string>, fns: map<string, Row>, mine: map<string, Entry>)
    returns (failures: seq<Failure>)
    requires forall k | k in keys :: k in mine
    ensures failures == AllEntryFailures(keys, fns, mine)
  {
    failures := [];
    for i := 0 to |keys|
      invariant failures == AllEntryFailures(keys[..i], fns, mine)
    {
      var key := keys[i];
      assert keys[..i + 1][..i] == keys[..i];
      ghost var before := failures;
      if key !in fns {
        failures := failures + [Stale(key, mine[key].score, None)];
      } else if Score(fns[key]) <= THRESHOLD {
        failures := failures + [Stale(key, mine[key].score, Some(Score(fns[key])))];
      }
      if Blank(mine[key].reason) {
        failures := failures + [NoReason(key)];
      }
      assert failures == before + EntryFailures(key, mine[key], fns);
    }
    assert keys[..|keys|] == keys;
  }

  // ----------------------------------------------------------------- update

  function Recorded(r: Row, key: string, baseline: map<string, Entry>): Entry {
    Entry(Round2(Score(r)), if key in baseline then baseline[key].reason else "")
  }

  function WithOver(keys: seq<string>, fns: map<string, Row>, baseline: map<string, Entry>,
                    others: Dict<Entry>): Dict<Entry>
    requires forall k | k in keys :: k in fns
  {
    if keys == [] then others
    else
      var k := keys[|keys| - 1];
      var before := WithOver(keys[..|keys| - 1], fns, baseline, others);
      if Over(fns[k]) then Put(before, k, Recorded(fns[k], k, baseline)) else before
  }

  /** The baseline these rows would pass. */
  function Updated(rows: seq<Row>, baseline: Dict<Entry>, sides: set<string>): Dict<Entry> {
    var fns := Keyed(rows);
    KeyedSound(InSourceOrder(rows));
    Sorted(WithOver(fns.order, fns.at, baseline.at, Only(k => Side(k) !in sides, baseline)))
  }

  method Update(rows: seq<Row>, baseline: Dict<Entry>, sides: set<string>) returns (out: Dict<Entry>)
    ensures out == Updated(rows, baseline, sides)
  {
    out := Only(k => Side(k) !in sides, baseline);
    ghost var others := out;
    var fns := KeyRows(rows);
    KeyedSound(InSourceOrder(rows));
    for i := 0 to |fns.order|
      invariant out == WithOver(fns.order[..i], fns.at, baseline.at, others)
    {
      var key := fns.order[i];
      var r := fns.at[key];
      assert fns.order[..i + 1][..i] == fns.order[..i];
      var score := Score(r);
      if score > THRESHOLD {
        var reason := if key in baseline.at then baseline.at[key].reason else "";
        out := Put(out, key, Entry(Round2(score), reason));
      }
    }
    assert fns.order[..|fns.order|] == fns.order;
    out := Sorted(out);
  }

  // --------------------------------------------------------- pre-push check

  predicate FailsBeforePush(r: Row, baseline: map<string, Entry>) {
    Key(r.file, r.name, 1) !in baseline && r.cc >= WARN_AT && r.cc as real > THRESHOLD
  }

  predicate WarnsBeforePush(r: Row, baseline: map<string, Entry>) {
    Key(r.file, r.name, 1) !in baseline && r.cc >= WARN_AT && r.cc as real <= THRESHOLD
  }

  lemma {:induction false} KeptRows(keep: Row -> bool, rows: seq<Row>)
    ensures forall r :: r in Kept(keep, rows) <==> r in rows && keep(r)
  {
    if rows != [] {
      KeptRows(keep, rows[..|rows| - 1]);
      assert rows == rows[..|rows| - 1] + [rows[|rows| - 1]];
    }
  }

  lemma VerdictsAre(rows: seq<Row>, baseline: map<string, Entry>)
    ensures forall r :: r in Kept(x => FailsBeforePush(x, baseline), rows)
              <==> r in rows && r.file + "::" + r.name !in baseline && r.cc > 30
    ensures forall r :: r in Kept(x => WarnsBeforePush(x, baseline), rows)
              <==> r in rows && r.file + "::" + r.name !in baseline && 25 <= r.cc <= 30
  {
    KeptRows(x => FailsBeforePush(x, baseline), rows);
    KeptRows(x => WarnsBeforePush(x, baseline), rows);
    forall r: Row ensures Key(r.file, r.name, 1) == r.file + "::" + r.name {}
  }

  /** The rows the pre-push check fails, and the ones it warns about. */
  method Verdicts(rows: seq<Row>, baseline: map<string, Entry>) returns (failures: seq<Row>, warnings: seq<Row>)
    ensures failures == Kept(r => FailsBeforePush(r, baseline), rows)
    ensures warnings == Kept(r => WarnsBeforePush(r, baseline), rows)
    ensures forall r :: r in failures <==> r in rows && r.file + "::" + r.name !in baseline && r.cc > 30
    ensures forall r :: r in warnings <==> r in rows && r.file + "::" + r.name !in baseline && 25 <= r.cc <= 30
  {
    VerdictsAre(rows, baseline);
    failures, warnings := [], [];
    for i := 0 to |rows|
      invariant failures == Kept(r => FailsBeforePush(r, baseline), rows[..i])
      invariant warnings == Kept(r => WarnsBeforePush(r, baseline), rows[..i])
    {
      var r := rows[i];
      assert rows[..i + 1][..i] == rows[..i];
      assert failures + [] == failures && warnings + [] == warnings;
      if Key(r.file, r.name, 1) in baseline || r.cc < WARN_AT { continue; }
      if r.cc as real > THRESHOLD {
        failures := failures + [r];
      } else {
        warnings := warnings + [r];
      }
    }
    assert rows[..|rows|] == rows;
  }
}
