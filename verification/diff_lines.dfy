/**
 The unified-diff line tracker (scripts/check_em_dashes.py, and the same loop in
 scripts/check_glossary_words.py): which added lines of a diff hold what a
 commit may not add, and where they are in the new file.
 */
module DiffLines {
  import opened Options
  import opened Decimals
  import opened Strings

  const EM_DASH := '\U{2014}'

  datatype Offender = Offender(path: string, line: int, text: string)
  datatype Tracker = Tracker(path: Option<string>, line: int, found: seq<Offender>)

  const START := Tracker(None, 0, [])

  predicate Skipped(path: string) {
    || "frontend/src/client/" <= path || path == "frontend/openapi.json"
    || "backend/tests/fixtures/live/" <= path || EndsWith(path, ".generated.json")
  }

  predicate AddsEmDash(path: string, row: string) { !Skipped(path) && EM_DASH in row }

  // ------------------------------------------------------------------- rows

  /** What is left after `,\d+`, when that is what `s` starts with. */
  function AfterCount(s: string): string {
    if s != [] && s[0] == ',' && DigitRun(s[1..]) > 0 then s[1 + DigitRun(s[1..])..] else s
  }

  /** The line number in ` \+(\d+)(?:,\d+)? @@`. */
  function SideLine(side: string): Option<nat> {
    if !(" +" <= side) || DigitRun(side[2..]) == 0 then None
    else
      var n := DigitRun(side[2..]);
      if " @@" <= AfterCount(side[2 + n..]) then Some(Number(side[2..2 + n])) else None
  }

  /** The new file's line number in a hunk header; `None` for any other row. */
  function HunkLine(row: string): Option<nat> {
    if !("@@ -" <= row) || DigitRun(row[4..]) == 0 then None
    else SideLine(AfterCount(row[4 + DigitRun(row[4..])..]))
  }

  /** What the tracker takes a row for. */
  datatype Row = PathRow(path: Option<string>) | HunkRow(line: nat) | AddedRow(row: string) | RemovedRow | OtherRow

  function RowOf(row: string): Row {
    if "+++ " <= row then PathRow(if row[4..] == "/dev/null" then None else Some(RemovePrefix(row[4..], "b/")))
    else if HunkLine(row).Some? then HunkRow(HunkLine(row).value)
    else if "+" <= row then AddedRow(row)
    else if "-" <= row then RemovedRow
    else OtherRow
  }

  function Rows(rows: seq<string>): seq<Row> {
    if rows == [] then [] else Rows(rows[..|rows| - 1]) + [RowOf(rows[|rows| - 1])]
  }

  /** What an added row is reported as, when the tracker is at `line` of `path`. */
  function Reported(path: Option<string>, line: int, row: string, wanted: (string, string) -> bool): seq<Offender> {
    if path.Some? && path.value != "" && row != "" && wanted(path.value, row)
    then [Offender(path.value, line, Strip(row[1..]))] else []
  }

  function Read(t: Tracker, row: Row, wanted: (string, string) -> bool): Tracker {
    match row
    case PathRow(path) => t.(path := path)
    case HunkRow(line) => t.(line := line)
    case AddedRow(text) => t.(line := t.line + 1, found := t.found + Reported(t.path, t.line, text, wanted))
    case RemovedRow => t
    case OtherRow => t.(line := t.line + 1)
  }

  function ReadAll(t: Tracker, rows: seq<Row>, wanted: (string, string) -> bool): Tracker {
    if rows == [] then t else Read(ReadAll(t, rows[..|rows| - 1], wanted), rows[|rows| - 1], wanted)
  }

  lemma OneMoreRow(t: Tracker, rows: seq<string>, i: nat, wanted: (string, string) -> bool)
    requires i < |rows|
    ensures ReadAll(t, Rows(rows[..i + 1]), wanted) == Read(ReadAll(t, Rows(rows[..i]), wanted), RowOf(rows[i]), wanted)
  {
    assert rows[..i + 1][..i] == rows[..i];
    assert Rows(rows[..i + 1])[..|Rows(rows[..i])|] == Rows(rows[..i]);
  }

  method Offenders(rows: seq<string>, wanted: (string, string) -> bool) returns (found: seq<Offender>)
    ensures found == ReadAll(START, Rows(rows), wanted).found
  {
    found := [];
    var path: Option<string> := None;
    var line := 0;
    for i := 0 to |rows|
      invariant Tracker(path, line, found) == ReadAll(START, Rows(rows[..i]), wanted)
    {
      path, line, found := ReadRow(path, line, found, rows[i], wanted);
      OneMoreRow(START, rows, i, wanted);
    }
    assert rows[..|rows|] == rows;
  }

  /** The body of the loop over a diff's rows. */
  method ReadRow(path: Option<string>, line: int, found: seq<Offender>, row: string, wanted: (string, string) -> bool)
    returns (pathAfter: Option<string>, lineAfter: int, foundAfter: seq<Offender>)
    ensures Tracker(pathAfter, lineAfter, foundAfter) == Read(Tracker(path, line, found), RowOf(row), wanted)
  {
    pathAfter, lineAfter, foundAfter := path, line, found;
    assert found + [] == found;
    var hunk := HunkLine(row);
    if "+++ " <= row {
      var target := row[4..];
      pathAfter := if target == "/dev/null" then None else Some(RemovePrefix(target, "b/"));
    } else if hunk.Some? {
      lineAfter := hunk.value;
    } else if "+" <= row {
      if path.Some? && path.value != "" && wanted(path.value, row) {
        foundAfter := found + [Offender(path.value, line, Strip(row[1..]))];
      }
      lineAfter := line + 1;
    } else if !("-" <= row) {
      lineAfter := line + 1;
    }
  }

  /** The em dash check's findings. */
  method EmDashOffenders(rows: seq<string>) returns (found: seq<Offender>)
    ensures found == ReadAll(START, Rows(rows), AddsEmDash).found
  {
    found := Offenders(rows, AddsEmDash);
  }

  // --------------------------------------------------------- printed diffs

  /** One row of a hunk; `Marker` is the row that says a file has no newline at its end. */
  datatype Change = Context(text: string) | Removed(text: string) | Added(text: string) | Marker

  /** A stretch of lines the diff leaves out, then a hunk with its old position and its heading. */
  datatype Block = Block(gap: seq<string>, oldStart: nat, oldCount: nat, heading: string, changes: seq<Change>)
  /** `None` is a deleted file. */
  datatype FileDiff = FileDiff(header: seq<string>, path: Option<string>, blocks: seq<Block>)

  function NewCount(changes: seq<Change>): nat {
    if changes == [] then 0
    else
      var last := changes[|changes| - 1];
      NewCount(changes[..|changes| - 1]) + if last.Context? || last.Added? then 1 else 0
  }

  function Length(blocks: seq<Block>): nat {
    if blocks == [] then 0
    else Length(blocks[..|blocks| - 1]) + |blocks[|blocks| - 1].gap| + NewCount(blocks[|blocks| - 1].changes)
  }

  function CountSuffix(n: nat): string { if n == 1 then "" else "," + Decimal(n) }

  /** A hunk's header, when its gap ends `before` lines into the new file. */
  function HeaderRow(b: Block, before: nat): string {
    var count := NewCount(b.changes);
    "@@ -" + (Decimal(b.oldStart) + (CountSuffix(b.oldCount) + (" +"
      + (Decimal(if count == 0 then before else before + 1) + (CountSuffix(count) + (" @@" + b.heading))))))
  }

  function ChangeRow(c: Change): string {
    match c
    case Context(text) => " " + text
    case Removed(text) => "-" + text
    case Added(text) => "+" + text
    case Marker => "\\ No newline at end of file"
  }

  function ChangeRows(changes: seq<Change>): seq<string> {
    if changes == [] then [] else ChangeRows(changes[..|changes| - 1]) + [ChangeRow(changes[|changes| - 1])]
  }

  function BlockRows(blocks: seq<Block>): seq<string> {
    if blocks == [] then []
    else
      var front, last := blocks[..|blocks| - 1], blocks[|blocks| - 1];
      BlockRows(front) + ([HeaderRow(last, Length(front) + |last.gap|)] + ChangeRows(last.changes))
  }

  function PathText(path: Option<string>): string { "+++ " + if path.Some? then "b/" + path.value else "/dev/null" }

  function FileRows(file: FileDiff): seq<string> { file.header + ([PathText(file.path)] + BlockRows(file.blocks)) }

  function DiffRows(files: seq<FileDiff>): seq<string> {
    if files == [] then [] else DiffRows(files[..|files| - 1]) + FileRows(files[|files| - 1])
  }

  // ---------------------------------------------------- what is really added

  /** Added text whose row reads as a path. */
  predicate FalsePath(text: string) { "++ " <= text }

  /** The path such text is taken for. */
  function Target(text: string): Option<string>
    requires FalsePath(text)
  {
    if text[3..] == "/dev/null" then None else Some(RemovePrefix(text[3..], "b/"))
  }

  /** The path the tracker holds after a row of a hunk, and after a hunk's rows. */
  function HeldAfter(path: Option<string>, c: Change): Option<string> {
    if c.Added? && FalsePath(c.text) then Target(c.text) else path
  }

  function HeldAfterAll(path: Option<string>, changes: seq<Change>): Option<string> {
    if changes == [] then path else HeldAfter(HeldAfterAll(path, changes[..|changes| - 1]), changes[|changes| - 1])
  }

  /** The path the tracker holds after some hunks of a file. */
  function HeldAfterBlocks(path: Option<string>, blocks: seq<Block>): Option<string> {
    if blocks == [] then path
    else HeldAfterAll(HeldAfterBlocks(path, blocks[..|blocks| - 1]), blocks[|blocks| - 1].changes)
  }

  /** How far the tracker runs ahead of the new file: a marker is counted, a false path is not. */
  function Shift(changes: seq<Change>): int {
    if changes == [] then 0 else Shift(changes[..|changes| - 1]) + ShiftBy(changes[|changes| - 1])
  }

  function ShiftBy(c: Change): int {
    if c.Marker? then 1 else if c.Added? && FalsePath(c.text) then -1 else 0
  }

  /** A line of the new file, with the path the tracker holds there and how far ahead it runs in the hunk. */
  datatype Line = Line(text: string, added: bool, held: Option<string>, shift: int)

  /** The lines one row of a hunk gives the new file. */
  function ChangeLines(c: Change, held: Option<string>, shift: int): seq<Line> {
    match c
    case Context(text) => [Line(text, false, held, shift)]
    case Added(text) => [Line(text, true, held, shift)]
    case _ => []
  }

  function NewLines(path: Option<string>, changes: seq<Change>): seq<Line> {
    if changes == [] then []
    else
      var front := changes[..|changes| - 1];
      NewLines(path, front) + ChangeLines(changes[|changes| - 1], HeldAfterAll(path, front), Shift(front))
  }

  function Unchanged(gap: seq<string>): seq<Line> {
    seq(|gap|, i requires 0 <= i < |gap| => Line(gap[i], false, None, 0))
  }

  /** The new file, up to its last hunk. */
  function NewFile(path: Option<string>, blocks: seq<Block>): seq<Line> {
    if blocks == [] then []
    else
      var front, last := blocks[..|blocks| - 1], blocks[|blocks| - 1];
      NewFile(path, front) + (Unchanged(last.gap) + NewLines(HeldAfterBlocks(path, front), last.changes))
  }

  /** The line is one the check is for. */
  predicate IsWanted(path: Option<string>, line: Line, wanted: (string, string) -> bool) {
    line.added && path.Some? && wanted(path.value, "+" + line.text)
  }

  /** The new file's added lines that are wanted, by their place in it, `from` lines coming first. */
  function Picked(path: Option<string>, lines: seq<Line>, from: nat, wanted: (string, string) -> bool): seq<Offender> {
    if lines == [] then []
    else Picked(path, lines[..|lines| - 1], from, wanted) + PickedOne(path, lines[|lines| - 1], from + |lines|, wanted)
  }

  /** One line of the new file, at `number`. */
  function PickedOne(path: Option<string>, line: Line, number: nat, wanted: (string, string) -> bool): seq<Offender> {
    if IsWanted(path, line, wanted) then [Offender(path.value, number, Strip(line.text))] else []
  }

  /** What the check is for, in one file and in all. */
  function FileOffenders(file: FileDiff, wanted: (string, string) -> bool): seq<Offender> {
    Picked(file.path, NewFile(file.path, file.blocks), 0, wanted)
  }

  function DiffOffenders(files: seq<FileDiff>, wanted: (string, string) -> bool): seq<Offender> {
    if files == [] then []
    else DiffOffenders(files[..|files| - 1], wanted) + FileOffenders(files[|files| - 1], wanted)
  }

  /** The line is one the tracker reports. */
  predicate IsSeen(line: Line, wanted: (string, string) -> bool) {
    && line.added && !FalsePath(line.text)
    && line.held.Some? && line.held.value != "" && wanted(line.held.value, "+" + line.text)
  }

  /** The same lines as the tracker reports them: by the path it holds and its own count. */
  function Seen(lines: seq<Line>, from: nat, wanted: (string, string) -> bool): seq<Offender> {
    if lines == [] then []
    else Seen(lines[..|lines| - 1], from, wanted) + SeenOne(lines[|lines| - 1], from + |lines|, wanted)
  }

  function SeenOne(line: Line, number: nat, wanted: (string, string) -> bool): seq<Offender> {
    if IsSeen(line, wanted) then [Offender(line.held.value, number + line.shift, Strip(line.text))] else []
  }

  function DiffSeen(files: seq<FileDiff>, wanted: (string, string) -> bool): seq<Offender> {
    if files == [] then []
    else
      var file := files[|files| - 1];
      DiffSeen(files[..|files| - 1], wanted) + Seen(NewFile(file.path, file.blocks), 0, wanted)
  }

  /** Git's own header rows read as nothing, and a file that is not deleted has a name. */
  predicate Readable(file: FileDiff) {
    && (forall i | 0 <= i < |file.header| :: !("+" <= file.header[i]))
    && (file.path.Some? ==> file.path.value != "")
  }

  predicate AllReadable(files: seq<FileDiff>) { forall i | 0 <= i < |files| :: Readable(files[i]) }
}
