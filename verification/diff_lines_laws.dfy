/** The tracker against the new files themselves. */
module DiffLinesLaws {
  import opened Options
  import opened Decimals
  import opened Strings
  import opened DiffLines

  // ------------------------------------------------------------ hunk headers

  lemma {:induction false} DigitRunIs(digits: string, rest: string)
    requires forall i | 0 <= i < |digits| :: IsDigit(digits[i])
    requires rest == [] || !IsDigit(rest[0])
    ensures DigitRun(digits + rest) == |digits|
  {
    if digits == [] {
      assert digits + rest == rest;
    } else {
      DigitRunIs(digits[1..], rest);
      assert (digits + rest)[1..] == digits[1..] + rest;
    }
  }

  lemma CountIsSkipped(n: nat, rest: string)
    requires rest != [] && !IsDigit(rest[0]) && rest[0] != ','
    ensures AfterCount(CountSuffix(n) + rest) == rest
    ensures !IsDigit((CountSuffix(n) + rest)[0])
  {
    if n == 1 {
      assert CountSuffix(n) + rest == rest;
    } else {
      var s := CountSuffix(n) + rest;
      assert s[1..] == Decimal(n) + rest;
      DigitRunIs(Decimal(n), rest);
      assert s[1 + |Decimal(n)|..] == rest;
    }
  }

  lemma SplitAfter(a: string, b: string, c: string)
    ensures (a + (b + c))[|a|..|a| + |b|] == b && (a + (b + c))[|a| + |b|..] == c
  {}

  lemma NumberIsRead(digits: string, tail: string)
    requires digits != [] && (forall i | 0 <= i < |digits| :: IsDigit(digits[i])) && tail != [] && !IsDigit(tail[0])
    ensures var side := " +" + (digits + tail);
            DigitRun(side[2..]) == |digits| && side[2..2 + |digits|] == digits && side[2 + |digits|..] == tail
  {
    var side := " +" + (digits + tail);
    assert side[2..] == digits + tail;
    DigitRunIs(digits, tail);
    SplitAfter(" +", digits, tail);
  }

  lemma NewSideIsRead(n: nat, count: nat, heading: string)
    ensures SideLine(" +" + (Decimal(n) + (CountSuffix(count) + (" @@" + heading)))) == Some(n)
  {
    var tail := CountSuffix(count) + (" @@" + heading);
    CountIsSkipped(count, " @@" + heading);
    NumberOfDecimal(n);
    NumberIsRead(Decimal(n), tail);
  }

  lemma OldSideIsSkipped(row: string, digits: string, tail: string)
    requires "@@ -" <= row && row[4..] == digits + tail && digits != []
             && (forall i | 0 <= i < |digits| :: IsDigit(digits[i]))
    requires tail != [] && !IsDigit(tail[0])
    ensures HunkLine(row) == SideLine(AfterCount(tail))
  {
    DigitRunIs(digits, tail);
    AfterDigits(row, digits, tail);
  }

  lemma AfterDigits(row: string, digits: string, tail: string)
    requires |row| >= 4 && row[4..] == digits + tail
    ensures |row| >= 4 + |digits| && row[4 + |digits|..] == tail
  {
    assert |row[4..]| == |digits| + |tail|;
    assert row[4 + |digits|..] == row[4..][|digits|..] == (digits + tail)[|digits|..];
  }

  /** A printed header gives back the line it was printed with. */
  lemma HeaderIsRead(b: Block, before: nat)
    ensures HunkLine(HeaderRow(b, before)) == Some(if NewCount(b.changes) == 0 then before else before + 1)
  {
    var count := NewCount(b.changes);
    var n := if count == 0 then before else before + 1;
    NewSideIsRead(n, count, b.heading);
    var side := " +" + (Decimal(n) + (CountSuffix(count) + (" @@" + b.heading)));
    CountIsSkipped(b.oldCount, side);
    assert HeaderRow(b, before)[4..] == Decimal(b.oldStart) + (CountSuffix(b.oldCount) + side);
    OldSideIsSkipped(HeaderRow(b, before), Decimal(b.oldStart), CountSuffix(b.oldCount) + side);
  }

  // ------------------------------------------------------ what rows are read as

  /** A row of a hunk, as the tracker should take it. */
  function ChangeKind(c: Change): Row {
    match c
    case Context(_) => OtherRow
    case Removed(_) => RemovedRow
    case Added(text) => if FalsePath(text) then PathRow(Target(text)) else AddedRow("+" + text)
    case Marker => OtherRow
  }

  function ChangeKinds(changes: seq<Change>): seq<Row> {
    if changes == [] then [] else ChangeKinds(changes[..|changes| - 1]) + [ChangeKind(changes[|changes| - 1])]
  }

  function HunkKinds(b: Block, before: nat): seq<Row> {
    [HunkRow(if NewCount(b.changes) == 0 then before else before + 1)] + ChangeKinds(b.changes)
  }

  function BlockKinds(blocks: seq<Block>): seq<Row> {
    if blocks == [] then []
    else
      var front, last := blocks[..|blocks| - 1], blocks[|blocks| - 1];
      BlockKinds(front) + HunkKinds(last, Length(front) + |last.gap|)
  }

  function FileKinds(file: FileDiff): seq<Row> { Rows(file.header) + ([PathRow(file.path)] + BlockKinds(file.blocks)) }

  lemma {:induction false} RowsInTurn(a: seq<string>, b: seq<string>)
    ensures Rows(a + b) == Rows(a) + Rows(b)
  {
    if b == [] {
      assert a + b == a;
    } else {
      RowsInTurn(a, b[..|b| - 1]);
      assert (a + b)[..|a + b| - 1] == a + b[..|b| - 1];
    }
  }

  lemma OneRow(row: string)
    ensures Rows([row]) == [RowOf(row)]
  {
    assert [row][..0] == [];
  }

  lemma ChangeIsRead(c: Change)
    ensures RowOf(ChangeRow(c)) == ChangeKind(c)
  {
    var row := ChangeRow(c);
    assert row[0] != '@';
    if c.Added? {
      AddedReads(c.text);
    } else {
      assert row[0] != '+';
    }
  }

  lemma AddedReads(text: string)
    ensures "+++ " <= "+" + text <==> FalsePath(text)
    ensures FalsePath(text) ==> ("+" + text)[4..] == text[3..]
  {
    var row := "+" + text;
    assert |text| >= 3 ==> row[1] == text[0] && row[2] == text[1] && row[3] == text[2];
    if FalsePath(text) { assert row[..4] == "+++ "; }
  }

  lemma {:induction false} ChangesAreRead(changes: seq<Change>)
    ensures Rows(ChangeRows(changes)) == ChangeKinds(changes)
  {
    if changes != [] {
      var front, c := changes[..|changes| - 1], changes[|changes| - 1];
      ChangesAreRead(front);
      ChangeIsRead(c);
      RowsInTurn(ChangeRows(front), [ChangeRow(c)]);
      OneRow(ChangeRow(c));
    }
  }

  lemma HeaderRowIsRead(b: Block, before: nat)
    ensures RowOf(HeaderRow(b, before)) == HunkRow(if NewCount(b.changes) == 0 then before else before + 1)
  {
    HeaderIsRead(b, before);
    assert HeaderRow(b, before)[0] == '@';
  }

  lemma HunkRowsAreRead(b: Block, before: nat)
    ensures Rows([HeaderRow(b, before)] + ChangeRows(b.changes)) == HunkKinds(b, before)
  {
    RowsInTurn([HeaderRow(b, before)], ChangeRows(b.changes));
    OneRow(HeaderRow(b, before));
    HeaderRowIsRead(b, before);
    ChangesAreRead(b.changes);
  }

  lemma {:induction false} BlockRowsAreRead(blocks: seq<Block>)
    ensures Rows(BlockRows(blocks)) == BlockKinds(blocks)
  {
    if blocks != [] {
      var front, b := blocks[..|blocks| - 1], blocks[|blocks| - 1];
      BlockRowsAreRead(front);
      HunkRowsAreRead(b, Length(front) + |b.gap|);
      RowsInTurn(BlockRows(front), [HeaderRow(b, Length(front) + |b.gap|)] + ChangeRows(b.changes));
    }
  }

  lemma PathIsRead(path: Option<string>)
    ensures RowOf(PathText(path)) == PathRow(path)
  {
    var row := PathText(path);
    assert row[4..] == if path.Some? then "b/" + path.value else "/dev/null";
    if path.Some? { assert row[4..][0] != '/' && row[4..][2..] == path.value; }
  }

  lemma FileRowsAreRead(file: FileDiff)
    ensures Rows(FileRows(file)) == FileKinds(file)
  {
    RowsInTurn(file.header, [PathText(file.path)] + BlockRows(file.blocks));
    RowsInTurn([PathText(file.path)], BlockRows(file.blocks));
    OneRow(PathText(file.path));
    PathIsRead(file.path);
    BlockRowsAreRead(file.blocks);
  }

  // ----------------------------------------------------------------- reading

  lemma {:induction false} ReadsInTurn(t: Tracker, a: seq<Row>, b: seq<Row>, wanted: (string, string) -> bool)
    ensures ReadAll(t, a + b, wanted) == ReadAll(ReadAll(t, a, wanted), b, wanted)
  {
    if b == [] {
      assert a + b == a;
    } else {
      ReadsInTurn(t, a, b[..|b| - 1], wanted);
      assert (a + b)[..|a + b| - 1] == a + b[..|b| - 1];
    }
  }

  lemma ReadOne(t: Tracker, row: Row, wanted: (string, string) -> bool)
    ensures ReadAll(t, [row], wanted) == Read(t, row, wanted)
  {
    assert [row][..0] == [];
  }

  lemma {:induction false} NewLinesLength(path: Option<string>, changes: seq<Change>)
    ensures |NewLines(path, changes)| == NewCount(changes)
  {
    if changes != [] { NewLinesLength(path, changes[..|changes| - 1]); }
  }

  lemma {:induction false} NewFileLength(path: Option<string>, blocks: seq<Block>)
    ensures |NewFile(path, blocks)| == Length(blocks)
  {
    if blocks != [] {
      var front, last := blocks[..|blocks| - 1], blocks[|blocks| - 1];
      NewFileLength(path, front);
      NewLinesLength(HeldAfterBlocks(path, front), last.changes);
    }
  }

  lemma Regroup<T>(a: seq<T>, b: seq<T>, c: seq<T>, bc: seq<T>, abc: seq<T>)
    requires abc == (a + b) + c && bc == b + c
    ensures abc == a + bc
  {}

  lemma NothingAfter<T>(xs: seq<T>)
    ensures xs + [] == xs
  {}

  lemma NothingBefore<T>(xs: seq<T>)
    ensures [] + xs == xs
  {}

  lemma {:induction false} SeenInTurn(a: seq<Line>, b: seq<Line>, from: nat, wanted: (string, string) -> bool)
    ensures Seen(a + b, from, wanted) == Seen(a, from, wanted) + Seen(b, from + |a|, wanted)
  {
    if b == [] {
      NothingAfter(a);
      NothingAfter(Seen(a, from, wanted));
    } else {
      var front, last := b[..|b| - 1], b[|b| - 1];
      SeenInTurn(a, front, from, wanted);
      assert (a + b)[..|a + b| - 1] == a + front && (a + b)[|a + b| - 1] == last && from + |a + b| == from + |a| + |b|;
      assert Seen(a + b, from, wanted) == Seen(a + front, from, wanted) + SeenOne(last, from + |a + b|, wanted);
      Regroup(Seen(a, from, wanted), Seen(front, from + |a|, wanted), SeenOne(last, from + |a + b|, wanted),
              Seen(b, from + |a|, wanted), Seen(a + b, from, wanted));
    }
  }

  lemma {:induction false} NothingSeen(lines: seq<Line>, from: nat, wanted: (string, string) -> bool)
    requires forall i | 0 <= i < |lines| :: !lines[i].added
    ensures Seen(lines, from, wanted) == []
  {
    if lines != [] { NothingSeen(lines[..|lines| - 1], from, wanted); }
  }

  lemma SeenAlone(line: Line, from: nat, wanted: (string, string) -> bool)
    ensures Seen([line], from, wanted) == SeenOne(line, from + 1, wanted)
  {
    assert [line][..0] == [];
    NothingBefore(SeenOne(line, from + 1, wanted));
  }

  /** Reading `rows` reports what is seen of `lines`. */
  predicate Reports(t: Tracker, rows: seq<Row>, lines: seq<Line>, from: nat, wanted: (string, string) -> bool) {
    ReadAll(t, rows, wanted).found == t.found + Seen(lines, from, wanted)
  }

  lemma ReportsInTurn(t: Tracker, a: seq<Row>, x: seq<Line>, b: seq<Row>, y: seq<Line>, from: nat,
                      wanted: (string, string) -> bool)
    requires Reports(t, a, x, from, wanted) && Reports(ReadAll(t, a, wanted), b, y, from + |x|, wanted)
    ensures Reports(t, a + b, x + y, from, wanted)
  {
    ReadsInTurn(t, a, b, wanted);
    SeenInTurn(x, y, from, wanted);
    Regroup(t.found, Seen(x, from, wanted), Seen(y, from + |x|, wanted),
            Seen(x + y, from, wanted), ReadAll(t, a + b, wanted).found);
  }

  lemma NothingReports(t: Tracker, from: nat, wanted: (string, string) -> bool)
    ensures Reports(t, [], [], from, wanted)
  {
    NothingAfter(t.found);
  }

  lemma AddedReports(held: Option<string>, text: string, number: nat, shift: int, wanted: (string, string) -> bool)
    requires !FalsePath(text)
    ensures SeenOne(Line(text, true, held, shift), number, wanted) == Reported(held, number + shift, "+" + text, wanted)
  {
    assert ("+" + text)[1..] == text;
  }

  /** How many lines the tracker counts for one row of a hunk. */
  function Counted(c: Change): nat { if c.Removed? || (c.Added? && FalsePath(c.text)) then 0 else 1 }

  lemma RowReports(t: Tracker, c: Change, from: nat, shift: int, wanted: (string, string) -> bool)
    requires c.Added? ==> t.line == from + 1 + shift
    ensures Reports(t, [ChangeKind(c)], ChangeLines(c, t.path, shift), from, wanted)
    ensures ReadAll(t, [ChangeKind(c)], wanted).line == t.line + Counted(c)
    ensures ReadAll(t, [ChangeKind(c)], wanted).path == HeldAfter(t.path, c)
  {
    ReadOne(t, ChangeKind(c), wanted);
    NothingAfter(t.found);
    if c.Added? {
      SeenAlone(Line(c.text, true, t.path, shift), from, wanted);
      if !FalsePath(c.text) { AddedReports(t.path, c.text, from + 1, shift, wanted); }
    } else {
      NothingSeen(ChangeLines(c, t.path, shift), from, wanted);
    }
  }

  /** Inside a hunk the tracker is ahead of the new file by the markers it has passed, and behind by
      the false paths. */
  lemma {:induction false} HunkIsRead(t: Tracker, changes: seq<Change>, from: nat, wanted: (string, string) -> bool)
    requires NewCount(changes) > 0 ==> t.line == from + 1
    ensures Reports(t, ChangeKinds(changes), NewLines(t.path, changes), from, wanted)
    ensures ReadAll(t, ChangeKinds(changes), wanted).line == t.line + NewCount(changes) + Shift(changes)
    ensures ReadAll(t, ChangeKinds(changes), wanted).path == HeldAfterAll(t.path, changes)
  {
    if changes == [] {
      NothingReports(t, from, wanted);
    } else {
      var front, c := changes[..|changes| - 1], changes[|changes| - 1];
      HunkIsRead(t, front, from, wanted);
      NewLinesLength(t.path, front);
      NewLinesOneMore(t.path, changes);
      NextRowReports(t, ChangeKinds(front), NewLines(t.path, front), c, from, Shift(front), wanted);
    }
  }

  lemma NextRowReports(t: Tracker, rows: seq<Row>, lines: seq<Line>, c: Change, from: nat, shift: int,
                       wanted: (string, string) -> bool)
    requires Reports(t, rows, lines, from, wanted)
    requires c.Added? ==> ReadAll(t, rows, wanted).line == from + |lines| + 1 + shift
    ensures var held := ReadAll(t, rows, wanted).path;
            Reports(t, rows + [ChangeKind(c)], lines + ChangeLines(c, held, shift), from, wanted)
    ensures ReadAll(t, rows + [ChangeKind(c)], wanted).line == ReadAll(t, rows, wanted).line + Counted(c)
    ensures ReadAll(t, rows + [ChangeKind(c)], wanted).path == HeldAfter(ReadAll(t, rows, wanted).path, c)
  {
    var before := ReadAll(t, rows, wanted);
    RowReports(before, c, from + |lines|, shift, wanted);
    ReportsInTurn(t, rows, lines, [ChangeKind(c)], ChangeLines(c, before.path, shift), from, wanted);
    ReadsInTurn(t, rows, [ChangeKind(c)], wanted);
  }

  lemma NewLinesOneMore(path: Option<string>, changes: seq<Change>)
    requires changes != []
    ensures var front, c := changes[..|changes| - 1], changes[|changes| - 1];
            NewLines(path, changes) == NewLines(path, front) + ChangeLines(c, HeldAfterAll(path, front), Shift(front))
            && NewCount(changes) + Shift(changes) == NewCount(front) + Shift(front) + Counted(c)
  {}

  function BlockLines(held: Option<string>, b: Block): seq<Line> { Unchanged(b.gap) + NewLines(held, b.changes) }

  lemma HunkKindsAreRead(t: Tracker, b: Block, before: nat, wanted: (string, string) -> bool)
    ensures Reports(t, HunkKinds(b, before), NewLines(t.path, b.changes), before, wanted)
    ensures ReadAll(t, HunkKinds(b, before), wanted).path == HeldAfterAll(t.path, b.changes)
  {
    var header := HunkRow(if NewCount(b.changes) == 0 then before else before + 1);
    ReadOne(t, header, wanted);
    ReadsInTurn(t, [header], ChangeKinds(b.changes), wanted);
    HunkIsRead(Read(t, header, wanted), b.changes, before, wanted);
  }

  lemma BlockIsRead(t: Tracker, b: Block, from: nat, wanted: (string, string) -> bool)
    ensures Reports(t, HunkKinds(b, from + |b.gap|), BlockLines(t.path, b), from, wanted)
    ensures ReadAll(t, HunkKinds(b, from + |b.gap|), wanted).path == HeldAfterAll(t.path, b.changes)
  {
    var before := from + |b.gap|;
    HunkKindsAreRead(t, b, before, wanted);
    AfterQuiet(t, Unchanged(b.gap), HunkKinds(b, before), NewLines(t.path, b.changes), from, before, wanted);
  }

  lemma AfterQuiet(t: Tracker, quiet: seq<Line>, rows: seq<Row>, lines: seq<Line>, from: nat, before: nat,
                   wanted: (string, string) -> bool)
    requires before == from + |quiet| && forall i | 0 <= i < |quiet| :: !quiet[i].added
    requires Reports(t, rows, lines, before, wanted)
    ensures Reports(t, rows, quiet + lines, from, wanted)
  {
    NothingSeen(quiet, from, wanted);
    NothingAfter(t.found);
    ReportsInTurn(t, [], quiet, rows, lines, from, wanted);
    NothingBefore(rows);
  }

  /** Reading `rows` reports what is seen of `lines` and leaves the tracker holding `held`. */
  predicate ReadsTo(t: Tracker, rows: seq<Row>, lines: seq<Line>, held: Option<string>,
                    wanted: (string, string) -> bool) {
    Reports(t, rows, lines, 0, wanted) && ReadAll(t, rows, wanted).path == held
  }

  lemma {:induction false} BlocksAreRead(t: Tracker, blocks: seq<Block>, wanted: (string, string) -> bool)
    ensures ReadsTo(t, BlockKinds(blocks), NewFile(t.path, blocks), HeldAfterBlocks(t.path, blocks), wanted)
  {
    if blocks == [] {
      NothingReports(t, 0, wanted);
    } else {
      var front, b := blocks[..|blocks| - 1], blocks[|blocks| - 1];
      BlocksAreRead(t, front, wanted);
      OneBlockMore(t.path, blocks);
      OneHunkMore(t.path, blocks);
      NextBlockReports(t, BlockKinds(front), NewFile(t.path, front), HeldAfterBlocks(t.path, front), b,
                       BlockKinds(blocks), NewFile(t.path, blocks), HeldAfterBlocks(t.path, blocks), wanted);
    }
  }

  lemma NextBlockReports(t: Tracker, rows: seq<Row>, lines: seq<Line>, held: Option<string>, b: Block,
                         more: seq<Row>, moreLines: seq<Line>, heldAfter: Option<string>,
                         wanted: (string, string) -> bool)
    requires ReadsTo(t, rows, lines, held, wanted)
    requires more == rows + HunkKinds(b, |lines| + |b.gap|) && moreLines == lines + BlockLines(held, b)
    requires heldAfter == HeldAfterAll(held, b.changes)
    ensures ReadsTo(t, more, moreLines, heldAfter, wanted)
  {
    BlockIsRead(ReadAll(t, rows, wanted), b, |lines|, wanted);
    JoinReads(t, rows, lines, held, HunkKinds(b, |lines| + |b.gap|), BlockLines(held, b), heldAfter,
              more, moreLines, wanted);
  }

  lemma JoinReads(t: Tracker, rows: seq<Row>, lines: seq<Line>, held: Option<string>,
                  hunk: seq<Row>, block: seq<Line>, heldAfter: Option<string>,
                  more: seq<Row>, moreLines: seq<Line>, wanted: (string, string) -> bool)
    requires ReadsTo(t, rows, lines, held, wanted) && more == rows + hunk && moreLines == lines + block
    requires Reports(ReadAll(t, rows, wanted), hunk, block, |lines|, wanted)
    requires ReadAll(ReadAll(t, rows, wanted), hunk, wanted).path == heldAfter
    ensures ReadsTo(t, more, moreLines, heldAfter, wanted)
  {
    ReportsInTurn(t, rows, lines, hunk, block, 0, wanted);
    ReadsInTurn(t, rows, hunk, wanted);
  }

  lemma OneBlockMore(path: Option<string>, blocks: seq<Block>)
    requires blocks != []
    ensures var front, b := blocks[..|blocks| - 1], blocks[|blocks| - 1];
            NewFile(path, blocks) == NewFile(path, front) + BlockLines(HeldAfterBlocks(path, front), b)
            && HeldAfterBlocks(path, blocks) == HeldAfterAll(HeldAfterBlocks(path, front), b.changes)
  {}

  lemma OneHunkMore(path: Option<string>, blocks: seq<Block>)
    requires blocks != []
    ensures var front, b := blocks[..|blocks| - 1], blocks[|blocks| - 1];
            BlockKinds(blocks) == BlockKinds(front) + HunkKinds(b, |NewFile(path, front)| + |b.gap|)
  {
    NewFileLength(path, blocks[..|blocks| - 1]);
  }

  lemma HeaderRowsAreQuiet(t: Tracker, rows: seq<string>, wanted: (string, string) -> bool)
    requires forall i | 0 <= i < |rows| :: !("+" <= rows[i])
    ensures ReadAll(t, Rows(rows), wanted).found == t.found
  {
    HeaderKinds(rows);
    NothingAdded(t, Rows(rows), wanted);
  }

  predicate NoneAdded(rows: seq<Row>) { forall i | 0 <= i < |rows| :: !rows[i].AddedRow? }

  lemma {:induction false} HeaderKinds(rows: seq<string>)
    requires forall i | 0 <= i < |rows| :: !("+" <= rows[i])
    ensures NoneAdded(Rows(rows))
  {
    if rows != [] {
      HeaderKinds(rows[..|rows| - 1]);
      HeaderRowIsQuiet(rows[|rows| - 1]);
    }
  }

  lemma {:induction false} NothingAdded(t: Tracker, rows: seq<Row>, wanted: (string, string) -> bool)
    requires NoneAdded(rows)
    ensures ReadAll(t, rows, wanted).found == t.found
  {
    if rows != [] { NothingAdded(t, rows[..|rows| - 1], wanted); }
  }

  lemma HeaderRowIsQuiet(row: string)
    requires !("+" <= row)
    ensures !RowOf(row).AddedRow?
  {
    PathRowHasPlus(row);
  }

  lemma PathRowHasPlus(row: string)
    ensures "+++ " <= row ==> "+" <= row
  {}

  lemma FileIsRead(t: Tracker, file: FileDiff, wanted: (string, string) -> bool)
    requires Readable(file)
    ensures ReadAll(t, FileKinds(file), wanted).found == t.found + Seen(NewFile(file.path, file.blocks), 0, wanted)
  {
    var started := ReadAll(t, Rows(file.header), wanted);
    ReadsInTurn(t, Rows(file.header), [PathRow(file.path)] + BlockKinds(file.blocks), wanted);
    HeaderRowsAreQuiet(t, file.header, wanted);
    ReadsInTurn(started, [PathRow(file.path)], BlockKinds(file.blocks), wanted);
    ReadOne(started, PathRow(file.path), wanted);
    BlocksAreRead(started.(path := file.path), file.blocks, wanted);
  }

  /** What the tracker makes of a printed diff. */
  function Found(files: seq<FileDiff>, wanted: (string, string) -> bool): seq<Offender> {
    ReadAll(START, Rows(DiffRows(files)), wanted).found
  }

  /** On every printed diff the tracker reports, in order, the added lines that are wanted under the
      path it holds there, each as far from its line of the new file as its count is there. */
  lemma {:induction false} TrackerReportsAdded(files: seq<FileDiff>, wanted: (string, string) -> bool)
    requires AllReadable(files)
    ensures Found(files, wanted) == DiffSeen(files, wanted)
  {
    if files != [] {
      var front, file := files[..|files| - 1], files[|files| - 1];
      TrackerReportsAdded(front, wanted);
      RowsInTurn(DiffRows(front), FileRows(file));
      FileRowsAreRead(file);
      ReadsInTurn(START, Rows(DiffRows(front)), FileKinds(file), wanted);
      FileIsRead(ReadAll(START, Rows(DiffRows(front)), wanted), file, wanted);
    }
  }

  // --------------------------------------------------- when the report is right

  /** If the line is wanted, it is not taken for a path, the tracker holds its path and its count is right. */
  predicate InPlace(path: Option<string>, line: Line, wanted: (string, string) -> bool) {
    IsWanted(path, line, wanted) ==> !FalsePath(line.text) && line.held == path && line.shift == 0
  }

  /** It is not reported under another path without being wanted under its own. */
  predicate NoStray(path: Option<string>, line: Line, wanted: (string, string) -> bool) {
    IsSeen(line, wanted) ==> IsWanted(path, line, wanted)
  }

  predicate AllInPlace(path: Option<string>, lines: seq<Line>, wanted: (string, string) -> bool) {
    forall i | 0 <= i < |lines| :: InPlace(path, lines[i], wanted)
  }

  predicate NoStrays(path: Option<string>, lines: seq<Line>, wanted: (string, string) -> bool) {
    forall i | 0 <= i < |lines| :: NoStray(path, lines[i], wanted)
  }

  lemma LastLineToo(path: Option<string>, lines: seq<Line>, wanted: (string, string) -> bool)
    requires lines != []
    ensures var front, last := lines[..|lines| - 1], lines[|lines| - 1];
            (AllInPlace(path, lines, wanted) <==> AllInPlace(path, front, wanted) && InPlace(path, last, wanted))
            && (NoStrays(path, lines, wanted) <==> NoStrays(path, front, wanted) && NoStray(path, last, wanted))
  {
    var front := lines[..|lines| - 1];
    assert forall i | 0 <= i < |front| :: front[i] == lines[i];
  }

  lemma OneAgrees(path: Option<string>, line: Line, number: nat, wanted: (string, string) -> bool)
    requires (path.Some? ==> path.value != "") && NoStray(path, line, wanted)
    ensures |SeenOne(line, number, wanted)| <= |PickedOne(path, line, number, wanted)|
    ensures SeenOne(line, number, wanted) == PickedOne(path, line, number, wanted) <==> InPlace(path, line, wanted)
  {
    if IsSeen(line, wanted) {
      assert SeenOne(line, number, wanted)[0] == Offender(line.held.value, number + line.shift, Strip(line.text));
      assert PickedOne(path, line, number, wanted)[0] == Offender(path.value, number, Strip(line.text));
    }
  }

  /** Parts that are no longer than their counterparts agree when their sums do. */
  lemma PartsAgree<T>(p: seq<T>, x: seq<T>, q: seq<T>, y: seq<T>)
    requires |p| <= |q| && |x| <= |y|
    ensures p + x == q + y <==> p == q && x == y
  {
    if p + x == q + y {
      assert |p| + |x| == |p + x| == |q + y| == |q| + |y|;
      assert (p + x)[..|p|] == p && (q + y)[..|q|] == q && (p + x)[|p|..] == x && (q + y)[|q|..] == y;
    }
  }

  lemma {:induction false} WithoutStrays(path: Option<string>, lines: seq<Line>, from: nat,
                                         wanted: (string, string) -> bool)
    requires (path.Some? ==> path.value != "") && NoStrays(path, lines, wanted)
    ensures |Seen(lines, from, wanted)| <= |Picked(path, lines, from, wanted)|
    ensures Seen(lines, from, wanted) == Picked(path, lines, from, wanted) <==> AllInPlace(path, lines, wanted)
  {
    if lines != [] {
      var front, last := lines[..|lines| - 1], lines[|lines| - 1];
      LastLineToo(path, lines, wanted);
      WithoutStrays(path, front, from, wanted);
      OneAgrees(path, last, from + |lines|, wanted);
      PartsAgree(Seen(front, from, wanted), SeenOne(last, from + |lines|, wanted),
                 Picked(path, front, from, wanted), PickedOne(path, last, from + |lines|, wanted));
    }
  }

  lemma {:induction false} PickedAreItsOwn(path: Option<string>, lines: seq<Line>, from: nat,
                                           wanted: (string, string) -> bool, o: Offender)
    requires o in Picked(path, lines, from, wanted)
    ensures path == Some(o.path)
  {
    var front, last := lines[..|lines| - 1], lines[|lines| - 1];
    if o in Picked(path, front, from, wanted) { PickedAreItsOwn(path, front, from, wanted, o); }
  }

  lemma {:induction false} SeenIsReported(lines: seq<Line>, from: nat, wanted: (string, string) -> bool,
                                          i: nat) returns (o: Offender)
    requires i < |lines| && IsSeen(lines[i], wanted)
    ensures o in Seen(lines, from, wanted) && lines[i].held == Some(o.path)
  {
    var front, last := lines[..|lines| - 1], lines[|lines| - 1];
    if i == |front| {
      o := SeenOne(last, from + |lines|, wanted)[0];
      assert o in SeenOne(last, from + |lines|, wanted);
    } else {
      o := SeenIsReported(front, from, wanted, i);
    }
  }

  /** A file is reported rightly, whatever is wanted, exactly when each wanted line is in its place and
      nothing is reported under another path. */
  lemma FileExactly(path: Option<string>, lines: seq<Line>, wanted: (string, string) -> bool)
    requires path.Some? ==> path.value != ""
    ensures Seen(lines, 0, wanted) == Picked(path, lines, 0, wanted)
       <==> AllInPlace(path, lines, wanted) && NoStrays(path, lines, wanted)
  {
    if NoStrays(path, lines, wanted) {
      WithoutStrays(path, lines, 0, wanted);
    } else {
      var i :| 0 <= i < |lines| && !NoStray(path, lines[i], wanted);
      var o := SeenIsReported(lines, 0, wanted, i);
      if o in Picked(path, lines, 0, wanted) { PickedAreItsOwn(path, lines, 0, wanted, o); }
    }
  }

  predicate FileInPlace(file: FileDiff, wanted: (string, string) -> bool) {
    AllInPlace(file.path, NewFile(file.path, file.blocks), wanted)
  }

  predicate FileNoStrays(file: FileDiff, wanted: (string, string) -> bool) {
    NoStrays(file.path, NewFile(file.path, file.blocks), wanted)
  }

  predicate DiffInPlace(files: seq<FileDiff>, wanted: (string, string) -> bool) {
    forall i | 0 <= i < |files| :: FileInPlace(files[i], wanted)
  }

  predicate DiffNoStrays(files: seq<FileDiff>, wanted: (string, string) -> bool) {
    forall i | 0 <= i < |files| :: FileNoStrays(files[i], wanted)
  }

  /** The report is right after every file. */
  predicate RightAllAlong(files: seq<FileDiff>, wanted: (string, string) -> bool) {
    Found(files, wanted) == DiffOffenders(files, wanted)
      && (files != [] ==> RightAllAlong(files[..|files| - 1], wanted))
  }

  lemma OneFileMore(files: seq<FileDiff>, wanted: (string, string) -> bool)
    requires files != []
    ensures DiffInPlace(files, wanted)
       <==> DiffInPlace(files[..|files| - 1], wanted) && FileInPlace(files[|files| - 1], wanted)
    ensures DiffNoStrays(files, wanted)
       <==> DiffNoStrays(files[..|files| - 1], wanted) && FileNoStrays(files[|files| - 1], wanted)
  {
    var front := files[..|files| - 1];
    assert forall i | 0 <= i < |front| :: front[i] == files[i];
  }

  lemma SamePrefix<T>(p: seq<T>, x: seq<T>, y: seq<T>)
    ensures p + x == p + y <==> x == y
  {
    assert (p + x)[|p|..] == x && (p + y)[|p|..] == y;
  }

  /** Over every printed diff and whatever is wanted: the report is right after every file exactly when,
      in each, every wanted line is in its place and nothing is reported under another path. */
  lemma {:induction false} RightThroughout(files: seq<FileDiff>, wanted: (string, string) -> bool)
    requires AllReadable(files)
    ensures RightAllAlong(files, wanted) <==> DiffInPlace(files, wanted) && DiffNoStrays(files, wanted)
  {
    TrackerReportsAdded(files, wanted);
    if files != [] {
      var front, file := files[..|files| - 1], files[|files| - 1];
      RightThroughout(front, wanted);
      OneFileMore(files, wanted);
      TrackerReportsAdded(front, wanted);
      FileExactly(file.path, NewFile(file.path, file.blocks), wanted);
      SamePrefix(DiffOffenders(front, wanted), Seen(NewFile(file.path, file.blocks), 0, wanted),
                 FileOffenders(file, wanted));
    }
  }

  lemma {:induction false} DiffWithoutStrays(files: seq<FileDiff>, wanted: (string, string) -> bool)
    requires AllReadable(files) && DiffNoStrays(files, wanted)
    ensures |DiffSeen(files, wanted)| <= |DiffOffenders(files, wanted)|
    ensures DiffSeen(files, wanted) == DiffOffenders(files, wanted) <==> DiffInPlace(files, wanted)
  {
    if files != [] {
      var front, file := files[..|files| - 1], files[|files| - 1];
      var lines := NewFile(file.path, file.blocks);
      OneFileMore(files, wanted);
      DiffWithoutStrays(front, wanted);
      WithoutStrays(file.path, lines, 0, wanted);
      PartsAgree(DiffSeen(front, wanted), Seen(lines, 0, wanted), DiffOffenders(front, wanted),
                 FileOffenders(file, wanted));
    }
  }

  /** Where nothing is reported under another path, the whole report is right exactly when every wanted
      line is in its place. */
  lemma RightInTheEnd(files: seq<FileDiff>, wanted: (string, string) -> bool)
    requires AllReadable(files) && DiffNoStrays(files, wanted)
    ensures Found(files, wanted) == DiffOffenders(files, wanted) <==> DiffInPlace(files, wanted)
  {
    TrackerReportsAdded(files, wanted);
    DiffWithoutStrays(files, wanted);
  }

  ghost predicate IgnoresPath(wanted: (string, string) -> bool) {
    forall p, q, row :: wanted(p, row) == wanted(q, row)
  }

  /** A deleted file has no lines. */
  predicate DeletedAreEmpty(files: seq<FileDiff>) {
    forall i | 0 <= i < |files| && files[i].path.None? :: Length(files[i].blocks) == 0
  }

  /** A check that does not look at the path reports a diff rightly exactly when every wanted line is
      in its place. */
  lemma PathBlindExactly(files: seq<FileDiff>, wanted: (string, string) -> bool)
    requires AllReadable(files) && DeletedAreEmpty(files) && IgnoresPath(wanted)
    ensures Found(files, wanted) == DiffOffenders(files, wanted) <==> DiffInPlace(files, wanted)
  {
    forall i | 0 <= i < |files| ensures FileNoStrays(files[i], wanted) {
      NewFileLength(files[i].path, files[i].blocks);
    }
    RightInTheEnd(files, wanted);
  }

  // ------------------------------------------------------ without false paths

  predicate NoFalsePath(changes: seq<Change>) {
    forall i | 0 <= i < |changes| :: changes[i].Added? ==> !FalsePath(changes[i].text)
  }

  predicate NoFalsePaths(files: seq<FileDiff>) {
    forall i, j | 0 <= i < |files| && 0 <= j < |files[i].blocks| :: NoFalsePath(files[i].blocks[j].changes)
  }

  /** The path held at an added line is its own. */
  predicate Held(path: Option<string>, line: Line) { line.added ==> line.held == path && !FalsePath(line.text) }

  lemma {:induction false} HunkHolds(path: Option<string>, changes: seq<Change>)
    requires NoFalsePath(changes)
    ensures HeldAfterAll(path, changes) == path
    ensures forall i | 0 <= i < |NewLines(path, changes)| :: Held(path, NewLines(path, changes)[i])
  {
    if changes != [] { HunkHolds(path, changes[..|changes| - 1]); }
  }

  lemma {:induction false} FileHolds(path: Option<string>, blocks: seq<Block>)
    requires forall j | 0 <= j < |blocks| :: NoFalsePath(blocks[j].changes)
    ensures HeldAfterBlocks(path, blocks) == path
    ensures forall i | 0 <= i < |NewFile(path, blocks)| :: Held(path, NewFile(path, blocks)[i])
  {
    if blocks != [] {
      FileHolds(path, blocks[..|blocks| - 1]);
      HunkHolds(path, blocks[|blocks| - 1].changes);
    }
  }

  /** No wanted line has a marker above it in its hunk. */
  predicate MarkersComeLast(file: FileDiff, wanted: (string, string) -> bool) {
    var lines := NewFile(file.path, file.blocks);
    forall i | 0 <= i < |lines| && IsWanted(file.path, lines[i], wanted) :: lines[i].shift == 0
  }

  /** Without false paths the reported numbers are the new file's own exactly when no reported line has a
      marker above it in its hunk. */
  lemma NumbersAreExact(files: seq<FileDiff>, wanted: (string, string) -> bool)
    requires AllReadable(files) && NoFalsePaths(files)
    ensures Found(files, wanted) == DiffOffenders(files, wanted)
            <==> forall i | 0 <= i < |files| :: MarkersComeLast(files[i], wanted)
  {
    forall i | 0 <= i < |files|
      ensures FileNoStrays(files[i], wanted) && (FileInPlace(files[i], wanted) <==> MarkersComeLast(files[i], wanted))
    {
      InPlaceMeans(files[i], wanted);
    }
    RightInTheEnd(files, wanted);
  }

  lemma InPlaceMeans(file: FileDiff, wanted: (string, string) -> bool)
    requires forall j | 0 <= j < |file.blocks| :: NoFalsePath(file.blocks[j].changes)
    ensures FileNoStrays(file, wanted) && (FileInPlace(file, wanted) <==> MarkersComeLast(file, wanted))
  {
    FileHolds(file.path, file.blocks);
    var lines := NewFile(file.path, file.blocks);
    forall i | 0 <= i < |lines|
      ensures NoStray(file.path, lines[i], wanted)
      ensures InPlace(file.path, lines[i], wanted) <==> (IsWanted(file.path, lines[i], wanted) ==> lines[i].shift == 0)
    {
      assert Held(file.path, lines[i]);
    }
  }

  // --------------------------------------------------------------- two diffs

  lemma OneFile(file: FileDiff, wanted: (string, string) -> bool)
    ensures DiffOffenders([file], wanted) == FileOffenders(file, wanted)
    ensures DiffSeen([file], wanted) == Seen(NewFile(file.path, file.blocks), 0, wanted)
  {
    assert [file][..0] == [];
    NothingBefore(FileOffenders(file, wanted));
    NothingBefore(Seen(NewFile(file.path, file.blocks), 0, wanted));
  }

  lemma {:induction false} NothingPicked(path: Option<string>, lines: seq<Line>, from: nat,
                                         wanted: (string, string) -> bool)
    requires forall i | 0 <= i < |lines| :: !lines[i].added
    ensures Picked(path, lines, from, wanted) == []
  {
    if lines != [] { NothingPicked(path, lines[..|lines| - 1], from, wanted); }
  }

  function Rewritten(path: string, gap: seq<string>, was: string, now: string): FileDiff {
    FileDiff([], Some(path), [Block(gap, |gap| + 1, 1, "", [Removed(was), Marker, Added(now)])])
  }

  /** A last line rewritten in a file that had no newline at its end is reported one line too low. */
  lemma RewrittenLastLineIsLate(path: string, gap: seq<string>, was: string, now: string,
                                wanted: (string, string) -> bool)
    requires path != "" && !FalsePath(now) && wanted(path, "+" + now)
    ensures Found([Rewritten(path, gap, was, now)], wanted) == [Offender(path, |gap| + 2, Strip(now))]
    ensures DiffOffenders([Rewritten(path, gap, was, now)], wanted) == [Offender(path, |gap| + 1, Strip(now))]
  {
    RewrittenFile(path, gap, was, now);
    OnlyTheLast(Rewritten(path, gap, was, now), Unchanged(gap), Line(now, true, Some(path), 1), wanted);
  }

  lemma RewrittenFile(path: string, gap: seq<string>, was: string, now: string)
    ensures NewFile(Some(path), Rewritten(path, gap, was, now).blocks)
            == Unchanged(gap) + [Line(now, true, Some(path), 1)]
  {
    var blocks := Rewritten(path, gap, was, now).blocks;
    RewrittenLines(path, was, now);
    assert blocks[..0] == [];
    NothingBefore(Unchanged(gap) + [Line(now, true, Some(path), 1)]);
  }

  lemma OnlyTheLast(file: FileDiff, quiet: seq<Line>, line: Line, wanted: (string, string) -> bool)
    requires Readable(file) && NewFile(file.path, file.blocks) == quiet + [line]
    requires forall i | 0 <= i < |quiet| :: !quiet[i].added
    ensures Found([file], wanted) == SeenOne(line, |quiet| + 1, wanted)
    ensures DiffOffenders([file], wanted) == PickedOne(file.path, line, |quiet| + 1, wanted)
  {
    TrackerReportsAdded([file], wanted);
    OneFile(file, wanted);
    LastLine(file.path, NewFile(file.path, file.blocks), quiet, line, wanted);
  }

  lemma LastLine(path: Option<string>, lines: seq<Line>, quiet: seq<Line>, line: Line, wanted: (string, string) -> bool)
    requires lines == quiet + [line] && forall i | 0 <= i < |quiet| :: !quiet[i].added
    ensures Seen(lines, 0, wanted) == SeenOne(line, |quiet| + 1, wanted)
    ensures Picked(path, lines, 0, wanted) == PickedOne(path, line, |quiet| + 1, wanted)
  {
    assert lines[..|quiet|] == quiet;
    NothingPicked(path, quiet, 0, wanted);
    NothingSeen(quiet, 0, wanted);
    NothingBefore(SeenOne(line, |quiet| + 1, wanted));
    NothingBefore(PickedOne(path, line, |quiet| + 1, wanted));
  }

  lemma RewrittenLines(path: string, was: string, now: string)
    ensures NewLines(Some(path), [Removed(was), Marker, Added(now)]) == [Line(now, true, Some(path), 1)]
  {
    var changes := [Removed(was), Marker, Added(now)];
    assert changes[..2] == [Removed(was), Marker] && [Removed(was), Marker][..1] == [Removed(was)]
           && [Removed(was)][..0] == [];
    assert Shift([Removed(was)]) == 0 && NewLines(Some(path), [Removed(was)]) == [];
    assert Shift(changes[..2]) == 1 && NewLines(Some(path), changes[..2]) == [];
    assert HeldAfterAll(Some(path), changes[..2]) == Some(path);
  }

  /** A new file of two lines. */
  function TwoAdded(path: string, first: string, second: string): FileDiff {
    FileDiff([], Some(path), [Block([], 0, 0, "", [Added(first), Added(second)])])
  }

  lemma TwoAddedLines(path: string, first: string, second: string)
    requires FalsePath(first) && path != ""
    ensures Readable(TwoAdded(path, first, second))
    ensures NewFile(Some(path), TwoAdded(path, first, second).blocks)
         == [Line(first, true, Some(path), 0), Line(second, true, Target(first), -1)]
  {
    var changes := [Added(first), Added(second)];
    assert changes[..1] == [Added(first)] && [Added(first)][..0] == [];
    assert NewLines(Some(path), [Added(first)]) == [Line(first, true, Some(path), 0)];
    assert HeldAfterAll(Some(path), [Added(first)]) == Target(first) && Shift([Added(first)]) == -1;
    assert NewLines(Some(path), changes) == [Line(first, true, Some(path), 0), Line(second, true, Target(first), -1)];
    var blocks := TwoAdded(path, first, second).blocks;
    assert blocks[..0] == [] && Unchanged([]) == [];
    NothingBefore(NewLines(Some(path), changes));
  }

  lemma PickedAlone(path: Option<string>, line: Line, from: nat, wanted: (string, string) -> bool)
    ensures Picked(path, [line], from, wanted) == PickedOne(path, line, from + 1, wanted)
  {
    assert [line][..0] == [];
    NothingBefore(PickedOne(path, line, from + 1, wanted));
  }

  lemma TwoLines(path: Option<string>, a: Line, b: Line, wanted: (string, string) -> bool)
    ensures Seen([a, b], 0, wanted) == SeenOne(a, 1, wanted) + SeenOne(b, 2, wanted)
    ensures Picked(path, [a, b], 0, wanted) == PickedOne(path, a, 1, wanted) + PickedOne(path, b, 2, wanted)
  {
    var both := [a, b];
    assert both[..1] == [a] && both[1] == b && |both| == 2;
    SeenAlone(a, 0, wanted);
    PickedAlone(path, a, 0, wanted);
  }

  /** An added line that names another file the way a diff does. */
  function Naming(other: string): string { "++ b/" + other }

  /** The line under such a line is reported in the file it names, one line too high. */
  lemma FalsePathMisleads(path: string, other: string, text: string, wanted: (string, string) -> bool)
    requires path != "" && other != "" && !FalsePath(text)
    requires wanted(path, "+" + text) && wanted(other, "+" + text) && !wanted(path, "+" + Naming(other))
    ensures Found([TwoAdded(path, Naming(other), text)], wanted) == [Offender(other, 1, Strip(text))]
    ensures DiffOffenders([TwoAdded(path, Naming(other), text)], wanted) == [Offender(path, 2, Strip(text))]
  {
    var first := Naming(other);
    NamingNames(other);
    TwoAddedLines(path, first, text);
    TrackerReportsAdded([TwoAdded(path, first, text)], wanted);
    OneFile(TwoAdded(path, first, text), wanted);
    TwoLines(Some(path), Line(first, true, Some(path), 0), Line(text, true, Some(other), -1), wanted);
  }

  lemma NamingNames(other: string)
    ensures FalsePath(Naming(other)) && Target(Naming(other)) == Some(other)
  {
    var first := Naming(other);
    assert first[..3] == "++ " && first[3..] == "b/" + other && first[3..][2..] == other && first[3..][0] != '/';
  }

  /** A file whose one report is a stray. */
  lemma OnlyAStray(path: string, other: string, text: string, wanted: (string, string) -> bool)
    requires path != "" && other != "" && !FalsePath(text) && wanted(other, "+" + text)
    requires !wanted(path, "+" + Naming(other)) && !wanted(path, "+" + text)
    ensures var file := TwoAdded(path, Naming(other), text);
            Readable(file) && !FileNoStrays(file, wanted) && FileOffenders(file, wanted) == []
            && Seen(NewFile(file.path, file.blocks), 0, wanted) == [Offender(other, 1, Strip(text))]
  {
    var stray := Line(text, true, Some(other), -1);
    NamingNames(other);
    TwoAddedLines(path, Naming(other), text);
    TwoLines(Some(path), Line(Naming(other), true, Some(path), 0), stray, wanted);
    assert NewFile(Some(path), TwoAdded(path, Naming(other), text).blocks)[1] == stray
           && !NoStray(Some(path), stray, wanted);
  }

  /** A file whose one wanted line is taken for a path. */
  lemma OnlyAMiss(path: string, text: string, wanted: (string, string) -> bool)
    requires path != "" && FalsePath(text) && wanted(path, "+" + text) && forall p :: !wanted(p, "+")
    ensures var file := TwoAdded(path, text, "");
            Readable(file) && !FileInPlace(file, wanted)
              && FileOffenders(file, wanted) == [Offender(path, 1, Strip(text))]
            && Seen(NewFile(file.path, file.blocks), 0, wanted) == []
  {
    var missed := Line(text, true, Some(path), 0);
    TwoAddedLines(path, text, "");
    assert "+" + "" == "+";
    TwoLines(Some(path), missed, Line("", true, Target(text), -1), wanted);
    assert NewFile(Some(path), TwoAdded(path, text, "").blocks)[0] == missed && !InPlace(Some(path), missed, wanted);
  }

  /** Why strays are kept out of RightInTheEnd: a line reported under another path can stand in for one
      of that path's own that is missed. */
  lemma StraysCancel()
    ensures var files := [TwoAdded("frontend/openapi.json", Naming("b"), " " + DASHED), TwoAdded("b", DASHED, "")];
            AllReadable(files) && !DiffInPlace(files, AddsEmDash) && !DiffNoStrays(files, AddsEmDash)
            && Found(files, AddsEmDash) == DiffOffenders(files, AddsEmDash)
  {
    var first, second := TwoAdded("frontend/openapi.json", Naming("b"), " " + DASHED), TwoAdded("b", DASHED, "");
    DashLines();
    OnlyAStray("frontend/openapi.json", "b", " " + DASHED, AddsEmDash);
    OnlyAMiss("b", DASHED, AddsEmDash);
    TwoFiles(first, second, AddsEmDash);
    TwoReports(first, second, AddsEmDash);
  }

  lemma TwoFiles(first: FileDiff, second: FileDiff, wanted: (string, string) -> bool)
    requires Readable(first) && Readable(second) && !FileNoStrays(first, wanted) && !FileInPlace(second, wanted)
    ensures var files := [first, second];
            AllReadable(files) && !DiffInPlace(files, wanted) && !DiffNoStrays(files, wanted)
  {
    var files := [first, second];
    assert files[0] == first && files[1] == second;
  }

  lemma TwoReports(first: FileDiff, second: FileDiff, wanted: (string, string) -> bool)
    requires AllReadable([first, second])
    requires FileOffenders(first, wanted) == [] && Seen(NewFile(second.path, second.blocks), 0, wanted) == []
    requires Seen(NewFile(first.path, first.blocks), 0, wanted) == FileOffenders(second, wanted)
    ensures Found([first, second], wanted) == DiffOffenders([first, second], wanted)
  {
    TrackerReportsAdded([first, second], wanted);
    TwoInTurn(first, second, wanted);
    NothingBefore(FileOffenders(second, wanted));
    NothingAfter(FileOffenders(second, wanted));
  }

  lemma TwoInTurn(first: FileDiff, second: FileDiff, wanted: (string, string) -> bool)
    ensures DiffOffenders([first, second], wanted) == FileOffenders(first, wanted) + FileOffenders(second, wanted)
    ensures DiffSeen([first, second], wanted)
         == Seen(NewFile(first.path, first.blocks), 0, wanted) + Seen(NewFile(second.path, second.blocks), 0, wanted)
  {
    assert [first, second][..1] == [first];
    OneFile(first, wanted);
  }

  const DASHED := ['+', '+', ' ', EM_DASH]

  lemma DashLines()
    ensures FalsePath(DASHED) && !FalsePath(" " + DASHED) && Strip(" " + DASHED) == Strip(DASHED)
    ensures AddsEmDash("b", "+" + DASHED) && AddsEmDash("b", "+" + (" " + DASHED))
    ensures forall row :: !AddsEmDash("frontend/openapi.json", row)
    ensures forall path :: !AddsEmDash(path, "+")
  {
    assert DASHED[..3] == "++ ";
    assert ("+" + DASHED)[4] == EM_DASH && ("+" + (" " + DASHED))[5] == EM_DASH;
    assert (" " + DASHED)[1..] == DASHED && (" " + DASHED)[4] == EM_DASH && (" " + DASHED)[0] == ' ';
  }

  /** The files the check leaves alone: under the generated client and the recorded fixtures, the schema, and whatever
      is named as generated. */
  lemma SkippedAre(path: string)
    ensures Skipped(path) <==>
              || (exists rest: string :: path == "frontend/src/client/" + rest)
              || path == "frontend/openapi.json"
              || (exists rest: string :: path == "backend/tests/fixtures/live/" + rest)
              || (exists stem: string :: path == stem + ".generated.json")
  {
    StartsIs(path, "frontend/src/client/");
    StartsIs(path, "backend/tests/fixtures/live/");
    EndsIs(path, ".generated.json");
  }

  lemma StartsIs(path: string, start: string)
    ensures start <= path <==> exists rest: string :: path == start + rest
  {
    if start <= path { assert path == start + path[|start|..]; }
  }

  lemma EndsIs(path: string, end: string)
    ensures EndsWith(path, end) <==> exists stem: string :: path == stem + end
  {
    if EndsWith(path, end) { assert path == path[..|path| - |end|] + end; }
    if stem: string :| path == stem + end { assert path[|path| - |end|..] == end; }
  }
}
