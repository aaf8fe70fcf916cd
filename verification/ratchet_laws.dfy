/**
 What the ratchet promises: `update` writes a baseline `check` accepts, a clean
 check pins the recorded scores, repeated names fail loudly when one is
 inserted, and a function the pre-push check fails fails the ratchet as well.
 */
module RatchetLaws {
  import opened Options
  import opened Ordering
  import opened Decimals
  import opened Dicts
  import opened Ratchet
  import opened Strings

  // --------------------------------------------------------- what is found

  /** What each failure means. */
  predicate Fails(f: Failure, fns: map<string, Row>, mine: map<string, Entry>) {
    match f
    case New(k, r) => k in fns && fns[k] == r && Over(r) && k !in mine
    case Rose(k, r, was) =>
      k in fns && fns[k] == r && Over(r) && k in mine && mine[k].score == was && Score(r) > was + TOLERANCE
    case Improved(k, r, was) =>
      k in fns && fns[k] == r && Over(r) && k in mine && mine[k].score == was && Score(r) < was - TOLERANCE
    case Stale(k, was, now) =>
      && k in mine && mine[k].score == was
      && (if k in fns then !Over(fns[k]) && now == Some(Score(fns[k])) else now == None)
    case NoReason(k) => k in mine && Blank(mine[k].reason)
  }

  lemma {:induction false} RowFailuresMean(keys: seq<string>, fns: map<string, Row>, mine: map<string, Entry>,
                                           f: Failure)
    requires forall k | k in keys :: k in fns
    ensures f in AllRowFailures(keys, fns, mine)
            <==> f.key in keys && (f.New? || f.Rose? || f.Improved?) && Fails(f, fns, mine)
  {
    if keys != [] {
      var front, k := keys[..|keys| - 1], keys[|keys| - 1];
      RowFailuresMean(front, fns, mine, f);
      assert keys == front + [k];
      assert f in RowFailures(k, fns[k], mine)
             <==> f.key == k && (f.New? || f.Rose? || f.Improved?) && Fails(f, fns, mine);
    }
  }

  lemma {:induction false} EntryFailuresMean(keys: seq<string>, fns: map<string, Row>, mine: map<string, Entry>,
                                             f: Failure)
    requires forall k | k in keys :: k in mine
    ensures f in AllEntryFailures(keys, fns, mine)
            <==> f.key in keys && (f.Stale? || f.NoReason?) && Fails(f, fns, mine)
  {
    if keys != [] {
      var front, k := keys[..|keys| - 1], keys[|keys| - 1];
      EntryFailuresMean(front, fns, mine, f);
      assert keys == front + [k];
      assert f in EntryFailures(k, mine[k], fns) <==> f.key == k && (f.Stale? || f.NoReason?) && Fails(f, fns, mine);
    }
  }

  /** `check` reports exactly the failures there are. */
  lemma CheckFinds(rows: seq<Row>, baseline: Dict<Entry>, sides: set<string>, f: Failure)
    requires Sound(baseline)
    ensures f in Failures(rows, baseline, sides) <==> Fails(f, Keyed(rows).at, Mine(baseline, sides).at)
  {
    var fns, mine := Keyed(rows), Mine(baseline, sides);
    KeyedSound(InSourceOrder(rows));
    OnlySound(k => Side(k) in sides, baseline);
    SortKeeps(AtMost, mine.order);
    RowFailuresMean(fns.order, fns.at, mine.at, f);
    EntryFailuresMean(Sort(AtMost, mine.order), fns.at, mine.at, f);
  }

  // ----------------------------------------------------------------- update

  lemma RoundsClose(x: real)
    ensures -0.005 <= Round2(x) - x <= 0.005
  {}

  lemma {:induction false} WithOverAt(keys: seq<string>, fns: map<string, Row>, baseline: map<string, Entry>,
                                      others: Dict<Entry>)
    requires Sound(others) && forall k | k in keys :: k in fns
    ensures var out := WithOver(keys, fns, baseline, others);
            Sound(out)
            && forall k :: (k in out.at <==> (k in keys && Over(fns[k])) || k in others.at)
                 && (k in out.at ==>
                       out.at[k] == if k in keys && Over(fns[k]) then Recorded(fns[k], k, baseline) else others.at[k])
  {
    if keys != [] {
      var front, last := keys[..|keys| - 1], keys[|keys| - 1];
      WithOverAt(front, fns, baseline, others);
      assert keys == front + [last];
      if Over(fns[last]) {
        PutSound(WithOver(front, fns, baseline, others), last, Recorded(fns[last], last, baseline));
      }
    }
  }

  /** `update` writes one entry for each function over the threshold, with its reason if it had
      one, and leaves alone the other sides' entries. */
  lemma UpdatedAt(rows: seq<Row>, baseline: Dict<Entry>, sides: set<string>, k: string)
    requires Sound(baseline)
    ensures var fns := Keyed(rows).at; var out := Updated(rows, baseline, sides);
            Sound(out)
            && (k in out.at <==> (k in fns && Over(fns[k])) || (k in baseline.at && Side(k) !in sides))
            && (k in fns && Over(fns[k]) ==>
                  -0.005 <= out.at[k].score - Score(fns[k]) <= 0.005
                  && out.at[k].reason == if k in baseline.at then baseline.at[k].reason else "")
            && (k in out.at && !(k in fns && Over(fns[k])) ==> out.at[k] == baseline.at[k])
  {
    var fns := Keyed(rows);
    var others := Only(x => Side(x) !in sides, baseline);
    KeyedSound(InSourceOrder(rows));
    OnlySound(x => Side(x) !in sides, baseline);
    WithOverAt(fns.order, fns.at, baseline.at, others);
    SortedSound(WithOver(fns.order, fns.at, baseline.at, others));
    if k in fns.at { RoundsClose(Score(fns.at[k])); }
  }

  /** After `update`, `check` asks for nothing but reasons, exactly when every function over the
      threshold is on a side that is checked. */
  lemma UpdateSatisfiesCheck(rows: seq<Row>, baseline: Dict<Entry>, sides: set<string>)
    requires Sound(baseline)
    ensures Sound(Updated(rows, baseline, sides))
    ensures (forall f | f in Failures(rows, Updated(rows, baseline, sides), sides) :: f.NoReason?)
       <==> (forall k | k in Keyed(rows).at && Over(Keyed(rows).at[k]) :: Side(k) in sides)
  {
    var fns, out := Keyed(rows).at, Updated(rows, baseline, sides);
    UpdatedAt(rows, baseline, sides, "");
    if k :| k in fns && Over(fns[k]) && Side(k) !in sides {
      CheckFinds(rows, out, sides, New(k, fns[k]));
      assert New(k, fns[k]) in Failures(rows, out, sides);
    } else {
      forall f | f in Failures(rows, out, sides) ensures f.NoReason? {
        CheckFinds(rows, out, sides, f);
        UpdatedAt(rows, baseline, sides, f.key);
      }
    }
  }

  lemma HeadAndTail(s: string, t: string)
    requires s != []
    ensures (s + t)[0] == s[0] && (s + t)[1..] == s[1..] + t && s == [s[0]] + s[1..]
    ensures forall side: string :: [s[0]] + (s[1..] + side) == s + side
  {}

  lemma {:induction false} SideOfPrefix(s: string, t: string)
    ensures Side(s + t) == if '/' in s then Side(s) else s + Side(t)
  {
    if s == [] {
      assert s + t == t;
    } else if s[0] != '/' {
      SideOfPrefix(s[1..], t);
      HeadAndTail(s, t);
    }
  }

  /** The sides the command line checks. */
  function RowSides(rows: seq<Row>): set<string> { set r | r in rows :: Side(r.file) }

  /** The function is in some directory, or a side of the rows is spelled like its key. */
  predicate OnASide(rows: seq<Row>, k: string)
    requires k in Keyed(rows).at
  {
    '/' in Keyed(rows).at[k].file || Side(k) in RowSides(rows)
  }

  /** With the sides the command line takes from the rows, `update` satisfies `check` exactly when every
      function over the threshold is in a file that is in some directory, or shares its key's spelling with
      a side; which no key can where no file has a colon. */
  lemma OwnSidesSuffice(rows: seq<Row>, baseline: Dict<Entry>)
    requires Sound(baseline)
    ensures Sound(Updated(rows, baseline, RowSides(rows)))
    ensures (forall f | f in Failures(rows, Updated(rows, baseline, RowSides(rows)), RowSides(rows)) :: f.NoReason?)
       <==> (forall k | k in Keyed(rows).at && Over(Keyed(rows).at[k]) :: OnASide(rows, k))
    ensures (forall r | r in rows :: ':' !in r.file) ==>
              forall k | k in Keyed(rows).at :: OnASide(rows, k) <==> '/' in Keyed(rows).at[k].file
  {
    UpdateSatisfiesCheck(rows, baseline, RowSides(rows));
    forall k | k in Keyed(rows).at
      ensures Side(k) in RowSides(rows) <==> OnASide(rows, k)
      ensures (forall r | r in rows :: ':' !in r.file) ==> (OnASide(rows, k) <==> '/' in Keyed(rows).at[k].file)
    {
      KeySide(rows, k);
    }
  }

  lemma KeySide(rows: seq<Row>, k: string)
    requires k in Keyed(rows).at
    ensures '/' in Keyed(rows).at[k].file ==> Side(k) in RowSides(rows)
    ensures '/' !in Keyed(rows).at[k].file && (forall r | r in rows :: ':' !in r.file) ==> Side(k) !in RowSides(rows)
  {
    SortKeeps(RowAtMost, rows);
    KeyedFrom(InSourceOrder(rows), k);
    var r := Keyed(rows).at[k];
    var n :| 1 <= n <= |Named(InSourceOrder(rows), r.file, r.name)| && k == Key(r.file, r.name, n);
    SideOfKey(r.file, r.name, n);
    if forall x | x in rows :: ':' !in x.file {
      forall x | x in rows ensures ':' !in Side(x.file) { SideWithin(x.file); }
    }
  }

  lemma {:induction false} SideWithin(s: string)
    ensures forall c | c in Side(s) :: c in s
  {
    if s != [] && s[0] != '/' { SideWithin(s[1..]); }
  }

  lemma SideOfKey(file: string, name: string, n: nat)
    ensures if '/' in file then Side(Key(file, name, n)) == Side(file) else ':' in Side(Key(file, name, n))
  {
    KeyShape(file, name, n);
    var rest := ":" + (name + Suffix(n));
    assert file + [':'] + rest == file + ([':'] + rest);
    SideOfPrefix(file, [':'] + rest);
    if '/' !in file {
      assert Side([':'] + rest)[0] == ':';
      assert Side(Key(file, name, n))[|file|] == ':';
    }
  }

  // ------------------------------------------------------------------- keys

  /** A name that could be taken for a repeat of another. */
  ghost predicate Numbered(name: string) {
    exists base: string, n: nat :: n > 1 && name == base + ("#" + Decimal(n))
  }

  ghost predicate Plain(r: Row) { ':' !in r.file && !Numbered(r.name) }

  ghost predicate AllPlain(rows: seq<Row>) { forall r | r in rows :: Plain(r) }

  function Suffix(n: nat): string { if n > 1 then "#" + Decimal(n) else "" }

  /** A mark that occurs in neither remainder splits a string in one place. */
  lemma SplitsAtTheLast(a: string, x: string, b: string, y: string, mark: char)
    requires mark !in x && mark !in y && a + [mark] + x == b + [mark] + y
    ensures a == b && x == y
  {
    var s := a + [mark] + x;
    assert s[|a|] == mark && forall i | |b| < i < |s| :: s[i] == y[i - |b| - 1];
    assert s[|b|] == mark && forall i | |a| < i < |s| :: s[i] == x[i - |a| - 1];
    assert s[..|a|] == a && s[..|b|] == b && s[|a| + 1..] == x && s[|b| + 1..] == y;
  }

  lemma SplitsAtTheFirst(a: string, x: string, b: string, y: string, mark: char)
    requires mark !in a && mark !in b && a + [mark] + x == b + [mark] + y
    ensures a == b && x == y
  {
    var s := a + [mark] + x;
    assert s[|a|] == mark && forall i | 0 <= i < |b| :: s[i] == b[i];
    assert s[|b|] == mark && forall i | 0 <= i < |a| :: s[i] == a[i];
    assert s[..|a|] == a && s[..|b|] == b && s[|a| + 1..] == x && s[|b| + 1..] == y;
  }

  lemma SuffixesDiffer(a: string, m: nat, b: string, n: nat)
    requires m > 1 && n > 1 && a + Suffix(m) == b + Suffix(n)
    ensures a == b && m == n
  {
    assert a + Suffix(m) == a + ['#'] + Decimal(m) && b + Suffix(n) == b + ['#'] + Decimal(n);
    SplitsAtTheLast(a, Decimal(m), b, Decimal(n), '#');
    DecimalInjective(m, n);
  }

  /** Keys of plain names are told apart. */
  lemma KeyInjective(f: string, a: string, m: nat, g: string, b: string, n: nat)
    requires ':' !in f && ':' !in g && !Numbered(a) && !Numbered(b) && m >= 1 && n >= 1
    requires Key(f, a, m) == Key(g, b, n)
    ensures f == g && a == b && m == n
  {
    KeyShape(f, a, m);
    KeyShape(g, b, n);
    SplitsAtTheFirst(f, ":" + (a + Suffix(m)), g, ":" + (b + Suffix(n)), ':');
    assert (":" + (a + Suffix(m)))[1..] == a + Suffix(m) && (":" + (b + Suffix(n)))[1..] == b + Suffix(n);
    if m > 1 && n > 1 {
      SuffixesDiffer(a, m, b, n);
    } else {
      assert m == 1 ==> a + Suffix(m) == a;
      assert n == 1 ==> b + Suffix(n) == b;
    }
  }

  /** Why plain names are asked for: a name that ends like a number has a repeat's key. */
  lemma NumberedNamesCollide(file: string, name: string, n: nat)
    requires n > 1
    ensures Key(file, name, n) == Key(file, name + ("#" + Decimal(n)), 1)
  {
    assert file + "::" + name + ("#" + Decimal(n)) == file + "::" + (name + ("#" + Decimal(n)));
    assert Key(file, name + ("#" + Decimal(n)), 1) == file + "::" + (name + ("#" + Decimal(n)));
  }

  lemma KeyShape(f: string, a: string, m: nat)
    ensures Key(f, a, m) == f + [':'] + (":" + (a + Suffix(m)))
  {}

  /** Every key was given to the row it now names, as the so-many-th of its name. */
  lemma {:induction false} KeyedFrom(rows: seq<Row>, k: string)
    requires k in KeyedInOrder(rows).at
    ensures var r := KeyedInOrder(rows).at[k];
            r in rows
            && exists n ::
                 && 1 <= n <= |Named(rows, r.file, r.name)| && k == Key(r.file, r.name, n)
                 && Named(rows, r.file, r.name)[n - 1] == r
  {
    var front, last := rows[..|rows| - 1], rows[|rows| - 1];
    var n := |Named(rows, last.file, last.name)|;
    if k == Key(last.file, last.name, n) {
      assert Named(rows, last.file, last.name)[n - 1] == last;
    } else {
      KeyedFrom(front, k);
      var r := KeyedInOrder(front).at[k];
      var m :| 1 <= m <= |Named(front, r.file, r.name)| && k == Key(r.file, r.name, m)
        && Named(front, r.file, r.name)[m - 1] == r;
      assert Named(rows, r.file, r.name)[m - 1] == r;
    }
  }

  /** The key the row at `i` is given. */
  function KeyGiven(rows: seq<Row>, i: nat): string
    requires i < |rows|
  {
    Key(rows[i].file, rows[i].name, |Named(rows[..i + 1], rows[i].file, rows[i].name)|)
  }

  /** No function of another name is given the key of the `n`-th of this one. */
  ghost predicate KeyFree(rows: seq<Row>, file: string, name: string, n: nat) {
    forall i | 0 <= i < |rows| && !(rows[i].file == file && rows[i].name == name) ::
      KeyGiven(rows, i) != Key(file, name, n)
  }

  /** No two functions are given one key. */
  ghost predicate NoCollisions(rows: seq<Row>) {
    forall i, j | 0 <= i < j < |rows| :: KeyGiven(rows, i) != KeyGiven(rows, j)
  }

  lemma KeysOfANameDiffer(file: string, name: string, m: nat, n: nat)
    requires m >= 1 && n >= 1
    ensures Key(file, name, m) == Key(file, name, n) <==> m == n
  {
    if m > 1 && n > 1 {
      assert Key(file, name, m)[|file + "::" + name| + 1..] == Decimal(m);
      assert Key(file, name, n)[|file + "::" + name| + 1..] == Decimal(n);
      if Key(file, name, m) == Key(file, name, n) { DecimalInjective(m, n); }
    } else if m != n {
      assert |Key(file, name, m)| != |Key(file, name, n)|;
    }
  }

  lemma KeyGivenInFront(rows: seq<Row>, i: nat)
    requires i + 1 < |rows|
    ensures KeyGiven(rows[..|rows| - 1], i) == KeyGiven(rows, i)
  {
    PrefixOfFront(rows, i + 1);
  }

  lemma KeyGivenLast(rows: seq<Row>)
    requires rows != []
    ensures KeyGiven(rows, |rows| - 1) == Key(rows[|rows| - 1].file, rows[|rows| - 1].name,
                                              |Named(rows, rows[|rows| - 1].file, rows[|rows| - 1].name)|)
  {
    assert rows[..|rows|] == rows;
  }

  /** A key no other name is given holds the n-th of its own name, and nothing when there is none. */
  lemma {:induction false} KeyedAt(rows: seq<Row>, file: string, name: string, n: nat)
    requires KeyFree(rows, file, name, n) && n >= 1
    ensures Key(file, name, n) in KeyedInOrder(rows).at <==> n <= |Named(rows, file, name)|
    ensures n <= |Named(rows, file, name)| ==>
              KeyedInOrder(rows).at[Key(file, name, n)] == Named(rows, file, name)[n - 1]
  {
    if rows != [] {
      var front, last := rows[..|rows| - 1], rows[|rows| - 1];
      forall i | 0 <= i < |front| ensures KeyGiven(front, i) == KeyGiven(rows, i) { KeyGivenInFront(rows, i); }
      KeyedAt(front, file, name, n);
      KeyGivenLast(rows);
      var m := |Named(rows, last.file, last.name)|;
      KeysOfANameDiffer(file, name, n, m);
    }
  }

  /** The n-th of a name stands where that many of the name have been seen. */
  lemma {:induction false} NthGiven(rows: seq<Row>, file: string, name: string, n: nat) returns (i: nat)
    requires 1 <= n <= |Named(rows, file, name)|
    ensures i < |rows| && rows[i] == Named(rows, file, name)[n - 1] && |Named(rows[..i + 1], file, name)| == n
    ensures rows[i].file == file && rows[i].name == name && KeyGiven(rows, i) == Key(file, name, n)
  {
    var front, last := rows[..|rows| - 1], rows[|rows| - 1];
    if n <= |Named(front, file, name)| {
      i := NthGiven(front, file, name, n);
      PrefixOfFront(rows, i + 1);
    } else {
      i := |rows| - 1;
      WholePrefix(rows, i + 1);
    }
  }

  lemma PrefixOfFront<T>(xs: seq<T>, n: nat)
    requires n < |xs|
    ensures xs[..|xs| - 1][..n] == xs[..n]
  {}

  lemma WholePrefix<T>(xs: seq<T>, n: nat)
    requires n == |xs|
    ensures xs[..n] == xs
  {}

  /** Every function is found under the key it is given exactly when no two are given one key. */
  lemma EveryFunctionKeyed(rows: seq<Row>)
    ensures (forall i | 0 <= i < |rows| :: GivenHolds(rows, i)) <==> NoCollisions(rows)
  {
    if NoCollisions(rows) {
      forall i | 0 <= i < |rows| ensures GivenHolds(rows, i) { LastGivenHolds(rows, i); }
    } else {
      var i, j :| 0 <= i < j < |rows| && KeyGiven(rows, i) == KeyGiven(rows, j);
      GivenDiffersInAName(rows, i, j);
      assert !(GivenHolds(rows, i) && GivenHolds(rows, j));
    }
  }

  predicate GivenHolds(rows: seq<Row>, i: nat)
    requires i < |rows|
  {
    KeyGiven(rows, i) in KeyedInOrder(rows).at && KeyedInOrder(rows).at[KeyGiven(rows, i)] == rows[i]
  }

  /** A row keeps its key when no later one is given it. */
  lemma {:induction false} LastGivenHolds(rows: seq<Row>, i: nat)
    requires i < |rows| && forall j | i < j < |rows| :: KeyGiven(rows, i) != KeyGiven(rows, j)
    ensures GivenHolds(rows, i)
  {
    KeyGivenLast(rows);
    if i + 1 < |rows| {
      var front := rows[..|rows| - 1];
      forall j | i <= j < |front| ensures KeyGiven(front, j) == KeyGiven(rows, j) { KeyGivenInFront(rows, j); }
      LastGivenHolds(front, i);
    }
  }

  /** Two rows of one name are given different keys. */
  lemma GivenDiffersInAName(rows: seq<Row>, i: nat, j: nat)
    requires i < j < |rows| && KeyGiven(rows, i) == KeyGiven(rows, j)
    ensures rows[i].file != rows[j].file || rows[i].name != rows[j].name
  {
    var file, name := rows[i].file, rows[i].name;
    if rows[j].file == file && rows[j].name == name {
      NamedGrows(rows, file, name, i + 1, j);
      assert rows[..i + 1][..i] == rows[..i] && rows[..j + 1][..j] == rows[..j];
      KeysOfANameDiffer(file, name, |Named(rows[..i + 1], file, name)|, |Named(rows[..j + 1], file, name)|);
    }
  }

  lemma {:induction false} NamedGrows(rows: seq<Row>, file: string, name: string, i: nat, j: nat)
    requires i <= j <= |rows|
    ensures |Named(rows[..i], file, name)| <= |Named(rows[..j], file, name)|
  {
    if i < j {
      NamedGrows(rows, file, name, i, j - 1);
      assert rows[..j][..j - 1] == rows[..j - 1];
    }
  }

  /** Where no two functions are given one key, the keys of each are its own. */
  lemma GivenIsFree(rows: seq<Row>, file: string, name: string, n: nat)
    requires NoCollisions(rows) && 1 <= n <= |Named(rows, file, name)|
    ensures KeyFree(rows, file, name, n)
  {
    var i := NthGiven(rows, file, name, n);
    forall j | 0 <= j < |rows| && KeyGiven(rows, j) == Key(file, name, n) ensures j == i {}
  }

  /** Plain names are given keys of their own. */
  lemma PlainNamesAreFree(rows: seq<Row>, file: string, name: string, n: nat)
    requires AllPlain(rows) && ':' !in file && !Numbered(name) && n >= 1
    ensures KeyFree(rows, file, name, n)
  {
    forall i | 0 <= i < |rows| && KeyGiven(rows, i) == Key(file, name, n)
      ensures rows[i].file == file && rows[i].name == name
    {
      assert Plain(rows[i]);
      assert rows[..i + 1][..i] == rows[..i];
      KeyInjective(rows[i].file, rows[i].name, |Named(rows[..i + 1], rows[i].file, rows[i].name)|, file, name, n);
    }
  }

  lemma PlainNamesDoNotCollide(rows: seq<Row>)
    requires AllPlain(rows)
    ensures NoCollisions(rows)
  {
    forall i, j | 0 <= i < j < |rows| ensures KeyGiven(rows, i) != KeyGiven(rows, j) {
      if KeyGiven(rows, i) == KeyGiven(rows, j) {
        assert Plain(rows[j]);
        assert rows[..j + 1][..j] == rows[..j];
        PlainNamesAreFree(rows, rows[j].file, rows[j].name, |Named(rows[..j + 1], rows[j].file, rows[j].name)|);
        GivenDiffersInAName(rows, i, j);
      }
    }
  }

  // ---------------------------------------------------------- a clean check

  /** With no failure, the functions over the threshold and the entries of the sides checked are
      the same keys, each recorded to within the tolerance and with a reason. */
  lemma CleanMeans(rows: seq<Row>, baseline: Dict<Entry>, sides: set<string>)
    requires Sound(baseline)
    ensures Failures(rows, baseline, sides) == [] <==> forall k :: CleanAt(k, Keyed(rows).at, Mine(baseline, sides).at)
  {
    var failures := Failures(rows, baseline, sides);
    if failures == [] {
      forall k ensures CleanAt(k, Keyed(rows).at, Mine(baseline, sides).at) { CleanHere(rows, baseline, sides, k); }
    } else {
      CheckFinds(rows, baseline, sides, failures[0]);
      assert failures[0] in failures && !CleanAt(failures[0].key, Keyed(rows).at, Mine(baseline, sides).at);
    }
  }

  /** `k` names a function over the threshold exactly when it has an entry, which is tight and has a reason. */
  predicate CleanAt(k: string, fns: map<string, Row>, mine: map<string, Entry>) {
    && (k in fns && Over(fns[k]) <==> k in mine)
    && (k in mine ==> -TOLERANCE <= Score(fns[k]) - mine[k].score <= TOLERANCE && !Blank(mine[k].reason))
  }

  lemma CleanHere(rows: seq<Row>, baseline: Dict<Entry>, sides: set<string>, k: string)
    requires Sound(baseline) && Failures(rows, baseline, sides) == []
    ensures CleanAt(k, Keyed(rows).at, Mine(baseline, sides).at)
  {
    var fns, mine := Keyed(rows).at, Mine(baseline, sides).at;
    if k in fns {
      CheckFinds(rows, baseline, sides, New(k, fns[k]));
      if k in mine {
        CheckFinds(rows, baseline, sides, Rose(k, fns[k], mine[k].score));
        CheckFinds(rows, baseline, sides, Improved(k, fns[k], mine[k].score));
      }
    }
    if k in mine {
      CheckFinds(rows, baseline, sides, Stale(k, mine[k].score, if k in fns then Some(Score(fns[k])) else None));
      CheckFinds(rows, baseline, sides, NoReason(k));
    }
  }

  /** After a clean check each entry is for exactly one function over the threshold. */
  lemma EntriesAndFunctionsPairUp(rows: seq<Row>, baseline: Dict<Entry>, sides: set<string>, k: string)
    requires Sound(baseline) && Failures(rows, baseline, sides) == [] && k in Mine(baseline, sides).at
    ensures exists file, name, n :: IsNth(rows, file, name, n) && k == Key(file, name, n)
    ensures NoCollisions(InSourceOrder(rows)) ==>
              forall file, name, n, g, other, m | IsNth(rows, file, name, n) && IsNth(rows, g, other, m)
                                               && k == Key(file, name, n) && k == Key(g, other, m) ::
                file == g && name == other && n == m && Over(Named(InSourceOrder(rows), file, name)[n - 1])
  {
    CleanHere(rows, baseline, sides, k);
    var sorted := InSourceOrder(rows);
    KeyedFrom(sorted, k);
    var r := Keyed(rows).at[k];
    var n :| 1 <= n <= |Named(sorted, r.file, r.name)| && k == Key(r.file, r.name, n);
    assert IsNth(rows, r.file, r.name, n);
    if NoCollisions(sorted) {
      forall file, name, n, g, other, m | IsNth(rows, file, name, n) && IsNth(rows, g, other, m)
                                       && k == Key(file, name, n) && k == Key(g, other, m)
        ensures file == g && name == other && n == m && Over(Named(sorted, file, name)[n - 1])
      {
        OneKeyOneNth(sorted, file, name, n, g, other, m);
        GivenIsFree(sorted, file, name, n);
        KeyedAt(sorted, file, name, n);
      }
    }
  }

  lemma OneKeyOneNth(rows: seq<Row>, file: string, name: string, n: nat, g: string, other: string, m: nat)
    requires NoCollisions(rows) && Key(file, name, n) == Key(g, other, m)
    requires 1 <= n <= |Named(rows, file, name)| && 1 <= m <= |Named(rows, g, other)|
    ensures file == g && name == other && n == m
  {
    var i := NthGiven(rows, file, name, n);
    var j := NthGiven(rows, g, other, m);
    GivenOnce(rows, i, j);
    SamePlace(rows, i, j, file, name, n, g, other, m);
  }

  lemma SamePlace(rows: seq<Row>, i: nat, j: nat, file: string, name: string, n: nat, g: string, other: string, m: nat)
    requires i == j < |rows| && |Named(rows[..i + 1], file, name)| == n && |Named(rows[..j + 1], g, other)| == m
    requires rows[i].file == file && rows[i].name == name && rows[j].file == g && rows[j].name == other
    ensures file == g && name == other && n == m
  {}

  lemma GivenOnce(rows: seq<Row>, i: nat, j: nat)
    requires NoCollisions(rows) && i < |rows| && j < |rows| && KeyGiven(rows, i) == KeyGiven(rows, j)
    ensures i == j
  {}

  /** The rows hold an `n`-th function of that name. */
  predicate IsNth(rows: seq<Row>, file: string, name: string, n: nat) {
    1 <= n <= |Named(InSourceOrder(rows), file, name)|
  }

  /** Over any run of clean checks against one baseline no score drifts past twice the tolerance,
      however many checks there were. */
  lemma DriftStaysBounded(runs: seq<seq<Row>>, baseline: Dict<Entry>, sides: set<string>, i: nat, j: nat, k: string)
    requires Sound(baseline) && forall n | 0 <= n < |runs| :: Failures(runs[n], baseline, sides) == []
    requires i < |runs| && j < |runs| && k in Keyed(runs[i]).at && Over(Keyed(runs[i]).at[k])
    ensures k in Keyed(runs[j]).at && Over(Keyed(runs[j]).at[k])
    ensures -1.5 <= Score(Keyed(runs[j]).at[k]) - Score(Keyed(runs[i]).at[k]) <= 1.5
  {
    CleanHere(runs[i], baseline, sides, k);
    CleanHere(runs[j], baseline, sides, k);
  }

  // ------------------------------------------------------- inserting a name

  function Scores(rows: seq<Row>): seq<real> { seq(|rows|, i requires 0 <= i < |rows| => Score(rows[i])) }

  predicate InsertedAt(was: seq<Row>, now: seq<Row>, p: nat, x: real) {
    p <= |was| && Scores(now) == Scores(was)[..p] + [x] + Scores(was)[p..]
  }

  /** The `last` of `rows` is the last over the threshold. */
  predicate LastOver(rows: seq<Row>, last: nat) {
    last < |rows| && Over(rows[last]) && forall i | last < i < |rows| :: !Over(rows[i])
  }

  lemma InsertedShifts(was: seq<Row>, now: seq<Row>, p: nat, x: real, i: nat)
    requires InsertedAt(was, now, p, x) && p <= i < |was|
    ensures i + 1 < |now| && Score(now[i + 1]) == Score(was[i])
  {
    assert |Scores(now)| == |Scores(was)| + 1;
    assert Scores(now)[i + 1] == Scores(was)[p..][i - p] == Scores(was)[i];
  }

  /** Inserting a function above a recorded one of the same name is never silent: the last one over
      the threshold moves to a key with no entry, and fails as new, whatever the inserted one scores. */
  lemma InsertedNameFailsAsNew(rows: seq<Row>, edited: seq<Row>, baseline: Dict<Entry>, sides: set<string>,
                               file: string, name: string, p: nat, x: real, last: nat)
    requires Sound(baseline) && Failures(rows, baseline, sides) == []
    requires KeyFree(InSourceOrder(rows), file, name, last + 2) && KeyFree(InSourceOrder(edited), file, name, last + 2)
    requires InsertedAt(Named(InSourceOrder(rows), file, name), Named(InSourceOrder(edited), file, name), p, x)
    requires LastOver(Named(InSourceOrder(rows), file, name), last) && p <= last
    ensures last + 1 < |Named(InSourceOrder(edited), file, name)|
    ensures var moved := Named(InSourceOrder(edited), file, name)[last + 1];
            Score(moved) == Score(Named(InSourceOrder(rows), file, name)[last])
            && New(Key(file, name, last + 2), moved) in Failures(edited, baseline, sides)
  {
    var before, after := Named(InSourceOrder(rows), file, name), Named(InSourceOrder(edited), file, name);
    InsertedShifts(before, after, p, x, last);
    KeyedAt(InSourceOrder(edited), file, name, last + 2);
    NoEntryPastTheLast(rows, baseline, sides, file, name, last);
    CheckFinds(edited, baseline, sides, New(Key(file, name, last + 2), after[last + 1]));
  }

  /** A clean check leaves no entry for the key after a name's last function over the threshold. */
  lemma NoEntryPastTheLast(rows: seq<Row>, baseline: Dict<Entry>, sides: set<string>, file: string, name: string,
                           last: nat)
    requires Sound(baseline) && Failures(rows, baseline, sides) == []
    requires KeyFree(InSourceOrder(rows), file, name, last + 2)
    requires LastOver(Named(InSourceOrder(rows), file, name), last)
    ensures Key(file, name, last + 2) !in Mine(baseline, sides).at
  {
    KeyedAt(InSourceOrder(rows), file, name, last + 2);
    CleanHere(rows, baseline, sides, Key(file, name, last + 2));
  }

  // ------------------------------------------------------------------ scores

  lemma CubeGrows(c: real, u: real, v: real)
    requires 0.0 <= c && 0.0 <= u <= v
    ensures 0.0 <= c * (u * u * u) <= c * (v * v * v)
  {
    assert 0.0 <= u * u <= v * v by { assert u * u <= u * v <= v * v; }
    assert 0.0 <= u * u * u <= v * v * v by { assert (u * u) * u <= (v * v) * u <= (v * v) * v; }
  }

  /** More coverage never raises a score, and no coverage brings it below the complexity. */
  lemma CrapFallsWithCoverage(cc: nat, less: real, more: real)
    requires 0.0 <= less <= more <= 1.0
    ensures Crap(cc, more) <= Crap(cc, less)
    ensures cc as real <= Crap(cc, more)
  {
    assert 0 <= cc * cc;
    CubeGrows((cc * cc) as real, 1.0 - more, 1.0 - less);
  }

  /** The ratchet refuses the score of the function at `k`. */
  predicate ScoreRefused(k: string, failures: seq<Failure>) {
    exists f | f in failures :: f.key == k && (f.New? || f.Rose? || f.Improved?)
  }

  /** `k` has an entry this score is close to. */
  predicate EntryFits(k: string, score: real, mine: map<string, Entry>) {
    k in mine && -TOLERANCE <= score - mine[k].score <= TOLERANCE
  }

  /** A function over the threshold is refused unless an entry of its own fits. */
  lemma RefusedUnlessItFits(rows: seq<Row>, baseline: Dict<Entry>, sides: set<string>, k: string)
    requires Sound(baseline) && k in Keyed(rows).at && Over(Keyed(rows).at[k])
    ensures ScoreRefused(k, Failures(rows, baseline, sides))
            <==> !EntryFits(k, Score(Keyed(rows).at[k]), Mine(baseline, sides).at)
    ensures New(k, Keyed(rows).at[k]) in Failures(rows, baseline, sides) <==> k !in Mine(baseline, sides).at
  {
    var r, mine, failures := Keyed(rows).at[k], Mine(baseline, sides).at, Failures(rows, baseline, sides);
    CheckFinds(rows, baseline, sides, New(k, r));
    if ScoreRefused(k, failures) {
      var f :| f in failures && f.key == k && (f.New? || f.Rose? || f.Improved?);
      CheckFinds(rows, baseline, sides, f);
    }
    if k in mine {
      CheckFinds(rows, baseline, sides, Rose(k, r, mine[k].score));
      CheckFinds(rows, baseline, sides, Improved(k, r, mine[k].score));
    }
  }

  /** What the ratchet makes of a function the pre-push check fails, at any coverage and on any side. Found
      under its key, its score is refused unless it has an entry of its own that fits; not found there, it is
      not judged at all. */
  lemma PrePushExactly(r: Row, n: nat, rows: seq<Row>, baseline: Dict<Entry>, sides: set<string>)
    requires Sound(baseline) && FailsBeforePush(r, baseline.at) && IsNth(rows, r.file, r.name, n)
    requires IsMeasured(r, Named(InSourceOrder(rows), r.file, r.name)[n - 1])
    ensures var nth, key := Named(InSourceOrder(rows), r.file, r.name)[n - 1], Key(r.file, r.name, n);
            var failures, mine := Failures(rows, baseline, sides), Mine(baseline, sides).at;
            key in Keyed(rows).at
            && if Keyed(rows).at[key] == nth
               then (ScoreRefused(key, failures) <==> !EntryFits(key, Score(nth), mine))
                    && (New(key, nth) in failures <==> key !in mine)
               else forall f | f in failures && f.key == key && (f.New? || f.Rose? || f.Improved?) :: f.row != nth
  {
    var nth, key := Named(InSourceOrder(rows), r.file, r.name)[n - 1], Key(r.file, r.name, n);
    NthIsGiven(InSourceOrder(rows), r.file, r.name, n);
    if Keyed(rows).at[key] == nth {
      CrapFallsWithCoverage(nth.cc, nth.cov, nth.cov);
      RefusedUnlessItFits(rows, baseline, sides, key);
    } else {
      JudgesAnother(rows, baseline, sides, key, nth);
    }
  }

  lemma JudgesAnother(rows: seq<Row>, baseline: Dict<Entry>, sides: set<string>, k: string, r: Row)
    requires Sound(baseline) && k in Keyed(rows).at && Keyed(rows).at[k] != r
    ensures forall f | f in Failures(rows, baseline, sides) && f.key == k && (f.New? || f.Rose? || f.Improved?) ::
              f.row != r
  {
    forall f | f in Failures(rows, baseline, sides) && f.key == k && (f.New? || f.Rose? || f.Improved?)
      ensures f.row != r
    {
      CheckFinds(rows, baseline, sides, f);
    }
  }

  /** The key of the n-th of a name is always there, whoever holds it. */
  lemma {:induction false} NthIsGiven(rows: seq<Row>, file: string, name: string, n: nat)
    requires 1 <= n <= |Named(rows, file, name)|
    ensures Key(file, name, n) in KeyedInOrder(rows).at
  {
    var i := NthGiven(rows, file, name, n);
    GivenIsKey(rows, i);
  }

  lemma {:induction false} GivenIsKey(rows: seq<Row>, i: nat)
    requires i < |rows|
    ensures KeyGiven(rows, i) in KeyedInOrder(rows).at
  {
    KeyGivenLast(rows);
    if i + 1 < |rows| {
      KeyGivenInFront(rows, i);
      GivenIsKey(rows[..|rows| - 1], i);
    }
  }

  /** The same function, once its coverage is known. */
  predicate IsMeasured(r: Row, measured: Row) { measured.cc == r.cc && 0.0 <= measured.cov <= 1.0 }

  /** What the pre-push check fails, the ratchet fails as new exactly when the function is found under its key:
      the first function of its name, at any coverage, on any side. */
  lemma PrePushAgrees(r: Row, rows: seq<Row>, baseline: Dict<Entry>, sides: set<string>)
    requires Sound(baseline) && FailsBeforePush(r, baseline.at) && IsNth(rows, r.file, r.name, 1)
    requires IsMeasured(r, Named(InSourceOrder(rows), r.file, r.name)[0])
    ensures var first, key := Named(InSourceOrder(rows), r.file, r.name)[0], Key(r.file, r.name, 1);
            key in Keyed(rows).at
            && (New(key, first) in Failures(rows, baseline, sides) <==> Keyed(rows).at[key] == first)
  {
    PrePushExactly(r, 1, rows, baseline, sides);
  }

  /** A second function of a name with an entry of its own: it fails before the push, which looks up the bare
      key, and the ratchet accepts its score. */
  lemma PrePushIgnoresNumbers(first: Row, second: Row, entry: Entry)
    requires first.file == second.file && first.name == second.name && first.line < second.line
    requires second.cc as real > THRESHOLD && 0.0 <= second.cov <= 1.0
    requires -TOLERANCE <= Score(second) - entry.score <= TOLERANCE
    ensures var two := Key(second.file, second.name, 2); var baseline := Dict([two], map[two := entry]);
            Sound(baseline) && FailsBeforePush(second, baseline.at)
            && !ScoreRefused(two, Failures([first, second], baseline, {Side(two)}))
  {
    var rows, two := [first, second], Key(second.file, second.name, 2);
    var baseline := Dict([two], map[two := entry]);
    KeysOfANameDiffer(second.file, second.name, 1, 2);
    SortedStays(RowAtMost, rows);
    BothNamed(first, second);
    KeyedAt(rows, second.file, second.name, 2);
    PrePushExactly(second, 2, rows, baseline, {Side(two)});
    assert Mine(baseline, {Side(two)}).at[two] == entry;
  }

  lemma BothNamed(first: Row, second: Row)
    requires first.file == second.file && first.name == second.name
    ensures Named([first, second], second.file, second.name) == [first, second]
    ensures KeyFree([first, second], second.file, second.name, 2)
  {
    var rows := [first, second];
    assert rows[..1] == [first] && [first][..0] == [];
    assert Named([first], second.file, second.name) == [first];
  }

  /** Where no file has a colon and no name ends like a number, every function is found under its key, so
      what holds of functions found there holds of all. */
  lemma PlainNamesAreFound(rows: seq<Row>, file: string, name: string, n: nat)
    requires AllPlain(rows)
    ensures NoCollisions(InSourceOrder(rows))
    ensures IsNth(rows, file, name, n) ==>
              && Key(file, name, n) in Keyed(rows).at
              && Keyed(rows).at[Key(file, name, n)] == Named(InSourceOrder(rows), file, name)[n - 1]
  {
    SortKeeps(RowAtMost, rows);
    PlainNamesDoNotCollide(InSourceOrder(rows));
    if IsNth(rows, file, name, n) {
      GivenIsFree(InSourceOrder(rows), file, name, n);
      KeyedAt(InSourceOrder(rows), file, name, n);
    }
  }

  // ------------------------------------------------------ order of the rows

  lemma RowsTotal()
    ensures TotalOrder(RowAtMost)
  {
    forall a, b ensures RowAtMost(a, b) || RowAtMost(b, a) {
      AtMostTotal(a.file, b.file);
      AtMostTotal(a.name, b.name);
    }
    forall a, b, c | RowAtMost(a, b) && RowAtMost(b, c) ensures RowAtMost(a, c) {
      RowAtMostTransitive(a, b, c);
    }
  }

  lemma RowAtMostTransitive(a: Row, b: Row, c: Row)
    requires RowAtMost(a, b) && RowAtMost(b, c)
    ensures RowAtMost(a, c)
  {
    if a.file != b.file && b.file != c.file {
      AtMostTransitive(a.file, b.file, c.file);
      AtMostTotal(a.file, b.file);
    } else if a.file == b.file == c.file && a.line == b.line == c.line {
      AtMostTransitive(a.name, b.name, c.name);
    }
  }

  /** The verdict does not depend on the order the rows are given in, nor on the order of the
      baseline's entries, when no two functions share a file, line and name. */
  lemma OrderDoesNotMatter(rows: seq<Row>, shuffled: seq<Row>, baseline: Dict<Entry>, other: Dict<Entry>,
                           sides: set<string>)
    requires multiset(rows) == multiset(shuffled) && Sound(baseline) && Sound(other) && baseline.at == other.at
    requires forall i, j | 0 <= i < |rows| && 0 <= j < |rows| && rows[i].file == rows[j].file
             && rows[i].line == rows[j].line && rows[i].name == rows[j].name :: rows[i] == rows[j]
    ensures Failures(rows, baseline, sides) == Failures(shuffled, other, sides)
  {
    RowsTotal();
    SortPermutes(RowAtMost, rows);
    SortPermutes(RowAtMost, shuffled);
    SortSorts(RowAtMost, rows);
    SortSorts(RowAtMost, shuffled);
    NoRowTies(rows);
    SortedIsOnly(RowAtMost, InSourceOrder(rows), InSourceOrder(shuffled));
    var mine, same := Mine(baseline, sides), Mine(other, sides);
    OnlySound(k => Side(k) in sides, baseline);
    OnlySound(k => Side(k) in sides, other);
    SameKeys(mine, same);
    SortedKeysAgree(mine.order, same.order);
  }

  lemma NoRowTies(rows: seq<Row>)
    requires forall i, j | 0 <= i < |rows| && 0 <= j < |rows| && rows[i].file == rows[j].file
             && rows[i].line == rows[j].line && rows[i].name == rows[j].name :: rows[i] == rows[j]
    ensures NoTies(RowAtMost, InSourceOrder(rows))
  {
    var sorted := InSourceOrder(rows);
    SortKeeps(RowAtMost, rows);
    forall i, j | 0 <= i < |sorted| && 0 <= j < |sorted| && RowAtMost(sorted[i], sorted[j])
      && RowAtMost(sorted[j], sorted[i])
      ensures sorted[i] == sorted[j]
    {
      AtMostTotal(sorted[i].file, sorted[j].file);
      AtMostTotal(sorted[i].name, sorted[j].name);
      assert sorted[i] in sorted && sorted[j] in sorted;
      var a :| 0 <= a < |rows| && rows[a] == sorted[i];
      var b :| 0 <= b < |rows| && rows[b] == sorted[j];
    }
  }

  lemma SameKeys<V>(a: Dict<V>, b: Dict<V>)
    requires Sound(a) && Sound(b) && a.at == b.at
    ensures multiset(a.order) == multiset(b.order)
  {
    NoRepeatsCounts(a.order);
    NoRepeatsCounts(b.order);
    forall k ensures multiset(a.order)[k] == multiset(b.order)[k] {
      assert k in multiset(a.order) <==> k in a.order;
      assert k in multiset(b.order) <==> k in b.order;
    }
  }

  /** Updating twice writes what updating once wrote. */
  lemma UpdateTwice(rows: seq<Row>, baseline: Dict<Entry>, sides: set<string>)
    requires Sound(baseline)
    ensures Updated(rows, Updated(rows, baseline, sides), sides) == Updated(rows, baseline, sides)
  {
    var once := Updated(rows, baseline, sides);
    UpdatedAt(rows, baseline, sides, "");
    var twice := Updated(rows, once, sides);
    UpdatedAt(rows, once, sides, "");
    forall k ensures (k in twice.at <==> k in once.at) && (k in once.at ==> twice.at[k] == once.at[k]) {
      UpdatedIs(rows, baseline, sides, k);
      UpdatedIs(rows, once, sides, k);
    }
    assert twice.at == once.at;
    SameKeys(once, twice);
    UpdatedIsSorted(rows, baseline, sides);
    UpdatedIsSorted(rows, once, sides);
    SortedKeysAgree(once.order, twice.order);
  }

  lemma UpdatedIs(rows: seq<Row>, baseline: Dict<Entry>, sides: set<string>, k: string)
    requires Sound(baseline)
    ensures var fns := Keyed(rows).at; var out := Updated(rows, baseline, sides).at;
            (k in out <==> (k in fns && Over(fns[k])) || (k in baseline.at && Side(k) !in sides))
            && (k in out ==>
                  out[k] == if k in fns && Over(fns[k]) then Recorded(fns[k], k, baseline.at) else baseline.at[k])
  {
    KeyedSound(InSourceOrder(rows));
    OnlySound(x => Side(x) !in sides, baseline);
    WithOverAt(Keyed(rows).order, Keyed(rows).at, baseline.at, Only(x => Side(x) !in sides, baseline));
  }

  /** What is sorted already stays as it is. */
  lemma UpdatedIsSorted(rows: seq<Row>, baseline: Dict<Entry>, sides: set<string>)
    requires Sound(baseline)
    ensures Sort(AtMost, Updated(rows, baseline, sides).order) == Updated(rows, baseline, sides).order
  {
    KeyedSound(InSourceOrder(rows));
    var keys := WithOver(Keyed(rows).order, Keyed(rows).at, baseline.at, Only(x => Side(x) !in sides, baseline)).order;
    SortPermutes(AtMost, keys);
    SortedKeysAgree(Sort(AtMost, keys), keys);
  }

  // -------------------------------------------------------- what is computed

  /** The scores the pre-push check's own comment gives: a complexity of 25 passes at 90% coverage and fails at 75%. */
  lemma ScoresAsDocumented()
    ensures 25.6 <= Crap(25, 0.9) <= 25.65 && 34.75 <= Crap(25, 0.75) <= 34.85
    ensures Crap(30, 1.0) == 30.0 && Crap(31, 1.0) == 31.0 && Crap(6, 0.0) == 42.0
    ensures forall r: Row | r.cov == 1.0 :: Over(r) <==> r.cc >= 31
    ensures forall r: Row | r.cov == 0.0 :: Over(r) <==> r.cc >= 6
  {
    forall r: Row | r.cov == 0.0 ensures Over(r) <==> r.cc >= 6 {
      Uncovered(r.cc);
      assert Score(r) == (r.cc * r.cc + r.cc) as real;
    }
    forall r: Row | r.cov == 1.0 ensures Over(r) <==> r.cc >= 31 {
      assert Score(r) == r.cc as real;
    }
  }

  lemma Uncovered(cc: nat)
    ensures cc * cc + cc > 30 <==> cc >= 6
  {
    if cc >= 6 { assert cc * cc >= 6 * cc; } else { assert cc * cc <= 5 * cc; }
  }

  /** What the pre-push check warns of needs close to full coverage: it is over the threshold at 75%. */
  lemma WarnedNeedsCoverage(r: Row, baseline: map<string, Entry>, measured: Row)
    requires WarnsBeforePush(r, baseline) && measured.cc == r.cc
    ensures measured.cov == 0.75 ==> Over(measured)
    ensures measured.cov == 1.0 ==> !Over(measured)
  {
    var cc := r.cc;
    assert 25 <= cc <= 30;
    assert cc * cc >= 25 * cc >= 625;
    assert (1.0 - 0.75) * (1.0 - 0.75) * (1.0 - 0.75) == 0.015625;
    assert (cc * cc) as real * 0.015625 >= 625.0 * 0.015625;
  }

  /** `rounded` is `k` hundredths, the nearest to `x`, the even one of two as near. */
  predicate NearestHundredths(x: real, rounded: real, k: int) {
    && rounded == k as real / 100.0 && -0.005 <= rounded - x <= 0.005
    && (rounded - x == 0.005 || x - rounded == 0.005 ==> k % 2 == 0)
  }

  /** A recorded score is whole hundredths, the nearest ones, and of two as near the even. */
  lemma RoundsToHundredths(x: real) returns (k: int)
    ensures NearestHundredths(x, Round2(x), k)
  {
    var hundredths := x * 100.0;
    var below := hundredths.Floor;
    var past := hundredths - below as real;
    k := if past < 0.5 || (past == 0.5 && below % 2 == 0) then below else below + 1;
    assert Round2(x) == k as real / 100.0;
    assert (Round2(x) - x) * 100.0 == k as real - hundredths;
  }

  /** `update` writes its entries in the order of their keys, each once. */
  lemma UpdateIsSorted(rows: seq<Row>, baseline: Dict<Entry>, sides: set<string>)
    requires Sound(baseline)
    ensures SortedBy(AtMost, Updated(rows, baseline, sides).order) && NoRepeats(Updated(rows, baseline, sides).order)
  {
    UpdatedAt(rows, baseline, sides, "");
    StringsTotal();
    KeyedSound(InSourceOrder(rows));
    SortSorts(AtMost, WithOver(Keyed(rows).order, Keyed(rows).at, baseline.at,
                               Only(k => Side(k) !in sides, baseline)).order);
  }

  lemma {:induction false} NamedAre(rows: seq<Row>, file: string, name: string)
    ensures forall r | r in Named(rows, file, name) :: r in rows && r.file == file && r.name == name
  {
    if rows != [] { NamedAre(rows[..|rows| - 1], file, name); }
  }

  lemma {:induction false} NamedStaySorted(rows: seq<Row>, file: string, name: string)
    requires SortedBy(RowAtMost, rows)
    ensures SortedBy(RowAtMost, Named(rows, file, name))
  {
    if rows != [] {
      var front, last := rows[..|rows| - 1], rows[|rows| - 1];
      NamedStaySorted(front, file, name);
      NamedAre(front, file, name);
      forall r | r in Named(front, file, name) ensures RowAtMost(r, last) {
        var i :| 0 <= i < |front| && front[i] == r;
        assert rows[i] == r;
      }
    }
  }

  lemma {:induction false} CountNamed(rows: seq<Row>, file: string, name: string, r: Row)
    ensures multiset(Named(rows, file, name))[r] == if r.file == file && r.name == name then multiset(rows)[r] else 0
  {
    if rows != [] {
      var front, last := rows[..|rows| - 1], rows[|rows| - 1];
      CountNamed(front, file, name, r);
      assert rows == front + [last];
    }
  }

  /** The functions of one name in one file are numbered by their lines, each once. */
  lemma NumberedInSourceOrder(rows: seq<Row>, file: string, name: string)
    ensures var named := Named(InSourceOrder(rows), file, name);
            && (forall m, n | 0 <= m < n < |named| :: named[m].line <= named[n].line)
            && forall r :: multiset(named)[r] == if r.file == file && r.name == name then multiset(rows)[r] else 0
  {
    var sorted := InSourceOrder(rows);
    var named := Named(sorted, file, name);
    RowsTotal();
    SortSorts(RowAtMost, rows);
    SortPermutes(RowAtMost, rows);
    NamedAre(sorted, file, name);
    NamedStaySorted(sorted, file, name);
    forall m, n | 0 <= m < n < |named| ensures named[m].line <= named[n].line {
      assert RowAtMost(named[m], named[n]) && named[m] in named && named[n] in named;
    }
    forall r ensures multiset(named)[r] == if r.file == file && r.name == name then multiset(rows)[r] else 0 {
      CountNamed(sorted, file, name, r);
    }
  }

  predicate OnRow(f: Failure) { f.New? || f.Rose? || f.Improved? }

  lemma {:induction false} RowFailuresOnce(keys: seq<string>, fns: map<string, Row>, mine: map<string, Entry>)
    requires NoRepeats(keys) && forall k | k in keys :: k in fns
    ensures var fs := AllRowFailures(keys, fns, mine);
            && (forall f | f in fs :: f.key in keys && OnRow(f))
            && forall i, j | 0 <= i < j < |fs| :: fs[i].key != fs[j].key
  {
    if keys != [] {
      var front, k := keys[..|keys| - 1], keys[|keys| - 1];
      RowFailuresOnce(front, fns, mine);
      assert k !in front;
    }
  }

  lemma {:induction false} EntryFailuresOnce(keys: seq<string>, fns: map<string, Row>, mine: map<string, Entry>)
    requires NoRepeats(keys) && SortedBy(AtMost, keys) && forall k | k in keys :: k in mine
    ensures var fs := AllEntryFailures(keys, fns, mine);
            && (forall f | f in fs :: f.key in keys && !OnRow(f))
            && forall i, j | 0 <= i < j < |fs| :: fs[i] != fs[j] && AtMost(fs[i].key, fs[j].key)
  {
    if keys != [] {
      var front, k := keys[..|keys| - 1], keys[|keys| - 1];
      EntryFailuresOnce(front, fns, mine);
      LastIsGreatest(keys, front);
      OneEntryMore(AllEntryFailures(front, fns, mine), EntryFailures(k, mine[k], fns), k);
    }
  }

  lemma LastIsGreatest(keys: seq<string>, front: seq<string>)
    requires keys != [] && NoRepeats(keys) && SortedBy(AtMost, keys) && front == keys[..|keys| - 1]
    ensures forall x | x in front :: x != keys[|keys| - 1] && AtMost(x, keys[|keys| - 1])
  {
    forall x | x in front ensures x != keys[|keys| - 1] && AtMost(x, keys[|keys| - 1]) {
      var i :| 0 <= i < |front| && front[i] == x;
      assert keys[i] == x;
    }
  }

  lemma OneEntryMore(before: seq<Failure>, more: seq<Failure>, k: string)
    requires forall f | f in before :: f.key != k && AtMost(f.key, k)
    requires (forall f | f in more :: f.key == k) && forall i, j | 0 <= i < j < |more| :: more[i] != more[j]
    requires forall i, j | 0 <= i < j < |before| :: before[i] != before[j] && AtMost(before[i].key, before[j].key)
    ensures var all := before + more;
            forall i, j | 0 <= i < j < |all| :: all[i] != all[j] && AtMost(all[i].key, all[j].key)
  {
    AtMostTotal(k, k);
    var all := before + more;
    forall i, j | 0 <= i < j < |all| ensures all[i] != all[j] && AtMost(all[i].key, all[j].key) {
      if i < |before| <= j {
        assert before[i] in before && more[j - |before|] in more;
      } else if |before| <= i {
        assert more[i - |before|] in more && more[j - |before|] in more;
      }
    }
  }

  /** No failure is reported twice, those of functions come first, and those of entries follow in the order of
      their keys. */
  lemma FailuresInOrder(rows: seq<Row>, baseline: Dict<Entry>, sides: set<string>)
    requires Sound(baseline)
    ensures var fs := Failures(rows, baseline, sides);
            forall i, j | 0 <= i < j < |fs| ::
              && fs[i] != fs[j] && (OnRow(fs[j]) ==> OnRow(fs[i])) && (!OnRow(fs[i]) ==> AtMost(fs[i].key, fs[j].key))
  {
    var fns, mine := Keyed(rows), Mine(baseline, sides);
    KeyedSound(InSourceOrder(rows));
    OnlySound(k => Side(k) in sides, baseline);
    SortKeeps(AtMost, mine.order);
    StringsTotal();
    SortSorts(AtMost, mine.order);
    SortedSound(mine);
    RowFailuresOnce(fns.order, fns.at, mine.at);
    EntryFailuresOnce(Sort(AtMost, mine.order), fns.at, mine.at);
    JoinedInOrder(AllRowFailures(fns.order, fns.at, mine.at),
                  AllEntryFailures(Sort(AtMost, mine.order), fns.at, mine.at));
  }

  lemma JoinedInOrder(a: seq<Failure>, b: seq<Failure>)
    requires (forall f | f in a :: OnRow(f)) && forall f | f in b :: !OnRow(f)
    requires forall i, j | 0 <= i < j < |a| :: a[i].key != a[j].key
    requires forall i, j | 0 <= i < j < |b| :: b[i] != b[j] && AtMost(b[i].key, b[j].key)
    ensures forall i, j | 0 <= i < j < |a + b| ::
              && (a + b)[i] != (a + b)[j] && (OnRow((a + b)[j]) ==> OnRow((a + b)[i]))
              && (!OnRow((a + b)[i]) ==> AtMost((a + b)[i].key, (a + b)[j].key))
  {
    var all := a + b;
    forall i, j | 0 <= i < j < |all|
      ensures all[i] != all[j] && (OnRow(all[j]) ==> OnRow(all[i]))
      ensures !OnRow(all[i]) ==> AtMost(all[i].key, all[j].key)
    {
      if i < |a| { assert all[i] in a; } else { assert all[i] in b; }
      if j < |a| { assert all[j] in a; } else { assert all[j] in b; }
    }
  }
}
