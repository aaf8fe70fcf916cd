/**
 What a View-as session may do (backend/app/api/deps.py): path templates as
 regular expressions, the inventories, and the three tiers' one decision.
 */
module ViewAs {
  import opened Options

  // -------------------------------------------------------------- templates

  /** The length of a `\{[^/}]+\}` at the start of `s`; 0 for none. */
  function ParamAt(s: string): (n: nat)
    ensures n <= |s|
  {
    if s == [] || s[0] != '{' then 0
    else
      var n := NameRun(s[1..]);
      if n > 0 && 1 + n < |s| && s[1 + n] == '}' then n + 2 else 0
  }

  /** The length of the `[^/}]*` at the start of `s`. */
  function NameRun(s: string): (n: nat)
    ensures n <= |s| && (forall i | 0 <= i < n :: s[i] != '/' && s[i] != '}')
            && (n < |s| ==> s[n] == '/' || s[n] == '}')
  {
    if s != [] && s[0] != '/' && s[0] != '}' then 1 + NameRun(s[1..]) else 0
  }

  /** `re.split` of an entry at its parameters. */
  function Pieces(entry: string): (pieces: seq<string>)
    ensures pieces != []
    decreases |entry|
  {
    if entry == [] then [""]
    else if ParamAt(entry) > 0 then [""] + Pieces(entry[ParamAt(entry)..])
    else Prepended([entry[0]], Pieces(entry[1..]))
  }

  function Prepended(s: string, pieces: seq<string>): (r: seq<string>)
    requires pieces != []
    ensures r != []
  {
    [s + pieces[0]] + pieces[1..]
  }

  /** `fullmatch` of the pieces with `[^/]+` between them. */
  ghost predicate FullMatch(pieces: seq<string>, path: string)
    requires pieces != []
  {
    if |pieces| == 1 then path == pieces[0]
    else pieces[0] <= path && exists n: nat ::
         FillsParam(path[|pieces[0]|..], n) && FullMatch(pieces[1..], path[|pieces[0]|..][n..])
  }

  predicate FillsParam(s: string, n: nat) { 0 < n <= |s| && '/' !in s[..n] }

  // ------------------------------------------------------------ inventories

  /** An inventory entry by its segments. */
  datatype Segment = Literal(text: string) | Param(name: string)
  type Template = seq<Segment>

  function SegmentText(s: Segment): string {
    match s case Literal(text) => "/" + text case Param(name) => "/{" + name + "}"
  }

  function Text(t: Template): string { if t == [] then "" else SegmentText(t[0]) + Text(t[1..]) }

  /** `{settings.API_V1_STR}` before the rest of an entry. */
  function Api(rest: Template): Template { [Literal("api"), Literal("v1")] + rest }

  const SUMMARY := Param("summary_id")

  const READ_ONLY_PATHS: seq<Template> := [
    Api([Literal("data"), Literal("posts")]),
    Api([Literal("data"), Literal("posts"), Literal("counts")]),
    Api([Literal("data"), Literal("posts"), Literal("facets")]),
    Api([Literal("data"), Literal("posts"), Literal("value-histogram")]),
    Api([Literal("data"), Literal("posts"), Literal("window-histogram")]),
    Api([Literal("data"), Literal("posts"), Literal("window-check")]),
    Api([Literal("data"), Literal("posts"), Literal("chain")]),
    Api([Literal("data"), Literal("posts"), Literal("lookup")]),
    Api([Literal("data"), Literal("discover"), Literal("candidates")]),
    Api([Literal("data"), Literal("directory"), Literal("list")]),
    Api([Literal("data"), Literal("directory"), Literal("count")]),
    Api([Literal("data"), Literal("directory"), Literal("handles")]),
    Api([Literal("data"), Literal("directory"), Literal("distribution")]),
    Api([Literal("data"), Literal("directory"), Literal("why")]),
    Api([Literal("login"), Literal("test-token")]),
    Api([Literal("data"), Literal("summaries"), SUMMARY, Literal("publication"), Literal("plan")]),
    Api([Literal("data"), Literal("tags"), Literal("order")])]

  const SPEND_PATHS: seq<Template> := [
    Api([Literal("data"), Literal("summaries"), SUMMARY, Literal("attempts"), Literal("start")]),
    Api([Literal("ai"), Literal("chat"), Literal("stream")]),
    Api([Literal("ai"), Literal("tag"), Literal("stream")]),
    Api([Literal("ai"), Literal("models")]),
    Api([Literal("telegram"), Literal("publish")]),
    Api([Literal("data"), Literal("summaries"), SUMMARY, Literal("publication")]),
    Api([Literal("telegram"), Literal("bot-info")]),
    Api([Literal("jobs"), Literal("sync")]),
    Api([Literal("data"), Literal("channels"), Literal("bulk-follow")]),
    Api([Literal("data"), Literal("channels"), Literal("bulk-reset-sync")])]

  const REFUSED_PATHS: seq<Template> := [
    Api([Literal("users"), Literal("me")]),
    Api([Literal("users"), Literal("me"), Literal("password")])]

  const REFUSED_PREFIXES: seq<Template> := [
    Api([Literal("data"), Literal("ai-keys")]),
    Api([Literal("view-as")])]

  const SAFE_METHODS := {"GET", "HEAD", "OPTIONS"}
  const READ_ONLY := "read_only"
  const ELEVATED := "elevated"
  const SPEND := "spend"

  // ---------------------------------------------------------------- decision

  ghost predicate Listed(path: string, inventory: seq<Template>) {
    exists e | e in inventory :: FullMatch(Pieces(Text(e)), path) || FullMatch(Pieces(Text(e)), path + "/")
  }

  ghost predicate Spends(path: string) { Listed(path, SPEND_PATHS) }

  function RightStripped(path: string): string {
    if path != [] && path[|path| - 1] == '/' then RightStripped(path[..|path| - 1]) else path
  }

  function Trimmed(path: string): string { if RightStripped(path) == "" then path else RightStripped(path) }

  predicate ElevationRefuses(path: string) {
    || (exists e | e in REFUSED_PATHS :: Trimmed(path) == Text(e))
    || (exists e | e in REFUSED_PREFIXES :: Trimmed(path) == Text(e) || Text(e) + "/" <= Trimmed(path))
  }

  function Upper(s: string): string {
    seq(|s|, i requires 0 <= i < |s| => if 'a' <= s[i] <= 'z' then s[i] - 32 as char else s[i])
  }

  predicate Safe(verb: string) { Upper(verb) in SAFE_METHODS }

  ghost predicate Allows(verb: string, path: string, mode: Option<string>) {
    if Spends(path) then mode == Some(SPEND)
    else if Safe(verb) then true
    else if mode == Some(ELEVATED) || mode == Some(SPEND) then !ElevationRefuses(path)
    else Listed(path, READ_ONLY_PATHS)
  }

  datatype Detail = ReadOnlySession | NeedsSpendSession | NotWhileActing

  ghost function RefusalDetail(path: string, mode: Option<string>): Detail {
    if mode == Some(READ_ONLY) || mode !in {Some(READ_ONLY), Some(ELEVATED), Some(SPEND)} then ReadOnlySession
    else if mode == Some(ELEVATED) && Spends(path) then NeedsSpendSession
    else NotWhileActing
  }

  // --------------------------------------------------- segments, one by one

  predicate SegmentOk(s: Segment, text: string) {
    match s case Literal(literal) => text == literal case Param(_) => text != ""
  }

  /** The length of the run of non-slashes `s` starts with. */
  function SegmentRun(s: string): (n: nat)
    ensures n <= |s| && '/' !in s[..n] && (n < |s| ==> s[n] == '/')
  {
    if s != [] && s[0] != '/' then 1 + SegmentRun(s[1..]) else 0
  }

  /** What a template means: as many segments, each the entry's own or, for a parameter, any. */
  predicate SegmentsMatch(t: Template, path: string) {
    if t == [] then path == ""
    else
      path != "" && path[0] == '/'
      && var n := SegmentRun(path[1..]);
         SegmentOk(t[0], path[1..1 + n]) && SegmentsMatch(t[1..], path[1 + n..])
  }

  predicate Word(text: string) { text != "" && '/' !in text && '{' !in text }

  predicate WellFormedSegment(s: Segment) {
    match s
    case Literal(text) => Word(text)
    case Param(name) => name != "" && '/' !in name && '}' !in name
  }

  predicate WellFormed(t: Template) { forall i | 0 <= i < |t| :: WellFormedSegment(t[i]) }

  lemma FirstBack(s: string, rest: string)
    requires s != ""
    ensures [s[0]] + (s[1..] + rest) == s + rest
  {}

  lemma {:induction false} LiteralPieces(s: string, rest: string)
    requires '{' !in s
    ensures Pieces(s + rest) == Prepended(s, Pieces(rest))
  {
    if s == "" {
      assert s + rest == rest;
      assert "" + Pieces(rest)[0] == Pieces(rest)[0];
    } else {
      LiteralPieces(s[1..], rest);
      assert (s + rest)[1..] == s[1..] + rest && (s + rest)[0] == s[0];
      FirstBack(s, Pieces(rest)[0]);
    }
  }

  lemma {:induction false} NameRunIs(name: string, rest: string)
    requires '/' !in name && '}' !in name && rest != [] && rest[0] == '}'
    ensures NameRun(name + rest) == |name|
  {
    if name == "" {
      assert name + rest == rest;
    } else {
      NameRunIs(name[1..], rest);
      assert (name + rest)[1..] == name[1..] + rest;
    }
  }

  lemma ParamPieces(name: string, rest: string)
    requires name != "" && '/' !in name && '}' !in name
    ensures Pieces("{" + (name + ("}" + rest))) == [""] + Pieces(rest)
  {
    var s := "{" + (name + ("}" + rest));
    assert s[1..] == name + ("}" + rest);
    NameRunIs(name, "}" + rest);
    assert s[1 + |name|] == '}' && s[|name| + 2..] == rest;
  }

  lemma LiteralMatch(s: string, pieces: seq<string>, path: string)
    requires pieces != []
    ensures FullMatch(Prepended(s, pieces), path) <==> s <= path && FullMatch(pieces, path[|s|..])
  {
    var both := Prepended(s, pieces);
    assert both[1..] == pieces[1..];
    if s <= path {
      assert s + pieces[0] <= path <==> pieces[0] <= path[|s|..];
      if s + pieces[0] <= path { assert path[|s + pieces[0]|..] == path[|s|..][|pieces[0]|..]; }
      assert path == s + path[|s|..];
    }
  }

  lemma {:induction false} MatchedShape(t: Template, path: string)
    requires SegmentsMatch(t, path)
    ensures path != "" ==> path[0] == '/'
  {}

  lemma {:induction false} SegmentRunIs(s: string, rest: string)
    requires '/' !in s && (rest == "" || rest[0] == '/')
    ensures SegmentRun(s + rest) == |s|
  {
    if s == "" {
      assert s + rest == rest;
    } else {
      SegmentRunIs(s[1..], rest);
      assert (s + rest)[1..] == s[1..] + rest;
    }
  }

  lemma ParamThen(pieces: seq<string>, path: string)
    requires pieces != []
    ensures FullMatch([""] + pieces, path) <==> exists n: nat :: FillsParam(path, n) && FullMatch(pieces, path[n..])
  {
    assert ([""] + pieces)[1..] == pieces && path[0..] == path;
  }

  /** A parameter takes a whole segment, because what follows it is a slash or nothing. */
  lemma ParamMatch(rest: Template, pieces: seq<string>, path: string)
    requires pieces != [] && forall q :: FullMatch(pieces, q) <==> SegmentsMatch(rest, q)
    ensures FullMatch([""] + pieces, path) <==> SegmentRun(path) > 0 && SegmentsMatch(rest, path[SegmentRun(path)..])
  {
    ParamThen(pieces, path);
    var run := SegmentRun(path);
    if FullMatch([""] + pieces, path) {
      var n: nat :| FillsParam(path, n) && FullMatch(pieces, path[n..]);
      assert SegmentsMatch(rest, path[n..]);
      FilledSegment(rest, path, n);
    } else if run > 0 {
      assert FillsParam(path, run);
      assert !FullMatch(pieces, path[run..]);
    }
  }

  lemma FilledSegment(rest: Template, path: string, n: nat)
    requires FillsParam(path, n) && SegmentsMatch(rest, path[n..])
    ensures n == SegmentRun(path)
  {
    MatchedShape(rest, path[n..]);
    assert path == path[..n] + path[n..];
    SegmentRunIs(path[..n], path[n..]);
  }

  /** The regular expression of a template whose parameters fill whole segments matches exactly the
      paths that agree with it segment by segment. */
  lemma {:induction false} TemplateIsSegmentwise(t: Template, path: string)
    requires WellFormed(t)
    ensures FullMatch(Pieces(Text(t)), path) <==> SegmentsMatch(t, path)
    decreases |t|
  {
    if t != [] {
      var rest := t[1..];
      assert t == [t[0]] + rest && WellFormedSegment(t[0]) && WellFormed(rest);
      match t[0]
      case Literal(text) =>
        if "/" + text <= path { TemplateIsSegmentwise(rest, path[|text| + 1..]); }
        LiteralTemplate(text, rest, path);
      case Param(name) =>
        forall q
          ensures FullMatch(Pieces(Text(rest)), q) <==> SegmentsMatch(rest, q)
        {
          TemplateIsSegmentwise(rest, q);
        }
        ParamTemplate(name, rest, path);
    }
  }

  lemma LiteralTemplate(text: string, rest: Template, path: string)
    requires Word(text)
    requires "/" + text <= path ==> (FullMatch(Pieces(Text(rest)), path[|text| + 1..])
                                     <==> SegmentsMatch(rest, path[|text| + 1..]))
    ensures FullMatch(Pieces(SegmentText(Literal(text)) + Text(rest)), path)
            <==> SegmentsMatch([Literal(text)] + rest, path)
  {
    LiteralPieces("/" + text, Text(rest));
    LiteralMatch("/" + text, Pieces(Text(rest)), path);
    LiteralSegment(text, rest, path);
  }

  lemma ParamTemplate(name: string, rest: Template, path: string)
    requires WellFormedSegment(Param(name)) && forall q :: FullMatch(Pieces(Text(rest)), q) <==> SegmentsMatch(rest, q)
    ensures FullMatch(Pieces(SegmentText(Param(name)) + Text(rest)), path)
            <==> SegmentsMatch([Param(name)] + rest, path)
  {
    var tail := "{" + (name + ("}" + Text(rest)));
    assert SegmentText(Param(name)) + Text(rest) == "/" + tail;
    LiteralPieces("/", tail);
    ParamPieces(name, Text(rest));
    LiteralMatch("/", [""] + Pieces(Text(rest)), path);
    if path != "" {
      ParamMatch(rest, Pieces(Text(rest)), path[1..]);
      ParamSegment(name, rest, path);
      assert "/" <= path <==> path[0] == '/';
    }
  }

  lemma LiteralSegment(text: string, rest: Template, path: string)
    requires '/' !in text
    ensures SegmentsMatch([Literal(text)] + rest, path)
            <==> "/" + text <= path && SegmentsMatch(rest, path[|text| + 1..])
  {
    if SegmentsMatch([Literal(text)] + rest, path) {
      LiteralTaken(text, rest, path);
    } else if "/" + text <= path && SegmentsMatch(rest, path[|text| + 1..]) {
      LiteralFits(text, rest, path);
    }
  }

  lemma LiteralTaken(text: string, rest: Template, path: string)
    requires SegmentsMatch([Literal(text)] + rest, path)
    ensures "/" + text <= path && SegmentsMatch(rest, path[|text| + 1..])
  {
    assert ([Literal(text)] + rest)[1..] == rest;
    assert path == "/" + (text + path[|text| + 1..]);
  }

  lemma LiteralFits(text: string, rest: Template, path: string)
    requires '/' !in text && "/" + text <= path && SegmentsMatch(rest, path[|text| + 1..])
    ensures SegmentsMatch([Literal(text)] + rest, path)
  {
    assert ([Literal(text)] + rest)[1..] == rest;
    MatchedShape(rest, path[|text| + 1..]);
    assert path[1..] == text + path[|text| + 1..];
    SegmentRunIs(text, path[|text| + 1..]);
  }

  lemma ParamSegment(name: string, rest: Template, path: string)
    requires path != ""
    ensures SegmentsMatch([Param(name)] + rest, path)
       <==> path[0] == '/' && SegmentRun(path[1..]) > 0 && SegmentsMatch(rest, path[1..][SegmentRun(path[1..])..])
  {
    assert ([Param(name)] + rest)[1..] == rest;
    assert path[1..][SegmentRun(path[1..])..] == path[1 + SegmentRun(path[1..])..];
  }
}
