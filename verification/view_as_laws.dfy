/** The three View-as tiers form a ladder over every method and every path. */
module ViewAsLaws {
  import opened Options
  import opened ViewAs

  // ---------------------------------------------------------- what is listed

  lemma {:induction false} NoTrailingSlash(t: Template, path: string)
    requires t != [] && WellFormed(t) && SegmentsMatch(t, path)
    ensures path[|path| - 1] != '/' && path != ""
    decreases |t|
  {
    var n := SegmentRun(path[1..]);
    assert WellFormedSegment(t[0]);
    if |t| == 1 {
      assert path[|path| - 1] == path[1..1 + n][n - 1];
    } else {
      assert WellFormed(t[1..]);
      NoTrailingSlash(t[1..], path[1 + n..]);
    }
  }

  predicate AllWellFormed(inventory: seq<Template>) {
    forall i | 0 <= i < |inventory| :: inventory[i] != [] && WellFormed(inventory[i])
  }

  ghost predicate Named(path: string, inventory: seq<Template>) {
    exists i | 0 <= i < |inventory| :: SegmentsMatch(inventory[i], path)
  }

  /** A listed path is one an entry agrees with segment by segment; no entry ends in a slash, so the
      tolerance for one never decides. */
  lemma ListedIs(path: string, inventory: seq<Template>)
    requires AllWellFormed(inventory)
    ensures Listed(path, inventory) <==> Named(path, inventory)
  {
    if Listed(path, inventory) {
      var e :| e in inventory && (FullMatch(Pieces(Text(e)), path) || FullMatch(Pieces(Text(e)), path + "/"));
      var i :| 0 <= i < |inventory| && inventory[i] == e;
      TemplateIsSegmentwise(e, path);
      TemplateIsSegmentwise(e, path + "/");
      if SegmentsMatch(e, path + "/") { NoTrailingSlash(e, path + "/"); }
    }
    if Named(path, inventory) {
      var i :| 0 <= i < |inventory| && SegmentsMatch(inventory[i], path);
      TemplateIsSegmentwise(inventory[i], path);
      assert inventory[i] in inventory;
    }
  }

  lemma InventoriesAreWellFormed()
    ensures AllWellFormed(READ_ONLY_PATHS) && AllWellFormed(SPEND_PATHS)
    ensures AllWellFormed(REFUSED_PATHS) && AllWellFormed(REFUSED_PREFIXES)
  {
    ReadOnlyWellFormed();
    SpendWellFormed();
    RefusedWellFormed();
  }

  lemma CommonWords()
    ensures Word("api") && Word("v1") && Word("data") && Word("posts") && Word("summaries") && Word("publication")
            && Word("stream")
  {}

  lemma PostWords()
    ensures Word("counts") && Word("facets") && Word("value-histogram") && Word("window-histogram")
            && Word("window-check")
    ensures Word("chain") && Word("lookup")
  {}

  lemma DirectoryWords()
    ensures Word("discover") && Word("candidates") && Word("directory") && Word("list") && Word("count")
            && Word("handles")
    ensures Word("distribution") && Word("why") && Word("login") && Word("test-token")
  {}

  lemma OtherReadWords()
    ensures Word("plan") && Word("tags") && Word("order")
  {}

  lemma SpendWords()
    ensures Word("attempts") && Word("start") && Word("ai") && Word("chat") && Word("tag") && Word("models")
            && Word("telegram")
    ensures Word("publish") && Word("bot-info") && Word("jobs") && Word("sync")
  {}

  lemma ChannelWords()
    ensures Word("channels") && Word("bulk-follow") && Word("bulk-reset-sync")
  {}

  lemma SummaryIsAName()
    ensures WellFormedSegment(SUMMARY)
  {}

  lemma ReadOnlyWellFormed()
    ensures AllWellFormed(READ_ONLY_PATHS)
  {
    CommonWords();
    PostWords();
    DirectoryWords();
    OtherReadWords();
    SummaryIsAName();
  }

  lemma SpendWellFormed()
    ensures AllWellFormed(SPEND_PATHS)
  {
    CommonWords();
    SpendWords();
    ChannelWords();
    SummaryIsAName();
  }

  lemma RefusedWords()
    ensures Word("users") && Word("me") && Word("password") && Word("ai-keys") && Word("view-as")
  {}

  lemma RefusedWellFormed()
    ensures AllWellFormed(REFUSED_PATHS) && AllWellFormed(REFUSED_PREFIXES)
  {
    CommonWords();
    RefusedWords();
  }

  // ------------------------------------------------------------- overlapping

  predicate Differ(a: Segment, b: Segment) { a.Literal? && b.Literal? && a.text != b.text }

  /** Two templates that name one path agree on its segments; so does a path a template starts. */
  lemma {:induction false} OnePathAgrees(t: Template, u: Template, path: string)
    requires SegmentsMatch(t, path) && SegmentsMatch(u, path)
    ensures |t| == |u| && forall i | 0 <= i < |t| :: !Differ(t[i], u[i])
    decreases |t|
  {
    if t != [] && u != [] {
      OnePathAgrees(t[1..], u[1..], path[1 + SegmentRun(path[1..])..]);
      assert forall i | 0 < i < |t| :: t[i] == t[1..][i - 1] && u[i] == u[1..][i - 1];
    }
  }

  predicate AllLiteral(t: Template) { forall i | 0 <= i < |t| :: t[i].Literal? }

  lemma {:induction false} PathUnderAgrees(prefix: Template, under: string, t: Template)
    requires AllLiteral(prefix) && WellFormed(prefix) && (under == "" || under[0] == '/')
    requires SegmentsMatch(t, Text(prefix) + under)
    ensures |prefix| <= |t| && forall i | 0 <= i < |prefix| :: !Differ(t[i], prefix[i])
    decreases |prefix|
  {
    if prefix != [] {
      var first, rest := prefix[0].text, prefix[1..];
      assert WellFormedSegment(prefix[0]) && WellFormed(rest) && AllLiteral(rest);
      TextShape(rest);
      var after := Text(rest) + under;
      RegroupText("/", first, Text(rest), under);
      MatchedHead(t, first, after);
      PathUnderAgrees(rest, under, t[1..]);
      FirstAgreesToo(t, prefix);
    }
  }

  lemma FirstAgreesToo(t: Template, u: Template)
    requires t != [] && u != [] && !Differ(t[0], u[0]) && |u| <= |t|
    requires forall i | 0 <= i < |u[1..]| :: !Differ(t[1..][i], u[1..][i])
    ensures forall i | 0 <= i < |u| :: !Differ(t[i], u[i])
  {
    forall i | 0 <= i < |u| ensures !Differ(t[i], u[i]) {
      if i > 0 { assert t[i] == t[1..][i - 1] && u[i] == u[1..][i - 1]; }
    }
  }

  lemma RegroupText(a: string, b: string, c: string, d: string)
    ensures (a + b + c) + d == a + (b + (c + d))
  {}

  lemma MatchedHead(t: Template, first: string, after: string)
    requires '/' !in first && (after == "" || after[0] == '/') && SegmentsMatch(t, "/" + (first + after))
    ensures t != [] && SegmentOk(t[0], first) && SegmentsMatch(t[1..], after)
  {
    FirstOf(first, after);
    SegmentRunIs(first, after);
  }

  lemma FirstOf(first: string, after: string)
    ensures var path := "/" + (first + after);
            path[1..] == first + after && path[1..1 + |first|] == first && path[1 + |first|..] == after
  {}

  lemma TextShape(t: Template)
    ensures Text(t) != "" ==> Text(t)[0] == '/'
  {}

  predicate Apart(t: Template, u: Template) {
    |t| != |u| || (|t| > 3 && (Differ(t[2], u[2]) || Differ(t[3], u[3]))) || (|t| > 5 && Differ(t[5], u[5]))
  }

  predicate ApartFromPrefix(t: Template, u: Template) {
    |t| < |u| || (|u| > 2 && Differ(t[2], u[2])) || (|u| > 3 && Differ(t[3], u[3]))
  }

  lemma SpendsApart()
    ensures forall i, j | 0 <= i < |SPEND_PATHS| && 0 <= j < |READ_ONLY_PATHS| ::
            Apart(SPEND_PATHS[i], READ_ONLY_PATHS[j])
  {}

  lemma RefusedApart()
    ensures forall i, j | 0 <= i < |SPEND_PATHS| && 0 <= j < |REFUSED_PREFIXES| ::
            ApartFromPrefix(SPEND_PATHS[i], REFUSED_PREFIXES[j])
    ensures forall i, j | 0 <= i < |READ_ONLY_PATHS| && 0 <= j < |REFUSED_PREFIXES| ::
            ApartFromPrefix(READ_ONLY_PATHS[i], REFUSED_PREFIXES[j])
    ensures forall i, j | 0 <= i < |SPEND_PATHS| && 0 <= j < |REFUSED_PATHS| ::
            ApartFromPrefix(SPEND_PATHS[i], REFUSED_PATHS[j])
    ensures forall i, j | 0 <= i < |READ_ONLY_PATHS| && 0 <= j < |REFUSED_PATHS| ::
            ApartFromPrefix(READ_ONLY_PATHS[i], REFUSED_PATHS[j])
  {}

  /** A listed path is refused to no session that may write. */
  lemma ListedIsNotRefused(t: Template, path: string)
    requires t != [] && WellFormed(t) && SegmentsMatch(t, path)
    requires forall j | 0 <= j < |REFUSED_PREFIXES| :: ApartFromPrefix(t, REFUSED_PREFIXES[j])
    requires forall j | 0 <= j < |REFUSED_PATHS| :: ApartFromPrefix(t, REFUSED_PATHS[j])
    ensures !ElevationRefuses(path)
  {
    NoTrailingSlash(t, path);
    assert Trimmed(path) == path;
    InventoriesAreWellFormed();
    NoneUnder(REFUSED_PATHS, t, path);
    NoneUnder(REFUSED_PREFIXES, t, path);
  }

  lemma NoneUnder(prefixes: seq<Template>, t: Template, path: string)
    requires SegmentsMatch(t, path) && forall j | 0 <= j < |prefixes| :: ApartFromPrefix(t, prefixes[j])
    requires forall j | 0 <= j < |prefixes| :: AllLiteral(prefixes[j]) && WellFormed(prefixes[j])
    ensures forall e | e in prefixes :: path != Text(e) && !(Text(e) + "/" <= path)
  {
    forall e | e in prefixes ensures path != Text(e) && !(Text(e) + "/" <= path) {
      var j :| 0 <= j < |prefixes| && prefixes[j] == e;
      NotUnder(e, t, path);
    }
  }

  lemma NotUnder(prefix: Template, t: Template, path: string)
    requires AllLiteral(prefix) && WellFormed(prefix) && SegmentsMatch(t, path) && ApartFromPrefix(t, prefix)
    ensures path != Text(prefix) && !(Text(prefix) + "/" <= path)
  {
    if path == Text(prefix) {
      assert Text(prefix) + "" == Text(prefix);
      PathUnderAgrees(prefix, "", t);
    } else if Text(prefix) + "/" <= path {
      assert path == Text(prefix) + path[|Text(prefix)|..];
      PathUnderAgrees(prefix, path[|Text(prefix)|..], t);
    }
  }

  // ------------------------------------------------------------------ ladder

  /** No path both spends and is listed as read-only, whatever string it is. */
  lemma NothingReadSpends(path: string)
    ensures !(Spends(path) && Listed(path, READ_ONLY_PATHS))
  {
    InventoriesAreWellFormed();
    ListedIs(path, SPEND_PATHS);
    ListedIs(path, READ_ONLY_PATHS);
    SpendsApart();
    forall i, j | 0 <= i < |SPEND_PATHS| && 0 <= j < |READ_ONLY_PATHS|
      ensures !(SegmentsMatch(SPEND_PATHS[i], path) && SegmentsMatch(READ_ONLY_PATHS[j], path))
    {
      assert Apart(SPEND_PATHS[i], READ_ONLY_PATHS[j]);
      if SegmentsMatch(SPEND_PATHS[i], path) && SegmentsMatch(READ_ONLY_PATHS[j], path) {
        OnePathAgrees(SPEND_PATHS[i], READ_ONLY_PATHS[j], path);
      }
    }
  }

  lemma RefusedIsNotListed(path: string)
    requires ElevationRefuses(path)
    ensures !Spends(path) && !Listed(path, READ_ONLY_PATHS)
  {
    InventoriesAreWellFormed();
    ListedIs(path, SPEND_PATHS);
    ListedIs(path, READ_ONLY_PATHS);
    RefusedApart();
    forall i | 0 <= i < |SPEND_PATHS| ensures !SegmentsMatch(SPEND_PATHS[i], path) {
      if SegmentsMatch(SPEND_PATHS[i], path) { ListedIsNotRefused(SPEND_PATHS[i], path); }
    }
    forall i | 0 <= i < |READ_ONLY_PATHS| ensures !SegmentsMatch(READ_ONLY_PATHS[i], path) {
      if SegmentsMatch(READ_ONLY_PATHS[i], path) { ListedIsNotRefused(READ_ONLY_PATHS[i], path); }
    }
  }

  /** Each tier may do all the one below it may, on every method and path; what the last one adds is
      exactly the paths that spend. */
  lemma TiersFormALadder(verb: string, path: string)
    ensures Allows(verb, path, Some(READ_ONLY)) ==> Allows(verb, path, Some(ELEVATED))
    ensures Allows(verb, path, Some(ELEVATED)) ==> Allows(verb, path, Some(SPEND))
    ensures Allows(verb, path, Some(SPEND)) && !Allows(verb, path, Some(ELEVATED)) <==> Spends(path)
    ensures Allows(verb, path, Some(ELEVATED)) && !Allows(verb, path, Some(READ_ONLY)) <==>
              !Safe(verb) && !Spends(path) && !ElevationRefuses(path) && !Listed(path, READ_ONLY_PATHS)
  {
    NothingReadSpends(path);
    if ElevationRefuses(path) { RefusedIsNotListed(path); }
  }

  /** A mode nobody recognises decides, and is answered, as read-only. */
  lemma UnknownModeIsReadOnly(verb: string, path: string, mode: Option<string>)
    requires mode != Some(ELEVATED) && mode != Some(SPEND)
    ensures Allows(verb, path, mode) <==> Allows(verb, path, Some(READ_ONLY))
    ensures RefusalDetail(path, mode) == RefusalDetail(path, Some(READ_ONLY)) == ReadOnlySession
  {}

  // ------------------------------------------------------------- what is refused

  /** The routes no session writes while acting as another: the account's own and its password, the keys and
      View-as itself, and all that is under these two. */
  predicate Credential(path: string) {
    || path == "/api/v1/users/me" || path == "/api/v1/users/me/password"
    || path == "/api/v1/data/ai-keys" || "/api/v1/data/ai-keys/" <= path
    || path == "/api/v1/view-as" || "/api/v1/view-as/" <= path
  }

  predicate AllSlashes(s: string) { forall i | 0 <= i < |s| :: s[i] == '/' }

  /** The path is such a route, with any number of slashes after it. */
  ghost predicate CredentialRoute(path: string) {
    exists n: nat | n <= |path| :: Credential(path[..n]) && AllSlashes(path[n..])
  }

  lemma TextOfOne(segment: Segment, rest: Template)
    ensures Text([segment] + rest) == SegmentText(segment) + Text(rest)
  {
    assert ([segment] + rest)[1..] == rest;
  }

  lemma TextOfApi(rest: Template)
    ensures Text(Api(rest)) == "/api/v1" + Text(rest)
  {
    TextOfOne(Literal("v1"), rest);
    TextOfOne(Literal("api"), [Literal("v1")] + rest);
    assert Api(rest) == [Literal("api")] + ([Literal("v1")] + rest);
  }

  lemma MeText()
    ensures Text([Literal("users"), Literal("me")]) == "/users/me"
  {
    TextOfOne(Literal("users"), [Literal("me")]);
    TextOfOne(Literal("me"), []);
    assert [Literal("users")] + [Literal("me")] == [Literal("users"), Literal("me")];
    assert [Literal("me")] + [] == [Literal("me")];
  }

  lemma PasswordText()
    ensures Text([Literal("users"), Literal("me"), Literal("password")]) == "/users/me/password"
  {
    TextOfOne(Literal("users"), [Literal("me"), Literal("password")]);
    TextOfOne(Literal("me"), [Literal("password")]);
    TextOfOne(Literal("password"), []);
    assert [Literal("users")] + [Literal("me"), Literal("password")]
           == [Literal("users"), Literal("me"), Literal("password")];
    assert [Literal("me")] + [Literal("password")] == [Literal("me"), Literal("password")];
    assert [Literal("password")] + [] == [Literal("password")];
  }

  lemma RefusedTexts()
    ensures Text(REFUSED_PATHS[0]) == "/api/v1/users/me" && Text(REFUSED_PATHS[1]) == "/api/v1/users/me/password"
  {
    TextOfApi([Literal("users"), Literal("me")]);
    TextOfApi([Literal("users"), Literal("me"), Literal("password")]);
    MeText();
    PasswordText();
  }

  lemma KeysText()
    ensures Text([Literal("data"), Literal("ai-keys")]) == "/data/ai-keys"
  {
    TextOfOne(Literal("data"), [Literal("ai-keys")]);
    TextOfOne(Literal("ai-keys"), []);
    assert [Literal("data")] + [Literal("ai-keys")] == [Literal("data"), Literal("ai-keys")];
    assert [Literal("ai-keys")] + [] == [Literal("ai-keys")];
  }

  lemma ViewAsText()
    ensures Text([Literal("view-as")]) == "/view-as"
  {
    TextOfOne(Literal("view-as"), []);
    assert [Literal("view-as")] + [] == [Literal("view-as")];
  }

  lemma RefusedPrefixTexts()
    ensures Text(REFUSED_PREFIXES[0]) == "/api/v1/data/ai-keys" && Text(REFUSED_PREFIXES[1]) == "/api/v1/view-as"
  {
    TextOfApi([Literal("data"), Literal("ai-keys")]);
    TextOfApi([Literal("view-as")]);
    KeysText();
    ViewAsText();
  }

  lemma OneOfTwoTexts(a: Template, b: Template, path: string)
    ensures (exists e | e in [a, b] :: path == Text(e)) <==> path == Text(a) || path == Text(b)
    ensures (exists e | e in [a, b] :: path == Text(e) || Text(e) + "/" <= path)
       <==> path == Text(a) || Text(a) + "/" <= path || path == Text(b) || Text(b) + "/" <= path
  {
    assert a in [a, b] && b in [a, b];
  }

  lemma WithSlash()
    ensures "/api/v1/data/ai-keys" + "/" == "/api/v1/data/ai-keys/" && "/api/v1/view-as" + "/" == "/api/v1/view-as/"
  {}

  lemma RefusedIsCredential(path: string)
    ensures ElevationRefuses(path) <==> Credential(Trimmed(path))
  {
    RefusedTexts();
    RefusedPrefixTexts();
    WithSlash();
    OneOfTwoTexts(REFUSED_PATHS[0], REFUSED_PATHS[1], Trimmed(path));
    OneOfTwoTexts(REFUSED_PREFIXES[0], REFUSED_PREFIXES[1], Trimmed(path));
    assert REFUSED_PATHS == [REFUSED_PATHS[0], REFUSED_PATHS[1]];
    assert REFUSED_PREFIXES == [REFUSED_PREFIXES[0], REFUSED_PREFIXES[1]];
  }

  lemma {:induction false} StrippedIs(path: string)
    ensures var n := |RightStripped(path)|;
            && n <= |path| && RightStripped(path) == path[..n] && AllSlashes(path[n..])
               && (n > 0 ==> path[n - 1] != '/')
  {
    if path != [] && path[|path| - 1] == '/' {
      var front := path[..|path| - 1];
      StrippedIs(front);
      var n := |RightStripped(front)|;
      assert path[n..] == front[n..] + ['/'] && front[..n] == path[..n];
    } else {
      assert path[..|path|] == path;
    }
  }

  /** Slashes after a route change nothing: what is left without them is one. */
  lemma StillCredential(path: string, n: nat, m: nat)
    requires m <= n <= |path| && Credential(path[..n]) && AllSlashes(path[m..]) && (m > 0 ==> path[m - 1] != '/')
    ensures m > 0 && Credential(path[..m])
  {
    var route := path[..n];
    assert forall i | 0 <= i < n :: route[i] == path[i];
    if "/api/v1/data/ai-keys/" <= route {
      assert route[19] == 's' && route[..20] == "/api/v1/data/ai-keys";
      NotPastALetter(path, m, 19);
      if m > 20 { assert path[..m][..21] == route[..21]; } else { assert path[..m] == route[..20]; }
    } else if "/api/v1/view-as/" <= route {
      assert route[14] == 's' && route[..15] == "/api/v1/view-as";
      NotPastALetter(path, m, 14);
      if m > 15 { assert path[..m][..16] == route[..16]; } else { assert path[..m] == route[..15]; }
    } else {
      NotPastALetter(path, m, n - 1);
    }
  }

  lemma NotPastALetter(path: string, m: nat, i: nat)
    requires m <= |path| && i < |path| && AllSlashes(path[m..]) && path[i] != '/'
    ensures i < m
  {
    if i >= m { SlashAfter(path, m, i); }
  }

  lemma SlashAfter(path: string, m: nat, i: nat)
    requires m <= i < |path| && AllSlashes(path[m..])
    ensures path[i] == '/'
  {
    assert path[m..][i - m] == path[i];
  }

  lemma EndsInASlash(path: string, n: nat, m: nat)
    requires n < m <= |path| && AllSlashes(path[n..])
    ensures path[m - 1] == '/'
  {
    SlashAfter(path, n, m - 1);
  }

  /** What elevation refuses is exactly those routes, with any number of slashes after them. */
  lemma RefusedAreRoutes(path: string)
    ensures ElevationRefuses(path) <==> CredentialRoute(path)
  {
    RefusedIsCredential(path);
    StrippedIs(path);
    var m := |RightStripped(path)|;
    if Credential(Trimmed(path)) {
      if m > 0 { assert Credential(path[..m]) && AllSlashes(path[m..]); } else { assert path[..|path|] == path; }
    }
    if CredentialRoute(path) {
      var n: nat :| n <= |path| && Credential(path[..n]) && AllSlashes(path[n..]);
      if m > n { EndsInASlash(path, n, m); }
      StillCredential(path, n, m);
    }
  }

  /** The credential and View-as routes, and all under keys and View-as, are written at no tier, with any
      number of slashes after them; and an elevated session writes every other path that does not spend. */
  lemma NoTierWritesCredentials(verb: string, path: string)
    requires !Safe(verb)
    ensures CredentialRoute(path) ==> forall mode :: !Allows(verb, path, mode)
    ensures Allows(verb, path, Some(ELEVATED)) <==> !Spends(path) && !CredentialRoute(path)
  {
    RefusedAreRoutes(path);
    if ElevationRefuses(path) { RefusedIsNotListed(path); }
  }

  /** `verb` is `word` in upper or lower case, letter by letter. */
  predicate InAnyCase(verb: string, word: string) {
    |verb| == |word| && forall i | 0 <= i < |word| ::
      verb[i] == word[i] || ('A' <= word[i] <= 'Z' && verb[i] == word[i] + 32 as char)
  }

  /** Reading is GET, HEAD and OPTIONS, in whatever case; any session reads what does not spend. */
  lemma ReadingIsAllowed(verb: string, path: string, mode: Option<string>)
    ensures Safe(verb) <==> InAnyCase(verb, "GET") || InAnyCase(verb, "HEAD") || InAnyCase(verb, "OPTIONS")
    ensures Safe(verb) && !Spends(path) ==> Allows(verb, path, mode)
  {
    UpperIs(verb, "GET");
    UpperIs(verb, "HEAD");
    UpperIs(verb, "OPTIONS");
  }

  lemma UpperIs(verb: string, word: string)
    requires forall i | 0 <= i < |word| :: 'A' <= word[i] <= 'Z'
    ensures Upper(verb) == word <==> InAnyCase(verb, word)
  {
    if InAnyCase(verb, word) {
      forall i | 0 <= i < |word| ensures Upper(verb)[i] == word[i] {}
    }
    if Upper(verb) == word {
      forall i | 0 <= i < |word| ensures verb[i] == word[i] || verb[i] == word[i] + 32 as char {
        assert Upper(verb)[i] == word[i];
      }
    }
  }

  /** A refused session that may write is sent to a spend session exactly when one would be allowed. */
  lemma AdviceIsTrue(verb: string, path: string, mode: Option<string>)
    requires (mode == Some(ELEVATED) || mode == Some(SPEND)) && !Allows(verb, path, mode)
    ensures RefusalDetail(path, mode) == NeedsSpendSession <==> Allows(verb, path, Some(SPEND))
    ensures RefusalDetail(path, mode) == NotWhileActing <==> forall m :: !Allows(verb, path, m)
  {
    if ElevationRefuses(path) { RefusedIsNotListed(path); }
  }
}
