/**
 The request recorder (backend/app/core/request_recording.py).

 The shared, mutable objects are classes: a `Page` collects the attempts of one
 page fetch, a `SyncRun` keeps one record back, a `Tally` counts what is paid
 for, and the `Recorder` holds the process's buffer. Each method is specified by
 a function on the object's value (`PageCell`, `SyncCell`), and the module
 `RecordingRuns` runs those same functions under every interleaving of tasks.
 */
module RequestRecording {
  import opened Options

  datatype Kind = Auto | Bulk | Single | Follow | Probe | Handle | BotApi | Other
  datatype PageType = Posts | Media | Metadata
  datatype Outcome = Useful | Idle | Wasted
  datatype Cause = TurnedAway | SoftBlock | AnsweredError | TransportFault | MissingHandle

  datatype Attribution = Attribution(
    kind: Kind, accountId: Option<nat>, budget: Option<string>, channel: Option<string>,
    bestEffort: bool, jobId: Option<string>)

  const NOBODY := Attribution(Other, None, None, None, false, None)

  /** What an `attributed` block passes; `None` keeps the outer block's value. */
  datatype Refinement = Refinement(
    kind: Option<Kind>, accountId: Option<nat>, budget: Option<string>, channel: Option<string>,
    bestEffort: Option<bool>, jobId: Option<string>)

  function Or<T>(given: Option<T>, current: T): T {
    if given.Some? then given.value else current
  }

  function Refine(current: Attribution, refinement: Refinement): Attribution {
    Attribution(
      Or(refinement.kind, current.kind),
      if refinement.accountId.Some? then refinement.accountId else current.accountId,
      if refinement.budget.Some? then refinement.budget else current.budget,
      if refinement.channel.Some? then refinement.channel else current.channel,
      Or(refinement.bestEffort, current.bestEffort),
      if refinement.jobId.Some? then refinement.jobId else current.jobId)
  }

  /** One attempt that reached the network, as `fetch_with_retry` reports it. */
  datatype Attempt = Attempt(
    at: int, latencyMs: int, lane: string, webView: bool, cause: Option<Cause>,
    errorCode: Option<string>, answered: bool, isPrivate: bool)

  datatype Record = Record(
    id: nat, at: int, latencyMs: int, kind: Kind, charged: bool, accountId: Option<nat>,
    budget: Option<string>, bestEffort: bool, channel: Option<string>, lane: string,
    pageType: PageType, outcome: Outcome, cause: Option<Cause>, errorCode: Option<string>,
    attempt: nat, chainId: nat, newPosts: Option<int>, repeatedPosts: Option<int>,
    syncFailed: Option<bool>, jobId: Option<string>)

  // ---------------------------------------------------------------- values

  datatype PageCell = PageCell(
    pageType: PageType, softBlock: Cause, chainId: Option<nat>, attempts: nat,
    answered: seq<Record>, newPosts: Option<int>, repeatedPosts: Option<int>, changed: bool)

  datatype SyncCell = SyncCell(who: Attribution, failed: bool, held: Option<Record>, closed: bool)

  function NewPage(pageType: PageType, softBlock: Cause): PageCell {
    PageCell(pageType, softBlock, None, 0, [], None, None, false)
  }

  /** The one charge rule: an answered web view attempt. */
  predicate Paid(a: Attempt) { a.webView && a.answered }

  /** The cause an attempt ends with: a soft block is the page's to name. */
  function FinalCause(page: PageCell, a: Attempt): Option<Cause> {
    if a.cause != Some(SoftBlock) then a.cause
    else if a.isPrivate && page.softBlock == MissingHandle then None
    else Some(page.softBlock)
  }

  function FinalError(page: PageCell, a: Attempt): Option<string> {
    if a.cause == Some(SoftBlock) && a.isPrivate && page.softBlock == MissingHandle then None
    else a.errorCode
  }

  function NewRecord(page: PageCell, a: Attempt, who: Attribution, id: nat): Record {
    Record(id, a.at, a.latencyMs, who.kind, Paid(a) && who.budget.Some?, who.accountId, who.budget,
           who.bestEffort, who.channel, a.lane, page.pageType,
           if FinalCause(page, a).Some? then Wasted else Idle,
           FinalCause(page, a), FinalError(page, a),
           page.attempts + 1, Or(page.chainId, id), None, None, None, who.jobId)
  }

  /** The page after an attempt; an answer waits in it only when it is the ambient page. */
  function Recorded(page: PageCell, a: Attempt, who: Attribution, id: nat, ambient: bool): PageCell {
    page.(chainId := Some(Or(page.chainId, id)),
          attempts := page.attempts + 1,
          answered := if FinalCause(page, a).None? && ambient
                      then page.answered + [NewRecord(page, a, who, id)] else page.answered)
  }

  /** What a closing page lets go: its answers, the last one judged by its Posts. */
  function Judged(page: PageCell): (out: seq<Record>)
    ensures |out| == |page.answered|
  {
    if page.answered == [] || page.newPosts.None? then page.answered
    else
      var n := |page.answered| - 1;
      page.answered[n := page.answered[n].(
        newPosts := page.newPosts,
        repeatedPosts := page.repeatedPosts,
        outcome := if page.newPosts.value > 0 || page.changed then Useful
                   else page.answered[n].outcome)]
  }

  predicate Mine(run: SyncCell, r: Record) {
    r.kind == run.who.kind && r.channel == run.who.channel
  }

  function HoldOne(run: SyncCell, r: Record): (SyncCell, seq<Record>) {
    if Mine(run, r) && (run.held.None? || (r.charged && !run.held.value.charged))
    then (run.(held := Some(r)), if run.held.Some? then [run.held.value] else [])
    else (run, [r])
  }

  /** An open run offered `records` in order: the run after, and what it lets go. */
  function HoldAll(run: SyncCell, records: seq<Record>): (SyncCell, seq<Record>)
    decreases |records|
  {
    if records == [] then (run, [])
    else
      var n := |records| - 1;
      var (before, out) := HoldAll(run, records[..n]);
      var (after, more) := HoldOne(before, records[n]);
      (after, out + more)
  }

  function Hold(run: SyncCell, records: seq<Record>): (SyncCell, seq<Record>) {
    if run.closed then (run, records) else HoldAll(run, records)
  }

  /** A closing run: the run after, and the stamped record it lets go, if it held one. */
  function Closed(run: SyncCell): (SyncCell, seq<Record>) {
    (run.(closed := true, held := None),
     if run.held.Some? then [run.held.value.(syncFailed := Some(run.failed))] else [])
  }

  /** `records` pushed in a context whose open run is `sync`: that run after, and the buffer. */
  function Pushed(sync: Option<SyncCell>, buffer: seq<Record>, records: seq<Record>): (Option<SyncCell>, seq<Record>) {
    if sync.None? then (None, buffer + records)
    else (Some(Hold(sync.value, records).0), buffer + Hold(sync.value, records).1)
  }

  // --------------------------------------------------------------- objects

  class Tally {
    var requests: nat

    constructor ()
      ensures requests == 0
    {
      requests := 0;
    }

    method Count()
      modifies this
      ensures requests == old(requests) + 1
    {
      requests := requests + 1;
    }
  }

  class SyncRun {
    const who: Attribution
    var failed: bool
    var held: Option<Record>
    var closed: bool

    function Cell(): SyncCell
      reads this
    {
      SyncCell(who, failed, held, closed)
    }

    constructor (who: Attribution)
      ensures Cell() == SyncCell(who, false, None, false)
    {
      this.who, failed, held, closed := who, false, None, false;
    }

    /** `records` less the one this sync keeps back, and any it lets go. */
    method HoldBack(records: seq<Record>) returns (out: seq<Record>)
      modifies this
      ensures (Cell(), out) == Hold(old(Cell()), records)
    {
      if closed { return records; }
      out := [];
      for i := 0 to |records|
        invariant !closed
        invariant (Cell(), out) == HoldAll(old(Cell()), records[..i])
      {
        var r := records[i];
        ghost var before := HoldAll(old(Cell()), records[..i]);
        assert records[..i + 1][..i] == records[..i];
        assert HoldAll(old(Cell()), records[..i + 1])
            == (HoldOne(before.0, r).0, before.1 + HoldOne(before.0, r).1);
        if r.kind == who.kind && r.channel == who.channel
           && (held.None? || (r.charged && !held.value.charged)) {
          if held.Some? {
            out := out + [held.value];
          }
          held := Some(r);
          assert before.1 + [] == before.1;
        } else {
          out := out + [r];
        }
      }
      assert records[..|records|] == records;
    }
  }

  function CellOf(sync: SyncRun?): Option<SyncCell>
    reads sync
  {
    if sync == null then None else Some(sync.Cell())
  }

  /** The variables of one task's context, as references to the shared objects. */
  datatype Context = Context(who: Attribution, page: Page?, tally: Tally?, sync: SyncRun?)

  /** The process: its buffer of closed records, and the ids it has given out. */
  class Recorder {
    var buffer: seq<Record>
    var nextId: nat

    constructor ()
      ensures buffer == [] && nextId == 0
    {
      buffer, nextId := [], 0;
    }

    method Push(records: seq<Record>, sync: SyncRun?)
      modifies this, sync
      ensures nextId == old(nextId)
      ensures (CellOf(sync), buffer) == Pushed(old(CellOf(sync)), old(buffer), records)
    {
      var rest := records;
      if sync != null {
        rest := sync.HoldBack(records);
      }
      buffer := buffer + rest;
    }

    /** Close a run inside the context it was opened in, `outer` being that context's run. */
    method CloseRun(run: SyncRun, outer: SyncRun?)
      requires run != outer
      modifies this, run, outer
      ensures run.Cell() == Closed(old(run.Cell())).0
      ensures (CellOf(outer), buffer) == Pushed(old(CellOf(outer)), old(buffer), Closed(old(run.Cell())).1)
    {
      run.closed := true;
      if run.held.Some? {
        run.held := Some(run.held.value.(syncFailed := Some(run.failed)));
        Push([run.held.value], outer);
        run.held := None;
      } else {
        assert buffer + [] == buffer;
      }
    }

    method Drain() returns (taken: seq<Record>)
      modifies this
      ensures taken == old(buffer) && buffer == [] && nextId == old(nextId)
    {
      taken, buffer := buffer, [];
    }
  }

  class Page {
    const pageType: PageType
    const softBlock: Cause
    var chainId: Option<nat>
    var attempts: nat
    var answered: seq<Record>
    var newPosts: Option<int>
    var repeatedPosts: Option<int>
    var changed: bool

    function Cell(): PageCell
      reads this
    {
      PageCell(pageType, softBlock, chainId, attempts, answered, newPosts, repeatedPosts, changed)
    }

    constructor (pageType: PageType, softBlock: Cause)
      ensures Cell() == NewPage(pageType, softBlock)
    {
      this.pageType, this.softBlock := pageType, softBlock;
      chainId, attempts, answered := None, 0, [];
      newPosts, repeatedPosts, changed := None, None, false;
    }

    method ReportPosts(brandNew: int, repeated: int, changed: bool)
      modifies this
      ensures Cell() == old(Cell()).(newPosts := Some(brandNew), repeatedPosts := Some(repeated), changed := changed)
    {
      newPosts, repeatedPosts, this.changed := Some(brandNew), Some(repeated), changed;
    }

    /** Record one attempt made in `ctx`. */
    method RecordAttempt(a: Attempt, ctx: Context, recorder: Recorder)
      modifies this, recorder, ctx.tally, ctx.sync
      ensures recorder.nextId == old(recorder.nextId) + 1
      ensures Cell() == Recorded(old(Cell()), a, ctx.who, old(recorder.nextId), ctx.page == this)
      ensures ctx.tally != null ==> ctx.tally.requests == old(ctx.tally.requests) + if Paid(a) then 1 else 0
      ensures (CellOf(ctx.sync), recorder.buffer)
              == if FinalCause(old(Cell()), a).None? && ctx.page == this
                 then (old(CellOf(ctx.sync)), old(recorder.buffer))
                 else Pushed(old(CellOf(ctx.sync)), old(recorder.buffer),
                             [NewRecord(old(Cell()), a, ctx.who, old(recorder.nextId))])
    {
      var r := NextRecord(a, ctx, recorder);
      if r.cause.None? && ctx.page == this {
        answered := answered + [r];
      } else {
        recorder.Push([r], ctx.sync);
      }
    }

    /** The record of one attempt, numbered in this page's chain and counted in the open tally. */
    method NextRecord(a: Attempt, ctx: Context, recorder: Recorder) returns (r: Record)
      modifies this, recorder`nextId, ctx.tally
      ensures recorder.nextId == old(recorder.nextId) + 1
      ensures r == NewRecord(old(Cell()), a, ctx.who, old(recorder.nextId))
      ensures Cell() == Recorded(old(Cell()), a, ctx.who, old(recorder.nextId), false)
      ensures ctx.tally != null ==> ctx.tally.requests == old(ctx.tally.requests) + if Paid(a) then 1 else 0
    {
      var cause, errorCode := a.cause, a.errorCode;
      if cause == Some(SoftBlock) {
        cause, errorCode := SoftBlocked(errorCode, a.isPrivate);
      }
      var id := recorder.nextId;
      recorder.nextId := recorder.nextId + 1;
      if chainId.None? { chainId := Some(id); }
      attempts := attempts + 1;
      var paid := a.webView && a.answered;
      if paid && ctx.tally != null { ctx.tally.Count(); }
      r := Record(id, a.at, a.latencyMs, ctx.who.kind, paid && ctx.who.budget.Some?,
                  ctx.who.accountId, ctx.who.budget, ctx.who.bestEffort, ctx.who.channel,
                  a.lane, pageType, if cause.Some? then Wasted else Idle, cause, errorCode,
                  attempts, chainId.value, None, None, None, ctx.who.jobId);
    }

    /** What a soft block means here: a private Channel's page answers an existence check. */
    method SoftBlocked(errorCode: Option<string>, isPrivate: bool)
      returns (cause: Option<Cause>, error: Option<string>)
      ensures isPrivate && softBlock == MissingHandle ==> cause.None? && error.None?
      ensures !(isPrivate && softBlock == MissingHandle) ==> cause == Some(softBlock) && error == errorCode
    {
      if isPrivate && softBlock == MissingHandle { return None, None; }
      return Some(softBlock), errorCode;
    }

    /** Judge the last answer and let every answer go, into `sync` or the buffer. */
    method Close(recorder: Recorder, sync: SyncRun?)
      modifies this, recorder, sync
      ensures Cell() == old(Cell()).(answered := [])
      ensures recorder.nextId == old(recorder.nextId)
      ensures (CellOf(sync), recorder.buffer)
              == Pushed(old(CellOf(sync)), old(recorder.buffer), Judged(old(Cell())))
    {
      if answered != [] && newPosts.Some? {
        var n := |answered| - 1;
        var last := answered[n].(newPosts := newPosts, repeatedPosts := repeatedPosts);
        if newPosts.value > 0 || changed {
          last := last.(outcome := Useful);
        }
        answered := answered[n := last];
      }
      recorder.Push(answered, sync);
      answered := [];
    }
  }

  /** The page a fetch records into: the open one, or its own for a picture or with none open. */
  method PageForFetch(ctx: Context, media: bool) returns (page: Page)
    ensures ctx.page != null && !media ==> page == ctx.page
    ensures ctx.page == null || media ==>
              fresh(page) && page.Cell() == NewPage(if media then Media else Metadata, SoftBlock)
  {
    if ctx.page != null && !media { return ctx.page; }
    page := new Page(if media then Media else Metadata, SoftBlock);
  }
}
