/**
 Retention of logs (backend/app/jobs/retention.py, backend/app/services/logs.py):
 the log sweep in one pass per distinct window. Clock readings are parameters.
 */
module Retention {
  import opened Options

  datatype Family = Publish | SyncRuns | Llm | Embedding | Network

  const SHARED := {SyncRuns, Network}
  const DAY_MS := 24 * 60 * 60 * 1000
  const POST_DELETE_BATCH := 500

  datatype LogKey = LogKey(family: Family, id: nat)
  datatype Log = Log(owner: Option<nat>, timestamp: int)

  /** Whose rows one DELETE reaches. */
  datatype Owners = Anyone | Unowned | Owned(accounts: set<nat>)

  predicate Reaches(owners: Owners, owner: Option<nat>) {
    match owners
    case Anyone => true
    case Unowned => owner.None?
    case Owned(accounts) => owner.Some? && owner.value in accounts
  }

  predicate Swept(k: LogKey, row: Log, cutoff: int, families: set<Family>, owners: Owners) {
    k.family in families && row.timestamp < cutoff && Reaches(owners, row.owner)
  }

  function SweptKeys(logs: map<LogKey, Log>, cutoff: int, families: set<Family>, owners: Owners): set<LogKey> {
    set k | k in logs && Swept(k, logs[k], cutoff, families, owners)
  }

  function ExpiredPayloads(payloads: map<nat, int>, cutoff: int): set<nat> {
    set p | p in payloads && payloads[p] < cutoff
  }

  function CutoffMs(now: int, days: int): int { now - days * DAY_MS }

  // ------------------------------------------------------------ per-row rule

  /** Whether a row goes: the deployment's window decides for a shared family's row and for one
      nobody owns, its own account's window otherwise; 0 keeps it forever. */
  predicate Goes(k: LogKey, row: Log, sharedDays: int, sharedNow: int, windows: map<nat, int>, now: int -> int) {
    if k.family in SHARED || row.owner.None? then sharedDays > 0 && row.timestamp < CutoffMs(sharedNow, sharedDays)
    else row.owner.value in windows && windows[row.owner.value] > 0
         && row.timestamp < CutoffMs(now(windows[row.owner.value]), windows[row.owner.value])
  }

  /** The logs' database. */
  class Logs {
    var rows: map<LogKey, Log>
    /** The sync payloads' timestamps. */
    var payloads: map<nat, int>

    constructor (rows: map<LogKey, Log>, payloads: map<nat, int>)
      ensures this.rows == rows && this.payloads == payloads
    {
      this.rows, this.payloads := rows, payloads;
    }

    /** One family's DELETE, and its payloads' when it is the sync family's. */
    method DeleteFamily(cutoff: int, family: Family, owners: Owners) returns (count: nat, payloadCount: nat)
      modifies this
      ensures rows == old(rows) - SweptKeys(old(rows), cutoff, {family}, owners) && count == |old(rows)| - |rows|
      ensures payloads
           == if family == SyncRuns then old(payloads) - ExpiredPayloads(old(payloads), cutoff) else old(payloads)
      ensures payloadCount == |old(payloads)| - |payloads|
    {
      var gone := SweptKeys(rows, cutoff, {family}, owners);
      Removed(rows, gone);
      count := |gone|;
      rows := rows - gone;
      payloadCount := 0;
      if family == SyncRuns {
        var bodies := ExpiredPayloads(payloads, cutoff);
        Removed(payloads, bodies);
        payloadCount := |bodies|;
        payloads := payloads - bodies;
      }
    }

    /** One committed DELETE for each family, in the order given. */
    method DeleteLogsBefore(cutoff: int, families: seq<Family>, owners: Owners) returns (count: nat, payloadCount: nat)
      modifies this
      ensures rows == old(rows) - SweptKeys(old(rows), cutoff, AsSet(families), owners) && count == |old(rows)| - |rows|
      ensures payloads
           == if SyncRuns in families then old(payloads) - ExpiredPayloads(old(payloads), cutoff) else old(payloads)
      ensures payloadCount == |old(payloads)| - |payloads|
      ensures forall k | k in old(rows) ::
                k !in rows <==>
                  && k.family in families && old(rows)[k].timestamp < cutoff
                  && (owners.Anyone? || (owners.Unowned? && old(rows)[k].owner.None?)
                      || (owners.Owned? && old(rows)[k].owner.Some? && old(rows)[k].owner.value in owners.accounts))
    {
      count, payloadCount := DeleteEach(cutoff, families, owners);
      SweptRule(old(rows), cutoff, families, owners);
    }

    method DeleteEach(cutoff: int, families: seq<Family>, owners: Owners) returns (count: nat, payloadCount: nat)
      modifies this
      ensures rows == old(rows) - SweptKeys(old(rows), cutoff, AsSet(families), owners) && count == |old(rows)| - |rows|
      ensures payloads
           == if SyncRuns in families then old(payloads) - ExpiredPayloads(old(payloads), cutoff) else old(payloads)
      ensures payloadCount == |old(payloads)| - |payloads|
    {
      count, payloadCount := 0, 0;
      for i := 0 to |families|
        invariant rows == old(rows) - SweptKeys(old(rows), cutoff, AsSet(families[..i]), owners)
                  && count == |old(rows)| - |rows|
        invariant payloads == if SyncRuns in families[..i]
                              then old(payloads) - ExpiredPayloads(old(payloads), cutoff) else old(payloads)
        invariant payloadCount == |old(payloads)| - |payloads|
      {
        var n, p := DeleteFamily(cutoff, families[i], owners);
        FamilyMore(old(rows), cutoff, families, i, owners);
        PayloadsTwice(old(payloads), cutoff);
        count, payloadCount := count + n, payloadCount + p;
      }
      assert families[..|families|] == families;
    }

    /** The deployment's window: the shared families, then the other families' ownerless rows. */
    method SweepShared(days: int, now: int) returns (deletedLogs: nat, deletedPayloads: nat)
      requires days > 0
      modifies this
      ensures rows == AfterShared(old(rows), days, now)
      ensures payloads == old(payloads) - ExpiredPayloads(old(payloads), CutoffMs(now, days))
      ensures deletedLogs == |old(rows)| - |rows| && deletedPayloads == |old(payloads)| - |payloads|
    {
      var cutoff := CutoffMs(now, days);
      deletedLogs, deletedPayloads := DeleteLogsBefore(cutoff, [SyncRuns, Network], Anyone);
      var n, p := DeleteLogsBefore(cutoff, [Publish, Llm, Embedding], Unowned);
      deletedLogs, deletedPayloads := deletedLogs + n, deletedPayloads + p;
      SharedPasses(old(rows), days, now);
    }

    /** One window's pass: the personal families' rows of the accounts that chose it. */
    method SweepOwned(cutoff: int, accounts: set<nat>) returns (deletedLogs: nat, deletedPayloads: nat)
      modifies this
      ensures rows == old(rows) - SweptKeys(old(rows), cutoff, AsSet([Publish, Llm, Embedding]), Owned(accounts))
      ensures payloads == old(payloads) && deletedLogs == |old(rows)| - |rows| && deletedPayloads == 0
    {
      deletedLogs, deletedPayloads := DeleteLogsBefore(cutoff, [Publish, Llm, Embedding], Owned(accounts));
      assert SyncRuns !in [Publish, Llm, Embedding];
    }

    /** The shared pass, the ownerless pass, then one pass for each distinct window, whatever order
        the accounts and the windows come in. */
    method SweepLogs(sharedDays: int, sharedNow: int, windows: map<nat, int>, now: int -> int)
      returns (deletedLogs: nat, deletedPayloads: nat)
      modifies this
      ensures rows == map k | k in old(rows) && !Goes(k, old(rows)[k], sharedDays, sharedNow, windows, now) ::
              old(rows)[k]
      ensures payloads
           == if sharedDays > 0 then old(payloads) - ExpiredPayloads(old(payloads), CutoffMs(sharedNow, sharedDays))
              else old(payloads)
      ensures deletedLogs == |old(rows)| - |rows| && deletedPayloads == |old(payloads)| - |payloads|
      ensures forall k | k in old(rows) ::
                k !in rows <==>
                  var row := old(rows)[k];
                  if k.family == SyncRuns || k.family == Network || row.owner.None?
                  then sharedDays > 0 && row.timestamp < sharedNow - sharedDays * 86_400_000
                  else row.owner.value in windows && windows[row.owner.value] > 0
                       && row.timestamp < now(windows[row.owner.value]) - windows[row.owner.value] * 86_400_000
      ensures forall p | p in old(payloads) ::
                p !in payloads <==> sharedDays > 0 && old(payloads)[p] < sharedNow - sharedDays * 86_400_000
    {
      deletedLogs, deletedPayloads := 0, 0;
      if sharedDays > 0 {
        deletedLogs, deletedPayloads := SweepShared(sharedDays, sharedNow);
      }
      ghost var shared, bodies := rows, payloads;
      assert shared == AfterShared(old(rows), sharedDays, sharedNow);
      var byWindow := OwnersByWindow(windows);
      var left := byWindow.Keys;
      AllRemain(shared, windows, now, left);
      while left != {}
        invariant left <= byWindow.Keys
        invariant rows == Remaining(shared, windows, now, left) && payloads == bodies
        invariant deletedLogs == |old(rows)| - |rows| && deletedPayloads == |old(payloads)| - |payloads|
      {
        var days :| days in left;
        var n, p := SweepOwned(CutoffMs(now(days), days), byWindow[days]);
        WindowPass(shared, windows, now, left, days);
        deletedLogs, deletedPayloads := deletedLogs + n, deletedPayloads + p;
        left := left - {days};
      }
      NothingLeft(old(rows), sharedDays, sharedNow, windows, now);
    }
  }

  lemma SweptRule(rows: map<LogKey, Log>, cutoff: int, families: seq<Family>, owners: Owners)
    ensures forall k | k in rows ::
              k in SweptKeys(rows, cutoff, AsSet(families), owners) <==>
                && k.family in families && rows[k].timestamp < cutoff
                && (owners.Anyone? || (owners.Unowned? && rows[k].owner.None?)
                    || (owners.Owned? && rows[k].owner.Some? && rows[k].owner.value in owners.accounts))
  {}

  predicate SharedGoes(k: LogKey, row: Log, sharedDays: int, sharedNow: int) {
    (k.family in SHARED || row.owner.None?) && sharedDays > 0 && row.timestamp < CutoffMs(sharedNow, sharedDays)
  }

  predicate OwnGoes(k: LogKey, row: Log, windows: map<nat, int>, now: int -> int) {
    && k.family !in SHARED && row.owner.Some? && row.owner.value in windows && windows[row.owner.value] > 0
    && row.timestamp < CutoffMs(now(windows[row.owner.value]), windows[row.owner.value])
  }

  function AfterShared(rows: map<LogKey, Log>, days: int, now: int): map<LogKey, Log> {
    map k | k in rows && !SharedGoes(k, rows[k], days, now) :: rows[k]
  }

  /** What is left of `rows` while the windows in `left` are still to be swept. */
  function Remaining(rows: map<LogKey, Log>, windows: map<nat, int>, now: int -> int, left: set<int>)
    : map<LogKey, Log>
  {
    map k | k in rows && !(OwnGoes(k, rows[k], windows, now) && windows[rows[k].owner.value] !in left) :: rows[k]
  }

  lemma FamilyIsOneKind(f: Family)
    ensures f in SHARED <==> f in [SyncRuns, Network]
    ensures f !in SHARED <==> f in [Publish, Llm, Embedding]
  {
    match f case Publish => case SyncRuns => case Llm => case Embedding => case Network =>
  }

  lemma SharedPasses(rows: map<LogKey, Log>, days: int, now: int)
    requires days > 0
    ensures var cutoff := CutoffMs(now, days);
            var shared := rows - SweptKeys(rows, cutoff, AsSet([SyncRuns, Network]), Anyone);
            AfterShared(rows, days, now) == shared - SweptKeys(shared, cutoff, AsSet([Publish, Llm, Embedding]),
                                                               Unowned)
  {
    forall k | k in rows ensures k.family in SHARED <==> k.family in [SyncRuns, Network]
                         ensures k.family !in SHARED <==> k.family in [Publish, Llm, Embedding]
                       {
                         FamilyIsOneKind(k.family);
                       }
  }

  lemma AllRemain(rows: map<LogKey, Log>, windows: map<nat, int>, now: int -> int, left: set<int>)
    requires forall u | u in windows && windows[u] > 0 :: windows[u] in left
    ensures Remaining(rows, windows, now, left) == rows
  {}

  lemma WindowPass(rows: map<LogKey, Log>, windows: map<nat, int>, now: int -> int, left: set<int>, days: int)
    requires days in left && days > 0
    ensures var was := Remaining(rows, windows, now, left);
            Remaining(rows, windows, now, left - {days})
            == was - SweptKeys(was, CutoffMs(now(days), days), AsSet([Publish, Llm, Embedding]),
                               Owned(Choosers(windows, days)))
  {
    forall k | k in rows
      ensures k.family !in SHARED <==> k.family in [Publish, Llm, Embedding]
    {
      FamilyIsOneKind(k.family);
    }
  }

  lemma NothingLeft(rows: map<LogKey, Log>, sharedDays: int, sharedNow: int, windows: map<nat, int>, now: int -> int)
    ensures Remaining(AfterShared(rows, sharedDays, sharedNow), windows, now, {})
         == map k | k in rows && !Goes(k, rows[k], sharedDays, sharedNow, windows, now) :: rows[k]
  {}

  lemma FamilyMore(rows: map<LogKey, Log>, cutoff: int, families: seq<Family>, i: nat, owners: Owners)
    requires i < |families|
    ensures var was := rows - SweptKeys(rows, cutoff, AsSet(families[..i]), owners);
            was - SweptKeys(was, cutoff, {families[i]}, owners)
              == rows - SweptKeys(rows, cutoff, AsSet(families[..i + 1]), owners)
    ensures SyncRuns in families[..i + 1] <==> SyncRuns in families[..i] || families[i] == SyncRuns
  {
    assert families[..i + 1] == families[..i] + [families[i]];
    assert AsSet(families[..i + 1]) == AsSet(families[..i]) + {families[i]};
  }

  lemma PayloadsTwice(payloads: map<nat, int>, cutoff: int)
    ensures var was := payloads - ExpiredPayloads(payloads, cutoff);
            was - ExpiredPayloads(was, cutoff) == was
  {}

  function Choosers(windows: map<nat, int>, days: int): set<nat> { set u | u in windows && windows[u] == days }

  function AsSet<T>(xs: seq<T>): set<T> { set x | x in xs }

  lemma Removed<K, V>(m: map<K, V>, gone: set<K>)
    requires gone <= m.Keys
    ensures |m - gone| == |m| - |gone|
  {
    assert (m - gone).Keys == m.Keys - gone;
    assert |m.Keys| == |m| && |(m - gone).Keys| == |m - gone|;
  }

  /** The accounts that chose each window, 0 and below meaning none. */
  method OwnersByWindow(windows: map<nat, int>) returns (byWindow: map<int, set<nat>>)
    ensures forall days :: days in byWindow <==> days > 0 && days in windows.Values
    ensures forall days | days in byWindow :: byWindow[days] == Choosers(windows, days)
  {
    byWindow := map[];
    var left := windows.Keys;
    while left != {}
      invariant left <= windows.Keys
      invariant forall days ::
                  days in byWindow <==> days > 0 && exists u | u in windows :: u !in left && windows[u] == days
      invariant forall days | days in byWindow ::
                byWindow[days] == set u | u in windows && u !in left && windows[u] == days
    {
      var u :| u in left;
      var days := windows[u];
      ghost var was := left;
      left := left - {u};
      if days > 0 {
        byWindow := byWindow[days := (if days in byWindow then byWindow[days] else {}) + {u}];
      }
    }
  }
}
