/**
  Journal records and what one call does to them
  (internal/agent/install/operation_journal.go), as functions on values.
  The class in OperationJournal.dfy is proved against these, and
  OperationProtocol.dfy interleaves them.
 */
module OperationRecords {
  import opened GoStrings
  import opened ModuleNames
  import opened Outcomes

  datatype Action = Install | Restart | Uninstall

  /** What the status text in the file stands for is settled when the record is decoded; a foreign word stays as it is. */
  datatype Status = Running | Completed | Failed | Interrupted | Foreign(word: string)

  datatype Stage = Validate | Download | Verify | Unpack | Render | Apply | Healthcheck | Rollback | Done

  datatype ResultSnapshot = ResultSnapshot(version: string, serviceName: string, endpoint: string,
                                           status: string, health: string)

  /** Times are abstract instants; the runtime field is constant and left out. */
  datatype OperationRecord = OperationRecord(
    requestID: string, action: Action, module_: string, status: Status, stage: Stage,
    startedAt: nat, updatedAt: nat, finishedAt: Option<nat>,
    errorText: string, result: Option<ResultSnapshot>)

  const RESTART_ERROR := "agent restarted before operation completed"

  function NormalizeHealth(raw: string): (r: string) {
    var key := ToLower(TrimSpace(raw));
    if key == "" then "unknown"
    else if IsHealthWord(key) then key
    else TrimSpace(raw)
  }

  predicate IsHealthWord(w: string) {
    w == "unknown" || w == "starting" || w == "healthy" || w == "unhealthy" || w == "degraded"
  }

  function NormalizeSnapshot(s: ResultSnapshot): ResultSnapshot {
    ResultSnapshot(TrimSpace(s.version), TrimSpace(s.serviceName), TrimSpace(s.endpoint),
                   TrimSpace(s.status), NormalizeHealth(s.health))
  }

  function NormalizeResult(r: Option<ResultSnapshot>): Option<ResultSnapshot> {
    match r
    case None => None
    case Some(s) => Some(NormalizeSnapshot(s))
  }

  function NormalizeRecord(r: OperationRecord): OperationRecord {
    r.(requestID := TrimSpace(r.requestID),
       module_ := NormalizeModuleName(r.module_),
       errorText := TrimSpace(r.errorText),
       result := NormalizeResult(r.result))
  }

  function NormalizeAll(rs: seq<OperationRecord>): (out: seq<OperationRecord>)
    ensures |out| == |rs|
    ensures forall i :: 0 <= i < |rs| ==> out[i] == NormalizeRecord(rs[i])
  {
    seq(|rs|, i requires 0 <= i < |rs| => NormalizeRecord(rs[i]))
  }

  /** Index of the first record of the request, or -1. */
  function FindFrom(rs: seq<OperationRecord>, id: string, from: nat): (r: int)
    requires from <= |rs|
    ensures r == -1 || (from <= r < |rs| && TrimSpace(rs[r].requestID) == id)
    ensures forall i :: from <= i < |rs| && (r == -1 || i < r) ==> TrimSpace(rs[i].requestID) != id
    decreases |rs| - from
  {
    if from == |rs| then -1
    else if TrimSpace(rs[from].requestID) == id then from
    else FindFrom(rs, id, from + 1)
  }

  function FindRequest(rs: seq<OperationRecord>, id: string): (r: int)
    ensures r == -1 || (0 <= r < |rs| && TrimSpace(rs[r].requestID) == id)
    ensures forall i :: 0 <= i < |rs| && (r == -1 || i < r) ==> TrimSpace(rs[i].requestID) != id
  {
    FindFrom(rs, id, 0)
  }

  predicate ModuleBusy(rs: seq<OperationRecord>, module_: string) {
    exists i :: 0 <= i < |rs| && NormalizeModuleName(rs[i].module_) == module_ && rs[i].status == Running
  }

  datatype ScanResult = Replay(existing: OperationRecord) | AlreadyRunning(existing: OperationRecord) | Busy | Clear

  /** The two loops of `beginOperation` over the loaded records. */
  function Scan(rs: seq<OperationRecord>, module_: string, id: string): ScanResult {
    var i := FindRequest(rs, id);
    if i >= 0 then
      var existing := NormalizeRecord(rs[i]);
      if existing.status == Running then AlreadyRunning(existing) else Replay(existing)
    else if ModuleBusy(rs, module_) then Busy
    else Clear
  }

  function NewRecord(action: Action, module_: string, id: string, now: nat): OperationRecord {
    NormalizeRecord(OperationRecord(id, action, module_, Running, Validate, now, now, None, "", None))
  }

  function AcquireLock(locks: map<string, string>, module_: string, id: string): Option<map<string, string>> {
    var key := NormalizeModuleName(module_);
    if key == "" then None
    else if key in locks && TrimSpace(locks[key]) != TrimSpace(id) then None
    else Some(locks[key := TrimSpace(id)])
  }

  function ReleaseLock(locks: map<string, string>, module_: string, id: string): map<string, string> {
    var key := NormalizeModuleName(module_);
    if key != "" && key in locks && TrimSpace(locks[key]) == TrimSpace(id) then locks - {key} else locks
  }

  function Staged(r: OperationRecord, stage: Stage, now: nat): OperationRecord {
    r.(stage := stage, updatedAt := now)
  }

  /** How a handle is settled: by `Complete` or by `Fail`. */
  datatype Outcome = Succeeded(result: Option<ResultSnapshot>) | FailedWith(text: string)

  function Settled(r: OperationRecord, outcome: Outcome, now: nat): OperationRecord {
    match outcome
    case Succeeded(result) =>
      r.(status := Completed, stage := Done, result := NormalizeResult(result), errorText := "",
         updatedAt := now, finishedAt := Some(now))
    case FailedWith(text) =>
      r.(status := Failed, errorText := TrimSpace(text), updatedAt := now, finishedAt := Some(now))
  }

  /** A record that no handle has settled yet. */
  predicate Open(r: OperationRecord) {
    r.status == Running && r.result == None && r.errorText == ""
  }

  /** What a record says once its operation is settled with this outcome. */
  predicate Tells(r: OperationRecord, outcome: Outcome) {
    match outcome
    case Succeeded(result) => r.status == Completed && r.result == NormalizeResult(result) && r.errorText == ""
    case FailedWith(text) => r.status == Failed && r.result == None && r.errorText == TrimSpace(text)
  }

  lemma {:induction false} SettledTells(r: OperationRecord, outcome: Outcome, now: nat)
    requires r.result == None
    ensures Tells(NormalizeRecord(Settled(r, outcome, now)), outcome)
  {
    EmptyStays();
    match outcome
    case Succeeded(result) => NormalizeResultIdempotent(result);
    case FailedWith(text) => TrimSpaceIdempotent(text);
  }

  lemma {:induction false} TellsOn(r: OperationRecord, outcome: Outcome)
    requires Tells(r, outcome)
    ensures Tells(NormalizeRecord(r), outcome)
  {
    EmptyStays();
    match outcome
    case Succeeded(result) => NormalizeResultIdempotent(result);
    case FailedWith(text) => TrimSpaceIdempotent(text);
  }

  lemma {:induction false} EmptyStays()
    ensures TrimSpace("") == ""
  {
  }

  lemma {:induction false} OpenStays(r: OperationRecord)
    requires Open(r)
    ensures Open(NormalizeRecord(r))
  {
    EmptyStays();
  }

  /** What the holder of a handle writes into its record. */
  datatype Rewrite = ToStage(stage: Stage) | ToOutcome(outcome: Outcome)

  function Rewritten(r: OperationRecord, w: Rewrite, now: nat): OperationRecord {
    match w
    case ToStage(stage) => Staged(r, stage, now)
    case ToOutcome(outcome) => Settled(r, outcome, now)
  }

  function Interrupt(r: OperationRecord, now: nat): OperationRecord {
    if r.status != Running then r
    else r.(status := Interrupted, errorText := FirstNonEmpty(TrimSpace(r.errorText), RESTART_ERROR),
            updatedAt := now, finishedAt := Some(now))
  }

  lemma {:induction false} InterruptTouchesRunningOnly(r: OperationRecord, now: nat)
    ensures NormalizeRecord(r).status == r.status
    ensures r.status != Running ==> Interrupt(r, now) == r
  {
  }

  function InterruptAll(rs: seq<OperationRecord>, now: nat): (out: seq<OperationRecord>)
    ensures |out| == |rs|
    ensures forall i :: 0 <= i < |rs| ==> out[i] == Interrupt(rs[i], now)
  {
    seq(|rs|, i requires 0 <= i < |rs| => Interrupt(rs[i], now))
  }

  datatype Refusal =
    | ModuleRequired
    | RequestIDRequired
    | LoadFailed
    | OperationRunning
    | ModuleRunning
    | LockHeld
    | SaveFailed

  datatype BeginReply =
    | Granted(record: OperationRecord)
    | Replayed(existing: OperationRecord)
    | Refused(why: Refusal, known: Option<OperationRecord>)

  /** Journal file and lock table together. */
  datatype JournalState = JournalState(disk: seq<OperationRecord>, locks: map<string, string>)

  /** `beginOperation` from start to end with nothing interleaved. */
  function BeginSpec(s: JournalState, action: Action, rawModule: string, rawID: string, now: nat,
                     loadOk: bool, saveOk: bool): (JournalState, BeginReply)
  {
    var module_, id := NormalizeModuleName(rawModule), TrimSpace(rawID);
    if module_ == "" then (s, Refused(ModuleRequired, None))
    else if id == "" then (s, Refused(RequestIDRequired, None))
    else if !loadOk then (s, Refused(LoadFailed, None))
    else
      var records := NormalizeAll(s.disk);
      match Scan(records, module_, id)
      case Replay(e) => (s, Replayed(e))
      case AlreadyRunning(e) => (s, Refused(OperationRunning, Some(e)))
      case Busy => (s, Refused(ModuleRunning, None))
      case Clear =>
        match AcquireLock(s.locks, module_, id)
        case None => (s, Refused(LockHeld, None))
        case Some(locks) =>
          var record := NewRecord(action, module_, id, now);
          if saveOk then (JournalState(NormalizeAll(records + [record]), locks), Granted(record))
          else (JournalState(s.disk, ReleaseLock(locks, module_, id)), Refused(SaveFailed, None))
  }

  /** What `UpdateStage`, `Complete` and `Fail` do to the file and to the handle's copy of its record. */
  function RewriteSpec(disk: seq<OperationRecord>, held: OperationRecord, w: Rewrite, now: nat,
                       loadOk: bool, saveOk: bool): (seq<OperationRecord>, OperationRecord)
  {
    var records := NormalizeAll(disk);
    var i := FindRequest(records, TrimSpace(held.requestID));
    if !loadOk || i < 0 then (disk, held)
    else
      var r := Rewritten(records[i], w, now);
      (if saveOk then NormalizeAll(records[i := r]) else disk, NormalizeRecord(r))
  }

  // ---------- what is in the file after a call ----------

  /** A record as a load and a save leave it: only its texts are normalised. */
  function Resaved(r: OperationRecord): OperationRecord {
    NormalizeRecord(NormalizeRecord(r))
  }

  /** A load and a save keep all of a record but its texts and the space around them. */
  lemma {:induction false} ResavedKeeps(r: OperationRecord)
    ensures var s := Resaved(r);
      && s.action == r.action && s.status == r.status && s.stage == r.stage
      && s.startedAt == r.startedAt && s.updatedAt == r.updatedAt && s.finishedAt == r.finishedAt
      && s.requestID == TrimSpace(r.requestID) && s.errorText == TrimSpace(r.errorText)
      && (s.result.Some? <==> r.result.Some?)
    ensures NormalizeModuleName(r.module_) == r.module_ && TrimSpace(r.requestID) == r.requestID && TrimSpace(r.errorText) == r.errorText
         && (r.result.Some? ==> TidySnapshot(r.result.value))
         ==> Resaved(r) == r
  {
    hide NormalizeModuleName, NormalizeHealth, TrimSpace;
    TrimSpaceIdempotent(r.requestID);
    TrimSpaceIdempotent(r.errorText);
  }

  /** Trimmed fields and a health word. */
  predicate TidySnapshot(s: ResultSnapshot) {
    && TrimSpace(s.version) == s.version && TrimSpace(s.serviceName) == s.serviceName && TrimSpace(s.endpoint) == s.endpoint
    && TrimSpace(s.status) == s.status && NormalizeHealth(s.health) == s.health
  }

  /** Every record but number `i` is the old one, saved again. */
  predicate OthersResaved(before: seq<OperationRecord>, after: seq<OperationRecord>, i: int) {
    |after| == |before| && forall k :: 0 <= k < |before| && k != i ==> after[k] == Resaved(before[k])
  }

  /** The journal and the handle's record once a stage is noted. */
  predicate StageNoted(before: seq<OperationRecord>, after: seq<OperationRecord>, record: OperationRecord, id: string,
                       stage: Stage, now: nat)
  {
    var i := FindRequest(before, TrimSpace(id));
    if i < 0 then after == before
    else
      && OthersResaved(before, after, i) && record == after[i]
      && after[i] == Resaved(before[i]).(stage := stage, updatedAt := now)
  }

  /** The journal and the handle's record once the operation has completed. */
  predicate CompletionNoted(before: seq<OperationRecord>, after: seq<OperationRecord>, record: OperationRecord, id: string,
                            result: Option<ResultSnapshot>, now: nat)
  {
    var i := FindRequest(before, TrimSpace(id));
    if i < 0 then after == before
    else
      && OthersResaved(before, after, i) && record == after[i]
      && after[i] == Resaved(before[i]).(status := Completed, stage := Done, result := NormalizeResult(result), errorText := "",
                                         updatedAt := now, finishedAt := Some(now))
  }

  /** The journal and the handle's record once it has failed: the stage reached stays. */
  predicate FailureNoted(before: seq<OperationRecord>, after: seq<OperationRecord>, record: OperationRecord, id: string,
                         text: string, now: nat)
  {
    var i := FindRequest(before, TrimSpace(id));
    if i < 0 then after == before
    else
      && OthersResaved(before, after, i) && record == after[i]
      && after[i] == Resaved(before[i]).(status := Failed, errorText := TrimSpace(text), updatedAt := now, finishedAt := Some(now))
  }

  lemma {:induction false} FindAfterLoad(d: seq<OperationRecord>, id: string)
    ensures FindRequest(NormalizeAll(d), id) == FindRequest(d, id)
  {
    hide FindRequest, NormalizeModuleName, NormalizeResult, TrimSpace;
    forall i | 0 <= i < |d|
      ensures TrimSpace(NormalizeAll(d)[i].requestID) == TrimSpace(d[i].requestID)
    {
      TrimSpaceIdempotent(d[i].requestID);
    }
  }

  /** What a rewrite through a handle writes, field by field, when its load and its save work. */
  lemma {:induction false} RewriteNoted(disk: seq<OperationRecord>, held: OperationRecord, w: Rewrite, now: nat)
    ensures var (after, record) := RewriteSpec(disk, held, w, now, true, true);
      match w
      case ToStage(stage) => StageNoted(disk, after, record, held.requestID, stage, now)
      case ToOutcome(Succeeded(result)) => CompletionNoted(disk, after, record, held.requestID, result, now)
      case ToOutcome(FailedWith(text)) => FailureNoted(disk, after, record, held.requestID, text, now)
  {
    hide FindRequest, NormalizeModuleName, NormalizeResult, TrimSpace, NormalizeRecord;
    FindAfterLoad(disk, TrimSpace(held.requestID));
    var i := FindRequest(disk, TrimSpace(held.requestID));
    if i >= 0 {
      RewrittenFields(NormalizeRecord(disk[i]), w, now);
      TrimSpaceIdempotent(held.requestID);
    }
  }

  lemma {:induction false} RewrittenFields(r: OperationRecord, w: Rewrite, now: nat)
    ensures var out := NormalizeRecord(Rewritten(r, w, now));
      match w
      case ToStage(stage) => out == NormalizeRecord(r).(stage := stage, updatedAt := now)
      case ToOutcome(Succeeded(result)) =>
        out == NormalizeRecord(r).(status := Completed, stage := Done, result := NormalizeResult(result), errorText := "",
                                   updatedAt := now, finishedAt := Some(now))
      case ToOutcome(FailedWith(text)) =>
        out == NormalizeRecord(r).(status := Failed, errorText := TrimSpace(text), updatedAt := now, finishedAt := Some(now))
  {
    EmptyStays();
    match w
    case ToStage(_) =>
    case ToOutcome(Succeeded(result)) => NormalizeResultIdempotent(result);
    case ToOutcome(FailedWith(text)) => TrimSpaceIdempotent(text);
  }

  /** A running record as a restart leaves it, field by field; an error it had already stays. */
  function InterruptedAt(r: OperationRecord, now: nat): OperationRecord {
    Resaved(r).(status := Interrupted, updatedAt := now, finishedAt := Some(now),
                errorText := if TrimSpace(r.errorText) == "" then "agent restarted before operation completed" else TrimSpace(r.errorText))
  }

  lemma {:induction false} InterruptionFields(r: OperationRecord, now: nat)
    requires r.status == Running
    ensures NormalizeRecord(Interrupt(NormalizeRecord(r), now))
         == InterruptedAt(r, now)
  {
    hide NormalizeModuleName, NormalizeResult;
    EmptyStays();
    TrimSpaceIdempotent(r.errorText);
    assert |RESTART_ERROR| == 42 && RESTART_ERROR[0] == 'a' && RESTART_ERROR[41] == 'd';
    TrimCleanText(RESTART_ERROR, IsSpace);
  }

  /** The journal after a restart that had something to interrupt: what ran is interrupted, the rest is saved again. */
  lemma {:induction false} RestartNoted(disk: seq<OperationRecord>, now: nat)
    ensures var after := NormalizeAll(InterruptAll(NormalizeAll(disk), now));
      && |after| == |disk|
      && (forall i :: 0 <= i < |disk| && disk[i].status != Running ==> after[i] == Resaved(disk[i]))
      && (forall i :: 0 <= i < |disk| && disk[i].status == Running ==> after[i] == InterruptedAt(disk[i], now))
  {
    hide NormalizeRecord, TrimSpace, Interrupt, InterruptedAt;
    forall i | 0 <= i < |disk|
      ensures disk[i].status != Running ==> Interrupt(NormalizeRecord(disk[i]), now) == NormalizeRecord(disk[i])
      ensures disk[i].status == Running ==> NormalizeRecord(Interrupt(NormalizeRecord(disk[i]), now)) == InterruptedAt(disk[i], now)
    {
      InterruptTouchesRunningOnly(disk[i], now);
      InterruptTouchesRunningOnly(NormalizeRecord(disk[i]), now);
      if disk[i].status == Running {
        InterruptionFields(disk[i], now);
      }
    }
  }

  // ---------- when a begin is granted ----------

  /** A running record of the module, as a load reads it. */
  predicate RunningFor(disk: seq<OperationRecord>, name: string) {
    exists i :: 0 <= i < |disk| && disk[i].status == Running && NormalizeModuleName(NormalizeModuleName(disk[i].module_)) == name
  }

  /** The name the lock is taken under. */
  function LockKey(rawModule: string): string {
    NormalizeModuleName(NormalizeModuleName(rawModule))
  }

  /**
    Exactly when a begin is granted, in any state: named request and module, a load and a save that work, an id the
    journal does not know, no running record of the module, and no lock of another request.
   */
  lemma {:induction false} GrantIsExact(s: JournalState, action: Action, rawModule: string, rawID: string, now: nat,
                                        loadOk: bool, saveOk: bool)
    ensures BeginSpec(s, action, rawModule, rawID, now, loadOk, saveOk).1.Granted? <==>
      && LockKey(rawModule) != "" && TrimSpace(rawID) != "" && loadOk && saveOk
      && (forall i :: 0 <= i < |s.disk| ==> TrimSpace(s.disk[i].requestID) != TrimSpace(rawID))
      && !RunningFor(s.disk, NormalizeModuleName(rawModule))
      && (LockKey(rawModule) in s.locks ==> TrimSpace(s.locks[LockKey(rawModule)]) == TrimSpace(rawID))
  {
    hide NormalizeModuleName, TrimSpace, FindRequest, NormalizeResult, NewRecord;
    TrimSpaceIdempotent(rawID);
    BlankNameStays();
    FindAfterLoad(s.disk, TrimSpace(rawID));
    var records := NormalizeAll(s.disk);
    assert ModuleBusy(records, NormalizeModuleName(rawModule)) <==> RunningFor(s.disk, NormalizeModuleName(rawModule)) by {
      assert forall i :: 0 <= i < |s.disk| ==>
        records[i].status == s.disk[i].status && records[i].module_ == NormalizeModuleName(s.disk[i].module_);
    }
  }

  lemma {:induction false} BlankNameStays()
    ensures NormalizeModuleName("") == ""
  {
    TrimCleanText("", IsSpace);
    TrimCleanText("", IsDashOrSlash);
  }

  /** A record of the request, as a load reads it. */
  predicate Known(disk: seq<OperationRecord>, rawID: string) {
    exists i :: 0 <= i < |disk| && TrimSpace(disk[i].requestID) == TrimSpace(rawID)
  }

  /** The first record of the request is one that still runs. */
  predicate KnownRunning(disk: seq<OperationRecord>, rawID: string) {
    exists i :: 0 <= i < |disk| && disk[i].status == Running && TrimSpace(disk[i].requestID) == TrimSpace(rawID)
                && forall k :: 0 <= k < i ==> TrimSpace(disk[k].requestID) != TrimSpace(rawID)
  }

  /** Exactly which answer a begin gets that is not granted; the first reason in this order is the one named. */
  predicate AnswerFits(s: JournalState, rawModule: string, rawID: string, loadOk: bool, saveOk: bool, reply: BeginReply) {
    var name, key := NormalizeModuleName(rawModule), LockKey(rawModule);
    var read := name != "" && TrimSpace(rawID) != "" && loadOk;
    var free := read && !Known(s.disk, rawID) && !RunningFor(s.disk, name);
    var locked := key == "" || (key in s.locks && TrimSpace(s.locks[key]) != TrimSpace(rawID));
    match reply
    case Replayed(_) => read && Known(s.disk, rawID) && !KnownRunning(s.disk, rawID)
    case Refused(ModuleRequired, _) => name == ""
    case Refused(RequestIDRequired, _) => name != "" && TrimSpace(rawID) == ""
    case Refused(LoadFailed, _) => name != "" && TrimSpace(rawID) != "" && !loadOk
    case Refused(OperationRunning, _) => read && KnownRunning(s.disk, rawID)
    case Refused(ModuleRunning, _) => read && !Known(s.disk, rawID) && RunningFor(s.disk, name)
    case Refused(LockHeld, _) => free && locked
    case Refused(SaveFailed, _) => free && !locked && !saveOk
    case Granted(_) => free && !locked && saveOk
  }

  lemma {:induction false} AnswerIsExact(s: JournalState, action: Action, rawModule: string, rawID: string, now: nat,
                                         loadOk: bool, saveOk: bool)
    ensures AnswerFits(s, rawModule, rawID, loadOk, saveOk, BeginSpec(s, action, rawModule, rawID, now, loadOk, saveOk).1)
  {
    hide NormalizeModuleName, TrimSpace, FindRequest, NormalizeResult, NewRecord;
    TrimSpaceIdempotent(rawID);
    FindAfterLoad(s.disk, TrimSpace(rawID));
    var records := NormalizeAll(s.disk);
    assert ModuleBusy(records, NormalizeModuleName(rawModule)) <==> RunningFor(s.disk, NormalizeModuleName(rawModule)) by {
      assert forall i :: 0 <= i < |s.disk| ==>
        records[i].status == s.disk[i].status && records[i].module_ == NormalizeModuleName(s.disk[i].module_);
    }
    var i := FindRequest(s.disk, TrimSpace(rawID));
    assert i >= 0 ==> (KnownRunning(s.disk, rawID) <==> s.disk[i].status == Running);
  }

  /** What a granted begin leaves: the old records saved again, one new running record at their end, and the lock. */
  lemma {:induction false} GrantNoted(s: JournalState, action: Action, rawModule: string, rawID: string, now: nat,
                                      loadOk: bool, saveOk: bool)
    requires BeginSpec(s, action, rawModule, rawID, now, loadOk, saveOk).1.Granted?
    ensures var (begun, reply) := BeginSpec(s, action, rawModule, rawID, now, loadOk, saveOk);
      var (id, key) := (TrimSpace(rawID), LockKey(rawModule));
      && reply.record == OperationRecord(id, action, key, Running, Validate, now, now, None, "", None)
      && |begun.disk| == |s.disk| + 1 && (forall k :: 0 <= k < |s.disk| ==> begun.disk[k] == Resaved(s.disk[k]))
      && begun.disk[|s.disk|] == reply.record.(module_ := NormalizeModuleName(key))
      && begun.locks == s.locks[key := id]
  {
    hide NormalizeModuleName, TrimSpace, FindRequest, ModuleBusy, NormalizeRecord;
    TrimSpaceIdempotent(rawID);
    NewRecordFields(action, NormalizeModuleName(rawModule), TrimSpace(rawID), now);
  }

  lemma {:induction false} NewRecordFields(action: Action, name: string, id: string, now: nat)
    requires TrimSpace(id) == id
    ensures var r := NewRecord(action, name, id, now);
      && r == OperationRecord(id, action, NormalizeModuleName(name), Running, Validate, now, now, None, "", None)
      && NormalizeRecord(r) == r.(module_ := NormalizeModuleName(r.module_))
  {
    EmptyStays();
    hide NormalizeModuleName, TrimSpace;
  }

  /** What a refused or replayed begin leaves: the file, and the locks of everyone, but for a lock of its own it had before. */
  lemma {:induction false} NoGrantNoTrace(s: JournalState, action: Action, rawModule: string, rawID: string, now: nat,
                                          loadOk: bool, saveOk: bool)
    requires !BeginSpec(s, action, rawModule, rawID, now, loadOk, saveOk).1.Granted?
    ensures var after := BeginSpec(s, action, rawModule, rawID, now, loadOk, saveOk).0;
      && after.disk == s.disk
      && (forall k :: k in s.locks && TrimSpace(s.locks[k]) != TrimSpace(rawID) ==> k in after.locks && after.locks[k] == s.locks[k])
      && (forall k :: k in after.locks ==> k in s.locks || k == LockKey(rawModule))
      && (LockKey(rawModule) !in s.locks ==> after.locks == s.locks)
  {
    hide NormalizeModuleName, TrimSpace, FindRequest, ModuleBusy, NormalizeRecord, NewRecord;
    TrimSpaceIdempotent(rawID);
    var key := LockKey(rawModule);
    assert key !in s.locks ==> s.locks[key := TrimSpace(rawID)] - {key} == s.locks;
  }

  // ---------- health words ----------

  /** Which health a text stands for: the five words in any capitals and with space around, a blank, and anything else. */
  lemma {:induction false} HealthWords(raw: string)
    ensures TrimSpace(raw) == "" ==> NormalizeHealth(raw) == "unknown"
    ensures ToLower(TrimSpace(raw)) in ["unknown", "starting", "healthy", "unhealthy", "degraded"] ==>
      NormalizeHealth(raw) == ToLower(TrimSpace(raw))
    ensures TrimSpace(raw) != "" && ToLower(TrimSpace(raw)) !in ["unknown", "starting", "healthy", "unhealthy", "degraded"] ==>
      NormalizeHealth(raw) == TrimSpace(raw)
  {
    hide TrimSpace;
    assert |ToLower(TrimSpace(raw))| == |TrimSpace(raw)|;
  }

  // ---------- records that are their own normal form ----------

  predicate Canonical(r: OperationRecord) {
    NormalizeRecord(r) == r
  }

  predicate AllCanonical(rs: seq<OperationRecord>) {
    forall i :: 0 <= i < |rs| ==> Canonical(rs[i])
  }

  lemma {:induction false} LetterWordIsFixed(w: string)
    requires w != "" && forall i :: 0 <= i < |w| ==> 'a' <= w[i] <= 'z'
    ensures TrimSpace(w) == w && ToLower(w) == w
  {
    assert TrimSpace(w) == w by {
      hide TrimLeft, TrimRight;
      TrimCleanText(w, IsSpace);
    }
    hide TrimSpace;
    forall i | 0 <= i < |w|
      ensures ToLower(w)[i] == w[i]
    {
    }
  }

  lemma {:induction false} HealthWordsAreFixed(w: string)
    requires IsHealthWord(w)
    ensures w != "" && TrimSpace(w) == w && ToLower(w) == w
  {
    hide TrimSpace, ToLower;
    LetterWordIsFixed(w);
  }

  lemma {:induction false} NormalizeHealthIdempotent(raw: string)
    ensures NormalizeHealth(NormalizeHealth(raw)) == NormalizeHealth(raw)
    ensures NormalizeHealth(raw) != ""
    ensures TrimSpace(NormalizeHealth(raw)) == NormalizeHealth(raw)
  {
    var h := NormalizeHealth(raw);
    TrimSpaceIdempotent(raw);
    assert |ToLower(TrimSpace(raw))| == |TrimSpace(raw)|;
    if ToLower(TrimSpace(raw)) == "" {
      assert IsHealthWord(h);
    }
    if IsHealthWord(h) {
      HealthWordsAreFixed(h);
    } else {
      assert h == TrimSpace(raw);
    }
  }

  lemma {:induction false} NormalizeSnapshotIdempotent(s: ResultSnapshot)
    ensures NormalizeSnapshot(NormalizeSnapshot(s)) == NormalizeSnapshot(s)
  {
    TrimSpaceIdempotent(s.version);
    TrimSpaceIdempotent(s.serviceName);
    TrimSpaceIdempotent(s.endpoint);
    TrimSpaceIdempotent(s.status);
    NormalizeHealthIdempotent(s.health);
  }

  lemma {:induction false} NormalizeResultIdempotent(r: Option<ResultSnapshot>)
    ensures NormalizeResult(NormalizeResult(r)) == NormalizeResult(r)
  {
    if r.Some? {
      NormalizeSnapshotIdempotent(r.value);
    }
  }

  /** One normalisation of a record settles it exactly when its module name is stable. */
  lemma {:induction false} NormalizeRecordSettles(r: OperationRecord)
    ensures Canonical(NormalizeRecord(r)) <==> Stable(r.module_)
  {
    TrimSpaceIdempotent(r.requestID);
    TrimSpaceIdempotent(r.errorText);
    NormalizeResultIdempotent(r.result);
  }

  lemma {:induction false} CanonicalDiskIsFixed(rs: seq<OperationRecord>)
    requires AllCanonical(rs)
    ensures NormalizeAll(rs) == rs
  {
  }

  lemma {:induction false} SettledIsCanonical(r: OperationRecord, outcome: Outcome, now: nat)
    requires Canonical(r)
    ensures Canonical(Settled(r, outcome, now))
  {
    match outcome
    case Succeeded(result) => NormalizeResultIdempotent(result);
    case FailedWith(text) => TrimSpaceIdempotent(text);
  }

  lemma {:induction false} InterruptIsCanonical(r: OperationRecord, now: nat)
    requires Canonical(r)
    ensures Canonical(Interrupt(r, now))
  {
    TrimSpaceIdempotent(TrimSpace(r.errorText));
    TrimSpaceIdempotent(RESTART_ERROR);
  }

  /** Stage changes and settlement keep the identity of a record. */
  predicate SameOperation(a: OperationRecord, b: OperationRecord) {
    a.requestID == b.requestID && a.action == b.action && a.module_ == b.module_ && a.startedAt == b.startedAt
  }

  /** What may become of a record: it keeps its operation, and once settled everything but the spelling of its module. */
  predicate RipensTo(a: OperationRecord, b: OperationRecord) {
    && a.requestID == b.requestID && a.action == b.action && a.startedAt == b.startedAt
    && (NormalizeModuleName(a.module_) == a.module_ ==> b.module_ == a.module_) && |b.module_| <= |a.module_|
    && (a.status != Running ==> b == a.(module_ := b.module_))
  }

  /** What may become of a journal: records are only appended, and each ripens in its place. */
  predicate Ripens(d: seq<OperationRecord>, e: seq<OperationRecord>) {
    |d| <= |e| && forall i :: 0 <= i < |d| ==> RipensTo(d[i], e[i])
  }

  lemma {:induction false} RipensThen(d: seq<OperationRecord>, e: seq<OperationRecord>, f: seq<OperationRecord>)
    requires Ripens(d, e) && Ripens(e, f)
    ensures Ripens(d, f)
  {
    hide NormalizeModuleName;
    forall i | 0 <= i < |d|
      ensures RipensTo(d[i], f[i])
    {
      assert RipensTo(d[i], e[i]) && RipensTo(e[i], f[i]);
    }
  }

  lemma {:induction false} RipensItself(d: seq<OperationRecord>)
    ensures Ripens(d, d)
  {
    hide NormalizeModuleName;
  }

  /** A request keeps its place. */
  lemma {:induction false} RipeFound(d: seq<OperationRecord>, e: seq<OperationRecord>, id: string)
    requires Ripens(d, e) && FindRequest(d, id) >= 0
    ensures FindRequest(e, id) == FindRequest(d, id)
  {
    hide TrimSpace, FindRequest, NormalizeModuleName;
    var i := FindRequest(d, id);
    assert forall k :: 0 <= k <= i ==> RipensTo(d[k], e[k]);
  }
}
