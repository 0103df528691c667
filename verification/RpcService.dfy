/**
  The install, restart and uninstall handlers of internal/agent/install/rpc_service.go: what each
  exit does with the operation handle, and what a repeated request is answered.

  The engine, systemd, nginx and file removals are the environment: each handler takes their outcomes.
 */
module RpcService {
  import opened GoStrings
  import opened ModuleNames
  import opened Outcomes
  import opened OperationRecords
  import opened OperationJournal

  const RPC_VERSION := "aurora.installer.rpc.v1"
  const RUNTIME := "linux-systemd"

  const UNSUPPORTED := "api_version is unsupported"

  /** Time, whether the load and the save of the k-th journal call of a handler succeed, and what a begin reports if not. */
  datatype Env = Env(now: nat -> nat, loadOk: nat -> bool, saveOk: nat -> bool, fault: string)

  predicate SupportedVersion(raw: string) {
    TrimSpace(raw) == "" || TrimSpace(raw) == RPC_VERSION
  }

  // ---------- what a handler does with its handle ----------

  datatype Call = Note(stage: Stage) | Settle(outcome: Outcome)

  datatype HandleState = HandleState(disk: seq<OperationRecord>, locks: map<string, string>,
                                     held: OperationRecord, active: bool)

  function DoCall(h: HandleState, c: Call, env: Env, k: nat): HandleState {
    if !h.active then h
    else
      match c
      case Note(stage) =>
        var (disk, held) := RewriteSpec(h.disk, h.held, ToStage(stage), env.now(k), env.loadOk(k), env.saveOk(k));
        h.(disk := disk, held := held)
      case Settle(outcome) =>
        var (disk, held) := RewriteSpec(h.disk, h.held, ToOutcome(outcome), env.now(k), env.loadOk(k), env.saveOk(k));
        HandleState(disk, ReleaseLock(h.locks, held.module_, held.requestID), held, false)
  }

  /** Journal call 0 is the begin; the calls on the handle follow. */
  function DoCalls(h: HandleState, calls: seq<Call>, env: Env): HandleState {
    if calls == [] then h
    else DoCall(DoCalls(h, calls[..|calls| - 1], env), calls[|calls| - 1], env, |calls|)
  }

  predicate Settles(calls: seq<Call>) {
    exists i :: 0 <= i < |calls| && calls[i].Settle?
  }

  lemma {:induction false} DoCallsAppend(h: HandleState, calls: seq<Call>, c: Call, env: Env)
    ensures DoCalls(h, calls + [c], env) == DoCall(DoCalls(h, calls, env), c, env, |calls| + 1)
  {
    hide DoCall;
    var all := calls + [c];
    assert all[..|all| - 1] == calls;
  }

  /** The next journal call of a handler; `done` are the calls made so far. */
  method Perform(journal: OperationJournal, handle: OperationHandle, c: Call, env: Env, k: nat,
                 ghost start: HandleState, ghost done: seq<Call>)
    requires k == |done| + 1
    requires HandleState(journal.disk, journal.moduleLocks, handle.record, handle.active) == DoCalls(start, done, env)
    modifies journal, handle
    ensures HandleState(journal.disk, journal.moduleLocks, handle.record, handle.active) == DoCalls(start, done + [c], env)
  {
    hide RewriteSpec, ReleaseLock, DoCalls;
    DoCallsAppend(start, done, c, env);
    match c
    case Note(stage) => handle.UpdateStage(journal, stage, env.now(k), env.loadOk(k), env.saveOk(k));
    case Settle(Succeeded(result)) => handle.Complete(journal, result, env.now(k), env.loadOk(k), env.saveOk(k));
    case Settle(FailedWith(text)) => handle.Fail(journal, text, env.now(k), env.loadOk(k), env.saveOk(k));
  }

  // ---------- requests and answers ----------

  datatype InstallRequest = InstallRequest(apiVersion: string, requestID: string, module_: string, version: string)

  datatype ServiceRequest = ServiceRequest(apiVersion: string, requestID: string, module_: string, serviceName: string)

  datatype UninstallRequest = UninstallRequest(apiVersion: string, requestID: string, module_: string, serviceName: string,
                                               binaryPath: string, envFilePath: string, nginxSitePath: string,
                                               assetPaths: seq<string>)

  /** The fields of a result that the journal keeps, with the module. */
  datatype ModuleResult = ModuleResult(module_: string, version: string, serviceName: string, endpoint: string,
                                       status: string, health: string)

  datatype Response = Response(ok: bool, result: ModuleResult, errorText: string)

  /** Which versions are served: none named, or the one there is, with space around or not. */
  lemma {:induction false} VersionsServed(raw: string)
    ensures SupportedVersion(raw) <==> TrimSpace(raw) in ["", "aurora.installer.rpc.v1"]
  {
    hide TrimSpace;
  }

  /** How a refused begin is worded. */
  function RefusalText(why: Refusal, rawModule: string, rawID: string, fault: string): string {
    var module_ := NormalizeModuleName(rawModule);
    match why
    case ModuleRequired => "module is required"
    case RequestIDRequired => "request_id is required"
    case LoadFailed => fault
    case SaveFailed => fault
    case OperationRunning => "operation " + TrimSpace(rawID) + " is already running"
    case ModuleRunning => "another operation is already running for module " + module_
    case LockHeld =>
      var key := NormalizeModuleName(module_);
      if key == "" then "module is required" else "module " + key + " already has an active operation"
  }

  /** The seven wordings. */
  lemma {:induction false} RefusalWords(rawModule: string, rawID: string, fault: string)
    ensures RefusalText(ModuleRequired, rawModule, rawID, fault) == "module is required"
    ensures RefusalText(RequestIDRequired, rawModule, rawID, fault) == "request_id is required"
    ensures RefusalText(LoadFailed, rawModule, rawID, fault) == fault == RefusalText(SaveFailed, rawModule, rawID, fault)
    ensures RefusalText(OperationRunning, rawModule, rawID, fault) == "operation " + TrimSpace(rawID) + " is already running"
    ensures RefusalText(ModuleRunning, rawModule, rawID, fault)
         == "another operation is already running for module " + NormalizeModuleName(rawModule)
    ensures LockKey(rawModule) == "" ==> RefusalText(LockHeld, rawModule, rawID, fault) == "module is required"
    ensures LockKey(rawModule) != "" ==>
      RefusalText(LockHeld, rawModule, rawID, fault) == "module " + LockKey(rawModule) + " already has an active operation"
  {
    hide NormalizeModuleName, TrimSpace;
  }

  function FailedInstall(req: InstallRequest): ModuleResult {
    ModuleResult(TrimSpace(req.module_), TrimSpace(req.version), "", "", "failed", "unknown")
  }

  function FailedService(module_: string, serviceName: string): ModuleResult {
    ModuleResult(TrimSpace(module_), "", TrimSpace(serviceName), "", "failed", "unknown")
  }

  function SnapshotOf(r: ModuleResult): ResultSnapshot {
    ResultSnapshot(r.version, r.serviceName, r.endpoint, r.status, r.health)
  }

  /** What `Engine.InstallModule` returns on success: trimmed fields, a definite status and health. */
  predicate EngineResult(req: InstallRequest, r: ModuleResult) {
    && r.module_ == TrimSpace(req.module_) && r.version == TrimSpace(req.version)
    && TrimSpace(r.serviceName) == r.serviceName && TrimSpace(r.endpoint) == r.endpoint
    && r.status == "installed" && r.health == "healthy"
  }

  function ReplayInstall(req: InstallRequest, record: OperationRecord): Response {
    var base := FailedInstall(req);
    var result := match record.result
      case None => base
      case Some(s) =>
        base.(version := TrimSpace(s.version), serviceName := TrimSpace(s.serviceName), endpoint := TrimSpace(s.endpoint),
              status := FirstNonEmpty(TrimSpace(s.status), base.status), health := FirstNonEmpty(TrimSpace(s.health), base.health));
    if record.status == Completed then Response(true, result, "") else Response(false, result, TrimSpace(record.errorText))
  }

  /** Restart and uninstall replay in the same way. */
  function ReplayService(module_: string, serviceName: string, record: OperationRecord): Response {
    var base := FailedService(module_, serviceName);
    var result := match record.result
      case None => base
      case Some(s) =>
        base.(serviceName := FirstNonEmpty(TrimSpace(s.serviceName), base.serviceName),
              status := FirstNonEmpty(TrimSpace(s.status), base.status), health := FirstNonEmpty(TrimSpace(s.health), base.health));
    if record.status == Completed then Response(true, result, "") else Response(false, result, TrimSpace(record.errorText))
  }

  // ---------- install ----------

  function Notes(stages: seq<Stage>): (calls: seq<Call>)
    ensures |calls| == |stages|
    ensures forall i :: 0 <= i < |stages| ==> calls[i] == Note(stages[i])
  {
    seq(|stages|, i requires 0 <= i < |stages| => Note(stages[i]))
  }

  function InstallSettlement(exec: Result<ModuleResult, string>): Call {
    Settle(if exec.Ok? then Succeeded(Some(SnapshotOf(exec.value))) else FailedWith(exec.error))
  }

  function InstallCalls(stages: seq<Stage>, exec: Result<ModuleResult, string>): seq<Call> {
    Notes(stages) + [InstallSettlement(exec)]
  }

  /** The error that comes back from the engine and goes into the journal is redacted; the answer redacts it again. */
  function InstallReply(req: InstallRequest, exec: Result<ModuleResult, string>, redact: string -> string): Response {
    if exec.Ok? then Response(true, exec.value, "") else Response(false, FailedInstall(req), redact(exec.error))
  }

  /** What a request behind a fresh begin is told: the engine's result as it is, or its error redacted once more. */
  predicate InstallAnswered(req: InstallRequest, exec: Result<ModuleResult, string>, redact: string -> string, resp: Response) {
    && (resp.ok <==> exec.Ok?)
    && (exec.Ok? ==> resp.result == exec.value && resp.errorText == "")
    && (exec.Err? ==> resp.errorText == redact(exec.error) && InstallFailed(req, resp.result))
  }

  predicate InstallFailed(req: InstallRequest, r: ModuleResult) {
    r == ModuleResult(TrimSpace(req.module_), TrimSpace(req.version), "", "", "failed", "unknown")
  }

  predicate ServiceFailed(module_: string, serviceName: string, r: ModuleResult) {
    r == ModuleResult(TrimSpace(module_), "", TrimSpace(serviceName), "", "failed", "unknown")
  }

  lemma {:induction false} InstallIsAnswered(req: InstallRequest, exec: Result<ModuleResult, string>, redact: string -> string)
    ensures InstallAnswered(req, exec, redact, InstallReply(req, exec, redact)) && InstallFailed(req, FailedInstall(req))
  {
    hide TrimSpace;
  }

  /** What a handler leaves behind: refused, replayed, or run with the given calls on its handle. */
  predicate HandlerEffect(before: JournalState, after: JournalState, action: Action, module_: string, requestID: string,
                          env: Env, calls: seq<Call>)
  {
    var (begun, reply) := BeginSpec(before, action, module_, requestID, env.now(0), env.loadOk(0), env.saveOk(0));
    match reply
    case Granted(r) =>
      var h := DoCalls(HandleState(begun.disk, begun.locks, r, true), calls, env);
      after == JournalState(h.disk, h.locks)
    case _ => after == begun
  }

  function BeginReplyOf(before: JournalState, action: Action, module_: string, requestID: string, env: Env): BeginReply {
    BeginSpec(before, action, module_, requestID, env.now(0), env.loadOk(0), env.saveOk(0)).1
  }

  /** The engine's log callback reports `stages`; `exec` is what the engine came back with. */
  method InstallModule(journal: OperationJournal, req: InstallRequest, env: Env, stages: seq<Stage>,
                       exec: Result<ModuleResult, string>, redact: string -> string) returns (resp: Response)
    modifies journal
    ensures !SupportedVersion(req.apiVersion) ==>
      resp == Response(false, FailedInstall(req), UNSUPPORTED) && journal.Snapshot() == old(journal.Snapshot())
    ensures SupportedVersion(req.apiVersion) ==>
      && HandlerEffect(old(journal.Snapshot()), journal.Snapshot(), Install, req.module_, req.requestID, env, InstallCalls(stages, exec))
      && match BeginReplyOf(old(journal.Snapshot()), Install, req.module_, req.requestID, env)
         case Granted(_) => resp == InstallReply(req, exec, redact) && InstallAnswered(req, exec, redact, resp)
         case Replayed(e) => resp == ReplayInstall(req, e)
         case Refused(why, _) =>
           resp == Response(false, FailedInstall(req), RefusalText(why, req.module_, req.requestID, env.fault))
  {
    hide BeginSpec, DoCalls, SupportedVersion, ReplayInstall, FailedInstall, RefusalText, InstallAnswered;
    if !SupportedVersion(req.apiVersion) {
      return Response(false, FailedInstall(req), UNSUPPORTED);
    }
    var handle, replay, err := journal.BeginOperation(Install, req.module_, req.requestID, env.now(0), env.loadOk(0), env.saveOk(0));
    if err.Some? {
      return Response(false, FailedInstall(req), RefusalText(err.value, req.module_, req.requestID, env.fault));
    }
    if replay.Some? {
      return ReplayInstall(req, replay.value);
    }
    RunInstall(journal, handle, env, stages, exec);
    InstallIsAnswered(req, exec, redact);
    return InstallReply(req, exec, redact);
  }

  /** The part of both install handlers behind a fresh begin: the engine's stages, then the settlement. */
  method RunInstall(journal: OperationJournal, handle: OperationHandle, env: Env, stages: seq<Stage>,
                    exec: Result<ModuleResult, string>)
    modifies journal, handle
    ensures HandleState(journal.disk, journal.moduleLocks, handle.record, handle.active)
         == DoCalls(old(HandleState(journal.disk, journal.moduleLocks, handle.record, handle.active)), InstallCalls(stages, exec), env)
  {
    hide DoCall;
    ghost var start := HandleState(journal.disk, journal.moduleLocks, handle.record, handle.active);
    for i := 0 to |stages|
      invariant HandleState(journal.disk, journal.moduleLocks, handle.record, handle.active)
             == DoCalls(start, Notes(stages)[..i], env)
    {
      Perform(journal, handle, Note(stages[i]), env, i + 1, start, Notes(stages)[..i]);
      assert Notes(stages)[..i + 1] == Notes(stages)[..i] + [Note(stages[i])];
    }
    assert Notes(stages)[..|stages|] == Notes(stages);
    Perform(journal, handle, InstallSettlement(exec), env, |stages| + 1, start, Notes(stages));
  }

  /** What the stream handler sends: a log line a stage, then a result or an error. */
  datatype StreamEvent = LogEvent(stage: Stage) | ResultEvent(result: ModuleResult) | ErrorEvent(result: ModuleResult, errorText: string)

  function StageLogs(stages: seq<Stage>): (events: seq<StreamEvent>)
    ensures |events| == |stages| && forall i :: 0 <= i < |stages| ==> events[i] == LogEvent(stages[i])
  {
    seq(|stages|, i requires 0 <= i < |stages| => LogEvent(stages[i]))
  }

  function FinalEvent(resp: Response): StreamEvent {
    if resp.ok then ResultEvent(resp.result) else ErrorEvent(resp.result, resp.errorText)
  }

  /** What the stream of a request behind a fresh begin carries: the stages in order, then the result or the redacted error. */
  predicate StreamAnswered(req: InstallRequest, stages: seq<Stage>, exec: Result<ModuleResult, string>, redact: string -> string,
                           events: seq<StreamEvent>)
  {
    && |events| == |stages| + 1 && (forall i :: 0 <= i < |stages| ==> events[i] == LogEvent(stages[i]))
    && (exec.Ok? ==> events[|stages|] == ResultEvent(exec.value))
    && (exec.Err? ==>
          var last := events[|stages|]; last.ErrorEvent? && InstallFailed(req, last.result) && last.errorText == redact(exec.error))
  }

  lemma {:induction false} StreamIsAnswered(req: InstallRequest, stages: seq<Stage>, exec: Result<ModuleResult, string>,
                                            redact: string -> string)
    ensures StreamAnswered(req, stages, exec, redact, StageLogs(stages) + [FinalEvent(InstallReply(req, exec, redact))])
  {
    hide TrimSpace;
  }

  /** `InstallModuleStream`: it leaves behind what the unary handler leaves, and ends with the event of its answer. */
  method InstallModuleStream(journal: OperationJournal, req: InstallRequest, env: Env, stages: seq<Stage>,
                             exec: Result<ModuleResult, string>, redact: string -> string) returns (events: seq<StreamEvent>)
    modifies journal
    ensures !SupportedVersion(req.apiVersion) ==>
      events == [ErrorEvent(FailedInstall(req), UNSUPPORTED)] && journal.Snapshot() == old(journal.Snapshot())
    ensures SupportedVersion(req.apiVersion) ==>
      && HandlerEffect(old(journal.Snapshot()), journal.Snapshot(), Install, req.module_, req.requestID, env, InstallCalls(stages, exec))
      && match BeginReplyOf(old(journal.Snapshot()), Install, req.module_, req.requestID, env)
         case Granted(_) => events == StageLogs(stages) + [FinalEvent(InstallReply(req, exec, redact))]
                            && StreamAnswered(req, stages, exec, redact, events)
         case Replayed(e) => events == [FinalEvent(ReplayInstall(req, e))]
         case Refused(why, _) =>
           events == [ErrorEvent(FailedInstall(req), RefusalText(why, req.module_, req.requestID, env.fault))]
  {
    hide BeginSpec, DoCalls, SupportedVersion, ReplayInstall, FailedInstall, RefusalText, StreamAnswered;
    if !SupportedVersion(req.apiVersion) {
      return [ErrorEvent(FailedInstall(req), UNSUPPORTED)];
    }
    var handle, replay, err := journal.BeginOperation(Install, req.module_, req.requestID, env.now(0), env.loadOk(0), env.saveOk(0));
    if err.Some? {
      return [ErrorEvent(FailedInstall(req), RefusalText(err.value, req.module_, req.requestID, env.fault))];
    }
    if replay.Some? {
      return [FinalEvent(ReplayInstall(req, replay.value))];
    }
    RunInstall(journal, handle, env, stages, exec);
    StreamIsAnswered(req, stages, exec, redact);
    return StageLogs(stages) + [FinalEvent(InstallReply(req, exec, redact))];
  }

  // ---------- restart ----------

  /** What the environment answers to a restart: installed record lookup (and its capability), systemctl, health. */
  datatype RestartWorld = RestartWorld(lookup: Result<Option<bool>, string>, restart: Option<string>, health: Option<string>)

  function RestartSettlement(req: ServiceRequest, w: RestartWorld): Outcome {
    if w.lookup.Err? then FailedWith(w.lookup.error)
    else if w.lookup.value == Some(false) then FailedWith(RESTART_FORBIDDEN)
    else if TrimSpace(req.serviceName) == "" then FailedWith(NO_SERVICE)
    else if w.restart.Some? then FailedWith(w.restart.value)
    else if w.health.Some? then FailedWith(w.health.value)
    else Succeeded(Some(ResultSnapshot("", TrimSpace(req.serviceName), "", "restarted", "healthy")))
  }

  function RestartCalls(req: ServiceRequest, w: RestartWorld): seq<Call> {
    (if w.lookup.Err? || w.lookup.value == Some(false) || TrimSpace(req.serviceName) == "" then []
     else if w.restart.Some? then [Note(Apply)]
     else [Note(Apply), Note(Healthcheck)])
    + [Settle(RestartSettlement(req, w))]
  }

  function RestartReply(req: ServiceRequest, w: RestartWorld): Response {
    match RestartSettlement(req, w)
    case FailedWith(text) => Response(false, FailedService(req.module_, req.serviceName), TrimSpace(text))
    case Succeeded(_) =>
      Response(true, ModuleResult(TrimSpace(req.module_), "", TrimSpace(req.serviceName), "", "restarted", "healthy"), "")
  }

  const RESTART_FORBIDDEN := "module restart is not allowed " + "by installed artifact capabilities"
  const UNINSTALL_FORBIDDEN := "module uninstall is not allowed " + "by installed artifact capabilities"
  const NO_SERVICE := "service_name is required"

  lemma {:induction false} PlainTexts()
    ensures TrimSpace(RESTART_FORBIDDEN) == RESTART_FORBIDDEN && TrimSpace(UNINSTALL_FORBIDDEN) == UNINSTALL_FORBIDDEN
    ensures TrimSpace(NO_SERVICE) == NO_SERVICE
  {
    var one, two, rest := "module restart is not allowed ", "module uninstall is not allowed ", "by installed artifact capabilities";
    assert |one| == 30 && |two| == 32 && |rest| == 34 && one[0] == 'm' && two[0] == 'm' && rest[33] == 's';
    assert RESTART_FORBIDDEN[0] == one[0] && RESTART_FORBIDDEN[63] == rest[33];
    assert UNINSTALL_FORBIDDEN[0] == two[0] && UNINSTALL_FORBIDDEN[65] == rest[33];
    TrimCleanText(RESTART_FORBIDDEN, IsSpace);
    TrimCleanText(UNINSTALL_FORBIDDEN, IsSpace);
    TrimCleanText(NO_SERVICE, IsSpace);
  }

  /** The module may be restarted or uninstalled: its record could be read, and does not forbid it. */
  predicate Allowed(lookup: Result<Option<bool>, string>) {
    lookup.Ok? && lookup.value != Some(false)
  }

  /**
    What a restart behind a fresh begin is told: success exactly if the module may be restarted, the service is named,
    and both the restart and the health check came back without an error; otherwise the first error in that order.
   */
  predicate RestartAnswered(req: ServiceRequest, w: RestartWorld, resp: Response) {
    var named := TrimSpace(req.serviceName) != "";
    && (resp.ok <==> Allowed(w.lookup) && named && w.restart.None? && w.health.None?)
    && (resp.ok ==>
          && resp.errorText == ""
          && resp.result == ModuleResult(TrimSpace(req.module_), "", TrimSpace(req.serviceName), "", "restarted", "healthy"))
    && (!resp.ok ==> ServiceFailed(req.module_, req.serviceName, resp.result))
    && (w.lookup.Err? ==> resp.errorText == TrimSpace(w.lookup.error))
    && (w.lookup == Ok(Some(false)) ==> resp.errorText == RESTART_FORBIDDEN)
    && (Allowed(w.lookup) && !named ==> resp.errorText == NO_SERVICE)
    && (Allowed(w.lookup) && named && w.restart.Some? ==> resp.errorText == TrimSpace(w.restart.value))
    && (Allowed(w.lookup) && named && w.restart.None? && w.health.Some? ==> resp.errorText == TrimSpace(w.health.value))
  }

  lemma {:induction false} RestartIsAnswered(req: ServiceRequest, w: RestartWorld)
    ensures RestartAnswered(req, w, RestartReply(req, w))
  {
    PlainTexts();
    hide TrimSpace;
  }

  method RestartModule(journal: OperationJournal, req: ServiceRequest, env: Env, w: RestartWorld) returns (resp: Response)
    modifies journal
    ensures !SupportedVersion(req.apiVersion) ==>
      && resp == Response(false, FailedService(req.module_, req.serviceName), UNSUPPORTED)
      && journal.Snapshot() == old(journal.Snapshot())
    ensures SupportedVersion(req.apiVersion) ==>
      && HandlerEffect(old(journal.Snapshot()), journal.Snapshot(), Restart, req.module_, req.requestID, env, RestartCalls(req, w))
      && match BeginReplyOf(old(journal.Snapshot()), Restart, req.module_, req.requestID, env)
         case Granted(_) => resp == RestartReply(req, w) && RestartAnswered(req, w, resp)
         case Replayed(e) => resp == ReplayService(req.module_, req.serviceName, e)
         case Refused(why, _) =>
           resp == Response(false, FailedService(req.module_, req.serviceName), RefusalText(why, req.module_, req.requestID, env.fault))
  {
    hide BeginSpec, DoCalls, SupportedVersion, ReplayService, FailedService, TrimSpace, RefusalText, RestartAnswered, RestartReply,
      UninstallAnswered, UninstallReply;
    var failed := FailedService(req.module_, req.serviceName);
    if !SupportedVersion(req.apiVersion) {
      return Response(false, failed, UNSUPPORTED);
    }
    var handle, replay, err := journal.BeginOperation(Restart, req.module_, req.requestID, env.now(0), env.loadOk(0), env.saveOk(0));
    if err.Some? {
      return Response(false, failed, RefusalText(err.value, req.module_, req.requestID, env.fault));
    }
    if replay.Some? {
      return ReplayService(req.module_, req.serviceName, replay.value);
    }
    ghost var start := HandleState(journal.disk, journal.moduleLocks, handle.record, handle.active);
    DoNothing(start, env);
    RestartIsAnswered(req, w);
    resp := RunRestart(journal, handle, req, env, w, start);
  }

  /** The part of the restart handler behind a fresh begin. */
  method RunRestart(journal: OperationJournal, handle: OperationHandle, req: ServiceRequest, env: Env, w: RestartWorld,
                    ghost start: HandleState) returns (resp: Response)
    requires HandleState(journal.disk, journal.moduleLocks, handle.record, handle.active) == start == DoCalls(start, [], env)
    modifies journal, handle
    ensures HandleState(journal.disk, journal.moduleLocks, handle.record, handle.active) == DoCalls(start, RestartCalls(req, w), env)
    ensures resp == RestartReply(req, w)
  {
    hide DoCalls, FailedService, TrimSpace;
    var failed := FailedService(req.module_, req.serviceName);
    var serviceName := TrimSpace(req.serviceName);
    var outcome := RestartSettlement(req, w);
    ghost var done: seq<Call> := [];
    if w.lookup.Err? || w.lookup.value == Some(false) || serviceName == "" {
      Perform(journal, handle, Settle(outcome), env, 1, start, done);
      return Response(false, failed, TrimSpace(outcome.text));
    }
    Perform(journal, handle, Note(Apply), env, 1, start, done);
    done := done + [Note(Apply)];
    assert done == [Note(Apply)];
    if w.restart.Some? {
      Perform(journal, handle, Settle(FailedWith(w.restart.value)), env, 2, start, done);
      return Response(false, failed, TrimSpace(w.restart.value));
    }
    Perform(journal, handle, Note(Healthcheck), env, 2, start, done);
    done := done + [Note(Healthcheck)];
    assert done == [Note(Apply), Note(Healthcheck)];
    if w.health.Some? {
      Perform(journal, handle, Settle(FailedWith(w.health.value)), env, 3, start, done);
      return Response(false, failed, TrimSpace(w.health.value));
    }
    Perform(journal, handle, Settle(Succeeded(Some(ResultSnapshot("", serviceName, "", "restarted", "healthy")))),
            env, 3, start, done);
    return Response(true, ModuleResult(TrimSpace(req.module_), "", serviceName, "", "restarted", "healthy"), "");
  }

  lemma {:induction false} DoNothing(h: HandleState, env: Env)
    ensures DoCalls(h, [], env) == h
  {
  }

  // ---------- uninstall ----------

  /** `removal` gives the error, if any, of the i-th removal; the same path may be removed twice with different outcomes. */
  datatype UninstallWorld = UninstallWorld(lookup: Result<Option<bool>, string>, unitRemoval: Option<string>,
                                           reload: Option<string>, removal: (nat, string) -> Option<string>, nginx: Option<string>)

  /** The paths the two removal loops visit, in order; blank ones are skipped. */
  function RemovalPaths(req: UninstallRequest): seq<string> {
    [req.binaryPath, req.envFilePath, req.nginxSitePath] + req.assetPaths
  }

  function RemovalError(req: UninstallRequest, w: UninstallWorld, i: nat): Option<string>
    requires i < |RemovalPaths(req)|
  {
    var path := TrimSpace(RemovalPaths(req)[i]);
    if path == "" then None else w.removal(i, path)
  }

  /** The error of the first removal that fails. */
  function FirstRemovalError(req: UninstallRequest, w: UninstallWorld, from: nat): (r: Option<string>)
    requires from <= |RemovalPaths(req)|
    ensures r.Some? <==> exists i :: from <= i < |RemovalPaths(req)| && RemovalError(req, w, i).Some?
    decreases |RemovalPaths(req)| - from
  {
    if from == |RemovalPaths(req)| then None
    else if RemovalError(req, w, from).Some? then RemovalError(req, w, from)
    else FirstRemovalError(req, w, from + 1)
  }

  predicate UninstallReachesRemoval(req: UninstallRequest, w: UninstallWorld) {
    && w.lookup.Ok? && w.lookup.value != Some(false) && TrimSpace(req.serviceName) != ""
    && w.unitRemoval.None? && w.reload.None?
  }

  /** One of the two exits that neither complete nor fail the operation. */
  predicate UninstallForgets(req: UninstallRequest, w: UninstallWorld) {
    UninstallReachesRemoval(req, w) && exists i :: 0 <= i < |RemovalPaths(req)| && RemovalError(req, w, i).Some?
  }

  function UninstallSettlement(req: UninstallRequest, w: UninstallWorld): Outcome {
    if w.lookup.Err? then FailedWith(w.lookup.error)
    else if w.lookup.value == Some(false) then FailedWith(UNINSTALL_FORBIDDEN)
    else if TrimSpace(req.serviceName) == "" then FailedWith(NO_SERVICE)
    else if w.unitRemoval.Some? then FailedWith(w.unitRemoval.value)
    else if w.reload.Some? then FailedWith(w.reload.value)
    else if TrimSpace(req.nginxSitePath) != "" && w.nginx.Some? then FailedWith(w.nginx.value)
    else Succeeded(Some(ResultSnapshot("", TrimSpace(req.serviceName), "", "uninstalled", "unknown")))
  }

  /** The two notes about stopping and disabling, and the note about nginx. */
  function UninstallNotes(req: UninstallRequest, w: UninstallWorld): seq<Call> {
    if w.lookup.Err? || w.lookup.value == Some(false) || TrimSpace(req.serviceName) == "" then []
    else if w.unitRemoval.None? && w.reload.None? && TrimSpace(req.nginxSitePath) != "" then
      [Note(Apply), Note(Apply), Note(Apply)]
    else [Note(Apply), Note(Apply)]
  }

  function UninstallCalls(req: UninstallRequest, w: UninstallWorld): seq<Call> {
    if UninstallForgets(req, w) then [Note(Apply), Note(Apply), Note(Apply)]
    else if w.lookup.Err? || w.lookup.value == Some(false) || TrimSpace(req.serviceName) == "" then
      [Settle(UninstallSettlement(req, w))]
    else
      UninstallNotes(req, w) + [Settle(UninstallSettlement(req, w))]
      + [Note(if UninstallSettlement(req, w).Succeeded? then Done else Apply)]
  }

  function UninstallReply(req: UninstallRequest, w: UninstallWorld): Response {
    var failed := FailedService(req.module_, req.serviceName);
    if UninstallForgets(req, w) then Response(false, failed, TrimSpace(FirstRemovalError(req, w, 0).value))
    else
      match UninstallSettlement(req, w)
      case FailedWith(text) => Response(false, failed, TrimSpace(text))
      case Succeeded(_) =>
        Response(true, ModuleResult(TrimSpace(req.module_), "", TrimSpace(req.serviceName), "", "uninstalled", "unknown"), "")
  }

  /** Removal `i` of the three named paths and the assets after them; a blank path is skipped. */
  predicate RemovalWorks(req: UninstallRequest, w: UninstallWorld, i: nat)
    requires i < 3 + |req.assetPaths|
  {
    var path := TrimSpace(([req.binaryPath, req.envFilePath, req.nginxSitePath] + req.assetPaths)[i]);
    path == "" || w.removal(i, path).None?
  }

  predicate AllRemoved(req: UninstallRequest, w: UninstallWorld) {
    forall i :: 0 <= i < 3 + |req.assetPaths| ==> RemovalWorks(req, w, i)
  }

  /** The error of the first removal that does not work. */
  predicate FirstToFail(req: UninstallRequest, w: UninstallWorld, i: nat, text: string)
    requires i < 3 + |req.assetPaths|
  {
    var path := TrimSpace(([req.binaryPath, req.envFilePath, req.nginxSitePath] + req.assetPaths)[i]);
    && !RemovalWorks(req, w, i) && (forall j :: 0 <= j < i ==> RemovalWorks(req, w, j))
    && path != "" && w.removal(i, path) == Some(text)
  }

  /**
    What an uninstall behind a fresh begin is told: success exactly if the module may be uninstalled, the service is named,
    and unit removal, reload, every path removal and, for a named site, nginx came back without an error; otherwise the
    first error in that order.
   */
  ghost predicate UninstallAnswered(req: UninstallRequest, w: UninstallWorld, resp: Response) {
    var named := TrimSpace(req.serviceName) != "";
    var unitGone := Allowed(w.lookup) && named && w.unitRemoval.None? && w.reload.None?;
    && (resp.ok <==> unitGone && AllRemoved(req, w) && (TrimSpace(req.nginxSitePath) != "" ==> w.nginx.None?))
    && (resp.ok ==>
          && resp.errorText == ""
          && resp.result == ModuleResult(TrimSpace(req.module_), "", TrimSpace(req.serviceName), "", "uninstalled", "unknown"))
    && (!resp.ok ==> ServiceFailed(req.module_, req.serviceName, resp.result))
    && (w.lookup.Err? ==> resp.errorText == TrimSpace(w.lookup.error))
    && (w.lookup == Ok(Some(false)) ==> resp.errorText == UNINSTALL_FORBIDDEN)
    && (Allowed(w.lookup) && !named ==> resp.errorText == NO_SERVICE)
    && (Allowed(w.lookup) && named && w.unitRemoval.Some? ==> resp.errorText == TrimSpace(w.unitRemoval.value))
    && (Allowed(w.lookup) && named && w.unitRemoval.None? && w.reload.Some? ==> resp.errorText == TrimSpace(w.reload.value))
    && (unitGone && !AllRemoved(req, w) ==>
          exists i, text :: 0 <= i < 3 + |req.assetPaths| && FirstToFail(req, w, i, text) && resp.errorText == TrimSpace(text))
    && (unitGone && AllRemoved(req, w) && TrimSpace(req.nginxSitePath) != "" && w.nginx.Some? ==>
          resp.errorText == TrimSpace(w.nginx.value))
  }

  lemma {:induction false} RemovalIsError(req: UninstallRequest, w: UninstallWorld, i: nat)
    requires i < 3 + |req.assetPaths|
    ensures |RemovalPaths(req)| == 3 + |req.assetPaths| && (RemovalWorks(req, w, i) <==> RemovalError(req, w, i).None?)
  {
    hide TrimSpace;
  }

  lemma {:induction false} FirstErrorFrom(req: UninstallRequest, w: UninstallWorld, from: nat) returns (i: nat)
    requires from <= 3 + |req.assetPaths| == |RemovalPaths(req)|
    requires FirstRemovalError(req, w, from).Some? && forall j :: 0 <= j < from ==> RemovalWorks(req, w, j)
    ensures i < 3 + |req.assetPaths| && FirstToFail(req, w, i, FirstRemovalError(req, w, from).value)
    decreases |RemovalPaths(req)| - from
  {
    hide TrimSpace, RemovalWorks;
    RemovalStep(req, w, from);
    RemovalIsError(req, w, from);
    if RemovalError(req, w, from).Some? {
      i := from;
    } else {
      i := FirstErrorFrom(req, w, from + 1);
    }
  }

  /** An uninstall forgets to settle exactly if it comes to the path removals and one of them fails. */
  lemma {:induction false} ForgetsIfStuck(req: UninstallRequest, w: UninstallWorld)
    ensures UninstallForgets(req, w) <==>
      && Allowed(w.lookup) && TrimSpace(req.serviceName) != "" && w.unitRemoval.None? && w.reload.None?
      && !AllRemoved(req, w)
  {
    hide TrimSpace, RemovalWorks, RemovalError, RemovalPaths;
    forall i | 0 <= i < 3 + |req.assetPaths|
      ensures |RemovalPaths(req)| == 3 + |req.assetPaths| && (RemovalWorks(req, w, i) <==> RemovalError(req, w, i).None?)
    {
      RemovalIsError(req, w, i);
    }
    RemovalIsError(req, w, 0);
  }

  lemma {:induction false} UninstallIsAnswered(req: UninstallRequest, w: UninstallWorld)
    ensures UninstallAnswered(req, w, UninstallReply(req, w))
  {
    PlainTexts();
    hide TrimSpace, RemovalWorks, RemovalError, RemovalPaths, FirstRemovalError, FirstToFail;
    ForgetsIfStuck(req, w);
    RemovalIsError(req, w, 0);
    if UninstallForgets(req, w) {
      var i := FirstErrorFrom(req, w, 0);
    }
  }

  method UninstallModule(journal: OperationJournal, req: UninstallRequest, env: Env, w: UninstallWorld) returns (resp: Response)
    modifies journal
    ensures !SupportedVersion(req.apiVersion) ==>
      && resp == Response(false, FailedService(req.module_, req.serviceName), UNSUPPORTED)
      && journal.Snapshot() == old(journal.Snapshot())
    ensures SupportedVersion(req.apiVersion) ==>
      && HandlerEffect(old(journal.Snapshot()), journal.Snapshot(), Uninstall, req.module_, req.requestID, env, UninstallCalls(req, w))
      && match BeginReplyOf(old(journal.Snapshot()), Uninstall, req.module_, req.requestID, env)
         case Granted(_) => resp == UninstallReply(req, w) && UninstallAnswered(req, w, resp)
         case Replayed(e) => resp == ReplayService(req.module_, req.serviceName, e)
         case Refused(why, _) =>
           resp == Response(false, FailedService(req.module_, req.serviceName), RefusalText(why, req.module_, req.requestID, env.fault))
  {
    hide BeginSpec, DoCalls, SupportedVersion, ReplayService, FailedService, TrimSpace, RefusalText, RestartAnswered, RestartReply,
      UninstallAnswered, UninstallReply;
    var failed := FailedService(req.module_, req.serviceName);
    if !SupportedVersion(req.apiVersion) {
      return Response(false, failed, UNSUPPORTED);
    }
    var handle, replay, err := journal.BeginOperation(Uninstall, req.module_, req.requestID, env.now(0), env.loadOk(0), env.saveOk(0));
    if err.Some? {
      return Response(false, failed, RefusalText(err.value, req.module_, req.requestID, env.fault));
    }
    if replay.Some? {
      return ReplayService(req.module_, req.serviceName, replay.value);
    }
    ghost var start := HandleState(journal.disk, journal.moduleLocks, handle.record, handle.active);
    DoNothing(start, env);
    UninstallIsAnswered(req, w);
    resp := RunUninstall(journal, handle, req, env, w, start);
  }

  lemma {:induction false} RemovalStep(req: UninstallRequest, w: UninstallWorld, i: nat)
    requires i < |RemovalPaths(req)|
    ensures FirstRemovalError(req, w, i)
         == if RemovalError(req, w, i).Some? then RemovalError(req, w, i) else FirstRemovalError(req, w, i + 1)
  {
    hide RemovalPaths;
  }

  /** The part of the uninstall handler behind a fresh begin. */
  method RunUninstall(journal: OperationJournal, handle: OperationHandle, req: UninstallRequest, env: Env, w: UninstallWorld,
                      ghost start: HandleState) returns (resp: Response)
    requires HandleState(journal.disk, journal.moduleLocks, handle.record, handle.active) == start == DoCalls(start, [], env)
    modifies journal, handle
    ensures HandleState(journal.disk, journal.moduleLocks, handle.record, handle.active)
         == DoCalls(start, UninstallCalls(req, w), env)
    ensures resp == UninstallReply(req, w)
  {
    hide DoCalls, FailedService, TrimSpace, RemovalError, FirstRemovalError;
    var failed := FailedService(req.module_, req.serviceName);
    var serviceName := TrimSpace(req.serviceName);
    ghost var done: seq<Call> := [];
    if w.lookup.Err? || w.lookup.value == Some(false) || serviceName == "" {
      var outcome := UninstallSettlement(req, w);
      Perform(journal, handle, Settle(outcome), env, 1, start, done);
      assert done + [Settle(outcome)] == UninstallCalls(req, w);
      return Response(false, failed, TrimSpace(outcome.text));
    }
    Perform(journal, handle, Note(Apply), env, 1, start, done);
    done := done + [Note(Apply)];
    Perform(journal, handle, Note(Apply), env, 2, start, done);
    done := done + [Note(Apply)];
    assert done == [Note(Apply), Note(Apply)];
    if w.unitRemoval.Some? || w.reload.Some? {
      var outcome := UninstallSettlement(req, w);
      Perform(journal, handle, Settle(outcome), env, 3, start, done);
      Perform(journal, handle, Note(Apply), env, 4, start, done + [Settle(outcome)]);
      return Response(false, failed, TrimSpace(outcome.text));
    }
    var paths := RemovalPaths(req);
    for i := 0 to |paths|
      invariant forall j :: 0 <= j < i ==> RemovalError(req, w, j).None?
      invariant FirstRemovalError(req, w, 0) == FirstRemovalError(req, w, i)
      invariant HandleState(journal.disk, journal.moduleLocks, handle.record, handle.active) == DoCalls(start, done, env)
    {
      RemovalStep(req, w, i);
      var failure := RemovalError(req, w, i);
      if failure.Some? {
        Perform(journal, handle, Note(Apply), env, 3, start, done);
        assert done + [Note(Apply)] == [Note(Apply), Note(Apply), Note(Apply)];
        return Response(false, failed, TrimSpace(failure.value));
      }
    }
    var k := 3;
    if TrimSpace(req.nginxSitePath) != "" {
      Perform(journal, handle, Note(Apply), env, k, start, done);
      k := 4;
      done := done + [Note(Apply)];
    }
    assert done == UninstallNotes(req, w);
    var outcome := UninstallSettlement(req, w);
    Perform(journal, handle, Settle(outcome), env, k, start, done);
    Perform(journal, handle, Note(if outcome.Succeeded? then Done else Apply), env, k + 1, start, done + [Settle(outcome)]);
    return if outcome.Succeeded?
           then Response(true, ModuleResult(TrimSpace(req.module_), "", serviceName, "", "uninstalled", "unknown"), "")
           else Response(false, failed, TrimSpace(outcome.text));
  }
}
