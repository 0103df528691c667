/** A saved completion answers its request for good, in every later state of every run, for every module name. */
module OperationReplay {
  import opened GoStrings
  import opened ModuleNames
  import opened Outcomes
  import opened OperationRecords
  import opened OperationProtocol
  import opened OperationOnce
  import opened OperationFrozen
  import opened RpcService
  import opened HandlerExits

  /** Step `k` of the run is goroutine `t` settling its operation, with a load and a save that work. */
  predicate SettlesAt(steps: seq<Step>, k: nat, t: nat, outcome: Outcome, now: nat) {
    k < |steps| && steps[k] == Finish(t, outcome, now, true, true)
  }

  lemma {:induction false} EnabledThere(steps: seq<Step>, k: nat)
    requires ValidRun(INITIAL, steps) && k < |steps|
    ensures ValidRun(INITIAL, steps[..k]) && Enabled(FinalState(INITIAL, steps[..k]), steps[k])
    ensures ValidRun(INITIAL, steps[..k + 1]) && FinalState(INITIAL, steps[..k + 1]) == After(FinalState(INITIAL, steps[..k]), steps[k])
  {
    hide Ripens, Enabled, After;
    RecordsOnlyRipen(steps, k + 1);
    var some := steps[..k + 1];
    assert some[..|some| - 1] == steps[..k] && some[|some| - 1] == steps[k];
  }

  /** The request id of the operation that is settled at step `k`. */
  function SettledId(steps: seq<Step>, k: nat, t: nat): string
    requires ValidRun(INITIAL, steps) && k < |steps| && steps[k].Finish? && steps[k].t == t
  {
    EnabledThere(steps, k);
    FinalState(INITIAL, steps[..k]).threads[t].held.requestID
  }

  lemma {:induction false} FinishSettles(s: State, t: nat, outcome: Outcome, now: nat)
    requires FrozenInv(s) && t in s.threads && s.threads[t].Active?
    ensures var (e, _) := RewriteSpec(s.disk, s.threads[t].held, ToOutcome(outcome), now, true, true);
      KnownAs(e, s.threads[t].held.requestID, outcome)
  {
    hide FindRequest, TrimSpace, NormalizeModuleName, NormalizeRecord, UniqueIds, MutexOk, GrantsOk, PendingOk, DistinctIds, NearCanonical, Tells;
    var held := s.threads[t].held;
    var id := held.requestID;
    assert HandleFine(s.disk, s.threads[t]);
    RewriteKeepsIds(s.disk, held, ToOutcome(outcome), now, true, true);
    var e := RewriteSpec(s.disk, held, ToOutcome(outcome), now, true, true).0;
    SameIdsSameAnswers(s.disk, e);
    NormalizeKeepsIds(s.disk);
    SameIdsSameAnswers(s.disk, NormalizeAll(s.disk));
    var i := FindRequest(s.disk, id);
    NearIsOpen(s.disk[i]);
    OpenStays(s.disk[i]);
    SettledTells(NormalizeAll(s.disk)[i], outcome, now);
  }

  /**
    Once a settlement is saved, every later begin with that request id, for any action and any named module, is a
    replay of that outcome, whatever other requests, failures, crashes and restarts the run has seen since.
   */
  lemma {:induction false} OutcomeAnswersForGood(steps: seq<Step>, k: nat, t: nat, outcome: Outcome, at: nat,
                                                 action: Action, rawModule: string, rawID: string, now: nat, saveOk: bool)
    requires ValidRun(INITIAL, steps) && SettlesAt(steps, k, t, outcome, at)
    requires TrimSpace(rawID) == SettledId(steps, k, t) != "" && NormalizeModuleName(rawModule) != ""
    ensures var s := FinalState(INITIAL, steps);
      var (after, reply) := BeginSpec(JournalState(s.disk, s.locks), action, rawModule, rawID, now, true, saveOk);
      after == JournalState(s.disk, s.locks) && reply.Replayed? && Tells(reply.existing, outcome)
  {
    hide TrimSpace, NormalizeModuleName, BeginSpec, FrozenInv, Ripens, KnownAs, RewriteSpec, ValidRun, FinalState, Tells;
    EnabledThere(steps, k);
    RunKeepsFrozen(steps[..k]);
    var s := FinalState(INITIAL, steps[..k]);
    FinishSettles(s, t, outcome, at);
    RecordsOnlyRipen(steps, k + 1);
    var last := FinalState(INITIAL, steps);
    OutcomeIsReplayed(After(s, steps[k]).disk, JournalState(last.disk, last.locks), TrimSpace(rawID), outcome,
                      action, rawModule, rawID, now, saveOk);
  }

  /** An install is answered as the first time for good. */
  lemma {:induction false} InstallAnswersForGood(steps: seq<Step>, k: nat, t: nat, at: nat, req: InstallRequest, r: ModuleResult,
                                                 again: InstallRequest, now: nat, saveOk: bool, redact: string -> string)
    requires ValidRun(INITIAL, steps) && SettlesAt(steps, k, t, Succeeded(Some(SnapshotOf(r))), at) && EngineResult(req, r)
    requires TrimSpace(again.requestID) == SettledId(steps, k, t) != ""
    requires TrimSpace(again.module_) == TrimSpace(req.module_) && NormalizeModuleName(again.module_) != ""
    ensures var s := FinalState(INITIAL, steps);
      InstallRepeats(JournalState(s.disk, s.locks), again, now, saveOk, InstallReply(req, Ok(r), redact))
  {
    hide TrimSpace, NormalizeModuleName, BeginSpec, ReplayInstall, InstallReply, EngineResult, ValidRun, FinalState, SettledId,
      Tells;
    OutcomeAnswersForGood(steps, k, t, Succeeded(Some(SnapshotOf(r))), at, Install, again.module_, again.requestID, now, saveOk);
    var s := FinalState(INITIAL, steps);
    var existing := BeginSpec(JournalState(s.disk, s.locks), Install, again.module_, again.requestID, now, true, saveOk).1.existing;
    InstallAnswerSurvives(req, again, r, existing, redact);
  }

  /** A restart or an uninstall is answered as the first time for good. */
  lemma {:induction false} ServiceAnswersForGood(steps: seq<Step>, k: nat, t: nat, at: nat, action: Action, module_: string,
                                                 serviceName: string, status: string, health: string, again: string,
                                                 requestID: string, name: string, now: nat, saveOk: bool)
    requires (status == "restarted" && health == "healthy") || (status == "uninstalled" && health == "unknown")
    requires TrimSpace(serviceName) != "" && ValidRun(INITIAL, steps)
    requires SettlesAt(steps, k, t, Succeeded(Some(ResultSnapshot("", TrimSpace(serviceName), "", status, health))), at)
    requires TrimSpace(requestID) == SettledId(steps, k, t) != ""
    requires TrimSpace(again) == TrimSpace(module_) && NormalizeModuleName(again) != ""
    ensures var s := FinalState(INITIAL, steps);
      ServiceRepeats(JournalState(s.disk, s.locks), action, again, requestID, name, now, saveOk,
                     Response(true, ModuleResult(TrimSpace(module_), "", TrimSpace(serviceName), "", status, health), ""))
  {
    hide TrimSpace, NormalizeModuleName, BeginSpec, ReplayService, ValidRun, FinalState, SettledId, Tells;
    var snapshot := ResultSnapshot("", TrimSpace(serviceName), "", status, health);
    OutcomeAnswersForGood(steps, k, t, Succeeded(Some(snapshot)), at, action, again, requestID, now, saveOk);
    var s := FinalState(INITIAL, steps);
    var existing := BeginSpec(JournalState(s.disk, s.locks), action, again, requestID, now, true, saveOk).1.existing;
    ServiceAnswerSurvives(module_, serviceName, again, status, health, existing);
  }

  /**
    A failed install is answered for good with the error the journal keeps. That is the first answer exactly if the
    second redaction of the error only trims it.
   */
  lemma {:induction false} FailedInstallAnswersForGood(steps: seq<Step>, k: nat, t: nat, at: nat, req: InstallRequest,
                                                       text: string,
                                                       again: InstallRequest, now: nat, saveOk: bool, redact: string -> string)
    requires ValidRun(INITIAL, steps) && SettlesAt(steps, k, t, FailedWith(text), at)
    requires TrimSpace(again.requestID) == SettledId(steps, k, t) != "" && NormalizeModuleName(again.module_) != ""
    requires TrimSpace(again.module_) == TrimSpace(req.module_) && TrimSpace(again.version) == TrimSpace(req.version)
    ensures var s := FinalState(INITIAL, steps);
      && InstallRepeats(JournalState(s.disk, s.locks), again, now, saveOk, Response(false, FailedInstall(req), TrimSpace(text)))
      && (InstallRepeats(JournalState(s.disk, s.locks), again, now, saveOk, InstallReply(req, Err(text), redact))
          <==> redact(text) == TrimSpace(text))
  {
    hide TrimSpace, NormalizeModuleName, BeginSpec, ReplayInstall, InstallReply, ValidRun, FinalState, SettledId, Tells, FailedInstall;
    OutcomeAnswersForGood(steps, k, t, FailedWith(text), at, Install, again.module_, again.requestID, now, saveOk);
    var s := FinalState(INITIAL, steps);
    var existing := BeginSpec(JournalState(s.disk, s.locks), Install, again.module_, again.requestID, now, true, saveOk).1.existing;
    FailedInstallReplays(req, again, text, existing, redact);
  }

  /** A failed restart or uninstall is answered as the first time for good. */
  lemma {:induction false} FailedServiceAnswersForGood(steps: seq<Step>, k: nat, t: nat, at: nat, action: Action, module_: string,
                                                       serviceName: string, text: string, again: string, requestID: string,
                                                       name: string, now: nat, saveOk: bool)
    requires ValidRun(INITIAL, steps) && SettlesAt(steps, k, t, FailedWith(text), at)
    requires TrimSpace(requestID) == SettledId(steps, k, t) != "" && NormalizeModuleName(again) != ""
    requires TrimSpace(again) == TrimSpace(module_) && TrimSpace(name) == TrimSpace(serviceName)
    ensures var s := FinalState(INITIAL, steps);
      ServiceRepeats(JournalState(s.disk, s.locks), action, again, requestID, name, now, saveOk,
                     Response(false, FailedService(module_, serviceName), TrimSpace(text)))
  {
    hide TrimSpace, NormalizeModuleName, BeginSpec, ReplayService, ValidRun, FinalState, SettledId, Tells, FailedService;
    OutcomeAnswersForGood(steps, k, t, FailedWith(text), at, action, again, requestID, now, saveOk);
    var s := FinalState(INITIAL, steps);
    var existing := BeginSpec(JournalState(s.disk, s.locks), action, again, requestID, now, true, saveOk).1.existing;
    FailedServiceReplays(module_, serviceName, again, name, text, existing);
  }

  // ---------- interrupted requests ----------

  function StateBefore(steps: seq<Step>, k: nat): State
    requires ValidRun(INITIAL, steps) && k < |steps|
  {
    EnabledThere(steps, k);
    FinalState(INITIAL, steps[..k])
  }

  predicate ToldInterrupted(r: OperationRecord) {
    r.status == Interrupted && r.result == None && r.errorText == RESTART_ERROR
  }

  lemma {:induction false} InterruptTells(r: OperationRecord, now: nat)
    requires Open(r)
    ensures ToldInterrupted(NormalizeRecord(Interrupt(NormalizeRecord(r), now)))
  {
    hide NormalizeModuleName;
    RestartErrorTrimmed();
    EmptyStays();
  }

  lemma {:induction false} RestartErrorTrimmed()
    ensures TrimSpace(RESTART_ERROR) == RESTART_ERROR
  {
    assert |RESTART_ERROR| == 42 && RESTART_ERROR[0] == 'a' && RESTART_ERROR[41] == 'd';
    TrimCleanText(RESTART_ERROR, IsSpace);
  }

  lemma {:induction false} ToldOn(r: OperationRecord)
    requires ToldInterrupted(r)
    ensures ToldInterrupted(NormalizeRecord(r))
  {
    hide NormalizeModuleName;
    RestartErrorTrimmed();
  }

  lemma {:induction false} UniqueFound(d: seq<OperationRecord>, i: nat)
    requires IdsTrimmed(d) && UniqueIds(d) && i < |d|
    ensures FindRequest(d, d[i].requestID) == i
  {
    hide TrimSpace, FindRequest;
    var k := FindRequest(d, d[i].requestID);
    assert TrimSpace(d[i].requestID) == d[i].requestID && TrimSpace(d[k].requestID) == d[k].requestID;
  }

  /** A request that a restart has interrupted is told so for good. */
  lemma {:induction false} InterruptionAnswersForGood(steps: seq<Step>, k: nat, at: nat, i: nat, action: Action,
                                                      rawModule: string,
                                                      rawID: string, now: nat, saveOk: bool)
    requires ValidRun(INITIAL, steps) && k < |steps| && steps[k] == Reboot(at, true, true)
    requires i < |StateBefore(steps, k).disk| && StateBefore(steps, k).disk[i].status == Running
    requires TrimSpace(rawID) == StateBefore(steps, k).disk[i].requestID != "" && NormalizeModuleName(rawModule) != ""
    ensures var s := FinalState(INITIAL, steps);
      var (after, reply) := BeginSpec(JournalState(s.disk, s.locks), action, rawModule, rawID, now, true, saveOk);
      after == JournalState(s.disk, s.locks) && reply.Replayed? && ToldInterrupted(reply.existing)
  {
    hide TrimSpace, NormalizeModuleName, BeginSpec, Ripens, ValidRun, FinalState, FindRequest, ToldInterrupted, NormalizeRecord, Interrupt,
      MutexOk, GrantsOk, PendingOk, DistinctIds, HandleFine, UniqueIds, IdsTrimmed, NearCanonical;
    EnabledThere(steps, k);
    RunKeepsFrozen(steps[..k]);
    var d := StateBefore(steps, k).disk;
    NearIsOpen(d[i]);
    InterruptTells(d[i], at);
    UniqueFound(d, i);
    InterruptKeepsIds(d, at);
    var e := After(StateBefore(steps, k), steps[k]).disk;
    SameIdsSameAnswers(d, e);
    RecordsOnlyRipen(steps, k + 1);
    var last := FinalState(INITIAL, steps);
    ToldStays(e, last.disk, TrimSpace(rawID));
    var r := last.disk[i];
    ReplayIgnoresActionAndModule(JournalState(last.disk, last.locks), action, rawModule, rawID, now, saveOk);
    ToldOn(r);
    ToldOn(NormalizeRecord(r));
  }

  lemma {:induction false} ToldStays(d: seq<OperationRecord>, e: seq<OperationRecord>, id: string)
    requires Ripens(d, e) && FindRequest(d, id) >= 0 && ToldInterrupted(d[FindRequest(d, id)])
    ensures FindRequest(e, id) == FindRequest(d, id) && ToldInterrupted(e[FindRequest(e, id)])
    ensures e[FindRequest(e, id)].status != Running
  {
    hide NormalizeModuleName, TrimSpace, FindRequest;
    RipeFound(d, e, id);
    var i := FindRequest(d, id);
    assert RipensTo(d[i], e[i]);
  }
}
