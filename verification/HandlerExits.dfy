/** What the handlers of RpcService.dfy leave behind on every exit, and what a repeated request is told. */
module HandlerExits {
  import opened GoStrings
  import opened ModuleNames
  import opened Outcomes
  import opened OperationRecords
  import opened RpcService

  /**
    The handle of the lock on `m` for request `id`, and its record in the journal. Both carry `m` itself if it is
    settled; otherwise each load and save shortens the name they carry.
   */
  predicate Held(h: HandleState, m: string, id: string) {
    && TrimSpace(id) == id && Shrinking(m)
    && LeadsTo(m, h.held.module_) && h.held.requestID == id
    && var i := FindRequest(h.disk, id); i >= 0 && LeadsTo(m, h.disk[i].module_)
  }

  function OwnRecord(h: HandleState, id: string): OperationRecord
    requires FindRequest(h.disk, id) >= 0
  {
    h.disk[FindRequest(h.disk, id)]
  }

  lemma {:induction false} FindAfterUpdate(d: seq<OperationRecord>, k: nat, r: OperationRecord, id: string)
    requires k < |d| && r.requestID == d[k].requestID
    ensures FindRequest(d[k := r], id) == FindRequest(d, id)
  {
    hide FindRequest, TrimSpace;
    var e := d[k := r];
    assert forall i :: 0 <= i < |d| ==> e[i].requestID == d[i].requestID;
  }

  /** One rewrite through the handle, for any journal content around the record. */
  lemma {:induction false} RewriteHeld(h: HandleState, m: string, id: string, w: Rewrite, now: nat, loadOk: bool, saveOk: bool)
    requires Held(h, m, id) && Open(OwnRecord(h, id))
    ensures var (disk, held) := RewriteSpec(h.disk, h.held, w, now, loadOk, saveOk);
      && Held(h.(disk := disk, held := held), m, id)
      && FindRequest(disk, id) == FindRequest(h.disk, id)
      && (w.ToStage? ==> Open(disk[FindRequest(disk, id)]))
      && (w.ToOutcome? && loadOk && saveOk ==> Tells(disk[FindRequest(disk, id)], w.outcome))
  {
    hide FindRequest, NormalizeModuleName, NormalizeResult, TrimSpace, NormalizeRecord, Rewritten, LeadsTo, Shrinking, Open, Tells;
    FindAfterLoad(h.disk, id);
    var records := NormalizeAll(h.disk);
    var i := FindRequest(records, id);
    var r := Rewritten(records[i], w, now);
    RewrittenShape(h.disk[i], m, w, now);
    FindAfterUpdate(records, i, r, id);
    FindAfterLoad(records[i := r], id);
  }

  lemma {:induction false} RewrittenShape(r: OperationRecord, m: string, w: Rewrite, now: nat)
    requires Open(r) && LeadsTo(m, r.module_) && Shrinking(m)
    ensures var once := NormalizeRecord(r);
      var out := Rewritten(once, w, now);
      && out.requestID == once.requestID && NormalizeRecord(out).requestID == TrimSpace(TrimSpace(r.requestID))
      && LeadsTo(m, NormalizeRecord(out).module_)
      && (w.ToStage? ==> Open(NormalizeRecord(out)))
      && (w.ToOutcome? ==> Tells(NormalizeRecord(out), w.outcome))
  {
    hide NormalizeModuleName, TrimSpace, NormalizeResult, LeadsTo, Shrinking;
    LeadsOn(m, r.module_);
    LeadsOn(m, NormalizeModuleName(r.module_));
    OpenStays(r);
    match w
    case ToStage(stage) => OpenStays(Rewritten(NormalizeRecord(r), w, now));
    case ToOutcome(outcome) => SettledTells(NormalizeRecord(r), outcome, now);
  }

  /**
    The lock table after a release meant for `m`: without `m` if that name is settled; otherwise the entry of `m`
    stays, and so does every entry of another request.
   */
  predicate Released(before: map<string, string>, after: map<string, string>, m: string, id: string) {
    if NormalizeModuleName(m) == m then after == before - {m}
    else
      && after.Keys <= before.Keys && (forall k :: k in after ==> after[k] == before[k])
      && forall k :: k in before && (k == m || TrimSpace(before[k]) != id) ==> k in after
  }

  lemma {:induction false} ReleaseReleases(locks: map<string, string>, m: string, id: string, name: string)
    requires Shrinking(m) && LeadsTo(m, name) && TrimSpace(id) == id && m != "" && m in locks && locks[m] == id
    ensures Released(locks, ReleaseLock(locks, name, id), m, id)
  {
    hide NormalizeModuleName, TrimSpace, Shrinking;
    LeadsOn(m, name);
  }

  lemma {:induction false} CallHeld(h: HandleState, m: string, id: string, c: Call, env: Env, k: nat)
    requires StartOk(h, m, id)
    ensures var h' := DoCall(h, c, env, k);
      && Held(h', m, id)
      && (c.Note? ==> h'.active && h'.locks == h.locks && Open(OwnRecord(h', id)))
      && (c.Settle? ==> !h'.active && Released(h.locks, h'.locks, m, id))
      && (c.Settle? && env.loadOk(k) && env.saveOk(k) ==> Tells(OwnRecord(h', id), c.outcome))
  {
    hide FindRequest, NormalizeModuleName, TrimSpace, RewriteSpec, NormalizeRecord, Tells, Open, Released, ReleaseLock, LeadsTo, Shrinking;
    match c
    case Note(stage) => RewriteHeld(h, m, id, ToStage(stage), env.now(k), env.loadOk(k), env.saveOk(k));
    case Settle(outcome) =>
      RewriteHeld(h, m, id, ToOutcome(outcome), env.now(k), env.loadOk(k), env.saveOk(k));
      ReleaseReleases(h.locks, m, id, DoCall(h, c, env, k).held.module_);
  }

  predicate StartOk(h: HandleState, m: string, id: string) {
    Held(h, m, id) && h.active && Open(OwnRecord(h, id)) && m in h.locks && h.locks[m] == id && m != ""
  }

  /** The handle after any list of calls: inactive and released exactly if one of them settled it. */
  lemma {:induction false} CallsHeld(h: HandleState, m: string, id: string, calls: seq<Call>, env: Env)
    requires StartOk(h, m, id)
    ensures var h' := DoCalls(h, calls, env);
      && Held(h', m, id)
      && h'.active == !Settles(calls)
      && (if Settles(calls) then Released(h.locks, h'.locks, m, id) else h'.locks == h.locks)
      && (!Settles(calls) ==> Open(OwnRecord(h', id)))
    decreases |calls|
  {
    hide Held, DoCall, FindRequest, Open, Released;
    if calls != [] {
      var before, last := calls[..|calls| - 1], calls[|calls| - 1];
      CallsHeld(h, m, id, before, env);
      assert Settles(calls) <==> Settles(before) || last.Settle? by {
        if Settles(before) {
          var i :| 0 <= i < |before| && before[i].Settle?;
          assert calls[i].Settle?;
        }
        if last.Settle? {
          assert calls[|calls| - 1].Settle?;
        }
      }
      var mid := DoCalls(h, before, env);
      if Settles(before) {
        InactiveIgnores(mid, last, env, |calls|);
      } else {
        CallHeld(mid, m, id, last, env, |calls|);
      }
    }
  }

  lemma {:induction false} InactiveIgnores(h: HandleState, c: Call, env: Env, k: nat)
    requires !h.active
    ensures DoCall(h, c, env, k) == h
  {
  }

  /** A granted begin leaves its record and its lock. */
  lemma {:induction false} GrantedStart(s: JournalState, action: Action, rawModule: string, rawID: string, now: nat,
                                        loadOk: bool, saveOk: bool)
    requires BeginSpec(s, action, rawModule, rawID, now, loadOk, saveOk).1.Granted?
    ensures var (begun, reply) := BeginSpec(s, action, rawModule, rawID, now, loadOk, saveOk);
      var (m, id) := (LockKey(rawModule), TrimSpace(rawID));
      && StartOk(HandleState(begun.disk, begun.locks, reply.record, true), m, id)
      && begun.locks == s.locks[m := id]
      && var own := begun.disk[FindRequest(begun.disk, id)]; own.action == action && own.module_ == NormalizeModuleName(m) && own.stage == Validate
  {
    hide NormalizeModuleName, TrimSpace, FindRequest, NormalizeResult, ModuleBusy, NormalizeRecord, NewRecord, LeadsTo, Shrinking, Open;
    TrimSpaceIdempotent(rawID);
    var m, id := NormalizeModuleName(rawModule), TrimSpace(rawID);
    var records := NormalizeAll(s.disk);
    var r := NewRecord(action, m, id, now);
    NewRecordShape(action, m, id, now);
    NormalizedShrinks(m);
    KeyLeads(LockKey(rawModule));
    FindAfterLoad(records + [r], id);
    FindAppended(records, r, id);
    NormalizeShape(r);
    OpenStays(r);
  }

  lemma {:induction false} KeyLeads(m: string)
    requires Shrinking(m)
    ensures LeadsTo(m, m) && LeadsTo(m, NormalizeModuleName(m))
  {
    hide NormalizeModuleName;
  }

  lemma {:induction false} NewRecordShape(action: Action, m: string, id: string, now: nat)
    ensures var r := NewRecord(action, m, id, now);
      r.requestID == TrimSpace(id) && r.module_ == NormalizeModuleName(m) && r.action == action && r.stage == Validate && Open(r)
  {
    EmptyStays();
    hide NormalizeModuleName, TrimSpace;
  }

  lemma {:induction false} NormalizeShape(r: OperationRecord)
    ensures NormalizeRecord(r).module_ == NormalizeModuleName(r.module_) && NormalizeRecord(r).status == r.status
    ensures NormalizeRecord(r).action == r.action && NormalizeRecord(r).stage == r.stage
  {
    hide NormalizeModuleName, TrimSpace;
  }

  lemma {:induction false} FindAppended(d: seq<OperationRecord>, r: OperationRecord, id: string)
    requires FindRequest(d, id) == -1 && TrimSpace(r.requestID) == id
    ensures FindRequest(d + [r], id) == |d|
  {
    hide FindRequest, TrimSpace;
    var e := d + [r];
    assert forall i :: 0 <= i < |d| ==> e[i] == d[i];
    assert e[|d|] == r;
  }

  /**
    Settlement on exit, for every module name and whatever loads and saves fail. The handle is left inactive
    exactly if one of the handler's calls settles the operation. The lock is given back exactly if, besides, two
    normalisations settle the name: the lock was taken under the second, and the release asks for a later one.
    An operation that no call settles keeps its lock and its running record.
   */
  lemma {:induction false} SettlementOnExit(s: JournalState, action: Action, rawModule: string, rawID: string, env: Env,
                                            calls: seq<Call>)
    requires BeginSpec(s, action, rawModule, rawID, env.now(0), env.loadOk(0), env.saveOk(0)).1.Granted?
    ensures var (begun, reply) := BeginSpec(s, action, rawModule, rawID, env.now(0), env.loadOk(0), env.saveOk(0));
      var (m, id) := (LockKey(rawModule), TrimSpace(rawID));
      var h := DoCalls(HandleState(begun.disk, begun.locks, reply.record, true), calls, env);
      && h.active == !Settles(calls)
      && (m !in h.locks <==> Settles(calls) && Stable(NormalizeModuleName(rawModule)))
      && (if Settles(calls) then Released(s.locks[m := id], h.locks, m, id) else h.locks == s.locks[m := id])
      && (!Settles(calls) ==> FindRequest(h.disk, id) >= 0 && OwnRecord(h, id).status == Running)
  {
    hide BeginSpec, NormalizeModuleName, TrimSpace, FindRequest, DoCalls, Settles, OwnRecord;
    GrantedStart(s, action, rawModule, rawID, env.now(0), env.loadOk(0), env.saveOk(0));
    var (begun, reply) := BeginSpec(s, action, rawModule, rawID, env.now(0), env.loadOk(0), env.saveOk(0));
    CallsHeld(HandleState(begun.disk, begun.locks, reply.record, true), LockKey(rawModule), TrimSpace(rawID), calls, env);
  }

  /** Two names on both sides: one that is not stable and yet gives its lock back, one whose lock is never given back. */
  lemma {:induction false} NamesOnBothSides()
    ensures !Stable("-\tfoo") && Stable(NormalizeModuleName("-\tfoo"))
    ensures !Stable(NormalizeModuleName("-\t-\tfoo")) && LockKey("-\t-\tfoo") == "\tfoo"
  {
    hide NormalizeModuleName;
    TabBehindDashIsUnstable();
    TwoRoundsAreNotEnough();
  }

  /** Every exit of install and restart settles; an exit of uninstall settles unless a path removal failed. */
  lemma {:induction false} WhichExitsSettle(stages: seq<Stage>, exec: Result<ModuleResult, string>,
                                            rreq: ServiceRequest, rw: RestartWorld, ureq: UninstallRequest, uw: UninstallWorld)
    ensures Settles(InstallCalls(stages, exec))
    ensures Settles(RestartCalls(rreq, rw))
    ensures Settles(UninstallCalls(ureq, uw)) <==> !UninstallForgets(ureq, uw)
  {
    hide TrimSpace, UninstallForgets, InstallSettlement, RestartSettlement, UninstallSettlement;
    assert InstallSettlement(exec).Settle? by {
      InstallSettles(exec);
    }
    assert InstallCalls(stages, exec)[|stages|] == InstallSettlement(exec);
    var rc := RestartCalls(rreq, rw);
    assert rc[|rc| - 1] == Settle(RestartSettlement(rreq, rw));
    var uc := UninstallCalls(ureq, uw);
    if !UninstallForgets(ureq, uw) {
      assert uc[0] == Settle(UninstallSettlement(ureq, uw)) || uc[|uc| - 2] == Settle(UninstallSettlement(ureq, uw));
    }
  }

  lemma {:induction false} InstallSettles(exec: Result<ModuleResult, string>)
    ensures InstallSettlement(exec).Settle?
  {
  }

  // ---------- replay ----------

  /** A request id the journal knows as settled is answered from the journal, whatever action and module it now names. */
  lemma {:induction false} ReplayIgnoresActionAndModule(s: JournalState, action: Action, rawModule: string, rawID: string,
                                                        now: nat, saveOk: bool)
    requires TrimSpace(rawID) != "" && NormalizeModuleName(rawModule) != ""
    requires FindRequest(s.disk, TrimSpace(rawID)) >= 0 && s.disk[FindRequest(s.disk, TrimSpace(rawID))].status != Running
    ensures BeginSpec(s, action, rawModule, rawID, now, true, saveOk)
         == (s, Replayed(NormalizeRecord(NormalizeRecord(s.disk[FindRequest(s.disk, TrimSpace(rawID))]))))
  {
    hide NormalizeModuleName, TrimSpace, FindRequest, NormalizeResult;
    FindAfterLoad(s.disk, TrimSpace(rawID));
  }

  /** The record is one of this action on this module. */
  predicate Fits(record: OperationRecord, action: Action, rawModule: string) {
    record.action == action && record.module_ == NormalizeModuleName(rawModule)
  }

  /**
    When the replayed answer is the right one, however the journal has ripened since a request was granted and
    settled. If two normalisations settle the first name, a request that reuses the id is answered with a record of
    its own action and module exactly if it names that action and, once normalised, that settled name; if not, the
    journal knows the module by a shorter name. The same request again gets its own record exactly if its name is stable.
   */
  lemma {:induction false} ReplayFitsExactly(s: JournalState, action: Action, rawModule: string, rawID: string, now: nat,
                                             later: JournalState, action2: Action, rawModule2: string, rawID2: string, now2: nat, saveOk: bool)
    requires BeginSpec(s, action, rawModule, rawID, now, true, true).1.Granted?
    requires Ripens(BeginSpec(s, action, rawModule, rawID, now, true, true).0.disk, later.disk)
    requires FindRequest(later.disk, TrimSpace(rawID)) >= 0 && later.disk[FindRequest(later.disk, TrimSpace(rawID))].status != Running
    requires TrimSpace(rawID2) == TrimSpace(rawID) && NormalizeModuleName(rawModule2) != ""
    ensures var (after, reply) := BeginSpec(later, action2, rawModule2, rawID2, now2, true, saveOk);
      && after == later && reply.Replayed?
      && (Stable(NormalizeModuleName(rawModule)) ==>
            (Fits(reply.existing, action2, rawModule2) <==> action2 == action && NormalizeModuleName(rawModule2) == LockKey(rawModule)))
      && (!Stable(NormalizeModuleName(rawModule)) ==> |reply.existing.module_| < |LockKey(rawModule)|)
      && (action2 == action && NormalizeModuleName(rawModule2) == NormalizeModuleName(rawModule) ==>
            (Fits(reply.existing, action2, rawModule2) <==> Stable(rawModule)))
  {
    hide NormalizeModuleName, TrimSpace, FindRequest, NormalizeRecord, BeginSpec, Ripens;
    GrantedStart(s, action, rawModule, rawID, now, true, true);
    GrantedNames(s, action, rawModule, rawID, now, true, true);
    ReplayIgnoresActionAndModule(later, action2, rawModule2, rawID2, now2, saveOk);
    var begun := BeginSpec(s, action, rawModule, rawID, now, true, true).0;
    var id := TrimSpace(rawID);
    RipeFound(begun.disk, later.disk, id);
    var i := FindRequest(begun.disk, id);
    OperationKept(begun.disk, later.disk, i);
    NormalizeShape(later.disk[i]);
    NormalizeShape(NormalizeRecord(later.disk[i]));
    NormalizeShortens(later.disk[i].module_);
    NormalizeShortens(NormalizeModuleName(later.disk[i].module_));
    NormalizeShortens(NormalizeModuleName(rawModule));
    NormalizedShrinks(NormalizeModuleName(rawModule));
  }

  lemma {:induction false} OperationKept(d: seq<OperationRecord>, e: seq<OperationRecord>, i: nat)
    requires Ripens(d, e) && i < |d|
    ensures i < |e| && e[i].action == d[i].action && |e[i].module_| <= |d[i].module_|
    ensures NormalizeModuleName(d[i].module_) == d[i].module_ ==> e[i].module_ == d[i].module_
  {
    hide NormalizeModuleName;
    assert RipensTo(d[i], e[i]);
  }

  /** A snapshot of trimmed fields and known words is kept as it is. */
  lemma {:induction false} PlainSnapshotKept(s: ResultSnapshot)
    requires TrimSpace(s.version) == s.version && TrimSpace(s.serviceName) == s.serviceName && TrimSpace(s.endpoint) == s.endpoint
    requires s.status == "installed" || s.status == "restarted" || s.status == "uninstalled"
    requires s.health == "healthy" || s.health == "unknown"
    ensures NormalizeSnapshot(s) == s && TrimSpace(s.status) == s.status && TrimSpace(s.health) == s.health
    ensures s.status != "" && s.health != ""
  {
    hide TrimSpace, ToLower;
    HealthWordsAreFixed(s.health);
    LetterWordIsFixed(s.status);
  }

  /** An install answer survives the journal. */
  lemma {:induction false} InstallAnswerSurvives(req: InstallRequest, again: InstallRequest, r: ModuleResult,
                                                 record: OperationRecord,
                                                 redact: string -> string)
    requires EngineResult(req, r) && TrimSpace(again.module_) == TrimSpace(req.module_)
    requires Tells(record, Succeeded(Some(SnapshotOf(r))))
    ensures ReplayInstall(again, record) == InstallReply(req, Ok(r), redact)
  {
    hide TrimSpace, NormalizeSnapshot;
    TrimSpaceIdempotent(req.version);
    PlainSnapshotKept(SnapshotOf(r));
  }

  /** A repeated install finds its record in the journal and is answered `first`; the journal and the locks stay. */
  predicate InstallRepeats(later: JournalState, again: InstallRequest, now: nat, saveOk: bool, first: Response) {
    var (after, reply) := BeginSpec(later, Install, again.module_, again.requestID, now, true, saveOk);
    after == later && reply.Replayed? && ReplayInstall(again, reply.existing) == first
  }

  /**
    Replay agrees with the original answer: after an install that succeeded and whose completion was saved, in
    that journal and in every journal it ripens to, the same request id for the same module is answered exactly
    as the first time, whatever version the repeated request carries.
   */
  lemma {:induction false} InstallThenReplay(s: JournalState, req: InstallRequest, env: Env, stages: seq<Stage>, r: ModuleResult,
                                             again: InstallRequest, now: nat, saveOk: bool, redact: string -> string)
    requires EngineResult(req, r)
    requires BeginReplyOf(s, Install, req.module_, req.requestID, env).Granted?
    requires env.loadOk(|stages| + 1) && env.saveOk(|stages| + 1)
    requires again.module_ == req.module_ && again.requestID == req.requestID
    ensures var (begun, reply) := BeginSpec(s, Install, req.module_, req.requestID, env.now(0), env.loadOk(0), env.saveOk(0));
      var h := DoCalls(HandleState(begun.disk, begun.locks, reply.record, true), InstallCalls(stages, Ok(r)), env);
      forall later: JournalState :: Ripens(h.disk, later.disk) ==>
        InstallRepeats(later, again, now, saveOk, InstallReply(req, Ok(r), redact))
  {
    hide NormalizeModuleName, TrimSpace, DoCalls, EngineResult, ReplayInstall, InstallReply, BeginSpec, Held, OwnRecord, Tells, LockKey,
      Ripens;
    GrantedStart(s, Install, req.module_, req.requestID, env.now(0), env.loadOk(0), env.saveOk(0));
    GrantedNames(s, Install, req.module_, req.requestID, env.now(0), env.loadOk(0), env.saveOk(0));
    var (begun, reply) := BeginSpec(s, Install, req.module_, req.requestID, env.now(0), env.loadOk(0), env.saveOk(0));
    var (m, id) := (LockKey(req.module_), TrimSpace(req.requestID));
    var start := HandleState(begun.disk, begun.locks, reply.record, true);
    var outcome := Succeeded(Some(SnapshotOf(r)));
    SettlementStays(start, m, id, Notes(stages), outcome, [], env);
    assert InstallCalls(stages, Ok(r)) == Notes(stages) + [Settle(outcome)] + [];
    var h := DoCalls(start, InstallCalls(stages, Ok(r)), env);
    forall later: JournalState | Ripens(h.disk, later.disk)
      ensures InstallRepeats(later, again, now, saveOk, InstallReply(req, Ok(r), redact))
    {
      HeldKnown(h, m, id, outcome);
      OutcomeIsReplayed(h.disk, later, id, outcome, Install, again.module_, again.requestID, now, saveOk);
      InstallAnswerSurvives(req, again, r, BeginSpec(later, Install, again.module_, again.requestID, now, true, saveOk).1.existing, redact);
    }
  }

  /** A settlement whose load and save work is in the journal for good, whatever the handler does after it. */
  lemma {:induction false} SettlementStays(start: HandleState, m: string, id: string, before: seq<Call>, outcome: Outcome,
                                           rest: seq<Call>, env: Env)
    requires StartOk(start, m, id) && !Settles(before)
    requires env.loadOk(|before| + 1) && env.saveOk(|before| + 1)
    ensures var h := DoCalls(start, before + [Settle(outcome)] + rest, env);
      Held(h, m, id) && Tells(OwnRecord(h, id), outcome)
    decreases |rest|
  {
    hide Held, DoCall, FindRequest, Tells, Open, NormalizeModuleName, TrimSpace, Released;
    var settle := Settle(outcome);
    var calls := before + [settle] + rest;
    if rest == [] {
      assert calls == before + [settle];
      assert calls[..|calls| - 1] == before;
      CallsHeld(start, m, id, before, env);
      CallHeld(DoCalls(start, before, env), m, id, settle, env, |before| + 1);
    } else {
      var shorter := before + [settle] + rest[..|rest| - 1];
      assert calls[..|calls| - 1] == shorter;
      SettlementStays(start, m, id, before, outcome, rest[..|rest| - 1], env);
      assert Settles(shorter) by {
        assert shorter[|before|] == settle;
      }
      CallsHeld(start, m, id, shorter, env);
      InactiveIgnores(DoCalls(start, shorter, env), calls[|calls| - 1], env, |calls|);
    }
  }

  /** A restart or uninstall answer survives the journal. */
  lemma {:induction false} ServiceAnswerSurvives(module_: string, serviceName: string, again: string, status: string,
                                                 health: string,
                                                 record: OperationRecord)
    requires TrimSpace(serviceName) != "" && TrimSpace(again) == TrimSpace(module_)
    requires (status == "restarted" && health == "healthy") || (status == "uninstalled" && health == "unknown")
    requires Tells(record, Succeeded(Some(ResultSnapshot("", TrimSpace(serviceName), "", status, health))))
    ensures forall name :: ReplayService(again, name, record)
                        == Response(true, ModuleResult(TrimSpace(module_), "", TrimSpace(serviceName), "", status, health), "")
  {
    hide TrimSpace, NormalizeSnapshot;
    TrimSpaceIdempotent(serviceName);
    EmptyStays();
    PlainSnapshotKept(ResultSnapshot("", TrimSpace(serviceName), "", status, health));
  }

  /** The journal knows the request as settled with this outcome. */
  predicate KnownAs(d: seq<OperationRecord>, id: string, outcome: Outcome) {
    var i := FindRequest(d, id);
    i >= 0 && Tells(d[i], outcome)
  }

  lemma {:induction false} HeldKnown(h: HandleState, m: string, id: string, outcome: Outcome)
    requires Held(h, m, id) && Tells(OwnRecord(h, id), outcome)
    ensures KnownAs(h.disk, id, outcome)
  {
    hide NormalizeModuleName, TrimSpace, FindRequest, Tells;
  }

  lemma {:induction false} StaysKnown(d: seq<OperationRecord>, e: seq<OperationRecord>, id: string, outcome: Outcome)
    requires KnownAs(d, id, outcome) && Ripens(d, e)
    ensures KnownAs(e, id, outcome)
  {
    hide NormalizeModuleName, TrimSpace, FindRequest, NormalizeResult;
    RipeFound(d, e, id);
    var i := FindRequest(d, id);
    assert RipensTo(d[i], e[i]);
  }

  /** The second half of a replay: the settled record is found, however the journal has ripened, and answers the request. */
  lemma {:induction false} OutcomeIsReplayed(d: seq<OperationRecord>, later: JournalState, id: string, outcome: Outcome,
                                             action: Action, rawModule: string, rawID: string, now: nat, saveOk: bool)
    requires KnownAs(d, id, outcome) && Ripens(d, later.disk)
    requires TrimSpace(rawID) == id && id != "" && NormalizeModuleName(rawModule) != ""
    ensures var (after, reply) := BeginSpec(later, action, rawModule, rawID, now, true, saveOk);
      after == later && reply.Replayed? && Tells(reply.existing, outcome)
  {
    hide NormalizeModuleName, TrimSpace, FindRequest, NormalizeRecord, BeginSpec, Ripens, Tells;
    StaysKnown(d, later.disk, id, outcome);
    var r := later.disk[FindRequest(later.disk, id)];
    ToldNotRunning(r, outcome);
    ReplayIgnoresActionAndModule(later, action, rawModule, rawID, now, saveOk);
    TellsOn(r, outcome);
    TellsOn(NormalizeRecord(r), outcome);
  }

  lemma {:induction false} ToldNotRunning(r: OperationRecord, outcome: Outcome)
    requires Tells(r, outcome)
    ensures r.status != Running
  {
  }

  // ---------- failures ----------

  /** A failed install is answered again by what the journal keeps: the error before its second redaction, trimmed. */
  lemma {:induction false} FailedInstallReplays(req: InstallRequest, again: InstallRequest, text: string, record: OperationRecord,
                                                redact: string -> string)
    requires TrimSpace(again.module_) == TrimSpace(req.module_) && TrimSpace(again.version) == TrimSpace(req.version)
    requires Tells(record, FailedWith(text))
    ensures ReplayInstall(again, record) == Response(false, FailedInstall(req), TrimSpace(text))
    ensures ReplayInstall(again, record) == InstallReply(req, Err(text), redact) <==> redact(text) == TrimSpace(text)
  {
    hide TrimSpace;
    TrimSpaceIdempotent(text);
  }

  /** A failed restart or uninstall is answered again as the first time, for the same service. */
  lemma {:induction false} FailedServiceReplays(module_: string, serviceName: string, again: string, name: string, text: string,
                                                record: OperationRecord)
    requires TrimSpace(again) == TrimSpace(module_) && TrimSpace(name) == TrimSpace(serviceName)
    requires Tells(record, FailedWith(text))
    ensures ReplayService(again, name, record) == Response(false, FailedService(module_, serviceName), TrimSpace(text))
  {
    hide TrimSpace;
    TrimSpaceIdempotent(text);
  }

  /** A repeated restart or uninstall, for any service name, is answered `first` from the journal. */
  predicate ServiceRepeats(later: JournalState, action: Action, module_: string, requestID: string, name: string,
                           now: nat, saveOk: bool, first: Response)
  {
    var (after, reply) := BeginSpec(later, action, module_, requestID, now, true, saveOk);
    after == later && reply.Replayed? && ReplayService(module_, name, reply.existing) == first
  }

  /**
    A successful restart whose completion was saved is answered the same way again, from that journal and every
    journal it ripens to, whatever service the repeated request names.
   */
  lemma {:induction false} RestartThenReplay(s: JournalState, req: ServiceRequest, env: Env, w: RestartWorld, name: string,
                                             now: nat, saveOk: bool)
    requires RestartSettlement(req, w).Succeeded?
    requires BeginReplyOf(s, Restart, req.module_, req.requestID, env).Granted?
    requires env.loadOk(3) && env.saveOk(3)
    ensures var (begun, reply) := BeginSpec(s, Restart, req.module_, req.requestID, env.now(0), env.loadOk(0), env.saveOk(0));
      var h := DoCalls(HandleState(begun.disk, begun.locks, reply.record, true), RestartCalls(req, w), env);
      forall later: JournalState :: Ripens(h.disk, later.disk) ==>
        ServiceRepeats(later, Restart, req.module_, req.requestID, name, now, saveOk, RestartReply(req, w))
  {
    hide NormalizeModuleName, TrimSpace, DoCalls, ReplayService, BeginSpec, Held, OwnRecord, Tells, LockKey, Ripens;
    GrantedStart(s, Restart, req.module_, req.requestID, env.now(0), env.loadOk(0), env.saveOk(0));
    GrantedNames(s, Restart, req.module_, req.requestID, env.now(0), env.loadOk(0), env.saveOk(0));
    var (begun, reply) := BeginSpec(s, Restart, req.module_, req.requestID, env.now(0), env.loadOk(0), env.saveOk(0));
    var (m, id) := (LockKey(req.module_), TrimSpace(req.requestID));
    var start := HandleState(begun.disk, begun.locks, reply.record, true);
    var snapshot := ResultSnapshot("", TrimSpace(req.serviceName), "", "restarted", "healthy");
    var notes := [Note(Apply), Note(Healthcheck)];
    SettlementStays(start, m, id, notes, Succeeded(Some(snapshot)), [], env);
    assert RestartCalls(req, w) == notes + [Settle(Succeeded(Some(snapshot)))] + [];
    var h := DoCalls(start, RestartCalls(req, w), env);
    forall later: JournalState | Ripens(h.disk, later.disk)
      ensures ServiceRepeats(later, Restart, req.module_, req.requestID, name, now, saveOk, RestartReply(req, w))
    {
      HeldKnown(h, m, id, Succeeded(Some(snapshot)));
      OutcomeIsReplayed(h.disk, later, id, Succeeded(Some(snapshot)), Restart, req.module_, req.requestID, now, saveOk);
      ServiceAnswerSurvives(req.module_, req.serviceName, req.module_, "restarted", "healthy",
                            BeginSpec(later, Restart, req.module_, req.requestID, now, true, saveOk).1.existing);
    }
  }

  /** The same for uninstall. */
  lemma {:induction false} UninstallThenReplay(s: JournalState, req: UninstallRequest, env: Env, w: UninstallWorld, name: string,
                                               now: nat, saveOk: bool)
    requires !UninstallForgets(req, w) && UninstallSettlement(req, w).Succeeded?
    requires BeginReplyOf(s, Uninstall, req.module_, req.requestID, env).Granted?
    requires env.loadOk(|UninstallNotes(req, w)| + 1) && env.saveOk(|UninstallNotes(req, w)| + 1)
    ensures var (begun, reply) := BeginSpec(s, Uninstall, req.module_, req.requestID, env.now(0), env.loadOk(0), env.saveOk(0));
      var h := DoCalls(HandleState(begun.disk, begun.locks, reply.record, true), UninstallCalls(req, w), env);
      forall later: JournalState :: Ripens(h.disk, later.disk) ==>
        ServiceRepeats(later, Uninstall, req.module_, req.requestID, name, now, saveOk, UninstallReply(req, w))
  {
    hide NormalizeModuleName, TrimSpace, DoCalls, ReplayService, BeginSpec, Held, OwnRecord, Tells, LockKey, UninstallForgets, Ripens;
    GrantedStart(s, Uninstall, req.module_, req.requestID, env.now(0), env.loadOk(0), env.saveOk(0));
    GrantedNames(s, Uninstall, req.module_, req.requestID, env.now(0), env.loadOk(0), env.saveOk(0));
    var (begun, reply) := BeginSpec(s, Uninstall, req.module_, req.requestID, env.now(0), env.loadOk(0), env.saveOk(0));
    var (m, id) := (LockKey(req.module_), TrimSpace(req.requestID));
    var start := HandleState(begun.disk, begun.locks, reply.record, true);
    var snapshot := ResultSnapshot("", TrimSpace(req.serviceName), "", "uninstalled", "unknown");
    var notes := UninstallNotes(req, w);
    SettlementStays(start, m, id, notes, Succeeded(Some(snapshot)), [Note(Done)], env);
    assert UninstallCalls(req, w) == notes + [Settle(Succeeded(Some(snapshot)))] + [Note(Done)];
    var h := DoCalls(start, UninstallCalls(req, w), env);
    forall later: JournalState | Ripens(h.disk, later.disk)
      ensures ServiceRepeats(later, Uninstall, req.module_, req.requestID, name, now, saveOk, UninstallReply(req, w))
    {
      HeldKnown(h, m, id, Succeeded(Some(snapshot)));
      OutcomeIsReplayed(h.disk, later, id, Succeeded(Some(snapshot)), Uninstall, req.module_, req.requestID, now, saveOk);
      ServiceAnswerSurvives(req.module_, req.serviceName, req.module_, "uninstalled", "unknown",
                            BeginSpec(later, Uninstall, req.module_, req.requestID, now, true, saveOk).1.existing);
    }
  }

  /** A begin is granted to named modules and requests only. */
  lemma {:induction false} GrantedNames(s: JournalState, action: Action, rawModule: string, rawID: string, now: nat,
                                        loadOk: bool, saveOk: bool)
    requires BeginSpec(s, action, rawModule, rawID, now, loadOk, saveOk).1.Granted?
    ensures NormalizeModuleName(rawModule) != "" && TrimSpace(rawID) != ""
  {
    hide NormalizeModuleName, TrimSpace;
  }

  // ---------- the record a handler leaves ----------

  predicate AllNotes(calls: seq<Call>) {
    forall i :: 0 <= i < |calls| ==> calls[i].Note?
  }

  /** The stage a new record has reached after these notes. */
  function Reached(notes: seq<Call>): Stage
    requires AllNotes(notes)
  {
    if notes == [] then Validate else notes[|notes| - 1].stage
  }

  ghost predicate AllWork(env: Env) {
    forall k :: env.loadOk(k) && env.saveOk(k)
  }

  lemma {:induction false} NoteReached(h: HandleState, m: string, id: string, stage: Stage, env: Env, k: nat)
    requires StartOk(h, m, id) && env.loadOk(k) && env.saveOk(k)
    ensures var h' := DoCall(h, Note(stage), env, k); Held(h', m, id) && OwnRecord(h', id).stage == stage
  {
    hide FindRequest, NormalizeModuleName, TrimSpace, RewriteSpec, Open, LeadsTo, Shrinking, Resaved;
    RewriteHeld(h, m, id, ToStage(stage), env.now(k), true, true);
    RewriteNoted(h.disk, h.held, ToStage(stage), env.now(k));
  }

  lemma {:induction false} SettlementReached(h: HandleState, m: string, id: string, outcome: Outcome, env: Env, k: nat)
    requires StartOk(h, m, id) && env.loadOk(k) && env.saveOk(k)
    ensures var h' := DoCall(h, Settle(outcome), env, k);
      && Held(h', m, id) && Tells(OwnRecord(h', id), outcome)
      && OwnRecord(h', id).stage == if outcome.Succeeded? then Done else OwnRecord(h, id).stage
  {
    hide FindRequest, NormalizeModuleName, TrimSpace, RewriteSpec, Open, LeadsTo, Shrinking, Resaved, ReleaseLock, Tells;
    RewriteHeld(h, m, id, ToOutcome(outcome), env.now(k), true, true);
    RewriteNoted(h.disk, h.held, ToOutcome(outcome), env.now(k));
    ResavedKeeps(OwnRecord(h, id));
  }

  lemma {:induction false} NotesReached(start: HandleState, m: string, id: string, notes: seq<Call>, env: Env)
    requires StartOk(start, m, id) && AllNotes(notes) && AllWork(env) && OwnRecord(start, id).stage == Validate
    ensures var h := DoCalls(start, notes, env); StartOk(h, m, id) && OwnRecord(h, id).stage == Reached(notes)
  {
    hide Held, DoCall, OwnRecord, Open, Released;
    CallsHeld(start, m, id, notes, env);
    assert !Settles(notes);
    if notes != [] {
      var before := notes[..|notes| - 1];
      NotesReached(start, m, id, before, env);
      NoteReached(DoCalls(start, before, env), m, id, notes[|notes| - 1].stage, env, |notes|);
    }
  }

  lemma {:induction false} RestIgnored(start: HandleState, m: string, id: string, calls: seq<Call>, rest: seq<Call>, env: Env)
    requires StartOk(start, m, id) && Settles(calls)
    ensures DoCalls(start, calls + rest, env) == DoCalls(start, calls, env)
    decreases |rest|
  {
    hide Held, DoCall, OwnRecord, Open, Released;
    if rest == [] {
      assert calls + rest == calls;
    } else {
      var all, shorter := calls + rest, rest[..|rest| - 1];
      assert all[..|all| - 1] == calls + shorter;
      RestIgnored(start, m, id, calls, shorter, env);
      CallsHeld(start, m, id, calls, env);
      InactiveIgnores(DoCalls(start, calls, env), all[|all| - 1], env, |all|);
    }
  }

  /** The record of a request in the journal has this status, stage, error and result. */
  predicate Recorded(d: seq<OperationRecord>, rawID: string, status: Status, stage: Option<Stage>, errorText: string,
                     result: Option<ResultSnapshot>)
  {
    var i := FindRequest(d, TrimSpace(rawID));
    && i >= 0 && d[i].status == status && d[i].errorText == errorText && d[i].result == result
    && (stage.Some? ==> d[i].stage == stage.value)
  }

  /** A handler that settles its operation leaves the outcome in its record, at the stage it reached or at the end. */
  lemma {:induction false} SettledRecorded(s: JournalState, after: JournalState, action: Action, rawModule: string, rawID: string,
                                           env: Env, notes: seq<Call>, outcome: Outcome, rest: seq<Call>)
    requires BeginReplyOf(s, action, rawModule, rawID, env).Granted? && AllNotes(notes)
    requires HandlerEffect(s, after, action, rawModule, rawID, env, notes + [Settle(outcome)] + rest)
    requires env.loadOk(|notes| + 1) && env.saveOk(|notes| + 1)
    ensures KnownAs(after.disk, TrimSpace(rawID), outcome)
    ensures AllWork(env) ==>
      after.disk[FindRequest(after.disk, TrimSpace(rawID))].stage == if outcome.Succeeded? then Done else Reached(notes)
  {
    hide FindRequest, NormalizeModuleName, TrimSpace, BeginSpec, DoCall, Tells, Open, LeadsTo, Shrinking, LockKey;
    GrantedStart(s, action, rawModule, rawID, env.now(0), env.loadOk(0), env.saveOk(0));
    var (begun, reply) := BeginSpec(s, action, rawModule, rawID, env.now(0), env.loadOk(0), env.saveOk(0));
    var (m, id) := (LockKey(rawModule), TrimSpace(rawID));
    var start := HandleState(begun.disk, begun.locks, reply.record, true);
    assert !Settles(notes);
    SettlementStays(start, m, id, notes, outcome, rest, env);
    if AllWork(env) {
      NotesReached(start, m, id, notes, env);
      SettlementReached(DoCalls(start, notes, env), m, id, outcome, env, |notes| + 1);
      var calls := notes + [Settle(outcome)];
      assert calls[..|calls| - 1] == notes && calls[|notes|] == Settle(outcome);
      RestIgnored(start, m, id, calls, rest, env);
    }
  }

  /** A handler that only notes stages leaves its record running. */
  lemma {:induction false} UnsettledRecorded(s: JournalState, after: JournalState, action: Action, rawModule: string,
                                             rawID: string,
                                             env: Env, notes: seq<Call>)
    requires BeginReplyOf(s, action, rawModule, rawID, env).Granted? && AllNotes(notes)
    requires HandlerEffect(s, after, action, rawModule, rawID, env, notes)
    ensures Recorded(after.disk, rawID, Running, if AllWork(env) then Some(Reached(notes)) else None, "", None)
  {
    hide FindRequest, NormalizeModuleName, TrimSpace, BeginSpec, DoCall, Tells, LeadsTo, Shrinking, LockKey;
    GrantedStart(s, action, rawModule, rawID, env.now(0), env.loadOk(0), env.saveOk(0));
    var (begun, reply) := BeginSpec(s, action, rawModule, rawID, env.now(0), env.loadOk(0), env.saveOk(0));
    var (m, id) := (LockKey(rawModule), TrimSpace(rawID));
    var start := HandleState(begun.disk, begun.locks, reply.record, true);
    assert !Settles(notes);
    CallsHeld(start, m, id, notes, env);
    if AllWork(env) {
      NotesReached(start, m, id, notes, env);
    }
  }

  /**
    What an install leaves in the journal: its record is completed with the engine's result exactly if the engine
    came back with one, and otherwise failed with its error, at the last stage reported.
   */
  lemma {:induction false} InstallRecorded(s: JournalState, after: JournalState, req: InstallRequest, env: Env,
                                           stages: seq<Stage>,
                                           exec: Result<ModuleResult, string>)
    requires BeginReplyOf(s, Install, req.module_, req.requestID, env).Granted?
    requires HandlerEffect(s, after, Install, req.module_, req.requestID, env, InstallCalls(stages, exec))
    requires env.loadOk(|stages| + 1) && env.saveOk(|stages| + 1)
    ensures exec.Ok? ==> KnownAs(after.disk, TrimSpace(req.requestID), Succeeded(Some(SnapshotOf(exec.value))))
    ensures exec.Ok? && EngineResult(req, exec.value) ==>
      var r := exec.value;
      Recorded(after.disk, req.requestID, Completed, if AllWork(env) then Some(Done) else None, "",
               Some(ResultSnapshot(TrimSpace(req.version), r.serviceName, r.endpoint, "installed", "healthy")))
    ensures exec.Err? ==>
      var last := if stages == [] then Validate else stages[|stages| - 1];
      Recorded(after.disk, req.requestID, Failed, if AllWork(env) then Some(last) else None, TrimSpace(exec.error), None)
  {
    hide FindRequest, TrimSpace, BeginReplyOf, HandlerEffect, NormalizeSnapshot;
    var outcome := InstallSettlement(exec).outcome;
    assert InstallCalls(stages, exec) == Notes(stages) + [Settle(outcome)] + [];
    SettledRecorded(s, after, Install, req.module_, req.requestID, env, Notes(stages), outcome, []);
    if exec.Ok? && EngineResult(req, exec.value) {
      TrimSpaceIdempotent(req.version);
      PlainSnapshotKept(SnapshotOf(exec.value));
    }
  }

  /**
    What a restart leaves in the journal: its record is completed exactly if the answer is a success, and otherwise
    failed with the text of the answer; it stopped before the first note, at the restart, or at the health check.
   */
  lemma {:induction false} RestartRecorded(s: JournalState, after: JournalState, req: ServiceRequest, env: Env,
                                           w: RestartWorld, resp: Response)
    requires BeginReplyOf(s, Restart, req.module_, req.requestID, env).Granted?
    requires HandlerEffect(s, after, Restart, req.module_, req.requestID, env, RestartCalls(req, w))
    requires env.loadOk(|RestartCalls(req, w)|) && env.saveOk(|RestartCalls(req, w)|) && RestartAnswered(req, w, resp)
    ensures resp.ok ==>
      Recorded(after.disk, req.requestID, Completed, if AllWork(env) then Some(Done) else None, "",
               Some(ResultSnapshot("", TrimSpace(req.serviceName), "", "restarted", "healthy")))
    ensures !resp.ok ==>
      var reached := if !Allowed(w.lookup) || TrimSpace(req.serviceName) == "" then Validate
                     else if w.restart.Some? then Apply else Healthcheck;
      Recorded(after.disk, req.requestID, Failed, if AllWork(env) then Some(reached) else None, resp.errorText, None)
  {
    PlainTexts();
    hide FindRequest, TrimSpace, BeginReplyOf, HandlerEffect, NormalizeSnapshot;
    var outcome := RestartSettlement(req, w);
    var calls := RestartCalls(req, w);
    var notes := calls[..|calls| - 1];
    assert calls == notes + [Settle(outcome)] + [];
    SettledRecorded(s, after, Restart, req.module_, req.requestID, env, notes, outcome, []);
    TrimSpaceIdempotent(req.serviceName);
    EmptyStays();
    if outcome.Succeeded? {
      PlainSnapshotKept(ResultSnapshot("", TrimSpace(req.serviceName), "", "restarted", "healthy"));
    }
  }

  /**
    The same for uninstall, but for a path removal that fails: its error is answered, and the record keeps running.
   */
  lemma {:induction false} UninstallRecorded(s: JournalState, after: JournalState, req: UninstallRequest, env: Env,
                                             w: UninstallWorld, resp: Response)
    requires BeginReplyOf(s, Uninstall, req.module_, req.requestID, env).Granted?
    requires HandlerEffect(s, after, Uninstall, req.module_, req.requestID, env, UninstallCalls(req, w))
    requires env.loadOk(|UninstallNotes(req, w)| + 1) && env.saveOk(|UninstallNotes(req, w)| + 1) && UninstallAnswered(req, w, resp)
    ensures resp.ok ==>
      Recorded(after.disk, req.requestID, Completed, if AllWork(env) then Some(Done) else None, "",
               Some(ResultSnapshot("", TrimSpace(req.serviceName), "", "uninstalled", "unknown")))
    ensures !resp.ok ==>
      var named := Allowed(w.lookup) && TrimSpace(req.serviceName) != "";
      var stuck := named && w.unitRemoval.None? && w.reload.None? && !AllRemoved(req, w);
      Recorded(after.disk, req.requestID, if stuck then Running else Failed,
               if AllWork(env) then Some(if named then Apply else Validate) else None, if stuck then "" else resp.errorText, None)
  {
    PlainTexts();
    hide FindRequest, TrimSpace, BeginReplyOf, HandlerEffect, NormalizeSnapshot, RemovalWorks, RemovalError, RemovalPaths, FirstToFail;
    ForgetsIfStuck(req, w);
    var calls, notes, outcome := UninstallCalls(req, w), UninstallNotes(req, w), UninstallSettlement(req, w);
    if UninstallForgets(req, w) {
      UnsettledRecorded(s, after, Uninstall, req.module_, req.requestID, env, calls);
    } else {
      var rest := calls[|notes| + 1..];
      assert calls == notes + [Settle(outcome)] + rest;
      SettledRecorded(s, after, Uninstall, req.module_, req.requestID, env, notes, outcome, rest);
      TrimSpaceIdempotent(req.serviceName);
      EmptyStays();
      if outcome.Succeeded? {
        PlainSnapshotKept(ResultSnapshot("", TrimSpace(req.serviceName), "", "uninstalled", "unknown"));
      }
    }
  }
}
