/**
  At-most-once execution, for every module name: request ids are only ever appended to the journal,
  and `beginOperation` returns a handle for a request id at most once.
 */
module OperationOnce {
  import opened GoStrings
  import opened ModuleNames
  import opened Outcomes
  import opened OperationRecords
  import opened OperationProtocol

  /** The ids of a journal, which are all that matters here. */
  predicate SameIds(d: seq<OperationRecord>, e: seq<OperationRecord>) {
    |d| == |e| && forall i :: 0 <= i < |d| ==> d[i].requestID == e[i].requestID
  }

  predicate IdsTrimmed(d: seq<OperationRecord>) {
    forall i :: 0 <= i < |d| ==> TrimSpace(d[i].requestID) == d[i].requestID
  }

  predicate PendingOk(d: seq<OperationRecord>, th: Thread) {
    th.AtLock? || th.AtSave? ==>
      TrimSpace(th.id) == th.id && FindRequest(d, th.id) == -1 && th.records == NormalizeAll(d)
  }

  predicate OnceInv(s: State) {
    && IdsTrimmed(s.disk)
    && UniqueIds(s.disk)
    && MutexOk(s)
    && GrantsOk(s)
    && (forall t :: t in s.threads ==> PendingOk(s.disk, s.threads[t]))
    && (!s.up ==> s.threads == map[])
  }

  lemma {:induction false} NormalizeKeepsIds(d: seq<OperationRecord>)
    requires IdsTrimmed(d)
    ensures SameIds(d, NormalizeAll(d)) && IdsTrimmed(NormalizeAll(d))
  {
    hide TrimSpace, NormalizeModuleName, NormalizeResult;
  }

  lemma {:induction false} SameIdsSameAnswers(d: seq<OperationRecord>, e: seq<OperationRecord>)
    requires SameIds(d, e) && IdsTrimmed(d)
    ensures IdsTrimmed(e) && (UniqueIds(d) ==> UniqueIds(e))
    ensures forall id :: FindRequest(e, id) == FindRequest(d, id)
  {
    hide TrimSpace, FindRequest;
    forall id
      ensures FindRequest(e, id) == FindRequest(d, id)
    {
      FindSurvivesRewrite(d, e, id);
    }
  }

  /** Stage updates, settlements and interruptions leave the ids alone. */
  lemma {:induction false} RewriteKeepsIds(d: seq<OperationRecord>, held: OperationRecord, w: Rewrite, now: nat,
                                           loadOk: bool, saveOk: bool)
    requires IdsTrimmed(d)
    ensures SameIds(d, RewriteSpec(d, held, w, now, loadOk, saveOk).0)
  {
    hide TrimSpace, NormalizeModuleName, NormalizeResult, FindRequest, NormalizeRecord;
    NormalizeKeepsIds(d);
    var records := NormalizeAll(d);
    var i := FindRequest(records, TrimSpace(held.requestID));
    if i >= 0 {
      var e := records[i := Rewritten(records[i], w, now)];
      assert SameIds(records, e) && IdsTrimmed(e);
      NormalizeKeepsIds(e);
    }
  }

  lemma {:induction false} InterruptKeepsIds(d: seq<OperationRecord>, now: nat)
    requires IdsTrimmed(d)
    ensures SameIds(d, NormalizeAll(InterruptAll(NormalizeAll(d), now)))
  {
    hide TrimSpace, NormalizeAll, FirstNonEmpty;
    NormalizeKeepsIds(d);
    var e := InterruptAll(NormalizeAll(d), now);
    assert SameIds(NormalizeAll(d), e) && IdsTrimmed(e);
    NormalizeKeepsIds(e);
  }

  /** The saved record brings one new id. */
  lemma {:induction false} SaveAddsOneId(d: seq<OperationRecord>, r: OperationRecord)
    requires IdsTrimmed(d) && UniqueIds(d) && TrimSpace(r.requestID) == r.requestID && FindRequest(d, r.requestID) == -1
    ensures var e := NormalizeAll(NormalizeAll(d) + [r]);
      && IdsTrimmed(e) && UniqueIds(e) && FindRequest(e, r.requestID) >= 0
      && forall id :: FindRequest(d, id) >= 0 ==> FindRequest(e, id) >= 0
  {
    hide TrimSpace, NormalizeAll, FindRequest;
    NormalizeKeepsIds(d);
    SameIdsSameAnswers(d, NormalizeAll(d));
    var e := NormalizeAll(d) + [r];
    assert forall i :: 0 <= i < |d| ==> e[i].requestID == d[i].requestID && TrimSpace(d[i].requestID) != r.requestID;
    assert IdsTrimmed(e) && UniqueIds(e);
    NormalizeKeepsIds(e);
    SameIdsSameAnswers(e, NormalizeAll(e));
    forall id | FindRequest(d, id) >= 0
      ensures FindRequest(NormalizeAll(e), id) >= 0
    {
      FindSurvivesAppend(NormalizeAll(d), r, id);
    }
    FindSurvivesAppend(NormalizeAll(d), r, r.requestID);
  }

  lemma {:induction false} NewRecordId(action: Action, module_: string, id: string, now: nat)
    ensures NewRecord(action, module_, id, now).requestID == TrimSpace(id)
  {
  }

  /** Steps of `beginOperation`: only a successful save grants, and it grants a new id. */
  lemma {:induction false} SaveKeepsOnce(s: State, t: nat, now: nat, saveOk: bool)
    requires OnceInv(s) && Enabled(s, BeginSave(t, now, saveOk))
    ensures OnceInv(ApplySave(s, t, now, saveOk))
  {
    hide TrimSpace, NormalizeAll, FindRequest, IdsTrimmed, UniqueIds, NewRecord;
    var th, s' := s.threads[t], ApplySave(s, t, now, saveOk);
    assert PendingOk(s.disk, th);
    var r := NewRecord(th.action, th.module_, th.id, now);
    NewRecordId(th.action, th.module_, th.id, now);
    SaveAddsOneId(s.disk, r);
    MutexNames(s, t);
  }

  lemma {:induction false} ScanKeepsOnce(s: State, t: nat, action: Action, rawModule: string, rawID: string, loadOk: bool)
    requires OnceInv(s) && Enabled(s, BeginScan(t, action, rawModule, rawID, loadOk))
    ensures OnceInv(ApplyScan(s, t, action, rawModule, rawID, loadOk))
  {
    hide TrimSpace, NormalizeAll, FindRequest, IdsTrimmed, UniqueIds, NormalizeModuleName, ModuleBusy, NormalizeRecord, GrantsOk;
    TrimSpaceIdempotent(rawID);
    NormalizeKeepsIds(s.disk);
    SameIdsSameAnswers(s.disk, NormalizeAll(s.disk));
    var s' := ApplyScan(s, t, action, rawModule, rawID, loadOk);
    assert GrantsOk(s') by {
      SameGrants(s, s');
    }
  }

  /** Every step that rewrites the journal in place, or not at all. */
  lemma {:induction false} RewriteKeepsOnce(s: State, s': State)
    requires OnceInv(s) && s'.grants == s.grants && SameIds(s.disk, s'.disk) && MutexOk(s')
    requires forall t :: t in s'.threads && (s'.threads[t].AtLock? || s'.threads[t].AtSave?) ==>
      t in s.threads && s'.disk == s.disk
      && (s.threads[t] == s'.threads[t]
          || (s.threads[t].AtLock? && s'.threads[t].AtSave? && s.threads[t].id == s'.threads[t].id
              && s.threads[t].records == s'.threads[t].records))
    requires !s'.up ==> s'.threads == map[]
    ensures OnceInv(s')
  {
    hide TrimSpace, NormalizeAll, FindRequest, IdsTrimmed, UniqueIds, MutexOk;
    SameIdsSameAnswers(s.disk, s'.disk);
  }

  lemma {:induction false} StepKeepsOnce(s: State, step: Step)
    requires OnceInv(s) && Enabled(s, step)
    ensures OnceInv(After(s, step))
  {
    hide TrimSpace, NormalizeAll, FindRequest, IdsTrimmed, UniqueIds, GrantsOk, ApplyScan, ApplySave, RewriteSpec, AcquireLock,
      ReleaseLock, PendingOk, AnyRunning, SameIds;
    SameIdsReflexive(s.disk);
    match step
    case BeginScan(t, action, rawModule, rawID, loadOk) => ScanKeepsOnce(s, t, action, rawModule, rawID, loadOk);
    case BeginSave(t, now, saveOk) => SaveKeepsOnce(s, t, now, saveOk);
    case SetStage(t, stage, now, loadOk, saveOk) =>
      RewriteKeepsIds(s.disk, s.threads[t].held, ToStage(stage), now, loadOk, saveOk);
      RewriteKeepsOnce(s, After(s, step));
    case Finish(t, outcome, now, loadOk, saveOk) =>
      RewriteKeepsIds(s.disk, s.threads[t].held, ToOutcome(outcome), now, loadOk, saveOk);
      RewriteKeepsOnce(s, After(s, step));
    case Reboot(now, loadOk, saveOk) =>
      InterruptKeepsIds(s.disk, now);
      RewriteKeepsOnce(s, After(s, step));
    case _ => RewriteKeepsOnce(s, After(s, step));
  }

  lemma {:induction false} SameIdsReflexive(d: seq<OperationRecord>)
    ensures SameIds(d, d)
  {
  }

  lemma {:induction false} RunKeepsOnce(steps: seq<Step>)
    requires ValidRun(INITIAL, steps)
    ensures OnceInv(FinalState(INITIAL, steps))
    decreases |steps|
  {
    hide Enabled, After;
    if steps == [] {
      InitialOnce();
    } else {
      RunKeepsOnce(steps[..|steps| - 1]);
      StepKeepsOnce(FinalState(INITIAL, steps[..|steps| - 1]), steps[|steps| - 1]);
    }
  }

  lemma {:induction false} InitialOnce()
    ensures OnceInv(INITIAL)
  {
  }

  /**
    At-most-once execution: whatever requests interleave, whatever names they carry, whatever loads and
    saves fail and however often the agent crashes and restarts, no request id is granted a handle twice,
    and every granted id is in the journal for good.
   */
  lemma {:induction false} AtMostOnce(steps: seq<Step>)
    requires ValidRun(INITIAL, steps)
    ensures var s := FinalState(INITIAL, steps);
      && (forall i, j :: 0 <= i < j < |s.grants| ==> s.grants[i] != s.grants[j])
      && (forall i :: 0 <= i < |s.grants| ==> FindRequest(s.disk, s.grants[i]) >= 0)
      && UniqueIds(s.disk)
  {
    hide ValidRun, FinalState, FindRequest, IdsTrimmed, MutexOk;
    RunKeepsOnce(steps);
  }
}
