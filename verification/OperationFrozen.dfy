/**
  What a run can do to the records of the journal, for every module name: records are appended, a running
  record is settled by its own handle or by a restart, and a settled record stays.
 */
module OperationFrozen {
  import opened GoStrings
  import opened ModuleNames
  import opened Outcomes
  import opened OperationRecords
  import opened OperationProtocol
  import opened OperationOnce

  // ---------- what a save does to a record ----------

  /** Another normalisation can change the module name at most, and a running record has no result and no error yet. */
  predicate NearCanonical(r: OperationRecord) {
    NormalizeRecord(r) == r.(module_ := NormalizeModuleName(r.module_)) && (r.status == Running ==> Open(r))
  }

  predicate NearDisk(d: seq<OperationRecord>) {
    forall i :: 0 <= i < |d| ==> NearCanonical(d[i])
  }

  lemma {:induction false} NormalizedIsNear(r: OperationRecord)
    requires r.status == Running ==> Open(r)
    ensures NearCanonical(NormalizeRecord(r)) && NormalizeRecord(r).status == r.status
  {
    hide NormalizeModuleName, TrimSpace, NormalizeResult;
    TrimSpaceIdempotent(r.requestID);
    TrimSpaceIdempotent(r.errorText);
    NormalizeResultIdempotent(r.result);
    if r.status == Running {
      OpenStays(r);
    }
  }

  lemma {:induction false} NearNormalized(r: OperationRecord)
    requires NearCanonical(r)
    ensures RipensTo(r, NormalizeRecord(r)) && NormalizeRecord(r).status == r.status
  {
    hide NormalizeModuleName, TrimSpace, NormalizeResult;
    NormalizeShortens(r.module_);
  }

  lemma {:induction false} NearIsOpen(r: OperationRecord)
    requires NearCanonical(r)
    ensures r.status == Running ==> Open(r)
  {
  }

  /** Loading and saving a journal lets its records ripen. */
  lemma {:induction false} NormalizeRipens(d: seq<OperationRecord>)
    requires NearDisk(d)
    ensures Ripens(d, NormalizeAll(d)) && NearDisk(NormalizeAll(d))
    ensures forall i :: 0 <= i < |d| ==> NormalizeAll(d)[i].status == d[i].status
  {
    hide NormalizeModuleName, NormalizeRecord, RipensTo, NearCanonical;
    forall i | 0 <= i < |d|
      ensures RipensTo(d[i], NormalizeAll(d)[i]) && NormalizeAll(d)[i].status == d[i].status && NearCanonical(NormalizeAll(d)[i])
    {
      NearNormalized(d[i]);
      NearIsOpen(d[i]);
      NormalizedIsNear(d[i]);
    }
  }

  lemma {:induction false} NewIsNear(action: Action, module_: string, id: string, now: nat)
    ensures var r := NewRecord(action, module_, id, now);
      NearCanonical(r) && r.requestID == TrimSpace(id) && r.status == Running
  {
    NormalizedIsNear(OperationRecord(id, action, module_, Running, Validate, now, now, None, "", None));
    hide NormalizeModuleName, TrimSpace;
  }

  /** A running record may be rewritten by its handle. */
  lemma {:induction false} RewrittenRipens(r: OperationRecord, w: Rewrite, now: nat)
    requires NearCanonical(r) && r.status == Running
    ensures RipensTo(r, Rewritten(r, w, now)) && NearCanonical(Rewritten(r, w, now))
    ensures w.ToStage? ==> Rewritten(r, w, now).status == Running
  {
    hide NormalizeModuleName, TrimSpace, NormalizeResult;
    if w.ToOutcome? {
      match w.outcome
      case Succeeded(result) =>
        EmptyStays();
        NormalizeResultIdempotent(result);
      case FailedWith(text) => TrimSpaceIdempotent(text);
    }
  }

  lemma {:induction false} InterruptedRipens(r: OperationRecord, now: nat)
    requires NearCanonical(r)
    ensures RipensTo(r, Interrupt(r, now)) && NearCanonical(Interrupt(r, now))
  {
    TrimSpaceIdempotent(TrimSpace(r.errorText));
    TrimSpaceIdempotent(RESTART_ERROR);
    hide NormalizeModuleName, TrimSpace, NormalizeResult;
  }

  // ---------- the invariant ----------

  /** A handle's record is in the journal, and runs until the handle is settled. */
  predicate HandleFine(d: seq<OperationRecord>, th: Thread) {
    HasHandle(th) ==>
      && TrimSpace(IdOf(th)) == IdOf(th)
      && var i := FindRequest(d, IdOf(th)); i >= 0 && (!th.Releasing? ==> d[i].status == Running)
  }

  predicate FrozenInv(s: State) {
    && OnceInv(s) && NearDisk(s.disk) && DistinctIds(s)
    && forall t :: t in s.threads ==> HandleFine(s.disk, s.threads[t])
  }

  /** Only the record of goroutine `t` stopped running. */
  ghost predicate OnlySettles(s: State, disk: seq<OperationRecord>, t: nat) {
    && |s.disk| <= |disk|
    && (forall id :: FindRequest(s.disk, id) >= 0 ==> FindRequest(disk, id) == FindRequest(s.disk, id))
    && forall i :: 0 <= i < |s.disk| && s.disk[i].status == Running && disk[i].status != Running ==>
         t in s.threads && HasHandle(s.threads[t]) && i == FindRequest(s.disk, IdOf(s.threads[t]))
  }

  /** The handles of the others stay fine. */
  lemma {:induction false} OthersFine(s: State, disk: seq<OperationRecord>, t: nat, u: nat)
    requires FrozenInv(s) && OnlySettles(s, disk, t) && u in s.threads && u != t
    ensures HandleFine(disk, s.threads[u])
  {
    hide FindRequest, TrimSpace, OnceInv, NearDisk;
    assert HandleFine(s.disk, s.threads[u]);
    if HasHandle(s.threads[u]) {
      var i := FindRequest(s.disk, IdOf(s.threads[u]));
      if t in s.threads && HasHandle(s.threads[t]) {
        assert IdOf(s.threads[u]) != IdOf(s.threads[t]);
        assert HandleFine(s.disk, s.threads[t]);
      }
    }
  }

  /** One goroutine moves, on a journal in which only its own record may have been settled. */
  lemma {:induction false} MoveKeeps(s: State, s': State, t: nat)
    requires FrozenInv(s) && OnceInv(s') && NearDisk(s'.disk) && OnlyMoves(s, s', t) && OnlySettles(s, s'.disk, t)
    requires t in s'.threads ==> HandleFine(s'.disk, s'.threads[t])
    requires t in s'.threads && HasHandle(s'.threads[t]) ==>
      || (t in s.threads && HasHandle(s.threads[t]) && IdOf(s.threads[t]) == IdOf(s'.threads[t]))
      || FindRequest(s.disk, IdOf(s'.threads[t])) == -1
    ensures FrozenInv(s')
  {
    hide FindRequest, OnceInv, NearDisk, HandleFine, HasHandle, OnlySettles;
    forall u | u in s.threads && u != t
      ensures HandleFine(s'.disk, s.threads[u])
      ensures t in s'.threads && HasHandle(s'.threads[t]) && HasHandle(s.threads[u]) ==> IdOf(s.threads[u]) != IdOf(s'.threads[t])
    {
      OthersFine(s, s'.disk, t, u);
      HandleFound(s, u);
    }
    IdsStayDistinct(s, s', t);
  }

  lemma {:induction false} HandleFound(s: State, u: nat)
    requires FrozenInv(s) && u in s.threads
    ensures HasHandle(s.threads[u]) ==> FindRequest(s.disk, IdOf(s.threads[u])) >= 0
  {
    hide FindRequest, OnceInv, NearDisk, DistinctIds;
    assert HandleFine(s.disk, s.threads[u]);
  }

  lemma {:induction false} SameDiskSettles(s: State, t: nat)
    ensures OnlySettles(s, s.disk, t)
  {
    hide FindRequest;
  }

  // ---------- the steps ----------

  /** What a handle's rewrite does to the journal. */
  lemma {:induction false} RewriteRipens(d: seq<OperationRecord>, held: OperationRecord, w: Rewrite, now: nat,
                                         loadOk: bool, saveOk: bool)
    requires NearDisk(d) && IdsTrimmed(d) && TrimSpace(held.requestID) == held.requestID
    requires FindRequest(d, held.requestID) >= 0 && d[FindRequest(d, held.requestID)].status == Running
    ensures var (e, held') := RewriteSpec(d, held, w, now, loadOk, saveOk);
      var i := FindRequest(d, held.requestID);
      && Ripens(d, e) && NearDisk(e) && SameIds(d, e) && held'.requestID == held.requestID
      && (forall k :: 0 <= k < |d| && k != i ==> e[k].status == d[k].status)
      && (w.ToStage? ==> e[i].status == Running)
  {
    hide TrimSpace, NormalizeModuleName, FindRequest, NearCanonical, NormalizeRecord, RipensTo, Rewritten;
    RewriteKeepsIds(d, held, w, now, loadOk, saveOk);
    RipensItself(d);
    NormalizeRipens(d);
    NormalizeKeepsIds(d);
    var records := NormalizeAll(d);
    SameIdsSameAnswers(d, records);
    var i := FindRequest(d, held.requestID);
    var r := Rewritten(records[i], w, now);
    RewrittenRipens(records[i], w, now);
    NearIsOpen(r);
    NormalizedIsNear(r);
    var e := records[i := r];
    forall k | 0 <= k < |d|
      ensures RipensTo(records[k], e[k]) && NearCanonical(e[k])
    {
      RipensItself(records);
    }
    NormalizeRipens(e);
    RipensThen(d, records, e);
    RipensThen(d, e, NormalizeAll(e));
    RewrittenId(records[i], w, now);
  }

  lemma {:induction false} RewrittenId(r: OperationRecord, w: Rewrite, now: nat)
    ensures NormalizeRecord(Rewritten(r, w, now)).requestID == TrimSpace(r.requestID)
  {
    hide TrimSpace, NormalizeModuleName, NormalizeResult;
  }

  lemma {:induction false} RewriteKeepsFrozen(s: State, t: nat, w: Rewrite, now: nat, loadOk: bool, saveOk: bool, s': State)
    requires FrozenInv(s) && OnceInv(s') && t in s.threads && s.threads[t].Active?
    requires var (disk, held) := RewriteSpec(s.disk, s.threads[t].held, w, now, loadOk, saveOk);
      s' == s.(disk := disk, threads := s.threads[t := if w.ToStage? then Active(held) else Releasing(held)])
    ensures FrozenInv(s') && Ripens(s.disk, s'.disk)
  {
    hide FindRequest, TrimSpace, RewriteSpec, DistinctIds, MutexOk, GrantsOk, PendingOk, UniqueIds, IdsTrimmed, NearDisk, SameIds,
      Ripens;
    assert HandleFine(s.disk, s.threads[t]);
    RewriteRipens(s.disk, s.threads[t].held, w, now, loadOk, saveOk);
    SameIdsSameAnswers(s.disk, s'.disk);
    SameIdsLength(s.disk, s'.disk);
    MoveKeeps(s, s', t);
  }

  lemma {:induction false} SameIdsLength(d: seq<OperationRecord>, e: seq<OperationRecord>)
    requires SameIds(d, e)
    ensures |d| == |e|
  {
  }

  lemma {:induction false} AppendRipens(d: seq<OperationRecord>, r: OperationRecord)
    requires NearDisk(d) && IdsTrimmed(d) && NearCanonical(r) && r.status == Running
    requires TrimSpace(r.requestID) == r.requestID && FindRequest(d, r.requestID) == -1
    ensures var e := NormalizeAll(NormalizeAll(d) + [r]);
      && Ripens(d, e) && NearDisk(e) && |e| == |d| + 1 && FindRequest(e, r.requestID) == |d|
      && forall i :: 0 <= i <= |d| ==> e[i].status == if i < |d| then d[i].status else Running
  {
    hide TrimSpace, NormalizeModuleName, FindRequest, NearCanonical, NormalizeRecord, RipensTo;
    NormalizeRipens(d);
    NormalizeKeepsIds(d);
    var records := NormalizeAll(d);
    SameIdsSameAnswers(d, records);
    var e := records + [r];
    RipensItself(records);
    assert forall i :: 0 <= i < |d| ==> e[i] == records[i];
    RipensThen(d, records, e);
    NormalizeRipens(e);
    RipensThen(d, e, NormalizeAll(e));
    FindSurvivesAppend(records, r, r.requestID);
    NormalizeKeepsIds(e);
    SameIdsSameAnswers(e, NormalizeAll(e));
  }

  lemma {:induction false} SaveKeepsFrozen(s: State, t: nat, now: nat, saveOk: bool)
    requires FrozenInv(s) && Enabled(s, BeginSave(t, now, saveOk))
    ensures FrozenInv(ApplySave(s, t, now, saveOk)) && Ripens(s.disk, ApplySave(s, t, now, saveOk).disk)
  {
    hide FindRequest, TrimSpace, DistinctIds, MutexOk, GrantsOk, UniqueIds, IdsTrimmed, NearDisk, NewRecord, NearCanonical, Ripens,
      NormalizeAll;
    SaveKeepsOnce(s, t, now, saveOk);
    var th, s' := s.threads[t], ApplySave(s, t, now, saveOk);
    assert PendingOk(s.disk, th);
    var r := NewRecord(th.action, th.module_, th.id, now);
    NewIsNear(th.action, th.module_, th.id, now);
    RipensItself(s.disk);
    SameDiskSettles(s, t);
    if saveOk {
      AppendRipens(s.disk, r);
      forall id | FindRequest(s.disk, id) >= 0
        ensures FindRequest(s'.disk, id) == FindRequest(s.disk, id)
      {
        RipeFound(s.disk, s'.disk, id);
      }
    }
    MoveKeeps(s, s', t);
  }

  lemma {:induction false} InterruptRipens(d: seq<OperationRecord>, now: nat)
    requires NearDisk(d)
    ensures var e := NormalizeAll(InterruptAll(NormalizeAll(d), now)); Ripens(d, e) && NearDisk(e)
  {
    hide TrimSpace, NormalizeModuleName, NearCanonical, NormalizeRecord, RipensTo, Interrupt;
    NormalizeRipens(d);
    var records := NormalizeAll(d);
    var e := InterruptAll(records, now);
    forall i | 0 <= i < |d|
      ensures RipensTo(records[i], e[i]) && NearCanonical(e[i])
    {
      InterruptedRipens(records[i], now);
    }
    RipensThen(d, records, e);
    NormalizeRipens(e);
    RipensThen(d, e, NormalizeAll(e));
  }

  lemma {:induction false} ScanChanges(s: State, t: nat, action: Action, rawModule: string, rawID: string, loadOk: bool)
    ensures var s' := ApplyScan(s, t, action, rawModule, rawID, loadOk);
      s'.disk == s.disk && (s' == s || (OnlyMoves(s, s', t) && t in s'.threads && s'.threads[t].AtLock?))
  {
    hide TrimSpace, NormalizeModuleName, NormalizeAll, Scan;
  }

  lemma {:induction false} StepKeepsFrozen(s: State, step: Step)
    requires FrozenInv(s) && Enabled(s, step)
    ensures FrozenInv(After(s, step)) && Ripens(s.disk, After(s, step).disk)
  {
    hide FindRequest, TrimSpace, OnceInv, DistinctIds, NearDisk, RewriteSpec, AcquireLock, ReleaseLock, NormalizeAll, NewRecord, ApplyScan,
      ApplySave, AnyRunning, Ripens, OnlySettles, FrozenInv;
    FrozenParts(s);
    StepKeepsOnce(s, step);
    RipensItself(s.disk);
    var s' := After(s, step);
    match step
    case BeginScan(t, action, rawModule, rawID, loadOk) =>
      ScanChanges(s, t, action, rawModule, rawID, loadOk);
      SameDiskSettles(s, t);
      if s' != s {
        MoveKeeps(s, s', t);
      }
    case BeginSave(t, now, saveOk) => SaveKeepsFrozen(s, t, now, saveOk);
    case SetStage(t, stage, now, loadOk, saveOk) => RewriteKeepsFrozen(s, t, ToStage(stage), now, loadOk, saveOk, s');
    case Finish(t, outcome, now, loadOk, saveOk) => RewriteKeepsFrozen(s, t, ToOutcome(outcome), now, loadOk, saveOk, s');
    case Crash => NobodyLeft(s');
    case Reboot(now, loadOk, saveOk) =>
      InterruptRipens(s.disk, now);
      NobodyLeft(s');
    case BeginAcquire(t) =>
      SameDiskSettles(s, t);
      MoveKeeps(s, s', t);
    case BeginUndo(t) =>
      SameDiskSettles(s, t);
      MoveKeeps(s, s', t);
    case ReleaseLockStep(t) =>
      SameDiskSettles(s, t);
      MoveKeeps(s, s', t);
    case Abandon(t) =>
      SameDiskSettles(s, t);
      AbandonedFine(s, t);
      MoveKeeps(s, s', t);
  }

  lemma {:induction false} FrozenParts(s: State)
    requires FrozenInv(s)
    ensures OnceInv(s) && NearDisk(s.disk) && (!s.up ==> s.threads == map[])
  {
    hide FindRequest, TrimSpace, NearDisk, DistinctIds, MutexOk, GrantsOk, PendingOk, UniqueIds, IdsTrimmed;
  }

  lemma {:induction false} NobodyLeft(s: State)
    requires OnceInv(s) && NearDisk(s.disk) && s.threads == map[]
    ensures FrozenInv(s)
  {
    hide OnceInv, NearDisk;
  }

  lemma {:induction false} AbandonedFine(s: State, t: nat)
    requires FrozenInv(s) && t in s.threads && s.threads[t].Active?
    ensures HandleFine(s.disk, Abandoned(s.threads[t].held))
  {
    hide FindRequest, TrimSpace, OnceInv, NearDisk, DistinctIds;
    assert HandleFine(s.disk, s.threads[t]);
  }

  // ---------- runs ----------

  lemma {:induction false} RunKeepsFrozen(steps: seq<Step>)
    requires ValidRun(INITIAL, steps)
    ensures FrozenInv(FinalState(INITIAL, steps))
    decreases |steps|
  {
    hide Enabled, After, FrozenInv;
    if steps == [] {
      InitialFrozen();
    } else {
      RunKeepsFrozen(steps[..|steps| - 1]);
      StepKeepsFrozen(FinalState(INITIAL, steps[..|steps| - 1]), steps[|steps| - 1]);
    }
  }

  lemma {:induction false} InitialFrozen()
    ensures FrozenInv(INITIAL)
  {
  }

  /**
    For every module name, every interleaving, failed load or save, crash and restart: whatever a run does
    after its first k steps, every record the journal had then is still there for the same request and
    action, and if it was settled it has kept its status, result, error and times.
   */
  lemma {:induction false} RecordsOnlyRipen(steps: seq<Step>, k: nat)
    requires ValidRun(INITIAL, steps) && k <= |steps|
    ensures ValidRun(INITIAL, steps[..k])
    ensures Ripens(FinalState(INITIAL, steps[..k]).disk, FinalState(INITIAL, steps).disk)
    decreases |steps|
  {
    hide Enabled, After, Ripens, FrozenInv;
    if k == |steps| {
      assert steps[..k] == steps;
      RipensItself(FinalState(INITIAL, steps).disk);
    } else {
      var before, last := steps[..|steps| - 1], steps[|steps| - 1];
      assert before[..k] == steps[..k];
      RecordsOnlyRipen(before, k);
      RunKeepsFrozen(before);
      StepKeepsFrozen(FinalState(INITIAL, before), last);
      RipensThen(FinalState(INITIAL, steps[..k]).disk, FinalState(INITIAL, before).disk, FinalState(INITIAL, steps).disk);
    }
  }
}
