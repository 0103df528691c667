/**
  The journal as a protocol: RPC goroutines, the journal mutex, the lock table, failed loads and
  saves, crashes and restarts, interleaved step by step.

  `beginOperation` keeps the journal mutex from its scan to its return but takes the lock-table
  mutex only for single accesses, so a release of another goroutine can fall between its scan,
  its acquire and its save. `Complete` and `Fail` write the journal first and release the module
  lock in a later step, after the journal mutex is free.
 */
module OperationProtocol {
  import opened GoStrings
  import opened ModuleNames
  import opened Outcomes
  import opened OperationRecords

  /** Where an RPC goroutine stands. A goroutine that returned is no longer in the table. */
  datatype Thread =
    | AtLock(action: Action, module_: string, id: string, records: seq<OperationRecord>)
    | AtSave(action: Action, module_: string, id: string, records: seq<OperationRecord>)
    | AtUndo(module_: string, id: string)
    | Active(held: OperationRecord)
    | Releasing(held: OperationRecord)
    | Abandoned(held: OperationRecord)

  /** `grants` records, in order, the request ids for which `beginOperation` returned a handle. */
  datatype State = State(
    up: bool,
    disk: seq<OperationRecord>,
    mu: Option<nat>,
    locks: map<string, string>,
    threads: map<nat, Thread>,
    grants: seq<string>)

  datatype Step =
    | BeginScan(t: nat, action: Action, rawModule: string, rawID: string, loadOk: bool)
    | BeginAcquire(t: nat)
    | BeginSave(t: nat, now: nat, saveOk: bool)
    | BeginUndo(t: nat)
    | SetStage(t: nat, stage: Stage, now: nat, loadOk: bool, saveOk: bool)
    | Finish(t: nat, outcome: Outcome, now: nat, loadOk: bool, saveOk: bool)
    | ReleaseLockStep(t: nat)
    | Abandon(t: nat)
    | Crash
    | Reboot(now: nat, loadOk: bool, saveOk: bool)

  const INITIAL := State(false, [], None, map[], map[], [])

  predicate Enabled(s: State, step: Step) {
    match step
    case BeginScan(t, _, _, _, _) => s.up && t !in s.threads && s.mu.None?
    case BeginAcquire(t) => t in s.threads && s.threads[t].AtLock?
    case BeginSave(t, _, _) => t in s.threads && s.threads[t].AtSave?
    case BeginUndo(t) => t in s.threads && s.threads[t].AtUndo?
    case SetStage(t, _, _, _, _) => t in s.threads && s.threads[t].Active? && s.mu.None?
    case Finish(t, _, _, _, _) => t in s.threads && s.threads[t].Active? && s.mu.None?
    case ReleaseLockStep(t) => t in s.threads && s.threads[t].Releasing?
    case Abandon(t) => t in s.threads && s.threads[t].Active?
    case Crash => s.up
    case Reboot(_, _, _) => !s.up
  }

  function After(s: State, step: Step): State
    requires Enabled(s, step)
  {
    match step
    case BeginScan(t, action, rawModule, rawID, loadOk) => ApplyScan(s, t, action, rawModule, rawID, loadOk)
    case BeginAcquire(t) => ApplyAcquire(s, t)
    case BeginSave(t, now, saveOk) => ApplySave(s, t, now, saveOk)
    case BeginUndo(t) =>
      var th := s.threads[t];
      s.(mu := None, locks := ReleaseLock(s.locks, th.module_, th.id), threads := s.threads - {t})
    case SetStage(t, stage, now, loadOk, saveOk) =>
      var (disk, held) := RewriteSpec(s.disk, s.threads[t].held, ToStage(stage), now, loadOk, saveOk);
      s.(disk := disk, threads := s.threads[t := Active(held)])
    case Finish(t, outcome, now, loadOk, saveOk) =>
      var (disk, held) := RewriteSpec(s.disk, s.threads[t].held, ToOutcome(outcome), now, loadOk, saveOk);
      s.(disk := disk, threads := s.threads[t := Releasing(held)])
    case ReleaseLockStep(t) =>
      var held := s.threads[t].held;
      s.(locks := ReleaseLock(s.locks, held.module_, held.requestID), threads := s.threads - {t})
    case Abandon(t) => s.(threads := s.threads[t := Abandoned(s.threads[t].held)])
    case Crash => s.(up := false, mu := None, locks := map[], threads := map[])
    case Reboot(now, loadOk, saveOk) => ApplyRestart(s, now, loadOk, saveOk)
  }

  function ApplyScan(s: State, t: nat, action: Action, rawModule: string, rawID: string, loadOk: bool): State {
    var module_, id := NormalizeModuleName(rawModule), TrimSpace(rawID);
    if module_ == "" || id == "" || !loadOk then s
    else
      var records := NormalizeAll(s.disk);
      if Scan(records, module_, id).Clear? then
        s.(mu := Some(t), threads := s.threads[t := AtLock(action, module_, id, records)])
      else s
  }

  function ApplyAcquire(s: State, t: nat): State
    requires t in s.threads && s.threads[t].AtLock?
  {
    var th := s.threads[t];
    match AcquireLock(s.locks, th.module_, th.id)
    case None => s.(mu := None, threads := s.threads - {t})
    case Some(locks) =>
      s.(locks := locks, threads := s.threads[t := AtSave(th.action, th.module_, th.id, th.records)])
  }

  function ApplySave(s: State, t: nat, now: nat, saveOk: bool): State
    requires t in s.threads && s.threads[t].AtSave?
  {
    var th := s.threads[t];
    var record := NewRecord(th.action, th.module_, th.id, now);
    if saveOk then
      s.(disk := NormalizeAll(th.records + [record]), mu := None,
         threads := s.threads[t := Active(record)], grants := s.grants + [th.id])
    else s.(threads := s.threads[t := AtUndo(th.module_, th.id)])
  }

  predicate AnyRunning(disk: seq<OperationRecord>) {
    exists i :: 0 <= i < |disk| && disk[i].status == Running
  }

  /** The agent serves RPCs only after `InitializeRuntimeState` succeeded. */
  function ApplyRestart(s: State, now: nat, loadOk: bool, saveOk: bool): State {
    if !loadOk then s
    else if !AnyRunning(s.disk) then s.(up := true)
    else if saveOk then s.(up := true, disk := NormalizeAll(InterruptAll(NormalizeAll(s.disk), now)))
    else s
  }

  /** Runs, last step first peeled. */
  predicate ValidRun(s: State, steps: seq<Step>)
    decreases |steps|, 0
  {
    steps == [] ||
    (ValidRun(s, steps[..|steps| - 1]) && Enabled(FinalState(s, steps[..|steps| - 1]), steps[|steps| - 1]))
  }

  function FinalState(s: State, steps: seq<Step>): State
    requires ValidRun(s, steps)
    decreases |steps|, 1
  {
    if steps == [] then s
    else After(FinalState(s, steps[..|steps| - 1]), steps[|steps| - 1])
  }

  /** One normalisation settles the requested name, or a second one empties it (and the lock refuses it). */
  predicate Coherent(rawModule: string) {
    Stable(rawModule) || NormalizeModuleName(NormalizeModuleName(rawModule)) == ""
  }

  predicate StepNameCoherent(step: Step) {
    step.BeginScan? ==> Coherent(step.rawModule)
  }

  predicate NamesCoherent(steps: seq<Step>) {
    forall i :: 0 <= i < |steps| ==> StepNameCoherent(steps[i])
  }

  // ---------- the invariant ----------

  predicate UniqueIds(d: seq<OperationRecord>) {
    forall i, j :: 0 <= i < j < |d| ==> d[i].requestID != d[j].requestID
  }

  predicate OneRunning(d: seq<OperationRecord>) {
    forall i, j :: 0 <= i < j < |d| && d[i].status == Running && d[j].status == Running ==> d[i].module_ != d[j].module_
  }

  predicate DiskOk(d: seq<OperationRecord>) {
    AllCanonical(d) && UniqueIds(d) && OneRunning(d)
  }

  function IdOf(th: Thread): string {
    if th.AtLock? || th.AtSave? || th.AtUndo? then th.id else th.held.requestID
  }

  function ModuleOf(th: Thread): string {
    if th.AtLock? || th.AtSave? || th.AtUndo? then th.module_ else th.held.module_
  }

  /** Between a successful acquire and the release. */
  predicate HoldsLock(th: Thread) {
    !th.AtLock?
  }

  /** Inside `beginOperation`, under the journal mutex. */
  predicate InBegin(th: Thread) {
    th.AtLock? || th.AtSave? || th.AtUndo?
  }

  predicate HasHandle(th: Thread) {
    th.Active? || th.Releasing? || th.Abandoned?
  }

  predicate NamesOk(th: Thread) {
    && TrimSpace(IdOf(th)) == IdOf(th)
    && (NormalizeModuleName(ModuleOf(th)) == ModuleOf(th) || (th.AtLock? && NormalizeModuleName(ModuleOf(th)) == ""))
    && (HoldsLock(th) ==> ModuleOf(th) != "")
  }

  predicate BeginOk(d: seq<OperationRecord>, th: Thread) {
    && (InBegin(th) ==> FindRequest(d, IdOf(th)) == -1)
    && (th.AtLock? || th.AtSave? ==> th.records == d && !ModuleBusy(d, th.module_))
  }

  /** A handle has its record in the journal, still running until the handle is settled. */
  predicate HandleOk(d: seq<OperationRecord>, th: Thread) {
    HasHandle(th) ==>
      && Canonical(th.held)
      && var i := FindRequest(d, IdOf(th));
         i >= 0 && SameOperation(d[i], th.held) && (!th.Releasing? ==> d[i].status == Running)
  }

  predicate LockOk(locks: map<string, string>, th: Thread) {
    HoldsLock(th) ==> ModuleOf(th) in locks && locks[ModuleOf(th)] == IdOf(th)
  }

  predicate ThreadOk(d: seq<OperationRecord>, locks: map<string, string>, th: Thread) {
    NamesOk(th) && BeginOk(d, th) && HandleOk(d, th) && LockOk(locks, th)
  }

  predicate ThreadsOk(s: State) {
    forall t :: t in s.threads ==> ThreadOk(s.disk, s.locks, s.threads[t])
  }

  predicate MutexOk(s: State) {
    && (s.mu.Some? ==> s.mu.value in s.threads && InBegin(s.threads[s.mu.value]))
    && forall t :: t in s.threads && InBegin(s.threads[t]) ==> s.mu == Some(t)
  }

  predicate DistinctIds(s: State) {
    forall t, u :: t in s.threads && u in s.threads && t != u && HasHandle(s.threads[t]) && HasHandle(s.threads[u]) ==>
      IdOf(s.threads[t]) != IdOf(s.threads[u])
  }

  /** No lock without a goroutine that will, or forgot to, release it. */
  predicate LocksHeld(s: State) {
    forall m :: m in s.locks ==> exists t :: t in s.threads && HoldsLock(s.threads[t]) && ModuleOf(s.threads[t]) == m
  }

  predicate GrantsOk(s: State) {
    && (forall i :: 0 <= i < |s.grants| ==> FindRequest(s.disk, s.grants[i]) >= 0)
    && (forall i, j :: 0 <= i < j < |s.grants| ==> s.grants[i] != s.grants[j])
  }

  predicate Inv(s: State) {
    && DiskOk(s.disk)
    && ThreadsOk(s)
    && MutexOk(s)
    && DistinctIds(s)
    && LocksHeld(s)
    && GrantsOk(s)
    && (!s.up ==> s.threads == map[])
  }

  // ---------- facts about single operations, free of string detail ----------

  lemma {:induction false} FindSurvivesAppend(d: seq<OperationRecord>, r: OperationRecord, id: string)
    ensures FindRequest(d, id) >= 0 ==> FindRequest(d + [r], id) == FindRequest(d, id)
    ensures FindRequest(d, id) == -1 ==> FindRequest(d + [r], id) == if TrimSpace(r.requestID) == id then |d| else -1
  {
    hide FindRequest, TrimSpace;
    var e := d + [r];
    assert forall i :: 0 <= i < |d| ==> e[i] == d[i];
    assert e[|d|] == r;
  }

  lemma {:induction false} FindSurvivesRewrite(d: seq<OperationRecord>, e: seq<OperationRecord>, id: string)
    requires |d| == |e| && forall k :: 0 <= k < |d| ==> e[k].requestID == d[k].requestID
    ensures FindRequest(e, id) == FindRequest(d, id)
  {
    hide FindRequest, TrimSpace;
  }

  lemma {:induction false} NewRecordFacts(action: Action, module_: string, id: string, now: nat)
    requires NormalizeModuleName(module_) == module_ && TrimSpace(id) == id
    ensures var r := NewRecord(action, module_, id, now);
      Canonical(r) && r.requestID == id && r.module_ == module_ && r.status == Running && r.action == action
  {
    TrimCleanText("", IsSpace);
    hide NormalizeModuleName, TrimSpace;
  }

  lemma {:induction false} RewriteFacts(d: seq<OperationRecord>, held: OperationRecord, w: Rewrite, now: nat,
                                        loadOk: bool, saveOk: bool)
    requires AllCanonical(d) && TrimSpace(held.requestID) == held.requestID && FindRequest(d, held.requestID) >= 0
    ensures var i := FindRequest(d, held.requestID);
      var r := Rewritten(d[i], w, now);
      && RewriteSpec(d, held, w, now, loadOk, saveOk)
         == (if loadOk && saveOk then d[i := r] else d, if loadOk then r else held)
      && Canonical(r) && SameOperation(r, d[i])
      && (w.ToStage? ==> r.status == d[i].status)
      && (w.ToOutcome? ==> r.status != Running)
  {
    var i := FindRequest(d, held.requestID);
    CanonicalDiskIsFixed(d);
    assert Canonical(d[i]);
    if w.ToOutcome? {
      SettledIsCanonical(d[i], w.outcome, now);
    }
    var r := Rewritten(d[i], w, now);
    assert Canonical(r) by {
      hide NormalizeModuleName, TrimSpace, NormalizeResult;
    }
    hide NormalizeRecord, TrimSpace, NormalizeModuleName, NormalizeResult;
    CanonicalDiskIsFixed(d[i := r]);
  }

  /** Locks and names that are already normal. */
  lemma {:induction false} LockFacts(locks: map<string, string>, m: string, id: string)
    requires TrimSpace(id) == id
    requires m in locks ==> TrimSpace(locks[m]) == locks[m]
    requires NormalizeModuleName(m) == m || NormalizeModuleName(m) == ""
    ensures NormalizeModuleName(m) == "" ==> AcquireLock(locks, m, id) == None && ReleaseLock(locks, m, id) == locks
    ensures NormalizeModuleName(m) == m != "" ==>
      && AcquireLock(locks, m, id) == (if m in locks && locks[m] != id then None else Some(locks[m := id]))
      && ReleaseLock(locks, m, id) == (if m in locks && locks[m] == id then locks - {m} else locks)
  {
    hide NormalizeModuleName, TrimSpace;
  }

  /** A lock entry is the trimmed id of some goroutine. */
  lemma {:induction false} LockEntriesTrimmed(s: State, m: string)
    requires ThreadsOk(s) && LocksHeld(s) && m in s.locks
    ensures TrimSpace(s.locks[m]) == s.locks[m]
  {
    hide TrimSpace, NormalizeModuleName, FindRequest, BeginOk, HandleOk;
    var t :| t in s.threads && HoldsLock(s.threads[t]) && ModuleOf(s.threads[t]) == m;
    assert ThreadOk(s.disk, s.locks, s.threads[t]);
  }

  // ---------- one goroutine moves, the others stay ----------

  ghost predicate OnlyMoves(s: State, s': State, t: nat) {
    forall u :: u != t ==> (u in s'.threads <==> u in s.threads) && (u in s.threads ==> s'.threads[u] == s.threads[u])
  }

  lemma {:induction false} MutexKept(s: State, s': State, t: nat)
    requires MutexOk(s) && OnlyMoves(s, s', t)
    requires s.mu == None || s.mu == Some(t) || (s'.mu == s.mu && !(t in s'.threads && InBegin(s'.threads[t])))
    requires s.mu == None || s.mu == Some(t) ==>
      s'.mu == if t in s'.threads && InBegin(s'.threads[t]) then Some(t) else None
    ensures MutexOk(s')
  {
    hide InBegin;
  }

  lemma {:induction false} IdsStayDistinct(s: State, s': State, t: nat)
    requires DistinctIds(s) && OnlyMoves(s, s', t)
    requires t in s'.threads && HasHandle(s'.threads[t]) ==>
      forall u :: u in s.threads && u != t && HasHandle(s.threads[u]) ==> IdOf(s.threads[u]) != IdOf(s'.threads[t])
    ensures DistinctIds(s')
  {
    hide HasHandle, IdOf;
  }

  lemma {:induction false} LocksStayHeld(s: State, s': State, t: nat)
    requires LocksHeld(s) && OnlyMoves(s, s', t)
    requires forall m :: m in s'.locks ==>
      m in s.locks || (t in s'.threads && HoldsLock(s'.threads[t]) && ModuleOf(s'.threads[t]) == m)
    requires t in s.threads && HoldsLock(s.threads[t]) ==>
      || ModuleOf(s.threads[t]) !in s'.locks
      || (t in s'.threads && HoldsLock(s'.threads[t]) && ModuleOf(s'.threads[t]) == ModuleOf(s.threads[t]))
    ensures LocksHeld(s')
  {
    hide HoldsLock, ModuleOf;
    forall m | m in s'.locks
      ensures exists u :: u in s'.threads && HoldsLock(s'.threads[u]) && ModuleOf(s'.threads[u]) == m
    {
      if m in s.locks {
        var u :| u in s.threads && HoldsLock(s.threads[u]) && ModuleOf(s.threads[u]) == m;
        assert u != t ==> u in s'.threads && s'.threads[u] == s.threads[u];
        assert u == t ==> t in s'.threads && HoldsLock(s'.threads[t]) && ModuleOf(s'.threads[t]) == m;
      } else {
        assert t in s'.threads && HoldsLock(s'.threads[t]) && ModuleOf(s'.threads[t]) == m;
      }
    }
  }

  lemma {:induction false} ThreadsStayOk(s: State, s': State, t: nat)
    requires ThreadsOk(s) && OnlyMoves(s, s', t)
    requires forall u :: u in s.threads && u != t ==> ThreadOk(s'.disk, s'.locks, s.threads[u])
    requires t in s'.threads ==> ThreadOk(s'.disk, s'.locks, s'.threads[t])
    ensures ThreadsOk(s')
  {
    hide ThreadOk;
  }

  /** A thread only looks at its own lock entry. */
  lemma {:induction false} ThreadIgnoresOtherLocks(d: seq<OperationRecord>, locks: map<string, string>,
                                                  locks': map<string, string>, th: Thread)
    requires ThreadOk(d, locks, th)
    requires HoldsLock(th) ==> ModuleOf(th) in locks' && (ModuleOf(th) in locks ==> locks'[ModuleOf(th)] == locks[ModuleOf(th)])
    ensures ThreadOk(d, locks', th)
  {
    hide NamesOk, BeginOk, HandleOk;
  }

  // ---------- every step keeps the invariant ----------

  /** What a scan that reaches the acquire leaves behind. */
  lemma {:induction false} ScanEffect(s: State, t: nat, action: Action, rawModule: string, rawID: string, loadOk: bool)
    requires AllCanonical(s.disk) && Coherent(rawModule) && t !in s.threads
    ensures var s' := ApplyScan(s, t, action, rawModule, rawID, loadOk);
      s' == s || exists th: Thread :: th.AtLock? && ThreadOk(s.disk, s.locks, th) && s' == s.(mu := Some(t), threads := s.threads[t := th])
  {
    var s' := ApplyScan(s, t, action, rawModule, rawID, loadOk);
    CanonicalDiskIsFixed(s.disk);
    TrimSpaceIdempotent(rawID);
    if s' != s {
      hide TrimSpace, NormalizeModuleName, FindRequest, ModuleBusy, NormalizeAll;
      var th := AtLock(action, NormalizeModuleName(rawModule), TrimSpace(rawID), s.disk);
      assert Scan(s.disk, th.module_, th.id).Clear?;
      assert ThreadOk(s.disk, s.locks, th);
      assert s' == s.(mu := Some(t), threads := s.threads[t := th]);
    }
  }

  lemma {:induction false} ScanKeeps(s: State, t: nat, action: Action, rawModule: string, rawID: string, loadOk: bool)
    requires Inv(s) && Enabled(s, BeginScan(t, action, rawModule, rawID, loadOk)) && Coherent(rawModule)
    ensures Inv(ApplyScan(s, t, action, rawModule, rawID, loadOk))
  {
    hide Coherent, ApplyScan, ThreadOk, MutexOk, DistinctIds, LocksHeld, AllCanonical, UniqueIds, OneRunning, FindRequest;
    var s' := ApplyScan(s, t, action, rawModule, rawID, loadOk);
    ScanEffect(s, t, action, rawModule, rawID, loadOk);
    if s' != s {
      assert OnlyMoves(s, s', t);
      ThreadsStayOk(s, s', t);
      MutexKept(s, s', t);
      IdsStayDistinct(s, s', t);
      LocksStayHeld(s, s', t);
      assert GrantsOk(s');
    }
  }

  /** Two goroutines between acquire and release have different request ids and different modules. */
  lemma {:induction false} HoldersExclude(s: State, t: nat, u: nat)
    requires Inv(s) && t in s.threads && u in s.threads && t != u
    requires HoldsLock(s.threads[t]) && HoldsLock(s.threads[u])
    ensures IdOf(s.threads[t]) != IdOf(s.threads[u])
    ensures ModuleOf(s.threads[t]) != ModuleOf(s.threads[u])
  {
    hide TrimSpace, NormalizeModuleName, FindRequest, AllCanonical, UniqueIds, OneRunning, ModuleBusy, SameOperation, Canonical;
    assert ThreadOk(s.disk, s.locks, s.threads[t]);
    assert ThreadOk(s.disk, s.locks, s.threads[u]);
  }

  /** `acquireModuleLock` would let the same request in again; no run ever gets there. */
  lemma {:induction false} NoReentry(s: State, t: nat)
    requires Inv(s) && t in s.threads && s.threads[t].AtLock? && s.threads[t].module_ in s.locks
    ensures s.locks[s.threads[t].module_] != s.threads[t].id
  {
    hide TrimSpace, NormalizeModuleName, FindRequest, AllCanonical, UniqueIds, OneRunning, ModuleBusy, SameOperation, Canonical;
    var m := s.threads[t].module_;
    var u :| u in s.threads && HoldsLock(s.threads[u]) && ModuleOf(s.threads[u]) == m;
    assert ThreadOk(s.disk, s.locks, s.threads[t]);
    assert ThreadOk(s.disk, s.locks, s.threads[u]);
  }

  lemma {:induction false} AcquireEffect(s: State, t: nat)
    requires Inv(s) && t in s.threads && s.threads[t].AtLock?
    ensures var th, s' := s.threads[t], ApplyAcquire(s, t);
      || s' == s.(mu := None, threads := s.threads - {t})
      || (th.module_ !in s.locks && th.module_ != "" && NormalizeModuleName(th.module_) == th.module_
          && s' == s.(locks := s.locks[th.module_ := th.id],
                      threads := s.threads[t := AtSave(th.action, th.module_, th.id, th.records)]))
  {
    hide TrimSpace, NormalizeModuleName, FindRequest, AllCanonical, UniqueIds, OneRunning, ModuleBusy, AcquireLock;
    var th := s.threads[t];
    assert ThreadOk(s.disk, s.locks, th);
    if th.module_ in s.locks {
      LockEntriesTrimmed(s, th.module_);
      NoReentry(s, t);
    }
    LockFacts(s.locks, th.module_, th.id);
  }

  lemma {:induction false} AcquireKeeps(s: State, t: nat)
    requires Inv(s) && Enabled(s, BeginAcquire(t))
    ensures Inv(ApplyAcquire(s, t))
  {
    hide ApplyAcquire, NormalizeModuleName, TrimSpace, AllCanonical, UniqueIds, OneRunning, FindRequest, MutexOk, DistinctIds,
      LocksHeld, ModuleBusy;
    AcquireEffect(s, t);
    var th, s' := s.threads[t], ApplyAcquire(s, t);
    assert ThreadOk(s.disk, s.locks, th);
    assert InBegin(th) && s.mu == Some(t) by {
      MutexNames(s, t);
    }
    assert OnlyMoves(s, s', t);
    forall u | u in s.threads && u != t
      ensures ThreadOk(s'.disk, s'.locks, s.threads[u])
    {
      assert ThreadOk(s.disk, s.locks, s.threads[u]);
      ThreadIgnoresOtherLocks(s.disk, s.locks, s'.locks, s.threads[u]);
    }
    ThreadsStayOk(s, s', t);
    MutexKept(s, s', t);
    IdsStayDistinct(s, s', t);
    LocksStayHeld(s, s', t);
  }

  lemma {:induction false} MutexNames(s: State, t: nat)
    requires MutexOk(s) && t in s.threads && InBegin(s.threads[t])
    ensures s.mu == Some(t)
  {
  }

  /** Appending the new record keeps the journal in order. */
  lemma {:induction false} AppendKeepsDisk(d: seq<OperationRecord>, r: OperationRecord)
    requires DiskOk(d) && Canonical(r) && FindRequest(d, r.requestID) == -1 && !ModuleBusy(d, r.module_)
    ensures DiskOk(d + [r]) && NormalizeAll(d + [r]) == d + [r]
  {
    hide TrimSpace, NormalizeModuleName, NormalizeResult;
    var e := d + [r];
    forall i | 0 <= i < |d|
      ensures d[i].requestID != r.requestID
      ensures d[i].status == Running ==> d[i].module_ != r.module_
    {
      assert Canonical(d[i]);
    }
    assert AllCanonical(e);
    CanonicalDiskIsFixed(e);
  }

  lemma {:induction false} SaveEffect(s: State, t: nat, now: nat, saveOk: bool)
    requires Inv(s) && t in s.threads && s.threads[t].AtSave?
    ensures var th, s' := s.threads[t], ApplySave(s, t, now, saveOk);
      var r := NewRecord(th.action, th.module_, th.id, now);
      && Canonical(r) && r.requestID == th.id && r.module_ == th.module_ && r.status == Running
      && FindRequest(s.disk, th.id) == -1 && TrimSpace(th.id) == th.id
      && DiskOk(s.disk + [r])
      && s' == if saveOk then s.(disk := s.disk + [r], mu := None, threads := s.threads[t := Active(r)],
                                 grants := s.grants + [th.id])
               else s.(threads := s.threads[t := AtUndo(th.module_, th.id)])
  {
    hide TrimSpace, NormalizeModuleName, FindRequest, AllCanonical, UniqueIds, OneRunning, ModuleBusy, NewRecord, NormalizeAll, Canonical;
    var th := s.threads[t];
    assert ThreadOk(s.disk, s.locks, th);
    NewRecordFacts(th.action, th.module_, th.id, now);
    AppendKeepsDisk(s.disk, NewRecord(th.action, th.module_, th.id, now));
  }

  /** The other goroutines do not notice the new record. */
  lemma {:induction false} AppendUnnoticed(s: State, t: nat, u: nat, r: OperationRecord)
    requires Inv(s) && t in s.threads && u in s.threads && t != u && InBegin(s.threads[t])
    requires TrimSpace(r.requestID) == r.requestID == IdOf(s.threads[t])
    ensures ThreadOk(s.disk + [r], s.locks, s.threads[u])
    ensures HasHandle(s.threads[u]) ==> IdOf(s.threads[u]) != IdOf(s.threads[t])
  {
    hide NormalizeModuleName, TrimSpace, AllCanonical, UniqueIds, OneRunning, FindRequest, DistinctIds, LocksHeld, ModuleBusy,
      Canonical, SameOperation;
    assert ThreadOk(s.disk, s.locks, s.threads[t]);
    assert ThreadOk(s.disk, s.locks, s.threads[u]);
    FindSurvivesAppend(s.disk, r, IdOf(s.threads[u]));
  }

  lemma {:induction false} SavedThreadOk(d: seq<OperationRecord>, locks: map<string, string>, th: Thread, r: OperationRecord)
    requires ThreadOk(d, locks, th) && th.AtSave?
    requires Canonical(r) && r.requestID == th.id && r.module_ == th.module_ && r.status == Running
    ensures ThreadOk(d + [r], locks, Active(r)) && ThreadOk(d, locks, AtUndo(th.module_, th.id))
  {
    hide NormalizeModuleName, TrimSpace, FindRequest, ModuleBusy, Canonical;
    FindSurvivesAppend(d, r, th.id);
  }

  lemma {:induction false} SaveKeeps(s: State, t: nat, now: nat, saveOk: bool)
    requires Inv(s) && Enabled(s, BeginSave(t, now, saveOk))
    ensures Inv(ApplySave(s, t, now, saveOk))
  {
    hide ApplySave, NewRecord, ThreadOk, TrimSpace, AllCanonical, UniqueIds, OneRunning, FindRequest, MutexOk, DistinctIds,
      LocksHeld, Canonical;
    SaveEffect(s, t, now, saveOk);
    var th, s' := s.threads[t], ApplySave(s, t, now, saveOk);
    var r := NewRecord(th.action, th.module_, th.id, now);
    SavedThreadOk(s.disk, s.locks, th, r);
    MutexNames(s, t);
    assert OnlyMoves(s, s', t);
    forall u | u in s.threads && u != t
      ensures ThreadOk(s'.disk, s'.locks, s.threads[u])
      ensures HasHandle(s.threads[u]) ==> IdOf(s.threads[u]) != th.id
    {
      AppendUnnoticed(s, t, u, r);
    }
    ThreadsStayOk(s, s', t);
    MutexKept(s, s', t);
    IdsStayDistinct(s, s', t);
    LocksStayHeld(s, s', t);
    forall i | 0 <= i < |s'.grants|
      ensures FindRequest(s'.disk, s'.grants[i]) >= 0
    {
      FindSurvivesAppend(s.disk, r, s'.grants[i]);
    }
  }

  /** A goroutine that holds its lock takes exactly its own entry out. */
  lemma {:induction false} ReleaseEffect(s: State, t: nat)
    requires Inv(s) && t in s.threads && HoldsLock(s.threads[t])
    ensures ReleaseLock(s.locks, ModuleOf(s.threads[t]), IdOf(s.threads[t])) == s.locks - {ModuleOf(s.threads[t])}
  {
    hide TrimSpace, NormalizeModuleName, FindRequest, AllCanonical, UniqueIds, OneRunning, ModuleBusy, ReleaseLock, Canonical, SameOperation;
    assert ThreadOk(s.disk, s.locks, s.threads[t]);
    LockFacts(s.locks, ModuleOf(s.threads[t]), IdOf(s.threads[t]));
  }

  /** Leaving with the lock given back: the failed save and the deferred release. */
  lemma {:induction false} LeaveKeeps(s: State, s': State, t: nat)
    requires Inv(s) && t in s.threads && HoldsLock(s.threads[t])
    requires s' == s.(mu := if InBegin(s.threads[t]) then None else s.mu,
                      locks := s.locks - {ModuleOf(s.threads[t])}, threads := s.threads - {t})
    ensures Inv(s')
  {
    hide NormalizeModuleName, TrimSpace, AllCanonical, UniqueIds, OneRunning, FindRequest, MutexOk, DistinctIds, LocksHeld,
      ModuleBusy, Canonical, SameOperation, GrantsOk, InBegin, NamesOk, BeginOk, HandleOk;
    assert OnlyMoves(s, s', t);
    forall u | u in s.threads && u != t
      ensures ThreadOk(s'.disk, s'.locks, s.threads[u])
    {
      assert ThreadOk(s.disk, s.locks, s.threads[u]);
      if HoldsLock(s.threads[u]) {
        HoldersExclude(s, t, u);
      }
      ThreadIgnoresOtherLocks(s.disk, s.locks, s'.locks, s.threads[u]);
    }
    ThreadsStayOk(s, s', t);
    if InBegin(s.threads[t]) {
      MutexNames(s, t);
    } else {
      MutexNamesOther(s, t);
    }
    MutexKept(s, s', t);
    IdsStayDistinct(s, s', t);
    LocksStayHeld(s, s', t);
    assert GrantsOk(s') by {
      SameGrants(s, s');
    }
  }

  lemma {:induction false} MutexNamesOther(s: State, t: nat)
    requires MutexOk(s) && t in s.threads && !InBegin(s.threads[t])
    ensures s.mu != Some(t)
  {
  }

  lemma {:induction false} SameGrants(s: State, s': State)
    requires GrantsOk(s) && s'.grants == s.grants && s'.disk == s.disk
    ensures GrantsOk(s')
  {
  }

  /** Replacing one record by another state of the same operation. */
  lemma {:induction false} ReplaceKeepsDisk(d: seq<OperationRecord>, i: nat, r: OperationRecord)
    requires DiskOk(d) && i < |d| && Canonical(r) && SameOperation(r, d[i])
    requires r.status == Running ==> d[i].status == Running
    ensures DiskOk(d[i := r])
    ensures forall id :: FindRequest(d[i := r], id) == FindRequest(d, id)
  {
    hide TrimSpace, NormalizeModuleName, NormalizeResult, Canonical, FindRequest;
    var e := d[i := r];
    forall id
      ensures FindRequest(e, id) == FindRequest(d, id)
    {
      FindSurvivesRewrite(d, e, id);
    }
  }

  /** Journal and goroutine after a stage update or a settlement. */
  lemma {:induction false} RewriteEffect(s: State, t: nat, w: Rewrite, now: nat, loadOk: bool, saveOk: bool)
    requires Inv(s) && t in s.threads && s.threads[t].Active?
    ensures var (disk, held) := RewriteSpec(s.disk, s.threads[t].held, w, now, loadOk, saveOk);
      var th := if w.ToStage? then Active(held) else Releasing(held);
      && ThreadOk(disk, s.locks, th) && IdOf(th) == IdOf(s.threads[t]) && ModuleOf(th) == ModuleOf(s.threads[t])
      && DiskOk(disk) && |disk| == |s.disk|
      && (forall id :: FindRequest(disk, id) == FindRequest(s.disk, id))
      && forall k :: 0 <= k < |disk| && k != FindRequest(s.disk, IdOf(s.threads[t])) ==> disk[k] == s.disk[k]
  {
    hide NormalizeModuleName, TrimSpace, AllCanonical, UniqueIds, OneRunning, FindRequest, MutexOk, DistinctIds, LocksHeld,
      ModuleBusy, Canonical, RewriteSpec, Rewritten;
    var th := s.threads[t];
    assert ThreadOk(s.disk, s.locks, th);
    RewriteFacts(s.disk, th.held, w, now, loadOk, saveOk);
    var i := FindRequest(s.disk, th.held.requestID);
    ReplaceKeepsDisk(s.disk, i, Rewritten(s.disk[i], w, now));
  }

  /** Stage updates and settlements touch the goroutine's own record only. */
  lemma {:induction false} RewriteKeeps(s: State, t: nat, w: Rewrite, now: nat, loadOk: bool, saveOk: bool)
    requires Inv(s) && t in s.threads && s.threads[t].Active? && s.mu.None?
    ensures var (disk, held) := RewriteSpec(s.disk, s.threads[t].held, w, now, loadOk, saveOk);
      Inv(s.(disk := disk, threads := s.threads[t := if w.ToStage? then Active(held) else Releasing(held)]))
  {
    hide ThreadOk, RewriteSpec, MutexOk, DistinctIds, LocksHeld, AllCanonical, UniqueIds, OneRunning, FindRequest, ModuleOf, IdOf;
    RewriteEffect(s, t, w, now, loadOk, saveOk);
    var (disk, held) := RewriteSpec(s.disk, s.threads[t].held, w, now, loadOk, saveOk);
    var s' := s.(disk := disk, threads := s.threads[t := if w.ToStage? then Active(held) else Releasing(held)]);
    assert OnlyMoves(s, s', t);
    forall u | u in s.threads && u != t
      ensures ThreadOk(s'.disk, s'.locks, s.threads[u])
      ensures HasHandle(s.threads[u]) ==> IdOf(s.threads[u]) != IdOf(s.threads[t])
    {
      OtherRecordUntouched(s, t, u, disk);
    }
    ThreadsStayOk(s, s', t);
    MutexKept(s, s', t);
    IdsStayDistinct(s, s', t);
    LocksStayHeld(s, s', t);
  }

  lemma {:induction false} OtherRecordUntouched(s: State, t: nat, u: nat, disk: seq<OperationRecord>)
    requires Inv(s) && t in s.threads && u in s.threads && t != u && HasHandle(s.threads[t]) && s.mu.None?
    requires |disk| == |s.disk|
    requires forall k :: 0 <= k < |disk| && k != FindRequest(s.disk, IdOf(s.threads[t])) ==> disk[k] == s.disk[k]
    requires forall id :: FindRequest(disk, id) == FindRequest(s.disk, id)
    ensures ThreadOk(disk, s.locks, s.threads[u])
    ensures HasHandle(s.threads[u]) ==> IdOf(s.threads[u]) != IdOf(s.threads[t])
  {
    hide NormalizeModuleName, TrimSpace, AllCanonical, UniqueIds, OneRunning, FindRequest, LocksHeld, ModuleBusy, Canonical, SameOperation;
    assert ThreadOk(s.disk, s.locks, s.threads[u]);
    if InBegin(s.threads[u]) {
      MutexNames(s, u);
    }
    assert IdOf(s.threads[u]) != IdOf(s.threads[t]);
  }

  lemma {:induction false} AbandonKeeps(s: State, t: nat)
    requires Inv(s) && t in s.threads && s.threads[t].Active?
    ensures Inv(s.(threads := s.threads[t := Abandoned(s.threads[t].held)]))
  {
    hide NormalizeModuleName, TrimSpace, DiskOk, FindRequest, MutexOk, DistinctIds, LocksHeld, ModuleBusy, Canonical, SameOperation;
    var s' := s.(threads := s.threads[t := Abandoned(s.threads[t].held)]);
    assert ThreadOk(s.disk, s.locks, s.threads[t]);
    MutexNamesOther(s, t);
    assert OnlyMoves(s, s', t);
    forall u | u in s.threads && u != t
      ensures ThreadOk(s.disk, s.locks, s.threads[u])
      ensures HasHandle(s.threads[u]) ==> IdOf(s.threads[u]) != IdOf(s.threads[t])
    {
      if HasHandle(s.threads[u]) {
        HoldersExclude(s, t, u);
      }
    }
    ThreadsStayOk(s, s', t);
    MutexKept(s, s', t);
    IdsStayDistinct(s, s', t);
    LocksStayHeld(s, s', t);
  }

  /** What a restart that has something to interrupt writes. */
  lemma {:induction false} InterruptKeepsDisk(d: seq<OperationRecord>, now: nat)
    requires DiskOk(d)
    ensures var e := NormalizeAll(InterruptAll(NormalizeAll(d), now));
      e == InterruptAll(d, now) && DiskOk(e) && !AnyRunning(e)
      && forall id :: FindRequest(e, id) == FindRequest(d, id)
  {
    hide TrimSpace, NormalizeModuleName, NormalizeResult, FindRequest, FirstNonEmpty, NormalizeRecord;
    CanonicalDiskIsFixed(d);
    var e := InterruptAll(d, now);
    forall i | 0 <= i < |d|
      ensures Canonical(e[i])
    {
      InterruptIsCanonical(d[i], now);
    }
    CanonicalDiskIsFixed(e);
    forall id
      ensures FindRequest(e, id) == FindRequest(d, id)
    {
      FindSurvivesRewrite(d, e, id);
    }
  }

  lemma {:induction false} RestartKeeps(s: State, now: nat, loadOk: bool, saveOk: bool)
    requires Inv(s) && !s.up
    ensures Inv(ApplyRestart(s, now, loadOk, saveOk))
  {
    hide TrimSpace, NormalizeModuleName, FindRequest, DiskOk, Interrupt, NormalizeRecord, AnyRunning;
    InterruptKeepsDisk(s.disk, now);
  }

  /** The inductive heart: no step of any goroutine, crash or restart breaks the invariant. */
  lemma {:induction false} StepKeepsInv(s: State, step: Step)
    requires Inv(s) && Enabled(s, step) && StepNameCoherent(step)
    ensures Inv(After(s, step))
  {
    hide Inv, ApplyScan, ApplyAcquire, ApplySave, ApplyRestart, RewriteSpec, Coherent, ReleaseLock;
    match step
    case BeginScan(t, action, rawModule, rawID, loadOk) => ScanKeeps(s, t, action, rawModule, rawID, loadOk);
    case BeginAcquire(t) => AcquireKeeps(s, t);
    case BeginSave(t, now, saveOk) => SaveKeeps(s, t, now, saveOk);
    case BeginUndo(t) =>
      ReleaseEffect(s, t);
      LeaveKeeps(s, After(s, step), t);
    case SetStage(t, stage, now, loadOk, saveOk) => RewriteKeeps(s, t, ToStage(stage), now, loadOk, saveOk);
    case Finish(t, outcome, now, loadOk, saveOk) => RewriteKeeps(s, t, ToOutcome(outcome), now, loadOk, saveOk);
    case ReleaseLockStep(t) =>
      ReleaseEffect(s, t);
      LeaveKeeps(s, After(s, step), t);
    case Abandon(t) => AbandonKeeps(s, t);
    case Crash => CrashKeeps(s);
    case Reboot(now, loadOk, saveOk) => RestartKeeps(s, now, loadOk, saveOk);
  }

  lemma {:induction false} CrashKeeps(s: State)
    requires Inv(s)
    ensures Inv(s.(up := false, mu := None, locks := map[], threads := map[]))
  {
    hide DiskOk, FindRequest;
  }

  lemma {:induction false} RunKeepsInv(s: State, steps: seq<Step>)
    requires Inv(s) && ValidRun(s, steps) && NamesCoherent(steps)
    ensures Inv(FinalState(s, steps))
    decreases |steps|
  {
    hide Inv, Enabled, After, StepNameCoherent;
    if steps != [] {
      var before, last := steps[..|steps| - 1], steps[|steps| - 1];
      assert NamesCoherent(before) && StepNameCoherent(last);
      RunKeepsInv(s, before);
      StepKeepsInv(FinalState(s, before), last);
    }
  }
}
