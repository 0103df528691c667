/**
  What the journal protocol guarantees over whole runs: at-most-once execution, mutual exclusion
  per module, frozen terminal records, and when a module is free again.
 */
module OperationSafety {
  import opened GoStrings
  import opened ModuleNames
  import opened Outcomes
  import opened OperationRecords
  import opened OperationProtocol
  import opened OperationFrozen

  // ---------- mutual exclusion ----------

  lemma {:induction false} InitialInv()
    ensures Inv(INITIAL)
  {
  }

  /**
    In every state of every run over coherent names: no two goroutines are between acquire and
    release for one module (which covers the window in which the journal is already terminal but
    the lock is still held), no module has two running records, and no lock is left behind.
   */
  lemma {:induction false} MutualExclusion(steps: seq<Step>)
    requires ValidRun(INITIAL, steps) && NamesCoherent(steps)
    ensures var s := FinalState(INITIAL, steps);
      && OneRunning(s.disk)
      && LocksHeld(s)
      && forall t, u :: t in s.threads && u in s.threads && t != u && HoldsLock(s.threads[t]) && HoldsLock(s.threads[u]) ==>
           ModuleOf(s.threads[t]) != ModuleOf(s.threads[u]) && IdOf(s.threads[t]) != IdOf(s.threads[u])
  {
    hide ThreadOk, MutexOk, DistinctIds, GrantsOk, LocksHeld, OneRunning, HoldsLock, ModuleOf, IdOf, ValidRun, FinalState, NamesCoherent;
    InitialInv();
    RunKeepsInv(INITIAL, steps);
    var s := FinalState(INITIAL, steps);
    forall t, u | t in s.threads && u in s.threads && t != u && HoldsLock(s.threads[t]) && HoldsLock(s.threads[u])
      ensures ModuleOf(s.threads[t]) != ModuleOf(s.threads[u]) && IdOf(s.threads[t]) != IdOf(s.threads[u])
    {
      HoldersExclude(s, t, u);
    }
  }

  // ---------- the name condition is exact ----------

  predicate SafeState(s: State) {
    OneRunning(s.disk) && LocksHeld(s)
  }

  predicate NamesAre(steps: seq<Step>, rawModule: string) {
    forall i :: 0 <= i < |steps| && steps[i].BeginScan? ==> steps[i].rawModule == rawModule
  }

  lemma {:induction false} Extend(s: State, steps: seq<Step>, step: Step)
    requires ValidRun(s, steps) && Enabled(FinalState(s, steps), step)
    ensures ValidRun(s, steps + [step]) && FinalState(s, steps + [step]) == After(FinalState(s, steps), step)
  {
    var all := steps + [step];
    assert all[..|all| - 1] == steps && all[|all| - 1] == step;
  }

  /** A request for `m` whose settlement cannot load the journal. */
  function LostSettlement(m: string): seq<Step> {
    [Reboot(0, true, true), BeginScan(0, Restart, m, "a", true), BeginAcquire(0), BeginSave(0, 0, true),
     Finish(0, FailedWith(""), 0, false, true), ReleaseLockStep(0)]
  }

  /** A second request for `m` that gets in. */
  function SecondBegin(m: string): seq<Step> {
    [BeginScan(1, Restart, m, "b", true), BeginAcquire(1), BeginSave(1, 0, true)]
  }

  lemma {:induction false} NoRecordsNoRequest(id: string)
    ensures FindRequest([], id) == -1 && !ModuleBusy([], id)
  {
  }

  lemma {:induction false} LetterTrimmed(id: string)
    requires id == "a" || id == "b"
    ensures TrimSpace(id) == id
  {
    LetterWordIsFixed(id);
  }

  /** The first request of `LostSettlement` up to its handle. */
  lemma {:induction false} FirstGrant(m: string)
    requires !Coherent(m)
    ensures var n1 := NormalizeModuleName(m);
      var n2 := NormalizeModuleName(n1);
      var r := NewRecord(Restart, n1, "a", 0);
      && r.module_ == n2 && r.requestID == "a" && r.status == Running
      && ValidRun(INITIAL, LostSettlement(m)[..4])
      && FinalState(INITIAL, LostSettlement(m)[..4])
         == State(true, NormalizeAll([r]), None, map[n2 := "a"], map[0 := Active(r)], ["a"])
  {
    hide NormalizeModuleName, TrimSpace, FindRequest, NormalizeAll, ModuleBusy, ValidRun, FinalState, NormalizeResult;
    var n1 := NormalizeModuleName(m);
    var n2 := NormalizeModuleName(n1);
    assert n1 != "" by {
      BlankNameStays();
    }
    LetterTrimmed("a");
    var run := LostSettlement(m);
    assert run[..1] == [] + [run[0]] && run[..2] == run[..1] + [run[1]];
    assert run[..3] == run[..2] + [run[2]] && run[..4] == run[..3] + [run[3]];
    EmptyRun(INITIAL);
    Extend(INITIAL, [], run[0]);
    assert NormalizeAll([]) == [] by {
      CanonicalDiskIsFixed([]);
    }
    NoRecordsNoRequest("a");
    NoRecordsNoRequest(n1);
    var s1 := State(true, [], None, map[], map[], []);
    assert FinalState(INITIAL, run[..1]) == s1;
    Extend(INITIAL, run[..1], run[1]);
    var s2 := State(true, [], Some(0), map[], map[0 := AtLock(Restart, n1, "a", [])], []);
    assert FinalState(INITIAL, run[..2]) == s2;
    Extend(INITIAL, run[..2], run[2]);
    var s3 := State(true, [], Some(0), map[n2 := "a"], map[0 := AtSave(Restart, n1, "a", [])], []);
    assert FinalState(INITIAL, run[..3]) == s3;
    Extend(INITIAL, run[..3], run[3]);
    var r := NewRecord(Restart, n1, "a", 0);
    assert [] + [r] == [r];
  }

  lemma {:induction false} EmptyRun(s: State)
    ensures ValidRun(s, []) && FinalState(s, []) == s
  {
  }

  /** The settlement leaves the record running; the release looks for the lock under a third normalisation. */
  lemma {:induction false} LostSettlementEnds(m: string)
    requires !Coherent(m)
    ensures var n1 := NormalizeModuleName(m);
      var n2 := NormalizeModuleName(n1);
      var r := NewRecord(Restart, n1, "a", 0);
      && ValidRun(INITIAL, LostSettlement(m))
      && FinalState(INITIAL, LostSettlement(m))
         == State(true, NormalizeAll([r]), None, if NormalizeModuleName(n2) == n2 then map[] else map[n2 := "a"], map[], ["a"])
  {
    hide NormalizeModuleName, TrimSpace, FindRequest, NormalizeAll, ModuleBusy, ValidRun, FinalState, NormalizeResult, NewRecord;
    FirstGrant(m);
    LetterTrimmed("a");
    var run := LostSettlement(m);
    assert run[..5] == run[..4] + [run[4]] && run == run[..5] + [run[5]];
    var n1 := NormalizeModuleName(m);
    var n2 := NormalizeModuleName(n1);
    var r := NewRecord(Restart, n1, "a", 0);
    Extend(INITIAL, run[..4], run[4]);
    assert FinalState(INITIAL, run[..5])
        == State(true, NormalizeAll([r]), None, map[n2 := "a"], map[0 := Releasing(r)], ["a"]);
    Extend(INITIAL, run[..5], run[5]);
    assert map[n2 := "a"] - {n2} == map[];
    assert map[0 := Releasing(r)] - {0} == map[];
  }

  /** The journal of the lost settlement hides its running record from a second request under the same name. */
  lemma {:induction false} SecondScanClear(m: string)
    requires !Coherent(m)
    ensures var n1 := NormalizeModuleName(m);
      var n2 := NormalizeModuleName(n1);
      var d := NormalizeAll([NewRecord(Restart, n1, "a", 0)]);
      && |d| == 1 && d[0].module_ == NormalizeModuleName(n2) && d[0].status == Running
      && (NormalizeModuleName(n2) == n2 ==>
            d[0].module_ == n2 && NormalizeAll(d)[0].module_ == n2 && NormalizeAll(d)[0].status == Running
            && Scan(NormalizeAll(d), n1, "b") == Clear)
  {
    hide NormalizeModuleName, TrimSpace, NormalizeResult;
    LetterTrimmed("a");
  }

  /** A name that a second normalisation changes, but not empties, has a run that goes wrong. */
  lemma {:induction false} IncoherentNameGoesWrong(m: string) returns (run: seq<Step>)
    requires !Coherent(m)
    ensures ValidRun(INITIAL, run) && NamesAre(run, m) && !SafeState(FinalState(INITIAL, run))
  {
    hide NormalizeModuleName, TrimSpace, FindRequest, NormalizeAll, ModuleBusy, ValidRun, FinalState, NormalizeResult, NewRecord,
      Coherent, Scan;
    LostSettlementEnds(m);
    SecondScanClear(m);
    run := LostSettlement(m);
    var n1 := NormalizeModuleName(m);
    var n2 := NormalizeModuleName(n1);
    var s := FinalState(INITIAL, run);
    if NormalizeModuleName(n2) != n2 {
      assert n2 in s.locks;
    } else {
      run := SecondGrant(m);
    }
  }

  lemma {:induction false} SecondGrant(m: string) returns (run: seq<Step>)
    requires !Coherent(m) && NormalizeModuleName(NormalizeModuleName(NormalizeModuleName(m))) == NormalizeModuleName(NormalizeModuleName(m))
    ensures ValidRun(INITIAL, run) && NamesAre(run, m) && !OneRunning(FinalState(INITIAL, run).disk)
  {
    hide NormalizeModuleName, TrimSpace, FindRequest, NormalizeAll, ModuleBusy, ValidRun, FinalState, NormalizeResult, NewRecord, Scan;
    LostSettlementEnds(m);
    SecondScanClear(m);
    LetterTrimmed("b");
    var n1 := NormalizeModuleName(m);
    var n2 := NormalizeModuleName(n1);
    assert n1 != "" by {
      BlankNameStays();
    }
    var first, second := LostSettlement(m), SecondBegin(m);
    var d := NormalizeAll([NewRecord(Restart, n1, "a", 0)]);
    Extend(INITIAL, first, second[0]);
    var run7 := first + [second[0]];
    assert FinalState(INITIAL, run7)
        == State(true, d, Some(1), map[], map[1 := AtLock(Restart, n1, "b", NormalizeAll(d))], ["a"]);
    Extend(INITIAL, run7, second[1]);
    var run8 := run7 + [second[1]];
    assert FinalState(INITIAL, run8)
        == State(true, d, Some(1), map[n2 := "b"], map[1 := AtSave(Restart, n1, "b", NormalizeAll(d))], ["a"]);
    Extend(INITIAL, run8, second[2]);
    run := run8 + [second[2]];
    var disk := FinalState(INITIAL, run).disk;
    TwoRunning(d, n1);
    assert disk == NormalizeAll(NormalizeAll(d) + [NewRecord(Restart, n1, "b", 0)]);
    assert disk[0].module_ == disk[1].module_;
  }

  lemma {:induction false} TwoRunning(d: seq<OperationRecord>, n1: string)
    requires |d| == 1 && d[0].status == Running
    requires d[0].module_ == NormalizeModuleName(n1) == NormalizeModuleName(NormalizeModuleName(n1))
    ensures var e := NormalizeAll(NormalizeAll(d) + [NewRecord(Restart, n1, "b", 0)]);
      |e| == 2 && e[0].status == Running && e[1].status == Running && e[0].module_ == e[1].module_
  {
    hide NormalizeModuleName, TrimSpace, NormalizeResult;
  }

  /**
    Exactly which module names are safe: over all interleavings of requests for the name with failed
    loads and saves, crashes and restarts, the journal never has two running records for one module and
    no lock outlives its goroutine, if and only if a second normalisation keeps or empties the name.
   */
  lemma {:induction false} NameConditionIsExact(m: string)
    ensures (forall run :: ValidRun(INITIAL, run) && NamesAre(run, m) ==> SafeState(FinalState(INITIAL, run))) <==> Coherent(m)
  {
    hide ValidRun, FinalState, NamesAre, SafeState, Coherent;
    if Coherent(m) {
      forall run | ValidRun(INITIAL, run) && NamesAre(run, m)
        ensures SafeState(FinalState(INITIAL, run))
      {
        CoherentNameIsSafe(m, run);
      }
    } else {
      var run := IncoherentNameGoesWrong(m);
    }
  }

  lemma {:induction false} CoherentNameIsSafe(m: string, run: seq<Step>)
    requires Coherent(m) && ValidRun(INITIAL, run) && NamesAre(run, m)
    ensures SafeState(FinalState(INITIAL, run))
  {
    hide Coherent, ValidRun, FinalState, OneRunning, LocksHeld;
    assert NamesCoherent(run);
    MutualExclusion(run);
  }

  // ---------- terminal records are frozen ----------

  /** Records are only appended; a record keeps its operation, and once it is not running it keeps everything. */
  predicate Evolves(d: seq<OperationRecord>, e: seq<OperationRecord>) {
    && |d| <= |e|
    && forall i :: 0 <= i < |d| ==> SameOperation(d[i], e[i]) && (d[i].status != Running ==> e[i] == d[i])
  }

  /**
    Statuses only move from running to completed, failed or interrupted: whatever a run does after its
    first k steps, every record the journal had then is still the record of the same operation, and is
    unchanged in every field if it was not running.
   */
  lemma {:induction false} TerminalRecordsFrozen(steps: seq<Step>, k: nat)
    requires ValidRun(INITIAL, steps) && NamesCoherent(steps) && k <= |steps|
    ensures ValidRun(INITIAL, steps[..k])
    ensures Evolves(FinalState(INITIAL, steps[..k]).disk, FinalState(INITIAL, steps).disk)
  {
    hide ValidRun, FinalState, Ripens, Inv, StepNameCoherent;
    RecordsOnlyRipen(steps, k);
    assert NamesCoherent(steps[..k]);
    InitialInv();
    RunKeepsInv(INITIAL, steps[..k]);
    RipeIsEvolved(FinalState(INITIAL, steps[..k]), FinalState(INITIAL, steps).disk);
  }

  /** A journal of canonical records has nothing left to ripen but what runs. */
  lemma {:induction false} RipeIsEvolved(s: State, e: seq<OperationRecord>)
    requires Inv(s) && Ripens(s.disk, e)
    ensures Evolves(s.disk, e)
  {
    hide NormalizeModuleName, TrimSpace, NormalizeResult, UniqueIds, OneRunning, ThreadsOk, MutexOk, DistinctIds, LocksHeld, GrantsOk;
    forall i | 0 <= i < |s.disk|
      ensures SameOperation(s.disk[i], e[i]) && (s.disk[i].status != Running ==> e[i] == s.disk[i])
    {
      assert Canonical(s.disk[i]) && RipensTo(s.disk[i], e[i]);
    }
  }

  // ---------- when a module is free ----------

  function FinishAndRelease(s: State, t: nat, outcome: Outcome, now: nat, loadOk: bool, saveOk: bool): State
    requires Enabled(s, Finish(t, outcome, now, loadOk, saveOk))
  {
    After(After(s, Finish(t, outcome, now, loadOk, saveOk)), ReleaseLockStep(t))
  }

  function CrashAndRestart(s: State, now: nat): State
    requires s.up
  {
    After(After(s, Crash), Reboot(now, true, true))
  }

  /**
    A settled operation gives its lock back whatever its settlement write did, and leaves its module free
    in the journal exactly when that write reached the file. Otherwise the record stays running.
   */
  lemma {:induction false} SettlementFreesModule(s: State, t: nat, outcome: Outcome, now: nat, loadOk: bool, saveOk: bool)
    requires Enabled(s, Finish(t, outcome, now, loadOk, saveOk)) && Inv(s)
    ensures var m := s.threads[t].held.module_;
      var s2 := FinishAndRelease(s, t, outcome, now, loadOk, saveOk);
      && m !in s2.locks && t !in s2.threads
      && (ModuleBusy(s2.disk, m) <==> !(loadOk && saveOk))
  {
    hide NormalizeModuleName, TrimSpace, AllCanonical, UniqueIds, FindRequest, MutexOk, DistinctIds, LocksHeld,
      Canonical, RewriteSpec, Rewritten, ReleaseLock, GrantsOk;
    var th := s.threads[t];
    assert ThreadOk(s.disk, s.locks, th);
    RewriteFacts(s.disk, th.held, ToOutcome(outcome), now, loadOk, saveOk);
    RewriteKeeps(s, t, ToOutcome(outcome), now, loadOk, saveOk);
    var s1 := After(s, Finish(t, outcome, now, loadOk, saveOk));
    ReleaseEffect(s1, t);
    OnlyRunningRecord(s.disk, FindRequest(s.disk, th.held.requestID));
  }

  /** The only running record of its module. */
  lemma {:induction false} OnlyRunningRecord(d: seq<OperationRecord>, i: nat)
    requires DiskOk(d) && i < |d| && d[i].status == Running
    ensures ModuleBusy(d, d[i].module_)
    ensures forall r: OperationRecord :: r.status != Running ==> !ModuleBusy(d[i := r], d[i].module_)
  {
    hide NormalizeModuleName, TrimSpace, NormalizeResult, UniqueIds;
    assert forall k :: 0 <= k < |d| ==> Canonical(d[k]) && NormalizeModuleName(d[k].module_) == d[k].module_;
  }

  /**
    With nobody inside a request, `beginOperation` grants a handle exactly to a named module without a
    running record, for a request id the journal does not know.
   */
  lemma {:induction false} QuietBegin(s: State, action: Action, rawModule: string, rawID: string, now: nat)
    requires Inv(s) && s.threads == map[]
    ensures var (m, id) := (NormalizeModuleName(rawModule), TrimSpace(rawID));
      BeginSpec(JournalState(s.disk, s.locks), action, rawModule, rawID, now, true, true).1.Granted?
      <==> NormalizeModuleName(m) != "" && id != "" && FindRequest(s.disk, id) == -1 && !ModuleBusy(s.disk, m)
  {
    hide NormalizeModuleName, TrimSpace, AllCanonical, UniqueIds, OneRunning, FindRequest, MutexOk, DistinctIds, ModuleBusy, NewRecord,
      NormalizeRecord;
    CanonicalDiskIsFixed(s.disk);
    BlankNameStays();
    assert s.locks == map[] by {
      if m :| m in s.locks {
        assert false;
      }
    }
  }

  /** Whatever was running, lost or abandoned before: a crash and a successful restart free every module. */
  lemma {:induction false} RestartFreesEverything(s: State, now: nat, action: Action, rawModule: string, rawID: string)
    requires Inv(s) && s.up && NormalizeModuleName(NormalizeModuleName(rawModule)) != "" && TrimSpace(rawID) != ""
    requires FindRequest(s.disk, TrimSpace(rawID)) == -1
    ensures var s' := CrashAndRestart(s, now);
      && s'.up && s'.locks == map[] && s'.threads == map[]
      && BeginSpec(JournalState(s'.disk, s'.locks), action, rawModule, rawID, now, true, true).1.Granted?
  {
    hide NormalizeModuleName, TrimSpace, AllCanonical, UniqueIds, OneRunning, FindRequest, NewRecord, BeginSpec, NormalizeAll;
    var s1 := After(s, Crash);
    CrashKeeps(s);
    InterruptKeepsDisk(s1.disk, now);
    RestartKeeps(s1, now, true, true);
    var s2 := After(s1, Reboot(now, true, true));
    QuietBegin(s2, action, rawModule, rawID, now);
    assert !AnyRunning(s2.disk);
    assert !ModuleBusy(s2.disk, NormalizeModuleName(rawModule));
  }

  /** An abandoned handle keeps its module locked and busy through every step but a crash. */
  lemma {:induction false} AbandonedBlocks(s: State, t: nat, step: Step)
    requires Inv(s) && t in s.threads && s.threads[t].Abandoned?
    requires Enabled(s, step) && !step.Crash? && StepNameCoherent(step)
    ensures var s' := After(s, step);
      && Inv(s') && t in s'.threads && s'.threads[t] == s.threads[t]
      && ModuleBusy(s'.disk, s'.threads[t].held.module_)
      && s'.threads[t].held.module_ in s'.locks
  {
    hide Inv, Coherent, RewriteSpec, AcquireLock, ReleaseLock, NormalizeAll, NewRecord, Scan, ModuleBusy;
    StepKeepsInv(s, step);
    var s' := After(s, step);
    assert t in s'.threads && s'.threads[t] == s.threads[t] by {
      UpWhileThreads(s, t);
    }
    AbandonedIsBusy(s', t);
  }

  lemma {:induction false} UpWhileThreads(s: State, t: nat)
    requires Inv(s) && t in s.threads
    ensures s.up
  {
    hide DiskOk, ThreadsOk, MutexOk, DistinctIds, LocksHeld, GrantsOk;
  }

  lemma {:induction false} AbandonedIsBusy(s: State, t: nat)
    requires Inv(s) && t in s.threads && s.threads[t].Abandoned?
    ensures ModuleBusy(s.disk, s.threads[t].held.module_) && s.threads[t].held.module_ in s.locks
  {
    hide NormalizeModuleName, TrimSpace, UniqueIds, OneRunning, FindRequest, MutexOk, DistinctIds, LocksHeld, GrantsOk, NormalizeResult;
    assert ThreadOk(s.disk, s.locks, s.threads[t]);
    var i := FindRequest(s.disk, s.threads[t].held.requestID);
    assert Canonical(s.disk[i]);
  }

  // ---------- the call and the protocol agree ----------

  /** One goroutine runs `beginOperation` from start to end with nobody in between. */
  function BeginAlone(s: State, t: nat, action: Action, rawModule: string, rawID: string, now: nat, loadOk: bool,
                      saveOk: bool): State
    requires Enabled(s, BeginScan(t, action, rawModule, rawID, loadOk))
  {
    var s1 := After(s, BeginScan(t, action, rawModule, rawID, loadOk));
    if t !in s1.threads then s1
    else
      var s2 := After(s1, BeginAcquire(t));
      if t !in s2.threads then s2
      else
        var s3 := After(s2, BeginSave(t, now, saveOk));
        if s3.threads[t].AtUndo? then After(s3, BeginUndo(t)) else s3
  }

  /** Left alone, the steps of the protocol compute what the call is specified to compute. */
  lemma {:induction false} StepsRefineCall(s: State, t: nat, action: Action, rawModule: string, rawID: string, now: nat,
                                           loadOk: bool, saveOk: bool)
    requires Enabled(s, BeginScan(t, action, rawModule, rawID, loadOk))
    ensures var s' := BeginAlone(s, t, action, rawModule, rawID, now, loadOk, saveOk);
      var (j, reply) := BeginSpec(JournalState(s.disk, s.locks), action, rawModule, rawID, now, loadOk, saveOk);
      && s'.disk == j.disk && s'.locks == j.locks && s'.mu == s.mu
      && (reply.Granted? ==> s'.threads == s.threads[t := Active(reply.record)] && s'.grants == s.grants + [TrimSpace(rawID)])
      && (!reply.Granted? ==> s'.threads == s.threads && s'.grants == s.grants)
  {
    hide NormalizeModuleName, TrimSpace, Scan, AcquireLock, ReleaseLock, NewRecord, NormalizeAll;
    var module_, id := NormalizeModuleName(rawModule), TrimSpace(rawID);
    var s1 := After(s, BeginScan(t, action, rawModule, rawID, loadOk));
    if t in s1.threads {
      assert s1.threads - {t} == s.threads;
      var s2 := After(s1, BeginAcquire(t));
      if t in s2.threads {
        assert s2.threads[t] == AtSave(action, module_, id, NormalizeAll(s.disk));
        var s3 := After(s2, BeginSave(t, now, saveOk));
        if s3.threads[t].AtUndo? {
          assert s3.threads - {t} == s.threads;
        } else {
          assert s3.threads == s.threads[t := s3.threads[t]];
        }
      }
    }
  }
}
