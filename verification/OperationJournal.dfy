/**
  The operation journal of internal/agent/install/operation_journal.go in the form the code has:
  a record file and a lock table that the calls update in place. A load or a save may fail; the
  caller's environment says so through `loadOk` and `saveOk`, and a failed save leaves the file alone.
 */
module OperationJournal {
  import opened GoStrings
  import opened ModuleNames
  import opened Outcomes
  import opened OperationRecords

  class OperationHandle {
    var record: OperationRecord
    var active: bool

    constructor (record: OperationRecord)
      ensures this.record == record && this.active
    {
      this.record := record;
      this.active := true;
    }

    method UpdateStage(journal: OperationJournal, stage: Stage, now: nat, loadOk: bool, saveOk: bool)
      modifies this`record, journal`disk
      ensures (journal.disk, record) ==
              if !old(active) then old((journal.disk, record))
              else RewriteSpec(old(journal.disk), old(record), ToStage(stage), now, loadOk, saveOk)
      ensures old(active) && loadOk && saveOk ==>
              StageNoted(old(journal.disk), journal.disk, record, old(record).requestID, stage, now)
    {
      hide NormalizeRecord, NormalizeAll, NormalizeModuleName, TrimSpace, Staged, Settled, StageNoted;
      if !active {
        return;
      }
      RewriteNoted(journal.disk, record, ToStage(stage), now);
      var loaded := journal.Load(loadOk);
      if loaded.None? {
        return;
      }
      var records := loaded.value;
      for i := 0 to |records|
        invariant FindFrom(records, TrimSpace(record.requestID), 0) == FindFrom(records, TrimSpace(record.requestID), i)
        invariant journal.disk == old(journal.disk) && record == old(record)
      {
        if TrimSpace(records[i].requestID) == TrimSpace(record.requestID) {
          records := records[i := Staged(records[i], stage, now)];
          record := NormalizeRecord(records[i]);
          var _ := journal.Save(records, saveOk);
          return;
        }
      }
    }

    method Complete(journal: OperationJournal, result: Option<ResultSnapshot>, now: nat, loadOk: bool, saveOk: bool)
      modifies this, journal
      ensures !active
      ensures (journal.disk, record) ==
              if !old(active) then old((journal.disk, record))
              else RewriteSpec(old(journal.disk), old(record), ToOutcome(Succeeded(result)), now, loadOk, saveOk)
      ensures old(active) && loadOk && saveOk ==>
              CompletionNoted(old(journal.disk), journal.disk, record, old(record).requestID, result, now)
      ensures journal.moduleLocks ==
              if !old(active) then old(journal.moduleLocks)
              else ReleaseLock(old(journal.moduleLocks), record.module_, record.requestID)
    {
      hide RewriteSpec, ReleaseLock, CompletionNoted;
      if !active {
        return;
      }
      RewriteNoted(journal.disk, record, ToOutcome(Succeeded(result)), now);
      WriteOutcome(journal, Succeeded(result), now, loadOk, saveOk);
      Release(journal);
    }

    method Fail(journal: OperationJournal, text: string, now: nat, loadOk: bool, saveOk: bool)
      modifies this, journal
      ensures !active
      ensures (journal.disk, record) ==
              if !old(active) then old((journal.disk, record))
              else RewriteSpec(old(journal.disk), old(record), ToOutcome(FailedWith(text)), now, loadOk, saveOk)
      ensures old(active) && loadOk && saveOk ==>
              FailureNoted(old(journal.disk), journal.disk, record, old(record).requestID, text, now)
      ensures journal.moduleLocks ==
              if !old(active) then old(journal.moduleLocks)
              else ReleaseLock(old(journal.moduleLocks), record.module_, record.requestID)
    {
      hide RewriteSpec, ReleaseLock, FailureNoted;
      if !active {
        return;
      }
      RewriteNoted(journal.disk, record, ToOutcome(FailedWith(text)), now);
      WriteOutcome(journal, FailedWith(text), now, loadOk, saveOk);
      Release(journal);
    }

    /** The part of `Complete` and `Fail` that runs under the journal mutex. */
    method WriteOutcome(journal: OperationJournal, outcome: Outcome, now: nat, loadOk: bool, saveOk: bool)
      requires active
      modifies this`record, journal`disk
      ensures (journal.disk, record) ==
              RewriteSpec(old(journal.disk), old(record), ToOutcome(outcome), now, loadOk, saveOk)
    {
      hide NormalizeRecord, NormalizeAll, NormalizeModuleName, TrimSpace, Staged, Settled;
      var loaded := journal.Load(loadOk);
      if loaded.None? {
        return;
      }
      var records := loaded.value;
      for i := 0 to |records|
        invariant FindFrom(records, TrimSpace(record.requestID), 0) == FindFrom(records, TrimSpace(record.requestID), i)
        invariant journal.disk == old(journal.disk) && record == old(record)
      {
        if TrimSpace(records[i].requestID) == TrimSpace(record.requestID) {
          records := records[i := Settled(records[i], outcome, now)];
          record := NormalizeRecord(records[i]);
          var _ := journal.Save(records, saveOk);
          return;
        }
      }
    }

    /** The deferred part, which runs after the journal mutex is free again. */
    method Release(journal: OperationJournal)
      modifies this`active, journal`moduleLocks
      ensures !active
      ensures journal.moduleLocks ==
              if !old(active) then old(journal.moduleLocks)
              else ReleaseLock(old(journal.moduleLocks), record.module_, record.requestID)
    {
      if !active {
        return;
      }
      journal.ReleaseModuleLock(record.module_, record.requestID);
      active := false;
    }
  }

  class OperationJournal {
    var disk: seq<OperationRecord>
    var moduleLocks: map<string, string>

    /** A process that starts over a journal file: the lock table lives in memory only. */
    constructor (disk: seq<OperationRecord>)
      ensures this.disk == disk && this.moduleLocks == map[]
    {
      this.disk := disk;
      this.moduleLocks := map[];
    }

    function Snapshot(): JournalState
      reads this
    {
      JournalState(disk, moduleLocks)
    }

    method Load(ok: bool) returns (records: Option<seq<OperationRecord>>)
      ensures records == if ok then Some(NormalizeAll(disk)) else None
    {
      if !ok {
        return None;
      }
      var items := Normalized(disk);
      return Some(items);
    }

    method Save(records: seq<OperationRecord>, ok: bool) returns (done: bool)
      modifies this`disk
      ensures done == ok
      ensures disk == if ok then NormalizeAll(records) else old(disk)
    {
      var items := Normalized(records);
      if ok {
        disk := items;
      }
      return ok;
    }

    /** The loop both the load and the save run over the items. */
    static method Normalized(records: seq<OperationRecord>) returns (items: seq<OperationRecord>)
      ensures items == NormalizeAll(records)
    {
      hide NormalizeRecord, NormalizeAll;
      items := records;
      for i := 0 to |items|
        invariant |items| == |records|
        invariant forall k :: 0 <= k < i ==> items[k] == NormalizeRecord(records[k])
        invariant forall k :: i <= k < |items| ==> items[k] == records[k]
      {
        items := items[i := NormalizeRecord(items[i])];
      }
    }

    method InitializeRuntimeState(now: nat, loadOk: bool, saveOk: bool) returns (err: Option<Refusal>)
      modifies this`disk
      ensures err == if !loadOk then Some(LoadFailed)
                     else if (exists i :: 0 <= i < |old(disk)| && old(disk)[i].status == Running) && !saveOk
                       then Some(SaveFailed)
                     else None
      ensures disk == if err == None && exists i :: 0 <= i < |old(disk)| && old(disk)[i].status == Running
                      then NormalizeAll(InterruptAll(NormalizeAll(old(disk)), now))
                      else old(disk)
    {
      hide NormalizeRecord, NormalizeAll, Interrupt, InterruptAll;
      var loaded := Load(loadOk);
      if loaded.None? {
        return Some(LoadFailed);
      }
      var records, changed := loaded.value, false;
      for i := 0 to |records|
        invariant |records| == |disk| && disk == old(disk)
        invariant forall k :: 0 <= k < i ==> records[k] == Interrupt(NormalizeRecord(disk[k]), now)
        invariant forall k :: i <= k < |records| ==> records[k] == NormalizeRecord(disk[k])
        invariant changed <==> exists k :: 0 <= k < i && disk[k].status == Running
      {
        InterruptTouchesRunningOnly(disk[i], now);
        InterruptTouchesRunningOnly(records[i], now);
        if records[i].status == Running {
          records := records[i := Interrupt(records[i], now)];
          changed := true;
        }
      }
      assert records == InterruptAll(NormalizeAll(disk), now);
      if !changed {
        return None;
      }
      var saved := Save(records, saveOk);
      return if saved then None else Some(SaveFailed);
    }

    method BeginOperation(action: Action, rawModule: string, rawID: string, now: nat, loadOk: bool, saveOk: bool)
      returns (handle: OperationHandle?, existing: Option<OperationRecord>, err: Option<Refusal>)
      modifies this
      ensures Snapshot() == BeginSpec(old(Snapshot()), action, rawModule, rawID, now, loadOk, saveOk).0
      ensures match BeginSpec(old(Snapshot()), action, rawModule, rawID, now, loadOk, saveOk).1
              case Granted(r) =>
                handle != null && fresh(handle) && handle.active && handle.record == r && existing.None? && err.None?
              case Replayed(e) => handle == null && existing == Some(e) && err.None?
              case Refused(why, known) => handle == null && existing == known && err == Some(why)
    {
      hide NormalizeRecord, NormalizeAll, NormalizeModuleName, TrimSpace, NewRecord, AcquireLock, ReleaseLock;
      handle, existing, err := null, None, None;
      var module_, requestID := NormalizeModuleName(rawModule), TrimSpace(rawID);
      if module_ == "" {
        return null, None, Some(ModuleRequired);
      }
      if requestID == "" {
        return null, None, Some(RequestIDRequired);
      }
      var loaded := Load(loadOk);
      if loaded.None? {
        return null, None, Some(LoadFailed);
      }
      var records := loaded.value;
      for i := 0 to |records|
        invariant FindFrom(records, requestID, 0) == FindFrom(records, requestID, i)
      {
        if TrimSpace(records[i].requestID) == requestID {
          var found := NormalizeRecord(records[i]);
          if found.status == Running {
            return null, Some(found), Some(OperationRunning);
          }
          return null, Some(found), None;
        }
      }
      for i := 0 to |records|
        invariant forall k :: 0 <= k < i ==>
          NormalizeModuleName(records[k].module_) != module_ || records[k].status != Running
      {
        if NormalizeModuleName(records[i].module_) == module_ && records[i].status == Running {
          return null, None, Some(ModuleRunning);
        }
      }
      var locked := AcquireModuleLock(module_, requestID);
      if !locked {
        return null, None, Some(LockHeld);
      }
      var record := NewRecord(action, module_, requestID, now);
      var saved := Save(records + [record], saveOk);
      if !saved {
        ReleaseModuleLock(module_, requestID);
        return null, None, Some(SaveFailed);
      }
      handle := new OperationHandle(record);
    }

    method AcquireModuleLock(module_: string, requestID: string) returns (ok: bool)
      modifies this`moduleLocks
      ensures ok == AcquireLock(old(moduleLocks), module_, requestID).Some?
      ensures moduleLocks == if ok then AcquireLock(old(moduleLocks), module_, requestID).value else old(moduleLocks)
    {
      hide NormalizeModuleName, TrimSpace;
      var key := NormalizeModuleName(module_);
      if key == "" {
        return false;
      }
      if key in moduleLocks && TrimSpace(moduleLocks[key]) != TrimSpace(requestID) {
        return false;
      }
      moduleLocks := moduleLocks[key := TrimSpace(requestID)];
      return true;
    }

    method ReleaseModuleLock(module_: string, requestID: string)
      modifies this`moduleLocks
      ensures moduleLocks == ReleaseLock(old(moduleLocks), module_, requestID)
    {
      hide NormalizeModuleName, TrimSpace;
      var key := NormalizeModuleName(module_);
      if key == "" {
        return;
      }
      if key in moduleLocks && TrimSpace(moduleLocks[key]) == TrimSpace(requestID) {
        moduleLocks := moduleLocks - {key};
      }
    }
  }
}
