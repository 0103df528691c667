/**
  The install rollback: backups taken before each write, and the restore that runs when the install
  fails. Backups are kept by trimmed path, each in its own numbered place below the rollback directory.
 */
module Rollback {
  import opened GoStrings
  import opened Outcomes
  import opened FileTree
  import opened CopyTree
  import opened ServiceCommands

  datatype Backup = Backup(existed: bool, isDir: bool, place: Path)

  function Decimal(n: nat): (s: string)
    ensures s != ""
  {
    var digit := [('0' as int + n % 10) as char];
    if n < 10 then digit else Decimal(n / 10) + digit
  }

  lemma {:induction false} DecimalShape(n: nat)
    ensures |Decimal(n)| == 1 <==> n < 10
    ensures Decimal(n)[|Decimal(n)| - 1] == ('0' as int + n % 10) as char
    ensures n >= 10 ==> Decimal(n)[..|Decimal(n)| - 1] == Decimal(n / 10)
  {
  }

  lemma {:induction false} DecimalInjective(a: nat, b: nat)
    requires Decimal(a) == Decimal(b)
    ensures a == b
  {
    DecimalShape(a);
    DecimalShape(b);
    if a >= 10 && b >= 10 {
      DecimalInjective(a / 10, b / 10);
    }
  }

  /** Place number `i` below the rollback directory: `<i>.bak`. */
  function SlotPath(root: Path, i: nat): Path {
    root + [Decimal(i) + ".bak"]
  }

  lemma {:induction false} SlotsApart(root: Path, i: nat, j: nat)
    requires i != j
    ensures Apart(SlotPath(root, i), SlotPath(root, j))
  {
    hide Decimal;
    var x, y := Decimal(i), Decimal(j);
    if x + ".bak" == y + ".bak" {
      assert |x| == |y|;
      assert (x + ".bak")[..|x|] == x && (y + ".bak")[..|y|] == y;
      DecimalInjective(i, j);
    }
    assert SlotPath(root, i)[|root|] == x + ".bak" && SlotPath(root, j)[|root|] == y + ".bak";
  }

  // ---------- what a backup keeps ----------

  /** The backup describes the subtree that `was` had at `p`, with the copy now in `fs`. */
  ghost predicate Keeps(was: FS, fs: FS, p: Path, b: Backup) {
    if b.existed then
      && (forall s: Path :: At(fs, b.place + s) == At(was, p + s))
      && At(was, p).Some? && (b.isDir <==> At(was, p) == Some(Dir))
    else
      forall s: Path :: At(was, p + s) == None
  }

  /** Every backup taken so far still describes the tree as it was before the install. */
  ghost predicate WriteAhead(was: FS, fs: FS, root: Path, backups: map<string, Backup>) {
    forall key :: key in backups ==>
      && Keeps(was, fs, Resolve(key), backups[key])
      && (backups[key].existed ==> InSlot(root, backups[key].place, |backups|))
  }

  predicate InSlot(root: Path, place: Path, n: nat) {
    exists i :: 0 <= i < n && place == SlotPath(root, i)
  }

  /** The places from number `n` on are empty. */
  ghost predicate RoomLeft(fs: FS, root: Path, n: nat) {
    forall i: nat, s: Path :: i >= n ==> At(fs, SlotPath(root, i) + s) == None
  }

  lemma {:induction false} SlotsKeepWriteAhead(was: FS, fs: FS, gs: FS, root: Path, backups: map<string, Backup>)
    requires WriteAhead(was, fs, root, backups)
    requires forall i, s :: 0 <= i < |backups| ==> At(gs, SlotPath(root, i) + s) == At(fs, SlotPath(root, i) + s)
    ensures WriteAhead(was, gs, root, backups)
  {
    hide Resolve, SlotPath;
    forall k | k in backups
      ensures Keeps(was, gs, Resolve(k), backups[k])
    {
      assert Keeps(was, fs, Resolve(k), backups[k]);
      if backups[k].existed {
        var i :| 0 <= i < |backups| && backups[k].place == SlotPath(root, i);
        forall s: Path
          ensures At(gs, backups[k].place + s) == At(was, Resolve(k) + s)
        {
          assert At(gs, SlotPath(root, i) + s) == At(fs, SlotPath(root, i) + s);
        }
      }
    }
  }

  /** One more backup joins the others. */
  lemma {:induction false} BackupJoins(was: FS, fs: FS, root: Path, backups: map<string, Backup>, key: string, b: Backup)
    requires WriteAhead(was, fs, root, backups) && key !in backups
    requires Keeps(was, fs, Resolve(key), b) && (b.existed ==> b.place == SlotPath(root, |backups|))
    ensures WriteAhead(was, fs, root, backups[key := b])
  {
    hide Resolve, SlotPath, Keeps;
    var more := backups[key := b];
    forall k | k in more
      ensures Keeps(was, fs, Resolve(k), more[k])
      ensures more[k].existed ==> InSlot(root, more[k].place, |more|)
    {
      if k != key {
        assert more[k] == backups[k];
        if backups[k].existed {
          var i :| 0 <= i < |backups| && backups[k].place == SlotPath(root, i);
        }
      }
    }
  }

  /** A backup of a subtree nobody has changed yet describes the tree before the install. */
  lemma {:induction false} KeepsFromStart(was: FS, fs: FS, gs: FS, scope: set<Path>, p: Path, b: Backup)
    requires Confined(was, fs, scope) && (forall r :: r in scope ==> Apart(r, p)) && Keeps(fs, gs, p, b)
    ensures Keeps(was, gs, p, b)
  {
    forall s: Path
      ensures At(was, p + s) == At(fs, p + s)
    {
      ApartUntouched(was, fs, scope, p, s);
    }
    assert p + [] == p;
  }

  /** Writes apart from the rollback directory keep every backup. */
  lemma {:induction false} WritesKeepWriteAhead(was: FS, fs: FS, gs: FS, root: Path, backups: map<string, Backup>,
                                                scope: set<Path>)
    requires WriteAhead(was, fs, root, backups)
    requires Confined(fs, gs, scope) && forall r :: r in scope ==> Apart(r, root)
    ensures WriteAhead(was, gs, root, backups)
    ensures RoomLeft(fs, root, |backups|) ==> RoomLeft(gs, root, |backups|)
  {
    hide Resolve, Decimal, Confined, WriteAhead;
    forall i: nat, s: Path
      ensures At(gs, SlotPath(root, i) + s) == At(fs, SlotPath(root, i) + s)
    {
      SlotUntouched(fs, gs, scope, root, i, s);
    }
    SlotsKeepWriteAhead(was, fs, gs, root, backups);
  }

  lemma {:induction false} SlotUntouched(fs: FS, gs: FS, scope: set<Path>, root: Path, i: nat, s: Path)
    requires Confined(fs, gs, scope) && forall r :: r in scope ==> Apart(r, root)
    ensures At(gs, SlotPath(root, i) + s) == At(fs, SlotPath(root, i) + s)
  {
    hide Decimal;
    ApartUntouched(fs, gs, scope, root, [Decimal(i) + ".bak"] + s);
    assert root + ([Decimal(i) + ".bak"] + s) == SlotPath(root, i) + s;
  }

  lemma {:induction false} FileFits(fs: FS, src: Path, dst: Path)
    ensures CopyFits(fs, src, dst) ==> At(fs, src).Some? && src in fs
    ensures At(fs, src).Some? <==> src in fs
    ensures src in fs ==> At(fs, src) == Some(fs[src])
  {
  }

  // ---------- capture ----------

  /** Either copy, as the kind of the source says. */
  method CopyEntry(disk: Disk, src: Path, isDir: bool, dst: Path) returns (ok: bool)
    requires Valid(disk.fs) && src in disk.fs && (isDir <==> disk.fs[src].Dir?)
    modifies disk`fs, disk`ticks
    ensures Valid(disk.fs) && Confined(old(disk.fs), disk.fs, {dst})
    ensures ok && Apart(src, dst) ==> Copied(old(disk.fs), disk.fs, src, dst)
    ensures disk.Healthy() && (if isDir then old(TreeFits(disk.fs, src, dst)) else old(CopyFits(disk.fs, src, dst))) ==> ok
  {
    hide Confined, Laid, TreeFits, CopyFits, Valid;
    ghost var start := disk.fs;
    if isDir {
      ok := CopyDir(disk, src, dst);
    } else {
      ok := CopyFile(disk, src, dst);
      if ok && Apart(src, dst) {
        FileCopied(start, src, dst);
      }
    }
  }

  class InstallRollback {
    const root: Path
    var backups: map<string, Backup>

    constructor (root: Path)
      ensures this.root == root && backups == map[]
    {
      this.root, backups := root, map[];
    }

    method Capture(disk: Disk, path: string) returns (ok: bool)
      requires Valid(disk.fs)
      modifies this`backups, disk`fs, disk`ticks
      ensures Valid(disk.fs) && Confined(old(disk.fs), disk.fs, {root})
      ensures forall k :: k in old(backups) ==> k in backups && backups[k] == old(backups)[k]
      ensures backups.Keys <= old(backups.Keys) + {TrimSpace(path)} && (TrimSpace(path) == "" ==> backups == old(backups))
      ensures ok ==> CaptureEffect(old(disk.fs), disk.fs, root, old(backups), backups, TrimSpace(path))
      ensures !ok ==> backups == old(backups) && OtherSlots(old(disk.fs), disk.fs, root, |backups|)
      ensures disk.Healthy() && old(CaptureFits(disk.fs, root, |backups|, TrimSpace(path))) ==> ok
      ensures TrimSpace(path) == "" || TrimSpace(path) in old(backups) ==> ok
    {
      hide *;
      ghost var start := disk.fs;
      ghost var before := backups;
      StaysConfined(start, root);
      var target := TrimSpace(path);
      if target == "" || target in backups {
        NothingCaptured(start, root, before, target);
        return true;
      }
      ok := disk.MkdirAll(root);
      ghost var made := disk.fs;
      var p := Resolve(target);
      RootMade(start, made, root, p);
      FitsMeans(start, root, |before|, target);
      if !ok {
        return;
      }
      MadeDirsKeeps(start, root);
      var found := disk.Look(p);
      if found.Err? {
        return false;
      }
      LookedUp(made, p, found.value);
      if found.value.None? {
        backups := backups[target := Backup(false, false, [])];
        AbsentCaptured(start, made, root, before, target);
        return true;
      }
      var place := SlotPath(root, |backups|);
      SlotFits(start, made, root, |before|, p);
      ok := CopyEntry(disk, p, found.value.value.Dir?, place);
      SlotConfined(start, made, disk.fs, root, |before|);
      if !ok {
        return;
      }
      backups := backups[target := Backup(true, found.value.value.Dir?, place)];
      EntryCaptured(start, made, disk.fs, root, before, target);
    }

    /** One round of the restore loop: remove what stands at the path, then copy the backup back. */
    method RestoreEntry(disk: Disk, p: Path, b: Backup, ghost was: FS) returns (ok: bool)
      requires Valid(disk.fs)
      modifies disk`fs, disk`ticks
      ensures Valid(disk.fs) && Confined(old(disk.fs), disk.fs, {p})
      ensures ok && Keeps(was, old(disk.fs), p, b) && Clear(p, b) ==> SameTree(was, disk.fs, p)
      ensures ok && old(Reachable(disk.fs, p, b)) && Clear(p, b) ==> OnlyBelow(old(disk.fs), disk.fs, p)
      ensures disk.Healthy() && old(Reachable(disk.fs, p, b)) && Keeps(was, old(disk.fs), p, b) && Clear(p, b) ==> ok
    {
      hide *;
      ghost var start := disk.fs;
      StaysConfined(start, p);
      ok := disk.RemoveAll(p);
      ghost var bare := disk.fs;
      if ok {
        RemovedOnly(start, p, b, was);
      }
      if !ok || !b.existed {
        return;
      }
      ghost var clear := Clear(p, b);
      ClearIsApart(p, b);
      if clear {
        BackupFits(start, p, b, was);
      }
      if b.isDir {
        ok := CopyDir(disk, b.place, p);
      } else {
        PrefixesStand(bare, b.place);
        FileFits(bare, b.place, p);
        var found := disk.Look(b.place);
        if found.Err? || found.value.None? {
          return false;
        }
        ok := CopyFile(disk, b.place, p);
        if ok && clear {
          FileCopied(bare, b.place, p);
        }
      }
      ConfinedThen(start, bare, disk.fs, {p});
      if ok && clear {
        EntryBack(start, disk.fs, p, b, was);
      }
    }

    /** The restore loop, in any map order; `errs` holds the paths that contributed an error. */
    method RestoreFiles(disk: Disk, ghost was: FS) returns (errs: set<string>)
      requires Valid(disk.fs)
      modifies disk`fs, disk`ticks
      ensures Valid(disk.fs) && Confined(old(disk.fs), disk.fs, Targets(backups.Keys)) && errs <= backups.Keys
      ensures Separate(backups.Keys, root) && WriteAhead(was, old(disk.fs), root, backups) ==>
        Restoring(was, old(disk.fs), disk.fs, root, backups, backups.Keys, errs)
      ensures Separate(backups.Keys, root) && WriteAhead(was, old(disk.fs), root, backups) && old(ParentsStand(disk.fs, backups)) ==>
        disk.Healthy() ==> errs == {}
    {
      hide *;
      ghost var start := disk.fs;
      ghost var sound := Separate(backups.Keys, root) && WriteAhead(was, start, root, backups);
      ghost var standing := ParentsStand(start, backups);
      errs := {};
      var done: set<string> := {};
      NothingRestored(was, start, root, backups);
      while backups.Keys - done != {}
        invariant done <= backups.Keys && errs <= done
        invariant Valid(disk.fs) && Confined(start, disk.fs, Targets(backups.Keys))
        invariant sound ==> Restoring(was, start, disk.fs, root, backups, done, errs)
        invariant disk.Healthy() && sound && standing ==> errs == {}
        decreases backups.Keys - done
      {
        var key :| key in backups.Keys - done;
        ghost var before := disk.fs;
        var p := Resolve(key);
        if sound {
          EntryReady(was, start, before, root, backups, done, errs, key);
        }
        var ok := RestoreEntry(disk, p, backups[key], was);
        if sound {
          RestoringStep(was, start, before, disk.fs, root, backups, done, errs, key, ok);
        }
        TargetIn(backups.Keys, key);
        ConfinedMore(before, disk.fs, {p}, Targets(backups.Keys));
        ConfinedThen(start, before, disk.fs, Targets(backups.Keys));
        errs := if ok then errs else errs + {key};
        done := done + {key};
      }
      NothingLeft(backups.Keys, done);
    }

    predicate UnitBack(unitPath: string)
      reads this`backups
    {
      TrimSpace(unitPath) in backups && backups[TrimSpace(unitPath)].existed
    }

    /** `clean` is the nil error: no path and no reported command failed. */
    method Restore(disk: Disk, runner: Runner, serviceName: string, unitPath: string, nginx: bool, ghost was: FS)
      returns (clean: bool, ghost errs: set<string>)
      requires Valid(disk.fs)
      modifies disk`fs, disk`ticks, runner`log
      ensures Valid(disk.fs) && Confined(old(disk.fs), disk.fs, Targets(backups.Keys))
      ensures Separate(backups.Keys, root) && WriteAhead(was, old(disk.fs), root, backups) ==>
        Restoring(was, old(disk.fs), disk.fs, root, backups, backups.Keys, errs)
      ensures Separate(backups.Keys, root) && WriteAhead(was, old(disk.fs), root, backups) && old(ParentsStand(disk.fs, backups)) ==>
        disk.Healthy() ==> errs == {}
      ensures backups == map[] ==> clean && errs == {} && runner.log == old(runner.log)
      ensures backups != map[] ==>
        var named := TrimSpace(serviceName) != "";
        var at := |old(runner.log)| + |StopFirst(named)|;
        && runner.log == old(runner.log) + StopFirst(named) + BringBack(named, UnitBack(unitPath), nginx, at, runner.works)
        && (clean <==> errs == {} && CommandsOk(named, UnitBack(unitPath), nginx, at, runner.works))
    {
      hide Confined, Separate, WriteAhead, Restoring, ParentsStand, Targets, TrimSpace, Valid, BringBack, CommandsOk, UnitBack;
      if backups == map[] {
        NothingRestored(was, disk.fs, root, backups);
        assert backups.Keys == {};
        return true, {};
      }
      var name := TrimSpace(serviceName);
      if name != "" {
        var stopped := runner.Run(Stop);
      }
      var failed := RestoreFiles(disk, was);
      errs := failed;
      var ok := BringServiceBack(runner, name, unitPath, nginx);
      clean := failed == {} && ok;
    }

    method ReloadNginx(runner: Runner) returns (ok: bool)
      modifies runner`log
      ensures runner.log == old(runner.log) + NginxPart(|old(runner.log)|, runner.works)
      ensures ok <==> runner.works(|old(runner.log)|) && runner.works(|old(runner.log)| + 1)
    {
      ok := runner.Run(NginxTest);
      if ok {
        ok := runner.Run(NginxReload);
      }
    }

    method RestartOrDisable(runner: Runner, unitPath: string) returns (ok: bool)
      modifies runner`log
      ensures runner.log == old(runner.log) + ServicePart(UnitBack(unitPath))
      ensures ok <==> UnitBack(unitPath) ==> runner.works(|old(runner.log)|) && runner.works(|old(runner.log)| + 1)
    {
      var unit := TrimSpace(unitPath);
      if unit in backups && backups[unit].existed {
        var enabled := runner.Run(Enable);
        var restarted := runner.Run(Restart);
        ok := enabled && restarted;
      } else {
        var stopped := runner.Run(Stop);
        var disabled := runner.Run(Disable);
        ok := true;
      }
    }

    /** The commands after the restore loop. */
    method BringServiceBack(runner: Runner, name: string, unitPath: string, nginx: bool) returns (clean: bool)
      modifies runner`log
      ensures runner.log == old(runner.log) + BringBack(name != "", UnitBack(unitPath), nginx, |old(runner.log)|, runner.works)
      ensures clean <==> CommandsOk(name != "", UnitBack(unitPath), nginx, |old(runner.log)|, runner.works)
    {
      hide TrimSpace, NginxPart, ServicePart, UnitBack;
      ServicePartLength(UnitBack(unitPath));
      clean := runner.Run(DaemonReload);
      if name != "" {
        var ok := RestartOrDisable(runner, unitPath);
        clean := clean && ok;
      }
      assert runner.log == old(runner.log) + [DaemonReload] + if name != "" then ServicePart(UnitBack(unitPath)) else [];
      if nginx {
        var ok := ReloadNginx(runner);
        clean := clean && ok;
      }
    }
  }

  /** The backup is not kept inside what it restores, nor the other way round. */
  predicate Clear(p: Path, b: Backup) {
    b.existed ==> Apart(b.place, p)
  }

  /** The directory of a path that existed is still there. */
  predicate Reachable(fs: FS, p: Path, b: Backup) {
    b.existed ==> p != [] && At(fs, Parent(p)) == Some(Dir)
  }

  lemma {:induction false} ClearIsApart(p: Path, b: Backup)
    ensures b.existed && Clear(p, b) ==> Apart(b.place, p)
  {
  }

  lemma {:induction false} EntryBack(fs: FS, gs: FS, p: Path, b: Backup, was: FS)
    requires Valid(fs) && b.existed && Clear(p, b) && Copied(Without(fs, p), gs, b.place, p)
    ensures Keeps(was, fs, p, b) ==> SameTree(was, gs, p)
    ensures Reachable(fs, p, b) ==> OnlyBelow(fs, gs, p)
  {
    hide Laid;
    var bare := Without(fs, p);
    WithoutKeeps(fs, p);
    BackupFits(fs, p, b, was);
    if Keeps(was, fs, p, b) {
      forall s: Path
        ensures At(gs, p + s) == At(was, p + s)
      {
        assert p <= p + s;
        CopyReproduces(bare, gs, b.place, p, s);
        assert At(bare, b.place + s) == At(was, p + s);
      }
    }
    if Reachable(fs, p, b) {
      assert At(bare, Parent(p)) == At(fs, Parent(p));
      forall q: Path | !(p <= q)
        ensures At(gs, q) == At(fs, q)
      {
        AboveStands(bare, p, q);
        NotLaid(bare, gs, b.place, p, q);
      }
    }
  }

  lemma {:induction false} AboveStands(fs: FS, p: Path, q: Path)
    requires Valid(fs) && p != [] && At(fs, Parent(p)) == Some(Dir)
    ensures q < p ==> q in fs
  {
    if q < p && q != Parent(p) {
      assert q < Parent(p);
      AboveIsDir(fs, q, Parent(p));
    }
  }

  lemma {:induction false} NotLaid(fs: FS, gs: FS, src: Path, dst: Path, q: Path)
    requires Copied(fs, gs, src, dst) && !(dst <= q) && (q < dst ==> q in fs)
    ensures At(gs, q) == At(fs, q)
  {
    assert At(gs, q) == LaidAt(fs, src, dst, Nodes(fs, src), q);
  }

  ghost predicate SameTree(was: FS, fs: FS, p: Path) {
    forall s: Path :: At(fs, p + s) == At(was, p + s)
  }

  ghost predicate OnlyBelow(fs: FS, gs: FS, p: Path) {
    forall q :: !(p <= q) ==> At(gs, q) == At(fs, q)
  }

  lemma {:induction false} RemovedOnly(fs: FS, p: Path, b: Backup, was: FS)
    ensures OnlyBelow(fs, Without(fs, p), p)
    ensures !b.existed && Keeps(was, fs, p, b) ==> SameTree(was, Without(fs, p), p)
  {
  }

  /** After the removal the backup is still there and nothing stands in the way of copying it back. */
  lemma {:induction false} BackupFits(fs: FS, p: Path, b: Backup, was: FS)
    requires Valid(fs) && Valid(Without(fs, p)) && b.existed && Clear(p, b)
    ensures Keeps(was, fs, p, b) ==> Keeps(was, Without(fs, p), p, b)
    ensures Keeps(was, fs, p, b) && Reachable(fs, p, b) ==>
      if b.isDir then TreeFits(Without(fs, p), b.place, p) else CopyFits(Without(fs, p), b.place, p)
  {
    hide CanMkdir;
    var bare := Without(fs, p);
    forall s: Path
      ensures At(bare, b.place + s) == At(fs, b.place + s)
    {
      PrefixChain(b.place, p, b.place + s);
      PrefixChain(p, b.place, b.place + s);
    }
    if Keeps(was, fs, p, b) && Reachable(fs, p, b) {
      assert b.place + [] == b.place && p + [] == p;
      assert At(bare, b.place + []) == At(was, p + []);
      assert At(bare, Parent(p)) == At(fs, Parent(p));
      MakeUnderDir(bare, p);
      assert forall s: Path :: p <= p + s;
    }
  }

  /** A capture changed at most place number `n` and the directories that lead to it. */
  ghost predicate OtherSlots(fs: FS, gs: FS, root: Path, n: nat) {
    forall i: nat, s: Path :: i != n ==> At(gs, SlotPath(root, i) + s) == At(fs, SlotPath(root, i) + s)
  }

  /** What a successful capture of the trimmed path `target` has done. The first capture of a path wins. */
  ghost predicate CaptureEffect(fs: FS, gs: FS, root: Path, before: map<string, Backup>, after: map<string, Backup>,
                                target: string) {
    if target == "" || target in before then gs == fs && after == before
    else
      && target in after && after == before[target := after[target]] && At(gs, root) == Some(Dir)
      && OtherSlots(fs, gs, root, |before|)
      && (after[target].existed ==> after[target].place == SlotPath(root, |before|))
      && (Apart(Resolve(target), root) && RoomLeft(fs, root, |before|) ==> Keeps(fs, gs, Resolve(target), after[target]))
      && (RoomLeft(fs, root, |before|) ==> RoomLeft(gs, root, |before| + 1))
  }

  ghost predicate CaptureFits(fs: FS, root: Path, n: nat, target: string) {
    && CanMkdir(fs, root) && CanMkdir(fs, Parent(Resolve(target)))
    && Apart(Resolve(target), root) && RoomLeft(fs, root, n)
  }

  lemma {:induction false} NothingCaptured(fs: FS, root: Path, before: map<string, Backup>, target: string)
    ensures target == "" || target in before ==> CaptureEffect(fs, fs, root, before, before, target)
  {
  }

  lemma {:induction false} FitsMeans(fs: FS, root: Path, n: nat, target: string)
    ensures CaptureFits(fs, root, n, target) ==> CanMkdir(fs, root) && CanMkdir(fs, Parent(Resolve(target)))
    ensures CaptureFits(fs, root, n, target) ==> Apart(Resolve(target), root) && RoomLeft(fs, root, n)
  {
  }

  lemma {:induction false} LookedUp(fs: FS, p: Path, found: Option<Node>)
    requires found == At(fs, p)
    ensures found.None? <==> p !in fs
    ensures found.Some? ==> found.value == fs[p]
  {
  }

  lemma {:induction false} AbsentCaptured(fs: FS, made: FS, root: Path, before: map<string, Backup>, target: string)
    requires Valid(made) && OnlyOnWay(fs, made, root) && Resolve(target) !in made && target != "" && target !in before
    requires At(made, root) == Some(Dir)
    requires OtherSlots(fs, made, root, |before|) && (RoomLeft(fs, root, |before|) ==> RoomLeft(made, root, |before|))
    ensures CaptureEffect(fs, made, root, before, before[target := Backup(false, false, [])], target)
  {
    hide Resolve, Keeps, RoomLeft, OtherSlots, OnlyOnWay, SlotPath;
    AbsentKept(fs, made, root, |before|, Resolve(target));
  }

  lemma {:induction false} EntryCaptured(fs: FS, made: FS, gs: FS, root: Path, before: map<string, Backup>, target: string)
    requires OnlyOnWay(fs, made, root) && Resolve(target) in made && target != "" && target !in before
    requires At(gs, root) == Some(Dir)
    requires OtherSlots(fs, gs, root, |before|) && (RoomLeft(fs, root, |before|) ==> RoomLeft(made, root, |before|))
    requires RoomLeft(fs, root, |before|) ==> RoomLeft(gs, root, |before| + 1)
    requires Apart(Resolve(target), root) ==> forall s: Path :: At(made, Resolve(target) + s) == At(fs, Resolve(target) + s)
    requires Apart(Resolve(target), SlotPath(root, |before|)) ==> Copied(made, gs, Resolve(target), SlotPath(root, |before|))
    ensures CaptureEffect(fs, gs, root, before,
                          before[target := Backup(true, made[Resolve(target)].Dir?, SlotPath(root, |before|))], target)
  {
    hide Resolve, Keeps, RoomLeft, OtherSlots, OnlyOnWay, SlotPath, Copied;
    var p := Resolve(target);
    SlotApart(root, |before|, p);
    if Apart(p, root) && RoomLeft(fs, root, |before|) {
      SlotKeeps(fs, made, gs, root, |before|, p);
    }
  }

  lemma {:induction false} RootMade(fs: FS, made: FS, root: Path, p: Path)
    requires Valid(fs) && Valid(made) && OnlyOnWay(fs, made, root)
    ensures Confined(fs, made, {root})
    ensures forall n :: OtherSlots(fs, made, root, n)
    ensures forall n: nat :: RoomLeft(fs, root, n) ==> RoomLeft(made, root, n)
    ensures Apart(p, root) ==> forall s: Path :: At(made, p + s) == At(fs, p + s)
    ensures CanMkdir(fs, Parent(p)) && Apart(p, root) ==> forall k :: 0 <= k < |p| ==> p[..k] !in made || made[p[..k]].Dir?
  {
    hide Decimal;
    OnWayIsConfined(fs, made, root, root);
    forall i: nat, s: Path
      ensures At(made, SlotPath(root, i) + s) == At(fs, SlotPath(root, i) + s)
    {
    }
    if Apart(p, root) {
      forall s: Path
        ensures At(made, p + s) == At(fs, p + s)
      {
        PrefixChain(p, p + s, root);
      }
      if CanMkdir(fs, Parent(p)) {
        forall k | 0 <= k < |p|
          ensures p[..k] !in made || made[p[..k]].Dir?
        {
          assert p[..k] == Parent(p)[..k];
          assert At(made, p[..k]) == At(fs, p[..k]) || At(made, p[..k]) == Some(Dir);
        }
      }
    }
  }

  lemma {:induction false} ParentsAbsent(fs: FS, p: Path)
    requires Valid(fs) && p !in fs
    ensures forall s: Path :: At(fs, p + s) == None
  {
    forall s: Path
      ensures p + s !in fs
    {
      assert s == [] ==> p + s == p;
      if p + s in fs {
        AboveIsDir(fs, p, p + s);
      }
    }
  }

  lemma {:induction false} AbsentKept(fs: FS, made: FS, root: Path, n: nat, p: Path)
    requires Valid(made) && OnlyOnWay(fs, made, root) && p !in made
    ensures Apart(p, root) ==> Keeps(fs, made, p, Backup(false, false, []))
    ensures RoomLeft(made, root, n) ==> RoomLeft(made, root, n + 1)
  {
    ParentsAbsent(made, p);
    if Apart(p, root) {
      forall s: Path
        ensures At(fs, p + s) == None
      {
        assert At(made, p + s) == None;
      }
    }
  }

  lemma {:induction false} SlotApart(root: Path, n: nat, p: Path)
    ensures Apart(p, root) ==> Apart(p, SlotPath(root, n))
  {
    PrefixChain(p, root, SlotPath(root, n));
    PrefixChain(root, SlotPath(root, n), p);
  }

  /** The copy of a captured path into an empty place meets no obstacle of its own. */
  lemma {:induction false} SlotFits(fs: FS, made: FS, root: Path, n: nat, p: Path)
    requires Valid(made) && OnlyOnWay(fs, made, root) && At(made, root) == Some(Dir) && p in made
    ensures Apart(p, root) && RoomLeft(made, root, n) && made[p].Dir? ==> TreeFits(made, p, SlotPath(root, n))
    ensures Apart(p, root) && RoomLeft(made, root, n) && made[p].File? ==> CopyFits(made, p, SlotPath(root, n))
    ensures Apart(p, root) ==> Apart(p, SlotPath(root, n))
  {
    hide Decimal, CanMkdir;
    var place := SlotPath(root, n);
    SlotApart(root, n, p);
    assert Parent(place) == root;
    MakeUnderDir(made, place);
    if RoomLeft(made, root, n) {
      forall s: Path
        ensures place + s !in made
      {
        assert At(made, SlotPath(root, n) + s) == None;
      }
      assert place + [] == place;
    }
  }

  lemma {:induction false} StandsBeside(fs: FS, gs: FS, p: Path, q: Path)
    requires Confined(fs, gs, {p}) && !(p <= q)
    ensures At(fs, q).Some? ==> At(gs, q) == At(fs, q)
  {
    assert !InScope(q, {p});
    assert Unchanged(fs, gs, {p}, q);
  }

  lemma {:induction false} SlotConfined(fs: FS, made: FS, gs: FS, root: Path, n: nat)
    requires OnlyOnWay(fs, made, root) && Confined(made, gs, {SlotPath(root, n)})
    ensures OtherSlots(fs, gs, root, n) && Confined(fs, gs, {root})
    ensures RoomLeft(fs, root, n) ==> RoomLeft(gs, root, n + 1)
    ensures At(made, root) == Some(Dir) ==> At(gs, root) == Some(Dir)
  {
    hide Decimal, Confined;
    var place := SlotPath(root, n);
    StandsBeside(made, gs, place, root);
    OnWayIsConfined(fs, made, root, root);
    ConfinedHigher(made, gs, root, place);
    ConfinedThen(fs, made, gs, {root});
    forall i: nat, s: Path | i != n
      ensures At(gs, SlotPath(root, i) + s) == At(fs, SlotPath(root, i) + s)
    {
      SlotsApart(root, n, i);
      ApartUntouched(made, gs, {place}, SlotPath(root, i), s);
      assert At(made, SlotPath(root, i) + s) == At(fs, SlotPath(root, i) + s);
    }
  }

  lemma {:induction false} SlotKeeps(fs: FS, made: FS, gs: FS, root: Path, n: nat, p: Path)
    requires OnlyOnWay(fs, made, root) && Apart(p, root) && p in made && RoomLeft(made, root, n)
    requires forall s: Path :: At(made, p + s) == At(fs, p + s)
    requires Copied(made, gs, p, SlotPath(root, n))
    ensures Keeps(fs, gs, p, Backup(true, made[p].Dir?, SlotPath(root, n)))
  {
    hide Decimal, Laid;
    var place := SlotPath(root, n);
    forall s: Path
      ensures At(gs, place + s) == At(fs, p + s)
    {
      assert At(made, SlotPath(root, n) + s) == None;
      CopyReproduces(made, gs, p, place, s);
    }
    assert p + [] == p;
    assert At(made, p + []) == At(fs, p + []);
  }

  // ---------- the restore loop ----------

  /** No captured path lies inside another or inside the rollback directory, or around it. */
  predicate Separate(keys: set<string>, root: Path) {
    && (forall k :: k in keys ==> Apart(Resolve(k), root))
    && (forall k, l :: k in keys && l in keys && k != l ==> Apart(Resolve(k), Resolve(l)))
  }

  ghost predicate ParentsStand(fs: FS, backups: map<string, Backup>) {
    forall k :: k in backups ==> Reachable(fs, Resolve(k), backups[k])
  }

  ghost predicate OutsideSame(fs: FS, gs: FS, scope: set<Path>) {
    forall q :: !InScope(q, scope) ==> At(gs, q) == At(fs, q)
  }

  /** The entries of `done` without an error are back, the backups of all entries are still there. */
  ghost predicate Restoring(was: FS, start: FS, fs: FS, root: Path, backups: map<string, Backup>, done: set<string>,
                            errs: set<string>) {
    && WriteAhead(was, fs, root, backups)
    && (forall k :: k in done && k !in errs ==> SameTree(was, fs, Resolve(k)))
    && (ParentsStand(start, backups) ==> ParentsStand(fs, backups))
    && (ParentsStand(start, backups) && errs == {} ==> OutsideSame(start, fs, Targets(backups.Keys)))
  }

  lemma {:induction false} NothingLeft(all: set<string>, done: set<string>)
    requires done <= all && all - done == {}
    ensures done == all
  {
    forall k | k in all
      ensures k in done
    {
      assert k !in all - done;
    }
  }

  lemma {:induction false} TargetIn(keys: set<string>, key: string)
    requires key in keys
    ensures {Resolve(key)} <= Targets(keys)
  {
  }

  lemma {:induction false} NothingRestored(was: FS, fs: FS, root: Path, backups: map<string, Backup>)
    ensures Confined(fs, fs, Targets(backups.Keys))
    ensures WriteAhead(was, fs, root, backups) ==> Restoring(was, fs, fs, root, backups, {}, {})
  {
    hide Resolve;
  }

  lemma {:induction false} BackupsClear(was: FS, fs: FS, root: Path, backups: map<string, Backup>, key: string)
    requires WriteAhead(was, fs, root, backups) && key in backups && Apart(Resolve(key), root)
    ensures Keeps(was, fs, Resolve(key), backups[key]) && Clear(Resolve(key), backups[key])
  {
    hide Resolve, SlotPath, Keeps;
    if backups[key].existed {
      var i :| 0 <= i < |backups| && backups[key].place == SlotPath(root, i);
      SlotApart(root, i, Resolve(key));
    }
  }

  lemma {:induction false} EntryReady(was: FS, start: FS, fs: FS, root: Path, backups: map<string, Backup>,
                                      done: set<string>, errs: set<string>, key: string)
    requires Restoring(was, start, fs, root, backups, done, errs) && Separate(backups.Keys, root) && key in backups
    ensures Keeps(was, fs, Resolve(key), backups[key]) && Clear(Resolve(key), backups[key])
    ensures ParentsStand(start, backups) ==> Reachable(fs, Resolve(key), backups[key])
  {
    hide Keeps, Clear, Reachable, Resolve;
    BackupsClear(was, fs, root, backups, key);
  }

  lemma {:induction false} RestoringStep(was: FS, start: FS, fs: FS, gs: FS, root: Path, backups: map<string, Backup>,
                                         done: set<string>, errs: set<string>, key: string, ok: bool)
    requires Restoring(was, start, fs, root, backups, done, errs) && Separate(backups.Keys, root)
    requires key in backups && done <= backups.Keys && key !in done && errs <= done
    requires Confined(fs, gs, {Resolve(key)})
    requires ok && Keeps(was, fs, Resolve(key), backups[key]) && Clear(Resolve(key), backups[key]) ==>
      SameTree(was, gs, Resolve(key))
    requires ok && Reachable(fs, Resolve(key), backups[key]) && Clear(Resolve(key), backups[key]) ==>
      OnlyBelow(fs, gs, Resolve(key))
    ensures Restoring(was, start, gs, root, backups, done + {key}, if ok then errs else errs + {key})
  {
    hide Resolve, SlotPath, Keeps, Confined, Clear, InScope;
    var p := Resolve(key);
    BackupsClear(was, fs, root, backups, key);
    WritesKeepWriteAhead(was, fs, gs, root, backups, {p});
    forall k | k in done && k !in errs
      ensures SameTree(was, gs, Resolve(k))
    {
      SameTreeKept(was, fs, gs, p, Resolve(k));
    }
    if ParentsStand(start, backups) {
      forall k | k in backups
        ensures Reachable(gs, Resolve(k), backups[k])
      {
        if k == key {
          ReachableKept(fs, gs, p, p, backups[k]);
        } else {
          ReachableKept(fs, gs, p, Resolve(k), backups[k]);
        }
      }
      if ok && errs == {} {
        TargetIn(backups.Keys, key);
        OutsideKept(start, fs, gs, Targets(backups.Keys), p);
      }
    }
  }

  lemma {:induction false} SameTreeKept(was: FS, fs: FS, gs: FS, p: Path, q: Path)
    requires SameTree(was, fs, q) && Confined(fs, gs, {p}) && Apart(p, q)
    ensures SameTree(was, gs, q)
  {
    forall s: Path
      ensures At(gs, q + s) == At(was, q + s)
    {
      ApartUntouched(fs, gs, {p}, q, s);
      assert At(fs, q + s) == At(was, q + s);
    }
  }

  lemma {:induction false} ReachableKept(fs: FS, gs: FS, p: Path, q: Path, b: Backup)
    requires Reachable(fs, q, b) && Confined(fs, gs, {p}) && (p == q || Apart(p, q))
    ensures Reachable(gs, q, b)
  {
    if b.existed {
      var d := Parent(q);
      assert d < q;
      PrefixChain(p, d, q);
      assert !InScope(d, {p});
      assert Unchanged(fs, gs, {p}, d);
    }
  }

  lemma {:induction false} OutsideKept(start: FS, fs: FS, gs: FS, scope: set<Path>, p: Path)
    requires OutsideSame(start, fs, scope) && OnlyBelow(fs, gs, p) && p in scope
    ensures OutsideSame(start, gs, scope)
  {
    forall q: Path | !InScope(q, scope)
      ensures At(gs, q) == At(start, q)
    {
      assert !(p <= q);
      assert At(fs, q) == At(start, q);
    }
  }

  /** The order in which the entries are restored does not show in the result. */
  lemma {:induction false} RestoreOrderIrrelevant(was: FS, start: FS, fs: FS, gs: FS, root: Path, backups: map<string, Backup>)
    requires Restoring(was, start, fs, root, backups, backups.Keys, {}) && Restoring(was, start, gs, root, backups, backups.Keys, {})
    requires ParentsStand(start, backups)
    ensures fs == gs
  {
    hide Resolve, WriteAhead;
    forall q: Path
      ensures At(fs, q) == At(gs, q)
    {
      if InScope(q, Targets(backups.Keys)) {
        var p :| p in Targets(backups.Keys) && p <= q;
        var key :| key in backups && p == Resolve(key);
        assert SameTree(was, fs, Resolve(key)) && SameTree(was, gs, Resolve(key));
        assert At(fs, p + Below(p, q)) == At(was, p + Below(p, q)) == At(gs, p + Below(p, q));
      }
    }
    SameLookups(fs, gs);
  }
}
