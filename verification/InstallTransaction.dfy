/** `Engine.InstallModule` as one transaction, and what its rollback promises. */
module InstallTransaction {
  import opened GoStrings
  import opened Outcomes
  import opened FileTree
  import opened CopyTree
  import opened ServiceCommands
  import opened Rollback
  import opened Installers
  import opened InstallPlan
  import opened Engine
  import opened InstalledFiles

  // ---------- a finished rollback ----------

  /** Outside the work directory and the places aside nothing but missing directories on the way to the scope is new. */
  ghost predicate Undone(was: FS, fs: FS, work: Path, aside: set<Path>, scope: set<Path>) {
    forall q :: !(work <= q) && !InScope(q, aside) ==> Unchanged(was, fs, scope, q)
  }

  function Scope(work: Path, captured: set<string>, aside: set<Path>): set<Path> {
    Targets(captured) + {work} + aside
  }

  /** A restore without errors undoes everything a guarded install has done so far. */
  lemma {:induction false} RollbackUndoes(plan: Plan, mid: FS, fs: FS, backups: map<string, Backup>, strays: set<Path>)
    requires Guarded(plan, mid, backups, strays)
    requires Restoring(plan.was, mid, fs, RollbackRoot(plan.work), backups, backups.Keys, {})
    ensures Undone(plan.was, fs, plan.work, strays, Scope(plan.work, backups.Keys, strays))
  {
    hide Resolve, WriteAhead, Unchanged;
    var scope := Scope(plan.work, backups.Keys, strays);
    forall q: Path | !(plan.work <= q) && !InScope(q, strays)
      ensures Unchanged(plan.was, fs, scope, q)
    {
      if InScope(q, Targets(backups.Keys)) {
        var p :| p in Targets(backups.Keys) && p <= q;
        var key :| key in backups && p == Resolve(key);
        assert SameTree(plan.was, fs, Resolve(key));
        assert At(fs, p + Below(p, q)) == At(plan.was, p + Below(p, q));
        SameIsUnchanged(plan.was, fs, scope, q);
      } else {
        assert At(fs, q) == At(mid, q);
        assert !InScope(q, scope);
        assert Unchanged(plan.was, mid, scope, q);
        UnchangedHere(plan.was, mid, fs, scope, q);
      }
    }
  }

  lemma {:induction false} SameIsUnchanged(fs: FS, gs: FS, scope: set<Path>, q: Path)
    requires At(gs, q) == At(fs, q)
    ensures Unchanged(fs, gs, scope, q)
  {
  }

  lemma {:induction false} UnchangedHere(fs: FS, gs: FS, hs: FS, scope: set<Path>, q: Path)
    requires Unchanged(fs, gs, scope, q) && At(hs, q) == At(gs, q)
    ensures Unchanged(fs, hs, scope, q)
  {
  }

  // ---------- activation ----------

  /** The first `k` commands have run and worked. */
  predicate Worked(start: seq<Command>, log: seq<Command>, all: seq<Command>, k: nat, works: nat -> bool) {
    k <= |all| && log == start + all[..k] && forall j: nat :: |start| <= j < |start| + k ==> works(j)
  }

  /** Command number `k` failed after the ones before it had worked, and no further one ran. */
  predicate StoppedAt(start: seq<Command>, log: seq<Command>, all: seq<Command>, k: nat, works: nat -> bool) {
    && k < |all| && log == start + all[..k + 1] && !works(|start| + k)
    && forall j: nat :: |start| <= j < |start| + k ==> works(j)
  }

  method RunNext(runner: Runner, c: Command, ghost start: seq<Command>, ghost all: seq<Command>, ghost k: nat) returns (ok: bool)
    requires k < |all| && c == all[k] && Worked(start, runner.log, all, k, runner.works)
    modifies runner`log
    ensures ok ==> Worked(start, runner.log, all, k + 1, runner.works)
    ensures !ok ==> StoppedAt(start, runner.log, all, k, runner.works)
  {
    ok := runner.Run(c);
  }

  /** Applying the systemd and nginx changes and the health check, stopping at the first failure. */
  method Activate(runner: Runner, nginx: bool) returns (ok: bool)
    modifies runner`log
    ensures ok ==> RanThrough(old(runner.log), runner.log, runner.works, nginx)
    ensures !ok ==> CutShort(old(runner.log), runner.log, runner.works, nginx)
    ensures AllWork(runner.works, |old(runner.log)|, if nginx then 6 else 4) ==> ok
  {
    hide StoppedAt, Worked, ActivateCommands, AllWork;
    ActivateActivates(nginx);
    NothingRun(runner.log, ActivateCommands(nginx), runner.works);
    ok := ActivateSteps(runner, nginx);
    NotStopped(old(runner.log), runner.log, ActivateCommands(nginx), runner.works);
  }

  /** The next `n` commands after the first `at` work. */
  predicate AllWork(works: nat -> bool, at: nat, n: nat) {
    forall i: nat :: at <= i < at + n ==> works(i)
  }

  lemma {:induction false} NotStopped(start: seq<Command>, log: seq<Command>, all: seq<Command>, works: nat -> bool)
    ensures AllWork(works, |start|, |all|) ==> !exists k :: StoppedAt(start, log, all, k, works)
  {
  }

  lemma {:induction false} NothingRun(start: seq<Command>, all: seq<Command>, works: nat -> bool)
    ensures Worked(start, start, all, 0, works)
  {
  }

  method ActivateSteps(runner: Runner, nginx: bool) returns (ok: bool)
    requires Worked(runner.log, runner.log, ActivateCommands(nginx), 0, runner.works)
    modifies runner`log
    ensures ok ==> Worked(old(runner.log), runner.log, ActivateCommands(nginx), |ActivateCommands(nginx)|, runner.works)
    ensures !ok ==> exists k :: StoppedAt(old(runner.log), runner.log, ActivateCommands(nginx), k, runner.works)
  {
    hide StoppedAt, Worked;
    ghost var all := ActivateCommands(nginx);
    ghost var start := runner.log;
    ok := RunNext(runner, DaemonReload, start, all, 0);
    if !ok {
      return;
    }
    ok := RunNext(runner, Enable, start, all, 1);
    if !ok {
      return;
    }
    ok := RunNext(runner, Restart, start, all, 2);
    if !ok {
      return;
    }
    if nginx {
      ok := RunNext(runner, NginxTest, start, all, 3);
      if !ok {
        return;
      }
      ok := RunNext(runner, NginxReload, start, all, 4);
      if !ok {
        return;
      }
    }
    ok := RunNext(runner, HealthCheck, start, all, |all| - 1);
  }

  // ---------- the transaction ----------

  /** The log grew by a whole activation, and all its commands worked. */
  ghost predicate RanThrough(before: seq<Command>, after: seq<Command>, works: nat -> bool, nginx: bool) {
    exists cs :: Activated(cs, nginx) && Worked(before, after, cs, |cs|, works)
  }

  /** The log grew by an activation up to the first command that failed. */
  ghost predicate CutShort(before: seq<Command>, after: seq<Command>, works: nat -> bool, nginx: bool) {
    exists cs, k :: Activated(cs, nginx) && StoppedAt(before, after, cs, k, works)
  }

  /**
    The commands of a failed install: none of the activation or all up to the first that failed, and then those of
    a rollback. They leave the service on or off as `unitBack` says; the rollback is `clean` exactly if it restored
    every path and none of its reported commands failed.
   */
  ghost predicate ServiceSettled(before: seq<Command>, after: seq<Command>, works: nat -> bool, m: Manifest, unitBack: bool,
                                 errs: set<string>, clean: bool) {
    exists mid, undo ::
      && after == mid + undo && (mid == before || CutShort(before, mid, works, m.nginxEnabled))
      && RolledBack(undo, unitBack, m.nginxEnabled, |mid|, works)
      && (clean <==> errs == {} && NothingReported(undo, m.nginxEnabled, |mid|, works))
  }

  /**
    What the outside delivers: the tree after the artifact cache was used, the artifact, its unpacked content,
    the manifest, the rendered texts.
   */
  datatype World = World(cached: FS, fetched: bool, unpacked: FS, unpackOk: bool, manifest: Option<Manifest>, agrees: bool,
                         texts: Texts)

  /** Captured paths, those whose restore failed, temporary files left, whether the unit file was captured and came back. */
  datatype Report = Report(captured: set<string>, errs: set<string>, strays: set<Path>, unitTaken: bool, unitBack: bool)

  function WorkDir(tempDir: Path, suffix: string): Path {
    tempDir + ["aurora-agent-install-" + suffix]
  }

  /** The artifact cache, which no rollback covers. */
  const CACHE: Path := ["var", "lib", "aurora-agent", "artifact-cache"]

  /** Outside the work directory only the artifact cache, and missing directories on the way to it, can be new. */
  ghost predicate OnlyWorkAndCache(fs: FS, gs: FS, work: Path) {
    forall q :: !(work <= q) && !InScope(q, {CACHE}) ==> Unchanged(fs, gs, {CACHE}, q)
  }

  /** The cache works on entries of its own directory whose names no work directory has. */
  predicate SparesWork(fs: FS, gs: FS, work: Path) {
    && (forall q :: q in fs && work <= q ==> At(gs, q) == At(fs, q))
    && (forall q :: q in gs && work <= q ==> q in fs)
  }

  predicate WorkReady(fs: FS, work: Path) {
    At(fs, work) == Some(Dir) && RollbackRoot(work) !in fs
  }

  /** `ensureArtifactAvailable` as the tree sees it: any change in the cache directory. */
  method UseCache(disk: Disk, work: Path, cached: FS)
    requires Valid(disk.fs) && WorkReady(disk.fs, work)
    modifies disk`fs
    ensures Valid(disk.fs) && WorkReady(disk.fs, work) && OnlyWorkAndCache(old(disk.fs), disk.fs, work)
    ensures Valid(cached) && SparesWork(old(disk.fs), cached, work) && Confined(old(disk.fs), cached, {CACHE}) ==> disk.fs == cached
  {
    hide *;
    ghost var start := disk.fs;
    SameButWork(start, work);
    IsConfinedMeans(start, cached, CACHE);
    if SparesWork(disk.fs, cached, work) && Valid(cached) && IsConfined(disk.fs, cached, CACHE) {
      disk.Foreign(CACHE, cached);
      CacheChange(start, disk.fs, cached, work);
    }
  }

  lemma {:induction false} CacheChange(fs: FS, gs: FS, cached: FS, work: Path)
    requires WorkReady(fs, work) && SparesWork(fs, cached, work) && Confined(fs, gs, {CACHE}) && (gs == cached || gs == fs)
    ensures WorkReady(gs, work) && OnlyWorkAndCache(fs, gs, work)
  {
    hide CACHE, Unchanged, InScope;
    assert work <= work && work <= RollbackRoot(work);
    assert At(gs, work) == At(fs, work);
  }

  lemma {:induction false} SameButWork(fs: FS, work: Path)
    ensures OnlyWorkAndCache(fs, fs, work)
  {
  }

  lemma {:induction false} ButWorkThen(fs: FS, gs: FS, hs: FS, work: Path)
    requires OnlyWorkAndCache(fs, gs, work) && OnlyWorkAndCache(gs, hs, work)
    ensures OnlyWorkAndCache(fs, hs, work)
  {
    hide CACHE, InScope, AboveScope;
    forall q: Path | !(work <= q) && !InScope(q, {CACHE})
      ensures Unchanged(fs, hs, {CACHE}, q)
    {
      assert Unchanged(fs, gs, {CACHE}, q) && Unchanged(gs, hs, {CACHE}, q);
    }
  }

  lemma {:induction false} BelowIsButWork(fs: FS, gs: FS, work: Path)
    requires OnlyBelow(fs, gs, work)
    ensures OnlyWorkAndCache(fs, gs, work)
  {
    hide CACHE;
  }

  /** The artifact came and unpacked, with a valid manifest that agrees with the request. */
  predicate Delivered(w: World) {
    w.fetched && w.unpackOk && w.manifest.Some? && ValidManifest(w.manifest.value) && w.agrees
  }

  /** The cache changed only its own directory, and the unpacking only the bundle's. */
  ghost predicate Consistent(fs: FS, work: Path, w: World) {
    var made := MadeDirs(fs, BundleRoot(work));
    && Valid(w.cached) && SparesWork(made, w.cached, work) && Confined(made, w.cached, {CACHE})
    && Valid(w.unpacked) && Confined(w.cached, w.unpacked, {BundleRoot(work)})
  }

  lemma ConsistentMeans(fs: FS, work: Path, w: World)
    requires Consistent(fs, work, w)
    ensures var made := MadeDirs(fs, BundleRoot(work));
      && Valid(w.cached) && SparesWork(made, w.cached, work) && Confined(made, w.cached, {CACHE})
      && Valid(w.unpacked) && Confined(w.cached, w.unpacked, {BundleRoot(work)})
  {
    hide CACHE, Valid, Confined, SparesWork;
  }

  lemma DeliveredMeans(w: World)
    ensures Delivered(w) <==> w.fetched && w.unpackOk && w.manifest.Some? && ValidManifest(w.manifest.value) && w.agrees
  {
  }

  lemma {:induction false} BundleWay(fs: FS, work: Path)
    requires Valid(fs) && WorkReady(fs, work) && BundleRoot(work) !in fs
    ensures CanMkdir(fs, BundleRoot(work))
  {
    hide CanMkdir;
    assert Parent(BundleRoot(work)) == work;
    MakeUnderDir(fs, BundleRoot(work));
  }

  /** Everything before the first capture; the directory `work` has just been made. */
  method Prepare(disk: Disk, work: Path, w: World) returns (m: Option<Manifest>)
    requires Valid(disk.fs) && WorkReady(disk.fs, work) && BundleRoot(work) !in disk.fs
    modifies disk`fs, disk`ticks
    ensures Valid(disk.fs) && OnlyWorkAndCache(old(disk.fs), disk.fs, work) && WorkReady(disk.fs, work)
    ensures m.Some? ==> m == w.manifest && ValidManifest(m.value) && Delivered(w)
    ensures disk.Healthy() && Delivered(w) ==> m.Some?
    ensures m.Some? && Consistent(old(disk.fs), work, w) ==> disk.fs == w.unpacked
  {
    hide *;
    ghost var start := disk.fs;
    BundleWay(start, work);
    if Consistent(start, work, w) {
      ConsistentMeans(start, work, w);
    }
    DeliveredMeans(w);
    var ok := disk.MkdirAll(BundleRoot(work));
    OnWayIsConfined(start, disk.fs, BundleRoot(work), BundleRoot(work));
    BundleChange(start, disk.fs, work);
    if !ok {
      return None;
    }
    ghost var made := disk.fs;
    UseCache(disk, work, w.cached);
    ButWorkThen(start, made, disk.fs, work);
    if !w.fetched {
      return None;
    }
    ghost var kept := disk.fs;
    disk.Foreign(BundleRoot(work), w.unpacked);
    BundleChange(kept, disk.fs, work);
    ButWorkThen(start, kept, disk.fs, work);
    if !w.unpackOk || w.manifest.None? || !ValidManifest(w.manifest.value) || !w.agrees {
      return None;
    }
    return w.manifest;
  }

  lemma {:induction false} BundleChange(fs: FS, gs: FS, work: Path)
    requires Valid(fs) && WorkReady(fs, work) && Confined(fs, gs, {BundleRoot(work)})
    ensures OnlyWorkAndCache(fs, gs, work) && WorkReady(gs, work)
  {
    hide CACHE, OnlyWorkAndCache;
    var bundle := BundleRoot(work);
    RootApartBundle(work);
    forall q: Path | !(bundle <= q) && (!(work <= q) || q == work || q == RollbackRoot(work))
      ensures At(gs, q) == At(fs, q)
    {
      assert !InScope(q, {bundle});
      assert Unchanged(fs, gs, {bundle}, q);
      if q < bundle {
        assert q <= work;
        if q < work {
          AboveIsDir(fs, q, work);
        }
      }
    }
    assert At(gs, RollbackRoot(work)) == At(fs, RollbackRoot(work));
    forall q: Path | !(work <= q)
      ensures At(gs, q) == At(fs, q)
    {
      PrefixChain(work, bundle, q);
    }
    BelowIsButWork(fs, gs, work);
  }

  lemma {:induction false} StartGoing(plan: Plan)
    requires Valid(plan.was) && WorkReady(plan.was, plan.work)
    ensures Going(plan, plan.was, map[], map[])
  {
    hide Decimal;
    var root := RollbackRoot(plan.work);
    forall i: nat, s: Path
      ensures At(plan.was, SlotPath(root, i) + s) == None
    {
      if SlotPath(root, i) + s in plan.was {
        AboveIsDir(plan.was, root, SlotPath(root, i) + s);
      }
    }
  }

  lemma {:induction false} UnitBackMeans(rollback: InstallRollback, m: Manifest)
    ensures rollback.UnitBack(m.unitPath) <==>
      TrimSpace(m.unitPath) in rollback.backups && rollback.backups[TrimSpace(m.unitPath)].existed
    ensures ValidManifest(m) ==> TrimSpace(m.serviceName) != ""
  {
  }

  lemma {:induction false} LogSettled(before: seq<Command>, mid: seq<Command>, after: seq<Command>, works: nat -> bool,
                                      m: Manifest,
                                      unitBack: bool, errs: set<string>, clean: bool)
    requires mid == before || CutShort(before, mid, works, m.nginxEnabled)
    requires after == mid + StopFirst(true) + BringBack(true, unitBack, m.nginxEnabled, |mid| + |StopFirst(true)|, works)
    requires clean <==> errs == {} && CommandsOk(true, unitBack, m.nginxEnabled, |mid| + |StopFirst(true)|, works)
    ensures ServiceSettled(before, after, works, m, unitBack, errs, clean)
  {
    hide BringBack, CommandsOk, RolledBack, NothingReported, CutShort;
    var undo := StopFirst(true) + BringBack(true, unitBack, m.nginxEnabled, |mid| + 1, works);
    RollbackRolls(unitBack, m.nginxEnabled, |mid|, works);
    assert after == mid + undo;
  }

  lemma {:induction false} KeptIfExisted(plan: Plan, fs: FS, backups: map<string, Backup>, strays: set<Path>, key: string)
    requires Guarded(plan, fs, backups, strays)
    ensures key in backups ==> (backups[key].existed <==> Resolve(key) in plan.was)
  {
    if key in backups {
      var p := Resolve(key);
      assert Keeps(plan.was, fs, p, backups[key]);
      assert p + [] == p;
      assert At(plan.was, p + []) == At(plan.was, p);
    }
  }

  lemma PlanFields(was: FS, work: Path, files: map<string, string>, m: Manifest)
    ensures var plan := PlanFor(was, work, files, m); plan.was == was && plan.work == work
  {
  }

  lemma {:induction false} PlanMeans(plan: Plan, files: map<string, string>, m: Manifest)
    requires plan == PlanFor(plan.was, plan.work, files, m)
    ensures Sound(plan) <==> Reversible(files, m, plan.work)
  {
  }

  lemma {:induction false} GuardedMeans(plan: Plan, fs: FS, backups: map<string, Backup>, strays: set<Path>)
    requires Sound(plan) && Guarded(plan, fs, backups, strays)
    ensures Separate(backups.Keys, RollbackRoot(plan.work)) && WriteAhead(plan.was, fs, RollbackRoot(plan.work), backups)
    ensures ParentsStand(fs, backups) && Confined(plan.was, fs, Scope(plan.work, backups.Keys, strays))
  {
    hide Resolve, Apart;
    forall k | k in backups
      ensures Apart(Resolve(k), RollbackRoot(plan.work))
    {
      SoundMeans(plan, k);
    }
  }

  lemma {:induction false} RestoredMeans(was: FS, start: FS, fs: FS, root: Path, backups: map<string, Backup>, errs: set<string>)
    requires Restoring(was, start, fs, root, backups, backups.Keys, errs)
    ensures forall k :: k in backups.Keys && k !in errs ==> SameTree(was, fs, Resolve(k))
  {
  }

  /** The deferred rollback of a failed install. */
  method UndoInstall(disk: Disk, runner: Runner, rollback: InstallRollback, m: Manifest, ghost plan: Plan,
                     ghost strays: set<Path>)
    returns (clean: bool, ghost errs: set<string>)
    requires Valid(disk.fs) && ValidManifest(m) && rollback.root == RollbackRoot(plan.work)
    requires Sound(plan) ==> Guarded(plan, disk.fs, rollback.backups, strays)
    modifies disk`fs, disk`ticks, runner`log
    ensures Valid(disk.fs)
    ensures Sound(plan) && errs == {} ==> Undone(plan.was, disk.fs, plan.work, strays, Scope(plan.work, rollback.backups.Keys, strays))
    ensures Sound(plan) ==>
      forall k :: k in rollback.backups.Keys && k !in errs ==> SameTree(plan.was, disk.fs, Resolve(k))
    ensures Sound(plan) && disk.Healthy() ==> errs == {}
    ensures rollback.backups == map[] ==> clean && errs == {} && runner.log == old(runner.log)
    ensures rollback.backups != map[] ==>
      var (unitBack, at) := (rollback.UnitBack(m.unitPath), |old(runner.log)| + |StopFirst(true)|);
      && runner.log == old(runner.log) + StopFirst(true) + BringBack(true, unitBack, m.nginxEnabled, at, runner.works)
      && (clean <==> errs == {} && CommandsOk(true, unitBack, m.nginxEnabled, at, runner.works))
  {
    hide *;
    ghost var mid := disk.fs;
    UnitBackMeans(rollback, m);
    if Sound(plan) {
      GuardedMeans(plan, mid, rollback.backups, strays);
    }
    clean, errs := rollback.Restore(disk, runner, m.serviceName, m.unitPath, m.nginxEnabled, plan.was);
    if Sound(plan) {
      if errs == {} {
        RollbackUndoes(plan, mid, disk.fs, rollback.backups, strays);
      }
      RestoredMeans(plan.was, mid, disk.fs, rollback.root, rollback.backups, errs);
    }
  }

  /** The write pipeline and the activation; on any failure the rollback. */
  method Transact(disk: Disk, runner: Runner, work: Path, files: map<string, string>, m: Manifest, texts: Texts)
    returns (ok: bool, clean: bool, ghost report: Report)
    requires Valid(disk.fs) && WorkReady(disk.fs, work) && ValidManifest(m)
    modifies disk`fs, disk`ticks, runner`log
    ensures Valid(disk.fs)
    ensures report.captured <= PlannedKeys(files, m)
    ensures Reversible(files, m, work) && !ok && report.errs == {} ==>
      Undone(old(disk.fs), disk.fs, work, report.strays, Scope(work, report.captured, report.strays))
    ensures Reversible(files, m, work) && !ok ==>
      forall k :: k in report.captured && k !in report.errs ==> SameTree(old(disk.fs), disk.fs, Resolve(k))
    ensures Reversible(files, m, work) && disk.Healthy() ==> report.errs == {}
    ensures ok || disk.Healthy() ==> report.strays == {}
    ensures Reversible(files, m, work) && ok ==>
      && Placed(PlanFor(old(disk.fs), work, files, m), disk.fs, Items(files, m, texts, BundleRoot(work)))
      && Items(files, m, texts, BundleRoot(work)).Keys <= PlannedKeys(files, m)
      && Confined(old(disk.fs), disk.fs, Scope(work, report.captured, {}))
      && AllInstalled(old(disk.fs), disk.fs, work, files, m, texts)
    ensures ok ==> TextsThere(m, texts)
    ensures ok ==> RanThrough(old(runner.log), runner.log, runner.works, m.nginxEnabled)
    ensures !ok && report.captured != {} ==>
      ServiceSettled(old(runner.log), runner.log, runner.works, m, report.unitBack, report.errs, clean)
    ensures !ok && report.captured == {} ==> runner.log == old(runner.log) && clean
    ensures !report.unitTaken ==> report.captured <= EarlyKeys(files, m)
    ensures Reversible(files, m, work) ==>
      (report.unitBack <==> TrimSpace(m.unitPath) in report.captured && Resolve(TrimSpace(m.unitPath)) in old(disk.fs))
    ensures clean ==> report.errs == {}
    ensures ok ==> clean
    ensures disk.Healthy() && Reversible(files, m, work) && AllWork(runner.works, |old(runner.log)|, if m.nginxEnabled then 6 else 4) ==>
      NothingInTheWay(old(disk.fs), work, files, m, texts) ==> ok
  {
    hide *;
    ghost var plan := PlanFor(disk.fs, work, files, m);
    PlanFields(disk.fs, work, files, m);
    StartGoing(plan);
    PlanMeans(plan, files, m);
    var rollback := new InstallRollback(RollbackRoot(work));
    var unitTaken;
    ghost var strays;
    ok, unitTaken, strays := WriteRuntime(disk, rollback, BundleRoot(work), files, m, texts, plan);
    if ok {
      ok := Activate(runner, m.nginxEnabled);
    }
    ghost var captured := rollback.backups.Keys;
    ghost var log := runner.log;
    clean := true;
    ghost var errs: set<string> := {};
    UnitBackMeans(rollback, m);
    if Sound(plan) {
      KeptIfExisted(plan, disk.fs, rollback.backups, strays, TrimSpace(m.unitPath));
      GuardedMeans(plan, disk.fs, rollback.backups, strays);
    }
    if !ok {
      clean, errs := UndoInstall(disk, runner, rollback, m, plan, strays);
    }
    if Sound(plan) && ok {
      PlacedIsInstalled(plan, disk.fs, files, m, texts);
    }
    if !ok && captured != {} {
      assert rollback.backups != map[];
      LogSettled(old(runner.log), log, runner.log, runner.works, m, rollback.UnitBack(m.unitPath), errs, clean);
    }
    report := Report(captured, errs, strays, unitTaken, rollback.UnitBack(m.unitPath));
  }

  lemma {:induction false} UndoneThroughCleanup(start: FS, was: FS, mid: FS, fs: FS, work: Path, aside: set<Path>,
                                                scope: set<Path>)
    requires OnlyWorkAndCache(start, was, work) && Undone(was, mid, work, aside, scope) && Confined(mid, fs, {work}) && work in scope
    ensures Undone(start, fs, work, aside + {CACHE}, scope + {CACHE})
  {
    hide CACHE;
    assert CACHE in aside + {CACHE};
    forall q: Path | !(work <= q) && !InScope(q, aside + {CACHE})
      ensures Unchanged(start, fs, scope + {CACHE}, q)
    {
      assert !InScope(q, aside) && !InScope(q, {CACHE}) && !InScope(q, {work});
      assert Unchanged(start, was, {CACHE}, q) && Unchanged(was, mid, scope, q) && Unchanged(mid, fs, {work}, q);
      ScopeGrows(start, was, {CACHE}, scope + {CACHE}, q);
      ScopeGrows(was, mid, scope, scope + {CACHE}, q);
      ScopeGrows(mid, fs, {work}, scope + {CACHE}, q);
    }
  }

  lemma {:induction false} ScopeGrows(fs: FS, gs: FS, scope: set<Path>, more: set<Path>, q: Path)
    requires Unchanged(fs, gs, scope, q) && scope <= more
    ensures Unchanged(fs, gs, more, q)
  {
  }

  lemma {:induction false} ScopeWithCache(work: Path, captured: set<string>, aside: set<Path>)
    ensures Scope(work, captured, aside + {CACHE}) == Scope(work, captured, aside) + {CACHE}
  {
    hide CACHE, Resolve;
  }

  lemma {:induction false} TreeThroughCleanup(start: FS, was: FS, mid: FS, fs: FS, work: Path, p: Path)
    requires OnlyWorkAndCache(start, was, work) && SameTree(was, mid, p) && Confined(mid, fs, {work})
    requires Apart(work, p) && Apart(CACHE, p)
    ensures SameTree(start, fs, p)
  {
    hide Confined, CACHE;
    forall s: Path
      ensures At(fs, p + s) == At(start, p + s)
    {
      ApartUntouched(mid, fs, {work}, p, s);
      AwayFromBoth(start, was, work, p, s);
      assert At(mid, p + s) == At(was, p + s) == At(start, p + s);
    }
  }

  lemma {:induction false} AwayFromBoth(start: FS, was: FS, work: Path, p: Path, s: Path)
    requires OnlyWorkAndCache(start, was, work) && Apart(work, p) && Apart(CACHE, p)
    ensures At(was, p + s) == At(start, p + s)
  {
    hide CACHE;
    var q := p + s;
    PrefixChain(work, p, q);
    PrefixChain(CACHE, p, q);
    PrefixChain(p, q, CACHE);
    assert p <= q;
    assert !InScope(q, {CACHE}) && !AboveScope(q, {CACHE});
    assert Unchanged(start, was, {CACHE}, q);
  }

  lemma {:induction false} ItemsThroughCleanup(plan: Plan, mid: FS, fs: FS, items: map<string, Item>)
    requires Sound(plan) && Placed(plan, mid, items) && items.Keys <= plan.keys && Confined(mid, fs, {plan.work})
    ensures Placed(plan, fs, items)
  {
    hide Resolve, Confined, InPlace, Sound;
    forall k | k in items
      ensures InPlace(plan.was, fs, BundleRoot(plan.work), items[k]) && Resolve(k) <= items[k].at
    {
      SoundMeans(plan, k);
      ItemStays(plan, mid, fs, {plan.work}, Resolve(k), items[k]);
    }
  }

  lemma {:induction false} UnchangedEverywhere(start: FS, was: FS, fs: FS, work: Path)
    requires OnlyWorkAndCache(start, was, work) && Confined(was, fs, {work})
    ensures Undone(start, fs, work, {CACHE}, {work, CACHE})
  {
    hide CACHE;
    assert Undone(was, was, work, {}, {work});
    UndoneThroughCleanup(start, was, was, fs, work, {}, {work});
    assert {} + {CACHE} == {CACHE} && {work} + {CACHE} == {work, CACHE};
  }

  /**
    The state of the tree after the cleanup of a transaction whose first capture saw `was`. Only the artifact
    cache keeps what the install did to it.
   */
  ghost predicate Settled(start: FS, was: FS, fs: FS, work: Path, files: map<string, string>, m: Manifest, texts: Texts,
                          ok: bool, report: Report) {
    && (!ok && report.errs == {} ==>
        Undone(start, fs, work, report.strays + {CACHE}, Scope(work, report.captured, report.strays + {CACHE})))
    && (!ok ==> forall k :: k in report.captured && k !in report.errs && Apart(CACHE, Resolve(k)) ==>
        SameTree(start, fs, Resolve(k)))
    && (ok ==> Placed(PlanFor(was, work, files, m), fs, Items(files, m, texts, BundleRoot(work))))
    && (ok ==> AllInstalled(was, fs, work, files, m, texts))
    && (ok ==> Undone(start, fs, work, Targets(report.captured) + {CACHE}, Scope(work, report.captured, {CACHE})))
    && UnitTold(start, was, m, report)
  }

  /** The report on the unit file is about the tree the capture saw, and away from the cache about the old tree. */
  ghost predicate UnitTold(start: FS, was: FS, m: Manifest, report: Report) {
    var unit := TrimSpace(m.unitPath);
    && (report.unitBack <==> unit in report.captured && Resolve(unit) in was)
    && (unit in report.captured && Apart(CACHE, Resolve(unit)) ==> (Resolve(unit) in was <==> Resolve(unit) in start))
  }

  lemma {:induction false} FreshWork(fs: FS, work: Path)
    requires Valid(fs) && work !in fs
    ensures OnlyWorkAndCache(fs, fs[work := Dir], work) && WorkReady(fs[work := Dir], work) && BundleRoot(work) !in fs[work := Dir]
  {
    hide CACHE;
    assert Parent(RollbackRoot(work)) == work && Parent(BundleRoot(work)) == work;
  }

  lemma {:induction false} WorkGone(fs: FS, work: Path)
    ensures work !in Without(fs, work)
  {
    assert At(Without(fs, work), work) == None;
  }

  lemma {:induction false} ConfinedIsUndone(was: FS, fs: FS, work: Path, captured: set<string>)
    requires Confined(was, fs, Scope(work, captured, {}))
    ensures Undone(was, fs, work, Targets(captured), Scope(work, captured, {}))
  {
    hide Resolve, Unchanged;
    var scope := Scope(work, captured, {});
    forall q: Path | !(work <= q) && !InScope(q, Targets(captured))
      ensures Unchanged(was, fs, scope, q)
    {
      assert !InScope(q, scope);
    }
  }

  lemma {:induction false} SettledThroughCleanup(start: FS, was: FS, mid: FS, fs: FS, work: Path, files: map<string, string>,
                                                 m: Manifest, texts: Texts, ok: bool, report: Report)
    requires Reversible(files, m, work) && OnlyWorkAndCache(start, was, work) && Confined(mid, fs, {work})
    requires report.captured <= PlannedKeys(files, m)
    requires !ok && report.errs == {} ==> Undone(was, mid, work, report.strays, Scope(work, report.captured, report.strays))
    requires !ok ==> forall k :: k in report.captured && k !in report.errs ==> SameTree(was, mid, Resolve(k))
    requires ok ==> Placed(PlanFor(was, work, files, m), mid, Items(files, m, texts, BundleRoot(work)))
    requires ok ==> Items(files, m, texts, BundleRoot(work)).Keys <= PlannedKeys(files, m)
    requires ok ==> Confined(was, mid, Scope(work, report.captured, {})) && TextsThere(m, texts)
    requires report.unitBack <==> TrimSpace(m.unitPath) in report.captured && Resolve(TrimSpace(m.unitPath)) in was
    ensures Settled(start, was, fs, work, files, m, texts, ok, report)
  {
    hide Resolve, TrimSpace, Undone, Placed, AllInstalled, Items, Confined, PlannedKeys, SameTree, OnlyWorkAndCache, Targets, Scope, CACHE;
    var plan := PlanFor(was, work, files, m);
    WorkInScope(work, report.captured, report.strays);
    WorkInScope(work, report.captured, {});
    if !ok && report.errs == {} {
      UndoneThroughCleanup(start, was, mid, fs, work, report.strays, Scope(work, report.captured, report.strays));
      ScopeWithCache(work, report.captured, report.strays);
    }
    if !ok {
      forall k | k in report.captured && k !in report.errs && Apart(CACHE, Resolve(k))
        ensures SameTree(start, fs, Resolve(k))
      {
        SoundMeans(plan, k);
        TreeThroughCleanup(start, was, mid, fs, work, Resolve(k));
      }
    } else {
      ItemsThroughCleanup(plan, mid, fs, Items(files, m, texts, BundleRoot(work)));
      PlacedIsInstalled(plan, fs, files, m, texts);
      ConfinedIsUndone(was, mid, work, report.captured);
      UndoneThroughCleanup(start, was, mid, fs, work, Targets(report.captured), Scope(work, report.captured, {}));
      ScopeWithCache(work, report.captured, {});
      assert {} + {CACHE} == {CACHE};
    }
    var unit := TrimSpace(m.unitPath);
    if unit in report.captured && Apart(CACHE, Resolve(unit)) {
      SoundMeans(plan, unit);
      assert Resolve(unit) + [] == Resolve(unit);
      AwayFromBoth(start, was, work, Resolve(unit), []);
    }
  }

  lemma {:induction false} WorkInScope(work: Path, captured: set<string>, aside: set<Path>)
    ensures work in Scope(work, captured, aside)
  {
  }

  /**
    `InstallModule` with its deferred rollback and cleanup. `was` is the tree when the first path is captured:
    it differs from the old tree only below the work directory, which holds the unpacked bundle, and in the
    artifact cache. A failed install leaves the rest of the tree as it was.
   */
  method InstallModule(disk: Disk, runner: Runner, tempDir: Path, suffix: string, files: map<string, string>, w: World)
    returns (ok: bool, clean: bool, m: Option<Manifest>, ghost was: FS, ghost report: Report)
    requires Valid(disk.fs)
    modifies disk`fs, disk`ticks, runner`log
    ensures Valid(disk.fs) && OnlyWorkAndCache(old(disk.fs), was, WorkDir(tempDir, suffix))
    ensures m.None? ==>
      !ok && Undone(old(disk.fs), disk.fs, WorkDir(tempDir, suffix), {CACHE}, {WorkDir(tempDir, suffix), CACHE})
    ensures m.Some? ==> m == w.manifest && ValidManifest(m.value)
    ensures m.Some? && Reversible(files, m.value, WorkDir(tempDir, suffix)) ==>
      Settled(old(disk.fs), was, disk.fs, WorkDir(tempDir, suffix), files, m.value, w.texts, ok, report)
    ensures m.Some? && Reversible(files, m.value, WorkDir(tempDir, suffix)) && disk.Healthy() ==>
      report.errs == {} && report.strays == {} && WorkDir(tempDir, suffix) !in disk.fs
    ensures ok ==> m.Some? && RanThrough(old(runner.log), runner.log, runner.works, m.value.nginxEnabled)
    ensures m.Some? && !ok && report.captured != {} ==>
      ServiceSettled(old(runner.log), runner.log, runner.works, m.value, report.unitBack, report.errs, clean)
    ensures m.None? || (!ok && report.captured == {}) ==> runner.log == old(runner.log)
    ensures m.Some? && !report.unitTaken ==> report.captured <= EarlyKeys(files, m.value)
    ensures clean ==> report.errs == {}
    ensures ok ==> clean && Delivered(w)
    ensures m.Some? && Consistent(old(disk.fs)[WorkDir(tempDir, suffix) := Dir], WorkDir(tempDir, suffix), w) ==> was == w.unpacked
    ensures disk.Healthy() && WorkDir(tempDir, suffix) !in old(disk.fs) && old(disk.CanWrite(WorkDir(tempDir, suffix))) && Delivered(w) ==>
      Reversible(files, w.manifest.value, WorkDir(tempDir, suffix)) ==>
      NothingInTheWay(was, WorkDir(tempDir, suffix), files, w.manifest.value, w.texts) ==>
      AllWork(runner.works, |old(runner.log)|, if w.manifest.value.nginxEnabled then 6 else 4) ==> ok
  {
    hide *;
    ghost var start := disk.fs;
    var work := WorkDir(tempDir, suffix);
    was, m, clean := start, None, true;
    report := Report({}, {}, {}, false, false);
    StaysConfined(start, work);
    SameButWork(start, work);
    UnchangedEverywhere(start, start, start, work);
    ok := disk.MkdirTemp(work);
    if !ok {
      return;
    }
    FreshWork(start, work);
    m := Prepare(disk, work, w);
    was := disk.fs;
    ghost var mid := was;
    ButWorkThen(start, start[work := Dir], was, work);
    if m.Some? {
      ok, clean, report := Transact(disk, runner, work, files, m.value, w.texts);
      mid := disk.fs;
    } else {
      ok := false;
    }
    var removed := disk.RemoveAll(work);
    WorkGone(mid, work);
    if m.None? {
      UnchangedEverywhere(start, was, disk.fs, work);
    } else if Reversible(files, m.value, work) {
      SettledThroughCleanup(start, was, mid, disk.fs, work, files, m.value, w.texts, ok, report);
    }
  }
}
