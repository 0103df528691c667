/** The write pipeline of `Engine.InstallModule`, a capture and a write for each path. */
module Engine {
  import opened GoStrings
  import opened Outcomes
  import opened FileTree
  import opened CopyTree
  import opened Rollback
  import opened Installers
  import opened InstallPlan

  method CapturePlanned(disk: Disk, rollback: InstallRollback, raw: string, ghost plan: Plan, ghost items: map<string, Item>)
    returns (ok: bool)
    requires Valid(disk.fs) && rollback.root == RollbackRoot(plan.work) && Nonblank(raw) <= plan.keys
    requires Sound(plan) ==> Going(plan, disk.fs, rollback.backups, items)
    modifies rollback`backups, disk`fs, disk`ticks
    ensures Valid(disk.fs)
    ensures old(rollback.backups.Keys) <= rollback.backups.Keys <= old(rollback.backups.Keys) + Nonblank(raw)
    ensures ok ==> Nonblank(raw) <= rollback.backups.Keys
    ensures Sound(plan) && ok ==> Going(plan, disk.fs, rollback.backups, items)
    ensures Sound(plan) && !ok ==> Guarded(plan, disk.fs, rollback.backups, {})
    ensures Confined(old(disk.fs), disk.fs, {RollbackRoot(plan.work)})
    ensures disk.Healthy() && Sound(plan) && (TrimSpace(raw) != "" ==> CanMkdir(plan.was, Parent(Resolve(TrimSpace(raw))))) ==> ok
  {
    hide Going, Guarded, Sound, TrimSpace, Valid, Confined, CaptureEffect, OtherSlots, CaptureFits, Resolve, CanMkdir;
    ghost var start := disk.fs;
    ghost var before := rollback.backups;
    if Sound(plan) && TrimSpace(raw) != "" && TrimSpace(raw) !in before && CanMkdir(plan.was, Parent(Resolve(TrimSpace(raw)))) {
      NonblankIn(raw, plan.keys);
      CaptureReady(plan, start, before, items, TrimSpace(raw));
    }
    ok := rollback.Capture(disk, raw);
    if Sound(plan) {
      if ok {
        CaptureGoesOn(plan, start, disk.fs, before, rollback.backups, items, TrimSpace(raw));
      } else {
        GoingIsGuarded(plan, start, before, items);
        RootChange(plan, start, disk.fs, before);
      }
    }
    CapturedKeys(before, rollback.backups, raw);
    if ok {
      EffectKeys(start, disk.fs, rollback.root, before, rollback.backups, raw);
    }
  }

  lemma {:induction false} EffectKeys(fs: FS, gs: FS, root: Path, before: map<string, Backup>, after: map<string, Backup>,
                                      raw: string)
    requires CaptureEffect(fs, gs, root, before, after, TrimSpace(raw))
    ensures Nonblank(raw) <= after.Keys
  {
    hide TrimSpace;
  }

  lemma {:induction false} CapturedKeys(before: map<string, Backup>, after: map<string, Backup>, raw: string)
    ensures "" !in Nonblank(raw)
    ensures TrimSpace(raw) != "" ==> Nonblank(raw) == {TrimSpace(raw)}
  {
  }

  lemma {:induction false} NonblankIn(raw: string, keys: set<string>)
    requires Nonblank(raw) <= keys && TrimSpace(raw) != ""
    ensures TrimSpace(raw) in keys
  {
    assert TrimSpace(raw) in Nonblank(raw);
  }

  lemma {:induction false} CoveredMeans(raw: string)
    requires TrimSpace(raw) != "" && Covered(raw)
    ensures Resolve(TrimSpace(raw)) <= Resolve(raw)
  {
  }

  /** Writing a text inside a captured path, whether the write works or breaks off. */
  lemma {:induction false} TextGoesOn(plan: Plan, fs: FS, gs: FS, backups: map<string, Backup>, items: map<string, Item>,
                                      raw: string, content: string, ok: bool)
    requires Sound(plan) && Going(plan, fs, backups, items) && Valid(gs)
    requires TrimSpace(raw) in backups && TrimSpace(raw) != "" && Covered(raw) && Confined(fs, gs, {Resolve(raw)})
    requires ok ==> gs == MadeDirs(fs, Parent(Resolve(raw)))[Resolve(raw) := File(content)]
    ensures Guarded(plan, gs, backups, {})
    ensures ok ==> Going(plan, gs, backups, items[TrimSpace(raw) := Text(Resolve(raw), content)])
  {
    hide Going, Guarded, Sound, TrimSpace, Valid, Confined, Covered, Resolve;
    var key := TrimSpace(raw);
    CoveredMeans(raw);
    OneWrite(plan, fs, gs, backups, items, key, Resolve(raw));
    GoingIsGuarded(plan, gs, backups, items - {key});
    if ok {
      ItemPut(plan, gs, backups, items, key, Text(Resolve(raw), content));
    }
  }

  /** Environment file, unit file and site: capture the trimmed path, write to the path as it is. */
  method CapturedText(disk: Disk, rollback: InstallRollback, raw: string, text: Option<string>, ghost plan: Plan,
                      ghost items: map<string, Item>)
    returns (ok: bool)
    requires Valid(disk.fs) && rollback.root == RollbackRoot(plan.work) && Nonblank(raw) <= plan.keys && TrimSpace(raw) != ""
    requires Sound(plan) ==> Going(plan, disk.fs, rollback.backups, items) && Covered(raw)
    modifies rollback`backups, disk`fs, disk`ticks
    ensures Valid(disk.fs)
    ensures old(rollback.backups.Keys) <= rollback.backups.Keys <= old(rollback.backups.Keys) + Nonblank(raw)
    ensures ok ==> text.Some? && rollback.backups != map[]
    ensures Sound(plan) && ok ==> Going(plan, disk.fs, rollback.backups, WithText(items, raw, text))
    ensures Sound(plan) && !ok ==> Guarded(plan, disk.fs, rollback.backups, {})
    ensures disk.Healthy() && Sound(plan) && text.Some? && TrimSpace(raw) !in old(rollback.backups) && CanPlace(plan.was, Resolve(raw)) ==> ok
  {
    hide Going, Guarded, Sound, TrimSpace, Valid, Confined, Covered, Nonblank, Resolve, MadeDirs, CanPlace, CanMkdir;
    ghost var before, entry := rollback.backups, disk.fs;
    ghost var free := Sound(plan) && TrimSpace(raw) !in before && CanPlace(plan.was, Resolve(raw));
    NonblankIn(raw, plan.keys);
    if free {
      CoveredMeans(raw);
      SoundMeans(plan, TrimSpace(raw));
      HigherWay(plan.was, Resolve(TrimSpace(raw)), Resolve(raw));
      GoingIsGuarded(plan, entry, before, items);
    }
    ok := CapturePlanned(disk, rollback, raw, plan, items);
    if !ok {
      return;
    }
    ghost var start := disk.fs;
    if Sound(plan) {
      GoingIsGuarded(plan, start, rollback.backups, items);
    }
    if text.None? {
      return false;
    }
    NonblankIn(raw, rollback.backups.Keys);
    if free {
      StillFree(plan, entry, start, before, TrimSpace(raw), Resolve(raw));
    }
    ok := WritePlain(disk, Resolve(raw), text.value);
    if Sound(plan) {
      TextGoesOn(plan, start, disk.fs, rollback.backups, items, raw, text.value, ok);
    }
  }

  /** Copying something from the bundle to a captured path. */
  lemma {:induction false} CopyGoesOn(plan: Plan, fs: FS, gs: FS, backups: map<string, Backup>, items: map<string, Item>,
                                      key: string, src: Path, ok: bool)
    requires Sound(plan) && Going(plan, fs, backups, items) && Valid(gs)
    requires key in backups && Confined(fs, gs, {Resolve(key)})
    requires ok && Apart(src, Resolve(key)) ==> Moved(fs, src, gs, Resolve(key))
    ensures Guarded(plan, gs, backups, {})
    ensures ok ==> Going(plan, gs, backups, items[key := Copy(Resolve(key), src)])
  {
    hide Guarded, Sound, Valid, Confined, Resolve, RoomLeft, Moved, Placed;
    OneWrite(plan, fs, gs, backups, items, key, Resolve(key));
    GoingIsGuarded(plan, fs, backups, items);
    GoingIsGuarded(plan, gs, backups, items - {key});
    if ok {
      if BundleRoot(plan.work) <= src {
        SoundMeans(plan, key);
        PrefixChain(BundleRoot(plan.work), src, Resolve(key));
        PrefixChain(BundleRoot(plan.work), Resolve(key), src);
        FromBundle(plan, fs, gs, src, Resolve(key));
      }
      ItemPut(plan, gs, backups, items, key, Copy(Resolve(key), src));
    }
  }

  method CapturedAsset(disk: Disk, rollback: InstallRollback, raw: string, source: Path, ghost plan: Plan,
                       ghost items: map<string, Item>)
    returns (ok: bool)
    requires Valid(disk.fs) && rollback.root == RollbackRoot(plan.work) && Nonblank(raw) <= plan.keys && TrimSpace(raw) != ""
    requires Sound(plan) ==> Going(plan, disk.fs, rollback.backups, items)
    modifies rollback`backups, disk`fs, disk`ticks
    ensures Valid(disk.fs)
    ensures old(rollback.backups.Keys) <= rollback.backups.Keys <= old(rollback.backups.Keys) + Nonblank(raw)
    ensures Sound(plan) && ok ==>
      Going(plan, disk.fs, rollback.backups, items[TrimSpace(raw) := Copy(Resolve(TrimSpace(raw)), source)])
    ensures Sound(plan) && !ok ==> Guarded(plan, disk.fs, rollback.backups, {})
    ensures disk.Healthy() && Sound(plan) && TrimSpace(raw) !in old(rollback.backups) ==>
      BundleRoot(plan.work) <= source && AssetFits(plan.was, source, Resolve(TrimSpace(raw))) ==> ok
  {
    hide Going, Guarded, Sound, TrimSpace, Valid, Confined, Nonblank, Resolve, Moved, AssetFits, CanMkdir;
    ghost var before, entry := rollback.backups, disk.fs;
    ghost var free := Sound(plan) && TrimSpace(raw) !in before && BundleRoot(plan.work) <= source
                      && AssetFits(plan.was, source, Resolve(TrimSpace(raw)));
    NonblankIn(raw, plan.keys);
    if free {
      GoingIsGuarded(plan, entry, before, items);
      AssetWay(plan.was, source, Resolve(TrimSpace(raw)));
    }
    ok := CapturePlanned(disk, rollback, raw, plan, items);
    if !ok {
      return;
    }
    ghost var start := disk.fs;
    var key := TrimSpace(raw);
    if free {
      AssetReadyStill(plan, entry, start, before, rollback.backups, items, key, source);
    }
    ok := InstallArtifactPath(disk, source, Resolve(key));
    if Sound(plan) {
      NonblankIn(raw, rollback.backups.Keys);
      CopyGoesOn(plan, start, disk.fs, rollback.backups, items, key, source, ok);
    }
  }

  lemma {:induction false} AssetWay(fs: FS, source: Path, target: Path)
    requires AssetFits(fs, source, target)
    ensures CanMkdir(fs, Parent(target))
  {
  }

  lemma {:induction false} BinaryWay(fs: FS, source: Path, target: Path, random: string)
    requires BinaryFits(fs, source, target, random)
    ensures CanMkdir(fs, Parent(target))
  {
  }

  method CapturedBinary(disk: Disk, rollback: InstallRollback, raw: string, source: Path, random: string, ghost plan: Plan,
                        ghost items: map<string, Item>)
    returns (ok: bool, ghost strays: set<Path>)
    requires Valid(disk.fs) && rollback.root == RollbackRoot(plan.work) && Nonblank(raw) <= plan.keys && TrimSpace(raw) != ""
    requires Sound(plan) ==> Going(plan, disk.fs, rollback.backups, items)
    modifies rollback`backups, disk`fs, disk`ticks
    ensures Valid(disk.fs)
    ensures old(rollback.backups.Keys) <= rollback.backups.Keys <= old(rollback.backups.Keys) + Nonblank(raw)
    ensures Sound(plan) && ok ==>
      Going(plan, disk.fs, rollback.backups, items[TrimSpace(raw) := Copy(Resolve(TrimSpace(raw)), source)])
    ensures Sound(plan) && !ok ==> Guarded(plan, disk.fs, rollback.backups, strays)
    ensures ok || disk.Healthy() ==> strays == {}
    ensures strays <= {TempPath(Resolve(TrimSpace(raw)), random)}
    ensures disk.Healthy() && Sound(plan) && TrimSpace(raw) !in old(rollback.backups) && BundleRoot(plan.work) <= source ==>
      BinaryFits(plan.was, source, Resolve(TrimSpace(raw)), random) ==>
      TempApart(TempPath(Resolve(TrimSpace(raw)), random), plan.keys, plan.work) ==> ok
  {
    hide Going, Guarded, Sound, TrimSpace, Valid, Confined, Nonblank, Resolve, Moved, MadeDirs, TempPath, BinaryFits, TempApart, CanMkdir;
    ghost var before, entry := rollback.backups, disk.fs;
    ghost var free := Sound(plan) && TrimSpace(raw) !in before && BundleRoot(plan.work) <= source
                      && BinaryFits(plan.was, source, Resolve(TrimSpace(raw)), random)
                      && TempApart(TempPath(Resolve(TrimSpace(raw)), random), plan.keys, plan.work);
    NonblankIn(raw, plan.keys);
    if free {
      GoingIsGuarded(plan, entry, before, items);
      BinaryWay(plan.was, source, Resolve(TrimSpace(raw)), random);
    }
    ok := CapturePlanned(disk, rollback, raw, plan, items);
    strays := {};
    if !ok {
      return;
    }
    ghost var start := disk.fs;
    var key := TrimSpace(raw);
    if free {
      BinaryReadyStill(plan, entry, start, before, rollback.backups, items, key, source, random);
    }
    var stray;
    ok, stray := InstallBinary(disk, source, Resolve(key), random);
    strays := if stray then {TempPath(Resolve(key), random)} else {};
    if Sound(plan) {
      NonblankIn(raw, rollback.backups.Keys);
      if stray {
        GoingIsGuarded(plan, start, rollback.backups, items);
        TempBeside(Resolve(key), random);
        StrayStaysGuarded(plan, start, disk.fs, rollback.backups, key, TempPath(Resolve(key), random));
      } else {
        GoingValid(plan, start, rollback.backups, items, key);
        if ok {
          FileMoved(start, disk.fs, source, Resolve(key));
        }
        CopyGoesOn(plan, start, disk.fs, rollback.backups, items, key, source, ok);
      }
    }
  }

  lemma {:induction false} GoingValid(plan: Plan, fs: FS, backups: map<string, Backup>, items: map<string, Item>, key: string)
    requires Sound(plan) && Going(plan, fs, backups, items) && key in backups
    ensures Valid(fs) && Resolve(key) != []
  {
    hide Resolve;
    SoundMeans(plan, key);
  }

  lemma {:induction false} TempBeside(target: Path, random: string)
    requires target != []
    ensures TempPath(target, random) != [] && Parent(TempPath(target, random)) == Parent(target)
  {
  }

  /** All inline paths are captured first, in any map order, then all are written. */
  method CapturedFiles(disk: Disk, rollback: InstallRollback, files: map<string, string>, ghost plan: Plan) returns (ok: bool)
    requires Valid(disk.fs) && rollback.root == RollbackRoot(plan.work) && Trimmed(files) <= plan.keys
    requires Sound(plan) ==> Going(plan, disk.fs, rollback.backups, map[])
    modifies rollback`backups, disk`fs, disk`ticks
    ensures Valid(disk.fs)
    ensures old(rollback.backups.Keys) <= rollback.backups.Keys <= old(rollback.backups.Keys) + Trimmed(files)
    ensures Sound(plan) && ok ==> Going(plan, disk.fs, rollback.backups, InlineItems(files))
    ensures Sound(plan) && !ok ==> Guarded(plan, disk.fs, rollback.backups, {})
    ensures disk.Healthy() && Sound(plan) && old(rollback.backups) == map[] ==>
      NoFileInAnother(files) && WaysFree(plan.was, files, files.Keys) ==> ok
  {
    hide Going, Guarded, Sound, TrimSpace, Valid, Confined, Resolve, InlineItems, NoFileInAnother, WaysFree, CanMkdir, CanPlace;
    var todo := files.Keys;
    ghost var entry := disk.fs;
    StaysConfined(entry, RollbackRoot(plan.work));
    while todo != {}
      invariant Confined(entry, disk.fs, {RollbackRoot(plan.work)})
      invariant todo <= files.Keys && Valid(disk.fs)
      invariant old(rollback.backups.Keys) <= rollback.backups.Keys <= old(rollback.backups.Keys) + Trimmed(files)
      invariant Sound(plan) ==> Going(plan, disk.fs, rollback.backups, map[])
      invariant Sound(plan) ==> forall k :: k in files && k !in todo && TrimSpace(k) != "" ==> TrimSpace(k) in rollback.backups
      decreases |todo|
    {
      var key :| key in todo;
      todo := todo - {key};
      NonblankTrimmed(files, key);
      ghost var here := disk.fs;
      FileWay(plan.was, files, key);
      ok := CapturePlanned(disk, rollback, key, plan, map[]);
      ConfinedThen(entry, here, disk.fs, {RollbackRoot(plan.work)});
      if !ok {
        return;
      }
    }
    ghost var start := disk.fs;
    if Sound(plan) && old(rollback.backups) == map[] && WaysFree(plan.was, files, files.Keys) {
      FilesReady(plan, entry, start, files);
    }
    ok := WriteInlineFiles(disk, files);
    if Sound(plan) {
      FilesGoOn(plan, start, disk.fs, rollback.backups, files, ok);
    }
  }

  lemma {:induction false} FileWay(fs: FS, files: map<string, string>, key: string)
    requires key in files
    ensures WaysFree(fs, files, files.Keys) && TrimSpace(key) != "" ==> CanMkdir(fs, Parent(Resolve(TrimSpace(key))))
  {
    hide TrimSpace, Resolve, CanMkdir;
  }

  lemma {:induction false} FilesReady(plan: Plan, fs: FS, gs: FS, files: map<string, string>)
    requires Sound(plan) && Going(plan, fs, map[], map[]) && Confined(fs, gs, {RollbackRoot(plan.work)})
    requires Trimmed(files) <= plan.keys && WaysFree(plan.was, files, files.Keys)
    ensures WaysFree(gs, files, files.Keys)
  {
    hide TrimSpace, Resolve, CanPlace, Sound, Going, Confined, Guarded;
    GoingIsGuarded(plan, fs, map[], map[]);
    forall k | k in files && TrimSpace(k) != ""
      ensures CanPlace(gs, Resolve(TrimSpace(k)))
    {
      assert TrimSpace(k) in Trimmed(files);
      StillFree(plan, fs, gs, map[], TrimSpace(k), Resolve(TrimSpace(k)));
    }
  }

  lemma {:induction false} NonblankTrimmed(files: map<string, string>, key: string)
    requires key in files
    ensures Nonblank(key) <= Trimmed(files)
    ensures TrimSpace(key) != "" ==> TrimSpace(key) in Nonblank(key)
  {
    hide TrimSpace;
  }

  lemma {:induction false} FilesGoOn(plan: Plan, fs: FS, gs: FS, backups: map<string, Backup>, files: map<string, string>,
                                     ok: bool)
    requires Sound(plan) && Going(plan, fs, backups, map[]) && Valid(gs) && Trimmed(files) <= backups.Keys
    requires Confined(fs, gs, Targets(Trimmed(files)))
    requires ok && NoFileInAnother(files) ==>
      forall k :: k in files && TrimSpace(k) != "" ==> At(gs, Resolve(TrimSpace(k))) == Some(File(files[k]))
    ensures Guarded(plan, gs, backups, {})
    ensures ok ==> Going(plan, gs, backups, InlineItems(files))
  {
    hide Guarded, Sound, TrimSpace, Valid, Confined, Resolve, RoomLeft, Moved, NoFileInAnother;
    WriteGoesOn(plan, fs, gs, backups, map[], Trimmed(files));
    if ok && NoFileInAnother(files) {
      forall k | k in Trimmed(files)
        ensures At(gs, Resolve(k)) == Some(File(ContentFor(files, k)))
      {
        var raw :| raw in files && TrimSpace(raw) == k && files[raw] == ContentFor(files, k);
      }
    }
  }

  method CapturedAssets(disk: Disk, rollback: InstallRollback, assets: seq<Asset>, bundle: Path, ghost plan: Plan,
                        ghost items: map<string, Item>)
    returns (ok: bool)
    requires Valid(disk.fs) && rollback.root == RollbackRoot(plan.work) && AssetKeys(assets) <= plan.keys
    requires Sound(plan) ==> Going(plan, disk.fs, rollback.backups, items)
    modifies rollback`backups, disk`fs, disk`ticks
    ensures Valid(disk.fs)
    ensures old(rollback.backups.Keys) <= rollback.backups.Keys <= old(rollback.backups.Keys) + AssetKeys(assets)
    ensures Sound(plan) && ok ==> Going(plan, disk.fs, rollback.backups, AssetItems(assets, bundle, items))
    ensures Sound(plan) && !ok ==> Guarded(plan, disk.fs, rollback.backups, {})
    ensures disk.Healthy() && Sound(plan) && bundle == BundleRoot(plan.work) ==>
      AllFree(plan.was, bundle, assets, old(rollback.backups.Keys)) ==> ok
  {
    hide Going, Guarded, Sound, TrimSpace, Valid, Confined, Resolve, BundlePath, AssetFits;
    ok := true;
    assert assets[..0] == [];
    for i := 0 to |assets|
      invariant Valid(disk.fs) && ok
      invariant old(rollback.backups.Keys) <= rollback.backups.Keys <= old(rollback.backups.Keys) + AssetKeys(assets)
      invariant forall k :: k in rollback.backups ==>
        k in old(rollback.backups) || exists j :: 0 <= j < i && TrimSpace(assets[j].installPath) == k
      invariant Sound(plan) ==> Going(plan, disk.fs, rollback.backups, AssetItems(assets[..i], bundle, items))
    {
      AssetItemsSnoc(assets, i, bundle, items);
      var installPath := TrimSpace(assets[i].installPath);
      if installPath == "" {
        continue;
      }
      AssetKeysHas(assets, i);
      ok := CapturedAsset(disk, rollback, assets[i].installPath, BundlePath(bundle, assets[i].path), plan,
                          AssetItems(assets[..i], bundle, items));
      if !ok {
        return;
      }
    }
    assert assets[..|assets|] == assets;
  }

  lemma {:induction false} AssetItemsSnoc(assets: seq<Asset>, i: nat, bundle: Path, items: map<string, Item>)
    requires i < |assets|
    ensures AssetItems(assets[..i + 1], bundle, items) ==
      (var earlier := AssetItems(assets[..i], bundle, items);
       var key := TrimSpace(assets[i].installPath);
       if key == "" then earlier else earlier[key := Copy(Resolve(key), BundlePath(bundle, assets[i].path))])
  {
    var some := assets[..i + 1];
    assert some[..|some| - 1] == assets[..i];
  }

  lemma {:induction false} AssetKeysHas(assets: seq<Asset>, i: nat)
    requires i < |assets|
    ensures Nonblank(assets[i].installPath) <= AssetKeys(assets)
  {
    if i > 0 {
      AssetKeysHas(assets[1..], i - 1);
    }
  }

  /**
    The write pipeline up to the unit file and the site. `unitTaken` says the unit file was captured;
    before that, only early paths can have been.
   */
  method WriteRuntime(disk: Disk, rollback: InstallRollback, bundle: Path, files: map<string, string>, m: Manifest, texts: Texts,
                      ghost plan: Plan)
    returns (ok: bool, unitTaken: bool, ghost strays: set<Path>)
    requires Valid(disk.fs) && rollback.root == RollbackRoot(plan.work) && bundle == BundleRoot(plan.work)
    requires plan == PlanFor(plan.was, plan.work, files, m) && ValidManifest(m) && rollback.backups == map[]
    requires Sound(plan) ==> Going(plan, disk.fs, map[], map[])
    modifies rollback`backups, disk`fs, disk`ticks
    ensures Valid(disk.fs) && rollback.backups.Keys <= PlannedKeys(files, m)
    ensures !unitTaken ==> rollback.backups.Keys <= EarlyKeys(files, m)
    ensures Sound(plan) ==> Guarded(plan, disk.fs, rollback.backups, strays)
    ensures Sound(plan) && ok ==> Placed(plan, disk.fs, Items(files, m, texts, bundle))
    ensures Sound(plan) && ok ==> Items(files, m, texts, bundle).Keys <= rollback.backups.Keys
    ensures ok || disk.Healthy() ==> strays == {}
    ensures strays <= {TempPath(Resolve(TrimSpace(m.binaryInstallPath)), texts.random)}
    ensures ok ==> unitTaken && TextsThere(m, texts)
    ensures ok ==> rollback.backups != map[]
    ensures disk.Healthy() && Sound(plan) && NothingInTheWay(plan.was, plan.work, files, m, texts) ==> ok
  {
    hide Going, Guarded, Sound, TrimSpace, Valid, Resolve, InlineItems, BundlePath, TempPath, Placed, Trimmed, Nonblank, AssetKeys, Separate,
      Covered, NothingInTheWay, AllFree, EarlyKeys, PlannedKeys, CanPlace, BinaryFits, TempApart, WaysFree, NoFileInAnother;
    ghost var free := Sound(plan) && NothingInTheWay(plan.was, plan.work, files, m, texts);
    if free {
      FreeMeans(plan.was, plan.work, files, m, texts);
    }
    strays, unitTaken := {}, false;
    PlannedParts(files, m);
    if Sound(plan) {
      SoundCovers(plan, m);
      GoingIsGuarded(plan, disk.fs, map[], map[]);
    }
    ok := CapturedFiles(disk, rollback, files, plan);
    if !ok {
      return;
    }
    if TrimSpace(m.envPath) != "" {
      ok := CapturedText(disk, rollback, m.envPath, Some(texts.env), plan, InlineItems(files));
      if !ok {
        return;
      }
    }
    ok, strays := CapturedBinary(disk, rollback, m.binaryInstallPath, BundlePath(bundle, m.binaryPath), texts.random, plan,
                                 EnvItems(files, m, texts));
    if !ok {
      return;
    }
    ghost var items := BinaryItems(files, m, texts, bundle);
    if free {
      AssetsFreeWith(plan.was, plan.work, files, m, rollback.backups.Keys);
    }
    ok := CapturedAssets(disk, rollback, m.assets, bundle, plan, items);
    if !ok {
      return;
    }
    items := AssetItems(m.assets, bundle, items);
    unitTaken := true;
    ok := CapturedText(disk, rollback, m.unitPath, texts.unit, plan, items);
    if !ok {
      return;
    }
    items := WithText(items, m.unitPath, texts.unit);
    if m.nginxEnabled {
      ok := CapturedText(disk, rollback, m.sitePath, texts.site, plan, items);
      if !ok {
        return;
      }
    }
    if Sound(plan) {
      GoingIsPlaced(plan, disk.fs, rollback.backups, Items(files, m, texts, bundle));
    }
  }

  lemma {:induction false} FreeMeans(was: FS, work: Path, files: map<string, string>, m: Manifest, texts: Texts)
    requires NothingInTheWay(was, work, files, m, texts)
    ensures NoFileInAnother(files) && WaysFree(was, files, files.Keys) && AssetsFree(was, work, files, m) && TextsThere(m, texts)
    ensures TrimSpace(m.envPath) != "" ==> TrimSpace(m.envPath) !in Trimmed(files) && CanPlace(was, Resolve(m.envPath))
    ensures var key, src := TrimSpace(m.binaryInstallPath), BundlePath(BundleRoot(work), m.binaryPath);
      && key !in Trimmed(files) + Nonblank(m.envPath)
      && BundleRoot(work) <= src && BinaryFits(was, src, Resolve(key), texts.random)
      && TempApart(TempPath(Resolve(key), texts.random), PlannedKeys(files, m), work)
    ensures TrimSpace(m.unitPath) !in EarlyKeys(files, m) && CanPlace(was, Resolve(m.unitPath))
    ensures m.nginxEnabled ==>
      && CanPlace(was, Resolve(m.sitePath))
      && forall keys: set<string> :: keys <= EarlyKeys(files, m) + Nonblank(m.unitPath) ==> TrimSpace(m.sitePath) !in keys
  {
    hide Resolve, BundlePath, TempPath, Trimmed, CanPlace, BinaryFits, TempApart, WaysFree, NoFileInAnother, AssetsFree, TrimSpace, EarlyKeys,
      PlannedKeys;
  }

  lemma {:induction false} AssetsFreeWith(was: FS, work: Path, files: map<string, string>, m: Manifest, taken: set<string>)
    requires AssetsFree(was, work, files, m) && taken <= Trimmed(files) + Nonblank(m.envPath) + Nonblank(m.binaryInstallPath)
    ensures AllFree(was, BundleRoot(work), m.assets, taken)
  {
    hide Resolve, BundlePath, Trimmed, TrimSpace, AssetFits;
  }

  lemma {:induction false} PlannedParts(files: map<string, string>, m: Manifest)
    ensures Trimmed(files) <= EarlyKeys(files, m) && Nonblank(m.envPath) <= EarlyKeys(files, m)
    ensures Nonblank(m.binaryInstallPath) <= EarlyKeys(files, m) && AssetKeys(m.assets) <= EarlyKeys(files, m)
    ensures EarlyKeys(files, m) <= PlannedKeys(files, m) && Nonblank(m.unitPath) <= PlannedKeys(files, m)
    ensures m.nginxEnabled ==> Nonblank(m.sitePath) <= PlannedKeys(files, m)
  {
  }

  lemma {:induction false} SoundCovers(plan: Plan, m: Manifest)
    requires Sound(plan) && plan.covered == CoveredWrites(m)
    ensures Covered(m.envPath) && Covered(m.unitPath) && (m.nginxEnabled ==> Covered(m.sitePath))
  {
  }

  lemma {:induction false} GoingIsPlaced(plan: Plan, fs: FS, backups: map<string, Backup>, items: map<string, Item>)
    requires Going(plan, fs, backups, items)
    ensures Guarded(plan, fs, backups, {}) && Placed(plan, fs, items) && items.Keys <= backups.Keys
  {
  }
}
