/**
  What an install means to write, and the state its write pipeline keeps: each path is captured before it is
  written, and everything written so far is in place.
 */
module InstallPlan {
  import opened GoStrings
  import opened Outcomes
  import opened FileTree
  import opened CopyTree
  import opened ServiceCommands
  import opened Rollback
  import opened Installers

  datatype Asset = Asset(path: string, installPath: string)

  /** The validated manifest, as far as the write pipeline reads it. */
  datatype Manifest = Manifest(
    envPath: string, binaryPath: string, binaryInstallPath: string, assets: seq<Asset>,
    serviceName: string, unitPath: string, nginxEnabled: bool, sitePath: string)

  /** Rendered texts (`None` when rendering fails) and the random part of the temporary name. */
  datatype Texts = Texts(env: string, unit: Option<string>, site: Option<string>, random: string)

  /** The templates were rendered. */
  predicate TextsThere(m: Manifest, texts: Texts) {
    texts.unit.Some? && (m.nginxEnabled ==> texts.site.Some?)
  }

  function BundlePath(bundle: Path, s: string): Path {
    Walk(bundle + Components(s, ""))
  }

  /** A plain name in the bundle stands below it under its own components. */
  lemma {:induction false} BundlePathPlain(bundle: Path, parts: seq<string>)
    requires forall part :: part in bundle + parts ==> PlainPart(part)
    ensures BundlePath(bundle, Slashed(parts)) == bundle + parts
  {
    hide PlainPart;
    ResolvePlain(bundle, parts);
  }

  // ---------- the paths an install touches ----------

  function Nonblank(s: string): set<string> {
    if TrimSpace(s) == "" then {} else {TrimSpace(s)}
  }

  function AssetKeys(assets: seq<Asset>): set<string> {
    if assets == [] then {} else Nonblank(assets[0].installPath) + AssetKeys(assets[1..])
  }

  /** What may be captured before the unit file is. */
  function EarlyKeys(files: map<string, string>, m: Manifest): set<string> {
    Trimmed(files) + Nonblank(m.envPath) + Nonblank(m.binaryInstallPath) + AssetKeys(m.assets)
  }

  function PlannedKeys(files: map<string, string>, m: Manifest): set<string> {
    EarlyKeys(files, m) + Nonblank(m.unitPath) + if m.nginxEnabled then Nonblank(m.sitePath) else {}
  }

  /** The writer does not trim this path; what it writes still lies inside what was captured. */
  predicate Covered(raw: string) {
    TrimSpace(raw) != "" ==> Resolve(TrimSpace(raw)) <= Resolve(raw)
  }

  predicate CoveredWrites(m: Manifest) {
    Covered(m.envPath) && Covered(m.unitPath) && (m.nginxEnabled ==> Covered(m.sitePath))
  }

  /** The install can be rolled back: targets apart from each other and from the work directory, all writes covered. */
  predicate Reversible(files: map<string, string>, m: Manifest, work: Path) {
    CoveredWrites(m) && Separate(PlannedKeys(files, m), work)
  }

  /** What validation guarantees of a manifest. */
  predicate ValidManifest(m: Manifest) {
    && TrimSpace(m.binaryInstallPath) != "" && TrimSpace(m.unitPath) != "" && TrimSpace(m.serviceName) != ""
    && (m.nginxEnabled ==> TrimSpace(m.sitePath) != "")
  }

  function RollbackRoot(work: Path): Path {
    work + ["rollback"]
  }

  function BundleRoot(work: Path): Path {
    work + ["bundle"]
  }

  // ---------- what a finished install has put in place ----------

  datatype Item = Text(at: Path, content: string) | Copy(at: Path, src: Path)

  /** The item stands in `fs`; copies come from the unpacked bundle, which the install never changes. */
  ghost predicate InPlace(was: FS, fs: FS, bundle: Path, item: Item) {
    match item
    case Text(at, content) => At(fs, at) == Some(File(content))
    case Copy(at, src) => bundle <= src ==> Moved(was, src, fs, at)
  }

  /** Inline files, when no two of them meet. */
  ghost function InlineItems(files: map<string, string>): map<string, Item> {
    if NoFileInAnother(files) then map k | k in Trimmed(files) :: Text(Resolve(k), ContentFor(files, k)) else map[]
  }

  ghost function ContentFor(files: map<string, string>, key: string): string
    requires key in Trimmed(files)
  {
    var raw :| raw in files && TrimSpace(raw) == key;
    files[raw]
  }

  ghost function EnvItems(files: map<string, string>, m: Manifest, texts: Texts): map<string, Item> {
    if TrimSpace(m.envPath) == "" then InlineItems(files)
    else InlineItems(files)[TrimSpace(m.envPath) := Text(Resolve(m.envPath), texts.env)]
  }

  ghost function BinaryItems(files: map<string, string>, m: Manifest, texts: Texts, bundle: Path): map<string, Item> {
    var key := TrimSpace(m.binaryInstallPath);
    EnvItems(files, m, texts)[key := Copy(Resolve(key), BundlePath(bundle, m.binaryPath))]
  }

  function AssetItems(assets: seq<Asset>, bundle: Path, items: map<string, Item>): map<string, Item>
    decreases |assets|
  {
    if assets == [] then items
    else
      var a := assets[|assets| - 1];
      var earlier := AssetItems(assets[..|assets| - 1], bundle, items);
      var key := TrimSpace(a.installPath);
      if key == "" then earlier else earlier[key := Copy(Resolve(key), BundlePath(bundle, a.path))]
  }

  function WithText(items: map<string, Item>, raw: string, text: Option<string>): map<string, Item> {
    if text.None? then items else items[TrimSpace(raw) := Text(Resolve(raw), text.value)]
  }

  /** Inline files, environment file, binary, assets, unit file and site; the last writer of a path wins. */
  ghost function Items(files: map<string, string>, m: Manifest, texts: Texts, bundle: Path): map<string, Item> {
    var unit := WithText(AssetItems(m.assets, bundle, BinaryItems(files, m, texts, bundle)), m.unitPath, texts.unit);
    if m.nginxEnabled then WithText(unit, m.sitePath, texts.site) else unit
  }

  // ---------- the state between two steps ----------

  /** The tree before the install, the work directory, the paths it may capture, and whether its writes are covered. */
  datatype Plan = Plan(was: FS, work: Path, keys: set<string>, covered: bool)

  function PlanFor(was: FS, work: Path, files: map<string, string>, m: Manifest): Plan {
    Plan(was, work, PlannedKeys(files, m), CoveredWrites(m))
  }

  predicate Sound(plan: Plan) {
    plan.covered && Separate(plan.keys, plan.work)
  }

  /**
    So far only captured paths, the work directory and `strays` have changed, every backup describes the
    tree before the install, and each captured entry still has the directory it stood in.
   */
  ghost predicate Guarded(plan: Plan, fs: FS, backups: map<string, Backup>, strays: set<Path>) {
    && Valid(fs) && At(fs, plan.work) == Some(Dir) && backups.Keys <= plan.keys
    && Confined(plan.was, fs, Targets(backups.Keys) + {plan.work} + strays)
    && WriteAhead(plan.was, fs, RollbackRoot(plan.work), backups)
    && ParentsStand(fs, backups)
  }

  ghost predicate Placed(plan: Plan, fs: FS, items: map<string, Item>) {
    forall k :: k in items ==> InPlace(plan.was, fs, BundleRoot(plan.work), items[k]) && Resolve(k) <= items[k].at
  }

  /** No file stands where the rollback directory goes. */
  predicate RootFree(fs: FS, root: Path) {
    At(fs, root) == None || At(fs, root) == Some(Dir)
  }

  /** A run of the write pipeline between two steps: guarded, and everything written so far is in place. */
  ghost predicate Going(plan: Plan, fs: FS, backups: map<string, Backup>, items: map<string, Item>) {
    && Guarded(plan, fs, backups, {}) && RoomLeft(fs, RollbackRoot(plan.work), |backups|) && RootFree(fs, RollbackRoot(plan.work))
    && items.Keys <= backups.Keys
    && Moved(plan.was, BundleRoot(plan.work), fs, BundleRoot(plan.work))
    && Placed(plan, fs, items)
  }

  lemma {:induction false} SoundMeans(plan: Plan, key: string)
    requires Sound(plan) && key in plan.keys
    ensures var p := Resolve(key); var root := RollbackRoot(plan.work); var bundle := BundleRoot(plan.work);
      Apart(p, plan.work) && Apart(plan.work, p) && Apart(p, root) && Apart(root, p) && Apart(p, bundle) && p != []
  {
    hide Resolve;
    var p := Resolve(key);
    PrefixChain(p, plan.work, RollbackRoot(plan.work));
    PrefixChain(plan.work, RollbackRoot(plan.work), p);
    PrefixChain(p, plan.work, BundleRoot(plan.work));
    PrefixChain(plan.work, BundleRoot(plan.work), p);
  }

  lemma {:induction false} SoundPair(plan: Plan, k: string, l: string)
    requires Sound(plan) && k in plan.keys && l in plan.keys && k != l
    ensures Apart(Resolve(k), Resolve(l))
  {
    hide Resolve;
  }

  lemma {:induction false} DirStays(fs: FS, gs: FS, scope: set<Path>, d: Path)
    requires At(fs, d) == Some(Dir) && Confined(fs, gs, scope) && !InScope(d, scope)
    ensures At(gs, d) == Some(Dir)
  {
    assert Unchanged(fs, gs, scope, d);
  }

  // ---------- captures ----------

  /** A change in the rollback directory that keeps the backups keeps the state guarded. */
  lemma {:induction false} RootChange(plan: Plan, fs: FS, gs: FS, backups: map<string, Backup>)
    requires Sound(plan) && Guarded(plan, fs, backups, {}) && Valid(gs)
    requires Confined(fs, gs, {RollbackRoot(plan.work)}) && OtherSlots(fs, gs, RollbackRoot(plan.work), |backups|)
    ensures Guarded(plan, gs, backups, {})
  {
    hide Resolve, Confined, Valid, Apart, Reachable, InScope, WriteAhead, SlotPath;
    var root := RollbackRoot(plan.work);
    var scope := Targets(backups.Keys) + {plan.work} + {};
    SlotsKeepWriteAhead(plan.was, fs, gs, root, backups);
    ConfinedHigher(fs, gs, plan.work, root);
    ConfinedMore(fs, gs, {plan.work}, scope);
    ConfinedThen(plan.was, fs, gs, scope);
    WorkOutsideRoot(plan.work);
    DirStays(fs, gs, {root}, plan.work);
    forall k | k in backups
      ensures Reachable(gs, Resolve(k), backups[k])
    {
      SoundMeans(plan, k);
      ReachableAway(fs, gs, {root}, Resolve(k), backups[k]);
    }
  }

  lemma {:induction false} WorkOutsideRoot(work: Path)
    ensures !InScope(work, {RollbackRoot(work)})
  {
  }

  lemma {:induction false} ReachableAway(fs: FS, gs: FS, scope: set<Path>, p: Path, b: Backup)
    requires Reachable(fs, p, b) && Confined(fs, gs, scope)
    requires forall r :: r in scope ==> r == p || Apart(r, p)
    ensures Reachable(gs, p, b)
  {
    if b.existed {
      forall r | r in scope
        ensures !(r <= Parent(p))
      {
        PrefixChain(r, Parent(p), p);
      }
      DirStays(fs, gs, scope, Parent(p));
    }
  }

  lemma {:induction false} OthersApart(plan: Plan, some: set<string>, key: string)
    requires Sound(plan) && some <= plan.keys && key in plan.keys && key !in some
    ensures forall r :: r in Targets(some) + {plan.work} + {} ==> Apart(r, Resolve(key))
  {
    hide Resolve;
  }

  /** The new backup joins: nobody has touched its subtree yet. */
  lemma {:induction false} NewBackup(plan: Plan, fs: FS, gs: FS, backups: map<string, Backup>, key: string, b: Backup)
    requires Sound(plan) && Guarded(plan, fs, backups, {}) && Guarded(plan, gs, backups, {})
    requires key in plan.keys && key !in backups && Confined(fs, gs, {RollbackRoot(plan.work)})
    requires Keeps(fs, gs, Resolve(key), b) && (b.existed ==> b.place == SlotPath(RollbackRoot(plan.work), |backups|))
    ensures Guarded(plan, gs, backups[key := b], {})
  {
    hide Resolve, Confined, Apart, InScope, WriteAhead, SlotPath, Keeps;
    var p := Resolve(key);
    var more := backups[key := b];
    OthersApart(plan, backups.Keys, key);
    SoundMeans(plan, key);
    KeepsFromStart(plan.was, fs, gs, Targets(backups.Keys) + {plan.work} + {}, p, b);
    BackupJoins(plan.was, gs, RollbackRoot(plan.work), backups, key, b);
    ConfinedMore(plan.was, gs, Targets(backups.Keys) + {plan.work} + {}, Targets(more.Keys) + {plan.work} + {});
    EntryReachable(fs, gs, p, b);
    ReachableAway(fs, gs, {RollbackRoot(plan.work)}, p, b);
  }

  lemma {:induction false} EntryReachable(fs: FS, gs: FS, p: Path, b: Backup)
    requires Valid(fs) && Keeps(fs, gs, p, b) && p != []
    ensures Reachable(fs, p, b)
  {
  }

  /** What was put in place stays when nothing changes at or around it. */
  lemma {:induction false} ItemStays(plan: Plan, fs: FS, gs: FS, scope: set<Path>, p: Path, item: Item)
    requires InPlace(plan.was, fs, BundleRoot(plan.work), item) && p <= item.at
    requires Confined(fs, gs, scope) && forall r :: r in scope ==> Apart(r, p)
    ensures InPlace(plan.was, gs, BundleRoot(plan.work), item)
  {
    forall s: Path
      ensures At(gs, item.at + s) == At(fs, item.at + s)
    {
      ApartUntouched(fs, gs, scope, p, Below(p, item.at) + s);
      assert p + (Below(p, item.at) + s) == item.at + s;
    }
    assert item.at + [] == item.at;
    assert At(gs, item.at + []) == At(fs, item.at + []);
  }

  lemma {:induction false} BundleStays(plan: Plan, fs: FS, gs: FS, scope: set<Path>)
    requires Moved(plan.was, BundleRoot(plan.work), fs, BundleRoot(plan.work))
    requires Confined(fs, gs, scope) && forall r :: r in scope ==> Apart(r, BundleRoot(plan.work))
    ensures Moved(plan.was, BundleRoot(plan.work), gs, BundleRoot(plan.work))
  {
    hide Confined;
    var bundle := BundleRoot(plan.work);
    forall s: Path
      ensures At(gs, bundle + s) == At(plan.was, bundle + s)
    {
      ApartUntouched(fs, gs, scope, bundle, s);
    }
  }

  /** A successful capture of a planned path keeps the run going. */
  lemma {:induction false} CaptureGoesOn(plan: Plan, fs: FS, gs: FS, before: map<string, Backup>, after: map<string, Backup>,
                                         items: map<string, Item>, target: string)
    requires Sound(plan) && Going(plan, fs, before, items) && Valid(gs) && Confined(fs, gs, {RollbackRoot(plan.work)})
    requires CaptureEffect(fs, gs, RollbackRoot(plan.work), before, after, target)
    requires target == "" || target in plan.keys
    ensures Going(plan, gs, after, items) && (target == "" || target in after)
  {
    hide Resolve, Confined, Valid, Apart, InScope, WriteAhead, SlotPath, Keeps, OtherSlots, RoomLeft, Guarded, InPlace, Moved;
    if target != "" && target !in before {
      var root := RollbackRoot(plan.work);
      SoundMeans(plan, target);
      RootChange(plan, fs, gs, before);
      NewBackup(plan, fs, gs, before, target, after[target]);
      RootApartBundle(plan.work);
      BundleStays(plan, fs, gs, {root});
      KeysPlanned(plan, fs, before);
      forall k | k in items
        ensures InPlace(plan.was, gs, BundleRoot(plan.work), items[k]) && Resolve(k) <= items[k].at
      {
        SoundMeans(plan, k);
        ItemStays(plan, fs, gs, {root}, Resolve(k), items[k]);
      }
      assert |after| == |before| + 1;
    }
  }

  lemma {:induction false} KeysPlanned(plan: Plan, fs: FS, backups: map<string, Backup>)
    requires Guarded(plan, fs, backups, {})
    ensures backups.Keys <= plan.keys
  {
  }

  lemma {:induction false} RootApartBundle(work: Path)
    ensures Apart(RollbackRoot(work), BundleRoot(work))
  {
    assert RollbackRoot(work)[|work|] == "rollback" && BundleRoot(work)[|work|] == "bundle";
    assert "rollback"[0] != "bundle"[0];
  }

  // ---------- writes ----------

  /** A write inside a captured path keeps the run going and puts its item in place. */
  lemma {:induction false} WriteGoesOn(plan: Plan, fs: FS, gs: FS, backups: map<string, Backup>, items: map<string, Item>,
                                       scope: set<string>)
    requires Sound(plan) && Going(plan, fs, backups, items) && Valid(gs)
    requires scope <= backups.Keys && Confined(fs, gs, Targets(scope))
    requires items.Keys !! scope
    ensures Going(plan, gs, backups, items)
  {
    hide Resolve, Confined, Valid, Apart, InScope, WriteAhead, SlotPath, Keeps, RoomLeft, InPlace, Moved, Reachable;
    var root := RollbackRoot(plan.work);
    var all := Targets(backups.Keys) + {plan.work} + {};
    forall r | r in Targets(scope)
      ensures Apart(r, root) && Apart(r, BundleRoot(plan.work)) && Apart(r, plan.work)
    {
      var k :| k in scope && r == Resolve(k);
      SoundMeans(plan, k);
    }
    WritesKeepWriteAhead(plan.was, fs, gs, root, backups, Targets(scope));
    ConfinedMore(fs, gs, Targets(scope), all);
    ConfinedThen(plan.was, fs, gs, all);
    BundleStays(plan, fs, gs, Targets(scope));
    OutsideApart(plan.work, Targets(scope));
    DirStays(fs, gs, Targets(scope), plan.work);
    assert root + [] == root;
    ApartUntouched(fs, gs, Targets(scope), root, []);
    forall k | k in backups
      ensures Reachable(gs, Resolve(k), backups[k])
    {
      ScopeApart(plan, scope, k);
      ReachableAway(fs, gs, Targets(scope), Resolve(k), backups[k]);
    }
    forall k | k in items
      ensures InPlace(plan.was, gs, BundleRoot(plan.work), items[k]) && Resolve(k) <= items[k].at
    {
      ScopeApart(plan, scope, k);
      ItemStays(plan, fs, gs, Targets(scope), Resolve(k), items[k]);
    }
  }

  lemma {:induction false} OutsideApart(q: Path, scope: set<Path>)
    requires forall r :: r in scope ==> Apart(r, q)
    ensures !InScope(q, scope)
  {
  }

  lemma {:induction false} ScopeApart(plan: Plan, scope: set<string>, key: string)
    requires Sound(plan) && scope <= plan.keys && key in plan.keys
    ensures forall r :: r in Targets(scope) ==> r == Resolve(key) || Apart(r, Resolve(key))
    ensures key !in scope ==> forall r :: r in Targets(scope) ==> Apart(r, Resolve(key))
  {
    hide Resolve;
  }

  /** A write inside the captured path `key` replaces what was in place there. */
  lemma {:induction false} OneWrite(plan: Plan, fs: FS, gs: FS, backups: map<string, Backup>, items: map<string, Item>,
                                    key: string, q: Path)
    requires Sound(plan) && Going(plan, fs, backups, items) && Valid(gs)
    requires key in backups && Resolve(key) <= q && Confined(fs, gs, {q})
    ensures Going(plan, gs, backups, items - {key})
  {
    hide Resolve, Confined, Valid, Guarded, RoomLeft, InPlace, Moved;
    ConfinedHigher(fs, gs, Resolve(key), q);
    assert Targets({key}) == {Resolve(key)};
    WriteGoesOn(plan, fs, gs, backups, items - {key}, {key});
  }

  lemma {:induction false} ItemPut(plan: Plan, fs: FS, backups: map<string, Backup>, items: map<string, Item>,
                                   key: string, item: Item)
    requires Going(plan, fs, backups, items - {key}) && key in backups
    requires InPlace(plan.was, fs, BundleRoot(plan.work), item) && Resolve(key) <= item.at
    ensures Going(plan, fs, backups, items[key := item])
  {
    hide Resolve, Guarded, RoomLeft, InPlace, Moved;
    var more := items[key := item];
    forall k | k in more
      ensures InPlace(plan.was, fs, BundleRoot(plan.work), more[k]) && Resolve(k) <= more[k].at && k in backups
    {
      if k != key {
        assert k in items - {key};
      }
    }
  }

  lemma {:induction false} GoingIsGuarded(plan: Plan, fs: FS, backups: map<string, Backup>, items: map<string, Item>)
    requires Going(plan, fs, backups, items)
    ensures Guarded(plan, fs, backups, {}) && backups.Keys <= plan.keys
  {
  }

  /** A subtree copied out of the bundle is the one the bundle had from the start. */
  lemma {:induction false} FromBundle(plan: Plan, fs: FS, gs: FS, src: Path, dst: Path)
    requires Moved(plan.was, BundleRoot(plan.work), fs, BundleRoot(plan.work)) && BundleRoot(plan.work) <= src
    requires Moved(fs, src, gs, dst)
    ensures Moved(plan.was, src, gs, dst)
  {
    var bundle := BundleRoot(plan.work);
    forall s: Path
      ensures At(gs, dst + s) == At(plan.was, src + s)
    {
      assert bundle + (Below(bundle, src) + s) == src + s;
      assert At(fs, bundle + (Below(bundle, src) + s)) == At(plan.was, bundle + (Below(bundle, src) + s));
    }
  }

  /** A temporary file that could not be removed harms no backup and no captured entry. */
  lemma {:induction false} StrayStaysGuarded(plan: Plan, fs: FS, gs: FS, backups: map<string, Backup>, key: string, tmp: Path)
    requires Sound(plan) && Guarded(plan, fs, backups, {}) && Valid(gs) && key in backups
    requires Confined(fs, gs, {Resolve(key)} + {tmp}) && tmp !in fs && tmp != [] && Parent(tmp) == Parent(Resolve(key))
    ensures Guarded(plan, gs, backups, {tmp})
  {
    hide Resolve, Confined, Apart, InScope, WriteAhead, SlotPath, Keeps;
    var p := Resolve(key);
    var scope := {p} + {tmp};
    var all := Targets(backups.Keys) + {plan.work} + {tmp};
    SoundMeans(plan, key);
    StrayApart(plan, fs, p, tmp);
    WritesKeepWriteAhead(plan.was, fs, gs, RollbackRoot(plan.work), backups, scope);
    assert p in Targets(backups.Keys);
    ConfinedMore(fs, gs, scope, all);
    ConfinedMore(plan.was, fs, Targets(backups.Keys) + {plan.work} + {}, all);
    ConfinedThen(plan.was, fs, gs, all);
    OutsideApart(plan.work, scope);
    DirStays(fs, gs, scope, plan.work);
    forall k | k in backups
      ensures Reachable(gs, Resolve(k), backups[k])
    {
      StrayLeavesParent(plan, fs, gs, key, k, tmp, backups[k]);
    }
  }

  lemma {:induction false} StrayApart(plan: Plan, fs: FS, p: Path, tmp: Path)
    requires Valid(fs) && At(fs, plan.work) == Some(Dir) && Apart(p, plan.work) && p != []
    requires tmp !in fs && tmp != [] && Parent(tmp) == Parent(p)
    ensures Apart(tmp, plan.work) && Apart(tmp, RollbackRoot(plan.work))
  {
    if tmp < plan.work {
      AboveIsDir(fs, tmp, plan.work);
    }
    assert plan.work <= tmp && tmp != plan.work ==> plan.work <= Parent(tmp);
    PrefixChain(plan.work, Parent(p), p);
    PrefixChain(tmp, plan.work, RollbackRoot(plan.work));
    PrefixChain(plan.work, RollbackRoot(plan.work), tmp);
  }

  lemma {:induction false} NotAboveAnything(fs: FS, missing: Path, d: Path)
    requires Valid(fs) && missing !in fs && d in fs
    ensures !(missing <= d)
  {
    assert missing <= d && |missing| == |d| ==> missing == d;
    if missing < d {
      AboveIsDir(fs, missing, d);
    }
  }

  lemma {:induction false} StrayLeavesParent(plan: Plan, fs: FS, gs: FS, key: string, k: string, tmp: Path, b: Backup)
    requires Sound(plan) && key in plan.keys && k in plan.keys && Valid(fs) && Reachable(fs, Resolve(k), b)
    requires Confined(fs, gs, {Resolve(key)} + {tmp}) && tmp !in fs
    ensures Reachable(gs, Resolve(k), b)
  {
    hide Resolve, Confined;
    if b.existed {
      var p, q := Resolve(key), Resolve(k);
      var d := Parent(q);
      SoundMeans(plan, k);
      if k != key {
        SoundPair(plan, key, k);
      }
      PrefixChain(p, d, q);
      assert At(fs, d) == Some(Dir);
      NotAboveAnything(fs, tmp, d);
      assert !(p <= d);
      DirStays(fs, gs, {p} + {tmp}, d);
    }
  }

  // ---------- nothing in the way ----------

  /**
    The tree before the install, with the bundle unpacked, lets every write through: the templates were rendered,
    no two writes go to one path, no directory stands where a file goes and no file on the way, the bundle holds
    what is copied out of it, and the temporary name beside the binary is free.
   */
  predicate NothingInTheWay(was: FS, work: Path, files: map<string, string>, m: Manifest, texts: Texts) {
    && TextsThere(m, texts) && NoFileInAnother(files) && WaysFree(was, files, files.Keys)
    && (TrimSpace(m.envPath) != "" ==> TrimSpace(m.envPath) !in Trimmed(files) && CanPlace(was, Resolve(m.envPath)))
    && BinaryFree(was, work, files, m, texts) && AssetsFree(was, work, files, m)
    && TrimSpace(m.unitPath) !in EarlyKeys(files, m) && CanPlace(was, Resolve(m.unitPath))
    && (m.nginxEnabled ==>
          && TrimSpace(m.sitePath) !in EarlyKeys(files, m) + {TrimSpace(m.unitPath)}
          && CanPlace(was, Resolve(m.sitePath)))
  }

  predicate BinaryFree(was: FS, work: Path, files: map<string, string>, m: Manifest, texts: Texts) {
    var key, src := TrimSpace(m.binaryInstallPath), BundlePath(BundleRoot(work), m.binaryPath);
    && key !in Trimmed(files) + Nonblank(m.envPath)
    && BundleRoot(work) <= src && BinaryFits(was, src, Resolve(key), texts.random)
    && TempApart(TempPath(Resolve(key), texts.random), PlannedKeys(files, m), work)
  }

  predicate TempApart(tmp: Path, keys: set<string>, work: Path) {
    Apart(tmp, work) && forall k :: k in keys ==> Apart(tmp, Resolve(k))
  }

  predicate AssetsFree(was: FS, work: Path, files: map<string, string>, m: Manifest) {
    AllFree(was, BundleRoot(work), m.assets, Trimmed(files) + Nonblank(m.envPath) + Nonblank(m.binaryInstallPath))
  }

  predicate AllFree(was: FS, bundle: Path, assets: seq<Asset>, taken: set<string>) {
    forall i :: 0 <= i < |assets| && TrimSpace(assets[i].installPath) != "" ==> AssetFree(was, bundle, assets, i, taken)
  }

  predicate AssetFree(was: FS, bundle: Path, assets: seq<Asset>, i: nat, taken: set<string>)
    requires i < |assets|
  {
    var key, src := TrimSpace(assets[i].installPath), BundlePath(bundle, assets[i].path);
    && key !in taken && (forall j :: 0 <= j < i ==> TrimSpace(assets[j].installPath) != key)
    && bundle <= src && AssetFits(was, src, Resolve(key))
  }

  /** An empty tree with a work directory and a bundle that holds one file. */
  const SMALL_TREE: FS := map[[] := Dir, ["w"] := Dir, ["w", "bundle"] := Dir, ["w", "bundle", "x"] := File("")]

  /** Nothing is in the way of a binary and a unit file in such a tree. */
  lemma {:induction false} SmallInstall() returns (m: Manifest, texts: Texts)
    ensures Valid(SMALL_TREE) && At(SMALL_TREE, ["w"]) == Some(Dir) && RollbackRoot(["w"]) !in SMALL_TREE
    ensures ValidManifest(m) && Reversible(map[], m, ["w"]) && NothingInTheWay(SMALL_TREE, ["w"], map[], m, texts)
  {
    hide TrimSpace, Resolve, BundlePath, CanPlace, BinaryFits, SMALL_TREE, Valid;
    m := Manifest("", "/x", "/b", [], "s", "/u", false, "");
    texts := Texts("", Some(""), None, "");
    SmallPaths();
    SmallTree();
    assert PlannedKeys(map[], m) == {"/b", "/u"};
    assert BundleRoot(["w"]) == ["w", "bundle"] <= ["w", "bundle", "x"];
    var tmp := TempPath(["b"], "");
    assert |tmp| == 1 && |tmp[0]| == 7;
    assert TempApart(tmp, {"/b", "/u"}, ["w"]);
  }

  lemma {:induction false} SmallTree()
    ensures Valid(SMALL_TREE) && At(SMALL_TREE, ["w"]) == Some(Dir) && RollbackRoot(["w"]) !in SMALL_TREE
    ensures CanPlace(SMALL_TREE, ["b"]) && CanPlace(SMALL_TREE, ["u"]) && BinaryFits(SMALL_TREE, ["w", "bundle", "x"], ["b"], "")
  {
    var work, bundle, source := ["w"], ["w", "bundle"], ["w", "bundle", "x"];
    assert RollbackRoot(work)[1] == "rollback" && "rollback"[0] != "bundle"[0];
    assert Parent(source) == bundle && Parent(bundle) == work && Parent(work) == [] && Parent(["b"]) == [] == Parent(["u"]);
    var tmp := TempPath(["b"], "");
    assert |tmp| == 1 && |tmp[0]| == 7;
  }

  lemma {:induction false} SmallPaths()
    ensures TrimSpace("") == "" && TrimSpace("/b") == "/b" && TrimSpace("/u") == "/u" && TrimSpace("s") == "s"
    ensures Resolve("/b") == ["b"] && Resolve("/u") == ["u"] && BundlePath(["w", "bundle"], "/x") == ["w", "bundle", "x"]
  {
    hide Walk, Components;
    TrimCleanText("/b", IsSpace);
    TrimCleanText("/u", IsSpace);
    TrimCleanText("s", IsSpace);
    assert Slashed(["b"]) == "/b" && Slashed(["u"]) == "/u" && Slashed(["x"]) == "/x" by {
      assert ["b"][1..] == [] && ["u"][1..] == [] && ["x"][1..] == [];
    }
    ResolvePlain([], ["b"]);
    ResolvePlain([], ["u"]);
    BundlePathPlain(["w", "bundle"], ["x"]);
  }

  /** The way to a path, and the path itself, are untouched by changes apart from it. */
  lemma {:induction false} WayStays(fs: FS, gs: FS, scope: set<Path>, q: Path)
    requires Confined(fs, gs, scope) && forall r :: r in scope ==> Apart(r, q)
    ensures At(gs, q) == At(fs, q) && (CanMkdir(fs, Parent(q)) ==> CanMkdir(gs, Parent(q)))
    ensures CanPlace(fs, q) ==> CanPlace(gs, q)
  {
    ApartUntouched(fs, gs, scope, q, []);
    assert q + [] == q;
    var d := Parent(q);
    if CanMkdir(fs, d) {
      forall k | 0 <= k <= |d|
        ensures d[..k] !in gs || gs[d[..k]].Dir?
      {
        forall r | r in scope
          ensures !(r <= d[..k])
        {
          PrefixChain(r, d[..k], q);
        }
        assert Unchanged(fs, gs, scope, d[..k]);
      }
    }
  }

  /** At a path no capture has taken yet the tree is still the one before the install. */
  lemma {:induction false} StillFree(plan: Plan, fs: FS, gs: FS, backups: map<string, Backup>, key: string, q: Path)
    requires Sound(plan) && Guarded(plan, fs, backups, {}) && Confined(fs, gs, {RollbackRoot(plan.work)})
    requires key in plan.keys && key !in backups && Resolve(key) <= q
    ensures At(gs, q) == At(plan.was, q) && (CanMkdir(plan.was, Parent(q)) ==> CanMkdir(gs, Parent(q)))
    ensures CanPlace(plan.was, q) ==> CanPlace(gs, q)
  {
    hide Resolve, Confined, CanMkdir, CanPlace, Valid, WriteAhead, ParentsStand;
    var p, scope := Resolve(key), Targets(backups.Keys) + {plan.work} + {};
    OthersApart(plan, backups.Keys, key);
    SoundMeans(plan, key);
    forall r | r in scope + {RollbackRoot(plan.work)}
      ensures Apart(r, q)
    {
      PrefixChain(p, q, r);
      PrefixChain(p, r, q);
    }
    WayStays(plan.was, fs, scope, q);
    WayStays(fs, gs, {RollbackRoot(plan.work)}, q);
  }

  /** A capture of a path with a free way to it meets no obstacle of its own. */
  lemma {:induction false} CaptureReady(plan: Plan, fs: FS, backups: map<string, Backup>, items: map<string, Item>, key: string)
    requires Sound(plan) && Going(plan, fs, backups, items) && key in plan.keys && key !in backups
    requires CanMkdir(plan.was, Parent(Resolve(key)))
    ensures CaptureFits(fs, RollbackRoot(plan.work), |backups|, key)
  {
    hide Resolve, CanMkdir, WriteAhead, ParentsStand, Moved, Placed, RoomLeft, Confined, Apart;
    var root := RollbackRoot(plan.work);
    SoundMeans(plan, key);
    StaysConfined(fs, root);
    StillFree(plan, fs, fs, backups, key, Resolve(key));
    assert Parent(root) == plan.work;
    MakeUnderDir(fs, root);
  }

  lemma {:induction false} HigherWay(fs: FS, p: Path, q: Path)
    requires p <= q && p != [] && CanPlace(fs, q)
    ensures CanMkdir(fs, Parent(p))
  {
    forall k | 0 <= k <= |Parent(p)|
      ensures Parent(p)[..k] !in fs || fs[Parent(p)[..k]].Dir?
    {
      assert Parent(p)[..k] == Parent(q)[..k];
    }
  }

  /** What the bundle holds is still there. */
  lemma {:induction false} SourceStays(plan: Plan, fs: FS, backups: map<string, Backup>, items: map<string, Item>, src: Path)
    requires Going(plan, fs, backups, items) && BundleRoot(plan.work) <= src
    ensures At(fs, src) == At(plan.was, src)
  {
    hide Guarded, RoomLeft, Placed;
    assert src == BundleRoot(plan.work) + Below(BundleRoot(plan.work), src);
  }

  lemma {:induction false} AssetReadyStill(plan: Plan, fs: FS, gs: FS, backups: map<string, Backup>, after: map<string, Backup>,
                                           items: map<string, Item>, key: string, src: Path)
    requires Sound(plan) && Guarded(plan, fs, backups, {}) && Confined(fs, gs, {RollbackRoot(plan.work)})
    requires Going(plan, gs, after, items) && key in plan.keys && key !in backups && BundleRoot(plan.work) <= src
    requires AssetFits(plan.was, src, Resolve(key))
    ensures AssetFits(gs, src, Resolve(key))
  {
    hide Resolve, Confined, CanMkdir, Guarded, Going, Apart, CanPlace;
    StillFree(plan, fs, gs, backups, key, Resolve(key));
    SourceStays(plan, gs, after, items, src);
  }

  lemma {:induction false} BinaryReadyStill(plan: Plan, fs: FS, gs: FS, backups: map<string, Backup>, after: map<string, Backup>,
                                            items: map<string, Item>, key: string, src: Path, random: string)
    requires Sound(plan) && Guarded(plan, fs, backups, {}) && Confined(fs, gs, {RollbackRoot(plan.work)})
    requires Going(plan, gs, after, items) && key in plan.keys && key !in backups && BundleRoot(plan.work) <= src
    requires BinaryFits(plan.was, src, Resolve(key), random) && TempApart(TempPath(Resolve(key), random), plan.keys, plan.work)
    ensures BinaryFits(gs, src, Resolve(key), random)
  {
    hide Resolve, Confined, CanMkdir, Going, Apart, CanPlace, TempPath, Valid, WriteAhead, ParentsStand;
    var tmp, root := TempPath(Resolve(key), random), RollbackRoot(plan.work);
    StillFree(plan, fs, gs, backups, key, Resolve(key));
    SourceStays(plan, gs, after, items, src);
    TempAway(plan, backups, tmp);
    WayStays(plan.was, fs, Targets(backups.Keys) + {plan.work} + {}, tmp);
    WayStays(fs, gs, {root}, tmp);
  }

  lemma {:induction false} TempAway(plan: Plan, backups: map<string, Backup>, tmp: Path)
    requires TempApart(tmp, plan.keys, plan.work) && backups.Keys <= plan.keys
    ensures forall r :: r in Targets(backups.Keys) + {plan.work} + {} ==> Apart(r, tmp)
    ensures Apart(RollbackRoot(plan.work), tmp)
  {
    hide Resolve;
    PrefixChain(plan.work, RollbackRoot(plan.work), tmp);
    PrefixChain(plan.work, tmp, RollbackRoot(plan.work));
  }
}
