/** What a finished install has put where, path by path; a path that two steps write belongs to the later one. */
module InstalledFiles {
  import opened GoStrings
  import opened Outcomes
  import opened FileTree
  import opened Installers
  import opened InstallPlan

  /** The unit file or the nginx site goes to this path. */
  predicate TemplateGoes(m: Manifest, key: string) {
    key == TrimSpace(m.unitPath) || (m.nginxEnabled && key == TrimSpace(m.sitePath))
  }

  /** An asset from number `from` on goes to this path. */
  predicate AssetGoes(assets: seq<Asset>, from: nat, key: string) {
    exists i :: from <= i < |assets| && TrimSpace(assets[i].installPath) == key
  }

  /** What the unpacked bundle holds under `name` stands at this path. */
  ghost predicate Unpacked(was: FS, fs: FS, work: Path, name: string, key: string) {
    var src := BundlePath(work + ["bundle"], name);
    work + ["bundle"] <= src ==> forall s :: At(fs, Resolve(key) + s) == At(was, src + s)
  }

  /** The rendered unit file and, with nginx enabled, the rendered site. */
  ghost predicate TemplatesInstalled(fs: FS, m: Manifest, texts: Texts) {
    && TextsThere(m, texts)
    && (m.nginxEnabled ==> At(fs, Resolve(m.sitePath)) == Some(File(texts.site.value)))
    && (!(m.nginxEnabled && TrimSpace(m.sitePath) == TrimSpace(m.unitPath)) ==>
          At(fs, Resolve(m.unitPath)) == Some(File(texts.unit.value)))
  }

  ghost predicate AssetsInstalled(was: FS, fs: FS, work: Path, m: Manifest) {
    forall i :: 0 <= i < |m.assets| ==>
      var key := TrimSpace(m.assets[i].installPath);
      key == "" || TemplateGoes(m, key) || AssetGoes(m.assets, i + 1, key) || Unpacked(was, fs, work, m.assets[i].path, key)
  }

  ghost predicate BinaryInstalled(was: FS, fs: FS, work: Path, m: Manifest) {
    var key := TrimSpace(m.binaryInstallPath);
    TemplateGoes(m, key) || AssetGoes(m.assets, 0, key) || Unpacked(was, fs, work, m.binaryPath, key)
  }

  ghost predicate EnvInstalled(fs: FS, m: Manifest, texts: Texts) {
    var key := TrimSpace(m.envPath);
    || key == "" || TemplateGoes(m, key) || AssetGoes(m.assets, 0, key) || key == TrimSpace(m.binaryInstallPath)
    || At(fs, Resolve(m.envPath)) == Some(File(texts.env))
  }

  ghost predicate InlineInstalled(fs: FS, files: map<string, string>, m: Manifest) {
    NoFileInAnother(files) ==>
      forall k :: k in files ==>
        var key := TrimSpace(k);
        || key == "" || TemplateGoes(m, key) || AssetGoes(m.assets, 0, key)
        || key == TrimSpace(m.binaryInstallPath) || key == TrimSpace(m.envPath)
        || At(fs, Resolve(key)) == Some(File(files[k]))
  }

  /** Everything the manifest and the request name, each with its own content. */
  ghost predicate AllInstalled(was: FS, fs: FS, work: Path, files: map<string, string>, m: Manifest, texts: Texts) {
    && TemplatesInstalled(fs, m, texts) && AssetsInstalled(was, fs, work, m) && BinaryInstalled(was, fs, work, m)
    && EnvInstalled(fs, m, texts) && InlineInstalled(fs, files, m)
  }

  // ---------- who wrote a path last ----------

  lemma {:induction false} AssetWins(assets: seq<Asset>, i: nat, bundle: Path, items: map<string, Item>)
    requires i < |assets| && TrimSpace(assets[i].installPath) != ""
    requires !AssetGoes(assets, i + 1, TrimSpace(assets[i].installPath))
    ensures var key := TrimSpace(assets[i].installPath);
      var all := AssetItems(assets, bundle, items);
      key in all && all[key] == Copy(Resolve(key), BundlePath(bundle, assets[i].path))
    decreases |assets|
  {
    hide TrimSpace, Resolve, BundlePath;
    var last := |assets| - 1;
    if i < last {
      var before := assets[..last];
      assert assets[last] in assets[i + 1..];
      assert forall j :: i + 1 <= j < last ==> before[j] == assets[j];
      AssetWins(before, i, bundle, items);
    }
  }

  lemma {:induction false} AssetsLeave(assets: seq<Asset>, bundle: Path, items: map<string, Item>, key: string)
    requires !AssetGoes(assets, 0, key)
    ensures var all := AssetItems(assets, bundle, items);
      (key in all <==> key in items) && (key in items ==> all[key] == items[key])
    decreases |assets|
  {
    hide TrimSpace, Resolve, BundlePath;
    if assets != [] {
      var before := assets[..|assets| - 1];
      assert forall j :: 0 <= j < |before| ==> before[j] == assets[j];
      AssetsLeave(before, bundle, items, key);
    }
  }

  lemma {:induction false} TemplatesWin(files: map<string, string>, m: Manifest, texts: Texts, bundle: Path)
    requires TextsThere(m, texts)
    ensures var items := Items(files, m, texts, bundle);
      var (unit, site) := (TrimSpace(m.unitPath), TrimSpace(m.sitePath));
      && (m.nginxEnabled ==> site in items && items[site] == Text(Resolve(m.sitePath), texts.site.value))
      && (!(m.nginxEnabled && site == unit) ==> unit in items && items[unit] == Text(Resolve(m.unitPath), texts.unit.value))
  {
    hide TrimSpace, Resolve, BundlePath, AssetItems, BinaryItems;
  }

  lemma {:induction false} TemplatesLeave(files: map<string, string>, m: Manifest, texts: Texts, bundle: Path, key: string)
    requires !TemplateGoes(m, key)
    ensures var items := Items(files, m, texts, bundle);
      var assets := AssetItems(m.assets, bundle, BinaryItems(files, m, texts, bundle));
      (key in items <==> key in assets) && (key in assets ==> items[key] == assets[key])
  {
    hide TrimSpace, Resolve, BundlePath, AssetItems, BinaryItems;
  }

  lemma {:induction false} ContentIsItsOwn(files: map<string, string>, k: string)
    requires NoFileInAnother(files) && k in files && TrimSpace(k) != ""
    ensures TrimSpace(k) in InlineItems(files) && InlineItems(files)[TrimSpace(k)] == Text(Resolve(TrimSpace(k)), files[k])
  {
    hide TrimSpace, Resolve;
    var key := TrimSpace(k);
    assert key in Trimmed(files);
    var raw :| raw in files && TrimSpace(raw) == key && ContentFor(files, key) == files[raw];
    assert raw == k || Apart(Resolve(key), Resolve(key));
  }

  // ---------- what is in place ----------

  lemma {:induction false} PlacedIs(plan: Plan, fs: FS, items: map<string, Item>, key: string)
    requires Placed(plan, fs, items) && key in items
    ensures items[key].Text? ==> At(fs, items[key].at) == Some(File(items[key].content))
    ensures items[key].Copy? && BundleRoot(plan.work) <= items[key].src ==>
      forall s :: At(fs, items[key].at + s) == At(plan.was, items[key].src + s)
  {
    assert InPlace(plan.was, fs, BundleRoot(plan.work), items[key]);
  }

  lemma {:induction false} CopiesInstalled(plan: Plan, fs: FS, files: map<string, string>, m: Manifest, texts: Texts)
    requires Placed(plan, fs, Items(files, m, texts, BundleRoot(plan.work)))
    ensures AssetsInstalled(plan.was, fs, plan.work, m) && BinaryInstalled(plan.was, fs, plan.work, m)
  {
    hide TrimSpace, Resolve, BundlePath, AssetItems, Items, EnvItems, Placed, AssetGoes, TemplateGoes;
    var bundle := BundleRoot(plan.work);
    var items := Items(files, m, texts, bundle);
    forall i | 0 <= i < |m.assets|
      ensures var key := TrimSpace(m.assets[i].installPath);
        || key == "" || TemplateGoes(m, key) || AssetGoes(m.assets, i + 1, key)
        || Unpacked(plan.was, fs, plan.work, m.assets[i].path, key)
    {
      var key := TrimSpace(m.assets[i].installPath);
      if key != "" && !TemplateGoes(m, key) && !AssetGoes(m.assets, i + 1, key) {
        TemplatesLeave(files, m, texts, bundle, key);
        AssetWins(m.assets, i, bundle, BinaryItems(files, m, texts, bundle));
        PlacedIs(plan, fs, items, key);
      }
    }
    var key := TrimSpace(m.binaryInstallPath);
    if !TemplateGoes(m, key) && !AssetGoes(m.assets, 0, key) {
      TemplatesLeave(files, m, texts, bundle, key);
      AssetsLeave(m.assets, bundle, BinaryItems(files, m, texts, bundle), key);
      PlacedIs(plan, fs, items, key);
    }
  }

  lemma {:induction false} TextsInstalled(plan: Plan, fs: FS, files: map<string, string>, m: Manifest, texts: Texts)
    requires Placed(plan, fs, Items(files, m, texts, BundleRoot(plan.work)))
    requires TextsThere(m, texts)
    ensures TemplatesInstalled(fs, m, texts) && EnvInstalled(fs, m, texts)
  {
    hide TrimSpace, Resolve, BundlePath, AssetItems, Items, InlineItems, Placed, AssetGoes, TemplateGoes;
    var bundle := BundleRoot(plan.work);
    var items := Items(files, m, texts, bundle);
    TemplatesWin(files, m, texts, bundle);
    if m.nginxEnabled {
      PlacedIs(plan, fs, items, TrimSpace(m.sitePath));
    }
    if !(m.nginxEnabled && TrimSpace(m.sitePath) == TrimSpace(m.unitPath)) {
      PlacedIs(plan, fs, items, TrimSpace(m.unitPath));
    }
    var key := TrimSpace(m.envPath);
    if key != "" && !TemplateGoes(m, key) && !AssetGoes(m.assets, 0, key) && key != TrimSpace(m.binaryInstallPath) {
      TemplatesLeave(files, m, texts, bundle, key);
      AssetsLeave(m.assets, bundle, BinaryItems(files, m, texts, bundle), key);
      PlacedIs(plan, fs, items, key);
    }
  }

  lemma {:induction false} FilesInstalled(plan: Plan, fs: FS, files: map<string, string>, m: Manifest, texts: Texts)
    requires Placed(plan, fs, Items(files, m, texts, BundleRoot(plan.work)))
    ensures InlineInstalled(fs, files, m)
  {
    hide TrimSpace, Resolve, BundlePath, AssetItems, Items, InlineItems, Placed, AssetGoes, TemplateGoes, NoFileInAnother;
    var bundle := BundleRoot(plan.work);
    var items := Items(files, m, texts, bundle);
    if NoFileInAnother(files) {
      forall k | k in files
        ensures var key := TrimSpace(k);
          || key == "" || TemplateGoes(m, key) || AssetGoes(m.assets, 0, key)
          || key == TrimSpace(m.binaryInstallPath) || key == TrimSpace(m.envPath)
          || At(fs, Resolve(key)) == Some(File(files[k]))
      {
        var key := TrimSpace(k);
        if key != "" && !TemplateGoes(m, key) && !AssetGoes(m.assets, 0, key)
           && key != TrimSpace(m.binaryInstallPath) && key != TrimSpace(m.envPath) {
          ContentIsItsOwn(files, k);
          TemplatesLeave(files, m, texts, bundle, key);
          AssetsLeave(m.assets, bundle, BinaryItems(files, m, texts, bundle), key);
          PlacedIs(plan, fs, items, key);
        }
      }
    }
  }

  /** What the pipeline keeps in place while it writes is, at its end, everything. */
  lemma {:induction false} PlacedIsInstalled(plan: Plan, fs: FS, files: map<string, string>, m: Manifest, texts: Texts)
    requires Placed(plan, fs, Items(files, m, texts, BundleRoot(plan.work)))
    requires TextsThere(m, texts)
    ensures AllInstalled(plan.was, fs, plan.work, files, m, texts)
  {
    hide TemplatesInstalled, AssetsInstalled, BinaryInstalled, EnvInstalled, InlineInstalled, Placed, Items;
    CopiesInstalled(plan, fs, files, m, texts);
    TextsInstalled(plan, fs, files, m, texts);
    FilesInstalled(plan, fs, files, m, texts);
  }
}
