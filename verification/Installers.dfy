/** The writers of the install pipeline: inline files, environment and template files, binary, assets. */
module Installers {
  import opened GoStrings
  import opened Outcomes
  import opened FileTree
  import opened CopyTree

  predicate CanPlace(fs: FS, p: Path) {
    p != [] && CanMkdir(fs, Parent(p)) && At(fs, p) != Some(Dir)
  }

  /** Make the directory, write the file: inline files, the environment file, rendered templates. */
  method WritePlain(disk: Disk, p: Path, content: string) returns (ok: bool)
    requires Valid(disk.fs)
    modifies disk`fs, disk`ticks
    ensures Valid(disk.fs) && Confined(old(disk.fs), disk.fs, {p})
    ensures ok ==> disk.fs == MadeDirs(old(disk.fs), Parent(p))[p := File(content)]
    ensures disk.Healthy() && old(CanPlace(disk.fs, p)) ==> ok
  {
    hide CanMkdir, Confined, Valid, OnlyOnWay, MadeDirs;
    ghost var start := disk.fs;
    ParentAbove(p);
    ok := disk.MkdirAll(Parent(p));
    OnWayIsConfined(start, disk.fs, Parent(p), p);
    ghost var made := disk.fs;
    if !ok {
      return;
    }
    MadeDirsKeeps(start, Parent(p));
    assert At(made, p) == At(start, p) || (p == [] && At(made, p) == Some(Dir));
    ok := disk.WriteFile(p, content);
    ConfinedThen(start, made, disk.fs, {p});
  }

  lemma {:induction false} ParentAbove(p: Path)
    ensures Parent(p) <= p
  {
  }

  // ---------- inline files ----------

  function Trimmed(files: map<string, string>): set<string> {
    set k | k in files && TrimSpace(k) != "" :: TrimSpace(k)
  }

  /** `writeInlineFiles`, in any map order. */
  method WriteInlineFiles(disk: Disk, files: map<string, string>) returns (ok: bool)
    requires Valid(disk.fs)
    modifies disk`fs, disk`ticks
    ensures Valid(disk.fs) && Confined(old(disk.fs), disk.fs, Targets(Trimmed(files)))
    ensures ok && NoFileInAnother(files) ==>
      forall k :: k in files && TrimSpace(k) != "" ==> At(disk.fs, Resolve(TrimSpace(k))) == Some(File(files[k]))
    ensures disk.Healthy() && NoFileInAnother(files) && old(WaysFree(disk.fs, files, files.Keys)) ==> ok
  {
    hide *;
    ghost var start := disk.fs;
    ghost var scope := Targets(Trimmed(files));
    ghost var fits := NoFileInAnother(files) && WaysFree(start, files, files.Keys);
    var todo := files.Keys;
    ok := true;
    NothingWritten(start, files);
    while todo != {}
      invariant ok && todo <= files.Keys && Valid(disk.fs) && Confined(start, disk.fs, scope)
      invariant NoFileInAnother(files) ==> Written(disk.fs, files, files.Keys - todo)
      invariant fits ==> WaysFree(disk.fs, files, todo)
      decreases |todo|
    {
      var key :| key in todo;
      var clean := TrimSpace(key);
      ghost var before := disk.fs;
      if clean != "" {
        var p := Resolve(clean);
        if fits {
          WayFree(before, files, todo, key);
        }
        ok := WritePlain(disk, p, files[key]);
        ScopeHas(files, key);
        ConfinedMore(before, disk.fs, {p}, scope);
        ConfinedThen(start, before, disk.fs, scope);
        if !ok {
          return;
        }
      }
      if NoFileInAnother(files) {
        OneMoreWritten(before, disk.fs, files, files.Keys - todo, key);
        if fits {
          WaysStayFree(before, disk.fs, files, todo, key);
        }
        assert files.Keys - todo + {key} == files.Keys - (todo - {key});
      }
      todo := todo - {key};
    }
    if NoFileInAnother(files) {
      assert files.Keys - {} == files.Keys;
      AllWritten(disk.fs, files);
    }
  }

  /** No inline file stands at or inside another. */
  predicate NoFileInAnother(files: map<string, string>) {
    forall k, l :: k in files && l in files && k != l && TrimSpace(k) != "" && TrimSpace(l) != "" ==>
      Apart(Resolve(TrimSpace(k)), Resolve(TrimSpace(l)))
  }

  /** No directory stands where one of these files goes, and no file on the way there. */
  predicate WaysFree(fs: FS, files: map<string, string>, keys: set<string>) {
    forall k :: k in keys && TrimSpace(k) != "" ==> CanPlace(fs, Resolve(TrimSpace(k)))
  }

  lemma {:induction false} WayFree(fs: FS, files: map<string, string>, keys: set<string>, key: string)
    requires WaysFree(fs, files, keys) && key in keys && TrimSpace(key) != ""
    ensures CanPlace(fs, Resolve(TrimSpace(key)))
  {
    hide TrimSpace, Resolve, CanPlace;
  }

  /** Writing one file bars no way to a place apart from it. */
  lemma {:induction false} PlaceStays(fs: FS, gs: FS, p: Path, q: Path, content: string)
    requires gs == MadeDirs(fs, Parent(p))[p := File(content)] && CanPlace(fs, q) && Apart(p, q)
    ensures CanPlace(gs, q)
  {
    var d := Parent(q);
    forall k | 0 <= k <= |d|
      ensures d[..k] !in gs || gs[d[..k]].Dir?
    {
      assert d[..k] <= q && At(gs, d[..k]) == At(MadeDirs(fs, Parent(p)), d[..k]);
    }
    PrefixChain(q, Parent(p), p);
    assert At(gs, q) == At(MadeDirs(fs, Parent(p)), q);
  }

  lemma {:induction false} WaysStayFree(fs: FS, gs: FS, files: map<string, string>, todo: set<string>, key: string)
    requires NoFileInAnother(files) && WaysFree(fs, files, todo) && key in todo && todo <= files.Keys
    requires if TrimSpace(key) == "" then gs == fs
             else gs == MadeDirs(fs, Parent(Resolve(TrimSpace(key))))[Resolve(TrimSpace(key)) := File(files[key])]
    ensures WaysFree(gs, files, todo - {key})
  {
    hide TrimSpace, Resolve, CanPlace, Apart, MadeDirs;
    forall k | k in todo - {key} && TrimSpace(k) != ""
      ensures CanPlace(gs, Resolve(TrimSpace(k)))
    {
      if TrimSpace(key) != "" {
        PlaceStays(fs, gs, Resolve(TrimSpace(key)), Resolve(TrimSpace(k)), files[key]);
      }
    }
  }

  predicate Written(fs: FS, files: map<string, string>, done: set<string>) {
    forall k :: k in done && k in files && TrimSpace(k) != "" ==> At(fs, Resolve(TrimSpace(k))) == Some(File(files[k]))
  }

  lemma {:induction false} NothingWritten(fs: FS, files: map<string, string>)
    ensures Confined(fs, fs, Targets(Trimmed(files))) && Written(fs, files, files.Keys - files.Keys)
  {
    hide TrimSpace, Resolve;
  }

  lemma {:induction false} ScopeHas(files: map<string, string>, key: string)
    requires key in files && TrimSpace(key) != ""
    ensures {Resolve(TrimSpace(key))} <= Targets(Trimmed(files))
  {
    hide TrimSpace, Resolve;
    assert TrimSpace(key) in Trimmed(files);
  }

  lemma {:induction false} OneMoreWritten(fs: FS, gs: FS, files: map<string, string>, done: set<string>, key: string)
    requires NoFileInAnother(files) && Written(fs, files, done) && key in files && key !in done && done <= files.Keys
    requires if TrimSpace(key) == "" then gs == fs
             else gs == MadeDirs(fs, Parent(Resolve(TrimSpace(key))))[Resolve(TrimSpace(key)) := File(files[key])]
    ensures Written(gs, files, done + {key})
  {
    hide TrimSpace, Resolve;
    forall k | k in done + {key} && TrimSpace(k) != ""
      ensures At(gs, Resolve(TrimSpace(k))) == Some(File(files[k]))
    {
      if k != key {
        assert At(fs, Resolve(TrimSpace(k))) == Some(File(files[k]));
      }
    }
  }

  lemma {:induction false} AllWritten(fs: FS, files: map<string, string>)
    requires Written(fs, files, files.Keys)
    ensures forall k :: k in files && TrimSpace(k) != "" ==> At(fs, Resolve(TrimSpace(k))) == Some(File(files[k]))
  {
    hide TrimSpace, Resolve;
  }

  // ---------- the binary ----------

  function TempPath(target: Path, random: string): Path {
    if target == [] then [] else Parent(target) + ["." + target[|target| - 1] + ".tmp-" + random]
  }

  lemma {:induction false} TempOnly(fs: FS, tmp: Path, node: Node)
    ensures Confined(fs, fs[tmp := node], {tmp})
  {
    assert tmp in {tmp};
  }

  /** Removing the temporary file leaves the tree as it was before it. */
  lemma {:induction false} TempGone(fs: FS, gs: FS, tmp: Path)
    requires Valid(fs) && tmp !in fs && tmp != [] && At(fs, Parent(tmp)) == Some(Dir) && Confined(fs, gs, {tmp})
    ensures Without(gs, tmp) == fs
  {
    var hs := Without(gs, tmp);
    forall q: Path
      ensures At(hs, q) == At(fs, q)
    {
      if tmp <= q {
        if q in fs && tmp != q {
          AboveIsDir(fs, tmp, q);
        }
      } else {
        assert !InScope(q, {tmp});
        assert Unchanged(fs, gs, {tmp}, q);
        if q < tmp && q != Parent(tmp) {
          assert q < Parent(tmp);
          AboveIsDir(fs, q, Parent(tmp));
        }
      }
    }
    SameLookups(hs, fs);
  }

  lemma {:induction false} WriteConfined(fs: FS, gs: FS, p: Path, node: Node)
    requires Confined(fs, gs, {p})
    ensures Confined(fs, gs[p := node], {p})
  {
    assert p in {p};
    forall q: Path | !InScope(q, {p})
      ensures Unchanged(fs, gs[p := node], {p}, q)
    {
      assert Unchanged(fs, gs, {p}, q);
    }
  }

  /** Nothing but a failing call stops this installation of a binary. */
  predicate BinaryFits(fs: FS, source: Path, target: Path, random: string) {
    source in fs && fs[source].File? && CanPlace(fs, target) && TempPath(target, random) !in fs
  }

  lemma {:induction false} BinaryReady(fs: FS, made: FS, source: Path, target: Path, random: string)
    requires Valid(fs) && made == MadeDirs(fs, Parent(target)) && BinaryFits(fs, source, target, random)
    ensures var tmp := TempPath(target, random);
      && CanMkdir(fs, Parent(target)) && target != [] && tmp !in made && tmp != [] && Parent(tmp) == Parent(target)
      && At(made, Parent(target)) == Some(Dir) && At(made, target) != Some(Dir) && At(made, source) == At(fs, source)
      && !(tmp <= target) && At(fs, source).Some? && At(fs, source).value.File?
  {
    hide CanMkdir, Valid;
    var tmp := TempPath(target, random);
    MadeDirsKeeps(fs, Parent(target));
    assert |tmp[|tmp| - 1]| > |target[|target| - 1]|;
    assert At(made, tmp) == At(fs, tmp);
    assert At(made, target) == At(fs, target);
  }

  /** `installBinary`: the target is replaced by renaming a temporary file; `stray` says one was left behind. */
  method InstallBinary(disk: Disk, source: Path, target: Path, random: string) returns (ok: bool, stray: bool)
    requires Valid(disk.fs)
    modifies disk`fs, disk`ticks
    ensures Valid(disk.fs)
    ensures ok ==> !stray && At(old(disk.fs), source).Some? && At(old(disk.fs), source).value.File?
    ensures ok ==> disk.fs == MadeDirs(old(disk.fs), Parent(target))[target := At(old(disk.fs), source).value]
    ensures !stray ==> Confined(old(disk.fs), disk.fs, {target})
    ensures stray ==> Confined(old(disk.fs), disk.fs, {target} + {TempPath(target, random)})
    ensures stray ==> target != [] && TempPath(target, random) !in old(disk.fs)
    ensures disk.Healthy() ==> !stray
    ensures disk.Healthy() && old(BinaryFits(disk.fs, source, target, random)) ==> ok
  {
    hide CanMkdir, Confined, Valid, OnlyOnWay, MadeDirs, Without;
    ghost var start := disk.fs;
    stray := false;
    ParentAbove(target);
    ok := disk.MkdirAll(Parent(target));
    ghost var made := disk.fs;
    OnWayIsConfined(start, made, Parent(target), target);
    if !ok {
      return;
    }
    ghost var fits := BinaryFits(start, source, target, random);
    PrefixesStand(made, source);
    if fits {
      BinaryReady(start, made, source, target, random);
    }
    var opened_ := disk.Look(source);
    if opened_.Err? || opened_.value.None? || target == [] {
      return false, false;
    }
    var tmp := TempPath(target, random);
    ok := disk.Create(tmp);
    if !ok {
      return;
    }
    TempOnly(made, tmp, File(""));
    ok := disk.Attempt();
    var node := if source in disk.fs then disk.fs[source] else Dir;
    if ok {
      ghost var before := disk.fs;
      ok := disk.WriteFile(tmp, if node.File? then node.content else "");
      ConfinedThen(made, before, disk.fs, {tmp});
      ok := ok && node.File?;
    }
    if ok {
      ok := disk.Attempt();
    }
    TempGone(made, disk.fs, tmp);
    if ok {
      ok := disk.Rename(tmp, target);
    }
    if ok {
      WriteConfined(start, made, target, node);
    } else {
      ghost var before := disk.fs;
      var removed := disk.Remove(tmp);
      stray := !removed;
      ConfinedJoin(start, made, before, {target}, tmp);
    }
  }

  // ---------- assets ----------

  /** What stood at `src` stands at `dst`. */
  ghost predicate Moved(fs: FS, src: Path, gs: FS, dst: Path) {
    forall s: Path :: At(gs, dst + s) == At(fs, src + s)
  }

  /** Nothing but a failing call stops this installation of an asset. */
  predicate AssetFits(fs: FS, source: Path, target: Path) {
    && source in fs && Apart(source, target) && CanMkdir(fs, Parent(target))
    && (fs[source].File? ==> At(fs, target) != Some(Dir))
  }

  lemma {:induction false} AssetReady(fs: FS, source: Path, target: Path)
    requires Valid(fs) && AssetFits(fs, source, target)
    ensures source in fs
    ensures At(fs, source).Some? && (At(fs, source).value.Dir? ==> TreeFits(Without(fs, target), source, target))
    ensures At(fs, source).Some? && (At(fs, source).value.File? ==> CopyFits(fs, source, target))
  {
    var bare := Without(fs, target);
    assert At(bare, source) == At(fs, source);
    assert forall s: Path :: target <= target + s;
    forall k | 0 <= k <= |target|
      ensures target[..k] !in bare || bare[target[..k]].Dir?
    {
      var d := target[..k];
      assert At(bare, d) == if target <= d then None else At(fs, d);
      if k < |target| {
        assert d == Parent(target)[..k];
      } else {
        assert d == target;
      }
    }
  }

  /** `installArtifactPath`: a directory replaces what is there, a file is written over a file. */
  method InstallArtifactPath(disk: Disk, source: Path, target: Path) returns (ok: bool)
    requires Valid(disk.fs)
    modifies disk`fs, disk`ticks
    ensures Valid(disk.fs) && Confined(old(disk.fs), disk.fs, {target})
    ensures ok ==> At(old(disk.fs), source).Some?
    ensures ok && Apart(source, target) ==> Moved(old(disk.fs), source, disk.fs, target)
    ensures disk.Healthy() && old(AssetFits(disk.fs, source, target)) ==> ok
  {
    hide *;
    ghost var start := disk.fs;
    StaysConfined(start, target);
    PrefixesStand(start, source);
    if AssetFits(start, source, target) {
      AssetReady(start, source, target);
    }
    var found := disk.Look(source);
    if found.Err? || found.value.None? {
      return false;
    }
    ghost var apart := Apart(source, target);
    if found.value.value.Dir? {
      ok := disk.RemoveAll(target);
      ghost var bare := disk.fs;
      if !ok {
        return;
      }
      ok := CopyDir(disk, source, target);
      ConfinedThen(start, bare, disk.fs, {target});
      if ok && apart {
        DirMoved(start, disk.fs, source, target);
      }
    } else {
      ok := CopyFile(disk, source, target);
      if ok && apart {
        FileMoved(start, disk.fs, source, target);
      }
    }
  }

  lemma {:induction false} DirMoved(fs: FS, gs: FS, src: Path, dst: Path)
    requires Apart(src, dst) && Copied(Without(fs, dst), gs, src, dst)
    ensures Moved(fs, src, gs, dst)
  {
    hide Laid;
    forall s: Path
      ensures At(gs, dst + s) == At(fs, src + s)
    {
      assert dst <= dst + s;
      PrefixChain(dst, src, src + s);
      PrefixChain(src, dst, src + s);
      assert At(Without(fs, dst), src + s) == At(fs, src + s);
      CopyReproduces(Without(fs, dst), gs, src, dst, s);
    }
  }

  lemma {:induction false} FileMoved(fs: FS, gs: FS, src: Path, dst: Path)
    requires Valid(fs) && Valid(gs) && At(fs, src).Some? && At(fs, src).value.File? && dst != []
    requires gs == MadeDirs(fs, Parent(dst))[dst := fs[src]]
    ensures Moved(fs, src, gs, dst)
  {
    forall s: Path
      ensures At(gs, dst + s) == At(fs, src + s)
    {
      assert src + [] == src && dst + [] == dst;
      if s != [] {
        if src + s in fs {
          FileAlone(fs, src, src + s);
        }
        if dst + s in gs {
          FileAlone(gs, dst, dst + s);
        }
      }
    }
  }
}
