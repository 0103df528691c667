/**
  Why the rollback needs its conditions: two runs of the rollback on a disk that never fails. The first
  restores the tree exactly when the two captured paths are apart, the second exactly when the written
  path lies inside the captured one.
 */
module RollbackLimits {
  import opened GoStrings
  import opened Outcomes
  import opened FileTree
  import opened CopyTree
  import opened Rollback
  import opened Installers
  import opened InstallPlan

  predicate Trim(key: string) {
    key != "" && TrimSpace(key) == key
  }

  /** A tree whose only file is `x`. */
  function OneFile(x: Path, content: string): FS
    requires x != []
  {
    MadeDirs(map[], Parent(x))[x := File(content)]
  }

  lemma {:induction false} OneFileFacts(x: Path, content: string, p: Path)
    requires x != []
    ensures Valid(OneFile(x, content)) && At(OneFile(x, content), x) == Some(File(content))
    ensures At(OneFile(x, content), Parent(x)) == Some(Dir)
    ensures !(x <= p) ==> CanMkdir(OneFile(x, content), p)
  {
    var fs := OneFile(x, content);
    forall q | q in fs && q != []
      ensures At(fs, Parent(q)) == Some(Dir)
    {
      assert q == x || At(MadeDirs(map[], Parent(x)), q) == Some(Dir);
      assert At(fs, Parent(q)) == if Parent(q) == x then Some(File(content)) else At(MadeDirs(map[], Parent(x)), Parent(q));
    }
    if !(x <= p) {
      forall k | 0 <= k <= |p|
        ensures p[..k] !in fs || fs[p[..k]].Dir?
      {
        assert At(fs, p[..k]) == if p[..k] == x then Some(File(content)) else At(MadeDirs(map[], Parent(x)), p[..k]);
        assert p[..k] <= p;
      }
    }
  }

  /** A first capture in a tree of one file, `x` at or below the captured path. */
  lemma {:induction false} FirstCaptureFits(x: Path, root: Path, key: string)
    requires x != [] && Apart(x, root) && Apart(Resolve(key), root) && Resolve(key) <= x
    ensures CaptureFits(OneFile(x, "old"), root, 0, key)
  {
    hide Resolve, Decimal, CanMkdir;
    var fs := OneFile(x, "old");
    OneFileFacts(x, "old", root);
    OneFileFacts(x, "old", Parent(Resolve(key)));
    forall i: nat, s: Path
      ensures At(fs, SlotPath(root, i) + s) == None
    {
      var q := SlotPath(root, i) + s;
      PrefixChain(root, q, x);
      assert At(fs, q) == if q == x then Some(File("old")) else At(MadeDirs(map[], Parent(x)), q);
    }
  }

  /** After a capture and a write at `x`, another capture fits unless the file `x` stands in its way. */
  lemma {:induction false} SecondCaptureFits(fs: FS, gs: FS, x: Path, root: Path, key: string)
    requires Valid(gs) && x != [] && Apart(x, root) && Apart(Resolve(key), root) && !(x < Resolve(key))
    requires RoomLeft(fs, root, 1) && At(fs, root) == Some(Dir)
    requires gs == MadeDirs(fs, Parent(x))[x := File("new")] && Confined(fs, gs, {x})
    requires forall q :: q in fs && fs[q].File? ==> q == x || root <= q
    ensures CaptureFits(gs, root, 1, key)
  {
    hide Resolve, Decimal;
    var p := Resolve(key);
    forall i: nat, s: Path | i >= 1
      ensures At(gs, SlotPath(root, i) + s) == None
    {
      assert At(fs, SlotPath(root, i) + s) == None;
      SlotUntouched(fs, gs, {x}, root, i, s);
    }
    StandsBeside(fs, gs, x, root);
    forall k | 0 <= k <= |root|
      ensures root[..k] !in gs || gs[root[..k]].Dir?
    {
      if k < |root| {
        AboveIsDir(gs, root[..k], root);
      } else {
        assert root[..k] == root;
      }
    }
    var d := Parent(p);
    forall k | 0 <= k <= |d|
      ensures d[..k] !in gs || gs[d[..k]].Dir?
    {
      var q := d[..k];
      assert q <= p && (p != [] ==> q < p);
      PrefixChain(root, q, p);
      assert At(gs, q) == if q == x then Some(File("new")) else At(MadeDirs(fs, Parent(x)), q);
    }
  }

  lemma {:induction false} FilesAfterCapture(x: Path, fs: FS, root: Path)
    requires x != [] && Confined(OneFile(x, "old"), fs, {root})
    ensures forall q :: q in fs && fs[q].File? ==> q == x || root <= q
    ensures forall q :: q < x && !(root <= q) ==> At(fs, q) == Some(Dir)
  {
    var start := OneFile(x, "old");
    forall q: Path | !(root <= q)
      ensures At(fs, q) == At(start, q) || At(fs, q) == Some(Dir)
      ensures q < x ==> At(fs, q) == Some(Dir)
    {
      assert !InScope(q, {root});
      assert Unchanged(start, fs, {root}, q);
      assert At(start, q) == if q == x then Some(File("old")) else At(MadeDirs(map[], Parent(x)), q);
    }
    forall q | q in fs && fs[q].File? && !(root <= q)
      ensures q == x
    {
      assert At(fs, q) == At(start, q);
      assert At(start, q) == if q == x then Some(File("old")) else At(MadeDirs(map[], Parent(x)), q);
    }
  }

  lemma {:induction false} BackupAway(was: FS, fs: FS, gs: FS, p: Path, b: Backup, scope: set<Path>)
    requires Keeps(was, fs, p, b) && Confined(fs, gs, scope)
    requires b.existed ==> forall r :: r in scope ==> Apart(r, b.place)
    ensures Keeps(was, gs, p, b)
  {
    if b.existed {
      forall s: Path
        ensures At(gs, b.place + s) == At(was, p + s)
      {
        ApartUntouched(fs, gs, scope, b.place, s);
      }
    }
  }

  /** The path both captures are about when they are nested; the path of `l` otherwise. */
  function Inner(k: string, l: string): Path {
    if Resolve(l) <= Resolve(k) then Resolve(k) else Resolve(l)
  }

  lemma {:induction false} InnerFacts(k: string, l: string, root: Path)
    requires Apart(Resolve(k), root) && Apart(Resolve(l), root)
    ensures var x := Inner(k, l);
      && x != [] && Apart(x, root) && Apart(root, x) && Resolve(l) <= x && !(x < Resolve(k))
      && (!Apart(Resolve(k), Resolve(l)) ==> Resolve(k) <= x)
      && (Apart(Resolve(k), Resolve(l)) ==> x == Resolve(l))
      && Parent(Resolve(l)) < x && !(root <= Parent(Resolve(l))) && Resolve(l) != [] && Resolve(k) != []
  {
    hide Resolve;
    PrefixChain(root, Parent(Resolve(l)), Resolve(l));
  }

  /** `l` is captured, `x` written, `k` captured. No call fails. */
  method CapturePair(k: string, l: string, root: Path)
    returns (disk: Disk, rollback: InstallRollback, before: FS, ghost written: FS)
    requires Trim(k) && Trim(l) && k != l && Apart(Resolve(k), root) && Apart(Resolve(l), root)
    ensures fresh(disk) && fresh(rollback) && disk.Healthy() && rollback.root == root && {k, l} <= rollback.backups.Keys
    ensures before == OneFile(Inner(k, l), "old")
    ensures Captured(before, written, disk.fs, root, Inner(k, l), Resolve(k), Resolve(l), rollback.backups[k], rollback.backups[l])
  {
    hide Resolve, Trim, TrimSpace, Decimal, Confined, Valid, CaptureFits, RoomLeft, Keeps, OtherSlots, OneFile, CanMkdir, MadeDirs,
      InScope, Unchanged, SlotPath, Inner, Captured;
    var p, q, x := Resolve(k), Resolve(l), Inner(k, l);
    InnerFacts(k, l, root);
    TrimmedKeys(k, l);
    before := OneFile(x, "old");
    OneFileFacts(x, "old", root);
    disk := new Disk(before, n => Clean);
    rollback := new InstallRollback(root);
    FirstCaptureFits(x, root, l);
    FitsMeans(before, root, 0, l);
    var clean := rollback.Capture(disk, l);
    ghost var fs1 := disk.fs;
    ghost var bl := rollback.backups[l];
    FirstCaptured(x, fs1, root, l, bl);
    clean := WritePlain(disk, x, "new");
    written := disk.fs;
    Written(x, fs1, written, root, k, q, bl);
    FitsMeans(written, root, 1, k);
    clean := rollback.Capture(disk, k);
    SecondCaptured(x, written, disk.fs, root, p, q, bl, rollback.backups[k]);
  }

  /** Both backups are good, and the disk holds what was written at `x`. */
  ghost predicate Captured(before: FS, written: FS, fs: FS, root: Path, x: Path, p: Path, q: Path, bk: Backup, bl: Backup) {
    && Valid(fs) && Valid(written) && Confined(written, fs, {root}) && At(written, x) == Some(File("new"))
    && Keeps(before, fs, q, bl) && Reachable(fs, q, bl) && Clear(q, bl)
    && Keeps(written, fs, p, bk) && (bl.existed ==> bl.place == SlotPath(root, 0)) && (bk.existed ==> bk.place == SlotPath(root, 1))
  }

  /** The two restored in either order: what was written stays only where the paths meet and the later capture comes last. */
  method RestorePair(k: string, l: string, root: Path, laterLast: bool) returns (clean: bool, before: FS, after: FS)
    requires Trim(k) && Trim(l) && k != l && Apart(Resolve(k), root) && Apart(Resolve(l), root)
    ensures clean && At(before, Inner(k, l)) == Some(File("old"))
    ensures At(after, Inner(k, l)) == At(before, Inner(k, l)) <==> !laterLast || Apart(Resolve(k), Resolve(l))
  {
    hide *;
    var disk, rollback;
    ghost var written;
    disk, rollback, before, written := CapturePair(k, l, root);
    var p, q := Resolve(k), Resolve(l);
    ghost var x, held := Inner(k, l), disk.fs;
    var bk, bl := rollback.backups[k], rollback.backups[l];
    InnerFacts(k, l, root);
    OneFileFacts(x, "old", root);
    Pieces(before, written, held, root, x, p, q, bk, bl);
    if laterLast {
      clean := rollback.RestoreEntry(disk, q, bl, before);
      ghost var fs := disk.fs;
      FirstRestored(x, written, held, fs, root, p, q, bk);
      clean := rollback.RestoreEntry(disk, p, bk, written);
      after := disk.fs;
      LastRestored(x, written, fs, after, p, q);
    } else {
      clean := rollback.RestoreEntry(disk, p, bk, written);
      ghost var fs := disk.fs;
      LaterRestored(x, written, held, fs, root, p, q, bl);
      clean := rollback.RestoreEntry(disk, q, bl, before);
      after := disk.fs;
      EarlierLast(before, after, x, q);
    }
  }

  lemma {:induction false} Pieces(before: FS, written: FS, fs: FS, root: Path, x: Path, p: Path, q: Path, bk: Backup, bl: Backup)
    requires Captured(before, written, fs, root, x, p, q, bk, bl) && p != [] && Apart(p, root)
    ensures Valid(fs) && Valid(written) && Confined(written, fs, {root}) && At(written, x) == Some(File("new"))
    ensures Keeps(before, fs, q, bl) && Reachable(fs, q, bl) && Clear(q, bl) && (bl.existed ==> bl.place == SlotPath(root, 0))
    ensures Keeps(written, fs, p, bk) && Reachable(fs, p, bk) && Clear(p, bk) && (bk.existed ==> bk.place == SlotPath(root, 1))
  {
    hide Confined, SlotPath, Keeps;
    EntryReachable(written, fs, p, bk);
    SlotApart(root, 1, p);
    if bk.existed {
      PrefixChain(root, Parent(p), p);
      StandsBeside(written, fs, root, Parent(p));
    }
  }

  /** `l` can still be restored after `k` has been. */
  lemma {:induction false} LaterRestored(x: Path, written: FS, held: FS, fs: FS, root: Path, p: Path, q: Path, b: Backup)
    requires Valid(written) && x != [] && Apart(p, root) && Apart(q, root) && Parent(q) < x && q != []
    requires Keeps(OneFile(x, "old"), held, q, b) && (b.existed ==> b.place == SlotPath(root, 0)) && Clear(q, b)
    requires Reachable(held, q, b) && At(written, x) == Some(File("new"))
    requires SameTree(written, fs, p) && Confined(held, fs, {p})
    ensures Keeps(OneFile(x, "old"), fs, q, b) && Reachable(fs, q, b)
  {
    hide Decimal, Confined, OneFile;
    SlotApart(root, 0, p);
    BackupAway(OneFile(x, "old"), held, fs, q, b, {p});
    if b.existed {
      var d := Parent(q);
      AboveIsDir(written, d, x);
      if p <= d {
        assert At(fs, p + Below(p, d)) == At(written, p + Below(p, d));
      } else {
        StandsBeside(held, fs, p, d);
      }
    }
  }

  lemma {:induction false} EarlierLast(before: FS, after: FS, x: Path, q: Path)
    requires SameTree(before, after, q) && q <= x
    ensures At(after, x) == At(before, x)
  {
    assert At(after, q + Below(q, x)) == At(before, q + Below(q, x));
  }

  lemma {:induction false} FirstCaptured(x: Path, fs: FS, root: Path, l: string, b: Backup)
    requires x != [] && Apart(x, root) && Resolve(l) <= x && Valid(fs) && Confined(OneFile(x, "old"), fs, {root})
    requires Keeps(OneFile(x, "old"), fs, Resolve(l), b) && (b.existed ==> b.place == SlotPath(root, 0))
    ensures b.existed && CanPlace(fs, x) && At(fs, Parent(x)) == Some(Dir)
  {
    hide Resolve, Decimal;
    OneFileFacts(x, "old", root);
    FilesAfterCapture(x, fs, root);
    StandsBeside(OneFile(x, "old"), fs, root, x);
    PrefixChain(root, Parent(x), x);
    MakeUnderDir(fs, x);
    assert At(OneFile(x, "old"), Resolve(l) + Below(Resolve(l), x)) != None;
    assert Resolve(l) + [] == Resolve(l);
  }

  lemma {:induction false} Written(x: Path, fs: FS, gs: FS, root: Path, k: string, q: Path, b: Backup)
    requires x != [] && Apart(x, root) && Apart(Resolve(k), root) && !(x < Resolve(k)) && Valid(gs) && Confined(fs, gs, {x})
    requires Confined(OneFile(x, "old"), fs, {root}) && RoomLeft(fs, root, 1) && At(fs, root) == Some(Dir)
    requires gs == MadeDirs(fs, Parent(x))[x := File("new")]
    requires Keeps(OneFile(x, "old"), fs, q, b) && b.place == SlotPath(root, 0)
    ensures Keeps(OneFile(x, "old"), gs, q, b) && CaptureFits(gs, root, 1, k) && At(gs, x) == Some(File("new"))
  {
    hide Resolve, Decimal, Keeps, CaptureFits, RoomLeft;
    FilesAfterCapture(x, fs, root);
    SecondCaptureFits(fs, gs, x, root, k);
    SlotApart(root, 0, x);
    BackupAway(OneFile(x, "old"), fs, gs, q, b, {x});
  }

  lemma {:induction false} SecondCaptured(x: Path, fs: FS, gs: FS, root: Path, p: Path, q: Path, bl: Backup, bk: Backup)
    requires Valid(fs) && Valid(gs) && x != [] && Apart(x, root) && Confined(fs, gs, {root}) && At(fs, x) == Some(File("new"))
    requires Keeps(fs, gs, p, bk) && (bk.existed ==> bk.place == SlotPath(root, 1))
    requires Keeps(OneFile(x, "old"), fs, q, bl) && bl.place == SlotPath(root, 0) && OtherSlots(fs, gs, root, 1)
    requires bl.existed && q != [] && Parent(q) < x && !(root <= Parent(q)) && Apart(q, root)
    ensures Captured(OneFile(x, "old"), fs, gs, root, x, p, q, bk, bl)
  {
    hide Decimal, Confined;
    SlotApart(root, 0, q);
    forall s: Path
      ensures At(gs, bl.place + s) == At(OneFile(x, "old"), q + s)
    {
      assert At(gs, SlotPath(root, 0) + s) == At(fs, SlotPath(root, 0) + s);
    }
    StandsBeside(fs, gs, root, x);
    AboveIsDir(fs, Parent(q), x);
    StandsBeside(fs, gs, root, Parent(q));
  }

  /** `k` can still be restored after `l` has been. */
  lemma {:induction false} FirstRestored(x: Path, fs2: FS, fs3: FS, fs4: FS, root: Path, p: Path, q: Path, b: Backup)
    requires Valid(fs2) && x != [] && Apart(p, root) && Apart(q, root) && q <= x && (!Apart(p, q) ==> p <= x)
    requires Keeps(fs2, fs3, p, b) && (b.existed ==> b.place == SlotPath(root, 1)) && Confined(fs2, fs3, {root})
    requires SameTree(OneFile(x, "old"), fs4, q) && Confined(fs3, fs4, {q})
    ensures Keeps(fs2, fs4, p, b) && Reachable(fs4, p, b) && Clear(p, b) && At(fs4, x) == Some(File("old"))
  {
    hide Decimal, Confined;
    SlotApart(root, 1, p);
    SlotApart(root, 1, q);
    BackupAway(fs2, fs3, fs4, p, b, {q});
    OneFileFacts(x, "old", root);
    assert At(fs4, q + Below(q, x)) == At(OneFile(x, "old"), q + Below(q, x));
    assert p != [];
    EntryReachable(fs2, fs3, p, b);
    if b.existed {
      var d := Parent(p);
      PrefixChain(root, d, p);
      StandsBeside(fs2, fs3, root, d);
      if q <= d {
        PrefixChain(q, d, p);
        AboveIsDir(OneFile(x, "old"), d, x);
        assert At(fs4, q + Below(q, d)) == At(OneFile(x, "old"), q + Below(q, d));
      } else {
        StandsBeside(fs3, fs4, q, d);
      }
    }
  }

  lemma {:induction false} LastRestored(x: Path, fs2: FS, fs4: FS, after: FS, p: Path, q: Path)
    requires SameTree(fs2, after, p) && Confined(fs4, after, {p}) && q <= x && (!Apart(p, q) ==> p <= x)
    requires At(fs2, x) == Some(File("new")) && At(fs4, x) == Some(File("old")) && (Apart(p, q) ==> x == q)
    ensures At(after, x) == if Apart(p, q) then Some(File("old")) else Some(File("new"))
  {
    hide Confined;
    if Apart(p, q) {
      StandsBeside(fs4, after, p, x);
    } else {
      assert At(after, p + Below(p, x)) == At(fs2, p + Below(p, x));
    }
  }

  lemma {:induction false} TrimmedKeys(k: string, l: string)
    ensures Trim(k) ==> TrimSpace(k) == k && k != ""
    ensures Trim(l) ==> TrimSpace(l) == l && l != ""
  {
  }

  // ---------- untrimmed paths ----------

  lemma {:induction false} EmptyTreeFits(root: Path, key: string)
    requires Apart(Resolve(key), root)
    ensures CaptureFits(map[], root, 0, key) && Valid(map[])
  {
  }

  lemma {:induction false} EmptyTreeCaptured(fs: FS, root: Path, p: Path, q: Path, b: Backup)
    requires Valid(fs) && Confined(map[], fs, {root}) && Apart(q, root) && q != [] && Keeps(map[], fs, p, b)
    ensures CanPlace(fs, q) && !b.existed
  {
    assert p + [] == p;
    assert At(map[], p + []) == None;
    forall r: Path | r <= q
      ensures At(fs, r) == None || At(fs, r) == Some(Dir)
      ensures r == q ==> At(fs, r) == None
    {
      PrefixChain(root, r, q);
      assert !InScope(r, {root});
      assert Unchanged(map[], fs, {root}, r);
    }
    var d := Parent(q);
    forall k | 0 <= k <= |d|
      ensures d[..k] !in fs || fs[d[..k]].Dir?
    {
      assert d[..k] <= q;
      assert At(fs, d[..k]) == None || At(fs, d[..k]) == Some(Dir);
    }
  }

  lemma {:induction false} OffTargetStays(fs: FS, gs: FS, p: Path, q: Path)
    requires Confined(fs, gs, {p}) && SameTree(map[], gs, p) && At(fs, q) == Some(File("new"))
    ensures At(gs, q) == if p <= q then None else Some(File("new"))
  {
    if p <= q {
      assert At(gs, p + Below(p, q)) == None;
    } else {
      StandsBeside(fs, gs, p, q);
    }
  }

  lemma {:induction false} KeepsNothing(fs: FS, gs: FS, p: Path, b: Backup)
    requires Keeps(map[], fs, p, b) && !b.existed
    ensures Keeps(map[], gs, p, b) && Reachable(gs, p, b) && Clear(p, b)
  {
  }

  /** The trimmed path is captured, the path as it stands is written, the restore runs. No call fails. */
  method RestoreUntrimmed(raw: string, root: Path) returns (clean: bool, after: FS)
    requires TrimSpace(raw) != "" && Resolve(raw) != [] && Apart(Resolve(TrimSpace(raw)), root) && Apart(Resolve(raw), root)
    ensures clean && (At(after, Resolve(raw)) == None <==> Covered(raw))
  {
    hide Resolve, TrimSpace, Decimal, Confined, Valid, CaptureFits, RoomLeft, Keeps, OtherSlots, CanMkdir, MadeDirs, CanPlace, SlotPath, Apart;
    var key := TrimSpace(raw);
    var p, q := Resolve(key), Resolve(raw);
    TrimSpaceIdempotent(raw);
    EmptyTreeFits(root, key);
    FitsMeans(map[], root, 0, key);
    var disk := new Disk(map[], n => Clean);
    var rollback := new InstallRollback(root);
    clean := rollback.Capture(disk, key);
    ghost var fs1 := disk.fs;
    EmptyTreeCaptured(fs1, root, p, q, rollback.backups[key]);
    clean := WritePlain(disk, q, "new");
    ghost var fs2 := disk.fs;
    KeepsNothing(fs1, fs2, p, rollback.backups[key]);
    clean := rollback.RestoreEntry(disk, p, rollback.backups[key], map[]);
    after := disk.fs;
    OffTargetStays(fs2, after, p, q);
  }

  lemma {:induction false} OneWord(c: char, rest: string)
    requires c != '/' && c != '.' && (rest == "" || rest == " ")
    ensures Resolve("/" + [c] + rest) == [[c] + rest]
  {
    hide Parent;
    var s := "/" + [c] + rest;
    var w := [c] + rest;
    assert s[1..] == w && w[1..] == rest && "" + [c] == [c];
    assert Components(s, "") == [""] + Components(w, "");
    assert Components(w, "") == Components(rest, [c]);
    if rest == " " {
      assert rest[1..] == "" && [c] + [' '] == w;
      assert Components(rest, [c]) == Components("", w);
    } else {
      assert w == [c];
    }
    assert Components(rest, [c]) == [w];
    var parts := [""] + [w];
    assert parts[..1] == [""] && [""][..0] == [];
    assert Walk([""]) == [];
    assert w != "" && w != "." && w != ".." by {
      assert w[0] == c;
    }
  }

  /** A path with a space behind it is written beside what was captured. */
  lemma {:induction false} TrailingSpaceIsUncovered()
    ensures !Covered("/a ")
  {
    hide Resolve, TrimSpace;
    TrailingSpaceTrimmed();
    OneWord('a', "");
    OneWord('a', " ");
    assert "/" + ['a'] + "" == "/a" && "/" + ['a'] + " " == "/a ";
    assert |['a'] + " "| == 2 && |['a'] + ""| == 1;
    assert Resolve("/a ")[0] != Resolve("/a")[0];
  }

  lemma {:induction false} TrailingSpaceTrimmed()
    ensures TrimSpace("/a ") == "/a"
  {
    assert |"/a "| == 3;
    TrimByHand("/a ", IsSpace, 0, 2);
    assert "/a "[0..2] == "/a";
  }
}
