/** `copyFile` and `copyDir`: both lay the subtree at the source over the destination. */
module CopyTree {
  import opened Outcomes
  import opened FileTree

  /** What stands at `q` once the nodes of `done` (at or below `src`) have been laid over `dst`. */
  function LaidAt(fs: FS, src: Path, dst: Path, done: set<Path>, q: Path): Option<Node> {
    if dst <= q && src + Below(dst, q) in done then At(fs, src + Below(dst, q))
    else if q !in fs && q < dst then Some(Dir)
    else At(fs, q)
  }

  function Nodes(fs: FS, src: Path): set<Path> {
    set q | q in fs && src <= q
  }

  ghost predicate Laid(fs: FS, gs: FS, src: Path, dst: Path, done: set<Path>) {
    forall q :: At(gs, q) == LaidAt(fs, src, dst, done, q)
  }

  ghost predicate Copied(fs: FS, gs: FS, src: Path, dst: Path) {
    Laid(fs, gs, src, dst, Nodes(fs, src))
  }

  /** Copying to a free place reproduces the subtree there. */
  lemma {:induction false} CopyReproduces(fs: FS, gs: FS, src: Path, dst: Path, s: Path)
    requires Copied(fs, gs, src, dst) && (src + s !in fs ==> dst + s !in fs)
    ensures At(gs, dst + s) == At(fs, src + s)
  {
    assert Below(dst, dst + s) == s;
    assert At(gs, dst + s) == LaidAt(fs, src, dst, Nodes(fs, src), dst + s);
  }

  lemma {:induction false} FileAlone(fs: FS, src: Path, q: Path)
    requires Valid(fs) && src in fs && fs[src].File? && src <= q && q in fs
    ensures q == src
  {
    if src != q {
      AboveIsDir(fs, src, q);
    }
  }

  lemma {:induction false} FileCopied(fs: FS, src: Path, dst: Path)
    requires Valid(fs) && src in fs && fs[src].File? && dst != []
    ensures Copied(fs, MadeDirs(fs, Parent(dst))[dst := fs[src]], src, dst)
  {
    var gs := MadeDirs(fs, Parent(dst))[dst := fs[src]];
    assert Below(dst, dst) == [] && src + [] == src;
    forall q: Path
      ensures At(gs, q) == LaidAt(fs, src, dst, Nodes(fs, src), q)
    {
      if dst <= q && src + Below(dst, q) in fs {
        FileAlone(fs, src, src + Below(dst, q));
        assert q == dst;
      } else {
        assert q <= Parent(dst) <==> q < dst;
      }
    }
  }

  /** Nothing but a failing call stops this copy of a file. */
  predicate CopyFits(fs: FS, src: Path, dst: Path) {
    && Apart(src, dst) && src in fs && fs[src].File?
    && CanMkdir(fs, Parent(dst)) && At(fs, dst) != Some(Dir)
  }

  method CopyFile(disk: Disk, src: Path, dst: Path) returns (ok: bool)
    requires Valid(disk.fs)
    modifies disk`fs, disk`ticks
    ensures Valid(disk.fs) && Confined(old(disk.fs), disk.fs, {dst})
    ensures ok ==> dst != [] && At(old(disk.fs), src).Some? && At(old(disk.fs), src).value.File?
    ensures ok ==> Apart(src, dst) ==> disk.fs == MadeDirs(old(disk.fs), Parent(dst))[dst := old(disk.fs)[src]]
    ensures disk.Healthy() && old(CopyFits(disk.fs, src, dst)) ==> ok
  {
    hide CanMkdir, InScope, AboveScope;
    ghost var start := disk.fs;
    StaysConfined(start, dst);
    PrefixesStand(start, src);
    var source := disk.Look(src);
    if source.Err? || source.value.None? {
      return false;
    }
    if dst == [] {
      return false;
    }
    ok := disk.MkdirAll(Parent(dst));
    OnWayIsConfined(start, disk.fs, Parent(dst), dst);
    if !ok {
      return;
    }
    ghost var made := disk.fs;
    MadeDirsKeeps(start, Parent(dst));
    assert At(made, dst) == At(start, dst);
    var content := if src in disk.fs && disk.fs[src].File? then disk.fs[src].content else "";
    ok := disk.WriteFile(dst, content);
    ConfinedThen(start, made, disk.fs, {dst});
    ok := ok && source.value.value.File?;
    assert ok ==> At(made, src) == At(start, src);
  }

  lemma {:induction false} PrefixesStand(fs: FS, p: Path)
    requires Valid(fs)
    ensures p in fs ==> forall k :: 0 <= k < |p| ==> p[..k] !in fs || fs[p[..k]].Dir?
  {
    if p in fs {
      forall k | 0 <= k < |p|
        ensures At(fs, p[..k]) == Some(Dir)
      {
        AboveIsDir(fs, p[..k], p);
      }
    }
  }

  /** One more node: its place below `dst` is free or of the same kind, and its parent is there. */
  lemma {:induction false} LayOne(start: FS, fs: FS, gs: FS, src: Path, dst: Path, done: set<Path>, q: Path)
    requires src < q && q in start && q !in done
    requires Laid(start, fs, src, dst, done)
    requires forall r :: At(gs, r) == if r == dst + Below(src, q) then Some(start[q]) else At(fs, r)
    ensures Laid(start, gs, src, dst, done + {q})
  {
    forall r: Path
      ensures At(gs, r) == LaidAt(start, src, dst, done + {q}, r)
    {
      var target := dst + Below(src, q);
      assert Below(dst, target) == Below(src, q) && src + Below(src, q) == q;
      if dst <= r {
        var node := src + Below(dst, r);
        assert node[|src|..] == Below(dst, r);
      }
    }
  }

  /** While the copy is under way the source is untouched and the parent of the next node is laid. */
  lemma {:induction false} NextHasParent(start: FS, fs: FS, src: Path, dst: Path, done: set<Path>, q: Path)
    requires Valid(start) && Valid(fs) && Apart(src, dst) && src < q && q in start && src in done
    requires Parent(q) in done
    requires Laid(start, fs, src, dst, done)
    ensures At(fs, q) == At(start, q)
    ensures At(fs, Parent(dst + Below(src, q))) == Some(Dir)
  {
    PrefixChain(src, q, q);
    assert !(dst <= q) && !(q < dst) by {
      PrefixChain(src, dst, q);
      PrefixChain(src, q, dst);
    }
    assert At(fs, q) == LaidAt(start, src, dst, done, q);
    var target := dst + Below(src, q);
    assert src <= Parent(q);
    assert Parent(target) == dst + Below(src, Parent(q));
    assert Below(dst, Parent(target)) == Below(src, Parent(q));
    assert At(fs, Parent(target)) == LaidAt(start, src, dst, done, Parent(target));
    assert At(start, q).Some?;
  }

  lemma {:induction false} MakeUnderDir(fs: FS, p: Path)
    requires Valid(fs) && p != [] && At(fs, Parent(p)) == Some(Dir)
    ensures MadeDirs(fs, Parent(p)) == fs && CanMkdir(fs, Parent(p))
    ensures forall q :: At(MadeDirs(fs, p), q) == if q == p && p !in fs then Some(Dir) else At(fs, q)
    ensures CanMkdir(fs, p) <==> p !in fs || fs[p].Dir?
  {
    forall q: Path | q < p
      ensures At(fs, q) == Some(Dir)
    {
      if q != Parent(p) {
        assert q < Parent(p);
        AboveIsDir(fs, q, Parent(p));
      }
    }
    var gs := MadeDirs(fs, Parent(p));
    forall q: Path
      ensures At(gs, q) == At(fs, q)
    {
      assert q <= Parent(p) <==> q < p;
    }
    assert forall q :: q in gs <==> At(gs, q).Some?;
    assert forall q :: q in fs <==> At(fs, q).Some?;
    assert gs.Keys == fs.Keys;
    forall q | q in gs
      ensures gs[q] == fs[q]
    {
      assert At(gs, q) == At(fs, q);
    }
    assert gs == fs;
    assert p[..|p|] == p;
    forall k | 0 <= k < |p|
      ensures p[..k] in fs && fs[p[..k]].Dir?
    {
      assert At(fs, p[..k]) == Some(Dir);
    }
    forall k | 0 <= k <= |Parent(p)|
      ensures Parent(p)[..k] == p[..k]
    {
    }
  }

  lemma {:induction false} ConfinedHigher(fs: FS, gs: FS, p: Path, q: Path)
    requires Confined(fs, gs, {q}) && p <= q
    ensures Confined(fs, gs, {p})
  {
    assert p in {p} && q in {q};
    forall r: Path | !InScope(r, {p})
      ensures Unchanged(fs, gs, {p}, r)
    {
      PrefixChain(p, q, r);
      PrefixChain(r, p, q);
      assert !InScope(r, {q});
      assert Unchanged(fs, gs, {q}, r);
    }
  }

  /** A nonempty set of paths has a topmost one: its parent is not in the set. */
  lemma {:induction false} Topmost(todo: set<Path>, q: Path) returns (top: Path)
    requires q in todo && [] !in todo
    ensures top in todo && Parent(top) !in todo
    decreases |q|
  {
    if Parent(q) in todo {
      top := Topmost(todo, Parent(q));
    } else {
      top := q;
    }
  }

  lemma {:induction false} FirstLaid(fs: FS, gs: FS, src: Path, dst: Path)
    requires Apart(src, dst) && At(fs, src) == Some(Dir) && gs == MadeDirs(fs, dst) && CanMkdir(fs, dst)
    ensures Laid(fs, gs, src, dst, {src})
    ensures Nodes(gs, src) == Nodes(fs, src)
    ensures Nodes(fs, src) - (set q | q in gs && src < q) == {src}
  {
    assert dst[..|dst|] == dst;
    forall r: Path
      ensures At(gs, r) == LaidAt(fs, src, dst, {src}, r)
    {
      if dst <= r {
        var node := src + Below(dst, r);
        assert node[|src|..] == Below(dst, r);
        assert src[|src|..] == [];
        assert node == src ==> r == dst;
        assert r == dst ==> node == src;
      }
    }
    forall q
      ensures q in Nodes(gs, src) <==> q in Nodes(fs, src)
      ensures q in Nodes(fs, src) <==> q == src || (q in gs && src < q)
    {
      if src <= q {
        PrefixChain(src, q, dst);
        assert At(gs, q) == At(fs, q);
      }
    }
  }

  /** Nothing but a failing call stops this copy of a directory. */
  ghost predicate TreeFits(fs: FS, src: Path, dst: Path) {
    && Apart(src, dst) && At(fs, src) == Some(Dir) && CanMkdir(fs, dst)
    && forall s: Path :: s != [] ==> dst + s !in fs
  }

  method CopyDir(disk: Disk, src: Path, dst: Path) returns (ok: bool)
    requires Valid(disk.fs)
    modifies disk`fs, disk`ticks
    ensures Valid(disk.fs) && Confined(old(disk.fs), disk.fs, {dst})
    ensures ok ==> At(old(disk.fs), src) == Some(Dir)
    ensures ok && Apart(src, dst) ==> Copied(old(disk.fs), disk.fs, src, dst)
    ensures disk.Healthy() && old(TreeFits(disk.fs, src, dst)) ==> ok
  {
    hide CanMkdir, Confined, Laid, Apart, TreeFits, Valid, OnlyOnWay, MadeDirs, LaidAt, Nodes;
    ghost var start := disk.fs;
    StaysConfined(start, dst);
    FitsApart(start, src, dst);
    PrefixesStand(start, src);
    var source := disk.Look(src);
    if source != Ok(Some(Dir)) {
      return false;
    }
    ok := disk.MkdirAll(dst);
    OnWayIsConfined(start, disk.fs, dst, dst);
    if !ok {
      return;
    }
    if Apart(src, dst) {
      FirstLaid(start, disk.fs, src, dst);
    }
    ok := WalkNodes(disk, start, src, dst);
  }

  /** The walk over everything below the source, parents first. */
  method WalkNodes(disk: Disk, ghost start: FS, src: Path, dst: Path) returns (ok: bool)
    requires Valid(disk.fs) && Valid(start) && Confined(start, disk.fs, {dst})
    requires Apart(src, dst) ==> Laid(start, disk.fs, src, dst, {src}) && src in start
    requires Apart(src, dst) ==> Nodes(start, src) - (set q | q in disk.fs && src < q) == {src}
    requires Apart(src, dst) ==> Nodes(start, src) == Nodes(disk.fs, src)
    modifies disk`fs, disk`ticks
    ensures Valid(disk.fs) && Confined(start, disk.fs, {dst})
    ensures ok && Apart(src, dst) ==> Laid(start, disk.fs, src, dst, Nodes(start, src))
    ensures disk.Healthy() && TreeFits(start, src, dst) ==> ok
  {
    hide CanMkdir, Confined, Laid, Apart, TreeFits, Valid, OnlyOnWay, MadeDirs, LaidAt;
    var todo := set q | q in disk.fs && src < q;
    ghost var all := Nodes(start, src);
    ok := true;
    while todo != {}
      invariant ok && Valid(disk.fs) && Confined(start, disk.fs, {dst})
      invariant forall q :: q in todo ==> src < q
      invariant Apart(src, dst) ==> todo <= all && src in all - todo && Laid(start, disk.fs, src, dst, all - todo)
      decreases |todo|
    {
      ghost var some: Path :| some in todo;
      ghost var top := Topmost(todo, some);
      var q :| q in todo && Parent(q) !in todo;
      if Apart(src, dst) {
        NodeStands(start, src, q);
      }
      ok := CopyNode(disk, start, src, dst, q, all - todo);
      if !ok {
        return;
      }
      assert Apart(src, dst) ==> all - (todo - {q}) == (all - todo) + {q};
      todo := todo - {q};
    }
    assert all - {} == all;
  }

  /** The walk has laid the nodes of `done`, and `q` is a next node. */
  ghost predicate Walking(start: FS, fs: FS, src: Path, dst: Path, done: set<Path>, q: Path) {
    && Valid(start) && Valid(fs) && Apart(src, dst)
    && src in done && src < q && q in start && q !in done && Parent(q) in done
    && Laid(start, fs, src, dst, done)
  }

  lemma {:induction false} TargetOnly(fs: FS, gs: FS, target: Path, node: Node)
    requires Valid(fs) && target != [] && At(fs, Parent(target)) == Some(Dir)
    requires if node.Dir? then CanMkdir(fs, target) && gs == MadeDirs(fs, target)
             else gs == MadeDirs(fs, Parent(target))[target := node]
    ensures forall r :: At(gs, r) == if r == target then Some(node) else At(fs, r)
  {
    hide CanMkdir;
    MakeUnderDir(fs, target);
  }

  lemma {:induction false} NodeLaid(start: FS, fs: FS, gs: FS, src: Path, dst: Path, done: set<Path>, q: Path)
    requires Walking(start, fs, src, dst, done, q)
    requires if start[q].Dir? then CanMkdir(fs, dst + Below(src, q)) && gs == MadeDirs(fs, dst + Below(src, q))
             else gs == MadeDirs(fs, Parent(dst + Below(src, q)))[dst + Below(src, q) := start[q]]
    ensures Laid(start, gs, src, dst, done + {q})
  {
    hide Laid, CanMkdir, MadeDirs, Valid, Apart;
    NextHasParent(start, fs, src, dst, done, q);
    TargetOnly(fs, gs, dst + Below(src, q), start[q]);
    LayOne(start, fs, gs, src, dst, done, q);
  }

  lemma {:induction false} NodeFits(start: FS, fs: FS, src: Path, dst: Path, done: set<Path>, q: Path)
    requires Walking(start, fs, src, dst, done, q) && TreeFits(start, src, dst)
    ensures start[q].Dir? ==> CanMkdir(fs, dst + Below(src, q))
    ensures start[q].File? ==> CopyFits(fs, q, dst + Below(src, q))
  {
    hide CanMkdir;
    var s := Below(src, q);
    var target := dst + s;
    NextHasParent(start, fs, src, dst, done, q);
    MakeUnderDir(fs, target);
    assert Below(dst, target) == s && src + s == q;
    assert At(fs, target) == LaidAt(start, src, dst, done, target);
    assert dst + s !in start;
    TargetApart(src, dst, q);
  }

  /** The callback of the walk: one node below the source. */
  method CopyNode(disk: Disk, ghost start: FS, src: Path, dst: Path, q: Path, ghost done: set<Path>) returns (ok: bool)
    requires Valid(disk.fs) && src < q && Confined(start, disk.fs, {dst})
    requires Apart(src, dst) ==> Walking(start, disk.fs, src, dst, done, q)
    modifies disk`fs, disk`ticks
    ensures Valid(disk.fs) && Confined(start, disk.fs, {dst})
    ensures ok && Apart(src, dst) ==> Laid(start, disk.fs, src, dst, done + {q})
    ensures disk.Healthy() && TreeFits(start, src, dst) ==> ok
  {
    hide CanMkdir, Confined, Laid, TreeFits, Apart, CopyFits;
    ghost var before := disk.fs;
    var target := dst + Below(src, q);
    PrefixesStand(before, q);
    if Apart(src, dst) {
      NextHasParent(start, before, src, dst, done, q);
      if TreeFits(start, src, dst) {
        NodeFits(start, before, src, dst, done, q);
      }
    }
    FitsApart(start, src, dst);
    var node := disk.Look(q);
    if node.Err? || node.value.None? {
      return false;
    }
    if node.value.value.Dir? {
      ok := disk.MkdirAll(target);
      OnWayIsConfined(before, disk.fs, target, target);
    } else {
      ok := CopyFile(disk, q, target);
      TargetApart(src, dst, q);
    }
    if ok && Apart(src, dst) {
      NodeLaid(start, before, disk.fs, src, dst, done, q);
    }
    ConfinedHigher(before, disk.fs, dst, target);
    ConfinedThen(start, before, disk.fs, {dst});
  }

  lemma {:induction false} FitsApart(start: FS, src: Path, dst: Path)
    ensures TreeFits(start, src, dst) ==> Apart(src, dst) && At(start, src) == Some(Dir) && CanMkdir(start, dst)
  {
  }

  lemma {:induction false} TargetApart(src: Path, dst: Path, q: Path)
    requires src < q
    ensures Apart(src, dst) ==> Apart(q, dst + Below(src, q))
  {
    var target := dst + Below(src, q);
    PrefixChain(src, q, target);
    PrefixChain(dst, target, q);
    PrefixChain(src, target, q);
    PrefixChain(src, dst, target);
    PrefixChain(src, dst, q);
  }

  lemma {:induction false} NodeStands(start: FS, src: Path, q: Path)
    requires Valid(start) && src < q && q in start
    ensures Parent(q) in Nodes(start, src)
  {
    assert At(start, Parent(q)).Some?;
  }
}
