/**
  The filesystem the installer works on: canonical component paths, directories and file contents.
  Every call may fail, and a failed call may leave any change below the path it was given.
 */
module FileTree {
  import opened GoStrings
  import opened Outcomes

  type Path = seq<string>

  datatype Node = Dir | File(content: string)

  type FS = map<Path, Node>

  function At(fs: FS, q: Path): Option<Node> {
    if q in fs then Some(fs[q]) else None
  }

  lemma {:induction false} SameLookups(fs: FS, gs: FS)
    requires forall q :: At(fs, q) == At(gs, q)
    ensures fs == gs
  {
    assert forall q :: q in fs <==> At(fs, q).Some?;
    assert forall q :: q in gs <==> At(gs, q).Some?;
    assert fs.Keys == gs.Keys;
    forall q | q in fs
      ensures fs[q] == gs[q]
    {
      assert At(fs, q) == At(gs, q);
    }
  }

  function Parent(p: Path): Path {
    if p == [] then [] else p[..|p| - 1]
  }

  /** Everything in the tree stands in a directory. */
  predicate Valid(fs: FS) {
    forall q :: q in fs && q != [] ==> At(fs, Parent(q)) == Some(Dir)
  }

  /** The components of a path string; empty ones and "." are dropped, ".." steps back. */
  function Resolve(s: string): (p: Path) {
    Walk(Components(s, ""))
  }

  function Components(s: string, pending: string): seq<string> {
    if s == "" then [pending]
    else if s[0] == '/' then [pending] + Components(s[1..], "")
    else Components(s[1..], pending + [s[0]])
  }

  function Walk(parts: seq<string>): Path {
    if parts == [] then []
    else
      var done := Walk(parts[..|parts| - 1]);
      var last := parts[|parts| - 1];
      if last == "" || last == "." then done
      else if last == ".." then Parent(done)
      else done + [last]
  }

  /** A component that names an entry. */
  predicate PlainPart(part: string) {
    part != "" && part != "." && part != ".." && '/' !in part
  }

  function Slashed(parts: seq<string>): string {
    if parts == [] then "" else "/" + parts[0] + Slashed(parts[1..])
  }

  lemma {:induction false} ComponentsPart(part: string, rest: string, pending: string)
    requires '/' !in part
    ensures Components(part + rest, pending) == Components(rest, pending + part)
  {
    if part == "" {
      assert part + rest == rest && pending + part == pending;
    } else {
      assert (part + rest)[1..] == part[1..] + rest;
      ComponentsPart(part[1..], rest, pending + [part[0]]);
      assert pending + [part[0]] + part[1..] == pending + part;
    }
  }

  lemma {:induction false} ComponentsSlashed(parts: seq<string>, pending: string)
    requires forall part :: part in parts ==> PlainPart(part)
    ensures Components(Slashed(parts), pending) == [pending] + parts
  {
    if parts != [] {
      var s := Slashed(parts);
      assert s[0] == '/' && s[1..] == parts[0] + Slashed(parts[1..]);
      assert parts[0] in parts;
      ComponentsPart(parts[0], Slashed(parts[1..]), "");
      assert "" + parts[0] == parts[0];
      ComponentsSlashed(parts[1..], parts[0]);
      assert [parts[0]] + parts[1..] == parts;
    }
  }

  lemma {:induction false} WalkPlain(before: seq<string>, parts: seq<string>)
    requires forall part :: part in parts ==> PlainPart(part)
    ensures Walk(before + parts) == Walk(before) + parts
    decreases |parts|
  {
    if parts == [] {
      assert before + parts == before;
    } else {
      var all, last := before + parts, |parts| - 1;
      assert all[..|all| - 1] == before + parts[..last] && all[|all| - 1] == parts[last];
      assert parts[last] in parts && forall part :: part in parts[..last] ==> part in parts;
      WalkPlain(before, parts[..last]);
      assert parts[..last] + [parts[last]] == parts;
    }
  }

  /** An absolute path of plain names leads through just these names, from any directory of plain names too. */
  lemma {:induction false} ResolvePlain(base: Path, parts: seq<string>)
    requires forall part :: part in base + parts ==> PlainPart(part)
    ensures Resolve(Slashed(parts)) == parts
    ensures Walk(base + Components(Slashed(parts), "")) == base + parts
  {
    hide PlainPart;
    forall part | part in base || part in parts
      ensures PlainPart(part)
    {
      assert part in base + parts;
    }
    ComponentsSlashed(parts, "");
    WalkPlain([""], parts);
    WalkPlain([], base);
    assert [] + base == base && (base + [""])[..|base|] == base;
    WalkPlain(base + [""], parts);
    assert base + ([""] + parts) == base + [""] + parts;
    assert [""][..0] == [];
  }

  /** ".." steps back from any path; "." and a closing slash change nothing. */
  lemma {:induction false} ResolveSteps(s: string)
    ensures Resolve(s + "/..") == Parent(Resolve(s)) && Resolve(s + "/.") == Resolve(s) && Resolve(s + "/") == Resolve(s)
  {
    OneMore(s, "..", "");
    OneMore(s, ".", "");
    OneMore(s, "", "");
    var parts := Components(s, "");
    assert (parts + [".."])[..|parts|] == parts && (parts + ["."])[..|parts|] == parts && (parts + [""])[..|parts|] == parts;
    assert s + "/" + "" == s + "/" && s + "/" + ".." == s + "/.." && s + "/" + "." == s + "/.";
  }

  lemma {:induction false} OneMore(s: string, part: string, pending: string)
    requires '/' !in part
    ensures Components(s + "/" + part, pending) == Components(s, pending) + [part]
  {
    var all := s + "/" + part;
    if s == "" {
      assert all[0] == '/' && all[1..] == part;
      ComponentsPart(part, "", "");
      assert part + "" == part && "" + part == part;
    } else {
      assert all[0] == s[0] && all[1..] == s[1..] + "/" + part;
      OneMore(s[1..], part, if s[0] == '/' then "" else pending + [s[0]]);
    }
  }

  function Targets(keys: set<string>): set<Path> {
    set k | k in keys :: Resolve(k)
  }

  predicate Apart(p: Path, q: Path) {
    !(p <= q) && !(q <= p)
  }

  lemma {:induction false} PrefixChain(p: Path, q: Path, r: Path)
    ensures p <= q && q <= r ==> p <= r
    ensures p <= r && q <= r ==> p <= q || q <= p
  {
    if p <= r && q <= r {
      if |p| <= |q| {
        assert p == r[..|p|] && q == r[..|q|] && q[..|p|] == r[..|p|];
      } else {
        assert p == r[..|p|] && q == r[..|q|] && p[..|q|] == r[..|q|];
      }
    }
  }

  /** In a valid tree, whatever stands above an entry is a directory of the tree. */
  lemma {:induction false} AboveIsDir(fs: FS, p: Path, q: Path)
    requires Valid(fs) && q in fs && p < q
    ensures At(fs, p) == Some(Dir)
    decreases |q|
  {
    assert p <= Parent(q);
    if p != Parent(q) {
      AboveIsDir(fs, p, Parent(q));
    }
  }

  /** The suffix of a path below another. */
  function Below(p: Path, q: Path): (s: Path)
    requires p <= q
    ensures q == p + s
  {
    q[|p|..]
  }

  // ---------- what a call may change ----------

  predicate InScope(q: Path, scope: set<Path>) {
    exists p :: p in scope && p <= q
  }

  predicate AboveScope(q: Path, scope: set<Path>) {
    exists p :: p in scope && q < p
  }

  /** Outside the scope the only change is a new directory on the way to it. */
  predicate Unchanged(fs: FS, gs: FS, scope: set<Path>, q: Path) {
    At(gs, q) == At(fs, q) || (AboveScope(q, scope) && q !in fs && At(gs, q) == Some(Dir))
  }

  ghost predicate Confined(fs: FS, gs: FS, scope: set<Path>) {
    forall q :: !InScope(q, scope) ==> Unchanged(fs, gs, scope, q)
  }

  lemma {:induction false} ConfinedMore(fs: FS, gs: FS, scope: set<Path>, more: set<Path>)
    requires Confined(fs, gs, scope) && scope <= more
    ensures Confined(fs, gs, more)
  {
    forall q: Path | !InScope(q, more)
      ensures Unchanged(fs, gs, more, q)
    {
      assert !InScope(q, scope) && Unchanged(fs, gs, scope, q);
    }
  }

  lemma {:induction false} ConfinedThen(fs: FS, gs: FS, hs: FS, scope: set<Path>)
    requires Confined(fs, gs, scope) && Confined(gs, hs, scope)
    ensures Confined(fs, hs, scope)
  {
    hide InScope, AboveScope;
    forall q: Path | !InScope(q, scope)
      ensures Unchanged(fs, hs, scope, q)
    {
      assert Unchanged(fs, gs, scope, q) && Unchanged(gs, hs, scope, q);
    }
  }

  lemma {:induction false} ConfinedJoin(fs: FS, gs: FS, hs: FS, scope: set<Path>, p: Path)
    requires Confined(fs, gs, scope) && Confined(gs, hs, {p})
    ensures Confined(fs, hs, scope + {p})
  {
    ConfinedMore(fs, gs, scope, scope + {p});
    ConfinedMore(gs, hs, {p}, scope + {p});
    ConfinedThen(fs, gs, hs, scope + {p});
  }

  /** A change confined to places apart from `p` leaves the whole subtree at `p` as it was. */
  lemma {:induction false} ApartUntouched(fs: FS, gs: FS, scope: set<Path>, p: Path, s: Path)
    requires Confined(fs, gs, scope) && forall r :: r in scope ==> Apart(r, p)
    ensures At(gs, p + s) == At(fs, p + s)
  {
    var q := p + s;
    forall r | r in scope
      ensures !(r <= q) && !(q < r)
    {
      PrefixChain(r, p, q);
      PrefixChain(p, q, r);
    }
    assert !InScope(q, scope) && !AboveScope(q, scope);
    assert Unchanged(fs, gs, scope, q);
  }

  // ---------- what a call does when it succeeds ----------

  predicate CanMkdir(fs: FS, p: Path) {
    forall k :: 0 <= k <= |p| ==> p[..k] !in fs || fs[p[..k]].Dir?
  }

  function MadeDirs(fs: FS, p: Path): (gs: FS)
    ensures forall q :: At(gs, q) == if q !in fs && q <= p then Some(Dir) else At(fs, q)
  {
    var prefixes := set k | 0 <= k <= |p| :: p[..k];
    assert forall q: Path :: q <= p ==> q == p[..|q|];
    map q | q in fs.Keys + prefixes :: if q in fs then fs[q] else Dir
  }

  function Without(fs: FS, p: Path): (gs: FS)
    ensures forall q :: At(gs, q) == if p <= q then None else At(fs, q)
  {
    map q | q in fs && !(p <= q) :: fs[q]
  }

  lemma {:induction false} MadeDirsKeeps(fs: FS, p: Path)
    requires Valid(fs) && CanMkdir(fs, p)
    ensures Valid(MadeDirs(fs, p)) && Confined(fs, MadeDirs(fs, p), {p}) && At(MadeDirs(fs, p), p) == Some(Dir)
  {
    var gs := MadeDirs(fs, p);
    assert p[..|p|] == p;
    forall q | q in gs && q != []
      ensures At(gs, Parent(q)) == Some(Dir)
    {
      if q !in fs {
        assert At(gs, q) == Some(Dir) && q <= p;
        assert Parent(q) == p[..|q| - 1];
        assert At(gs, Parent(q)) == if Parent(q) in fs then At(fs, Parent(q)) else Some(Dir);
      } else {
        assert At(fs, Parent(q)) == Some(Dir);
      }
    }
    assert p in {p};
    forall q: Path | !InScope(q, {p})
      ensures Unchanged(fs, gs, {p}, q)
    {
      assert q <= p ==> q < p;
    }
  }

  lemma {:induction false} WithoutKeeps(fs: FS, p: Path)
    requires Valid(fs)
    ensures Valid(Without(fs, p)) && Confined(fs, Without(fs, p), {p})
  {
    var gs := Without(fs, p);
    assert p in {p};
    forall q | q in gs && q != []
      ensures At(gs, Parent(q)) == Some(Dir)
    {
      assert At(gs, q) == At(fs, q) && !(p <= q);
      assert At(fs, Parent(q)) == Some(Dir);
      PrefixChain(p, Parent(q), q);
    }
  }

  lemma {:induction false} WriteKeeps(fs: FS, p: Path, node: Node)
    requires Valid(fs) && p != [] && At(fs, Parent(p)) == Some(Dir) && (node.Dir? || At(fs, p) != Some(Dir))
    ensures Valid(fs[p := node]) && Confined(fs, fs[p := node], {p})
  {
    var gs := fs[p := node];
    assert p in {p};
    forall q | q in gs && q != []
      ensures At(gs, Parent(q)) == Some(Dir)
    {
      if q != p {
        assert At(fs, Parent(q)) == Some(Dir);
      }
    }
  }

  lemma {:induction false} StaysConfined(fs: FS, p: Path)
    ensures Confined(fs, fs, {p})
  {
  }

  // ---------- the disk ----------

  /** Only missing directories on the way to `p` were added. */
  ghost predicate OnlyOnWay(fs: FS, gs: FS, p: Path) {
    forall q :: At(gs, q) == At(fs, q) || (q <= p && q !in fs && At(gs, q) == Some(Dir))
  }

  lemma {:induction false} OnWayIsConfined(fs: FS, gs: FS, p: Path, q: Path)
    requires OnlyOnWay(fs, gs, p) && p <= q
    ensures Confined(fs, gs, {q})
  {
    assert q in {q};
    forall r: Path | !InScope(r, {q})
      ensures Unchanged(fs, gs, {q}, r)
    {
      PrefixChain(r, p, q);
    }
  }

  /**
    What a call meets: it works, or it fails. A failed write or removal leaves `left` if that is a change
    below its path, a failed MkdirAll the first `depth` directories.
   */
  datatype Fault = Clean | Broken(left: FS, depth: nat)

  function Least(a: nat, b: nat): nat {
    if a <= b then a else b
  }

  class Disk {
    var fs: FS
    var ticks: nat
    const faults: nat -> Fault

    constructor (start: FS, faults: nat -> Fault)
      ensures fs == start && ticks == 0 && this.faults == faults
    {
      fs, ticks, this.faults := start, 0, faults;
    }

    ghost predicate Healthy() {
      forall k :: faults(k).Clean?
    }

    /** A failing call: any change below `p` that still is a tree. */
    method Fail(p: Path)
      requires Valid(fs)
      modifies this`fs
      ensures Valid(fs) && Confined(old(fs), fs, {p})
    {
      StaysConfined(fs, p);
      match faults(ticks)
      case Clean =>
      case Broken(left, _) =>
        if Valid(left) && IsConfined(fs, left, p) {
          IsConfinedMeans(fs, left, p);
          fs := left;
        }
    }

    /** `os.MkdirAll` */
    method MkdirAll(p: Path) returns (ok: bool)
      requires Valid(fs)
      modifies this`fs, this`ticks
      ensures Valid(fs) && OnlyOnWay(old(fs), fs, p)
      ensures ok ==> CanMkdir(old(fs), p) && fs == MadeDirs(old(fs), p)
      ensures Healthy() && CanMkdir(old(fs), p) ==> ok
    {
      ok := faults(ticks).Clean? && CanMkdir(fs, p);
      var made := if ok then p else if faults(ticks).Broken? then p[..Least(faults(ticks).depth, |p|)] else [];
      if ok || (faults(ticks).Broken? && CanMkdir(fs, made)) {
        MadeDirsKeeps(fs, made);
        fs := MadeDirs(fs, made);
      }
      ticks := ticks + 1;
    }

    /** `os.RemoveAll`; a missing path is no error. */
    method RemoveAll(p: Path) returns (ok: bool)
      requires Valid(fs)
      modifies this`fs, this`ticks
      ensures Valid(fs) && Confined(old(fs), fs, {p})
      ensures ok ==> fs == Without(old(fs), p)
      ensures Healthy() ==> ok
    {
      ok := faults(ticks).Clean?;
      if ok {
        WithoutKeeps(fs, p);
        fs := Without(fs, p);
      } else {
        Fail(p);
      }
      ticks := ticks + 1;
    }

    predicate CanWrite(p: Path)
      reads this`fs
    {
      p != [] && At(fs, Parent(p)) == Some(Dir) && At(fs, p) != Some(Dir)
    }

    /** `os.WriteFile`, and the open-truncate-copy-close of `copyFile`. */
    method WriteFile(p: Path, content: string) returns (ok: bool)
      requires Valid(fs)
      modifies this`fs, this`ticks
      ensures Valid(fs) && Confined(old(fs), fs, {p})
      ensures ok ==> old(CanWrite(p)) && fs == old(fs)[p := File(content)]
      ensures Healthy() && old(CanWrite(p)) ==> ok
    {
      ok := faults(ticks).Clean? && CanWrite(p);
      if ok {
        WriteKeeps(fs, p, File(content));
        fs := fs[p := File(content)];
      } else {
        Fail(p);
      }
      ticks := ticks + 1;
    }

    /** The creation of an exclusive temporary file. */
    method Create(p: Path) returns (ok: bool)
      requires Valid(fs)
      modifies this`fs, this`ticks
      ensures Valid(fs)
      ensures ok ==> p !in old(fs) && old(CanWrite(p)) && fs == old(fs)[p := File("")]
      ensures !ok ==> fs == old(fs)
      ensures Healthy() && p !in old(fs) && old(CanWrite(p)) ==> ok
    {
      ok := faults(ticks).Clean? && p !in fs && CanWrite(p);
      if ok {
        WriteKeeps(fs, p, File(""));
        fs := fs[p := File("")];
      }
      ticks := ticks + 1;
    }

    /** `os.Remove` of a file. */
    method Remove(p: Path) returns (ok: bool)
      requires Valid(fs)
      modifies this`fs, this`ticks
      ensures Valid(fs)
      ensures fs == if ok then Without(old(fs), p) else old(fs)
      ensures Healthy() && p in old(fs) && old(fs)[p].File? ==> ok
    {
      ok := faults(ticks).Clean? && p in fs && fs[p].File?;
      if ok {
        WithoutKeeps(fs, p);
        fs := Without(fs, p);
      }
      ticks := ticks + 1;
    }

    /** `os.Rename` of a file. */
    method Rename(from: Path, to: Path) returns (ok: bool)
      requires Valid(fs)
      modifies this`fs, this`ticks
      ensures Valid(fs)
      ensures ok ==> from in old(fs) && fs == Without(old(fs), from)[to := old(fs)[from]]
      ensures !ok ==> fs == old(fs)
      ensures Healthy() && from in old(fs) && old(fs)[from].File? && !(from <= to) && old(CanWrite(to)) ==> ok
    {
      ok := faults(ticks).Clean? && from in fs && fs[from].File? && !(from <= to) && CanWrite(to);
      if ok {
        var node := fs[from];
        WithoutKeeps(fs, from);
        assert !(from <= Parent(to)) by {
          PrefixChain(from, Parent(to), to);
        }
        WriteKeeps(Without(fs, from), to, node);
        fs := Without(fs, from)[to := node];
      }
      ticks := ticks + 1;
    }

    /** `os.MkdirTemp`: a new directory in an existing one. */
    method MkdirTemp(p: Path) returns (ok: bool)
      requires Valid(fs)
      modifies this`fs, this`ticks
      ensures Valid(fs)
      ensures ok ==> p !in old(fs) && old(CanWrite(p)) && fs == old(fs)[p := Dir]
      ensures !ok ==> fs == old(fs)
      ensures Healthy() && p !in old(fs) && old(CanWrite(p)) ==> ok
    {
      ok := faults(ticks).Clean? && p !in fs && CanWrite(p);
      if ok {
        WriteKeeps(fs, p, Dir);
        fs := fs[p := Dir];
      }
      ticks := ticks + 1;
    }

    /** Foreign code that writes below `p`, such as unpacking an archive. */
    method Foreign(p: Path, left: FS)
      requires Valid(fs)
      modifies this`fs
      ensures Valid(fs) && Confined(old(fs), fs, {p})
      ensures fs == left || fs == old(fs)
      ensures Valid(left) && Confined(old(fs), left, {p}) ==> fs == left
    {
      StaysConfined(fs, p);
      IsConfinedMeans(fs, left, p);
      if Valid(left) && IsConfined(fs, left, p) {
        fs := left;
      }
    }

    /** A call with no effect on the tree: chmod, close. */
    method Attempt() returns (ok: bool)
      modifies this`ticks
      ensures Healthy() ==> ok
    {
      ok := faults(ticks).Clean?;
      ticks := ticks + 1;
    }

    /** `os.Stat` and `os.Open`: `Err` when the lookup itself fails. */
    method Look(p: Path) returns (r: Result<Option<Node>, string>)
      modifies this`ticks
      ensures r.Ok? ==> r.value == At(fs, p)
      ensures Healthy() && (forall k :: 0 <= k < |p| ==> p[..k] !in fs || fs[p[..k]].Dir?) ==> r.Ok?
    {
      if faults(ticks).Clean? && forall k :: 0 <= k < |p| ==> p[..k] !in fs || fs[p[..k]].Dir? {
        r := Ok(At(fs, p));
      } else {
        r := Err("stat failed");
      }
      ticks := ticks + 1;
    }
  }

  /** The executable form of `Confined(fs, gs, {p})`. */
  predicate IsConfined(fs: FS, gs: FS, p: Path) {
    && (forall q :: q in fs && !(p <= q) ==> At(gs, q) == At(fs, q))
    && (forall q :: q in gs && !(p <= q) && q !in fs ==> q < p && gs[q].Dir?)
  }

  lemma {:induction false} IsConfinedMeans(fs: FS, gs: FS, p: Path)
    ensures IsConfined(fs, gs, p) <==> Confined(fs, gs, {p})
  {
    assert p in {p};
    if IsConfined(fs, gs, p) {
      forall q: Path | !InScope(q, {p})
        ensures Unchanged(fs, gs, {p}, q)
      {
        assert !(p <= q);
        if q !in fs && q in gs {
          assert q < p;
          assert AboveScope(q, {p});
        } else {
          assert At(gs, q) == At(fs, q);
        }
      }
    }
    if Confined(fs, gs, {p}) {
      forall q: Path | !(p <= q)
        ensures At(gs, q) == At(fs, q) || (q !in fs && q < p && At(gs, q) == Some(Dir))
      {
        assert !InScope(q, {p});
        assert Unchanged(fs, gs, {p}, q);
      }
      forall q: Path | q in fs && !(p <= q)
        ensures At(gs, q) == At(fs, q)
      {
      }
    }
  }
}
