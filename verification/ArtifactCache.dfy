/**
  The artifact cache: eviction of the oldest files until the total fits the limit, and the download that
  has just been stored when it runs.
 */
module ArtifactCache {
  import opened GoStrings
  import opened Outcomes
  import opened Ordering

  const CACHE_MAX_BYTES: int := 2 * 1024 * 1024 * 1024
  const DOWNLOAD_MAX_BYTES: int := 512 * 1024 * 1024

  datatype CachedFile = CachedFile(path: string, size: nat)

  function Sum(files: seq<CachedFile>): (n: nat) {
    if files == [] then 0 else files[0].size + Sum(files[1..])
  }

  /** What is left of `files`, oldest first: removal stops once the total fits, and a failed removal is skipped. */
  function Survivors(files: seq<CachedFile>, total: int, limit: int, stuck: string -> bool): (kept: seq<CachedFile>) {
    if files == [] || total <= limit then files
    else if stuck(files[0].path) then [files[0]] + Survivors(files[1..], total, limit, stuck)
    else Survivors(files[1..], total - files[0].size, limit, stuck)
  }

  /** The files that cannot be removed. */
  function Stuck(files: seq<CachedFile>, stuck: string -> bool): (r: seq<CachedFile>) {
    if files == [] then []
    else (if stuck(files[0].path) then [files[0]] else []) + Stuck(files[1..], stuck)
  }

  /** The total the loop sees when it comes to file `k`, had it not stopped before. */
  function TotalAt(files: seq<CachedFile>, k: nat, stuck: string -> bool): nat
    requires k <= |files|
  {
    Sum(Stuck(files[..k], stuck)) + Sum(files[k..])
  }

  predicate Evicted(files: seq<CachedFile>, k: nat, limit: int, stuck: string -> bool)
    requires k < |files|
  {
    !stuck(files[k].path) && TotalAt(files, k, stuck) > limit
  }

  /** The files the loop keeps, named one by one. */
  function Kept(files: seq<CachedFile>, from: nat, limit: int, stuck: string -> bool): seq<CachedFile>
    requires from <= |files|
    decreases |files| - from
  {
    if from == |files| then []
    else (if Evicted(files, from, limit, stuck) then [] else [files[from]]) + Kept(files, from + 1, limit, stuck)
  }

  lemma {:induction false} SumAppend(a: seq<CachedFile>, b: seq<CachedFile>)
    ensures Sum(a + b) == Sum(a) + Sum(b)
  {
    if a == [] {
      assert a + b == b;
    } else {
      assert (a + b)[1..] == a[1..] + b;
      SumAppend(a[1..], b);
    }
  }

  lemma {:induction false} StuckAppend(a: seq<CachedFile>, b: seq<CachedFile>, stuck: string -> bool)
    ensures Stuck(a + b, stuck) == Stuck(a, stuck) + Stuck(b, stuck)
  {
    if a == [] {
      assert a + b == b;
    } else {
      assert (a + b)[1..] == a[1..] + b;
      StuckAppend(a[1..], b, stuck);
    }
  }

  lemma {:induction false} StuckPrefix(files: seq<CachedFile>, k: nat, stuck: string -> bool)
    requires k < |files|
    ensures Sum(Stuck(files[..k + 1], stuck)) == Sum(Stuck(files[..k], stuck)) + if stuck(files[k].path) then files[k].size else 0
  {
    assert files[..k + 1] == files[..k] + [files[k]];
    StuckAppend(files[..k], [files[k]], stuck);
    SumAppend(Stuck(files[..k], stuck), Stuck([files[k]], stuck));
    assert Stuck([files[k]], stuck) == if stuck(files[k].path) then [files[k]] else [];
    assert Sum([files[k]]) == files[k].size;
  }

  lemma {:induction false} NextTotal(files: seq<CachedFile>, k: nat, stuck: string -> bool)
    requires k < |files|
    ensures TotalAt(files, k + 1, stuck) == TotalAt(files, k, stuck) - if stuck(files[k].path) then 0 else files[k].size
  {
    hide Stuck;
    StuckPrefix(files, k, stuck);
    assert files[k..] == [files[k]] + files[k + 1..];
  }

  lemma {:induction false} KeepRest(files: seq<CachedFile>, k: nat, limit: int, stuck: string -> bool)
    requires k <= |files| && TotalAt(files, k, stuck) <= limit
    ensures Kept(files, k, limit, stuck) == files[k..]
    decreases |files| - k
  {
    if k < |files| {
      NextTotal(files, k, stuck);
      KeepRest(files, k + 1, limit, stuck);
      assert files[k..] == [files[k]] + files[k + 1..];
    }
  }

  lemma {:induction false} SurvivorsFrom(files: seq<CachedFile>, k: nat, limit: int, stuck: string -> bool)
    requires k <= |files|
    ensures Survivors(files[k..], TotalAt(files, k, stuck), limit, stuck) == Kept(files, k, limit, stuck)
    decreases |files| - k
  {
    hide TotalAt;
    if k < |files| {
      NextTotal(files, k, stuck);
      SurvivorsFrom(files, k + 1, limit, stuck);
      assert files[k..][1..] == files[k + 1..];
      if TotalAt(files, k, stuck) <= limit {
        KeepRest(files, k, limit, stuck);
      }
    }
  }

  /** Exactly which files the loop removes: those it can remove while the total still exceeds the limit. */
  lemma {:induction false} EvictionIsExact(files: seq<CachedFile>, limit: int, stuck: string -> bool)
    ensures Survivors(files, Sum(files), limit, stuck) == Kept(files, 0, limit, stuck)
  {
    assert files[0..] == files && files[..0] == [];
    SurvivorsFrom(files, 0, limit, stuck);
  }

  lemma {:induction false} KeptIn(files: seq<CachedFile>, from: nat, limit: int, stuck: string -> bool, k: nat)
    requires from <= k < |files| && !Evicted(files, k, limit, stuck)
    ensures files[k] in Kept(files, from, limit, stuck)
    decreases k - from
  {
    hide Evicted;
    if k > from {
      KeptIn(files, from + 1, limit, stuck, k);
    }
  }

  lemma {:induction false} KeptOnly(files: seq<CachedFile>, from: nat, limit: int, stuck: string -> bool,
                                    f: CachedFile) returns (k: nat)
    requires from <= |files| && f in Kept(files, from, limit, stuck)
    ensures from <= k < |files| && files[k] == f && !Evicted(files, k, limit, stuck)
    decreases |files| - from
  {
    hide Evicted;
    if !Evicted(files, from, limit, stuck) && files[from] == f {
      k := from;
    } else {
      k := KeptOnly(files, from + 1, limit, stuck, f);
    }
  }

  predicate DistinctPaths(files: seq<CachedFile>) {
    forall i, j :: 0 <= i < j < |files| ==> files[i].path != files[j].path
  }

  /** The last file of the order stays exactly when it cannot be removed or fits beside the older ones that cannot be. */
  lemma {:induction false} NewestSurvives(files: seq<CachedFile>, limit: int, stuck: string -> bool)
    requires files != [] && DistinctPaths(files)
    ensures var n := |files| - 1;
      files[n] in Survivors(files, Sum(files), limit, stuck)
      <==> stuck(files[n].path) || Sum(Stuck(files[..n], stuck)) + files[n].size <= limit
  {
    var n := |files| - 1;
    EvictionIsExact(files, limit, stuck);
    if files[n] in Kept(files, 0, limit, stuck) {
      var k := KeptOnly(files, 0, limit, stuck, files[n]);
      assert k == n;
    }
    if !Evicted(files, n, limit, stuck) {
      KeptIn(files, 0, limit, stuck, n);
    }
    assert files[n..] == [files[n]];
    assert Sum([files[n]]) == files[n].size;
    assert Evicted(files, n, limit, stuck) <==> !stuck(files[n].path) && Sum(Stuck(files[..n], stuck)) + files[n].size > limit;
  }

  /** The loop ends within the limit, or with nothing left that it can remove. */
  lemma {:induction false} LimitHoldsUnlessStuck(files: seq<CachedFile>, limit: int, stuck: string -> bool)
    ensures var kept := Survivors(files, Sum(files), limit, stuck);
      Sum(kept) <= limit || forall f :: f in kept ==> stuck(f.path)
  {
    EvictionIsExact(files, limit, stuck);
    LimitOrStuck(files, 0, limit, stuck);
  }

  lemma {:induction false} LimitOrStuck(files: seq<CachedFile>, from: nat, limit: int, stuck: string -> bool)
    requires from <= |files|
    ensures Sum(Stuck(files[..from], stuck)) + Sum(Kept(files, from, limit, stuck)) <= limit
         || forall f :: f in Kept(files, from, limit, stuck) ==> stuck(f.path)
    decreases |files| - from
  {
    hide Stuck;
    if from < |files| {
      if TotalAt(files, from, stuck) <= limit {
        KeepRest(files, from, limit, stuck);
      } else {
        StuckPrefix(files, from, stuck);
        LimitOrStuck(files, from + 1, limit, stuck);
        var rest := Kept(files, from + 1, limit, stuck);
        assert Evicted(files, from, limit, stuck) <==> !stuck(files[from].path);
        if stuck(files[from].path) {
          assert ([files[from]] + rest)[1..] == rest;
          assert Kept(files, from, limit, stuck) == [files[from]] + rest;
        } else {
          assert Kept(files, from, limit, stuck) == rest;
        }
      }
    }
  }

  /** When every removal works, the loop removes the shortest oldest-first prefix that brings the total within the limit. */
  lemma {:induction false} ShortestPrefix(files: seq<CachedFile>, limit: int, stuck: string -> bool) returns (k: nat)
    requires forall f :: f in files ==> !stuck(f.path)
    ensures k <= |files| && Survivors(files, Sum(files), limit, stuck) == files[k..]
    ensures Sum(files[k..]) <= limit || k == |files|
    ensures forall j :: 0 <= j < k ==> Sum(files[j..]) > limit
  {
    if files == [] || Sum(files) <= limit {
      k := 0;
    } else {
      var n := ShortestPrefix(files[1..], limit, stuck);
      k := n + 1;
      assert files[1..][n..] == files[k..];
      forall j | 0 <= j < k
        ensures Sum(files[j..]) > limit
      {
        if j > 0 {
          assert files[1..][j - 1..] == files[j..];
        } else {
          assert files[0..] == files;
        }
      }
    }
  }

  // ---------- the cache directory ----------

  datatype Stored = Stored(size: nat, mtime: int, digest: string)

  /** What can go wrong while pruning: the listing, the details of a file, a removal. */
  datatype PruneWorld = PruneWorld(listing: bool, info: string -> bool, stuck: string -> bool)

  function FileOf(dir: map<string, Stored>, path: string): CachedFile
    requires path in dir
  {
    CachedFile(path, dir[path].size)
  }

  function Mtime(dir: map<string, Stored>, f: CachedFile): int {
    if f.path in dir then dir[f.path].mtime else 0
  }

  predicate Older(dir: map<string, Stored>, a: CachedFile, b: CachedFile) {
    Mtime(dir, a) <= Mtime(dir, b)
  }

  /** The files whose details could be read, each once, in some order. */
  ghost predicate Lists(dir: map<string, Stored>, info: string -> bool, files: seq<CachedFile>) {
    && DistinctPaths(files)
    && (forall f :: f in files <==> f.path in dir && info(f.path) && f == FileOf(dir, f.path))
  }

  ghost predicate OldestFirst(dir: map<string, Stored>, info: string -> bool, files: seq<CachedFile>) {
    && Lists(dir, info, files)
    && forall i, j :: 0 <= i < j < |files| ==> Older(dir, files[i], files[j])
  }

  /** The directory after eviction: listed files that do not survive are gone, the rest is as it was. */
  ghost predicate Pruned(before: map<string, Stored>, after: map<string, Stored>, order: seq<CachedFile>, kept: seq<CachedFile>) {
    && after.Keys <= before.Keys
    && (forall p :: p in after ==> after[p] == before[p])
    && (forall p :: p in before ==> (p !in after <==> CachedFile(p, before[p].size) in order && CachedFile(p, before[p].size) !in kept))
  }

  // ---------- checksums ----------

  const SHA_PREFIX: string := "sha256:"

  predicate HasShaPrefix(s: string) {
    |s| >= |SHA_PREFIX| && ToLower(s)[..|SHA_PREFIX|] == SHA_PREFIX
  }

  /** `normalizedChecksumValue` */
  function NormalizedChecksum(raw: string): string {
    var value := TrimSpace(raw);
    ToLower(if HasShaPrefix(value) then TrimSpace(value[|SHA_PREFIX|..]) else value)
  }

  /** `verifyArtifactChecksum` against the file's own digest, ignoring case. */
  predicate Verifies(digest: string, raw: string) {
    var value := TrimSpace(raw);
    && value != ""
    && ToLower(digest) == ToLower(if HasShaPrefix(value) then TrimSpace(value[|SHA_PREFIX|..]) else value)
  }

  /** A file that verifies against one spelling of a checksum verifies against every spelling with the same cache path. */
  lemma {:induction false} SameKeySameVerdict(digest: string, raw: string, other: string)
    requires NormalizedChecksum(raw) == NormalizedChecksum(other) != ""
    ensures Verifies(digest, raw) <==> Verifies(digest, other)
  {
    hide HasShaPrefix;
    BlankHasNoKey(raw);
    BlankHasNoKey(other);
  }

  lemma {:induction false} BlankHasNoKey(raw: string)
    ensures TrimSpace(raw) == "" ==> NormalizedChecksum(raw) == ""
  {
    hide TrimSpace;
    assert |SHA_PREFIX| == 7;
  }

  /** A digest verifies exactly if it is the normalised checksum, but for capitals. */
  lemma {:induction false} VerifiesExactly(digest: string, raw: string)
    requires digest != ""
    ensures Verifies(digest, raw) <==> ToLower(digest) == NormalizedChecksum(raw)
  {
    hide HasShaPrefix, TrimSpace;
    BlankHasNoKey(raw);
    assert |ToLower(digest)| == |digest|;
  }

  /** With or without the prefix, in capitals or not, a checksum means the same digest. */
  lemma {:induction false} ChecksumSpellings(x: string)
    requires x != "" && !IsSpace(x[0]) && !IsSpace(x[|x| - 1]) && !HasShaPrefix(x)
    ensures NormalizedChecksum(x) == ToLower(x) == NormalizedChecksum("sha256:" + x) == NormalizedChecksum("SHA256:" + x)
  {
    TrimCleanText(x, IsSpace);
    PrefixDropped("sha256:", x);
    PrefixDropped("SHA256:", x);
  }

  lemma {:induction false} PrefixDropped(prefix: string, x: string)
    requires prefix == "sha256:" || prefix == "SHA256:"
    requires x != "" && !IsSpace(x[0]) && !IsSpace(x[|x| - 1])
    ensures NormalizedChecksum(prefix + x) == ToLower(x)
  {
    var s := prefix + x;
    assert TrimSpace(s) == s && TrimSpace(x) == x by {
      assert s[0] == prefix[0] && s[|s| - 1] == x[|x| - 1];
      TrimCleanText(s, IsSpace);
      TrimCleanText(x, IsSpace);
    }
    hide TrimSpace;
    assert s[7..] == x;
    var low := ToLower(s);
    assert low[0] == 's' && low[1] == 'h' && low[2] == 'a' && low[3] == '2' && low[4] == '5' && low[5] == '6' && low[6] == ':' by {
      assert s[0] == prefix[0] && s[1] == prefix[1] && s[2] == prefix[2] && s[3] == prefix[3];
      assert s[4] == prefix[4] && s[5] == prefix[5] && s[6] == prefix[6];
    }
    assert low[..7] == SHA_PREFIX;
  }

  // ---------- fetching ----------

  datatype Body = Body(declared: int, size: nat, digest: string)

  /** What a fetch meets outside: the directory, the temporary file, the download, the rename, the clock, the pruning. */
  datatype FetchWorld = FetchWorld(mkdir: bool, tmp: string, tmpOk: bool, body: Option<Body>, rename: bool, now: int, prune: PruneWorld)

  datatype Fetched = Fetched(path: string, cached: bool)

  /** The body `downloadArtifact` accepts. */
  predicate Accepts(body: Option<Body>, max: int) {
    body.Some? && (max > 0 ==> body.value.declared <= max && body.value.size <= max)
  }

  /** The temporary file can be made, the body is not too large and has the right digest, and the file can be moved. */
  predicate Stores(files: map<string, Stored>, path: string, checksum: string, max: int, w: FetchWorld) {
    && w.tmpOk && w.tmp !in files && w.tmp != path && w.rename
    && w.body.Some? && (max > 0 ==> w.body.value.declared <= max && w.body.value.size <= max)
    && Verifies(w.body.value.digest, checksum)
  }

  /** The directory can be made, and the file is there and verifies. */
  predicate Hit(files: map<string, Stored>, path: string, checksum: string, w: FetchWorld) {
    NormalizedChecksum(checksum) != "" && w.mkdir && path in files && Verifies(files[path].digest, checksum)
  }

  /** No hit, but nothing in the way of a download. */
  predicate Downloads(files: map<string, Stored>, path: string, checksum: string, max: int, limit: int, w: FetchWorld) {
    && NormalizedChecksum(checksum) != "" && w.mkdir && !Hit(files, path, checksum, w)
    && Stores(files, path, checksum, max, w) && (limit <= 0 || w.prune.listing)
  }

  /** No other file of the directory is as new. */
  predicate StrictlyNewest(dir: map<string, Stored>, path: string) {
    path in dir && forall p :: p in dir && p != path ==> dir[p].mtime < dir[path].mtime
  }

  lemma {:induction false} NewestIsLast(dir: map<string, Stored>, info: string -> bool, order: seq<CachedFile>, path: string)
    requires OldestFirst(dir, info, order) && StrictlyNewest(dir, path) && info(path)
    ensures order != [] && order[|order| - 1] == FileOf(dir, path)
  {
    var f := FileOf(dir, path);
    assert f in order;
    var k :| 0 <= k < |order| && order[k] == f;
    var last := order[|order| - 1];
    assert last in order && last.path in dir;
    assert last.path == path || !Older(dir, f, last);
  }

  /** The bytes of older files that cannot be removed. */
  function StuckBytes(order: seq<CachedFile>, stuck: string -> bool): nat {
    if order == [] then 0 else Sum(Stuck(order[..|order| - 1], stuck))
  }

  /** Whether the file just stored is still there after pruning. */
  lemma {:induction false} NewFileSurvives(dir: map<string, Stored>, after: map<string, Stored>, w: PruneWorld,
                                           order: seq<CachedFile>,
                                           path: string, limit: int)
    requires OldestFirst(dir, w.info, order) && Pruned(dir, after, order, Survivors(order, Sum(order), limit, w.stuck))
    requires StrictlyNewest(dir, path)
    ensures path in after <==> !w.info(path) || w.stuck(path) || StuckBytes(order, w.stuck) + dir[path].size <= limit
  {
    hide Survivors, Stuck;
    var f := FileOf(dir, path);
    if w.info(path) {
      NewestIsLast(dir, w.info, order, path);
      NewestSurvives(order, limit, w.stuck);
    } else {
      assert f !in order;
    }
  }

  lemma {:induction false} NothingStuck(order: seq<CachedFile>, stuck: string -> bool)
    requires forall p :: !stuck(p)
    ensures StuckBytes(order, stuck) == 0
  {
    if order != [] {
      NoStuckFiles(order[..|order| - 1], stuck);
    }
  }

  lemma {:induction false} NoStuckFiles(files: seq<CachedFile>, stuck: string -> bool)
    requires forall p :: !stuck(p)
    ensures Stuck(files, stuck) == []
  {
    if files != [] {
      NoStuckFiles(files[1..], stuck);
    }
  }

  class ArtifactCache {
    var files: map<string, Stored>
    const maxBytes: int
    const maxDownload: int

    constructor ()
      ensures files == map[] && maxBytes == CACHE_MAX_BYTES && maxDownload == DOWNLOAD_MAX_BYTES
    {
      files, maxBytes, maxDownload := map[], CACHE_MAX_BYTES, DOWNLOAD_MAX_BYTES;
    }

    /** The listing loop, in any directory order. */
    method ListFiles(info: string -> bool) returns (listed: seq<CachedFile>, total: int)
      ensures Lists(files, info, listed) && total == Sum(listed)
    {
      listed, total := [], 0;
      var todo := files.Keys;
      while todo != {}
        invariant todo <= files.Keys && DistinctPaths(listed) && total == Sum(listed)
        invariant forall f :: f in listed <==> f.path in files && f.path !in todo && info(f.path) && f == FileOf(files, f.path)
        decreases |todo|
      {
        var path :| path in todo;
        todo := todo - {path};
        if info(path) {
          SumAppend(listed, [FileOf(files, path)]);
          listed := listed + [FileOf(files, path)];
          total := total + files[path].size;
        }
      }
    }

    /** `pruneArtifactCache`; `order` is the oldest-first order the loop ran in. */
    method PruneArtifactCache(w: PruneWorld) returns (ok: bool, ghost order: seq<CachedFile>)
      modifies this`files
      ensures ok <==> maxBytes <= 0 || w.listing
      ensures !ok || maxBytes <= 0 ==> files == old(files)
      ensures ok && maxBytes > 0 ==> OldestFirst(old(files), w.info, order)
      ensures ok && maxBytes > 0 ==> Pruned(old(files), files, order, Survivors(order, Sum(order), maxBytes, w.stuck))
    {
      hide Sum, Halfway, Pruned, Lists, OldestFirst;
      order := [];
      if maxBytes <= 0 {
        return true, [];
      }
      if !w.listing {
        return false, [];
      }
      var dir := files;
      var listed, total := ListFiles(w.info);
      var sorted := SortOldestFirst(dir, w.info, listed);
      order := sorted;
      ok := true;
      NoneYet(dir, w.info, sorted);
      if total <= maxBytes {
        return;
      }
      EvictLoop(dir, sorted, total, w.stuck);
    }

    /** The eviction loop over the sorted files. */
    method EvictLoop(ghost dir: map<string, Stored>, sorted: seq<CachedFile>, start: int, stuck: string -> bool)
      requires files == dir && start == Sum(sorted) && Halfway(dir, dir, sorted, 0, [])
      modifies this`files
      ensures Pruned(dir, files, sorted, Survivors(sorted, Sum(sorted), maxBytes, stuck))
    {
      hide Sum, Halfway, Pruned;
      var total := start;
      ghost var kept: seq<CachedFile> := [];
      var i := 0;
      assert sorted[0..] == sorted;
      while i < |sorted| && total > maxBytes
        invariant i <= |sorted| && Halfway(dir, files, sorted, i, kept)
        invariant kept + Survivors(sorted[i..], total, maxBytes, stuck) == Survivors(sorted, Sum(sorted), maxBytes, stuck)
      {
        var file := sorted[i];
        assert sorted[i..][1..] == sorted[i + 1..];
        HalfwayStep(dir, files, sorted, i, kept);
        if stuck(file.path) {
          kept := kept + [file];
        } else {
          files := files - {file.path};
          total := total - file.size;
        }
        i := i + 1;
      }
      PrunedAtLast(dir, files, sorted, i, kept);
    }

    /** Download into a temporary file, verify it, move it to `path`; the temporary file is removed on the way out. */
    method StoreDownload(path: string, checksum: string, w: FetchWorld) returns (ok: bool)
      modifies this`files
      ensures ok <==> Stores(old(files), path, checksum, maxDownload, w)
      ensures ok ==> files == old(files)[path := Stored(w.body.value.size, w.now, w.body.value.digest)]
      ensures !ok ==> forall p :: p in old(files) ==> p in files && files[p] == old(files)[p]
      ensures !ok ==> forall p :: p in files && p !in old(files) ==> p == w.tmp && w.prune.stuck(p)
    {
      hide TrimSpace, NormalizedChecksum, Verifies;
      ghost var before := files;
      if !w.tmpOk || w.tmp in files || w.tmp == path {
        return false;
      }
      files := files[w.tmp := Stored(0, w.now, "")];
      ok := Accepts(w.body, maxDownload);
      if ok {
        files := files[w.tmp := Stored(w.body.value.size, w.now, w.body.value.digest)];
        ok := Verifies(w.body.value.digest, checksum) && w.rename;
      }
      assert files - {w.tmp} == before;
      if ok {
        files := (files - {w.tmp})[path := files[w.tmp]];
      } else if !w.prune.stuck(w.tmp) {
        files := files - {w.tmp};
      }
    }

    /** `ensureArtifactAvailable`; `dir` is the directory as the pruning finds it, `order` its oldest-first order. */
    method EnsureArtifactAvailable(url: string, checksum: string, nameOf: (string, string) -> string, w: FetchWorld)
      returns (r: Result<Fetched, string>, ghost dir: map<string, Stored>, ghost order: seq<CachedFile>)
      modifies this`files
      ensures r.Ok? ==> r.value.path == nameOf(TrimSpace(url), NormalizedChecksum(checksum)) && NormalizedChecksum(checksum) != ""
      ensures r.Ok? && r.value.cached <==> Hit(old(files), nameOf(TrimSpace(url), NormalizedChecksum(checksum)), checksum, w)
      ensures r.Ok? && !r.value.cached <==>
        Downloads(old(files), nameOf(TrimSpace(url), NormalizedChecksum(checksum)), checksum, maxDownload, maxBytes, w)
      ensures r.Ok? && r.value.cached ==> files == old(files)
      ensures r.Err? && (NormalizedChecksum(checksum) == "" || !w.mkdir) ==> files == old(files)
      ensures r.Err? ==>
        var path := nameOf(TrimSpace(url), NormalizedChecksum(checksum));
        && (forall p :: p in old(files) && p != path ==> p in files && files[p] == old(files)[p])
        && (forall p :: p in files && p !in old(files) ==> p == path || (p == w.tmp && w.prune.stuck(p)))
        && (NormalizedChecksum(checksum) != "" && w.mkdir && path in files ==>
              Verifies(files[path].digest, checksum) || w.prune.stuck(path))
      ensures r.Ok? && !r.value.cached ==>
        && dir == old(files)[r.value.path := Stored(w.body.value.size, w.now, w.body.value.digest)]
        && (r.value.path in files ==> files[r.value.path] == dir[r.value.path])
      ensures r.Ok? && !r.value.cached && maxBytes > 0 ==>
        OldestFirst(dir, w.prune.info, order) && Pruned(dir, files, order, Survivors(order, Sum(order), maxBytes, w.prune.stuck))
      ensures r.Ok? && !r.value.cached && maxBytes <= 0 ==> files == dir
    {
      hide TrimSpace, NormalizedChecksum, Verifies, OldestFirst, Pruned, Survivors, Sum;
      dir, order := files, [];
      var key := NormalizedChecksum(checksum);
      if key == "" {
        return Err("artifact checksum is required"), dir, order;
      }
      var path := nameOf(TrimSpace(url), key);
      if !w.mkdir {
        return Err("create artifact cache dir failed"), dir, order;
      }
      if path in files {
        if Verifies(files[path].digest, checksum) {
          return Ok(Fetched(path, true)), dir, order;
        }
        if !w.prune.stuck(path) {
          files := files - {path};
        }
      }
      var ok := StoreDownload(path, checksum, w);
      if !ok {
        return Err("artifact was not stored"), dir, order;
      }
      dir := files;
      ok, order := PruneArtifactCache(w.prune);
      if !ok {
        return Err("read artifact cache dir failed"), dir, order;
      }
      PrunedKeeps(dir, files, order, Survivors(order, Sum(order), maxBytes, w.prune.stuck));
      return Ok(Fetched(path, false)), dir, order;
    }
  }

  lemma {:induction false} PrunedKeeps(before: map<string, Stored>, after: map<string, Stored>, order: seq<CachedFile>,
                                       kept: seq<CachedFile>)
    ensures Pruned(before, after, order, kept) ==> forall p :: p in after ==> p in before && after[p] == before[p]
  {
  }

  /**
    The path a fetch returns exists: a download larger than a quarter of the cache is refused, so when every
    removal works pruning never gets to the file that has just been stored.
   */
  method FetchedFileExists(cache: ArtifactCache, url: string, checksum: string, nameOf: (string, string) -> string, w: FetchWorld)
    returns (r: Result<Fetched, string>)
    requires cache.maxBytes == CACHE_MAX_BYTES && cache.maxDownload == DOWNLOAD_MAX_BYTES
    requires forall p :: !w.prune.stuck(p)
    requires forall p :: p in cache.files ==> cache.files[p].mtime < w.now
    modifies cache`files
    ensures r.Ok? ==> r.value.path in cache.files && Verifies(cache.files[r.value.path].digest, checksum)
    ensures var path := nameOf(TrimSpace(url), NormalizedChecksum(checksum));
      r.Ok? <==>
        || Hit(old(cache.files), path, checksum, w)
        || Downloads(old(cache.files), path, checksum, DOWNLOAD_MAX_BYTES, CACHE_MAX_BYTES, w)
  {
    hide TrimSpace, NormalizedChecksum, Verifies, OldestFirst, Pruned, Survivors, Sum;
    ghost var dir, order;
    r, dir, order := cache.EnsureArtifactAvailable(url, checksum, nameOf, w);
    if r.Ok? && !r.value.cached {
      NewFileSurvives(dir, cache.files, w.prune, order, r.value.path, cache.maxBytes);
      NothingStuck(order, w.prune.stuck);
    }
  }

  /** The loop has dealt with the first `i` files: of these, exactly `kept` are still there. */
  ghost predicate Halfway(before: map<string, Stored>, now: map<string, Stored>, order: seq<CachedFile>, i: nat,
                          kept: seq<CachedFile>)
    requires i <= |order|
  {
    && DistinctPaths(order)
    && (forall f :: f in order ==> f.path in before && f == FileOf(before, f.path))
    && (forall f :: f in kept ==> f in order[..i])
    && now.Keys <= before.Keys
    && (forall p :: p in now ==> now[p] == before[p])
    && (forall p :: p in before ==> (p !in now <==> FileOf(before, p) in order[..i] && FileOf(before, p) !in kept))
  }

  lemma {:induction false} PrunedAtLast(before: map<string, Stored>, now: map<string, Stored>, order: seq<CachedFile>, i: nat,
                                        kept: seq<CachedFile>)
    requires i <= |order| && Halfway(before, now, order, i, kept)
    ensures Pruned(before, now, order, kept + order[i..])
  {
    forall p | p in before
      ensures p !in now <==> FileOf(before, p) in order && FileOf(before, p) !in kept + order[i..]
    {
      var f := FileOf(before, p);
      assert order == order[..i] + order[i..];
      if f in order[i..] {
        var j :| i <= j < |order| && order[j] == f;
        assert f !in order[..i];
      }
    }
  }

  lemma {:induction false} OlderIsOrder(dir: map<string, Stored>)
    ensures TotalOrder((a, b) => Older(dir, a, b))
  {
  }

  method SortOldestFirst(dir: map<string, Stored>, info: string -> bool,
                         listed: seq<CachedFile>) returns (sorted: seq<CachedFile>)
    requires Lists(dir, info, listed)
    ensures OldestFirst(dir, info, sorted) && Sum(sorted) == Sum(listed)
  {
    var le := (a, b) => Older(dir, a, b);
    OlderIsOrder(dir);
    SortSorts(listed, le);
    SortPermutes(listed, le);
    sorted := Sort(listed, le);
    SumOfSort(listed, le);
    PermutedDistinct(listed, sorted);
    forall f
      ensures f in sorted <==> f in listed
    {
      assert f in sorted <==> f in multiset(sorted);
      assert f in listed <==> f in multiset(listed);
    }
  }

  lemma {:induction false} SumOfInsert(x: CachedFile, s: seq<CachedFile>, le: (CachedFile, CachedFile) -> bool)
    ensures Sum(Insert(x, s, le)) == x.size + Sum(s)
  {
    if s != [] && !le(x, s[0]) {
      SumOfInsert(x, s[1..], le);
    }
  }

  lemma {:induction false} SumOfSort(s: seq<CachedFile>, le: (CachedFile, CachedFile) -> bool)
    ensures Sum(Sort(s, le)) == Sum(s)
  {
    if s != [] {
      SumOfSort(s[1..], le);
      SumOfInsert(s[0], Sort(s[1..], le), le);
    }
  }

  lemma {:induction false} PermutedDistinct(a: seq<CachedFile>, b: seq<CachedFile>)
    requires multiset(a) == multiset(b) && DistinctPaths(a)
    ensures DistinctPaths(b)
  {
    PermutationKeepsDistinct(a, b);
    forall i, j | 0 <= i < j < |b|
      ensures b[i].path != b[j].path
    {
      assert b[i] != b[j] && b[i] in multiset(b) && b[j] in multiset(b);
      assert b[i] in a && b[j] in a;
    }
  }

  lemma {:induction false} HalfwayStep(before: map<string, Stored>, now: map<string, Stored>, order: seq<CachedFile>, i: nat,
                                       kept: seq<CachedFile>)
    requires i < |order| && Halfway(before, now, order, i, kept)
    ensures Halfway(before, now, order, i + 1, kept + [order[i]])
    ensures Halfway(before, now - {order[i].path}, order, i + 1, kept)
  {
    var f := order[i];
    assert order[..i + 1] == order[..i] + [f];
    assert f in order && f !in order[..i];
    assert FileOf(before, f.path) == f;
    forall p | p in before && p != f.path
      ensures FileOf(before, p) in order[..i] <==> FileOf(before, p) in order[..i + 1]
    {
    }
  }

  lemma {:induction false} NoneYet(dir: map<string, Stored>, info: string -> bool, order: seq<CachedFile>)
    requires Lists(dir, info, order)
    ensures Halfway(dir, dir, order, 0, []) && Pruned(dir, dir, order, order)
  {
  }

  // ---------- after the fetch ----------

  /** A fetch of another goroutine: it may store this file. */
  datatype Fetch = Fetch(path: string, stored: Stored)

  /**
    What a later fetch does to the directory, when every file can be listed and removed: nothing, the removal of a
    file that does not verify, or a download that is stored, with or without the pruning behind it.
   */
  ghost predicate Fetches(before: map<string, Stored>, after: map<string, Stored>, f: Fetch, limit: int) {
    var added := before[f.path := f.stored];
    || after == before || after == before - {f.path} || after == added
    || exists order :: OldestFirst(added, p => true, order) && Pruned(added, after, order, Survivors(order, Sum(order), limit, p => false))
  }

  /** The directory after a fetch has stored `path`, and after each of the fetches of other paths that follow. */
  ghost predicate Following(dirs: seq<map<string, Stored>>, fetches: seq<Fetch>, path: string) {
    && |dirs| == |fetches| + 1
    && StrictlyNewest(dirs[0], path) && dirs[0][path].size <= DOWNLOAD_MAX_BYTES
    && forall i :: 0 <= i < |fetches| ==>
         fetches[i].path != path && fetches[i].stored.size <= DOWNLOAD_MAX_BYTES && Fetches(dirs[i], dirs[i + 1], fetches[i], CACHE_MAX_BYTES)
  }

  lemma {:induction false} SumOfSome(some: seq<CachedFile>, all: seq<CachedFile>)
    requires DistinctPaths(some) && forall f :: f in some ==> f in all
    ensures Sum(some) <= Sum(all)
    decreases |some|
  {
    if some != [] {
      var f := some[0];
      assert f in some;
      var j :| 0 <= j < |all| && all[j] == f;
      var rest := all[..j] + all[j + 1..];
      assert all == all[..j] + [f] + all[j + 1..];
      SumAppend(all[..j] + [f], all[j + 1..]);
      SumAppend(all[..j], [f]);
      SumAppend(all[..j], all[j + 1..]);
      assert Sum([f]) == f.size;
      forall g | g in some[1..]
        ensures g in rest
      {
        var i :| 0 <= i < |some| - 1 && some[1..][i] == g;
        assert some[i + 1] == g && g in some && g != f;
        var m :| 0 <= m < |all| && all[m] == g;
        assert rest[if m < j then m else m - 1] == g;
      }
      SumOfSome(some[1..], rest);
    }
  }

  /** Every other file that is not older than `path` is among `newer`. */
  ghost predicate NoOthersNewer(dir: map<string, Stored>, path: string, newer: seq<CachedFile>) {
    path in dir && forall q :: q in dir && q != path && dir[q].mtime >= dir[path].mtime ==> FileOf(dir, q) in newer
  }

  /** A file survives a pruning when it fits the limit together with the files that are not older. */
  lemma {:induction false} FitsWithNewer(dir: map<string, Stored>, after: map<string, Stored>, order: seq<CachedFile>,
                                         path: string,
                                         newer: seq<CachedFile>, limit: int)
    requires OldestFirst(dir, p => true, order) && Pruned(dir, after, order, Survivors(order, Sum(order), limit, p => false))
    requires NoOthersNewer(dir, path, newer) && dir[path].size + Sum(newer) <= limit
    ensures path in after
  {
    hide Sum, Survivors, Stuck, Kept, Pruned;
    var f := FileOf(dir, path);
    assert f in order;
    var k :| 0 <= k < |order| && order[k] == f;
    NewerBehind(dir, order, path, newer, k);
    SumOfSome(order[k + 1..], newer);
    assert order[k..] == [f] + order[k + 1..];
    SumAppend([f], order[k + 1..]);
    SumOfOne(f);
    NoStuckFiles(order[..k], p => false);
    SumOfNone();
    EvictionIsExact(order, limit, p => false);
    KeptIn(order, 0, limit, p => false, k);
    PrunedSpares(dir, after, order, Kept(order, 0, limit, p => false), path);
  }

  lemma {:induction false} SumOfOne(f: CachedFile)
    ensures Sum([f]) == f.size
  {
    assert [f][1..] == [];
  }

  lemma {:induction false} SumOfNone()
    ensures Sum([]) == 0
  {
  }

  lemma {:induction false} PrunedSpares(before: map<string, Stored>, after: map<string, Stored>, order: seq<CachedFile>,
                                        kept: seq<CachedFile>,
                                        path: string)
    requires Pruned(before, after, order, kept) && path in before && FileOf(before, path) in kept
    ensures path in after
  {
  }

  lemma {:induction false} NewerBehind(dir: map<string, Stored>, order: seq<CachedFile>, path: string,
                                       newer: seq<CachedFile>, k: nat)
    requires OldestFirst(dir, p => true, order) && NoOthersNewer(dir, path, newer) && k < |order| && order[k] == FileOf(dir, path)
    ensures DistinctPaths(order[k + 1..]) && forall f :: f in order[k + 1..] ==> f in newer
  {
    forall f | f in order[k + 1..]
      ensures f in newer
    {
      var i :| 0 <= i < |order| - k - 1 && order[k + 1..][i] == f;
      assert order[k + 1 + i] == f && f in order && Older(dir, order[k], order[k + 1 + i]);
    }
  }

  lemma {:induction false} OneMoreFetch(before: map<string, Stored>, after: map<string, Stored>, f: Fetch, path: string,
                                        newer: seq<CachedFile>, limit: int)
    requires Fetches(before, after, f, limit) && NoOthersNewer(before, path, newer) && f.path != path
    requires before[path].size + Sum(newer) + f.stored.size <= limit
    ensures NoOthersNewer(after, path, newer + [CachedFile(f.path, f.stored.size)]) && after[path] == before[path]
  {
    hide Sum, Survivors, OldestFirst;
    var added := before[f.path := f.stored];
    var more := newer + [CachedFile(f.path, f.stored.size)];
    SumAppend(newer, [CachedFile(f.path, f.stored.size)]);
    SumOfOne(CachedFile(f.path, f.stored.size));
    assert NoOthersNewer(added, path, more);
    if order :| OldestFirst(added, p => true, order) && Pruned(added, after, order, Survivors(order, Sum(order), limit, p => false)) {
      FitsWithNewer(added, after, order, path, more, limit);
    }
  }

  lemma {:induction false} StillThere(dirs: seq<map<string, Stored>>, fetches: seq<Fetch>, path: string,
                                      n: nat) returns (newer: seq<CachedFile>)
    requires Following(dirs, fetches, path) && n <= |fetches| && n <= 3
    ensures NoOthersNewer(dirs[n], path, newer) && Sum(newer) <= n * DOWNLOAD_MAX_BYTES && dirs[n][path] == dirs[0][path]
    decreases n
  {
    hide Fetches, Sum;
    if n == 0 {
      newer := [];
      SumOfNone();
    } else {
      var f := fetches[n - 1];
      newer := StillThere(dirs, fetches, path, n - 1);
      OneMoreFetch(dirs[n - 1], dirs[n], f, path, newer, CACHE_MAX_BYTES);
      SumAppend(newer, [CachedFile(f.path, f.stored.size)]);
      SumOfOne(CachedFile(f.path, f.stored.size));
      newer := newer + [CachedFile(f.path, f.stored.size)];
    }
  }

  // ---------- the fetch that takes it ----------

  /** File number `i`: as large as a download may be, and newer than the ones before. */
  function Name(i: nat): (s: string)
    ensures |s| == i
  {
    seq(i, k => 'x')
  }

  function Largest(from: nat, to: nat): map<string, Stored> {
    map s: string | s in (set i | from <= i < to :: Name(i)) :: Stored(DOWNLOAD_MAX_BYTES, |s|, "")
  }

  function InOrder(from: nat, to: nat): (files: seq<CachedFile>)
    requires from <= to
    ensures |files| == to - from && forall k :: 0 <= k < to - from ==> files[k] == CachedFile(Name(from + k), DOWNLOAD_MAX_BYTES)
  {
    seq(to - from, k requires 0 <= k => CachedFile(Name(from + k), DOWNLOAD_MAX_BYTES))
  }

  lemma {:induction false} LargestHas(from: nat, to: nat, s: string)
    ensures s in Largest(from, to) <==> from <= |s| < to && s == Name(|s|)
    ensures s in Largest(from, to) ==> Largest(from, to)[s] == Stored(DOWNLOAD_MAX_BYTES, |s|, "")
  {
    if from <= |s| < to && s == Name(|s|) {
      assert s in (set i | from <= i < to :: Name(i));
    }
  }

  lemma {:induction false} OrderOfLargest(from: nat, to: nat)
    requires from <= to
    ensures OldestFirst(Largest(from, to), p => true, InOrder(from, to))
  {
    hide Name, Largest;
    var dir, files := Largest(from, to), InOrder(from, to);
    forall s: string
      ensures s in dir <==> from <= |s| < to && s == Name(|s|)
      ensures s in dir ==> dir[s] == Stored(DOWNLOAD_MAX_BYTES, |s|, "")
    {
      LargestHas(from, to, s);
    }
    forall f
      ensures f in files <==> f.path in dir && f == FileOf(dir, f.path)
    {
      if f.path in dir && f == FileOf(dir, f.path) {
        assert files[|f.path| - from] == f;
      }
    }
  }

  lemma {:induction false} SumOfLargest(from: nat, n: nat)
    ensures Sum(InOrder(from, from + n)) == n * DOWNLOAD_MAX_BYTES
    decreases n
  {
    hide Name;
    if n > 0 {
      assert InOrder(from, from + n)[1..] == InOrder(from + 1, from + n);
      SumOfLargest(from + 1, n - 1);
    }
  }

  lemma {:induction false} AddLargest(from: nat, to: nat)
    requires from <= to
    ensures Largest(from, to)[Name(to) := Stored(DOWNLOAD_MAX_BYTES, to, "")] == Largest(from, to + 1)
  {
    hide Name, Largest;
    var one, two := Largest(from, to)[Name(to) := Stored(DOWNLOAD_MAX_BYTES, to, "")], Largest(from, to + 1);
    forall s: string
      ensures s in one <==> s in two
      ensures s in one ==> one[s] == two[s]
    {
      LargestHas(from, to, s);
      LargestHas(from, to + 1, s);
    }
    assert one.Keys == two.Keys;
  }

  /** While everything fits, a fetch adds its file; the one that fills more than the cache takes the oldest. */
  lemma {:induction false} LargestFetch(n: nat)
    requires 1 <= n <= 4
    ensures Fetches(Largest(0, n), if n < 4 then Largest(0, n + 1) else Largest(1, 5), Fetch(Name(n), Stored(DOWNLOAD_MAX_BYTES, n, "")),
                    CACHE_MAX_BYTES)
  {
    hide Name, Largest, OldestFirst, Lists;
    AddLargest(0, n);
    OrderOfLargest(0, n + 1);
    SumOfLargest(0, n + 1);
    var dir, order := Largest(0, n + 1), InOrder(0, n + 1);
    if n < 4 {
      AllFits(dir, order);
    } else {
      OldestGoes();
    }
  }

  lemma {:induction false} AllFits(dir: map<string, Stored>, order: seq<CachedFile>)
    requires OldestFirst(dir, p => true, order) && Sum(order) <= CACHE_MAX_BYTES
    ensures Pruned(dir, dir, order, Survivors(order, Sum(order), CACHE_MAX_BYTES, p => false))
  {
    hide Sum;
    NoneYet(dir, p => true, order);
  }

  lemma {:induction false} OldestGoes()
    ensures Pruned(Largest(0, 5), Largest(1, 5), InOrder(0, 5), Survivors(InOrder(0, 5), Sum(InOrder(0, 5)), CACHE_MAX_BYTES, p => false))
  {
    hide Name, Largest, Pruned, InOrder;
    var order := InOrder(0, 5);
    SumOfLargest(0, 5);
    SumOfLargest(1, 4);
    assert order[1..] == InOrder(1, 5);
    assert order[0].size == DOWNLOAD_MAX_BYTES;
    assert Survivors(order, Sum(order), CACHE_MAX_BYTES, p => false) == Survivors(order[1..], 4 * DOWNLOAD_MAX_BYTES, CACHE_MAX_BYTES, p => false);
    OldestPruned();
  }

  lemma {:induction false} OldestPruned()
    ensures Pruned(Largest(0, 5), Largest(1, 5), InOrder(0, 5), InOrder(1, 5))
  {
    hide Name, Largest, InOrder;
    var order, kept, before, after := InOrder(0, 5), InOrder(1, 5), Largest(0, 5), Largest(1, 5);
    forall s: string
      ensures s in before <==> |s| < 5 && s == Name(|s|)
      ensures s in after <==> 1 <= |s| < 5 && s == Name(|s|)
      ensures s in after ==> after[s] == before[s]
      ensures s in before ==> before[s].size == DOWNLOAD_MAX_BYTES
    {
      LargestHas(0, 5, s);
      LargestHas(1, 5, s);
    }
    forall s | s in before
      ensures CachedFile(s, before[s].size) in order
      ensures CachedFile(s, before[s].size) in kept <==> |s| >= 1
    {
      assert order[|s|] == CachedFile(s, before[s].size);
      if |s| >= 1 {
        assert kept[|s| - 1] == CachedFile(s, before[s].size);
      }
    }
  }

  /** A file that a fetch has just stored outlives every `n` fetches that follow it. */
  ghost predicate Outlives(n: nat) {
    forall dirs, fetches, path :: Following(dirs, fetches, path) && |fetches| == n ==> path in dirs[n]
  }

  /**
    The lock of the cache is given back before the archive is unpacked. With the default limits, and when files can be
    listed and removed, the file just stored is safe from exactly three fetches of others: the fourth can take it.
   */
  lemma {:induction false} SafeForThreeFetches(n: nat)
    ensures Outlives(n) <==> n <= 3
  {
    hide StrictlyNewest, Fetches;
    if n <= 3 {
      forall dirs, fetches, path | Following(dirs, fetches, path) && |fetches| == n
        ensures path in dirs[n]
      {
        var newer := StillThere(dirs, fetches, path, n);
      }
    } else {
      var dirs, fetches := TakenByTheFourth(n);
    }
  }

  lemma {:induction false} TakenByTheFourth(n: nat) returns (dirs: seq<map<string, Stored>>, fetches: seq<Fetch>)
    requires n >= 4
    ensures Following(dirs, fetches, Name(0)) && |fetches| == n && Name(0) !in dirs[n]
  {
    hide Name, Largest, Fetches;
    dirs := seq(n + 1, i requires i >= 0 => if i < 4 then Largest(0, i + 1) else Largest(1, 5));
    fetches := seq(n, i requires i >= 0 => Fetch(Name(i + 1), Stored(DOWNLOAD_MAX_BYTES, i + 1, "")));
    forall s: string
      ensures s in Largest(0, 1) <==> |s| == 0 && s == Name(0)
      ensures s in Largest(0, 1) ==> Largest(0, 1)[s] == Stored(DOWNLOAD_MAX_BYTES, 0, "")
      ensures s in Largest(1, 5) ==> |s| >= 1
    {
      LargestHas(0, 1, s);
      LargestHas(1, 5, s);
    }
    forall i | 0 <= i < n
      ensures Fetches(dirs[i], dirs[i + 1], fetches[i], CACHE_MAX_BYTES)
    {
      if i < 4 {
        LargestFetch(i + 1);
      } else {
        NothingDone(dirs[i], fetches[i]);
      }
    }
  }

  lemma {:induction false} NothingDone(dir: map<string, Stored>, f: Fetch)
    ensures Fetches(dir, dir, f, CACHE_MAX_BYTES)
  {
  }

  /** A file answered from the cache has no such time: one fetch can take it. */
  lemma {:induction false} HitCanBeTaken() returns (before: map<string, Stored>, after: map<string, Stored>, f: Fetch,
                                         path: string)
    ensures path in before && path !in after && f.path != path && f.stored.size <= DOWNLOAD_MAX_BYTES
    ensures Fetches(before, after, f, CACHE_MAX_BYTES)
  {
    hide Fetches, Largest, Name;
    before, after, f, path := Largest(0, 4), Largest(1, 5), Fetch(Name(4), Stored(DOWNLOAD_MAX_BYTES, 4, "")), Name(0);
    LargestFetch(4);
    LargestHas(0, 4, path);
    LargestHas(1, 5, path);
  }
}
