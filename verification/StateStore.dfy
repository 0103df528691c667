/** The list of installed modules on disk, as a refinement of a map from keys to records. */
module StateStore {
  import opened GoStrings
  import opened Outcomes
  import opened Ordering
  import opened OperationRecords
  import opened RpcService

  datatype Capabilities = Capabilities(install: bool, restart: bool, uninstall: bool, migration: bool, bootstrap: bool, nginx: bool)

  /** `texts` are the fields that are only trimmed: version, service name, the four paths, endpoint. */
  datatype InstalledModule = InstalledModule(
    module_: string, runtime: string, apiVersion: string, texts: seq<string>, assetPaths: seq<string>,
    status: string, health: string, observedAt: string, schema: string, capabilities: Capabilities)

  const SCHEMA_V1 := "aurora.installer.bundle.v1"

  function NormalizeApiVersion(raw: string): string {
    if SupportedVersion(raw) then RPC_VERSION else ""
  }

  function NormalizeSchema(raw: string): string {
    var key := ToLower(TrimSpace(raw));
    if key == SCHEMA_V1 || key == "v1" then SCHEMA_V1 else ""
  }

  function NormalizeStatus(raw: string): string {
    var key := ToLower(TrimSpace(raw));
    if key == "" || key == "unknown" then "unknown"
    else if key == "running" || key == "restarted" || key == "applied" || key == "installed" then "installed"
    else if key == "installing" then "installing"
    else if key == "failed" then "failed"
    else TrimSpace(raw)
  }

  function NormalizeCapabilities(c: Capabilities): Capabilities {
    if c == Capabilities(false, false, false, false, false, false) then Capabilities(true, true, true, false, false, false) else c
  }

  function TrimAll(texts: seq<string>): (r: seq<string>)
    ensures |r| == |texts| && forall i :: 0 <= i < |texts| ==> r[i] == TrimSpace(texts[i])
  {
    seq(|texts|, i requires 0 <= i < |texts| => TrimSpace(texts[i]))
  }

  /** Trimmed paths, blank ones dropped, the first of equal ones kept. */
  function NormalizePaths(paths: seq<string>): (r: seq<string>) {
    if paths == [] then []
    else
      var before := NormalizePaths(paths[..|paths| - 1]);
      var last := TrimSpace(paths[|paths| - 1]);
      if last == "" || last in before then before else before + [last]
  }

  /** `now` stamps a record that has no observation time. */
  function Normalize(r: InstalledModule, now: string): InstalledModule {
    InstalledModule(
      TrimSpace(r.module_), TrimSpace(r.runtime), NormalizeApiVersion(r.apiVersion), TrimAll(r.texts), NormalizePaths(r.assetPaths),
      NormalizeStatus(r.status), NormalizeHealth(r.health),
      if TrimSpace(r.observedAt) == "" then now else TrimSpace(r.observedAt),
      NormalizeSchema(r.schema), NormalizeCapabilities(r.capabilities))
  }

  function Key(module_: string, runtime: string): string {
    TrimSpace(module_) + "|" + TrimSpace(runtime)
  }

  function KeyOf(r: InstalledModule): string {
    Key(r.module_, r.runtime)
  }

  // ---------- normalisation settles ----------

  /** Normalising changes nothing any more, whatever the clock says. */
  ghost predicate StaysNormal(r: InstalledModule) {
    forall now :: Normalize(r, now) == r
  }

  lemma {:induction false} ApiVersionSettles(raw: string)
    ensures NormalizeApiVersion(NormalizeApiVersion(NormalizeApiVersion(raw))) == NormalizeApiVersion(NormalizeApiVersion(raw))
    ensures NormalizeApiVersion(NormalizeApiVersion(raw)) == NormalizeApiVersion(raw) <==> SupportedVersion(raw)
  {
    assert |RPC_VERSION| == 23 && RPC_VERSION[0] == 'a' && RPC_VERSION[22] == '1';
    TrimCleanText(RPC_VERSION, IsSpace);
    assert TrimSpace("") == "";
  }

  lemma {:induction false} SchemaWord()
    ensures TrimSpace(SCHEMA_V1) == SCHEMA_V1 && ToLower(SCHEMA_V1) == SCHEMA_V1
  {
    assert |SCHEMA_V1| == 26 && SCHEMA_V1[0] == 'a' && SCHEMA_V1[25] == '1';
    TrimCleanText(SCHEMA_V1, IsSpace);
    assert forall i :: 0 <= i < 26 ==> LowerChar(SCHEMA_V1[i]) == SCHEMA_V1[i];
  }

  lemma {:induction false} EmptyWord()
    ensures TrimSpace("") == "" && ToLower("") == ""
  {
  }

  lemma {:induction false} SchemaSettles(raw: string)
    ensures NormalizeSchema(NormalizeSchema(raw)) == NormalizeSchema(raw)
  {
    hide TrimSpace, ToLower;
    SchemaWord();
    EmptyWord();
    assert |SCHEMA_V1| == 26 && |"v1"| == 2;
  }

  predicate IsStatusWord(w: string) {
    w == "unknown" || w == "installed" || w == "installing" || w == "failed"
  }

  lemma {:induction false} StatusSettles(raw: string)
    ensures NormalizeStatus(NormalizeStatus(raw)) == NormalizeStatus(raw)
  {
    hide TrimSpace, ToLower;
    var s := NormalizeStatus(raw);
    TrimSpaceIdempotent(raw);
    if IsStatusWord(s) {
      LetterWordIsFixed(s);
    }
  }

  lemma {:induction false} PathsAreNormal(paths: seq<string>)
    ensures forall i :: 0 <= i < |NormalizePaths(paths)| ==>
      NormalizePaths(paths)[i] != "" && TrimSpace(NormalizePaths(paths)[i]) == NormalizePaths(paths)[i]
    ensures Distinct(NormalizePaths(paths))
  {
    hide TrimSpace;
    if paths != [] {
      PathsAreNormal(paths[..|paths| - 1]);
      TrimSpaceIdempotent(paths[|paths| - 1]);
    }
  }

  lemma {:induction false} NormalPathsStay(paths: seq<string>)
    requires forall i :: 0 <= i < |paths| ==> paths[i] != "" && TrimSpace(paths[i]) == paths[i]
    requires Distinct(paths)
    ensures NormalizePaths(paths) == paths
  {
    hide TrimSpace;
    if paths != [] {
      var n := |paths| - 1;
      NormalPathsStay(paths[..n]);
      assert paths == paths[..n] + [paths[n]];
    }
  }

  /** Twice is enough for every record; once is enough exactly for a supported API version. */
  lemma {:induction false} NormalizeSettles(r: InstalledModule, t1: string, t2: string)
    requires t1 != "" && TrimSpace(t1) == t1
    ensures StaysNormal(Normalize(Normalize(r, t1), t2))
    ensures StaysNormal(Normalize(r, t1)) <==> SupportedVersion(r.apiVersion)
    ensures KeyOf(Normalize(r, t1)) == KeyOf(r)
  {
    hide TrimSpace, NormalizeApiVersion, NormalizeStatus, NormalizeHealth, NormalizeSchema, SupportedVersion;
    TrimSpaceIdempotent(r.module_);
    TrimSpaceIdempotent(r.runtime);
    TrimSpaceIdempotent(r.observedAt);
    ApiVersionSettles(r.apiVersion);
    StatusSettles(r.status);
    NormalizeHealthIdempotent(r.health);
    SchemaSettles(r.schema);
    PathsAreNormal(r.assetPaths);
    NormalPathsStay(NormalizePaths(r.assetPaths));
    forall i | 0 <= i < |r.texts|
      ensures TrimSpace(TrimSpace(r.texts[i])) == TrimSpace(r.texts[i])
    {
      TrimSpaceIdempotent(r.texts[i]);
    }
    assert TrimAll(TrimAll(r.texts)) == TrimAll(r.texts);
    var once := Normalize(r, t1);
    var twice := Normalize(once, t2);
    assert twice == once.(apiVersion := NormalizeApiVersion(once.apiVersion));
    forall now
      ensures Normalize(twice, now) == twice
      ensures Normalize(once, now) == once.(apiVersion := NormalizeApiVersion(once.apiVersion))
    {
    }
    assert StaysNormal(once) ==> Normalize(once, "") == once;
  }

  // ---------- what normalisation keeps ----------

  /** The words a status may be written in. */
  lemma {:induction false} StatusWords(raw: string)
    ensures var word := ToLower(TrimSpace(raw));
      && (word in ["", "unknown"] ==> NormalizeStatus(raw) == "unknown")
      && (word in ["running", "restarted", "applied", "installed"] ==> NormalizeStatus(raw) == "installed")
      && (word == "installing" ==> NormalizeStatus(raw) == "installing")
      && (word == "failed" ==> NormalizeStatus(raw) == "failed")
      && (word !in ["", "unknown", "running", "restarted", "applied", "installed", "installing", "failed"] ==>
            NormalizeStatus(raw) == TrimSpace(raw))
  {
    hide TrimSpace, ToLower;
  }

  /** The asset paths kept are the trimmed nonblank ones, each at its first place. */
  lemma {:induction false} PathsKept(paths: seq<string>, p: string)
    ensures p in NormalizePaths(paths) <==> p != "" && exists i :: 0 <= i < |paths| && TrimSpace(paths[i]) == p
    ensures forall n :: 0 <= n <= |paths| ==> NormalizePaths(paths[..n]) <= NormalizePaths(paths)
  {
    hide TrimSpace;
    if paths != [] {
      var n := |paths| - 1;
      var before := paths[..n];
      PathsKept(before, p);
      assert forall i :: 0 <= i < n ==> before[i] == paths[i];
      assert (exists i :: 0 <= i < |paths| && TrimSpace(paths[i]) == p) <==>
        (exists i :: 0 <= i < n && TrimSpace(before[i]) == p) || TrimSpace(paths[n]) == p;
      forall k | 0 <= k <= |paths|
        ensures NormalizePaths(paths[..k]) <= NormalizePaths(paths)
      {
        if k <= n {
          assert before[..k] == paths[..k];
        } else {
          assert paths[..k] == paths;
        }
      }
    }
  }

  /**
    Field by field: texts are trimmed, a served API version and a known schema are spelled out and others dropped,
    no capability at all means install, restart and uninstall, and a record without a time gets the present one.
   */
  lemma {:induction false} NormalizedFields(r: InstalledModule, now: string)
    ensures var n := Normalize(r, now);
      && n.module_ == TrimSpace(r.module_) && n.runtime == TrimSpace(r.runtime)
      && |n.texts| == |r.texts| && (forall i :: 0 <= i < |r.texts| ==> n.texts[i] == TrimSpace(r.texts[i]))
      && n.apiVersion == (if TrimSpace(r.apiVersion) in ["", "aurora.installer.rpc.v1"] then "aurora.installer.rpc.v1" else "")
      && n.schema == (if ToLower(TrimSpace(r.schema)) in ["v1", "aurora.installer.bundle.v1"] then "aurora.installer.bundle.v1" else "")
      && n.observedAt == (if TrimSpace(r.observedAt) != "" then TrimSpace(r.observedAt) else now)
      && n.health == NormalizeHealth(r.health) && n.status == NormalizeStatus(r.status) && n.assetPaths == NormalizePaths(r.assetPaths)
      && (r.capabilities != Capabilities(false, false, false, false, false, false) ==> n.capabilities == r.capabilities)
      && (r.capabilities == Capabilities(false, false, false, false, false, false) ==>
            n.capabilities == Capabilities(true, true, true, false, false, false))
  {
    hide TrimSpace, ToLower, NormalizeHealth, NormalizeStatus, NormalizePaths;
  }

  // ---------- keys ----------

  /** A trimmed runtime that ends in the separator and another one, with a name that can end there in front. */
  predicate Shadows(r1: string, r2: string) {
    var n := |r1| - |r2| - 1;
    && n >= 0 && r1[n] == '|' && r1[n + 1..] == r2
    && (n > 0 ==> !IsSpace(r1[n - 1]))
  }

  lemma {:induction false} EqualKeys(a: string, r1: string, b: string, r2: string)
    requires a + "|" + r1 == b + "|" + r2 && CleanEnds(a, IsSpace) && CleanEnds(b, IsSpace)
    ensures (a == b && r1 == r2) || Shadows(r1, r2) || Shadows(r2, r1)
  {
    hide IsSpace;
    var k := a + "|" + r1;
    assert k == b + "|" + r2;
    assert k[..|a|] == a && k[..|b|] == b;
    assert k[|a| + 1..] == r1 && k[|b| + 1..] == r2;
    if |a| < |b| {
      EqualKeysLonger(k, a, r1, b, r2);
    } else if |b| < |a| {
      EqualKeysLonger(k, b, r2, a, r1);
    }
  }

  lemma {:induction false} EqualKeysLonger(k: string, a: string, r1: string, b: string, r2: string)
    requires |a| < |b| && k == a + "|" + r1 && k == b + "|" + r2 && CleanEnds(b, IsSpace)
    ensures Shadows(r1, r2)
  {
    hide IsSpace;
    var n := |b| - |a| - 1;
    assert forall i :: 0 <= i < |r1| ==> r1[i] == k[|a| + 1 + i];
    assert forall i :: 0 <= i < |r2| ==> r2[i] == k[|b| + 1 + i];
    assert k[|b|] == '|';
    assert r1[n + 1..] == r2;
    if n > 0 {
      assert r1[n - 1] == k[|b| - 1] == b[|b| - 1];
    }
  }

  /**
    Keys of two runtimes tell all modules apart exactly when neither runtime shadows the other.
   */
  lemma {:induction false} KeyTellsApart(r1: string, r2: string)
    ensures KeysTellApart(r1, r2) <==> !Shadows(TrimSpace(r1), TrimSpace(r2)) && !Shadows(TrimSpace(r2), TrimSpace(r1))
  {
    hide Trim, Shadows;
    var x, y := TrimSpace(r1), TrimSpace(r2);
    TrimIsMiddle(r1, IsSpace);
    TrimIsMiddle(r2, IsSpace);
    if Shadows(x, y) {
      ShadowedKey(r1, r2);
    } else if Shadows(y, x) {
      ShadowedKey(r2, r1);
    } else {
      forall m1, m2 | Key(m1, r1) == Key(m2, r2)
        ensures TrimSpace(m1) == TrimSpace(m2) && x == y
      {
        TrimIsMiddle(m1, IsSpace);
        TrimIsMiddle(m2, IsSpace);
        EqualKeys(TrimSpace(m1), x, TrimSpace(m2), y);
      }
    }
  }

  /** Under runtimes without the separator two keys are equal exactly when module and runtime are, whatever the names hold. */
  lemma {:induction false} SameKeySameModule(m1: string, r1: string, m2: string, r2: string)
    requires '|' !in TrimSpace(r1) && '|' !in TrimSpace(r2)
    ensures Key(m1, r1) == Key(m2, r2) <==> TrimSpace(m1) == TrimSpace(m2) && TrimSpace(r1) == TrimSpace(r2)
  {
    hide TrimSpace, Shadows;
    KeyTellsApart(r1, r2);
    ShadowHasSeparator(TrimSpace(r1), TrimSpace(r2));
    ShadowHasSeparator(TrimSpace(r2), TrimSpace(r1));
  }

  /** The program passes one runtime only: its keys tell modules apart by their trimmed names. */
  lemma {:induction false} ProgramKeys(m1: string, m2: string)
    ensures Key(m1, RUNTIME) == Key(m2, RUNTIME) <==> TrimSpace(m1) == TrimSpace(m2)
  {
    hide TrimSpace, Key;
    RuntimeIsPlain();
    SameKeySameModule(m1, RUNTIME, m2, RUNTIME);
  }

  lemma {:induction false} RuntimeIsPlain()
    ensures '|' !in TrimSpace(RUNTIME)
  {
    assert |RUNTIME| == 13 && RUNTIME[0] == 'l' && RUNTIME[12] == 'd';
    TrimCleanText(RUNTIME, IsSpace);
    hide TrimSpace;
    assert forall i :: 0 <= i < |RUNTIME| ==> RUNTIME[i] != '|';
  }

  lemma {:induction false} ShadowHasSeparator(r1: string, r2: string)
    ensures Shadows(r1, r2) ==> '|' in r1
  {
  }

  /** Equal keys under these two runtimes always mean the same module and the same runtime. */
  ghost predicate KeysTellApart(r1: string, r2: string) {
    forall m1, m2 :: Key(m1, r1) == Key(m2, r2) ==> TrimSpace(m1) == TrimSpace(m2) && TrimSpace(r1) == TrimSpace(r2)
  }

  lemma {:induction false} ShadowedKey(r1: string, r2: string)
    requires Shadows(TrimSpace(r1), TrimSpace(r2))
    ensures !KeysTellApart(r1, r2) && !KeysTellApart(r2, r1)
  {
    hide Trim, IsSpace;
    var x, y := TrimSpace(r1), TrimSpace(r2);
    var n := |x| - |y| - 1;
    var m1, m2 := "a", "a|" + x[..n];
    assert |"a"| == 1 && |"a|"| == 2;
    LetterIsNoSpace();
    assert m2[|m2| - 1] == if n > 0 then x[n - 1] else '|';
    CleanWord(m1);
    CleanWord(m2);
    assert x == x[..n] + "|" + y;
    assert "a" + "|" + x == m2 + "|" + y;
    assert Key(m1, r1) == Key(m2, r2);
    assert |x| != |y|;
  }

  lemma {:induction false} LetterIsNoSpace()
    ensures !IsSpace('a') && !IsSpace('|')
  {
  }

  lemma {:induction false} CleanWord(w: string)
    requires CleanEnds(w, IsSpace)
    ensures TrimSpace(w) == w
  {
    TrimCleanText(w, IsSpace);
  }

  // ---------- the map a list stands for ----------

  predicate UniqueKeys(items: seq<InstalledModule>) {
    forall i, j :: 0 <= i < j < |items| ==> KeyOf(items[i]) != KeyOf(items[j])
  }

  ghost predicate AllNormal(items: seq<InstalledModule>) {
    forall i :: 0 <= i < |items| ==> StaysNormal(items[i])
  }

  /** What every save leaves behind: one record a key, all of them settled. */
  ghost predicate WellKept(items: seq<InstalledModule>) {
    UniqueKeys(items) && AllNormal(items)
  }

  function Contents(items: seq<InstalledModule>): map<string, InstalledModule> {
    if items == [] then map[]
    else Contents(items[..|items| - 1])[KeyOf(items[|items| - 1]) := items[|items| - 1]]
  }

  lemma {:induction false} ContentsHas(items: seq<InstalledModule>, k: string)
    ensures k in Contents(items) <==> exists i :: 0 <= i < |items| && KeyOf(items[i]) == k
    ensures UniqueKeys(items) ==> forall i :: 0 <= i < |items| && KeyOf(items[i]) == k ==> Contents(items)[k] == items[i]
  {
    hide KeyOf;
    if items != [] {
      var n := |items| - 1;
      ContentsHas(items[..n], k);
      if k in Contents(items[..n]) {
        var i :| 0 <= i < n && KeyOf(items[..n][i]) == k;
        assert items[i] == items[..n][i];
      }
      forall i | 0 <= i < |items| && KeyOf(items[i]) == k && i < n
        ensures k in Contents(items[..n])
      {
        assert items[..n][i] == items[i];
      }
    }
  }

  lemma {:induction false} SameContents(items: seq<InstalledModule>, m: map<string, InstalledModule>)
    requires UniqueKeys(items)
    requires forall i :: 0 <= i < |items| ==> KeyOf(items[i]) in m && m[KeyOf(items[i])] == items[i]
    requires forall k :: k in m ==> exists i :: 0 <= i < |items| && KeyOf(items[i]) == k
    ensures Contents(items) == m
  {
    hide KeyOf, Contents;
    forall k
      ensures k in Contents(items) <==> k in m
      ensures k in m ==> Contents(items)[k] == m[k]
    {
      ContentsHas(items, k);
    }
  }

  lemma {:induction false} UpdateAt(items: seq<InstalledModule>, i: nat, r: InstalledModule)
    requires UniqueKeys(items) && i < |items| && KeyOf(r) == KeyOf(items[i])
    ensures UniqueKeys(items[i := r]) && Contents(items[i := r]) == Contents(items)[KeyOf(r) := r]
  {
    hide KeyOf, Contents;
    var more := items[i := r];
    var m := Contents(items)[KeyOf(r) := r];
    forall j | 0 <= j < |more|
      ensures KeyOf(more[j]) in m && m[KeyOf(more[j])] == more[j]
    {
      ContentsHas(items, KeyOf(items[j]));
    }
    forall k | k in m
      ensures exists j :: 0 <= j < |more| && KeyOf(more[j]) == k
    {
      ContentsHas(items, k);
      if k == KeyOf(r) {
        assert KeyOf(more[i]) == k;
      } else {
        var j :| 0 <= j < |items| && KeyOf(items[j]) == k;
        assert KeyOf(more[j]) == k;
      }
    }
    SameContents(more, m);
  }

  lemma {:induction false} AppendNew(items: seq<InstalledModule>, r: InstalledModule)
    requires UniqueKeys(items) && forall i :: 0 <= i < |items| ==> KeyOf(items[i]) != KeyOf(r)
    ensures UniqueKeys(items + [r]) && Contents(items + [r]) == Contents(items)[KeyOf(r) := r]
  {
    assert (items + [r])[..|items|] == items;
  }

  function Others(items: seq<InstalledModule>, key: string): (r: seq<InstalledModule>) {
    if items == [] then []
    else
      var before := Others(items[..|items| - 1], key);
      if KeyOf(items[|items| - 1]) == key then before else before + [items[|items| - 1]]
  }

  lemma {:induction false} UpdateThenRemove<K, V>(m: map<K, V>, k: K, v: V, key: K)
    ensures m[k := v] - {key} == if k == key then m - {key} else (m - {key})[k := v]
  {
  }

  lemma {:induction false} OthersAreItems(items: seq<InstalledModule>, key: string)
    ensures forall r :: r in Others(items, key) ==> r in items && KeyOf(r) != key
  {
    hide KeyOf;
    if items != [] {
      OthersAreItems(items[..|items| - 1], key);
    }
  }

  lemma {:induction false} OthersRemove(items: seq<InstalledModule>, key: string)
    requires UniqueKeys(items)
    ensures UniqueKeys(Others(items, key)) && Contents(Others(items, key)) == Contents(items) - {key}
  {
    if items != [] {
      var n := |items| - 1;
      OthersRemove(items[..n], key);
      UpdateThenRemove(Contents(items[..n]), KeyOf(items[n]), items[n], key);
      OthersNewKey(items, key);
      if KeyOf(items[n]) != key {
        AppendNew(Others(items[..n], key), items[n]);
      }
    }
  }

  lemma {:induction false} OthersNewKey(items: seq<InstalledModule>, key: string)
    requires UniqueKeys(items) && items != []
    ensures var before := Others(items[..|items| - 1], key);
      forall i :: 0 <= i < |before| ==> KeyOf(before[i]) != KeyOf(items[|items| - 1])
  {
    hide KeyOf, Others;
    var n := |items| - 1;
    var before := Others(items[..n], key);
    OthersAreItems(items[..n], key);
    forall i | 0 <= i < |before|
      ensures KeyOf(before[i]) != KeyOf(items[n])
    {
      assert before[i] in items[..n];
      var j :| 0 <= j < n && items[..n][j] == before[i];
      assert items[j] == before[i];
    }
  }

  // ---------- the store ----------

  function NormalizeItems(items: seq<InstalledModule>, now: string): (r: seq<InstalledModule>)
    ensures |r| == |items| && forall i :: 0 <= i < |items| ==> r[i] == Normalize(items[i], now)
  {
    seq(|items|, i requires 0 <= i < |items| => Normalize(items[i], now))
  }

  lemma {:induction false} SettledItemsStay(items: seq<InstalledModule>, now: string)
    requires AllNormal(items)
    ensures NormalizeItems(items, now) == items
  {
  }

  predicate ClockText(now: string) {
    now != "" && TrimSpace(now) == now
  }

  /** Whether the read and the write of one operation work, and the clock texts it sees. */
  datatype StoreIO = StoreIO(readOk: bool, writeOk: bool, now: string, later: string)

  predicate RecordLeq(a: InstalledModule, b: InstalledModule) {
    if a.module_ == b.module_ then StringLeq(a.runtime, b.runtime) else StringLeq(a.module_, b.module_)
  }

  class Store {
    var disk: seq<InstalledModule>

    constructor ()
      ensures disk == [] && WellKept(disk)
    {
      disk := [];
    }

    method Load(io: StoreIO) returns (r: Result<seq<InstalledModule>, string>)
      ensures r == if io.readOk then Ok(NormalizeItems(disk, io.now)) else Err("read installed modules state failed")
    {
      if !io.readOk {
        return Err("read installed modules state failed");
      }
      var items := NormalizeLoop(disk, io.now);
      return Ok(items);
    }

    method Save(items: seq<InstalledModule>, io: StoreIO) returns (ok: bool)
      modifies this`disk
      ensures ok == io.writeOk
      ensures disk == if ok then NormalizeItems(items, io.later) else old(disk)
    {
      var normal := NormalizeLoop(items, io.later);
      ok := io.writeOk;
      if ok {
        disk := normal;
      }
    }

    method GetInstalledModule(module_: string, runtime: string, io: StoreIO) returns (r: Result<Option<InstalledModule>, string>)
      requires WellKept(disk)
      ensures r.Err? <==> !io.readOk
      ensures r.Ok? ==> r.value == if Key(module_, runtime) in Contents(disk) then Some(Contents(disk)[Key(module_, runtime)]) else None
    {
      hide *;
      var loaded := Load(io);
      if loaded.Err? {
        return Err(loaded.error);
      }
      var items := loaded.value;
      KeptStays(disk, io.now);
      var key := Key(module_, runtime);
      for i := 0 to |items|
        invariant forall j :: 0 <= j < i ==> KeyOf(items[j]) != key
      {
        if KeyOf(items[i]) == key {
          FoundAt(items, i);
          StaysAt(items, i, io.now);
          return Ok(Some(Normalize(items[i], io.now)));
        }
      }
      NotFound(items, key);
      return Ok(None);
    }

    /** `upsertInstalledModule`: one record is replaced in place or appended, then everything is written. */
    method UpsertInstalledModule(record: InstalledModule, io: StoreIO) returns (ok: bool)
      requires WellKept(disk) && ClockText(io.now)
      modifies this`disk
      ensures ok <==> io.readOk && io.writeOk
      ensures WellKept(disk)
      ensures Contents(disk) == if ok then old(Contents(disk))[KeyOf(record) := Normalize(Normalize(record, io.now), io.later)]
                                else old(Contents(disk))
    {
      hide KeyOf, Contents, StaysNormal, Normalize;
      var loaded := Load(io);
      if loaded.Err? {
        return false;
      }
      var items := loaded.value;
      SettledItemsStay(disk, io.now);
      var key := KeyOf(record);
      ghost var entry := Normalize(record, io.now);
      NormalizeSettles(record, io.now, io.later);
      var replaced := false;
      var i := 0;
      while i < |items| && !replaced
        invariant i <= |items| && |items| == |disk|
        invariant !replaced ==> items == disk && forall j :: 0 <= j < i ==> KeyOf(items[j]) != key
        invariant replaced ==> i > 0 && KeyOf(disk[i - 1]) == key && items == disk[i - 1 := entry]
      {
        if KeyOf(items[i]) == key {
          items := items[i := Normalize(record, io.now)];
          replaced := true;
        }
        i := i + 1;
      }
      if replaced {
        SavedUpdate(disk, i - 1, record, io);
      } else {
        items := items + [Normalize(record, io.now)];
        SavedAppend(disk, record, io);
      }
      ok := Save(items, io);
    }

    /** `removeInstalledModule`: the loaded slice is compacted in place, then its front is written. */
    method RemoveInstalledModule(module_: string, runtime: string, io: StoreIO) returns (ok: bool)
      requires WellKept(disk)
      modifies this`disk
      ensures ok <==> io.readOk && io.writeOk
      ensures WellKept(disk)
      ensures Contents(disk) == if ok then old(Contents(disk)) - {Key(module_, runtime)} else old(Contents(disk))
    {
      hide *;
      var loaded := Load(io);
      if loaded.Err? {
        return false;
      }
      KeptStays(disk, io.now);
      ghost var before := loaded.value;
      var key := Key(module_, runtime);
      var items := new InstalledModule[|loaded.value|](i requires 0 <= i < |loaded.value| => loaded.value[i]);
      assert items[..] == before;
      var n := Compact(items, key);
      OthersKept(before, key);
      KeptStays(Others(before, key), io.later);
      ok := Save(items[..n], io);
    }

    method ListInstalledModules(io: StoreIO) returns (r: Result<seq<InstalledModule>, string>)
      requires WellKept(disk)
      ensures r.Err? <==> !io.readOk
      ensures r.Ok? ==> multiset(r.value) == multiset(disk)
      ensures r.Ok? ==> forall i, j :: 0 <= i < j < |r.value| ==>
        if r.value[i].module_ == r.value[j].module_ then StringLeq(r.value[i].runtime, r.value[j].runtime)
        else StringLeq(r.value[i].module_, r.value[j].module_)
    {
      hide StaysNormal;
      var loaded := Load(io);
      if loaded.Err? {
        return loaded;
      }
      SettledItemsStay(disk, io.now);
      RecordOrder();
      SortSorts(loaded.value, RecordLeq);
      SortPermutes(loaded.value, RecordLeq);
      return Ok(Sort(loaded.value, RecordLeq));
    }
  }

  method NormalizeLoop(items: seq<InstalledModule>, now: string) returns (r: seq<InstalledModule>)
    ensures r == NormalizeItems(items, now)
  {
    hide Normalize;
    r := items;
    for i := 0 to |items|
      invariant |r| == |items|
      invariant forall j :: 0 <= j < i ==> r[j] == Normalize(items[j], now)
      invariant forall j :: i <= j < |items| ==> r[j] == items[j]
    {
      r := r[i := Normalize(r[i], now)];
    }
  }

  /** Keep the records with another key, moving them to the front of the same array. */
  method Compact(items: array<InstalledModule>, key: string) returns (n: nat)
    modifies items
    ensures n <= items.Length && items[..n] == Others(old(items[..]), key)
  {
    hide KeyOf;
    n := 0;
    ghost var before := items[..];
    for i := 0 to items.Length
      invariant n <= i && forall k :: i <= k < items.Length ==> items[k] == before[k]
      invariant items[..n] == Others(before[..i], key)
    {
      assert before[..i + 1][..i] == before[..i];
      var item := items[i];
      assert item == before[i];
      if KeyOf(item) == key {
        continue;
      }
      ghost var kept := items[..n];
      items[n] := item;
      assert items[..n + 1] == kept + [item];
      n := n + 1;
    }
    assert before[..items.Length] == before;
  }

  lemma {:induction false} KeptStays(items: seq<InstalledModule>, now: string)
    requires WellKept(items)
    ensures NormalizeItems(items, now) == items
  {
    SettledItemsStay(items, now);
  }

  lemma {:induction false} StaysAt(items: seq<InstalledModule>, i: nat, now: string)
    requires WellKept(items) && i < |items|
    ensures Normalize(items[i], now) == items[i]
  {
    assert StaysNormal(items[i]);
  }

  lemma {:induction false} FoundAt(items: seq<InstalledModule>, i: nat)
    requires WellKept(items) && i < |items|
    ensures KeyOf(items[i]) in Contents(items) && Contents(items)[KeyOf(items[i])] == items[i]
  {
    hide KeyOf, Contents;
    ContentsHas(items, KeyOf(items[i]));
  }

  lemma {:induction false} NotFound(items: seq<InstalledModule>, key: string)
    requires forall i :: 0 <= i < |items| ==> KeyOf(items[i]) != key
    ensures key !in Contents(items)
  {
    hide KeyOf, Contents;
    ContentsHas(items, key);
  }

  lemma {:induction false} OthersKept(items: seq<InstalledModule>, key: string)
    requires WellKept(items)
    ensures WellKept(Others(items, key)) && Contents(Others(items, key)) == Contents(items) - {key}
  {
    hide KeyOf, Contents, StaysNormal, Others;
    OthersRemove(items, key);
    OthersAreItems(items, key);
    var rest := Others(items, key);
    forall i | 0 <= i < |rest|
      ensures StaysNormal(rest[i])
    {
      assert rest[i] in items;
    }
  }

  lemma {:induction false} SavedUpdate(disk: seq<InstalledModule>, i: nat, record: InstalledModule, io: StoreIO)
    requires WellKept(disk) && ClockText(io.now) && i < |disk| && KeyOf(disk[i]) == KeyOf(record)
    ensures var saved := NormalizeItems(disk[i := Normalize(record, io.now)], io.later);
      WellKept(saved) && Contents(saved) == Contents(disk)[KeyOf(record) := Normalize(Normalize(record, io.now), io.later)]
  {
    hide KeyOf, Contents, StaysNormal, Normalize;
    var twice := Normalize(Normalize(record, io.now), io.later);
    var saved := NormalizeItems(disk[i := Normalize(record, io.now)], io.later);
    NormalizeSettles(record, io.now, io.later);
    KeyKept(record, io.now);
    KeyKept(Normalize(record, io.now), io.later);
    SettledItemsStay(disk, io.later);
    assert saved == disk[i := twice];
    UpdateAt(disk, i, twice);
  }

  lemma {:induction false} SavedAppend(disk: seq<InstalledModule>, record: InstalledModule, io: StoreIO)
    requires WellKept(disk) && ClockText(io.now) && forall i :: 0 <= i < |disk| ==> KeyOf(disk[i]) != KeyOf(record)
    ensures var saved := NormalizeItems(disk + [Normalize(record, io.now)], io.later);
      WellKept(saved) && Contents(saved) == Contents(disk)[KeyOf(record) := Normalize(Normalize(record, io.now), io.later)]
  {
    hide KeyOf, Contents, StaysNormal, Normalize;
    var twice := Normalize(Normalize(record, io.now), io.later);
    var saved := NormalizeItems(disk + [Normalize(record, io.now)], io.later);
    NormalizeSettles(record, io.now, io.later);
    KeyKept(record, io.now);
    KeyKept(Normalize(record, io.now), io.later);
    SettledItemsStay(disk, io.later);
    assert saved == disk + [twice];
    AppendNew(disk, twice);
  }

  lemma {:induction false} KeyKept(r: InstalledModule, now: string)
    ensures KeyOf(Normalize(r, now)) == KeyOf(r)
  {
    hide TrimSpace;
    TrimSpaceIdempotent(r.module_);
    TrimSpaceIdempotent(r.runtime);
  }

  lemma {:induction false} RecordOrder()
    ensures TotalOrder(RecordLeq)
  {
    StringOrder();
  }

  // ---------- overlapping operations ----------

  /** The list an upsert writes, from the list it has read. */
  function Upserted(items: seq<InstalledModule>, r: InstalledModule, i: nat): seq<InstalledModule>
    decreases |items| - i
  {
    if i >= |items| then items + [r]
    else if KeyOf(items[i]) == KeyOf(r) then items[i := r]
    else Upserted(items, r, i + 1)
  }

  lemma {:induction false} UpsertedIsUpdate(items: seq<InstalledModule>, r: InstalledModule, i: nat)
    requires UniqueKeys(items) && i <= |items| && forall j :: 0 <= j < i ==> KeyOf(items[j]) != KeyOf(r)
    ensures UniqueKeys(Upserted(items, r, i)) && Contents(Upserted(items, r, i)) == Contents(items)[KeyOf(r) := r]
    decreases |items| - i
  {
    hide KeyOf, Contents;
    if i == |items| {
      AppendNew(items, r);
    } else if KeyOf(items[i]) == KeyOf(r) {
      UpdateAt(items, i, r);
    } else {
      UpsertedIsUpdate(items, r, i + 1);
    }
  }

  /**
    Two upserts for different modules that both read before either writes: the earlier write is lost, unless
    the store held that very record before.
   */
  lemma {:induction false} OverlapLosesUpdate(disk: seq<InstalledModule>, r1: InstalledModule, r2: InstalledModule)
    requires UniqueKeys(disk) && KeyOf(r1) != KeyOf(r2)
    ensures var serial := Upserted(Upserted(disk, r1, 0), r2, 0); var overlapping := Upserted(disk, r2, 0);
      && Contents(serial) == Contents(disk)[KeyOf(r1) := r1][KeyOf(r2) := r2]
      && Contents(overlapping) == Contents(disk)[KeyOf(r2) := r2]
      && (Contents(overlapping) == Contents(serial) <==> KeyOf(r1) in Contents(disk) && Contents(disk)[KeyOf(r1)] == r1)
  {
    hide KeyOf, Contents, Upserted;
    UpsertedIsUpdate(disk, r1, 0);
    UpsertedIsUpdate(Upserted(disk, r1, 0), r2, 0);
    UpsertedIsUpdate(disk, r2, 0);
    var m := Contents(disk);
    assert m[KeyOf(r1) := r1][KeyOf(r2) := r2][KeyOf(r1)] == r1;
    if KeyOf(r1) in m {
      assert m[KeyOf(r2) := r2][KeyOf(r1)] == m[KeyOf(r1)];
      if m[KeyOf(r1)] == r1 {
        assert m[KeyOf(r1) := r1] == m;
      }
    }
  }
}
