/**
  From a routing snapshot to the hosts file: reading entries, the hash that decides whether to skip,
  the sorted block, and the sync state of the heartbeat client.
 */
module HostSync {
  import opened GoStrings
  import opened Outcomes
  import opened Ordering
  import opened Substrings
  import opened HostRouting

  datatype Entry = Entry(host: string, address: string)

  /** Both orders the code sorts entries by: host first, then address. */
  predicate EntryLeq(a: Entry, b: Entry) {
    if a.host == b.host then StringLeq(a.address, b.address) else StringLeq(a.host, b.host)
  }

  /** Trimmed entries, without those that have a blank field. */
  function Kept(es: seq<Entry>): (r: seq<Entry>) {
    if es == [] then []
    else
      var e := Entry(TrimSpace(es[0].host), TrimSpace(es[0].address));
      (if e.host == "" || e.address == "" then [] else [e]) + Kept(es[1..])
  }

  function BlockLine(e: Entry): string {
    e.address + " " + e.host
  }

  function HashLine(e: Entry): string {
    e.host + "=" + e.address
  }

  function Map<A, B>(f: A -> B, xs: seq<A>): (r: seq<B>)
    ensures |r| == |xs| && forall i :: 0 <= i < |xs| ==> r[i] == f(xs[i])
  {
    seq(|xs|, i requires 0 <= i < |xs| => f(xs[i]))
  }

  function BlockLines(es: seq<Entry>): seq<string> {
    Map(BlockLine, Kept(Sort(es, EntryLeq)))
  }

  /** The snapshot hash before SHA-256: the word "empty", or the digest of a text. */
  datatype HashKey = EmptyKey | Digest(text: string)

  function KeyOf(es: seq<Entry>): HashKey {
    var lines := Map(HashLine, Kept(es));
    if lines == [] then EmptyKey else Digest(Join(Sort(lines, StringLeq), "\n"))
  }

  // ---------- the loops that build these ----------

  /** `readHostRoutingEntries`: nil items and blank fields are dropped. */
  method ReadEntries(items: seq<Option<Entry>>) returns (out: seq<Entry>)
    ensures out == Kept(Present(items)) && AsRead(out)
  {
    out := [];
    ghost var seen: seq<Entry> := [];
    for i := 0 to |items|
      invariant seen == Present(items[..i]) && out == Kept(seen)
    {
      PresentSnoc(items, i);
      match items[i] {
        case None =>
        case Some(value) =>
          KeptSnoc(seen, value);
          seen := seen + [value];
          var host, address := TrimSpace(value.host), TrimSpace(value.address);
          if host != "" && address != "" {
            out := out + [Entry(host, address)];
          }
      }
    }
    assert items[..|items|] == items;
    KeptIsAsRead(Present(items));
  }

  function Present(items: seq<Option<Entry>>): seq<Entry> {
    if items == [] then []
    else (if items[0].None? then [] else [items[0].value]) + Present(items[1..])
  }

  lemma {:induction false} PresentSnoc(items: seq<Option<Entry>>, i: nat)
    requires i < |items|
    ensures Present(items[..i + 1]) == Present(items[..i]) + if items[i].None? then [] else [items[i].value]
  {
    if i > 0 {
      assert items[..i + 1][1..] == items[1..][..i] && items[..i][1..] == items[1..][..i - 1];
      PresentSnoc(items[1..], i - 1);
    }
  }

  lemma {:induction false} KeptSnoc(es: seq<Entry>, e: Entry)
    ensures Kept(es + [e]) == Kept(es) + Kept([e])
  {
    hide TrimSpace;
    if es != [] {
      assert (es + [e])[1..] == es[1..] + [e];
      KeptSnoc(es[1..], e);
    } else {
      assert [] + [e] == [e];
    }
  }

  /** A snapshot's item counts if it is there and has a host and an address; the rest keeps its order. */
  lemma {:induction false} ItemCounts(items: seq<Option<Entry>>, item: Option<Entry>)
    ensures Kept(Present(items + [item])) == Kept(Present(items)) +
      if item.None? || TrimSpace(item.value.host) == "" || TrimSpace(item.value.address) == "" then []
      else [Entry(TrimSpace(item.value.host), TrimSpace(item.value.address))]
    ensures Kept(Present([])) == []
  {
    hide TrimSpace;
    var all := items + [item];
    PresentSnoc(all, |items|);
    assert all[..|items| + 1] == all && all[..|items|] == items;
    if item.Some? {
      KeptSnoc(Present(items), item.value);
    } else {
      assert Present(items) + [] == Present(items);
    }
  }

  /** The lines of the block: for each entry with a host and an address these two, the address first. */
  lemma {:induction false} LinesAreEntries(es: seq<Entry>, line: string)
    ensures line in BlockLines(es) <==>
      exists i :: 0 <= i < |es| && TrimSpace(es[i].host) != "" && TrimSpace(es[i].address) != ""
                  && line == TrimSpace(es[i].address) + " " + TrimSpace(es[i].host)
  {
    hide TrimSpace, Sort, Kept, EntryLeq;
    var sorted := Sort(es, EntryLeq);
    SortPermutes(es, EntryLeq);
    forall e
      ensures e in sorted <==> e in es
    {
      assert e in sorted <==> e in multiset(sorted);
      assert e in es <==> e in multiset(es);
    }
    var kept := Kept(sorted);
    if line in BlockLines(es) {
      var k :| 0 <= k < |kept| && line == BlockLine(kept[k]);
      KeptFrom(sorted, kept[k]);
      var j :| 0 <= j < |sorted| && KeptAs(sorted[j], kept[k]);
      assert sorted[j] in es;
    }
    forall i | 0 <= i < |es| && TrimSpace(es[i].host) != "" && TrimSpace(es[i].address) != ""
      ensures TrimSpace(es[i].address) + " " + TrimSpace(es[i].host) in BlockLines(es)
    {
      var e := Entry(TrimSpace(es[i].host), TrimSpace(es[i].address));
      assert es[i] in sorted;
      var j :| 0 <= j < |sorted| && sorted[j] == es[i];
      assert KeptAs(sorted[j], e);
      KeptFrom(sorted, e);
      var k :| 0 <= k < |kept| && kept[k] == e;
      assert BlockLines(es)[k] == BlockLine(e);
    }
  }

  /** The trimmed form of an entry that counts. */
  predicate KeptAs(e: Entry, kept: Entry) {
    kept.host == TrimSpace(e.host) != "" && kept.address == TrimSpace(e.address) != ""
  }

  lemma {:induction false} KeptFrom(es: seq<Entry>, kept: Entry)
    ensures kept in Kept(es) <==> exists j :: 0 <= j < |es| && KeptAs(es[j], kept)
  {
    hide TrimSpace;
    if es != [] {
      KeptFrom(es[1..], kept);
      if exists j :: 0 <= j < |es[1..]| && KeptAs(es[1..][j], kept) {
        var j :| 0 <= j < |es[1..]| && KeptAs(es[1..][j], kept);
        assert es[j + 1] == es[1..][j];
      }
      forall j | 0 < j < |es| && KeptAs(es[j], kept)
        ensures kept in Kept(es[1..])
      {
        assert es[1..][j - 1] == es[j];
      }
    }
  }

  /** The first loop of `applyHostRoutingSnapshot`, over the sorted entries. */
  method BuildBlock(sorted: seq<Entry>, b: string, e: string) returns (block: string)
    ensures block == Block(Map(BlockLine, Kept(sorted)), b, e)
  {
    hide TrimSpace, Join;
    var lines: seq<string> := [b];
    for i := 0 to |sorted|
      invariant lines == [b] + Map(BlockLine, Kept(sorted[..i]))
    {
      assert sorted[..i + 1] == sorted[..i] + [sorted[i]];
      KeptSnoc(sorted[..i], sorted[i]);
      var host, address := TrimSpace(sorted[i].host), TrimSpace(sorted[i].address);
      if host != "" && address != "" {
        lines := lines + [address + " " + host];
      }
      assert Kept([sorted[i]]) == if host == "" || address == "" then [] else [Entry(host, address)];
    }
    assert sorted[..|sorted|] == sorted;
    return Join(lines + [e], "\n");
  }

  // ---------- entries as they come from the snapshot reader ----------

  predicate AsRead(es: seq<Entry>) {
    forall i :: 0 <= i < |es| ==>
      es[i].host != "" && es[i].address != "" && TrimSpace(es[i].host) == es[i].host && TrimSpace(es[i].address) == es[i].address
  }

  lemma {:induction false} KeptIsAsRead(es: seq<Entry>)
    ensures AsRead(Kept(es))
  {
    hide TrimSpace;
    if es != [] {
      KeptIsAsRead(es[1..]);
      TrimSpaceIdempotent(es[0].host);
      TrimSpaceIdempotent(es[0].address);
    }
  }

  lemma {:induction false} KeptKeepsRead(es: seq<Entry>)
    requires AsRead(es)
    ensures Kept(es) == es
  {
    hide TrimSpace;
    if es != [] {
      KeptKeepsRead(es[1..]);
    }
  }

  lemma {:induction false} PermutationAsRead(es: seq<Entry>, fs: seq<Entry>)
    requires AsRead(es) && multiset(es) == multiset(fs)
    ensures AsRead(fs)
  {
    hide TrimSpace;
    forall i | 0 <= i < |fs|
      ensures fs[i] in es
    {
      assert fs[i] in multiset(fs);
      assert fs[i] in multiset(es);
    }
  }

  lemma {:induction false} EntryOrder()
    ensures TotalOrder(EntryLeq) && AntiSymmetric(EntryLeq)
  {
    hide StringLeq;
    StringOrder();
  }

  /** The block lists all entries that were read, by host and then by address. */
  lemma {:induction false} LinesInOrder(es: seq<Entry>)
    requires AsRead(es)
    ensures exists sorted: seq<Entry> ::
      && multiset(sorted) == multiset(es) && |BlockLines(es)| == |sorted|
      && (forall i :: 0 <= i < |sorted| ==> BlockLines(es)[i] == sorted[i].address + " " + sorted[i].host)
      && forall i, j :: 0 <= i < j < |sorted| ==>
           if sorted[i].host == sorted[j].host then StringLeq(sorted[i].address, sorted[j].address)
           else StringLeq(sorted[i].host, sorted[j].host)
  {
    hide TrimSpace, Sort, AsRead;
    var sorted := Sort(es, EntryLeq);
    EntryOrder();
    SortSorts(es, EntryLeq);
    SortPermutes(es, EntryLeq);
    PermutationAsRead(es, sorted);
    KeptKeepsRead(sorted);
    assert multiset(sorted) == multiset(es) && |BlockLines(es)| == |sorted|;
  }

  /** Sorting first does not change what a mapped sequence holds. */
  lemma {:induction false} MapOfInsert<A, B>(f: A -> B, x: A, s: seq<A>, le: (A, A) -> bool)
    ensures multiset(Map(f, Insert(x, s, le))) == multiset{f(x)} + multiset(Map(f, s))
  {
    hide Map;
    if s == [] {
      MapCons(f, x, s);
      assert [x] + s == [x];
    } else if le(x, s[0]) {
      MapCons(f, x, s);
    } else {
      var rest := Insert(x, s[1..], le);
      MapOfInsert(f, x, s[1..], le);
      MapCons(f, s[0], s[1..]);
      MapCons(f, s[0], rest);
      assert s == [s[0]] + s[1..];
    }
  }

  lemma {:induction false} MapCons<A, B>(f: A -> B, x: A, s: seq<A>)
    ensures multiset(Map(f, [x] + s)) == multiset{f(x)} + multiset(Map(f, s))
  {
    assert Map(f, [x] + s) == [f(x)] + Map(f, s);
  }

  lemma {:induction false} MapOfSort<A, B>(f: A -> B, s: seq<A>, le: (A, A) -> bool)
    ensures multiset(Map(f, Sort(s, le))) == multiset(Map(f, s))
  {
    if s != [] {
      MapOfSort(f, s[1..], le);
      MapOfInsert(f, s[0], Sort(s[1..], le), le);
      assert Map(f, s) == [f(s[0])] + Map(f, s[1..]);
    }
  }

  /** Block and hash depend on the snapshot as a multiset only. */
  lemma {:induction false} OrderDoesNotMatter(es: seq<Entry>, fs: seq<Entry>)
    requires AsRead(es) && multiset(es) == multiset(fs)
    ensures BlockLines(es) == BlockLines(fs) && KeyOf(es) == KeyOf(fs)
  {
    hide TrimSpace, StringLeq, EntryLeq, HashLine, Join, Sort;
    PermutationAsRead(es, fs);
    KeptKeepsRead(es);
    KeptKeepsRead(fs);
    EntryOrder();
    StringOrder();
    SortOfPermutation(es, fs, EntryLeq);
    MapOfSort(HashLine, es, EntryLeq);
    MapOfSort(HashLine, fs, EntryLeq);
    assert |multiset(es)| == |es| && |multiset(fs)| == |fs|;
    SortOfPermutation(Map(HashLine, es), Map(HashLine, fs), StringLeq);
  }

  // ---------- the hash tells blocks apart ----------

  /** Host names as the reader leaves them. */
  predicate TrimmedHosts(hosts: set<string>) {
    forall h :: h in hosts ==> h != "" && TrimSpace(h) == h
  }

  /** The same, one a line. */
  predicate GoodHosts(hosts: set<string>) {
    TrimmedHosts(hosts) && forall h :: h in hosts ==> '\n' !in h
  }

  /** `k` is `h`, an equals sign, and nothing or a text an address can begin with. */
  predicate Confuses(h: string, k: string) {
    && |k| > |h| && k[..|h|] == h && k[|h|] == '='
    && (|k| == |h| + 1 || !IsSpace(k[|h| + 1]))
  }

  predicate TellApart(hosts: set<string>) {
    forall h, k :: h in hosts && k in hosts ==> !Confuses(h, k)
  }

  /** A snapshot over these hosts. */
  predicate From(es: seq<Entry>, hosts: set<string>) {
    forall i :: 0 <= i < |es| ==> es[i].host in hosts
  }

  /** A snapshot over these hosts, with addresses of one line. */
  predicate Over(es: seq<Entry>, hosts: set<string>) {
    From(es, hosts) && forall i :: 0 <= i < |es| ==> '\n' !in es[i].address
  }

  predicate Readable(e: Entry) {
    e.address != "" && TrimSpace(e.address) == e.address
  }

  /** A hash line is read back against the hosts, not at its first equals sign. */
  lemma {:induction false} HashLineTellsEntries(hosts: set<string>, x: Entry, y: Entry)
    requires TellApart(hosts) && x.host in hosts && y.host in hosts && Readable(x) && Readable(y)
    requires HashLine(x) == HashLine(y)
    ensures x == y
  {
    if |x.host| < |y.host| {
      LongerHostConfuses(x, y);
    } else if |y.host| < |x.host| {
      LongerHostConfuses(y, x);
    } else {
      var line := HashLine(x);
      var n := |x.host|;
      assert line[..n] == x.host && line[..n] == y.host;
      assert line[n + 1..] == x.address && line[n + 1..] == y.address;
    }
  }

  lemma {:induction false} LongerHostConfuses(x: Entry, y: Entry)
    requires HashLine(x) == HashLine(y) && |x.host| < |y.host| && Readable(x)
    ensures Confuses(x.host, y.host)
  {
    hide IsSpace, Trim;
    var line := HashLine(x);
    var n := |x.host|;
    TrimIsMiddle(x.address, IsSpace);
    assert line[..n] == x.host && line[..|y.host|] == y.host;
    assert y.host[..n] == line[..n];
    assert y.host[n] == line[n] == '=';
    assert line[n + 1..] == x.address;
    if |y.host| > n + 1 {
      assert y.host[n + 1] == line[n + 1] == x.address[0];
    }
  }

  /** The entry of the pool with this hash line. */
  ghost function Unhash(pool: seq<Entry>, line: string): Entry {
    if exists i :: 0 <= i < |pool| && HashLine(pool[i]) == line then
      var i :| 0 <= i < |pool| && HashLine(pool[i]) == line;
      pool[i]
    else Entry(line, "")
  }

  ghost predicate LinesTellApart(pool: seq<Entry>) {
    forall i, j :: 0 <= i < |pool| && 0 <= j < |pool| && HashLine(pool[i]) == HashLine(pool[j]) ==> pool[i] == pool[j]
  }

  lemma {:induction false} JoinInjective(x: seq<string>, y: seq<string>)
    requires x != [] && y != [] && Join(x, "\n") == Join(y, "\n")
    requires forall i :: 0 <= i < |x| ==> '\n' !in x[i]
    requires forall i :: 0 <= i < |y| ==> '\n' !in y[i]
    ensures x == y
    decreases |x|
  {
    var s := Join(x, "\n");
    FirstLine(x);
    FirstLine(y);
    assert x[0] == y[0];
    assert x == [x[0]] + x[1..] && y == [y[0]] + y[1..];
    if |x| > 1 && |y| > 1 {
      assert Join(x[1..], "\n") == s[|x[0]| + 1..] == Join(y[1..], "\n");
      JoinInjective(x[1..], y[1..]);
    }
  }

  /** The first line ends at the first newline, or is the whole text. */
  lemma {:induction false} FirstLine(x: seq<string>)
    requires x != [] && forall i :: 0 <= i < |x| ==> '\n' !in x[i]
    ensures var s := Join(x, "\n");
      && |x[0]| <= |s| && x[0] == s[..|x[0]|] && (|x| > 1 ==> |s| > |x[0]| && s[|x[0]|] == '\n')
      && (|x| == 1 ==> s == x[0])
  {
  }

  lemma {:induction false} SortedLinesRead(es: seq<Entry>, pool: seq<Entry>, hosts: set<string>)
    requires GoodHosts(hosts) && Over(es, hosts) && LinesTellApart(pool) && forall i :: 0 <= i < |es| ==> es[i] in pool
    ensures var s := Sort(Map(HashLine, es), StringLeq);
      && |s| == |es| && (forall i :: 0 <= i < |s| ==> '\n' !in s[i])
      && multiset(Map(line => Unhash(pool, line), s)) == multiset(es)
  {
    hide Sort, StringLeq, TrimSpace, Unhash;
    var lines := Map(HashLine, es);
    var s := Sort(lines, StringLeq);
    SortPermutes(lines, StringLeq);
    assert |multiset(s)| == |s| && |multiset(lines)| == |lines|;
    forall i | 0 <= i < |es|
      ensures Unhash(pool, lines[i]) == es[i] && '\n' !in lines[i]
    {
      UnhashFinds(pool, es[i]);
    }
    forall i | 0 <= i < |s|
      ensures '\n' !in s[i]
    {
      assert s[i] in multiset(s);
      assert s[i] in multiset(lines);
    }
    var read := line => Unhash(pool, line);
    MapOfSort(read, lines, StringLeq);
    assert Map(read, lines) == es;
  }

  lemma {:induction false} UnhashFinds(pool: seq<Entry>, e: Entry)
    requires LinesTellApart(pool) && e in pool
    ensures Unhash(pool, HashLine(e)) == e
  {
    hide HashLine;
    var i :| 0 <= i < |pool| && pool[i] == e;
  }

  lemma {:induction false} PoolTellsApart(es: seq<Entry>, fs: seq<Entry>, hosts: set<string>)
    requires TellApart(hosts) && AsRead(es) && AsRead(fs) && Over(es, hosts) && Over(fs, hosts)
    ensures LinesTellApart(es + fs)
  {
    hide TrimSpace, HashLine, TellApart;
    var pool := es + fs;
    forall i, j | 0 <= i < |pool| && 0 <= j < |pool| && HashLine(pool[i]) == HashLine(pool[j])
      ensures pool[i] == pool[j]
    {
      HashLineTellsEntries(hosts, pool[i], pool[j]);
    }
  }

  /**
    Skipping on an equal hash is sound over hosts that tell apart: equal hash texts mean the same entries
    and therefore, although the hash sorts lines and the block sorts entries, the same block.
   */
  lemma {:induction false} EqualHashEqualBlock(es: seq<Entry>, fs: seq<Entry>, hosts: set<string>)
    requires GoodHosts(hosts) && TellApart(hosts)
    requires AsRead(es) && AsRead(fs) && Over(es, hosts) && Over(fs, hosts)
    requires KeyOf(es) == KeyOf(fs)
    ensures multiset(es) == multiset(fs) && BlockLines(es) == BlockLines(fs)
  {
    hide TrimSpace, Sort, Unhash, HashLine, BlockLine, StringLeq, EntryLeq, Join, AsRead, GoodHosts, TellApart, LinesTellApart, Over;
    KeptKeepsRead(es);
    KeptKeepsRead(fs);
    PoolTellsApart(es, fs, hosts);
    SortedLinesRead(es, es + fs, hosts);
    SortedLinesRead(fs, es + fs, hosts);
    if es == [] || fs == [] {
      assert es == fs;
    } else {
      JoinInjective(Sort(Map(HashLine, es), StringLeq), Sort(Map(HashLine, fs), StringLeq));
    }
    OrderDoesNotMatter(es, fs);
  }

  /** Two snapshots over two confused hosts that share a hash but not a block. */
  lemma {:induction false} ConfusedHostsShareHash(h: string, k: string) returns (es: seq<Entry>, fs: seq<Entry>)
    requires Confuses(h, k) && GoodHosts({h, k})
    ensures AsRead(es) && AsRead(fs) && Over(es, {h, k}) && Over(fs, {h, k}) && |es| == |fs| == 1
    ensures KeyOf(es) == KeyOf(fs) && BlockLines(es) != BlockLines(fs)
    ensures es[0].host == h && fs[0].host == k && es[0].address == k[|h| + 1..] + "=" + fs[0].address
    ensures fs[0].address == "p" || fs[0].address == "q"
  {
    hide Trim, IsSpace, Sort, StringLeq, EntryLeq;
    var x := k[|h| + 1..];
    var first := (x + "=")[0];
    var a := if first == 'p' then "q" else "p";
    assert |a| == 1 && a[0] != first;
    var e, f := Entry(h, x + "=" + a), Entry(k, a);
    es, fs := [e], [f];
    PlainCharacters();
    CleanAddress(a);
    CleanAddress(e.address);
    assert h in {h, k} && k in {h, k};
    assert k == h + "=" + x;
    assert HashLine(e) == HashLine(f) by {
      assert h + "=" + (x + "=" + a) == h + "=" + x + "=" + a;
    }
    KeptKeepsRead(es);
    KeptKeepsRead(fs);
    assert Map(HashLine, es) == [HashLine(e)] == Map(HashLine, fs);
    SortOne(e);
    SortOne(f);
    assert BlockLines(es)[0] == BlockLine(e) && BlockLines(fs)[0] == BlockLine(f);
    assert BlockLine(e)[0] == first && BlockLine(f)[0] == a[0];
  }

  lemma {:induction false} PlainCharacters()
    ensures !IsSpace('p') && !IsSpace('q') && !IsSpace('=')
  {
  }

  lemma {:induction false} CleanAddress(a: string)
    requires CleanEnds(a, IsSpace)
    ensures TrimSpace(a) == a
  {
    TrimCleanText(a, IsSpace);
  }

  lemma {:induction false} SortOne(e: Entry)
    ensures Sort([e], EntryLeq) == [e]
  {
    assert [e][1..] == [];
  }

  ghost predicate HashTellsBlocks(hosts: set<string>) {
    forall es, fs :: AsRead(es) && AsRead(fs) && Over(es, hosts) && Over(fs, hosts) && KeyOf(es) == KeyOf(fs) ==>
      BlockLines(es) == BlockLines(fs)
  }

  /**
    For which hosts an equal hash means an equal block, exactly: no host is another one followed by an equals
    sign and nothing, or a text that an address can begin with.
   */
  lemma {:induction false} HashIsExact(hosts: set<string>)
    requires GoodHosts(hosts)
    ensures HashTellsBlocks(hosts) <==> TellApart(hosts)
  {
    hide AsRead, Over, KeyOf, BlockLines, Confuses, TrimSpace;
    if TellApart(hosts) {
      forall es, fs | AsRead(es) && AsRead(fs) && Over(es, hosts) && Over(fs, hosts) && KeyOf(es) == KeyOf(fs)
        ensures BlockLines(es) == BlockLines(fs)
      {
        EqualHashEqualBlock(es, fs, hosts);
      }
    } else {
      var h, k :| h in hosts && k in hosts && Confuses(h, k);
      var es, fs := ConfusedHostsShareHash(h, k);
      OverMore(es, {h, k}, hosts);
      OverMore(fs, {h, k}, hosts);
    }
  }

  lemma {:induction false} OverMore(es: seq<Entry>, few: set<string>, hosts: set<string>)
    requires Over(es, few) && few <= hosts
    ensures Over(es, hosts)
  {
  }

  ghost predicate HashTellsAllBlocks(hosts: set<string>) {
    forall es, fs :: AsRead(es) && AsRead(fs) && From(es, hosts) && From(fs, hosts) && KeyOf(es) == KeyOf(fs) ==>
      BlockLines(es) == BlockLines(fs)
  }

  /** An address can hold a newline, since the reader trims it at its ends only: then no host is safe. */
  lemma {:induction false} NewlinesConfuseHash(hosts: set<string>)
    requires TrimmedHosts(hosts)
    ensures HashTellsAllBlocks(hosts) <==> hosts == {}
  {
    hide AsRead, KeyOf, BlockLines, TrimSpace;
    if h :| h in hosts {
      var es, fs := NewlineSharesHash(h);
      assert From(es, hosts) && From(fs, hosts);
    } else {
      forall es: seq<Entry>, fs: seq<Entry> | From(es, hosts) && From(fs, hosts)
        ensures es == fs
      {
        NobodyFrom(es, hosts);
        NobodyFrom(fs, hosts);
      }
    }
  }

  lemma {:induction false} NobodyFrom(es: seq<Entry>, hosts: set<string>)
    requires From(es, hosts)
    ensures es != [] ==> hosts != {}
  {
    if es != [] {
      assert es[0].host in hosts;
    }
  }

  /** One entry of two lines, and two entries of one line each, that read the same under the hash. */
  lemma {:induction false} NewlineSharesHash(h: string) returns (es: seq<Entry>, fs: seq<Entry>)
    requires h != "" && TrimSpace(h) == h
    ensures AsRead(es) && AsRead(fs) && From(es, {h}) && From(fs, {h}) && KeyOf(es) == KeyOf(fs)
    ensures BlockLines(es) == ["p\n" + h + "=q " + h] && BlockLines(fs) == ["p " + h, "q " + h]
  {
    hide Trim, IsSpace, Sort, StringLeq, EntryLeq, Join;
    var e, p, q := Entry(h, "p\n" + h + "=q"), Entry(h, "p"), Entry(h, "q");
    es, fs := [e], [p, q];
    PlainCharacters();
    CleanAddress("p");
    CleanAddress("q");
    CleanAddress(e.address);
    KeptKeepsRead(es);
    KeptKeepsRead(fs);
    SortOne(e);
    AddressesSorted(h);
    var x, y := h + "=p", h + "=q";
    assert HashLine(e) == x + "\n" + y by {
      assert h + "=" + ("p\n" + h + "=q") == h + "=p" + "\n" + (h + "=q");
    }
    assert HashLine(p) == x && HashLine(q) == y by {
      assert h + "=" + "p" == h + "=p" && h + "=" + "q" == h + "=q";
    }
    assert Map(HashLine, es) == [x + "\n" + y] && Map(HashLine, fs) == [x, y];
    SortOneLine(x + "\n" + y);
    JoinTwo(x, y);
    assert BlockLines(es) == [BlockLine(e)] && BlockLine(e) == "p\n" + h + "=q " + h;
    assert BlockLines(fs) == [BlockLine(p), BlockLine(q)];
    assert "p" + " " + h == "p " + h && "q" + " " + h == "q " + h;
  }

  lemma {:induction false} JoinTwo(x: string, y: string)
    ensures Join([x, y], "\n") == x + "\n" + y && Join([x + "\n" + y], "\n") == x + "\n" + y
  {
    assert [x, y][1..] == [y];
  }

  lemma {:induction false} SortOneLine(x: string)
    ensures Sort([x], StringLeq) == [x]
  {
    assert [x][1..] == [];
  }

  /** "p" comes before "q", by itself and behind the same host. */
  lemma {:induction false} AddressesSorted(h: string)
    ensures Sort([Entry(h, "p"), Entry(h, "q")], EntryLeq) == [Entry(h, "p"), Entry(h, "q")]
    ensures Sort([h + "=p", h + "=q"], StringLeq) == [h + "=p", h + "=q"]
  {
    var p, q, x, y := Entry(h, "p"), Entry(h, "q"), h + "=p", h + "=q";
    assert StringLeq("p", "q") && StringLeq("=p", "=q") by {
      assert "=p"[1..] == "p" && "=q"[1..] == "q";
    }
    BehindSame(h, "=p", "=q");
    hide StringLeq;
    assert [p, q][1..] == [q] && [x, y][1..] == [y];
    SortOne(q);
    SortOneLine(y);
  }

  lemma {:induction false} BehindSame(h: string, x: string, y: string)
    ensures StringLeq(h + x, h + y) == StringLeq(x, y)
  {
    hide StringLeq;
    if h == "" {
      assert h + x == x && h + y == y;
    } else {
      BehindSame(h[1..], x, y);
      SameHead(h[0], h[1..] + x, h[1..] + y);
      assert [h[0]] + (h[1..] + x) == h + x && [h[0]] + (h[1..] + y) == h + y;
    }
  }

  lemma {:induction false} SameHead(c: char, x: string, y: string)
    ensures StringLeq([c] + x, [c] + y) == StringLeq(x, y)
  {
    assert ([c] + x)[1..] == x && ([c] + y)[1..] == y;
  }

  /** With an '=' in a host, two snapshots share a hash but not a block. */
  lemma {:induction false} EqualsSignConfusesHash()
    ensures var (es, fs) := ([Entry("a", "b=c")], [Entry("a=b", "c")]);
      AsRead(es) && AsRead(fs) && KeyOf(es) == KeyOf(fs) && BlockLines(es) != BlockLines(fs)
  {
    var es, fs := [Entry("a", "b=c")], [Entry("a=b", "c")];
    TrimCleanText("a", IsSpace);
    TrimCleanText("b=c", IsSpace);
    TrimCleanText("a=b", IsSpace);
    TrimCleanText("c", IsSpace);
    hide TrimSpace, StringLeq, EntryLeq, Sort, Join;
    KeptKeepsRead(es);
    KeptKeepsRead(fs);
    SortOne(es[0]);
    SortOne(fs[0]);
    var x, y := HashLine(es[0]), HashLine(fs[0]);
    assert |x| == |y| == 5 && x[0] == y[0] && x[1] == y[1] && x[2] == y[2] && x[3] == y[3] && x[4] == y[4];
    assert x == y;
    assert Map(HashLine, es) == [x] == Map(HashLine, fs);
    assert BlockLines(es)[0] == "b=c a" && BlockLines(fs)[0] == "c a=b";
    assert BlockLines(es)[0][0] != BlockLines(fs)[0][0];
  }

  // ---------- the sync state of the client ----------

  /** A snapshot over these hosts whose block can stand in the hosts file. */
  predicate CleanSnapshot(es: seq<Entry>, hosts: set<string>, e: string) {
    AsRead(es) && Over(es, hosts) && CleanLines(BlockLines(es), e)
  }

  /** The hosts file, with the key of the snapshot the client last applied (none before the first). */
  datatype SyncState = SyncState(file: string, last: Option<HashKey>)

  function BlockText(es: seq<Entry>, b: string, e: string): string {
    Block(BlockLines(es), b, e)
  }

  /** `syncHostRoutingSnapshot` once the snapshot is here; `writeOk` says whether the file can be read and replaced. */
  function SyncOnce(s: SyncState, es: seq<Entry>, writeOk: bool, b: string, e: string): SyncState {
    if s.last == Some(KeyOf(es)) || !writeOk then s
    else SyncState(ApplyBlock(s.file, BlockText(es, b, e), b, e), Some(KeyOf(es)))
  }

  /** The same without the skip. */
  function ApplyOnce(file: string, es: seq<Entry>, writeOk: bool, b: string, e: string): string {
    if writeOk then ApplyBlock(file, BlockText(es, b, e), b, e) else file
  }

  const SYNC_INTERVAL: int := 60_000_000_000

  class HostsClient {
    var file: string
    var last: Option<HashKey>
    var lastAt: Option<int>

    constructor (file: string)
      ensures this.file == file && this.last == None && this.lastAt == None
    {
      this.file := file;
      this.last := None;
      this.lastAt := None;
    }

    /** At most one sync an interval; a failed one is not tried again before the next. */
    method MaybeSync(now: int, fetched: Option<seq<Option<Entry>>>, readOk: bool, writeOk: bool) returns (ok: bool)
      modifies this
      ensures var early := old(lastAt).Some? && now - old(lastAt.value) < SYNC_INTERVAL;
        && lastAt == (if early then old(lastAt) else Some(now))
        && (early ==> ok) && (!early && fetched.None? ==> !ok)
        && (!early && fetched.Some? ==>
              (ok <==> old(last) == Some(KeyOf(Kept(Present(fetched.value)))) || (readOk && writeOk)))
        && SyncState(file, last) == (if early || fetched.None? then old(SyncState(file, last))
             else SyncOnce(old(SyncState(file, last)), Kept(Present(fetched.value)), readOk && writeOk, BEGIN_MARKER, END_MARKER))
    {
      hide SyncOnce, Kept, Present, KeyOf;
      if lastAt.Some? && now - lastAt.value < SYNC_INTERVAL {
        return true;
      }
      lastAt := Some(now);
      if fetched.None? {
        return false;
      }
      ok := SyncSnapshot(fetched.value, readOk, writeOk);
    }

    /** A hosts file that is missing reads as empty; `readOk` says it is not unreadable otherwise. */
    method SyncSnapshot(items: seq<Option<Entry>>, readOk: bool, writeOk: bool) returns (ok: bool)
      modifies this`file, this`last
      ensures var es := Kept(Present(items));
        && SyncState(file, last) == SyncOnce(old(SyncState(file, last)), es, readOk && writeOk, BEGIN_MARKER, END_MARKER)
        && ok == (old(last) == Some(KeyOf(es)) || (readOk && writeOk))
    {
      hide TrimSpace, KeyOf, Block, ApplyBlock, Sort;
      var entries := ReadEntries(items);
      var key := KeyOf(entries);
      if last == Some(key) {
        return true;
      }
      var block := BuildBlock(Sort(entries, EntryLeq), BEGIN_MARKER, END_MARKER);
      if !readOk || !writeOk {
        return false;
      }
      file := ApplyBlock(file, block, BEGIN_MARKER, END_MARKER);
      last := Some(key);
      return true;
    }
  }

  datatype Sync = Sync(es: seq<Entry>, writeOk: bool)

  function SkipRun(t: string, run: seq<Sync>, b: string, e: string): SyncState {
    if run == [] then SyncState(t, None)
    else SyncOnce(SkipRun(t, run[..|run| - 1], b, e), run[|run| - 1].es, run[|run| - 1].writeOk, b, e)
  }

  function PlainRun(t: string, run: seq<Sync>, b: string, e: string): string {
    if run == [] then t
    else ApplyOnce(PlainRun(t, run[..|run| - 1], b, e), run[|run| - 1].es, run[|run| - 1].writeOk, b, e)
  }

  predicate CleanRun(run: seq<Sync>, hosts: set<string>, e: string) {
    forall i :: 0 <= i < |run| ==> CleanSnapshot(run[i].es, hosts, e)
  }

  /** Before any sync, or exactly the unmanaged text and one block: that of the snapshot behind the key. */
  ghost predicate InStep(t: string, s: SyncState, hosts: set<string>, b: string, e: string) {
    if s.last == None then s.file == t
    else exists es :: CleanSnapshot(es, hosts, e) && s.last == Some(KeyOf(es)) && s.file == Render(Unmanaged(t, b, e), BlockText(es, b, e))
  }

  /** A text a managed block can live with: settled, and no newlines in front. */
  predicate Tame(t: string, b: string, e: string) {
    Settled(t, b, e) && TrimRight(StripManagedBlock(t, b, e), IsNewline) == Unmanaged(t, b, e)
  }

  lemma {:induction false} UnmanagedIsClean(t: string, b: string, e: string)
    requires GoodMarkers(b, e) && Settled(t, b, e)
    ensures var v := Unmanaged(t, b, e);
      NoMarkers(v, b, e) && PlainEnds(v) && Trim(v, IsNewline) == v && TrimRight(v, IsNewline) == v
  {
    hide StripManagedBlock, Trim, TrimRight, Index;
    var u := StripManagedBlock(t, b, e);
    var v := Trim(u, IsNewline);
    TrimIsMiddle(u, IsNewline);
    var p := Lead(u, IsNewline);
    if Contains(v, b) {
      OccursInPart(u, b, p, p + |v|);
    }
    if Contains(v, e) {
      OccursInPart(u, e, p, p + |v|);
    }
    TrimCleanText(v, IsNewline);
    RightTrimmed(u);
    TrimRightTwice(u);
    TrimmedEndsPlain(TrimRight(u, IsNewline));
  }

  lemma {:induction false} TrimRightTwice(u: string)
    ensures TrimRight(TrimRight(u, IsNewline), IsNewline) == TrimRight(u, IsNewline)
  {
    TrimRightIsPrefix(u, IsNewline);
  }

  lemma {:induction false} TrimmedEndsPlain(base: string)
    requires PlainEnds(base) && TrimRight(base, IsNewline) == base
    ensures PlainEnds(Trim(base, IsNewline))
  {
    hide Trim, TrimRight, Index;
    var v := Trim(base, IsNewline);
    TrimIsMiddle(base, IsNewline);
    RightTrimmed(v);
    var p := Lead(base, IsNewline);
    TrimLeftEnds(base);
    if Contains(v + "\n", "\r\n") {
      assert v + "\n" == (base + "\n")[p..|base| + 1];
      OccursInPart(base + "\n", "\r\n", p, |base| + 1);
    }
  }

  lemma {:induction false} TrimLeftEnds(base: string)
    requires TrimRight(base, IsNewline) == base
    ensures Lead(base, IsNewline) + |Trim(base, IsNewline)| == |base|
  {
    hide TrimLeft;
    TrimLeftIsSuffix(base, IsNewline);
    TrimRightIsPrefix(base, IsNewline);
    var l := TrimLeft(base, IsNewline);
    if l != "" {
      assert l[|l| - 1] == base[|base| - 1];
    }
  }

  /** Applying a block to the unmanaged text followed by another block only swaps the blocks. */
  lemma {:induction false} SwapBlocks(t: string, l1: seq<string>, block: string, b: string, e: string)
    requires GoodMarkers(b, e) && CleanLines(l1, e) && Settled(t, b, e)
    ensures ApplyBlock(Render(Unmanaged(t, b, e), Block(l1, b, e)), block, b, e) == Render(Unmanaged(t, b, e), block)
  {
    hide StripManagedBlock, Trim, TrimRight, NoMarkers, Render, Block, Unmanaged, CleanLines, PlainEnds, Settled;
    UnmanagedIsClean(t, b, e);
    StripRendered(Unmanaged(t, b, e), l1, b, e);
  }

  lemma {:induction false} StepInStep(t: string, s: SyncState, es: seq<Entry>, writeOk: bool, hosts: set<string>,
                                      b: string, e: string)
    requires GoodHosts(hosts) && TellApart(hosts) && GoodMarkers(b, e) && Tame(t, b, e) && InStep(t, s, hosts, b, e)
    requires CleanSnapshot(es, hosts, e)
    ensures InStep(t, SyncOnce(s, es, writeOk, b, e), hosts, b, e)
    ensures SyncOnce(s, es, writeOk, b, e).file == ApplyOnce(s.file, es, writeOk, b, e)
  {
    hide StripManagedBlock, Trim, TrimRight, Settled, Render, Block, Unmanaged, CleanLines, KeyOf, GoodMarkers, BlockLines, AsRead,
      GoodHosts, TellApart, Over;
    if s.last != None {
      var fs :| CleanSnapshot(fs, hosts, e) && s.last == Some(KeyOf(fs)) && s.file == Render(Unmanaged(t, b, e), BlockText(fs, b, e));
      SwapBlocks(t, BlockLines(fs), BlockText(es, b, e), b, e);
      if KeyOf(fs) == KeyOf(es) {
        EqualHashEqualBlock(fs, es, hosts);
      }
    }
  }

  lemma {:induction false} RunsInStep(t: string, run: seq<Sync>, hosts: set<string>, b: string, e: string)
    requires GoodHosts(hosts) && TellApart(hosts) && GoodMarkers(b, e) && Tame(t, b, e) && CleanRun(run, hosts, e)
    ensures InStep(t, SkipRun(t, run, b, e), hosts, b, e) && SkipRun(t, run, b, e).file == PlainRun(t, run, b, e)
    decreases |run|
  {
    hide GoodHosts, TellApart, GoodMarkers, Tame, SyncOnce, ApplyOnce, CleanSnapshot, Render, BlockText, KeyOf, Unmanaged;
    if run != [] {
      var before := run[..|run| - 1];
      assert CleanRun(before, hosts, e);
      RunsInStep(t, before, hosts, b, e);
      StepInStep(t, SkipRun(t, before, b, e), run[|run| - 1].es, run[|run| - 1].writeOk, hosts, b, e);
    }
  }

  ghost predicate SkippingIsInvisible(t: string, hosts: set<string>, b: string, e: string) {
    forall run :: CleanRun(run, hosts, e) ==> SkipRun(t, run, b, e).file == PlainRun(t, run, b, e)
  }

  /**
    The skip refines the plain sync: over every run of snapshots over hosts that tell apart, and of failed
    writes, the hosts file is the same as if every snapshot had been applied, exactly when the unmanaged text
    does not begin with newlines.
   */
  lemma {:induction false} SkipRefinesPlain(t: string, hosts: set<string>, b: string, e: string)
    requires GoodHosts(hosts) && TellApart(hosts)
    requires GoodMarkers(b, e) && Settled(t, b, e)
    ensures SkippingIsInvisible(t, hosts, b, e) <==> Tame(t, b, e)
  {
    hide GoodHosts, TellApart, GoodMarkers, CleanRun, StripManagedBlock, Settled, SkipRun, PlainRun, Tame;
    if Tame(t, b, e) {
      forall run | CleanRun(run, hosts, e)
        ensures SkipRun(t, run, b, e).file == PlainRun(t, run, b, e)
      {
        RunsInStep(t, run, hosts, b, e);
      }
    } else {
      var run := TwiceTheSame(t, hosts, b, e);
    }
  }

  /** Hosts without the sign every marker has. */
  predicate MarkerFree(hosts: set<string>) {
    forall h :: h in hosts ==> '#' !in h
  }

  /**
    When skipping is invisible, exactly, for every hosts file and snapshots of one-line fields: when the file is one a block can live with and the
    hosts tell apart. Any host there is can carry the snapshot that shows the difference otherwise.
   */
  lemma {:induction false} SkipIsExact(t: string, hosts: set<string>, b: string, e: string)
    requires GoodHosts(hosts) && MarkerFree(hosts) && hosts != {} && GoodMarkers(b, e)
    ensures SkippingIsInvisible(t, hosts, b, e) <==> Tame(t, b, e) && TellApart(hosts)
  {
    hide GoodHosts, GoodMarkers, CleanRun, StripManagedBlock, Settled, SkipRun, PlainRun, Confuses, MarkerFree, TrimRight, Unmanaged;
    if !Settled(t, b, e) {
      var h :| h in hosts;
      GoodAreTrimmed(hosts);
      var run := LongSnapshotTwice(t, h, hosts, b, e);
    } else if !Tame(t, b, e) {
      var run := TwiceTheSame(t, hosts, b, e);
    } else if TellApart(hosts) {
      SkipRefinesPlain(t, hosts, b, e);
    } else {
      var h, k :| h in hosts && k in hosts && Confuses(h, k);
      var run := ConfusedRun(t, h, k, hosts, b, e);
    }
  }

  lemma {:induction false} GoodAreTrimmed(hosts: set<string>)
    requires GoodHosts(hosts)
    ensures TrimmedHosts(hosts)
  {
    hide TrimSpace;
  }

  /** On a file that is not settled, applying a long enough snapshot again changes the file. */
  lemma {:induction false} LongSnapshotTwice(t: string, h: string, hosts: set<string>, b: string,
                                             e: string) returns (run: seq<Sync>)
    requires TrimmedHosts(hosts) && MarkerFree(hosts) && h in hosts && GoodMarkers(b, e) && !Settled(t, b, e)
    ensures CleanRun(run, hosts, e) && SkipRun(t, run, b, e).file != PlainRun(t, run, b, e)
  {
    hide StripManagedBlock, Trim, TrimRight, Render, Block, KeyOf, BlockLines, Unmanaged, GoodMarkers, CleanLines, AsRead, ApplyBlock,
      Over, Settled;
    var n := |StripManagedBlock(t, b, e)| + 1;
    var es, x, filler, y := LongSnapshot(n, h, hosts, b, e);
    var once := Sync(es, true);
    run := [once, once];
    assert run[..1] == [once] && [once][..0] == [];
    var block := BlockText(es, b, e);
    StripMissesBase(t, BlockLines(es), x, filler, y, b, e);
    var base := TrimRight(StripManagedBlock(t, b, e), IsNewline);
    var first := ApplyBlock(t, block, b, e);
    assert first == Render(base, block) by {
      Applied(t, block, b, e);
    }
    Applied(first, block, b, e);
    RenderTellsBases(TrimRight(StripManagedBlock(first, b, e), IsNewline), base, block);
    assert PlainRun(t, [once], b, e) == first;
    assert PlainRun(t, run, b, e) == ApplyBlock(first, block, b, e);
    assert SkipRun(t, [once], b, e) == SyncState(first, Some(KeyOf(es)));
    assert SkipRun(t, run, b, e).file == first;
  }

  /** One entry of the host with a long address. */
  lemma {:induction false} LongSnapshot(n: nat, h: string, hosts: set<string>, b: string, e: string)
    returns (es: seq<Entry>, x: string, filler: string, y: string)
    requires TrimmedHosts(hosts) && MarkerFree(hosts) && h in hosts && GoodMarkers(b, e) && n > 0
    ensures CleanSnapshot(es, hosts, e) && BlockText(es, b, e) == x + filler + y && OneLine(filler) && |filler| == n
  {
    hide Trim, IsSpace, Sort, EntryLeq, Contains, GoodMarkers, Block;
    filler := seq(n, i => 'p');
    PlainCharacters();
    CleanAddress(filler);
    var entry := Entry(h, filler);
    es := [entry];
    KeptKeepsRead(es);
    SortOne(entry);
    var line := BlockLine(entry);
    assert BlockLines(es) == [line];
    PlainLineClean(line, b, e);
    LineInBlock(line, b, e);
    x, y := b + "\n", " " + h + ("\n" + e);
    assert b + "\n" + (filler + " " + h) + ("\n" + e) == x + filler + y;
  }

  lemma {:induction false} ConfusedRun(t: string, h: string, k: string, hosts: set<string>, b: string,
                                       e: string) returns (run: seq<Sync>)
    requires GoodHosts(hosts) && MarkerFree(hosts) && h in hosts && k in hosts && Confuses(h, k)
    requires GoodMarkers(b, e) && Tame(t, b, e)
    ensures CleanRun(run, hosts, e) && SkipRun(t, run, b, e).file != PlainRun(t, run, b, e)
  {
    hide Confuses, StripManagedBlock, Settled, Trim, TrimRight, Render, Block, KeyOf, BlockLines, Unmanaged, GoodMarkers, CleanLines, AsRead,
      IsSpace, ApplyBlock, Over;
    TwoGoodHosts(h, k, hosts);
    var es, fs := ConfusedHostsShareHash(h, k);
    OverMore(es, {h, k}, hosts);
    OverMore(fs, {h, k}, hosts);
    ConfusedLinesClean(h, k, es, fs, b, e);
    BlocksDiffer(es, fs, {h, k}, b, e);
    run := SharedHashShows(t, es, fs, b, e);
  }

  /** Two snapshots with one hash and two blocks: the second is skipped, and that shows. */
  lemma {:induction false} SharedHashShows(t: string, es: seq<Entry>, fs: seq<Entry>, b: string,
                                           e: string) returns (run: seq<Sync>)
    requires GoodMarkers(b, e) && Tame(t, b, e) && CleanLines(BlockLines(es), e)
    requires KeyOf(es) == KeyOf(fs) && BlockText(es, b, e) != BlockText(fs, b, e)
    ensures run == [Sync(es, true), Sync(fs, true)] && SkipRun(t, run, b, e).file != PlainRun(t, run, b, e)
  {
    hide StripManagedBlock, Settled, Trim, TrimRight, Render, Block, KeyOf, BlockLines, Unmanaged, GoodMarkers, CleanLines, ApplyBlock;
    run := [Sync(es, true), Sync(fs, true)];
    var first := [Sync(es, true)];
    assert run[..1] == first && first[..0] == [];
    var one, two := BlockText(es, b, e), BlockText(fs, b, e);
    SecondSyncReplaces(t, BlockLines(es), BlockLines(fs), b, e);
    assert PlainRun(t, first, b, e) == ApplyBlock(t, one, b, e);
    assert PlainRun(t, run, b, e) == Render(Unmanaged(t, b, e), two);
    assert SkipRun(t, first, b, e) == SyncState(ApplyBlock(t, one, b, e), Some(KeyOf(es)));
    assert SkipRun(t, run, b, e).file == ApplyBlock(t, one, b, e);
    TameApplies(t, one, b, e);
    RenderTellsBlocks(Unmanaged(t, b, e), one, two);
  }

  // ---------- newlines inside a field ----------

  /** A run of snapshots as they are read, newlines inside a field and all. */
  predicate ReadRun(run: seq<Sync>, hosts: set<string>, e: string) {
    forall i :: 0 <= i < |run| ==> AsRead(run[i].es) && From(run[i].es, hosts) && CleanLines(BlockLines(run[i].es), e)
  }

  /** As soon as addresses may hold newlines and there is a host, some skip shows, whatever the file and the hosts. */
  lemma {:induction false} SkipNeedsOneLine(t: string, h: string, hosts: set<string>, b: string,
                                            e: string) returns (run: seq<Sync>)
    requires TrimmedHosts(hosts) && MarkerFree(hosts) && h in hosts && GoodMarkers(b, e)
    ensures ReadRun(run, hosts, e) && SkipRun(t, run, b, e).file != PlainRun(t, run, b, e)
  {
    hide GoodMarkers, StripManagedBlock, Settled, SkipRun, PlainRun, TrimRight, Unmanaged, CleanLines, BlockLines, Block, KeyOf, TrimSpace, AsRead;
    if !Settled(t, b, e) {
      run := LongSnapshotTwice(t, h, hosts, b, e);
    } else if !Tame(t, b, e) {
      run := TwiceTheSame(t, hosts, b, e);
    } else {
      var es, fs := NewlineSharesHash(h);
      NewlineBlocks(h, es, fs, b, e);
      run := SharedHashShows(t, es, fs, b, e);
    }
  }

  lemma {:induction false} NewlineBlocks(h: string, es: seq<Entry>, fs: seq<Entry>, b: string, e: string)
    requires GoodMarkers(b, e) && '#' !in h
    requires BlockLines(es) == ["p\n" + h + "=q " + h] && BlockLines(fs) == ["p " + h, "q " + h]
    ensures CleanLines(BlockLines(es), e) && CleanLines(BlockLines(fs), e) && BlockText(es, b, e) != BlockText(fs, b, e)
  {
    hide Contains, Index, Occurs, BlockLines, Join;
    var line, p, q := "p\n" + h + "=q " + h, "p " + h, "q " + h;
    PlainLineClean(line, b, e);
    PlainLineClean(p, b, e);
    PlainLineClean(q, b, e);
    var one, two := BlockText(es, b, e), BlockText(fs, b, e);
    SecondLine(line, [], b, e);
    SecondLine(p, [q], b, e);
    assert [line] + [] == [line] && [p] + [q] == [p, q];
    assert one[|b| + 1..|b| + 1 + |line|][1] == line[1] && two[|b| + 1..|b| + 1 + |p|][1] == p[1];
  }

  lemma {:induction false} SecondLine(line: string, rest: seq<string>, b: string, e: string)
    requires |line| > 1
    ensures var block := Block([line] + rest, b, e);
      |block| > |b| + 1 + |line| && block[|b| + 1..|b| + 1 + |line|] == line
  {
    var all := [b] + ([line] + rest) + [e];
    assert all[1..] == [line] + (rest + [e]) && all[1..][1..] == rest + [e];
    assert Join(all, "\n") == b + "\n" + (line + "\n" + Join(rest + [e], "\n"));
  }

  lemma {:induction false} TwoGoodHosts(h: string, k: string, hosts: set<string>)
    requires GoodHosts(hosts) && h in hosts && k in hosts
    ensures GoodHosts({h, k}) && {h, k} <= hosts
  {
    hide TrimSpace;
  }

  lemma {:induction false} TameApplies(t: string, block: string, b: string, e: string)
    requires Tame(t, b, e)
    ensures ApplyBlock(t, block, b, e) == Render(Unmanaged(t, b, e), block)
  {
    hide StripManagedBlock, Settled, Render, Unmanaged;
  }

  lemma {:induction false} RenderTellsBlocks(base: string, x: string, y: string)
    requires x != y
    ensures Render(base, x) != Render(base, y)
  {
    var n := if base == "" then 0 else |base| + 2;
    if |x| == |y| {
      assert Render(base, x)[n..n + |x|] == x && Render(base, y)[n..n + |y|] == y;
    } else {
      assert |Render(base, x)| == n + |x| + 1 && |Render(base, y)| == n + |y| + 1;
    }
  }

  lemma {:induction false} BlocksDiffer(es: seq<Entry>, fs: seq<Entry>, hosts: set<string>, b: string, e: string)
    requires GoodMarkers(b, e) && GoodHosts(hosts) && AsRead(es) && AsRead(fs) && Over(es, hosts) && Over(fs, hosts)
    requires BlockLines(es) != BlockLines(fs)
    ensures BlockText(es, b, e) != BlockText(fs, b, e)
  {
    hide Join, Contains, AsRead, Over, GoodHosts, BlockLines;
    var x, y := BlockLines(es), BlockLines(fs);
    LinesOfOneLine(es, hosts);
    LinesOfOneLine(fs, hosts);
    var p, q := [b] + x + [e], [b] + y + [e];
    assert p[1..|p| - 1] == x && q[1..|q| - 1] == y;
    assert p != q;
    if Join(p, "\n") == Join(q, "\n") {
      JoinInjective(p, q);
    }
  }

  lemma {:induction false} LinesOfOneLine(es: seq<Entry>, hosts: set<string>)
    requires GoodHosts(hosts) && AsRead(es) && Over(es, hosts)
    ensures forall i :: 0 <= i < |BlockLines(es)| ==> '\n' !in BlockLines(es)[i]
  {
    hide TrimSpace, Sort, EntryLeq;
    var sorted := Sort(es, EntryLeq);
    SortPermutes(es, EntryLeq);
    PermutationAsRead(es, sorted);
    KeptKeepsRead(sorted);
    forall i | 0 <= i < |sorted|
      ensures '\n' !in BlockLine(sorted[i])
    {
      assert sorted[i] in multiset(sorted);
      assert sorted[i] in es;
    }
  }

  /** The lines of two confused entries have no marker and one line each. */
  lemma {:induction false} ConfusedLinesClean(h: string, k: string, es: seq<Entry>, fs: seq<Entry>, b: string, e: string)
    requires GoodMarkers(b, e) && GoodHosts({h, k}) && MarkerFree({h, k}) && Confuses(h, k)
    requires AsRead(es) && AsRead(fs) && |es| == |fs| == 1 && es[0].host == h && fs[0].host == k
    requires es[0].address == k[|h| + 1..] + "=" + fs[0].address && (fs[0].address == "p" || fs[0].address == "q")
    ensures CleanLines(BlockLines(es), e) && CleanLines(BlockLines(fs), e)
  {
    hide TrimSpace, Contains, IsSpace, Sort, EntryLeq, Index, Occurs;
    KeptKeepsRead(es);
    KeptKeepsRead(fs);
    SortOne(es[0]);
    SortOne(fs[0]);
    assert es == [es[0]] && fs == [fs[0]];
    assert h in {h, k} && k in {h, k};
    assert BlockLines(es) == [BlockLine(es[0])] && BlockLines(fs) == [BlockLine(fs[0])];
    PlainLineClean(BlockLine(es[0]), b, e);
    PlainLineClean(BlockLine(fs[0]), b, e);
  }

  lemma {:induction false} PlainLineClean(line: string, b: string, e: string)
    requires GoodMarkers(b, e) && '#' !in line
    ensures !Contains(line, e)
  {
    hide Index;
    MissingCharNoOccurrence(line, e, '#');
  }

  /** The same snapshot twice: without the skip the second write trims the leading newlines. */
  lemma {:induction false} TwiceTheSame(t: string, hosts: set<string>, b: string, e: string) returns (run: seq<Sync>)
    requires GoodMarkers(b, e) && Settled(t, b, e) && !Tame(t, b, e)
    ensures CleanRun(run, hosts, e) && SkipRun(t, run, b, e).file != PlainRun(t, run, b, e)
  {
    hide StripManagedBlock, Settled, Trim, TrimRight, Render, Block, KeyOf, BlockLines, Unmanaged;
    var u := StripManagedBlock(t, b, e);
    var once := Sync([], true);
    run := [once, once];
    assert run[..1] == [once] && [once][..0] == [];
    EmptySnapshotClean(hosts, e);
    var block := BlockText([], b, e);
    SecondSyncReplaces(t, BlockLines([]), BlockLines([]), b, e);
    assert PlainRun(t, [once], b, e) == ApplyBlock(t, block, b, e);
    assert PlainRun(t, run, b, e) == Render(Unmanaged(t, b, e), block);
    assert SkipRun(t, [once], b, e) == SyncState(ApplyBlock(t, block, b, e), Some(KeyOf([])));
    assert SkipRun(t, run, b, e).file == Render(TrimRight(u, IsNewline), block);
    RenderTellsBases(TrimRight(u, IsNewline), Unmanaged(t, b, e), block);
  }

  lemma {:induction false} EmptySnapshotClean(hosts: set<string>, e: string)
    ensures CleanSnapshot([], hosts, e) && BlockLines([]) == []
  {
  }

  // ---------- unmanaged text around a block ----------

  /** User text before and after a well-formed block is kept, in order, but for its line ends. */
  lemma {:induction false} TextAroundBlockKept(pre: string, lines: seq<string>, post: string, b: string, e: string)
    requires GoodMarkers(b, e) && CleanLines(lines, e) && NoMarkers(pre, b, e) && NoMarkers(post, b, e)
    ensures StripManagedBlock(pre + "\n" + Block(lines, b, e) + "\n" + post, b, e) == Trim(Lines(pre + "\n" + post), IsNewline)
  {
    hide Index, Trim, Block, CleanLines, Lines, HasHash;
    var content := pre + "\n" + Block(lines, b, e) + "\n" + post;
    var top := BlockShape(lines, b, e);
    var seen := Lines(Block(lines, b, e));
    BlockEnds(lines, b, e);
    var left, right := NormalizedAround(pre, Block(lines, b, e), post, b, e);
    var n := Lines(content);
    var lower := seen + ['\n'] + right;
    assert n == left + ['\n'] + lower;
    IndexBesideCut(seen, '\n', right, b);
    IndexBesideCut(seen, '\n', right, e);
    OccursBesideCutAnywhere(seen, '\n', right, b);
    OccursBesideCutAnywhere(seen, '\n', right, e);
    IndexBesideCut(left, '\n', lower, b);
    IndexBesideCut(left, '\n', lower, e);
    StripIsCut(content, b, e);
    var stop := |left| + 1 + |seen| + 1;
    assert n[..|left| + 1] + n[stop..] == left + "\n" + right;
  }

  lemma {:induction false} NormalizedAround(pre: string, block: string, post: string, b: string, e: string)
    returns (left: string, right: string)
    requires GoodMarkers(b, e) && NoMarkers(pre, b, e) && NoMarkers(post, b, e) && block != "" && block[|block| - 1] != '\r'
    ensures Lines(pre + "\n" + block + "\n" + post) == left + "\n" + Lines(block) + "\n" + right
    ensures Lines(pre + "\n" + post) == left + "\n" + right && NoMarkers(left, b, e) && NoMarkers(right, b, e)
  {
    hide Index, Lines, HasHash;
    var w, z := pre + "\n", "\n" + post;
    LinesEndInNewline(w);
    LinesOfBoth(w, post);
    LinesWithoutReturns("\n");
    LinesOfBoth("\n", post);
    LinesOfBoth(block, z);
    LinesOfBoth(w, block + z);
    assert pre + "\n" + block + "\n" + post == w + (block + z);
    left, right := Lines(w)[..|Lines(w)| - 1], Lines(post);
    assert Lines(w) == left + ['\n'];
    LinesKeepMarkers(w, b);
    LinesKeepMarkers(w, e);
    LinesKeepMarkers(post, b);
    LinesKeepMarkers(post, e);
    WithNewline(pre, b);
    WithNewline(pre, e);
    WithNewline(left, b);
    WithNewline(left, e);
  }

  /** Two patterns of almost the same length that differ early. */
  lemma {:induction false} NotInside(b: string, e: string)
    requires 2 < |e| <= |b| <= |e| + 2 && e[0] == '#' && b[1] != '#' && b[2] != '#' && b[2] != e[2]
    ensures !Contains(b, e)
  {
    hide Index;
    forall i: nat
      ensures !OccursAt(b, e, i)
    {
      if i + |e| <= |b| {
        OccursPointwise(b, e, i);
        assert b[i + 0] != e[0] || b[i + 2] != e[2];
      }
    }
  }

  lemma {:induction false} MarkersOneLine()
    ensures '\n' !in BEGIN_MARKER && '\r' !in BEGIN_MARKER && '\n' !in END_MARKER && '\r' !in END_MARKER
  {
    assert forall i :: 0 <= i < |BEGIN_MARKER| ==> BEGIN_MARKER[i] != '\n' && BEGIN_MARKER[i] != '\r';
    assert forall i :: 0 <= i < |END_MARKER| ==> END_MARKER[i] != '\n' && END_MARKER[i] != '\r';
  }

  lemma {:induction false} MarkersAreGood()
    ensures GoodMarkers(BEGIN_MARKER, END_MARKER)
  {
    hide Index, Contains;
    var b, e := BEGIN_MARKER, END_MARKER;
    assert |b| == 27 && |e| == 25;
    assert b[0] == '#' && b[1] == ' ' && b[2] == 'B' && e[0] == '#' && e[2] == 'E';
    NotInside(b, e);
    ShorterNoOccurrence(e, b);
    MarkersOneLine();
  }
}
