/** Metric records from raw counters: rates over the time between two samples, and CPU shares. */
module MetricRecords {
  import opened Outcomes

  const U64: int := 0x1_0000_0000_0000_0000

  /** `deltaCounterU64` */
  function Delta(cur: nat, prev: nat): nat {
    if cur < prev then 0 else cur - prev
  }

  /** Counters of one sample. The CPU fields are the columns of the aggregate line, idle being the fourth. */
  datatype Raw = Raw(at: int, cpu: seq<nat>, diskRead: nat, diskWrite: nat, netRx: nat, netTx: nat)

  datatype ServiceCounters = ServiceCounters(at: int, cpu: nat, diskRead: nat, diskWrite: nat, netRx: nat, netTx: nat)

  datatype ServiceSnapshot = ServiceSnapshot(service: string, counters: ServiceCounters)

  datatype Rates = Rates(cpuPercent: real, diskRead: real, diskWrite: real, netRx: real, netTx: real)

  const NO_RATES := Rates(0.0, 0.0, 0.0, 0.0, 0.0)

  datatype ServiceRecord = ServiceRecord(service: string, rates: Rates)

  datatype Record = Record(at: int, host: Rates, services: seq<ServiceRecord>)

  function Sum(vals: seq<nat>): nat {
    if vals == [] then 0 else vals[0] + Sum(vals[1..])
  }

  /** The uint64 sum of all CPU columns. */
  function CpuTotal(r: Raw): nat {
    Sum(r.cpu) % U64
  }

  /** The columns are uint64 values. */
  function CpuIdle(r: Raw): nat {
    if |r.cpu| > 3 then r.cpu[3] % U64 else 0
  }

  /** The subtraction of two uint64 values. */
  function SubU64(a: nat, b: nat): (d: nat)
    requires a < U64 && b < U64
    ensures d == if b <= a then a - b else U64 + a - b
  {
    (a - b) % U64
  }

  function Seconds(cur: int, prev: int): real {
    (cur - prev) as real / 1000.0
  }

  function HostCpu(cur: Raw, prev: Raw): real {
    var total := Delta(CpuTotal(cur), CpuTotal(prev));
    if total > 0 then
      var idle := Delta(CpuIdle(cur), CpuIdle(prev));
      SubU64(total, idle) as real / total as real * 100.0
    else 0.0
  }

  /** `computeBasicMetricRecord`, the rates. */
  function HostRates(cur: Raw, prev: Option<Raw>): Rates {
    if prev.None? || cur.at <= prev.value.at then NO_RATES
    else
      var seconds := Seconds(cur.at, prev.value.at);
      Rates(HostCpu(cur, prev.value),
            Delta(cur.diskRead, prev.value.diskRead) as real / seconds,
            Delta(cur.diskWrite, prev.value.diskWrite) as real / seconds,
            Delta(cur.netRx, prev.value.netRx) as real / seconds,
            Delta(cur.netTx, prev.value.netTx) as real / seconds)
  }

  // ---------- CPU shares ----------

  lemma {:induction false} RatioAtMostHundred(part: nat, whole: nat)
    requires whole > 0
    ensures part as real / whole as real * 100.0 <= 100.0 <==> part <= whole
    ensures part as real / whole as real * 100.0 >= 0.0
  {
    var q := part as real / whole as real;
    assert q * whole as real == part as real;
    if part <= whole {
      assert q <= 1.0;
    } else {
      assert q > 1.0;
    }
  }

  /** The host's CPU share lies in 0..100 exactly when the idle time grew by no more than the total. */
  lemma {:induction false} CpuShareIsExact(cur: Raw, prev: Raw)
    ensures var total := Delta(CpuTotal(cur), CpuTotal(prev));
      0.0 <= HostCpu(cur, prev) <= 100.0 <==> total == 0 || Delta(CpuIdle(cur), CpuIdle(prev)) <= total
  {
    var total := Delta(CpuTotal(cur), CpuTotal(prev));
    if total > 0 {
      var idle := Delta(CpuIdle(cur), CpuIdle(prev));
      RatioAtMostHundred(SubU64(total, idle), total);
    }
  }

  lemma {:induction false} SumGrows(a: seq<nat>, b: seq<nat>, k: nat)
    requires |a| == |b| && forall i :: 0 <= i < |a| ==> a[i] <= b[i]
    ensures Sum(a) <= Sum(b)
    ensures k < |a| ==> b[k] - a[k] <= Sum(b) - Sum(a)
  {
    if a != [] {
      SumGrows(a[1..], b[1..], if k > 0 then k - 1 else |a|);
    }
  }

  lemma {:induction false} ColumnAtMostSum(a: seq<nat>, k: nat)
    requires k < |a|
    ensures a[k] <= Sum(a)
  {
    if k > 0 {
      ColumnAtMostSum(a[1..], k - 1);
    }
  }

  /** Columns that never decrease and totals that do not overflow give a share in 0..100. */
  lemma {:induction false} GrowingColumnsGiveAShare(cur: Raw, prev: Raw)
    requires |cur.cpu| == |prev.cpu| && forall i :: 0 <= i < |cur.cpu| ==> prev.cpu[i] <= cur.cpu[i]
    requires Sum(cur.cpu) < U64 && Sum(prev.cpu) < U64
    ensures 0.0 <= HostCpu(cur, prev) <= 100.0
  {
    SumGrows(prev.cpu, cur.cpu, 3);
    if |cur.cpu| > 3 {
      ColumnAtMostSum(cur.cpu, 3);
      ColumnAtMostSum(prev.cpu, 3);
    }
    assert CpuTotal(cur) == Sum(cur.cpu) && CpuTotal(prev) == Sum(prev.cpu);
    CpuShareIsExact(cur, prev);
  }

  /**
    The host's CPU share of columns that never decrease: the growth of all columns but the idle one, in hundredths of
    the growth of all; nothing when none grew.
   */
  lemma {:induction false} CpuShareIsBusyTime(cur: Raw, prev: Raw)
    requires |cur.cpu| == |prev.cpu| > 3 && forall i :: 0 <= i < |cur.cpu| ==> prev.cpu[i] <= cur.cpu[i]
    requires Sum(cur.cpu) < U64 && Sum(prev.cpu) < U64 && cur.at > prev.at
    ensures var grown, idle := Sum(cur.cpu) - Sum(prev.cpu), cur.cpu[3] - prev.cpu[3];
      && 0 <= idle <= grown
      && HostRates(cur, Some(prev)).cpuPercent == if grown == 0 then 0.0 else (grown - idle) as real / grown as real * 100.0
  {
    SumGrows(prev.cpu, cur.cpu, 3);
    ColumnAtMostSum(cur.cpu, 3);
    ColumnAtMostSum(prev.cpu, 3);
    assert CpuTotal(cur) == Sum(cur.cpu) && CpuTotal(prev) == Sum(prev.cpu);
    assert CpuIdle(cur) == cur.cpu[3] && CpuIdle(prev) == prev.cpu[3];
  }

  /** A shrinking I/O-wait column makes the subtraction wrap around: the share leaves the range. */
  lemma {:induction false} ShrinkingColumnWraps()
    ensures var prev := Raw(0, [10, 0, 10, 100, 50], 0, 0, 0, 0);
      var cur := Raw(1000, [11, 0, 11, 110, 40], 0, 0, 0, 0);
      HostCpu(cur, prev) > 100.0
  {
    hide Sum, HostCpu;
    var prev := Raw(0, [10, 0, 10, 100, 50], 0, 0, 0, 0);
    var cur := Raw(1000, [11, 0, 11, 110, 40], 0, 0, 0, 0);
    SumOfFive(10, 0, 10, 100, 50);
    SumOfFive(11, 0, 11, 110, 40);
    assert CpuTotal(prev) == 170 && CpuTotal(cur) == 172;
    CpuShareIsExact(cur, prev);
    ShareNotNegative(cur, prev);
  }

  lemma {:induction false} ShareNotNegative(cur: Raw, prev: Raw)
    ensures HostCpu(cur, prev) >= 0.0
  {
    var total := Delta(CpuTotal(cur), CpuTotal(prev));
    if total > 0 {
      RatioAtMostHundred(SubU64(total, Delta(CpuIdle(cur), CpuIdle(prev))), total);
    }
  }

  lemma {:induction false} SumOfFive(a: nat, b: nat, c: nat, d: nat, e: nat)
    ensures Sum([a, b, c, d, e]) == a + b + c + d + e
  {
    var s := [a, b, c, d, e];
    assert s[1..] == [b, c, d, e] && [b, c, d, e][1..] == [c, d, e] && [c, d, e][1..] == [d, e] && [d, e][1..] == [e] && [e][1..] == [];
    assert Sum([e]) == e && Sum([d, e]) == d + e && Sum([c, d, e]) == c + d + e;
    assert Sum([b, c, d, e]) == b + c + d + e;
  }

  // ---------- counter accounting ----------

  /** One counter with the times of its samples. */
  datatype Reading = Reading(at: int, value: nat)

  function Rate(cur: Reading, prev: Reading): real {
    if cur.at <= prev.at then 0.0 else Delta(cur.value, prev.value) as real / Seconds(cur.at, prev.at)
  }

  /** Rate times elapsed seconds, summed over consecutive samples. */
  function Accounted(rs: seq<Reading>): real {
    if |rs| < 2 then 0.0
    else Accounted(rs[..|rs| - 1]) + Rate(rs[|rs| - 1], rs[|rs| - 2]) * ((rs[|rs| - 1].at - rs[|rs| - 2].at) as real / 1000.0)
  }

  /** By how much the counter has dropped in all. */
  function Drops(rs: seq<Reading>): nat {
    if |rs| < 2 then 0 else Drops(rs[..|rs| - 1]) + Delta(rs[|rs| - 2].value, rs[|rs| - 1].value)
  }

  /** What it has grown between samples whose clock did not advance. */
  function Unseen(rs: seq<Reading>): nat {
    if |rs| < 2 then 0 else Unseen(rs[..|rs| - 1]) + UnseenStep(rs[|rs| - 1], rs[|rs| - 2])
  }

  function UnseenStep(cur: Reading, prev: Reading): nat {
    if cur.at <= prev.at then Delta(cur.value, prev.value) else 0
  }

  /** The rates account for the whole growth, drops counted as restarts, but for what grew while the clock stood. */
  lemma {:induction false} RatesAccount(rs: seq<Reading>)
    requires rs != []
    ensures Accounted(rs) == (rs[|rs| - 1].value - rs[0].value + Drops(rs) - Unseen(rs)) as real
  {
    hide Rate, Seconds, Delta;
    if |rs| >= 2 {
      var n := |rs| - 1;
      DeltaBothWays(rs[n].value, rs[n - 1].value);
      RatesAccount(rs[..n]);
      assert rs[..n][n - 1] == rs[n - 1] && rs[..n][0] == rs[0];
      RateTimesElapsed(rs[n], rs[n - 1]);
    }
  }

  lemma {:induction false} DeltaBothWays(a: nat, b: nat)
    ensures Delta(a, b) - Delta(b, a) == a - b
  {
  }

  lemma {:induction false} RateTimesElapsed(cur: Reading, prev: Reading)
    ensures Rate(cur, prev) * ((cur.at - prev.at) as real / 1000.0) == if cur.at <= prev.at then 0.0 else Delta(cur.value, prev.value) as real
  {
  }

  /** Nothing is missed exactly when the counter never grew while the clock stood. */
  lemma {:induction false} AccountingIsExact(rs: seq<Reading>)
    requires rs != []
    ensures Accounted(rs) == (rs[|rs| - 1].value - rs[0].value + Drops(rs)) as real <==>
      forall i :: 0 <= i < |rs| - 1 && rs[i + 1].at <= rs[i].at ==> rs[i + 1].value <= rs[i].value
  {
    RatesAccount(rs);
    NothingUnseen(rs);
  }

  lemma {:induction false} NothingUnseen(rs: seq<Reading>)
    ensures Unseen(rs) == 0 <==> forall i :: 0 <= i < |rs| - 1 && rs[i + 1].at <= rs[i].at ==> rs[i + 1].value <= rs[i].value
  {
    if |rs| >= 2 {
      var n := |rs| - 1;
      NothingUnseen(rs[..n]);
      assert forall i :: 0 <= i < n ==> rs[..n][i] == rs[i];
      assert rs[n - 1 + 1] == rs[n];
    }
  }

  // ---------- the four counters of the host ----------

  datatype Counter = DiskRead | DiskWrite | NetRx | NetTx

  function ReadingOf(raw: Raw, c: Counter): Reading {
    Reading(raw.at, match c
      case DiskRead => raw.diskRead
      case DiskWrite => raw.diskWrite
      case NetRx => raw.netRx
      case NetTx => raw.netTx)
  }

  function RateOf(r: Rates, c: Counter): real {
    match c
    case DiskRead => r.diskRead
    case DiskWrite => r.diskWrite
    case NetRx => r.netRx
    case NetTx => r.netTx
  }

  function Readings(raws: seq<Raw>, c: Counter): (rs: seq<Reading>)
    ensures |rs| == |raws| && forall i :: 0 <= i < |raws| ==> rs[i] == ReadingOf(raws[i], c)
  {
    seq(|raws|, i requires 0 <= i < |raws| => ReadingOf(raws[i], c))
  }

  /** The rates of consecutive samples, each against the one before it. */
  function HostSeries(raws: seq<Raw>): (rates: seq<Rates>)
    ensures |rates| == |raws| && forall i :: 0 <= i < |raws| ==> rates[i] == HostRatesAt(raws, i)
  {
    seq(|raws|, i requires 0 <= i < |raws| => HostRatesAt(raws, i))
  }

  function HostRatesAt(raws: seq<Raw>, i: nat): Rates
    requires i < |raws|
  {
    HostRates(raws[i], if i == 0 then None else Some(raws[i - 1]))
  }

  /** What a reader of the records adds up: each rate times the seconds since the record before it. */
  function AddedUp(raws: seq<Raw>, rates: seq<Rates>, c: Counter): real
    requires |raws| == |rates|
  {
    if |raws| < 2 then 0.0
    else
      var n := |raws| - 1;
      AddedUp(raws[..n], rates[..n], c) + RateOf(rates[n], c) * ((raws[n].at - raws[n - 1].at) as real / 1000.0)
  }

  lemma {:induction false} HostRatesAreRates(cur: Raw, prev: Raw, c: Counter)
    ensures RateOf(HostRates(cur, Some(prev)), c) == Rate(ReadingOf(cur, c), ReadingOf(prev, c))
  {
    hide HostCpu;
  }

  lemma {:induction false} ReadAt(raw: Raw, c: Counter)
    ensures ReadingOf(raw, c).at == raw.at
  {
  }

  lemma {:induction false} AddedUpIsAccounted(raws: seq<Raw>, c: Counter)
    ensures AddedUp(raws, HostSeries(raws), c) == Accounted(Readings(raws, c))
  {
    hide HostRates, Rate, Seconds, RateOf, ReadingOf, HostSeries, Readings;
    if |raws| >= 2 {
      var n := |raws| - 1;
      AddedUpIsAccounted(raws[..n], c);
      assert HostSeries(raws)[..n] == HostSeries(raws[..n]);
      assert Readings(raws, c)[..n] == Readings(raws[..n], c);
      ReadAt(raws[n], c);
      ReadAt(raws[n - 1], c);
      HostRatesAreRates(raws[n], raws[n - 1], c);
    }
  }

  /** The host records of any run of samples account for the whole growth of each of their four counters. */
  lemma {:induction false} HostRecordsAccount(raws: seq<Raw>, c: Counter)
    requires raws != []
    ensures var rs := Readings(raws, c);
      AddedUp(raws, HostSeries(raws), c) == (rs[|rs| - 1].value - rs[0].value + Drops(rs) - Unseen(rs)) as real
  {
    hide AddedUp, HostSeries;
    AddedUpIsAccounted(raws, c);
    RatesAccount(Readings(raws, c));
  }

  // ---------- services ----------

  function Clamp(v: real): (r: real)
    ensures 0.0 <= r <= 100.0 && (0.0 <= v <= 100.0 ==> r == v)
  {
    if v < 0.0 then 0.0 else if v > 100.0 then 100.0 else v
  }

  /** Rates against the last counters of the same service; the CPU share is over all cores. */
  function ServiceRates(cur: ServiceCounters, last: Option<ServiceCounters>, cores: nat): Rates
    requires cores > 0
  {
    if last.None? || cur.at <= last.value.at then NO_RATES
    else
      var seconds := Seconds(cur.at, last.value.at);
      var nanos := (cur.at - last.value.at) * 1_000_000 * cores;
      Rates(Clamp(Delta(cur.cpu, last.value.cpu) as real / nanos as real * 100.0),
            Delta(cur.diskRead, last.value.diskRead) as real / seconds,
            Delta(cur.diskWrite, last.value.diskWrite) as real / seconds,
            Delta(cur.netRx, last.value.netRx) as real / seconds,
            Delta(cur.netTx, last.value.netTx) as real / seconds)
  }

  function Last(prev: map<string, ServiceCounters>, service: string): Option<ServiceCounters> {
    if service in prev then Some(prev[service]) else None
  }

  function ServiceRecords(current: seq<ServiceSnapshot>, prev: map<string, ServiceCounters>, cores: nat): (r: seq<ServiceRecord>)
    requires cores > 0
    ensures |r| == |current|
    ensures forall i :: 0 <= i < |current| ==>
      r[i] == ServiceRecord(current[i].service, ServiceRates(current[i].counters, Last(prev, current[i].service), cores))
  {
    seq(|current|, i requires 0 <= i < |current| =>
      ServiceRecord(current[i].service, ServiceRates(current[i].counters, Last(prev, current[i].service), cores)))
  }

  /** The counters kept for the next round: only services of this round, the last snapshot of each. */
  function NextCounters(current: seq<ServiceSnapshot>): map<string, ServiceCounters> {
    if current == [] then map[]
    else NextCounters(current[..|current| - 1])[current[|current| - 1].service := current[|current| - 1].counters]
  }

  method ComputeServiceMetricRecords(current: seq<ServiceSnapshot>, prev: map<string, ServiceCounters>, cores: nat)
    returns (out: seq<ServiceRecord>, next: map<string, ServiceCounters>)
    requires cores > 0
    ensures out == ServiceRecords(current, prev, cores) && next == NextCounters(current)
  {
    hide ServiceRates;
    out, next := [], map[];
    if current == [] {
      return;
    }
    for i := 0 to |current|
      invariant |out| == i && next == NextCounters(current[..i])
      invariant forall j :: 0 <= j < i ==>
        out[j] == ServiceRecord(current[j].service, ServiceRates(current[j].counters, Last(prev, current[j].service), cores))
    {
      var item := current[i];
      assert current[..i + 1][..i] == current[..i];
      out := out + [ServiceRecord(item.service, ServiceRates(item.counters, Last(prev, item.service), cores))];
      next := next[item.service := item.counters];
    }
    assert current[..|current|] == current;
  }

  lemma {:induction false} NextKnows(current: seq<ServiceSnapshot>, service: string)
    ensures service in NextCounters(current) <==> exists i :: 0 <= i < |current| && current[i].service == service
  {
    if current != [] {
      var n := |current| - 1;
      NextKnows(current[..n], service);
      if service in NextCounters(current[..n]) {
        var i :| 0 <= i < n && current[..n][i].service == service;
        assert current[i].service == service;
      }
      forall i | 0 <= i < n && current[i].service == service
        ensures service in NextCounters(current[..n])
      {
        assert current[..n][i].service == service;
      }
    }
  }

  /** A service missing from one round starts afresh in the next: its first record after the gap has no rates. */
  lemma {:induction false} GapForgetsService(missed: seq<ServiceSnapshot>, current: seq<ServiceSnapshot>, cores: nat, i: nat)
    requires cores > 0 && i < |current| && forall j :: 0 <= j < |missed| ==> missed[j].service != current[i].service
    ensures ServiceRecords(current, NextCounters(missed), cores)[i].rates == NO_RATES
  {
    NextKnows(missed, current[i].service);
  }

  // ---------- the counters of a service ----------

  function ServiceReadingOf(cs: ServiceCounters, c: Counter): Reading {
    Reading(cs.at, match c
      case DiskRead => cs.diskRead
      case DiskWrite => cs.diskWrite
      case NetRx => cs.netRx
      case NetTx => cs.netTx)
  }

  function ServiceReadings(run: seq<ServiceCounters>, c: Counter): (rs: seq<Reading>)
    ensures |rs| == |run| && forall i :: 0 <= i < |run| ==> rs[i] == ServiceReadingOf(run[i], c)
  {
    seq(|run|, i requires 0 <= i < |run| => ServiceReadingOf(run[i], c))
  }

  /** What a reader adds up of one service over rounds that all report it. */
  function ServiceAddedUp(run: seq<ServiceCounters>, cores: nat, c: Counter): real
    requires cores > 0
  {
    if |run| < 2 then 0.0
    else
      var n := |run| - 1;
      ServiceAddedUp(run[..n], cores, c)
      + RateOf(ServiceRates(run[n], Some(run[n - 1]), cores), c) * ((run[n].at - run[n - 1].at) as real / 1000.0)
  }

  /** The records of a service account for the whole growth of each of its four counters, each in its own column. */
  lemma {:induction false} ServiceRecordsAccount(run: seq<ServiceCounters>, cores: nat, c: Counter)
    requires cores > 0 && run != []
    ensures var rs := ServiceReadings(run, c);
      ServiceAddedUp(run, cores, c) == (rs[|rs| - 1].value - rs[0].value + Drops(rs) - Unseen(rs)) as real
  {
    ServiceAddedUpIsAccounted(run, cores, c);
    RatesAccount(ServiceReadings(run, c));
  }

  lemma {:induction false} ServiceAddedUpIsAccounted(run: seq<ServiceCounters>, cores: nat, c: Counter)
    requires cores > 0
    ensures ServiceAddedUp(run, cores, c) == Accounted(ServiceReadings(run, c))
  {
    hide Rate, Seconds, RateOf, ServiceReadingOf, ServiceReadings, ServiceRates;
    if |run| >= 2 {
      var n := |run| - 1;
      ServiceAddedUpIsAccounted(run[..n], cores, c);
      assert ServiceReadings(run, c)[..n] == ServiceReadings(run[..n], c);
      ServiceRatesAreRates(run[n], run[n - 1], cores, c);
    }
  }

  lemma {:induction false} ServiceRatesAreRates(cur: ServiceCounters, last: ServiceCounters, cores: nat, c: Counter)
    requires cores > 0
    ensures ServiceReadingOf(cur, c).at == cur.at && ServiceReadingOf(last, c).at == last.at
    ensures RateOf(ServiceRates(cur, Some(last), cores), c) == Rate(ServiceReadingOf(cur, c), ServiceReadingOf(last, c))
  {
    hide Clamp;
  }

  /**
    The CPU share of a service: the nanoseconds it ran, in hundredths of what all cores had between the two samples,
    and never more than all of it.
   */
  lemma {:induction false} ServiceCpuShare(cur: ServiceCounters, last: ServiceCounters, cores: nat)
    requires cores > 0 && cur.at > last.at
    ensures var had, ran := (cur.at - last.at) * 1_000_000 * cores, if cur.cpu < last.cpu then 0 else cur.cpu - last.cpu;
      && had > 0
      && ServiceRates(cur, Some(last), cores).cpuPercent == if ran >= had then 100.0 else ran as real / had as real * 100.0
  {
    var had := (cur.at - last.at) * 1_000_000 * cores;
    Positive(cur.at - last.at, cores);
    ShareBelowAll(Delta(cur.cpu, last.cpu), had);
  }

  lemma {:induction false} Positive(elapsed: int, cores: nat)
    requires elapsed > 0 && cores > 0
    ensures elapsed * 1_000_000 * cores > 0
  {
    var ms := elapsed * 1_000_000;
    assert ms > 0 && ms * cores > 0;
  }

  lemma {:induction false} ShareBelowAll(part: nat, whole: nat)
    requires whole > 0
    ensures Clamp(part as real / whole as real * 100.0) == if part >= whole then 100.0 else part as real / whole as real * 100.0
  {
    RatioAtMostHundred(part, whole);
    if part == whole {
      assert part as real / whole as real == 1.0;
    }
  }

  /** A round reports the service once, with these counters. */
  predicate Reports(round: seq<ServiceSnapshot>, service: string, counters: ServiceCounters) {
    exists i :: 0 <= i < |round| && round[i] == ServiceSnapshot(service, counters)
                && forall j :: 0 <= j < |round| && j != i ==> round[j].service != service
  }

  /** Without an earlier sample, or with one that is not older, every rate is zero. */
  lemma {:induction false} NoTimeNoRates(cur: Raw, prev: Option<Raw>, counters: ServiceCounters,
                                         last: Option<ServiceCounters>, cores: nat)
    requires cores > 0
    ensures prev.None? || cur.at <= prev.value.at ==> HostRates(cur, prev) == Rates(0.0, 0.0, 0.0, 0.0, 0.0)
    ensures last.None? || counters.at <= last.value.at ==> ServiceRates(counters, last, cores) == Rates(0.0, 0.0, 0.0, 0.0, 0.0)
  {
    hide HostCpu, Clamp;
  }

  /** A service's record is computed against its own counters of the round before. */
  lemma {:induction false} RecordAgainstLastRound(before: seq<ServiceSnapshot>, current: seq<ServiceSnapshot>,
                                                  last: ServiceCounters,
                                                  cores: nat, i: nat)
    requires cores > 0 && i < |current| && Reports(before, current[i].service, last)
    ensures ServiceRecords(current, NextCounters(before), cores)[i]
         == ServiceRecord(current[i].service, ServiceRates(current[i].counters, Some(last), cores))
  {
    hide ServiceRates;
    var k :| 0 <= k < |before| && before[k] == ServiceSnapshot(current[i].service, last)
             && forall j :: 0 <= j < |before| && j != k ==> before[j].service != current[i].service;
    NextIsLast(before, k);
  }

  /** Of a service that a round reports more than once, the last snapshot counts. */
  lemma {:induction false} NextIsLast(current: seq<ServiceSnapshot>, i: nat)
    requires i < |current| && forall j :: i < j < |current| ==> current[j].service != current[i].service
    ensures var next := NextCounters(current);
      current[i].service in next && next[current[i].service] == current[i].counters
  {
    var n := |current| - 1;
    if i < n {
      var some := current[..n];
      assert some[i] == current[i] && forall j :: i < j < n ==> some[j] == current[j];
      NextIsLast(some, i);
    }
  }
}
