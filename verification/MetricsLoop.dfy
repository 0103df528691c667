/** The metrics loop: sampling, batching, flushing and policy changes, and what reaches the server. */
module MetricsLoop {
  import opened Outcomes
  import opened MetricRecords

  const SECOND: int := 1_000_000_000
  const I64_LIMIT: int := 0x8000_0000_0000_0000

  /** Durations are int64 nanoseconds. */
  datatype Policy = Policy(stream: bool, flush: int, sample: int, streamSample: int, maxRecords: int)

  const DEFAULT_POLICY := Policy(false, 180 * SECOND, 10 * SECOND, 3 * SECOND, 2048)

  /** The int64 value of an integer. */
  function Wrap64(n: int): int {
    (n + I64_LIMIT) % (2 * I64_LIMIT) - I64_LIMIT
  }

  /** `secondsAsDuration`: the product wraps. */
  function SecondsAsDuration(seconds: int, fallback: int): int {
    if seconds <= 0 then fallback else Wrap64(seconds * SECOND)
  }

  /** The policy `GetMetricsPolicy` makes of a response. */
  function LoadedPolicy(stream: bool, flush: int, sample: int, streamSample: int, maxRecords: int): Policy {
    Policy(stream, SecondsAsDuration(flush, DEFAULT_POLICY.flush), SecondsAsDuration(sample, DEFAULT_POLICY.sample),
           SecondsAsDuration(streamSample, DEFAULT_POLICY.streamSample),
           if maxRecords > 0 then maxRecords else DEFAULT_POLICY.maxRecords)
  }

  /** The largest number of seconds an int64 duration can hold. */
  const MAX_SECONDS: int := 9223372036

  lemma {:induction false} DurationIsExact(seconds: int, fallback: int)
    requires seconds > 0
    ensures SecondsAsDuration(seconds, fallback) == seconds * SECOND <==> seconds <= MAX_SECONDS
  {
    if seconds > MAX_SECONDS {
      assert Wrap64(seconds * SECOND) < I64_LIMIT;
    }
  }

  /** The policy of a response: its seconds where they fit, and where it names none 180, 10 and 3 seconds and 2048 records. */
  lemma {:induction false} LoadedValues(stream: bool, flush: int, sample: int, streamSample: int, maxRecords: int)
    requires flush <= MAX_SECONDS && sample <= MAX_SECONDS && streamSample <= MAX_SECONDS
    ensures LoadedPolicy(stream, flush, sample, streamSample, maxRecords) == Policy(
      stream, (if flush > 0 then flush else 180) * 1_000_000_000, (if sample > 0 then sample else 10) * 1_000_000_000,
      (if streamSample > 0 then streamSample else 3) * 1_000_000_000, if maxRecords > 0 then maxRecords else 2048)
  {
    if flush > 0 {
      DurationIsExact(flush, DEFAULT_POLICY.flush);
    }
    if sample > 0 {
      DurationIsExact(sample, DEFAULT_POLICY.sample);
    }
    if streamSample > 0 {
      DurationIsExact(streamSample, DEFAULT_POLICY.streamSample);
    }
  }

  /** The tickers of the loop start with the loaded policy as it is; a ticker refuses a period that is not positive. */
  predicate TickersStart(p: Policy) {
    (if p.stream then p.streamSample else p.sample) > 0 && p.flush > 0
  }

  /** An interval of the response that gives a positive period: none at all, or one whose product wraps to a positive value. */
  predicate GoodInterval(seconds: int) {
    seconds <= 0 || 0 < (seconds * SECOND) % (2 * I64_LIMIT) < I64_LIMIT
  }

  lemma {:induction false} WrapSign(n: int)
    ensures Wrap64(n) > 0 <==> 0 < n % (2 * I64_LIMIT) < I64_LIMIT
  {
    var q, r := n / (2 * I64_LIMIT), n % (2 * I64_LIMIT);
    assert n + I64_LIMIT == q * (2 * I64_LIMIT) + (r + I64_LIMIT);
    ShiftMod(q, r + I64_LIMIT, 2 * I64_LIMIT);
  }

  lemma {:induction false} ShiftMod(q: int, r: int, m: int)
    requires m > 0 && 0 <= r < 2 * m
    ensures (q * m + r) % m == if r < m then r else r - m
  {
    var x := if r < m then r else r - m;
    var p := if r < m then q else q + 1;
    assert q * m + r == p * m + x;
    assert (p * m + x) % m == x by {
      ModOfSum(p, x, m);
    }
  }

  lemma {:induction false} ModOfSum(p: int, x: int, m: int)
    requires 0 <= x < m
    ensures (p * m + x) % m == x
  {
    var n := p * m + x;
    var d := n / m - p;
    assert d * m + n % m == x;
    assert d == 0 by {
      assert d >= 1 ==> d * m >= m;
      assert d <= -1 ==> d * m <= -m;
    }
  }

  /** Exactly which responses start the loop: those whose flush interval and sampling interval in use are good. */
  lemma {:induction false} PolicyStartsExactly(stream: bool, flush: int, sample: int, streamSample: int, maxRecords: int)
    ensures TickersStart(LoadedPolicy(stream, flush, sample, streamSample, maxRecords))
       <==> GoodInterval(flush) && GoodInterval(if stream then streamSample else sample)
  {
    hide Wrap64;
    WrapSign(flush * SECOND);
    WrapSign(sample * SECOND);
    WrapSign(streamSample * SECOND);
  }

  /** Too long an interval may wrap to a negative period or to a short positive one. */
  lemma {:induction false} LongIntervalsWrap()
    ensures !TickersStart(LoadedPolicy(false, MAX_SECONDS + 1, 10, 3, 2048))
    ensures TickersStart(LoadedPolicy(false, 18446744074, 10, 3, 2048)) && SecondsAsDuration(18446744074, 0) < SECOND
  {
    PolicyStartsExactly(false, MAX_SECONDS + 1, 10, 3, 2048);
    PolicyStartsExactly(false, 18446744074, 10, 3, 2048);
  }

  // ---------- one round ----------

  /** What wakes the loop: a policy tick with its answer, a sample tick with what was collected, a flush tick. */
  datatype Event =
    | PolicyTick(loaded: Option<Policy>)
    | SampleTick(raw: Option<Raw>, services: Option<seq<ServiceSnapshot>>, accepted: bool)
    | FlushTick(accepted: bool)

  /** `delivered` are the batches the server has accepted, `streamed` the single records. */
  datatype LoopState = LoopState(policy: Policy, prev: Option<Raw>, prevServices: map<string, ServiceCounters>,
                                 batch: seq<Record>, delivered: seq<seq<Record>>, streamed: seq<Record>)

  function Start(p: Policy): LoopState {
    LoopState(p, None, map[], [], [], [])
  }

  function Snapshots(services: Option<seq<ServiceSnapshot>>): seq<ServiceSnapshot> {
    if services.Some? then services.value else []
  }

  function RecordOf(raw: Raw, services: seq<ServiceSnapshot>, prev: Option<Raw>,
                    prevServices: map<string, ServiceCounters>, cores: nat): Record
    requires cores > 0
  {
    Record(raw.at, HostRates(raw, prev), ServiceRecords(services, prevServices, cores))
  }

  /** A flush: an empty batch is not reported, a refused one stays. */
  function Flushed(s: LoopState, accepted: bool): LoopState {
    if s.batch == [] || !accepted then s else s.(delivered := s.delivered + [s.batch], batch := [])
  }

  function Step(s: LoopState, e: Event, cores: nat): LoopState
    requires cores > 0
  {
    match e
    case PolicyTick(loaded) => if loaded.Some? then s.(policy := loaded.value) else s
    case FlushTick(accepted) => if s.policy.stream then s else Flushed(s, accepted)
    case SampleTick(raw, services, accepted) =>
      if raw.None? then s
      else
        var record := RecordOf(raw.value, Snapshots(services), s.prev, s.prevServices, cores);
        var seen := s.(prev := raw, prevServices := NextCounters(Snapshots(services)));
        if s.policy.stream then if accepted then seen.(streamed := seen.streamed + [record]) else seen
        else
          var more := seen.(batch := seen.batch + [record]);
          if s.policy.maxRecords > 0 && |more.batch| >= s.policy.maxRecords then Flushed(more, accepted) else more
  }

  function Run(s: LoopState, events: seq<Event>, cores: nat): LoopState
    requires cores > 0
    decreases |events|
  {
    if events == [] then s else Run(Step(s, events[0], cores), events[1..], cores)
  }

  class Loop {
    var policy: Policy
    var prev: Option<Raw>
    var prevServices: map<string, ServiceCounters>
    var batch: seq<Record>
    var delivered: seq<seq<Record>>
    var streamed: seq<Record>
    const cores: nat

    ghost function State(): LoopState
      reads this
    {
      LoopState(policy, prev, prevServices, batch, delivered, streamed)
    }

    constructor (p: Policy, cores: nat)
      requires cores > 0
      ensures State() == Start(p) && this.cores == cores
    {
      policy, prev, prevServices, batch, delivered, streamed := p, None, map[], [], [], [];
      this.cores := cores;
    }

    method FlushBatch(accepted: bool)
      modifies this`batch, this`delivered
      ensures State() == Flushed(old(State()), accepted)
    {
      if batch == [] {
        return;
      }
      if accepted {
        delivered := delivered + [batch];
        batch := [];
      }
    }

    method Handle(e: Event)
      requires cores > 0
      modifies this
      ensures State() == Step(old(State()), e, cores)
    {
      hide HostRates, ServiceRecords, NextCounters;
      match e
      case PolicyTick(loaded) =>
        if loaded.Some? {
          policy := loaded.value;
        }
      case FlushTick(accepted) =>
        if !policy.stream {
          FlushBatch(accepted);
        }
      case SampleTick(raw, services, accepted) =>
        if raw.None? {
          return;
        }
        var host := HostRates(raw.value, prev);
        var snapshots := if services.Some? then services.value else [];
        var records, next := ComputeServiceMetricRecords(snapshots, prevServices, cores);
        var record := Record(raw.value.at, host, records);
        prevServices := next;
        prev := raw;
        if policy.stream {
          if accepted {
            streamed := streamed + [record];
          }
          return;
        }
        batch := batch + [record];
        if policy.maxRecords > 0 && |batch| >= policy.maxRecords {
          FlushBatch(accepted);
        }
    }

    /** The loop up to cancellation, which flushes once more. */
    method RunUntilCancelled(events: seq<Event>, accepted: bool)
      requires cores > 0
      modifies this
      ensures State() == Flushed(Run(old(State()), events, cores), accepted)
    {
      hide Step;
      ghost var start := State();
      for i := 0 to |events|
        invariant Run(State(), events[i..], cores) == Run(start, events, cores)
      {
        assert events[i..][1..] == events[i + 1..];
        Handle(events[i]);
      }
      assert events[|events|..] == [];
      FlushBatch(accepted);
    }
  }

  // ---------- conservation ----------

  function Flatten(bs: seq<seq<Record>>): seq<Record> {
    if bs == [] then [] else Flatten(bs[..|bs| - 1]) + bs[|bs| - 1]
  }

  datatype Sample = Sample(raw: Raw, services: seq<ServiceSnapshot>)

  /** The samples that were collected, whatever happened to their records. */
  function Samples(events: seq<Event>): (r: seq<Sample>) {
    if events == [] then [] else SampleIn(events[0]) + Samples(events[1..])
  }

  function SampleIn(e: Event): (r: seq<Sample>)
    ensures |r| == if e.SampleTick? && e.raw.Some? then 1 else 0
  {
    if e.SampleTick? && e.raw.Some? then [Sample(e.raw.value, Snapshots(e.services))] else []
  }

  /** Their records, each against the sample before it. */
  function RecordsOf(samples: seq<Sample>, prev: Option<Raw>, prevServices: map<string, ServiceCounters>,
                     cores: nat): (r: seq<Record>)
    requires cores > 0
    ensures |r| == |samples|
    decreases |samples|
  {
    if samples == [] then []
    else
      var first := RecordOf(samples[0].raw, samples[0].services, prev, prevServices, cores);
      [first] + RecordsOf(samples[1..], Some(samples[0].raw), NextCounters(samples[0].services), cores)
  }

  /** For each collected sample, whether the policy in force was batching. */
  function Batched(events: seq<Event>, p: Policy): (r: seq<bool>)
    ensures |r| == |Samples(events)|
    decreases |events|
  {
    if events == [] then []
    else match events[0]
      case PolicyTick(loaded) => Batched(events[1..], if loaded.Some? then loaded.value else p)
      case FlushTick(_) => Batched(events[1..], p)
      case SampleTick(raw, _, _) => (if raw.Some? then [!p.stream] else []) + Batched(events[1..], p)
  }

  function Select(rs: seq<Record>, keep: seq<bool>): (r: seq<Record>)
    requires |rs| == |keep|
  {
    if rs == [] then [] else (if keep[0] then [rs[0]] else []) + Select(rs[1..], keep[1..])
  }

  /** The records sampled in batch mode, in order. */
  function BatchRecords(s: LoopState, events: seq<Event>, cores: nat): seq<Record>
    requires cores > 0
  {
    Select(RecordsOf(Samples(events), s.prev, s.prevServices, cores), Batched(events, s.policy))
  }

  /** What one event adds to the records sampled in batch mode. */
  function BatchRecordIn(s: LoopState, e: Event, cores: nat): seq<Record>
    requires cores > 0
  {
    if e.SampleTick? && e.raw.Some? && !s.policy.stream
    then [RecordOf(e.raw.value, Snapshots(e.services), s.prev, s.prevServices, cores)] else []
  }

  lemma {:induction false} FlushConserves(s: LoopState, accepted: bool)
    ensures Flatten(Flushed(s, accepted).delivered) + Flushed(s, accepted).batch == Flatten(s.delivered) + s.batch
  {
    assert (s.delivered + [s.batch])[..|s.delivered|] == s.delivered;
  }

  lemma {:induction false} StepConserves(s: LoopState, e: Event, cores: nat)
    requires cores > 0
    ensures var t := Step(s, e, cores);
      Flatten(t.delivered) + t.batch == Flatten(s.delivered) + s.batch + BatchRecordIn(s, e, cores)
  {
    hide Flatten, RecordOf, Flushed;
    match e
    case PolicyTick(_) =>
    case FlushTick(accepted) =>
      FlushConserves(s, accepted);
    case SampleTick(raw, services, accepted) =>
      if raw.Some? && !s.policy.stream {
        var record := RecordOf(raw.value, Snapshots(services), s.prev, s.prevServices, cores);
        var more := s.(prev := raw, prevServices := NextCounters(Snapshots(services)), batch := s.batch + [record]);
        FlushConserves(more, accepted);
        assert Flatten(s.delivered) + (s.batch + [record]) == Flatten(s.delivered) + s.batch + [record];
      }
  }

  /**
    Over every run: the accepted batches followed by the pending one are exactly the records sampled in
    batch mode, in order, however reports fail and policies change.
   */
  lemma {:induction false} RecordsConserved(s: LoopState, events: seq<Event>, cores: nat)
    requires cores > 0
    ensures var t := Run(s, events, cores);
      Flatten(t.delivered) + t.batch == Flatten(s.delivered) + s.batch + BatchRecords(s, events, cores)
    decreases |events|
  {
    hide Flatten, RecordOf, Step, BatchRecords, BatchRecordIn;
    if events == [] {
      NoRecords(s, cores);
    } else {
      var e := events[0];
      var t := Step(s, e, cores);
      StepConserves(s, e, cores);
      RecordsConserved(t, events[1..], cores);
      FirstRecord(s, events, cores);
    }
  }

  lemma {:induction false} QuietEvent(s: LoopState, events: seq<Event>, cores: nat)
    requires cores > 0 && events != [] && !(events[0].SampleTick? && events[0].raw.Some?)
    ensures BatchRecords(s, events, cores) == BatchRecords(Step(s, events[0], cores), events[1..], cores)
  {
    hide RecordOf, Flushed, RecordsOf, Select;
    var e := events[0];
    assert Samples(events) == SampleIn(e) + Samples(events[1..]) == Samples(events[1..]);
    if e.FlushTick? {
      FlushKeepsSampling(s, e.accepted);
    }
    if e.SampleTick? {
      assert Batched(events, s.policy) == [] + Batched(events[1..], s.policy) == Batched(events[1..], s.policy);
    }
  }

  lemma {:induction false} FirstRecord(s: LoopState, events: seq<Event>, cores: nat)
    requires cores > 0 && events != []
    ensures BatchRecords(s, events, cores) == BatchRecordIn(s, events[0], cores) + BatchRecords(Step(s, events[0], cores), events[1..], cores)
  {
    hide RecordOf, Flushed;
    var e := events[0];
    var rest := events[1..];
    if e.SampleTick? && e.raw.Some? {
      var t := Step(s, e, cores);
      SampleMovesOn(s, e, cores);
      assert Samples(events)[1..] == Samples(rest);
      assert Batched(events, s.policy)[1..] == Batched(rest, s.policy);
      assert RecordsOf(Samples(events), s.prev, s.prevServices, cores)[1..] == RecordsOf(Samples(rest), t.prev, t.prevServices, cores);
    } else {
      QuietEvent(s, events, cores);
    }
  }

  lemma {:induction false} NoRecords(s: LoopState, cores: nat)
    requires cores > 0
    ensures BatchRecords(s, [], cores) == []
  {
  }

  lemma {:induction false} FlushKeepsSampling(s: LoopState, accepted: bool)
    ensures var t := Flushed(s, accepted); t.policy == s.policy && t.prev == s.prev && t.prevServices == s.prevServices
  {
  }

  lemma {:induction false} SampleMovesOn(s: LoopState, e: Event, cores: nat)
    requires cores > 0 && e.SampleTick? && e.raw.Some?
    ensures var t := Step(s, e, cores);
      t.policy == s.policy && t.prev == e.raw && t.prevServices == NextCounters(Snapshots(e.services))
  {
    hide RecordOf, NextCounters;
  }

  // ---------- the batch bound ----------

  predicate Accepted(e: Event) {
    match e
    case PolicyTick(_) => true
    case SampleTick(_, _, accepted) => accepted
    case FlushTick(accepted) => accepted
  }

  predicate KeepsMax(e: Event, max: int) {
    e.PolicyTick? && e.loaded.Some? ==> e.loaded.value.maxRecords == max
  }

  /** With one positive maximum and no refused report the pending batch stays below the maximum. */
  lemma {:induction false} BatchBelowMax(s: LoopState, events: seq<Event>, cores: nat, max: int)
    requires cores > 0 && max > 0 && s.policy.maxRecords == max && |s.batch| < max
    requires forall i :: 0 <= i < |events| ==> Accepted(events[i]) && KeepsMax(events[i], max)
    ensures |Run(s, events, cores).batch| < max && Run(s, events, cores).policy.maxRecords == max
    decreases |events|
  {
    hide RecordOf;
    if events != [] {
      assert Accepted(events[0]) && KeepsMax(events[0], max);
      BatchBelowMax(Step(s, events[0], cores), events[1..], cores, max);
    }
  }

  /** One refused report is enough to reach the maximum: the batch then grows by one with every sample. */
  lemma {:induction false} RefusalReachesMax(s: LoopState, raw: Raw, cores: nat)
    requires cores > 0 && !s.policy.stream && s.policy.maxRecords > 0 && |s.batch| >= s.policy.maxRecords - 1
    ensures |Step(s, SampleTick(Some(raw), None, false), cores).batch| == |s.batch| + 1 >= s.policy.maxRecords
  {
    hide RecordOf;
  }

  // ---------- single records ----------

  /** For each collected sample, whether its record was streamed: the policy in force streams and the server takes it. */
  function Sent(events: seq<Event>, p: Policy): (r: seq<bool>)
    ensures |r| == |Samples(events)|
    decreases |events|
  {
    if events == [] then []
    else match events[0]
      case PolicyTick(loaded) => Sent(events[1..], if loaded.Some? then loaded.value else p)
      case FlushTick(_) => Sent(events[1..], p)
      case SampleTick(raw, _, accepted) => (if raw.Some? then [p.stream && accepted] else []) + Sent(events[1..], p)
  }

  function StreamedRecords(s: LoopState, events: seq<Event>, cores: nat): seq<Record>
    requires cores > 0
  {
    Select(RecordsOf(Samples(events), s.prev, s.prevServices, cores), Sent(events, s.policy))
  }

  function StreamedRecordIn(s: LoopState, e: Event, cores: nat): seq<Record>
    requires cores > 0
  {
    if e.SampleTick? && e.raw.Some? && s.policy.stream && e.accepted
    then [RecordOf(e.raw.value, Snapshots(e.services), s.prev, s.prevServices, cores)] else []
  }

  /** Over every run: the records streamed are those sampled while streaming whose report was accepted, in order; a refused one is lost. */
  lemma {:induction false} StreamIsExact(s: LoopState, events: seq<Event>, cores: nat)
    requires cores > 0
    ensures Run(s, events, cores).streamed == s.streamed + StreamedRecords(s, events, cores)
    decreases |events|
  {
    hide RecordOf, Step, StreamedRecords, StreamedRecordIn;
    if events == [] {
      NothingStreamed(s, cores);
    } else {
      var t := Step(s, events[0], cores);
      StepStreams(s, events[0], cores);
      StreamIsExact(t, events[1..], cores);
      FirstStreamed(s, events, cores);
    }
  }

  lemma {:induction false} NothingStreamed(s: LoopState, cores: nat)
    requires cores > 0
    ensures StreamedRecords(s, [], cores) == []
  {
  }

  lemma {:induction false} StepStreams(s: LoopState, e: Event, cores: nat)
    requires cores > 0
    ensures Step(s, e, cores).streamed == s.streamed + StreamedRecordIn(s, e, cores)
  {
    hide RecordOf, NextCounters;
  }

  lemma {:induction false} FirstStreamed(s: LoopState, events: seq<Event>, cores: nat)
    requires cores > 0 && events != []
    ensures StreamedRecords(s, events, cores)
         == StreamedRecordIn(s, events[0], cores) + StreamedRecords(Step(s, events[0], cores), events[1..], cores)
  {
    hide RecordOf, Flushed;
    var e, rest := events[0], events[1..];
    if e.SampleTick? && e.raw.Some? {
      var t := Step(s, e, cores);
      SampleMovesOn(s, e, cores);
      assert Samples(events)[1..] == Samples(rest);
      assert Sent(events, s.policy)[1..] == Sent(rest, s.policy);
      assert RecordsOf(Samples(events), s.prev, s.prevServices, cores)[1..] == RecordsOf(Samples(rest), t.prev, t.prevServices, cores);
    } else {
      QuietStream(s, events, cores);
    }
  }

  lemma {:induction false} QuietStream(s: LoopState, events: seq<Event>, cores: nat)
    requires cores > 0 && events != [] && !(events[0].SampleTick? && events[0].raw.Some?)
    ensures StreamedRecords(s, events, cores) == StreamedRecords(Step(s, events[0], cores), events[1..], cores)
  {
    hide RecordOf, Flushed, RecordsOf, Select;
    var e := events[0];
    assert Samples(events) == SampleIn(e) + Samples(events[1..]) == Samples(events[1..]);
    if e.FlushTick? {
      FlushKeepsSampling(s, e.accepted);
    }
    if e.SampleTick? {
      assert Sent(events, s.policy) == [] + Sent(events[1..], s.policy) == Sent(events[1..], s.policy);
    }
  }

  // ---------- when a batch is delivered ----------

  /** The pending batch is due: a flush tick finds it, or a sample fills it up. */
  predicate Due(s: LoopState, e: Event) {
    match e
    case PolicyTick(_) => false
    case FlushTick(_) => s.batch != []
    case SampleTick(raw, _, _) => raw.Some? && 0 < s.policy.maxRecords <= |s.batch| + 1
  }

  /** A batch is delivered exactly when it is due in batch mode and the server takes it; then all of it goes, and otherwise all stays. */
  lemma {:induction false} DeliveryIsExact(s: LoopState, e: Event, cores: nat)
    requires cores > 0
    ensures var t, all := Step(s, e, cores), s.batch + BatchRecordIn(s, e, cores);
      if Due(s, e) && !s.policy.stream && Accepted(e) then t.delivered == s.delivered + [all] && t.batch == []
      else t.delivered == s.delivered && t.batch == all
  {
    hide RecordOf, NextCounters;
    assert s.batch + [] == s.batch;
  }

  /** Cancellation delivers what is pending, if the server takes it. */
  lemma {:induction false} CancelledDelivers(s: LoopState, events: seq<Event>, cores: nat)
    requires cores > 0
    ensures var t := Flushed(Run(s, events, cores), true);
      t.batch == [] && Flatten(t.delivered) == Flatten(s.delivered) + s.batch + BatchRecords(s, events, cores)
  {
    hide Run, BatchRecords, Flatten;
    RecordsConserved(s, events, cores);
    FlushConserves(Run(s, events, cores), true);
  }
}
