/**
  Certificate renewal: when it is due, and the lock around the check. The check is the first thing every
  RPC does, and a due renewal makes an RPC of its own while it still holds that lock.
 */
module CertificateRenewal {
  import opened Outcomes

  const SECOND: int := 1_000_000_000
  const HOUR: int := 3600 * SECOND
  const CHECK_INTERVAL: int := 60 * SECOND
  const MAX_DURATION: int := 0x7FFF_FFFF_FFFF_FFFF

  // ---------- when renewal is due ----------

  datatype Certificate = Certificate(notBefore: int, notAfter: int)

  /** `Time.Sub`: the difference saturates at the int64 range. */
  function Sub(a: int, b: int): int {
    if a - b > MAX_DURATION then MAX_DURATION else if a - b < -MAX_DURATION - 1 then -MAX_DURATION - 1 else a - b
  }

  /** `calculateRenewBeforeWindow`: a fifth of the lifetime, between 6 and 72 hours. */
  function Window(c: Certificate): int {
    var lifetime := Sub(c.notAfter, c.notBefore);
    if lifetime <= 0 then 24 * HOUR
    else if lifetime / 5 < 6 * HOUR then 6 * HOUR
    else if lifetime / 5 > 72 * HOUR then 72 * HOUR
    else lifetime / 5
  }

  /** The certificate that expires first; the client's when they expire together. */
  function Target(client: Certificate, server: Certificate): Certificate {
    if server.notAfter < client.notAfter then server else client
  }

  predicate Due(now: int, client: Certificate, server: Certificate) {
    var target := Target(client, server);
    !(now < target.notAfter - Window(target))
  }

  /** Not due: both certificates have more than six hours. Due: one has at most seventy-two. */
  lemma {:induction false} RenewalInTime(now: int, client: Certificate, server: Certificate)
    ensures !Due(now, client, server) ==> client.notAfter - now > 6 * HOUR && server.notAfter - now > 6 * HOUR
    ensures Due(now, client, server) ==> client.notAfter - now <= 72 * HOUR || server.notAfter - now <= 72 * HOUR
    ensures client.notAfter - now <= 6 * HOUR || server.notAfter - now <= 6 * HOUR ==> Due(now, client, server)
  {
    assert 6 * HOUR <= Window(Target(client, server)) <= 72 * HOUR;
  }

  /**
    The window is a fifth of the lifetime, rounded down, between 6 and 72 hours; 24 hours without a lifetime; a lifetime
    beyond the int64 range counts as that range.
   */
  lemma {:induction false} WindowIsAFifth(c: Certificate)
    ensures var lifetime := c.notAfter - c.notBefore;
      && (lifetime <= 0 ==> Window(c) == 24 * HOUR)
      && (0 < lifetime < 30 * HOUR ==> Window(c) == 6 * HOUR)
      && (lifetime > 360 * HOUR ==> Window(c) == 72 * HOUR)
      && (30 * HOUR <= lifetime <= 360 * HOUR ==> 5 * Window(c) <= lifetime < 5 * Window(c) + 5)
  {
  }

  /** Renewal is due from the window before the first of the two ends on, and only then. */
  lemma {:induction false} DueIsExact(now: int, client: Certificate, server: Certificate)
    ensures Due(now, client, server) <==>
      if server.notAfter < client.notAfter then now + Window(server) >= server.notAfter else now + Window(client) >= client.notAfter
  {
    hide Window;
  }

  // ---------- the lock ----------

  /** `depth` counts the calls a renewal has nested; `now` is read before the lock is asked for. */
  datatype Pc = Idle | Locking(depth: nat, now: int) | Checking(depth: nat, now: int) | Renewing(depth: nat, now: int) | Invoking(depth: nat)

  datatype Verdict = Unreadable | NotDue | IsDue

  /** `stamps` are the times of all checks that were not throttled. */
  datatype State = State(clock: int, lock: Option<nat>, last: Option<int>, threads: seq<Pc>, stamps: seq<int>)

  datatype Step =
    | Tick(span: nat)
    | Enter(t: nat)
    | Acquire(t: nat)
    | Check(t: nat, verdict: Verdict)
    | KeysFail(t: nat)
    | Nest(t: nat)
    | Finish(t: nat)

  predicate Throttled(last: Option<int>, now: int) {
    last.Some? && now - last.value < CHECK_INTERVAL
  }

  predicate Enabled(s: State, step: Step) {
    match step
    case Tick(_) => true
    case Enter(t) => t < |s.threads| && s.threads[t].Idle?
    case Acquire(t) => t < |s.threads| && s.threads[t].Locking? && s.lock.None?
    case Check(t, _) => t < |s.threads| && s.threads[t].Checking?
    case KeysFail(t) => t < |s.threads| && s.threads[t].Renewing?
    case Nest(t) => t < |s.threads| && s.threads[t].Renewing?
    case Finish(t) => t < |s.threads| && s.threads[t].Invoking?
  }

  /** `sync.Mutex` knows no owner: whoever asks while it is held waits. */
  function After(s: State, step: Step): State
    requires Enabled(s, step)
  {
    match step
    case Tick(span) => s.(clock := s.clock + span)
    case Enter(t) => s.(threads := s.threads[t := Locking(0, s.clock)])
    case Acquire(t) => s.(lock := Some(t), threads := s.threads[t := Checking(s.threads[t].depth, s.threads[t].now)])
    case Check(t, verdict) =>
      var depth, now := s.threads[t].depth, s.threads[t].now;
      if Throttled(s.last, now) then s.(lock := None, threads := s.threads[t := Invoking(depth)])
      else
        var stamped := s.(last := Some(now), stamps := s.stamps + [now]);
        if verdict.IsDue? then stamped.(threads := s.threads[t := Renewing(depth, now)])
        else stamped.(lock := None, threads := s.threads[t := Invoking(depth)])
    case KeysFail(t) => s.(lock := None, threads := s.threads[t := Invoking(s.threads[t].depth)])
    case Nest(t) => s.(threads := s.threads[t := Locking(s.threads[t].depth + 1, s.clock)])
    case Finish(t) =>
      // The outer call is done; a nested one returns into the renewal, which then lets the lock go.
      var depth := s.threads[t].depth;
      if depth == 0 then s.(threads := s.threads[t := Idle])
      else s.(lock := None, threads := s.threads[t := Invoking(depth - 1)])
  }

  /** A check runs and is stamped unless a minute has not passed since the last one that did. */
  lemma {:induction false} CheckRuns(s: State, t: nat, verdict: Verdict)
    requires t < |s.threads| && s.threads[t].Checking?
    ensures var now := s.threads[t].now;
      After(s, Check(t, verdict)).stamps
        == if s.last == None || now >= s.last.value + 60 * 1_000_000_000 then s.stamps + [now] else s.stamps
  {
  }

  ghost predicate Reaches(s: State, steps: seq<Step>, t: State)
    decreases |steps|
  {
    if steps == [] then s == t else Enabled(s, steps[0]) && Reaches(After(s, steps[0]), steps[1..], t)
  }

  function Fresh(n: nat, clock: int): State {
    State(clock, None, None, seq(n, _ => Idle), [])
  }

  // ---------- the invariant ----------

  /** Thread `t` is between taking the lock and letting it go. */
  predicate Inside(pc: Pc) {
    pc.Checking? || pc.Renewing? || (pc.Locking? && pc.depth > 0)
  }

  /** Nobody gets beyond a nested request for the lock. */
  predicate Shallow(pc: Pc) {
    match pc
    case Idle => true
    case Locking(depth, _) => depth <= 1
    case Checking(depth, _) => depth == 0
    case Renewing(depth, _) => depth == 0
    case Invoking(depth) => depth == 0
  }

  predicate Inv(s: State) {
    && (forall t :: 0 <= t < |s.threads| ==> Shallow(s.threads[t]) && (Inside(s.threads[t]) <==> s.lock == Some(t)))
    && (s.lock.Some? ==> s.lock.value < |s.threads|)
  }

  lemma {:induction false} StepKeepsInv(s: State, step: Step)
    requires Inv(s) && Enabled(s, step)
    ensures Inv(After(s, step)) && |After(s, step).threads| == |s.threads|
  {
  }

  lemma {:induction false} RunKeepsInv(s: State, steps: seq<Step>, t: State)
    requires Inv(s) && Reaches(s, steps, t)
    ensures Inv(t) && |t.threads| == |s.threads|
    decreases |steps|
  {
    hide Inv;
    if steps != [] {
      StepKeepsInv(s, steps[0]);
      RunKeepsInv(After(s, steps[0]), steps[1..], t);
    }
  }

  // ---------- the deadlock ----------

  /** Thread `h` waits for the lock it holds itself. */
  predicate SelfLocked(s: State, h: nat) {
    Inv(s) && h < |s.threads| && s.threads[h].Locking? && s.threads[h].depth > 0
  }

  /** Whether a thread can still finish an RPC without taking the lock. */
  predicate PastTheCheck(pc: Pc) {
    pc.Invoking?
  }

  /** `later` is what may become of `pc` once the lock is lost: an RPC under way may finish, no other gets past the check. */
  predicate Frozen(pc: Pc, later: Pc) {
    match pc
    case Invoking(_) => true
    case Idle => later.Idle? || later.Locking?
    case _ => later == pc
  }

  lemma {:induction false} SelfLockStays(s: State, h: nat, step: Step)
    requires SelfLocked(s, h) && Enabled(s, step)
    ensures SelfLocked(After(s, step), h) && After(s, step).threads[h] == s.threads[h]
    ensures forall t :: 0 <= t < |s.threads| && !PastTheCheck(s.threads[t]) ==>
      Frozen(s.threads[t], After(s, step).threads[t]) && !PastTheCheck(After(s, step).threads[t])
    ensures After(s, step).stamps == s.stamps
  {
    assert s.lock == Some(h);
    StepKeepsInv(s, step);
  }

  /**
    From a self-lock on, whatever happens: the thread waits for ever, no renewal check is ever made again,
    and every thread that is not already past the check never makes another call.
   */
  lemma {:induction false} SelfLockIsForEver(s: State, h: nat, steps: seq<Step>, t: State)
    requires SelfLocked(s, h) && Reaches(s, steps, t)
    ensures SelfLocked(t, h) && t.threads[h] == s.threads[h] && t.stamps == s.stamps && |t.threads| == |s.threads|
    ensures forall i :: 0 <= i < |s.threads| && !PastTheCheck(s.threads[i]) ==>
      Frozen(s.threads[i], t.threads[i]) && !PastTheCheck(t.threads[i])
    decreases |steps|
  {
    hide SelfLocked, Enabled;
    SelfLockSize(s, h);
    if steps != [] {
      var m := After(s, steps[0]);
      SelfLockStays(s, h, steps[0]);
      SelfLockSize(m, h);
      StepKeepsSize(s, steps[0]);
      SelfLockIsForEver(m, h, steps[1..], t);
    }
  }

  lemma {:induction false} SelfLockSize(s: State, h: nat)
    requires SelfLocked(s, h)
    ensures h < |s.threads|
  {
  }

  lemma {:induction false} StepKeepsSize(s: State, step: Step)
    requires Enabled(s, step)
    ensures |After(s, step).threads| == |s.threads|
  {
  }

  /** Every due renewal whose keys could be made ends in a self-lock with its very next call. */
  lemma {:induction false} DueRenewalSelfLocks(n: nat, clock: int, steps: seq<Step>, s: State, h: nat)
    requires Reaches(Fresh(n, clock), steps, s) && Enabled(s, Nest(h))
    ensures SelfLocked(After(s, Nest(h)), h)
  {
    RunKeepsInv(Fresh(n, clock), steps, s);
    StepKeepsInv(s, Nest(h));
  }

  /** It takes four steps of one thread: enter, lock, find a certificate due, make the nested call. */
  lemma {:induction false} FourStepsToSelfLock(clock: int) returns (steps: seq<Step>, s: State)
    ensures Reaches(Fresh(1, clock), steps, s) && SelfLocked(s, 0) && |steps| == 4
  {
    var s0 := Fresh(1, clock);
    var s1 := After(s0, Enter(0));
    var s2 := After(s1, Acquire(0));
    var s3 := After(s2, Check(0, IsDue));
    var s4 := After(s3, Nest(0));
    steps := [Enter(0), Acquire(0), Check(0, IsDue), Nest(0)];
    s := s4;
    assert steps[1..] == [Acquire(0), Check(0, IsDue), Nest(0)];
    assert steps[1..][1..] == [Check(0, IsDue), Nest(0)];
    assert steps[1..][1..][1..] == [Nest(0)];
    assert steps[1..][1..][1..][1..] == [];
    assert Reaches(s4, [], s);
    assert Reaches(s3, [Nest(0)], s);
    assert Reaches(s2, [Check(0, IsDue), Nest(0)], s);
    assert Reaches(s1, [Acquire(0), Check(0, IsDue), Nest(0)], s);
  }

  // ---------- the check interval ----------

  predicate Spaced(stamps: seq<int>) {
    forall i, j :: 0 <= i < j < |stamps| ==> stamps[j] - stamps[i] >= CHECK_INTERVAL
  }

  predicate StampInv(s: State) {
    && Spaced(s.stamps)
    && (s.last.None? <==> s.stamps == [])
    && (s.last.Some? ==> s.last.value == s.stamps[|s.stamps| - 1])
  }

  /** However the goroutines interleave, two unthrottled checks lie at least a check interval apart. */
  lemma {:induction false} ChecksAreSpaced(s: State, steps: seq<Step>, t: State)
    requires StampInv(s) && Reaches(s, steps, t)
    ensures StampInv(t)
    decreases |steps|
  {
    if steps != [] {
      StampStep(s, steps[0]);
      ChecksAreSpaced(After(s, steps[0]), steps[1..], t);
    }
  }

  lemma {:induction false} StampStep(s: State, step: Step)
    requires StampInv(s) && Enabled(s, step)
    ensures StampInv(After(s, step))
  {
  }

  // ---------- what the stamp was for ----------

  /** While a renewal runs, the last stamp is the one its own check has set. */
  predicate OwnStamp(s: State) {
    Inv(s) && forall t :: 0 <= t < |s.threads| && s.threads[t].Renewing? ==> s.last == Some(s.threads[t].now)
  }

  lemma {:induction false} OwnStampStays(s: State, steps: seq<Step>, t: State)
    requires OwnStamp(s) && Reaches(s, steps, t)
    ensures OwnStamp(t)
    decreases |steps|
  {
    if steps != [] {
      OwnStampStep(s, steps[0]);
      OwnStampStays(After(s, steps[0]), steps[1..], t);
    }
  }

  lemma {:induction false} OwnStampStep(s: State, step: Step)
    requires OwnStamp(s) && Enabled(s, step)
    ensures OwnStamp(After(s, step))
  {
    StepKeepsInv(s, step);
  }

  /**
    The stamp would end the recursion if only the lock were not held: the nested call's own check is
    throttled exactly when it comes within the interval of the check that started the renewal.
   */
  lemma {:induction false} StampWouldStopNesting(n: nat, clock: int, steps: seq<Step>, s: State, t: nat)
    requires Reaches(Fresh(n, clock), steps, s) && t < |s.threads| && s.threads[t].Renewing?
    ensures Throttled(s.last, After(s, Nest(t)).threads[t].now) <==> s.clock - s.threads[t].now < CHECK_INTERVAL
  {
    OwnStampStays(Fresh(n, clock), steps, s);
  }
}
