/** The systemctl and nginx commands an install issues, and what they do to the module's service. */
module ServiceCommands {

  datatype Command = Stop | Enable | Restart | Disable | DaemonReload | NginxTest | NginxReload | HealthCheck

  datatype Service = Service(enabled: bool, running: bool)

  function Effect(c: Command, s: Service): Service {
    match c
    case Stop => s.(running := false)
    case Restart => s.(running := true)
    case Enable => s.(enabled := true)
    case Disable => s.(enabled := false)
    case _ => s
  }

  /** The service after a series of commands that all succeed. */
  function AfterAll(cs: seq<Command>, s: Service): Service {
    if cs == [] then s else AfterAll(cs[1..], Effect(cs[0], s))
  }

  class Runner {
    var log: seq<Command>
    const works: nat -> bool

    constructor (works: nat -> bool)
      ensures log == [] && this.works == works
    {
      log, this.works := [], works;
    }

    method Run(c: Command) returns (ok: bool)
      modifies this`log
      ensures log == old(log) + [c] && ok == works(|old(log)|)
    {
      ok := works(|log|);
      log := log + [c];
    }
  }

  /** The commands before the files are restored. */
  function StopFirst(named: bool): seq<Command> {
    if named then [Stop] else []
  }

  function ServicePart(unitBack: bool): seq<Command> {
    if unitBack then [Enable, Restart] else [Stop, Disable]
  }

  lemma ServicePartLength(unitBack: bool)
    ensures |ServicePart(unitBack)| == 2
  {
  }

  /** The commands after it; nginx is reloaded only when its test passes. The first command is number `at`. */
  function BringBack(named: bool, unitBack: bool, nginx: bool, at: nat, works: nat -> bool): seq<Command> {
    var main := [DaemonReload] + if named then ServicePart(unitBack) else [];
    main + if nginx then NginxPart(at + |main|, works) else []
  }

  function NginxPart(at: nat, works: nat -> bool): seq<Command> {
    if works(at) then [NginxTest, NginxReload] else [NginxTest]
  }

  /** The commands whose failure the rollback reports: all but stopping and disabling. */
  predicate CommandsOk(named: bool, unitBack: bool, nginx: bool, at: nat, works: nat -> bool) {
    var next := at + if named then 3 else 1;
    && works(at)
    && (named && unitBack ==> works(at + 1) && works(at + 2))
    && (nginx ==> works(next) && works(next + 1))
  }

  /** Whatever state the failed install left: the service ends up on if its unit file came back, off otherwise. */
  lemma {:induction false} RollbackSettlesService(unitBack: bool, nginx: bool, at: nat, works: nat -> bool, s: Service)
    ensures AfterAll(StopFirst(true) + BringBack(true, unitBack, nginx, at, works), s) == Service(unitBack, unitBack)
  {
    var main := if unitBack then [Stop, DaemonReload, Enable, Restart] else [Stop, DaemonReload, Stop, Disable];
    var rest := if !nginx then [] else if works(3 + at) then [NginxTest, NginxReload] else [NginxTest];
    assert StopFirst(true) + BringBack(true, unitBack, nginx, at, works) == main + rest;
    AfterAppend(main, rest, s);
    AfterFour(main, s);
    NginxLeavesService(rest, AfterAll(main, s));
  }

  lemma {:induction false} AfterFour(cs: seq<Command>, s: Service)
    requires |cs| == 4
    ensures AfterAll(cs, s) == Effect(cs[3], Effect(cs[2], Effect(cs[1], Effect(cs[0], s))))
  {
    assert cs[1..][1..] == cs[2..] && cs[2..][1..] == [cs[3]] && [cs[3]][1..] == [];
    assert AfterAll(cs, s) == AfterAll(cs[1..], Effect(cs[0], s));
    assert AfterAll(cs[2..], Effect(cs[1], Effect(cs[0], s))) == AfterAll([cs[3]], Effect(cs[2], Effect(cs[1], Effect(cs[0], s))));
  }

  lemma {:induction false} NginxLeavesService(cs: seq<Command>, s: Service)
    requires forall c :: c in cs ==> c.NginxTest? || c.NginxReload?
    ensures AfterAll(cs, s) == s
  {
    if cs != [] {
      assert cs[0] in cs && forall c :: c in cs[1..] ==> c in cs;
      NginxLeavesService(cs[1..], s);
    }
  }

  lemma {:induction false} AfterAppend(a: seq<Command>, b: seq<Command>, s: Service)
    ensures AfterAll(a + b, s) == AfterAll(b, AfterAll(a, s))
  {
    if a == [] {
      assert a + b == b;
    } else {
      assert (a + b)[1..] == a[1..] + b;
      AfterAppend(a[1..], b, Effect(a[0], s));
    }
  }

  // ---------- what the commands of an install and of a rollback are ----------

  function ActivateCommands(nginx: bool): seq<Command> {
    [DaemonReload, Enable, Restart] + (if nginx then [NginxTest, NginxReload] else []) + [HealthCheck]
  }

  /**
    The commands of a whole activation: systemd reads the unit files again, the service is enabled and then
    restarted, nginx is tested before it is reloaded, and the health check comes last. Whatever the service was
    before, it ends up enabled and running.
   */
  ghost predicate Activated(cs: seq<Command>, nginx: bool) {
    && |cs| == (if nginx then 6 else 4) && cs[0] == DaemonReload && cs[1] == Enable && cs[2] == Restart
    && cs[|cs| - 1] == HealthCheck && (nginx ==> cs[3] == NginxTest && cs[4] == NginxReload)
    && forall s :: AfterAll(cs, s) == Service(true, true)
  }

  lemma {:induction false} ActivateActivates(nginx: bool)
    ensures Activated(ActivateCommands(nginx), nginx)
  {
    var cs := ActivateCommands(nginx);
    forall s
      ensures AfterAll(cs, s) == Service(true, true)
    {
      var rest := (if nginx then [NginxTest, NginxReload] else []) + [HealthCheck];
      assert cs == [DaemonReload, Enable] + [Restart] + rest;
      LastRunDecides([DaemonReload, Enable], Restart, rest, s);
      assert cs == [DaemonReload] + [Enable] + ([Restart] + rest);
      LastEnableDecides([DaemonReload], Enable, [Restart] + rest, s);
    }
  }

  /** A rollback reports this command when it fails. */
  predicate Reported(c: Command) {
    c != Stop && c != Disable
  }

  /**
    The commands of the rollback of a named service, the first of them number `at`: the service is stopped before
    systemd reads the unit files again, and ends up on if its unit file came back and off otherwise, whatever it was
    before; nginx is tested last, and reloaded exactly if the test works.
   */
  ghost predicate RolledBack(cs: seq<Command>, unitBack: bool, nginx: bool, at: nat, works: nat -> bool) {
    && 4 <= |cs| <= 6 && cs[0] == Stop && cs[1] == DaemonReload
    && cs[2] == (if unitBack then Enable else Stop) && cs[3] == (if unitBack then Restart else Disable)
    && (nginx <==> |cs| > 4) && (nginx ==> cs[4] == NginxTest)
    && (nginx ==> (|cs| == 6 <==> works(at + 4))) && (|cs| == 6 ==> cs[5] == NginxReload)
    && forall s :: AfterAll(cs, s) == Service(unitBack, unitBack)
  }

  /** Every command that reports its failure worked, and with nginx enabled it was reloaded. */
  ghost predicate NothingReported(cs: seq<Command>, nginx: bool, at: nat, works: nat -> bool) {
    && (forall i :: 0 <= i < |cs| && Reported(cs[i]) ==> works(at + i))
    && (nginx ==> NginxReload in cs)
  }

  lemma {:induction false} RollbackRolls(unitBack: bool, nginx: bool, at: nat, works: nat -> bool)
    ensures var cs := StopFirst(true) + BringBack(true, unitBack, nginx, at + 1, works);
      && RolledBack(cs, unitBack, nginx, at, works)
      && (CommandsOk(true, unitBack, nginx, at + 1, works) <==> NothingReported(cs, nginx, at, works))
  {
    var cs := StopFirst(true) + BringBack(true, unitBack, nginx, at + 1, works);
    forall s
      ensures AfterAll(cs, s) == Service(unitBack, unitBack)
    {
      RollbackSettlesService(unitBack, nginx, at + 1, works, s);
    }
    if nginx && works(at + 4) {
      assert cs[5] == NginxReload && NginxReload in cs;
    }
    assert works(at + 1) <==> Reported(cs[1]) ==> works(at + 1);
  }

  /** Without a service name the service is left alone. */
  lemma {:induction false} UnnamedRollback(unitBack: bool, nginx: bool, at: nat, works: nat -> bool, s: Service)
    ensures var cs := StopFirst(false) + BringBack(false, unitBack, nginx, at, works);
      && |cs| == (if !nginx then 1 else if works(at + 1) then 3 else 2)
      && cs[0] == DaemonReload && (nginx ==> cs[1] == NginxTest) && (|cs| == 3 ==> cs[2] == NginxReload)
      && AfterAll(cs, s) == s
      && (CommandsOk(false, unitBack, nginx, at, works) <==> NothingReported(cs, nginx, at, works))
  {
    var cs := StopFirst(false) + BringBack(false, unitBack, nginx, at, works);
    assert cs == [DaemonReload] + cs[1..];
    NginxLeavesService(cs[1..], s);
    if nginx && works(at + 1) {
      assert cs[2] == NginxReload && NginxReload in cs;
    }
  }

  /** The last of the commands that start or stop the service decides whether it runs. */
  lemma {:induction false} LastRunDecides(a: seq<Command>, c: Command, b: seq<Command>, s: Service)
    requires c.Stop? || c.Restart?
    requires forall x :: x in b ==> !x.Stop? && !x.Restart?
    ensures AfterAll(a + [c] + b, s).running == c.Restart?
  {
    AfterAppend(a + [c], b, s);
    AfterAppend(a, [c], s);
    KeepsRunning(b, AfterAll(a + [c], s));
    assert AfterAll([c], AfterAll(a, s)) == Effect(c, AfterAll(a, s)) by {
      assert [c][1..] == [];
    }
  }

  lemma {:induction false} KeepsRunning(cs: seq<Command>, s: Service)
    requires forall x :: x in cs ==> !x.Stop? && !x.Restart?
    ensures AfterAll(cs, s).running == s.running
  {
    if cs != [] {
      assert cs[0] in cs && forall x :: x in cs[1..] ==> x in cs;
      KeepsRunning(cs[1..], Effect(cs[0], s));
    }
  }

  /** The last of the commands that enable or disable it decides whether it is enabled. */
  lemma {:induction false} LastEnableDecides(a: seq<Command>, c: Command, b: seq<Command>, s: Service)
    requires c.Enable? || c.Disable?
    requires forall x :: x in b ==> !x.Enable? && !x.Disable?
    ensures AfterAll(a + [c] + b, s).enabled == c.Enable?
  {
    AfterAppend(a + [c], b, s);
    AfterAppend(a, [c], s);
    KeepsEnabled(b, AfterAll(a + [c], s));
    assert AfterAll([c], AfterAll(a, s)) == Effect(c, AfterAll(a, s)) by {
      assert [c][1..] == [];
    }
  }

  lemma {:induction false} KeepsEnabled(cs: seq<Command>, s: Service)
    requires forall x :: x in cs ==> !x.Enable? && !x.Disable?
    ensures AfterAll(cs, s).enabled == s.enabled
  {
    if cs != [] {
      assert cs[0] in cs && forall x :: x in cs[1..] ==> x in cs;
      KeepsEnabled(cs[1..], Effect(cs[0], s));
    }
  }
}
