/** `invokeWithRecovery`: one call, one retry on a new connection, one last call after certificate rotation. */
module RpcRecovery {
  import opened GoStrings
  import opened Outcomes

  // ---------- error classes ----------

  predicate Mentions(error: string, text: string) {
    Contains(ToLower(error), text)
  }

  /** `isRecoverableAdminRPCError` */
  predicate Recoverable(error: string) {
    || Mentions(error, "connection error")
    || Mentions(error, "transport is closing")
    || Mentions(error, "authentication handshake failed")
    || Mentions(error, "code = unavailable")
  }

  /** `shouldTryBootstrapRotation` */
  predicate CallsForRotation(error: string, token: string) {
    && TrimSpace(token) != ""
    && !Mentions(error, "certificate signed by unknown authority")
    && (|| Mentions(error, "authentication handshake failed")
        || Mentions(error, "certificate required")
        || Mentions(error, "bad certificate")
        || Mentions(error, "certificate revoked")
        || Mentions(error, "certificate has expired")
        || Mentions(error, "permission denied"))
  }

  /** The words that put an error in each class, in any capitals; an unknown authority never calls for a rotation. */
  lemma {:induction false} ErrorClasses(error: string, token: string)
    ensures var text := ToLower(error);
      && (Recoverable(error) <==>
            || Occurs(text, "connection error") || Occurs(text, "transport is closing")
            || Occurs(text, "authentication handshake failed") || Occurs(text, "code = unavailable"))
      && (Occurs(text, "certificate signed by unknown authority") || TrimSpace(token) == "" ==> !CallsForRotation(error, token))
      && (!Occurs(text, "certificate signed by unknown authority") && TrimSpace(token) != "" ==>
            (CallsForRotation(error, token) <==>
               || Occurs(text, "authentication handshake failed") || Occurs(text, "certificate required")
               || Occurs(text, "bad certificate") || Occurs(text, "certificate revoked")
               || Occurs(text, "certificate has expired") || Occurs(text, "permission denied")))
  {
    hide TrimSpace, ToLower, Occurs;
  }

  // ---------- the automaton ----------

  /** What happened, in order: a call with its error, a reconnect or a rotation with their success. */
  datatype Act = Called(error: Option<string>) | Dialed(ok: bool) | Rotated(ok: bool)

  /**
    The outside: the error of the n-th call, whether the n-th dial works and whether its connection is still
    there when it is fetched, and whether a rotation works.
   */
  datatype World = World(call: nat -> Option<string>, dial: nat -> bool, present: nat -> bool, rotate: bool, token: string)

  datatype Outcome = Outcome(acts: seq<Act>, ok: bool)

  function Then(before: seq<Act>, rest: Outcome): Outcome {
    Outcome(before + rest.acts, rest.ok)
  }

  /** From the connection on: `k` calls and `d` dials have been made before. */
  function FirstCall(w: World, k: nat, d: nat): Outcome {
    var error := w.call(k);
    if error.None? then Outcome([Called(None)], true)
    else if !Recoverable(error.value) then Outcome([Called(error)], false)
    else if !w.dial(d) || !w.present(d) then Outcome([Called(error), Dialed(w.dial(d))], false)
    else Then([Called(error), Dialed(true)], Retry(w, k + 1, d + 1))
  }

  function Retry(w: World, k: nat, d: nat): Outcome {
    var error := w.call(k);
    if error.None? then Outcome([Called(None)], true)
    else if !CallsForRotation(error.value, w.token) then Outcome([Called(error)], false)
    else if !w.rotate then Outcome([Called(error), Rotated(false)], false)
    else if !w.dial(d) || !w.present(d) then Outcome([Called(error), Rotated(true), Dialed(w.dial(d))], false)
    else Outcome([Called(error), Rotated(true), Dialed(true), Called(w.call(k + 1))], w.call(k + 1).None?)
  }

  function Recovery(w: World, connected: bool, k: nat, d: nat): Outcome {
    if connected then FirstCall(w, k, d)
    else if !w.dial(d) || !w.present(d) then Outcome([Dialed(w.dial(d))], false)
    else Then([Dialed(true)], FirstCall(w, k, d + 1))
  }

  class AdminClient {
    var connected: bool
    var calls: nat
    var dials: nat
    var trace: seq<Act>

    constructor (connected: bool)
      ensures this.connected == connected && trace == [] && calls == 0 && dials == 0
    {
      this.connected, calls, dials, trace := connected, 0, 0, [];
    }

    method Invoke(w: World) returns (error: Option<string>)
      modifies this`calls, this`trace
      ensures error == w.call(old(calls)) && calls == old(calls) + 1 && trace == old(trace) + [Called(error)]
    {
      error := w.call(calls);
      calls := calls + 1;
      trace := trace + [Called(error)];
    }

    /** Reconnecting replaces the connection; another goroutine may have closed it before it is fetched. */
    method Reconnect(w: World) returns (ready: bool)
      modifies this`dials, this`connected, this`trace
      ensures ready == (w.dial(old(dials)) && w.present(old(dials))) && dials == old(dials) + 1
      ensures trace == old(trace) + [Dialed(w.dial(old(dials)))]
      ensures connected <==> (old(connected) || w.dial(old(dials))) && w.present(old(dials))
    {
      var dialed := w.dial(dials);
      ready := dialed && w.present(dials);
      connected := (connected || dialed) && w.present(dials);
      dials := dials + 1;
      trace := trace + [Dialed(dialed)];
    }

    /** The recovery around one RPC; `ok` is the nil error. */
    method InvokeWithRecovery(w: World) returns (ok: bool)
      modifies this
      ensures var run := Recovery(w, old(connected), old(calls), old(dials)); trace == old(trace) + run.acts && ok == run.ok
      ensures ok ==> connected
    {
      hide Recoverable, Retry;
      if !connected {
        var ready := Reconnect(w);
        if !ready {
          return false;
        }
      }
      var error := Invoke(w);
      if error.None? || !Recoverable(error.value) {
        return error.None?;
      }
      var ready := Reconnect(w);
      if !ready {
        return false;
      }
      ok := RetryAndRotate(w);
    }

    /** From the retry on: the second call, the rotation, the last call. */
    method RetryAndRotate(w: World) returns (ok: bool)
      modifies this
      ensures var run := Retry(w, old(calls), old(dials)); trace == old(trace) + run.acts && ok == run.ok
      ensures ok && old(connected) ==> connected
    {
      hide CallsForRotation;
      var error := Invoke(w);
      if error.None? || !CallsForRotation(error.value, w.token) {
        return error.None?;
      }
      trace := trace + [Rotated(w.rotate)];
      if !w.rotate {
        return false;
      }
      var ready := Reconnect(w);
      if !ready {
        return false;
      }
      error := Invoke(w);
      return error.None?;
    }
  }

  predicate Opening(head: seq<Act>) {
    head == [] || head == [Dialed(true)]
  }

  // ---------- what every run satisfies ----------

  function Calls(acts: seq<Act>): (r: seq<Option<string>>) {
    if acts == [] then []
    else Calls(acts[..|acts| - 1]) + if acts[|acts| - 1].Called? then [acts[|acts| - 1].error] else []
  }

  function Rotations(acts: seq<Act>): nat {
    if acts == [] then 0 else Rotations(acts[..|acts| - 1]) + if acts[|acts| - 1].Rotated? then 1 else 0
  }

  /**
    At most three calls and one rotation; success is exactly a last act that is a successful call; a second
    call needs a recoverable first error; a rotation, and so a third call, also needs a second error that
    calls for it.
   */
  ghost predicate Conforms(acts: seq<Act>, ok: bool, token: string) {
    var calls := Calls(acts);
    && |calls| <= 3 && Rotations(acts) <= 1
    && (ok <==> calls != [] && calls[|calls| - 1].None?)
    && (ok ==> acts[|acts| - 1] == Called(None))
    && (forall i :: 0 <= i < |calls| - 1 ==> calls[i].Some?)
    && (|calls| >= 2 ==> Recoverable(calls[0].value))
    && (Rotations(acts) == 1 ==> |calls| >= 2 && calls[1].Some? && CallsForRotation(calls[1].value, token))
    && (|calls| == 3 ==> Rotations(acts) == 1)
    && (forall i :: 1 <= i < |acts| && acts[i].Called? ==> acts[i - 1] == Dialed(true))
  }

  lemma {:induction false} Snoc(acts: seq<Act>, a: Act)
    ensures Calls(acts + [a]) == Calls(acts) + if a.Called? then [a.error] else []
    ensures Rotations(acts + [a]) == Rotations(acts) + if a.Rotated? then 1 else 0
  {
    assert (acts + [a])[..|acts|] == acts;
  }

  lemma {:induction false} NothingYet(head: seq<Act>)
    requires Opening(head)
    ensures Calls(head) == [] && Rotations(head) == 0
  {
    Snoc([], Dialed(true));
    assert [] + [Dialed(true)] == [Dialed(true)];
  }

  lemma {:induction false} OnlyDialed(dialed: bool, token: string)
    ensures Conforms([Dialed(dialed)], false, token)
  {
    hide Recoverable, CallsForRotation;
    Snoc([], Dialed(dialed));
    assert [] + [Dialed(dialed)] == [Dialed(dialed)];
  }

  lemma {:induction false} ShortRun(head: seq<Act>, error: Option<string>, token: string)
    requires Opening(head)
    ensures Conforms(head + [Called(error)], error.None?, token)
    ensures Calls(head + [Called(error)]) == [error] && Rotations(head + [Called(error)]) == 0
  {
    hide Recoverable, CallsForRotation;
    NothingYet(head);
    Snoc(head, Called(error));
  }

  lemma {:induction false} DialedAgain(head: seq<Act>, first: Option<string>, dialed: bool, token: string)
    requires Opening(head) && first.Some?
    ensures var acts := head + [Called(first), Dialed(dialed)];
      Conforms(acts, false, token) && Calls(acts) == [first] && Rotations(acts) == 0
  {
    hide Recoverable, CallsForRotation;
    ShortRun(head, first, token);
    Snoc(head + [Called(first)], Dialed(dialed));
    assert head + [Called(first)] + [Dialed(dialed)] == head + [Called(first), Dialed(dialed)];
  }

  lemma {:induction false} SecondCall(head: seq<Act>, first: Option<string>, error: Option<string>, token: string)
    requires Opening(head) && first.Some? && Recoverable(first.value)
    ensures var acts := head + [Called(first), Dialed(true)] + [Called(error)];
      Conforms(acts, error.None?, token) && Calls(acts) == [first, error] && Rotations(acts) == 0
  {
    hide Recoverable, CallsForRotation;
    DialedAgain(head, first, true, token);
    Snoc(head + [Called(first), Dialed(true)], Called(error));
  }

  lemma {:induction false} RotationTried(head: seq<Act>, first: Option<string>, error: Option<string>, rotated: bool,
                                         token: string)
    requires Opening(head) && first.Some? && Recoverable(first.value) && error.Some? && CallsForRotation(error.value, token)
    ensures var acts := head + [Called(first), Dialed(true)] + [Called(error)] + [Rotated(rotated)];
      Conforms(acts, false, token) && Calls(acts) == [first, error] && Rotations(acts) == 1
  {
    hide Recoverable, CallsForRotation;
    SecondCall(head, first, error, token);
    Snoc(head + [Called(first), Dialed(true)] + [Called(error)], Rotated(rotated));
  }

  lemma {:induction false} RotationDialed(head: seq<Act>, first: Option<string>, error: Option<string>, dialed: bool,
                                          token: string)
    requires Opening(head) && first.Some? && Recoverable(first.value) && error.Some? && CallsForRotation(error.value, token)
    ensures var acts := head + [Called(first), Dialed(true)] + [Called(error)] + [Rotated(true)] + [Dialed(dialed)];
      Conforms(acts, false, token) && Calls(acts) == [first, error] && Rotations(acts) == 1
  {
    hide Recoverable, CallsForRotation;
    RotationTried(head, first, error, true, token);
    Snoc(head + [Called(first), Dialed(true)] + [Called(error)] + [Rotated(true)], Dialed(dialed));
  }

  lemma {:induction false} LastCall(head: seq<Act>, first: Option<string>, error: Option<string>, last: Option<string>,
                                    token: string)
    requires Opening(head) && first.Some? && Recoverable(first.value) && error.Some? && CallsForRotation(error.value, token)
    ensures Conforms(head + [Called(first), Dialed(true)] + [Called(error)] + [Rotated(true)] + [Dialed(true)] + [Called(last)],
                     last.None?, token)
  {
    hide Recoverable, CallsForRotation;
    RotationDialed(head, first, error, true, token);
    Snoc(head + [Called(first), Dialed(true)] + [Called(error)] + [Rotated(true)] + [Dialed(true)], Called(last));
  }

  lemma {:induction false} RunConforms(w: World, head: seq<Act>, k: nat, d: nat)
    requires Opening(head)
    ensures Conforms(head + FirstCall(w, k, d).acts, FirstCall(w, k, d).ok, w.token)
  {
    hide Recoverable, CallsForRotation, Conforms;
    var first := w.call(k);
    ShortRun(head, first, w.token);
    if first.Some? && Recoverable(first.value) {
      DialedAgain(head, first, w.dial(d), w.token);
      if w.dial(d) && w.present(d) {
        RetryConforms(w, head, first, k + 1, d + 1);
        var rest := Retry(w, k + 1, d + 1).acts;
        assert head + ([Called(first), Dialed(true)] + rest) == head + [Called(first), Dialed(true)] + rest;
      }
    }
  }

  lemma {:induction false} RetryConforms(w: World, head: seq<Act>, first: Option<string>, k: nat, d: nat)
    requires Opening(head) && first.Some? && Recoverable(first.value)
    ensures Conforms(head + [Called(first), Dialed(true)] + Retry(w, k, d).acts, Retry(w, k, d).ok, w.token)
  {
    hide Recoverable, CallsForRotation, Conforms;
    var before := head + [Called(first), Dialed(true)];
    var error := w.call(k);
    SecondCall(head, first, error, w.token);
    if error.Some? && CallsForRotation(error.value, w.token) {
      RotationTried(head, first, error, w.rotate, w.token);
      assert before + [Called(error)] + [Rotated(w.rotate)] == before + [Called(error), Rotated(w.rotate)];
      if w.rotate {
        RotationDialed(head, first, error, w.dial(d), w.token);
        var dialed := [Called(error), Rotated(true), Dialed(w.dial(d))];
        assert before + [Called(error)] + [Rotated(true)] + [Dialed(w.dial(d))] == before + dialed;
        if w.dial(d) && w.present(d) {
          LastCall(head, first, error, w.call(k + 1), w.token);
          assert before + [Called(error)] + [Rotated(true)] + [Dialed(true)] + [Called(w.call(k + 1))]
              == before + [Called(error), Rotated(true), Dialed(true), Called(w.call(k + 1))];
        }
      }
    }
  }

  /** Every recovery, whatever the outside does. */
  lemma {:induction false} RecoveryConforms(w: World, connected: bool, k: nat, d: nat)
    ensures Conforms(Recovery(w, connected, k, d).acts, Recovery(w, connected, k, d).ok, w.token)
  {
    hide Conforms, FirstCall;
    if connected {
      RunConforms(w, [], k, d);
      assert [] + FirstCall(w, k, d).acts == FirstCall(w, k, d).acts;
    } else if w.dial(d) && w.present(d) {
      RunConforms(w, [Dialed(true)], k, d + 1);
    } else {
      OnlyDialed(w.dial(d), w.token);
    }
  }

  lemma {:induction false} CallsAppend(a: seq<Act>, b: seq<Act>)
    ensures Calls(a + b) == Calls(a) + Calls(b)
  {
    if b == [] {
      assert a + b == a;
    } else {
      var shorter := b[..|b| - 1];
      assert (a + b)[..|a + b| - 1] == a + shorter;
      CallsAppend(a, shorter);
    }
  }

  /**
    The recovery does not give up early: which calls are made depends on the errors and dials alone. Without a
    connection the first dial opens one; with one, or behind that dial, a call is made at once.
   */
  lemma {:induction false} RecoveryTriesOn(w: World, connected: bool, k: nat, d: nat)
    ensures var calls, next := Calls(Recovery(w, connected, k, d).acts), if connected then d else d + 1;
      && (|calls| >= 1 <==> connected || (w.dial(d) && w.present(d)))
      && (|calls| >= 1 ==> calls[0] == w.call(k))
      && (|calls| >= 2 <==> |calls| >= 1 && w.call(k).Some? && Recoverable(w.call(k).value) && w.dial(next) && w.present(next))
      && (|calls| >= 2 ==> calls[1] == w.call(k + 1))
      && (|calls| == 3 <==> |calls| >= 2 && calls[1].Some? && CallsForRotation(calls[1].value, w.token)
                            && w.rotate && w.dial(next + 1) && w.present(next + 1))
      && (|calls| == 3 ==> calls[2] == w.call(k + 2))
  {
    hide Recoverable, CallsForRotation, FirstCall, Calls;
    if connected {
      CallsTryOn(w, k, d);
    } else {
      NothingYet([Dialed(true)]);
      Snoc([], Dialed(w.dial(d)));
      NothingYet([]);
      assert [] + [Dialed(w.dial(d))] == [Dialed(w.dial(d))];
      if w.dial(d) && w.present(d) {
        CallsTryOn(w, k, d + 1);
        CallsAppend([Dialed(true)], FirstCall(w, k, d + 1).acts);
      }
    }
  }

  /** From the connection on. */
  lemma {:induction false} CallsTryOn(w: World, k: nat, d: nat)
    ensures var calls := Calls(FirstCall(w, k, d).acts);
      && |calls| >= 1 && calls[0] == w.call(k)
      && (|calls| >= 2 <==> w.call(k).Some? && Recoverable(w.call(k).value) && w.dial(d) && w.present(d))
      && (|calls| >= 2 ==> calls[1] == w.call(k + 1))
      && (|calls| == 3 <==> |calls| >= 2 && calls[1].Some? && CallsForRotation(calls[1].value, w.token)
                            && w.rotate && w.dial(d + 1) && w.present(d + 1))
      && (|calls| == 3 ==> calls[2] == w.call(k + 2))
  {
    hide Recoverable, CallsForRotation;
    var first := w.call(k);
    Snoc([], Called(first));
    assert [] + [Called(first)] == [Called(first)];
    Snoc([Called(first)], Dialed(w.dial(d)));
    assert [Called(first)] + [Dialed(w.dial(d))] == [Called(first), Dialed(w.dial(d))];
    if first.Some? && Recoverable(first.value) && w.dial(d) && w.present(d) {
      RetryCalls(w, first, k + 1, d + 1);
    }
  }

  lemma {:induction false} RetryCalls(w: World, first: Option<string>, k: nat, d: nat)
    requires first.Some? && Recoverable(first.value)
    ensures var calls := Calls([Called(first), Dialed(true)] + Retry(w, k, d).acts);
      && |calls| >= 2 && calls[0] == first && calls[1] == w.call(k)
      && (|calls| == 3 <==> calls[1].Some? && CallsForRotation(calls[1].value, w.token) && w.rotate && w.dial(d) && w.present(d))
      && (|calls| == 3 ==> calls[2] == w.call(k + 1))
  {
    hide Recoverable, CallsForRotation, Calls, Conforms, Rotations;
    var before := [Called(first), Dialed(true)];
    var error := w.call(k);
    assert [] + before == before;
    SecondCall([], first, error, w.token);
    if error.Some? && CallsForRotation(error.value, w.token) {
      var one := before + [Called(error)];
      RotationTried([], first, error, w.rotate, w.token);
      assert one + [Rotated(w.rotate)] == before + [Called(error), Rotated(w.rotate)];
      if w.rotate {
        var two := one + [Rotated(true)];
        RotationDialed([], first, error, w.dial(d), w.token);
        assert two + [Dialed(w.dial(d))] == before + [Called(error), Rotated(true), Dialed(w.dial(d))];
        if w.dial(d) && w.present(d) {
          Snoc(two + [Dialed(true)], Called(w.call(k + 1)));
          assert two + [Dialed(true)] + [Called(w.call(k + 1))]
              == before + [Called(error), Rotated(true), Dialed(true), Called(w.call(k + 1))];
        }
      }
    }
  }
}
