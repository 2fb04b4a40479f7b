// Which requests a protocol client machine loses: those that sit in the active slot when
// check_timeout or abort_transfers completes another request.

module ProtocolLoss {
  import opened Common
  import opened ProtocolModel
  import opened ProtocolSafety
  import opened ProtocolFlow
  import opened ConnectLock

  // How often request x has been overwritten in the active slot.
  function Losses(w: Work, x: nat): nat { RecordOf(w.history, x).overwritten }

  lemma CompleteIfLosesNone(m: Machine, r: Option<Request>, code: int, x: nat)
    ensures Losses(CompleteIf(m, r, code).work, x) == Losses(m.work, x)
    ensures CompleteIf(m, r, code).work.active == m.work.active
  {
    if r.Some? {
      var done := !KeepsOpen(m, r.value);
      TellRecord(m.work.history, Called(r.value, code, done), x);
      TellRecord(m.work.history + [Called(r.value, code, done)], LetGo(r.value.id), x);
    }
  }

  lemma OverwriteLoses(w: Work, x: nat)
    ensures Losses(Overwrite(w), x) == Losses(w, x) + CountActive(w.active, x)
  {
    if w.active.Some? { TellRecord(w.history, Overwritten(w.active.value.id), x); }
  }

  lemma TimeoutStepLoses(m: Machine, env: Env, x: nat)
    ensures Losses(TimeoutStep(m, env).0.work, x) ==
            Losses(m.work, x)
            + if FirstTimedOut(m.work.sent, m.cfg, env).Some? then CountActive(m.work.active, x) else 0
  {
    OverwriteLoses(m.work, x);
    var (w, late) := TakeTimedOut(m.work, m.cfg, env);
    if late.Some? {
      var m1 := m.(work := w, timeouts := m.timeouts + 1);
      CompleteIfLosesNone(m1, late, ERR_TIMEOUT, x);
      assert TimeoutStep(m, env).0 == CompleteIf(m1, late, ERR_TIMEOUT);
    }
  }

  lemma AbortStepLoses(m: Machine, x: nat)
    ensures Losses(AbortStep(m).0.work, x) ==
            Losses(m.work, x)
            + if m.abort && (m.work.queue != [] || m.work.sent != []) then CountActive(m.work.active, x) else 0
  {
    var (w, r) := TakeAborted(m.work);
    OverwriteLoses(m.work, x);
    OverwriteLoses(m.work.(queue := if m.work.queue == [] then [] else m.work.queue[1..]), x);
    CompleteIfLosesNone(m.(work := w), r, ERR_REQUEST_ABORTED, x);
  }

  // The machine as check_timeout finds it, and as abort_transfers finds it.
  function BeforeTimeout(m: Machine, me: nat, g: Shared, env: Env): Machine {
    var (m1, paired, _, _) := Communicate(m, me, g, env);
    CompleteIf(m1, paired, ResponseCode(env))
  }

  function BeforeAbort(m: Machine, me: nat, g: Shared, env: Env): Machine {
    TimeoutStep(BeforeTimeout(m, me, g, env), env).0
  }

  // A step overwrites exactly: the active request when another one has timed out on the sent
  // list, and the active request when an abort completes one from the queue or the sent list.
  lemma StepLosses(m: Machine, me: nat, g: Shared, env: Env, x: nat)
    ensures var t, a := BeforeTimeout(m, me, g, env), BeforeAbort(m, me, g, env);
            Losses(StTransmit(m, me, g, env).0.work, x) ==
              Losses(m.work, x)
              + (if FirstTimedOut(t.work.sent, t.cfg, env).Some? then CountActive(t.work.active, x) else 0)
              + (if a.abort && (a.work.queue != [] || a.work.sent != []) then CountActive(a.work.active, x) else 0)
  {
    var (m1, paired, _, _) := Communicate(m, me, g, env);
    CommunicateTells(m, me, g, env);
    CompleteIfLosesNone(m1, paired, ResponseCode(env), x);
    TimeoutStepLoses(BeforeTimeout(m, me, g, env), env, x);
    AbortStepLoses(BeforeAbort(m, me, g, env), x);
  }

  lemma CommunicateTells(m: Machine, me: nat, g: Shared, env: Env)
    ensures Communicate(m, me, g, env).0.work.history == m.work.history
  {
    var w := NewTransmit(m.work, m.cfg, m.abort, env);
    var m1 := m.(work := w, link := StConnect(m.link, m.cfg, me, g, env).0);
    assert Exchange(m1, env).0.work.history == w.history;
  }

  // ---------------------------------------------------------------- a limit of one loses nothing

  ghost predicate ClearFree(es: seq<Event>) { forall i :: 0 <= i < |es| ==> !es[i].Abort? }

  lemma LimitOneStepLosesNone(m: Machine, me: nat, e: Event, x: nat)
    requires m.cfg.limit == 1 && FlowSound(m) && !m.abort && !e.Abort?
    ensures var m' := Apply(m, me, e); !m'.abort && m'.cfg == m.cfg && Losses(m'.work, x) == Losses(m.work, x)
  {
    match e
    case Poll(g, env) =>
      if m.state == Transmitting {
        StepLosses(m, me, g, env, x);
        CommunicateFlow(m, me, g, env);
        var (m1, paired, _, _) := Communicate(m, me, g, env);
        CompleteIfFlow(m1, paired, ResponseCode(env));
        var t := BeforeTimeout(m, me, g, env);
        TimeoutStepFlow(t, env);
        TimedOutIsSent(t.work.sent, t.cfg, env);
      }
    case Submit(r, memory) => TellRecord(m.work.history, Accepted(r), x);
  }

  // On a clear-free run with a limit of one request, none is ever overwritten.
  lemma {:induction false} LimitOneLosesNone(m: Machine, me: nat, es: seq<Event>, x: nat)
    requires m.cfg.limit == 1 && FlowSound(m) && !m.abort && ClearFree(es)
    ensures Losses(Run(m, me, es).work, x) == Losses(m.work, x)
    decreases |es|
  {
    if es != [] {
      ApplyFlow(m, me, es[0]);
      LimitOneStepLosesNone(m, me, es[0], x);
      LimitOneLosesNone(Apply(m, me, es[0]), me, es[1..], x);
    }
  }

  // ---------------------------------------------------------------- what a clear can lose

  // An active request is in no danger from an abort: it is the only one, or there is none.
  predicate SafeToClear(w: Work) { w.active == None || (w.queue == [] && w.sent == []) }

  lemma SafeStep(m: Machine, me: nat, g: Shared, env: Env, x: nat)
    requires m.abort && FlowSound(m) && SafeToClear(m.work)
    ensures var m' := StTransmit(m, me, g, env).0;
            Losses(m'.work, x) == Losses(m.work, x) && (m'.abort ==> SafeToClear(m'.work))
  {
    StepLosses(m, me, g, env, x);
    var (m1, paired, _, _) := Communicate(m, me, g, env);
    CommunicateSafe(m, me, g, env);
    CompleteIfSafe(m1, paired, ResponseCode(env));
    TimeoutStepSafe(BeforeTimeout(m, me, g, env), env);
    var a := BeforeAbort(m, me, g, env);
    AbortStepSafe(a);
    assert StTransmit(m, me, g, env).0.work == AbortStep(a).0.work;
  }

  lemma TimeoutStepSafe(m: Machine, env: Env)
    requires m.abort && SafeToClear(m.work)
    ensures TimeoutStep(m, env).0.abort && SafeToClear(TimeoutStep(m, env).0.work)
    ensures FirstTimedOut(m.work.sent, m.cfg, env).Some? ==> m.work.active == None
  {
    TimedOutIsSent(m.work.sent, m.cfg, env);
    var (w, late) := TakeTimedOut(m.work, m.cfg, env);
    CompleteIfSafe(m.(work := w, timeouts := m.timeouts + 1), late, ERR_TIMEOUT);
  }

  lemma AbortStepSafe(m: Machine)
    requires m.abort && SafeToClear(m.work)
    ensures SafeToClear(AbortStep(m).0.work)
  {
    var (w, r) := TakeAborted(m.work);
    CompleteIfSafe(m.(work := w), r, ERR_REQUEST_ABORTED);
  }

  lemma CommunicateSafe(m: Machine, me: nat, g: Shared, env: Env)
    requires m.abort && SafeToClear(m.work)
    ensures Communicate(m, me, g, env).0.abort && SafeToClear(Communicate(m, me, g, env).0.work)
  {
    var m1 := m.(link := StConnect(m.link, m.cfg, me, g, env).0);
    assert SafeToClear(SendRequest(m1.work, m1.cfg, env).0);
  }

  lemma CompleteIfSafe(m: Machine, r: Option<Request>, code: int)
    requires m.abort && SafeToClear(m.work)
    ensures CompleteIf(m, r, code).abort && SafeToClear(CompleteIf(m, r, code).work)
  {
    if r.Some? { CompleteSizes(m.work, r.value, code, false); }
  }

  lemma {:induction false} SafeClearLosesNone(m: Machine, me: nat, es: seq<Event>, x: nat)
    requires FlowSound(m) && Polls(es) && (if m.abort then SafeToClear(m.work) else Pending(m.work) == 0)
    ensures Losses(Run(m, me, es).work, x) == Losses(m.work, x)
    decreases |es|
  {
    if es != [] {
      var e := es[0];
      ApplyFlow(m, me, e);
      if !m.abort {
        IdleStaysIdle(m, me, e.g, e.env);
      } else if m.state == Transmitting {
        AbortDrains(m, me, e.g, e.env);
        SafeStep(m, me, e.g, e.env, x);
      }
      SafeClearLosesNone(Apply(m, me, e), me, es[1..], x);
    }
  }

  // A poll that loses the active request when a clear is not safe: another machine is
  // connecting, so nothing is sent, and the active request has not timed out.
  function LosingPoll(m: Machine, me: nat): Event
    requires m.work.active.Some?
  {
    Poll(Shared(Some(me + 1), 0, Resetting), Env(m.work.active.value.start, 0, 0, 0, 0, 0, 0, 0, false))
  }

  lemma UnsafeClearLoses(m: Machine, me: nat)
    requires m.abort && m.state == Transmitting && !SafeToClear(m.work)
    ensures var x := m.work.active.value.id; Losses(Apply(m, me, LosingPoll(m, me)).work, x) > Losses(m.work, x)
  {
    var e := LosingPoll(m, me);
    var x := m.work.active.value.id;
    StepLosses(m, me, e.g, e.env, x);
    var t := BeforeTimeout(m, me, e.g, e.env);
    assert t == m;
    assert !TimedOut(m.work.active.value, m.cfg, e.env);
    if FirstTimedOut(m.work.sent, m.cfg, e.env) == None {
      assert BeforeAbort(m, me, e.g, e.env) == m;
    }
  }

  // Polls that bring a machine to the transmit state without touching its requests.
  lemma ReachTransmit(m: Machine, me: nat) returns (es: seq<Event>)
    requires LinkSound(m)
    ensures Polls(es)
    ensures var m' := Run(m, me, es);
            m'.state == Transmitting && m'.work == m.work && m'.abort == m.abort && m'.cfg == m.cfg
    decreases if m.state == Failing then 1 else 0
  {
    var e := Poll(Shared(None, 0, Resetting), Env(m.lastReset + RESET_DELAY, 0, 0, 0, 0, 0, 0, 0, false));
    if m.state == Transmitting {
      es := [];
    } else if m.state == Resetting {
      es := [e];
      assert Run(m, me, es) == Run(Apply(m, me, e), me, []) by { assert es[1..] == []; }
    } else {
      var rest := ReachTransmit(Apply(m, me, e), me);
      es := [e] + rest;
      assert es[1..] == rest;
    }
  }

  lemma {:induction false} RunConcat(m: Machine, me: nat, es: seq<Event>, es': seq<Event>)
    ensures Run(m, me, es + es') == Run(Run(m, me, es), me, es')
    ensures AdmissibleRun(m, me, es + es') <==> AdmissibleRun(m, me, es) && AdmissibleRun(Run(m, me, es), me, es')
    decreases |es|
  {
    if es == [] {
      assert [] + es' == es';
    } else {
      assert (es + es')[1..] == es[1..] + es';
      RunConcat(Apply(m, me, es[0]), me, es[1..], es');
    }
  }

  lemma RunOne(m: Machine, me: nat, e: Event)
    ensures Run(m, me, [e]) == Apply(m, me, e)
  {
    assert [e][1..] == [];
  }

  lemma LosingRun(m: Machine, me: nat) returns (es: seq<Event>)
    requires LinkSound(m) && m.abort && !SafeToClear(m.work)
    ensures Polls(es) && Losses(Run(m, me, es).work, m.work.active.value.id) > Losses(m.work, m.work.active.value.id)
  {
    var before := ReachTransmit(m, me);
    var m' := Run(m, me, before);
    UnsafeClearLoses(m', me);
    es := before + [LosingPoll(m', me)];
    RunConcat(m, me, before, [LosingPoll(m', me)]);
    RunOne(m', me, LosingPoll(m', me));
  }

  // No run of polls after a clear overwrites a request if and only if the active slot was empty
  // or held the only request.
  lemma ClearLosesNoneIff(m: Machine, me: nat)
    requires LinkSound(m) && FlowSound(m)
    ensures SafeToClear(m.work) <==>
            forall es, x: nat :: Polls(es) ==> Losses(Run(Clear(m), me, es).work, x) == Losses(m.work, x)
  {
    if SafeToClear(m.work) {
      forall es, x: nat | Polls(es) ensures Losses(Run(Clear(m), me, es).work, x) == Losses(m.work, x) {
        SafeClearLosesNone(Clear(m), me, es, x);
      }
    } else {
      var es := LosingRun(Clear(m), me);
    }
  }
}
