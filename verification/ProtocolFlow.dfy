// The in-flight counter, the one-request-at-a-time limit, the draining of an aborted machine,
// and which requests an abort can lose.

module ProtocolFlow {
  import opened Common
  import opened ProtocolModel
  import opened ProtocolSafety

  function Held(active: Option<Request>): nat { if active.Some? then 1 else 0 }

  // The requests a machine still has to call back.
  function Pending(w: Work): nat { |w.queue| + Held(w.active) + |w.sent| }

  // ---------------------------------------------------------------- the counter

  ghost predicate CounterSound(w: Work) { 0 <= w.sentNum <= |w.sent| }

  // With a limit of one request, at most one is being sent or waiting for its response, and
  // outside an abort the counter is exact.
  ghost predicate OneInFlight(m: Machine) {
    && Held(m.work.active) + |m.work.sent| <= 1
    && (!m.abort ==> m.work.sentNum == |m.work.sent|)
  }

  ghost predicate FlowSound(m: Machine) {
    CounterSound(m.work) && (m.cfg.limit == 1 ==> OneInFlight(m))
  }

  // The sizes after completing r.
  lemma CompleteSizes(w: Work, r: Request, code: int, open: bool)
    ensures var w' := Complete(w, r, code, open);
            && w'.queue == w.queue && w'.active == w.active
            && (open ==> w'.sent == w.sent && w'.sentNum == w.sentNum)
            && (!open ==> |w.sent| - 1 <= |w'.sent| <= |w.sent|)
            && (!open ==> w'.sentNum == if w.sentNum != 0 then w.sentNum - 1 else 0)
            && (!open && r in w.sent ==> |w'.sent| == |w.sent| - 1)
            && (w.sent == [] ==> w'.sent == [])
  {
    CountWithout(w.sent, r.id, r.id);
    if r in w.sent { CountMember(w.sent, r); }
  }

  lemma SendFlow(m: Machine, env: Env)
    requires FlowSound(m)
    ensures var w := SendRequest(m.work, m.cfg, env).0;
            FlowSound(m.(work := w)) && w.history == m.work.history && Pending(w) == Pending(m.work)
  {
  }

  lemma ExchangeFlow(m: Machine, env: Env)
    requires FlowSound(m)
    ensures var (m', paired) := Exchange(m, env);
            && FlowSound(m') && m'.abort == m.abort && m'.cfg == m.cfg
            && (paired.Some? ==> paired.value in m'.work.sent)
            && m'.work.history == m.work.history && Pending(m'.work) == Pending(m.work)
  {
    var w := SendRequest(m.work, m.cfg, env).0;
    SendFlow(m, env);
    PairIsSent(w.sent, env.id);
    assert Exchange(m, env).0.work == w;
  }

  lemma CommunicateFlow(m: Machine, me: nat, g: Shared, env: Env)
    requires FlowSound(m)
    ensures var (m', paired, _, _) := Communicate(m, me, g, env);
            && FlowSound(m') && m'.abort == m.abort && m'.cfg == m.cfg
            && (paired.Some? ==> paired.value in m'.work.sent)
            && m'.work.history == m.work.history && Pending(m'.work) == Pending(m.work)
  {
    var w := NewTransmit(m.work, m.cfg, m.abort, env);
    var m1 := m.(work := w, link := StConnect(m.link, m.cfg, me, g, env).0);
    assert FlowSound(m1) && Pending(m1.work) == Pending(m.work);
    ExchangeFlow(m1, env);
  }

  lemma CompleteIfFlow(m: Machine, r: Option<Request>, code: int)
    requires FlowSound(m)
    requires m.cfg.limit == 1 && r.Some? && !m.abort ==> r.value in m.work.sent || m.work.sent == []
    ensures FlowSound(CompleteIf(m, r, code))
  {
    if r.Some? { CompleteSizes(m.work, r.value, code, KeepsOpen(m, r.value)); }
  }

  lemma TimeoutStepFlow(m: Machine, env: Env)
    requires FlowSound(m)
    ensures FlowSound(TimeoutStep(m, env).0)
    ensures TimeoutStep(m, env).0.abort == m.abort && TimeoutStep(m, env).0.cfg == m.cfg
  {
    TimedOutIsSent(m.work.sent, m.cfg, env);
    var (w, late) := TakeTimedOut(m.work, m.cfg, env);
    CompleteIfFlow(m.(work := w, timeouts := m.timeouts + 1), late, ERR_TIMEOUT);
  }

  lemma AbortStepFlow(m: Machine)
    requires FlowSound(m)
    ensures FlowSound(AbortStep(m).0) && AbortStep(m).0.cfg == m.cfg
  {
    if m.abort {
      var (w, r) := TakeAborted(m.work);
      CompleteIfFlow(m.(work := w), r, ERR_REQUEST_ABORTED);
    }
  }

  lemma CompletionsFlow(m: Machine, paired: Option<Request>, env: Env)
    requires FlowSound(m) && (paired.Some? ==> paired.value in m.work.sent)
    ensures FlowSound(Completions(m, paired, env).0)
  {
    CompleteIfFlow(m, paired, ResponseCode(env));
    var m1 := CompleteIf(m, paired, ResponseCode(env));
    TimeoutStepFlow(m1, env);
    AbortStepFlow(TimeoutStep(m1, env).0);
  }

  // Every event keeps 0 <= sent_request_num <= the length of the sent list, and the limit.
  lemma ApplyFlow(m: Machine, me: nat, e: Event)
    requires FlowSound(m)
    ensures FlowSound(Apply(m, me, e))
  {
    if e.Poll? && m.state == Transmitting {
      CommunicateFlow(m, me, e.g, e.env);
      var (m1, paired, _, _) := Communicate(m, me, e.g, e.env);
      CompletionsFlow(m1, paired, e.env);
      var m2 := Completions(m1, paired, e.env).0;
      assert Apply(m, me, e).work == m2.work && Apply(m, me, e).abort == m2.abort && Apply(m, me, e).cfg == m2.cfg;
    }
  }

  lemma {:induction false} RunFlow(m: Machine, me: nat, es: seq<Event>)
    requires FlowSound(m)
    ensures FlowSound(Run(m, me, es))
    decreases |es|
  {
    if es != [] {
      ApplyFlow(m, me, es[0]);
      RunFlow(Apply(m, me, es[0]), me, es[1..]);
    }
  }

  lemma EveryRunFlows(cfg: Config, me: nat, es: seq<Event>)
    ensures FlowSound(Run(New(cfg), me, es))
  {
    RunFlow(New(cfg), me, es);
  }

  // ---------------------------------------------------------------- aborting drains the machine

  lemma CompleteIfDrains(m: Machine, r: Option<Request>, code: int)
    requires m.abort
    ensures var m' := CompleteIf(m, r, code);
            && m'.abort && Pending(m'.work) <= Pending(m.work)
            && (r.Some? && r.value in m.work.sent ==> Pending(m'.work) < Pending(m.work))
  {
    if r.Some? { CompleteSizes(m.work, r.value, code, false); }
  }

  lemma TimeoutStepDrains(m: Machine, env: Env)
    requires m.abort
    ensures TimeoutStep(m, env).0.abort && Pending(TimeoutStep(m, env).0.work) <= Pending(m.work)
  {
    var (w, late) := TakeTimedOut(m.work, m.cfg, env);
    CompleteIfDrains(m.(work := w, timeouts := m.timeouts + 1), late, ERR_TIMEOUT);
  }

  lemma AbortStepDrains(m: Machine)
    requires m.abort && CounterSound(m.work)
    ensures var m' := AbortStep(m).0;
            if m'.abort then Pending(m'.work) < Pending(m.work) else Pending(m'.work) == 0 && m'.work.sentNum == 0
  {
    var (w, r) := TakeAborted(m.work);
    CompleteIfDrains(m.(work := w), r, ERR_REQUEST_ABORTED);
  }

  // While the abort flag is set, every visit to st_transmit leaves fewer requests behind or
  // clears the flag; and it clears the flag only when no request is left at all.
  lemma AbortDrains(m: Machine, me: nat, g: Shared, env: Env)
    requires m.abort && FlowSound(m)
    ensures var m' := StTransmit(m, me, g, env).0;
            if m'.abort then Pending(m'.work) < Pending(m.work) else Pending(m'.work) == 0 && m'.work.sentNum == 0
  {
    CommunicateFlow(m, me, g, env);
    var (m1, paired, _, _) := Communicate(m, me, g, env);
    CompleteIfFlow(m1, paired, ResponseCode(env));
    CompleteIfDrains(m1, paired, ResponseCode(env));
    var m2 := CompleteIf(m1, paired, ResponseCode(env));
    TimeoutStepFlow(m2, env);
    TimeoutStepDrains(m2, env);
    var m3 := TimeoutStep(m2, env).0;
    AbortStepDrains(m3);
    assert StTransmit(m, me, g, env).0.work == AbortStep(m3).0.work;
  }

  ghost predicate Polls(es: seq<Event>) { forall i :: 0 <= i < |es| ==> es[i].Poll? }

  ghost predicate Drained(m: Machine) { m.abort || (Pending(m.work) == 0 && m.work.sentNum == 0) }

  lemma IdleCommunicates(m: Machine, me: nat, g: Shared, env: Env)
    requires !m.abort && Pending(m.work) == 0
    ensures var (m', paired, _, _) := Communicate(m, me, g, env); !m'.abort && m'.work == m.work && paired == None
  {
    assert NewTransmit(m.work, m.cfg, m.abort, env) == m.work;
    assert SendRequest(m.work, m.cfg, env) == (m.work, ERR_SUCCESS);
  }

  lemma IdleCompletes(m: Machine, env: Env)
    requires !m.abort && Pending(m.work) == 0
    ensures Completions(m, None, env) == (m, false)
  {
    assert TakeTimedOut(m.work, m.cfg, env) == (m.work, None);
  }

  lemma IdleStaysIdle(m: Machine, me: nat, g: Shared, env: Env)
    requires !m.abort && Pending(m.work) == 0
    ensures var m' := Task(m, me, g, env).0; !m'.abort && m'.work == m.work
  {
    if m.state == Transmitting {
      IdleCommunicates(m, me, g, env);
      IdleCompletes(Communicate(m, me, g, env).0, env);
    }
  }

  predicate Visits(m: Machine, e: Event) { e.Poll? && m.state == Transmitting }

  function CountVisits(m: Machine, me: nat, es: seq<Event>): nat
    decreases |es|
  {
    if es == [] then 0 else (if Visits(m, es[0]) then 1 else 0) + CountVisits(Apply(m, me, es[0]), me, es[1..])
  }

  lemma {:induction false} EmptyStaysEmpty(m: Machine, me: nat, es: seq<Event>)
    requires Polls(es) && !m.abort && Pending(m.work) == 0
    ensures var m' := Run(m, me, es); m'.work == m.work && !m'.abort
    decreases |es|
  {
    if es != [] {
      IdleStaysIdle(m, me, es[0].g, es[0].env);
      EmptyStaysEmpty(Apply(m, me, es[0]), me, es[1..]);
    }
  }

  // After protocol_client_sm_clear, as long as nothing new is submitted: the answer of
  // protocol_client_sm_is_empty is TRUE only if the machine holds no request, and it is TRUE
  // once the transmit state has been visited more often than there were requests.
  lemma {:induction false} ClearedMeansEmpty(m: Machine, me: nat, es: seq<Event>)
    requires Polls(es) && FlowSound(m) && Drained(m)
    ensures var m' := Run(m, me, es);
            && Drained(m')
            && (IsEmpty(m') ==> Pending(m'.work) == 0 && m'.work.sentNum == 0)
            && (CountVisits(m, me, es) > Pending(m.work) ==> IsEmpty(m'))
    decreases |es|
  {
    if es != [] {
      var e := es[0];
      var m1 := Apply(m, me, e);
      ApplyFlow(m, me, e);
      if !m.abort {
        IdleStaysIdle(m, me, e.g, e.env);
      } else if m.state == Transmitting {
        AbortDrains(m, me, e.g, e.env);
      }
      ClearedMeansEmpty(m1, me, es[1..]);
      if !m1.abort { EmptyStaysEmpty(m1, me, es[1..]); }
    }
  }
}
