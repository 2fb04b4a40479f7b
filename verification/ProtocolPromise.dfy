// The promise in the header of protocol_client_sm_clear: every request is called back, with
// ERR_REQUEST_ABORTED. When it is kept, with and without the error code.

module ProtocolPromise {
  import opened Common
  import opened ProtocolModel
  import opened ProtocolSafety
  import opened ProtocolFlow
  import opened ProtocolLoss
  import opened ProtocolLetGo
  import opened ConnectLock

  // The machine holds the request: queued, active or sent.
  predicate Holds(w: Work, r: Request) { r in w.queue || r in w.sent || w.active == Some(r) }

  // What every state of a run satisfies.
  ghost predicate Reached(m: Machine) {
    LinkSound(m) && FlowSound(m) && forall x: nat :: Accounted(m.work, x, 0)
  }

  lemma HeldIsUnfinished(w: Work, r: Request)
    requires Accounted(w, r.id, 0) && Holds(w, r)
    ensures Places(w, r.id) == 1
    ensures var rec := RecordOf(w.history, r.id); rec.finished == rec.overwritten == rec.letGo == 0
  {
    if r in w.queue { CountMember(w.queue, r); }
    if r in w.sent { CountMember(w.sent, r); }
  }

  // ---------------------------------------------------------------- runs of polls

  lemma {:induction false} PollsAreAdmissible(m: Machine, me: nat, es: seq<Event>)
    requires Polls(es)
    ensures AdmissibleRun(m, me, es)
    decreases |es|
  {
    if es != [] { PollsAreAdmissible(Apply(m, me, es[0]), me, es[1..]); }
  }

  lemma EventReached(m: Machine, me: nat, e: Event)
    requires Reached(m) && Admissible(m, e)
    ensures Reached(Apply(m, me, e))
  {
    ApplyFlow(m, me, e);
    if e.Poll? { LinkAlone(m, me, e.g, e.env); }
    forall x: nat ensures Accounted(Apply(m, me, e).work, x, 0) { ApplyAccounts(m, me, e, x); }
  }

  lemma {:induction false} AdmissibleReached(m: Machine, me: nat, es: seq<Event>)
    requires Reached(m) && AdmissibleRun(m, me, es)
    ensures Reached(Run(m, me, es))
    decreases |es|
  {
    if es != [] {
      EventReached(m, me, es[0]);
      AdmissibleReached(Apply(m, me, es[0]), me, es[1..]);
    }
  }

  lemma EveryRunReached(cfg: Config, me: nat, es: seq<Event>)
    requires AdmissibleRun(New(cfg), me, es)
    ensures Reached(Run(New(cfg), me, es))
  {
    AdmissibleReached(New(cfg), me, es);
  }

  lemma RunReached(m: Machine, me: nat, es: seq<Event>)
    requires Reached(m) && Polls(es)
    ensures Reached(Run(m, me, es))
  {
    PollsAreAdmissible(m, me, es);
    AdmissibleReached(m, me, es);
  }

  lemma LossesGrow(m: Machine, me: nat, e: Event, x: nat)
    requires e.Poll?
    ensures Losses(Apply(m, me, e).work, x) >= Losses(m.work, x)
  {
    if m.state == Transmitting { StepLosses(m, me, e.g, e.env, x); }
  }

  lemma {:induction false} RunLossesGrow(m: Machine, me: nat, es: seq<Event>, x: nat)
    requires Polls(es)
    ensures Losses(Run(m, me, es).work, x) >= Losses(m.work, x)
    decreases |es|
  {
    if es != [] {
      LossesGrow(m, me, es[0], x);
      RunLossesGrow(Apply(m, me, es[0]), me, es[1..], x);
    }
  }

  // Polls that visit the transmit state once.
  lemma VisitOnce(m: Machine, me: nat) returns (es: seq<Event>)
    requires Reached(m) && m.abort
    ensures var m' := Run(m, me, es);
            Polls(es) && Reached(m') && Drained(m') && (m'.abort ==> Pending(m'.work) < Pending(m.work))
  {
    var before := ReachTransmit(m, me);
    var m1 := Run(m, me, before);
    RunReached(m, me, before);
    var e := LostPoll();
    AbortDrains(m1, me, e.g, e.env);
    RunOne(m1, me, e);
    RunReached(m1, me, [e]);
    es := before + [e];
    RunConcat(m, me, before, [e]);
  }

  // From every cleared state there is a run of polls to an empty machine.
  lemma ReachEmpty(m: Machine, me: nat) returns (es: seq<Event>)
    requires Reached(m) && Drained(m)
    ensures Polls(es) && IsEmpty(Run(m, me, es))
    decreases if m.abort then Pending(m.work) + 1 else 0
  {
    es := [];
    if m.abort {
      var before := VisitOnce(m, me);
      var after := ReachEmpty(Run(m, me, before), me);
      es := before + after;
      RunConcat(m, me, before, after);
    }
  }

  // A run to a state in the transmit state, a poll there, and a run to an empty machine.
  lemma FinishRun(m: Machine, me: nat, before: seq<Event>, e: Event) returns (after: seq<Event>)
    requires Reached(m) && Drained(m) && Polls(before) && e.Poll?
    requires var m1 := Run(m, me, before); m1.state == Transmitting && m1.abort
    ensures Polls(before + [e] + after)
    ensures var m2 := Apply(Run(m, me, before), me, e);
            && Polls(after) && Reached(m2) && Drained(m2) && IsEmpty(Run(m2, me, after)) && Reached(Run(m2, me, after))
            && Run(m, me, before + [e] + after) == Run(m2, me, after)
  {
    var m1 := Run(m, me, before);
    RunReached(m, me, before);
    AbortDrains(m1, me, e.g, e.env);
    RunOne(m1, me, e);
    RunReached(m1, me, [e]);
    after := ReachEmpty(Apply(m1, me, e), me);
    RunReached(Apply(m1, me, e), me, after);
    RunConcat(m, me, before, [e]);
    RunConcat(m, me, before + [e], after);
  }

  function LostPoll(): Event { Poll(FREE, Env(0, 0, 0, 0, 0, 0, 0, 0, false)) }

  // ---------------------------------------------------------------- an abort lets nothing go

  lemma {:induction false} AbortLetsNoneGo(m: Machine, me: nat, es: seq<Event>, x: nat)
    requires Reached(m) && Drained(m) && Polls(es)
    ensures LetGos(Run(m, me, es).work, x) == LetGos(m.work, x)
    decreases |es|
  {
    if es != [] {
      var e := es[0];
      RunOne(m, me, e);
      RunReached(m, me, [e]);
      if !m.abort {
        IdleStaysIdle(m, me, e.g, e.env);
      } else if m.state == Transmitting {
        StepLetsGo(m, me, e.g, e.env, x);
        AbortDrains(m, me, e.g, e.env);
        AbortStays(m, me, e.g, e.env);
      }
      AbortLetsNoneGo(Apply(m, me, e), me, es[1..], x);
    }
  }

  lemma AbortStays(m: Machine, me: nat, g: Shared, env: Env)
    ensures BeforeTimeout(m, me, g, env).abort == m.abort
  {
    var (m1, paired, _, _) := Communicate(m, me, g, env);
    assert m1.abort == m.abort;
  }

  // ---------------------------------------------------------------- every request is called back

  // In every run of polls after a clear that ends with an empty machine, each request the
  // machine held has finished, by one callback.
  ghost predicate CallsAllBack(m: Machine, me: nat) {
    forall es, r ::
      Polls(es) && Holds(m.work, r) && IsEmpty(Run(Clear(m), me, es)) ==> FinishedIn(Run(Clear(m), me, es), r)
  }

  ghost predicate FinishedIn(m: Machine, r: Request) {
    RecordOf(m.work.history, r.id).finished == 1 && NoneAfterDone(m.work.history, r.id)
  }

  lemma SafeCallsBack(m: Machine, me: nat, es: seq<Event>, r: Request)
    requires Reached(m) && SafeToClear(m.work) && Polls(es) && Holds(m.work, r) && IsEmpty(Run(Clear(m), me, es))
    ensures FinishedIn(Run(Clear(m), me, es), r)
  {
    var c := Clear(m);
    HeldIsUnfinished(m.work, r);
    SafeClearLosesNone(c, me, es, r.id);
    AbortLetsNoneGo(c, me, es, r.id);
    ClearedMeansEmpty(c, me, es);
    PollsAreAdmissible(c, me, es);
    RunAccounts(c, me, es, r.id);
    AcceptedStays(c, me, es, r.id);
  }

  // Polls accept nothing.
  lemma {:induction false} AcceptedStays(m: Machine, me: nat, es: seq<Event>, x: nat)
    requires Polls(es)
    ensures RecordOf(Run(m, me, es).work.history, x).accepted == RecordOf(m.work.history, x).accepted
    decreases |es|
  {
    if es != [] {
      PollAcceptsNone(m, me, es[0].g, es[0].env, x);
      AcceptedStays(Apply(m, me, es[0]), me, es[1..], x);
    }
  }

  function Accepts(w: Work, x: nat): nat { RecordOf(w.history, x).accepted }

  lemma CompleteIfAcceptsNone(m: Machine, r: Option<Request>, code: int, x: nat)
    ensures Accepts(CompleteIf(m, r, code).work, x) == Accepts(m.work, x)
  {
    if r.Some? {
      var done := !KeepsOpen(m, r.value);
      TellRecord(m.work.history, Called(r.value, code, done), x);
      TellRecord(m.work.history + [Called(r.value, code, done)], LetGo(r.value.id), x);
    }
  }

  lemma OverwriteAcceptsNone(w: Work, x: nat)
    ensures Accepts(Overwrite(w), x) == Accepts(w, x)
  {
    if w.active.Some? { TellRecord(w.history, Overwritten(w.active.value.id), x); }
  }

  lemma TimeoutStepAcceptsNone(t: Machine, env: Env, x: nat)
    ensures Accepts(TimeoutStep(t, env).0.work, x) == Accepts(t.work, x)
  {
    OverwriteAcceptsNone(t.work, x);
    var (w, late) := TakeTimedOut(t.work, t.cfg, env);
    CompleteIfAcceptsNone(t.(work := w, timeouts := t.timeouts + 1), late, ERR_TIMEOUT, x);
  }

  lemma AbortStepAcceptsNone(a: Machine, x: nat)
    ensures Accepts(AbortStep(a).0.work, x) == Accepts(a.work, x)
  {
    OverwriteAcceptsNone(a.work, x);
    OverwriteAcceptsNone(a.work.(queue := if a.work.queue == [] then [] else a.work.queue[1..]), x);
    var (w, r) := TakeAborted(a.work);
    CompleteIfAcceptsNone(a.(work := w), r, ERR_REQUEST_ABORTED, x);
  }

  lemma PollAcceptsNone(m: Machine, me: nat, g: Shared, env: Env, x: nat)
    ensures Accepts(Task(m, me, g, env).0.work, x) == Accepts(m.work, x)
  {
    if m.state == Transmitting {
      CommunicateTells(m, me, g, env);
      var (m1, paired, _, _) := Communicate(m, me, g, env);
      CompleteIfAcceptsNone(m1, paired, ResponseCode(env), x);
      TimeoutStepAcceptsNone(BeforeTimeout(m, me, g, env), env, x);
      AbortStepAcceptsNone(BeforeAbort(m, me, g, env), x);
    }
  }

  // A machine that is not safe to clear has a run to empty in which its active request never
  // finishes.
  lemma UnsafeBreaks(m: Machine, me: nat) returns (es: seq<Event>)
    requires Reached(m) && !SafeToClear(m.work)
    ensures Polls(es) && IsEmpty(Run(Clear(m), me, es))
    ensures !FinishedIn(Run(Clear(m), me, es), m.work.active.value)
  {
    var c := Clear(m);
    var x := m.work.active.value.id;
    var before := ReachTransmit(c, me);
    var m1 := Run(c, me, before);
    RunReached(c, me, before);
    var e := LosingPoll(m1, me);
    UnsafeClearLoses(m1, me);
    var after := FinishRun(c, me, before, e);
    es := before + [e] + after;
    var m2 := Apply(m1, me, e);
    RunLossesGrow(m2, me, after, x);
    assert Accounted(Run(m2, me, after).work, x, 0);
  }

  // After a clear every request is called back, in every run that empties the machine, if and
  // only if the active slot was empty or held the only request.
  lemma CallsAllBackIff(m: Machine, me: nat)
    requires Reached(m)
    ensures SafeToClear(m.work) <==> CallsAllBack(m, me)
  {
    if SafeToClear(m.work) {
      forall es, r | Polls(es) && Holds(m.work, r) && IsEmpty(Run(Clear(m), me, es))
        ensures FinishedIn(Run(Clear(m), me, es), r)
      {
        SafeCallsBack(m, me, es, r);
      }
    } else {
      var es := UnsafeBreaks(m, me);
      assert Holds(m.work, m.work.active.value);
    }
  }

  // ---------------------------------------------------------------- with which code

  // The history has grown from h, and every new callback of request x has that code.
  ghost predicate CallsWith(h: seq<Fact>, w: Work, x: nat, code: int) {
    && |h| <= |w.history| && w.history[..|h|] == h
    && forall i :: |h| <= i < |w.history| && w.history[i].Called? && w.history[i].req.id == x ==>
         w.history[i].code == code
  }

  // Request x is neither active nor sent.
  ghost predicate Apart(w: Work, x: nat) {
    (w.active.Some? ==> w.active.value.id != x) && forall r :: r in w.sent ==> r.id != x
  }

  lemma {:induction false} WithoutApart(rs: seq<Request>, id: nat, x: nat)
    requires forall r :: r in rs ==> r.id != x
    ensures forall r :: r in Without(rs, id) ==> r.id != x
  {
    if rs != [] && rs[0].id != id { WithoutApart(rs[1..], id, x); }
  }

  lemma CompleteIfApart(h: seq<Fact>, m: Machine, r: Option<Request>, code: int, x: nat)
    requires CallsWith(h, m.work, x, ERR_REQUEST_ABORTED) && Apart(m.work, x)
    requires r.Some? ==> r.value.id != x || code == ERR_REQUEST_ABORTED
    ensures var w := CompleteIf(m, r, code).work; CallsWith(h, w, x, ERR_REQUEST_ABORTED) && Apart(w, x)
  {
    if r.Some? { WithoutApart(m.work.sent, r.value.id, x); }
  }

  lemma TimeoutStepApart(h: seq<Fact>, t: Machine, env: Env, x: nat)
    requires CallsWith(h, t.work, x, ERR_REQUEST_ABORTED) && Apart(t.work, x)
    ensures var w := TimeoutStep(t, env).0.work; CallsWith(h, w, x, ERR_REQUEST_ABORTED) && Apart(w, x)
  {
    TimedOutIsSent(t.work.sent, t.cfg, env);
    var (w, late) := TakeTimedOut(t.work, t.cfg, env);
    CompleteIfApart(h, t.(work := w, timeouts := t.timeouts + 1), late, ERR_TIMEOUT, x);
  }

  lemma AbortStepApart(h: seq<Fact>, a: Machine, x: nat)
    requires CallsWith(h, a.work, x, ERR_REQUEST_ABORTED) && Apart(a.work, x)
    ensures var w := AbortStep(a).0.work; CallsWith(h, w, x, ERR_REQUEST_ABORTED) && Apart(w, x)
  {
    var (w, r) := TakeAborted(a.work);
    CompleteIfApart(h, a.(work := w), r, ERR_REQUEST_ABORTED, x);
  }

  lemma SendApart(w: Work, cfg: Config, env: Env, x: nat)
    requires Apart(w, x)
    ensures Apart(SendRequest(w, cfg, env).0, x)
  {
  }

  lemma ExchangeApart(m: Machine, env: Env, x: nat)
    requires Apart(m.work, x)
    ensures var (m', paired) := Exchange(m, env); Apart(m'.work, x) && (paired.Some? ==> paired.value.id != x)
  {
    var w := SendRequest(m.work, m.cfg, env).0;
    SendApart(m.work, m.cfg, env, x);
    PairIsSent(w.sent, env.id);
    assert Exchange(m, env).0.work == w;
  }

  lemma CommunicateApart(m: Machine, me: nat, g: Shared, env: Env, x: nat)
    requires m.abort && Apart(m.work, x)
    ensures var (m1, paired, _, _) := Communicate(m, me, g, env);
            Apart(m1.work, x) && (paired.Some? ==> paired.value.id != x)
  {
    var m1 := m.(link := StConnect(m.link, m.cfg, me, g, env).0);
    assert NewTransmit(m.work, m.cfg, m.abort, env) == m1.work;
    ExchangeApart(m1, env, x);
  }

  // A poll of an aborting machine calls a request that is only queued back with
  // ERR_REQUEST_ABORTED, if it does, and does not send it.
  lemma PollApart(m: Machine, me: nat, e: Event, x: nat)
    requires e.Poll? && m.abort && Apart(m.work, x)
    ensures var w := Apply(m, me, e).work; CallsWith(m.work.history, w, x, ERR_REQUEST_ABORTED) && Apart(w, x)
  {
    if m.state == Transmitting {
      CommunicateTells(m, me, e.g, e.env);
      CommunicateApart(m, me, e.g, e.env, x);
      var (m1, paired, _, _) := Communicate(m, me, e.g, e.env);
      CompleteIfApart(m.work.history, m1, paired, ResponseCode(e.env), x);
      TimeoutStepApart(m.work.history, BeforeTimeout(m, me, e.g, e.env), e.env, x);
      AbortStepApart(m.work.history, BeforeAbort(m, me, e.g, e.env), x);
    }
  }

  // A request that is still queued when the machine is cleared is called back with
  // ERR_REQUEST_ABORTED and with nothing else.
  lemma {:induction false} QueuedGetAborted(m: Machine, me: nat, es: seq<Event>, x: nat)
    requires Reached(m) && Drained(m) && Polls(es) && (m.abort ==> Apart(m.work, x))
    ensures CallsWith(m.work.history, Run(m, me, es).work, x, ERR_REQUEST_ABORTED)
    decreases |es|
  {
    if es != [] {
      var e := es[0];
      var m1 := Apply(m, me, e);
      RunOne(m, me, e);
      RunReached(m, me, [e]);
      if !m.abort {
        IdleStaysIdle(m, me, e.g, e.env);
      } else {
        PollApart(m, me, e, x);
        if m.state == Transmitting { AbortDrains(m, me, e.g, e.env); }
      }
      QueuedGetAborted(m1, me, es[1..], x);
      CallsChain(m.work.history, m1.work, Run(m1, me, es[1..]).work, x, ERR_REQUEST_ABORTED);
    }
  }

  lemma CallsChain(h: seq<Fact>, w: Work, w': Work, x: nat, code: int)
    requires CallsWith(h, w, x, code) && CallsWith(w.history, w', x, code)
    ensures CallsWith(h, w', x, code)
  {
    assert w'.history[..|h|] == w'.history[..|w.history|][..|h|];
    forall i | |h| <= i < |w'.history| && w'.history[i].Called? && w'.history[i].req.id == x
      ensures w'.history[i].code == code
    {
      if i < |w.history| { assert w'.history[i] == w'.history[..|w.history|][i]; }
    }
  }

  // ---------------------------------------------------------------- the promise as it is written

  // In every run of polls after a clear that ends with an empty machine, each request the
  // machine held has finished, by one callback, with ERR_REQUEST_ABORTED.
  ghost predicate AbortsAll(m: Machine, me: nat) {
    forall es, r ::
      Polls(es) && Holds(m.work, r) && IsEmpty(Run(Clear(m), me, es)) ==>
        AbortedIn(m, Run(Clear(m), me, es), r)
  }

  ghost predicate AbortedIn(m: Machine, m': Machine, r: Request) {
    FinishedIn(m', r) && CallsWith(m.work.history, m'.work, r.id, ERR_REQUEST_ABORTED)
  }

  // A response that belongs to the first request on the sent list, after the active one.
  function FirstOnWire(w: Work): Request
    requires w.active.Some? || w.sent != []
  {
    if w.active.Some? then w.active.value else w.sent[0]
  }

  function Answer(w: Work): Event
    requires w.active.Some? || w.sent != []
  {
    Poll(FREE, Env(0, 0, 0, 0, ERR_SUCCESS, ERR_SUCCESS, 200, FirstOnWire(w).messageId, true))
  }

  lemma AnswerPairs(m: Machine, me: nat)
    requires LinkSound(m) && m.abort && m.state == Transmitting && (m.work.active.Some? || m.work.sent != [])
    ensures var e := Answer(m.work);
            var (m1, paired, _, _) := Communicate(m, me, e.g, e.env);
            paired == Some(FirstOnWire(m.work)) && m1.abort && m1.work.history == m.work.history
  {
    var e := Answer(m.work);
    CommunicateTells(m, me, e.g, e.env);
    assert NewTransmit(m.work, m.cfg, m.abort, e.env) == m.work;
    assert StConnect(m.link, m.cfg, me, e.g, e.env).2 == Transmitting;
  }

  // A cleared machine still sends its active request, and passes on a response.
  lemma AnswerIsPassedOn(m: Machine, me: nat)
    requires LinkSound(m) && m.abort && m.state == Transmitting && (m.work.active.Some? || m.work.sent != [])
    ensures var h := Apply(m, me, Answer(m.work)).work.history;
            |h| > |m.work.history| && h[..|m.work.history|] == m.work.history
            && h[|m.work.history|] == Called(FirstOnWire(m.work), 200, true)
  {
    var e := Answer(m.work);
    AnswerPairs(m, me);
    var told := m.work.history + [Called(FirstOnWire(m.work), 200, true)];
    assert BeforeTimeout(m, me, e.g, e.env).work.history == told;
    VisitGrows(m, me, e.g, e.env);
    GrownOn(told, told, Apply(m, me, e).work.history);
    assert told[..|m.work.history|] == m.work.history;
  }

  ghost predicate Grown(h: seq<Fact>, h': seq<Fact>) { |h| <= |h'| && h'[..|h|] == h }

  lemma GrownOn(h: seq<Fact>, h1: seq<Fact>, h2: seq<Fact>)
    requires Grown(h, h1) && Grown(h1, h2)
    ensures Grown(h, h2) && forall i :: 0 <= i < |h| ==> h2[i] == h[i]
    ensures forall n :: 0 <= n <= |h| ==> h2[..n] == h[..n]
  {
    assert h2[..|h|] == h2[..|h1|][..|h|];
    forall i | 0 <= i < |h| ensures h2[i] == h[i] { assert h2[i] == h2[..|h|][i]; }
  }

  lemma GrowsByTimeout(t: Machine, env: Env)
    ensures Grown(t.work.history, TimeoutStep(t, env).0.work.history)
  {
  }

  lemma GrowsByAbort(a: Machine)
    ensures Grown(a.work.history, AbortStep(a).0.work.history)
  {
  }

  // After the response, the history only grows.
  lemma VisitGrows(m: Machine, me: nat, g: Shared, env: Env)
    ensures Grown(BeforeTimeout(m, me, g, env).work.history, StTransmit(m, me, g, env).0.work.history)
  {
    var t, a := BeforeTimeout(m, me, g, env), BeforeAbort(m, me, g, env);
    GrowsByTimeout(t, env);
    GrowsByAbort(a);
    assert StTransmit(m, me, g, env).0.work.history == AbortStep(a).0.work.history;
    GrownOn(t.work.history, a.work.history, AbortStep(a).0.work.history);
  }

  lemma PollGrows(m: Machine, me: nat, e: Event)
    requires e.Poll?
    ensures Grown(m.work.history, Apply(m, me, e).work.history)
  {
    if m.state == Transmitting {
      CommunicateTells(m, me, e.g, e.env);
      var t := BeforeTimeout(m, me, e.g, e.env);
      assert Grown(m.work.history, t.work.history);
      VisitGrows(m, me, e.g, e.env);
      GrownOn(m.work.history, t.work.history, Apply(m, me, e).work.history);
    }
  }

  lemma {:induction false} RunGrows(m: Machine, me: nat, es: seq<Event>)
    requires Polls(es)
    ensures Grown(m.work.history, Run(m, me, es).work.history)
    decreases |es|
  {
    if es != [] {
      var m1 := Apply(m, me, es[0]);
      PollGrows(m, me, es[0]);
      RunGrows(m1, me, es[1..]);
      GrownOn(m.work.history, m1.work.history, Run(m1, me, es[1..]).work.history);
    }
  }

  lemma WireBreaks(m: Machine, me: nat) returns (es: seq<Event>)
    requires Reached(m) && (m.work.active.Some? || m.work.sent != [])
    ensures Polls(es) && IsEmpty(Run(Clear(m), me, es))
    ensures !CallsWith(m.work.history, Run(Clear(m), me, es).work, FirstOnWire(m.work).id, ERR_REQUEST_ABORTED)
  {
    var c := Clear(m);
    var before := ReachTransmit(c, me);
    var m1 := Run(c, me, before);
    RunReached(c, me, before);
    var e := Answer(m1.work);
    AnswerIsPassedOn(m1, me);
    var after := FinishRun(c, me, before, e);
    es := before + [e] + after;
    var m2 := Apply(m1, me, e);
    RunGrows(m2, me, after);
    GrownOn(m2.work.history, m2.work.history, Run(m2, me, after).work.history);
  }

  // The promise of the header, with its error code, is kept in every run that empties the
  // machine if and only if no request was active or sent at the clear.
  lemma AbortsAllIff(m: Machine, me: nat)
    requires Reached(m)
    ensures m.work.active == None && m.work.sent == [] <==> AbortsAll(m, me)
  {
    if m.work.active == None && m.work.sent == [] {
      forall es, r | Polls(es) && Holds(m.work, r) && IsEmpty(Run(Clear(m), me, es))
        ensures AbortedIn(m, Run(Clear(m), me, es), r)
      {
        SafeCallsBack(m, me, es, r);
        QueuedGetAborted(Clear(m), me, es, r.id);
      }
    } else {
      var es := WireBreaks(m, me);
      assert Holds(m.work, FirstOnWire(m.work));
    }
  }

  // ---------------------------------------------------------------- the other codes

  // Every callback since h has one of the codes a poll can give.
  ghost predicate CodesOf(h: seq<Fact>, w: Work, env: Env) {
    && Grown(h, w.history)
    && forall i :: |h| <= i < |w.history| && w.history[i].Called? ==>
         w.history[i].code in {ResponseCode(env), ERR_TIMEOUT, ERR_REQUEST_ABORTED}
  }

  lemma CompleteIfCodes(h: seq<Fact>, m: Machine, r: Option<Request>, code: int, env: Env)
    requires CodesOf(h, m.work, env) && code in {ResponseCode(env), ERR_TIMEOUT, ERR_REQUEST_ABORTED}
    ensures CodesOf(h, CompleteIf(m, r, code).work, env)
  {
  }

  lemma TimeoutStepCodes(h: seq<Fact>, t: Machine, env: Env)
    requires CodesOf(h, t.work, env)
    ensures CodesOf(h, TimeoutStep(t, env).0.work, env)
  {
    var (w, late) := TakeTimedOut(t.work, t.cfg, env);
    CompleteIfCodes(h, t.(work := w, timeouts := t.timeouts + 1), late, ERR_TIMEOUT, env);
  }

  lemma AbortStepCodes(h: seq<Fact>, a: Machine, env: Env)
    requires CodesOf(h, a.work, env)
    ensures CodesOf(h, AbortStep(a).0.work, env)
  {
    var (w, r) := TakeAborted(a.work);
    CompleteIfCodes(h, a.(work := w), r, ERR_REQUEST_ABORTED, env);
  }

  // What a poll calls back gets the code of the response it received, ERR_TIMEOUT or
  // ERR_REQUEST_ABORTED; after a clear, the first two go only to requests that were active or
  // sent, as QueuedGetAborted says of the others.
  lemma PollCodes(m: Machine, me: nat, e: Event)
    requires e.Poll?
    ensures CodesOf(m.work.history, Apply(m, me, e).work, e.env)
  {
    var h := m.work.history;
    if m.state == Transmitting {
      CommunicateTells(m, me, e.g, e.env);
      var (m1, paired, _, _) := Communicate(m, me, e.g, e.env);
      CompleteIfCodes(h, m1, paired, ResponseCode(e.env), e.env);
      TimeoutStepCodes(h, BeforeTimeout(m, me, e.g, e.env), e.env);
      AbortStepCodes(h, BeforeAbort(m, me, e.g, e.env), e.env);
    }
  }

  // ---------------------------------------------------------------- it can be broken

  // Two requests are submitted, the first is taken while another machine is connecting.
  function ToUnsafe(me: nat, r1: Request, r2: Request): seq<Event> {
    [Poll(FREE, Env(RESET_DELAY, 0, 0, 0, 0, 0, 0, 0, false)),
     Submit(r1, true),
     Poll(Shared(Some(me + 1), 0, Resetting), Env(0, 0, 0, 0, 0, 0, 0, 0, false)),
     Submit(r2, true)]
  }

  // On every machine that sends at all, a run leads to a state that is not safe to clear.
  lemma UnsafeIsReachable(cfg: Config, me: nat, r1: Request, r2: Request)
    requires cfg.queueSize > 0 && cfg.limit >= 0 && r1.id != r2.id
    ensures AdmissibleRun(New(cfg), me, ToUnsafe(me, r1, r2))
    ensures !SafeToClear(Run(New(cfg), me, ToUnsafe(me, r1, r2)).work)
  {
    var es := ToUnsafe(me, r1, r2);
    var m0 := New(cfg);
    var m1 := Apply(m0, me, es[0]);
    assert m1.state == Transmitting && m1.work == m0.work && !m1.abort && m1.cfg == cfg && m1.transmitFailures == 0;
    var m2 := Apply(m1, me, es[1]);
    var m3 := Apply(m2, me, es[2]);
    TakenWhileBlocked(m2, me, es[2].g, es[2].env);
    var m4 := Apply(m3, me, es[3]);
    RunPasses([m0, m1, m2, m3, m4], me, es);
  }

  // So there are runs in which a clear leaves a request without its callback.
  lemma PromiseIsBroken(cfg: Config, me: nat, r1: Request, r2: Request)
    requires cfg.queueSize > 0 && cfg.limit >= 0 && r1.id != r2.id
    ensures !CallsAllBack(Run(New(cfg), me, ToUnsafe(me, r1, r2)), me)
  {
    UnsafeIsReachable(cfg, me, r1, r2);
    EveryRunReached(cfg, me, ToUnsafe(me, r1, r2));
    CallsAllBackIff(Run(New(cfg), me, ToUnsafe(me, r1, r2)), me);
  }

  lemma TakenWhileBlocked(m: Machine, me: nat, g: Shared, env: Env)
    requires m.state == Transmitting && !m.abort && !MayConnect(g, me) && m.cfg.limit >= 0
    requires |m.work.queue| == 1 && m.work.active == None && m.work.sent == [] && m.work.sentNum == 0
    ensures var m' := Apply(m, me, Poll(g, env));
            && m'.work == m.work.(queue := [], active := Some(m.work.queue[0].(start := env.now))) && m'.cfg == m.cfg
  {
    var (m1, paired, _, next) := Communicate(m, me, g, env);
    assert m1.work == m.work.(queue := [], active := Some(m.work.queue[0].(start := env.now))) && paired == None;
    assert Completions(m1, paired, env).0 == m1;
  }
}
