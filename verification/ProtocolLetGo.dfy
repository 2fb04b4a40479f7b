// Requests that are called back and then neither kept nor freed: asynchronous subscriptions
// that time out in the active slot while the last response was a good one.

module ProtocolLetGo {
  import opened Common
  import opened ProtocolModel
  import opened ProtocolSafety
  import opened ProtocolLoss
  import opened ConnectLock

  // How often request x has been let go.
  function LetGos(w: Work, x: nat): nat { RecordOf(w.history, x).letGo }

  lemma CompleteIfLetsGo(m: Machine, r: Option<Request>, code: int, x: nat)
    ensures LetGos(CompleteIf(m, r, code).work, x) ==
            LetGos(m.work, x)
            + if r.Some? && KeepsOpen(m, r.value) && r.value !in m.work.sent && r.value.id == x then 1 else 0
  {
    if r.Some? {
      var done := !KeepsOpen(m, r.value);
      TellRecord(m.work.history, Called(r.value, code, done), x);
      TellRecord(m.work.history + [Called(r.value, code, done)], LetGo(r.value.id), x);
    }
  }

  lemma OverwriteLetsNoneGo(w: Work, x: nat)
    ensures LetGos(Overwrite(w), x) == LetGos(w, x)
  {
    if w.active.Some? { TellRecord(w.history, Overwritten(w.active.value.id), x); }
  }

  // At check_timeout: the active request is late, no sent one is, and it is a subscription that
  // would be kept open after a good response, which the last one was.
  predicate LetsGo(t: Machine, env: Env) {
    && FirstTimedOut(t.work.sent, t.cfg, env) == None
    && t.work.active.Some? && TimedOut(t.work.active.value, t.cfg, env)
    && IsOpenSubscription(t.work.active.value, t.cfg) && t.status && !t.abort
  }

  lemma TimeoutStepLetsGo(t: Machine, env: Env, x: nat)
    requires Accounted(t.work, x, 0)
    ensures LetGos(TimeoutStep(t, env).0.work, x) ==
            LetGos(t.work, x) + if LetsGo(t, env) then CountActive(t.work.active, x) else 0
  {
    TimedOutIsSent(t.work.sent, t.cfg, env);
    OverwriteLetsNoneGo(t.work, x);
    var (w, late) := TakeTimedOut(t.work, t.cfg, env);
    CompleteIfLetsGo(t.(work := w, timeouts := t.timeouts + 1), late, ERR_TIMEOUT, x);
    if t.work.active.Some? && t.work.active.value in t.work.sent { CountMember(t.work.sent, t.work.active.value); }
  }

  lemma AbortStepLetsNoneGo(a: Machine, x: nat)
    ensures LetGos(AbortStep(a).0.work, x) == LetGos(a.work, x)
  {
    var (w, r) := TakeAborted(a.work);
    OverwriteLetsNoneGo(a.work, x);
    OverwriteLetsNoneGo(a.work.(queue := if a.work.queue == [] then [] else a.work.queue[1..]), x);
    CompleteIfLetsGo(a.(work := w), r, ERR_REQUEST_ABORTED, x);
  }

  // A step lets a request go in exactly one case: it is an open subscription that times out in
  // the active slot, with the last status good and no abort in progress.
  lemma StepLetsGo(m: Machine, me: nat, g: Shared, env: Env, x: nat)
    requires Accounted(m.work, x, 0)
    ensures var t := BeforeTimeout(m, me, g, env);
            LetGos(StTransmit(m, me, g, env).0.work, x) ==
            LetGos(m.work, x) + if LetsGo(t, env) then CountActive(t.work.active, x) else 0
  {
    var (m1, paired, _, _) := Communicate(m, me, g, env);
    CommunicateTells(m, me, g, env);
    CommunicateAccounts(m, me, g, env, x);
    PairedIsSent(m, me, g, env);
    CompleteIfLetsGo(m1, paired, ResponseCode(env), x);
    CompleteIfAccounts(m1, paired, ResponseCode(env), x);
    TimeoutStepLetsGo(BeforeTimeout(m, me, g, env), env, x);
    AbortStepLetsNoneGo(BeforeAbort(m, me, g, env), x);
  }

  lemma PairedIsSent(m: Machine, me: nat, g: Shared, env: Env)
    ensures var (m1, paired, _, _) := Communicate(m, me, g, env); paired.Some? ==> paired.value in m1.work.sent
  {
    var w := NewTransmit(m.work, m.cfg, m.abort, env);
    PairIsSent(SendRequest(w, m.cfg, env).0.sent, env.id);
  }

  lemma SynchStepLetsNoneGo(m: Machine, me: nat, g: Shared, env: Env, x: nat)
    requires m.cfg.synch && Accounted(m.work, x, 0)
    ensures LetGos(StTransmit(m, me, g, env).0.work, x) == LetGos(m.work, x)
  {
    SynchKeepsNone(m, me, g, env);
    StepLetsGo(m, me, g, env, x);
  }

  // An event at a synchronous machine lets no request go.
  lemma EventLetsNoneGo(m: Machine, me: nat, e: Event, x: nat)
    requires m.cfg.synch && Accounted(m.work, x, 0)
    ensures LetGos(Apply(m, me, e).work, x) == LetGos(m.work, x)
  {
    match e
    case Poll(g, env) => if m.state == Transmitting { SynchStepLetsNoneGo(m, me, g, env, x); }
    case Submit(r, memory) => TellRecord(m.work.history, Accepted(r), x);
    case Abort =>
  }

  lemma {:induction false} RunLetsNoneGo(m: Machine, me: nat, es: seq<Event>, x: nat)
    requires m.cfg.synch && Accounted(m.work, x, 0) && AdmissibleRun(m, me, es)
    ensures LetGos(Run(m, me, es).work, x) == LetGos(m.work, x)
    decreases |es|
  {
    if es != [] {
      ApplyAccounts(m, me, es[0], x);
      EventLetsNoneGo(m, me, es[0], x);
      CfgStays(m, me, es[0]);
      RunLetsNoneGo(Apply(m, me, es[0]), me, es[1..], x);
    }
  }

  lemma SynchKeepsNone(m: Machine, me: nat, g: Shared, env: Env)
    requires m.cfg.synch
    ensures !LetsGo(BeforeTimeout(m, me, g, env), env)
  {
    var (m1, paired, _, _) := Communicate(m, me, g, env);
    assert CompleteIf(m1, paired, ResponseCode(env)).cfg == m.cfg;
  }

  // A synchronous machine never lets a request go.
  lemma SynchLetsNoneGo(cfg: Config, me: nat, es: seq<Event>, x: nat)
    requires cfg.synch && AdmissibleRun(New(cfg), me, es)
    ensures LetGos(Run(New(cfg), me, es).work, x) == 0
  {
    RunLetsNoneGo(New(cfg), me, es, x);
  }

  // ---------------------------------------------------------------- it does happen

  const FREE := Shared(None, 0, Resetting)

  // Polls: the reset is over; connecting succeeds and a good response comes that belongs to no
  // request.
  function ToConnected(): seq<Event> {
    [Poll(FREE, Env(RESET_DELAY, 0, 0, 0, 0, 0, 0, 0, false)),
     Poll(FREE, Env(0, 0, 0, 0, 0, ERR_SUCCESS, 200, 0, true))]
  }

  // The subscription is taken but cannot be sent; it still cannot when its time is up.
  function Blocking(cfg: Config, r: Request): seq<Event> {
    [Submit(r, true),
     Poll(FREE, Env(0, 0, 0, 0, ERR_WOULD_BLOCK, ERR_WOULD_BLOCK, 0, 0, false)),
     Poll(FREE, Env(cfg.transmissionTimeout + 1, 0, 0, 0, ERR_WOULD_BLOCK, ERR_WOULD_BLOCK, 0, 0, false))]
  }

  // The states of a run, each of whose events is admissible.
  ghost predicate Passes(ms: seq<Machine>, me: nat, es: seq<Event>) {
    |ms| == |es| + 1 && forall k :: 0 <= k < |es| ==> PassesAt(ms, me, es, k)
  }

  ghost predicate PassesAt(ms: seq<Machine>, me: nat, es: seq<Event>, k: nat)
    requires k < |es| && k + 1 < |ms|
  {
    Admissible(ms[k], es[k]) && ms[k + 1] == Apply(ms[k], me, es[k])
  }

  lemma {:induction false} RunPasses(ms: seq<Machine>, me: nat, es: seq<Event>)
    requires Passes(ms, me, es)
    ensures AdmissibleRun(ms[0], me, es) && Run(ms[0], me, es) == ms[|es|]
    decreases |es|
  {
    if es != [] {
      assert PassesAt(ms, me, es, 0);
      forall k: nat | k < |es[1..]| ensures PassesAt(ms[1..], me, es[1..], k) { assert PassesAt(ms, me, es, k + 1); }
      RunPasses(ms[1..], me, es[1..]);
    }
  }

  // A machine that is connected, or can connect now, and has no requests but those of w.
  ghost predicate Ready(m: Machine, w: Work) {
    m.state == Transmitting && m.work == w && !m.abort && !m.abortDone && !m.alwaysDisconnect && m.timeouts == 0
    && m.transmitFailures == 0
  }

  // Ready, connected, and the last response was a good one.
  ghost predicate Connected(m: Machine, w: Work) { Ready(m, w) && m.status && m.link.connected && m.link.socket }

  lemma ConnectedFirst(cfg: Config, me: nat)
    ensures AdmissibleRun(New(cfg), me, ToConnected())
    ensures var m := Run(New(cfg), me, ToConnected()); Connected(m, New(cfg).work) && m.cfg == cfg
  {
    var es := ToConnected();
    var m1 := Apply(New(cfg), me, es[0]);
    GoodResponse(m1, me, es[1].env);
    RunPasses([New(cfg), m1, Apply(m1, me, es[1])], me, es);
  }

  lemma BlockedThen(m: Machine, me: nat, r: Request)
    requires Connected(m, Work([], None, [], 0, [])) && !m.cfg.synch && m.cfg.limit >= 0 && m.cfg.queueSize > 0
    requires m.cfg.transmissionTimeout + 1 < CLOCK && r.typ == SubscribeAsynch
    ensures AdmissibleRun(m, me, Blocking(m.cfg, r))
    ensures LetGos(Run(m, me, Blocking(m.cfg, r)).work, r.id) == 1
  {
    var es := Blocking(m.cfg, r);
    var m1 := Apply(m, me, es[0]);
    assert m1.work.queue == [r.(start := 0)];
    var m2 := Apply(m1, me, es[1]);
    TakenUnsent(m1, me, es[1].env, r);
    TimesOut(m2, me, es[2].env, r);
    RunPasses([m, m1, m2, Apply(m2, me, es[2])], me, es);
  }

  // On every asynchronous machine a subscription can be called back and then be neither kept
  // nor freed.
  lemma LetGoIsReachable(cfg: Config, me: nat, r: Request)
    requires !cfg.synch && cfg.limit >= 0 && cfg.queueSize > 0 && cfg.transmissionTimeout + 1 < CLOCK
    requires r.typ == SubscribeAsynch
    ensures AdmissibleRun(New(cfg), me, ToConnected() + Blocking(cfg, r))
    ensures LetGos(Run(New(cfg), me, ToConnected() + Blocking(cfg, r)).work, r.id) == 1
  {
    ConnectedFirst(cfg, me);
    BlockedThen(Run(New(cfg), me, ToConnected()), me, r);
    RunConcat(New(cfg), me, ToConnected(), Blocking(cfg, r));
  }

  lemma GoodResponse(m: Machine, me: nat, env: Env)
    requires Ready(m, Work([], None, [], 0, []))
    requires env.lookup == env.socket == env.connect == env.send == env.recv == ERR_SUCCESS && env.status
    ensures var m' := Apply(m, me, Poll(FREE, env)); Connected(m', m.work) && m'.cfg == m.cfg
  {
    var (m1, paired, _, next) := Communicate(m, me, FREE, env);
    assert m1.work == m.work && m1.status && paired == None && next == Transmitting;
    assert Completions(m1, paired, env).0 == m1;
  }

  lemma TakenUnsent(m: Machine, me: nat, env: Env, r: Request)
    requires Connected(m, Work([r.(start := 0)], None, [], 0, [Accepted(r)]))
    requires m.cfg.limit >= 0 && env.send == env.recv == ERR_WOULD_BLOCK
    ensures var m' := Apply(m, me, Poll(FREE, env));
            Connected(m', Work([], Some(r.(start := env.now)), [], 0, [Accepted(r)])) && m'.cfg == m.cfg
  {
    var (m1, paired, _, next) := Communicate(m, me, FREE, env);
    assert m1.work == Work([], Some(r.(start := env.now)), [], 0, [Accepted(r)]);
    assert paired == None && next == Transmitting;
    assert Completions(m1, paired, env).0 == m1;
  }

  lemma TimesOut(m: Machine, me: nat, env: Env, r: Request)
    requires Connected(m, Work([], Some(r.(start := 0)), [], 0, [Accepted(r)]))
    requires !m.cfg.synch && r.typ == SubscribeAsynch && env.send == env.recv == ERR_WOULD_BLOCK
    requires Elapsed(env.now, 0) > m.cfg.transmissionTimeout
    ensures LetGos(Apply(m, me, Poll(FREE, env)).work, r.id) == 1
  {
    var t := BeforeTimeout(m, me, FREE, env);
    assert t.work == m.work && t.status && !t.abort && t.cfg == m.cfg;
    assert RecordOf([], r.id).letGo == 0;
    TellRecord([], Accepted(r), r.id);
    assert [] + [Accepted(r)] == [Accepted(r)];
    SubmitAccounts(New(m.cfg), r, true, r.id);
    StepLetsGo(m, me, FREE, env, r.id);
  }
}
