// Over HTTP every request has the same message id, which is the one every response carries: a
// response reaches the request that is on the wire.

module ExositeResponses {
  import opened Common
  import opened ExositeModel
  import opened ExositeMachines
  import opened ExositeActivation
  import opened ExositeQueue
  import opened ExositeSafety
  import opened ExositeReactivation
  import opened ProtocolAnswers
  import opened ProtocolFailures
  import P = ProtocolModel
  import Jobs = MachineJobs
  import Loss = ProtocolLoss
  import Safe = ProtocolSafety
  import Requests = ExositeRequests
  import Lock = ConnectLock

  // ---------------------------------------------------------------- one machine

  ghost predicate ListHas(rs: seq<P.Request>, id: int) { forall i :: 0 <= i < |rs| ==> rs[i].messageId == id }

  // Every request the machine holds has that message id.
  ghost predicate AllHave(w: P.Work, id: int) {
    ListHas(w.queue, id) && ListHas(w.sent, id) && (w.active.Some? ==> w.active.value.messageId == id)
  }

  lemma {:induction false} WithoutHas(rs: seq<P.Request>, x: nat, id: int)
    requires ListHas(rs, id)
    ensures ListHas(P.Without(rs, x), id)
  {
    if rs != [] && rs[0].id != x {
      assert forall i :: 0 <= i < |rs[1..]| ==> rs[1..][i] == rs[i + 1];
      WithoutHas(rs[1..], x, id);
    }
  }

  lemma CompleteIfHas(m: P.Machine, r: Option<P.Request>, code: int, id: int)
    requires AllHave(m.work, id)
    ensures AllHave(P.CompleteIf(m, r, code).work, id)
  {
    if r.Some? { WithoutHas(m.work.sent, r.value.id, id); }
  }

  lemma CommunicateHas(m: P.Machine, me: nat, g: P.Shared, env: P.Env, id: int)
    requires AllHave(m.work, id)
    ensures AllHave(P.Communicate(m, me, g, env).0.work, id)
  {
    var w := P.NewTransmit(m.work, m.cfg, m.abort, env);
    assert AllHave(w, id);
    var w' := P.SendRequest(w, m.cfg, env).0;
    assert AllHave(w', id);
    var m1 := m.(work := w, link := P.StConnect(m.link, m.cfg, me, g, env).0);
    assert P.Exchange(m1, env).0.work == w';
  }

  lemma TimeoutStepHas(m: P.Machine, env: P.Env, id: int)
    requires AllHave(m.work, id)
    ensures AllHave(P.TimeoutStep(m, env).0.work, id)
  {
    var (w, late) := P.TakeTimedOut(m.work, m.cfg, env);
    CompleteIfHas(m.(work := w, timeouts := m.timeouts + 1), late, ERR_TIMEOUT, id);
  }

  lemma AbortStepHas(m: P.Machine, id: int)
    requires AllHave(m.work, id)
    ensures AllHave(P.AbortStep(m).0.work, id)
  {
    var (w, r) := P.TakeAborted(m.work);
    assert AllHave(w, id);
    CompleteIfHas(m.(work := w), r, ERR_REQUEST_ABORTED, id);
  }

  lemma TaskHas(m: P.Machine, me: nat, g: P.Shared, env: P.Env, id: int)
    requires AllHave(m.work, id)
    ensures AllHave(P.Task(m, me, g, env).0.work, id)
  {
    if m.state == P.Transmitting {
      CommunicateHas(m, me, g, env, id);
      var (m1, paired, _, _) := P.Communicate(m, me, g, env);
      CompleteIfHas(m1, paired, P.ResponseCode(env), id);
      TimeoutStepHas(Loss.BeforeTimeout(m, me, g, env), env, id);
      var a := Loss.BeforeAbort(m, me, g, env);
      AbortStepHas(a, id);
      assert P.Task(m, me, g, env).0.work == P.AbortStep(a).0.work;
    }
  }

  // ---------------------------------------------------------------- all machines

  ghost predicate OneId(sms: seq<Entry>) { forall i :: 0 <= i < |sms| ==> AllHave(sms[i].m.work, 1) }

  lemma PushKeepsId(x: Exo, args: P.Args, p: PushEnv)
    requires ConfSound(x.conf) && x.conf.http && OneId(x.sms)
    ensures OneId(Push(x, args, p).0.sms)
  {
    var base, i, r := PushShape(x, args, p);
    assert OneId(base);
    if Push(x, args, p).1 == ERR_SUCCESS { PutKeepsId(base, i, r); }
  }

  lemma PutKeepsId(sms: seq<Entry>, i: nat, r: P.Request)
    requires OneId(sms) && i < |sms| && r.messageId == 1
    ensures OneId(Put(sms, i, r))
  {
    assert AllHave(sms[i].m.work, 1);
  }

  lemma PushSubKeepsId(x: Exo, k: nat, p: PushEnv)
    requires ConfSound(x.conf) && x.conf.http && OneId(x.sms) && k < |x.subs|
    ensures OneId(PushSub(x, k, p).sms) && PushSub(x, k, p).conf == x.conf
  {
    PushFrame(x, P.Args(DpSubscribe, x.subs[k].key, 0), p);
    PushKeepsId(x, P.Args(DpSubscribe, x.subs[k].key, 0), p);
  }

  lemma {:induction false} PushSubsKeepsId(x: Exo, k: nat, ps: seq<PushEnv>)
    requires ConfSound(x.conf) && x.conf.http && OneId(x.sms)
    ensures OneId(PushSubs(x, k, ps).sms)
    decreases |x.subs| - k
  {
    if k < |x.subs| {
      PushSubKeepsId(x, k, AnswerTo(ps, k));
      PushSubsKeepsId(PushSub(x, k, AnswerTo(ps, k)), k + 1, ps);
    }
  }

  lemma ActivateStepKeepsId(x: Exo, a: ActEnv)
    requires ConfSound(x.conf) && x.conf.http && OneId(x.sms)
    ensures OneId(ActivateStep(x, a).sms)
  {
    var x1 := x.(phase := x.nextPhase);
    match x.nextPhase
    case SendGetTimestamp => PushKeepsId(x1, TimestampJob().args, a.push);
    case SendActivate => PushKeepsId(x1, ActivateJob().args, a.push);
    case PrepareActivate => ClearAllIs(x.sms);
    case Activated =>
      if !x.event {
        PushSubsKeepsId(x1, 0, a.subPush);
        PushSubsKeepsQueue(x1, 0, a.subPush);
        var x2 := PushSubs(x1, 0, a.subPush);
        if x2.requests != [] { PushKeepsId(x2, x2.requests[0], a.push); }
      }
    case _ =>
  }

  lemma MoveKeepsId(x: Exo, move: Move)
    requires ConfSound(x.conf) && x.conf.http && OneId(x.sms) && Possible(x, move)
    ensures OneId(Apply(x, move).sms)
  {
    match move
    case Poll(a) => ActivateStepKeepsId(x, a);
    case Step(i, env, replies) =>
      TaskHas(x.sms[i].m, i, x.g, env, 1);
      assert OneId(Stepped(x, i, env));
      DeliverKeepsMachines(BeforeCallbacks(x, i, env), Facts(x, i, env), replies);
    case UserRequest(write, alias, memory) =>
    case UserSubscribe(alias, memory) =>
  }

  lemma NextHasId(xs: seq<Exo>, moves: seq<Move>, conf: Settings, k: nat)
    requires Execution(xs, moves, conf) && conf.http && 0 < k < |xs| && OneId(xs[k - 1].sms)
    ensures OneId(xs[k].sms)
  {
    ExecutionConf(xs, moves, conf, k - 1);
    assert Advances(xs, moves, k - 1);
    MoveKeepsId(xs[k - 1], moves[k - 1]);
  }

  // In every run over HTTP, every request that is queued, active or sent has message id 1.
  lemma {:induction false} ExecutionHasOneId(xs: seq<Exo>, moves: seq<Move>, conf: Settings, k: nat)
    requires Execution(xs, moves, conf) && conf.http && k < |xs|
    ensures OneId(xs[k].sms)
  {
    if k > 0 {
      ExecutionHasOneId(xs, moves, conf, k - 1);
      NextHasId(xs, moves, conf, k);
    }
  }

  // ---------------------------------------------------------------- a response arrives

  lemma WireHas(m: P.Machine, env: P.Env, id: int)
    requires AllHave(m.work, id)
    ensures ListHas(Wire(m, env), id)
  {
  }

  lemma FirstOfOneId(rs: seq<P.Request>, id: int)
    requires rs != [] && ListHas(rs, id)
    ensures FirstWith(rs, id, rs[0])
  {
  }

  lemma NewFactsAre(before: seq<P.Fact>, after: seq<P.Fact>)
    requires |before| < |after|
    ensures NewFacts(before, after) != [] && NewFacts(before, after)[0] == after[|before|]
  {
  }

  // In every run over HTTP: a response that a connected machine receives calls back the request
  // on its wire that was sent last, with the code of the response, and finishes it.
  lemma ResponseFinishes(xs: seq<Exo>, moves: seq<Move>, conf: Settings, k: nat, i: nat, env: P.Env)
    requires Execution(xs, moves, conf) && conf.http && k < |xs| && i < |xs[k].sms|
    requires Talks(xs[k].sms[i].m, i, xs[k].g, env) && env.recv == ERR_SUCCESS && env.id == 1
    requires Wire(xs[k].sms[i].m, env) != []
    ensures var facts := Facts(xs[k], i, env);
            && facts != [] && facts[0] == P.Called(Wire(xs[k].sms[i].m, env)[0], env.code, true)
  {
    var m, g := xs[k].sms[i].m, xs[k].g;
    ExecutionHasOneId(xs, moves, conf, k);
    MachineIs(xs, moves, conf, k, i);
    assert AllHave(m.work, 1);
    WireHas(m, env, 1);
    FirstOfOneId(Wire(m, env), 1);
    ResponseIsPassedOn(m, i, g, env, Wire(m, env)[0]);
    NewFactsAre(m.work.history, P.Task(m, i, g, env).0.work.history);
  }

  lemma MachineIs(xs: seq<Exo>, moves: seq<Move>, conf: Settings, k: nat, i: nat)
    requires Execution(xs, moves, conf) && conf.http && k < |xs| && i < |xs[k].sms|
    ensures Lock.LinkSound(xs[k].sms[i].m) && xs[k].sms[i].m.cfg.synch
  {
    ExecutionSound(xs, moves, conf, k);
    Requests.ExecutionAccounts(xs, moves, conf, k);
    assert EntrySound(conf, xs[k].sms[i]);
    assert Requests.MachineSound(xs[k].sms[i].m, i, xs[k].g, xs[k].nextId);
  }

  // And if the code says that the CIK is not valid, an activated device is asked to activate
  // again.
  lemma RefusalIsNoted(xs: seq<Exo>, moves: seq<Move>, conf: Settings, k: nat)
    requires Execution(xs, moves, conf) && conf.http && k < |moves| && moves[k].Step? && moves[k].i < |xs[k].sms|
    requires var m, env := xs[k].sms[moves[k].i].m, moves[k].env;
             && Talks(m, moves[k].i, xs[k].g, env) && env.recv == ERR_SUCCESS && env.id == 1 && env.code == 401
             && Wire(m, env) != []
    requires xs[k].nextPhase == Activated
    ensures RefusedAt(xs, moves, k) && xs[k + 1].event
  {
    ResponseFinishes(xs, moves, conf, k, moves[k].i, moves[k].env);
    assert Facts(xs[k], moves[k].i, moves[k].env)[0].Called?;
    RunActivatedMove(xs, moves, conf, k);
  }
}
