// What the state of the activation machine says about the machines below it: nothing is under
// way outside its waiting states but the timestamp or the activate request it waits for, and
// an activated device has a well-formed CIK.

module ExositeActivation {
  import opened Common
  import opened ExositeModel
  import opened ExositeMachines
  import opened MachineJobs
  import P = ProtocolModel
  import Flow = ProtocolFlow

  // The jobs of an activated device: neither activate nor timestamp requests.
  function Traffic(): Job -> bool { (j: Job) => j.args.procedure != PpActivate && j.args.procedure != UpTimestamp }

  function ActivateJob(): Job { Job(P.Normal, P.Args(PpActivate, "", 0)) }

  function TimestampJob(): Job { Job(P.Normal, P.Args(UpTimestamp, "", 0)) }

  // No request of any sort is queued, active or sent.
  ghost predicate AllIdle(sms: seq<Entry>) { forall i :: 0 <= i < |sms| ==> Holds(sms[i].m.work, None) }

  ghost predicate AllTraffic(sms: seq<Entry>) { forall i :: 0 <= i < |sms| ==> AllJobs(sms[i].m.work, Traffic()) }

  ghost predicate AllDrained(sms: seq<Entry>) { forall i :: 0 <= i < |sms| ==> Flow.Drained(sms[i].m) }

  // Machine n holds the job, and nothing else is under way anywhere.
  ghost predicate OnlyAt(sms: seq<Entry>, n: nat, job: Job) {
    n < |sms| && forall i :: 0 <= i < |sms| ==> Holds(sms[i].m.work, if i == n then Some(job) else None)
  }

  // The job is in the first machine of its kind.
  ghost predicate OnlyIn(sms: seq<Entry>, kind: Kind, job: Job) {
    FindSm(sms, kind, None).Some? && OnlyAt(sms, FindSm(sms, kind, None).value, job)
  }

  ghost predicate PhaseSound(sms: seq<Entry>, next: Phase) {
    match next
    case SendGetTimestamp => AllIdle(sms)
    case WaitTimestamp => OnlyIn(sms, TimeSync, TimestampJob())
    case Init => AllIdle(sms)
    case Start => AllIdle(sms)
    case PrepareActivate => AllTraffic(sms)
    case SendActivate => AllTraffic(sms) && AllDrained(sms)
    case WaitActivate => OnlyIn(sms, Main, ActivateJob())
    case Activated => AllTraffic(sms)
  }

  // An activated device has a CIK of forty alphanumerics, and stops being activated only to
  // prepare another activation.
  ghost predicate CikSound(x: Exo) {
    && (x.phase == Activated ==> x.nextPhase == Activated || x.nextPhase == PrepareActivate)
    && (x.phase == Activated || x.nextPhase == Activated ==> CikValid(x.cik))
  }

  ghost predicate ActivationSound(x: Exo) { PhaseSound(x.sms, x.nextPhase) && CikSound(x) }

  lemma IdleIsTraffic(sms: seq<Entry>)
    requires AllIdle(sms)
    ensures AllTraffic(sms)
  {
    forall i | 0 <= i < |sms| ensures AllJobs(sms[i].m.work, Traffic()) {
      assert Holds(sms[i].m.work, None);
    }
  }

  // ---------------------------------------------------------------- pushes

  lemma GrownIdle(conf: Settings, sms: seq<Entry>, sms': seq<Entry>, kind: Kind, name: Option<string>)
    requires AllIdle(sms) && Grown(conf, sms, sms', kind, name)
    ensures AllIdle(sms')
  {
    assert Holds(NewEntry(conf, kind, name).m.work, None);
  }

  // A push while nothing is under way: if it succeeds, only this request is under way then.
  lemma PushWhenIdle(x: Exo, args: P.Args, p: PushEnv)
    requires ConfSound(x.conf) && AllIdle(x.sms) && NameFor(x.conf, args) == None
    ensures var (x', error) := Push(x, args, p);
            if error == ERR_SUCCESS
            then OnlyIn(x'.sms, KindFor(x.conf, args.procedure), Job(TypeFor(x.conf, args.procedure), args))
            else AllIdle(x'.sms)
  {
    var kind := KindFor(x.conf, args.procedure);
    var base, i, r := PushShape(x, args, p);
    GrownIdle(x.conf, x.sms, base, kind, None);
    if Push(x, args, p).1 == ERR_SUCCESS {
      PutHolds(base, i, r);
      FindSame(base, Put(base, i, r), kind, None);
    }
  }

  lemma PutTraffic(sms: seq<Entry>, i: nat, r: P.Request)
    requires i < |sms| && AllTraffic(sms) && Traffic()(JobOf(r))
    ensures AllTraffic(Put(sms, i, r))
  {
    assert JobOf(r.(start := 0)) == JobOf(r);
  }

  lemma PushTraffic(x: Exo, args: P.Args, p: PushEnv)
    requires ConfSound(x.conf) && AllTraffic(x.sms) && args.procedure != PpActivate && args.procedure != UpTimestamp
    ensures AllTraffic(Push(x, args, p).0.sms)
  {
    var base, i, r := PushShape(x, args, p);
    assert AllTraffic(base);
    if Push(x, args, p).1 == ERR_SUCCESS { PutTraffic(base, i, r); }
  }

  lemma {:induction false} PushSubsTraffic(x: Exo, k: nat, ps: seq<PushEnv>)
    requires ConfSound(x.conf) && AllTraffic(x.sms)
    ensures var x' := PushSubs(x, k, ps);
            && AllTraffic(x'.sms) && x'.conf == x.conf && x'.nextPhase == x.nextPhase && x'.phase == x.phase
            && x'.cik == x.cik && x'.requests == x.requests && x'.event == x.event
    decreases |x.subs| - k
  {
    if k < |x.subs| {
      var args := P.Args(DpSubscribe, x.subs[k].key, 0);
      PushFrame(x, args, AnswerTo(ps, k));
      PushTraffic(x, args, AnswerTo(ps, k));
      PushSubsTraffic(PushSub(x, k, AnswerTo(ps, k)), k + 1, ps);
    }
  }

  // ---------------------------------------------------------------- one step of activate_sm

  lemma DrainedIsIdle(sms: seq<Entry>)
    requires AllDrained(sms) && AllEmpty(sms)
    ensures AllIdle(sms)
  {
    forall i | 0 <= i < |sms| ensures Holds(sms[i].m.work, None) {
      assert sms[i] in sms;
      assert Flow.Drained(sms[i].m) && !sms[i].m.abort;
    }
  }

  // The steps that hand down the timestamp or the activate request.
  lemma SendStepSound(x: Exo, a: ActEnv)
    requires ConfSound(x.conf) && ActivationSound(x) && (x.nextPhase == SendGetTimestamp || x.nextPhase == SendActivate)
    ensures ActivationSound(ActivateStep(x, a))
  {
    var x1 := x.(phase := x.nextPhase);
    var args := if x.nextPhase == SendActivate then ActivateJob().args else TimestampJob().args;
    PushFrame(x1, args, a.push);
    if x.nextPhase == SendGetTimestamp {
      PushWhenIdle(x1, args, a.push);
    } else if AllEmpty(x.sms) {
      DrainedIsIdle(x.sms);
      PushWhenIdle(x1, args, a.push);
      ActivateFails(x1, a);
    }
  }

  // The steps of an activated device.
  lemma ActivatedStepSound(x: Exo, a: ActEnv)
    requires ConfSound(x.conf) && ActivationSound(x) && UserRequests(x.requests) && x.nextPhase == Activated
    ensures ActivationSound(ActivateStep(x, a))
  {
    if !x.event {
      var x1 := x.(phase := Activated);
      PushSubsTraffic(x1, 0, a.subPush);
      var x2 := PushSubs(x1, 0, a.subPush);
      if x2.requests != [] {
        PushFrame(x2, x2.requests[0], a.push);
        PushTraffic(x2, x2.requests[0], a.push);
      }
    }
  }

  lemma PrepareStepSound(x: Exo, a: ActEnv)
    requires ActivationSound(x) && x.nextPhase == PrepareActivate
    ensures ActivationSound(ActivateStep(x, a))
  {
    ClearAllIs(x.sms);
    assert AllTraffic(ClearAll(x.sms)) && AllDrained(ClearAll(x.sms));
  }

  lemma CikStepSound(x: Exo, a: ActEnv)
    requires ActivationSound(x) && (x.nextPhase == Init || x.nextPhase == Start)
    ensures ActivationSound(ActivateStep(x, a))
  {
    IdleIsTraffic(x.sms);
  }

  lemma ActivateStepSound(x: Exo, a: ActEnv)
    requires ConfSound(x.conf) && ActivationSound(x) && UserRequests(x.requests)
    ensures ActivationSound(ActivateStep(x, a))
  {
    match x.nextPhase
    case SendGetTimestamp => SendStepSound(x, a);
    case SendActivate => SendStepSound(x, a);
    case Activated => ActivatedStepSound(x, a);
    case Init => CikStepSound(x, a);
    case Start => CikStepSound(x, a);
    case PrepareActivate => PrepareStepSound(x, a);
    case _ =>
  }

  // An activate request that could not be handed down leaves every machine empty.
  lemma ActivateFails(x: Exo, a: ActEnv)
    requires ConfSound(x.conf) && AllIdle(x.sms) && AllDrained(x.sms)
    ensures var (x', error) := Push(x, ActivateJob().args, a.push);
            error != ERR_SUCCESS ==> AllTraffic(x'.sms) && AllDrained(x'.sms)
  {
    var base, i, r := PushShape(x, ActivateJob().args, a.push);
    GrownIdle(x.conf, x.sms, base, Main, None);
    IdleIsTraffic(base);
  }

  // ---------------------------------------------------------------- one step of a machine

  // Callbacks of traffic leave the activation machine alone, except that they may ask for a
  // re-activation.
  lemma {:induction false} DeliverTraffic(x: Exo, facts: seq<P.Fact>, replies: seq<Reply>)
    requires Calls(facts, Traffic())
    ensures var x' := Deliver(x, facts, replies); x' == x.(event := x'.event, subs := x'.subs)
    decreases |facts|
  {
    if facts != [] {
      var reply := if replies == [] then Reply(false, [], false) else replies[0];
      var rest := if replies == [] then [] else replies[1..];
      assert forall k :: 0 <= k < |facts[1..]| ==> facts[1..][k] == facts[k + 1];
      if facts[0].Called? {
        DeliverTraffic(Callback(x, facts[0].req.args, facts[0].code, reply), facts[1..], rest);
      } else {
        DeliverTraffic(x, facts[1..], replies);
      }
    }
  }

  lemma StepTraffic(x: Exo, i: nat, env: P.Env, replies: seq<Reply>)
    requires i < |x.sms| && AllTraffic(x.sms)
    ensures var x' := MachineStep(x, i, env, replies);
            && AllTraffic(x'.sms) && x'.sms == Stepped(x, i, env)
            && x'.phase == x.phase && x'.nextPhase == x.nextPhase && x'.cik == x.cik
  {
    StepCalls(x, i, env, Traffic());
    var (m', g') := P.Task(x.sms[i].m, i, x.g, env);
    DeliverTraffic(x.(sms := Stepped(x, i, env), g := g'), Facts(x, i, env), replies);
  }

  lemma StepDrains(x: Exo, i: nat, env: P.Env)
    requires i < |x.sms| && MachinesSound(x.conf, x.sms) && AllDrained(x.sms)
    ensures AllDrained(Stepped(x, i, env))
  {
    TaskDrained(x.sms[i].m, i, x.g, env);
  }

  // A step while nothing is under way.
  lemma StepIdle(x: Exo, i: nat, env: P.Env, replies: seq<Reply>)
    requires i < |x.sms| && AllIdle(x.sms)
    ensures MachineStep(x, i, env, replies) == BeforeCallbacks(x, i, env) && AllIdle(Stepped(x, i, env))
  {
    StepSolo(x, i, env, None);
    assert MachineStep(x, i, env, replies) == Deliver(BeforeCallbacks(x, i, env), Facts(x, i, env), replies);
  }

  // A step while only one request is under way: it may call that request back.
  lemma StepOnly(x: Exo, i: nat, env: P.Env, replies: seq<Reply>, n: nat, job: Job)
    returns (answered: bool, code: int, reply: Reply)
    requires i < |x.sms| && job.typ == P.Normal && OnlyAt(x.sms, n, job)
    ensures var x' := MachineStep(x, i, env, replies);
            if answered then
              AllIdle(Stepped(x, i, env)) && x' == Callback(BeforeCallbacks(x, i, env), job.args, code, reply)
            else
              OnlyAt(Stepped(x, i, env), n, job) && x' == BeforeCallbacks(x, i, env)
  {
    StepSolo(x, i, env, if i == n then Some(job) else None);
    var x0, facts := BeforeCallbacks(x, i, env), Facts(x, i, env);
    assert MachineStep(x, i, env, replies) == Deliver(x0, facts, replies);
    answered, code := facts != [], if facts != [] then facts[0].code else 0;
    reply := if replies == [] then Reply(false, [], false) else replies[0];
    if answered {
      assert facts[1..] == [];
      assert Deliver(x0, facts, replies) == Callback(x0, job.args, code, reply);
    }
  }

  // The callback of the request that was waited for.
  lemma AnswerSound(x: Exo, job: Job, code: int, reply: Reply)
    requires AllIdle(x.sms) && (job == ActivateJob() || job == TimestampJob()) && x.phase != Activated
    ensures ActivationSound(Callback(x, job.args, code, reply))
  {
    IdleIsTraffic(x.sms);
  }

  // Steps while the timestamp or the activate request is under way.
  lemma WaitingStepSound(x: Exo, i: nat, env: P.Env, replies: seq<Reply>, kind: Kind, job: Job)
    requires ActivationSound(x) && i < |x.sms|
    requires (x.nextPhase, kind, job) == (WaitTimestamp, TimeSync, TimestampJob()) ||
             (x.nextPhase, kind, job) == (WaitActivate, Main, ActivateJob())
    ensures ActivationSound(MachineStep(x, i, env, replies))
  {
    var answered, code, reply := StepOnly(x, i, env, replies, FindSm(x.sms, kind, None).value, job);
    if answered {
      AnswerSound(BeforeCallbacks(x, i, env), job, code, reply);
    } else {
      FindSame(x.sms, Stepped(x, i, env), kind, None);
    }
  }

  lemma MachineStepSound(x: Exo, i: nat, env: P.Env, replies: seq<Reply>)
    requires MachinesSound(x.conf, x.sms) && ActivationSound(x) && i < |x.sms|
    ensures ActivationSound(MachineStep(x, i, env, replies))
  {
    match x.nextPhase
    case WaitTimestamp => WaitingStepSound(x, i, env, replies, TimeSync, TimestampJob());
    case WaitActivate => WaitingStepSound(x, i, env, replies, Main, ActivateJob());
    case SendActivate => StepTraffic(x, i, env, replies); StepDrains(x, i, env);
    case PrepareActivate => StepTraffic(x, i, env, replies);
    case Activated => StepTraffic(x, i, env, replies);
    case _ => StepIdle(x, i, env, replies);
  }
}
