// What the activation machine gets done: it leaves each of its states exactly when the condition
// for that holds, and hands requests and subscriptions down to the machines.

module ExositeProgress {
  import opened Common
  import opened HttpPayload
  import opened ExositeModel
  import opened DictionaryModel
  import opened ExositeMachines
  import opened ExositeActivation
  import opened ExositeSubscriptions
  import opened ExositeQueue
  import opened ExositeSafety
  import opened MachineJobs
  import P = ProtocolModel
  import Loss = ProtocolLoss
  import Lock = ConnectLock

  // ---------------------------------------------------------------- when a push succeeds

  // The machine a request goes to: its own long-poll machine for a subscription over HTTP, the
  // one for the time for a timestamp, and the main one for everything else
  function Place(conf: Settings, args: P.Args): (Kind, Option<string>) {
    match args.procedure
    case DpSubscribe => if conf.http then (LongPoll, Some(args.alias)) else (Main, None)
    case UpTimestamp => (TimeSync, None)
    case _ => (Main, None)
  }

  // There is room for it there, or for that machine.
  ghost predicate HasRoom(x: Exo, args: P.Args, p: PushEnv) {
    match FindSm(x.sms, Place(x.conf, args).0, Place(x.conf, args).1)
    case Some(i) => |x.sms[i].m.work.queue| < x.sms[i].m.cfg.queueSize
    case None => p.create == ERR_SUCCESS && (x.conf.machineLimit == 0 || |x.sms| != x.conf.machineLimit)
  }

  ghost predicate QueuesBounded(sms: seq<Entry>) {
    forall i :: 0 <= i < |sms| ==> |sms[i].m.work.queue| <= sms[i].m.cfg.queueSize
  }

  // A push succeeds exactly if there is room for the request, it can be built and there is
  // memory for it. The machine of its place then holds it last in its queue.
  lemma PushSucceedsIff(x: Exo, args: P.Args, p: PushEnv)
    requires ConfSound(x.conf) && QueuesBounded(x.sms)
    ensures Push(x, args, p).1 == ERR_SUCCESS <==> HasRoom(x, args, p) && p.build == ERR_SUCCESS && p.memory
  {
  }

  lemma PushPlaces(x: Exo, args: P.Args, p: PushEnv) returns (i: nat)
    requires ConfSound(x.conf) && Push(x, args, p).1 == ERR_SUCCESS
    ensures var sms := Push(x, args, p).0.sms;
            && i < |sms| && FindSm(sms, Place(x.conf, args).0, Place(x.conf, args).1) == Some(i)
            && var queue := sms[i].m.work.queue;
               queue != [] && queue[|queue| - 1].args == args
               && queue[|queue| - 1].typ == (if args.procedure != DpSubscribe then P.Normal
                                             else if x.conf.http then P.Subscribe
                                             else P.SubscribeAsynch)
  {
    var base, n, r := PushShape(x, args, p);
    i := n;
    FindSame(base, Put(base, i, r), Place(x.conf, args).0, Place(x.conf, args).1);
  }

  // ---------------------------------------------------------------- queues and machines are bounded

  ghost predicate Bounded(x: Exo) {
    QueuesBounded(x.sms) && (x.conf.machineLimit == 0 || |x.sms| <= x.conf.machineLimit)
  }

  lemma PushBounded(x: Exo, args: P.Args, p: PushEnv)
    requires Bounded(x)
    ensures Bounded(Push(x, args, p).0) && Push(x, args, p).0.conf == x.conf
  {
  }

  lemma {:induction false} PushSubsBounded(x: Exo, k: nat, ps: seq<PushEnv>)
    requires Bounded(x)
    ensures Bounded(PushSubs(x, k, ps)) && PushSubs(x, k, ps).conf == x.conf
    decreases |x.subs| - k
  {
    if k < |x.subs| {
      PushBounded(x, P.Args(DpSubscribe, x.subs[k].key, 0), AnswerTo(ps, k));
      PushSubsBounded(PushSub(x, k, AnswerTo(ps, k)), k + 1, ps);
    }
  }

  lemma ActivateStepBounded(x: Exo, a: ActEnv)
    requires Bounded(x)
    ensures Bounded(ActivateStep(x, a))
  {
    var x1 := x.(phase := x.nextPhase);
    match x.nextPhase
    case SendGetTimestamp => PushBounded(x1, TimestampJob().args, a.push);
    case SendActivate => PushBounded(x1, ActivateJob().args, a.push);
    case PrepareActivate => ClearAllIs(x.sms);
    case Activated =>
      if !x.event {
        PushSubsBounded(x1, 0, a.subPush);
        var x2 := PushSubs(x1, 0, a.subPush);
        if x2.requests != [] { PushBounded(x2, x2.requests[0], a.push); }
      }
    case _ =>
  }

  lemma CommunicateQueue(m: P.Machine, me: nat, g: P.Shared, env: P.Env)
    ensures |P.Communicate(m, me, g, env).0.work.queue| <= |m.work.queue|
  {
    assert |P.NewTransmit(m.work, m.cfg, m.abort, env).queue| <= |m.work.queue|;
  }

  lemma TimeoutQueue(m: P.Machine, env: P.Env)
    ensures P.TimeoutStep(m, env).0.work.queue == m.work.queue
  {
  }

  lemma AbortQueue(m: P.Machine)
    ensures |P.AbortStep(m).0.work.queue| <= |m.work.queue|
  {
  }

  lemma TaskQueue(m: P.Machine, me: nat, g: P.Shared, env: P.Env)
    ensures |P.Task(m, me, g, env).0.work.queue| <= |m.work.queue| && P.Task(m, me, g, env).0.cfg == m.cfg
  {
    Lock.CfgStays(m, me, P.Poll(g, env));
    if m.state == P.Transmitting {
      CommunicateQueue(m, me, g, env);
      TimeoutQueue(Loss.BeforeTimeout(m, me, g, env), env);
      AbortQueue(Loss.BeforeAbort(m, me, g, env));
    }
  }

  lemma MoveBounded(x: Exo, move: Move)
    requires Bounded(x) && Possible(x, move)
    ensures Bounded(Apply(x, move))
  {
    match move
    case Poll(a) => ActivateStepBounded(x, a);
    case Step(i, env, replies) =>
      TaskQueue(x.sms[i].m, i, x.g, env);
      DeliverKeepsMachines(BeforeCallbacks(x, i, env), Facts(x, i, env), replies);
      DeliverKeepsQueue(BeforeCallbacks(x, i, env), Facts(x, i, env), replies);
    case UserRequest(write, alias, memory) =>
    case UserSubscribe(alias, memory) =>
  }

  lemma NextBounded(xs: seq<Exo>, moves: seq<Move>, conf: Settings, k: nat)
    requires Execution(xs, moves, conf) && 0 < k < |xs| && Bounded(xs[k - 1])
    ensures Bounded(xs[k])
  {
    assert Advances(xs, moves, k - 1);
    MoveBounded(xs[k - 1], moves[k - 1]);
  }

  // In every run, no machine's queue exceeds its size and there are no more machines than
  // configured.
  lemma {:induction false} ExecutionBounded(xs: seq<Exo>, moves: seq<Move>, conf: Settings, k: nat)
    requires Execution(xs, moves, conf) && k < |xs|
    ensures Bounded(xs[k])
  {
    if k > 0 {
      ExecutionBounded(xs, moves, conf, k - 1);
      NextBounded(xs, moves, conf, k);
    }
  }

  // ---------------------------------------------------------------- an activated device serves

  // With no re-activation asked for, a request at the head of the queue goes down to the main
  // machine if that has room, and the allocator and the server API give what it takes.
  lemma HeadGoesDown(xs: seq<Exo>, moves: seq<Move>, conf: Settings, k: nat, i: nat)
    requires Execution(xs, moves, conf) && k < |moves| && conf.http && moves[k].Poll?
    requires xs[k].nextPhase == Activated && !xs[k].event && xs[k].requests != []
    requires FindSm(xs[k].sms, Main, None) == Some(i) && |xs[k].sms[i].m.work.queue| < conf.machine.queueSize
    requires moves[k].a.push.build == ERR_SUCCESS && moves[k].a.push.memory
    ensures HandsDown(xs[k], xs[k + 1])
  {
    ExecutionSound(xs, moves, conf, k);
    ExecutionBounded(xs, moves, conf, k);
    assert Advances(xs, moves, k);
    ServesHead(xs[k].(phase := Activated), moves[k].a, i);
  }

  lemma ServesHead(x: Exo, a: ActEnv, i: nat)
    requires ConfSound(x.conf) && MachinesSound(x.conf, x.sms) && Bounded(x) && UserRequests(x.requests) && x.conf.http
    requires x.requests != [] && FindSm(x.sms, Main, None) == Some(i)
    requires |x.sms[i].m.work.queue| < x.conf.machine.queueSize && a.push.build == ERR_SUCCESS && a.push.memory
    ensures HandsDown(x, PushHead(PushSubs(x, 0, a.subPush), a.push))
  {
    var x' := PushSubs(x, 0, a.subPush);
    PushSubsKeepsQueue(x, 0, a.subPush);
    PushSubsBounded(x, 0, a.subPush);
    PushSubsKeepsMain(x, 0, a.subPush, i);
    PushSucceedsIff(x', x.requests[0], a.push);
    PushLands(x', x.requests[0], a.push);
    PushFrame(x', x.requests[0], a.push);
  }

  lemma PushKeepsMain(x: Exo, alias: string, p: PushEnv, i: nat)
    requires ConfSound(x.conf) && x.conf.http && FindSm(x.sms, Main, None) == Some(i)
    ensures var sms := Push(x, P.Args(DpSubscribe, alias, 0), p).0.sms;
            FindSm(sms, Main, None) == Some(i) && sms[i] == x.sms[i]
  {
    var args := P.Args(DpSubscribe, alias, 0);
    var base, n, r := PushShape(x, args, p);
    if base != x.sms { FindKept(x.sms, NewEntry(x.conf, LongPoll, Some(alias))); }
    if Push(x, args, p).1 == ERR_SUCCESS { FindSame(base, Put(base, n, r), Main, None); }
  }

  lemma {:induction false} PushSubsKeepsMain(x: Exo, k: nat, ps: seq<PushEnv>, i: nat)
    requires ConfSound(x.conf) && x.conf.http && FindSm(x.sms, Main, None) == Some(i)
    ensures var sms := PushSubs(x, k, ps).sms; FindSm(sms, Main, None) == Some(i) && sms[i] == x.sms[i]
    decreases |x.subs| - k
  {
    if k < |x.subs| {
      PushKeepsMain(x, x.subs[k].key, AnswerTo(ps, k), i);
      PushFrame(x, P.Args(DpSubscribe, x.subs[k].key, 0), AnswerTo(ps, k));
      PushSubsKeepsMain(PushSub(x, k, AnswerTo(ps, k)), k + 1, ps, i);
    }
  }

  // ---------------------------------------------------------------- subscriptions go down

  // The allocator, the server API and the configuration give every item what it takes.
  ghost predicate AllGiven(ps: seq<PushEnv>, n: nat) {
    n <= |ps| && forall k :: 0 <= k < n ==> ps[k].create == ERR_SUCCESS && ps[k].build == ERR_SUCCESS && ps[k].memory
  }

  // An item that is not sent finds its machine empty, or is given one.
  lemma ItemHasRoom(x: Exo, k: nat, p: PushEnv)
    requires ConfSound(x.conf) && x.conf.http && SubscriptionsSound(x.sms, x.subs) && MachinesSound(x.conf, x.sms)
    requires x.conf.machineLimit == 0 && k < |x.subs| && !x.subs[k].value.sent && p.create == ERR_SUCCESS
    ensures HasRoom(x, SubscribeArgs(x.subs[k].key), p)
  {
    assert ItemAgrees(x.sms, x.subs[k]);
    match FindSm(x.sms, LongPoll, Some(x.subs[k].key))
    case Some(i) =>
      assert Holds(x.sms[i].m.work, None);
      assert EntrySound(x.conf, x.sms[i]);
    case None =>
  }

  lemma ServesItem(x: Exo, k: nat, p: PushEnv)
    requires ConfSound(x.conf) && x.conf.http && SubscriptionsSound(x.sms, x.subs) && MachinesSound(x.conf, x.sms)
    requires Bounded(x) && x.conf.machineLimit == 0 && k < |x.subs|
    requires p.create == ERR_SUCCESS && p.build == ERR_SUCCESS && p.memory
    ensures var x' := PushSub(x, k, p);
            && x'.conf == x.conf && SubscriptionsSound(x'.sms, x'.subs) && MachinesSound(x.conf, x'.sms) && Bounded(x')
            && x'.subs == x.subs[k := Marked(x.subs[k])]
  {
    var args := SubscribeArgs(x.subs[k].key);
    assert ItemAgrees(x.sms, x.subs[k]);
    PushFrame(x, args, p);
    PushBounded(x, args, p);
    PushSound(x, args, p);
    if x.subs[k].value.sent {
      assert x.subs[k := Marked(x.subs[k])] == x.subs;
    } else {
      ItemHasRoom(x, k, p);
      PushSucceedsIff(x, args, p);
      PushItem(x, k, p);
    }
  }

  // All that serving an item needs, and keeps.
  ghost predicate Servable(x: Exo) {
    && ConfSound(x.conf) && x.conf.http && x.conf.machineLimit == 0
    && SubscriptionsSound(x.sms, x.subs) && MachinesSound(x.conf, x.sms) && Bounded(x)
  }

  lemma ServedItem(x: Exo, k: nat, p: PushEnv)
    requires Servable(x) && k < |x.subs| && p.create == ERR_SUCCESS && p.build == ERR_SUCCESS && p.memory
    ensures Servable(PushSub(x, k, p)) && PushSub(x, k, p).subs == x.subs[k := Marked(x.subs[k])]
  {
    ServesItem(x, k, p);
  }

  lemma {:induction false} ServesItems(x: Exo, k: nat, ps: seq<PushEnv>)
    requires Servable(x) && AllGiven(ps, |x.subs|)
    ensures var subs := PushSubs(x, k, ps).subs;
            |subs| == |x.subs|
            && forall n :: 0 <= n < |subs| ==> subs[n] == if n < k then x.subs[n] else Marked(x.subs[n])
    decreases |x.subs| - k
  {
    if k < |x.subs| {
      var p := AnswerTo(ps, k);
      ServedItem(x, k, p);
      ServesItems(PushSub(x, k, p), k + 1, ps);
    }
  }

  // With no re-activation asked for and no limit on machines, all subscriptions are under way
  // after the next poll, if what they take is given.
  lemma SubscriptionsGoDown(xs: seq<Exo>, moves: seq<Move>, conf: Settings, k: nat, n: nat)
    requires Execution(xs, moves, conf) && k < |moves| && conf.http && conf.machineLimit == 0 && moves[k].Poll?
    requires xs[k].nextPhase == Activated && !xs[k].event && AllGiven(moves[k].a.subPush, |xs[k].subs|)
    requires n < |xs[k].subs|
    ensures n < |xs[k + 1].subs| && xs[k + 1].subs[n] == Marked(xs[k].subs[n])
  {
    ExecutionSound(xs, moves, conf, k);
    ExecutionBounded(xs, moves, conf, k);
    assert Advances(xs, moves, k);
    var x1 := xs[k].(phase := Activated);
    ServesItems(x1, 0, moves[k].a.subPush);
    PushHeadKeepsSubs(PushSubs(x1, 0, moves[k].a.subPush), moves[k].a.push);
  }

  lemma PushHeadKeepsSubs(x: Exo, p: PushEnv)
    ensures PushHead(x, p).subs == x.subs
  {
    if x.requests != [] { PushFrame(x, x.requests[0], p); }
  }
}
