// The promises of the single protocol machines, for all machines of an exosite object together:
// one of them connects at a time, every request handed to any of them is accounted for, and
// which requests can be dropped without a callback.

module ExositeRequests {
  import opened Common
  import opened ExositeModel
  import opened DictionaryModel
  import opened ExositeMachines
  import opened ExositeActivation
  import opened ExositeSubscriptions
  import opened ExositeQueue
  import opened ExositeSafety
  import opened MachineJobs
  import opened ProtocolSafety
  import P = ProtocolModel
  import Flow = ProtocolFlow
  import Loss = ProtocolLoss
  import Lock = ConnectLock

  // Every request is in one place, and no record with an address not yet given out was accepted.
  ghost predicate AccountSound(w: P.Work, nextId: nat) {
    && (forall id: nat :: Accounted(w, id, 0))
    && (forall n :: 0 <= n < |w.history| && w.history[n].Accepted? ==> w.history[n].req.id < nextId)
  }

  ghost predicate MachineSound(m: P.Machine, i: nat, g: P.Shared, nextId: nat) {
    Lock.LinkSound(m) && Lock.LockSound(m, i, g) && AccountSound(m.work, nextId)
  }

  ghost predicate RequestsSound(sms: seq<Entry>, g: P.Shared, nextId: nat) {
    forall i :: 0 <= i < |sms| ==> MachineSound(sms[i].m, i, g, nextId)
  }

  // ---------------------------------------------------------------- pushes

  lemma GrownKeepsRequests(conf: Settings, sms: seq<Entry>, sms': seq<Entry>, kind: Kind, name: Option<string>,
                           g: P.Shared, nextId: nat)
    requires RequestsSound(sms, g, nextId) && Grown(conf, sms, sms', kind, name)
    ensures RequestsSound(sms', g, nextId)
  {
    assert MachineSound(NewEntry(conf, kind, name).m, |sms|, g, nextId);
  }

  lemma PutKeepsRequests(sms: seq<Entry>, i: nat, r: P.Request, g: P.Shared, nextId: nat)
    requires RequestsSound(sms, g, nextId) && i < |sms| && r.id == nextId
    ensures RequestsSound(Put(sms, i, r), g, nextId + 1)
  {
    forall n | 0 <= n < |sms| ensures MachineSound(Put(sms, i, r)[n].m, n, g, nextId + 1) {
      assert MachineSound(sms[n].m, n, g, nextId);
      if n == i {
        forall id: nat ensures Accounted(Put(sms, i, r)[n].m.work, id, 0) { SubmitAccounts(sms[i].m, r, true, id); }
      }
    }
  }

  lemma MoreIds(sms: seq<Entry>, g: P.Shared, nextId: nat, nextId': nat)
    requires RequestsSound(sms, g, nextId) && nextId <= nextId'
    ensures RequestsSound(sms, g, nextId')
  {
    forall n | 0 <= n < |sms| ensures MachineSound(sms[n].m, n, g, nextId') {
      assert MachineSound(sms[n].m, n, g, nextId);
    }
  }

  lemma PushKeepsRequests(x: Exo, args: P.Args, p: PushEnv)
    requires ConfSound(x.conf) && RequestsSound(x.sms, x.g, x.nextId)
    ensures var x' := Push(x, args, p).0; RequestsSound(x'.sms, x'.g, x'.nextId)
  {
    PushFrame(x, args, p);
    var base, i, r := PushShape(x, args, p);
    GrownKeepsRequests(x.conf, x.sms, base, KindFor(x.conf, args.procedure), NameFor(x.conf, args), x.g, x.nextId);
    var (x', error) := Push(x, args, p);
    if error == ERR_SUCCESS {
      PutKeepsRequests(base, i, r, x.g, x.nextId);
    } else {
      MoreIds(base, x.g, x.nextId, x'.nextId);
    }
  }

  lemma {:induction false} PushSubsKeepsRequests(x: Exo, k: nat, ps: seq<PushEnv>)
    requires ConfSound(x.conf) && RequestsSound(x.sms, x.g, x.nextId)
    ensures var x' := PushSubs(x, k, ps); RequestsSound(x'.sms, x'.g, x'.nextId)
    decreases |x.subs| - k
  {
    if k < |x.subs| {
      var args := P.Args(DpSubscribe, x.subs[k].key, 0);
      PushFrame(x, args, AnswerTo(ps, k));
      PushKeepsRequests(x, args, AnswerTo(ps, k));
      PushSubsKeepsRequests(PushSub(x, k, AnswerTo(ps, k)), k + 1, ps);
    }
  }

  lemma ClearKeepsRequests(sms: seq<Entry>, g: P.Shared, nextId: nat)
    requires RequestsSound(sms, g, nextId)
    ensures RequestsSound(ClearAll(sms), g, nextId)
  {
    ClearAllIs(sms);
    forall n | 0 <= n < |sms| ensures MachineSound(ClearAll(sms)[n].m, n, g, nextId) {
      assert MachineSound(sms[n].m, n, g, nextId);
    }
  }

  lemma ActivateStepKeepsRequests(x: Exo, a: ActEnv)
    requires ConfSound(x.conf) && RequestsSound(x.sms, x.g, x.nextId)
    ensures var x' := ActivateStep(x, a); RequestsSound(x'.sms, x'.g, x'.nextId)
  {
    var x1 := x.(phase := x.nextPhase);
    match x.nextPhase
    case SendGetTimestamp => PushKeepsRequests(x1, TimestampJob().args, a.push);
    case SendActivate => PushKeepsRequests(x1, ActivateJob().args, a.push);
    case PrepareActivate => ClearKeepsRequests(x.sms, x.g, x.nextId);
    case Activated =>
      if !x.event {
        PushSubsKeepsRequests(x1, 0, a.subPush);
        PushSubsKeepsQueue(x1, 0, a.subPush);
        var x2 := PushSubs(x1, 0, a.subPush);
        if x2.requests != [] { PushKeepsRequests(x2, x2.requests[0], a.push); }
      }
    case _ =>
  }

  // ---------------------------------------------------------------- steps of machines

  lemma TaskKeepsAccounts(m: P.Machine, i: nat, g: P.Shared, env: P.Env, nextId: nat)
    requires AccountSound(m.work, nextId)
    ensures AccountSound(P.Task(m, i, g, env).0.work, nextId)
  {
    var w := P.Task(m, i, g, env).0.work;
    forall id: nat ensures Accounted(w, id, 0) { ApplyAccounts(m, i, P.Poll(g, env), id); }
    TaskWithin(m, i, g, env, AnyJob());
    forall n | 0 <= n < |w.history| && w.history[n].Accepted? ensures w.history[n].req.id < nextId {
      if n < |m.work.history| { assert w.history[n] == w.history[..|m.work.history|][n] == m.work.history[n]; }
    }
  }

  lemma StepKeepsRequests(x: Exo, i: nat, env: P.Env)
    requires i < |x.sms| && RequestsSound(x.sms, x.g, x.nextId)
    ensures RequestsSound(Stepped(x, i, env), P.Task(x.sms[i].m, i, x.g, env).1, x.nextId)
  {
    var g' := P.Task(x.sms[i].m, i, x.g, env).1;
    assert MachineSound(x.sms[i].m, i, x.g, x.nextId);
    Lock.TaskKeeps(x.sms[i].m, i, x.g, env);
    TaskKeepsAccounts(x.sms[i].m, i, x.g, env, x.nextId);
    forall n | 0 <= n < |x.sms| ensures MachineSound(Stepped(x, i, env)[n].m, n, g', x.nextId) {
      assert MachineSound(x.sms[n].m, n, x.g, x.nextId);
      if n != i && Lock.Attempting(x.sms[n].m) { assert !P.MayConnect(x.g, i); }
    }
  }

  lemma {:induction false} DeliverKeepsShared(x: Exo, facts: seq<P.Fact>, replies: seq<Reply>)
    ensures Deliver(x, facts, replies).g == x.g && Deliver(x, facts, replies).nextId == x.nextId
    decreases |facts|
  {
    if facts != [] {
      var reply := if replies == [] then Reply(false, [], false) else replies[0];
      var rest := if replies == [] then [] else replies[1..];
      if facts[0].Called? {
        DeliverKeepsShared(Callback(x, facts[0].req.args, facts[0].code, reply), facts[1..], rest);
      } else {
        DeliverKeepsShared(x, facts[1..], replies);
      }
    }
  }

  lemma MoveKeepsRequests(x: Exo, move: Move)
    requires ConfSound(x.conf) && RequestsSound(x.sms, x.g, x.nextId) && Possible(x, move)
    ensures var x' := Apply(x, move); RequestsSound(x'.sms, x'.g, x'.nextId)
  {
    match move
    case Poll(a) => ActivateStepKeepsRequests(x, a);
    case Step(i, env, replies) =>
      StepKeepsRequests(x, i, env);
      DeliverKeepsMachines(BeforeCallbacks(x, i, env), Facts(x, i, env), replies);
      DeliverKeepsShared(BeforeCallbacks(x, i, env), Facts(x, i, env), replies);
    case UserRequest(write, alias, memory) => MoreIds(x.sms, x.g, x.nextId, Apply(x, move).nextId);
    case UserSubscribe(alias, memory) =>
  }

  lemma NextAccounts(xs: seq<Exo>, moves: seq<Move>, conf: Settings, k: nat)
    requires Execution(xs, moves, conf) && k < |moves| && RequestsSound(xs[k].sms, xs[k].g, xs[k].nextId)
    ensures RequestsSound(xs[k + 1].sms, xs[k + 1].g, xs[k + 1].nextId)
  {
    ExecutionSound(xs, moves, conf, k);
    assert Advances(xs, moves, k);
    MoveKeepsRequests(xs[k], moves[k]);
  }

  lemma {:induction false} ExecutionAccounts(xs: seq<Exo>, moves: seq<Move>, conf: Settings, k: nat)
    requires Execution(xs, moves, conf) && k < |xs|
    ensures RequestsSound(xs[k].sms, xs[k].g, xs[k].nextId)
  {
    if k > 0 {
      ExecutionAccounts(xs, moves, conf, k - 1);
      NextAccounts(xs, moves, conf, k - 1);
    }
  }

  // At most one machine of an exosite object is in the middle of connecting.
  lemma OneMachineConnects(xs: seq<Exo>, moves: seq<Move>, conf: Settings, k: nat, i: nat, j: nat)
    requires Execution(xs, moves, conf) && k < |xs| && i < |xs[k].sms| && j < |xs[k].sms|
    requires Lock.Attempting(xs[k].sms[i].m) && Lock.Attempting(xs[k].sms[j].m)
    ensures i == j
  {
    ExecutionAccounts(xs, moves, conf, k);
    assert MachineSound(xs[k].sms[i].m, i, xs[k].g, xs[k].nextId);
    assert MachineSound(xs[k].sms[j].m, j, xs[k].g, xs[k].nextId);
  }

  // Every request that was handed to a machine is in exactly one place there: waiting, active,
  // sent, finished by a callback after which none follows, overwritten, or let go unfinished.
  lemma EveryRequestAccounted(xs: seq<Exo>, moves: seq<Move>, conf: Settings, k: nat, i: nat, id: nat)
    requires Execution(xs, moves, conf) && k < |xs| && i < |xs[k].sms|
    ensures var w := xs[k].sms[i].m.work;
            var rec := RecordOf(w.history, id);
            && Places(w, id) == rec.accepted <= 1 && NoneAfterDone(w.history, id)
            && (rec.overwritten > 0 ==> rec.calls == 0)
  {
    ExecutionAccounts(xs, moves, conf, k);
    assert MachineSound(xs[k].sms[i].m, i, xs[k].g, xs[k].nextId);
    assert Accounted(xs[k].sms[i].m.work, id, 0);
  }

  // ---------------------------------------------------------------- what is dropped

  // Only while a re-activation waits for the machines to drain can one be aborting.
  ghost predicate AbortSound(sms: seq<Entry>, next: Phase) {
    next != SendActivate ==> forall i :: 0 <= i < |sms| ==> !sms[i].m.abort
  }

  // No machine aborts and no request is overwritten that did not or was not before.
  ghost predicate Harmless(sms: seq<Entry>, sms': seq<Entry>) {
    && |sms| <= |sms'|
    && (forall i, id: nat :: 0 <= i < |sms| ==> Loss.Losses(sms'[i].m.work, id) == Loss.Losses(sms[i].m.work, id))
    && (forall i :: 0 <= i < |sms'| && sms'[i].m.abort ==> i < |sms| && sms[i].m.abort)
  }

  lemma PutIsHarmless(sms: seq<Entry>, i: nat, r: P.Request)
    requires i < |sms|
    ensures Harmless(sms, Put(sms, i, r))
  {
    forall n, id: nat | 0 <= n < |sms|
      ensures Loss.Losses(Put(sms, i, r)[n].m.work, id) == Loss.Losses(sms[n].m.work, id)
    {
      if n == i { TellRecord(sms[i].m.work.history, P.Accepted(r.(start := 0)), id); }
    }
  }

  lemma PushIsHarmless(x: Exo, args: P.Args, p: PushEnv)
    requires ConfSound(x.conf)
    ensures Harmless(x.sms, Push(x, args, p).0.sms)
  {
    var base, i, r := PushShape(x, args, p);
    if Push(x, args, p).1 == ERR_SUCCESS { PutIsHarmless(base, i, r); }
  }

  lemma PushSubIsHarmless(x: Exo, k: nat, p: PushEnv)
    requires ConfSound(x.conf) && k < |x.subs|
    ensures Harmless(x.sms, PushSub(x, k, p).sms) && PushSub(x, k, p).conf == x.conf
  {
    var args := P.Args(DpSubscribe, x.subs[k].key, 0);
    PushFrame(x, args, p);
    PushIsHarmless(x, args, p);
  }

  lemma {:induction false} PushSubsIsHarmless(x: Exo, k: nat, ps: seq<PushEnv>)
    requires ConfSound(x.conf)
    ensures Harmless(x.sms, PushSubs(x, k, ps).sms)
    decreases |x.subs| - k
  {
    if k < |x.subs| {
      PushSubIsHarmless(x, k, AnswerTo(ps, k));
      PushSubsIsHarmless(PushSub(x, k, AnswerTo(ps, k)), k + 1, ps);
    }
  }

  // No request is overwritten that was not before.
  ghost predicate DropsNone(sms: seq<Entry>, sms': seq<Entry>) {
    && |sms| <= |sms'|
    && forall i, id: nat :: 0 <= i < |sms| ==> Loss.Losses(sms'[i].m.work, id) == Loss.Losses(sms[i].m.work, id)
  }

  lemma ServeIsHarmless(x: Exo, a: ActEnv)
    requires ConfSound(x.conf)
    ensures Harmless(x.sms, PushHead(PushSubs(x, 0, a.subPush), a.push).sms)
  {
    PushSubsIsHarmless(x, 0, a.subPush);
    PushSubsKeepsQueue(x, 0, a.subPush);
    var x' := PushSubs(x, 0, a.subPush);
    if x'.requests != [] { PushIsHarmless(x', x'.requests[0], a.push); }
  }

  lemma ActivateIsHarmless(x: Exo, a: ActEnv)
    requires ConfSound(x.conf) && x.nextPhase != PrepareActivate
    ensures Harmless(x.sms, ActivateStep(x, a).sms)
  {
    var x1 := x.(phase := x.nextPhase);
    match x.nextPhase
    case SendGetTimestamp => PushIsHarmless(x1, TimestampJob().args, a.push);
    case SendActivate => PushIsHarmless(x1, ActivateJob().args, a.push);
    case Activated => if !x.event { ServeIsHarmless(x1, a); }
    case _ =>
  }

  // The activation machine itself drops nothing, and aborts only to re-activate.
  lemma ActivateStepDropsNone(x: Exo, a: ActEnv)
    requires ConfSound(x.conf) && AbortSound(x.sms, x.nextPhase)
    ensures AbortSound(ActivateStep(x, a).sms, ActivateStep(x, a).nextPhase) && DropsNone(x.sms, ActivateStep(x, a).sms)
  {
    if x.nextPhase == PrepareActivate {
      ClearAllIs(x.sms);
    } else {
      ActivateIsHarmless(x, a);
      if x.nextPhase == SendActivate && AllEmpty(x.sms) {
        assert forall i :: 0 <= i < |x.sms| ==> x.sms[i] in x.sms && P.IsEmpty(x.sms[i].m);
      }
    }
  }

  // A machine with one request, or none, drops nothing even when it is cleared.
  lemma SoloDropsNone(x: Exo, i: nat, env: P.Env, job: Option<Job>, id: nat)
    requires i < |x.sms| && Holds(x.sms[i].m.work, job) && Closing(x.sms[i].m.cfg, job)
    ensures Loss.Losses(Stepped(x, i, env)[i].m.work, id) == Loss.Losses(x.sms[i].m.work, id)
  {
    var m, w := x.sms[i].m, Stepped(x, i, env)[i].m.work;
    TaskSolo(m, i, x.g, env, job);
    if w.history != m.work.history {
      assert w.history[..|w.history| - 1] == m.work.history;
    }
  }

  // A long-poll machine holds its one subscription or nothing; a time-sync machine, during a
  // re-activation, nothing.
  lemma SideMachineDropsNone(x: Exo, i: nat, env: P.Env, id: nat)
    requires Sound(x) && x.conf.http && x.nextPhase == SendActivate && i < |x.sms| && x.sms[i].kind != Main
    ensures Loss.Losses(Stepped(x, i, env)[i].m.work, id) == Loss.Losses(x.sms[i].m.work, id)
  {
    assert EntrySound(x.conf, x.sms[i]);
    if x.sms[i].kind == LongPoll {
      assert HasKey(x.subs, x.sms[i].name.value);
      var k :| 0 <= k < |x.subs| && x.subs[k].key == x.sms[i].name.value;
      assert ItemAgrees(x.sms, x.subs[k]);
      SoloDropsNone(x, i, env, JobOfItem(x.subs[k]), id);
    } else {
      TimeSyncIsIdle(x.conf, x.sms[i]);
      SoloDropsNone(x, i, env, None, id);
    }
  }

  lemma TimeSyncIsIdle(conf: Settings, e: Entry)
    requires EntrySound(conf, e) && e.kind == TimeSync && AllJobs(e.m.work, Traffic())
    ensures Holds(e.m.work, None)
  {
    var w, ok := e.m.work, Fits(conf, e.kind, e.name);
    assert 0 < |w.queue| ==> ok(JobOf(w.queue[0]));
    assert 0 < |w.sent| ==> ok(JobOf(w.sent[0]));
  }

  lemma StepDrops(x: Exo, i: nat, env: P.Env, id: nat)
    requires Sound(x) && x.conf.http && x.conf.machine.limit == 1 && AbortSound(x.sms, x.nextPhase) && i < |x.sms|
    ensures x.nextPhase != SendActivate ==> !Stepped(x, i, env)[i].m.abort
    ensures Loss.Losses(Stepped(x, i, env)[i].m.work, id) != Loss.Losses(x.sms[i].m.work, id) ==>
              x.nextPhase == SendActivate && x.sms[i].kind == Main
  {
    assert EntrySound(x.conf, x.sms[i]);
    if x.nextPhase != SendActivate {
      Loss.LimitOneStepLosesNone(x.sms[i].m, i, P.Poll(x.g, env), id);
    } else if x.sms[i].kind != Main {
      SideMachineDropsNone(x, i, env, id);
    }
  }

  lemma StepKeepsAbort(x: Exo, i: nat, env: P.Env, replies: seq<Reply>)
    requires Sound(x) && x.conf.http && x.conf.machine.limit == 1 && AbortSound(x.sms, x.nextPhase) && i < |x.sms|
    ensures var x' := MachineStep(x, i, env, replies); AbortSound(x'.sms, x'.nextPhase) && x'.sms == Stepped(x, i, env)
  {
    DeliverKeepsMachines(BeforeCallbacks(x, i, env), Facts(x, i, env), replies);
    if x.nextPhase == SendActivate {
      StepTraffic(x, i, env, replies);
    } else {
      StepDrops(x, i, env, 0);
    }
  }

  lemma MoveKeepsAbort(x: Exo, move: Move)
    requires Sound(x) && Possible(x, move) && x.conf.http && x.conf.machine.limit == 1 && AbortSound(x.sms, x.nextPhase)
    ensures AbortSound(Apply(x, move).sms, Apply(x, move).nextPhase)
  {
    match move
    case Poll(a) => ActivateStepDropsNone(x, a);
    case Step(i, env, replies) => StepKeepsAbort(x, i, env, replies);
    case UserRequest(write, alias, memory) =>
    case UserSubscribe(alias, memory) =>
  }

  lemma NextAborts(xs: seq<Exo>, moves: seq<Move>, conf: Settings, k: nat)
    requires Execution(xs, moves, conf) && k < |moves| && conf.http && conf.machine.limit == 1
    requires AbortSound(xs[k].sms, xs[k].nextPhase)
    ensures AbortSound(xs[k + 1].sms, xs[k + 1].nextPhase)
  {
    ExecutionSound(xs, moves, conf, k);
    assert Advances(xs, moves, k);
    MoveKeepsAbort(xs[k], moves[k]);
  }

  lemma {:induction false} ExecutionAborts(xs: seq<Exo>, moves: seq<Move>, conf: Settings, k: nat)
    requires Execution(xs, moves, conf) && k < |xs| && conf.http && conf.machine.limit == 1
    ensures AbortSound(xs[k].sms, xs[k].nextPhase)
  {
    if k > 0 {
      ExecutionAborts(xs, moves, conf, k - 1);
      NextAborts(xs, moves, conf, k - 1);
    }
  }

  lemma MoveDrops(x: Exo, move: Move, i: nat, id: nat)
    requires Sound(x) && Possible(x, move) && x.conf.http && x.conf.machine.limit == 1 && AbortSound(x.sms, x.nextPhase)
    requires i < |x.sms|
    ensures i < |Apply(x, move).sms|
    ensures Loss.Losses(Apply(x, move).sms[i].m.work, id) != Loss.Losses(x.sms[i].m.work, id) ==>
              move.Step? && move.i == i && x.nextPhase == SendActivate && x.sms[i].kind == Main
  {
    match move
    case Poll(a) => ActivateStepDropsNone(x, a);
    case Step(n, env, replies) =>
      DeliverKeepsMachines(BeforeCallbacks(x, n, env), Facts(x, n, env), replies);
      StepDrops(x, n, env, id);
    case UserRequest(write, alias, memory) =>
    case UserSubscribe(alias, memory) =>
  }

  lemma MainHolds(x: Exo, i: nat)
    requires MachinesSound(x.conf, x.sms) && x.nextPhase == SendActivate && ActivationSound(x)
    requires i < |x.sms| && x.sms[i].kind == Main && x.conf.http
    ensures AllJobs(x.sms[i].m.work, Traffic()) && AllJobs(x.sms[i].m.work, NoSubscribe())
  {
    assert EntrySound(x.conf, x.sms[i]);
  }

  // With HTTP and its limit of one request, a request is dropped without a callback only while
  // a re-activation drains the main machine; subscriptions, activate and timestamp requests
  // are never dropped.
  lemma OnlyReactivationDrops(xs: seq<Exo>, moves: seq<Move>, conf: Settings, k: nat, i: nat, id: nat)
    requires Execution(xs, moves, conf) && k < |moves| && conf.http && conf.machine.limit == 1
    requires i < |xs[k].sms|
    ensures i < |xs[k + 1].sms|
    ensures Loss.Losses(xs[k + 1].sms[i].m.work, id) != Loss.Losses(xs[k].sms[i].m.work, id) ==>
              && moves[k].Step? && moves[k].i == i && xs[k].nextPhase == SendActivate && xs[k].sms[i].kind == Main
              && AllJobs(xs[k].sms[i].m.work, Traffic()) && AllJobs(xs[k].sms[i].m.work, NoSubscribe())
  {
    ExecutionSound(xs, moves, conf, k);
    ExecutionAborts(xs, moves, conf, k);
    assert Advances(xs, moves, k);
    MoveDrops(xs[k], moves[k], i, id);
    if xs[k].nextPhase == SendActivate && xs[k].sms[i].kind == Main { MainHolds(xs[k], i); }
  }
}
