// Every run of an exosite object and its machines, in any interleaving of their steps with the
// calls of the user: what holds in each state it reaches.

module ExositeSafety {
  import opened Common
  import opened ExositeModel
  import opened DictionaryModel
  import opened ExositeMachines
  import opened ExositeActivation
  import opened ExositeSubscriptions
  import opened ExositeQueue
  import opened MachineJobs
  import P = ProtocolModel
  import Flow = ProtocolFlow

  ghost predicate Sound(x: Exo) {
    && ConfSound(x.conf) && MachinesSound(x.conf, x.sms) && ActivationSound(x) && QueueSound(x)
    && (x.conf.http ==> SubscriptionsSound(x.sms, x.subs))
  }

  lemma {:induction false} PushSubsMachines(x: Exo, k: nat, ps: seq<PushEnv>)
    requires ConfSound(x.conf) && MachinesSound(x.conf, x.sms)
    ensures MachinesSound(x.conf, PushSubs(x, k, ps).sms)
    decreases |x.subs| - k
  {
    if k < |x.subs| {
      var args := P.Args(DpSubscribe, x.subs[k].key, 0);
      PushFrame(x, args, AnswerTo(ps, k));
      PushSound(x, args, AnswerTo(ps, k));
      PushSubsMachines(PushSub(x, k, AnswerTo(ps, k)), k + 1, ps);
    }
  }

  lemma ActivateStepMachines(x: Exo, a: ActEnv)
    requires ConfSound(x.conf) && MachinesSound(x.conf, x.sms)
    ensures MachinesSound(x.conf, ActivateStep(x, a).sms)
  {
    var x1 := x.(phase := x.nextPhase);
    match x.nextPhase
    case SendGetTimestamp => PushSound(x1, TimestampJob().args, a.push);
    case SendActivate => PushSound(x1, ActivateJob().args, a.push);
    case PrepareActivate => ClearAllSound(x.conf, x.sms);
    case Activated =>
      if !x.event {
        PushSubsMachines(x1, 0, a.subPush);
        PushSubsKeepsQueue(x1, 0, a.subPush);
        var x2 := PushSubs(x1, 0, a.subPush);
        if x2.requests != [] { PushSound(x2, x2.requests[0], a.push); }
      }
    case _ =>
  }

  lemma {:induction false} DeliverKeepsMachines(x: Exo, facts: seq<P.Fact>, replies: seq<Reply>)
    ensures Deliver(x, facts, replies).sms == x.sms
    decreases |facts|
  {
    if facts != [] {
      var reply := if replies == [] then Reply(false, [], false) else replies[0];
      var rest := if replies == [] then [] else replies[1..];
      if facts[0].Called? {
        DeliverKeepsMachines(Callback(x, facts[0].req.args, facts[0].code, reply), facts[1..], rest);
      } else {
        DeliverKeepsMachines(x, facts[1..], replies);
      }
    }
  }

  lemma MoveKeeps(x: Exo, move: Move)
    requires Sound(x) && Possible(x, move)
    ensures Sound(Apply(x, move)) && Apply(x, move).conf == x.conf
  {
    MoveKeepsQueue(x, move);
    match move
    case Poll(a) =>
      ActivateStepMachines(x, a);
      ActivateStepHands(x, a, HandedDown(x));
      ActivateStepSound(x, a);
      if x.conf.http { ActivateStepKeepsItems(x, a); }
    case Step(i, env, replies) =>
      StepMachinesSound(x, i, env);
      DeliverKeepsMachines(BeforeCallbacks(x, i, env), Facts(x, i, env), replies);
      DeliverKeepsQueue(BeforeCallbacks(x, i, env), Facts(x, i, env), replies);
      MachineStepSound(x, i, env, replies);
      if x.conf.http { MachineStepKeepsItems(x, i, env, replies); }
    case UserRequest(write, alias, memory) =>
    case UserSubscribe(alias, memory) => if x.conf.http { SubscribeKeepsItems(x, alias, memory); }
  }

  // ---------------------------------------------------------------- runs

  // The states xs[0], xs[1], ... are those of a run, from a new exosite object on.
  ghost predicate Execution(xs: seq<Exo>, moves: seq<Move>, conf: Settings) {
    && |xs| == |moves| + 1 && xs[0] == New(conf) && ConfSound(conf)
    && forall k :: 0 <= k < |moves| ==> Advances(xs, moves, k)
  }

  ghost predicate Advances(xs: seq<Exo>, moves: seq<Move>, k: nat) {
    k < |moves| && k + 1 < |xs| && Possible(xs[k], moves[k]) && xs[k + 1] == Apply(xs[k], moves[k])
  }

  lemma NewSound(conf: Settings)
    requires ConfSound(conf)
    ensures Sound(New(conf))
  {
  }

  lemma NextSound(xs: seq<Exo>, moves: seq<Move>, conf: Settings, k: nat)
    requires Execution(xs, moves, conf) && 0 < k < |xs| && Sound(xs[k - 1])
    ensures Sound(xs[k]) && xs[k].conf == xs[k - 1].conf
  {
    assert Advances(xs, moves, k - 1);
    MoveKeeps(xs[k - 1], moves[k - 1]);
  }

  lemma {:induction false} ExecutionSound(xs: seq<Exo>, moves: seq<Move>, conf: Settings, k: nat)
    requires Execution(xs, moves, conf) && k < |xs|
    ensures Sound(xs[k]) && xs[k].conf == conf
  {
    if k > 0 {
      ExecutionSound(xs, moves, conf, k - 1);
      NextSound(xs, moves, conf, k);
    } else {
      NewSound(conf);
    }
  }

  lemma SentItem(x: Exo, n: nat)
    requires SubscriptionsSound(x.sms, x.subs) && n < |x.subs|
    ensures match FindSm(x.sms, LongPoll, Some(x.subs[n].key))
            case None => !x.subs[n].value.sent
            case Some(i) => Flow.Pending(x.sms[i].m.work) == if x.subs[n].value.sent then 1 else 0
    ensures forall i :: 0 <= i < |x.sms| && Answers(x.sms[i], LongPoll, Some(x.subs[n].key)) ==>
              FindSm(x.sms, LongPoll, Some(x.subs[n].key)) == Some(i)
  {
    assert ItemAgrees(x.sms, x.subs[n]);
  }

  lemma ExecutionConf(xs: seq<Exo>, moves: seq<Move>, conf: Settings, k: nat)
    requires Execution(xs, moves, conf) && k < |xs|
    ensures xs[k].conf == conf && ConfSound(conf)
  {
    ExecutionSound(xs, moves, conf, k);
  }

  // In every state of every run with HTTP, an item of the subscribe map is marked as sent
  // exactly when its long-poll machine has one request under way, which is then its own
  // subscription; otherwise it has none.
  lemma SentIffPending(xs: seq<Exo>, moves: seq<Move>, conf: Settings, k: nat, s: Subscription)
    requires Execution(xs, moves, conf) && k < |xs| && conf.http && s in xs[k].subs
    ensures match FindSm(xs[k].sms, LongPoll, Some(s.key))
            case None => !s.value.sent
            case Some(i) => Flow.Pending(xs[k].sms[i].m.work) == if s.value.sent then 1 else 0
    ensures forall i :: 0 <= i < |xs[k].sms| && Answers(xs[k].sms[i], LongPoll, Some(s.key)) ==>
              FindSm(xs[k].sms, LongPoll, Some(s.key)) == Some(i)
  {
    ExecutionSound(xs, moves, conf, k);
    var n: nat :| n < |xs[k].subs| && xs[k].subs[n] == s;
    SentItem(xs[k], n);
  }

  // The search of find_sm never stands before a long-poll machine without a name.
  lemma LongPollsHaveNames(xs: seq<Exo>, moves: seq<Move>, conf: Settings, k: nat, i: nat)
    requires Execution(xs, moves, conf) && k < |xs| && conf.http && i < |xs[k].sms| && xs[k].sms[i].kind == LongPoll
    ensures xs[k].sms[i].name.Some? && HasKey(xs[k].subs, xs[k].sms[i].name.value)
  {
    ExecutionSound(xs, moves, conf, k);
  }

  predicate IsActivate(r: P.Request) { r.args.procedure == PpActivate }

  // How many activate requests a machine has under way.
  function Activates(w: P.Work): nat {
    CountActivates(w.queue) + CountActivates(w.sent) + if w.active.Some? && IsActivate(w.active.value) then 1 else 0
  }

  function CountActivates(rs: seq<P.Request>): nat {
    if rs == [] then 0 else CountActivates(rs[1..]) + if IsActivate(rs[0]) then 1 else 0
  }

  function TotalActivates(sms: seq<Entry>): nat {
    if sms == [] then 0 else Activates(sms[0].m.work) + TotalActivates(sms[1..])
  }

  lemma {:induction false} CountInList(rs: seq<P.Request>, ok: Job -> bool, all: bool)
    requires ListJobs(rs, ok) && forall j: Job :: ok(j) ==> ((j.args.procedure == PpActivate) == all)
    ensures CountActivates(rs) == if all then |rs| else 0
  {
    if rs != [] {
      assert ok(JobOf(rs[0]));
      assert forall i :: 0 <= i < |rs[1..]| ==> rs[1..][i] == rs[i + 1];
      CountInList(rs[1..], ok, all);
    }
  }

  lemma CountInMachine(w: P.Work, ok: Job -> bool, all: bool)
    requires AllJobs(w, ok) && forall j: Job :: ok(j) ==> ((j.args.procedure == PpActivate) == all)
    ensures Activates(w) == if all then Flow.Pending(w) else 0
  {
    CountInList(w.queue, ok, all);
    CountInList(w.sent, ok, all);
  }

  lemma {:induction false} TotalAt(sms: seq<Entry>, n: nat)
    requires n < |sms| && forall i :: 0 <= i < |sms| ==> Activates(sms[i].m.work) == if i == n then 1 else 0
    ensures TotalActivates(sms) == 1
  {
    assert forall i :: 0 <= i < |sms[1..]| ==> sms[1..][i] == sms[i + 1];
    if n == 0 { TotalNone(sms[1..]); } else { TotalAt(sms[1..], n - 1); }
  }

  lemma {:induction false} TotalNone(sms: seq<Entry>)
    requires forall i :: 0 <= i < |sms| ==> Activates(sms[i].m.work) == 0
    ensures TotalActivates(sms) == 0
  {
    if sms != [] {
      assert forall i :: 0 <= i < |sms[1..]| ==> sms[1..][i] == sms[i + 1];
      TotalNone(sms[1..]);
    }
  }

  // In every state of every run, exactly one activate request is under way in all machines
  // together while the activation machine waits for it, and none otherwise.
  lemma OneActivate(xs: seq<Exo>, moves: seq<Move>, conf: Settings, k: nat)
    requires Execution(xs, moves, conf) && k < |xs|
    ensures TotalActivates(xs[k].sms) == if xs[k].nextPhase == WaitActivate then 1 else 0
  {
    ExecutionSound(xs, moves, conf, k);
    var x := xs[k];
    if x.nextPhase == WaitActivate {
      var n := FindSm(x.sms, Main, None).value;
      forall i | 0 <= i < |x.sms| ensures Activates(x.sms[i].m.work) == if i == n then 1 else 0 {
        assert Holds(x.sms[i].m.work, if i == n then Some(ActivateJob()) else None);
        CountInMachine(x.sms[i].m.work, Only(if i == n then Some(ActivateJob()) else None), i == n);
      }
      TotalAt(x.sms, n);
    } else {
      NoActivates(x);
      TotalNone(x.sms);
    }
  }

  lemma NoActivates(x: Exo)
    requires PhaseSound(x.sms, x.nextPhase) && x.nextPhase != WaitActivate
    ensures forall i :: 0 <= i < |x.sms| ==> Activates(x.sms[i].m.work) == 0
  {
    forall i | 0 <= i < |x.sms| ensures Activates(x.sms[i].m.work) == 0 {
      match x.nextPhase
      case WaitTimestamp =>
        var job := if i == FindSm(x.sms, TimeSync, None).value then Some(TimestampJob()) else None;
        assert Holds(x.sms[i].m.work, job);
        CountInMachine(x.sms[i].m.work, Only(job), false);
      case PrepareActivate => CountInMachine(x.sms[i].m.work, Traffic(), false);
      case SendActivate => CountInMachine(x.sms[i].m.work, Traffic(), false);
      case Activated => CountInMachine(x.sms[i].m.work, Traffic(), false);
      case SendGetTimestamp => CountInMachine(x.sms[i].m.work, Only(None), false);
      case Init => CountInMachine(x.sms[i].m.work, Only(None), false);
      case Start => CountInMachine(x.sms[i].m.work, Only(None), false);
    }
  }

  // When the activate request is handed down, no machine has anything queued, active or sent.
  lemma NoStaleTraffic(xs: seq<Exo>, moves: seq<Move>, conf: Settings, k: nat, i: nat)
    requires Execution(xs, moves, conf) && k < |moves| && i < |xs[k].sms|
    requires xs[k].nextPhase != WaitActivate && xs[k + 1].nextPhase == WaitActivate
    ensures Flow.Pending(xs[k].sms[i].m.work) == 0
  {
    ExecutionSound(xs, moves, conf, k);
    assert Advances(xs, moves, k);
    EntersWaitActivate(xs[k], moves[k]);
    DrainedIsIdle(xs[k].sms);
    assert Holds(xs[k].sms[i].m.work, None);
  }

  // Only the step of the activation machine that finds every machine empty starts the wait.
  lemma EntersWaitActivate(x: Exo, move: Move)
    requires Sound(x) && Possible(x, move) && x.nextPhase != WaitActivate
    ensures Apply(x, move).nextPhase == WaitActivate ==> x.nextPhase == SendActivate && AllEmpty(x.sms)
  {
    match move
    case Step(i, env, replies) => StepStaysOut(x, i, env, replies);
    case Poll(a) => PollStaysOut(x, a);
    case _ =>
  }

  lemma PollStaysOut(x: Exo, a: ActEnv)
    requires ConfSound(x.conf) && x.nextPhase != WaitActivate
    requires x.nextPhase == Activated ==> AllTraffic(x.sms)
    ensures ActivateStep(x, a).nextPhase == WaitActivate ==> x.nextPhase == SendActivate && AllEmpty(x.sms)
  {
    var x1 := x.(phase := x.nextPhase);
    match x.nextPhase
    case SendGetTimestamp => PushFrame(x1, TimestampJob().args, a.push);
    case Activated =>
      if !x.event {
        PushSubsKeepsTime(x1, 0, a.subPush);
        var x2 := PushSubs(x1, 0, a.subPush);
        if x2.requests != [] { PushFrame(x2, x2.requests[0], a.push); }
      }
    case _ =>
  }

  lemma TimestampStaysOut(x: Exo, i: nat, env: P.Env, replies: seq<Reply>)
    requires i < |x.sms| && FindSm(x.sms, TimeSync, None).Some? && x.nextPhase != WaitActivate
    requires OnlyAt(x.sms, FindSm(x.sms, TimeSync, None).value, TimestampJob())
    ensures MachineStep(x, i, env, replies).nextPhase != WaitActivate
  {
    var answered, code, reply := StepOnly(x, i, env, replies, FindSm(x.sms, TimeSync, None).value, TimestampJob());
  }

  lemma StepStaysOut(x: Exo, i: nat, env: P.Env, replies: seq<Reply>)
    requires ActivationSound(x) && i < |x.sms| && x.nextPhase != WaitActivate
    ensures MachineStep(x, i, env, replies).nextPhase != WaitActivate
  {
    match x.nextPhase
    case WaitTimestamp => TimestampStaysOut(x, i, env, replies);
    case SendActivate => StepTraffic(x, i, env, replies);
    case PrepareActivate => StepTraffic(x, i, env, replies);
    case Activated => StepTraffic(x, i, env, replies);
    case _ => StepIdle(x, i, env, replies);
  }

  // Which requests a machine may hold, by its kind
  ghost predicate Belongs(conf: Settings, e: Entry, r: P.Request) {
    match e.kind
    case LongPoll =>
      && conf.http && r.args.procedure == DpSubscribe && r.typ == P.Subscribe
      && e.name == Some(r.args.alias)
    case TimeSync => r.args.procedure == UpTimestamp && r.typ == P.Normal
    case Main =>
      && r.args.procedure != UpTimestamp
      && (r.args.procedure == DpSubscribe ==> !conf.http && r.typ == P.SubscribeAsynch)
      && (r.args.procedure != DpSubscribe ==> r.typ == P.Normal)
  }

  // In every state of every run each machine holds only requests of its kind.
  lemma MachinesHoldTheirOwn(xs: seq<Exo>, moves: seq<Move>, conf: Settings, k: nat, i: nat, r: P.Request)
    requires Execution(xs, moves, conf) && k < |xs| && i < |xs[k].sms|
    requires var w := xs[k].sms[i].m.work; r in w.queue || r in w.sent || w.active == Some(r)
    ensures Belongs(conf, xs[k].sms[i], r)
  {
    ExecutionSound(xs, moves, conf, k);
    assert EntrySound(conf, xs[k].sms[i]);
    HeldFits(conf, xs[k].sms[i], r);
  }

  lemma HeldFits(conf: Settings, e: Entry, r: P.Request)
    requires AllJobs(e.m.work, Fits(conf, e.kind, e.name))
    requires r in e.m.work.queue || r in e.m.work.sent || e.m.work.active == Some(r)
    ensures Belongs(conf, e, r)
  {
    assert Fits(conf, e.kind, e.name)(JobOf(r));
  }

  // An activated device has a CIK of forty alphanumeric characters.
  lemma ActivatedHasCik(xs: seq<Exo>, moves: seq<Move>, conf: Settings, k: nat)
    requires Execution(xs, moves, conf) && k < |xs| && (xs[k].phase == Activated || xs[k].nextPhase == Activated)
    ensures CikValid(xs[k].cik)
  {
    ExecutionSound(xs, moves, conf, k);
  }

  // The requests that calls of the user have handed over with success, in order.
  function Taken(xs: seq<Exo>, moves: seq<Move>, k: nat): seq<P.Args>
    requires k < |xs| == |moves| + 1
  {
    if k == 0 then [] else Taken(xs, moves, k - 1) + TakenBy(xs[k - 1], moves[k - 1])
  }

  function TakenBy(x: Exo, move: Move): seq<P.Args> {
    if !move.UserRequest? then []
    else
      var procedure := if move.write then DpWrite else DpRead;
      if Request(x, procedure, move.alias, move.memory).1 == ERR_SUCCESS then [P.Args(procedure, move.alias, x.nextId)]
      else []
  }

  lemma MoveAccepts(x: Exo, move: Move)
    requires ConfSound(x.conf) && QueueSound(x) && Possible(x, move)
    ensures Apply(x, move).accepted == x.accepted + TakenBy(x, move)
  {
    match move
    case Poll(a) => ActivateStepHands(x, a, HandedDown(x));
    case Step(i, env, replies) => DeliverKeepsQueue(BeforeCallbacks(x, i, env), Facts(x, i, env), replies);
    case UserRequest(write, alias, memory) =>
    case UserSubscribe(alias, memory) =>
  }

  lemma RunAccepts(xs: seq<Exo>, moves: seq<Move>, conf: Settings, k: nat)
    requires Execution(xs, moves, conf) && k < |moves|
    ensures xs[k + 1].accepted == xs[k].accepted + TakenBy(xs[k], moves[k])
  {
    ExecutionSound(xs, moves, conf, k);
    assert Advances(xs, moves, k);
    MoveAccepts(xs[k], moves[k]);
  }

  lemma {:induction false} AcceptedIsTaken(xs: seq<Exo>, moves: seq<Move>, conf: Settings, k: nat)
    requires Execution(xs, moves, conf) && k < |xs|
    ensures xs[k].accepted == Taken(xs, moves, k)
  {
    if k > 0 {
      AcceptedIsTaken(xs, moves, conf, k - 1);
      RunAccepts(xs, moves, conf, k - 1);
    }
  }

  lemma EnteredMachine(x: Exo, i: nat)
    requires QueueSound(x) && i < |x.sms|
    ensures Entered(x.sms[i].m.work.history) == if FindSm(x.sms, Main, None) == Some(i) then HandedDown(x) else []
    ensures FindSm(x.sms, Main, None) == None ==> HandedDown(x) == []
    ensures HandedDown(x) + x.requests == x.accepted
  {
  }

  // The user requests that have entered the first main machine, in order, followed by those that
  // still wait, are the ones the user has handed over with success, in order; no other machine
  // has taken a user request; and the queue never exceeds its limit.
  lemma FifoHandoff(xs: seq<Exo>, moves: seq<Move>, conf: Settings, k: nat)
    requires Execution(xs, moves, conf) && k < |xs|
    ensures |xs[k].requests| <= conf.requestLimit
    ensures match FindSm(xs[k].sms, Main, None)
            case Some(i) => Entered(xs[k].sms[i].m.work.history) + xs[k].requests == Taken(xs, moves, k)
            case None => xs[k].requests == Taken(xs, moves, k)
    ensures forall i :: 0 <= i < |xs[k].sms| && FindSm(xs[k].sms, Main, None) != Some(i) ==>
              Entered(xs[k].sms[i].m.work.history) == []
  {
    ExecutionSound(xs, moves, conf, k);
    AcceptedIsTaken(xs, moves, conf, k);
    forall i | 0 <= i < |xs[k].sms| ensures Entered(xs[k].sms[i].m.work.history)
      == if FindSm(xs[k].sms, Main, None) == Some(i) then HandedDown(xs[k]) else []
    {
      EnteredMachine(xs[k], i);
    }
    assert FindSm(xs[k].sms, Main, None) == None ==> HandedDown(xs[k]) == [];
  }

  // No user request enters a machine twice.
  lemma EntersOnce(xs: seq<Exo>, moves: seq<Move>, conf: Settings, k: nat, i: nat, a: nat, b: nat)
    requires Execution(xs, moves, conf) && k < |xs| && i < |xs[k].sms|
    requires a < b < |Entered(xs[k].sms[i].m.work.history)|
    ensures Entered(xs[k].sms[i].m.work.history)[a].tag != Entered(xs[k].sms[i].m.work.history)[b].tag
  {
    ExecutionSound(xs, moves, conf, k);
    var x := xs[k];
    assert Entered(x.sms[i].m.work.history) == HandedDown(x);
    assert HandedDown(x)[a] == x.accepted[a] && HandedDown(x)[b] == x.accepted[b];
  }

  // Nothing leaves the queue for a machine, or its head does, of an activated device that is not
  // asked to activate again.
  ghost predicate HandsAtMost(x: Exo, x': Exo)
    requires |x.requests| <= |x.accepted|
  {
    && |x'.requests| <= |x'.accepted|
    && (HandedDown(x') != HandedDown(x) ==>
          && HandsDown(x, x') && x.nextPhase == Activated && !x.event
          && HandedDown(x') == HandedDown(x) + [x.requests[0]])
  }

  lemma PollHands(x: Exo, a: ActEnv)
    requires ConfSound(x.conf) && QueueSound(x)
    ensures HandsAtMost(x, ActivateStep(x, a))
  {
    ActivateStepHands(x, a, HandedDown(x));
    if x.requests != [] { SplitNext(x.accepted, |x.accepted| - |x.requests|, x.requests); }
  }

  lemma StepHands(x: Exo, i: nat, env: P.Env, replies: seq<Reply>)
    requires i < |x.sms| && |x.requests| <= |x.accepted|
    ensures HandsAtMost(x, MachineStep(x, i, env, replies))
  {
    DeliverKeepsQueue(BeforeCallbacks(x, i, env), Facts(x, i, env), replies);
  }

  lemma MoveHands(x: Exo, move: Move)
    requires ConfSound(x.conf) && QueueSound(x) && Possible(x, move)
    ensures HandsAtMost(x, Apply(x, move))
  {
    match move
    case Poll(a) => PollHands(x, a);
    case Step(i, env, replies) => StepHands(x, i, env, replies);
    case UserRequest(write, alias, memory) => RequestHandsNone(x, if write then DpWrite else DpRead, alias, memory);
    case UserSubscribe(alias, memory) =>
  }

  lemma RequestHandsNone(x: Exo, procedure: Procedure, alias: string, memory: bool)
    requires |x.requests| <= |x.accepted|
    ensures var x' := Request(x, procedure, alias, memory).0;
            |x'.requests| <= |x'.accepted| && HandedDown(x') == HandedDown(x)
  {
  }

  // A move with which a user request leaves the queue for a machine finds the device activated
  // with no re-activation asked for, takes the head, and leaves it last in the queue of the
  // main machine.
  lemma HandoffOnlyActivated(xs: seq<Exo>, moves: seq<Move>, conf: Settings, k: nat)
    requires Execution(xs, moves, conf) && k < |moves|
    ensures |xs[k].requests| <= |xs[k].accepted| && |xs[k + 1].requests| <= |xs[k + 1].accepted|
    ensures HandedDown(xs[k + 1]) != HandedDown(xs[k]) ==>
              && HandsDown(xs[k], xs[k + 1]) && xs[k].nextPhase == Activated && !xs[k].event
              && HandedDown(xs[k + 1]) == HandedDown(xs[k]) + [xs[k].requests[0]]
  {
    ExecutionSound(xs, moves, conf, k);
    assert Advances(xs, moves, k);
    MoveHands(xs[k], moves[k]);
  }

  // ---------------------------------------------------------------- how often it is activated

  // Move k clears the machines for an activation.
  ghost predicate ClearsAt(xs: seq<Exo>, moves: seq<Move>, k: nat)
    requires k < |moves| && k + 1 < |xs|
  {
    moves[k].Poll? && xs[k].nextPhase != SendActivate && xs[k + 1].nextPhase == SendActivate
  }

  lemma {:induction false} PushSubsKeepsTime(x: Exo, k: nat, ps: seq<PushEnv>)
    ensures var x' := PushSubs(x, k, ps); x'.lastActivation == x.lastActivation && x'.nextPhase == x.nextPhase
    decreases |x.subs| - k
  {
    if k < |x.subs| {
      PushFrame(x, P.Args(DpSubscribe, x.subs[k].key, 0), AnswerTo(ps, k));
      PushSubsKeepsTime(PushSub(x, k, AnswerTo(ps, k)), k + 1, ps);
    }
  }

  lemma {:induction false} DeliverKeepsTime(x: Exo, facts: seq<P.Fact>, replies: seq<Reply>)
    ensures var x' := Deliver(x, facts, replies);
            x'.lastActivation == x.lastActivation && (x'.nextPhase == SendActivate ==> x.nextPhase == SendActivate)
    decreases |facts|
  {
    if facts != [] {
      var reply := if replies == [] then Reply(false, [], false) else replies[0];
      var rest := if replies == [] then [] else replies[1..];
      if facts[0].Called? {
        DeliverKeepsTime(Callback(x, facts[0].req.args, facts[0].code, reply), facts[1..], rest);
      } else {
        DeliverKeepsTime(x, facts[1..], replies);
      }
    }
  }

  lemma ActivateStepTime(x: Exo, a: ActEnv)
    ensures var x' := ActivateStep(x, a);
            if x.nextPhase != SendActivate && x'.nextPhase == SendActivate then
              x'.lastActivation == a.now && P.Elapsed(a.now, x.lastActivation) > ACTIVATION_DELAY
            else x'.lastActivation == x.lastActivation
  {
    var x1 := x.(phase := x.nextPhase);
    match x.nextPhase
    case SendGetTimestamp => PushFrame(x1, TimestampJob().args, a.push);
    case SendActivate => PushFrame(x1, ActivateJob().args, a.push);
    case Activated =>
      if !x.event {
        PushSubsKeepsTime(x1, 0, a.subPush);
        var x2 := PushSubs(x1, 0, a.subPush);
        if x2.requests != [] { PushFrame(x2, x2.requests[0], a.push); }
      }
    case _ =>
  }

  // The time of the last activation changes only when the machines are cleared, which takes
  // more than the delay since then.
  lemma MoveKeepsTime(x: Exo, move: Move)
    requires Possible(x, move)
    ensures var x' := Apply(x, move);
            if x.nextPhase != SendActivate && x'.nextPhase == SendActivate then
              && move.Poll? && x'.lastActivation == move.a.now
              && P.Elapsed(move.a.now, x.lastActivation) > ACTIVATION_DELAY
            else x'.lastActivation == x.lastActivation
  {
    match move
    case Poll(a) => ActivateStepTime(x, a);
    case Step(i, env, replies) => DeliverKeepsTime(BeforeCallbacks(x, i, env), Facts(x, i, env), replies);
    case _ =>
  }

  lemma RunKeepsTime(xs: seq<Exo>, moves: seq<Move>, conf: Settings, k: nat)
    requires Execution(xs, moves, conf) && k < |moves|
    ensures if ClearsAt(xs, moves, k) then
              && xs[k + 1].lastActivation == moves[k].a.now
              && P.Elapsed(moves[k].a.now, xs[k].lastActivation) > ACTIVATION_DELAY
            else xs[k + 1].lastActivation == xs[k].lastActivation
  {
    assert Advances(xs, moves, k);
    MoveKeepsTime(xs[k], moves[k]);
  }

  lemma {:induction false} TimeSinceClear(xs: seq<Exo>, moves: seq<Move>, conf: Settings, j: nat, k: nat)
    requires Execution(xs, moves, conf) && j < k < |xs| && ClearsAt(xs, moves, j)
    requires forall n :: j < n < k ==> !ClearsAt(xs, moves, n)
    ensures xs[k].lastActivation == moves[j].a.now
  {
    RunKeepsTime(xs, moves, conf, k - 1);
    if j < k - 1 { TimeSinceClear(xs, moves, conf, j, k - 1); }
  }

  // Two successive activations start more than the delay apart, by the clock the device reads.
  lemma ActivationsAreSpaced(xs: seq<Exo>, moves: seq<Move>, conf: Settings, j: nat, k: nat)
    requires Execution(xs, moves, conf) && j < k < |moves| && ClearsAt(xs, moves, j) && ClearsAt(xs, moves, k)
    requires forall n :: j < n < k ==> !ClearsAt(xs, moves, n)
    ensures P.Elapsed(moves[k].a.now, moves[j].a.now) > ACTIVATION_DELAY
  {
    TimeSinceClear(xs, moves, conf, j, k);
    RunKeepsTime(xs, moves, conf, k);
  }
}
