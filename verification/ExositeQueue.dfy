// The request queue of an exosite object hands every accepted request down exactly once, in
// order, and only while the device is activated.

module ExositeQueue {
  import opened Common
  import opened ExositeModel
  import opened ExositeMachines
  import opened MachineJobs
  import P = ProtocolModel

  // ---------------------------------------------------------------- what entered a machine

  // The user requests a machine has accepted, in order.
  function Entered(h: seq<P.Fact>): seq<P.Args> {
    if h == [] then []
    else
      var f := h[|h| - 1];
      Entered(h[..|h| - 1]) + if f.Accepted? && IsUser(f.req.args) then [f.req.args] else []
  }

  // The first main machine has accepted the user requests in the log, and no other machine any.
  ghost predicate EnteredIs(sms: seq<Entry>, log: seq<P.Args>) {
    && (FindSm(sms, Main, None) == None ==> log == [])
    && forall i :: 0 <= i < |sms| ==>
         Entered(sms[i].m.work.history) == if FindSm(sms, Main, None) == Some(i) then log else []
  }

  lemma EnteredAppend(h: seq<P.Fact>, f: P.Fact)
    ensures Entered(h + [f]) == Entered(h) + if f.Accepted? && IsUser(f.req.args) then [f.req.args] else []
  {
    assert (h + [f])[..|h|] == h;
  }

  // Facts that accept nothing change nothing.
  lemma {:induction false} EnteredGrown(h: seq<P.Fact>, h': seq<P.Fact>)
    requires |h| <= |h'| && h'[..|h|] == h && forall n :: |h| <= n < |h'| ==> !h'[n].Accepted?
    ensures Entered(h') == Entered(h)
    decreases |h'|
  {
    if |h| < |h'| {
      var rest := h'[..|h'| - 1];
      assert rest[..|h|] == h;
      EnteredGrown(h, rest);
    } else {
      assert h' == h;
    }
  }

  lemma GrownEntered(conf: Settings, sms: seq<Entry>, sms': seq<Entry>, kind: Kind, name: Option<string>,
                     log: seq<P.Args>)
    requires EnteredIs(sms, log) && Grown(conf, sms, sms', kind, name)
    ensures EnteredIs(sms', log)
  {
    if sms' != sms {
      var e := NewEntry(conf, kind, name);
      assert Entered(e.m.work.history) == [];
      FindMainIn(sms, e);
    }
  }

  lemma FindMainIn(sms: seq<Entry>, e: Entry)
    ensures var i := FindSm(sms, Main, None);
            FindSm(sms + [e], Main, None) == if i.Some? then i else if e.kind == Main then Some(|sms|) else None
  {
    if FindSm(sms, Main, None) == None && e.kind == Main {
      FindAdded(sms, e, Main, None);
    } else {
      FindKept(sms, e);
    }
  }

  lemma {:induction false} FindKept(sms: seq<Entry>, e: Entry)
    requires FindSm(sms, Main, None).Some? || e.kind != Main
    ensures FindSm(sms + [e], Main, None) == FindSm(sms, Main, None)
  {
    if sms == [] {
      assert [e][1..] == [];
    } else {
      assert (sms + [e])[1..] == sms[1..] + [e];
      if sms[0].kind != Main { FindKept(sms[1..], e); }
    }
  }

  lemma PutEntered(sms: seq<Entry>, i: nat, r: P.Request, log: seq<P.Args>)
    requires EnteredIs(sms, log) && i < |sms| && |sms[i].m.work.queue| < sms[i].m.cfg.queueSize
    requires IsUser(r.args) ==> FindSm(sms, Main, None) == Some(i)
    ensures EnteredIs(Put(sms, i, r), if IsUser(r.args) then log + [r.args] else log)
  {
    FindSame(sms, Put(sms, i, r), Main, None);
    EnteredAppend(sms[i].m.work.history, P.Accepted(r));
  }

  // A push enters its request into the first main machine if it is a user request and the push
  // succeeds, and no user request into any machine otherwise.
  lemma PushEnters(x: Exo, args: P.Args, p: PushEnv, log: seq<P.Args>)
    requires ConfSound(x.conf) && EnteredIs(x.sms, log)
    ensures var (x', error) := Push(x, args, p);
            EnteredIs(x'.sms, if error == ERR_SUCCESS && IsUser(args) then log + [args] else log)
  {
    var base, i, r := PushShape(x, args, p);
    var kind, name := KindFor(x.conf, args.procedure), NameFor(x.conf, args);
    var (x', error) := Push(x, args, p);
    GrownEntered(x.conf, x.sms, base, kind, name, log);
    if error == ERR_SUCCESS { PutOwn(x, args, base, i, r, log); }
  }

  lemma PutOwn(x: Exo, args: P.Args, base: seq<Entry>, i: nat, r: P.Request, log: seq<P.Args>)
    requires EnteredIs(base, log) && i < |base| && |base[i].m.work.queue| < base[i].m.cfg.queueSize && r.args == args
    requires FindSm(base, KindFor(x.conf, args.procedure), NameFor(x.conf, args)) == Some(i)
    ensures EnteredIs(Put(base, i, r), if IsUser(args) then log + [args] else log)
  {
    PutEntered(base, i, r, log);
  }

  lemma PushSubEnters(x: Exo, k: nat, p: PushEnv, log: seq<P.Args>)
    requires ConfSound(x.conf) && EnteredIs(x.sms, log) && k < |x.subs|
    ensures EnteredIs(PushSub(x, k, p).sms, log) && PushSub(x, k, p).conf == x.conf
  {
    var args := P.Args(DpSubscribe, x.subs[k].key, 0);
    PushFrame(x, args, p);
    PushEnters(x, args, p, log);
  }

  lemma {:induction false} PushSubsEnters(x: Exo, k: nat, ps: seq<PushEnv>, log: seq<P.Args>)
    requires ConfSound(x.conf) && EnteredIs(x.sms, log)
    ensures EnteredIs(PushSubs(x, k, ps).sms, log)
    decreases |x.subs| - k
  {
    if k < |x.subs| {
      PushSubEnters(x, k, AnswerTo(ps, k), log);
      PushSubsEnters(PushSub(x, k, AnswerTo(ps, k)), k + 1, ps, log);
    }
  }

  // A step of a machine enters nothing.
  lemma StepEnters(x: Exo, i: nat, env: P.Env, log: seq<P.Args>)
    requires i < |x.sms| && EnteredIs(x.sms, log)
    ensures EnteredIs(Stepped(x, i, env), log)
  {
    FindSame(x.sms, Stepped(x, i, env), Main, None);
    TaskWithin(x.sms[i].m, i, x.g, env, AnyJob());
    EnteredGrown(x.sms[i].m.work.history, Stepped(x, i, env)[i].m.work.history);
  }

  function AnyJob(): Job -> bool { (j: Job) => true }

  lemma ClearEnters(sms: seq<Entry>, log: seq<P.Args>)
    requires EnteredIs(sms, log)
    ensures EnteredIs(ClearAll(sms), log)
  {
    ClearAllIs(sms);
    FindSame(sms, ClearAll(sms), Main, None);
  }

  // ---------------------------------------------------------------- the queue

  // The accepted requests that no longer wait.
  function HandedDown(x: Exo): seq<P.Args>
    requires |x.requests| <= |x.accepted|
  {
    x.accepted[..|x.accepted| - |x.requests|]
  }

  ghost predicate Increasing(log: seq<P.Args>, bound: nat) {
    && (forall i :: 0 <= i < |log| ==> log[i].tag < bound)
    && (forall i, j :: 0 <= i < j < |log| ==> log[i].tag < log[j].tag)
  }

  // What waits is the end of what was accepted, and what came before it has entered the main
  // machine; no two accepted requests are the same; and the queue keeps its bound.
  ghost predicate QueueSound(x: Exo) {
    && |x.requests| <= |x.accepted| && x.accepted == HandedDown(x) + x.requests
    && EnteredIs(x.sms, HandedDown(x))
    && Increasing(x.accepted, x.nextId)
    && |x.requests| <= x.conf.requestLimit
    && UserRequests(x.requests)
  }

  // Nothing the queue consists of changes, except that more addresses may be in use.
  ghost predicate SameQueue(x: Exo, x': Exo) {
    && x'.conf == x.conf && x'.requests == x.requests && x'.accepted == x.accepted && x'.nextId >= x.nextId
  }

  lemma SameQueueSound(x: Exo, x': Exo)
    requires QueueSound(x) && SameQueue(x, x') && EnteredIs(x'.sms, HandedDown(x))
    ensures QueueSound(x')
  {
  }

  lemma PushKeepsQueue(x: Exo, args: P.Args, p: PushEnv)
    ensures SameQueue(x, Push(x, args, p).0)
  {
  }

  lemma {:induction false} PushSubsKeepsQueue(x: Exo, k: nat, ps: seq<PushEnv>)
    ensures SameQueue(x, PushSubs(x, k, ps))
    decreases |x.subs| - k
  {
    if k < |x.subs| {
      PushKeepsQueue(x, P.Args(DpSubscribe, x.subs[k].key, 0), AnswerTo(ps, k));
      PushSubsKeepsQueue(PushSub(x, k, AnswerTo(ps, k)), k + 1, ps);
    }
  }

  lemma {:induction false} DeliverKeepsQueue(x: Exo, facts: seq<P.Fact>, replies: seq<Reply>)
    ensures SameQueue(x, Deliver(x, facts, replies)) && Deliver(x, facts, replies).sms == x.sms
    decreases |facts|
  {
    if facts != [] {
      var reply := if replies == [] then Reply(false, [], false) else replies[0];
      var rest := if replies == [] then [] else replies[1..];
      if facts[0].Called? {
        DeliverKeepsQueue(Callback(x, facts[0].req.args, facts[0].code, reply), facts[1..], rest);
      } else {
        DeliverKeepsQueue(x, facts[1..], replies);
      }
    }
  }

  // The first Main machine holds, last in its queue, a request with these arguments.
  ghost predicate LastInMain(sms: seq<Entry>, args: P.Args) {
    FindSm(sms, Main, None).Some? &&
    var queue := sms[FindSm(sms, Main, None).value].m.work.queue;
    queue != [] && queue[|queue| - 1].args == args && queue[|queue| - 1].typ == P.Normal
  }

  // The head of the queue was handed to the main machine.
  ghost predicate HandsDown(x: Exo, x': Exo) {
    && x.requests != [] && x'.requests == x.requests[1..] && x'.accepted == x.accepted
    && LastInMain(x'.sms, x.requests[0])
  }

  // A step leaves the queue and what has entered the machines alone, or hands its head down.
  ghost predicate KeepsOrHands(x: Exo, x': Exo, log: seq<P.Args>) {
    && x'.conf == x.conf && x'.accepted == x.accepted && x'.nextId >= x.nextId
    && if x'.requests == x.requests then EnteredIs(x'.sms, log)
       else HandsDown(x, x') && EnteredIs(x'.sms, log + [x.requests[0]])
  }

  lemma PushHeadHands(x: Exo, p: PushEnv, log: seq<P.Args>)
    requires ConfSound(x.conf) && UserRequests(x.requests) && EnteredIs(x.sms, log)
    ensures KeepsOrHands(x, PushHead(x, p), log)
  {
    if x.requests != [] {
      var args := x.requests[0];
      PushFrame(x, args, p);
      PushEnters(x, args, p, log);
      PushLands(x, args, p);
    }
  }

  lemma PushLands(x: Exo, args: P.Args, p: PushEnv)
    requires ConfSound(x.conf) && IsUser(args)
    ensures Push(x, args, p).1 == ERR_SUCCESS ==> LastInMain(Push(x, args, p).0.sms, args)
    ensures Push(x, args, p).0.nextId >= x.nextId
  {
    var base, i, r := PushShape(x, args, p);
    if Push(x, args, p).1 == ERR_SUCCESS { FindSame(base, Put(base, i, r), Main, None); }
  }

  lemma ServeHands(x: Exo, a: ActEnv, log: seq<P.Args>)
    requires ConfSound(x.conf) && UserRequests(x.requests) && EnteredIs(x.sms, log)
    ensures KeepsOrHands(x, PushHead(PushSubs(x, 0, a.subPush), a.push), log)
  {
    PushSubsKeepsQueue(x, 0, a.subPush);
    PushSubsEnters(x, 0, a.subPush, log);
    PushHeadHands(PushSubs(x, 0, a.subPush), a.push, log);
  }

  // What a step does to the machines then.
  function OtherSms(x: Exo, a: ActEnv): seq<Entry> {
    match x.nextPhase
    case SendGetTimestamp => Push(x.(phase := SendGetTimestamp), P.Args(UpTimestamp, "", 0), a.push).0.sms
    case SendActivate =>
      if AllEmpty(x.sms) then Push(x.(phase := SendActivate), P.Args(PpActivate, "", 0), a.push).0.sms else x.sms
    case PrepareActivate => if ShouldDelay(x, a.now) then x.sms else ClearAll(x.sms)
    case _ => x.sms
  }

  lemma OtherEnters(x: Exo, a: ActEnv, log: seq<P.Args>)
    requires ConfSound(x.conf) && EnteredIs(x.sms, log)
    ensures EnteredIs(OtherSms(x, a), log)
  {
    match x.nextPhase
    case SendGetTimestamp => PushEnters(x.(phase := SendGetTimestamp), P.Args(UpTimestamp, "", 0), a.push, log);
    case SendActivate => PushEnters(x.(phase := SendActivate), P.Args(PpActivate, "", 0), a.push, log);
    case PrepareActivate => ClearEnters(x.sms, log);
    case _ =>
  }

  lemma OtherStepIs(x: Exo, a: ActEnv)
    requires x.nextPhase == Activated ==> x.event
    ensures ActivateStep(x, a).sms == OtherSms(x, a)
  {
  }

  // In the other states it hands nothing down.
  lemma OtherStepHandsNone(x: Exo, a: ActEnv)
    requires x.nextPhase == Activated ==> x.event
    ensures SameQueue(x, ActivateStep(x, a))
  {
    var x1 := x.(phase := x.nextPhase);
    match x.nextPhase
    case SendGetTimestamp => PushKeepsQueue(x1, P.Args(UpTimestamp, "", 0), a.push);
    case SendActivate => PushKeepsQueue(x1, P.Args(PpActivate, "", 0), a.push);
    case _ =>
  }

  // The activation machine hands the head of the queue to the main machine only if the device
  // is activated and no re-activation is asked for.
  lemma ActivateStepHands(x: Exo, a: ActEnv, log: seq<P.Args>)
    requires ConfSound(x.conf) && UserRequests(x.requests) && EnteredIs(x.sms, log)
    ensures KeepsOrHands(x, ActivateStep(x, a), log)
    ensures ActivateStep(x, a).requests != x.requests ==> x.nextPhase == Activated && !x.event
  {
    if x.nextPhase == Activated && !x.event {
      ServeHands(x.(phase := Activated), a, log);
    } else {
      OtherStepHandsNone(x, a);
      OtherEnters(x, a, log);
      OtherStepIs(x, a);
    }
  }

  lemma RequestKeepsQueue(x: Exo, procedure: Procedure, alias: string, memory: bool)
    requires QueueSound(x) && (procedure == DpRead || procedure == DpWrite)
    ensures QueueSound(Request(x, procedure, alias, memory).0)
  {
    var x' := Request(x, procedure, alias, memory).0;
    if x' != x { assert HandedDown(x') == HandedDown(x); }
  }

  lemma SplitNext(accepted: seq<P.Args>, n: nat, waiting: seq<P.Args>)
    requires waiting != [] && n <= |accepted| && accepted == accepted[..n] + waiting
    ensures n + 1 <= |accepted| && accepted[..n + 1] == accepted[..n] + [waiting[0]]
    ensures accepted == accepted[..n + 1] + waiting[1..]
  {
    assert waiting == [waiting[0]] + waiting[1..];
    assert accepted[n] == waiting[0];
  }

  lemma HandsDownSound(x: Exo, x': Exo)
    requires QueueSound(x) && HandsDown(x, x') && EnteredIs(x'.sms, HandedDown(x) + [x.requests[0]])
    requires x'.conf == x.conf && x'.nextId >= x.nextId
    ensures QueueSound(x')
  {
    SplitNext(x.accepted, |x.accepted| - |x.requests|, x.requests);
  }

  lemma ActivateStepKeepsQueue(x: Exo, a: ActEnv)
    requires ConfSound(x.conf) && QueueSound(x)
    ensures QueueSound(ActivateStep(x, a))
  {
    var x' := ActivateStep(x, a);
    ActivateStepHands(x, a, HandedDown(x));
    if x'.requests == x.requests { SameQueueSound(x, x'); } else { HandsDownSound(x, x'); }
  }

  lemma MoveKeepsQueue(x: Exo, move: Move)
    requires ConfSound(x.conf) && QueueSound(x) && Possible(x, move)
    ensures QueueSound(Apply(x, move))
  {
    match move
    case Poll(a) => ActivateStepKeepsQueue(x, a);
    case Step(i, env, replies) =>
      StepEnters(x, i, env, HandedDown(x));
      DeliverKeepsQueue(BeforeCallbacks(x, i, env), Facts(x, i, env), replies);
      SameQueueSound(x, MachineStep(x, i, env, replies));
    case UserRequest(write, alias, memory) => RequestKeepsQueue(x, if write then DpWrite else DpRead, alias, memory);
    case UserSubscribe(alias, memory) =>
  }
}
