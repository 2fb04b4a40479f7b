// A refused CIK leads to a re-activation, in every run, and nothing else does.

module ExositeReactivation {
  import opened Common
  import opened HttpPayload
  import opened ExositeModel
  import opened DictionaryModel
  import opened ExositeMachines
  import opened ExositeActivation
  import opened ExositeSubscriptions
  import opened ExositeQueue
  import opened ExositeSafety
  import opened MachineJobs
  import P = ProtocolModel

  // ---------------------------------------------------------------- a refused CIK

  // HTTP's 401, or the client's own code for it
  predicate Refuses(code: int) { code == 401 || code == -104 }

  ghost predicate SomeRefused(facts: seq<P.Fact>) {
    exists i :: 0 <= i < |facts| && facts[i].Called? && Refuses(facts[i].code)
  }

  lemma RefusedIff(code: int, parsed: bool)
    ensures StatusOf(code, parsed) == ERR_CIK_NOT_VALID <==> Refuses(code)
  {
  }

  // The callback of a read or write asks for a re-activation if and only if its code says that
  // the CIK is not valid, and changes nothing else.
  lemma CallbackAsksIff(x: Exo, args: P.Args, code: int, reply: Reply)
    requires args.procedure == DpRead || args.procedure == DpWrite
    ensures Callback(x, args, code, reply) == x.(event := x.event || Refuses(code))
  {
    RefusedIff(code, reply.parsed);
  }

  lemma SomeRefusedCons(facts: seq<P.Fact>)
    requires facts != []
    ensures SomeRefused(facts) <==> (facts[0].Called? && Refuses(facts[0].code)) || SomeRefused(facts[1..])
  {
    var rest := facts[1..];
    if i :| 0 <= i < |facts| && facts[i].Called? && Refuses(facts[i].code) {
      if i > 0 { assert rest[i - 1] == facts[i]; }
    }
    if i :| 0 <= i < |rest| && rest[i].Called? && Refuses(rest[i].code) { assert facts[i + 1] == rest[i]; }
  }

  // The callbacks of an activated device ask for it if and only if one of them was refused.
  lemma {:induction false} DeliverAsksIff(x: Exo, facts: seq<P.Fact>, replies: seq<Reply>)
    requires Calls(facts, Traffic())
    ensures Deliver(x, facts, replies).event <==> x.event || SomeRefused(facts)
    decreases |facts|
  {
    if facts != [] {
      var reply := if replies == [] then Reply(false, [], false) else replies[0];
      var rest := if replies == [] then [] else replies[1..];
      SomeRefusedCons(facts);
      assert forall k :: 0 <= k < |facts[1..]| ==> facts[1..][k] == facts[k + 1];
      if facts[0].Called? {
        RefusedIff(facts[0].code, reply.parsed);
        DeliverAsksIff(Callback(x, facts[0].req.args, facts[0].code, reply), facts[1..], rest);
      } else {
        DeliverAsksIff(x, facts[1..], replies);
      }
    }
  }

  lemma {:induction false} DeliverAsksOnly(x: Exo, facts: seq<P.Fact>, replies: seq<Reply>)
    ensures Deliver(x, facts, replies).event ==> x.event || SomeRefused(facts)
    decreases |facts|
  {
    if facts != [] {
      var reply := if replies == [] then Reply(false, [], false) else replies[0];
      var rest := if replies == [] then [] else replies[1..];
      SomeRefusedCons(facts);
      if facts[0].Called? {
        RefusedIff(facts[0].code, reply.parsed);
        DeliverAsksOnly(Callback(x, facts[0].req.args, facts[0].code, reply), facts[1..], rest);
      } else {
        DeliverAsksOnly(x, facts[1..], replies);
      }
    }
  }

  // Move k runs a callback with a refused CIK.
  ghost predicate RefusedAt(xs: seq<Exo>, moves: seq<Move>, k: nat)
    requires k < |moves| && k < |xs|
  {
    moves[k].Step? && moves[k].i < |xs[k].sms| && SomeRefused(Facts(xs[k], moves[k].i, moves[k].env))
  }

  // What a move that is not a poll of activate_sm does to an activated device.
  lemma ActivatedMove(x: Exo, move: Move)
    requires Sound(x) && Possible(x, move) && !move.Poll? && x.nextPhase == Activated
    ensures var x' := Apply(x, move);
            && x'.nextPhase == Activated
            && (x'.event <==> x.event || (move.Step? && SomeRefused(Facts(x, move.i, move.env))))
  {
    match move
    case Step(i, env, replies) =>
      StepCalls(x, i, env, Traffic());
      StepTraffic(x, i, env, replies);
      DeliverAsksIff(BeforeCallbacks(x, i, env), Facts(x, i, env), replies);
    case UserRequest(write, alias, memory) =>
    case UserSubscribe(alias, memory) =>
  }

  // With a re-activation asked for, the next poll of activate_sm of an activated device starts
  // one. It takes the request for it back and hands nothing down.
  lemma AskedThenPrepares(x: Exo, a: ActEnv)
    requires x.nextPhase == Activated && x.event
    ensures ActivateStep(x, a) == x.(phase := Activated, event := false, nextPhase := PrepareActivate)
  {
  }

  lemma EventReactivates(xs: seq<Exo>, moves: seq<Move>, conf: Settings, k: nat)
    requires Execution(xs, moves, conf) && k < |moves| && moves[k].Poll?
    requires xs[k].nextPhase == Activated && xs[k].event
    ensures xs[k + 1] == xs[k].(phase := Activated, event := false, nextPhase := PrepareActivate)
  {
    assert Advances(xs, moves, k);
    AskedThenPrepares(xs[k], moves[k].a);
  }

  lemma RunActivatedMove(xs: seq<Exo>, moves: seq<Move>, conf: Settings, k: nat)
    requires Execution(xs, moves, conf) && k < |moves| && !moves[k].Poll? && xs[k].nextPhase == Activated
    ensures xs[k + 1].nextPhase == Activated
    ensures xs[k + 1].event <==> xs[k].event || RefusedAt(xs, moves, k)
  {
    ExecutionSound(xs, moves, conf, k);
    assert Advances(xs, moves, k);
    ActivatedMove(xs[k], moves[k]);
  }

  lemma RefusedAsks(xs: seq<Exo>, moves: seq<Move>, conf: Settings, k: nat)
    requires Execution(xs, moves, conf) && k < |moves| && xs[k].nextPhase == Activated && RefusedAt(xs, moves, k)
    ensures xs[k + 1].nextPhase == Activated && xs[k + 1].event
  {
    RunActivatedMove(xs, moves, conf, k);
  }

  lemma {:induction false} EventStays(xs: seq<Exo>, moves: seq<Move>, conf: Settings, k: nat, j: nat)
    requires Execution(xs, moves, conf) && k < j <= |moves| && xs[k + 1].nextPhase == Activated && xs[k + 1].event
    requires forall n :: k < n < j ==> !moves[n].Poll?
    ensures xs[j].nextPhase == Activated && xs[j].event
    decreases j
  {
    if k + 1 < j {
      EventStays(xs, moves, conf, k, j - 1);
      RunActivatedMove(xs, moves, conf, j - 1);
    }
  }

  // In every run: when a callback of an activated device has been refused, the next poll of
  // activate_sm starts a re-activation, whatever happens in between.
  lemma RefusedThenReactivates(xs: seq<Exo>, moves: seq<Move>, conf: Settings, k: nat, j: nat)
    requires Execution(xs, moves, conf) && k < j < |moves| && xs[k].nextPhase == Activated && RefusedAt(xs, moves, k)
    requires moves[j].Poll? && forall n :: k < n < j ==> !moves[n].Poll?
    ensures xs[j + 1].nextPhase == PrepareActivate && !xs[j + 1].event
  {
    RefusedAsks(xs, moves, conf, k);
    EventStays(xs, moves, conf, k, j);
    EventReactivates(xs, moves, conf, j);
  }

  lemma PollAsksNothing(x: Exo, a: ActEnv)
    ensures ActivateStep(x, a).event ==> x.event
    ensures x.nextPhase == Activated && !x.event ==> ActivateStep(x, a).nextPhase == Activated
  {
    var x1 := x.(phase := x.nextPhase);
    match x.nextPhase
    case SendGetTimestamp => PushFrame(x1, TimestampJob().args, a.push);
    case SendActivate => PushFrame(x1, ActivateJob().args, a.push);
    case Activated =>
      if !x.event {
        PushSubsKeepsEvent(x1, 0, a.subPush);
        var x2 := PushSubs(x1, 0, a.subPush);
        if x2.requests != [] { PushFrame(x2, x2.requests[0], a.push); }
      }
    case _ =>
  }

  lemma {:induction false} PushSubsKeepsEvent(x: Exo, k: nat, ps: seq<PushEnv>)
    ensures var x' := PushSubs(x, k, ps); x'.event == x.event && x'.nextPhase == x.nextPhase
    decreases |x.subs| - k
  {
    if k < |x.subs| {
      PushFrame(x, P.Args(DpSubscribe, x.subs[k].key, 0), AnswerTo(ps, k));
      PushSubsKeepsEvent(PushSub(x, k, AnswerTo(ps, k)), k + 1, ps);
    }
  }

  // Nothing else asks for a re-activation, and an activated device stays so unless it is asked.
  lemma OnlyRefusalsAsk(xs: seq<Exo>, moves: seq<Move>, conf: Settings, k: nat)
    requires Execution(xs, moves, conf) && k < |moves|
    ensures xs[k + 1].event && !xs[k].event ==> RefusedAt(xs, moves, k)
    ensures xs[k].nextPhase == Activated && xs[k + 1].nextPhase != Activated ==> moves[k].Poll? && xs[k].event
  {
    ExecutionSound(xs, moves, conf, k);
    assert Advances(xs, moves, k);
    match moves[k]
    case Poll(a) => PollAsksNothing(xs[k], a);
    case Step(i, env, replies) =>
      DeliverAsksOnly(BeforeCallbacks(xs[k], i, env), Facts(xs[k], i, env), replies);
      if xs[k].nextPhase == Activated { ActivatedMove(xs[k], moves[k]); }
    case UserRequest(write, alias, memory) =>
    case UserSubscribe(alias, memory) =>
  }
}
