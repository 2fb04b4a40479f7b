// When the activation machine moves from state to state, in every run: what it waits for, and
// what it takes along.

module ExositePhases {
  import opened Common
  import opened HttpPayload
  import opened PatternClasses
  import opened DictionaryModel
  import opened ExositeModel
  import opened ExositeMachines
  import opened ExositeActivation
  import opened ExositeSubscriptions
  import opened ExositeSafety
  import opened ExositeProgress
  import opened MachineJobs
  import P = ProtocolModel

  predicate AllLettersOrDigits(text: string) {
    text == "" || ((text[0] in DIGITS || text[0] in LOWER || text[0] in UPPER) && AllLettersOrDigits(text[1..]))
  }

  // Forty letters or digits
  predicate IsCik(text: string) { |text| == 40 && AllLettersOrDigits(text) }

  lemma {:induction false} LettersAre(text: string)
    ensures AllLettersOrDigits(text) <==> forall i :: 0 <= i < |text| ==> Ctype.IsAlnum(text[i])
  {
    if text != "" {
      DigitsAre(text[0]);
      LowerAre(text[0]);
      UpperAre(text[0]);
      LettersAre(text[1..]);
      assert forall i :: 0 < i < |text| ==> text[i] == text[1..][i - 1];
      assert forall i :: 0 <= i < |text[1..]| ==> text[1..][i] == text[i + 1];
    }
  }

  lemma CikIs(text: string)
    ensures CikValid(text) <==> IsCik(text)
  {
    LettersAre(text);
  }

  // ---------------------------------------------------------------- polls

  // A configured CIK is taken if it has the form of one.
  lemma InitTakesConfigured(xs: seq<Exo>, moves: seq<Move>, conf: Settings, k: nat)
    requires Execution(xs, moves, conf) && k < |moves| && moves[k].Poll? && xs[k].nextPhase == Init
    ensures if IsCik(conf.deviceCik) then xs[k + 1].nextPhase == Activated && xs[k + 1].cik == conf.deviceCik
            else xs[k + 1].nextPhase == Start
  {
    ExecutionSound(xs, moves, conf, k);
    assert Advances(xs, moves, k);
    CikIs(conf.deviceCik);
  }

  // Otherwise a stored one, if there is one with that form; if not, an activation is prepared.
  lemma StartTakesStored(xs: seq<Exo>, moves: seq<Move>, conf: Settings, k: nat)
    requires Execution(xs, moves, conf) && k < |moves| && moves[k].Poll? && xs[k].nextPhase == Start
    ensures var stored := moves[k].a.storedCik;
            if stored.Some? && IsCik(stored.value) then
              xs[k + 1].nextPhase == Activated && xs[k + 1].cik == stored.value
            else xs[k + 1].nextPhase == PrepareActivate
  {
    assert Advances(xs, moves, k);
    if moves[k].a.storedCik.Some? { CikIs(moves[k].a.storedCik.value); }
  }

  // A prepared activation clears all machines as soon as ten seconds have passed since the last
  // one did, and nothing happens before.
  lemma PrepareClearsIff(xs: seq<Exo>, moves: seq<Move>, conf: Settings, k: nat)
    requires Execution(xs, moves, conf) && k < |moves| && moves[k].Poll? && xs[k].nextPhase == PrepareActivate
    ensures var x, x' := xs[k], xs[k + 1];
            if (moves[k].a.now - x.lastActivation) % 0x1_0000_0000 > 10000 then
              && x'.nextPhase == SendActivate && x'.lastActivation == moves[k].a.now && |x'.sms| == |x.sms|
              && forall i :: 0 <= i < |x.sms| ==> x'.sms[i] == x.sms[i].(m := x.sms[i].m.(abort := true))
            else x' == x.(phase := PrepareActivate)
  {
    assert Advances(xs, moves, k);
    ClearAllIs(xs[k].sms);
  }

  ghost predicate SomeAborting(sms: seq<Entry>) { exists i :: 0 <= i < |sms| && sms[i].m.abort }

  lemma AbortingIff(sms: seq<Entry>)
    ensures SomeAborting(sms) <==> !AllEmpty(sms)
  {
    if i :| 0 <= i < |sms| && sms[i].m.abort { assert sms[i] in sms && !P.IsEmpty(sms[i].m); }
    if e :| e in sms && !P.IsEmpty(e.m) {
      var i :| 0 <= i < |sms| && sms[i] == e;
    }
  }

  // The activate request goes down once no machine is aborting any more, if there is room for it
  // and it gets what it takes.
  lemma ActivateIsSentIff(xs: seq<Exo>, moves: seq<Move>, conf: Settings, k: nat)
    requires Execution(xs, moves, conf) && k < |moves| && moves[k].Poll? && xs[k].nextPhase == SendActivate
    ensures var p := moves[k].a.push;
            var sends := !SomeAborting(xs[k].sms) && HasRoom(xs[k], ActivateJob().args, p)
                         && p.build == ERR_SUCCESS && p.memory;
            xs[k + 1].nextPhase == if sends then WaitActivate else SendActivate
  {
    var x1 := xs[k].(phase := SendActivate);
    ExecutionSound(xs, moves, conf, k);
    ExecutionBounded(xs, moves, conf, k);
    assert Advances(xs, moves, k);
    AbortingIff(xs[k].sms);
    PushSucceedsIff(x1, ActivateJob().args, moves[k].a.push);
    PushFrame(x1, ActivateJob().args, moves[k].a.push);
  }

  // So does the request for the time, at once.
  lemma TimestampIsSentIff(xs: seq<Exo>, moves: seq<Move>, conf: Settings, k: nat)
    requires Execution(xs, moves, conf) && k < |moves| && moves[k].Poll? && xs[k].nextPhase == SendGetTimestamp
    ensures var p := moves[k].a.push;
            var sends := HasRoom(xs[k], TimestampJob().args, p) && p.build == ERR_SUCCESS && p.memory;
            xs[k + 1].nextPhase == if sends then WaitTimestamp else SendGetTimestamp
  {
    var x1 := xs[k].(phase := SendGetTimestamp);
    ExecutionSound(xs, moves, conf, k);
    ExecutionBounded(xs, moves, conf, k);
    assert Advances(xs, moves, k);
    PushSucceedsIff(x1, TimestampJob().args, moves[k].a.push);
    PushFrame(x1, TimestampJob().args, moves[k].a.push);
  }

  // A poll while an answer is awaited does nothing.
  lemma WaitingPollsDoNothing(xs: seq<Exo>, moves: seq<Move>, conf: Settings, k: nat)
    requires Execution(xs, moves, conf) && k < |moves| && moves[k].Poll?
    requires xs[k].nextPhase == WaitTimestamp || xs[k].nextPhase == WaitActivate
    ensures xs[k + 1] == xs[k].(phase := xs[k].nextPhase)
  {
    assert Advances(xs, moves, k);
  }

  // ---------------------------------------------------------------- answers

  // The codes of success, of which two also need a payload that could be parsed
  predicate Succeeds(code: int, parsed: bool) {
    code == 204 || code == -101 || ((code == 200 || code == 205) && parsed)
  }

  function ReplyTo(replies: seq<Reply>): Reply { if replies == [] then Reply(false, [], false) else replies[0] }

  lemma {:induction false} CStringIs(text: string)
    ensures CString(text) <= text && |CString(text)| <= |text|
    ensures '\0' !in CString(text) && ('\0' !in text ==> CString(text) == text)
  {
    if text != "" && text[0] != '\0' {
      CStringIs(text[1..]);
      assert text == [text[0]] + text[1..];
    }
  }

  lemma FrontCik(front: string)
    requires |front| <= 40
    ensures if CikValid(front) then CString(front) == front else !CikValid(CString(front))
  {
    CStringIs(front);
    if |CString(front)| == |front| { assert CString(front) == front; }
  }

  // The CIK is what the payload begins with, if that has the form of one.
  lemma PayloadCik(payload: string)
    ensures var text := CString(if |payload| <= 40 then payload else payload[..40]);
            if |payload| >= 40 && IsCik(payload[..40]) then text == payload[..40] && CikValid(text) else !CikValid(text)
  {
    if |payload| == 40 { assert payload[..40] == payload; }
    if |payload| >= 40 { CikIs(payload[..40]); }
    FrontCik(if |payload| <= 40 then payload else payload[..40]);
  }

  lemma ActivateCallback(x: Exo, code: int, reply: Reply)
    ensures var x' := Callback(x, ActivateJob().args, code, reply);
            if Succeeds(code, reply.parsed) && |reply.payload| >= 40 && IsCik(reply.payload[..40]) then
              x'.nextPhase == Activated && x'.cik == reply.payload[..40] && !x'.event
            else x'.nextPhase == PrepareActivate
  {
    PayloadCik(reply.payload);
  }

  // The answer to the activate request: with success and forty letters or digits at the front of
  // the payload the device is activated with them as its CIK; otherwise it tries again.
  lemma ActivateIsAnswered(xs: seq<Exo>, moves: seq<Move>, conf: Settings, k: nat)
    requires Execution(xs, moves, conf) && k < |moves| && moves[k].Step? && moves[k].i < |xs[k].sms|
    requires xs[k].nextPhase == WaitActivate
    ensures var facts, reply := Facts(xs[k], moves[k].i, moves[k].env), ReplyTo(moves[k].replies);
            if facts == [] then xs[k + 1].nextPhase == WaitActivate
            else
              && facts[0].Called? && facts[0].req.args.procedure == PpActivate
              && if Succeeds(facts[0].code, reply.parsed) && |reply.payload| >= 40 && IsCik(reply.payload[..40]) then
                   xs[k + 1].nextPhase == Activated && xs[k + 1].cik == reply.payload[..40] && !xs[k + 1].event
                 else xs[k + 1].nextPhase == PrepareActivate
  {
    ExecutionSound(xs, moves, conf, k);
    assert Advances(xs, moves, k);
    var code := Answered(xs[k], moves[k].i, moves[k].env, moves[k].replies, Main, ActivateJob());
    ActivateCallback(BeforeCallbacks(xs[k], moves[k].i, moves[k].env), code, ReplyTo(moves[k].replies));
  }

  // The answer to the request for the time: with success, and a time that can be converted, the
  // device goes on; otherwise it asks again.
  lemma TimestampIsAnswered(xs: seq<Exo>, moves: seq<Move>, conf: Settings, k: nat)
    requires Execution(xs, moves, conf) && k < |moves| && moves[k].Step? && moves[k].i < |xs[k].sms|
    requires xs[k].nextPhase == WaitTimestamp
    ensures var facts, reply := Facts(xs[k], moves[k].i, moves[k].env), ReplyTo(moves[k].replies);
            if facts == [] then xs[k + 1].nextPhase == WaitTimestamp
            else
              && facts[0].Called? && facts[0].req.args.procedure == UpTimestamp
              && xs[k + 1].nextPhase == if Succeeds(facts[0].code, reply.parsed) && reply.converted then Init
                                        else SendGetTimestamp
  {
    ExecutionSound(xs, moves, conf, k);
    assert Advances(xs, moves, k);
    var code := Answered(xs[k], moves[k].i, moves[k].env, moves[k].replies, TimeSync, TimestampJob());
    TimestampCallback(BeforeCallbacks(xs[k], moves[k].i, moves[k].env), code, ReplyTo(moves[k].replies));
  }

  lemma TimestampCallback(x: Exo, code: int, reply: Reply)
    ensures Callback(x, TimestampJob().args, code, reply).nextPhase ==
            if Succeeds(code, reply.parsed) && reply.converted then Init else SendGetTimestamp
  {
  }

  // What a step of a machine does while only that job is under way.
  lemma Answered(x: Exo, i: nat, env: P.Env, replies: seq<Reply>, kind: Kind, job: Job) returns (code: int)
    requires i < |x.sms| && job.typ == P.Normal && OnlyIn(x.sms, kind, job)
    ensures var facts, x' := Facts(x, i, env), MachineStep(x, i, env, replies);
            if facts == [] then x' == BeforeCallbacks(x, i, env)
            else
              && facts[0].Called? && facts[0].req.args == job.args && facts[0].code == code
              && x' == Callback(BeforeCallbacks(x, i, env), job.args, code, ReplyTo(replies))
  {
    var n := FindSm(x.sms, kind, None).value;
    StepSolo(x, i, env, if i == n then Some(job) else None);
    var x0, facts := BeforeCallbacks(x, i, env), Facts(x, i, env);
    assert MachineStep(x, i, env, replies) == Deliver(x0, facts, replies);
    code := if facts != [] then facts[0].code else 0;
    if facts != [] {
      assert facts[1..] == [];
      assert Deliver(x0, facts, replies) == Callback(x0, job.args, code, ReplyTo(replies));
    }
  }

  // The answer to a subscription: without success, or over HTTP, its item is to be sent again;
  // otherwise it is acknowledged. No other item changes.
  lemma SubscriptionIsAnswered(x: Exo, alias: string, code: int, reply: Reply, k: nat)
    requires k < |x.subs|
    ensures var x', s := Callback(x, SubscribeArgs(alias), code, reply), x.subs[k];
            && |x'.subs| == |x.subs| && x'.sms == x.sms && x'.nextPhase == x.nextPhase
            && x'.subs[k] == if s.key != alias then s
                             else if Succeeds(code, reply.parsed) && !x.conf.http
                             then Pair(alias, SubscribeItem(s.value.sent, true))
                             else Pair(alias, SubscribeItem(false, false))
  {
  }

  // ---------------------------------------------------------------- several callbacks

  function CallCount(facts: seq<P.Fact>): nat {
    if facts == [] then 0 else (if facts[0].Called? then 1 else 0) + CallCount(facts[1..])
  }

  lemma DeliverOne(x: Exo, f: P.Fact, reply: Reply)
    requires f.Called?
    ensures Deliver(x, [f], [reply]) == Callback(x, f.req.args, f.code, reply)
  {
    assert [f][1..] == [];
  }

  // The callbacks of a step run in order, each with its own reply.
  lemma {:induction false} DeliverJoins(x: Exo, a: seq<P.Fact>, b: seq<P.Fact>, ra: seq<Reply>, rb: seq<Reply>)
    requires |ra| == CallCount(a)
    ensures Deliver(x, a + b, ra + rb) == Deliver(Deliver(x, a, ra), b, rb)
    decreases |a|
  {
    if a == [] {
      assert a + b == b && ra + rb == rb;
    } else {
      assert (a + b)[0] == a[0] && (a + b)[1..] == a[1..] + b;
      if a[0].Called? {
        assert (ra + rb)[0] == ra[0] && (ra + rb)[1..] == ra[1..] + rb;
        DeliverJoins(Callback(x, a[0].req.args, a[0].code, ra[0]), a[1..], b, ra[1..], rb);
      } else {
        DeliverJoins(x, a[1..], b, ra, rb);
      }
    }
  }

  // ---------------------------------------------------------------- calls of the user

  // A read or write is taken exactly if there is memory and the queue is not full.
  lemma RequestIsTakenIff(xs: seq<Exo>, moves: seq<Move>, conf: Settings, k: nat)
    requires Execution(xs, moves, conf) && k < |moves| && moves[k].UserRequest?
    ensures TakenBy(xs[k], moves[k]) != [] <==> moves[k].memory && |xs[k].requests| < conf.requestLimit
    ensures xs[k + 1].requests == xs[k].requests + TakenBy(xs[k], moves[k])
    ensures forall a :: a in TakenBy(xs[k], moves[k]) ==>
              a.alias == moves[k].alias && a.procedure == if moves[k].write then DpWrite else DpRead
  {
    ExecutionSound(xs, moves, conf, k);
    assert Advances(xs, moves, k);
  }

  // A subscription is taken exactly if there is memory and none with its alias; it is neither
  // sent nor acknowledged then, and the others stay as they are.
  lemma SubscriptionIsTakenIff(xs: seq<Exo>, moves: seq<Move>, conf: Settings, k: nat, s: Subscription)
    requires Execution(xs, moves, conf) && k < |moves| && moves[k].UserSubscribe?
    ensures var taken := moves[k].memory && !HasKey(xs[k].subs, moves[k].alias);
            s in xs[k + 1].subs <==>
              s in xs[k].subs || (taken && s.key == moves[k].alias && !s.value.sent && !s.value.acknowledged)
  {
    assert Advances(xs, moves, k);
    InsertedMembers(xs[k].subs, Pair(moves[k].alias, SubscribeItem(false, false)), s);
  }
}
