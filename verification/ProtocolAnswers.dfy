// Which callbacks a visit to the transmit state runs, and with which codes: every callback has a
// reason, and a response reaches the request it belongs to.

module ProtocolAnswers {
  import opened Common
  import opened ProtocolModel
  import opened ProtocolSafety
  import opened ProtocolLoss
  import opened ProtocolFailures
  import opened ConnectLock

  // ---------------------------------------------------------------- what is on the wire

  // The request that is active, or becomes so in this visit
  function Taken(m: Machine, env: Env): Option<Request> {
    if m.work.active.Some? then m.work.active
    else if Sends(m) then Some(m.work.queue[0].(start := env.now))
    else None
  }

  // The requests that wait for a response once this visit has sent, the last one first
  function Wire(m: Machine, env: Env): seq<Request> {
    (if env.send == ERR_SUCCESS && Taken(m, env).Some? then [Taken(m, env).value] else []) + m.work.sent
  }

  // The first request on a list with an id
  ghost predicate FirstWith(rs: seq<Request>, id: int, r: Request) {
    exists k :: 0 <= k < |rs| && rs[k] == r && r.messageId == id && forall j :: 0 <= j < k ==> rs[j].messageId != id
  }

  lemma {:induction false} PairIsFirst(rs: seq<Request>, id: int)
    ensures match Pair(rs, id)
            case Some(r) => FirstWith(rs, id, r)
            case None => forall r :: r in rs ==> r.messageId != id
  {
    if rs != [] && rs[0].messageId != id {
      PairIsFirst(rs[1..], id);
      if Pair(rs[1..], id).Some? {
        var r := Pair(rs[1..], id).value;
        var k :| 0 <= k < |rs[1..]| && rs[1..][k] == r && forall j :: 0 <= j < k ==> rs[1..][j].messageId != id;
        assert rs[k + 1] == r;
        forall j | 0 <= j < k + 1 ensures rs[j].messageId != id {
          if j > 0 { assert rs[1..][j - 1] == rs[j]; }
        }
      }
    }
  }

  lemma SentIsWire(m: Machine, env: Env)
    ensures SendRequest(NewTransmit(m.work, m.cfg, m.abort, env), m.cfg, env).0.sent == Wire(m, env)
  {
    if env.send != ERR_SUCCESS || Taken(m, env) == None { assert Wire(m, env) == m.work.sent; }
  }

  // What is paired in a visit: the first request on the wire with the id of what was received.
  lemma PairedIs(m: Machine, me: nat, g: Shared, env: Env)
    requires LinkSound(m) && m.state == Transmitting
    ensures var paired := Communicate(m, me, g, env).1;
            if Talks(m, me, g, env) && (env.recv == ERR_SUCCESS || env.recv == ERR_OVERFLOW) then
              match paired
              case Some(r) => FirstWith(Wire(m, env), env.id, r)
              case None => forall r :: r in Wire(m, env) ==> r.messageId != env.id
            else paired == None
  {
    TalksIff(m, me, g, env);
    SentIsWire(m, env);
    PairIsFirst(Wire(m, env), env.id);
  }

  // ---------------------------------------------------------------- a response arrives

  // A response goes to the first request on the wire with its id, with its code, and before any
  // other callback of the visit.
  lemma ResponseIsPassedOn(m: Machine, me: nat, g: Shared, env: Env, r: Request)
    requires LinkSound(m) && Talks(m, me, g, env) && env.recv == ERR_SUCCESS && FirstWith(Wire(m, env), env.id, r)
    ensures var h, h' := m.work.history, Task(m, me, g, env).0.work.history;
            && |h| < |h'| && h'[..|h|] == h
            && h'[|h|].Called? && h'[|h|].req == r && h'[|h|].code == env.code
            && (m.cfg.synch || r.typ != SubscribeAsynch || m.abort || !env.status ==> h'[|h|].done)
  {
    PairedIs(m, me, g, env);
    FirstIsOne(Wire(m, env), env.id, r, Communicate(m, me, g, env).1);
    CommunicateTells(m, me, g, env);
    StatusIsTaken(m, me, g, env);
    var t := BeforeTimeout(m, me, g, env);
    GrownAfter(t, env);
    var told := AbortStep(TimeoutStep(t, env).0).0.work.history;
    assert Task(m, me, g, env).0.work.history == told;
    var h := m.work.history;
    assert |h| < |t.work.history| && t.work.history[..|h|] == h;
    assert told[..|t.work.history|][..|h|] == h;
    assert told[|h|] == told[..|t.work.history|][|h|];
  }

  lemma FirstIsOne(rs: seq<Request>, id: int, r: Request, found: Option<Request>)
    requires FirstWith(rs, id, r)
    requires match found
             case Some(q) => FirstWith(rs, id, q)
             case None => forall q :: q in rs ==> q.messageId != id
    ensures found == Some(r)
  {
  }

  // The status that decides about open subscriptions is that of the last response.
  lemma StatusIsTaken(m: Machine, me: nat, g: Shared, env: Env)
    requires LinkSound(m) && m.state == Transmitting
    ensures var m1 := Communicate(m, me, g, env).0;
            && m1.status == (if Talks(m, me, g, env) && env.recv == ERR_SUCCESS then env.status else m.status)
            && m1.abort == m.abort && m1.cfg == m.cfg
  {
    TalksIff(m, me, g, env);
  }

  lemma GrownByTimeout(t: Machine, env: Env)
    ensures t.work.history <= TimeoutStep(t, env).0.work.history
  {
  }

  lemma GrownByAbort(a: Machine)
    ensures a.work.history <= AbortStep(a).0.work.history
  {
  }

  lemma GrownAfter(t: Machine, env: Env)
    ensures var h, h' := t.work.history, AbortStep(TimeoutStep(t, env).0).0.work.history;
            |h| <= |h'| && h'[..|h|] == h
  {
    GrownByTimeout(t, env);
    GrownByAbort(TimeoutStep(t, env).0);
  }

  // ---------------------------------------------------------------- every callback has a reason

  // A response with that code for a request on the wire, a request that is late, or an abort
  ghost predicate Reason(f: Fact, m: Machine, me: nat, g: Shared, env: Env)
    requires f.Called?
  {
    || (Talks(m, me, g, env) && f.req in Wire(m, env) && f.req.messageId == env.id
        && ((env.recv == ERR_SUCCESS && f.code == env.code) || (env.recv == ERR_OVERFLOW && f.code == -14)))
    || (f.code == -13 && (env.now - f.req.start) % 0x1_0000_0000 > m.cfg.transmissionTimeout)
    || (f.code == -105 && m.abort)
  }

  // The history has grown by callbacks that have a reason, and by other facts.
  ghost predicate Reasons(w: Work, m: Machine, me: nat, g: Shared, env: Env) {
    var h := m.work.history;
    && |h| <= |w.history| && w.history[..|h|] == h
    && forall i :: |h| <= i < |w.history| && w.history[i].Called? ==> Reason(w.history[i], m, me, g, env)
  }

  lemma CompleteIfReasons(t: Machine, r: Option<Request>, code: int, m: Machine, me: nat, g: Shared, env: Env)
    requires Reasons(t.work, m, me, g, env)
    requires r.Some? ==> Reason(Called(r.value, code, !KeepsOpen(t, r.value)), m, me, g, env)
    ensures Reasons(CompleteIf(t, r, code).work, m, me, g, env)
  {
  }

  lemma TimeoutStepReasons(t: Machine, m: Machine, me: nat, g: Shared, env: Env)
    requires Reasons(t.work, m, me, g, env) && t.cfg == m.cfg
    ensures Reasons(TimeoutStep(t, env).0.work, m, me, g, env)
  {
    TimedOutIsSent(t.work.sent, t.cfg, env);
    var (w, late) := TakeTimedOut(t.work, t.cfg, env);
    if late.Some? { CompleteIfReasons(t.(work := w, timeouts := t.timeouts + 1), late, ERR_TIMEOUT, m, me, g, env); }
  }

  lemma AbortStepReasons(a: Machine, m: Machine, me: nat, g: Shared, env: Env)
    requires Reasons(a.work, m, me, g, env) && a.abort == m.abort
    ensures Reasons(AbortStep(a).0.work, m, me, g, env)
  {
    var (w, r) := TakeAborted(a.work);
    if a.abort { CompleteIfReasons(a.(work := w), r, ERR_REQUEST_ABORTED, m, me, g, env); }
  }

  lemma PairedReasons(m: Machine, me: nat, g: Shared, env: Env)
    requires LinkSound(m) && m.state == Transmitting
    ensures Reasons(BeforeTimeout(m, me, g, env).work, m, me, g, env)
  {
    CommunicateTells(m, me, g, env);
    PairedIs(m, me, g, env);
    var (m1, paired, _, _) := Communicate(m, me, g, env);
    CompleteIfReasons(m1, paired, ResponseCode(env), m, me, g, env);
  }

  // Every callback that a poll runs is for a response to a request on the wire, with its code,
  // or for a request that has waited too long, with ERR_TIMEOUT, or belongs to an abort, with
  // ERR_REQUEST_ABORTED.
  lemma EveryCallbackHasAReason(m: Machine, me: nat, g: Shared, env: Env)
    requires LinkSound(m)
    ensures Reasons(Task(m, me, g, env).0.work, m, me, g, env)
  {
    if m.state == Transmitting {
      var t, a := BeforeTimeout(m, me, g, env), BeforeAbort(m, me, g, env);
      PairedReasons(m, me, g, env);
      CommunicateKeeps(m, me, g, env);
      TimeoutStepReasons(t, m, me, g, env);
      AbortStepReasons(a, m, me, g, env);
      assert Task(m, me, g, env).0.work == AbortStep(a).0.work;
    }
  }
}
