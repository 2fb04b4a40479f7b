// When a machine gives its connection up: after a failed send or receive, after too many
// timeouts, and after an abort; and what follows then.

module ProtocolFailures {
  import opened Common
  import opened ProtocolModel
  import opened ProtocolSafety
  import opened ProtocolFlow
  import opened ProtocolLoss
  import opened ProtocolEmpty
  import opened ConnectLock

  // ---------------------------------------------------------------- what counts as a failure

  // The machine is connected in this visit, or gets connected.
  predicate Talks(m: Machine, me: nat, g: Shared, env: Env) {
    && m.state == Transmitting && (g.owner == None || g.owner == Some(me))
    && (m.link.connected
        || (env.connect == ERR_SUCCESS
            && (m.link.socket || (env.lookup == ERR_SUCCESS && env.socket == ERR_SUCCESS))))
  }

  // It has a request to send: one that is active, or one it may take from its queue now.
  predicate Sends(m: Machine) {
    m.work.active.Some? || (!m.abort && m.work.queue != [] && (m.cfg.limit == 0 || m.cfg.limit > m.work.sentNum))
  }

  predicate SendFails(m: Machine, env: Env) {
    && Sends(m) && env.send != ERR_SUCCESS
    && (env.send != ERR_WOULD_BLOCK
        || (m.work.active.Some?
            && (env.now - m.work.active.value.start) % 0x1_0000_0000 > m.cfg.transmissionTimeout))
  }

  predicate RecvFails(env: Env) {
    env.recv != ERR_SUCCESS && env.recv != ERR_OVERFLOW && env.recv != ERR_WOULD_BLOCK
  }

  // How many failures one poll sees
  function Failures(m: Machine, me: nat, g: Shared, env: Env): nat {
    if !Talks(m, me, g, env) then 0
    else (if SendFails(m, env) then 1 else 0) + (if RecvFails(env) then 1 else 0)
  }

  lemma ExchangeCounts(m: Machine, env: Env)
    ensures var sent := SendRequest(m.work, m.cfg, env).1;
            Exchange(m, env).0.transmitFailures == m.transmitFailures
              + (if sent != ERR_SUCCESS && sent != ERR_WOULD_BLOCK then 1 else 0)
              + (if RecvFails(env) then 1 else 0)
  {
  }

  lemma SendFailsIff(m: Machine, env: Env)
    ensures var error := SendRequest(NewTransmit(m.work, m.cfg, m.abort, env), m.cfg, env).1;
            error != ERR_SUCCESS && error != ERR_WOULD_BLOCK <==> SendFails(m, env)
  {
  }

  lemma TalksIff(m: Machine, me: nat, g: Shared, env: Env)
    requires LinkSound(m) && m.state == Transmitting
    ensures Talks(m, me, g, env) <==> StConnect(m.link, m.cfg, me, g, env).2 == Transmitting
  {
  }

  lemma CommunicateCounts(m: Machine, me: nat, g: Shared, env: Env)
    requires LinkSound(m) && m.state == Transmitting
    ensures Communicate(m, me, g, env).0.transmitFailures == m.transmitFailures + Failures(m, me, g, env)
  {
    TalksIff(m, me, g, env);
    if Talks(m, me, g, env) {
      var w := NewTransmit(m.work, m.cfg, m.abort, env);
      SendFailsIff(m, env);
      ExchangeCounts(m.(work := w, link := StConnect(m.link, m.cfg, me, g, env).0), env);
    }
  }

  lemma CompletionsCount(m: Machine, paired: Option<Request>, env: Env)
    ensures Completions(m, paired, env).0.transmitFailures == m.transmitFailures
  {
    var m1 := CompleteIf(m, paired, ResponseCode(env));
    assert m1.transmitFailures == m.transmitFailures;
    assert TimeoutStep(m1, env).0.transmitFailures == m.transmitFailures;
  }

  lemma TransmitCounts(m: Machine, me: nat, g: Shared, env: Env)
    requires LinkSound(m) && m.state == Transmitting
    ensures StTransmit(m, me, g, env).0.transmitFailures == m.transmitFailures + Failures(m, me, g, env)
  {
    var (m1, paired, _, _) := Communicate(m, me, g, env);
    CommunicateCounts(m, me, g, env);
    CompletionsCount(m1, paired, env);
  }

  // Every failed send and every failed receive counts, and nothing else does.
  lemma FailuresCount(m: Machine, me: nat, g: Shared, env: Env)
    requires LinkSound(m)
    ensures Task(m, me, g, env).0.transmitFailures ==
            if m.state == Failing then 0 else m.transmitFailures + Failures(m, me, g, env)
  {
    if m.state == Transmitting { TransmitCounts(m, me, g, env); }
  }

  // A connected visit leads to the failure state if and only if there are then more failures
  // than retries are configured.
  lemma FailsIff(m: Machine, me: nat, g: Shared, env: Env)
    requires LinkSound(m) && Talks(m, me, g, env)
    ensures Task(m, me, g, env).0.state == Failing <==>
              m.transmitFailures + Failures(m, me, g, env) > m.cfg.transmissionRetries
  {
    TransmitCounts(m, me, g, env);
    TalksIff(m, me, g, env);
    TransmitKeepsLink(m, me, g, env);
  }

  // Without retries, as configured, one failed send or receive is enough.
  lemma OneFailureFails(m: Machine, me: nat, g: Shared, env: Env)
    requires LinkSound(m) && Talks(m, me, g, env) && m.cfg.transmissionRetries == 0
    requires SendFails(m, env) || RecvFails(env)
    ensures Task(m, me, g, env).0.state == Failing
  {
    FailsIff(m, me, g, env);
  }

  // ---------------------------------------------------------------- over whole runs

  // The failures since the last visit to the failure state
  function Since(ms: seq<Machine>, es: seq<Event>, me: nat, n: nat): nat
    requires n <= |es| && n < |ms|
  {
    if n == 0 then 0
    else match es[n - 1]
         case Poll(g, env) =>
           if ms[n - 1].state == Failing then 0
           else Since(ms, es, me, n - 1) + Failures(ms[n - 1], me, g, env)
         case _ => Since(ms, es, me, n - 1)
  }

  lemma EventKeepsLink(m: Machine, me: nat, e: Event)
    requires LinkSound(m)
    ensures LinkSound(Apply(m, me, e)) && Apply(m, me, e).cfg == m.cfg
  {
    CfgStays(m, me, e);
    if e.Poll? { LinkAlone(m, me, e.g, e.env); }
  }

  lemma {:induction false} CountIsSince(ms: seq<Machine>, es: seq<Event>, cfg: Config, me: nat, n: nat)
    requires Trace(ms, es, cfg, me) && n < |ms|
    ensures LinkSound(ms[n]) && ms[n].cfg == cfg && ms[n].transmitFailures == Since(ms, es, me, n)
  {
    if n > 0 {
      CountIsSince(ms, es, cfg, me, n - 1);
      assert ProtocolEmpty.Advances(ms, es, me, n - 1);
      var m, e := ms[n - 1], es[n - 1];
      EventKeepsLink(m, me, e);
      if e.Poll? { FailuresCount(m, me, e.g, e.env); }
    }
  }

  // In every run a connected visit leads to the failure state if and only if it brings the
  // failed sends and receives since the last failure state above the configured retries.
  lemma FailsAfterTooMany(ms: seq<Machine>, es: seq<Event>, cfg: Config, me: nat, n: nat)
    requires Trace(ms, es, cfg, me) && n < |es| && es[n].Poll? && Talks(ms[n], me, es[n].g, es[n].env)
    ensures ms[n + 1].state == Failing <==> Since(ms, es, me, n + 1) > cfg.transmissionRetries
  {
    CountIsSince(ms, es, cfg, me, n);
    assert ProtocolEmpty.Advances(ms, es, me, n);
    FailsIff(ms[n], me, es[n].g, es[n].env);
  }

  // ---------------------------------------------------------------- behind the failure state

  // A poll in the failure state leads to a reset, and a poll in a reset out of it once a second
  // has passed since the last one, with the socket closed.
  lemma LeavesFailure(m: Machine, me: nat, g: Shared, env: Env)
    requires LinkSound(m) && m.state != Transmitting
    ensures var m', over := Task(m, me, g, env).0, (env.now - m.lastReset) % 0x1_0000_0000 >= 1000;
            && m'.work == m.work
            && (m.state == Failing ==> m'.state == Resetting && m'.lastReset == m.lastReset && m'.link == m.link)
            && (m.state == Resetting && !over ==> m' == m)
            && (m.state == Resetting && over ==>
                  && m'.state == Transmitting && m'.lastReset == env.now
                  && !m'.link.socket && !m'.link.connected && m'.link.retryCnt == 0)
  {
  }

  // So two polls are enough to get out of it, if the second one comes late enough.
  lemma Recovers(m: Machine, me: nat, g: Shared, env: Env, g': Shared, env': Env)
    requires LinkSound(m) && m.state == Failing && (env'.now - m.lastReset) % 0x1_0000_0000 >= 1000
    ensures var m' := Task(Task(m, me, g, env).0, me, g', env').0;
            m'.state == Transmitting && !m'.link.socket && !m'.link.connected && m'.work == m.work
  {
    LeavesFailure(m, me, g, env);
    LinkAlone(m, me, g, env);
    LeavesFailure(Task(m, me, g, env).0, me, g', env');
  }

  lemma IdleEvent(m: Machine, me: nat, e: Event)
    requires !e.Poll?
    ensures var m' := Apply(m, me, e); m'.state == m.state && m'.link == m.link && m'.lastReset == m.lastReset
  {
  }

  // In every run, a machine that gets back to the transmit state from the failure state has no
  // socket.
  lemma ClosedBehindFailure(ms: seq<Machine>, es: seq<Event>, cfg: Config, me: nat, k: nat, j: nat)
    requires Trace(ms, es, cfg, me) && k < j < |ms| && ms[k].state == Failing && ms[j].state == Transmitting
    requires forall n :: k < n < j ==> ms[n].state != Transmitting
    ensures !ms[j].link.socket && !ms[j].link.connected && ms[j].link.retryCnt == 0
  {
    CountIsSince(ms, es, cfg, me, j - 1);
    assert ProtocolEmpty.Advances(ms, es, me, j - 1);
    if es[j - 1].Poll? { LeavesFailure(ms[j - 1], me, es[j - 1].g, es[j - 1].env); }
  }

  // ---------------------------------------------------------------- how often it resets

  // The poll with event k ends a reset.
  ghost predicate ResetsAt(ms: seq<Machine>, es: seq<Event>, k: nat)
    requires k < |es| && k + 1 < |ms|
  {
    es[k].Poll? && ms[k].state == Resetting && ms[k + 1].state == Transmitting
  }

  lemma ResetNoted(ms: seq<Machine>, es: seq<Event>, cfg: Config, me: nat, k: nat)
    requires Trace(ms, es, cfg, me) && k < |es|
    ensures if ResetsAt(ms, es, k) then
              ms[k + 1].lastReset == es[k].env.now && (es[k].env.now - ms[k].lastReset) % 0x1_0000_0000 >= 1000
            else ms[k + 1].lastReset == ms[k].lastReset
  {
    CountIsSince(ms, es, cfg, me, k);
    assert ProtocolEmpty.Advances(ms, es, me, k);
    var m, e := ms[k], es[k];
    if e.Poll? && m.state != Transmitting {
      LeavesFailure(m, me, e.g, e.env);
    } else if e.Poll? {
      TransmitKeepsReset(m, me, e.g, e.env);
    }
  }

  lemma CommunicateKeepsReset(m: Machine, me: nat, g: Shared, env: Env)
    ensures Communicate(m, me, g, env).0.lastReset == m.lastReset
  {
  }

  lemma CompletionsKeepReset(m: Machine, paired: Option<Request>, env: Env)
    ensures Completions(m, paired, env).0.lastReset == m.lastReset
  {
    var m1 := CompleteIf(m, paired, ResponseCode(env));
    assert m1.lastReset == m.lastReset;
    assert TimeoutStep(m1, env).0.lastReset == m.lastReset;
  }

  lemma TransmitKeepsReset(m: Machine, me: nat, g: Shared, env: Env)
    ensures StTransmit(m, me, g, env).0.lastReset == m.lastReset
  {
    var (m1, paired, _, _) := Communicate(m, me, g, env);
    CommunicateKeepsReset(m, me, g, env);
    CompletionsKeepReset(m1, paired, env);
  }

  lemma {:induction false} TimeSinceReset(ms: seq<Machine>, es: seq<Event>, cfg: Config, me: nat, j: nat, k: nat)
    requires Trace(ms, es, cfg, me) && j < k < |ms| && ResetsAt(ms, es, j)
    requires forall n :: j < n < k ==> !ResetsAt(ms, es, n)
    ensures ms[k].lastReset == es[j].env.now
  {
    ResetNoted(ms, es, cfg, me, k - 1);
    if j < k - 1 { TimeSinceReset(ms, es, cfg, me, j, k - 1); }
  }

  // Two successive resets end at least a second apart, by the clock the machine reads.
  lemma ResetsAreSpaced(ms: seq<Machine>, es: seq<Event>, cfg: Config, me: nat, j: nat, k: nat)
    requires Trace(ms, es, cfg, me) && j < k < |es| && ResetsAt(ms, es, j) && ResetsAt(ms, es, k)
    requires forall n :: j < n < k ==> !ResetsAt(ms, es, n)
    ensures (es[k].env.now - es[j].env.now) % 0x1_0000_0000 >= 1000
  {
    TimeSinceReset(ms, es, cfg, me, j, k);
    ResetNoted(ms, es, cfg, me, k);
  }

  // ---------------------------------------------------------------- the end of a session

  // Some request in flight has waited for more than the timeout, once the response of this visit
  // has been dealt with.
  ghost predicate SomeLate(w: Work, cfg: Config, env: Env) {
    || (exists r :: r in w.sent && !(!cfg.synch && r.typ == SubscribeAsynch)
                    && (env.now - r.start) % 0x1_0000_0000 > cfg.transmissionTimeout)
    || (w.active.Some? && (env.now - w.active.value.start) % 0x1_0000_0000 > cfg.transmissionTimeout)
  }

  lemma TimeoutStepIff(t: Machine, env: Env)
    ensures TimeoutStep(t, env).0.timeouts == t.timeouts + if SomeLate(t.work, t.cfg, env) then 1 else 0
  {
    TimedOutIsSent(t.work.sent, t.cfg, env);
  }

  lemma CommunicateKeeps(m: Machine, me: nat, g: Shared, env: Env)
    ensures var t := BeforeTimeout(m, me, g, env);
            && t.timeouts == m.timeouts && t.alwaysDisconnect == m.alwaysDisconnect && t.cfg == m.cfg
            && t.abort == m.abort && t.abortDone == m.abortDone
    ensures var a := BeforeAbort(m, me, g, env);
            a.alwaysDisconnect == m.alwaysDisconnect && a.abort == m.abort && a.abortDone == m.abortDone
  {
    var (m1, paired, _, _) := Communicate(m, me, g, env);
    assert m1.timeouts == m.timeouts && m1.alwaysDisconnect == m.alwaysDisconnect && m1.cfg == m.cfg
           && m1.abort == m.abort && m1.abortDone == m.abortDone;
    var t := BeforeTimeout(m, me, g, env);
    assert t.alwaysDisconnect == m.alwaysDisconnect && t.abort == m.abort && t.abortDone == m.abortDone;
  }

  // A connected visit closes the socket if and only if it sees more than five timeouts since
  // that happened last, or ends an abort.
  lemma SessionEndsIff(m: Machine, me: nat, g: Shared, env: Env)
    requires LinkSound(m) && Talks(m, me, g, env) && !m.alwaysDisconnect && !m.abortDone
    ensures var m', t := Task(m, me, g, env).0, BeforeTimeout(m, me, g, env);
            var timeouts := m.timeouts + if SomeLate(t.work, m.cfg, env) then 1 else 0;
            && (!m'.link.socket <==> timeouts > 5 || (m.abort && !m'.abort))
            && m'.timeouts == (if timeouts > 5 then 0 else timeouts)
            && !m'.alwaysDisconnect && !m'.abortDone
  {
    var t, a := BeforeTimeout(m, me, g, env), BeforeAbort(m, me, g, env);
    TalksIff(m, me, g, env);
    CommunicateKeeps(m, me, g, env);
    TimeoutStepIff(t, env);
    var a' := AbortStep(a).0;
    assert a'.timeouts == a.timeouts && a'.alwaysDisconnect == m.alwaysDisconnect;
    assert a'.abortDone <==> m.abort && !a'.abort;
    TransmitKeepsLink(m, me, g, env);
    TalkLinks(m, me, g, env);
    SettlesAs(m, me, g, env);
  }

  lemma TalkLinks(m: Machine, me: nat, g: Shared, env: Env)
    requires LinkSound(m) && Talks(m, me, g, env)
    ensures StConnect(m.link, m.cfg, me, g, env).0.socket
  {
  }

  lemma SettlesAs(m: Machine, me: nat, g: Shared, env: Env)
    ensures var a' := AbortStep(BeforeAbort(m, me, g, env)).0;
            exists completed, next ::
              && StTransmit(m, me, g, env).0 == Settle(a', completed, next).0
              && StTransmit(m, me, g, env).2 == Settle(a', completed, next).1
              && next == StConnect(m.link, m.cfg, me, g, env).2
  {
    var (m1, paired, _, next) := Communicate(m, me, g, env);
    var (m2, completed) := Completions(m1, paired, env);
    var a' := AbortStep(BeforeAbort(m, me, g, env)).0;
    assert StTransmit(m, me, g, env).0 == Settle(a', completed, next).0;
    assert StTransmit(m, me, g, env).2 == Settle(a', completed, next).1;
  }

  // ---------------------------------------------------------------- where a visit leads

  // What looking the host up and creating the socket ends with
  function Created(env: Env): int { if env.lookup != ERR_SUCCESS then env.lookup else env.socket }

  predicate HasSocket(m: Machine, env: Env) { m.link.socket || Created(env) == ERR_SUCCESS }

  // An attempt that is not answered yet, for longer than the timeout
  predicate IsSlow(m: Machine, g: Shared, env: Env) {
    && HasSocket(m, env) && env.connect == ERR_WOULD_BLOCK
    && m.link.retryCnt != 0 && (env.now - g.startTime) % 0x1_0000_0000 > m.cfg.connectTimeout
  }

  // The visit cannot connect: creating the socket or connecting it has failed, or takes too long
  // with more than one retry configured.
  predicate GivesUp(m: Machine, me: nat, g: Shared, env: Env) {
    && (g.owner == None || g.owner == Some(me)) && !m.link.connected
    && (|| (!HasSocket(m, env) && Created(env) != ERR_WOULD_BLOCK)
        || (HasSocket(m, env) && env.connect != ERR_SUCCESS && env.connect != ERR_WOULD_BLOCK)
        || (IsSlow(m, g, env) && m.cfg.connectRetries > 1))
  }

  predicate FailsToConnect(m: Machine, me: nat, g: Shared, env: Env) {
    && (g.owner == None || g.owner == Some(me)) && !m.link.connected
    && IsSlow(m, g, env) && m.cfg.connectRetries <= 1
  }

  lemma ConnectLeadsTo(m: Machine, me: nat, g: Shared, env: Env)
    requires LinkSound(m) && m.state == Transmitting
    ensures StConnect(m.link, m.cfg, me, g, env).2 ==
            if Talks(m, me, g, env) then Transmitting
            else if GivesUp(m, me, g, env) then Resetting
            else if FailsToConnect(m, me, g, env) then Failing
            else Connecting
  {
  }

  // The state a visit to the transmit state leads to: failure after too many failures; else a
  // reset if it cannot connect, sees the sixth timeout or ends an abort; else failure after a
  // slow attempt without retries; and otherwise the transmit state again.
  lemma VisitLeadsTo(m: Machine, me: nat, g: Shared, env: Env)
    requires LinkSound(m) && m.state == Transmitting && !m.alwaysDisconnect && !m.abortDone
    ensures var m', t := Task(m, me, g, env).0, BeforeTimeout(m, me, g, env);
            var timeouts := m.timeouts + if SomeLate(t.work, m.cfg, env) then 1 else 0;
            m'.state == if m.transmitFailures + Failures(m, me, g, env) > m.cfg.transmissionRetries then Failing
                        else if GivesUp(m, me, g, env) || timeouts > 5 || (m.abort && !m'.abort) then Resetting
                        else if FailsToConnect(m, me, g, env) then Failing
                        else Transmitting
  {
    var t, a := BeforeTimeout(m, me, g, env), BeforeAbort(m, me, g, env);
    TransmitCounts(m, me, g, env);
    ConnectLeadsTo(m, me, g, env);
    CommunicateKeeps(m, me, g, env);
    TimeoutStepIff(t, env);
    var a' := AbortStep(a).0;
    assert a'.timeouts == a.timeouts && a'.alwaysDisconnect == m.alwaysDisconnect;
    assert a'.abortDone <==> m.abort && !a'.abort;
    TransmitKeepsLink(m, me, g, env);
    SettlesAs(m, me, g, env);
  }

  lemma SettleClears(m: Machine, me: nat, g: Shared, env: Env)
    requires m.timeouts <= 5 && !m.alwaysDisconnect && !m.abortDone
    ensures var m' := StTransmit(m, me, g, env).0; m'.timeouts <= 5 && !m'.alwaysDisconnect && !m'.abortDone
  {
    var a' := AbortStep(BeforeAbort(m, me, g, env)).0;
    CommunicateKeeps(m, me, g, env);
    assert a'.alwaysDisconnect == m.alwaysDisconnect;
    SettlesAs(m, me, g, env);
  }

  // What SessionEndsIff assumes holds in every state of every run.
  lemma {:induction false} SessionFlags(ms: seq<Machine>, es: seq<Event>, cfg: Config, me: nat, n: nat)
    requires Trace(ms, es, cfg, me) && n < |ms|
    ensures ms[n].timeouts <= 5 && !ms[n].alwaysDisconnect && !ms[n].abortDone
  {
    if n > 0 {
      SessionFlags(ms, es, cfg, me, n - 1);
      assert ProtocolEmpty.Advances(ms, es, me, n - 1);
      EventKeepsFlags(ms[n - 1], me, es[n - 1]);
    }
  }

  lemma EventKeepsFlags(m: Machine, me: nat, e: Event)
    requires m.timeouts <= 5 && !m.alwaysDisconnect && !m.abortDone
    ensures var m' := Apply(m, me, e); m'.timeouts <= 5 && !m'.alwaysDisconnect && !m'.abortDone
  {
    if e.Poll? && m.state == Transmitting { SettleClears(m, me, e.g, e.env); }
  }
}
