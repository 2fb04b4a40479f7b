// How often a machine tries to connect before it closes its socket. A comment in
// src/client_config.c says that an error is followed by as many retries as are configured.

module ConnectRetries {
  import opened Common
  import opened ProtocolModel
  import opened ConnectLock

  // This task call of the machine calls connect.
  predicate Tries(m: Machine, i: nat, g: Shared, env: Env) {
    && m.state == Transmitting && MayConnect(g, i) && !m.link.connected
    && (m.link.socket || (env.lookup == ERR_SUCCESS && env.socket == ERR_SUCCESS))
  }

  // When the attempt started that this call continues, or starts.
  function Started(m: Machine, g: Shared, env: Env): int { if m.link.retryCnt == 0 then env.now else g.startTime }

  predicate TooSlow(m: Machine, g: Shared, env: Env) {
    env.connect == ERR_WOULD_BLOCK && Elapsed(env.now, Started(m, g, env)) > m.cfg.connectTimeout
  }

  // The end of st_transmit closes the socket for other reasons: too many timeouts, an abort that
  // has ended, or a protocol that always disconnects.
  predicate ResetsAnyway(m: Machine, i: nat, g: Shared, env: Env) {
    var (m1, paired, _, _) := Communicate(m, i, g, env);
    var (m2, completed) := Completions(m1, paired, env);
    (m2.alwaysDisconnect && completed) || m2.timeouts > MAX_RESPONSE_TIMEOUT_PER_SESSION || m2.abortDone
  }

  // The count that is compared with the configured number of retries.
  function Attempts(link: Link): int { if link.retryCnt == 0 then 1 else link.retryCnt }

  // In every state of every execution there has been at most one attempt on the socket.
  lemma OneAttemptPerSocket(ws: seq<World>, moves: seq<Move>, k: nat, i: nat)
    requires Execution(ws, moves) && k < |ws| && i < |ws[k].machines|
    ensures ws[k].machines[i].link.retryCnt <= 1 && Attempts(ws[k].machines[i].link) == 1
  {
    ExecutionSound(ws, moves, k);
  }

  // No task call starts another attempt on a socket on which there was one.
  lemma NoSecondAttempt(ws: seq<World>, moves: seq<Move>, k: nat, i: nat, env: Env)
    requires Execution(ws, moves) && k < |ws| && i < |ws[k].machines| && ws[k].machines[i].link.retryCnt > 0
    ensures var link, link' := ws[k].machines[i].link, Task(ws[k].machines[i], i, ws[k].g, env).0.link;
            link'.attempt == link.attempt && link'.retryCnt <= link.retryCnt
  {
    ExecutionSound(ws, moves, k);
    var m := ws[k].machines[i];
    if m.state == Transmitting {
      ConnectKeeps(m, i, ws[k].g, env);
      TransmitKeepsLink(m, i, ws[k].g, env);
    }
  }

  // A call of connect that does not succeed closes the socket in the same task call if and only
  // if connect returned an error, or it has been blocking for too long and more than one retry
  // is configured, or the machine resets for another reason. It is always the first attempt, so
  // the number of retries before that is the configured one if and only if that is 0.
  lemma ClosesAtOnceIff(ws: seq<World>, moves: seq<Move>, k: nat, i: nat, env: Env)
    requires Execution(ws, moves) && k < |ws| && i < |ws[k].machines|
    requires Tries(ws[k].machines[i], i, ws[k].g, env) && env.connect != ERR_SUCCESS
    ensures var m, g := ws[k].machines[i], ws[k].g;
            && (!Task(m, i, g, env).0.link.socket <==>
                 || env.connect != ERR_WOULD_BLOCK
                 || (TooSlow(m, g, env) && m.cfg.connectRetries > 1)
                 || ResetsAnyway(m, i, g, env))
            && (Attempts(m.link) - 1 == m.cfg.connectRetries <==> m.cfg.connectRetries == 0)
  {
    ExecutionSound(ws, moves, k);
    ClosesIff(ws[k].machines[i], i, ws[k].g, env);
  }

  // An attempt that takes too long is given up the first time, whatever number of retries beyond
  // one is configured: the socket is closed, and with it goes the count.
  lemma GivesUpAfterOne(ws: seq<World>, moves: seq<Move>, k: nat, i: nat, env: Env)
    requires Execution(ws, moves) && k < |ws| && i < |ws[k].machines|
    requires var m := ws[k].machines[i]; m.state == Transmitting && Attempting(m) && m.cfg.connectRetries > 1
    requires env.connect == ERR_WOULD_BLOCK
    requires Elapsed(env.now, ws[k].g.startTime) > ws[k].machines[i].cfg.connectTimeout
    ensures var m' := Task(ws[k].machines[i], i, ws[k].g, env).0; !m'.link.socket && m'.link.retryCnt == 0
  {
    ExecutionSound(ws, moves, k);
    ClosesAtOnceIff(ws, moves, k, i, env);
    TransmitKeepsLink(ws[k].machines[i], i, ws[k].g, env);
  }

  lemma ClosesIff(m: Machine, i: nat, g: Shared, env: Env)
    requires LinkSound(m) && Tries(m, i, g, env) && env.connect != ERR_SUCCESS
    ensures !StTransmit(m, i, g, env).0.link.socket <==>
              || env.connect != ERR_WOULD_BLOCK
              || (TooSlow(m, g, env) && m.cfg.connectRetries > 1)
              || ResetsAnyway(m, i, g, env)
  {
    ConnectFails(m, i, g, env);
    var (m1, paired, _, _) := Communicate(m, i, g, env);
    CompletionsKeepLink(m1, paired, env);
  }

  lemma ConnectFails(m: Machine, i: nat, g: Shared, env: Env)
    requires LinkSound(m) && Tries(m, i, g, env) && env.connect != ERR_SUCCESS
    ensures var (link, _, next) := StConnect(m.link, m.cfg, i, g, env);
            && link.socket && link.retryCnt == 1 && Communicate(m, i, g, env).0.link == link
            && (next == Resetting <==>
                  env.connect != ERR_WOULD_BLOCK || (TooSlow(m, g, env) && m.cfg.connectRetries > 1))
  {
  }

  // With at most one retry configured, a slow attempt leads to the failure state instead. From
  // there nothing is tried until the reset closes the socket.
  lemma SlowAttemptFails(m: Machine, i: nat, g: Shared, env: Env)
    requires LinkSound(m) && Tries(m, i, g, env) && TooSlow(m, g, env) && m.cfg.connectRetries <= 1
    requires !ResetsAnyway(m, i, g, env)
    ensures var m' := Task(m, i, g, env).0; m'.state == Failing && m'.link.socket && m'.link.retryCnt == 1
  {
    var (link, g1, next) := StConnect(m.link, m.cfg, i, g, env);
    assert next == Failing && link.socket && link.retryCnt == 1;
    var (m1, paired, _, _) := Communicate(m, i, g, env);
    CompletionsKeepLink(m1, paired, env);
  }

  lemma FailureCloses(m: Machine, i: nat, g: Shared, env: Env)
    requires LinkSound(m) && m.state != Transmitting
    ensures var m' := Task(m, i, g, env).0;
            && (m.state == Failing ==> m'.state == Resetting && m'.link == m.link)
            && (m.state == Resetting && m'.state == Resetting ==> m'.link == m.link)
            && (m.state == Resetting && m'.state != Resetting ==> m'.state == Transmitting && !m'.link.socket)
  {
  }

  // ---------------------------------------------------------------- an error at once

  // Polls: the reset is over; connect returns an error.
  function FirstError(error: int): seq<Event> {
    var free := Shared(None, 0, Resetting);
    [Poll(free, Env(RESET_DELAY, 0, 0, 0, 0, 0, 0, 0, false)), Poll(free, Env(0, 0, 0, error, 0, 0, 0, 0, false))]
  }

  // A new machine whose first connect returns an error has already closed its socket, however
  // many retries are configured.
  lemma FirstErrorCloses(cfg: Config, me: nat, error: int)
    requires error != ERR_SUCCESS && error != ERR_WOULD_BLOCK
    ensures var e := FirstError(error)[1]; Tries(Apply(New(cfg), me, FirstError(error)[0]), me, e.g, e.env)
    ensures var m := Run(New(cfg), me, FirstError(error)); !m.link.socket && m.link.retryCnt == 0
  {
    var es := FirstError(error);
    var m1 := Apply(New(cfg), me, es[0]);
    assert m1.state == Transmitting && LinkSound(m1) && !m1.link.connected;
    ClosesIff(m1, me, es[1].g, es[1].env);
    TransmitKeepsLink(m1, me, es[1].g, es[1].env);
    assert es[1..] == [es[1]] && [es[1]][1..] == [];
    assert Run(New(cfg), me, es) == Run(m1, me, es[1..]) == Apply(m1, me, es[1]);
  }
}
