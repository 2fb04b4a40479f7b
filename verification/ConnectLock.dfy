// Any number of protocol client machines, interleaved, with the connect lock and the two
// function-static variables that all of them share.

module ConnectLock {
  import opened Common
  import opened ProtocolModel

  datatype World = World(machines: seq<Machine>, g: Shared)

  datatype Move =
    | Create(cfg: Config)                       // protocol_client_sm_new
    | Step(i: nat, env: Env)                    // protocol_client_sm_task of machine i
    | Call(i: nat, e: Event)                    // a call from above on machine i

  ghost predicate Possible(w: World, move: Move) {
    match move
    case Create(_) => true
    case Step(i, _) => i < |w.machines|
    case Call(i, e) => i < |w.machines| && !e.Poll?
  }

  function After(w: World, move: Move): World
    requires Possible(w, move)
  {
    match move
    case Create(cfg) => w.(machines := w.machines + [New(cfg)])
    case Step(i, env) =>
      var (m, g) := Task(w.machines[i], i, w.g, env);
      World(w.machines[i := m], g)
    case Call(i, e) => w.(machines := w.machines[i := Apply(w.machines[i], i, e)])
  }

  // A connection attempt under way: there is a socket, it is not connected, and the time of
  // the attempt has been noted.
  predicate Attempting(m: Machine) { !m.link.connected && m.link.retryCnt > 0 }

  // What each machine keeps, whatever the others do.
  ghost predicate LinkSound(m: Machine) {
    && m.state != Connecting
    && (m.link.connected ==> m.link.socket)
    && (!m.link.socket ==> m.link.retryCnt == 0)
    && (m.link.retryCnt == 0 || m.link.retryCnt == 1)
    && (m.transmitFailures > m.cfg.transmissionRetries ==> m.state == Failing)
  }

  // A machine that attempts to connect holds the lock, and the shared start time is its own.
  ghost predicate LockSound(m: Machine, i: nat, g: Shared) {
    Attempting(m) ==> g.owner == Some(i) && g.startTime == m.link.attempt
  }

  ghost predicate Sound(w: World) {
    forall i :: 0 <= i < |w.machines| ==> LinkSound(w.machines[i]) && LockSound(w.machines[i], i, w.g)
  }

  // ---------------------------------------------------------------- one step

  lemma ConnectKeeps(m: Machine, i: nat, g: Shared, env: Env)
    requires LinkSound(m) && LockSound(m, i, g)
    ensures var (link, g', next) := StConnect(m.link, m.cfg, i, g, env);
            && (link.connected ==> link.socket) && (!link.socket ==> link.retryCnt == 0)
            && (link.retryCnt == 0 || link.retryCnt == 1)
            && (next != Resetting && !link.connected && link.retryCnt > 0 ==>
                  g'.owner == Some(i) && g'.startTime == link.attempt)
            && (!MayConnect(g, i) ==> link == m.link && g' == g)
            && g'.nextState == g.nextState
  {
  }

  lemma CompletionsKeepLink(m: Machine, paired: Option<Request>, env: Env)
    ensures Completions(m, paired, env).0.link == m.link && Completions(m, paired, env).0.cfg == m.cfg
  {
    var m1 := CompleteIf(m, paired, ResponseCode(env));
    assert m1.link == m.link && m1.cfg == m.cfg;
    var m2 := TimeoutStep(m1, env).0;
    assert m2.link == m.link && m2.cfg == m.cfg;
    assert AbortStep(m2).0.link == m.link && AbortStep(m2).0.cfg == m.cfg;
  }

  lemma TransmitKeepsLink(m: Machine, i: nat, g: Shared, env: Env)
    ensures var (m', g', next) := StTransmit(m, i, g, env);
            var (link, g1, next1) := StConnect(m.link, m.cfg, i, g, env);
            && m'.cfg == m.cfg && g' == g1 && next != Connecting
            && (if next == Resetting then m'.link == Close(link) else m'.link == link && next1 != Resetting)
  {
    var (m1, paired, g1, next1) := Communicate(m, i, g, env);
    assert m1.link == StConnect(m.link, m.cfg, i, g, env).0 && m1.cfg == m.cfg;
    CompletionsKeepLink(m1, paired, env);
  }

  // A task call keeps LinkSound whatever the other machines left in the shared variables.
  lemma LinkAlone(m: Machine, me: nat, g: Shared, env: Env)
    requires LinkSound(m)
    ensures LinkSound(Task(m, me, g, env).0)
  {
    if m.state == Transmitting {
      ConnectKeepsAlone(m, me, g, env);
      TransmitKeepsLink(m, me, g, env);
    }
  }

  lemma ConnectKeepsAlone(m: Machine, me: nat, g: Shared, env: Env)
    requires LinkSound(m)
    ensures var link := StConnect(m.link, m.cfg, me, g, env).0;
            && (link.connected ==> link.socket) && (!link.socket ==> link.retryCnt == 0)
            && (link.retryCnt == 0 || link.retryCnt == 1)
  {}

  lemma CfgStays(m: Machine, me: nat, e: Event)
    ensures Apply(m, me, e).cfg == m.cfg
  {
    if e.Poll? && m.state == Transmitting { TransmitKeepsLink(m, me, e.g, e.env); }
  }

  // What a task call of machine i does to its link and to the shared variables.
  lemma TaskKeeps(m: Machine, i: nat, g: Shared, env: Env)
    requires LinkSound(m) && LockSound(m, i, g)
    ensures var (m', g') := Task(m, i, g, env);
            && LinkSound(m') && LockSound(m', i, g')
            && (!MayConnect(g, i) ==> g' == g.(nextState := g'.nextState))
  {
    if m.state == Transmitting {
      ConnectKeeps(m, i, g, env);
      TransmitKeepsLink(m, i, g, env);
    }
  }

  lemma MoveKeeps(w: World, move: Move)
    requires Sound(w) && Possible(w, move)
    ensures Sound(After(w, move))
  {
    var w' := After(w, move);
    match move
    case Create(cfg) =>
    case Step(i, env) =>
      TaskKeeps(w.machines[i], i, w.g, env);
      forall j | 0 <= j < |w'.machines| && j != i
        ensures LinkSound(w'.machines[j]) && LockSound(w'.machines[j], j, w'.g)
      {
        assert w'.machines[j] == w.machines[j];
        if Attempting(w.machines[j]) { assert !MayConnect(w.g, i); }
      }
    case Call(i, e) =>
  }

  ghost predicate Execution(ws: seq<World>, moves: seq<Move>) {
    && |ws| == |moves| + 1
    && ws[0].machines == []
    && forall k :: 0 <= k < |moves| ==> Advances(ws, moves, k)
  }

  ghost predicate Advances(ws: seq<World>, moves: seq<Move>, k: nat)
    requires k < |moves| && |ws| == |moves| + 1
  {
    Possible(ws[k], moves[k]) && ws[k + 1] == After(ws[k], moves[k])
  }

  lemma {:induction false} ExecutionSound(ws: seq<World>, moves: seq<Move>, k: nat)
    requires Execution(ws, moves) && k < |ws|
    ensures Sound(ws[k])
  {
    if k > 0 {
      assert Advances(ws, moves, k - 1);
      ExecutionSound(ws, moves, k - 1);
      MoveKeeps(ws[k - 1], moves[k - 1]);
    }
  }

  // ---------------------------------------------------------------- what the lock guarantees

  // In every state of every execution at most one machine is connecting.
  lemma OneConnects(ws: seq<World>, moves: seq<Move>, k: nat, i: nat, j: nat)
    requires Execution(ws, moves) && k < |ws|
    requires i < |ws[k].machines| && j < |ws[k].machines|
    requires Attempting(ws[k].machines[i]) && Attempting(ws[k].machines[j])
    ensures i == j
  {
    ExecutionSound(ws, moves, k);
  }

  // A link that got a socket, started an attempt or got connected.
  predicate Progresses(before: Link, after: Link) {
    (after.socket && !before.socket) || (after.connected && !before.connected) || after.attempt != before.attempt
  }

  // A step in which machine i creates a socket, starts an attempt or gets connected is one
  // that finds the lock free or its own, and no other machine in the middle of an attempt.
  lemma OnlyOwnerConnects(ws: seq<World>, moves: seq<Move>, k: nat, i: nat, env: Env)
    requires Execution(ws, moves) && k < |ws| && i < |ws[k].machines|
    ensures Progresses(ws[k].machines[i].link, Task(ws[k].machines[i], i, ws[k].g, env).0.link) ==>
              && MayConnect(ws[k].g, i)
              && forall j :: 0 <= j < |ws[k].machines| && j != i ==> !Attempting(ws[k].machines[j])
  {
    ExecutionSound(ws, moves, k);
    var m := ws[k].machines[i];
    if m.state == Transmitting {
      ConnectKeeps(m, i, ws[k].g, env);
      TransmitKeepsLink(m, i, ws[k].g, env);
    }
  }

  // After a visit to the transmit state the lock is with another machine that had it before; or
  // with this one, if it could not create a socket or its attempt is not answered yet; or free.
  lemma LockAfterVisit(m: Machine, i: nat, g: Shared, env: Env)
    requires LinkSound(m) && m.state == Transmitting
    ensures Task(m, i, g, env).1.owner ==
            if g.owner != None && g.owner != Some(i) then g.owner
            else if !m.link.socket && (env.lookup != ERR_SUCCESS || env.socket != ERR_SUCCESS) then Some(i)
            else if m.link.connected || env.connect != ERR_WOULD_BLOCK then None
            else Some(i)
  {
    TransmitKeepsLink(m, i, g, env);
  }

  // The static variable next_state is written before it is read: what it held does not matter.
  lemma NextStateIsWritten(ws: seq<World>, moves: seq<Move>, k: nat, i: nat, env: Env, junk: State)
    requires Execution(ws, moves) && k < |ws| && i < |ws[k].machines|
    ensures Task(ws[k].machines[i], i, ws[k].g.(nextState := junk), env) == Task(ws[k].machines[i], i, ws[k].g, env)
  {
    ExecutionSound(ws, moves, k);
    if ws[k].machines[i].state == Transmitting { JunkPasses(ws[k].machines[i], i, ws[k].g, env, junk); }
  }

  lemma JunkConnects(link: Link, cfg: Config, i: nat, g: Shared, env: Env, junk: State)
    ensures var (link', g', next) := StConnect(link, cfg, i, g, env);
            StConnect(link, cfg, i, g.(nextState := junk), env) == (link', g'.(nextState := junk), next)
  {
  }

  lemma JunkCommunicates(m: Machine, i: nat, g: Shared, env: Env, junk: State)
    ensures var (m', paired, g', next) := Communicate(m, i, g, env);
            Communicate(m, i, g.(nextState := junk), env) == (m', paired, g'.(nextState := junk), next)
  {
    JunkConnects(m.link, m.cfg, i, g, env, junk);
  }

  lemma JunkPasses(m: Machine, i: nat, g: Shared, env: Env, junk: State)
    ensures var (m', g', next) := StTransmit(m, i, g, env);
            StTransmit(m, i, g.(nextState := junk), env) == (m', g'.(nextState := junk), next)
  {
    JunkCommunicates(m, i, g, env, junk);
  }

  // The static variable start_time, whenever a machine in the middle of an attempt reads it,
  // holds the time of that machine's own attempt.
  lemma StartTimeIsOwn(ws: seq<World>, moves: seq<Move>, k: nat, i: nat)
    requires Execution(ws, moves) && k < |ws| && i < |ws[k].machines| && Attempting(ws[k].machines[i])
    ensures ws[k].g.startTime == ws[k].machines[i].link.attempt && ws[k].machines[i].link.socket
  {
    ExecutionSound(ws, moves, k);
  }

  // ---------------------------------------------------------------- what it does not guarantee

  // Machine i keeps trying to connect in the moves from k to j, and never gets an answer.
  ghost predicate NoAnswer(moves: seq<Move>, i: nat, k: nat, j: nat) {
    && j <= |moves|
    && forall n :: k <= n < j && moves[n].Step? && moves[n].i == i ==> moves[n].env.connect == ERR_WOULD_BLOCK
  }

  lemma MoveKeepsLock(w: World, move: Move, i: nat)
    requires Sound(w) && Possible(w, move) && i < |w.machines| && w.g.owner == Some(i) && !w.machines[i].link.connected
    requires move.Step? && move.i == i ==> move.env.connect == ERR_WOULD_BLOCK
    ensures var w' := After(w, move);
            && |w.machines| <= |w'.machines| && w'.g.owner == Some(i) && !w'.machines[i].link.connected
            && forall n :: 0 <= n < |w'.machines| && w'.machines[n].link.connected ==>
                 n < |w.machines| && w.machines[n].link.connected
  {
    match move
    case Create(cfg) =>
    case Call(n, e) =>
    case Step(n, env) =>
      if w.machines[n].state == Transmitting { TransmitKeepsLink(w.machines[n], n, w.g, env); }
  }

  // The machine may take a request from its queue, but sends and receives nothing.
  ghost predicate Silent(m: Machine, n: nat, g: Shared) {
    forall env :: Communicate(m, n, g, env) ==
                  (m.(work := NewTransmit(m.work, m.cfg, m.abort, env)), None, g, Connecting)
  }

  // A machine that gets no answer keeps the lock for good, through its resets. Meanwhile no other
  // machine gets connected, and even one that is connected sends and receives nothing.
  lemma {:induction false} LockIsKept(ws: seq<World>, moves: seq<Move>, i: nat, k: nat, j: nat)
    requires Execution(ws, moves) && k <= j < |ws| && NoAnswer(moves, i, k, j)
    requires i < |ws[k].machines| && ws[k].g.owner == Some(i) && !ws[k].machines[i].link.connected
    ensures i < |ws[j].machines| && ws[j].g.owner == Some(i) && !ws[j].machines[i].link.connected
    ensures forall n :: 0 <= n < |ws[j].machines| && ws[j].machines[n].link.connected ==>
              n < |ws[k].machines| && ws[k].machines[n].link.connected
    ensures forall n :: 0 <= n < |ws[j].machines| && n != i ==> Silent(ws[j].machines[n], n, ws[j].g)
    decreases j
  {
    if k < j {
      LockIsKept(ws, moves, i, k, j - 1);
      ExecutionSound(ws, moves, j - 1);
      assert Advances(ws, moves, j - 1);
      MoveKeepsLock(ws[j - 1], moves[j - 1], i);
    }
  }
}
