// The protocol client state machine of src/protocol_client_sm.c as a function on states: one
// step of a machine, given the state shared by all machines and the inputs of the environment.

module ProtocolModel {
  import opened Common

  const ERR_BUSY := -17

  const NO_REQUEST_LIMIT := 0
  const MAX_RESPONSE_TIMEOUT_PER_SESSION := 5
  const RESET_DELAY := 1000

  // system_get_diff_time
  function Elapsed(now: int, start: int): (d: nat)
    ensures d < CLOCK
  {
    (now - start) % CLOCK
  }

  datatype RequestType = Normal | Subscribe | SubscribeAsynch

  // What the upper layer hands down with a request and gets back in its callback; tag stands for
  // the address of the arguments.
  datatype Args = Args(procedure: Procedure, alias: string, tag: nat)

  // A request record; id stands for its address.
  datatype Request = Request(id: nat, typ: RequestType, args: Args, messageId: int, start: int)

  // What has happened to requests. A record is freed after a call that is done; Overwritten
  // is a record whose only reference, the active slot, was set to NULL; LetGo is one whose
  // callback ran but which is then neither on a list nor freed.
  datatype Fact =
    | Accepted(req: Request)
    | Called(req: Request, code: int, done: bool)
    | Overwritten(id: nat)
    | LetGo(id: nat)

  // The requests of a machine, and their history, which no step reads.
  datatype Work = Work(queue: seq<Request>, active: Option<Request>, sent: seq<Request>, sentNum: int,
                       history: seq<Fact>)

  // Its connection; attempt is the time of the last connection attempt, also only history.
  datatype Link = Link(socket: bool, connected: bool, retryCnt: int, attempt: int)

  datatype State = Resetting | Connecting | Transmitting | Failing

  datatype Config = Config(
    synch: bool, limit: int, queueSize: nat,
    connectRetries: int, transmissionRetries: nat, connectTimeout: nat, transmissionTimeout: nat)

  datatype Machine = Machine(
    cfg: Config, work: Work, link: Link, state: State,
    status: bool, transmitFailures: nat, timeouts: int, lastReset: int,
    abort: bool, abortDone: bool, alwaysDisconnect: bool)

  // connecting_sm (as the index of the machine) and the two function-static variables.
  datatype Shared = Shared(owner: Option<nat>, startTime: int, nextState: State)

  // What the network, the protocol client and the clock answer during one step.
  datatype Env = Env(now: int, lookup: int, socket: int, connect: int, send: int,
                     recv: int, code: int, id: int, status: bool)

  // protocol_client_sm_new
  function New(cfg: Config): Machine {
    Machine(cfg, Work([], None, [], 0, []), Link(false, false, 0, 0), Resetting, false, 0, 0, 0, false, false, false)
  }

  // ---------------------------------------------------------------- the connection

  function Close(link: Link): Link {
    if link.socket then link.(socket := false, connected := false, retryCnt := 0) else link
  }

  // connect_wait
  predicate MayConnect(g: Shared, me: nat) { g.owner == None || g.owner == Some(me) }

  // create_socket
  function CreateSocket(link: Link, env: Env): (Link, int) {
    if env.lookup != ERR_SUCCESS then (link, env.lookup)
    else if env.socket != ERR_SUCCESS then (link, env.socket)
    else (link.(socket := true), ERR_SUCCESS)
  }

  function StConnect(link: Link, cfg: Config, me: nat, g: Shared, env: Env): (Link, Shared, State) {
    if !MayConnect(g, me) then (link, g, Connecting)
    else
      var g1 := g.(owner := Some(me));
      if link.socket then ConnectSocket(link, cfg, g1, env)
      else
        var (link1, error) := CreateSocket(link, env);
        if error == ERR_WOULD_BLOCK then (link1, g1, Connecting)
        else if error != ERR_SUCCESS then (link1, g1, Resetting)
        else ConnectSocket(link1, cfg, g1, env)
  }

  // The part of st_connect that follows once there is a socket.
  function ConnectSocket(link: Link, cfg: Config, g: Shared, env: Env): (Link, Shared, State) {
    if link.connected then (link, g.(owner := None), Transmitting)
    else
      var first := link.retryCnt == 0;
      var link1 := if first then link.(retryCnt := 1, attempt := env.now) else link;
      var g1 := if first then g.(startTime := env.now) else g;
      if env.connect == ERR_SUCCESS then (link1.(connected := true), g1.(owner := None), Transmitting)
      else if env.connect == ERR_WOULD_BLOCK then
        var next :=
          if Elapsed(env.now, g1.startTime) > cfg.connectTimeout then
            if link1.retryCnt >= cfg.connectRetries then Failing else Resetting
          else Connecting;
        (link1, g1, next)
      else (link1, g1.(owner := None), Resetting)
  }

  // ---------------------------------------------------------------- the requests

  // st_new_transmit
  function NewTransmit(w: Work, cfg: Config, abort: bool, env: Env): Work {
    if !abort && w.active == None && w.queue != [] && (cfg.limit == NO_REQUEST_LIMIT || cfg.limit > w.sentNum) then
      w.(active := Some(w.queue[0].(start := env.now)), queue := w.queue[1..])
    else w
  }

  predicate TimedOut(r: Request, cfg: Config, env: Env) {
    Elapsed(env.now, r.start) > cfg.transmissionTimeout
  }

  // st_send_request
  function SendRequest(w: Work, cfg: Config, env: Env): (Work, int) {
    if w.active == None then (w, ERR_SUCCESS)
    else if env.send == ERR_SUCCESS then
      (w.(sent := [w.active.value] + w.sent, sentNum := w.sentNum + 1, active := None), ERR_SUCCESS)
    else if env.send == ERR_WOULD_BLOCK && TimedOut(w.active.value, cfg, env) then (w, ERR_TIMEOUT)
    else (w, env.send)
  }

  // pair_request_to_response: the first request on a list with the given message id
  function Pair(sent: seq<Request>, id: int): Option<Request> {
    if sent == [] then None
    else if sent[0].messageId == id then Some(sent[0])
    else Pair(sent[1..], id)
  }

  // list_del: the list without the record of that identity, which need not be on it
  function Without(sent: seq<Request>, id: nat): seq<Request> {
    if sent == [] then []
    else if sent[0].id == id then sent[1..]
    else [sent[0]] + Without(sent[1..], id)
  }

  // An asynchronous subscription stays open after a successful response.
  predicate KeepsOpen(m: Machine, r: Request) {
    !m.cfg.synch && r.typ == SubscribeAsynch && !m.abort && m.status
  }

  // st_transmit_complete
  function Complete(w: Work, r: Request, code: int, open: bool): Work {
    if open then
      var called := w.history + [Called(r, code, false)];
      w.(history := if r in w.sent then called else called + [LetGo(r.id)])
    else
      w.(sent := Without(w.sent, r.id),
         sentNum := if w.sentNum != 0 then w.sentNum - 1 else 0,
         history := w.history + [Called(r, code, true)])
  }

  predicate IsOpenSubscription(r: Request, cfg: Config) { !cfg.synch && r.typ == SubscribeAsynch }

  // The first request on the sent list that has waited too long for its response.
  function FirstTimedOut(sent: seq<Request>, cfg: Config, env: Env): Option<Request> {
    if sent == [] then None
    else if !IsOpenSubscription(sent[0], cfg) && TimedOut(sent[0], cfg, env) then Some(sent[0])
    else FirstTimedOut(sent[1..], cfg, env)
  }

  // Setting active_request to NULL while another request is completed.
  function Overwrite(w: Work): Work {
    if w.active == None then w
    else w.(active := None, history := w.history + [Overwritten(w.active.value.id)])
  }

  // check_timeout
  function TakeTimedOut(w: Work, cfg: Config, env: Env): (Work, Option<Request>) {
    var late := FirstTimedOut(w.sent, cfg, env);
    if late.Some? then (Overwrite(w), late)
    else if w.active.Some? && TimedOut(w.active.value, cfg, env) then (w.(active := None), w.active)
    else (w, None)
  }

  // abort_transfers, while the abort flag is set
  function TakeAborted(w: Work): (Work, Option<Request>) {
    if w.queue != [] then (Overwrite(w.(queue := w.queue[1..])), Some(w.queue[0]))
    else if w.sent != [] then (Overwrite(w), Some(w.sent[0]))
    else if w.active.Some? then (w.(active := None), w.active)
    else (w, None)
  }

  // ---------------------------------------------------------------- one step

  // st_reset
  function StReset(m: Machine, env: Env): (Machine, State) {
    if Elapsed(env.now, m.lastReset) < RESET_DELAY then (m, Resetting)
    else (m.(lastReset := env.now, link := Close(m.link)), Transmitting)
  }

  function CompleteIf(m: Machine, r: Option<Request>, code: int): Machine {
    if r.Some? then m.(work := Complete(m.work, r.value, code, KeepsOpen(m, r.value))) else m
  }

  // st_send_request and st_recv_response, and the request that the response pairs with
  function Exchange(m: Machine, env: Env): (Machine, Option<Request>) {
    var (w, error) := SendRequest(m.work, m.cfg, env);
    var failed := error != ERR_SUCCESS && error != ERR_WOULD_BLOCK;
    var m1 := m.(work := w, transmitFailures := m.transmitFailures + if failed then 1 else 0);
    if env.recv == ERR_SUCCESS then (m1.(status := env.status), Pair(w.sent, env.id))
    else if env.recv == ERR_OVERFLOW then (m1, Pair(w.sent, env.id))
    else if env.recv == ERR_WOULD_BLOCK then (m1, None)
    else (m1.(transmitFailures := m1.transmitFailures + 1), None)
  }

  function ResponseCode(env: Env): int { if env.recv == ERR_SUCCESS then env.code else env.recv }

  // check_timeout, and completing what it finds
  function TimeoutStep(m: Machine, env: Env): (Machine, bool) {
    var (w, late) := TakeTimedOut(m.work, m.cfg, env);
    if late.Some? then (CompleteIf(m.(work := w, timeouts := m.timeouts + 1), late, ERR_TIMEOUT), true)
    else (m, false)
  }

  // abort_transfers, and completing what it finds
  function AbortStep(m: Machine): (Machine, bool) {
    if !m.abort then (m, false)
    else
      var (w, r) := TakeAborted(m.work);
      if r.Some? then (CompleteIf(m.(work := w), r, ERR_REQUEST_ABORTED), true)
      else (m.(abort := false, abortDone := true), false)
  }

  // The end of st_transmit: where the machine goes next.
  function Settle(m: Machine, completed: bool, next: State): (Machine, State) {
    var tooMany := m.timeouts > MAX_RESPONSE_TIMEOUT_PER_SESSION;
    var reset := (m.alwaysDisconnect && completed) || tooMany || m.abortDone || next == Resetting;
    var m1 := m.(timeouts := if tooMany then 0 else m.timeouts, abortDone := false);
    if reset then (m1.(link := Close(m1.link)), Resetting)
    else (m1, if next == Connecting then Transmitting else next)
  }

  // The first half of st_transmit: take the next request, connect, send and receive.
  function Communicate(m: Machine, me: nat, g: Shared, env: Env): (Machine, Option<Request>, Shared, State) {
    var w := NewTransmit(m.work, m.cfg, m.abort, env);
    var (link, g1, next) := StConnect(m.link, m.cfg, me, g, env);
    var m1 := m.(work := w, link := link);
    if next != Transmitting then (m1, None, g1, next)
    else
      var (m2, paired) := Exchange(m1, env);
      (m2, paired, g1, next)
  }

  // The second half: complete the paired response, at most one late and one aborted request.
  function Completions(m: Machine, paired: Option<Request>, env: Env): (Machine, bool) {
    var m1 := CompleteIf(m, paired, ResponseCode(env));
    var (m2, late) := TimeoutStep(m1, env);
    var (m3, aborted) := AbortStep(m2);
    (m3, paired.Some? || late || aborted)
  }

  // st_transmit
  function StTransmit(m: Machine, me: nat, g: Shared, env: Env): (Machine, Shared, State) {
    var (m1, paired, g1, next) := Communicate(m, me, g, env);
    var (m2, completed) := Completions(m1, paired, env);
    var (m3, next') := Settle(m2, completed, next);
    (m3, g1, next')
  }

  // protocol_client_sm_task
  function Task(m: Machine, me: nat, g: Shared, env: Env): (Machine, Shared) {
    var (m1, g1, next) :=
      match m.state
      case Resetting => var (m', n) := StReset(m, env); (m', g, n)
      case Transmitting => StTransmit(m, me, g, env)
      case Failing => (m.(transmitFailures := 0), g, Resetting)
      case Connecting => (m, g, g.nextState);
    var next' := if m1.transmitFailures > m1.cfg.transmissionRetries then Failing else next;
    (m1.(state := next'), g1.(nextState := next'))
  }

  // The callbacks among the facts, in order.
  function CalledOnly(facts: seq<Fact>): seq<Fact> {
    if facts == [] then []
    else (if facts[0].Called? then [facts[0]] else []) + CalledOnly(facts[1..])
  }

  // The history goes on with facts of which those are the callbacks.
  ghost predicate Reports(before: seq<Fact>, after: seq<Fact>, calls: seq<Fact>) {
    before <= after && CalledOnly(after[|before|..]) == calls
  }

  lemma {:induction false} CalledJoined(a: seq<Fact>, b: seq<Fact>)
    ensures CalledOnly(a + b) == CalledOnly(a) + CalledOnly(b)
  {
    if a == [] {
      assert a + b == b;
    } else {
      assert (a + b)[0] == a[0] && (a + b)[1..] == a[1..] + b;
      CalledJoined(a[1..], b);
    }
  }

  lemma ReportsNext(before: seq<Fact>, middle: seq<Fact>, after: seq<Fact>, calls: seq<Fact>, more: seq<Fact>)
    requires Reports(before, middle, calls) && Reports(middle, after, more)
    ensures Reports(before, after, calls + more)
  {
    assert after[|before|..] == middle[|before|..] + after[|middle|..];
    CalledJoined(middle[|before|..], after[|middle|..]);
  }

  lemma ReportsOne(h: seq<Fact>, f: Fact)
    ensures Reports(h, h + [f], if f.Called? then [f] else [])
  {
    assert (h + [f])[|h|..] == [f];
    assert [f][1..] == [] && CalledOnly([f][1..]) == [];
  }

  lemma ReportsNone(h: seq<Fact>)
    ensures Reports(h, h, [])
  {
    assert h[|h|..] == [];
  }

  // ---------------------------------------------------------------- calls from above

  // protocol_client_sm_is_queue_full
  predicate QueueFull(m: Machine) { |m.work.queue| == m.cfg.queueSize }

  // protocol_client_sm_transmit; the call fails when the queue is full or there is no memory
  function Transmit(m: Machine, r: Request, memory: bool): (Machine, int) {
    if !memory then (m, ERR_NO_MEMORY)
    else if |m.work.queue| < m.cfg.queueSize then
      var w := m.work;
      (m.(work := w.(queue := w.queue + [r.(start := 0)], history := w.history + [Accepted(r)])), ERR_SUCCESS)
    else (m, ERR_FAILURE)
  }

  // protocol_client_sm_clear
  function Clear(m: Machine): Machine { m.(abort := true) }

  // protocol_client_sm_is_empty
  predicate IsEmpty(m: Machine) { !m.abort }

  // ---------------------------------------------------------------- runs of one machine

  datatype Event =
    | Poll(g: Shared, env: Env)  // a task call, with whatever the other machines left in g
    | Submit(r: Request, memory: bool)
    | Abort

  function Apply(m: Machine, me: nat, e: Event): Machine {
    match e
    case Poll(g, env) => Task(m, me, g, env).0
    case Submit(r, memory) => Transmit(m, r, memory).0
    case Abort => Clear(m)
  }

  // No request with that address has been accepted.
  ghost predicate Unaccepted(h: seq<Fact>, id: nat) {
    forall i :: 0 <= i < |h| && h[i].Accepted? ==> h[i].req.id != id
  }

  // The address of a request record is not that of an earlier one.
  ghost predicate Admissible(m: Machine, e: Event) { e.Submit? ==> Unaccepted(m.work.history, e.r.id) }

  function Run(m: Machine, me: nat, es: seq<Event>): Machine
    decreases |es|
  {
    if es == [] then m else Run(Apply(m, me, es[0]), me, es[1..])
  }

  ghost predicate AdmissibleRun(m: Machine, me: nat, es: seq<Event>)
    decreases |es|
  {
    es == [] || (Admissible(m, es[0]) && AdmissibleRun(Apply(m, me, es[0]), me, es[1..]))
  }
}
