// The protocol client state machine of src/protocol_client_sm.c as an object with the fields
// of struct protocol_client_sm_class, updated in place. Every method is proved to take the
// step that ProtocolModel describes.

module ProtocolClientSm {
  import opened Common
  import opened ProtocolModel

  // connecting_sm and the function-static variables start_time and next_state.
  class Globals {
    var connectingSm: Option<nat>
    var startTime: int
    var nextState: State

    // protocol_client_sm_init
    constructor ()
      ensures View() == Shared(None, 0, Resetting)
    {
      connectingSm, startTime, nextState := None, 0, Resetting;
    }

    function View(): Shared
      reads this
    {
      Shared(connectingSm, startTime, nextState)
    }
  }

  class Sm {
    const me: nat
    const cfg: Config

    var queue: seq<Request>
    var sent: seq<Request>
    var sentNum: int
    var active: Option<Request>
    ghost var history: seq<Fact>

    var socket: bool
    var connected: bool
    var retryCnt: int
    ghost var attempt: int

    var state: State
    var transmitFailures: nat
    var timeouts: int
    var lastReset: int
    var abort: bool
    var abortDone: bool
    var alwaysDisconnect: bool
    var status: bool          // response.status
    var responseCode: int     // response.response_code

    // protocol_client_sm_new
    constructor (me: nat, cfg: Config)
      ensures View() == New(cfg) && this.me == me
    {
      this.me, this.cfg := me, cfg;
      queue, sent, sentNum, active, history := [], [], 0, None, [];
      socket, connected, retryCnt, attempt := false, false, 0, 0;
      state, transmitFailures, timeouts, lastReset := Resetting, 0, 0, 0;
      abort, abortDone, alwaysDisconnect, status, responseCode := false, false, false, false, 0;
    }

    ghost function Work(): Work
      reads this
    {
      ProtocolModel.Work(queue, active, sent, sentNum, history)
    }

    ghost function Link(): Link
      reads this
    {
      ProtocolModel.Link(socket, connected, retryCnt, attempt)
    }

    ghost function View(): Machine
      reads this
    {
      Machine(cfg, Work(), Link(), state, status, transmitFailures, timeouts, lastReset, abort, abortDone,
              alwaysDisconnect)
    }

    // ---------------------------------------------------------------- the connection

    method CloseSocket()
      modifies this`socket, this`connected, this`retryCnt
      ensures View() == old(View()).(link := Close(old(Link())))
    {
      if socket {
        socket := false;
        connected := false;
        retryCnt := 0;
      }
    }

    method ConnectWait(g: Globals) returns (error: int)
      modifies g`connectingSm
      ensures MayConnect(old(g.View()), me) ==> error == ERR_SUCCESS && g.connectingSm == Some(me)
      ensures !MayConnect(old(g.View()), me) ==> error == ERR_BUSY && g.connectingSm == old(g.connectingSm)
    {
      if g.connectingSm == None || g.connectingSm == Some(me) {
        g.connectingSm := Some(me);
        error := ERR_SUCCESS;
      } else {
        error := ERR_BUSY;
      }
    }

    method StReset(env: Env) returns (next: State)
      modifies this`lastReset, this`socket, this`connected, this`retryCnt
      ensures (View(), next) == ProtocolModel.StReset(old(View()), env)
    {
      if Elapsed(env.now, lastReset) < RESET_DELAY { return Resetting; }
      lastReset := env.now;
      CloseSocket();
      next := Transmitting;
    }

    method CreateSocket(env: Env) returns (error: int)
      modifies this`socket
      ensures (Link(), error) == ProtocolModel.CreateSocket(old(Link()), env)
      ensures View() == old(View()).(link := Link())
    {
      error := env.lookup;
      if error != ERR_SUCCESS { return; }
      error := env.socket;
      if error != ERR_SUCCESS { return; }
      socket := true;
    }

    method StConnect(g: Globals, env: Env) returns (next: State)
      modifies this`socket, this`connected, this`retryCnt, this`attempt, g
      ensures (Link(), g.View(), next) == ProtocolModel.StConnect(old(Link()), cfg, me, old(g.View()), env)
      ensures View() == old(View()).(link := Link())
    {
      var error := ConnectWait(g);
      if error != ERR_SUCCESS { return Connecting; }
      if !socket {
        error := CreateSocket(env);
        if error == ERR_WOULD_BLOCK { return Connecting; }
        if error != ERR_SUCCESS { return Resetting; }
      }
      next := ConnectSocket(g, env);
    }

    // The part of st_connect that follows once there is a socket.
    method ConnectSocket(g: Globals, env: Env) returns (next: State)
      requires socket
      modifies this`connected, this`retryCnt, this`attempt, g
      ensures (Link(), g.View(), next) == ProtocolModel.ConnectSocket(old(Link()), cfg, old(g.View()), env)
    {
      if connected {
        g.connectingSm := None;
        return Transmitting;
      }
      NoteFirst(g, env);
      var error := env.connect;
      if error == ERR_SUCCESS {
        connected := true;
        next := Transmitting;
      } else if error == ERR_WOULD_BLOCK {
        next := StillConnecting(g, env);
      } else {
        next := Resetting;
      }
      if error != ERR_WOULD_BLOCK { g.connectingSm := None; }
    }

    // The first call of connect on a socket notes the time.
    method NoteFirst(g: Globals, env: Env)
      modifies this`retryCnt, this`attempt, g`startTime
      ensures if old(retryCnt) == 0 then retryCnt == 1 && attempt == g.startTime == env.now
              else retryCnt == old(retryCnt) && attempt == old(attempt) && g.startTime == old(g.startTime)
    {
      if retryCnt == 0 {
        retryCnt := retryCnt + 1;
        g.startTime := env.now;
        attempt := env.now;
      }
    }

    // Where an attempt that is not yet answered leads.
    method StillConnecting(g: Globals, env: Env) returns (next: State)
      ensures next == if Elapsed(env.now, g.startTime) <= cfg.connectTimeout then Connecting
                      else if retryCnt >= cfg.connectRetries then Failing else Resetting
    {
      if Elapsed(env.now, g.startTime) > cfg.connectTimeout {
        next := if retryCnt >= cfg.connectRetries then Failing else Resetting;
      } else {
        next := Connecting;
      }
    }

    method StFailure() returns (next: State)
      modifies this`transmitFailures
      ensures View() == old(View()).(transmitFailures := 0) && next == Resetting
    {
      transmitFailures := 0;
      next := Resetting;
    }

    // ---------------------------------------------------------------- the requests

    method StNewTransmit(env: Env)
      modifies this`queue, this`active
      ensures View() == old(View()).(work := NewTransmit(old(Work()), cfg, abort, env))
    {
      if abort { return; }
      if active == None && queue != [] {
        if cfg.limit == NO_REQUEST_LIMIT || cfg.limit > sentNum {
          active, queue := Some(queue[0].(start := env.now)), queue[1..];
        }
      }
    }

    method StSendRequest(env: Env) returns (error: int)
      modifies this`sent, this`sentNum, this`active
      ensures View() == old(View()).(work := Work()) && (Work(), error) == SendRequest(old(Work()), cfg, env)
    {
      if active == None { return ERR_SUCCESS; }
      error := env.send;
      if error == ERR_SUCCESS {
        sent := [active.value] + sent;
        sentNum := sentNum + 1;
        active := None;
      } else if error == ERR_WOULD_BLOCK {
        if Elapsed(env.now, active.value.start) > cfg.transmissionTimeout { error := ERR_TIMEOUT; }
      }
    }

    method StRecvResponse(env: Env) returns (error: int)
      modifies this`status, this`responseCode
      ensures error == env.recv
      ensures View() == old(View()).(status := if env.recv == ERR_SUCCESS then env.status else old(status))
      ensures env.recv != ERR_WOULD_BLOCK ==> responseCode == ResponseCode(env)
    {
      error := env.recv;
      if error == ERR_SUCCESS {
        responseCode := env.code;
        status := env.status;
      } else if error != ERR_WOULD_BLOCK {
        responseCode := error;
      }
    }

    method PairRequestToResponse(id: int) returns (r: Option<Request>)
      ensures r == Pair(sent, id)
    {
      var i := 0;
      while i < |sent|
        invariant 0 <= i <= |sent|
        invariant Pair(sent, id) == Pair(sent[i..], id)
      {
        if sent[i].messageId == id { return Some(sent[i]); }
        i := i + 1;
      }
      r := None;
    }

    // list_del, by the identity of the record
    method ListDel(id: nat)
      modifies this`sent
      ensures sent == Without(old(sent), id)
    {
      var i := 0;
      while i < |sent|
        invariant 0 <= i <= |sent| && sent == old(sent)
        invariant Without(sent, id) == sent[..i] + Without(sent[i..], id)
      {
        if sent[i].id == id {
          sent := sent[..i] + sent[i + 1..];
          return;
        }
        assert sent[..i] + [sent[i]] == sent[..i + 1];
        i := i + 1;
      }
    }

    // The out-parameter is the callback it runs.
    method StTransmitComplete(r: Request) returns (call: Fact)
      modifies this`sent, this`sentNum, this`history
      ensures View() == CompleteIf(old(View()), Some(r), responseCode)
      ensures call.Called? && call.req == r && call.code == responseCode && Reports(old(history), history, [call])
    {
      var complete := true;
      if !cfg.synch && r.typ == SubscribeAsynch {
        complete := false;
        if abort { complete := true; }
        if !status { complete := true; }
      }
      call := Called(r, responseCode, complete);
      history := history + [call];
      ReportsOne(old(history), call);
      if !complete {
        NoteLetGo(r);
        ReportsNext(old(history), old(history) + [call], history, [call], []);
      } else {
        ListDel(r.id);
        if sentNum != 0 { sentNum := sentNum - 1; }
      }
    }

    // A request kept open that is not on the sent list either.
    ghost method NoteLetGo(r: Request)
      modifies this`history
      ensures history == if r in sent then old(history) else old(history) + [LetGo(r.id)]
      ensures Reports(old(history), history, [])
    {
      if r !in sent {
        history := history + [LetGo(r.id)];
        ReportsOne(old(history), LetGo(r.id));
      } else {
        ReportsNone(history);
      }
    }

    // Dropping the active request on the way to completing another one.
    ghost method NoteOverwritten(before: Option<Request>)
      modifies this`history
      ensures history == if before.Some? then old(history) + [Overwritten(before.value.id)] else old(history)
      ensures Reports(old(history), history, [])
    {
      ReportsNone(history);
      if before.Some? {
        history := history + [Overwritten(before.value.id)];
        ReportsOne(old(history), Overwritten(before.value.id));
      }
    }

    // The loop of check_timeout.
    method FindTimedOut(env: Env) returns (r: Option<Request>)
      ensures r == FirstTimedOut(sent, cfg, env)
    {
      var i := 0;
      while i < |sent|
        invariant 0 <= i <= |sent|
        invariant FirstTimedOut(sent, cfg, env) == FirstTimedOut(sent[i..], cfg, env)
      {
        if !(!cfg.synch && sent[i].typ == SubscribeAsynch) {
          if Elapsed(env.now, sent[i].start) > cfg.transmissionTimeout { return Some(sent[i]); }
        }
        i := i + 1;
      }
      r := None;
    }

    method CheckTimeout(env: Env) returns (completed: Option<Request>)
      modifies this`active, this`timeouts, this`responseCode, this`history
      ensures (Work(), completed) == TakeTimedOut(old(Work()), cfg, env)
      ensures completed.Some? ==> responseCode == ERR_TIMEOUT
      ensures Reports(old(history), history, [])
      ensures View() == old(View()).(work := Work(), timeouts := old(timeouts) + if completed.Some? then 1 else 0)
    {
      ReportsNone(history);
      completed := FindTimedOut(env);
      if completed.Some? {
        NoteOverwritten(active);
      } else if active.Some? && Elapsed(env.now, active.value.start) > cfg.transmissionTimeout {
        completed := active;
      } else {
        return;
      }
      responseCode := ERR_TIMEOUT;
      active := None;
      timeouts := timeouts + 1;
    }

    method AbortTransfers() returns (completed: Option<Request>)
      modifies this`queue, this`active, this`abort, this`abortDone, this`responseCode, this`history
      ensures Reports(old(history), history, [])
      ensures !old(abort) ==> completed == None && View() == old(View())
      ensures old(abort) ==> (Work(), completed) == TakeAborted(old(Work()))
      ensures completed.Some? ==> responseCode == ERR_REQUEST_ABORTED && View() == old(View()).(work := Work())
      ensures old(abort) && completed.None? ==> View() == old(View()).(abort := false, abortDone := true)
    {
      ReportsNone(history);
      if !abort { return None; }
      if queue != [] {
        responseCode := ERR_REQUEST_ABORTED;
        completed := Some(queue[0]);
        queue := queue[1..];
        NoteOverwritten(active);
        active := None;
      } else if sent != [] {
        responseCode := ERR_REQUEST_ABORTED;
        completed := Some(sent[0]);
        NoteOverwritten(active);
        active := None;
      } else if active.Some? {
        responseCode := ERR_REQUEST_ABORTED;
        completed := active;
        active := None;
      } else {
        completed := None;
        abort := false;
        abortDone := true;
      }
    }

    // ---------------------------------------------------------------- one step

    // Sending the active request and receiving a response, as st_transmit does when connected.
    method SendAndReceive(env: Env) returns (paired: Option<Request>)
      modifies this`sent, this`sentNum, this`active, this`transmitFailures, this`status, this`responseCode
      ensures (View(), paired) == Exchange(old(View()), env)
      ensures paired.Some? ==> responseCode == ResponseCode(env)
    {
      paired := None;
      var error := StSendRequest(env);
      CountFailure(error);
      error := StRecvResponse(env);
      if error == ERR_SUCCESS || error == ERR_OVERFLOW {
        paired := PairRequestToResponse(env.id);
      } else {
        CountFailure(error);
      }
    }

    method CountFailure(error: int)
      modifies this`transmitFailures
      ensures transmitFailures ==
              old(transmitFailures) + if error != ERR_SUCCESS && error != ERR_WOULD_BLOCK then 1 else 0
    {
      if error != ERR_SUCCESS && error != ERR_WOULD_BLOCK { transmitFailures := transmitFailures + 1; }
    }

    method ConnectAndExchange(g: Globals, env: Env) returns (paired: Option<Request>, next: State)
      modifies this, g
      ensures history == old(history)
      ensures (View(), paired, g.View(), next) == Communicate(old(View()), me, old(g.View()), env)
      ensures paired.Some? ==> responseCode == ResponseCode(env)
    {
      StNewTransmit(env);
      next := StConnect(g, env);
      paired := None;
      if next == Transmitting { paired := SendAndReceive(env); }
    }

    // Completing a request, if there is one; the callbacks are the one it runs, or none.
    method CompleteAny(r: Option<Request>) returns (calls: seq<Fact>)
      modifies this`sent, this`sentNum, this`history
      ensures View() == CompleteIf(old(View()), r, responseCode)
      ensures Reports(old(history), history, calls) && (calls == [] <==> r.None?)
    {
      calls := [];
      ReportsNone(history);
      if r.Some? {
        var call := StTransmitComplete(r.value);
        calls := [call];
      }
    }

    method CompleteTimedOut(env: Env) returns (calls: seq<Fact>)
      modifies this
      ensures (View(), calls != []) == TimeoutStep(old(View()), env)
      ensures Reports(old(history), history, calls)
    {
      var r := CheckTimeout(env);
      ghost var middle := history;
      calls := CompleteAny(r);
      ReportsNext(old(history), middle, history, [], calls);
      assert [] + calls == calls;
    }

    method CompleteAborted() returns (calls: seq<Fact>)
      modifies this
      ensures (View(), calls != []) == AbortStep(old(View()))
      ensures Reports(old(history), history, calls)
    {
      var r := AbortTransfers();
      ghost var middle := history;
      calls := CompleteAny(r);
      ReportsNext(old(history), middle, history, [], calls);
      assert [] + calls == calls;
    }

    // The second half of st_transmit
    method CompleteAll(paired: Option<Request>, env: Env) returns (calls: seq<Fact>)
      requires paired.Some? ==> responseCode == ResponseCode(env)
      modifies this
      ensures (View(), calls != []) == Completions(old(View()), paired, env)
      ensures Reports(old(history), history, calls)
    {
      var first := CompleteAny(paired);
      ghost var h1 := history;
      var second := CompleteTimedOut(env);
      ghost var h2 := history;
      ReportsNext(old(history), h1, h2, first, second);
      var third := CompleteAborted();
      ReportsNext(old(history), h2, history, first + second, third);
      calls := first + second + third;
    }

    // st_transmit
    method StTransmit(g: Globals, env: Env) returns (next: State, calls: seq<Fact>)
      modifies this, g
      ensures (View(), g.View(), next) == ProtocolModel.StTransmit(old(View()), me, old(g.View()), env)
      ensures Reports(old(history), history, calls)
    {
      var paired, wanted := ConnectAndExchange(g, env);
      calls := CompleteAll(paired, env);
      next := FinishTransmit(calls != [], wanted);
    }

    // The end of st_transmit.
    method FinishTransmit(completed: bool, wanted: State) returns (next: State)
      modifies this`timeouts, this`abortDone, this`socket, this`connected, this`retryCnt
      ensures (View(), next) == Settle(old(View()), completed, wanted)
    {
      next := wanted;
      if alwaysDisconnect && completed { next := Resetting; }
      next := CheckSession(next);
      if next == Connecting { next := Transmitting; }
      if next == Resetting { CloseSocket(); }
    }

    // Too many timeouts and a finished abort end the session.
    method CheckSession(wanted: State) returns (next: State)
      modifies this`timeouts, this`abortDone
      ensures next == if old(timeouts) > MAX_RESPONSE_TIMEOUT_PER_SESSION || old(abortDone) then Resetting else wanted
      ensures timeouts == (if old(timeouts) > MAX_RESPONSE_TIMEOUT_PER_SESSION then 0 else old(timeouts)) && !abortDone
    {
      next := wanted;
      if timeouts > MAX_RESPONSE_TIMEOUT_PER_SESSION {
        timeouts := 0;
        next := Resetting;
      }
      if abortDone {
        abortDone := false;
        next := Resetting;
      }
    }

    // protocol_client_sm_task; the out-parameter holds the callbacks it runs, in order.
    method Task(g: Globals, env: Env) returns (calls: seq<Fact>)
      modifies this, g
      ensures (View(), g.View()) == ProtocolModel.Task(old(View()), me, old(g.View()), env)
      ensures Reports(old(history), history, calls)
    {
      calls := [];
      ReportsNone(history);
      match state {
        case Resetting => g.nextState := StReset(env);
        case Transmitting => g.nextState, calls := StTransmit(g, env);
        case Failing => g.nextState := StFailure();
        case Connecting =>
      }
      if transmitFailures > cfg.transmissionRetries { g.nextState := Failing; }
      state := g.nextState;
    }

    // ---------------------------------------------------------------- calls from above

    // protocol_client_sm_is_queue_full
    method IsQueueFull() returns (full: bool)
      ensures full == QueueFull(View())
    {
      full := |queue| == cfg.queueSize;
    }

    // protocol_client_sm_transmit
    method TransmitRequest(r: Request, memory: bool) returns (error: int)
      modifies this`queue, this`history
      ensures (View(), error) == Transmit(old(View()), r, memory)
    {
      if !memory { return ERR_NO_MEMORY; }
      error := ERR_FAILURE;
      if |queue| < cfg.queueSize {
        queue := queue + [r.(start := 0)];
        history := history + [Accepted(r)];
        error := ERR_SUCCESS;
      }
    }

    // protocol_client_sm_clear
    method ClearRequests()
      modifies this`abort
      ensures View() == Clear(old(View()))
    {
      abort := true;
    }

    // protocol_client_sm_is_empty
    method IsEmptied() returns (empty: bool)
      ensures empty == IsEmpty(View())
    {
      empty := !abort;
    }
  }
}
