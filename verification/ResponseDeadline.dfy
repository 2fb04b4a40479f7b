// The promise of src/protocol_client_sm.c that the application is called back in time: on a
// machine with one request at a time, every request taken from the queue is finished within
// the transmission timeout, one reset delay and a constant number of polls.

module ResponseDeadline {
  import opened Common
  import opened ProtocolModel
  import opened ProtocolSafety
  import opened ProtocolFlow
  import opened ProtocolLoss
  import opened ConnectLock

  // ---------------------------------------------------------------- the 32-bit clock

  // As long as less than one turn of the clock has passed, the elapsed time is right.
  lemma ElapsedIs(t: nat, start: nat)
    requires start <= t < start + CLOCK
    ensures Elapsed(t % CLOCK, start % CLOCK) == t - start
  {
    assert t == CLOCK * (t / CLOCK) + t % CLOCK;
    assert start == CLOCK * (start / CLOCK) + start % CLOCK;
    var turns := t / CLOCK - start / CLOCK;
    assert t % CLOCK - start % CLOCK == (t - start) - CLOCK * turns;
    ModShift(t - start, -turns);
  }

  lemma ModShift(a: nat, turns: int)
    requires a < CLOCK
    ensures (a + CLOCK * turns) % CLOCK == a
  {}

  lemma ElapsedLater(t: nat, t': nat, start: int)
    requires t <= t' && Elapsed(t % CLOCK, start) + (t' - t) < CLOCK
    ensures Elapsed(t' % CLOCK, start) == Elapsed(t % CLOCK, start) + (t' - t)
  {
    var e := Elapsed(t % CLOCK, start);
    var q := (t % CLOCK - start) / CLOCK;
    assert t % CLOCK - start == CLOCK * q + e;
    assert t == CLOCK * (t / CLOCK) + t % CLOCK && t' == CLOCK * (t' / CLOCK) + t' % CLOCK;
    var turns := q + t / CLOCK - t' / CLOCK;
    assert t' % CLOCK - start == (e + (t' - t)) + CLOCK * turns;
    ModShift(e + (t' - t), turns);
  }

  // ---------------------------------------------------------------- timed runs

  // A machine, the time of its last poll, the time of its last visit to st_transmit, and the
  // time at which the request in flight was taken from the queue.
  datatype Watch = Watch(m: Machine, t: nat, visit: nat, taken: nat)

  datatype Event = PollAt(t: nat, g: Shared, env: Env) | SubmitNow(r: Request, memory: bool)

  function InFlight(w: Work): Option<Request> {
    if w.active.Some? then w.active else if w.sent != [] then Some(w.sent[0]) else None
  }

  function Untimed(e: Event): ProtocolModel.Event {
    match e
    case PollAt(t, g, env) => Poll(g, env.(now := t % CLOCK))
    case SubmitNow(r, memory) => Submit(r, memory)
  }

  function Next(w: Watch, me: nat, e: Event): Watch {
    var m := Apply(w.m, me, Untimed(e));
    match e
    case SubmitNow(_, _) => w.(m := m)
    case PollAt(t, _, _) =>
      if w.m.state == Transmitting then Watch(m, t, t, if InFlight(w.m.work) == None then t else w.taken)
      else w.(m := m, t := t)
  }

  // Polls are at most d apart.
  ghost predicate Timely(w: Watch, e: Event, d: nat) {
    && Admissible(w.m, Untimed(e))
    && (e.PollAt? ==> w.t <= e.t <= w.t + d)
  }

  function Start(cfg: Config, t: nat): Watch { Watch(New(cfg), t, t, t) }

  // The configuration of a synchronous protocol such as HTTP, and a clock that outlives a request.
  ghost predicate Fits(cfg: Config, d: nat) {
    cfg.synch && cfg.limit == 1 && cfg.transmissionTimeout + RESET_DELAY + 4 * d < CLOCK
  }

  // ---------------------------------------------------------------- the invariant

  // How long the machine can have been away from st_transmit.
  ghost predicate Away(w: Watch, d: nat) {
    var e := Elapsed(w.t % CLOCK, w.m.lastReset);
    match w.m.state
    case Transmitting => w.visit <= w.t <= w.visit + RESET_DELAY - 1 + 3 * d
    case Failing => w.t == w.visit
    case Resetting =>
      w.visit <= w.t && (w.t <= w.visit + d || (e < RESET_DELAY && w.t <= w.visit + 2 * d + e))
    case Connecting => false
  }

  // The request in flight had not timed out at the last visit.
  ghost predicate InTime(w: Watch) {
    InFlight(w.m.work).Some? ==>
      && InFlight(w.m.work).value.start == w.taken % CLOCK
      && w.taken <= w.visit <= w.taken + w.m.cfg.transmissionTimeout
  }

  ghost predicate WatchSound(w: Watch, d: nat) {
    && Fits(w.m.cfg, d) && !w.m.abort && FlowSound(w.m) && LinkSound(w.m)
    && Away(w, d) && InTime(w)
  }

  // After a visit at time now no request in flight is late.
  ghost predicate NoneLate(w: Work, cfg: Config, env: Env) {
    InFlight(w).Some? ==> !TimedOut(InFlight(w).value, cfg, env)
  }

  lemma VisitLeavesNoneLate(m: Machine, me: nat, g: Shared, env: Env)
    requires Fits(m.cfg, 0) && !m.abort && FlowSound(m)
    ensures var m' := StTransmit(m, me, g, env).0;
            && NoneLate(m'.work, m.cfg, env) && !m'.abort && m'.cfg == m.cfg && m'.lastReset == m.lastReset
    ensures var w := StTransmit(m, me, g, env).0.work;
            InFlight(w).Some? ==>
              if InFlight(m.work).Some? then InFlight(w) == InFlight(m.work) else InFlight(w).value.start == env.now
  {
    CommunicateFlow(m, me, g, env);
    var (m1, paired, _, _) := Communicate(m, me, g, env);
    CommunicateCarries(m, me, g, env);
    CompleteIfFlow(m1, paired, ResponseCode(env));
    var m2 := CompleteIf(m1, paired, ResponseCode(env));
    CompleteIfEmpties(m1, paired, ResponseCode(env));
    TimeoutStepFlow(m2, env);
    TimeoutStepEmpties(m2, env);
  }

  lemma CommunicateCarries(m: Machine, me: nat, g: Shared, env: Env)
    requires Fits(m.cfg, 0) && !m.abort && FlowSound(m)
    ensures var m' := Communicate(m, me, g, env).0;
            && m'.cfg == m.cfg && m'.abort == m.abort && m'.lastReset == m.lastReset
            && (InFlight(m'.work).Some? ==>
                  if InFlight(m.work).Some? then InFlight(m'.work) == InFlight(m.work)
                  else InFlight(m'.work).value.start == env.now)
  {
    var w := NewTransmit(m.work, m.cfg, m.abort, env);
    var m1 := m.(work := w, link := StConnect(m.link, m.cfg, me, g, env).0);
    assert InFlight(m.work).Some? ==> w == m.work;
    assert InFlight(SendRequest(w, m.cfg, env).0) == InFlight(w);
    assert InFlight(Exchange(m1, env).0.work) == InFlight(w);
  }

  // Completing the request in flight leaves none.
  lemma CompleteIfEmpties(m: Machine, r: Option<Request>, code: int)
    requires Fits(m.cfg, 0) && !m.abort && FlowSound(m) && (r.Some? ==> r.value in m.work.sent)
    ensures var m' := CompleteIf(m, r, code);
            && m'.cfg == m.cfg && m'.abort == m.abort && m'.lastReset == m.lastReset
            && InFlight(m'.work) == if r.Some? then None else InFlight(m.work)
  {
    if r.Some? { CompleteSizes(m.work, r.value, code, KeepsOpen(m, r.value)); }
  }

  lemma TimeoutStepEmpties(m: Machine, env: Env)
    requires Fits(m.cfg, 0) && !m.abort && FlowSound(m)
    ensures var m' := TimeoutStep(m, env).0;
            && m'.cfg == m.cfg && m'.abort == m.abort && m'.lastReset == m.lastReset
            && NoneLate(m'.work, m.cfg, env) && (InFlight(m'.work).Some? ==> InFlight(m'.work) == InFlight(m.work))
  {
    TimedOutIsSent(m.work.sent, m.cfg, env);
    var (w, late) := TakeTimedOut(m.work, m.cfg, env);
    if late.Some? && w.sent != [] {
      CompleteIfEmpties(m.(work := w, timeouts := m.timeouts + 1), late, ERR_TIMEOUT);
    } else if late.Some? {
      CompleteSizes(w, late.value, ERR_TIMEOUT, false);
    }
  }

  // ---------------------------------------------------------------- every event keeps it

  lemma ResetKeeps(w: Watch, me: nat, e: Event, d: nat)
    requires WatchSound(w, d) && e.PollAt? && Timely(w, e, d) && w.m.state == Resetting
    ensures Away(Next(w, me, e), d)
  {
    var start := w.m.lastReset;
    if Elapsed(w.t % CLOCK, start) < RESET_DELAY { ElapsedLater(w.t, e.t, start); }
  }

  lemma NextKeeps(w: Watch, me: nat, e: Event, d: nat)
    requires WatchSound(w, d) && Timely(w, e, d)
    ensures WatchSound(Next(w, me, e), d)
  {
    ApplyFlow(w.m, me, Untimed(e));
    var w' := Next(w, me, e);
    if e.PollAt? {
      var env := e.env.(now := e.t % CLOCK);
      LinkAlone(w.m, me, e.g, env);
      match w.m.state
      case Transmitting =>
        VisitLeavesNoneLate(w.m, me, e.g, env);
        if InFlight(w'.m.work).Some? { ElapsedIs(e.t, w'.taken); }
      case Resetting => ResetKeeps(w, me, e, d);
      case Failing =>
    }
  }

  // ---------------------------------------------------------------- a request in flight is served

  // Between two states of a machine, request x has not been accepted or let go, and is not less finished.
  ghost predicate Kept(w: Work, w': Work, x: nat) {
    var rec, rec' := RecordOf(w.history, x), RecordOf(w'.history, x);
    rec'.accepted == rec.accepted && rec'.letGo == rec.letGo && rec'.finished >= rec.finished
  }

  lemma CompleteIfTouches(m: Machine, r: Option<Request>, code: int, x: nat)
    requires m.cfg.synch
    ensures var m' := CompleteIf(m, r, code);
            m'.cfg == m.cfg && m'.abort == m.abort && m'.work.queue == m.work.queue && Kept(m.work, m'.work, x)
  {
    if r.Some? { TellRecord(m.work.history, Called(r.value, code, true), x); }
  }

  lemma TakeTouches(w: Work, cfg: Config, env: Env, x: nat)
    ensures var w' := TakeTimedOut(w, cfg, env).0; w'.queue == w.queue && Kept(w, w', x)
  {
    if w.active.Some? { TellRecord(w.history, Overwritten(w.active.value.id), x); }
  }

  lemma TimeoutStepTouches(m: Machine, env: Env, x: nat)
    requires m.cfg.synch
    ensures var m' := TimeoutStep(m, env).0; m'.work.queue == m.work.queue && Kept(m.work, m'.work, x)
  {
    var (w, late) := TakeTimedOut(m.work, m.cfg, env);
    TakeTouches(m.work, m.cfg, env, x);
    if late.Some? { CompleteIfTouches(m.(work := w, timeouts := m.timeouts + 1), late, ERR_TIMEOUT, x); }
  }

  lemma CommunicateTouches(m: Machine, me: nat, g: Shared, env: Env)
    requires Fits(m.cfg, 0) && !m.abort && FlowSound(m)
    ensures var m' := Communicate(m, me, g, env).0;
            && m'.cfg == m.cfg && m'.abort == m.abort && m'.work.history == m.work.history
            && (InFlight(m.work).Some? ==> m'.work.queue == m.work.queue)
  {
    CommunicateTells(m, me, g, env);
    var w := NewTransmit(m.work, m.cfg, m.abort, env);
    var m1 := m.(work := w, link := StConnect(m.link, m.cfg, me, g, env).0);
    assert InFlight(m.work).Some? ==> w == m.work;
    assert Exchange(m1, env).0.work.queue == w.queue;
  }

  // A synchronous machine that is not aborted never lets a request go unfinished, and takes
  // none from the queue while one is in flight.
  lemma VisitTouches(m: Machine, me: nat, g: Shared, env: Env, x: nat)
    requires Fits(m.cfg, 0) && !m.abort && FlowSound(m)
    ensures var w := StTransmit(m, me, g, env).0.work;
            Kept(m.work, w, x) && (InFlight(m.work).Some? ==> w.queue == m.work.queue)
  {
    CommunicateTouches(m, me, g, env);
    var (m1, paired, _, _) := Communicate(m, me, g, env);
    CompleteIfTouches(m1, paired, ResponseCode(env), x);
    var m2 := CompleteIf(m1, paired, ResponseCode(env));
    TimeoutStepTouches(m2, env, x);
    assert Completions(m1, paired, env).0 == TimeoutStep(m2, env).0;
  }

  // A request that was in flight and now is neither in flight nor lost has been finished.
  lemma NowhereElse(w: Work, w': Work, r: Request)
    requires Accounted(w, r.id, 0) && Accounted(w', r.id, 0) && InFlight(w) == Some(r)
    requires Kept(w, w', r.id) && Losses(w', r.id) == Losses(w, r.id) && w'.queue == w.queue
    requires InFlight(w') == None
    ensures RecordOf(w'.history, r.id).finished == 1
  {
    assert CountActive(w.active, r.id) + CountIn(w.sent, r.id) >= 1;
    assert CountActive(w'.active, r.id) + CountIn(w'.sent, r.id) == 0;
  }

  lemma ServedAtVisit(m: Machine, me: nat, g: Shared, env: Env, r: Request)
    requires Fits(m.cfg, 0) && !m.abort && FlowSound(m) && m.state == Transmitting
    requires InFlight(m.work) == Some(r) && Accounted(m.work, r.id, 0)
    ensures var w := Task(m, me, g, env).0.work;
            InFlight(w) == Some(r) || RecordOf(w.history, r.id).finished == 1
  {
    var w := StTransmit(m, me, g, env).0.work;
    TransmitAccounts(m, me, g, env, r.id);
    VisitLeavesNoneLate(m, me, g, env);
    VisitTouches(m, me, g, env, r.id);
    VisitLosesNone(m, me, g, env, r.id);
    if InFlight(w) == None { NowhereElse(m.work, w, r); }
  }

  lemma VisitLosesNone(m: Machine, me: nat, g: Shared, env: Env, x: nat)
    requires m.cfg.limit == 1 && FlowSound(m) && !m.abort && m.state == Transmitting
    ensures Losses(StTransmit(m, me, g, env).0.work, x) == Losses(m.work, x)
  {
    LimitOneStepLosesNone(m, me, Poll(g, env), x);
  }

  ghost predicate StillServed(w: Watch, w': Watch, r: Request) {
    || (InFlight(w'.m.work) == Some(r) && w'.taken == w.taken)
    || RecordOf(w'.m.work.history, r.id).finished == 1
  }

  // The request in flight stays in flight until a callback finishes it.
  lemma Served(w: Watch, me: nat, e: Event, d: nat, r: Request)
    requires WatchSound(w, d) && Accounted(w.m.work, r.id, 0) && InFlight(w.m.work) == Some(r)
    ensures var w' := Next(w, me, e);
            StillServed(w, w', r)
  {
    if e.PollAt? && w.m.state == Transmitting {
      ServedAtVisit(w.m, me, e.g, e.env.(now := e.t % CLOCK), r);
    }
  }

  lemma FinishedStays(w: Watch, me: nat, e: Event, d: nat, x: nat)
    requires WatchSound(w, d)
    ensures RecordOf(Next(w, me, e).m.work.history, x).finished >= RecordOf(w.m.work.history, x).finished
  {
    match e
    case PollAt(t, g, env) =>
      if w.m.state == Transmitting { VisitTouches(w.m, me, g, env.(now := t % CLOCK), x); }
    case SubmitNow(r, _) => TellRecord(w.m.work.history, Accepted(r), x);
  }

  // ---------------------------------------------------------------- the deadline

  // A run of a machine, started at some time, polled at most d apart; requests are submitted
  // and other machines run in between as they like, but nothing is cleared.
  ghost predicate TimedRun(ws: seq<Watch>, es: seq<Event>, me: nat, d: nat) {
    && |ws| == |es| + 1
    && ws[0] == Start(ws[0].m.cfg, ws[0].t) && Fits(ws[0].m.cfg, d)
    && forall k :: 0 <= k < |es| ==> Advances(ws, es, me, d, k)
  }

  ghost predicate Advances(ws: seq<Watch>, es: seq<Event>, me: nat, d: nat, k: nat)
    requires k < |es| && |ws| == |es| + 1
  {
    Timely(ws[k], es[k], d) && ws[k + 1] == Next(ws[k], me, es[k])
  }

  lemma {:induction false} RunSound(ws: seq<Watch>, es: seq<Event>, me: nat, d: nat, k: nat, x: nat)
    requires TimedRun(ws, es, me, d) && k < |ws|
    ensures WatchSound(ws[k], d) && Accounted(ws[k].m.work, x, 0) && ws[k].m.cfg == ws[0].m.cfg
  {
    if k > 0 {
      assert Advances(ws, es, me, d, k - 1);
      RunSound(ws, es, me, d, k - 1, x);
      NextKeeps(ws[k - 1], me, es[k - 1], d);
      ApplyAccounts(ws[k - 1].m, me, Untimed(es[k - 1]), x);
      CfgStays(ws[k - 1].m, me, Untimed(es[k - 1]));
    }
  }

  // From the state k in which r is in flight on, r is in flight with the same clock, or finished.
  // One event after a state w0 in which r was in flight.
  lemma StepServed(w0: Watch, w: Watch, w': Watch, me: nat, e: Event, d: nat, r: Request)
    requires WatchSound(w, d) && Timely(w, e, d) && w' == Next(w, me, e)
    requires Accounted(w.m.work, r.id, 0) && StillServed(w0, w, r)
    ensures StillServed(w0, w', r)
  {
    if RecordOf(w.m.work.history, r.id).finished == 1 {
      ApplyAccounts(w.m, me, Untimed(e), r.id);
      FinishedStays(w, me, e, d, r.id);
    } else {
      Served(w, me, e, d, r);
    }
  }

  lemma {:induction false} InFlightOrFinished(
    ws: seq<Watch>, es: seq<Event>, me: nat, d: nat, k: nat, j: nat, r: Request)
    requires TimedRun(ws, es, me, d) && k <= j < |ws| && InFlight(ws[k].m.work) == Some(r)
    ensures StillServed(ws[k], ws[j], r)
    decreases j
  {
    if j > k {
      InFlightOrFinished(ws, es, me, d, k, j - 1, r);
      RunSound(ws, es, me, d, j - 1, r.id);
      assert Advances(ws, es, me, d, j - 1);
      StepServed(ws[k], ws[j - 1], ws[j], me, es[j - 1], d, r);
    }
  }

  // The last poll at which a request taken at the given time can still be in flight.
  function Deadline(taken: nat, cfg: Config, d: nat): nat {
    taken + cfg.transmissionTimeout + RESET_DELAY - 1 + 3 * d
  }

  // A request that has been taken from the queue is finished, by one run of its callback, in
  // every state whose last poll came after the deadline, through any connection failure,
  // reset or wait for another machine. As polls are at most d apart, the callback has
  // therefore run by the deadline plus d.
  lemma CalledBackInTime(ws: seq<Watch>, es: seq<Event>, me: nat, d: nat, k: nat, j: nat, r: Request)
    requires TimedRun(ws, es, me, d) && k <= j < |ws| && InFlight(ws[k].m.work) == Some(r)
    requires ws[j].t > Deadline(ws[k].taken, ws[0].m.cfg, d)
    ensures RecordOf(ws[j].m.work.history, r.id).finished == 1
  {
    InFlightOrFinished(ws, es, me, d, k, j, r);
    RunSound(ws, es, me, d, j, r.id);
  }

  // The state, at most d after the deadline, in which that has happened.
  lemma {:induction false} CallbackTime(ws: seq<Watch>, es: seq<Event>, me: nat, d: nat, k: nat, j: nat, r: Request)
    returns (i: nat)
    requires TimedRun(ws, es, me, d) && k <= j < |ws| && InFlight(ws[k].m.work) == Some(r)
    requires ws[j].t > Deadline(ws[k].taken, ws[0].m.cfg, d)
    ensures k < i <= j && ws[i].t <= Deadline(ws[k].taken, ws[0].m.cfg, d) + d
    ensures RecordOf(ws[i].m.work.history, r.id).finished == 1
    decreases j
  {
    RunSound(ws, es, me, d, k, r.id);
    assert ws[k].t <= Deadline(ws[k].taken, ws[0].m.cfg, d);
    assert Advances(ws, es, me, d, j - 1);
    if ws[j - 1].t > Deadline(ws[k].taken, ws[0].m.cfg, d) {
      i := CallbackTime(ws, es, me, d, k, j - 1, r);
    } else {
      CalledBackInTime(ws, es, me, d, k, j, r);
      i := j;
    }
  }

  // And the time noted for it is that of the poll that took it from the queue.
  lemma TakenIsPopTime(ws: seq<Watch>, es: seq<Event>, me: nat, d: nat, k: nat)
    requires TimedRun(ws, es, me, d) && k < |es|
    requires InFlight(ws[k].m.work) == None && InFlight(ws[k + 1].m.work).Some?
    ensures es[k].PollAt? && ws[k + 1].taken == es[k].t == ws[k + 1].t
    ensures ws[k].m.work.queue != [] && InFlight(ws[k + 1].m.work).value.id == ws[k].m.work.queue[0].id
  {
    assert Advances(ws, es, me, d, k);
    RunSound(ws, es, me, d, k, 0);
    var m, e := ws[k].m, es[k];
    if e.PollAt? && m.state == Transmitting {
      var env := e.env.(now := e.t % CLOCK);
      VisitTakesHead(m, me, e.g, env);
    }
  }

  lemma VisitTakesHead(m: Machine, me: nat, g: Shared, env: Env)
    requires Fits(m.cfg, 0) && !m.abort && FlowSound(m) && InFlight(m.work) == None
    ensures var w := StTransmit(m, me, g, env).0.work;
            InFlight(w).Some? ==> m.work.queue != [] && InFlight(w) == Some(m.work.queue[0].(start := env.now))
  {
    var w := NewTransmit(m.work, m.cfg, m.abort, env);
    var m0 := m.(work := w, link := StConnect(m.link, m.cfg, me, g, env).0);
    assert InFlight(SendRequest(w, m.cfg, env).0) == InFlight(w);
    assert InFlight(Exchange(m0, env).0.work) == InFlight(w);
    CommunicateFlow(m, me, g, env);
    CommunicateCarries(m, me, g, env);
    var (m1, paired, _, _) := Communicate(m, me, g, env);
    CompleteIfFlow(m1, paired, ResponseCode(env));
    CompleteIfEmpties(m1, paired, ResponseCode(env));
    TimeoutStepEmpties(CompleteIf(m1, paired, ResponseCode(env)), env);
  }
}
