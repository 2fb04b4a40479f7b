// Which requests a step of a protocol client machine calls back: only ones it held, and a
// machine that holds a single request calls it back exactly when it lets go of it.

module MachineJobs {
  import opened Common
  import opened ProtocolModel
  import opened ProtocolSafety
  import opened ProtocolFlow

  // What identifies a request to the upper layer.
  datatype Job = Job(typ: RequestType, args: Args)

  function JobOf(r: Request): Job { Job(r.typ, r.args) }

  ghost predicate ListJobs(rs: seq<Request>, ok: Job -> bool) { forall i :: 0 <= i < |rs| ==> ok(JobOf(rs[i])) }

  // Every request a machine holds is of the given sort.
  ghost predicate AllJobs(w: Work, ok: Job -> bool) {
    && ListJobs(w.queue, ok) && ListJobs(w.sent, ok)
    && (w.active.Some? ==> ok(JobOf(w.active.value)))
  }

  // The history has grown from h, by callbacks of the given sort and not by new requests.
  ghost predicate CallsOnly(h: seq<Fact>, w: Work, ok: Job -> bool) {
    && |h| <= |w.history| && w.history[..|h|] == h
    && (forall i :: |h| <= i < |w.history| ==> !w.history[i].Accepted?)
    && forall i :: |h| <= i < |w.history| && w.history[i].Called? ==> ok(JobOf(w.history[i].req))
  }

  ghost predicate Within(h: seq<Fact>, w: Work, ok: Job -> bool) { AllJobs(w, ok) && CallsOnly(h, w, ok) }

  lemma {:induction false} WithoutIsSub(rs: seq<Request>, id: nat, ok: Job -> bool)
    requires ListJobs(rs, ok)
    ensures ListJobs(Without(rs, id), ok)
  {
    if rs != [] && rs[0].id != id {
      assert forall i :: 0 <= i < |rs[1..]| ==> rs[1..][i] == rs[i + 1];
      WithoutIsSub(rs[1..], id, ok);
    }
  }

  lemma CompleteWithin(h: seq<Fact>, w: Work, r: Request, code: int, open: bool, ok: Job -> bool)
    requires Within(h, w, ok) && ok(JobOf(r))
    ensures Within(h, Complete(w, r, code, open), ok)
  {
    WithoutIsSub(w.sent, r.id, ok);
  }

  lemma CompleteIfWithin(h: seq<Fact>, m: Machine, r: Option<Request>, code: int, ok: Job -> bool)
    requires Within(h, m.work, ok) && (r.Some? ==> ok(JobOf(r.value)))
    ensures Within(h, CompleteIf(m, r, code).work, ok)
  {
    if r.Some? { CompleteWithin(h, m.work, r.value, code, KeepsOpen(m, r.value), ok); }
  }

  lemma SendWithin(h: seq<Fact>, w: Work, cfg: Config, env: Env, ok: Job -> bool)
    requires Within(h, w, ok)
    ensures Within(h, SendRequest(w, cfg, env).0, ok)
  {
    if w.active.Some? {
      assert forall i :: 0 <= i < |w.sent| ==> ([w.active.value] + w.sent)[i + 1] == w.sent[i];
    }
  }

  lemma ExchangeWithin(h: seq<Fact>, m: Machine, env: Env, ok: Job -> bool)
    requires Within(h, m.work, ok)
    ensures var (m', paired) := Exchange(m, env); Within(h, m'.work, ok) && (paired.Some? ==> ok(JobOf(paired.value)))
  {
    var w := SendRequest(m.work, m.cfg, env).0;
    SendWithin(h, m.work, m.cfg, env, ok);
    PairIsSent(w.sent, env.id);
    assert Exchange(m, env).0.work == w;
  }

  lemma CommunicateWithin(h: seq<Fact>, m: Machine, me: nat, g: Shared, env: Env, ok: Job -> bool)
    requires Within(h, m.work, ok)
    ensures var (m', paired, _, _) := Communicate(m, me, g, env);
            Within(h, m'.work, ok) && (paired.Some? ==> ok(JobOf(paired.value)))
  {
    var w := NewTransmit(m.work, m.cfg, m.abort, env);
    assert Within(h, w, ok);
    ExchangeWithin(h, m.(work := w, link := StConnect(m.link, m.cfg, me, g, env).0), env, ok);
  }

  lemma TimeoutStepWithin(h: seq<Fact>, m: Machine, env: Env, ok: Job -> bool)
    requires Within(h, m.work, ok)
    ensures Within(h, TimeoutStep(m, env).0.work, ok)
  {
    TimedOutIsSent(m.work.sent, m.cfg, env);
    var (w, late) := TakeTimedOut(m.work, m.cfg, env);
    CompleteIfWithin(h, m.(work := w, timeouts := m.timeouts + 1), late, ERR_TIMEOUT, ok);
  }

  lemma AbortStepWithin(h: seq<Fact>, m: Machine, ok: Job -> bool)
    requires Within(h, m.work, ok)
    ensures Within(h, AbortStep(m).0.work, ok)
  {
    var (w, r) := TakeAborted(m.work);
    CompleteIfWithin(h, m.(work := w), r, ERR_REQUEST_ABORTED, ok);
  }

  // A step calls back only requests the machine held, and afterwards holds no others.
  lemma TaskWithin(m: Machine, me: nat, g: Shared, env: Env, ok: Job -> bool)
    requires AllJobs(m.work, ok)
    ensures Within(m.work.history, Task(m, me, g, env).0.work, ok)
  {
    var h := m.work.history;
    if m.state == Transmitting {
      CommunicateWithin(h, m, me, g, env, ok);
      var (m1, paired, _, _) := Communicate(m, me, g, env);
      CompleteIfWithin(h, m1, paired, ResponseCode(env), ok);
      var m2 := CompleteIf(m1, paired, ResponseCode(env));
      TimeoutStepWithin(h, m2, env, ok);
      AbortStepWithin(h, TimeoutStep(m2, env).0, ok);
    }
  }

  // ---------------------------------------------------------------- machines with one request

  // A request that is freed with its first callback.
  predicate Closes(cfg: Config, job: Job) { cfg.synch || job.typ != SubscribeAsynch }

  function Only(job: Option<Job>): Job -> bool { j => Some(j) == job }

  // The machine holds the job, or nothing, and has run no callback since h.
  ghost predicate Waiting(h: seq<Fact>, w: Work, job: Option<Job>) {
    w.history == h && Pending(w) == (if job.Some? then 1 else 0) && AllJobs(w, Only(job))
  }

  // The machine holds nothing any more, and has run the callback of the job, once.
  ghost predicate Served(h: seq<Fact>, w: Work, job: Option<Job>) {
    && job.Some? && Pending(w) == 0 && |w.history| == |h| + 1 && w.history[..|h|] == h
    && w.history[|h|].Called? && w.history[|h|].done && JobOf(w.history[|h|].req) == job.value
  }

  ghost predicate Solo(h: seq<Fact>, w: Work, job: Option<Job>) { Waiting(h, w, job) || Served(h, w, job) }

  ghost predicate Closing(cfg: Config, job: Option<Job>) { job.Some? ==> Closes(cfg, job.value) }

  lemma CompleteIfSolo(h: seq<Fact>, m: Machine, r: Option<Request>, code: int, job: Option<Job>)
    requires Closing(m.cfg, job)
    requires if r.Some? then
               && m.work.history == h && job == Some(JobOf(r.value)) && m.work.queue == [] && m.work.active == None
               && |m.work.sent| <= 1 && (m.work.sent != [] ==> r.value in m.work.sent)
             else Solo(h, m.work, job)
    ensures Solo(h, CompleteIf(m, r, code).work, job)
  {
    if r.Some? { CompleteSizes(m.work, r.value, code, false); }
  }

  lemma CommunicateSolo(h: seq<Fact>, m: Machine, me: nat, g: Shared, env: Env, job: Option<Job>)
    requires Waiting(h, m.work, job)
    ensures var (m', paired, _, _) := Communicate(m, me, g, env);
            && Waiting(h, m'.work, job) && m'.cfg == m.cfg
            && (paired.Some? ==> paired.value in m'.work.sent)
  {
    var w := NewTransmit(m.work, m.cfg, m.abort, env);
    assert Waiting(h, w, job);
    var m1 := m.(work := w, link := StConnect(m.link, m.cfg, me, g, env).0);
    ExchangeSolo(h, m1, env, job);
  }

  lemma SendSolo(h: seq<Fact>, w: Work, cfg: Config, env: Env, job: Option<Job>)
    requires Waiting(h, w, job)
    ensures Waiting(h, SendRequest(w, cfg, env).0, job)
  {
    if w.active.Some? { assert [w.active.value] + w.sent == [w.active.value]; }
  }

  lemma ExchangeSolo(h: seq<Fact>, m: Machine, env: Env, job: Option<Job>)
    requires Waiting(h, m.work, job)
    ensures var (m', paired) := Exchange(m, env);
            && Waiting(h, m'.work, job) && m'.cfg == m.cfg
            && (paired.Some? ==> paired.value in m'.work.sent)
  {
    var w := SendRequest(m.work, m.cfg, env).0;
    SendSolo(h, m.work, m.cfg, env, job);
    PairIsSent(w.sent, env.id);
    assert Exchange(m, env).0.work == w;
  }

  lemma TimeoutStepSolo(h: seq<Fact>, m: Machine, env: Env, job: Option<Job>)
    requires Closing(m.cfg, job) && Solo(h, m.work, job)
    ensures Solo(h, TimeoutStep(m, env).0.work, job) && TimeoutStep(m, env).0.cfg == m.cfg
  {
    TimedOutIsSent(m.work.sent, m.cfg, env);
    var (w, late) := TakeTimedOut(m.work, m.cfg, env);
    if late.Some? { CompleteIfSolo(h, m.(work := w, timeouts := m.timeouts + 1), late, ERR_TIMEOUT, job); }
  }

  lemma AbortStepSolo(h: seq<Fact>, m: Machine, job: Option<Job>)
    requires Closing(m.cfg, job) && Solo(h, m.work, job)
    ensures Solo(h, AbortStep(m).0.work, job)
  {
    var (w, r) := TakeAborted(m.work);
    if r.Some? { CompleteIfSolo(h, m.(work := w), r, ERR_REQUEST_ABORTED, job); }
  }

  lemma CompletionsSolo(h: seq<Fact>, m: Machine, paired: Option<Request>, env: Env, job: Option<Job>)
    requires Closing(m.cfg, job) && Waiting(h, m.work, job) && (paired.Some? ==> paired.value in m.work.sent)
    ensures Solo(h, Completions(m, paired, env).0.work, job)
  {
    CompleteIfSolo(h, m, paired, ResponseCode(env), job);
    var m2 := CompleteIf(m, paired, ResponseCode(env));
    TimeoutStepSolo(h, m2, env, job);
    AbortStepSolo(h, TimeoutStep(m2, env).0, job);
  }

  // A step of a machine that holds one request, or none: it goes on holding it without a
  // callback, or has called it back once and holds nothing.
  lemma TaskSolo(m: Machine, me: nat, g: Shared, env: Env, job: Option<Job>)
    requires Closing(m.cfg, job) && Waiting(m.work.history, m.work, job)
    ensures Solo(m.work.history, Task(m, me, g, env).0.work, job)
  {
    if m.state == Transmitting {
      CommunicateSolo(m.work.history, m, me, g, env, job);
      var (m1, paired, _, _) := Communicate(m, me, g, env);
      CompletionsSolo(m.work.history, m1, paired, env, job);
      assert Task(m, me, g, env).0.work == Completions(m1, paired, env).0.work;
    }
  }

  lemma TaskDrained(m: Machine, me: nat, g: Shared, env: Env)
    requires FlowSound(m) && Drained(m)
    ensures Drained(Task(m, me, g, env).0)
  {
    if !m.abort {
      IdleStaysIdle(m, me, g, env);
    } else if m.state == Transmitting {
      AbortDrains(m, me, g, env);
    }
  }
}
