// The list of machines of an exosite object: what handing a request down does to it, and what
// every machine on it holds.

module ExositeMachines {
  import opened Common
  import opened ExositeModel
  import opened MachineJobs
  import P = ProtocolModel
  import Flow = ProtocolFlow
  import Lock = ConnectLock

  // The configuration the machines rely on: room for a request in a new machine, and a
  // synchronous protocol client for HTTP.
  predicate ConfSound(conf: Settings) {
    conf.machine.queueSize > 0 && (conf.http ==> conf.machine.synch)
  }

  // The requests that may be in a machine of a kind and a name.
  function Fits(conf: Settings, kind: Kind, name: Option<string>): Job -> bool {
    (j: Job) =>
      && KindFor(conf, j.args.procedure) == kind && j.typ == TypeFor(conf, j.args.procedure)
      && (kind == LongPoll ==> name == Some(j.args.alias))
  }

  ghost predicate EntrySound(conf: Settings, e: Entry) {
    e.m.cfg == conf.machine && Flow.FlowSound(e.m) && AllJobs(e.m.work, Fits(conf, e.kind, e.name))
  }

  ghost predicate MachinesSound(conf: Settings, sms: seq<Entry>) {
    forall i :: 0 <= i < |sms| ==> EntrySound(conf, sms[i])
  }

  // The machine holds nothing but the job, if one is given.
  ghost predicate Holds(w: P.Work, job: Option<Job>) { Waiting(w.history, w, job) }

  function NewEntry(conf: Settings, kind: Kind, name: Option<string>): Entry { Entry(kind, name, P.New(conf.machine)) }

  // The list after looking for a machine and perhaps adding one.
  ghost predicate Grown(conf: Settings, sms: seq<Entry>, sms': seq<Entry>, kind: Kind, name: Option<string>) {
    sms' == sms || (FindSm(sms, kind, name) == None && sms' == sms + [NewEntry(conf, kind, name)])
  }

  // The list after giving a request to machine i.
  function Put(sms: seq<Entry>, i: nat, r: P.Request): seq<Entry>
    requires i < |sms|
  {
    sms[i := sms[i].(m := P.Transmit(sms[i].m, r, true).0)]
  }

  lemma {:induction false} FindAdded(sms: seq<Entry>, e: Entry, kind: Kind, name: Option<string>)
    requires FindSm(sms, kind, name) == None && Answers(e, kind, name)
    ensures FindSm(sms + [e], kind, name) == Some(|sms|)
  {
    if sms == [] {
      assert FindSm([e], kind, name) == Some(0);
    } else {
      assert (sms + [e])[1..] == sms[1..] + [e];
      FindAdded(sms[1..], e, kind, name);
    }
  }

  // Finding depends on the kinds and names alone.
  ghost predicate SameLabels(sms: seq<Entry>, sms': seq<Entry>) {
    |sms| == |sms'| && forall i :: 0 <= i < |sms| ==> sms[i].kind == sms'[i].kind && sms[i].name == sms'[i].name
  }

  lemma {:induction false} FindSame(sms: seq<Entry>, sms': seq<Entry>, kind: Kind, name: Option<string>)
    requires SameLabels(sms, sms')
    ensures FindSm(sms, kind, name) == FindSm(sms', kind, name)
  {
    if sms != [] { FindSame(sms[1..], sms'[1..], kind, name); }
  }

  // Adding one request to a machine that holds none.
  lemma PutHolds(sms: seq<Entry>, i: nat, r: P.Request)
    requires i < |sms| && |sms[i].m.work.queue| < sms[i].m.cfg.queueSize && Holds(sms[i].m.work, None)
    ensures Holds(Put(sms, i, r)[i].m.work, Some(JobOf(r)))
  {
    var r' := r.(start := 0);
    assert JobOf(r') == JobOf(r);
    assert P.Transmit(sms[i].m, r, true).0.work.queue == [r'];
  }

  predicate IsUser(args: P.Args) { args.procedure == DpRead || args.procedure == DpWrite }

  // Only reads and writes wait in the request queue.
  predicate UserRequests(requests: seq<P.Args>) {
    forall k :: 0 <= k < |requests| ==> IsUser(requests[k])
  }

  // A push changes nothing but the machines and the supply of addresses.
  lemma PushFrame(x: Exo, args: P.Args, p: PushEnv)
    ensures var x' := Push(x, args, p).0; x' == x.(sms := x'.sms, nextId := x'.nextId)
  {
  }

  // A push that fails has at most added an empty machine. One that succeeds has put exactly
  // this request, with the type for its procedure, into the first machine that answers to its
  // kind and name.
  lemma PushShape(x: Exo, args: P.Args, p: PushEnv) returns (base: seq<Entry>, i: nat, r: P.Request)
    requires ConfSound(x.conf)
    ensures Grown(x.conf, x.sms, base, KindFor(x.conf, args.procedure), NameFor(x.conf, args))
    ensures var (x', error) := Push(x, args, p);
            if error == ERR_SUCCESS then
              && FindSm(base, KindFor(x.conf, args.procedure), NameFor(x.conf, args)) == Some(i)
              && i < |base| && !P.QueueFull(base[i].m) && |base[i].m.work.queue| < base[i].m.cfg.queueSize
              && JobOf(r) == Job(TypeFor(x.conf, args.procedure), args) && r.id == x.nextId
              && r.messageId == (if x.conf.http then 1 else p.messageId)
              && x'.sms == Put(base, i, r) && x'.nextId == x.nextId + 1
            else x'.sms == base && x'.nextId >= x.nextId
  {
    var kind, name := KindFor(x.conf, args.procedure), NameFor(x.conf, args);
    var (x1, j, error) := SelectSm(x, args, p);
    base, i, r := x1.sms, 0, P.Request(x.nextId, TypeFor(x.conf, args.procedure), args, MessageIdFor(x.conf, p), 0);
    if j.Some? {
      i := j.value;
      if FindSm(x.sms, kind, name) == None { FindAdded(x.sms, NewEntry(x.conf, kind, name), kind, name); }
    }
  }

  // All requests that are queued, active or sent in some machine.
  function Total(sms: seq<Entry>): nat {
    if sms == [] then 0 else Flow.Pending(sms[0].m.work) + Total(sms[1..])
  }

  lemma {:induction false} TotalWith(sms: seq<Entry>, i: nat, e: Entry)
    requires i < |sms|
    ensures Total(sms[i := e]) == Total(sms) - Flow.Pending(sms[i].m.work) + Flow.Pending(e.m.work)
  {
    if i == 0 {
      assert sms[0 := e][1..] == sms[1..];
    } else {
      assert sms[i := e][1..] == sms[1..][i - 1 := e];
      TotalWith(sms[1..], i - 1, e);
    }
  }

  lemma {:induction false} TotalAppend(sms: seq<Entry>, e: Entry)
    ensures Total(sms + [e]) == Total(sms) + Flow.Pending(e.m.work)
  {
    if sms != [] {
      assert (sms + [e])[1..] == sms[1..] + [e];
      TotalAppend(sms[1..], e);
    }
  }

  // A push that reports success has queued one request exactly if the machines have room for
  // one: into a machine that has just been created with a queue of size 0 nothing is put, and
  // the error code of its creation is returned.
  lemma SuccessMeansQueuedIff(x: Exo, args: P.Args, p: PushEnv)
    requires forall i :: 0 <= i < |x.sms| ==> x.sms[i].m.cfg == x.conf.machine
    requires Push(x, args, p).1 == ERR_SUCCESS
    ensures Total(Push(x, args, p).0.sms) == Total(x.sms) + 1 <==> x.conf.machine.queueSize > 0
  {
    var kind, name := KindFor(x.conf, args.procedure), NameFor(x.conf, args);
    var e := NewEntry(x.conf, kind, name);
    TotalAppend(x.sms, e);
    var (x1, j, error) := SelectSm(x, args, p);
    if j.Some? && !P.QueueFull(x1.sms[j.value].m) {
      var r := P.Request(x.nextId, TypeFor(x.conf, args.procedure), args, MessageIdFor(x.conf, p), 0);
      TotalWith(x1.sms, j.value, Put(x1.sms, j.value, r)[j.value]);
    }
  }

  // ---------------------------------------------------------------- what every machine holds

  lemma GrownSound(conf: Settings, sms: seq<Entry>, sms': seq<Entry>, kind: Kind, name: Option<string>)
    requires MachinesSound(conf, sms) && Grown(conf, sms, sms', kind, name)
    ensures MachinesSound(conf, sms')
  {
  }

  lemma PutSound(conf: Settings, sms: seq<Entry>, i: nat, r: P.Request)
    requires MachinesSound(conf, sms) && i < |sms| && Fits(conf, sms[i].kind, sms[i].name)(JobOf(r))
    ensures MachinesSound(conf, Put(sms, i, r))
  {
    Flow.ApplyFlow(sms[i].m, i, P.Submit(r, true));
  }

  lemma PushSound(x: Exo, args: P.Args, p: PushEnv)
    requires ConfSound(x.conf) && MachinesSound(x.conf, x.sms)
    ensures MachinesSound(x.conf, Push(x, args, p).0.sms)
  {
    var base, i, r := PushShape(x, args, p);
    GrownSound(x.conf, x.sms, base, KindFor(x.conf, args.procedure), NameFor(x.conf, args));
    if Push(x, args, p).1 == ERR_SUCCESS { PutSound(x.conf, base, i, r); }
  }

  lemma {:induction false} ClearAllIs(sms: seq<Entry>)
    ensures |ClearAll(sms)| == |sms|
    ensures forall i :: 0 <= i < |sms| ==> ClearAll(sms)[i] == sms[i].(m := P.Clear(sms[i].m))
  {
    if sms != [] { ClearAllIs(sms[1..]); }
  }

  lemma ClearAllSound(conf: Settings, sms: seq<Entry>)
    requires MachinesSound(conf, sms)
    ensures MachinesSound(conf, ClearAll(sms))
  {
    ClearAllIs(sms);
  }

  // The list after a step of machine i.
  function Stepped(x: Exo, i: nat, env: P.Env): seq<Entry>
    requires i < |x.sms|
  {
    x.sms[i := x.sms[i].(m := P.Task(x.sms[i].m, i, x.g, env).0)]
  }

  lemma TaskSound(conf: Settings, e: Entry, i: nat, g: P.Shared, env: P.Env)
    requires EntrySound(conf, e)
    ensures EntrySound(conf, e.(m := P.Task(e.m, i, g, env).0))
  {
    Flow.ApplyFlow(e.m, i, P.Poll(g, env));
    TaskWithin(e.m, i, g, env, Fits(conf, e.kind, e.name));
    if e.m.state == P.Transmitting { Lock.TransmitKeepsLink(e.m, i, g, env); }
  }

  lemma StepMachinesSound(x: Exo, i: nat, env: P.Env)
    requires i < |x.sms| && MachinesSound(x.conf, x.sms)
    ensures MachinesSound(x.conf, Stepped(x, i, env))
  {
    TaskSound(x.conf, x.sms[i], i, x.g, env);
  }

  // The exosite object after a step of machine i, but for the callbacks.
  function BeforeCallbacks(x: Exo, i: nat, env: P.Env): Exo
    requires i < |x.sms|
  {
    x.(sms := Stepped(x, i, env), g := P.Task(x.sms[i].m, i, x.g, env).1)
  }

  // The callbacks a step of machine i runs.
  function Facts(x: Exo, i: nat, env: P.Env): seq<P.Fact>
    requires i < |x.sms|
  {
    NewFacts(x.sms[i].m.work.history, P.Task(x.sms[i].m, i, x.g, env).0.work.history)
  }

  ghost predicate Calls(facts: seq<P.Fact>, ok: Job -> bool) {
    forall k :: 0 <= k < |facts| && facts[k].Called? ==> ok(JobOf(facts[k].req))
  }

  lemma StepCalls(x: Exo, i: nat, env: P.Env, ok: Job -> bool)
    requires i < |x.sms| && AllJobs(x.sms[i].m.work, ok)
    ensures AllJobs(Stepped(x, i, env)[i].m.work, ok) && Calls(Facts(x, i, env), ok)
  {
    TaskWithin(x.sms[i].m, i, x.g, env, ok);
  }

  // A machine with one request, or none: nothing happens, or the request is called back, once,
  // and the machine is empty.
  lemma StepSolo(x: Exo, i: nat, env: P.Env, job: Option<Job>)
    requires i < |x.sms| && Holds(x.sms[i].m.work, job) && Closing(x.sms[i].m.cfg, job)
    ensures var w, facts := Stepped(x, i, env)[i].m.work, Facts(x, i, env);
            || (Holds(w, job) && facts == [])
            || (job.Some? && Holds(w, None) && |facts| == 1 && facts[0].Called? && JobOf(facts[0].req) == job.value)
  {
    TaskSolo(x.sms[i].m, i, x.g, env, job);
  }
}
