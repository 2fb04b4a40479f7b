// What every run of a protocol client machine keeps: each accepted request is in exactly one
// place, and its callback is never run again once it has finished.

module ProtocolSafety {
  import opened Common
  import opened ProtocolModel

  // ---------------------------------------------------------------- where requests are

  // How often request x is on a list.
  function CountIn(rs: seq<Request>, x: nat): nat {
    if rs == [] then 0 else CountIn(rs[1..], x) + if rs[0].id == x then 1 else 0
  }

  function CountActive(active: Option<Request>, x: nat): nat {
    if active.Some? && active.value.id == x then 1 else 0
  }

  // What the history says about request x: how often it was accepted, how often its callback
  // ran, how often it was finished by a callback, and how often it was lost in either way.
  datatype Record = Record(accepted: nat, calls: nat, finished: nat, overwritten: nat, letGo: nat)

  function Note(rec: Record, f: Fact, x: nat): Record {
    match f
    case Accepted(r) => if r.id == x then rec.(accepted := rec.accepted + 1) else rec
    case Called(r, _, done) =>
      if r.id != x then rec
      else rec.(calls := rec.calls + 1, finished := rec.finished + if done then 1 else 0)
    case Overwritten(id) => if id == x then rec.(overwritten := rec.overwritten + 1) else rec
    case LetGo(id) => if id == x then rec.(letGo := rec.letGo + 1) else rec
  }

  function RecordOf(h: seq<Fact>, x: nat): Record {
    if h == [] then Record(0, 0, 0, 0, 0) else Note(RecordOf(h[..|h| - 1], x), h[|h| - 1], x)
  }

  // No callback of x comes after the one that finished x.
  predicate NoneAfterDone(h: seq<Fact>, x: nat) {
    h == [] ||
    (&& NoneAfterDone(h[..|h| - 1], x)
     && (h[|h| - 1].Called? && h[|h| - 1].req.id == x ==> RecordOf(h[..|h| - 1], x).finished == 0))
  }

  // In how many places request x is: the transfer queue, the active slot, the sent list, the
  // finished requests, those overwritten in the active slot, and those let go unfinished.
  function Places(w: Work, x: nat): nat {
    var rec := RecordOf(w.history, x);
    CountIn(w.queue, x) + CountActive(w.active, x) + CountIn(w.sent, x) + rec.finished + rec.overwritten + rec.letGo
  }

  // The account of request x, of which inHand records have just been taken off the machine.
  ghost predicate Accounted(w: Work, x: nat, inHand: nat) {
    var rec := RecordOf(w.history, x);
    && rec.accepted <= 1
    && Places(w, x) + inHand == rec.accepted
    && NoneAfterDone(w.history, x)
    && (rec.calls > 0 ==> CountIn(w.sent, x) + rec.finished + rec.letGo > 0)
  }

  // ---------------------------------------------------------------- lists

  lemma {:induction false} CountAppend(rs: seq<Request>, r: Request, x: nat)
    ensures CountIn(rs + [r], x) == CountIn(rs, x) + if r.id == x then 1 else 0
  {
    if rs != [] {
      assert (rs + [r])[1..] == rs[1..] + [r];
      CountAppend(rs[1..], r, x);
    }
  }

  lemma {:induction false} CountMember(rs: seq<Request>, r: Request)
    requires r in rs
    ensures CountIn(rs, r.id) > 0
  {
    if rs[0] != r { CountMember(rs[1..], r); }
  }

  lemma {:induction false} CountWithout(rs: seq<Request>, id: nat, x: nat)
    ensures CountIn(Without(rs, id), x) == CountIn(rs, x) - if x == id && CountIn(rs, x) > 0 then 1 else 0
    ensures |Without(rs, id)| == |rs| - if CountIn(rs, id) > 0 then 1 else 0
  {
    if rs != [] && rs[0].id != id { CountWithout(rs[1..], id, x); }
  }

  lemma {:induction false} PairIsSent(sent: seq<Request>, id: int)
    ensures match Pair(sent, id)
            case Some(r) => r in sent && r.messageId == id
            case None => forall r :: r in sent ==> r.messageId != id
  {
    if sent != [] { PairIsSent(sent[1..], id); }
  }

  lemma {:induction false} TimedOutIsSent(sent: seq<Request>, cfg: Config, env: Env)
    ensures match FirstTimedOut(sent, cfg, env)
            case Some(r) => r in sent && TimedOut(r, cfg, env) && !IsOpenSubscription(r, cfg)
            case None => forall r :: r in sent && !IsOpenSubscription(r, cfg) ==> !TimedOut(r, cfg, env)
  {
    if sent != [] { TimedOutIsSent(sent[1..], cfg, env); }
  }

  lemma TellRecord(h: seq<Fact>, f: Fact, x: nat)
    ensures RecordOf(h + [f], x) == Note(RecordOf(h, x), f, x)
    ensures NoneAfterDone(h + [f], x) <==>
              NoneAfterDone(h, x) && (f.Called? && f.req.id == x ==> RecordOf(h, x).finished == 0)
  {
    assert (h + [f])[..|h|] == h;
  }

  // ---------------------------------------------------------------- completing a request

  // Whether a request that is about to be completed has been taken off the machine.
  function InHand(r: Option<Request>, w: Work, x: nat): nat {
    if r.Some? && r.value.id == x && r.value !in w.sent then 1 else 0
  }

  lemma CompleteRecord(w: Work, r: Request, code: int, open: bool, x: nat)
    ensures var rec, rec' := RecordOf(w.history, x), RecordOf(Complete(w, r, code, open).history, x);
            if r.id != x then rec' == rec
            else if !open then rec' == rec.(calls := rec.calls + 1, finished := rec.finished + 1)
            else rec' == rec.(calls := rec.calls + 1, letGo := rec.letGo + if r in w.sent then 0 else 1)
    ensures NoneAfterDone(Complete(w, r, code, open).history, x) <==>
            NoneAfterDone(w.history, x) && (r.id == x ==> RecordOf(w.history, x).finished == 0)
  {
    TellRecord(w.history, Called(r, code, !open), x);
    if open { TellRecord(w.history + [Called(r, code, false)], LetGo(r.id), x); }
  }

  // Running the callback of a request that is on the sent list or in hand calls that request
  // back once more, and no other; unless it stays open, it is finished then and in no list.
  lemma CompleteAccounts(w: Work, r: Request, code: int, open: bool, x: nat)
    requires Accounted(w, x, InHand(Some(r), w, x))
    ensures Accounted(Complete(w, r, code, open), x, 0)
    ensures var w' := Complete(w, r, code, open);
            && RecordOf(w'.history, x).calls == RecordOf(w.history, x).calls + (if r.id == x then 1 else 0)
            && (r.id == x && !open ==> RecordOf(w'.history, x).finished == Places(w', x) == 1)
  {
    if r in w.sent { CountMember(w.sent, r); }
    CountWithout(w.sent, r.id, x);
    CompleteRecord(w, r, code, open, x);
  }

  lemma CompleteIfAccounts(m: Machine, r: Option<Request>, code: int, x: nat)
    requires Accounted(m.work, x, InHand(r, m.work, x))
    ensures Accounted(CompleteIf(m, r, code).work, x, 0)
  {
    if r.Some? { CompleteAccounts(m.work, r.value, code, KeepsOpen(m, r.value), x); }
  }

  lemma OverwriteAccounts(w: Work, x: nat, inHand: nat)
    requires Accounted(w, x, inHand)
    ensures Accounted(Overwrite(w), x, inHand)
  {
    if w.active.Some? { TellRecord(w.history, Overwritten(w.active.value.id), x); }
  }

  // ---------------------------------------------------------------- the steps

  lemma SendAccounts(w: Work, cfg: Config, env: Env, x: nat)
    requires Accounted(w, x, 0)
    ensures Accounted(SendRequest(w, cfg, env).0, x, 0)
  {
    if w.active.Some? { assert ([w.active.value] + w.sent)[1..] == w.sent; }
  }

  lemma ExchangeAccounts(m: Machine, env: Env, x: nat)
    requires Accounted(m.work, x, 0)
    ensures var (m', paired) := Exchange(m, env); Accounted(m'.work, x, InHand(paired, m'.work, x))
  {
    SendAccounts(m.work, m.cfg, env, x);
    PairIsSent(SendRequest(m.work, m.cfg, env).0.sent, env.id);
  }

  lemma TakeTimedOutAccounts(w: Work, cfg: Config, env: Env, x: nat)
    requires Accounted(w, x, 0)
    ensures var (w', late) := TakeTimedOut(w, cfg, env); Accounted(w', x, InHand(late, w', x))
  {
    TimedOutIsSent(w.sent, cfg, env);
    OverwriteAccounts(w, x, 0);
    if w.active.Some? && w.active.value in w.sent { CountMember(w.sent, w.active.value); }
  }

  lemma TakeAbortedAccounts(w: Work, x: nat)
    requires Accounted(w, x, 0)
    ensures var (w', r) := TakeAborted(w); Accounted(w', x, InHand(r, w', x))
  {
    if w.queue != [] {
      if w.queue[0] in w.sent { CountMember(w.sent, w.queue[0]); }
      OverwriteAccounts(w.(queue := w.queue[1..]), x, if w.queue[0].id == x then 1 else 0);
    } else {
      OverwriteAccounts(w, x, 0);
      if w.active.Some? && w.active.value in w.sent { CountMember(w.sent, w.active.value); }
    }
  }

  lemma CommunicateAccounts(m: Machine, me: nat, g: Shared, env: Env, x: nat)
    requires Accounted(m.work, x, 0)
    ensures var (m', paired, _, _) := Communicate(m, me, g, env); Accounted(m'.work, x, InHand(paired, m'.work, x))
  {
    var w := NewTransmit(m.work, m.cfg, m.abort, env);
    assert Accounted(w, x, 0);
    ExchangeAccounts(m.(work := w, link := StConnect(m.link, m.cfg, me, g, env).0), env, x);
  }

  lemma TimeoutStepAccounts(m: Machine, env: Env, x: nat)
    requires Accounted(m.work, x, 0)
    ensures Accounted(TimeoutStep(m, env).0.work, x, 0)
  {
    TakeTimedOutAccounts(m.work, m.cfg, env, x);
    var (w, late) := TakeTimedOut(m.work, m.cfg, env);
    CompleteIfAccounts(m.(work := w, timeouts := m.timeouts + 1), late, ERR_TIMEOUT, x);
  }

  lemma AbortStepAccounts(m: Machine, x: nat)
    requires Accounted(m.work, x, 0)
    ensures Accounted(AbortStep(m).0.work, x, 0)
  {
    TakeAbortedAccounts(m.work, x);
    var (w, r) := TakeAborted(m.work);
    CompleteIfAccounts(m.(work := w), r, ERR_REQUEST_ABORTED, x);
  }

  lemma CompletionsAccount(m: Machine, paired: Option<Request>, env: Env, x: nat)
    requires Accounted(m.work, x, InHand(paired, m.work, x))
    ensures Accounted(Completions(m, paired, env).0.work, x, 0)
  {
    CompleteIfAccounts(m, paired, ResponseCode(env), x);
    var m1 := CompleteIf(m, paired, ResponseCode(env));
    TimeoutStepAccounts(m1, env, x);
    AbortStepAccounts(TimeoutStep(m1, env).0, x);
  }

  lemma TransmitAccounts(m: Machine, me: nat, g: Shared, env: Env, x: nat)
    requires Accounted(m.work, x, 0)
    ensures Accounted(StTransmit(m, me, g, env).0.work, x, 0)
  {
    CommunicateAccounts(m, me, g, env, x);
    var (m1, paired, _, _) := Communicate(m, me, g, env);
    CompletionsAccount(m1, paired, env, x);
  }

  lemma SubmitAccounts(m: Machine, r: Request, memory: bool, x: nat)
    requires Accounted(m.work, x, 0) && Unaccepted(m.work.history, r.id)
    ensures Accounted(Transmit(m, r, memory).0.work, x, 0)
  {
    CountAppend(m.work.queue, r.(start := 0), x);
    TellRecord(m.work.history, Accepted(r), x);
    NeverAccepted(m.work.history, r.id);
  }

  lemma {:induction false} NeverAccepted(h: seq<Fact>, x: nat)
    requires Unaccepted(h, x)
    ensures RecordOf(h, x).accepted == 0
    decreases |h|
  {
    if h != [] { NeverAccepted(h[..|h| - 1], x); }
  }

  lemma ApplyAccounts(m: Machine, me: nat, e: Event, x: nat)
    requires Accounted(m.work, x, 0) && Admissible(m, e)
    ensures Accounted(Apply(m, me, e).work, x, 0)
  {
    match e
    case Poll(g, env) => if m.state == Transmitting { TransmitAccounts(m, me, g, env, x); }
    case Submit(r, memory) => SubmitAccounts(m, r, memory, x);
    case Abort =>
  }

  lemma {:induction false} RunAccounts(m: Machine, me: nat, es: seq<Event>, x: nat)
    requires Accounted(m.work, x, 0) && AdmissibleRun(m, me, es)
    ensures Accounted(Run(m, me, es).work, x, 0)
    decreases |es|
  {
    if es != [] {
      ApplyAccounts(m, me, es[0], x);
      RunAccounts(Apply(m, me, es[0]), me, es[1..], x);
    }
  }

  // In every state of every run, an accepted request is in exactly one place, and a request
  // that was not accepted in none; its callback is never run after the run that finished it,
  // and a request that was overwritten in the active slot is never called back at all.
  lemma EveryRunAccounts(cfg: Config, me: nat, es: seq<Event>, x: nat)
    requires AdmissibleRun(New(cfg), me, es)
    ensures var w := Run(New(cfg), me, es).work;
            var rec := RecordOf(w.history, x);
            && Places(w, x) == rec.accepted <= 1
            && NoneAfterDone(w.history, x)
            && (rec.overwritten > 0 ==> rec.calls == 0)
  {
    RunAccounts(New(cfg), me, es, x);
  }
}
