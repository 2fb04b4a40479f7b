// What the answer of protocol_client_sm_is_empty means. Its header says that it tells whether
// requests are queued; it tells whether an abort is in progress.

module ProtocolEmpty {
  import opened Common
  import opened ProtocolModel
  import opened ProtocolSafety
  import opened ProtocolFlow
  import opened ProtocolLoss

  // The answer is what the header promises.
  predicate Truthful(m: Machine) { IsEmpty(m) <==> Pending(m.work) == 0 }

  // Right after a clear of a machine that never had a request, the answer is FALSE.
  lemma FalseThoughEmpty(cfg: Config, me: nat)
    ensures var m := Run(New(cfg), me, [Abort]); !IsEmpty(m) && Pending(m.work) == 0
  {
    assert Run(New(cfg), me, [Abort]) == Clear(New(cfg)) by { assert [Abort][1..] == []; }
  }

  // With one request queued and nothing aborted, it is TRUE.
  lemma TrueThoughQueued(cfg: Config, me: nat, r: Request)
    requires cfg.queueSize > 0
    ensures var m := Run(New(cfg), me, [Submit(r, true)]); IsEmpty(m) && Pending(m.work) == 1
  {
    var e := Submit(r, true);
    assert Run(New(cfg), me, [e]) == Apply(New(cfg), me, e) by { assert [e][1..] == []; }
  }

  // ---------------------------------------------------------------- runs with their states

  // The states ms[0], ms[1], ... are those of a run, from a new machine on.
  ghost predicate Trace(ms: seq<Machine>, es: seq<Event>, cfg: Config, me: nat) {
    |ms| == |es| + 1 && ms[0] == New(cfg) && forall k :: 0 <= k < |es| ==> Advances(ms, es, me, k)
  }

  ghost predicate Advances(ms: seq<Machine>, es: seq<Event>, me: nat, k: nat) {
    k < |es| && k + 1 < |ms| && Admissible(ms[k], es[k]) && ms[k + 1] == Apply(ms[k], me, es[k])
  }

  lemma {:induction false} TraceSound(ms: seq<Machine>, es: seq<Event>, cfg: Config, me: nat, k: nat, x: nat)
    requires Trace(ms, es, cfg, me) && k < |ms|
    ensures FlowSound(ms[k]) && Accounted(ms[k].work, x, 0)
  {
    if k > 0 {
      TraceSound(ms, es, cfg, me, k - 1, x);
      assert Advances(ms, es, me, k - 1);
      ApplyFlow(ms[k - 1], me, es[k - 1]);
      ApplyAccounts(ms[k - 1], me, es[k - 1], x);
    }
  }

  // ---------------------------------------------------------------- no abort in progress

  // Every request accepted so far has finished, or was overwritten or let go.
  ghost predicate Settled(h: seq<Fact>) {
    forall i :: 0 <= i < |h| && h[i].Accepted? ==> IsSettled(RecordOf(h, h[i].req.id))
  }

  predicate IsSettled(rec: Record) { rec.finished + rec.overwritten + rec.letGo > 0 }

  lemma {:induction false} AcceptedCounts(h: seq<Fact>, i: nat)
    requires i < |h| && h[i].Accepted?
    ensures RecordOf(h, h[i].req.id).accepted > 0
    decreases |h|
  {
    if i < |h| - 1 { AcceptedCounts(h[..|h| - 1], i); }
  }

  // Some request the machine holds, if it holds any.
  function AnyRequest(w: Work): Request
    requires Pending(w) > 0
  {
    if w.queue != [] then w.queue[0] else if w.sent != [] then w.sent[0] else w.active.value
  }

  lemma PendingIffUnsettled(w: Work)
    requires forall x: nat :: Accounted(w, x, 0)
    ensures Pending(w) == 0 <==> Settled(w.history)
  {
    if Pending(w) == 0 {
      forall i | 0 <= i < |w.history| && w.history[i].Accepted?
        ensures IsSettled(RecordOf(w.history, w.history[i].req.id))
      {
        AcceptedCounts(w.history, i);
        assert Accounted(w, w.history[i].req.id, 0);
      }
    } else {
      var x := AnyRequest(w).id;
      assert Accounted(w, x, 0);
      if Unaccepted(w.history, x) { NeverAccepted(w.history, x); }
    }
  }

  // ---------------------------------------------------------------- an abort in progress

  predicate Takes(m: Machine, e: Event) { e.Submit? && e.memory && |m.work.queue| < m.cfg.queueSize }

  // A visit keeps the abort flag exactly if its abort step found a request to complete.
  lemma VisitKeepsAbort(m: Machine, me: nat, g: Shared, env: Env)
    ensures StTransmit(m, me, g, env).0.abort <==> m.abort && Pending(BeforeAbort(m, me, g, env).work) > 0
  {
    var (m1, paired, _, _) := Communicate(m, me, g, env);
    assert m1.abort == m.abort;
    var t := BeforeTimeout(m, me, g, env);
    assert t.abort == m.abort;
    assert BeforeAbort(m, me, g, env).abort == m.abort;
  }

  // Event e leaves the machine empty with the abort flag set: it is a clear of an empty machine,
  // or the visit at which the abort completed the last request.
  ghost predicate Empties(ms: seq<Machine>, es: seq<Event>, me: nat, k: nat)
    requires k < |es| && k + 1 < |ms|
  {
    var m, e := ms[k], es[k];
    || (e.Abort? && Pending(m.work) == 0)
    || (Visits(m, e) && m.abort && Pending(BeforeAbort(m, me, e.g, e.env).work) > 0 && Pending(ms[k + 1].work) == 0)
  }

  // Event k did, and since then, up to state n, the machine has not been visited and has taken
  // nothing.
  ghost predicate EmptySince(ms: seq<Machine>, es: seq<Event>, me: nat, k: nat, n: nat) {
    && k < n <= |es| && n < |ms| && Empties(ms, es, me, k)
    && forall j :: k < j < n ==> Unmoved(ms[j], es[j])
  }

  predicate Unmoved(m: Machine, e: Event) { !Visits(m, e) && !Takes(m, e) }

  ghost predicate EmptyUnvisited(ms: seq<Machine>, es: seq<Event>, me: nat, n: nat) {
    exists k: nat :: EmptySince(ms, es, me, k, n)
  }

  lemma UnvisitedStep(ms: seq<Machine>, es: seq<Event>, me: nat, n: nat)
    requires n < |es| && n + 1 < |ms|
    ensures EmptyUnvisited(ms, es, me, n + 1) <==>
              Empties(ms, es, me, n) || (Unmoved(ms[n], es[n]) && EmptyUnvisited(ms, es, me, n))
  {
    if Empties(ms, es, me, n) { assert EmptySince(ms, es, me, n, n + 1); }
    if Unmoved(ms[n], es[n]) && EmptyUnvisited(ms, es, me, n) {
      var k: nat :| EmptySince(ms, es, me, k, n);
      assert EmptySince(ms, es, me, k, n + 1);
    }
    if EmptyUnvisited(ms, es, me, n + 1) && !Empties(ms, es, me, n) {
      var k: nat :| EmptySince(ms, es, me, k, n + 1);
      assert EmptySince(ms, es, me, k, n);
    }
  }

  predicate AbortingYetEmpty(m: Machine) { m.abort && Pending(m.work) == 0 }

  lemma NextIsEmpty(ms: seq<Machine>, es: seq<Event>, me: nat, n: nat)
    requires n < |es| && n + 1 < |ms| && Advances(ms, es, me, n)
    ensures AbortingYetEmpty(ms[n + 1]) <==>
              Empties(ms, es, me, n) || (Unmoved(ms[n], es[n]) && AbortingYetEmpty(ms[n]))
  {
    var m, e := ms[n], es[n];
    if Visits(m, e) { VisitKeepsAbort(m, me, e.g, e.env); }
  }

  // The abort flag is set on an empty machine exactly then.
  lemma {:induction false} AbortingYetEmptyIff(ms: seq<Machine>, es: seq<Event>, cfg: Config, me: nat, n: nat)
    requires Trace(ms, es, cfg, me) && n < |ms|
    ensures AbortingYetEmpty(ms[n]) <==> EmptyUnvisited(ms, es, me, n)
  {
    if n > 0 {
      AbortingYetEmptyIff(ms, es, cfg, me, n - 1);
      UnvisitedStep(ms, es, me, n - 1);
      assert Advances(ms, es, me, n - 1);
      NextIsEmpty(ms, es, me, n - 1);
    }
  }

  // ---------------------------------------------------------------- when the answer is right

  // In every state of every run the answer is what the header promises if and only if
  // - with no abort in progress, where it is TRUE: all requests accepted so far are settled;
  // - with an abort in progress, where it is FALSE: it is not so that a clear found the machine
  //   empty, or a visit emptied it, and it has neither been visited nor taken a request since.
  lemma TruthfulIff(ms: seq<Machine>, es: seq<Event>, cfg: Config, me: nat, n: nat)
    requires Trace(ms, es, cfg, me) && n < |ms|
    ensures Truthful(ms[n]) <==>
              if ms[n].abort then !EmptyUnvisited(ms, es, me, n) else Settled(ms[n].work.history)
  {
    AbortingYetEmptyIff(ms, es, cfg, me, n);
    forall x: nat ensures Accounted(ms[n].work, x, 0) { TraceSound(ms, es, cfg, me, n, x); }
    PendingIffUnsettled(ms[n].work);
  }
}
