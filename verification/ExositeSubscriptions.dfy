// HTTP subscriptions agree across the layers: an item of the subscribe map is marked as sent
// exactly while the long-poll machine of its alias has its one request under way.

module ExositeSubscriptions {
  import opened Common
  import opened ExositeModel
  import opened ExositeMachines
  import opened MachineJobs
  import opened StringOrder
  import opened DictionaryModel
  import P = ProtocolModel

  function SubscribeArgs(alias: string): P.Args { P.Args(DpSubscribe, alias, 0) }

  // What the long-poll machine of an item holds.
  function JobOfItem(s: Subscription): Option<Job> {
    if s.value.sent then Some(Job(P.Subscribe, SubscribeArgs(s.key))) else None
  }

  // Every long-poll machine has a name, which makes find_sm terminate; no two share one; and
  // the name is that of an item.
  ghost predicate LongPollsNamed(sms: seq<Entry>, subs: seq<Subscription>) {
    && (forall i :: 0 <= i < |sms| && sms[i].kind == LongPoll ==>
          sms[i].name.Some? && HasKey(subs, sms[i].name.value))
    && (forall i, j :: 0 <= i < j < |sms| && sms[i].kind == LongPoll && sms[j].kind == LongPoll ==>
          sms[i].name != sms[j].name)
  }

  // The long-poll machine of the item, if there is one, holds its request exactly when it is sent.
  ghost predicate ItemAgrees(sms: seq<Entry>, s: Subscription) {
    && !s.value.acknowledged
    && (s.value.sent ==> FindSm(sms, LongPoll, Some(s.key)).Some?)
    && forall i :: 0 <= i < |sms| && Answers(sms[i], LongPoll, Some(s.key)) ==> Holds(sms[i].m.work, JobOfItem(s))
  }

  ghost predicate ItemsAgree(sms: seq<Entry>, subs: seq<Subscription>) {
    forall k :: 0 <= k < |subs| ==> ItemAgrees(sms, subs[k])
  }

  ghost predicate SubscriptionsSound(sms: seq<Entry>, subs: seq<Subscription>) {
    Ascending(subs) && LongPollsNamed(sms, subs) && ItemsAgree(sms, subs)
  }

  // Items with the same aliases in the same places.
  ghost predicate SameAliases(subs: seq<Subscription>, subs': seq<Subscription>) {
    |subs| == |subs'| && forall k :: 0 <= k < |subs| ==> subs[k].key == subs'[k].key
  }

  lemma SameAliasesSound(sms: seq<Entry>, sms': seq<Entry>, subs: seq<Subscription>, subs': seq<Subscription>)
    requires SubscriptionsSound(sms, subs) && SameLabels(sms, sms') && SameAliases(subs, subs')
    ensures Ascending(subs') && LongPollsNamed(sms', subs')
  {
    forall i | 0 <= i < |sms'| && sms'[i].kind == LongPoll ensures HasKey(subs', sms'[i].name.value) {
      assert HasKey(subs, sms[i].name.value);
      var k :| 0 <= k < |subs| && subs[k].key == sms[i].name.value;
      assert subs'[k] in subs';
    }
  }

  lemma AliasesDiffer(subs: seq<Subscription>, i: nat, j: nat)
    requires Ascending(subs) && i < |subs| && j < |subs| && i != j
    ensures subs[i].key != subs[j].key
  {
    BeforeIsStrict(subs[i].key);
  }

  // Machines whose long polls hold the same work.
  lemma SameWorkSound(sms: seq<Entry>, sms': seq<Entry>, subs: seq<Subscription>)
    requires SubscriptionsSound(sms, subs) && SameLabels(sms, sms')
    requires forall i :: 0 <= i < |sms| && sms[i].kind == LongPoll ==> sms[i].m.work == sms'[i].m.work
    ensures SubscriptionsSound(sms', subs)
  {
    SameAliasesSound(sms, sms', subs, subs);
    forall k | 0 <= k < |subs| ensures ItemAgrees(sms', subs[k]) {
      FindSame(sms, sms', LongPoll, Some(subs[k].key));
      assert ItemAgrees(sms, subs[k]);
    }
  }

  // ---------------------------------------------------------------- pushes

  lemma GrownKeepsItems(conf: Settings, sms: seq<Entry>, sms': seq<Entry>, kind: Kind, name: Option<string>,
                        subs: seq<Subscription>)
    requires SubscriptionsSound(sms, subs) && Grown(conf, sms, sms', kind, name)
    requires kind == LongPoll ==>
               name.Some? && exists k :: 0 <= k < |subs| && !subs[k].value.sent && subs[k].key == name.value
    ensures SubscriptionsSound(sms', subs)
  {
    if sms' != sms {
      forall k | 0 <= k < |subs| ensures ItemAgrees(sms', subs[k]) {
        assert ItemAgrees(sms, subs[k]);
        GrownAgrees(conf, sms, kind, name, subs, k);
      }
    }
  }

  lemma GrownAgrees(conf: Settings, sms: seq<Entry>, kind: Kind, name: Option<string>, subs: seq<Subscription>, k: nat)
    requires k < |subs| && Ascending(subs) && ItemAgrees(sms, subs[k]) && FindSm(sms, kind, name) == None
    requires kind == LongPoll ==>
               name.Some? && exists n :: 0 <= n < |subs| && !subs[n].value.sent && subs[n].key == name.value
    ensures ItemAgrees(sms + [NewEntry(conf, kind, name)], subs[k])
  {
    var e := NewEntry(conf, kind, name);
    if Answers(e, LongPoll, Some(subs[k].key)) {
      var n :| 0 <= n < |subs| && !subs[n].value.sent && subs[n].key == name.value;
      if n != k { AliasesDiffer(subs, n, k); }
    }
    match FindSm(sms, LongPoll, Some(subs[k].key))
    case Some(i) => assert Answers((sms + [e])[i], LongPoll, Some(subs[k].key));
    case None =>
  }

  // Handing down a request that is no subscription.
  lemma PushKeepsItems(x: Exo, args: P.Args, p: PushEnv)
    requires ConfSound(x.conf) && SubscriptionsSound(x.sms, x.subs) && args.procedure != DpSubscribe
    ensures SubscriptionsSound(Push(x, args, p).0.sms, x.subs)
  {
    var base, i, r := PushShape(x, args, p);
    GrownKeepsItems(x.conf, x.sms, base, KindFor(x.conf, args.procedure), None, x.subs);
    if Push(x, args, p).1 == ERR_SUCCESS { SameWorkSound(base, Put(base, i, r), x.subs); }
  }

  // Handing down the subscription of item k puts it into the empty machine of its alias.
  lemma PushItem(x: Exo, k: nat, p: PushEnv)
    requires ConfSound(x.conf) && x.conf.http && SubscriptionsSound(x.sms, x.subs)
    requires k < |x.subs| && !x.subs[k].value.sent
    ensures var (x', error) := Push(x, SubscribeArgs(x.subs[k].key), p);
            SubscriptionsSound(x'.sms, if error == ERR_SUCCESS then x.subs[k := Marked(x.subs[k])] else x.subs)
  {
    var alias := x.subs[k].key;
    var base, i, r := PushShape(x, SubscribeArgs(alias), p);
    GrownKeepsItems(x.conf, x.sms, base, LongPoll, Some(alias), x.subs);
    if Push(x, SubscribeArgs(alias), p).1 == ERR_SUCCESS { PutItem(base, i, r, x.subs, k); }
  }

  lemma PutItem(sms: seq<Entry>, i: nat, r: P.Request, subs: seq<Subscription>, k: nat)
    requires SubscriptionsSound(sms, subs) && k < |subs| && !subs[k].value.sent
    requires FindSm(sms, LongPoll, Some(subs[k].key)) == Some(i) && |sms[i].m.work.queue| < sms[i].m.cfg.queueSize
    requires Some(JobOf(r)) == JobOfItem(Marked(subs[k]))
    ensures SubscriptionsSound(Put(sms, i, r), subs[k := Marked(subs[k])])
  {
    var sms', subs' := Put(sms, i, r), subs[k := Marked(subs[k])];
    SameAliasesSound(sms, sms', subs, subs');
    assert ItemAgrees(sms, subs[k]);
    PutHolds(sms, i, r);
    forall n | 0 <= n < |subs'| ensures ItemAgrees(sms', subs'[n]) {
      FindSame(sms, sms', LongPoll, Some(subs[n].key));
      assert ItemAgrees(sms, subs[n]);
      if n != k { AliasesDiffer(subs, n, k); }
    }
  }

  lemma {:induction false} PushSubsKeepsItems(x: Exo, k: nat, ps: seq<PushEnv>)
    requires ConfSound(x.conf) && x.conf.http && SubscriptionsSound(x.sms, x.subs)
    ensures var x' := PushSubs(x, k, ps);
            SubscriptionsSound(x'.sms, x'.subs) && x'.conf == x.conf && x'.requests == x.requests
    decreases |x.subs| - k
  {
    if k < |x.subs| {
      PushFrame(x, SubscribeArgs(x.subs[k].key), AnswerTo(ps, k));
      if !x.subs[k].value.sent { PushItem(x, k, AnswerTo(ps, k)); }
      PushSubsKeepsItems(PushSub(x, k, AnswerTo(ps, k)), k + 1, ps);
    }
  }

  lemma ActivateStepKeepsItems(x: Exo, a: ActEnv)
    requires ConfSound(x.conf) && x.conf.http && SubscriptionsSound(x.sms, x.subs) && UserRequests(x.requests)
    ensures var x' := ActivateStep(x, a); SubscriptionsSound(x'.sms, x'.subs)
  {
    var x1 := x.(phase := x.nextPhase);
    match x.nextPhase
    case SendGetTimestamp =>
      PushFrame(x1, P.Args(UpTimestamp, "", 0), a.push);
      PushKeepsItems(x1, P.Args(UpTimestamp, "", 0), a.push);
    case SendActivate =>
      PushFrame(x1, P.Args(PpActivate, "", 0), a.push);
      PushKeepsItems(x1, P.Args(PpActivate, "", 0), a.push);
    case PrepareActivate => ClearAllIs(x.sms); SameWorkSound(x.sms, ClearAll(x.sms), x.subs);
    case Activated =>
      if !x.event {
        PushSubsKeepsItems(x1, 0, a.subPush);
        var x2 := PushSubs(x1, 0, a.subPush);
        if x2.requests != [] {
          PushFrame(x2, x2.requests[0], a.push);
          PushKeepsItems(x2, x2.requests[0], a.push);
        }
      }
    case _ =>
  }

  // ---------------------------------------------------------------- callbacks

  function NoSubscribe(): Job -> bool { (j: Job) => j.args.procedure != DpSubscribe }

  lemma {:induction false} DeliverKeepsItems(x: Exo, facts: seq<P.Fact>, replies: seq<Reply>)
    requires Calls(facts, NoSubscribe())
    ensures var x' := Deliver(x, facts, replies); x'.subs == x.subs && x'.sms == x.sms
    decreases |facts|
  {
    if facts != [] {
      var reply := if replies == [] then Reply(false, [], false) else replies[0];
      var rest := if replies == [] then [] else replies[1..];
      assert forall k :: 0 <= k < |facts[1..]| ==> facts[1..][k] == facts[k + 1];
      if facts[0].Called? {
        DeliverKeepsItems(Callback(x, facts[0].req.args, facts[0].code, reply), facts[1..], rest);
      } else {
        DeliverKeepsItems(x, facts[1..], replies);
      }
    }
  }

  // A machine that is no long poll calls no subscription back.
  lemma OtherStepKeepsItems(x: Exo, i: nat, env: P.Env, replies: seq<Reply>)
    requires MachinesSound(x.conf, x.sms) && x.conf.http && SubscriptionsSound(x.sms, x.subs)
    requires i < |x.sms| && x.sms[i].kind != LongPoll
    ensures var x' := MachineStep(x, i, env, replies); SubscriptionsSound(x'.sms, x'.subs)
  {
    assert EntrySound(x.conf, x.sms[i]);
    StepCalls(x, i, env, NoSubscribe());
    DeliverKeepsItems(BeforeCallbacks(x, i, env), Facts(x, i, env), replies);
    SameWorkSound(x.sms, Stepped(x, i, env), x.subs);
  }

  // Machine i, of item k, is empty, and the item is not marked any more.
  lemma UnmarkedSound(sms: seq<Entry>, sms': seq<Entry>, subs: seq<Subscription>, i: nat, k: nat)
    requires SubscriptionsSound(sms, subs) && SameLabels(sms, sms') && i < |sms| && k < |subs|
    requires Answers(sms[i], LongPoll, Some(subs[k].key)) && Holds(sms'[i].m.work, None)
    requires forall n :: 0 <= n < |sms| && n != i ==> sms'[n] == sms[n]
    ensures SubscriptionsSound(sms', subs[k := Pair(subs[k].key, SubscribeItem(false, false))])
  {
    var subs' := subs[k := Pair(subs[k].key, SubscribeItem(false, false))];
    SameAliasesSound(sms, sms', subs, subs');
    forall n | 0 <= n < |subs'| ensures ItemAgrees(sms', subs'[n]) {
      FindSame(sms, sms', LongPoll, Some(subs[n].key));
      assert ItemAgrees(sms, subs[n]);
      if n != k { AliasesDiffer(subs, n, k); }
    }
  }

  // A long-poll machine that calls its request back is empty then, and the item not sent.
  lemma AnsweredItem(x: Exo, i: nat, env: P.Env, k: nat, code: int, reply: Reply)
    requires x.conf.http && SubscriptionsSound(x.sms, x.subs) && i < |x.sms| && k < |x.subs|
    requires Answers(x.sms[i], LongPoll, Some(x.subs[k].key)) && Holds(Stepped(x, i, env)[i].m.work, None)
    ensures var x' := Callback(BeforeCallbacks(x, i, env), SubscribeArgs(x.subs[k].key), code, reply);
            x'.sms == Stepped(x, i, env) && SubscriptionsSound(x'.sms, x'.subs)
  {
    UnmarkedSound(x.sms, Stepped(x, i, env), x.subs, i, k);
    var x' := Callback(BeforeCallbacks(x, i, env), SubscribeArgs(x.subs[k].key), code, reply);
    var subs' := x.subs[k := Pair(x.subs[k].key, SubscribeItem(false, false))];
    forall n | 0 <= n < |x.subs| ensures x'.subs[n] == subs'[n] {
      if n != k { AliasesDiffer(x.subs, n, k); }
    }
    assert x'.subs == subs';
  }

  lemma LongPollStepKeepsItems(x: Exo, i: nat, env: P.Env, replies: seq<Reply>)
    requires ConfSound(x.conf) && MachinesSound(x.conf, x.sms) && x.conf.http && SubscriptionsSound(x.sms, x.subs)
    requires i < |x.sms| && x.sms[i].kind == LongPoll
    ensures var x' := MachineStep(x, i, env, replies); SubscriptionsSound(x'.sms, x'.subs)
  {
    assert HasKey(x.subs, x.sms[i].name.value);
    var k :| 0 <= k < |x.subs| && x.subs[k].key == x.sms[i].name.value;
    assert ItemAgrees(x.sms, x.subs[k]);
    assert EntrySound(x.conf, x.sms[i]);
    StepSolo(x, i, env, JobOfItem(x.subs[k]));
    var x0, facts := BeforeCallbacks(x, i, env), Facts(x, i, env);
    assert MachineStep(x, i, env, replies) == Deliver(x0, facts, replies);
    if facts == [] {
      LongPollWaits(x, i, env, k);
    } else {
      var reply := if replies == [] then Reply(false, [], false) else replies[0];
      assert facts[1..] == [];
      assert Deliver(x0, facts, replies) == Callback(x0, SubscribeArgs(x.subs[k].key), facts[0].code, reply);
      AnsweredItem(x, i, env, k, facts[0].code, reply);
    }
  }

  lemma LongPollWaits(x: Exo, i: nat, env: P.Env, k: nat)
    requires SubscriptionsSound(x.sms, x.subs) && i < |x.sms| && k < |x.subs|
    requires Answers(x.sms[i], LongPoll, Some(x.subs[k].key))
    requires Holds(Stepped(x, i, env)[i].m.work, JobOfItem(x.subs[k]))
    ensures SubscriptionsSound(Stepped(x, i, env), x.subs)
  {
    var sms' := Stepped(x, i, env);
    SameAliasesSound(x.sms, sms', x.subs, x.subs);
    forall n | 0 <= n < |x.subs| ensures ItemAgrees(sms', x.subs[n]) {
      FindSame(x.sms, sms', LongPoll, Some(x.subs[n].key));
      assert ItemAgrees(x.sms, x.subs[n]);
      if n != k { AliasesDiffer(x.subs, n, k); }
    }
  }

  lemma MachineStepKeepsItems(x: Exo, i: nat, env: P.Env, replies: seq<Reply>)
    requires ConfSound(x.conf) && MachinesSound(x.conf, x.sms) && x.conf.http && SubscriptionsSound(x.sms, x.subs)
    requires i < |x.sms|
    ensures var x' := MachineStep(x, i, env, replies); SubscriptionsSound(x'.sms, x'.subs)
  {
    if x.sms[i].kind == LongPoll {
      LongPollStepKeepsItems(x, i, env, replies);
    } else {
      OtherStepKeepsItems(x, i, env, replies);
    }
  }

  // ---------------------------------------------------------------- new items

  lemma SubscribeKeepsItems(x: Exo, alias: string, memory: bool)
    requires SubscriptionsSound(x.sms, x.subs)
    ensures SubscriptionsSound(x.sms, Subscribe(x, alias, memory).0.subs)
  {
    if memory && !HasKey(x.subs, alias) {
      var s := Pair(alias, SubscribeItem(false, false));
      var subs' := Inserted(x.subs, s);
      InsertedKeeps(x.subs, s);
      assert s in subs';
      forall k | 0 <= k < |subs'| ensures ItemAgrees(x.sms, subs'[k]) {
        assert subs'[k] in subs';
        if subs'[k] in x.subs {
          var n :| 0 <= n < |x.subs| && x.subs[n] == subs'[k];
          assert ItemAgrees(x.sms, x.subs[n]);
        }
      }
      forall i | 0 <= i < |x.sms| && x.sms[i].kind == LongPoll ensures HasKey(subs', x.sms[i].name.value) {
        assert HasKey(x.subs, x.sms[i].name.value);
        var n :| 0 <= n < |x.subs| && x.subs[n].key == x.sms[i].name.value;
        assert x.subs[n] in subs';
      }
    }
  }
}
