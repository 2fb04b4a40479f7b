// The exosite object of src/exosite_api.c with the fields of struct exosite_class, updated in
// place, on top of protocol client machines as objects. Every method is proved to do what
// ExositeModel describes.

module ExositeApi {
  import opened Common
  import opened Ctype
  import opened HttpPayload
  import opened ExositeModel
  import opened ExositeMachines
  import P = ProtocolModel
  import Pcsm = ProtocolClientSm

  // An item of the list of machines.
  datatype Item = Item(kind: Kind, name: Option<string>, sm: Pcsm.Sm)

  ghost function SmsOf(items: seq<Item>): set<Pcsm.Sm> { set e | e in items :: e.sm }

  ghost function EntriesOf(items: seq<Item>): (r: seq<Entry>)
    reads SmsOf(items)
    ensures |r| == |items|
    ensures forall i :: 0 <= i < |items| ==> r[i] == Entry(items[i].kind, items[i].name, items[i].sm.View())
  {
    seq(|items|, i requires 0 <= i < |items| reads SmsOf(items) =>
      Entry(items[i].kind, items[i].name, items[i].sm.View()))
  }

  lemma FirstAnswer(sms: seq<Entry>, i: nat, kind: Kind, name: Option<string>)
    requires i < |sms| && Answers(sms[i], kind, name) && forall j :: 0 <= j < i ==> !Answers(sms[j], kind, name)
    ensures ExositeModel.FindSm(sms, kind, name) == Some(i)
  {
  }

  // Only the callbacks among the facts matter.
  lemma {:induction false} DeliverCalled(x: Exo, facts: seq<P.Fact>, replies: seq<Reply>)
    ensures Deliver(x, P.CalledOnly(facts), replies) == Deliver(x, facts, replies)
    decreases |facts|
  {
    if facts != [] {
      var reply := if replies == [] then Reply(false, [], false) else replies[0];
      var rest := if replies == [] then [] else replies[1..];
      if facts[0].Called? {
        assert P.CalledOnly(facts)[1..] == P.CalledOnly(facts[1..]);
        DeliverCalled(Callback(x, facts[0].req.args, facts[0].code, reply), facts[1..], rest);
      } else {
        assert P.CalledOnly(facts) == P.CalledOnly(facts[1..]);
        DeliverCalled(x, facts[1..], replies);
      }
    }
  }

  // system_is_cik_format_valid, on what the buffer holds before the terminator
  method IsCikFormatValid(cik: string) returns (valid: bool)
    ensures valid == CikValid(cik)
  {
    var i := 0;
    while i < |cik|
      invariant i <= |cik| && i <= CIK_LENGTH
      invariant forall k :: 0 <= k < i ==> IsAlnum(cik[k])
    {
      if i >= CIK_LENGTH { return false; }
      if !IsAlnum(cik[i]) { return false; }
      i := i + 1;
    }
    return i == CIK_LENGTH;
  }

  class Exosite {
    const conf: Settings
    const globals: Pcsm.Globals
    var items: seq<Item>
    var activateState: Phase
    var nextState: Phase
    var asynchStateEvent: bool
    var cik: string
    var lastActivationTime: int
    var requestQueue: seq<P.Args>
    var subscribeMap: seq<Subscription>
    var nextId: nat
    ghost var accepted: seq<P.Args>

    // exosite_new
    constructor (conf: Settings, globals: Pcsm.Globals)
      requires globals.View() == P.Shared(None, 0, P.Resetting)
      ensures Valid() && View() == New(conf) && this.globals == globals && this.conf == conf
    {
      this.conf, this.globals := conf, globals;
      items, requestQueue, subscribeMap := [], [], [];
      activateState, nextState, asynchStateEvent := SendGetTimestamp, SendGetTimestamp, false;
      cik, lastActivationTime, nextId := [], 0, 0;
      accepted := [];
    }

    // The machines are numbered in order, and those for long polls have names.
    ghost predicate Valid()
      reads this`items
    {
      && (forall i :: 0 <= i < |items| ==> items[i].sm.me == i && items[i].sm.cfg == conf.machine)
      && (forall i :: 0 <= i < |items| && items[i].kind == LongPoll ==> items[i].name.Some?)
    }

    ghost function Sms(): set<Pcsm.Sm>
      reads this`items
    {
      SmsOf(items)
    }

    ghost function Entries(): seq<Entry>
      reads this`items, Sms()
    {
      EntriesOf(items)
    }

    ghost function View(): Exo
      reads this, globals, Sms()
    {
      Exo(conf, Entries(), globals.View(), activateState, nextState, asynchStateEvent, cik, lastActivationTime,
          requestQueue, subscribeMap, nextId, accepted)
    }

    // find_sm. The source goes round for ever at an item of the wanted kind without a name.
    method FindSm(kind: Kind, name: Option<string>) returns (r: Option<nat>)
      requires Valid() && (name.Some? ==> kind == LongPoll)
      ensures r == ExositeModel.FindSm(Entries(), kind, name)
    {
      var i := 0;
      while i < |items|
        invariant i <= |items|
        invariant forall j :: 0 <= j < i ==> !Answers(Entries()[j], kind, name)
      {
        if items[i].kind == kind {
          if name == None {
            FirstAnswer(Entries(), i, kind, name);
            return Some(i);
          }
          if items[i].name == None {
            assert false;
          } else if name == items[i].name {
            FirstAnswer(Entries(), i, kind, name);
            return Some(i);
          }
        }
        i := i + 1;
      }
      return None;
    }

    // create_new_sm
    method CreateNewSm(kind: Kind, name: Option<string>, create: int) returns (error: int)
      requires Valid() && (kind == LongPoll ==> name.Some?)
      modifies this`items
      ensures Valid() && old(items) <= items && fresh(Sms() - old(Sms()))
      ensures (View(), error) == CreateSm(old(View()), kind, name, create)
    {
      if conf.machineLimit != UNLIMITED_STATE_MACHINES && |items| == conf.machineLimit { return ERR_NO_RESOURCE; }
      if create != ERR_SUCCESS { return create; }
      var sm := new Pcsm.Sm(|items|, conf.machine);
      items := items + [Item(kind, name, sm)];
      assert Entries() == old(Entries()) + [Entry(kind, name, sm.View())];
      assert items[|items| - 1].sm == sm;
      return ERR_SUCCESS;
    }

    // The first part of pcsm_transmit_qeueue_push_no_copy: the machine for the request.
    method SelectMachine(args: P.Args, p: PushEnv) returns (i: Option<nat>, error: int)
      requires Valid()
      modifies this`items
      ensures Valid() && old(items) <= items && fresh(Sms() - old(Sms()))
      ensures (View(), i, error) == SelectSm(old(View()), args, p)
    {
      var kind := KindFor(conf, args.procedure);
      var name := NameFor(conf, args);
      error := ERR_FAILURE;
      i := FindSm(kind, name);
      if i == None {
        error := CreateNewSm(kind, name, p.create);
        if error == ERR_SUCCESS { i := Some(|items| - 1); }
      }
    }

    // The rest of it: the request goes into the queue of the machine.
    method PushToMachine(i: nat, args: P.Args, p: PushEnv, error: int) returns (result: int)
      requires Valid() && i < |items|
      modifies this`nextId, items[i].sm
      ensures Valid()
      ensures (View(), result) == PushTo(old(View()), i, args, p, error)
    {
      var sm := items[i].sm;
      var full := sm.IsQueueFull();
      assert Entries() == old(Entries()) && Entries()[i].m == sm.View();
      if full { return error; }
      if p.build != ERR_SUCCESS { return p.build; }
      var r := P.Request(nextId, TypeFor(conf, args.procedure), args, MessageIdFor(conf, p), 0);
      result := sm.TransmitRequest(r, p.memory);
      nextId := nextId + 1;
      assert Entries() == old(Entries())[i := Entry(items[i].kind, items[i].name, sm.View())];
    }

    // pcsm_transmit_qeueue_push_no_copy
    method Push(args: P.Args, p: PushEnv) returns (error: int)
      requires Valid()
      modifies this`items, this`nextId, Sms()
      ensures Valid() && fresh(Sms() - old(Sms()))
      ensures (View(), error) == ExositeModel.Push(old(View()), args, p)
    {
      var i;
      i, error := SelectMachine(args, p);
      if i.Some? { error := PushToMachine(i.value, args, p, error); }
    }

    // should_delay_activate, with linear delay
    method ShouldDelayActivate(now: int) returns (delay: bool)
      modifies this`lastActivationTime
      ensures delay == ShouldDelay(old(View()), now)
      ensures lastActivationTime == if delay then old(lastActivationTime) else now
    {
      if P.Elapsed(now, lastActivationTime) > ACTIVATION_DELAY {
        lastActivationTime := now;
        return false;
      }
      return true;
    }

    // Setting the abort flag of every machine.
    method ClearSms()
      requires Valid()
      modifies Sms()
      ensures View() == old(View()).(sms := ClearAll(old(Entries())))
    {
      var i := 0;
      while i < |items|
        invariant i <= |items|
        invariant forall j :: 0 <= j < i ==> items[j].sm.View() == P.Clear(old(items[j].sm.View()))
        invariant forall j :: i <= j < |items| ==> items[j].sm.View() == old(items[j].sm.View())
      {
        items[i].sm.ClearRequests();
        i := i + 1;
      }
      ClearAllIs(old(Entries()));
    }

    method AllSmsEmpty() returns (clear: bool)
      ensures clear == AllEmpty(Entries())
    {
      clear := true;
      var i := 0;
      while i < |items|
        invariant i <= |items|
        invariant clear <==> forall j :: 0 <= j < i ==> !items[j].sm.abort
      {
        var empty := items[i].sm.IsEmptied();
        clear := clear && empty;
        i := i + 1;
      }
      assert forall j :: 0 <= j < |items| ==> P.IsEmpty(Entries()[j].m) == !items[j].sm.abort;
    }

    method MarkSent(k: nat)
      requires k < |subscribeMap|
      modifies this`subscribeMap
      ensures View() == old(View()).(subs := old(subscribeMap)[k := Marked(old(subscribeMap)[k])])
    {
      subscribeMap := subscribeMap[k := Marked(subscribeMap[k])];
      assert Entries() == old(Entries());
    }

    // Handing down one item of the subscribe map.
    method PushSubscription(k: nat, p: PushEnv)
      requires Valid() && k < |subscribeMap|
      modifies this`items, this`nextId, this`subscribeMap, Sms()
      ensures Valid() && fresh(Sms() - old(Sms()))
      ensures View() == PushSub(old(View()), k, p)
    {
      if !subscribeMap[k].value.sent && !subscribeMap[k].value.acknowledged {
        var error := Push(P.Args(DpSubscribe, subscribeMap[k].key, 0), p);
        if error == ERR_SUCCESS { MarkSent(k); }
      }
    }

    // The pass over the subscribe map.
    method PushSubscriptions(ps: seq<PushEnv>)
      requires Valid()
      modifies this`items, this`nextId, this`subscribeMap, Sms()
      ensures Valid() && fresh(Sms() - old(Sms()))
      ensures View() == PushSubs(old(View()), 0, ps)
    {
      var k := 0;
      ghost var end := PushSubs(View(), 0, ps);
      while k < |subscribeMap|
        invariant k <= |subscribeMap|
        invariant Valid() && fresh(Sms() - old(Sms()))
        invariant end == PushSubs(View(), k, ps)
        decreases |subscribeMap| - k
      {
        ghost var before := View();
        PushSubscription(k, AnswerTo(ps, k));
        assert View() == PushSub(before, k, AnswerTo(ps, k));
        k := k + 1;
      }
    }

    method PopRequest()
      requires requestQueue != []
      modifies this`requestQueue
      ensures View() == old(View()).(requests := old(requestQueue)[1..])
    {
      requestQueue := requestQueue[1..];
      assert Entries() == old(Entries());
    }

    // Handing the head of the request queue down.
    method PushRequest(p: PushEnv)
      requires Valid()
      modifies this`items, this`nextId, this`requestQueue, Sms()
      ensures Valid() && fresh(Sms() - old(Sms()))
      ensures View() == PushHead(old(View()), p)
    {
      if requestQueue != [] {
        var error := Push(requestQueue[0], p);
        if error == ERR_SUCCESS { PopRequest(); }
      }
    }

    method MoveTo(next: Phase)
      modifies this`nextState
      ensures View() == old(View()).(nextPhase := next)
    {
      nextState := next;
      assert Entries() == old(Entries());
    }

    // The state AS_SEND_GET_TIMESTAMP of activate_sm
    method GetTimestamp(a: ActEnv)
      requires Valid() && activateState == SendGetTimestamp
      modifies this`nextState, this`items, this`nextId, Sms()
      ensures Valid() && fresh(Sms() - old(Sms()))
      ensures View() == ActIn(old(View()), a)
    {
      var error := Push(P.Args(UpTimestamp, "", 0), a.push);
      if error == ERR_SUCCESS { MoveTo(WaitTimestamp); }
    }

    // The state AS_SEND_ACTIVATE of activate_sm
    method Activate(a: ActEnv)
      requires Valid() && activateState == SendActivate
      modifies this`nextState, this`items, this`nextId, Sms()
      ensures Valid() && fresh(Sms() - old(Sms()))
      ensures View() == ActIn(old(View()), a)
    {
      var clear := AllSmsEmpty();
      if clear {
        var error := Push(P.Args(PpActivate, "", 0), a.push);
        if error == ERR_SUCCESS { MoveTo(WaitActivate); }
      }
    }

    // A new CIK and a new state of the activation machine.
    method Decide(text: string, next: Phase)
      modifies this`nextState, this`cik
      ensures View() == old(View()).(cik := text, nextPhase := next)
    {
      cik, nextState := text, next;
      assert Entries() == old(Entries());
    }

    // The state AS_INIT of activate_sm
    method TakeDeviceCik(a: ActEnv)
      requires activateState == Init
      modifies this`nextState, this`cik
      ensures View() == ActIn(old(View()), a)
    {
      var valid := IsCikFormatValid(conf.deviceCik);
      if valid { Decide(conf.deviceCik, Activated); } else { Decide([], Start); }
    }

    // The state AS_START of activate_sm
    method TakeStoredCik(a: ActEnv)
      requires activateState == Start
      modifies this`nextState, this`cik
      ensures View() == ActIn(old(View()), a)
    {
      if a.storedCik.Some? {
        var valid := IsCikFormatValid(a.storedCik.value);
        Decide(a.storedCik.value, if valid then Activated else PrepareActivate);
      } else {
        MoveTo(PrepareActivate);
      }
    }

    // The state AS_PREPARE_ACTIVATE of activate_sm
    method PrepareActivation(a: ActEnv)
      requires Valid() && activateState == PrepareActivate
      modifies this`nextState, this`lastActivationTime, Sms()
      ensures View() == ActIn(old(View()), a)
    {
      var delay := ShouldDelayActivate(a.now);
      if !delay {
        ClearSms();
        MoveTo(SendActivate);
      }
    }

    // The state AS_ACTIVATED of activate_sm
    method ServeActivated(a: ActEnv)
      requires Valid() && activateState == Activated
      modifies this, Sms()
      ensures Valid() && fresh(Sms() - old(Sms()))
      ensures View() == ActIn(old(View()), a)
    {
      if asynchStateEvent {
        asynchStateEvent := false;
        nextState := PrepareActivate;
      } else {
        PushSubscriptions(a.subPush);
        PushRequest(a.push);
      }
    }

    method EnterNextState()
      modifies this`activateState
      ensures View() == old(View()).(phase := old(nextState)) && activateState == old(nextState)
    {
      activateState := nextState;
      assert Entries() == old(Entries());
    }

    // activate_sm
    method ActivateSm(a: ActEnv)
      requires Valid()
      modifies this, Sms()
      ensures Valid() && fresh(Sms() - old(Sms()))
      ensures View() == ActivateStep(old(View()), a)
    {
      EnterNextState();
      match activateState
      case SendGetTimestamp => GetTimestamp(a);
      case SendActivate => Activate(a);
      case Init => TakeDeviceCik(a);
      case Start => TakeStoredCik(a);
      case PrepareActivate => PrepareActivation(a);
      case Activated => ServeActivated(a);
      case _ =>
    }

    // on_activate
    method OnActivated(status: int, payload: string)
      modifies this`nextState, this`cik, this`asynchStateEvent
      ensures View() == OnActivate(old(View()), status, payload)
    {
      if status != ERR_SUCCESS {
        MoveTo(PrepareActivate);
        return;
      }
      var text := CString(if |payload| <= CIK_LENGTH then payload else payload[..CIK_LENGTH]);
      var valid := IsCikFormatValid(text);
      if valid { asynchStateEvent := false; }
      Decide(text, if valid then Activated else PrepareActivate);
    }

    // on_timestamp
    method OnTimestampReceived(status: int, converted: bool)
      modifies this`nextState
      ensures View() == OnTimestamp(old(View()), status, converted)
    {
      nextState := if status == ERR_SUCCESS && converted then Init else SendGetTimestamp;
    }

    // on_subscribe, without the callback of the user
    method OnSubscribed(alias: string, status: int)
      modifies this`subscribeMap
      ensures View() == OnSubscribe(old(View()), alias, status)
    {
      var k := 0;
      while k < |subscribeMap|
        invariant k <= |subscribeMap| == |old(subscribeMap)|
        invariant forall n :: 0 <= n < |subscribeMap| ==>
                    subscribeMap[n] == if n < k && old(subscribeMap)[n].key == alias
                                       then AfterResponse(old(subscribeMap)[n], status, conf.http)
                                       else old(subscribeMap)[n]
      {
        if subscribeMap[k].key == alias {
          subscribeMap := subscribeMap[k := AfterResponse(subscribeMap[k], status, conf.http)];
        }
        k := k + 1;
      }
      assert subscribeMap == OnSubscribe(old(View()), alias, status).subs;
    }

    // exosite_api_callback
    method OnResponse(args: P.Args, code: int, reply: Reply)
      modifies this`nextState, this`cik, this`asynchStateEvent, this`subscribeMap
      ensures View() == Callback(old(View()), args, code, reply)
      ensures args.procedure == DpRead || args.procedure == DpWrite ==>
                asynchStateEvent == (old(asynchStateEvent) || code == 401 || code == -104)
    {
      var status := StatusOf(code, reply.parsed);
      if status == ERR_CIK_NOT_VALID { asynchStateEvent := true; }
      match args.procedure
      case DpSubscribe => OnSubscribed(args.alias, status);
      case PpActivate => OnActivated(status, reply.payload);
      case UpTimestamp => OnTimestampReceived(status, reply.converted);
      case _ =>
    }

    // A step of machine i, with the callbacks it is to run.
    method RunMachine(i: nat, env: P.Env) returns (calls: seq<P.Fact>)
      requires Valid() && i < |items|
      modifies globals, items[i].sm
      ensures View() == BeforeCallbacks(old(View()), i, env) && calls == P.CalledOnly(Facts(old(View()), i, env))
    {
      calls := items[i].sm.Task(globals, env);
      assert Entries() == old(Entries())[i := Entry(items[i].kind, items[i].name, items[i].sm.View())];
    }

    // The callbacks of a step, in order.
    method RunCallbacks(calls: seq<P.Fact>, replies: seq<Reply>)
      modifies this`nextState, this`cik, this`asynchStateEvent, this`subscribeMap
      ensures View() == Deliver(old(View()), calls, replies)
    {
      var facts, rest := calls, replies;
      while facts != []
        invariant Deliver(old(View()), calls, replies) == Deliver(View(), facts, rest)
        decreases |facts|
      {
        if facts[0].Called? {
          OnResponse(facts[0].req.args, facts[0].code, if rest == [] then Reply(false, [], false) else rest[0]);
          rest := if rest == [] then [] else rest[1..];
        }
        facts := facts[1..];
      }
    }

    // A step of machine i with its callbacks.
    method PollMachine(i: nat, env: P.Env, replies: seq<Reply>)
      requires Valid() && i < |items|
      modifies this`nextState, this`cik, this`asynchStateEvent, this`subscribeMap, globals, items[i].sm
      ensures Valid()
      ensures View() == MachineStep(old(View()), i, env, replies)
    {
      var calls := RunMachine(i, env);
      DeliverCalled(View(), Facts(old(View()), i, env), replies);
      RunCallbacks(calls, replies);
    }

    // request_queue_push
    method RequestQueuePush(procedure: Procedure, alias: string, memory: bool) returns (error: int)
      modifies this`requestQueue, this`accepted, this`nextId
      ensures (View(), error) == Request(old(View()), procedure, alias, memory)
    {
      if !memory { return ERR_NO_MEMORY; }
      if |requestQueue| < conf.requestLimit {
        var args := P.Args(procedure, alias, nextId);
        requestQueue, nextId := requestQueue + [args], nextId + 1;
        accepted := accepted + [args];
        assert Entries() == old(Entries());
        return ERR_SUCCESS;
      }
      return ERR_FAILURE;
    }
  }
}
