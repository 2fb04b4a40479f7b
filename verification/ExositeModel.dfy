// The activation state machine of src/exosite_api.c as a function on states, on top of the
// protocol client machines it creates: one step of activate_sm, one step of a machine with the
// callbacks it runs, and the calls of the user.

module ExositeModel {
  import opened Common
  import opened Ctype
  import opened HttpPayload
  import opened DictionaryModel
  import P = ProtocolModel

  const CIK_LENGTH := 40
  const ACTIVATION_DELAY := 10000
  const UNLIMITED_STATE_MACHINES := 0
  const HTTP_MESSAGE_ID := 1

  datatype Phase =
    | SendGetTimestamp | WaitTimestamp | Init | Start
    | PrepareActivate | SendActivate | WaitActivate | Activated

  datatype Kind = Main | LongPoll | TimeSync

  // struct sm_list_item
  datatype Entry = Entry(kind: Kind, name: Option<string>, m: P.Machine)

  // struct subscribe_item, and an entry of the subscribe map, under the alias as its key
  datatype SubscribeItem = SubscribeItem(sent: bool, acknowledged: bool)

  type Subscription = Pair<SubscribeItem>

  datatype Settings = Settings(http: bool, machine: P.Config, machineLimit: nat, requestLimit: nat, deviceCik: string)

  // struct exosite_class, the machines with what they share, and all requests that the request
  // queue has accepted so far. nextId supplies record addresses.
  datatype Exo = Exo(
    conf: Settings, sms: seq<Entry>, g: P.Shared,
    phase: Phase, nextPhase: Phase, event: bool, cik: string, lastActivation: int,
    requests: seq<P.Args>, subs: seq<Subscription>,
    nextId: nat, accepted: seq<P.Args>)

  // What the configuration, the server API and the allocator answer to one push, and the id that
  // a request has unless it is for HTTP.
  datatype PushEnv = PushEnv(create: int, build: int, memory: bool, messageId: int)

  // What one step of activate_sm finds: the clock, the stored CIK, and one answer per push.
  datatype ActEnv = ActEnv(now: int, storedCik: Option<string>, push: PushEnv, subPush: seq<PushEnv>)

  // What the response to one callback holds: whether the payload parsed, the buffer then, and
  // whether a timestamp could be converted.
  datatype Reply = Reply(parsed: bool, payload: string, converted: bool)

  // exosite_new
  function New(conf: Settings): Exo {
    Exo(conf, [], P.Shared(None, 0, P.Resetting), SendGetTimestamp, SendGetTimestamp, false, [], 0, [], [], 0, [])
  }

  // system_is_cik_format_valid
  predicate CikValid(cik: string) {
    |cik| == CIK_LENGTH && forall i :: 0 <= i < |cik| ==> IsAlnum(cik[i])
  }

  // ---------------------------------------------------------------- the list of machines

  predicate Answers(e: Entry, kind: Kind, name: Option<string>) {
    e.kind == kind && (name == None || e.name == name)
  }

  // find_sm: the index of the first machine of a kind, and of a name if one is given
  function FindSm(sms: seq<Entry>, kind: Kind, name: Option<string>): (i: Option<nat>)
    ensures i.Some? ==> i.value < |sms| && Answers(sms[i.value], kind, name)
    ensures i.Some? ==> forall j :: 0 <= j < i.value ==> !Answers(sms[j], kind, name)
    ensures i.None? ==> forall j :: 0 <= j < |sms| ==> !Answers(sms[j], kind, name)
  {
    if sms == [] then None
    else if Answers(sms[0], kind, name) then Some(0)
    else match FindSm(sms[1..], kind, name)
         case Some(i) => Some(i + 1)
         case None => None
  }

  // create_new_sm
  function CreateSm(x: Exo, kind: Kind, name: Option<string>, create: int): (Exo, int) {
    if x.conf.machineLimit != UNLIMITED_STATE_MACHINES && |x.sms| == x.conf.machineLimit then (x, ERR_NO_RESOURCE)
    else if create != ERR_SUCCESS then (x, create)
    else (x.(sms := x.sms + [Entry(kind, name, P.New(x.conf.machine))]), ERR_SUCCESS)
  }

  function KindFor(conf: Settings, procedure: Procedure): Kind {
    if procedure == DpSubscribe && conf.http then LongPoll
    else if procedure == UpTimestamp then TimeSync
    else Main
  }

  function TypeFor(conf: Settings, procedure: Procedure): P.RequestType {
    if procedure != DpSubscribe then P.Normal else if conf.http then P.Subscribe else P.SubscribeAsynch
  }

  // The id by which a response is paired: every HTTP request has the same.
  function MessageIdFor(conf: Settings, p: PushEnv): int { if conf.http then HTTP_MESSAGE_ID else p.messageId }

  function NameFor(conf: Settings, args: P.Args): Option<string> {
    if KindFor(conf, args.procedure) == LongPoll then Some(args.alias) else None
  }

  // The machine for a request, created if there is none: its index, and the error code so far.
  function SelectSm(x: Exo, args: P.Args, p: PushEnv): (Exo, Option<nat>, int) {
    var kind := KindFor(x.conf, args.procedure);
    match FindSm(x.sms, kind, NameFor(x.conf, args))
    case Some(i) => (x, Some(i), ERR_FAILURE)
    case None =>
      var (x', error) := CreateSm(x, kind, NameFor(x.conf, args), p.create);
      if error != ERR_SUCCESS then (x', None, error) else (x', Some(|x.sms|), ERR_SUCCESS)
  }

  // The last part of pcsm_transmit_qeueue_push_no_copy: into the queue of machine i.
  function PushTo(x: Exo, i: nat, args: P.Args, p: PushEnv, error: int): (Exo, int)
    requires i < |x.sms|
  {
    var m := x.sms[i].m;
    if P.QueueFull(m) then (x, error)
    else if p.build != ERR_SUCCESS then (x, p.build)
    else
      var r := P.Request(x.nextId, TypeFor(x.conf, args.procedure), args, MessageIdFor(x.conf, p), 0);
      var (m', e) := P.Transmit(m, r, p.memory);
      (x.(sms := x.sms[i := x.sms[i].(m := m')], nextId := x.nextId + 1), e)
  }

  // pcsm_transmit_qeueue_push_no_copy
  function Push(x: Exo, args: P.Args, p: PushEnv): (Exo, int) {
    var (x', i, error) := SelectSm(x, args, p);
    if i == None || i.value >= |x'.sms| then (x', error) else PushTo(x', i.value, args, p, error)
  }

  // ---------------------------------------------------------------- activate_sm

  // Setting the abort flag of every machine.
  function ClearAll(sms: seq<Entry>): seq<Entry> {
    if sms == [] then [] else [sms[0].(m := P.Clear(sms[0].m))] + ClearAll(sms[1..])
  }

  predicate AllEmpty(sms: seq<Entry>) { forall e :: e in sms ==> P.IsEmpty(e.m) }

  function Marked(s: Subscription): Subscription { s.(value := s.value.(sent := true)) }

  // Handing down item k of the subscribe map, unless it is sent or acknowledged already.
  function PushSub(x: Exo, k: nat, p: PushEnv): (x': Exo)
    requires k < |x.subs|
    ensures |x'.subs| == |x.subs|
  {
    if x.subs[k].value.sent || x.subs[k].value.acknowledged then x
    else
      var (x', error) := Push(x, P.Args(DpSubscribe, x.subs[k].key, 0), p);
      if error == ERR_SUCCESS then x'.(subs := x.subs[k := Marked(x.subs[k])]) else x'
  }

  function AnswerTo(ps: seq<PushEnv>, k: nat): PushEnv {
    if k < |ps| then ps[k] else PushEnv(ERR_FAILURE, ERR_FAILURE, false, 0)
  }

  // The pass over the subscribe map, from item k on.
  function PushSubs(x: Exo, k: nat, ps: seq<PushEnv>): Exo
    decreases |x.subs| - k
  {
    if k >= |x.subs| then x else PushSubs(PushSub(x, k, AnswerTo(ps, k)), k + 1, ps)
  }

  // Handing the head of the request queue down.
  function PushHead(x: Exo, p: PushEnv): Exo {
    if x.requests == [] then x
    else
      var (x', error) := Push(x, x.requests[0], p);
      if error == ERR_SUCCESS then x'.(requests := x.requests[1..]) else x'
  }

  function ShouldDelay(x: Exo, now: int): bool { P.Elapsed(now, x.lastActivation) <= ACTIVATION_DELAY }

  // activate_sm
  function ActivateStep(x: Exo, a: ActEnv): Exo { ActIn(x.(phase := x.nextPhase), a) }

  // What it does in each state
  function ActIn(x: Exo, a: ActEnv): Exo {
    match x.phase
    case SendGetTimestamp =>
      var (x', error) := Push(x, P.Args(UpTimestamp, "", 0), a.push);
      if error == ERR_SUCCESS then x'.(nextPhase := WaitTimestamp) else x'
    case WaitTimestamp => x
    case Init =>
      if CikValid(x.conf.deviceCik) then x.(cik := x.conf.deviceCik, nextPhase := Activated)
      else x.(cik := [], nextPhase := Start)
    case Start =>
      var x' := if a.storedCik.Some? then x.(cik := a.storedCik.value) else x;
      x'.(nextPhase := if a.storedCik.Some? && CikValid(a.storedCik.value) then Activated else PrepareActivate)
    case PrepareActivate =>
      if ShouldDelay(x, a.now) then x
      else x.(lastActivation := a.now, sms := ClearAll(x.sms), nextPhase := SendActivate)
    case SendActivate =>
      if !AllEmpty(x.sms) then x
      else
        var (x', error) := Push(x, P.Args(PpActivate, "", 0), a.push);
        if error == ERR_SUCCESS then x'.(nextPhase := WaitActivate) else x'
    case WaitActivate => x
    case Activated =>
      if x.event then x.(event := false, nextPhase := PrepareActivate)
      else PushHead(PushSubs(x, 0, a.subPush), a.push)
  }

  // ---------------------------------------------------------------- callbacks

  // on_activate; the CIK is what the first 40 characters of the payload hold
  function OnActivate(x: Exo, status: int, payload: string): Exo {
    if status != ERR_SUCCESS then x.(nextPhase := PrepareActivate)
    else
      var cik := CString(if |payload| <= CIK_LENGTH then payload else payload[..CIK_LENGTH]);
      if CikValid(cik) then x.(cik := cik, nextPhase := Activated, event := false)
      else x.(cik := cik, nextPhase := PrepareActivate)
  }

  // on_timestamp
  function OnTimestamp(x: Exo, status: int, converted: bool): Exo {
    x.(nextPhase := if status == ERR_SUCCESS && converted then Init else SendGetTimestamp)
  }

  // The flags on_subscribe leaves on the item of the alias.
  function AfterResponse(s: Subscription, status: int, http: bool): Subscription {
    if status != ERR_SUCCESS || http then s.(value := SubscribeItem(false, false))
    else s.(value := s.value.(acknowledged := true))
  }

  function OnSubscribe(x: Exo, alias: string, status: int): Exo {
    x.(subs := seq(|x.subs|, i requires 0 <= i < |x.subs| =>
      if x.subs[i].key == alias then AfterResponse(x.subs[i], status, x.conf.http) else x.subs[i]))
  }

  // exosite_api_callback
  function Callback(x: Exo, args: P.Args, code: int, reply: Reply): Exo {
    var status := StatusOf(code, reply.parsed);
    var x' := if status == ERR_CIK_NOT_VALID then x.(event := true) else x;
    match args.procedure
    case DpSubscribe => OnSubscribe(x', args.alias, status)
    case PpActivate => OnActivate(x', status, reply.payload)
    case UpTimestamp => OnTimestamp(x', status, reply.converted)
    case _ => x'
  }

  // The callbacks of one machine step, in the order in which they ran.
  function Deliver(x: Exo, facts: seq<P.Fact>, replies: seq<Reply>): Exo
    decreases |facts|
  {
    if facts == [] then x
    else
      var reply := if replies == [] then Reply(false, [], false) else replies[0];
      var rest := if replies == [] then [] else replies[1..];
      if facts[0].Called? then Deliver(Callback(x, facts[0].req.args, facts[0].code, reply), facts[1..], rest)
      else Deliver(x, facts[1..], replies)
  }

  function NewFacts(before: seq<P.Fact>, after: seq<P.Fact>): seq<P.Fact> {
    if |before| <= |after| then after[|before|..] else []
  }

  // protocol_client_sm_task of machine i, with its callbacks
  function MachineStep(x: Exo, i: nat, env: P.Env, replies: seq<Reply>): Exo
    requires i < |x.sms|
  {
    var m := x.sms[i].m;
    var (m', g') := P.Task(m, i, x.g, env);
    Deliver(x.(sms := x.sms[i := x.sms[i].(m := m')], g := g'), NewFacts(m.work.history, m'.work.history), replies)
  }

  // ---------------------------------------------------------------- calls of the user

  // request_queue_push, for exosite_read and exosite_write
  function Request(x: Exo, procedure: Procedure, alias: string, memory: bool): (Exo, int) {
    if !memory then (x, ERR_NO_MEMORY)
    else if |x.requests| < x.conf.requestLimit then
      var args := P.Args(procedure, alias, x.nextId);
      (x.(requests := x.requests + [args], accepted := x.accepted + [args], nextId := x.nextId + 1), ERR_SUCCESS)
    else (x, ERR_FAILURE)
  }

  // exosite_subscribe
  function Subscribe(x: Exo, alias: string, memory: bool): (Exo, int) {
    if !memory then (x, ERR_NO_MEMORY)
    else if HasKey(x.subs, alias) then (x, ERR_DUPLICATE)
    else (x.(subs := Inserted(x.subs, Pair(alias, SubscribeItem(false, false)))), ERR_SUCCESS)
  }

  // ---------------------------------------------------------------- runs

  datatype Move =
    | Poll(a: ActEnv)
    | Step(i: nat, env: P.Env, replies: seq<Reply>)
    | UserRequest(write: bool, alias: string, memory: bool)
    | UserSubscribe(alias: string, memory: bool)

  ghost predicate Possible(x: Exo, move: Move) { move.Step? ==> move.i < |x.sms| }

  function Apply(x: Exo, move: Move): Exo
    requires Possible(x, move)
  {
    match move
    case Poll(a) => ActivateStep(x, a)
    case Step(i, env, replies) => MachineStep(x, i, env, replies)
    case UserRequest(write, alias, memory) => Request(x, if write then DpWrite else DpRead, alias, memory).0
    case UserSubscribe(alias, memory) => Subscribe(x, alias, memory).0
  }
}
