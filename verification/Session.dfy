/** One client session of the router as a step system (container/dbus/router.go,
    `ClientSession`).

    Three threads share the session: the dispatcher, which reads the client, and the readers of
    the two buses. A step is one critical section or one write of one of them, or a bus putting a
    message on its connection; any interleaving of steps is a run. The sequences in the state
    record what each endpoint has sent and received. A failed write delivers nothing. */
module Session {
  import opened Bytes
  import opened Wrappers
  import opened Wire
  import opened Bodies
  import opened Texts
  import opened Merging
  import opened ErrorReply
  import opened Rules

  const BUS := Ascii("org.freedesktop.DBus")
  const HELLO := Ascii("Hello")
  const GET_NAME_OWNER := Ascii("GetNameOwner")
  const ADD_MATCH := Ascii("AddMatch")
  const REMOVE_MATCH := Ascii("RemoveMatch")
  const NAME_OWNER_CHANGED := Ascii("NameOwnerChanged")
  const SERVICE_UNKNOWN := Ascii("org.freedesktop.DBus.Error.ServiceUnknown")

  /** The bus methods whose argument decides where the call goes. */
  const NAME_QUERIES: seq<Text> := [
    GET_NAME_OWNER, Ascii("NameHasOwner"), Ascii("StartServiceByName"),
    Ascii("GetConnectionUnixProcessID"), Ascii("GetConnectionUnixUser"),
    Ascii("GetConnectionCredentials"), Ascii("GetAdtAuditSessionData"),
    Ascii("GetConnectionSELinuxSecurityContext")
  ]

  const LIST_QUERIES: seq<Text> := [Ascii("ListNames"), Ascii("ListActivatableNames")]
  const OWNERSHIP_CALLS: seq<Text> := [Ascii("RequestName"), Ascii("ReleaseName")]
  const MATCH_CALLS: seq<Text> := [ADD_MATCH, REMOVE_MATCH]
  const OWNER_SIGNALS: seq<Text> := [NAME_OWNER_CHANGED, Ascii("NameAcquired"), Ascii("NameLost")]

  /** Where a client message goes: to one bus, to both with the host's reply dropped or merged,
      to both as a broadcast, or back to the client as an error. */
  datatype Route = ToContainer | ToHost | CopySwallow | CopyMerge | CopyBroadcast | Unavailable
  {
    predicate ReachesContainer() {
      ToContainer? || CopySwallow? || CopyMerge? || CopyBroadcast?
    }

    predicate ReachesHost() {
      ToHost? || CopySwallow? || CopyMerge? || CopyBroadcast?
    }
  }

  function RouteName(name: Text, hostNames: set<Text>): Target {
    if name == [] then Container
    else if RouteDestination(name) == Host || RouteOwnership(name) == Host || name in hostNames then Host
    else Container
  }

  function RouteManagement(m: Message, hostUp: bool, hostNames: set<Text>): Route {
    var member, arg := m.fields.member, FirstText(m);
    if !hostUp then ToContainer
    else if member == HELLO then CopySwallow
    else if member in MATCH_CALLS then (if MatchSignalRuleHost(arg) then CopySwallow else ToContainer)
    else if member in OWNERSHIP_CALLS then (if RouteOwnership(arg) == Host then ToHost else ToContainer)
    else if member in LIST_QUERIES then CopyMerge
    else if member in NAME_QUERIES then (if RouteName(arg, hostNames) == Host then ToHost else ToContainer)
    else ToContainer
  }

  function RouteSignal(m: Message, hostUp: bool, hostNames: set<Text>): Route {
    if m.fields.destination != [] then
      if m.fields.destination != BUS && hostUp && RouteName(m.fields.destination, hostNames) == Host then ToHost
      else ToContainer
    else if hostUp && m.fields.iface != BUS then CopyBroadcast
    else ToContainer
  }

  function RouteOf(m: Message, hostUp: bool, hostNames: set<Text>): Route {
    if m.kind == TYPE_SIGNAL then RouteSignal(m, hostUp, hostNames)
    else if m.fields.destination == BUS then RouteManagement(m, hostUp, hostNames)
    else if RouteName(m.fields.destination, hostNames) == Container then ToContainer
    else if hostUp then ToHost
    else Unavailable
  }

  function UnavailableText(destination: Text): Text {
    Ascii("The name ") + destination + Ascii(" is a host service but host proxy is unavailable")
  }

  function UnavailableReply(m: Message, serial: uint32): Message {
    ErrorMessage(m, SERVICE_UNKNOWN, UnavailableText(m.fields.destination), serial)
  }

  datatype PendingKind = Swallow | Forward
  datatype Pending = Pending(kind: PendingKind, member: Text)
  datatype MergeState = MergeState(member: Text, hostMsg: Option<Message>, contMsg: Option<Message>)

  /** A client message with its route, and the learned names that the route was chosen by. */
  datatype Sent = Sent(msg: Message, route: Route, hostNames: set<Text>)
  {
    /** Whether an entry is recorded before the host sees the message. */
    predicate Recorded() {
      route.CopySwallow? || route.CopyMerge? || (route.ToHost? && msg.IsCall())
    }

    function Serial(): uint32 {
      msg.serial
    }
  }

  /** The dispatcher, by what it does next with the message in hand. */
  datatype Dispatcher =
    | Idle
    | Noting(e: Sent)
    | WritingHost(e: Sent)
    | Undoing(e: Sent)
    | WritingContainer(e: Sent)
    | Answering(e: Sent)
    | Halted

  /** A bus reader, by what it does next with the message in hand. */
  datatype BusReader =
    | Waiting
    | Matching(m: Message)
    | LookingUp(m: Message)
    | Naming(m: Message)
    | Learning(m: Message, name: Text, deliver: bool)
    | Sending(m: Message)
    | SendingMerged(m: Message)
    | Stopped

  /** Who a message to the client comes from; the index is its place in what the bus sent. */
  datatype Origin = FromContainer(index: nat) | FromHost(index: nat) | FromBoth | FromRouter

  datatype Out = Out(origin: Origin, msg: Message)

  datatype State = State(
    hostUp: bool,
    hostPending: map<uint32, Pending>,
    merges: map<uint32, MergeState>,
    hostNames: set<Text>,
    hostName: Text,
    disp: Dispatcher,
    cont: BusReader,
    host: BusReader,
    log: seq<Sent>,
    contIn: seq<Sent>,
    hostIn: seq<Sent>,
    contSent: seq<Message>,
    contTaken: nat,
    hostSent: seq<Message>,
    hostTaken: nat,
    clientOut: seq<Out>,
    failed: bool)

  function Initial(hostUp: bool): State {
    State(hostUp, map[], map[], {}, [], Idle, Waiting, Waiting, [], [], [], [], 0, [], 0, [], false)
  }

  datatype Step =
    | ClientSends(m: Message)
    | Dispatch(ok: bool, serial: uint32)
    | ContainerSends(m: Message)
    | HostSends(m: Message)
    | ContainerReads(ok: bool)
    | HostReads(ok: bool)

  /** The first thing the dispatcher does with a routed message. */
  function Begin(e: Sent): Dispatcher {
    match e.route
    case ToContainer => WritingContainer(e)
    case ToHost => if e.msg.IsCall() then Noting(e) else WritingHost(e)
    case CopySwallow => Noting(e)
    case CopyMerge => Noting(e)
    case CopyBroadcast => WritingHost(e)
    case Unavailable => Answering(e)
  }

  function Note(s: State, e: Sent): State {
    if e.route.CopyMerge? then
      s.(merges := s.merges[e.Serial() := MergeState(e.msg.fields.member, None, None)])
    else
      var kind := if e.route.ToHost? then Forward else Swallow;
      s.(hostPending := s.hostPending[e.Serial() := Pending(kind, e.msg.fields.member)])
  }

  function Undo(s: State, e: Sent): State {
    if e.route.CopyMerge? then s.(merges := s.merges - {e.Serial()})
    else s.(hostPending := s.hostPending - {e.Serial()})
  }

  /** After the host part of a message: a copied message still goes to the container. */
  function AfterHost(e: Sent, ok: bool): Dispatcher {
    if !e.route.ToHost? then WritingContainer(e) else if ok then Idle else Halted
  }

  function DispatcherStep(s: State, ok: bool, serial: uint32): State {
    match s.disp
    case Noting(e) =>
      Note(s, e).(disp := WritingHost(e))
    case WritingHost(e) =>
      if ok then s.(hostIn := s.hostIn + [e], disp := AfterHost(e, true))
      else s.(failed := true, disp := if e.Recorded() then Undoing(e) else AfterHost(e, false))
    case Undoing(e) =>
      Undo(s, e).(disp := AfterHost(e, false))
    case WritingContainer(e) =>
      if ok then s.(contIn := s.contIn + [e], disp := Idle) else s.(failed := true, disp := Halted)
    case Answering(e) =>
      if ok then s.(clientOut := s.clientOut + [Out(FromRouter, UnavailableReply(e.msg, serial))], disp := Idle)
      else s.(failed := true, disp := Halted)
    case _ => s
  }

  /** The merged reply; the alternative stands for frames that no reader returns. */
  function Combine(cont: Message, host: Message): Message {
    if Mergeable(cont, host) then Merge(cont, host).(fds := []) else cont.(fds := [])
  }

  function ContainerStep(s: State, ok: bool): State {
    match s.cont
    case Waiting =>
      if s.contTaken < |s.contSent| then
        var m := s.contSent[s.contTaken];
        s.(contTaken := s.contTaken + 1, cont := if m.IsReply() then Matching(m) else Sending(m))
      else s
    case Matching(m) =>
      var n := m.fields.replySerial;
      if n !in s.merges then s.(cont := Sending(m))
      else if s.merges[n].hostMsg.Some? then
        s.(merges := s.merges - {n}, cont := SendingMerged(Combine(m, s.merges[n].hostMsg.value)))
      else
        s.(merges := s.merges[n := s.merges[n].(contMsg := Some(m))], cont := Waiting)
    case Sending(m) =>
      if ok then s.(clientOut := s.clientOut + [Out(FromContainer(if s.contTaken > 0 then s.contTaken - 1 else 0), m)], cont := Waiting)
      else s.(failed := true, cont := Stopped)
    case SendingMerged(m) =>
      if ok then s.(clientOut := s.clientOut + [Out(FromBoth, m)], cont := Waiting)
      else s.(failed := true, cont := Waiting)
    case _ => s
  }

  predicate FromBusDriver(m: Message) {
    m.fields.sender == BUS || m.fields.iface == BUS
  }

  /** `shouldForwardHostSignal`, apart from what it learns. */
  predicate ForwardsSignal(m: Message) {
    && m.kind == TYPE_SIGNAL
    && (FromBusDriver(m) ==>
          && m.fields.member in OWNER_SIGNALS
          && (RouteDestination(FirstText(m)) == Host || RouteOwnership(FirstText(m)) == Host))
  }

  predicate LearnsFromSignal(m: Message) {
    FromBusDriver(m) && m.fields.member == NAME_OWNER_CHANGED && |BodyTexts(m)| >= 3
  }

  /** What the host reader does with a message that is not a reply. */
  function AcceptSignal(m: Message): BusReader {
    if !ForwardsSignal(m) then Waiting
    else if LearnsFromSignal(m) then Learning(m, BodyTexts(m)[2], true)
    else Sending(m)
  }

  /** What the host reader does with a reply whose pending entry it has just removed. */
  function AcceptReply(m: Message, p: Pending): BusReader {
    if p.kind.Swallow? then
      if p.member == HELLO && m.kind == TYPE_METHOD_RETURN then Naming(m) else Waiting
    else if p.member == GET_NAME_OWNER && m.kind == TYPE_METHOD_RETURN then Learning(m, FirstText(m), true)
    else Sending(m)
  }

  function Remember(names: set<Text>, name: Text): set<Text> {
    if IsUnique(name) then names + {name} else names
  }

  function HostStep(s: State, ok: bool): State {
    match s.host
    case Waiting =>
      if s.hostTaken < |s.hostSent| then
        var m := s.hostSent[s.hostTaken];
        s.(hostTaken := s.hostTaken + 1, host := if m.IsReply() then Matching(m) else AcceptSignal(m))
      else s
    case Matching(m) =>
      var n := m.fields.replySerial;
      if n !in s.merges then s.(host := LookingUp(m))
      else if s.merges[n].contMsg.Some? then
        s.(merges := s.merges - {n}, host := SendingMerged(Combine(s.merges[n].contMsg.value, m)))
      else
        s.(merges := s.merges[n := s.merges[n].(hostMsg := Some(m))], host := Waiting)
    case LookingUp(m) =>
      var n := m.fields.replySerial;
      if n !in s.hostPending then s.(host := Waiting)
      else s.(hostPending := s.hostPending - {n}, host := AcceptReply(m, s.hostPending[n]))
    case Naming(m) =>
      s.(hostName := FirstText(m), host := Learning(m, FirstText(m), false))
    case Learning(m, name, deliver) =>
      s.(hostNames := Remember(s.hostNames, name), host := if deliver then Sending(m) else Waiting)
    case Sending(m) =>
      if ok then s.(clientOut := s.clientOut + [Out(FromHost(if s.hostTaken > 0 then s.hostTaken - 1 else 0), m)], host := Waiting)
      else s.(failed := true, host := Stopped)
    case SendingMerged(m) =>
      if ok then s.(clientOut := s.clientOut + [Out(FromBoth, m)], host := Waiting)
      else s.(failed := true, host := Waiting)
    case Stopped => s
  }

  function Next(s: State, step: Step): State {
    match step
    case ClientSends(m) =>
      var e := Sent(m, RouteOf(m, s.hostUp, s.hostNames), s.hostNames);
      s.(log := s.log + [e], disp := Begin(e))
    case Dispatch(ok, serial) => DispatcherStep(s, ok, serial)
    case ContainerSends(m) => s.(contSent := s.contSent + [m])
    case HostSends(m) => s.(hostSent := s.hostSent + [m])
    case ContainerReads(ok) => ContainerStep(s, ok)
    case HostReads(ok) => HostStep(s, ok)
  }

  /** The client message with a serial. */
  function LogOf(log: seq<Sent>, n: uint32): Option<Sent>
    decreases |log|
  {
    if log == [] then None
    else if log[|log| - 1].Serial() == n then Some(log[|log| - 1])
    else LogOf(log[..|log| - 1], n)
  }

  /** How many replies to a serial a bus has sent. */
  function Replies(ms: seq<Message>, n: uint32): nat
    decreases |ms|
  {
    if ms == [] then 0
    else
      var m := ms[|ms| - 1];
      Replies(ms[..|ms| - 1], n) + if m.IsReply() && m.fields.replySerial == n then 1 else 0
  }

  /** How many method calls with a serial a bus has received. */
  function Calls(received: seq<Sent>, n: uint32): nat
    decreases |received|
  {
    if received == [] then 0
    else
      var e := received[|received| - 1];
      Calls(received[..|received| - 1], n) + if e.msg.IsCall() && e.Serial() == n then 1 else 0
  }

  /** How many returns or errors for a serial the client has received. */
  function Delivered(outs: seq<Out>, n: uint32): nat
    decreases |outs|
  {
    if outs == [] then 0
    else
      var m := outs[|outs| - 1].msg;
      Delivered(outs[..|outs| - 1], n) + if m.IsReply() && m.fields.replySerial == n then 1 else 0
  }

  /** A bus that has received more calls with the serial than it has answered. */
  predicate MayAnswer(received: seq<Sent>, sent: seq<Message>, m: Message) {
    m.IsReply() ==> Replies(sent, m.fields.replySerial) < Calls(received, m.fields.replySerial)
  }

  /** A frame that the reader accepts, and the message that it returns for it. */
  predicate Received(m: Message) {
    Parse(m.raw) == Success(m.(fds := [])) && |m.raw| <= MAX_MESSAGE_SIZE
  }

  /** Whether a message is a return to a name list call, or to a serial that may become one of such
      a call. Only the body of such a message is ever replaced. */
  predicate MayMerge(log: seq<Sent>, m: Message) {
    && m.kind == TYPE_METHOD_RETURN
    && (LogOf(log, m.fields.replySerial).None? || LogOf(log, m.fields.replySerial).value.route.CopyMerge?)
  }

  /** What a bus may send: any frame that the reader accepts. If its body may be replaced, the texts
      of its header end in the header. */
  predicate WellFormed(log: seq<Sent>, m: Message) {
    Received(m) && (MayMerge(log, m) ==> SelfContained(m))
  }

  /** Which steps are possible. The client never reuses a serial; the container bus answers only
      calls it has received, each at most once; both buses send well-formed frames. What and when
      the host bus answers is not restricted. */
  predicate Enabled(s: State, step: Step) {
    match step
    case ClientSends(m) => s.disp.Idle? && LogOf(s.log, m.serial).None?
    case Dispatch(_, _) => !s.disp.Idle? && !s.disp.Halted?
    case ContainerSends(m) => WellFormed(s.log, m) && MayAnswer(s.contIn, s.contSent, m)
    case HostSends(m) => s.hostUp && WellFormed(s.log, m)
    case ContainerReads(_) => true
    case HostReads(_) => s.hostUp
  }

  /** A host bus that, too, answers only calls it has received, each at most once. */
  predicate HostAnswers(s: State, step: Step) {
    step.HostSends? ==> MayAnswer(s.hostIn, s.hostSent, step.m)
  }

  function Run(s: State, steps: seq<Step>): State
    decreases |steps|
  {
    if steps == [] then s else Run(Next(s, steps[0]), steps[1..])
  }

  predicate ValidRun(s: State, steps: seq<Step>)
    decreases |steps|
  {
    steps == [] || (Enabled(s, steps[0]) && ValidRun(Next(s, steps[0]), steps[1..]))
  }

  predicate DisciplinedRun(s: State, steps: seq<Step>)
    decreases |steps|
  {
    steps == [] || (HostAnswers(s, steps[0]) && DisciplinedRun(Next(s, steps[0]), steps[1..]))
  }
}
