/** What the two buses receive from the client (container/dbus/router.go:317-450). */
module Traffic {
  import opened Bytes
  import opened Wire
  import opened Session
  import opened Correlation
  import opened Effects
  import opened Delivery

  function ContainerShare(log: seq<Sent>): seq<Sent>
    decreases |log|
  {
    if log == [] then []
    else
      var e := log[|log| - 1];
      ContainerShare(log[..|log| - 1]) + if e.route.ReachesContainer() then [e] else []
  }

  function HostShare(log: seq<Sent>): seq<Sent>
    decreases |log|
  {
    if log == [] then []
    else
      var e := log[|log| - 1];
      HostShare(log[..|log| - 1]) + if e.route.ReachesHost() then [e] else []
  }

  /** The serials of the messages that the client is told are undeliverable. */
  function Undeliverable(log: seq<Sent>): seq<uint32>
    decreases |log|
  {
    if log == [] then []
    else
      var e := log[|log| - 1];
      Undeliverable(log[..|log| - 1]) + if e.route.Unavailable? then [e.Serial()] else []
  }

  /** The serials that the router itself has answered. */
  function Refusals(outs: seq<Out>): seq<uint32>
    decreases |outs|
  {
    if outs == [] then []
    else
      var o := outs[|outs| - 1];
      Refusals(outs[..|outs| - 1]) + if o.origin.FromRouter? then [o.msg.fields.replySerial] else []
  }

  /** The client messages that the dispatcher is done with. */
  function Settled(s: State): seq<Sent> {
    if InHand(s.disp).Some? && s.log != [] then s.log[..|s.log| - 1] else s.log
  }

  /** The message in hand, where its host copy has been written. */
  function HalfDone(d: Dispatcher): seq<Sent> {
    if d.WritingContainer? && d.e.route.ReachesHost() then [d.e] else []
  }

  predicate WorksOnLast(s: State) {
    InHand(s.disp).Some? ==> s.log != [] && s.log[|s.log| - 1] == InHand(s.disp).value
  }

  predicate PhaseFits(d: Dispatcher) {
    match d
    case Noting(e) => e.route.ReachesHost()
    case WritingHost(e) => e.route.ReachesHost()
    case Undoing(e) => e.route.ReachesHost()
    case WritingContainer(e) => e.route.ReachesContainer()
    case Answering(e) => e.route.Unavailable?
    case _ => true
  }

  predicate Faithful(s: State) {
    && s.contIn == ContainerShare(Settled(s))
    && s.hostIn == HostShare(Settled(s)) + HalfDone(s.disp)
    && Refusals(s.clientOut) == Undeliverable(Settled(s))
    && !s.disp.Undoing? && !s.disp.Halted?
  }

  ghost predicate TrafficInv(s: State) {
    WorksOnLast(s) && PhaseFits(s.disp) && (!s.failed ==> Faithful(s))
  }

  lemma SharesGrow(log: seq<Sent>, e: Sent)
    ensures ContainerShare(log + [e]) == ContainerShare(log) + if e.route.ReachesContainer() then [e] else []
    ensures HostShare(log + [e]) == HostShare(log) + if e.route.ReachesHost() then [e] else []
    ensures Undeliverable(log + [e]) == Undeliverable(log) + if e.route.Unavailable? then [e.Serial()] else []
  {
    assert (log + [e])[..|log|] == log;
  }

  lemma RefusalsGrow(outs: seq<Out>, o: Out)
    ensures Refusals(outs + [o]) == Refusals(outs) + if o.origin.FromRouter? then [o.msg.fields.replySerial] else []
  {
    assert (outs + [o])[..|outs|] == outs;
  }

  lemma ClientKeepsTraffic(s: State, m: Message)
    requires TrafficInv(s) && s.disp.Idle?
    ensures TrafficInv(Next(s, ClientSends(m)))
  {
    hide RouteOf, ContainerShare, HostShare, Undeliverable, Refusals;
    var e := Sent(m, RouteOf(m, s.hostUp, s.hostNames), s.hostNames);
    assert (s.log + [e])[..|s.log|] == s.log;
    assert s.hostIn + [] == s.hostIn;
  }

  lemma RecordsKeepTraffic(s: State, ok: bool, serial: uint32)
    requires TrafficInv(s) && (s.disp.Noting? || s.disp.Undoing?)
    ensures TrafficInv(DispatcherStep(s, ok, serial))
  {
    hide ContainerShare, HostShare, Undeliverable, Refusals;
  }

  lemma HostWriteKeepsTraffic(s: State, ok: bool, serial: uint32)
    requires TrafficInv(s) && s.disp.WritingHost?
    ensures TrafficInv(DispatcherStep(s, ok, serial))
  {
    hide ContainerShare, HostShare, Undeliverable, Refusals;
    assert s.log == Settled(s) + [s.disp.e];
    SharesGrow(Settled(s), s.disp.e);
  }

  lemma ContainerWriteKeepsTraffic(s: State, ok: bool, serial: uint32)
    requires TrafficInv(s) && s.disp.WritingContainer?
    ensures TrafficInv(DispatcherStep(s, ok, serial))
  {
    hide ContainerShare, HostShare, Undeliverable, Refusals;
    assert s.log == Settled(s) + [s.disp.e];
    SharesGrow(Settled(s), s.disp.e);
  }

  lemma AnswerKeepsTraffic(s: State, ok: bool, serial: uint32)
    requires TrafficInv(s) && s.disp.Answering?
    ensures TrafficInv(DispatcherStep(s, ok, serial))
  {
    hide ContainerShare, HostShare, Undeliverable, Refusals, UnavailableReply;
    assert s.log == Settled(s) + [s.disp.e];
    SharesGrow(Settled(s), s.disp.e);
    UnavailableReplyAnswers(s.disp.e.msg, serial);
    RefusalsGrow(s.clientOut, Out(FromRouter, UnavailableReply(s.disp.e.msg, serial)));
  }

  lemma DispatcherKeepsTraffic(s: State, ok: bool, serial: uint32)
    requires TrafficInv(s)
    ensures TrafficInv(DispatcherStep(s, ok, serial))
  {
    match s.disp
    case Noting(_) => RecordsKeepTraffic(s, ok, serial);
    case Undoing(_) => RecordsKeepTraffic(s, ok, serial);
    case WritingHost(_) => HostWriteKeepsTraffic(s, ok, serial);
    case WritingContainer(_) => ContainerWriteKeepsTraffic(s, ok, serial);
    case Answering(_) => AnswerKeepsTraffic(s, ok, serial);
    case _ =>
  }

  lemma OthersKeepTraffic(s: State, t: State)
    requires TrafficInv(s) && ClientSideSame(s, t) && (s.failed ==> t.failed)
    requires Refusals(t.clientOut) == Refusals(s.clientOut)
    ensures TrafficInv(t)
  {
    hide ContainerShare, HostShare, Undeliverable, Refusals;
  }

  lemma ReadersRefuseNothing(s: State, step: Step)
    requires HandsFit(s) && (step.ContainerReads? || step.HostReads?)
    ensures Refusals(Next(s, step).clientOut) == Refusals(s.clientOut)
  {
    StepHandsOne(s, step);
    hide Next, Refusals;
    var t := Next(s, step);
    if t.clientOut != s.clientOut {
      var o :| t.clientOut == s.clientOut + [o] && Hands(s, step, o);
      RefusalsGrow(s.clientOut, o);
    }
  }

  lemma StepKeepsTraffic(s: State, step: Step)
    requires TrafficInv(s) && HandsFit(s) && Enabled(s, step)
    ensures TrafficInv(Next(s, step))
  {
    hide TrafficInv, HandsFit, Refusals, RouteOf, DispatcherStep, ContainerStep, HostStep;
    match step
    case ClientSends(m) => ClientKeepsTraffic(s, m);
    case Dispatch(ok, serial) => DispatcherKeepsTraffic(s, ok, serial);
    case ContainerReads(ok) =>
      ContainerEffect(s, ok);
      ReadersRefuseNothing(s, step);
      OthersKeepTraffic(s, Next(s, step));
    case HostReads(ok) =>
      HostEffect(s, ok);
      ReadersRefuseNothing(s, step);
      OthersKeepTraffic(s, Next(s, step));
    case _ => OthersKeepTraffic(s, Next(s, step));
  }

  lemma {:induction false} RunKeepsTraffic(s: State, steps: seq<Step>)
    requires TrafficInv(s) && InOrder(s) && ValidRun(s, steps)
    ensures TrafficInv(Run(s, steps)) && InOrder(Run(s, steps))
    decreases |steps|
  {
    hide TrafficInv, Next, Enabled;
    if steps != [] {
      StepKeepsTraffic(s, steps[0]);
      StepKeepsOrder(s, steps[0]);
      RunKeepsTraffic(Next(s, steps[0]), steps[1..]);
    }
  }

  /** Loss-free dispatch. In a run without failed writes, whenever the dispatcher is idle, each bus
      has received, unchanged and in order, exactly the client messages whose route includes it;
      the others have been answered with one error each. */
  lemma NothingIsLost(hostUp: bool, steps: seq<Step>)
    requires ValidRun(Initial(hostUp), steps)
    ensures
      var s := Run(Initial(hostUp), steps);
      !s.failed && s.disp.Idle? ==>
        && s.contIn == ContainerShare(s.log)
        && s.hostIn == HostShare(s.log)
        && Refusals(s.clientOut) == Undeliverable(s.log)
  {
    assert TrafficInv(Initial(hostUp)) && InOrder(Initial(hostUp));
    RunKeepsTraffic(Initial(hostUp), steps);
    hide ContainerShare, HostShare, Undeliverable, Refusals, Run, ValidRun;
  }

  /** Each logged message has the route that the code chooses for it. */
  predicate Routed(log: seq<Sent>, hostUp: bool) {
    forall i :: 0 <= i < |log| ==> log[i].route == RouteOf(log[i].msg, hostUp, log[i].hostNames)
  }

  lemma StepKeepsRouted(s: State, step: Step)
    requires Routed(s.log, s.hostUp)
    ensures Routed(Next(s, step).log, Next(s, step).hostUp) && Next(s, step).hostUp == s.hostUp
  {
    hide RouteOf, DispatcherStep, ContainerStep, HostStep;
    match step
    case Dispatch(ok, serial) => DispatcherEffect(s, ok, serial);
    case ContainerReads(ok) => ContainerEffect(s, ok);
    case HostReads(ok) => HostEffect(s, ok);
    case _ =>
  }

  lemma {:induction false} RunKeepsRouted(s: State, steps: seq<Step>)
    requires Routed(s.log, s.hostUp)
    ensures Routed(Run(s, steps).log, s.hostUp)
    decreases |steps|
  {
    hide Next, Routed;
    if steps != [] {
      StepKeepsRouted(s, steps[0]);
      RunKeepsRouted(Next(s, steps[0]), steps[1..]);
    }
  }
}
