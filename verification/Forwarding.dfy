/** Which messages of the two buses the client receives that are no replies
    (container/dbus/router.go:452-509, 540-563). */
module Forwarding {
  import opened Bytes
  import opened Wire
  import opened Texts
  import opened Rules
  import opened Session
  import opened Effects
  import opened Delivery

  predicate FromDriver(m: Message) {
    m.fields.sender == Ascii("org.freedesktop.DBus") || m.fields.iface == Ascii("org.freedesktop.DBus")
  }

  /** The news about owners that the client is told: those about names on the host. */
  predicate OwnerNews(m: Message) {
    && (|| m.fields.member == Ascii("NameOwnerChanged") || m.fields.member == Ascii("NameAcquired")
        || m.fields.member == Ascii("NameLost"))
    && (HostTalks(FirstText(m)) || HostOwns(FirstText(m)))
  }

  /** The host signals that the client is to receive: all that do not come from the bus itself, and of
      those the news about names on the host. */
  predicate Wanted(m: Message) {
    m.kind == TYPE_SIGNAL && (FromDriver(m) ==> OwnerNews(m))
  }

  lemma ForwardsWanted(m: Message)
    ensures ForwardsSignal(m) <==> Wanted(m)
  {
    hide FirstText, RouteDestination, RouteOwnership, HostTalks, HostOwns;
    RuleTables(FirstText(m));
  }

  /** What the host reader has in hand: a reply, or a signal on its way to the client. */
  predicate HandWanted(r: BusReader) {
    match r
    case Matching(m) => m.IsReply()
    case LookingUp(m) => m.IsReply()
    case Naming(m) => m.IsReply()
    case Learning(m, _, deliver) => !m.IsReply() ==> deliver && Wanted(m)
    case Sending(m) => !m.IsReply() ==> Wanted(m)
    case _ => true
  }

  predicate HostTold(s: State, i: nat) {
    i < |s.hostSent| && !s.hostSent[i].IsReply() && Wanted(s.hostSent[i]) ==> Out(FromHost(i), s.hostSent[i]) in s.clientOut
  }

  predicate ContainerTold(s: State, i: nat) {
    i < |s.contSent| && !s.contSent[i].IsReply() ==> Out(FromContainer(i), s.contSent[i]) in s.clientOut
  }

  predicate OutWanted(o: Out) {
    o.origin.FromHost? && !o.msg.IsReply() ==> Wanted(o.msg)
  }

  ghost predicate ForwardingInv(s: State) {
    && HandWanted(s.host) && PlainHand(s.cont)
    && (forall p :: 0 <= p < |s.clientOut| ==> OutWanted(s.clientOut[p]))
    && (!s.failed ==>
          && !s.host.Stopped? && !s.cont.Stopped?
          && (forall i :: 0 <= i < Done(s.host, s.hostTaken) ==> HostTold(s, i))
          && (forall i :: 0 <= i < Done(s.cont, s.contTaken) ==> ContainerTold(s, i)))
  }

  lemma AcceptedIsWanted(m: Message, p: Pending)
    ensures !m.IsReply() ==> HandWanted(AcceptSignal(m)) && (AcceptSignal(m).Waiting? <==> !Wanted(m))
    ensures !m.IsReply() ==> AcceptSignal(m).Waiting? || HasInHand(AcceptSignal(m))
    ensures m.IsReply() ==> HandWanted(AcceptReply(m, p)) && (AcceptReply(m, p).Waiting? || HasInHand(AcceptReply(m, p)))
  {
    ForwardsWanted(m);
    hide ForwardsSignal, Wanted, LearnsFromSignal, BodyTexts;
  }

  predicate HostAdvanced(s: State, t: State) {
    || Done(t.host, t.hostTaken) == Done(s.host, s.hostTaken)
    || (Done(t.host, t.hostTaken) == Done(s.host, s.hostTaken) + 1 && HostTold(t, Done(s.host, s.hostTaken)))
  }

  predicate ContainerAdvanced(s: State, t: State) {
    || Done(t.cont, t.contTaken) == Done(s.cont, s.contTaken)
    || (Done(t.cont, t.contTaken) == Done(s.cont, s.contTaken) + 1 && ContainerTold(t, Done(s.cont, s.contTaken)))
  }

  /** One step of the host reader: what it is done with afterwards, the client has been told. */
  predicate HostAdvances(s: State, t: State) {
    HandWanted(t.host) && (!t.failed ==> !t.host.Stopped? && HostAdvanced(s, t))
  }

  predicate PlainHand(r: BusReader) {
    (r.Matching? ==> r.m.IsReply()) && !r.LookingUp? && !r.Naming? && !r.Learning?
  }

  predicate ContainerAdvances(s: State, t: State) {
    PlainHand(t.cont) && (!t.failed ==> !t.cont.Stopped? && ContainerAdvanced(s, t))
  }

  lemma HostTakes(s: State, ok: bool)
    requires HandWanted(s.host) && HandsFit(s) && (s.host.Waiting? || s.host.LookingUp?)
    ensures HostAdvances(s, HostStep(s, ok))
  {
    hide AcceptSignal, AcceptReply, Wanted;
    if s.host.Waiting? {
      if s.hostTaken < |s.hostSent| {
        AcceptedIsWanted(s.hostSent[s.hostTaken], Pending(Swallow, []));
      }
    } else if s.host.m.fields.replySerial in s.hostPending {
      AcceptedIsWanted(s.host.m, s.hostPending[s.host.m.fields.replySerial]);
    }
  }

  lemma HostMoves(s: State, ok: bool)
    requires HandWanted(s.host) && HandsFit(s) && !s.host.Waiting? && !s.host.LookingUp? && (s.host.Stopped? ==> s.failed)
    ensures HostAdvances(s, HostStep(s, ok))
  {
    hide Wanted, Combine, Remember;
    match s.host
    case Matching(_) =>
    case Naming(_) =>
    case Learning(_, _, _) =>
    case Sending(_) =>
    case SendingMerged(_) =>
    case _ =>
  }

  lemma ContainerMoves(s: State, ok: bool)
    requires PlainHand(s.cont) && HandsFit(s) && (s.cont.Stopped? ==> s.failed)
    ensures ContainerAdvances(s, ContainerStep(s, ok))
  {
    hide Combine;
    match s.cont
    case Waiting =>
    case Matching(_) =>
    case Sending(_) =>
    case SendingMerged(_) =>
    case _ =>
  }

  lemma HostKeepsTold(s: State, ok: bool)
    requires HandWanted(s.host) && HandsFit(s) && (s.host.Stopped? ==> s.failed)
    ensures HostAdvances(s, HostStep(s, ok))
  {
    hide HostStep, HostAdvances;
    if s.host.Waiting? || s.host.LookingUp? {
      HostTakes(s, ok);
    } else {
      HostMoves(s, ok);
    }
  }

  lemma ReadersAdvance(s: State, step: Step)
    requires ForwardingInv(s) && HandsFit(s)
    ensures HostAdvances(s, Next(s, step)) && ContainerAdvances(s, Next(s, step)) && (s.failed ==> Next(s, step).failed)
  {
    hide HostAdvanced, ContainerAdvanced, RouteOf, DispatcherStep, ContainerStep, HostStep, OutWanted, HandWanted, HandsFit;
    var t := Next(s, step);
    match step
    case Dispatch(ok, serial) =>
      DispatcherEffect(s, ok, serial);
      StandingStill(s, t);
    case ContainerReads(ok) =>
      ContainerEffect(s, ok);
      ContainerMoves(s, ok);
      StandingStill(s, t);
    case HostReads(ok) =>
      HostEffect(s, ok);
      HostKeepsTold(s, ok);
      StandingStill(s, t);
    case _ => StandingStill(s, t);
  }

  lemma StandingStill(s: State, t: State)
    ensures s.host == t.host && s.hostTaken == t.hostTaken ==> HostAdvanced(s, t)
    ensures s.cont == t.cont && s.contTaken == t.contTaken ==> ContainerAdvanced(s, t)
  {
  }

  lemma ToldStays(s: State, t: State, i: nat)
    requires s.clientOut <= t.clientOut && s.hostSent <= t.hostSent && s.contSent <= t.contSent
    ensures i < |s.hostSent| && HostTold(s, i) ==> HostTold(t, i)
    ensures i < |s.contSent| && ContainerTold(s, i) ==> ContainerTold(t, i)
  {
    hide Wanted;
  }

  lemma HandedIsWanted(s: State, step: Step, o: Out)
    requires Hands(s, step, o) && HandWanted(s.host)
    ensures OutWanted(o)
  {
    hide Wanted, UnavailableReply;
  }

  lemma StreamsGrow(s: State, step: Step)
    requires HandsFit(s)
    ensures
      var t := Next(s, step);
      && s.hostSent <= t.hostSent && s.contSent <= t.contSent && s.clientOut <= t.clientOut
      && Done(s.host, s.hostTaken) <= |s.hostSent| && Done(s.cont, s.contTaken) <= |s.contSent|
  {
    StepHandsOne(s, step);
    ContainerDoneGrows(s, step);
    HostDoneGrows(s, step);
    hide Next, Hands;
  }

  lemma OutsStayWanted(s: State, step: Step)
    requires ForwardingInv(s) && HandsFit(s)
    ensures forall p :: 0 <= p < |Next(s, step).clientOut| ==> OutWanted(Next(s, step).clientOut[p])
  {
    hide Next, Hands, OutWanted, HandWanted, PlainHand, HostTold, ContainerTold;
    StepHandsOne(s, step);
    var t := Next(s, step);
    if t.clientOut != s.clientOut {
      var o :| t.clientOut == s.clientOut + [o] && Hands(s, step, o);
      HandedIsWanted(s, step, o);
    }
  }

  lemma StepKeepsForwarding(s: State, step: Step)
    requires ForwardingInv(s) && HandsFit(s)
    ensures ForwardingInv(Next(s, step))
  {
    hide Next, HostTold, ContainerTold, OutWanted, HandWanted, PlainHand, HandsFit, Done;
    ReadersAdvance(s, step);
    StreamsGrow(s, step);
    OutsStayWanted(s, step);
    var t := Next(s, step);
    if !t.failed {
      forall i | 0 <= i < Done(s.host, s.hostTaken) ensures HostTold(t, i) {
        ToldStays(s, t, i);
      }
      forall i | 0 <= i < Done(s.cont, s.contTaken) ensures ContainerTold(t, i) {
        ToldStays(s, t, i);
      }
    }
  }

  lemma {:induction false} RunKeepsForwarding(s: State, steps: seq<Step>)
    requires ForwardingInv(s) && InOrder(s)
    ensures ForwardingInv(Run(s, steps)) && InOrder(Run(s, steps))
    decreases |steps|
  {
    hide ForwardingInv, Next, InPlace, Precedes, HandFits;
    if steps != [] {
      StepKeepsForwarding(s, steps[0]);
      StepKeepsOrder(s, steps[0]);
      RunKeepsForwarding(Next(s, steps[0]), steps[1..]);
    }
  }

  /** The message stands in the client's stream under its origin, and nothing else does. */
  predicate ArrivesOnce(outs: seq<Out>, origin: Origin, m: Message) {
    exists p :: 0 <= p < |outs| && outs[p] == Out(origin, m) && forall q :: 0 <= q < |outs| && outs[q].origin == origin ==> q == p
  }

  predicate NeverArrives(outs: seq<Out>, origin: Origin) {
    forall q :: 0 <= q < |outs| ==> outs[q].origin != origin
  }

  lemma ArrivedOnce(s: State, origin: Origin, m: Message)
    requires InOrder(s) && Out(origin, m) in s.clientOut && (origin.FromHost? || origin.FromContainer?)
    ensures ArrivesOnce(s.clientOut, origin, m)
  {
    hide HandsFit, InPlace;
    var outs := s.clientOut;
    var p :| 0 <= p < |outs| && outs[p] == Out(origin, m);
    assert forall q :: 0 <= q < |outs| && outs[q].origin == origin ==> q == p;
  }

  lemma UnwantedNeverArrives(s: State, i: nat)
    requires InOrder(s) && ForwardingInv(s) && i < |s.hostSent| && !s.hostSent[i].IsReply() && !Wanted(s.hostSent[i])
    ensures NeverArrives(s.clientOut, FromHost(i))
  {
    hide HandsFit, Wanted, HandWanted, PlainHand, Precedes, HostTold, ContainerTold;
    forall q | 0 <= q < |s.clientOut| ensures s.clientOut[q].origin != FromHost(i) {
      assert InPlace(s, s.clientOut[q]) && OutWanted(s.clientOut[q]);
    }
  }

  /** Which host messages arrive. Whatever fails, a host message that is neither a reply nor a signal
      never reaches the client, nor does a signal of the host bus itself unless it is news about the
      owner of a name on the host. Once the host reader has read everything and no write has failed,
      every such piece of news and every signal that does not come from the host bus itself stands in
      the client's stream exactly once. Nothing is required of the buses. */
  lemma HostSignalsArrive(hostUp: bool, steps: seq<Step>, i: nat)
    requires i < |Run(Initial(hostUp), steps).hostSent| && !Run(Initial(hostUp), steps).hostSent[i].IsReply()
    ensures
      var s := Run(Initial(hostUp), steps);
      var m := s.hostSent[i];
      var once, never := ArrivesOnce(s.clientOut, FromHost(i), m), NeverArrives(s.clientOut, FromHost(i));
      var allRead := !s.failed && s.host.Waiting? && s.hostTaken == |s.hostSent|;
      && (m.kind != TYPE_SIGNAL ==> never)
      && (m.kind == TYPE_SIGNAL && FromDriver(m) && !OwnerNews(m) ==> never)
      && (m.kind == TYPE_SIGNAL && FromDriver(m) && OwnerNews(m) && allRead ==> once)
      && (m.kind == TYPE_SIGNAL && !FromDriver(m) && allRead ==> once)
  {
    assert InOrder(Initial(hostUp)) && ForwardingInv(Initial(hostUp));
    RunKeepsForwarding(Initial(hostUp), steps);
    var s := Run(Initial(hostUp), steps);
    hide Run, InOrder, OutWanted, HandWanted, PlainHand, ArrivesOnce, NeverArrives, FromDriver, OwnerNews, ContainerTold;
    if !Wanted(s.hostSent[i]) {
      UnwantedNeverArrives(s, i);
    } else if !s.failed && s.host.Waiting? && s.hostTaken == |s.hostSent| {
      assert HostTold(s, i);
      ArrivedOnce(s, FromHost(i), s.hostSent[i]);
    }
  }

  /** What the container bus sends that is no reply, its signals and the calls of others, reaches the
      client exactly once, without exception. */
  lemma ContainerMessagesArrive(hostUp: bool, steps: seq<Step>, i: nat)
    requires i < |Run(Initial(hostUp), steps).contSent| && !Run(Initial(hostUp), steps).contSent[i].IsReply()
    requires
      var s := Run(Initial(hostUp), steps);
      !s.failed && s.cont.Waiting? && s.contTaken == |s.contSent|
    ensures
      var s := Run(Initial(hostUp), steps);
      ArrivesOnce(s.clientOut, FromContainer(i), s.contSent[i])
  {
    assert InOrder(Initial(hostUp)) && ForwardingInv(Initial(hostUp));
    RunKeepsForwarding(Initial(hostUp), steps);
    var s := Run(Initial(hostUp), steps);
    hide Run, InOrder, OutWanted, HandWanted, PlainHand, ArrivesOnce, HostTold;
    assert ContainerTold(s, i);
    ArrivedOnce(s, FromContainer(i), s.contSent[i]);
  }
}
