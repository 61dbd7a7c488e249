/** What reaches the client, from where, and in which order
    (container/dbus/router.go:225-260, 277-281, 452-509). */
module Delivery {
  import opened Bytes
  import opened Wire
  import opened Session
  import opened Effects

  /** The one message that a step may hand to the client. */
  predicate Hands(s: State, step: Step, o: Out) {
    match o.origin
    case FromContainer(i) => step.ContainerReads? && s.cont == Sending(o.msg) && 0 < s.contTaken == i + 1
    case FromHost(i) => step.HostReads? && s.host == Sending(o.msg) && 0 < s.hostTaken == i + 1
    case FromBoth =>
      (step.ContainerReads? && s.cont == SendingMerged(o.msg)) || (step.HostReads? && s.host == SendingMerged(o.msg))
    case FromRouter =>
      step.Dispatch? && s.disp.Answering? && o.msg == UnavailableReply(s.disp.e.msg, step.serial)
  }

  /** What a reader has in hand is the last message it took. */
  predicate HandFits(r: BusReader, sent: seq<Message>, taken: nat) {
    && taken <= |sent|
    && (r.Matching? || r.LookingUp? || r.Naming? || r.Learning? || r.Sending? ==> 0 < taken && sent[taken - 1] == r.m)
  }

  predicate HandsFit(s: State) {
    HandFits(s.cont, s.contSent, s.contTaken) && HandFits(s.host, s.hostSent, s.hostTaken)
  }

  lemma DispatcherHands(s: State, ok: bool, serial: uint32)
    ensures
      DispatcherStep(s, ok, serial).clientOut
      == if s.disp.Answering? && ok then s.clientOut + [Out(FromRouter, UnavailableReply(s.disp.e.msg, serial))]
         else s.clientOut
  {
    hide UnavailableReply;
    match s.disp
    case Noting(e) =>
    case WritingHost(e) =>
    case Undoing(e) =>
    case WritingContainer(e) =>
    case Answering(e) =>
    case _ =>
  }

  lemma ContainerHands(s: State, ok: bool)
    requires s.cont.Sending? ==> s.contTaken > 0
    ensures
      ContainerStep(s, ok).clientOut
      == if s.cont.Sending? && ok then s.clientOut + [Out(FromContainer(s.contTaken - 1), s.cont.m)]
         else if s.cont.SendingMerged? && ok then s.clientOut + [Out(FromBoth, s.cont.m)]
         else s.clientOut
  {
    hide Combine;
    match s.cont
    case Waiting =>
    case Matching(_) =>
    case Sending(_) =>
    case SendingMerged(_) =>
    case _ =>
  }

  lemma HostHands(s: State, ok: bool)
    requires s.host.Sending? ==> s.hostTaken > 0
    ensures
      HostStep(s, ok).clientOut
      == if s.host.Sending? && ok then s.clientOut + [Out(FromHost(s.hostTaken - 1), s.host.m)]
         else if s.host.SendingMerged? && ok then s.clientOut + [Out(FromBoth, s.host.m)]
         else s.clientOut
  {
    hide Combine, AcceptSignal, AcceptReply, Remember;
    match s.host
    case Waiting =>
    case Matching(_) =>
    case LookingUp(_) =>
    case Naming(_) =>
    case Learning(_, _, _) =>
    case Sending(_) =>
    case SendingMerged(_) =>
    case _ =>
  }

  /** A step hands at most one message to the client, whole: what has been written stays. */
  lemma StepHandsOne(s: State, step: Step)
    requires HandsFit(s)
    ensures
      var t := Next(s, step);
      || t.clientOut == s.clientOut
      || (exists o :: t.clientOut == s.clientOut + [o] && Hands(s, step, o))
  {
    hide UnavailableReply, RouteOf, DispatcherStep, ContainerStep, HostStep;
    match step
    case Dispatch(ok, serial) =>
      DispatcherHands(s, ok, serial);
      if s.disp.Answering? && ok {
        assert Hands(s, step, Out(FromRouter, UnavailableReply(s.disp.e.msg, serial)));
      }
    case ContainerReads(ok) =>
      ContainerHands(s, ok);
      if s.cont.Sending? && ok {
        assert Hands(s, step, Out(FromContainer(s.contTaken - 1), s.cont.m));
      } else if s.cont.SendingMerged? && ok {
        assert Hands(s, step, Out(FromBoth, s.cont.m));
      }
    case HostReads(ok) =>
      HostHands(s, ok);
      if s.host.Sending? && ok {
        assert Hands(s, step, Out(FromHost(s.hostTaken - 1), s.host.m));
      } else if s.host.SendingMerged? && ok {
        assert Hands(s, step, Out(FromBoth, s.host.m));
      }
    case _ =>
  }

  predicate HasInHand(r: BusReader) {
    r.Matching? || r.LookingUp? || r.Naming? || r.Learning? || r.Sending?
  }

  /** How many of the messages it has taken a reader is done with. */
  function Done(r: BusReader, taken: nat): nat {
    if HasInHand(r) && taken > 0 then taken - 1 else taken
  }

  lemma ContainerTurn(s: State, ok: bool)
    requires HandFits(s.cont, s.contSent, s.contTaken)
    ensures
      var t := ContainerStep(s, ok);
      && HandFits(t.cont, t.contSent, t.contTaken)
      && Done(s.cont, s.contTaken) <= Done(t.cont, t.contTaken) && s.contSent == t.contSent
      && (s.cont.Sending? ==> Done(t.cont, t.contTaken) == s.contTaken)
  {
    ContainerEffect(s, ok);
    hide Combine;
    match s.cont
    case Waiting =>
    case Matching(_) =>
    case Sending(_) =>
    case SendingMerged(_) =>
    case _ =>
  }

  lemma ContainerDoneGrows(s: State, step: Step)
    requires HandsFit(s)
    ensures
      var t := Next(s, step);
      && HandFits(t.cont, t.contSent, t.contTaken)
      && Done(s.cont, s.contTaken) <= Done(t.cont, t.contTaken) && s.contSent <= t.contSent
      && (step.ContainerReads? && s.cont.Sending? ==> Done(t.cont, t.contTaken) == s.contTaken)
  {
    hide RouteOf, DispatcherStep, ContainerStep, HostStep;
    match step
    case ContainerReads(ok) => ContainerTurn(s, ok);
    case Dispatch(ok, serial) => DispatcherEffect(s, ok, serial);
    case HostReads(ok) => HostEffect(s, ok);
    case _ =>
  }

  lemma HostTakesTurn(s: State, ok: bool)
    requires HandFits(s.host, s.hostSent, s.hostTaken) && (s.host.Waiting? || s.host.LookingUp?)
    ensures
      var t := HostStep(s, ok);
      && HandFits(t.host, t.hostSent, t.hostTaken)
      && Done(s.host, s.hostTaken) <= Done(t.host, t.hostTaken) && s.hostSent == t.hostSent
      && (s.host.Sending? ==> Done(t.host, t.hostTaken) == s.hostTaken)
  {
    hide AcceptSignal, AcceptReply;
    if s.host.Waiting? {
      if s.hostTaken < |s.hostSent| {
        AcceptedIsInHand(s.hostSent[s.hostTaken], Pending(Swallow, []));
      }
    } else {
      var n := s.host.m.fields.replySerial;
      if n in s.hostPending {
        AcceptedIsInHand(s.host.m, s.hostPending[n]);
      }
    }
  }

  lemma HostTurn(s: State, ok: bool)
    requires HandFits(s.host, s.hostSent, s.hostTaken)
    ensures
      var t := HostStep(s, ok);
      && HandFits(t.host, t.hostSent, t.hostTaken)
      && Done(s.host, s.hostTaken) <= Done(t.host, t.hostTaken) && s.hostSent == t.hostSent
      && (s.host.Sending? ==> Done(t.host, t.hostTaken) == s.hostTaken)
  {
    hide Combine, AcceptSignal, AcceptReply, Remember;
    match s.host
    case Waiting => HostTakesTurn(s, ok);
    case Matching(_) =>
    case LookingUp(_) => HostTakesTurn(s, ok);
    case Naming(_) =>
    case Learning(_, _, _) =>
    case Sending(_) =>
    case SendingMerged(_) =>
    case _ =>
  }

  lemma HostDoneGrows(s: State, step: Step)
    requires HandsFit(s)
    ensures
      var t := Next(s, step);
      && HandFits(t.host, t.hostSent, t.hostTaken)
      && Done(s.host, s.hostTaken) <= Done(t.host, t.hostTaken) && s.hostSent <= t.hostSent
      && (step.HostReads? && s.host.Sending? ==> Done(t.host, t.hostTaken) == s.hostTaken)
  {
    hide RouteOf, DispatcherStep, ContainerStep, HostStep;
    match step
    case HostReads(ok) => HostTurn(s, ok);
    case Dispatch(ok, serial) => DispatcherEffect(s, ok, serial);
    case ContainerReads(ok) => ContainerEffect(s, ok);
    case _ =>
  }

  lemma AcceptedIsInHand(m: Message, p: Pending)
    ensures HasInHand(AcceptSignal(m)) ==> AcceptSignal(m).m == m
    ensures HasInHand(AcceptReply(m, p)) ==> AcceptReply(m, p).m == m
  {
  }

  lemma AcceptedIsNotMerged(m: Message, p: Pending)
    ensures !AcceptSignal(m).SendingMerged? && !AcceptReply(m, p).SendingMerged?
  {
  }

  /** A message that came from one bus alone is the one at its place in what that bus sent. */
  predicate InPlace(s: State, o: Out) {
    match o.origin
    case FromContainer(i) => i < Done(s.cont, s.contTaken) && i < |s.contSent| && s.contSent[i] == o.msg
    case FromHost(i) => i < Done(s.host, s.hostTaken) && i < |s.hostSent| && s.hostSent[i] == o.msg
    case _ => true
  }

  predicate Precedes(a: Origin, b: Origin) {
    && (a.FromContainer? && b.FromContainer? ==> a.index < b.index)
    && (a.FromHost? && b.FromHost? ==> a.index < b.index)
  }

  ghost predicate InOrder(s: State) {
    && HandsFit(s)
    && (forall p :: 0 <= p < |s.clientOut| ==> InPlace(s, s.clientOut[p]))
    && (forall p, q :: 0 <= p < q < |s.clientOut| ==> Precedes(s.clientOut[p].origin, s.clientOut[q].origin))
  }

  lemma PlaceIsStable(s: State, step: Step, o: Out)
    requires HandsFit(s) && InPlace(s, o)
    ensures InPlace(Next(s, step), o)
  {
    ContainerDoneGrows(s, step);
    HostDoneGrows(s, step);
    hide Next, Done;
  }

  lemma HandedIsLast(s: State, step: Step, o: Out, before: Out)
    requires HandsFit(s) && Hands(s, step, o)
    ensures InPlace(Next(s, step), o)
    ensures InPlace(s, before) ==> Precedes(before.origin, o.origin)
  {
    ContainerDoneGrows(s, step);
    HostDoneGrows(s, step);
    hide Next;
  }

  lemma StepKeepsOrder(s: State, step: Step)
    requires InOrder(s)
    ensures InOrder(Next(s, step))
  {
    ContainerDoneGrows(s, step);
    HostDoneGrows(s, step);
    StepHandsOne(s, step);
    hide Next, InPlace, Precedes, HandFits, Hands;
    var t := Next(s, step);
    forall p | 0 <= p < |s.clientOut| ensures InPlace(t, s.clientOut[p]) {
      PlaceIsStable(s, step, s.clientOut[p]);
    }
    if t.clientOut != s.clientOut {
      var o :| t.clientOut == s.clientOut + [o] && Hands(s, step, o);
      HandedIsLast(s, step, o, o);
      forall p | 0 <= p < |s.clientOut| ensures Precedes(s.clientOut[p].origin, o.origin) {
        HandedIsLast(s, step, o, s.clientOut[p]);
      }
    }
  }

  lemma {:induction false} RunKeepsOrder(s: State, steps: seq<Step>)
    requires InOrder(s)
    ensures InOrder(Run(s, steps))
    decreases |steps|
  {
    hide InOrder, Next;
    if steps != [] {
      StepKeepsOrder(s, steps[0]);
      RunKeepsOrder(Next(s, steps[0]), steps[1..]);
    }
  }

  /** Per-bus order: of the messages that reach the client from one bus alone, each is a message
      of that bus, unchanged, and they arrive in the order in which the bus sent them, each at most
      once. Nothing is required of either bus or of the client. */
  lemma PerBusOrder(hostUp: bool, steps: seq<Step>)
    ensures
      var s := Run(Initial(hostUp), steps);
      && (forall p :: 0 <= p < |s.clientOut| ==> InPlace(s, s.clientOut[p]))
      && (forall p, q :: 0 <= p < q < |s.clientOut| ==> Precedes(s.clientOut[p].origin, s.clientOut[q].origin))
  {
    assert InOrder(Initial(hostUp));
    RunKeepsOrder(Initial(hostUp), steps);
  }
}
