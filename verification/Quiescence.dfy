/** Exactly one reply per call once everything has drained
    (container/dbus/router.go:341-364, 385-450, 452-538). */
module Quiescence {
  import opened Bytes
  import opened Wrappers
  import opened Wire
  import opened Texts
  import opened Rules
  import opened Session
  import opened Correlation
  import opened Solicited
  import opened Delivery
  import opened Traffic
  import opened Routing

  /** A reply on its way to the client. */
  predicate OnItsWay(r: BusReader, n: uint32) {
    match r
    case Learning(m, _, deliver) => deliver && m.IsReply() && m.fields.replySerial == n
    case Sending(m) => m.IsReply() && m.fields.replySerial == n
    case SendingMerged(m) => m.IsReply() && m.fields.replySerial == n
    case _ => false
  }

  /** While a merge waits for its replies, nothing has been delivered for its serial. */
  predicate Unanswered(s: State, n: uint32) {
    n in s.merges ==> Delivered(s.clientOut, n) == 0 && !OnItsWay(s.cont, n) && !OnItsWay(s.host, n)
  }

  lemma NotingKeepsUnanswered(s: State, n: uint32)
    requires Sound(s) && Balanced(s, n) && Unanswered(s, n) && s.disp.Noting?
    ensures Unanswered(DispatcherStep(s, true, 0), n)
  {
    hide LogOf, Replies, Calls, Delivered, PendingSound, MergesSound, BusSound, Answers, ReaderSound, Taken;
    OutstandingIsNatural(s, n);
  }

  lemma WritingKeepsUnanswered(s: State, ok: bool, serial: uint32, n: uint32)
    requires Sound(s) && Unanswered(s, n) && !s.disp.Noting?
    ensures Unanswered(DispatcherStep(s, ok, serial), n)
  {
    hide LogOf, Replies, Calls, Delivered, PendingSound, BusSound, Answers, ReaderSound, MergeSound, UnavailableReply;
    DispatcherHands(s, ok, serial);
    if s.disp.Answering? {
      UnavailableReplyAnswers(s.disp.e.msg, serial);
      DeliveredAppend(s.clientOut, Out(FromRouter, UnavailableReply(s.disp.e.msg, serial)), n);
    }
  }

  lemma ContainerMatchesUnanswered(s: State, ok: bool, n: uint32)
    requires Sound(s) && Unanswered(s, n) && s.cont.Matching?
    ensures Unanswered(ContainerStep(s, ok), n)
  {
    hide Delivered, Combine, LogOf, PendingSound, BusSound, Answers, WellFormed;
    var k := s.cont.m.fields.replySerial;
    if k in s.merges {
      ContainerReplyMatches(s);
    }
  }

  lemma ContainerKeepsUnanswered(s: State, ok: bool, n: uint32)
    requires Sound(s) && Unanswered(s, n) && HandFits(s.cont, s.contSent, s.contTaken)
    ensures Unanswered(ContainerStep(s, ok), n)
  {
    hide Delivered, Combine, PendingSound, MergesSound, BusSound, Answers, LogOf, WellFormed;
    match s.cont
    case Matching(_) =>
      ContainerMatchesUnanswered(s, ok, n);
    case Sending(m) =>
      DeliveredAppend(s.clientOut, Out(FromContainer(s.contTaken - 1), m), n);
    case SendingMerged(m) =>
      DeliveredAppend(s.clientOut, Out(FromBoth, m), n);
    case _ =>
  }

  lemma HostMatchesUnanswered(s: State, ok: bool, n: uint32)
    requires Sound(s) && Unanswered(s, n) && s.host.Matching?
    ensures Unanswered(HostStep(s, ok), n)
  {
    hide Delivered, Combine, LogOf, PendingSound, BusSound, Answers, WellFormed;
    var k := s.host.m.fields.replySerial;
    if k in s.merges {
      HostReplyMatches(s);
    }
  }

  lemma HostLooksUpUnanswered(s: State, ok: bool, n: uint32)
    requires Sound(s) && Unanswered(s, n) && s.host.LookingUp?
    ensures Unanswered(HostStep(s, ok), n)
  {
    hide Delivered, LogOf, BusSound, Answers, WellFormed, AcceptReply, MergeSound;
    var m := s.host.m;
    var k := m.fields.replySerial;
    DisjointEntries(s, k);
    if k in s.hostPending {
      AcceptedReplyAnswers(m, s.hostPending[k], n);
    }
  }

  lemma AcceptedReplyAnswers(m: Message, p: Pending, n: uint32)
    ensures OnItsWay(AcceptReply(m, p), n) ==> n == m.fields.replySerial
  {
  }

  lemma AcceptedSignalAnswersNothing(m: Message, n: uint32)
    requires !m.IsReply()
    ensures !OnItsWay(AcceptSignal(m), n)
  {
  }

  lemma HostKeepsUnanswered(s: State, ok: bool, n: uint32)
    requires Sound(s) && Unanswered(s, n) && HandFits(s.host, s.hostSent, s.hostTaken)
    ensures Unanswered(HostStep(s, ok), n)
  {
    hide Delivered, Combine, PendingSound, MergesSound, BusSound, Answers, LogOf, WellFormed, AcceptSignal, AcceptReply, Remember;
    match s.host
    case Waiting =>
      if s.hostTaken < |s.hostSent| && !s.hostSent[s.hostTaken].IsReply() {
        AcceptedSignalAnswersNothing(s.hostSent[s.hostTaken], n);
      }
    case Matching(_) =>
      HostMatchesUnanswered(s, ok, n);
    case LookingUp(_) =>
      HostLooksUpUnanswered(s, ok, n);
    case Sending(m) =>
      DeliveredAppend(s.clientOut, Out(FromHost(s.hostTaken - 1), m), n);
    case SendingMerged(m) =>
      DeliveredAppend(s.clientOut, Out(FromBoth, m), n);
    case _ =>
  }

  lemma StepKeepsUnanswered(s: State, step: Step, n: uint32)
    requires Sound(s) && Balanced(s, n) && Unanswered(s, n) && HandsFit(s) && Enabled(s, step)
    ensures Unanswered(Next(s, step), n)
  {
    hide Sound, Balanced, DispatcherStep, ContainerStep, HostStep, RouteOf, Delivered;
    match step
    case Dispatch(ok, serial) =>
      if s.disp.Noting? {
        assert DispatcherStep(s, ok, serial) == DispatcherStep(s, true, 0) by {
          NotingIgnoresOutcome(s, ok, serial);
        }
        NotingKeepsUnanswered(s, n);
      } else {
        WritingKeepsUnanswered(s, ok, serial, n);
      }
    case ContainerReads(ok) => ContainerKeepsUnanswered(s, ok, n);
    case HostReads(ok) => HostKeepsUnanswered(s, ok, n);
    case _ =>
  }

  lemma NotingIgnoresOutcome(s: State, ok: bool, serial: uint32)
    requires s.disp.Noting?
    ensures DispatcherStep(s, ok, serial) == DispatcherStep(s, true, 0)
  {
  }

  /** All that the theorem about drained sessions rests on. */
  ghost predicate FullInv(s: State) {
    Inv(s) && Asked(s) && InOrder(s) && TrafficInv(s) && forall n :: Unanswered(s, n)
  }

  lemma FullInitially(hostUp: bool)
    ensures FullInv(Initial(hostUp))
  {
    InvInitially(hostUp);
    AskedInitially(hostUp);
  }

  lemma StepKeepsFull(s: State, step: Step)
    requires FullInv(s) && Enabled(s, step) && HostAnswers(s, step)
    ensures FullInv(Next(s, step))
  {
    hide Asked, TrafficInv, Sound, Balanced, Next, Enabled, HostAnswers, Unanswered, HandsFit, InPlace, Precedes;
    StepKeepsInv(s, step);
    StepKeepsAsked(s, step);
    StepKeepsOrder(s, step);
    StepKeepsTraffic(s, step);
    forall n ensures Unanswered(Next(s, step), n) {
      StepKeepsUnanswered(s, step, n);
    }
  }

  lemma {:induction false} RunKeepsFull(s: State, steps: seq<Step>)
    requires FullInv(s) && ValidRun(s, steps) && DisciplinedRun(s, steps)
    ensures FullInv(Run(s, steps))
    decreases |steps|
  {
    hide FullInv, Next, Enabled, HostAnswers;
    if steps != [] {
      StepKeepsFull(s, steps[0]);
      RunKeepsFull(Next(s, steps[0]), steps[1..]);
    }
  }

  /** Nothing is in anyone's hand, every message of the buses has been read, and each bus has
      answered every call it received. */
  ghost predicate Drained(s: State) {
    && s.disp.Idle? && s.cont.Waiting? && s.host.Waiting?
    && s.contTaken == |s.contSent| && s.hostTaken == |s.hostSent|
    && (forall n :: Replies(s.contSent, n) == Calls(s.contIn, n))
    && (forall n :: Replies(s.hostSent, n) == Calls(s.hostIn, n))
  }

  lemma {:induction false} SharedMessageIsLogged(log: seq<Sent>, n: uint32)
    requires LogOf(log, n).Some? && LogOf(log, n).value.route.ReachesHost()
    ensures LogOf(HostShare(log), n) == LogOf(log, n)
    decreases |log|
  {
    var e := log[|log| - 1];
    var front := log[..|log| - 1];
    if e.Serial() != n {
      SharedMessageIsLogged(front, n);
      if e.route.ReachesHost() {
        LogAppend(HostShare(front), e, n);
      } else {
        assert HostShare(front) + [] == HostShare(front);
      }
    } else {
      LogAppend(HostShare(front), e, n);
    }
  }

  lemma {:induction false} LoggedCallCounts(received: seq<Sent>, n: uint32)
    requires LogOf(received, n).Some? && LogOf(received, n).value.msg.IsCall()
    ensures Calls(received, n) >= 1
    decreases |received|
  {
    if received[|received| - 1].Serial() != n {
      LoggedCallCounts(received[..|received| - 1], n);
    }
  }

  /** A message that was recorded although no bus answers it: it is not a method call. */
  predicate Stuck(e: Option<Sent>) {
    e.Some? && e.value.Recorded() && !e.value.msg.IsCall()
  }

  lemma EntryIsRecorded(s: State, n: uint32)
    requires Sound(s) && (n in s.hostPending || n in s.merges)
    ensures LogOf(s.log, n).Some? && LogOf(s.log, n).value.Recorded() && LogOf(s.log, n).value.route.ReachesHost()
    ensures n in s.hostPending && s.hostPending[n].kind.Forward? ==> LogOf(s.log, n).value.msg.IsCall()
  {
    hide LogOf, MergeSound, BusSound, Answers, ReaderSound;
  }

  lemma HostHasSeen(s: State, n: uint32)
    requires TrafficInv(s) && !s.failed && s.disp.Idle?
    requires LogOf(s.log, n).Some? && LogOf(s.log, n).value.route.ReachesHost()
    ensures LogOf(s.hostIn, n) == LogOf(s.log, n)
  {
    hide LogOf, ContainerShare, Undeliverable, Refusals, HostShare;
    SharedMessageIsLogged(s.log, n);
    assert HostShare(s.log) + [] == HostShare(s.log);
  }

  lemma ConsumedWhenDrained(s: State, n: uint32)
    requires Drained(s)
    ensures Consumed(s, n) == Calls(s.hostIn, n) && Outstanding(s, n) == 0
  {
    hide Replies, Calls;
    assert s.hostSent[..|s.hostSent|] == s.hostSent && s.contSent[..|s.contSent|] == s.contSent;
  }

  /** In a drained session no call has an entry left. */
  lemma CallsHaveNoEntry(s: State, n: uint32)
    requires FullInv(s) && Drained(s) && !s.failed
    requires LogOf(s.log, n).Some? && LogOf(s.log, n).value.msg.IsCall()
    ensures n !in s.hostPending && n !in s.merges
  {
    if n in s.hostPending || n in s.merges {
      assert AskedAt(s, n) && Balanced(s, n) && Unanswered(s, n);
      EntryIsRecorded(s, n);
      HostHasSeen(s, n);
      LoggedCallCounts(s.hostIn, n);
      ConsumedWhenDrained(s, n);
      NoReplyWaiting(s, n);
      assert false;
    }
  }

  lemma NoReplyWaiting(s: State, n: uint32)
    requires Sound(s) && AskedAt(s, n) && Balanced(s, n) && Unanswered(s, n) && !s.failed
    requires s.disp.Idle? && s.cont.Waiting? && s.host.Waiting?
    requires LogOf(s.log, n).Some? && LogOf(s.log, n).value.msg.IsCall()
    requires Consumed(s, n) >= 1 && Outstanding(s, n) == 0
    requires n in s.hostPending || n in s.merges
    ensures false
  {
    hide LogOf, Replies, Calls, Delivered, PendingSound, BusSound, Answers, Taken, Consumed, Outstanding, ReplyTo;
  }

  lemma UncalledHasNoCredit(s: State, n: uint32)
    requires FullInv(s) && Drained(s) && !s.failed
    requires n in s.hostPending || n in s.merges
    ensures LogOf(s.log, n).Some? && !LogOf(s.log, n).value.msg.IsCall()
  {
    hide FullInv, Drained, Sound;
    assert Sound(s) by {
      FullIsSound(s);
    }
    EntryIsRecorded(s, n);
    if LogOf(s.log, n).value.msg.IsCall() {
      CallsHaveNoEntry(s, n);
    }
  }

  lemma FullIsSound(s: State)
    requires FullInv(s)
    ensures Sound(s) && HandsOrdered(s) && TrafficInv(s)
  {
  }

  /** Exactly one reply at quiescence. In a run without failed writes, with a host bus that answers
      what it was asked, once the session has drained, each call of the client, and each message it
      was told is undeliverable, has been answered exactly once, and nothing else has been. */
  lemma ExactlyOneReply(hostUp: bool, steps: seq<Step>, n: uint32)
    requires ValidRun(Initial(hostUp), steps) && DisciplinedRun(Initial(hostUp), steps)
    requires Drained(Run(Initial(hostUp), steps)) && !Run(Initial(hostUp), steps).failed
    ensures
      var s := Run(Initial(hostUp), steps);
      Delivered(s.clientOut, n) == Owed(LogOf(s.log, n))
  {
    FullInitially(hostUp);
    RunKeepsFull(Initial(hostUp), steps);
    DrainedMeansAnswered(Run(Initial(hostUp), steps), n);
  }

  lemma DrainedMeansAnswered(s: State, n: uint32)
    requires FullInv(s) && Drained(s) && !s.failed
    ensures Delivered(s.clientOut, n) == Owed(LogOf(s.log, n))
  {
    assert Balanced(s, n);
    FullIsSound(s);
    ConsumedWhenDrained(s, n);
    if n in s.hostPending || n in s.merges {
      UncalledHasNoCredit(s, n);
      EntryIsRecorded(s, n);
    }
    CreditWhenDrained(s, n);
  }

  lemma CreditWhenDrained(s: State, n: uint32)
    requires Balanced(s, n) && !s.failed && Outstanding(s, n) == 0
    requires s.disp.Idle? && s.cont.Waiting? && s.host.Waiting?
    requires n in s.hostPending || n in s.merges ==>
      && LogOf(s.log, n).Some? && LogOf(s.log, n).value.Recorded() && !LogOf(s.log, n).value.msg.IsCall()
    requires n in s.hostPending && s.hostPending[n].kind.Forward? ==> LogOf(s.log, n).value.msg.IsCall()
    ensures Delivered(s.clientOut, n) == Owed(LogOf(s.log, n))
  {
    hide LogOf, Delivered, Outstanding;
  }

  /** A message to the bus driver that is no call, but is recorded as if it were one: the code does
      not look at its type. */
  predicate LeavesEntry(m: Message, hostUp: bool) {
    && hostUp && !m.IsCall() && m.kind != TYPE_SIGNAL && m.fields.destination == Ascii("org.freedesktop.DBus")
    && (|| m.fields.member == Ascii("Hello") || AboutLists(m.fields.member)
        || (AboutMatches(m.fields.member) && HostRule(FirstText(m))))
  }

  lemma LeftBehind(e: Sent, hostUp: bool)
    requires e.route == RouteOf(e.msg, hostUp, e.hostNames)
    ensures e.Recorded() && !e.msg.IsCall() <==> LeavesEntry(e.msg, hostUp)
  {
    hide RouteOf, FirstText, HostRule, AboutLists, AboutMatches, AboutName, AboutOwnership, HostOwns, OnHost;
    if e.msg.kind == TYPE_SIGNAL {
      SignalRoutes(e.msg, hostUp, e.hostNames);
    } else if e.msg.fields.destination != Ascii("org.freedesktop.DBus") {
      NamedRoutes(e.msg, hostUp, e.hostNames);
    } else {
      BusCallRoutes(e.msg, hostUp, e.hostNames);
      MembersApart(e.msg.fields.member);
    }
  }

  /** The entries left over in a drained session are exactly those of such messages. So both maps are
      empty if and only if the client has sent none. */
  lemma LeftoverEntries(hostUp: bool, steps: seq<Step>, n: uint32)
    requires ValidRun(Initial(hostUp), steps) && DisciplinedRun(Initial(hostUp), steps)
    requires Drained(Run(Initial(hostUp), steps)) && !Run(Initial(hostUp), steps).failed
    ensures
      var s := Run(Initial(hostUp), steps);
      n in s.hostPending || n in s.merges <==> LogOf(s.log, n).Some? && LeavesEntry(LogOf(s.log, n).value.msg, hostUp)
  {
    FullInitially(hostUp);
    RunKeepsFull(Initial(hostUp), steps);
    RunKeepsRouted(Initial(hostUp), steps);
    var s := Run(Initial(hostUp), steps);
    LeftoverIsStuck(s, n);
    if LogOf(s.log, n).Some? {
      LoggedRoute(s.log, hostUp, n);
      LeftBehind(LogOf(s.log, n).value, hostUp);
    }
    hide Run, ValidRun, DisciplinedRun, FullInv, Drained, LeavesEntry, RouteOf, LogOf, Routed;
  }

  lemma LeftoverIsStuck(s: State, n: uint32)
    requires FullInv(s) && Drained(s) && !s.failed
    ensures n in s.hostPending || n in s.merges <==> Stuck(LogOf(s.log, n))
  {
    FullIsSound(s);
    if n in s.hostPending || n in s.merges {
      EntryIsRecorded(s, n);
      UncalledHasNoCredit(s, n);
    } else if Stuck(LogOf(s.log, n)) {
      StuckStays(s, n);
    }
  }

  lemma StuckStays(s: State, n: uint32)
    requires FullInv(s) && Drained(s) && !s.failed && Stuck(LogOf(s.log, n))
    ensures n in s.hostPending || n in s.merges
  {
    assert AskedAt(s, n);
    FullIsSound(s);
    var e := LogOf(s.log, n).value;
    assert e.route.ReachesHost();
    HostHasSeen(s, n);
    ConsumedWhenDrained(s, n);
    hide LogOf, Replies, Calls, Consumed, FullInv, Drained;
  }
}
