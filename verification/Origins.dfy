/** Which bus answers which call, and what the router learns from the host
    (container/dbus/router.go:289-315, 463-500, 540-563). */
module Origins {
  import opened Bytes
  import opened Wrappers
  import opened Wire
  import opened Texts
  import opened Rules
  import opened Session
  import opened Correlation
  import opened Effects
  import opened Delivery

  predicate RouteIs(e: Option<Sent>, r: Route) {
    e.Some? && e.value.route == r
  }

  /** A reply in the client's stream comes from where its call was sent. */
  predicate AnswersItsRoute(origin: Origin, e: Option<Sent>) {
    match origin
    case FromContainer(_) => e.Some? && e.value.route.ReachesContainer()
    case FromHost(_) => RouteIs(e, ToHost)
    case FromBoth => RouteIs(e, CopyMerge)
    case FromRouter => RouteIs(e, Unavailable)
  }

  predicate OutFits(log: seq<Sent>, o: Out) {
    o.msg.IsReply() ==> AnswersItsRoute(o.origin, LogOf(log, o.msg.fields.replySerial))
  }

  /** A reply in a reader's hand, behind the maps. */
  predicate CarriesFitting(log: seq<Sent>, r: BusReader) {
    match r
    case Learning(m, _, deliver) => deliver && m.IsReply() ==> RouteIs(LogOf(log, m.fields.replySerial), ToHost)
    case SendingMerged(m) => m.IsReply() ==> RouteIs(LogOf(log, m.fields.replySerial), CopyMerge)
    case _ => true
  }

  predicate HostCarriesFitting(log: seq<Sent>, r: BusReader) {
    && CarriesFitting(log, r)
    && (r.Sending? && r.m.IsReply() ==> RouteIs(LogOf(log, r.m.fields.replySerial), ToHost))
  }

  /** The container has received only messages whose route includes it. */
  ghost predicate ContainerFits(s: State) {
    forall n :: LogOf(s.contIn, n).Some? ==>
      LogOf(s.contIn, n) == LogOf(s.log, n) && LogOf(s.contIn, n).value.route.ReachesContainer()
  }

  ghost predicate OriginInv(s: State) {
    && CarriesFitting(s.log, s.cont) && HostCarriesFitting(s.log, s.host) && ContainerFits(s)
    && forall p :: 0 <= p < |s.clientOut| ==> OutFits(s.log, s.clientOut[p])
  }

  lemma LogOfIsStable(log: seq<Sent>, e: Sent, n: uint32)
    requires LogOf(log, e.Serial()).None? && LogOf(log, n).Some?
    ensures LogOf(log + [e], n) == LogOf(log, n)
  {
    hide LogOf;
    LogAppend(log, e, n);
  }

  lemma ClientKeepsOrigins(s: State, m: Message)
    requires OriginInv(s) && Enabled(s, ClientSends(m))
    ensures OriginInv(Next(s, ClientSends(m)))
  {
    hide LogOf, RouteOf;
    var e := Sent(m, RouteOf(m, s.hostUp, s.hostNames), s.hostNames);
    forall n | LogOf(s.log, n).Some? ensures LogOf(s.log + [e], n) == LogOf(s.log, n) {
      LogOfIsStable(s.log, e, n);
    }
  }

  lemma ReceivedCallIsLogged(received: seq<Sent>, n: uint32)
    requires Calls(received, n) >= 1
    ensures LogOf(received, n).Some?
    decreases |received|
  {
    if received[|received| - 1].Serial() != n {
      ReceivedCallIsLogged(received[..|received| - 1], n);
    }
  }

  /** A reply that the container has sent answers a call that it received. */
  lemma ContainerReplyFits(s: State, m: Message)
    requires Sound(s) && ContainerFits(s) && HandFits(s.cont, s.contSent, s.contTaken)
    requires HasInHand(s.cont) && s.cont.m == m && m.IsReply()
    ensures AnswersItsRoute(FromContainer(0), LogOf(s.log, m.fields.replySerial))
  {
    hide LogOf, Replies, Calls, PendingSound, MergesSound, WellFormed;
    var n := m.fields.replySerial;
    TakenAppend(s.contSent, s.contTaken - 1, n);
    RepliesOfPrefix(s.contSent, s.contTaken, n);
    ReceivedCallIsLogged(s.contIn, n);
  }

  lemma DispatcherKeepsOrigins(s: State, ok: bool, serial: uint32)
    requires Sound(s) && OriginInv(s)
    ensures OriginInv(DispatcherStep(s, ok, serial))
  {
    hide LogOf, UnavailableReply, PendingSound, MergesSound, BusSound, Answers, ReaderSound, CarriesFitting;
    DispatcherEffect(s, ok, serial);
    DispatcherHands(s, ok, serial);
    if s.disp.WritingContainer? && ok {
      forall n ensures LogOf(s.contIn + [s.disp.e], n) == if s.disp.e.Serial() == n then Some(s.disp.e) else LogOf(s.contIn, n) {
        LogAppend(s.contIn, s.disp.e, n);
      }
    }
    if s.disp.Answering? {
      UnavailableReplyAnswers(s.disp.e.msg, serial);
    }
  }

  lemma ContainerMatchesOrigins(s: State, ok: bool)
    requires Sound(s) && OriginInv(s) && s.cont.Matching?
    ensures OriginInv(ContainerStep(s, ok))
  {
    hide LogOf, Combine, PendingSound, BusSound, Answers, WellFormed;
    ContainerEffect(s, ok);
    var k := s.cont.m.fields.replySerial;
    if k in s.merges {
      ContainerReplyMatches(s);
    }
  }

  lemma ContainerSendsOrigins(s: State, ok: bool)
    requires Sound(s) && OriginInv(s) && HandsFit(s) && (s.cont.Sending? || s.cont.SendingMerged?)
    ensures OriginInv(ContainerStep(s, ok))
  {
    if s.cont.Sending? && s.cont.m.IsReply() {
      ContainerReplyFits(s, s.cont.m);
    }
    hide Sound, HandsFit, LogOf;
  }

  lemma ContainerKeepsOrigins(s: State, ok: bool)
    requires Sound(s) && OriginInv(s) && HandsFit(s)
    ensures OriginInv(ContainerStep(s, ok))
  {
    match s.cont
    case Matching(_) => ContainerMatchesOrigins(s, ok);
    case Sending(_) => ContainerSendsOrigins(s, ok);
    case SendingMerged(_) => ContainerSendsOrigins(s, ok);
    case _ => hide Sound, HandsFit, LogOf;
  }

  lemma HostMatchesOrigins(s: State, ok: bool)
    requires Sound(s) && OriginInv(s) && s.host.Matching?
    ensures OriginInv(HostStep(s, ok))
  {
    hide LogOf, Combine, PendingSound, BusSound, Answers, WellFormed;
    HostEffect(s, ok);
    var k := s.host.m.fields.replySerial;
    if k in s.merges {
      HostReplyMatches(s);
    }
  }

  lemma AcceptedReplyFits(log: seq<Sent>, m: Message, p: Pending)
    requires PendingFits(LogOf(log, m.fields.replySerial), p)
    ensures HostCarriesFitting(log, AcceptReply(m, p))
  {
    hide LogOf;
  }

  lemma AcceptedSignalFits(log: seq<Sent>, m: Message)
    requires !m.IsReply()
    ensures HostCarriesFitting(log, AcceptSignal(m))
  {
    hide LogOf;
  }

  lemma HostTakesOrigins(s: State, ok: bool)
    requires Sound(s) && OriginInv(s) && (s.host.Waiting? || s.host.LookingUp?)
    ensures OriginInv(HostStep(s, ok))
  {
    HostEffect(s, ok);
    hide LogOf, MergesSound, BusSound, Answers, ReaderSound, AcceptSignal, AcceptReply;
    if s.host.Waiting? {
      if s.hostTaken < |s.hostSent| && !s.hostSent[s.hostTaken].IsReply() {
        AcceptedSignalFits(s.log, s.hostSent[s.hostTaken]);
      }
    } else {
      var n := s.host.m.fields.replySerial;
      if n in s.hostPending {
        assert PendingFits(LogOf(s.log, n), s.hostPending[n]);
        AcceptedReplyFits(s.log, s.host.m, s.hostPending[n]);
      }
    }
  }

  lemma HostSendsOrigins(s: State, ok: bool)
    requires OriginInv(s) && HandsFit(s) && (s.host.Sending? || s.host.SendingMerged?)
    ensures OriginInv(HostStep(s, ok))
  {
    HostEffect(s, ok);
    HostHands(s, ok);
    assert HostStep(s, ok).host.Waiting? || HostStep(s, ok).host.Stopped?;
    hide LogOf, HostStep;
  }

  lemma HostLearnsOrigins(s: State, ok: bool)
    requires OriginInv(s) && (s.host.Naming? || s.host.Learning? || s.host.Stopped?)
    ensures OriginInv(HostStep(s, ok))
  {
    HostEffect(s, ok);
    hide LogOf, Remember;
  }

  lemma HostKeepsOrigins(s: State, ok: bool)
    requires Sound(s) && OriginInv(s) && HandsFit(s)
    ensures OriginInv(HostStep(s, ok))
  {
    hide OriginInv, Sound, HandsFit, HostStep;
    match s.host
    case Waiting => HostTakesOrigins(s, ok);
    case Matching(_) => HostMatchesOrigins(s, ok);
    case LookingUp(_) => HostTakesOrigins(s, ok);
    case Naming(_) => HostLearnsOrigins(s, ok);
    case Learning(_, _, _) => HostLearnsOrigins(s, ok);
    case Sending(_) => HostSendsOrigins(s, ok);
    case SendingMerged(_) => HostSendsOrigins(s, ok);
    case Stopped => HostLearnsOrigins(s, ok);
  }

  lemma StepKeepsOrigins(s: State, step: Step)
    requires Sound(s) && OriginInv(s) && HandsFit(s) && Enabled(s, step)
    ensures OriginInv(Next(s, step))
  {
    hide Sound, HandsFit, RouteOf, DispatcherStep, ContainerStep, HostStep, LogOf;
    match step
    case ClientSends(m) => ClientKeepsOrigins(s, m);
    case Dispatch(ok, serial) => DispatcherKeepsOrigins(s, ok, serial);
    case ContainerReads(ok) => ContainerKeepsOrigins(s, ok);
    case HostReads(ok) => HostKeepsOrigins(s, ok);
    case _ =>
  }

  lemma {:induction false} RunKeepsOrigins(s: State, steps: seq<Step>)
    requires Sound(s) && OriginInv(s) && InOrder(s) && ValidRun(s, steps)
    ensures OriginInv(Run(s, steps))
    decreases |steps|
  {
    hide Sound, OriginInv, HandsFit, InPlace, Precedes, Next, Enabled;
    if steps != [] {
      StepKeepsSound(s, steps[0]);
      StepKeepsOrigins(s, steps[0]);
      StepKeepsOrder(s, steps[0]);
      RunKeepsOrigins(Next(s, steps[0]), steps[1..]);
    }
  }

  /** A reply never comes from a bus that the call was not sent to: the host alone answers only
      calls routed to the host, the container alone only calls that reach it, merged replies are
      for merged calls, the router answers only what it could not route. The host bus is free. */
  lemma RepliesComeFromTheirRoute(hostUp: bool, steps: seq<Step>, p: nat)
    requires ValidRun(Initial(hostUp), steps) && p < |Run(Initial(hostUp), steps).clientOut|
    ensures
      var s := Run(Initial(hostUp), steps);
      var o := s.clientOut[p];
      o.msg.IsReply() ==> AnswersItsRoute(o.origin, LogOf(s.log, o.msg.fields.replySerial))
  {
    SoundInitially(hostUp);
    RunKeepsOrigins(Initial(hostUp), steps);
  }

  /** A client message whose answer from the host tells a name: the client's own `Hello`, copied to
      the host, or a forwarded call that asks for the owner of a name. */
  predicate AsksForName(e: Sent) {
    || (e.route.CopySwallow? && e.msg.fields.member == HELLO)
    || (e.route.ToHost? && e.msg.IsCall() && e.msg.fields.member == GET_NAME_OWNER)
  }

  ghost predicate Asked(log: seq<Sent>, n: uint32) {
    exists e :: e in log && e.Serial() == n && AsksForName(e)
  }

  /** What the router learns from a host message: the first text of a return to such a message, and
      the new owner in an owner change that is forwarded to the client. */
  ghost predicate Teaches(log: seq<Sent>, m: Message, name: Text) {
    || (m.kind == TYPE_METHOD_RETURN && name == FirstText(m) && Asked(log, m.fields.replySerial))
    || (ForwardsSignal(m) && LearnsFromSignal(m) && name == BodyTexts(m)[2])
  }

  ghost predicate Taught(s: State, name: Text) {
    exists i :: 0 <= i < s.hostTaken && i < |s.hostSent| && Teaches(s.log, s.hostSent[i], name)
  }

  predicate Records(e: Sent, p: Pending) {
    && e.Recorded() && !e.route.CopyMerge? && p.member == e.msg.fields.member
    && (p.kind.Forward? <==> e.route.ToHost?)
  }

  ghost predicate RecordedFor(log: seq<Sent>, n: uint32, p: Pending) {
    exists e :: e in log && e.Serial() == n && Records(e, p)
  }

  ghost predicate PendingRecorded(log: seq<Sent>, pending: map<uint32, Pending>) {
    forall n :: n in pending ==> RecordedFor(log, n, pending[n])
  }

  /** The message in the host reader's hand, where it is about to teach a name. */
  ghost predicate HostTeaches(log: seq<Sent>, r: BusReader) {
    match r
    case Naming(m) => m.kind == TYPE_METHOD_RETURN && Asked(log, m.fields.replySerial)
    case Learning(m, name, _) => Teaches(log, m, name)
    case _ => true
  }

  predicate DispatcherRecords(s: State) {
    (InHand(s.disp).Some? ==> InHand(s.disp).value in s.log) && (s.disp.Noting? ==> s.disp.e.Recorded())
  }

  ghost predicate NamesInv(s: State) {
    && HandFits(s.host, s.hostSent, s.hostTaken)
    && DispatcherRecords(s) && PendingRecorded(s.log, s.hostPending) && HostTeaches(s.log, s.host)
    && (forall name :: name in s.hostNames ==> IsUnique(name) && Taught(s, name))
  }

  lemma AskedStays(log: seq<Sent>, longer: seq<Sent>)
    requires log <= longer
    ensures forall n :: Asked(log, n) ==> Asked(longer, n)
    ensures forall n, p :: RecordedFor(log, n, p) ==> RecordedFor(longer, n, p)
    ensures forall m, name :: Teaches(log, m, name) ==> Teaches(longer, m, name)
  {
    hide AsksForName, Records, ForwardsSignal, LearnsFromSignal, BodyTexts;
  }

  lemma TaughtIsStable(s: State, t: State, name: Text)
    requires Taught(s, name) && s.log <= t.log && s.hostSent <= t.hostSent && s.hostTaken <= t.hostTaken
    ensures Taught(t, name)
  {
    hide Teaches;
    AskedStays(s.log, t.log);
    var i :| 0 <= i < s.hostTaken && i < |s.hostSent| && Teaches(s.log, s.hostSent[i], name);
    assert t.hostSent[i] == s.hostSent[i];
  }

  lemma AcceptedSignalTeaches(log: seq<Sent>, m: Message)
    ensures HostTeaches(log, AcceptSignal(m)) && !AcceptSignal(m).Naming?
  {
    hide BodyTexts;
  }

  lemma AcceptedReplyTeaches(log: seq<Sent>, m: Message, p: Pending)
    requires RecordedFor(log, m.fields.replySerial, p)
    ensures HostTeaches(log, AcceptReply(m, p))
  {
    hide BodyTexts, FirstText;
    var e :| e in log && e.Serial() == m.fields.replySerial && Records(e, p);
    assert AsksForName(e) ==> Asked(log, m.fields.replySerial);
  }

  lemma HostTeachesNext(s: State, ok: bool)
    requires PendingRecorded(s.log, s.hostPending) && HostTeaches(s.log, s.host)
    ensures HostTeaches(s.log, HostStep(s, ok).host)
  {
    hide AcceptSignal, AcceptReply, Asked, RecordedFor, Combine, BodyTexts, Remember, ForwardsSignal, LearnsFromSignal;
    match s.host
    case Waiting =>
      if s.hostTaken < |s.hostSent| {
        AcceptedSignalTeaches(s.log, s.hostSent[s.hostTaken]);
      }
    case LookingUp(m) =>
      if m.fields.replySerial in s.hostPending {
        AcceptedReplyTeaches(s.log, m, s.hostPending[m.fields.replySerial]);
      }
    case Matching(_) =>
    case Naming(_) =>
    case Learning(_, _, _) =>
    case Sending(_) =>
    case SendingMerged(_) =>
    case _ =>
  }

  lemma HostPendingShrinks(s: State, ok: bool)
    ensures
      var t := HostStep(s, ok);
      && (t.hostPending == s.hostPending || (s.host.LookingUp? && t.hostPending == s.hostPending - {s.host.m.fields.replySerial}))
      && t.hostNames == (if s.host.Learning? then Remember(s.hostNames, s.host.name) else s.hostNames)
      && t.hostTaken >= s.hostTaken
  {
    hide AcceptSignal, AcceptReply, Combine, Remember;
    match s.host
    case Waiting =>
    case Matching(_) =>
    case LookingUp(_) =>
    case Naming(_) =>
    case Learning(_, _, _) =>
    case Sending(_) =>
    case SendingMerged(_) =>
    case _ =>
  }

  lemma HostKeepsNames(s: State, ok: bool)
    requires NamesInv(s)
    ensures NamesInv(HostStep(s, ok)) && s.hostNames <= HostStep(s, ok).hostNames
  {
    hide HostStep, HostTeaches, Teaches, IsUnique, RecordedFor, DispatcherRecords;
    HostTeachesNext(s, ok);
    HostPendingShrinks(s, ok);
    HostTurn(s, ok);
    HostEffect(s, ok);
    var t := HostStep(s, ok);
    assert DispatcherRecords(t) by {
      SameDispatcherRecords(s, t);
    }
    forall name | name in t.hostNames ensures IsUnique(name) && Taught(t, name) {
      if name !in s.hostNames {
        LearnedIsTaught(s, name);
      }
      TaughtIsStable(s, t, name);
    }
  }

  lemma SameDispatcherRecords(s: State, t: State)
    requires DispatcherRecords(s) && t.disp == s.disp && t.log == s.log
    ensures DispatcherRecords(t)
  {
  }

  lemma LearnedIsTaught(s: State, name: Text)
    requires NamesInv(s) && s.host.Learning? && name in Remember(s.hostNames, s.host.name) && name !in s.hostNames
    ensures IsUnique(name) && Taught(s, name)
  {
    hide Teaches, PendingRecorded;
    assert Teaches(s.log, s.hostSent[s.hostTaken - 1], name);
  }

  lemma NotedIsRecorded(log: seq<Sent>, e: Sent)
    requires e in log && e.Recorded() && !e.route.CopyMerge?
    ensures RecordedFor(log, e.Serial(), Pending(if e.route.ToHost? then Forward else Swallow, e.msg.fields.member))
  {
    assert Records(e, Pending(if e.route.ToHost? then Forward else Swallow, e.msg.fields.member));
  }

  lemma DispatcherKeepsNames(s: State, ok: bool, serial: uint32)
    requires DispatcherRecords(s) && PendingRecorded(s.log, s.hostPending)
    ensures
      var t := DispatcherStep(s, ok, serial);
      DispatcherRecords(t) && PendingRecorded(s.log, t.hostPending)
  {
    hide UnavailableReply, RecordedFor;
    if s.disp.Noting? && !s.disp.e.route.CopyMerge? {
      NotedIsRecorded(s.log, s.disp.e);
    }
    match s.disp
    case Noting(_) =>
    case WritingHost(_) =>
    case Undoing(_) =>
    case WritingContainer(_) =>
    case Answering(_) =>
    case _ =>
  }

  /** What a step other than the host reader's leaves as it is. */
  lemma OthersTeachNothing(s: State, step: Step)
    requires !step.HostReads?
    ensures
      var t := Next(s, step);
      && s.log <= t.log && s.hostSent <= t.hostSent && t.hostTaken == s.hostTaken
      && t.host == s.host && t.hostNames == s.hostNames
      && (!step.Dispatch? ==> t.hostPending == s.hostPending)
      && (!step.Dispatch? && !step.ClientSends? ==> t.disp == s.disp && t.log == s.log)
      && (step.Dispatch? ==> t.log == s.log)
  {
    hide RouteOf, DispatcherStep, ContainerStep;
    match step
    case Dispatch(ok, serial) => DispatcherEffect(s, ok, serial);
    case ContainerReads(ok) => ContainerEffect(s, ok);
    case _ =>
  }

  lemma ClientRecords(s: State, m: Message)
    ensures DispatcherRecords(Next(s, ClientSends(m)))
  {
    hide RouteOf;
  }

  lemma StepKeepsNames(s: State, step: Step)
    requires NamesInv(s)
    ensures NamesInv(Next(s, step)) && s.hostNames <= Next(s, step).hostNames
  {
    if step.HostReads? {
      HostKeepsNames(s, step.ok);
    } else {
      OtherStepKeepsNames(s, step);
    }
    hide NamesInv, HostStep;
  }

  lemma OtherStepKeepsNames(s: State, step: Step)
    requires NamesInv(s) && !step.HostReads?
    ensures NamesInv(Next(s, step)) && s.hostNames <= Next(s, step).hostNames
  {
    OthersTeachNothing(s, step);
    if step.Dispatch? {
      DispatcherKeepsNames(s, step.ok, step.serial);
    }
    if step.ClientSends? {
      ClientRecords(s, step.m);
    }
    hide Next, DispatcherStep, IsUnique, Teaches, Asked, RecordedFor;
    var t := Next(s, step);
    AskedStays(s.log, t.log);
    forall name | name in s.hostNames ensures Taught(t, name) {
      TaughtIsStable(s, t, name);
    }
  }

  lemma {:induction false} RunKeepsNames(s: State, steps: seq<Step>)
    requires NamesInv(s)
    ensures NamesInv(Run(s, steps)) && s.hostNames <= Run(s, steps).hostNames
    decreases |steps|
  {
    hide NamesInv, Next;
    if steps != [] {
      StepKeepsNames(s, steps[0]);
      RunKeepsNames(Next(s, steps[0]), steps[1..]);
    }
  }

  /** Learned names never disturb well-known routing. Whatever the buses send, every learned name
      is a unique name that the host has told, in its answer to the client's `Hello` or to a forwarded
      call for an owner, or in an owner change that the client is told of; so a name that is not unique is routed by the
      static rules alone, at every moment of every run. */
  lemma LearnedNamesAreUnique(hostUp: bool, steps: seq<Step>, name: Text)
    ensures
      var s := Run(Initial(hostUp), steps);
      && (name in s.hostNames ==> IsUnique(name) && Taught(s, name))
      && (!IsUnique(name) ==>
            (RouteName(name, s.hostNames) == Host <==> RouteDestination(name) == Host || RouteOwnership(name) == Host))
      && (IsUnique(name) ==> (RouteName(name, s.hostNames) == Host <==> name in s.hostNames))
  {
    assert NamesInv(Initial(hostUp));
    RunKeepsNames(Initial(hostUp), steps);
    if IsUnique(name) {
      UniqueNamesStayInside(name);
    }
    hide RouteDestination, RouteOwnership, Run;
  }

  /** A name that is routed to the host stays routed to the host. */
  lemma HostRoutesAreKept(hostUp: bool, steps: seq<Step>, more: seq<Step>, name: Text)
    requires RouteName(name, Run(Initial(hostUp), steps).hostNames) == Host
    ensures RouteName(name, Run(Run(Initial(hostUp), steps), more).hostNames) == Host
  {
    assert NamesInv(Initial(hostUp));
    RunKeepsNames(Initial(hostUp), steps);
    RunKeepsNames(Run(Initial(hostUp), steps), more);
    hide RouteDestination, RouteOwnership, Run, NamesInv;
  }
}
