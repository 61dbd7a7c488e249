/** Reply correlation over every interleaving (container/dbus/router.go:327-538).

    Every call that the client has made is worth one reply. That credit is always in exactly one
    place: with the dispatcher, with the container bus, in a forward entry, in a stored reply, in
    a reader's hand, or delivered. A failed write may lose it; nothing can double it. */
module Correlation {
  import opened Bytes
  import opened Wrappers
  import opened Wire
  import opened Bodies
  import opened Merging
  import opened Session

  /** A reply that may be stored in a merge entry. */
  predicate ReplyTo(m: Message, n: uint32) {
    && m.IsReply() && m.fields.replySerial == n
    && Received(m) && (m.kind == TYPE_METHOD_RETURN ==> SelfContained(m))
  }

  predicate MergeSound(n: uint32, e: MergeState) {
    && (e.contMsg.Some? ==> ReplyTo(e.contMsg.value, n))
    && (e.hostMsg.Some? ==> ReplyTo(e.hostMsg.value, n))
    && (e.contMsg.None? || e.hostMsg.None?)
  }

  predicate ReaderSound(log: seq<Sent>, r: BusReader) {
    match r
    case Matching(m) => m.IsReply() && WellFormed(log, m)
    case LookingUp(m) => m.IsReply()
    case _ => true
  }

  /** The dispatcher works on the last message it read, in the phases of that message's route. */
  predicate DispatcherSound(s: State) {
    match s.disp
    case Noting(e) => e.Recorded() && e.Serial() !in s.hostPending && e.Serial() !in s.merges
    case WritingHost(e) => e.route.ReachesHost()
    case Undoing(e) => e.Recorded() && s.failed
    case WritingContainer(e) => e.route.ReachesContainer()
    case Answering(e) => e.route.Unavailable?
    case Idle => true
    case Halted => s.failed
  }

  function InHand(d: Dispatcher): Option<Sent> {
    match d
    case Noting(e) => Some(e)
    case WritingHost(e) => Some(e)
    case Undoing(e) => Some(e)
    case WritingContainer(e) => Some(e)
    case Answering(e) => Some(e)
    case _ => None
  }

  predicate PendingFits(e: Option<Sent>, p: Pending) {
    && e.Some? && e.value.Recorded() && !e.value.route.CopyMerge? && p.member == e.value.msg.fields.member
    && (p.kind.Forward? <==> e.value.route.ToHost?)
  }

  predicate MergeFits(e: Option<Sent>, n: uint32, m: MergeState) {
    e.Some? && e.value.route.CopyMerge? && MergeSound(n, m)
  }

  /** Every entry belongs to a client message with the matching route. */
  predicate PendingSound(log: seq<Sent>, pending: map<uint32, Pending>) {
    forall n :: n in pending ==> PendingFits(LogOf(log, n), pending[n])
  }

  predicate MergesSound(log: seq<Sent>, merges: map<uint32, MergeState>) {
    forall n :: n in merges ==> MergeFits(LogOf(log, n), n, merges[n])
  }

  predicate BusSound(log: seq<Sent>, sent: seq<Message>, taken: nat) {
    taken <= |sent| && forall i :: 0 <= i < |sent| ==> WellFormed(log, sent[i])
  }

  /** A bus never answers more often than it was called. */
  ghost predicate Answers(received: seq<Sent>, sent: seq<Message>) {
    forall n :: Replies(sent, n) <= Calls(received, n)
  }

  /** What holds in every reachable state, whatever the host does. */
  ghost predicate Sound(s: State) {
    && (InHand(s.disp).Some? ==> LogOf(s.log, InHand(s.disp).value.Serial()) == InHand(s.disp))
    && DispatcherSound(s)
    && PendingSound(s.log, s.hostPending) && MergesSound(s.log, s.merges)
    && BusSound(s.log, s.contSent, s.contTaken) && BusSound(s.log, s.hostSent, s.hostTaken)
    && Answers(s.contIn, s.contSent)
    && ReaderSound(s.log, s.cont) && ReaderSound(s.log, s.host)
    && !s.cont.LookingUp? && !s.cont.Naming? && !s.cont.Learning?
  }

  lemma RepliesAppend(ms: seq<Message>, m: Message, n: uint32)
    ensures Replies(ms + [m], n) == Replies(ms, n) + if m.IsReply() && m.fields.replySerial == n then 1 else 0
  {
    assert (ms + [m])[..|ms|] == ms;
  }

  lemma CallsAppend(es: seq<Sent>, e: Sent, n: uint32)
    ensures Calls(es + [e], n) == Calls(es, n) + if e.msg.IsCall() && e.Serial() == n then 1 else 0
  {
    assert (es + [e])[..|es|] == es;
  }

  lemma DeliveredAppend(outs: seq<Out>, o: Out, n: uint32)
    ensures Delivered(outs + [o], n)
         == Delivered(outs, n) + if o.msg.IsReply() && o.msg.fields.replySerial == n then 1 else 0
  {
    assert (outs + [o])[..|outs|] == outs;
  }

  lemma LogAppend(log: seq<Sent>, e: Sent, n: uint32)
    ensures LogOf(log + [e], n) == if e.Serial() == n then Some(e) else LogOf(log, n)
  {
    assert (log + [e])[..|log|] == log;
  }

  lemma {:induction false} RepliesOfPrefix(ms: seq<Message>, k: nat, n: uint32)
    requires k <= |ms|
    ensures Replies(ms[..k], n) <= Replies(ms, n)
    decreases |ms|
  {
    if k < |ms| {
      assert ms[..|ms| - 1][..k] == ms[..k];
      RepliesOfPrefix(ms[..|ms| - 1], k, n);
    } else {
      assert ms[..k] == ms;
    }
  }

  lemma TakenAppend(ms: seq<Message>, k: nat, n: uint32)
    requires k < |ms|
    ensures Replies(ms[..k + 1], n) == Replies(ms[..k], n) + if ms[k].IsReply() && ms[k].fields.replySerial == n then 1 else 0
  {
    assert ms[..k + 1] == ms[..k] + [ms[k]];
    RepliesAppend(ms[..k], ms[k], n);
  }

  /** What a bus has sent stays well-formed when the client goes on. */
  lemma StaysWellFormed(log: seq<Sent>, e: Sent, m: Message)
    requires LogOf(log, e.Serial()).None? && WellFormed(log, m)
    ensures WellFormed(log + [e], m)
  {
    hide LogOf, Received, SelfContained;
    LogAppend(log, e, m.fields.replySerial);
  }

  lemma BusStaysSound(log: seq<Sent>, e: Sent, sent: seq<Message>, taken: nat, r: BusReader)
    requires LogOf(log, e.Serial()).None? && BusSound(log, sent, taken) && ReaderSound(log, r)
    ensures BusSound(log + [e], sent, taken) && ReaderSound(log + [e], r)
  {
    hide LogOf, WellFormed;
    forall m | WellFormed(log, m) ensures WellFormed(log + [e], m) {
      StaysWellFormed(log, e, m);
    }
  }

  /** A reply in hand that finds a merge entry may be stored there. */
  lemma MatchedMayMerge(log: seq<Sent>, m: Message)
    requires m.IsReply() && WellFormed(log, m)
    requires LogOf(log, m.fields.replySerial).Some? && LogOf(log, m.fields.replySerial).value.route.CopyMerge?
    ensures ReplyTo(m, m.fields.replySerial)
  {
    hide LogOf, Received, SelfContained;
  }

  /** Merging two well-formed replies to a serial gives a reply to that serial. */
  lemma CombinedIsReply(cont: Message, host: Message, n: uint32)
    requires ReplyTo(cont, n) && ReplyTo(host, n)
    ensures Combine(cont, host).IsReply() && Combine(cont, host).fields.replySerial == n
  {
    hide SelfContained, Merge, Mergeable, Parse;
    if cont.kind == TYPE_METHOD_RETURN || host.kind == TYPE_METHOD_RETURN {
      MergedReplyReads(cont, host);
    } else if Mergeable(cont, host) {
      MergedErrors(cont, host);
    }
  }

  /** A reply of the container that finds a merge entry. */
  lemma ContainerReplyMatches(s: State)
    requires Sound(s) && s.cont.Matching? && s.cont.m.fields.replySerial in s.merges
    ensures
      var n := s.cont.m.fields.replySerial;
      && MergeFits(LogOf(s.log, n), n, s.merges[n]) && ReplyTo(s.cont.m, n)
      && (s.merges[n].hostMsg.Some? ==>
            var r := Combine(s.cont.m, s.merges[n].hostMsg.value);
            r.IsReply() && r.fields.replySerial == n)
  {
    hide LogOf, PendingSound, BusSound, Answers, WellFormed, Received, Combine;
    var n := s.cont.m.fields.replySerial;
    assert MergeFits(LogOf(s.log, n), n, s.merges[n]);
    MatchedMayMerge(s.log, s.cont.m);
    if s.merges[n].hostMsg.Some? {
      CombinedIsReply(s.cont.m, s.merges[n].hostMsg.value, n);
    }
  }

  /** A reply of the host that finds a merge entry. */
  lemma HostReplyMatches(s: State)
    requires Sound(s) && s.host.Matching? && s.host.m.fields.replySerial in s.merges
    ensures
      var n := s.host.m.fields.replySerial;
      && MergeFits(LogOf(s.log, n), n, s.merges[n]) && ReplyTo(s.host.m, n)
      && (s.merges[n].contMsg.Some? ==>
            var r := Combine(s.merges[n].contMsg.value, s.host.m);
            r.IsReply() && r.fields.replySerial == n)
  {
    hide LogOf, PendingSound, BusSound, Answers, WellFormed, Received, Combine;
    var n := s.host.m.fields.replySerial;
    assert MergeFits(LogOf(s.log, n), n, s.merges[n]);
    MatchedMayMerge(s.log, s.host.m);
    if s.merges[n].contMsg.Some? {
      CombinedIsReply(s.merges[n].contMsg.value, s.host.m, n);
    }
  }

  lemma SoundInitially(hostUp: bool)
    ensures Sound(Initial(hostUp))
  {
  }

  lemma NotePending(log: seq<Sent>, pending: map<uint32, Pending>, n: uint32, p: Pending)
    requires PendingSound(log, pending) && PendingFits(LogOf(log, n), p)
    ensures PendingSound(log, pending[n := p])
  {
    hide LogOf, PendingFits;
  }

  lemma DropPending(log: seq<Sent>, pending: map<uint32, Pending>, n: uint32)
    requires PendingSound(log, pending)
    ensures PendingSound(log, pending - {n})
  {
    hide LogOf, PendingFits;
  }

  lemma NoteMerge(log: seq<Sent>, merges: map<uint32, MergeState>, n: uint32, m: MergeState)
    requires MergesSound(log, merges) && MergeFits(LogOf(log, n), n, m)
    ensures MergesSound(log, merges[n := m])
  {
    hide LogOf, MergeFits;
  }

  lemma DropMerge(log: seq<Sent>, merges: map<uint32, MergeState>, n: uint32)
    requires MergesSound(log, merges)
    ensures MergesSound(log, merges - {n})
  {
    hide LogOf, MergeFits;
  }

  lemma LogGrows(log: seq<Sent>, e: Sent, pending: map<uint32, Pending>, merges: map<uint32, MergeState>)
    requires LogOf(log, e.Serial()).None?
    requires PendingSound(log, pending) && MergesSound(log, merges)
    ensures PendingSound(log + [e], pending) && MergesSound(log + [e], merges)
    ensures e.Serial() !in pending && e.Serial() !in merges
  {
    hide LogOf;
    forall n ensures LogOf(log + [e], n) == if e.Serial() == n then Some(e) else LogOf(log, n) {
      LogAppend(log, e, n);
    }
  }

  lemma ReceivingKeepsAnswers(received: seq<Sent>, sent: seq<Message>, e: Sent)
    requires Answers(received, sent)
    ensures Answers(received + [e], sent)
  {
    hide Replies, Calls;
    forall n ensures Replies(sent, n) <= Calls(received + [e], n) {
      CallsAppend(received, e, n);
    }
  }

  lemma SendingKeepsAnswers(received: seq<Sent>, sent: seq<Message>, m: Message)
    requires Answers(received, sent) && MayAnswer(received, sent, m)
    ensures Answers(received, sent + [m])
  {
    hide Replies, Calls;
    forall n ensures Replies(sent + [m], n) <= Calls(received, n) {
      RepliesAppend(sent, m, n);
    }
  }

  lemma DispatcherKeepsSound(s: State, ok: bool, serial: uint32)
    requires Sound(s)
    ensures Sound(DispatcherStep(s, ok, serial))
  {
    hide PendingSound, MergesSound, BusSound, Answers, ReaderSound, LogOf, UnavailableReply;
    match s.disp
    case Noting(e) =>
      if e.route.CopyMerge? {
        NoteMerge(s.log, s.merges, e.Serial(), MergeState(e.msg.fields.member, None, None));
      } else {
        NotePending(s.log, s.hostPending, e.Serial(), Pending(if e.route.ToHost? then Forward else Swallow, e.msg.fields.member));
      }
    case Undoing(e) =>
      DropMerge(s.log, s.merges, e.Serial());
      DropPending(s.log, s.hostPending, e.Serial());
    case WritingContainer(e) =>
      ReceivingKeepsAnswers(s.contIn, s.contSent, e);
    case _ =>
  }

  lemma ClientKeepsSound(s: State, m: Message)
    requires Sound(s) && Enabled(s, ClientSends(m))
    ensures Sound(Next(s, ClientSends(m)))
  {
    hide PendingSound, MergesSound, BusSound, Answers, ReaderSound, LogOf, RouteOf;
    var e := Sent(m, RouteOf(m, s.hostUp, s.hostNames), s.hostNames);
    LogGrows(s.log, e, s.hostPending, s.merges);
    LogAppend(s.log, e, e.Serial());
    BusStaysSound(s.log, e, s.contSent, s.contTaken, s.cont);
    BusStaysSound(s.log, e, s.hostSent, s.hostTaken, s.host);
  }

  lemma BusesKeepSound(s: State, step: Step)
    requires Sound(s) && Enabled(s, step) && (step.ContainerSends? || step.HostSends?)
    ensures Sound(Next(s, step))
  {
    hide PendingSound, MergesSound, Answers, ReaderSound, LogOf, WellFormed, MayAnswer;
    if step.ContainerSends? {
      SendingKeepsAnswers(s.contIn, s.contSent, step.m);
    }
  }

  lemma ContainerMatchingKeepsSound(s: State, ok: bool)
    requires Sound(s) && s.cont.Matching?
    ensures Sound(ContainerStep(s, ok))
  {
    hide PendingSound, BusSound, Answers, LogOf, WellFormed, Combine;
    var m := s.cont.m;
    var n := m.fields.replySerial;
    if n in s.merges {
      ContainerReplyMatches(s);
    }
    hide MergesSound;
    DropMerge(s.log, s.merges, n);
    if n in s.merges && s.merges[n].hostMsg.None? {
      NoteMerge(s.log, s.merges, n, s.merges[n].(contMsg := Some(m)));
    }
  }

  lemma ContainerReaderKeepsSound(s: State, ok: bool)
    requires Sound(s)
    ensures Sound(ContainerStep(s, ok))
  {
    hide PendingSound, MergesSound, Answers, LogOf, WellFormed, Combine;
    match s.cont
    case Matching(m) => ContainerMatchingKeepsSound(s, ok);
    case Waiting =>
    case Sending(_) =>
    case SendingMerged(_) =>
    case _ =>
  }

  lemma HostMatchingKeepsSound(s: State, ok: bool)
    requires Sound(s) && s.host.Matching?
    ensures Sound(HostStep(s, ok))
  {
    hide PendingSound, BusSound, Answers, LogOf, WellFormed, Combine;
    var m := s.host.m;
    var n := m.fields.replySerial;
    if n in s.merges {
      HostReplyMatches(s);
    }
    hide MergesSound;
    DropMerge(s.log, s.merges, n);
    if n in s.merges && s.merges[n].contMsg.None? {
      NoteMerge(s.log, s.merges, n, s.merges[n].(hostMsg := Some(m)));
    }
  }

  lemma HostAcceptsSound(s: State, ok: bool)
    requires Sound(s) && (s.host.Waiting? || s.host.LookingUp?)
    ensures Sound(HostStep(s, ok))
  {
    hide PendingSound, MergesSound, Answers, LogOf, WellFormed, AcceptSignal, AcceptReply;
    if s.host.Waiting? && s.hostTaken < |s.hostSent| {
      AcceptedIsSound(s.log, s.hostSent[s.hostTaken], Pending(Swallow, []));
    }
    if s.host.LookingUp? {
      DropPending(s.log, s.hostPending, s.host.m.fields.replySerial);
      if s.host.m.fields.replySerial in s.hostPending {
        AcceptedIsSound(s.log, s.host.m, s.hostPending[s.host.m.fields.replySerial]);
      }
    }
  }

  lemma HostPassesSound(s: State, ok: bool)
    requires Sound(s) && !s.host.Waiting? && !s.host.Matching? && !s.host.LookingUp?
    ensures Sound(HostStep(s, ok))
  {
    hide PendingSound, MergesSound, Answers, LogOf, WellFormed, BusSound, Remember;
    match s.host
    case Naming(_) =>
    case Learning(_, _, _) =>
    case Sending(_) =>
    case SendingMerged(_) =>
    case _ =>
  }

  lemma HostReaderKeepsSound(s: State, ok: bool)
    requires Sound(s)
    ensures Sound(HostStep(s, ok))
  {
    hide Sound, HostStep;
    match s.host
    case Waiting => HostAcceptsSound(s, ok);
    case LookingUp(_) => HostAcceptsSound(s, ok);
    case Matching(_) => HostMatchingKeepsSound(s, ok);
    case _ => HostPassesSound(s, ok);
  }

  lemma AcceptedIsSound(log: seq<Sent>, m: Message, p: Pending)
    ensures ReaderSound(log, AcceptSignal(m)) && ReaderSound(log, AcceptReply(m, p))
  {
  }

  lemma StepKeepsSound(s: State, step: Step)
    requires Sound(s) && Enabled(s, step)
    ensures Sound(Next(s, step))
  {
    hide Sound, DispatcherStep, ContainerStep, HostStep;
    match step
    case ClientSends(m) => ClientKeepsSound(s, m);
    case Dispatch(ok, serial) => DispatcherKeepsSound(s, ok, serial);
    case ContainerSends(_) => BusesKeepSound(s, step);
    case HostSends(_) => BusesKeepSound(s, step);
    case ContainerReads(ok) => ContainerReaderKeepsSound(s, ok);
    case HostReads(ok) => HostReaderKeepsSound(s, ok);
  }

  /** The client is owed one reply for each of its calls, and for a message that it is told is
      undeliverable. */
  function Owed(e: Option<Sent>): nat {
    if e.Some? && (e.value.msg.IsCall() || e.value.route.Unavailable?) then 1 else 0
  }

  /** The dispatcher holds the credit until the message is where its answer comes from. */
  function Pledge(d: Dispatcher, n: uint32): nat {
    match d
    case Noting(e) => if e.msg.IsCall() && e.Serial() == n then 1 else 0
    case WritingHost(e) => if e.msg.IsCall() && e.Serial() == n && !e.route.ToHost? then 1 else 0
    case Undoing(e) => if e.msg.IsCall() && e.Serial() == n && !e.route.ToHost? then 1 else 0
    case WritingContainer(e) => if e.msg.IsCall() && e.Serial() == n then 1 else 0
    case Answering(e) => if e.Serial() == n then 1 else 0
    case _ => 0
  }

  function Worth(m: Message, n: uint32): nat {
    if m.IsReply() && m.fields.replySerial == n then 1 else 0
  }

  /** A reply that a reader is about to send; the container's also before it is matched. */
  function Carried(r: BusReader, fromContainer: bool, n: uint32): nat {
    match r
    case Matching(m) => if fromContainer then Worth(m, n) else 0
    case Learning(m, _, deliver) => if deliver then Worth(m, n) else 0
    case Sending(m) => Worth(m, n)
    case SendingMerged(m) => Worth(m, n)
    case _ => 0
  }

  function ForwardEntry(pending: map<uint32, Pending>, n: uint32): nat {
    if n in pending && pending[n].kind.Forward? then 1 else 0
  }

  function StoredReply(merges: map<uint32, MergeState>, n: uint32): nat {
    if n in merges && merges[n].contMsg.Some? then 1 else 0
  }

  /** The messages of a bus that its reader has taken. */
  function Taken(sent: seq<Message>, k: nat): seq<Message> {
    if k <= |sent| then sent[..k] else sent
  }

  /** Calls the container bus has received and whose reply has not been read yet. */
  function Outstanding(s: State, n: uint32): int {
    Calls(s.contIn, n) - Replies(Taken(s.contSent, s.contTaken), n)
  }

  function Credit(s: State, n: uint32): int {
    Pledge(s.disp, n) + Outstanding(s, n) + ForwardEntry(s.hostPending, n) + StoredReply(s.merges, n)
    + Carried(s.cont, true, n) + Carried(s.host, false, n) + Delivered(s.clientOut, n)
  }

  /** The credit of a serial is what the client is owed for it; only a failed write loses some. */
  ghost predicate Balanced(s: State, n: uint32) {
    && Credit(s, n) <= Owed(LogOf(s.log, n))
    && (!s.failed ==> Credit(s, n) == Owed(LogOf(s.log, n)))
  }

  lemma OutstandingIsNatural(s: State, n: uint32)
    requires Sound(s)
    ensures Outstanding(s, n) >= 0
  {
    hide DispatcherSound, PendingSound, MergesSound, ReaderSound, Replies, Calls;
    RepliesOfPrefix(s.contSent, s.contTaken, n);
  }

  lemma ClientKeepsBalance(s: State, m: Message, n: uint32)
    requires Sound(s) && Balanced(s, n) && Enabled(s, ClientSends(m))
    ensures Balanced(Next(s, ClientSends(m)), n)
  {
    hide RouteOf, LogOf, Replies, Calls, Delivered, PendingSound, MergesSound, Answers, WellFormed;
    var e := Sent(m, RouteOf(m, s.hostUp, s.hostNames), s.hostNames);
    LogAppend(s.log, e, n);
    assert Outstanding(Next(s, ClientSends(m)), n) == Outstanding(s, n);
  }

  lemma NotedCredit(s: State, e: Sent, n: uint32)
    requires e.Recorded() && e.Serial() !in s.hostPending && e.Serial() !in s.merges
    ensures
      var t := Note(s, e);
      Pledge(WritingHost(e), n) + ForwardEntry(t.hostPending, n) + StoredReply(t.merges, n)
      == Pledge(Noting(e), n) + ForwardEntry(s.hostPending, n) + StoredReply(s.merges, n)
  {
  }

  lemma NotingKeepsBalance(s: State, ok: bool, serial: uint32, n: uint32)
    requires Sound(s) && Balanced(s, n) && s.disp.Noting?
    ensures Balanced(DispatcherStep(s, ok, serial), n)
  {
    hide LogOf, Replies, Calls, Delivered, PendingSound, MergesSound, Answers, BusSound, ReaderSound, Taken;
    NotedCredit(s, s.disp.e, n);
    hide Pledge, ForwardEntry, StoredReply;
    assert Outstanding(DispatcherStep(s, ok, serial), n) == Outstanding(s, n);
  }

  lemma UndoingKeepsBalance(s: State, ok: bool, serial: uint32, n: uint32)
    requires Sound(s) && Balanced(s, n) && s.disp.Undoing?
    ensures Balanced(DispatcherStep(s, ok, serial), n)
  {
    hide LogOf, Replies, Calls, Delivered, PendingSound, MergesSound, Answers, WellFormed, UnavailableReply, BusSound, ReaderSound, Taken;
    var t := DispatcherStep(s, ok, serial);
    assert Outstanding(t, n) == Outstanding(s, n);
    assert Pledge(t.disp, n) + ForwardEntry(t.hostPending, n) + StoredReply(t.merges, n)
        <= Pledge(s.disp, n) + ForwardEntry(s.hostPending, n) + StoredReply(s.merges, n);
  }

  lemma WritingKeepsBalance(s: State, ok: bool, serial: uint32, n: uint32)
    requires Sound(s) && Balanced(s, n) && !s.disp.Noting? && !s.disp.Undoing?
    ensures Balanced(DispatcherStep(s, ok, serial), n)
  {
    hide LogOf, Replies, Calls, Delivered, PendingSound, MergesSound, Answers, WellFormed, UnavailableReply, BusSound, ReaderSound, Taken;
    match s.disp
    case WritingContainer(e) =>
      CallsAppend(s.contIn, e, n);
    case Answering(e) =>
      UnavailableReplyAnswers(e.msg, serial);
      DeliveredAppend(s.clientOut, Out(FromRouter, UnavailableReply(e.msg, serial)), n);
    case WritingHost(e) =>
      assert Outstanding(DispatcherStep(s, ok, serial), n) == Outstanding(s, n);
    case _ =>
  }

  lemma DispatcherKeepsBalance(s: State, ok: bool, serial: uint32, n: uint32)
    requires Sound(s) && Balanced(s, n)
    ensures Balanced(DispatcherStep(s, ok, serial), n)
  {
    hide Balanced, PendingSound, MergesSound, BusSound, Answers, ReaderSound, LogOf, UnavailableReply;
    match s.disp
    case Noting(_) => NotingKeepsBalance(s, ok, serial, n);
    case Undoing(_) => UndoingKeepsBalance(s, ok, serial, n);
    case _ => WritingKeepsBalance(s, ok, serial, n);
  }

  lemma UnavailableReplyAnswers(m: Message, serial: uint32)
    ensures UnavailableReply(m, serial).IsReply() && UnavailableReply(m, serial).fields.replySerial == m.serial
  {
  }

  /** What a reader's critical section leaves alone, as far as the credit goes. */
  predicate MatchingLeaves(s: State, t: State) {
    && t.log == s.log && t.disp == s.disp && t.failed == s.failed && t.clientOut == s.clientOut
    && t.contIn == s.contIn && t.contSent == s.contSent && t.contTaken == s.contTaken && t.hostPending == s.hostPending
  }

  /** The stored container reply and the reply in a reader's hand that count for a serial. */
  function HeldBy(merges: map<uint32, MergeState>, r: BusReader, fromContainer: bool, n: uint32): nat {
    StoredReply(merges, n) + Carried(r, fromContainer, n)
  }

  lemma EntryCompletes(merges: map<uint32, MergeState>, k: uint32, m: Message, r: Message, fromContainer: bool, n: uint32)
    requires k in merges && ReplyTo(m, k) && r.IsReply() && r.fields.replySerial == k
    requires merges[k].contMsg.Some? <==> !fromContainer
    ensures HeldBy(merges - {k}, SendingMerged(r), fromContainer, n) == HeldBy(merges, Matching(m), fromContainer, n)
  {
    hide Received, SelfContained;
  }

  lemma EntryStores(merges: map<uint32, MergeState>, k: uint32, m: Message, e: MergeState, fromContainer: bool, n: uint32)
    requires k in merges && ReplyTo(m, k)
    requires e.contMsg.Some? == (fromContainer || merges[k].contMsg.Some?)
    requires fromContainer && n == k ==> merges[k].contMsg.None?
    ensures HeldBy(merges[k := e], Waiting, fromContainer, n) == HeldBy(merges, Matching(m), fromContainer, n)
  {
    hide Received, SelfContained;
  }

  /** The container has answered a call only once, so its reply cannot have been stored before. */
  lemma ContainerReplyIsNew(s: State)
    requires Sound(s) && s.cont.Matching? && Balanced(s, s.cont.m.fields.replySerial)
    ensures s.cont.m.fields.replySerial in s.merges ==> s.merges[s.cont.m.fields.replySerial].contMsg.None?
  {
    OutstandingIsNatural(s, s.cont.m.fields.replySerial);
    assert s.cont.m.IsReply();
    hide Sound, LogOf, Delivered, Outstanding, Pledge;
  }

  /** A reply of the container moves from the reader's hand to where it is stored, or on. */
  lemma ContainerMatchingMoves(s: State, ok: bool, n: uint32)
    requires Sound(s) && Balanced(s, n) && s.cont.Matching? && s.cont.m.fields.replySerial in s.merges
    ensures
      var t := ContainerStep(s, ok);
      MatchingLeaves(s, t) && t.host == s.host && HeldBy(t.merges, t.cont, true, n) == HeldBy(s.merges, s.cont, true, n)
  {
    ContainerReplyMatches(s);
    var m, k := s.cont.m, s.cont.m.fields.replySerial;
    var e := s.merges[k];
    if n == k {
      ContainerReplyIsNew(s);
    }
    hide LogOf, Sound, Balanced, Combine, HeldBy, ReplyTo;
    if e.hostMsg.Some? {
      EntryCompletes(s.merges, k, m, Combine(m, e.hostMsg.value), true, n);
    } else {
      EntryStores(s.merges, k, m, e.(contMsg := Some(m)), true, n);
    }
  }

  /** A reply of the host takes the container's with it where that is stored already. */
  lemma HostMatchingMoves(s: State, ok: bool, n: uint32)
    requires Sound(s) && s.host.Matching? && s.host.m.fields.replySerial in s.merges
    ensures
      var t := HostStep(s, ok);
      MatchingLeaves(s, t) && t.cont == s.cont && HeldBy(t.merges, t.host, false, n) == HeldBy(s.merges, s.host, false, n)
  {
    HostReplyMatches(s);
    var m, k := s.host.m, s.host.m.fields.replySerial;
    var e := s.merges[k];
    hide LogOf, Sound, Combine, HeldBy, ReplyTo;
    if e.contMsg.Some? {
      EntryCompletes(s.merges, k, m, Combine(e.contMsg.value, m), false, n);
    } else {
      EntryStores(s.merges, k, m, e.(hostMsg := Some(m)), false, n);
    }
  }

  lemma ContainerMatchingKeepsBalance(s: State, ok: bool, n: uint32)
    requires Sound(s) && Balanced(s, n) && s.cont.Matching?
    ensures Balanced(ContainerStep(s, ok), n)
  {
    hide LogOf, Replies, Calls, Delivered, Sound, Taken, StoredReply, Pledge;
    if s.cont.m.fields.replySerial in s.merges {
      ContainerMatchingMoves(s, ok, n);
    }
  }

  lemma ContainerReaderKeepsBalance(s: State, ok: bool, n: uint32)
    requires Sound(s) && Balanced(s, n)
    ensures Balanced(ContainerStep(s, ok), n)
  {
    hide LogOf, Replies, Calls, Delivered, PendingSound, MergesSound, Answers, WellFormed, Combine, ReaderSound;
    match s.cont
    case Waiting =>
      if s.contTaken < |s.contSent| {
        TakenAppend(s.contSent, s.contTaken, n);
      }
    case Matching(_) =>
      ContainerMatchingKeepsBalance(s, ok, n);
    case Sending(m) =>
      DeliveredAppend(s.clientOut, Out(FromContainer(if s.contTaken > 0 then s.contTaken - 1 else 0), m), n);
    case SendingMerged(m) =>
      DeliveredAppend(s.clientOut, Out(FromBoth, m), n);
    case _ =>
  }

  lemma HostMatchingKeepsBalance(s: State, ok: bool, n: uint32)
    requires Sound(s) && Balanced(s, n) && s.host.Matching?
    ensures Balanced(HostStep(s, ok), n)
  {
    hide LogOf, Replies, Calls, Delivered, Sound, Taken, StoredReply, Pledge;
    if s.host.m.fields.replySerial in s.merges {
      HostMatchingMoves(s, ok, n);
    }
  }

  lemma LookingUpKeepsBalance(s: State, ok: bool, n: uint32)
    requires Sound(s) && Balanced(s, n) && s.host.LookingUp?
    ensures Balanced(HostStep(s, ok), n)
  {
    hide LogOf, Replies, Calls, Delivered, PendingSound, MergesSound, Answers, WellFormed, AcceptReply, BusSound, Taken;
    assert Outstanding(HostStep(s, ok), n) == Outstanding(s, n);
    hide Outstanding;
    var m := s.host.m;
    if m.fields.replySerial in s.hostPending {
      AcceptedReplyCarries(m, s.hostPending[m.fields.replySerial], n);
    }
  }

  lemma HostSendingKeepsBalance(s: State, ok: bool, n: uint32)
    requires Sound(s) && Balanced(s, n) && (s.host.Sending? || s.host.SendingMerged?)
    ensures Balanced(HostStep(s, ok), n)
  {
    hide LogOf, Replies, Calls, Delivered, PendingSound, MergesSound, Answers, Taken, BusSound, ReaderSound;
    assert Outstanding(HostStep(s, ok), n) == Outstanding(s, n);
    hide Outstanding;
    var origin := if s.host.SendingMerged? then FromBoth else FromHost(if s.hostTaken > 0 then s.hostTaken - 1 else 0);
    DeliveredAppend(s.clientOut, Out(origin, s.host.m), n);
  }

  lemma HostReaderKeepsBalance(s: State, ok: bool, n: uint32)
    requires Sound(s) && Balanced(s, n)
    ensures Balanced(HostStep(s, ok), n)
  {
    hide LogOf, Replies, Calls, Delivered, PendingSound, MergesSound, Answers, AcceptSignal, Taken, BusSound, ReaderSound;
    match s.host
    case Matching(_) => HostMatchingKeepsBalance(s, ok, n);
    case LookingUp(_) => LookingUpKeepsBalance(s, ok, n);
    case Sending(_) => HostSendingKeepsBalance(s, ok, n);
    case SendingMerged(_) => HostSendingKeepsBalance(s, ok, n);
    case Waiting =>
      assert Outstanding(HostStep(s, ok), n) == Outstanding(s, n);
      if s.hostTaken < |s.hostSent| && !s.hostSent[s.hostTaken].IsReply() {
        SignalsCarryNothing(s.hostSent[s.hostTaken], n);
      }
    case _ =>
      assert Outstanding(HostStep(s, ok), n) == Outstanding(s, n);
  }

  lemma SignalsCarryNothing(m: Message, n: uint32)
    requires !m.IsReply()
    ensures Carried(AcceptSignal(m), false, n) == 0
  {
  }

  lemma AcceptedReplyCarries(m: Message, p: Pending, n: uint32)
    ensures Carried(AcceptReply(m, p), false, n) == if p.kind.Forward? then Worth(m, n) else 0
  {
  }

  lemma StepKeepsBalance(s: State, step: Step, n: uint32)
    requires Sound(s) && Balanced(s, n) && Enabled(s, step)
    ensures Balanced(Next(s, step), n)
  {
    hide Sound, DispatcherStep, ContainerStep, HostStep;
    match step
    case ClientSends(m) => ClientKeepsBalance(s, m, n);
    case Dispatch(ok, serial) => DispatcherKeepsBalance(s, ok, serial, n);
    case ContainerSends(m) => ContainerSendsKeepsBalance(s, m, n);
    case HostSends(_) =>
    case ContainerReads(ok) => ContainerReaderKeepsBalance(s, ok, n);
    case HostReads(ok) => HostReaderKeepsBalance(s, ok, n);
  }

  lemma ContainerSendsKeepsBalance(s: State, m: Message, n: uint32)
    requires Sound(s) && Balanced(s, n)
    ensures Balanced(Next(s, ContainerSends(m)), n)
  {
    hide LogOf, Replies, Calls, Delivered, PendingSound, MergesSound, Answers, ReaderSound;
    assert (s.contSent + [m])[..s.contTaken] == s.contSent[..s.contTaken];
  }

  /** What every run keeps. */
  ghost predicate Inv(s: State) {
    Sound(s) && forall n :: Balanced(s, n)
  }

  lemma InvInitially(hostUp: bool)
    ensures Inv(Initial(hostUp))
  {
  }

  lemma StepKeepsInv(s: State, step: Step)
    requires Inv(s) && Enabled(s, step)
    ensures Inv(Next(s, step))
  {
    hide Sound, Balanced, Next, Enabled;
    StepKeepsSound(s, step);
    forall n ensures Balanced(Next(s, step), n) {
      StepKeepsBalance(s, step, n);
    }
  }

  lemma {:induction false} RunKeepsInv(s: State, steps: seq<Step>)
    requires Inv(s) && ValidRun(s, steps)
    ensures Inv(Run(s, steps))
    decreases |steps|
  {
    hide Inv, Next, Enabled;
    if steps != [] {
      StepKeepsInv(s, steps[0]);
      RunKeepsInv(Next(s, steps[0]), steps[1..]);
    }
  }

  /** At most one reply per call. For every interleaving of the three threads, every pattern of
      failing writes and every behaviour of the host bus, the client receives at most one return
      or error for each serial, and none for a serial it has not used. */
  lemma AtMostOneReply(hostUp: bool, steps: seq<Step>, n: uint32)
    requires ValidRun(Initial(hostUp), steps)
    ensures
      var s := Run(Initial(hostUp), steps);
      Delivered(s.clientOut, n) <= Owed(LogOf(s.log, n)) <= 1
  {
    InvInitially(hostUp);
    RunKeepsInv(Initial(hostUp), steps);
    var s := Run(Initial(hostUp), steps);
    hide Run, ValidRun, LogOf, Delivered;
    assert Sound(s) && Balanced(s, n);
    OutstandingIsNatural(s, n);
    hide Sound;
  }
}
