/** Merged name lists over whole runs (container/dbus/router.go:425-434, 511-538): whichever of the
    two replies arrives first, what the client receives is their merge. */
module MergedReplies {
  import opened Bytes
  import opened Wrappers
  import opened Wire
  import opened Bodies
  import opened NameLists
  import opened Merging
  import opened Session
  import opened Correlation
  import opened Effects
  import opened Delivery
  import opened ListCalls
  import opened Texts
  import opened Rules
  import opened Traffic
  import opened Routing

  /** The message is what became of one reply of each bus to the same call. */
  predicate Combines(s: State, m: Message, i: nat, j: nat) {
    && i < |s.contSent| && j < |s.hostSent|
    && ReplyTo(s.contSent[i], s.hostSent[j].fields.replySerial) && ReplyTo(s.hostSent[j], s.contSent[i].fields.replySerial)
    && m == Combine(s.contSent[i], s.hostSent[j])
  }

  ghost predicate MergedFrom(s: State, m: Message) {
    exists i: nat, j: nat :: Combines(s, m, i, j)
  }

  /** Stored replies come from the bus they are stored for. */
  predicate StoredFit(merges: map<uint32, MergeState>, contSent: seq<Message>, hostSent: seq<Message>) {
    forall n :: n in merges ==>
      && (merges[n].contMsg.Some? ==> merges[n].contMsg.value in contSent)
      && (merges[n].hostMsg.Some? ==> merges[n].hostMsg.value in hostSent)
  }

  ghost predicate MergingInv(s: State) {
    && StoredFit(s.merges, s.contSent, s.hostSent)
    && (s.cont.SendingMerged? ==> MergedFrom(s, s.cont.m))
    && (s.host.SendingMerged? ==> MergedFrom(s, s.host.m))
    && forall p :: 0 <= p < |s.clientOut| && s.clientOut[p].origin.FromBoth? ==> MergedFrom(s, s.clientOut[p].msg)
  }

  lemma MergedFromIsStable(s: State, t: State, m: Message)
    requires MergedFrom(s, m) && s.contSent <= t.contSent && s.hostSent <= t.hostSent
    ensures MergedFrom(t, m)
  {
    hide Combine, ReplyTo;
    var i: nat, j: nat :| Combines(s, m, i, j);
    assert Combines(t, m, i, j);
  }

  lemma RepliesCombine(s: State, cont: Message, host: Message, n: uint32)
    requires cont in s.contSent && host in s.hostSent && ReplyTo(cont, n) && ReplyTo(host, n)
    ensures MergedFrom(s, Combine(cont, host))
  {
    hide Combine, WellFormed;
    var i :| 0 <= i < |s.contSent| && s.contSent[i] == cont;
    var j :| 0 <= j < |s.hostSent| && s.hostSent[j] == host;
    assert Combines(s, Combine(cont, host), i, j);
  }

  /** A reader goes on: the stored replies still fit, and what it sends merged is a merge. */
  ghost predicate ReaderFits(t: State, r: BusReader) {
    StoredFit(t.merges, t.contSent, t.hostSent) && (r.SendingMerged? ==> MergedFrom(t, r.m))
  }

  lemma ContainerMatchesMerging(s: State, ok: bool)
    requires MergingInv(s) && Sound(s) && HandsFit(s) && s.cont.Matching?
    ensures ReaderFits(ContainerStep(s, ok), ContainerStep(s, ok).cont)
  {
    hide Combine, LogOf, PendingSound, BusSound, Answers, WellFormed, MergedFrom;
    var n := s.cont.m.fields.replySerial;
    assert s.contSent[s.contTaken - 1] == s.cont.m;
    if n in s.merges {
      ContainerReplyMatches(s);
      if s.merges[n].hostMsg.Some? {
        RepliesCombine(ContainerStep(s, ok), s.cont.m, s.merges[n].hostMsg.value, n);
      }
    }
  }

  lemma ContainerPassesMerging(s: State, ok: bool)
    requires MergingInv(s) && !s.cont.Matching?
    ensures ReaderFits(ContainerStep(s, ok), ContainerStep(s, ok).cont)
  {
    hide MergedFrom, StoredFit;
    match s.cont
    case Waiting =>
    case Sending(_) =>
    case SendingMerged(_) =>
    case _ =>
  }

  lemma HostMatchesMerging(s: State, ok: bool)
    requires MergingInv(s) && Sound(s) && HandsFit(s) && s.host.Matching?
    ensures ReaderFits(HostStep(s, ok), HostStep(s, ok).host)
  {
    hide Combine, LogOf, PendingSound, BusSound, Answers, WellFormed, MergedFrom;
    var n := s.host.m.fields.replySerial;
    assert s.hostSent[s.hostTaken - 1] == s.host.m;
    if n in s.merges {
      HostReplyMatches(s);
      if s.merges[n].contMsg.Some? {
        RepliesCombine(HostStep(s, ok), s.merges[n].contMsg.value, s.host.m, n);
      }
    }
  }

  lemma HostAcceptsMerging(s: State, ok: bool)
    requires MergingInv(s) && (s.host.Waiting? || s.host.LookingUp?)
    ensures ReaderFits(HostStep(s, ok), HostStep(s, ok).host)
  {
    hide AcceptSignal, AcceptReply, MergedFrom, StoredFit;
    if s.host.Waiting? && s.hostTaken < |s.hostSent| {
      AcceptedIsNotMerged(s.hostSent[s.hostTaken], Pending(Swallow, []));
    }
    if s.host.LookingUp? && s.host.m.fields.replySerial in s.hostPending {
      AcceptedIsNotMerged(s.host.m, s.hostPending[s.host.m.fields.replySerial]);
    }
  }

  lemma HostPassesMerging(s: State, ok: bool)
    requires MergingInv(s) && !s.host.Matching? && !s.host.Waiting? && !s.host.LookingUp?
    ensures ReaderFits(HostStep(s, ok), HostStep(s, ok).host)
  {
    hide MergedFrom, StoredFit, Remember;
    match s.host
    case Naming(_) =>
    case Learning(_, _, _) =>
    case Sending(_) =>
    case SendingMerged(_) =>
    case _ =>
  }

  lemma ReadersKeepStored(s: State, step: Step)
    requires MergingInv(s) && Sound(s) && HandsFit(s) && (step.ContainerReads? || step.HostReads?)
    ensures ReaderFits(Next(s, step), if step.HostReads? then Next(s, step).host else Next(s, step).cont)
  {
    hide MergingInv, Sound, HandsFit, ReaderFits, ContainerStep, HostStep;
    match step
    case ContainerReads(ok) =>
      if s.cont.Matching? {
        ContainerMatchesMerging(s, ok);
      } else {
        ContainerPassesMerging(s, ok);
      }
    case HostReads(ok) =>
      match s.host {
        case Matching(_) => HostMatchesMerging(s, ok);
        case Waiting => HostAcceptsMerging(s, ok);
        case LookingUp(_) => HostAcceptsMerging(s, ok);
        case _ => HostPassesMerging(s, ok);
      }
    case _ =>
  }

  lemma RecordsKeepStored(s: State, e: Sent)
    requires StoredFit(s.merges, s.contSent, s.hostSent)
    ensures StoredFit(Note(s, e).merges, s.contSent, s.hostSent) && StoredFit(Undo(s, e).merges, s.contSent, s.hostSent)
  {
  }

  lemma DispatcherKeepsStored(s: State, ok: bool, serial: uint32)
    requires StoredFit(s.merges, s.contSent, s.hostSent)
    ensures StoredFit(DispatcherStep(s, ok, serial).merges, s.contSent, s.hostSent)
  {
    if s.disp.Noting? || s.disp.Undoing? {
      RecordsKeepStored(s, s.disp.e);
    }
    hide StoredFit, Note, Undo, UnavailableReply;
    match s.disp
    case Noting(e) =>
    case WritingHost(e) =>
    case Undoing(e) =>
    case WritingContainer(e) =>
    case Answering(e) =>
    case _ =>
  }

  lemma StoredStaysFit(s: State, t: State)
    requires StoredFit(s.merges, s.contSent, s.hostSent)
    requires t.merges == s.merges && s.contSent <= t.contSent && s.hostSent <= t.hostSent
    ensures StoredFit(t.merges, t.contSent, t.hostSent)
  {
  }

  lemma OthersKeepStored(s: State, step: Step)
    requires StoredFit(s.merges, s.contSent, s.hostSent) && !step.ContainerReads? && !step.HostReads?
    ensures StoredFit(Next(s, step).merges, Next(s, step).contSent, Next(s, step).hostSent)
  {
    ReadersStay(s, step);
    hide StoredFit, DispatcherStep, RouteOf;
    match step
    case Dispatch(ok, serial) =>
      DispatcherEffect(s, ok, serial);
      DispatcherKeepsStored(s, ok, serial);
    case _ => StoredStaysFit(s, Next(s, step));
  }

  /** Which reader a step leaves in place, and how the buses' messages grow. */
  lemma ReadersStay(s: State, step: Step)
    ensures
      var t := Next(s, step);
      && s.contSent <= t.contSent && s.hostSent <= t.hostSent
      && (!step.ContainerReads? ==> t.cont == s.cont) && (!step.HostReads? ==> t.host == s.host)
  {
    hide RouteOf, DispatcherStep, ContainerStep, HostStep;
    match step
    case Dispatch(ok, serial) => DispatcherEffect(s, ok, serial);
    case ContainerReads(ok) => ContainerEffect(s, ok);
    case HostReads(ok) => HostEffect(s, ok);
    case _ =>
  }

  lemma StepKeepsMerging(s: State, step: Step)
    requires MergingInv(s) && Sound(s) && HandsFit(s)
    ensures MergingInv(Next(s, step))
  {
    var t := Next(s, step);
    ReadersStay(s, step);
    StepHandsOne(s, step);
    if step.ContainerReads? || step.HostReads? {
      ReadersKeepStored(s, step);
    } else {
      OthersKeepStored(s, step);
    }
    hide Next, Sound, HandsFit, StoredFit, MergedFrom;
    forall m | MergedFrom(s, m) ensures MergedFrom(t, m) {
      MergedFromIsStable(s, t, m);
    }
  }

  lemma {:induction false} RunKeepsMerging(s: State, steps: seq<Step>)
    requires MergingInv(s) && Sound(s) && InOrder(s) && ValidRun(s, steps)
    ensures MergingInv(Run(s, steps))
    decreases |steps|
  {
    hide MergingInv, Sound, HandsFit, InPlace, Precedes, Next, Enabled;
    if steps != [] {
      StepKeepsSound(s, steps[0]);
      StepKeepsOrder(s, steps[0]);
      StepKeepsMerging(s, steps[0]);
      RunKeepsMerging(Next(s, steps[0]), steps[1..]);
    }
  }

  /** What a merged reply says: the united names without duplicates, the container's first, under the
      header of a return, the container's if it is one; where both buses answer with an error, the
      container's error. */
  predicate SaysUnion(m: Message, cont: Message, host: Message) {
    if cont.kind == TYPE_METHOD_RETURN || host.kind == TYPE_METHOD_RETURN then
      var base := if cont.kind == TYPE_METHOD_RETURN then cont else host;
      && Parse(m.raw) == Success(m) && m.kind == TYPE_METHOD_RETURN
      && m.serial == base.serial && m.fields == base.fields
      && m.fields.replySerial == cont.fields.replySerial == host.fields.replySerial
      && Unites(ParseNames(m), cont, host)
    else
      m == cont.(fds := [])
  }

  lemma CombinationSaysUnion(cont: Message, host: Message)
    requires ReplyTo(cont, host.fields.replySerial) && ReplyTo(host, cont.fields.replySerial)
    ensures SaysUnion(Combine(cont, host), cont, host)
  {
    hide SelfContained, Parse, Merge, Unites, ParseNames, KeptHeader;
    CombinedIsReply(cont, host, cont.fields.replySerial);
    if cont.kind == TYPE_METHOD_RETURN || host.kind == TYPE_METHOD_RETURN {
      MergedReplyReads(cont, host);
      assert Combine(cont, host) == Merge(cont, host);
    } else if Mergeable(cont, host) {
      MergedErrors(cont, host);
    }
  }

  /** The message is the client's request for a list of names, addressed to the bus itself. */
  predicate AsksForList(e: Option<Sent>) {
    && e.Some? && e.value.msg.kind != TYPE_SIGNAL && e.value.msg.fields.destination == Ascii("org.freedesktop.DBus")
    && AboutLists(e.value.msg.fields.member)
  }

  lemma AskedForList(steps: seq<Step>, n: uint32)
    requires AsksForList(LogOf(Run(Initial(true), steps).log, n))
    ensures ListCall(Run(Initial(true), steps).log, n)
  {
    hide Run, LogOf, RouteOf, FirstText, AboutName, AboutLists, AboutOwnership, AboutMatches, HostOwns, OnHost, HostRule;
    RunKeepsRouted(Initial(true), steps);
    var log := Run(Initial(true), steps).log;
    LoggedRoute(log, true, n);
    BusCallRoutes(LogOf(log, n).value.msg, true, LogOf(log, n).value.hostNames);
  }

  /** Merged name lists, end to end. In every run with a host bus, with any writes failing and either
      order of arrival, every reply that the client receives to `ListNames` or `ListActivatableNames`
      says the union of the names that one reply of each bus, to that very call, contains, if the host
      bus has received the call. Where it has not, a write has failed, and the client's reply is the one
      of the container. So without failed writes every reply to a name list call says the union. */
  lemma MergedListsReachTheClient(hostUp: bool, steps: seq<Step>, p: nat)
    requires ValidRun(Initial(hostUp), steps) && p < |Run(Initial(hostUp), steps).clientOut|
    ensures
      var s := Run(Initial(hostUp), steps);
      var o := s.clientOut[p];
      hostUp && o.msg.IsReply() && AsksForList(LogOf(s.log, o.msg.fields.replySerial)) ==>
        if LogOf(s.hostIn, o.msg.fields.replySerial).Some? then
          exists i: nat, j: nat :: Combines(s, o.msg, i, j) && SaysUnion(o.msg, s.contSent[i], s.hostSent[j])
        else
          s.failed && o.origin.FromContainer? && o.msg in s.contSent
  {
    hide Run, ValidRun, Sound, MergingInv, InOrder, Combine, SaysUnion, ReplyTo, ListCall, LogOf, AsksForList;
    SoundInitially(hostUp);
    MergingInitially(hostUp);
    RunKeepsMerging(Initial(hostUp), steps);
    ListCallsAreMerged(hostUp, steps, p);
    PerBusOrder(hostUp, steps);
    var s := Run(Initial(hostUp), steps);
    var n := s.clientOut[p].msg.fields.replySerial;
    if hostUp && AsksForList(LogOf(s.log, n)) {
      AskedForList(steps, n);
    }
    if s.clientOut[p].origin.FromBoth? {
      MergedSaysUnion(s, p);
    } else {
      assert InPlace(s, s.clientOut[p]);
    }
  }

  lemma MergingInitially(hostUp: bool)
    ensures InOrder(Initial(hostUp)) && MergingInv(Initial(hostUp))
  {
  }

  lemma MergedSaysUnion(s: State, p: nat)
    requires MergingInv(s) && p < |s.clientOut| && s.clientOut[p].origin.FromBoth?
    ensures exists i: nat, j: nat ::
      Combines(s, s.clientOut[p].msg, i, j) && SaysUnion(s.clientOut[p].msg, s.contSent[i], s.hostSent[j])
  {
    hide Combine, SaysUnion, ReplyTo, StoredFit;
    var i: nat, j: nat :| Combines(s, s.clientOut[p].msg, i, j);
    CombinationSaysUnion(s.contSent[i], s.hostSent[j]);
  }
}
