/** Which reply answers a name list call (container/dbus/router.go:425-434, 511-538).

    The entry of such a call stands before either bus has seen it. If the host bus has received the
    call, only a merged reply takes the entry away, so the container's reply always finds it, whatever
    overtakes what. If the write to the host has failed, the container's reply goes on alone. */
module ListCalls {
  import opened Bytes
  import opened Wire
  import opened Bodies
  import opened Session
  import opened Correlation
  import opened Effects
  import opened Delivery
  import opened Origins

  /** How far the dispatcher is with a message. */
  datatype Stage = Away | ToNote | ToWrite | ToUndo | Later
  {
    predicate AtHost() {
      ToNote? || ToWrite? || ToUndo?
    }
  }

  /** What matters of a session for one serial: whether it is used, and for a call to both buses; how
      far the dispatcher is with it; whether the host bus has it and how often the container bus;
      whether its entry stands, and holds the container's reply; whether the container's reply has
      been read and matched; whether a merged reply, or the container's alone, is on its way. */
  datatype View = View(
    used: bool, list: bool, stage: Stage, hostHas: bool, calls: nat, entry: bool, stored: bool,
    spent: bool, merged: bool, alone: bool, failed: bool)

  function StageOf(d: Dispatcher, n: uint32): Stage {
    if InHand(d).None? || InHand(d).value.Serial() != n then Away
    else if d.Noting? then ToNote
    else if d.WritingHost? then ToWrite
    else if d.Undoing? then ToUndo
    else Later
  }

  predicate ListCall(log: seq<Sent>, n: uint32) {
    RouteIs(LogOf(log, n), CopyMerge)
  }

  predicate Spent(s: State, n: uint32) {
    Replies(Taken(s.contSent, s.contTaken), n) >= 1 && !(s.cont.Matching? && Worth(s.cont.m, n) == 1)
  }

  predicate Merged(r: BusReader, n: uint32) {
    r.SendingMerged? && Worth(r.m, n) == 1
  }

  predicate Alone(r: BusReader, n: uint32) {
    r.Sending? && Worth(r.m, n) == 1
  }

  predicate Stored(merges: map<uint32, MergeState>, n: uint32) {
    n in merges && merges[n].contMsg.Some?
  }

  function ViewOf(s: State, n: uint32): View {
    View(LogOf(s.log, n).Some?, ListCall(s.log, n), StageOf(s.disp, n), LogOf(s.hostIn, n).Some?, Calls(s.contIn, n),
         n in s.merges, Stored(s.merges, n), Spent(s, n), Merged(s.cont, n) || Merged(s.host, n), Alone(s.cont, n), s.failed)
  }

  /** A call reaches each bus at most once, and not before the dispatcher is done with it there. The
      entry of a list call that the host has received stands until the container's reply is spent on
      it; where the host has not received it, there is none. */
  predicate ListInv(v: View) {
    && v.calls <= (if v.used && v.stage.Away? then 1 else 0)
    && (v.hostHas ==> v.used && !v.stage.AtHost())
    && (v.list ==>
          && (v.stage.ToWrite? ==> v.entry)
          && (v.hostHas ==> v.entry || v.spent)
          && (v.entry ==> v.hostHas || v.stage.AtHost())
          && (v.stored ==> v.hostHas && v.spent)
          && (v.merged ==> v.hostHas)
          && (v.alone ==> !v.hostHas && !v.stage.AtHost())
          && (v.failed || v.hostHas || v.stage.AtHost()))
  }

  predicate Answered(s: State, n: uint32) {
    (s.cont.Matching? || s.cont.Sending?) && Worth(s.cont.m, n) == 1
  }

  lemma AloneAnswers(s: State, n: uint32)
    ensures Alone(s.cont, n) ==> Answered(s, n)
  {
  }

  lemma InHandIsTaken(s: State, n: uint32)
    requires HandsFit(s) && Answered(s, n)
    ensures Replies(Taken(s.contSent, s.contTaken), n) >= 1
  {
    TakenAppend(s.contSent, s.contTaken - 1, n);
    hide Replies;
  }

  /** Before the dispatcher is done with a message, the container has not answered it. */
  lemma NotAnsweredYet(s: State, n: uint32)
    requires Sound(s) && HandsFit(s) && Calls(s.contIn, n) == 0
    ensures !Answered(s, n) && !Spent(s, n)
  {
    RepliesOfPrefix(s.contSent, s.contTaken, n);
    if Answered(s, n) {
      InHandIsTaken(s, n);
    }
    assert Replies(s.contSent, n) <= Calls(s.contIn, n);
    hide LogOf, Calls, Replies, PendingSound, MergesSound, ReaderSound, DispatcherSound, HandsFit, Answered, WellFormed;
  }

  /** A reply that has been spent is not followed by another one. */
  lemma NoSecondReply(s: State, n: uint32)
    requires Sound(s) && Calls(s.contIn, n) <= 1 && Spent(s, n) && s.contTaken < |s.contSent|
    ensures Worth(s.contSent[s.contTaken], n) == 0
  {
    TakenAppend(s.contSent, s.contTaken, n);
    RepliesOfPrefix(s.contSent, s.contTaken + 1, n);
    assert Replies(s.contSent, n) <= Calls(s.contIn, n);
    hide LogOf, Calls, Replies, PendingSound, MergesSound, ReaderSound, DispatcherSound, WellFormed;
  }

  lemma MergesAreUsed(s: State, n: uint32)
    requires Sound(s) && OriginInv(s)
    ensures Merged(s.cont, n) || Merged(s.host, n) || n in s.merges ==> LogOf(s.log, n).Some?
  {
    hide LogOf, PendingSound, BusSound, Answers, ReaderSound, MergeSound;
  }

  /** The two readers and the logs, as far as a serial is concerned. */
  predicate SameReaders(s: State, t: State, n: uint32) {
    && t.log == s.log && Spent(t, n) == Spent(s, n) && Alone(t.cont, n) == Alone(s.cont, n)
    && Merged(t.cont, n) == Merged(s.cont, n) && Merged(t.host, n) == Merged(s.host, n)
    && (s.failed ==> t.failed)
  }

  lemma DispatcherLeavesReaders(s: State, ok: bool, serial: uint32, n: uint32)
    ensures SameReaders(s, DispatcherStep(s, ok, serial), n)
  {
    DispatcherEffect(s, ok, serial);
    hide DispatcherStep, Replies, Taken, Worth;
  }

  lemma SameBuses(s: State, t: State, n: uint32)
    requires t.contSent == s.contSent && t.contTaken == s.contTaken && t.cont == s.cont
    ensures Spent(t, n) == Spent(s, n)
  {
  }

  lemma ClientKeepsList(s: State, m: Message, n: uint32)
    requires Sound(s) && HandsFit(s) && OriginInv(s) && ListInv(ViewOf(s, n)) && Enabled(s, ClientSends(m))
    ensures ListInv(ViewOf(Next(s, ClientSends(m)), n))
  {
    hide Sound, HandsFit, OriginInv, Merged, Alone, Spent, LogOf, RouteOf, Calls, Worth;
    var t := Next(s, ClientSends(m));
    LogAppend(s.log, Sent(m, RouteOf(m, s.hostUp, s.hostNames), s.hostNames), n);
    SameBuses(s, t, n);
    MergesAreUsed(s, n);
    if n == m.serial {
      NotAnsweredYet(s, n);
      AloneAnswers(s, n);
    }
  }

  lemma WorkedOn(s: State)
    requires Sound(s) && InHand(s.disp).Some?
    ensures LogOf(s.log, InHand(s.disp).value.Serial()) == InHand(s.disp) && DispatcherSound(s)
  {
  }

  lemma NotingKeepsList(s: State, ok: bool, serial: uint32, n: uint32)
    requires Sound(s) && ListInv(ViewOf(s, n)) && s.disp.Noting?
    ensures ListInv(ViewOf(DispatcherStep(s, ok, serial), n))
  {
    hide Sound, LogOf, Calls, Spent, Merged, Alone, Worth;
    DispatcherLeavesReaders(s, ok, serial, n);
    WorkedOn(s);
  }

  lemma UndoingKeepsList(s: State, ok: bool, serial: uint32, n: uint32)
    requires Sound(s) && ListInv(ViewOf(s, n)) && s.disp.Undoing?
    ensures ListInv(ViewOf(DispatcherStep(s, ok, serial), n))
  {
    hide Sound, LogOf, Calls, Spent, Merged, Alone, Worth;
    DispatcherLeavesReaders(s, ok, serial, n);
    WorkedOn(s);
  }

  lemma HostWriteKeepsList(s: State, ok: bool, serial: uint32, n: uint32)
    requires Sound(s) && HandsFit(s) && ListInv(ViewOf(s, n)) && s.disp.WritingHost?
    ensures ListInv(ViewOf(DispatcherStep(s, ok, serial), n))
  {
    hide Sound, HandsFit, LogOf, Calls, Spent, Merged, Alone, Worth;
    DispatcherLeavesReaders(s, ok, serial, n);
    WorkedOn(s);
    LogAppend(s.hostIn, s.disp.e, n);
    if s.disp.e.Serial() == n {
      NotAnsweredYet(s, n);
    }
  }

  lemma ContainerWriteKeepsList(s: State, ok: bool, serial: uint32, n: uint32)
    requires Sound(s) && ListInv(ViewOf(s, n)) && s.disp.WritingContainer?
    ensures ListInv(ViewOf(DispatcherStep(s, ok, serial), n))
  {
    hide Sound, LogOf, Calls, Spent, Merged, Alone, Worth;
    DispatcherLeavesReaders(s, ok, serial, n);
    WorkedOn(s);
    CallsAppend(s.contIn, s.disp.e, n);
  }

  lemma AnswerKeepsList(s: State, ok: bool, serial: uint32, n: uint32)
    requires Sound(s) && ListInv(ViewOf(s, n)) && s.disp.Answering?
    ensures ListInv(ViewOf(DispatcherStep(s, ok, serial), n))
  {
    hide Sound, LogOf, Calls, Spent, Merged, Alone, Worth, UnavailableReply;
    DispatcherLeavesReaders(s, ok, serial, n);
    WorkedOn(s);
  }

  lemma DispatcherKeepsList(s: State, ok: bool, serial: uint32, n: uint32)
    requires Sound(s) && HandsFit(s) && ListInv(ViewOf(s, n))
    ensures ListInv(ViewOf(DispatcherStep(s, ok, serial), n))
  {
    hide Sound, HandsFit, ListInv, ViewOf;
    match s.disp
    case Noting(_) => NotingKeepsList(s, ok, serial, n);
    case Undoing(_) => UndoingKeepsList(s, ok, serial, n);
    case WritingHost(_) => HostWriteKeepsList(s, ok, serial, n);
    case WritingContainer(_) => ContainerWriteKeepsList(s, ok, serial, n);
    case Answering(_) => AnswerKeepsList(s, ok, serial, n);
    case _ =>
  }

  /** The dispatcher's side of the session, as far as a serial is concerned. */
  predicate SameDispatcher(s: State, t: State) {
    t.log == s.log && t.disp == s.disp && t.hostIn == s.hostIn && t.contIn == s.contIn && (s.failed ==> t.failed)
  }

  lemma ReadersLeaveDispatcher(s: State, ok: bool)
    ensures SameDispatcher(s, ContainerStep(s, ok)) && SameDispatcher(s, HostStep(s, ok))
  {
    ContainerEffect(s, ok);
    HostEffect(s, ok);
    hide ContainerStep, HostStep;
  }

  lemma ContainerTakesList(s: State, ok: bool, n: uint32)
    requires Sound(s) && ListInv(ViewOf(s, n)) && s.cont.Waiting?
    ensures ListInv(ViewOf(ContainerStep(s, ok), n))
  {
    hide Sound, LogOf, Calls, Replies, StageOf;
    if s.contTaken < |s.contSent| {
      TakenAppend(s.contSent, s.contTaken, n);
      if Spent(s, n) {
        NoSecondReply(s, n);
      }
    }
  }

  lemma ContainerMatchesList(s: State, ok: bool, n: uint32)
    requires Sound(s) && HandsFit(s) && ListInv(ViewOf(s, n)) && s.cont.Matching?
    ensures ListInv(ViewOf(ContainerStep(s, ok), n))
  {
    hide Sound, HandsFit, LogOf, Calls, Replies, Taken, StageOf, Combine, Received, SelfContained;
    ReadersLeaveDispatcher(s, ok);
    if s.cont.m.fields.replySerial in s.merges {
      ContainerReplyMatches(s);
    }
    if Answered(s, n) {
      InHandIsTaken(s, n);
    }
    if Calls(s.contIn, n) == 0 {
      NotAnsweredYet(s, n);
    }
  }

  lemma ContainerSendsList(s: State, ok: bool, n: uint32)
    requires ListInv(ViewOf(s, n)) && (s.cont.Sending? || s.cont.SendingMerged?)
    ensures ListInv(ViewOf(ContainerStep(s, ok), n))
  {
    hide LogOf, Calls, Replies, Taken, StageOf;
    ReadersLeaveDispatcher(s, ok);
  }

  lemma ContainerKeepsList(s: State, ok: bool, n: uint32)
    requires Sound(s) && HandsFit(s) && ListInv(ViewOf(s, n))
    ensures ListInv(ViewOf(ContainerStep(s, ok), n))
  {
    hide Sound, HandsFit, ListInv, ViewOf;
    match s.cont
    case Matching(_) => ContainerMatchesList(s, ok, n);
    case Sending(_) => ContainerSendsList(s, ok, n);
    case SendingMerged(_) => ContainerSendsList(s, ok, n);
    case Waiting => ContainerTakesList(s, ok, n);
    case _ =>
  }

  lemma HostLeavesContainer(s: State, ok: bool, n: uint32)
    ensures Spent(HostStep(s, ok), n) == Spent(s, n) && HostStep(s, ok).cont == s.cont
  {
    HostEffect(s, ok);
    hide HostStep, Replies, Taken;
  }

  lemma HostMatchesList(s: State, ok: bool, n: uint32)
    requires Sound(s) && ListInv(ViewOf(s, n)) && s.host.Matching?
    ensures ListInv(ViewOf(HostStep(s, ok), n))
  {
    hide Sound, LogOf, Calls, Spent, StageOf, Alone, Combine, MergeFits, ReplyTo;
    ReadersLeaveDispatcher(s, ok);
    HostLeavesContainer(s, ok, n);
    if s.host.m.fields.replySerial in s.merges {
      HostReplyMatches(s);
    }
  }

  /** The other steps of the host reader do not touch the entries. */
  lemma HostPasses(s: State, ok: bool)
    requires !s.host.Matching?
    ensures HostStep(s, ok).merges == s.merges
  {
    hide AcceptSignal, AcceptReply, Remember;
    match s.host
    case Waiting =>
    case LookingUp(_) =>
    case Naming(_) =>
    case Learning(_, _, _) =>
    case Sending(_) =>
    case SendingMerged(_) =>
    case _ =>
  }

  lemma HostMergesNothing(s: State, ok: bool)
    requires !s.host.Matching?
    ensures !HostStep(s, ok).host.SendingMerged?
  {
    hide AcceptSignal, AcceptReply, Remember;
    match s.host
    case Waiting =>
      if s.hostTaken < |s.hostSent| {
        AcceptedIsNotMerged(s.hostSent[s.hostTaken], Pending(Swallow, []));
      }
    case LookingUp(m) =>
      if m.fields.replySerial in s.hostPending {
        AcceptedIsNotMerged(m, s.hostPending[m.fields.replySerial]);
      }
    case Naming(_) =>
    case Learning(_, _, _) =>
    case Sending(_) =>
    case SendingMerged(_) =>
    case _ =>
  }

  lemma HostPassesList(s: State, ok: bool, n: uint32)
    requires ListInv(ViewOf(s, n)) && !s.host.Matching?
    ensures ListInv(ViewOf(HostStep(s, ok), n))
  {
    hide HostStep, LogOf, Calls, Spent, StageOf, Worth, Stored, Alone;
    ReadersLeaveDispatcher(s, ok);
    HostLeavesContainer(s, ok, n);
    HostPasses(s, ok);
    HostMergesNothing(s, ok);
  }

  /** A bus puts a message on its connection; nothing has been taken from it. */
  lemma BusesKeepList(s: State, step: Step, n: uint32)
    requires Sound(s) && ListInv(ViewOf(s, n)) && (step.ContainerSends? || step.HostSends?)
    ensures ListInv(ViewOf(Next(s, step), n))
  {
    hide PendingSound, MergesSound, Answers, ReaderSound, LogOf, Calls, Replies, WellFormed, StageOf;
    if step.ContainerSends? {
      assert (s.contSent + [step.m])[..s.contTaken] == s.contSent[..s.contTaken];
    }
  }

  lemma StepKeepsList(s: State, step: Step, n: uint32)
    requires Sound(s) && HandsFit(s) && OriginInv(s) && ListInv(ViewOf(s, n)) && Enabled(s, step)
    ensures ListInv(ViewOf(Next(s, step), n))
  {
    hide Sound, HandsFit, OriginInv, ListInv, ViewOf, DispatcherStep, ContainerStep, HostStep, RouteOf, WellFormed, MayAnswer;
    match step
    case ClientSends(m) => ClientKeepsList(s, m, n);
    case Dispatch(ok, serial) => DispatcherKeepsList(s, ok, serial, n);
    case ContainerReads(ok) => ContainerKeepsList(s, ok, n);
    case HostReads(ok) =>
      if s.host.Matching? {
        HostMatchesList(s, ok, n);
      } else {
        HostPassesList(s, ok, n);
      }
    case ContainerSends(_) => BusesKeepList(s, step, n);
    case HostSends(_) => BusesKeepList(s, step, n);
  }

  /** A reply to a list call is merged if the host bus has the call, and the container's own if it
      never gets it, which takes a failed write. */
  predicate OutDecided(v: View, origin: Origin) {
    v.list ==> if v.hostHas then origin.FromBoth? else origin.FromContainer? && v.failed && !v.stage.AtHost()
  }

  predicate OutFollows(s: State, o: Out) {
    o.msg.IsReply() ==> OutDecided(ViewOf(s, o.msg.fields.replySerial), o.origin)
  }

  /** What a step hands to the client follows the rule: it is not the router's answer, by its route;
      not the host's own reply, of which only forwarded ones are delivered. */
  lemma HandedFollows(s: State, step: Step, o: Out)
    requires Hands(s, step, o) && ListInv(ViewOf(s, o.msg.fields.replySerial)) && OutFits(s.log, o)
    ensures OutFollows(s, o)
  {
    hide LogOf, Calls, Spent, StageOf, UnavailableReply;
  }

  /** What stays of a used serial: its route; that the host has it; that the host never gets it. */
  predicate ViewMoves(v: View, w: View) {
    && (v.used ==> w.used && w.list == v.list)
    && (v.hostHas ==> w.hostHas)
    && (v.used && !v.hostHas && !v.stage.AtHost() ==> !w.hostHas && !w.stage.AtHost())
    && (v.failed ==> w.failed)
  }

  lemma ClientMovesView(s: State, m: Message, n: uint32)
    requires Enabled(s, ClientSends(m))
    ensures ViewMoves(ViewOf(s, n), ViewOf(Next(s, ClientSends(m)), n))
  {
    hide Merged, Alone, Stored, Spent, LogOf, RouteOf, Calls;
    LogAppend(s.log, Sent(m, RouteOf(m, s.hostUp, s.hostNames), s.hostNames), n);
  }

  lemma HostReceivesAtMost(s: State, ok: bool, serial: uint32)
    ensures
      var t := DispatcherStep(s, ok, serial);
      t.hostIn == s.hostIn || (s.disp.WritingHost? && t.hostIn == s.hostIn + [s.disp.e])
  {
    hide UnavailableReply;
  }

  lemma StageAdvances(s: State, ok: bool, serial: uint32, n: uint32)
    ensures !StageOf(s.disp, n).AtHost() ==> !StageOf(DispatcherStep(s, ok, serial).disp, n).AtHost()
  {
    hide UnavailableReply;
  }

  lemma DispatcherMovesView(s: State, ok: bool, serial: uint32, n: uint32)
    ensures ViewMoves(ViewOf(s, n), ViewOf(DispatcherStep(s, ok, serial), n))
  {
    hide DispatcherStep, Merged, Alone, Stored, Spent, LogOf, Calls;
    DispatcherLeavesReaders(s, ok, serial, n);
    HostReceivesAtMost(s, ok, serial);
    StageAdvances(s, ok, serial, n);
    if s.disp.WritingHost? {
      LogAppend(s.hostIn, s.disp.e, n);
    }
  }

  lemma StepMovesView(s: State, step: Step, n: uint32)
    requires Enabled(s, step)
    ensures ViewMoves(ViewOf(s, n), ViewOf(Next(s, step), n))
  {
    hide DispatcherStep, ContainerStep, HostStep, LogOf, Calls, Spent, Merged, Alone, Stored, StageOf, RouteOf, WellFormed, MayAnswer;
    match step
    case ClientSends(m) => ClientMovesView(s, m, n);
    case Dispatch(ok, serial) => DispatcherMovesView(s, ok, serial, n);
    case ContainerReads(ok) => ReadersLeaveDispatcher(s, ok);
    case HostReads(ok) => ReadersLeaveDispatcher(s, ok);
    case ContainerSends(_) =>
    case HostSends(_) =>
  }

  ghost predicate ListsDecided(s: State) {
    && (forall n :: ListInv(ViewOf(s, n)))
    && forall p :: 0 <= p < |s.clientOut| ==> OutFollows(s, s.clientOut[p])
  }

  lemma OutFollowsOn(s: State, step: Step, o: Out)
    requires Enabled(s, step) && OutFollows(s, o) && OutFits(s.log, o)
    ensures OutFollows(Next(s, step), o)
  {
    hide Next, Enabled, LogOf, Calls, Spent, Merged, Alone, Stored, StageOf;
    StepMovesView(s, step, o.msg.fields.replySerial);
  }

  lemma StepKeepsDecided(s: State, step: Step)
    requires Sound(s) && HandsFit(s) && OriginInv(s) && OriginInv(Next(s, step)) && ListsDecided(s) && Enabled(s, step)
    ensures ListsDecided(Next(s, step))
  {
    hide Next, Sound, HandsFit, Enabled, ListInv, ViewOf, OutFollows, Hands, LogOf;
    var t := Next(s, step);
    forall n ensures ListInv(ViewOf(t, n)) {
      assert ListInv(ViewOf(s, n));
      StepKeepsList(s, step, n);
    }
    forall p | 0 <= p < |s.clientOut| ensures OutFollows(t, s.clientOut[p]) {
      assert OutFits(s.log, s.clientOut[p]) && OutFollows(s, s.clientOut[p]);
      OutFollowsOn(s, step, s.clientOut[p]);
    }
    StepHandsOne(s, step);
    if t.clientOut != s.clientOut {
      var o :| t.clientOut == s.clientOut + [o] && Hands(s, step, o);
      assert t.clientOut[|s.clientOut|] == o && OutFits(t.log, o);
      HandingLogsNothing(s, step, o);
      assert ListInv(ViewOf(s, o.msg.fields.replySerial));
      HandedFollows(s, step, o);
      OutFollowsOn(s, step, o);
    }
  }

  lemma HandingLogsNothing(s: State, step: Step, o: Out)
    requires Hands(s, step, o)
    ensures Next(s, step).log == s.log
  {
    hide DispatcherStep, ContainerStep, HostStep;
    match step
    case Dispatch(ok, serial) => DispatcherEffect(s, ok, serial);
    case ContainerReads(ok) => ContainerEffect(s, ok);
    case HostReads(ok) => HostEffect(s, ok);
    case _ =>
  }

  lemma {:induction false} RunKeepsDecided(s: State, steps: seq<Step>)
    requires Sound(s) && InOrder(s) && OriginInv(s) && ListsDecided(s) && ValidRun(s, steps)
    ensures ListsDecided(Run(s, steps))
    decreases |steps|
  {
    hide Sound, HandsFit, InPlace, Precedes, OriginInv, ListsDecided, Next, Enabled;
    if steps != [] {
      StepKeepsSound(s, steps[0]);
      StepKeepsOrder(s, steps[0]);
      StepKeepsOrigins(s, steps[0]);
      StepKeepsDecided(s, steps[0]);
      RunKeepsDecided(Next(s, steps[0]), steps[1..]);
    }
  }

  lemma ListsInitially(hostUp: bool)
    ensures InOrder(Initial(hostUp)) && OriginInv(Initial(hostUp)) && ListsDecided(Initial(hostUp))
  {
  }

  /** Which reply answers a name list call, in every run: with any writes failing, any behaviour of
      the host bus and either order of arrival, the client's reply is the merged one if and only if
      the host bus has received the call. Otherwise it is the container's own, and the write to the
      host has failed; so without failed writes it is always the merged one. */
  lemma ListCallsAreMerged(hostUp: bool, steps: seq<Step>, p: nat)
    requires ValidRun(Initial(hostUp), steps) && p < |Run(Initial(hostUp), steps).clientOut|
    ensures
      var s := Run(Initial(hostUp), steps);
      var o := s.clientOut[p];
      o.msg.IsReply() && ListCall(s.log, o.msg.fields.replySerial) ==>
        && (o.origin.FromBoth? <==> LogOf(s.hostIn, o.msg.fields.replySerial).Some?)
        && (!o.origin.FromBoth? ==> o.origin.FromContainer? && s.failed)
  {
    hide Run, ValidRun, Sound, InOrder, OriginInv, ListInv;
    SoundInitially(hostUp);
    ListsInitially(hostUp);
    RunKeepsDecided(Initial(hostUp), steps);
    var s := Run(Initial(hostUp), steps);
    assert OutFollows(s, s.clientOut[p]);
  }
}
