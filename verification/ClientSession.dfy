/** The session object and its methods as the code has them (container/dbus/router.go:135-148,
    276-538), proved against the step system: run without interruption, each method is a run of
    its thread, and leaves the maps, the byte streams and the descriptors as that run does. The
    calls of `Act` and `Read` stand where one critical section or write ends and another thread
    may go on. */
module ClientSessions {
  import opened Bytes
  import opened Wrappers
  import opened Wire
  import opened Bodies
  import opened Texts
  import opened Merging
  import opened ErrorReply
  import opened Reader
  import opened Rules
  import opened Session
  import opened Correlation
  import opened Effects
  import opened FdLedger
  import opened Descriptors
  import opened Forwarding
  import opened Routing

  /** The bytes of the messages that an endpoint has received. */
  function SentBytes(es: seq<Sent>): seq<byte>
    decreases |es|
  {
    if es == [] then [] else SentBytes(es[..|es| - 1]) + es[|es| - 1].msg.raw
  }

  function OutBytes(outs: seq<Out>): seq<byte>
    decreases |outs|
  {
    if outs == [] then [] else OutBytes(outs[..|outs| - 1]) + outs[|outs| - 1].msg.raw
  }

  lemma SentBytesAppend(es: seq<Sent>, e: Sent)
    ensures SentBytes(es + [e]) == SentBytes(es) + e.msg.raw
  {
    assert (es + [e])[..|es|] == es;
  }

  lemma OutBytesAppend(outs: seq<Out>, o: Out)
    ensures OutBytes(outs + [o]) == OutBytes(outs) + o.msg.raw
  {
    assert (outs + [o])[..|outs|] == outs;
  }

  lemma {:induction false} RunAppend(s: State, steps: seq<Step>, step: Step)
    ensures Run(s, steps + [step]) == Next(Run(s, steps), step)
    ensures ValidRun(s, steps) && Enabled(Run(s, steps), step) ==> ValidRun(s, steps + [step])
    decreases |steps|
  {
    hide Next, Enabled;
    if steps == [] {
      assert (steps + [step])[1..] == [];
    } else {
      assert (steps + [step])[1..] == steps[1..] + [step];
      RunAppend(Next(s, steps[0]), steps[1..], step);
    }
  }

  lemma {:induction false} LedgerRunAppend(s: State, steps: seq<Step>, dups: seq<seq<Fd>>, l: Ledger, step: Step, d: seq<Fd>)
    requires |dups| == |steps|
    ensures LedgerRun(s, steps + [step], dups + [d], l) == LedgerNext(Run(s, steps), step, LedgerRun(s, steps, dups, l), d)
    decreases |steps|
  {
    hide Next, LedgerNext;
    if steps == [] {
      assert (steps + [step])[1..] == [] && (dups + [d])[1..] == [];
    } else {
      assert (steps + [step])[1..] == steps[1..] + [step] && (dups + [d])[1..] == dups[1..] + [d];
      LedgerRunAppend(Next(s, steps[0]), steps[1..], dups[1..], LedgerNext(s, steps[0], l, dups[0]), step, d);
    }
  }

  datatype Thread = TheDispatcher | TheContainerReader | TheHostReader | TheOutside

  function By(step: Step): Thread {
    match step
    case Dispatch(_, _) => TheDispatcher
    case ContainerReads(_) => TheContainerReader
    case HostReads(_) => TheHostReader
    case _ => TheOutside
  }

  /** A valid run is continued, by steps of one thread only. */
  ghost predicate Continues(hostUp: bool, before: seq<Step>, after: seq<Step>, who: Thread) {
    && before <= after
    && (forall i :: |before| <= i < |after| ==> By(after[i]) == who)
    && (ValidRun(Initial(hostUp), before) ==> ValidRun(Initial(hostUp), after))
  }

  /** What a turn of one thread leaves alone. */
  predicate OthersSame(s: State, t: State, who: Thread) {
    match who
    case TheDispatcher => ContainerSideSame(s, t) && HostSideSame(s, t) && t.log == s.log && t.hostNames == s.hostNames
    case TheContainerReader => ClientSideSame(s, t) && HostSideSame(s, t) && t.contSent == s.contSent
    case TheHostReader => ClientSideSame(s, t) && ContainerSideSame(s, t) && t.hostSent == s.hostSent
    case TheOutside => true
  }

  /** One thread went on alone, from one run and state to another. */
  ghost predicate Turn(hostUp: bool, before: seq<Step>, s: State, after: seq<Step>, t: State, who: Thread) {
    Continues(hostUp, before, after, who) && OthersSame(s, t, who)
  }

  function ThreadOf(from: Target): Thread {
    match from
    case Container => TheContainerReader
    case Host => TheHostReader
  }

  function ReaderOf(s: State, from: Target): BusReader {
    match from
    case Container => s.cont
    case Host => s.host
  }

  function ReaderStep(s: State, from: Target, ok: bool): State {
    match from
    case Container => ContainerStep(s, ok)
    case Host => HostStep(s, ok)
  }

  function ReaderLedger(s: State, from: Target, t: State, l: Ledger): Ledger {
    match from
    case Container => ContainerLedger(s, l)
    case Host => HostLedger(s, t, l)
  }

  /** The messages of a bus, and how many of them its reader has taken. */
  predicate Offers(s: State, from: Target, msg: Message) {
    match from
    case Container => s.cont.Waiting? && s.contTaken < |s.contSent| && s.contSent[s.contTaken] == msg
    case Host => s.host.Waiting? && s.hostTaken < |s.hostSent| && s.hostSent[s.hostTaken] == msg
  }

  function Arrival(from: Target, msg: Message): Step {
    match from
    case Container => ContainerSends(msg)
    case Host => HostSends(msg)
  }

  function TakenFrom(s: State, from: Target): nat {
    match from
    case Container => s.contTaken
    case Host => s.hostTaken
  }

  /** The reader of a message that has just been taken. */
  function Accepted(msg: Message, from: Target): BusReader {
    if msg.IsReply() then Matching(msg) else if from == Host then AcceptSignal(msg) else Sending(msg)
  }

  /** What a waiting reader has still to close of the message it was given. */
  function Unclosed(r: BusReader, msg: Message): seq<Fd> {
    if r.Waiting? then msg.fds else []
  }

  lemma NoTurn(hostUp: bool, a: seq<Step>, s: State, who: Thread)
    ensures Turn(hostUp, a, s, a, s, who)
  {
  }

  lemma TurnsCompose(hostUp: bool, a: seq<Step>, s: State, b: seq<Step>, t: State, c: seq<Step>, u: State, who: Thread)
    requires Turn(hostUp, a, s, b, t, who) && Turn(hostUp, b, t, c, u, who)
    ensures Turn(hostUp, a, s, c, u, who)
  {
    hide ValidRun;
  }

  lemma StepLeavesOthers(s: State, step: Step)
    ensures Next(s, step).hostUp == s.hostUp && OthersSame(s, Next(s, step), By(step))
  {
    hide RouteOf, DispatcherStep, ContainerStep, HostStep;
    match step
    case Dispatch(ok, serial) => DispatcherEffect(s, ok, serial);
    case ContainerReads(ok) => ContainerEffect(s, ok);
    case HostReads(ok) => HostEffect(s, ok);
    case _ =>
  }

  class ClientSession {
    const hostConn: bool
    var hostPending: map<uint32, Pending>
    var merges: map<uint32, MergeState>
    var hostUniqueNames: set<Text>
    var hostUniqueName: Text
    var serialCounter: uint32

    // What has been written to the three sockets, and the descriptors closed so far.
    var containerStream: seq<byte>
    var hostStream: seq<byte>
    var clientStream: seq<byte>
    var closedFds: seq<Fd>

    // The run of the step system that has been made so far, and where it has led.
    ghost var trace: seq<Step>
    ghost var duplicated: seq<seq<Fd>>
    ghost var state: State
    ghost var ledger: Ledger

    ghost predicate OnTrack()
      reads `trace, `duplicated, `state, `ledger
    {
      && |duplicated| == |trace|
      && state == Run(Initial(hostConn), trace)
      && ledger == LedgerRun(Initial(hostConn), trace, duplicated, NO_DESCRIPTORS)
      && state.hostUp == hostConn
    }

    /** The fields are those of the run's state. `owed` are closes that the run has made and the
        code has not yet. */
    ghost predicate Matches(owed: seq<Fd>)
      reads this
    {
      && hostPending == state.hostPending && merges == state.merges
      && hostUniqueNames == state.hostNames && hostUniqueName == state.hostName
      && containerStream == SentBytes(state.contIn)
      && hostStream == SentBytes(state.hostIn)
      && clientStream == OutBytes(state.clientOut)
      && ledger.closed == closedFds + owed
    }

    /** The stored replies are messages that a reader has returned. */
    ghost predicate StoresReceived()
      reads `merges
    {
      forall n :: n in merges ==>
        && (merges[n].contMsg.Some? ==> Received(merges[n].contMsg.value))
        && (merges[n].hostMsg.Some? ==> Received(merges[n].hostMsg.value))
    }

    ghost predicate Valid(owed: seq<Fd>)
      reads this
    {
      OnTrack() && Matches(owed) && StoresReceived()
    }

    constructor (hostUp: bool, counter: uint32)
      ensures Valid([]) && trace == [] && hostConn == hostUp
    {
      hostConn := hostUp;
      hostPending, merges, hostUniqueNames, hostUniqueName := map[], map[], {}, [];
      serialCounter := counter;
      containerStream, hostStream, clientStream, closedFds := [], [], [], [];
      trace, duplicated, state, ledger := [], [], Initial(hostUp), NO_DESCRIPTORS;
    }

    /** The end of a critical section or write: the run makes one step. */
    ghost method Tick(step: Step, dups: seq<Fd>)
      requires OnTrack()
      modifies `trace, `duplicated, `state, `ledger
      ensures OnTrack()
      ensures trace == old(trace) + [step] && state == Next(old(state), step)
      ensures ledger == LedgerNext(old(state), step, old(ledger), dups)
      ensures Enabled(old(state), step) ==> Turn(hostConn, old(trace), old(state), trace, state, By(step))
    {
      hide Next, Enabled, LedgerNext, Run, ValidRun, LedgerRun, OthersSame;
      RunAppend(Initial(hostConn), trace, step);
      LedgerRunAppend(Initial(hostConn), trace, duplicated, NO_DESCRIPTORS, step, dups);
      StepLeavesOthers(state, step);
      ledger := LedgerNext(state, step, ledger, dups);
      state := Next(state, step);
      trace := trace + [step];
      duplicated := duplicated + [dups];
    }

    method NextSerial() returns (serial: uint32)
      modifies `serialCounter
      ensures serial == serialCounter == Wrap(old(serialCounter) + 1)
    {
      serialCounter := Wrap(serialCounter + 1);
      serial := serialCounter;
    }

    /** `CloseFDs`; the result is the message as it is left. */
    method CloseFDs(msg: Message) returns (left: Message)
      modifies `closedFds
      ensures closedFds == old(closedFds) + msg.fds && left == msg.(fds := [])
      ensures old(Matches(msg.fds)) ==> Matches([])
    {
      hide SentBytes, OutBytes;
      var i := 0;
      while i < |msg.fds|
        invariant i <= |msg.fds| && closedFds == old(closedFds) + msg.fds[..i]
      {
        closedFds := closedFds + [msg.fds[i]];
        i := i + 1;
      }
      left := msg.(fds := []);
    }

    method WriteContainer(msg: Message) returns (ok: bool)
      modifies `containerStream
      ensures containerStream == if ok then old(containerStream) + msg.raw else old(containerStream)
    {
      ok := *;
      if ok {
        containerStream := containerStream + msg.raw;
      }
    }

    method WriteHost(msg: Message) returns (ok: bool)
      modifies `hostStream
      ensures hostStream == if ok then old(hostStream) + msg.raw else old(hostStream)
    {
      ok := *;
      if ok {
        hostStream := hostStream + msg.raw;
      }
    }

    method SendToClient(msg: Message) returns (ok: bool)
      modifies `clientStream
      ensures clientStream == if ok then old(clientStream) + msg.raw else old(clientStream)
    {
      ok := *;
      if ok {
        clientStream := clientStream + msg.raw;
      }
    }

    method RouteByName(destination: Text) returns (target: Target)
      ensures target == RouteName(destination, hostUniqueNames)
    {
      if destination == [] {
        return Container;
      }
      if RouteDestination(destination) == Host {
        return Host;
      }
      if RouteOwnership(destination) == Host {
        return Host;
      }
      return if destination in hostUniqueNames then Host else Container;
    }

    // The dispatcher.

    /** What a dispatched message adds to the bus streams. A copy to the host may fail unnoticed. */
    predicate Streams(msg: Message, route: Route, ok: bool, container: seq<byte>, host: seq<byte>)
      reads `containerStream, `hostStream
    {
      && containerStream == (if ok && route.ReachesContainer() then container + msg.raw else container)
      && (hostStream == host || (route.ReachesHost() && hostStream == host + msg.raw))
      && (ok && route.ToHost? ==> hostStream == host + msg.raw)
    }

    /** The same by the message itself: what the host alone receives, what both buses receive, and what
        the container alone receives, under the names learned by then. */
    ghost predicate Shared(msg: Message, ok: bool, learned: set<Text>, container: seq<byte>, host: seq<byte>)
      reads this
    {
      var alone := hostConn && HostAlone(msg, learned);
      && containerStream == (if ok && !alone && (hostConn || !NeedsHost(msg, learned)) then container + msg.raw else container)
      && (hostStream == host || (hostConn && (alone || BothGet(msg)) && hostStream == host + msg.raw))
      && (ok && alone ==> hostStream == host + msg.raw)
    }

    lemma StreamsAreShared(msg: Message, ok: bool, learned: set<Text>, container: seq<byte>, host: seq<byte>)
      requires Streams(msg, RouteOf(msg, hostConn, learned), ok, container, host)
      ensures Shared(msg, ok, learned, container, host)
    {
      hide RouteOf, HostAlone, BothGet, NeedsHost;
      RoutesMean(msg, hostConn, learned);
    }

    /** The dispatcher's next step, between two of which the other threads may run. */
    ghost method Act(ok: bool, serial: uint32, dups: seq<Fd>)
      requires OnTrack() && InHand(state.disp).Some?
      modifies `trace, `duplicated, `state, `ledger
      ensures OnTrack() && state == DispatcherStep(old(state), ok, serial)
      ensures ledger == DispatcherLedger(old(state), state, old(ledger), dups)
      ensures Turn(hostConn, old(trace), old(state), trace, state, TheDispatcher)
    {
      hide Turn, DispatcherStep, DispatcherLedger, OnTrack, Run, LedgerRun;
      Tick(Dispatch(ok, serial), dups);
    }

    /** What a dispatched message adds to the client stream: an error, if its bus is missing. */
    predicate Refused(msg: Message, route: Route, ok: bool, client: seq<byte>)
      reads `clientStream, `serialCounter
    {
      clientStream == if ok && route.Unavailable? then client + UnavailableReply(msg, serialCounter).raw else client
    }

    /** The last write of a message, to the container. */
    method Deliver(msg: Message) returns (ok: bool)
      requires Valid([]) && state.disp.WritingContainer? && state.disp.e.msg == msg
      modifies `containerStream, `trace, `duplicated, `state, `ledger
      ensures Valid(msg.fds) && state.disp == if ok then Idle else Halted
      ensures containerStream == if ok then old(containerStream) + msg.raw else old(containerStream)
      ensures Turn(hostConn, old(trace), old(state), trace, state, TheDispatcher)
    {
      hide Turn, OnTrack, SentBytes, OutBytes;
      SentBytesAppend(state.contIn, state.disp.e);
      ok := WriteContainer(msg);
      Act(ok, 0, []);
    }

    /** The critical section that records an entry, before the host can see the call. */
    method NoteHostPending(serial: uint32, kind: PendingKind, member: Text)
      requires Valid([]) && state.disp.Noting? && !state.disp.e.route.CopyMerge?
      requires serial == state.disp.e.Serial() && member == state.disp.e.msg.fields.member
      requires kind == if state.disp.e.route.ToHost? then Forward else Swallow
      modifies `hostPending, `trace, `duplicated, `state, `ledger
      ensures Valid([]) && state.disp == WritingHost(old(state.disp.e))
      ensures Turn(hostConn, old(trace), old(state), trace, state, TheDispatcher)
    {
      hide Turn, OnTrack, SentBytes, OutBytes;
      hostPending := hostPending[serial := Pending(kind, member)];
      Act(true, 0, []);
    }

    /** The critical section that drops an entry after a failed write. */
    method ForgetHostPending(msg: Message)
      requires Valid([]) && state.disp.Undoing? && !state.disp.e.route.CopyMerge? && state.disp.e.msg == msg
      modifies `hostPending, `trace, `duplicated, `state, `ledger
      ensures Valid(if state.disp.Halted? then msg.fds else []) && state.disp == AfterHost(old(state.disp.e), false)
      ensures Turn(hostConn, old(trace), old(state), trace, state, TheDispatcher)
    {
      hide Turn, OnTrack, SentBytes, OutBytes;
      hostPending := hostPending - {msg.serial};
      Act(true, 0, []);
    }

    method NoteMerge(msg: Message)
      requires Valid([]) && state.disp.Noting? && state.disp.e.route.CopyMerge? && state.disp.e.msg == msg
      modifies `merges, `trace, `duplicated, `state, `ledger
      ensures Valid([]) && state.disp == WritingHost(old(state.disp.e))
      ensures Turn(hostConn, old(trace), old(state), trace, state, TheDispatcher)
    {
      hide Turn, OnTrack, SentBytes, OutBytes;
      merges := merges[msg.serial := MergeState(msg.fields.member, None, None)];
      Act(true, 0, []);
    }

    method ForgetMerge(msg: Message)
      requires Valid([]) && state.disp.Undoing? && state.disp.e.route.CopyMerge? && state.disp.e.msg == msg
      modifies `merges, `trace, `duplicated, `state, `ledger
      ensures Valid([]) && state.disp == WritingContainer(old(state.disp.e))
      ensures Turn(hostConn, old(trace), old(state), trace, state, TheDispatcher)
    {
      hide Turn, OnTrack, SentBytes, OutBytes;
      merges := merges - {msg.serial};
      Act(true, 0, []);
    }

    /** The write of a message that only the host receives. */
    method WriteForward(msg: Message) returns (ok: bool)
      requires Valid([]) && state.disp.WritingHost? && state.disp.e.route.ToHost? && state.disp.e.msg == msg
      modifies `hostStream, `trace, `duplicated, `state, `ledger
      ensures
        if ok then Valid(msg.fds) && state.disp == Idle
        else if msg.IsCall() then Valid([]) && state.disp == Undoing(old(state.disp.e))
        else Valid(msg.fds) && state.disp == Halted
      ensures hostStream == if ok then old(hostStream) + msg.raw else old(hostStream)
      ensures Turn(hostConn, old(trace), old(state), trace, state, TheDispatcher)
    {
      hide Turn, OnTrack, SentBytes, OutBytes;
      SentBytesAppend(state.hostIn, state.disp.e);
      ok := WriteHost(msg);
      Act(ok, 0, []);
    }

    /** `CopyFDs`: duplicates of all descriptors, or none if one cannot be made. `made` are the
        duplicates that the system has made. */
    method CopyFDs(fds: seq<Fd>) returns (dups: seq<Fd>, ok: bool, ghost made: seq<Fd>)
      modifies `closedFds
      ensures ok ==> dups == made && |made| == |fds| && closedFds == old(closedFds)
      ensures !ok ==> dups == [] && |made| < |fds| && closedFds == old(closedFds) + made
    {
      dups := [];
      made := [];
      var i := 0;
      while i < |fds|
        invariant i <= |fds| && |dups| == i && dups == made && closedFds == old(closedFds)
      {
        var succeeded: bool, dup: Fd := *, *;
        if !succeeded {
          closedFds := closedFds + dups;
          return [], false, made;
        }
        made := made + [dup];
        dups := dups + [dup];
        i := i + 1;
      }
      ok := true;
    }

    /** The body of `writeHostCopy`: a copy goes out with duplicated descriptors, which are closed
        again whatever becomes of the write. */
    method SendCopy(msg: Message) returns (ok: bool, ghost dups: seq<Fd>)
      modifies `hostStream, `closedFds
      ensures hostStream == if ok then old(hostStream) + msg.raw else old(hostStream)
      ensures closedFds == old(closedFds) + dups
    {
      hide Matches;
      var dupFDs, copied;
      dupFDs, copied, dups := CopyFDs(msg.fds);
      var hostMsg := msg.(fds := dupFDs);
      ok := WriteHost(hostMsg);
      hostMsg := CloseFDs(hostMsg);
    }

    method WriteHostCopy(msg: Message) returns (ok: bool)
      requires Valid([]) && state.disp.WritingHost? && !state.disp.e.route.ToHost? && state.disp.e.msg == msg
      modifies `hostStream, `closedFds, `trace, `duplicated, `state, `ledger
      ensures Valid([])
      ensures
        var e := old(state.disp.e);
        state.disp == if ok || !e.Recorded() then WritingContainer(e) else Undoing(e)
      ensures hostStream == if ok then old(hostStream) + msg.raw else old(hostStream)
      ensures Turn(hostConn, old(trace), old(state), trace, state, TheDispatcher)
    {
      hide Turn, OnTrack, SentBytes, OutBytes;
      SentBytesAppend(state.hostIn, state.disp.e);
      ghost var dups;
      ok, dups := SendCopy(msg);
      Act(ok, 0, dups);
    }

    /** `sendToHost`, which the dispatcher only uses to forward. */
    method SendToHost(msg: Message) returns (ok: bool)
      requires Valid([]) && InHand(state.disp).Some? && InHand(state.disp).value.msg == msg
      requires InHand(state.disp).value.route.ToHost? && state.disp == Begin(InHand(state.disp).value)
      modifies `hostPending, `hostStream, `trace, `duplicated, `state, `ledger
      ensures Valid(msg.fds) && state.disp == if ok then Idle else Halted
      ensures hostStream == if ok then old(hostStream) + msg.raw else old(hostStream)
      ensures Turn(hostConn, old(trace), old(state), trace, state, TheDispatcher)
    {
      hide Turn, Valid;
      if msg.kind == TYPE_METHOD_CALL {
        NoteHostPending(msg.serial, Forward, msg.fields.member);
      }
      ghost var t1, s1 := trace, state;
      ok := WriteForward(msg);
      if msg.kind == TYPE_METHOD_CALL {
        TurnsCompose(hostConn, old(trace), old(state), t1, s1, trace, state, TheDispatcher);
      }
      if !ok && msg.kind == TYPE_METHOD_CALL {
        ghost var t2, s2 := trace, state;
        ForgetHostPending(msg);
        TurnsCompose(hostConn, old(trace), old(state), t2, s2, trace, state, TheDispatcher);
      }
    }

    /** The host part of a call whose host reply is dropped. */
    method CopySwallowed(msg: Message)
      requires Valid([]) && state.disp.Noting? && state.disp.e.route.CopySwallow? && state.disp.e.msg == msg
      modifies `hostPending, `hostStream, `closedFds, `trace, `duplicated, `state, `ledger
      ensures Valid([]) && state.disp == WritingContainer(old(state.disp.e))
      ensures hostStream == old(hostStream) || hostStream == old(hostStream) + msg.raw
      ensures Turn(hostConn, old(trace), old(state), trace, state, TheDispatcher)
    {
      hide Turn, Valid;
      NoteHostPending(msg.serial, Swallow, msg.fields.member);
      ghost var t1, s1 := trace, state;
      var ok := WriteHostCopy(msg);
      TurnsCompose(hostConn, old(trace), old(state), t1, s1, trace, state, TheDispatcher);
      if !ok {
        ghost var t2, s2 := trace, state;
        ForgetHostPending(msg);
        TurnsCompose(hostConn, old(trace), old(state), t2, s2, trace, state, TheDispatcher);
      }
    }

    /** The host part of a name list call. */
    method CopyMerged(msg: Message)
      requires Valid([]) && state.disp.Noting? && state.disp.e.route.CopyMerge? && state.disp.e.msg == msg
      modifies `merges, `hostStream, `closedFds, `trace, `duplicated, `state, `ledger
      ensures Valid([]) && state.disp == WritingContainer(old(state.disp.e))
      ensures hostStream == old(hostStream) || hostStream == old(hostStream) + msg.raw
      ensures Turn(hostConn, old(trace), old(state), trace, state, TheDispatcher)
    {
      hide Turn, Valid;
      NoteMerge(msg);
      ghost var t1, s1 := trace, state;
      var ok := WriteHostCopy(msg);
      TurnsCompose(hostConn, old(trace), old(state), t1, s1, trace, state, TheDispatcher);
      if !ok {
        ghost var t2, s2 := trace, state;
        ForgetMerge(msg);
        TurnsCompose(hostConn, old(trace), old(state), t2, s2, trace, state, TheDispatcher);
      }
    }

    /** `handleDBusManagement`: calls to the bus itself. */
    method HandleDBusManagement(msg: Message) returns (ok: bool)
      requires Valid([]) && InHand(state.disp).Some? && state.disp == Begin(InHand(state.disp).value)
      requires msg.kind != TYPE_SIGNAL && msg.fields.destination == BUS
      requires InHand(state.disp).value == Sent(msg, RouteManagement(msg, hostConn, hostUniqueNames), hostUniqueNames)
      modifies `hostPending, `merges, `hostStream, `containerStream, `closedFds, `trace, `duplicated, `state, `ledger
      ensures Valid(msg.fds) && state.disp == if ok then Idle else Halted
      ensures Streams(msg, old(InHand(state.disp).value).route, ok, old(containerStream), old(hostStream))
      ensures Shared(msg, ok, old(hostUniqueNames), old(containerStream), old(hostStream))
      ensures Turn(hostConn, old(trace), old(state), trace, state, TheDispatcher)
    {
      hide Turn, Valid, BodyTexts, RouteName, RouteOwnership, MatchSignalRuleHost, Shared;
      ghost var learned := hostUniqueNames;
      var member := msg.fields.member;
      ghost var t1, s1 := trace, state;
      NoTurn(hostConn, t1, s1, TheDispatcher);
      if member == HELLO {
        if hostConn {
          CopySwallowed(msg);
        }
      } else if member in MATCH_CALLS {
        var rule := ExtractFirstStringArg(msg);
        if MatchSignalRuleHost(rule) && hostConn {
          CopySwallowed(msg);
        }
      } else if member in OWNERSHIP_CALLS {
        var name := ExtractFirstStringArg(msg);
        if RouteOwnership(name) == Host && hostConn {
          ok := SendToHost(msg);
          StreamsAreShared(msg, ok, learned, old(containerStream), old(hostStream));
          return;
        }
      } else if member in LIST_QUERIES {
        if hostConn {
          CopyMerged(msg);
        }
      } else if member in NAME_QUERIES {
        var name := ExtractFirstStringArg(msg);
        var target := RouteByName(name);
        if target == Host && hostConn {
          ok := SendToHost(msg);
          StreamsAreShared(msg, ok, learned, old(containerStream), old(hostStream));
          return;
        }
      }
      ghost var t2, s2 := trace, state;
      ok := Deliver(msg);
      TurnsCompose(hostConn, t1, s1, t2, s2, trace, state, TheDispatcher);
      StreamsAreShared(msg, ok, learned, old(containerStream), old(hostStream));
    }

    /** `dispatchSignal`: a signal with a destination goes where the destination is, a broadcast to
        the container and, as a copy, to the host. */
    method DispatchSignal(msg: Message) returns (ok: bool)
      requires Valid([]) && InHand(state.disp).Some? && state.disp == Begin(InHand(state.disp).value)
      requires InHand(state.disp).value == Sent(msg, RouteSignal(msg, hostConn, hostUniqueNames), hostUniqueNames)
      modifies `hostPending, `hostStream, `containerStream, `closedFds, `trace, `duplicated, `state, `ledger
      ensures Valid(msg.fds) && state.disp == if ok then Idle else Halted
      ensures Streams(msg, old(InHand(state.disp).value).route, ok, old(containerStream), old(hostStream))
      ensures Turn(hostConn, old(trace), old(state), trace, state, TheDispatcher)
    {
      hide Turn, Valid, BodyTexts, RouteName;
      ghost var t1, s1 := trace, state;
      NoTurn(hostConn, t1, s1, TheDispatcher);
      if msg.fields.destination != [] {
        if msg.fields.destination == BUS {
          ok := Deliver(msg);
          return;
        }
        var target := RouteByName(msg.fields.destination);
        if target == Host && hostConn {
          ok := SendToHost(msg);
          return;
        }
        ok := Deliver(msg);
        return;
      }
      if hostConn && msg.fields.iface != BUS {
        var _ := WriteHostCopy(msg);
      }
      ghost var t2, s2 := trace, state;
      ok := Deliver(msg);
      TurnsCompose(hostConn, t1, s1, t2, s2, trace, state, TheDispatcher);
    }

    /** The error that answers a message to a host name while the host bus is missing. */
    method Refuse(msg: Message) returns (ok: bool)
      requires Valid([]) && state.disp.Answering? && state.disp.e.msg == msg
      requires ErrorFits(msg, SERVICE_UNKNOWN, UnavailableText(msg.fields.destination))
      modifies `serialCounter, `clientStream, `trace, `duplicated, `state, `ledger
      ensures Valid(msg.fds) && state.disp == if ok then Idle else Halted
      ensures clientStream == if ok then old(clientStream) + UnavailableReply(msg, serialCounter).raw else old(clientStream)
      ensures Turn(hostConn, old(trace), old(state), trace, state, TheDispatcher)
    {
      hide Turn, OnTrack, SentBytes, OutBytes, ErrorMessage, ErrorFits, UnavailableText;
      var serial := NextSerial();
      var errMsg := NewErrorMessage(msg, SERVICE_UNKNOWN, UnavailableText(msg.fields.destination), serial);
      OutBytesAppend(state.clientOut, Out(FromRouter, errMsg));
      ok := SendToClient(errMsg);
      Act(ok, serial, []);
    }

    /** A message to a name: to the bus that the name is on, or back as an error. */
    method DispatchByName(msg: Message) returns (ok: bool)
      requires WholeFrame(msg) && msg.kind != TYPE_SIGNAL && msg.fields.destination != BUS
      requires Valid([]) && InHand(state.disp).Some? && state.disp == Begin(InHand(state.disp).value)
      requires InHand(state.disp).value == Sent(msg, RouteOf(msg, hostConn, hostUniqueNames), hostUniqueNames)
      modifies this
      ensures Valid(msg.fds) && state.disp == if ok then Idle else Halted
      ensures Streams(msg, old(InHand(state.disp).value).route, ok, old(containerStream), old(hostStream))
      ensures Refused(msg, old(InHand(state.disp).value).route, ok, old(clientStream))
      ensures Turn(hostConn, old(trace), old(state), trace, state, TheDispatcher)
    {
      hide Turn, Valid, RouteName, WholeFrame, ErrorFits, UnavailableReply;
      var target := RouteByName(msg.fields.destination);
      if target == Host {
        if hostConn {
          ok := SendToHost(msg);
          return;
        }
        RefusalFits(msg);
        ok := Refuse(msg);
        return;
      }
      ok := Deliver(msg);
    }

    /** The three cases of `DispatchClientMessage`. */
    method RouteMessage(msg: Message) returns (ok: bool)
      requires WholeFrame(msg)
      requires Valid([]) && InHand(state.disp).Some? && state.disp == Begin(InHand(state.disp).value)
      requires InHand(state.disp).value == Sent(msg, RouteOf(msg, hostConn, hostUniqueNames), hostUniqueNames)
      modifies this
      ensures Valid(msg.fds) && state.disp == if ok then Idle else Halted
      ensures Streams(msg, old(InHand(state.disp).value).route, ok, old(containerStream), old(hostStream))
      ensures Refused(msg, old(InHand(state.disp).value).route, ok, old(clientStream))
      ensures Turn(hostConn, old(trace), old(state), trace, state, TheDispatcher)
    {
      hide Turn, Valid, Begin, Streams, RouteName, RouteManagement, RouteSignal, WholeFrame, ErrorFits, UnavailableReply;
      OnlyNamesAreUnavailable(msg, hostConn, hostUniqueNames);
      if msg.kind == TYPE_SIGNAL {
        ok := DispatchSignal(msg);
        return;
      }
      if msg.fields.destination == BUS {
        ok := HandleDBusManagement(msg);
        return;
      }
      ok := DispatchByName(msg);
    }

    /** `DispatchClientMessage` on the message just read. With serials that the client has not used
        before it continues a valid run, by taking the message up and by dispatcher steps alone. */
    method DispatchClientMessage(msg: Message) returns (ok: bool)
      requires Valid([]) && state.disp.Idle? && WholeFrame(msg)
      modifies this
      ensures Valid(msg.fds) && state.disp == if ok then Idle else Halted
      ensures
        var route := RouteOf(msg, hostConn, old(hostUniqueNames));
        && Streams(msg, route, ok, old(containerStream), old(hostStream))
        && Refused(msg, route, ok, old(clientStream))
      ensures Shared(msg, ok, old(hostUniqueNames), old(containerStream), old(hostStream))
      ensures Turn(hostConn, old(trace) + [ClientSends(msg)], Next(old(state), ClientSends(msg)), trace, state, TheDispatcher)
      ensures
        LogOf(old(state.log), msg.serial).None? && ValidRun(Initial(hostConn), old(trace)) ==> ValidRun(Initial(hostConn), trace)
    {
      ghost var hostNames := hostUniqueNames;
      TakeUp(msg);
      hide RouteOf, Valid, WholeFrame, ValidRun, Next, UnavailableReply, OthersSame, Streams, Shared, Refused;
      ok := RouteMessage(msg);
      StreamsAreShared(msg, ok, hostNames, old(containerStream), old(hostStream));
    }

    /** The dispatcher reads a message. */
    ghost method TakeUp(msg: Message)
      requires Valid([]) && state.disp.Idle?
      modifies `trace, `duplicated, `state, `ledger
      ensures Valid([]) && trace == old(trace) + [ClientSends(msg)] && state == Next(old(state), ClientSends(msg))
      ensures
        var e := Sent(msg, RouteOf(msg, hostConn, hostUniqueNames), hostUniqueNames);
        InHand(state.disp) == Some(e) && state.disp == Begin(e)
      ensures
        LogOf(old(state.log), msg.serial).None? && ValidRun(Initial(hostConn), old(trace)) ==> ValidRun(Initial(hostConn), trace)
    {
      hide RouteOf, ValidRun, Run, LedgerRun, LogOf, SentBytes, OutBytes;
      Tick(ClientSends(msg), []);
    }

    /** One turn of the dispatch loop: the message is dispatched and its descriptors are closed. */
    method ServeClientMessage(msg: Message) returns (ok: bool)
      requires Valid([]) && state.disp.Idle? && WholeFrame(msg)
      modifies this
      ensures Valid([]) && state.disp == if ok then Idle else Halted
      ensures Turn(hostConn, old(trace) + [ClientSends(msg)], Next(old(state), ClientSends(msg)), trace, state, TheDispatcher)
      ensures
        LogOf(old(state.log), msg.serial).None? && ValidRun(Initial(hostConn), old(trace)) ==> ValidRun(Initial(hostConn), trace)
    {
      hide Turn, OnTrack, Matches, StoresReceived, WholeFrame, ValidRun, Next, LogOf, RouteOf, Streams, Refused, Run;
      ok := DispatchClientMessage(msg);
      var _ := CloseFDs(msg);
    }

    // The bus readers.

    /** A bus reader's next step. */
    ghost method Read(from: Target, ok: bool)
      requires OnTrack() && (from == Host ==> hostConn)
      modifies `trace, `duplicated, `state, `ledger
      ensures OnTrack() && state == ReaderStep(old(state), from, ok)
      ensures ledger == ReaderLedger(old(state), from, state, old(ledger))
      ensures Turn(hostConn, old(trace), old(state), trace, state, ThreadOf(from))
    {
      hide Turn, ContainerStep, HostStep, ContainerLedger, HostLedger, OnTrack, Run, LedgerRun;
      assert state.hostUp == hostConn by {
        UpToDate();
      }
      Tick(if from == Host then HostReads(ok) else ContainerReads(ok), []);
    }

    lemma UpToDate()
      requires OnTrack()
      ensures state.hostUp == hostConn
    {
    }

    /** A bus has put a message on its connection. */
    ghost method Arrive(from: Target, msg: Message)
      requires Valid([])
      modifies `trace, `duplicated, `state, `ledger
      ensures Valid([]) && trace == old(trace) + [Arrival(from, msg)] && state == Next(old(state), Arrival(from, msg))
      ensures ValidRun(Initial(hostConn), old(trace)) && Enabled(old(state), Arrival(from, msg)) ==> ValidRun(Initial(hostConn), trace)
    {
      hide ValidRun, Run, LedgerRun, Enabled, SentBytes, OutBytes;
      Tick(Arrival(from, msg), []);
    }

    /** The message that `ReadMessage` has just returned is taken from the connection. */
    ghost method TakeNext(from: Target, msg: Message)
      requires Valid([]) && (from == Host ==> hostConn) && Offers(state, from, msg)
      modifies `trace, `duplicated, `state, `ledger
      ensures ReaderOf(state, from) == Accepted(msg, from) && Valid(Unclosed(Accepted(msg, from), msg))
      ensures TakenFrom(state, from) == old(TakenFrom(state, from)) + 1
      ensures Turn(hostConn, old(trace), old(state), trace, state, ThreadOf(from))
    {
      hide Turn, OnTrack, SentBytes, OutBytes, AcceptSignal;
      Read(from, true);
    }

    /** A message of a bus goes on to the client, and its descriptors are closed. */
    method SendOn(from: Target, msg: Message) returns (ok: bool, left: Message)
      requires Valid([]) && (from == Host ==> hostConn) && ReaderOf(state, from) == Sending(msg)
      modifies `clientStream, `closedFds, `trace, `duplicated, `state, `ledger
      ensures Valid([]) && ReaderOf(state, from) == (if ok then Waiting else Stopped) && left == msg.(fds := [])
      ensures clientStream == if ok then old(clientStream) + msg.raw else old(clientStream)
      ensures TakenFrom(state, from) == old(TakenFrom(state, from))
      ensures Turn(hostConn, old(trace), old(state), trace, state, ThreadOf(from))
    {
      hide Turn, OnTrack, SentBytes, OutBytes;
      ghost var place: nat := if TakenFrom(state, from) > 0 then TakenFrom(state, from) - 1 else 0;
      OutBytesAppend(state.clientOut, Out(if from == Host then FromHost(place) else FromContainer(place), msg));
      ok := SendToClient(msg);
      Read(from, ok);
      left := CloseFDs(msg);
    }

    /** The critical section of `takeMerge`: a reply to a merged call is stored, or completes the
        entry and removes it. */
    method StoreReply(from: Target, msg: Message) returns (complete: Option<(Message, Message)>)
      requires Received(msg) && Valid([]) && (from == Host ==> hostConn) && ReaderOf(state, from) == Matching(msg)
      requires msg.fields.replySerial in merges
      modifies `merges, `trace, `duplicated, `state, `ledger
      ensures complete.None? ==> Valid([]) && ReaderOf(state, from) == Waiting
      ensures complete.Some? ==>
        var (cont, host) := complete.value;
        && Valid(host.fds + cont.fds) && ReaderOf(state, from) == SendingMerged(Combine(cont, host))
        && Received(cont) && Received(host)
        && var e := old(merges[msg.fields.replySerial]);
           if from == Host then host == msg && e.contMsg == Some(cont) else cont == msg && e.hostMsg == Some(host)
      ensures TakenFrom(state, from) == old(TakenFrom(state, from))
      ensures Turn(hostConn, old(trace), old(state), trace, state, ThreadOf(from))
    {
      hide Turn, OnTrack, SentBytes, OutBytes, Combine, Received;
      var n := msg.fields.replySerial;
      var entry := merges[n];
      entry := if from == Host then entry.(hostMsg := Some(msg)) else entry.(contMsg := Some(msg));
      var ready := entry.hostMsg.Some? && entry.contMsg.Some?;
      merges := if ready then merges - {n} else merges[n := entry];
      Read(from, true);
      complete := if ready then Some((entry.contMsg.value, entry.hostMsg.value)) else None;
    }

    /** The rest of `takeMerge`: the merged reply goes to the client, whether or not that works. */
    method SendMerged(from: Target, cont: Message, host: Message)
      requires Valid(host.fds + cont.fds) && (from == Host ==> hostConn) && Mergeable(cont, host)
      requires ReaderOf(state, from) == SendingMerged(Combine(cont, host))
      modifies `clientStream, `closedFds, `trace, `duplicated, `state, `ledger
      ensures Valid([]) && ReaderOf(state, from) == Waiting
      ensures clientStream == old(clientStream) || clientStream == old(clientStream) + Merge(cont, host).raw
      ensures TakenFrom(state, from) == old(TakenFrom(state, from))
      ensures Turn(hostConn, old(trace), old(state), trace, state, ThreadOf(from))
    {
      hide Turn, OnTrack, SentBytes, OutBytes, Merge, Mergeable;
      var merged := MergeNameListReplies(cont, host);
      var _ := CloseFDs(host);
      var _ := CloseFDs(cont);
      // A reply that is passed on unmerged has just lost its descriptors.
      merged := merged.(fds := []);
      OutBytesAppend(state.clientOut, Out(FromBoth, merged));
      var ok := SendToClient(merged);
      Read(from, ok);
    }

    /** `takeMerge`. */
    method TakeMerge(from: Target, msg: Message) returns (taken: bool)
      requires Valid([]) && (from == Host ==> hostConn) && ReaderOf(state, from) == Matching(msg)
      requires Received(msg)
      modifies `merges, `clientStream, `closedFds, `trace, `duplicated, `state, `ledger
      ensures Valid([]) && taken == (msg.fields.replySerial in old(merges))
      ensures ReaderOf(state, from) == if taken then Waiting else if from == Host then LookingUp(msg) else Sending(msg)
      ensures !taken ==> clientStream == old(clientStream)
      ensures TakenFrom(state, from) == old(TakenFrom(state, from))
      ensures Turn(hostConn, old(trace), old(state), trace, state, ThreadOf(from))
    {
      hide Turn, Valid, Mergeable, Merge, Combine, Received;
      if msg.fields.replySerial !in merges {
        Unmatched(from, msg);
        return false;
      }
      var complete := StoreReply(from, msg);
      if complete.Some? {
        ghost var t1, s1 := trace, state;
        ReceivedMerge(complete.value.0, complete.value.1);
        SendMerged(from, complete.value.0, complete.value.1);
        TurnsCompose(hostConn, old(trace), old(state), t1, s1, trace, state, ThreadOf(from));
      }
      return true;
    }

    /** The critical section of `takeMerge` where no entry is found. */
    ghost method Unmatched(from: Target, msg: Message)
      requires Valid([]) && (from == Host ==> hostConn) && ReaderOf(state, from) == Matching(msg)
      requires msg.fields.replySerial !in merges
      modifies `trace, `duplicated, `state, `ledger
      ensures Valid([]) && ReaderOf(state, from) == if from == Host then LookingUp(msg) else Sending(msg)
      ensures TakenFrom(state, from) == old(TakenFrom(state, from))
      ensures Turn(hostConn, old(trace), old(state), trace, state, ThreadOf(from))
    {
      hide Turn, OnTrack, SentBytes, OutBytes;
      Read(from, true);
    }

    /** The critical section that looks a host reply's entry up and removes it. */
    method TakePending(msg: Message) returns (pending: Option<Pending>)
      requires Valid([]) && hostConn && state.host == LookingUp(msg)
      modifies `hostPending, `trace, `duplicated, `state, `ledger
      ensures pending == if msg.fields.replySerial in old(hostPending) then Some(old(hostPending)[msg.fields.replySerial]) else None
      ensures state.host == if pending.Some? then AcceptReply(msg, pending.value) else Waiting
      ensures Valid(Unclosed(state.host, msg)) && state.hostTaken == old(state.hostTaken)
      ensures Turn(hostConn, old(trace), old(state), trace, state, TheHostReader)
    {
      hide Turn, OnTrack, SentBytes, OutBytes, AcceptReply;
      var n := msg.fields.replySerial;
      pending := if n in hostPending then Some(hostPending[n]) else None;
      if pending.Some? {
        hostPending := hostPending - {n};
      }
      Read(Host, true);
    }

    /** The critical section that stores the client's name on the host bus. */
    method StoreHostName(name: Text, msg: Message)
      requires Valid([]) && hostConn && state.host == Naming(msg) && name == FirstText(msg)
      modifies `hostUniqueName, `trace, `duplicated, `state, `ledger
      ensures Valid([]) && state.host == Learning(msg, name, false) && state.hostTaken == old(state.hostTaken)
      ensures Turn(hostConn, old(trace), old(state), trace, state, TheHostReader)
    {
      hide Turn, OnTrack, SentBytes, OutBytes, FirstText;
      hostUniqueName := name;
      Read(Host, true);
    }

    /** `rememberHostUnique`. */
    method RememberHostUnique(name: Text)
      requires Valid([]) && hostConn && state.host.Learning? && state.host.name == name
      modifies `hostUniqueNames, `trace, `duplicated, `state, `ledger
      ensures hostUniqueNames == Remember(old(hostUniqueNames), name)
      ensures state.host == (if old(state.host.deliver) then Sending(old(state.host.m)) else Waiting)
      ensures Valid(Unclosed(state.host, old(state.host.m))) && state.hostTaken == old(state.hostTaken)
      ensures Turn(hostConn, old(trace), old(state), trace, state, TheHostReader)
    {
      hide Turn, OnTrack, SentBytes, OutBytes;
      if name != [] && name[0] == COLON {
        hostUniqueNames := hostUniqueNames + {name};
      }
      Read(Host, true);
    }

    /** `shouldForwardHostSignal`. */
    method ShouldForwardHostSignal(msg: Message) returns (forward: bool)
      requires Valid(Unclosed(state.host, msg)) && hostConn && state.host == AcceptSignal(msg)
      modifies `hostUniqueNames, `trace, `duplicated, `state, `ledger
      ensures forward == Wanted(msg) && state.host == if forward then Sending(msg) else Waiting
      ensures Valid(Unclosed(state.host, msg)) && state.hostTaken == old(state.hostTaken)
      ensures Turn(hostConn, old(trace), old(state), trace, state, TheHostReader)
    {
      hide Turn, Valid, BodyTexts, RouteDestination, RouteOwnership, Remember, Wanted;
      ForwardsWanted(msg);
      NoTurn(hostConn, trace, state, TheHostReader);
      if msg.kind != TYPE_SIGNAL {
        return false;
      }
      if msg.fields.sender == BUS || msg.fields.iface == BUS {
        var name := ExtractFirstStringArg(msg);
        if msg.fields.member !in OWNER_SIGNALS {
          return false;
        }
        if RouteDestination(name) != Host && RouteOwnership(name) != Host {
          return false;
        }
        if msg.fields.member == NAME_OWNER_CHANGED {
          var stringsInBody := ExtractBodyStrings(msg);
          if |stringsInBody| >= 3 {
            RememberHostUnique(stringsInBody[2]);
          }
        }
        return true;
      }
      return true;
    }

    /** A host reply that completes no merge: it is dropped unless an entry asks for it. */
    method AcceptHostReply(msg: Message) returns (ok: bool, left: Message)
      requires Valid([]) && hostConn && state.host == LookingUp(msg)
      modifies this
      ensures Valid([]) && state.host == (if ok then Waiting else Stopped) && left == msg.(fds := [])
      ensures state.hostTaken == old(state.hostTaken)
      ensures Turn(hostConn, old(trace), old(state), trace, state, TheHostReader)
    {
      hide Turn, OnTrack, Matches, BodyTexts, FirstText, Remember;
      var pending := TakePending(msg);
      ghost var t1, s1 := trace, state;
      if pending.None? {
        left := CloseFDs(msg);
        return true, left;
      }
      if pending.value.kind.Swallow? {
        if pending.value.member == HELLO && msg.kind == TYPE_METHOD_RETURN {
          var name := ExtractFirstStringArg(msg);
          StoreHostName(name, msg);
          TurnsCompose(hostConn, old(trace), old(state), t1, s1, trace, state, TheHostReader);
          ghost var t2, s2 := trace, state;
          RememberHostUnique(name);
          TurnsCompose(hostConn, old(trace), old(state), t2, s2, trace, state, TheHostReader);
        }
        left := CloseFDs(msg);
        return true, left;
      }
      if pending.value.member == GET_NAME_OWNER && msg.kind == TYPE_METHOD_RETURN {
        var name := ExtractFirstStringArg(msg);
        RememberHostUnique(name);
        TurnsCompose(hostConn, old(trace), old(state), t1, s1, trace, state, TheHostReader);
      }
      ghost var t3, s3 := trace, state;
      ok, left := SendOn(Host, msg);
      TurnsCompose(hostConn, old(trace), old(state), t3, s3, trace, state, TheHostReader);
    }

    /** `handleUpstream` on the next message of a bus. `left` is the message as the call leaves it,
        with the descriptors that are still its own. */
    method HandleUpstream(from: Target, msg: Message) returns (ok: bool, left: Message)
      requires Valid([]) && (from == Host ==> hostConn) && Offers(state, from, msg)
      requires Received(msg)
      modifies this
      ensures Valid([]) && ReaderOf(state, from) == (if ok then Waiting else Stopped)
      ensures TakenFrom(state, from) == old(TakenFrom(state, from)) + 1
      ensures left == msg || left == msg.(fds := [])
      ensures !ok ==> left.fds == []
      ensures Turn(hostConn, old(trace), old(state), trace, state, ThreadOf(from))
    {
      hide Turn, OnTrack, Matches, StoresReceived, AcceptSignal, Received;
      TakeNext(from, msg);
      ghost var t1, s1 := trace, state;
      if msg.IsReply() {
        var taken := TakeMerge(from, msg);
        TurnsCompose(hostConn, old(trace), old(state), t1, s1, trace, state, ThreadOf(from));
        if taken {
          return true, msg;
        }
        ghost var t2, s2 := trace, state;
        if from == Container {
          ok, left := SendOn(from, msg);
        } else {
          ok, left := AcceptHostReply(msg);
        }
        TurnsCompose(hostConn, old(trace), old(state), t2, s2, trace, state, ThreadOf(from));
        return;
      }
      if from == Host {
        var forward := ShouldForwardHostSignal(msg);
        TurnsCompose(hostConn, old(trace), old(state), t1, s1, trace, state, ThreadOf(from));
        if !forward {
          left := CloseFDs(msg);
          return true, left;
        }
      }
      ghost var t3, s3 := trace, state;
      ok, left := SendOn(from, msg);
      TurnsCompose(hostConn, old(trace), old(state), t3, s3, trace, state, ThreadOf(from));
    }

    /** One turn of a bus reader's loop. The loop closes the descriptors of a message that could not
        be handled; `handleUpstream` has closed them by then, so that nothing is closed twice. */
    method ServeBusMessage(from: Target, msg: Message) returns (ok: bool)
      requires Valid([]) && (from == Host ==> hostConn) && Offers(state, from, msg)
      requires Received(msg)
      modifies this
      ensures Valid([]) && ReaderOf(state, from) == (if ok then Waiting else Stopped)
      ensures TakenFrom(state, from) == old(TakenFrom(state, from)) + 1
      ensures Turn(hostConn, old(trace), old(state), trace, state, ThreadOf(from))
    {
      hide Turn, OnTrack, Received;
      var left;
      ok, left := HandleUpstream(from, msg);
      if !ok {
        var _ := CloseFDs(left);
      }
    }
  }

  lemma ReceivedMerge(cont: Message, host: Message)
    requires Received(cont) && Received(host)
    ensures Mergeable(cont, host)
  {
    hide Parse, Contained;
    ReplacedFrameParses(cont, []);
    ReplacedFrameParses(host, []);
  }

  lemma OnlyNamesAreUnavailable(m: Message, hostUp: bool, hostNames: set<Text>)
    ensures !RouteManagement(m, hostUp, hostNames).Unavailable? && !RouteSignal(m, hostUp, hostNames).Unavailable?
  {
    hide FirstText, RouteName, RouteOwnership, MatchSignalRuleHost;
  }

  lemma RefusalFits(msg: Message)
    requires WholeFrame(msg)
    ensures ErrorFits(msg, SERVICE_UNKNOWN, UnavailableText(msg.fields.destination))
  {
    ParsedTextsFit(msg);
  }
}
