/** A whole client connection: the handshake, and then the three loops of `handleClient` taking turns
    (container/dbus/router.go:184-274). Turns of the three threads follow each other in any order;
    that they may also overlap is what the step system is for. */
module Serving {
  import opened Bytes
  import opened Wrappers
  import opened Wire
  import opened Reader
  import opened Handshake
  import opened Rules
  import opened Session
  import opened ClientSessions
  import opened EndToEnd

  datatype Loop = ClientLoop | BusLoop(from: Target)

  /** Between turns no thread has a message in hand, and the readers have taken all that has arrived. */
  predicate Resting(s: State) {
    && (s.disp.Idle? || s.disp.Halted?)
    && (s.cont.Waiting? || s.cont.Stopped?) && s.contTaken == |s.contSent|
    && (s.host.Waiting? || s.host.Stopped?) && s.hostTaken == |s.hostSent|
  }

  predicate Running(s: State, loop: Loop) {
    match loop
    case ClientLoop => s.disp.Idle?
    case BusLoop(Container) => s.cont.Waiting?
    case BusLoop(Host) => s.host.Waiting?
  }

  /** The messages that a loop has read so far. */
  function ReadBy(s: State, loop: Loop): seq<Message> {
    match loop
    case ClientLoop => Messages(s.log)
    case BusLoop(Container) => s.contSent
    case BusLoop(Host) => s.hostSent
  }

  function Arriving(loop: Loop, msg: Message): Step {
    match loop
    case ClientLoop => ClientSends(msg)
    case BusLoop(from) => Arrival(from, msg)
  }

  /** A loop has had a turn on a message; the others stand where they stood. */
  ghost predicate TurnTaken(hostUp: bool, before: seq<Step>, s: State, after: seq<Step>, t: State, loop: Loop, msg: Message) {
    && Resting(t) && t.hostUp == s.hostUp
    && ReadBy(t, loop) == ReadBy(s, loop) + [msg]
    && (forall other :: other != loop ==> ReadBy(t, other) == ReadBy(s, other) && Running(t, other) == Running(s, other))
    && before + [Arriving(loop, msg)] <= after
    && (forall i :: |before| < i < |after| ==> By(after[i]) != TheOutside)
    && (ValidRun(Initial(hostUp), before) && Enabled(s, Arriving(loop, msg)) ==> ValidRun(Initial(hostUp), after))
  }

  lemma ClientTurn(hostUp: bool, before: seq<Step>, s: State, after: seq<Step>, t: State, msg: Message)
    requires Resting(s) && s.disp.Idle? && (t.disp.Idle? || t.disp.Halted?)
    requires Turn(hostUp, before + [ClientSends(msg)], Next(s, ClientSends(msg)), after, t, TheDispatcher)
    requires LogOf(s.log, msg.serial).None? && ValidRun(Initial(hostUp), before) ==> ValidRun(Initial(hostUp), after)
    requires t.hostUp == s.hostUp
    ensures TurnTaken(hostUp, before, s, after, t, ClientLoop, msg)
  {
    hide ValidRun, LogOf, RouteOf;
    assert Messages(t.log) == Messages(s.log) + [msg];
  }

  lemma BusTurn(hostUp: bool, before: seq<Step>, s: State, after: seq<Step>, t: State, from: Target, msg: Message)
    requires Resting(s) && Running(s, BusLoop(from)) && (ReaderOf(t, from).Waiting? || ReaderOf(t, from).Stopped?)
    requires Turn(hostUp, before + [Arrival(from, msg)], Next(s, Arrival(from, msg)), after, t, ThreadOf(from))
    requires ValidRun(Initial(hostUp), before) && Enabled(s, Arrival(from, msg)) ==>
      ValidRun(Initial(hostUp), before + [Arrival(from, msg)])
    requires TakenFrom(t, from) == TakenFrom(s, from) + 1
    ensures TurnTaken(hostUp, before, s, after, t, BusLoop(from), msg)
  {
    hide ValidRun, Enabled;
  }

  /** One turn of a loop: the next message of its stream is read and handled. */
  method TakeTurn(loop: Loop, reader: MessageReader, session: ClientSession) returns (more: bool)
    requires reader.Valid() && session.Valid([]) && Resting(session.state) && Running(session.state, loop)
    requires loop == BusLoop(Host) ==> session.hostConn
    modifies reader, session
    ensures reader.Valid() && session.Valid([])
    ensures |reader.AllBytes()| <= |old(reader.AllBytes())| && (more ==> |reader.AllBytes()| < |old(reader.AllBytes())|)
    ensures
      var before := old(Frames(reader.AllBytes(), reader.AllFds())).messages;
      if before == [] then !more && session.trace == old(session.trace) && session.state == old(session.state)
      else
        && TurnTaken(session.hostConn, old(session.trace), old(session.state), session.trace, session.state, loop, before[0])
        && WholeFrame(before[0]) && Frames(reader.AllBytes(), reader.AllFds()).messages == before[1..]
        && (more <==> Running(session.state, loop))
  {
    hide NextFrame, WholeFrame, ValidRun, Next, LogOf, Turn, TurnTaken, Received;
    ghost var bytes, fds, before, s := reader.AllBytes(), reader.AllFds(), session.trace, session.state;
    FrameAdvances(bytes, fds);
    NextIsWholeFrame(bytes, fds);
    var r := reader.ReadMessage();
    if r.Failure? {
      return false;
    }
    var msg := r.value;
    assert Frames(bytes, fds).messages == [msg] + Frames(reader.AllBytes(), reader.AllFds()).messages;
    match loop
    case ClientLoop =>
      more := session.ServeClientMessage(msg);
      SameHost(session, s);
      ClientTurn(session.hostConn, before, s, session.trace, session.state, msg);
    case BusLoop(from) =>
      session.Arrive(from, msg);
      ArrivedIsOffered(s, from, msg);
      WholeIsReceived(msg);
      more := session.ServeBusMessage(from, msg);
      BusTurn(session.hostConn, before, s, session.trace, session.state, from, msg);
  }

  lemma SameHost(session: ClientSession, s: State)
    requires session.Valid([]) && s.hostUp == session.hostConn
    ensures session.state.hostUp == s.hostUp
  {
  }

  lemma ArrivedIsOffered(s: State, from: Target, msg: Message)
    requires Resting(s) && Running(s, BusLoop(from))
    ensures Offers(Next(s, Arrival(from, msg)), from, msg)
    ensures TakenFrom(Next(s, Arrival(from, msg)), from) == TakenFrom(s, from)
  {
  }

  lemma WholeIsReceived(msg: Message)
    requires WholeFrame(msg)
    ensures Received(msg)
  {
  }

  predicate DistinctSerials(ms: seq<Message>) {
    forall i, j :: 0 <= i < j < |ms| ==> ms[i].serial != ms[j].serial
  }

  lemma {:induction false} UnusedSerial(log: seq<Sent>, n: uint32)
    requires forall i :: 0 <= i < |log| ==> log[i].Serial() != n
    ensures LogOf(log, n).None?
    decreases |log|
  {
    if log != [] {
      UnusedSerial(log[..|log| - 1], n);
    }
  }

  /** The next message of a client that never reuses a serial. */
  lemma NextIsUnused(all: seq<Message>, log: seq<Sent>, msg: Message, rest: seq<Message>)
    requires all == Messages(log) + ([msg] + rest) && DistinctSerials(all)
    ensures LogOf(log, msg.serial).None?
  {
    assert all[|log|] == msg;
    forall i | 0 <= i < |log| ensures log[i].Serial() != msg.serial {
      assert all[i] == Messages(log)[i] == log[i].msg;
    }
    UnusedSerial(log, msg.serial);
  }

  /** In a run, whatever the buses have sent was theirs to send. */
  ghost predicate BusesBehave(hostUp: bool, steps: seq<Step>) {
    forall k :: 0 <= k < |steps| && (steps[k].ContainerSends? || steps[k].HostSends?) ==>
      Enabled(Run(Initial(hostUp), steps[..k]), steps[k])
  }

  lemma BehavedBefore(hostUp: bool, before: seq<Step>, after: seq<Step>)
    requires before <= after && BusesBehave(hostUp, after)
    ensures BusesBehave(hostUp, before)
  {
    hide Enabled, Run;
    forall k | 0 <= k < |before| && (before[k].ContainerSends? || before[k].HostSends?)
      ensures Enabled(Run(Initial(hostUp), before[..k]), before[k])
    {
      assert after[k] == before[k] && after[..k] == before[..k];
    }
  }

  /** What a loop has read of its stream so far, and that it has all of it where it came to the end. */
  ghost predicate Progress(all: seq<Message>, done: seq<Message>, on: bool, left: seq<Message>, cut: bool, running: bool) {
    && done <= all
    && (on ==> all == done + left && running)
    && (!on && !cut && running ==> done == all)
  }

  lemma ProgressMade(all: seq<Message>, done: seq<Message>, left: seq<Message>, cut: bool,
                     on: bool, now: seq<Message>, rest: seq<Message>, running: bool)
    requires Progress(all, done, true, left, cut, true)
    requires if left == [] then !on && now == done && running else now == done + [left[0]] && rest == left[1..] && on == running
    ensures Progress(all, now, on, rest, cut, running)
  {
    if left != [] {
      assert left == [left[0]] + left[1..];
      assert all == now + rest;
    } else {
      assert all == done;
    }
  }

  /** A valid run goes on with the turn of a loop, provided that the client never reuses a serial and
      the buses behave. */
  lemma TurnIsValid(hostUp: bool, frames: seq<Message>, before: seq<Step>, s: State, after: seq<Step>, t: State,
                    loop: Loop, left: seq<Message>)
    requires left != [] && TurnTaken(hostUp, before, s, after, t, loop, left[0])
    requires s == Run(Initial(hostUp), before) && Running(s, loop)
    requires loop == ClientLoop ==> frames == Messages(s.log) + left
    requires DistinctSerials(frames) && BusesBehave(hostUp, before) ==> ValidRun(Initial(hostUp), before)
    ensures DistinctSerials(frames) && BusesBehave(hostUp, after) ==> ValidRun(Initial(hostUp), after)
  {
    hide ValidRun, Run, LogOf, DistinctSerials, BusesBehave, WellFormed, MayAnswer;
    if DistinctSerials(frames) && BusesBehave(hostUp, after) {
      BehavedBefore(hostUp, before, after);
      if loop == ClientLoop {
        assert left == [left[0]] + left[1..];
        NextIsUnused(frames, s.log, left[0], left[1..]);
      } else {
        assert after[..|before|] == before;
        BehavedAt(hostUp, after, |before|);
      }
    }
  }

  lemma BehavedAt(hostUp: bool, steps: seq<Step>, k: nat)
    requires BusesBehave(hostUp, steps) && k < |steps| && (steps[k].ContainerSends? || steps[k].HostSends?)
    ensures Enabled(Run(Initial(hostUp), steps[..k]), steps[k])
  {
    hide Enabled, Run;
  }

  lemma TurnIsFramed(hostUp: bool, before: seq<Step>, s: State, after: seq<Step>, t: State, loop: Loop, msg: Message)
    requires TurnTaken(hostUp, before, s, after, t, loop, msg) && WholeFrame(msg) && FramedRun(before)
    ensures FramedRun(after)
  {
    hide WholeFrame, ValidRun, Enabled;
    forall i | 0 <= i < |after| ensures FramedStep(after[i]) {
      if i < |before| {
        assert after[i] == before[i];
      }
    }
  }

  /** The next turn of a loop that is still running, with what it means for the whole run. */
  method Continue(loop: Loop, reader: MessageReader, session: ClientSession, ghost all: seq<Message>, ghost frames: seq<Message>,
                  cut: bool)
    returns (more: bool)
    requires reader.Valid() && session.Valid([]) && Resting(session.state)
    requires Progress(all, ReadBy(session.state, loop), true,
                      Frames(reader.AllBytes(), reader.AllFds()).messages, cut, Running(session.state, loop))
    requires loop == BusLoop(Host) ==> session.hostConn
    requires loop == ClientLoop ==> all == frames
    requires DistinctSerials(frames) && BusesBehave(session.hostConn, session.trace) ==> ValidRun(Initial(session.hostConn), session.trace)
    modifies reader, session
    ensures reader.Valid() && session.Valid([]) && Resting(session.state)
    ensures Progress(all, ReadBy(session.state, loop), more,
                     Frames(reader.AllBytes(), reader.AllFds()).messages, cut, Running(session.state, loop))
    ensures forall other :: other != loop ==>
      && ReadBy(session.state, other) == old(ReadBy(session.state, other))
      && Running(session.state, other) == old(Running(session.state, other))
    ensures |reader.AllBytes()| <= |old(reader.AllBytes())| && (more ==> |reader.AllBytes()| < |old(reader.AllBytes())|)
    ensures DistinctSerials(frames) && BusesBehave(session.hostConn, session.trace) ==> ValidRun(Initial(session.hostConn), session.trace)
    ensures FramedRun(old(session.trace)) ==> FramedRun(session.trace)
  {
    hide ValidRun, BusesBehave, DistinctSerials, Frames, WholeFrame, FramedStep;
    ghost var left, before, s := Frames(reader.AllBytes(), reader.AllFds()).messages, session.trace, session.state;
    var closed := *;
    if cut && closed {
      return false;
    }
    assert s == Run(Initial(session.hostConn), before);
    more := TakeTurn(loop, reader, session);
    ProgressMade(all, ReadBy(s, loop), left, cut, more,
                 ReadBy(session.state, loop), Frames(reader.AllBytes(), reader.AllFds()).messages, Running(session.state, loop));
    if left != [] {
      TurnIsValid(session.hostConn, frames, before, s, session.trace, session.state, loop, left);
      if FramedRun(before) {
        TurnIsFramed(session.hostConn, before, s, session.trace, session.state, loop, left[0]);
      }
    }
  }

  /** The three loops, in any order, until all have ended. Where connections are cut, a loop may find
      its connection closed at any time. */
  method ServeLoops(clientReader: MessageReader, containerReader: MessageReader, hostReader: MessageReader,
                    session: ClientSession, cut: bool)
    requires clientReader != containerReader && clientReader != hostReader && containerReader != hostReader
    requires clientReader.Valid() && containerReader.Valid() && hostReader.Valid()
    requires session.Valid([]) && session.trace == []
    modifies clientReader, containerReader, hostReader, session
    ensures clientReader.Valid() && containerReader.Valid() && hostReader.Valid() && session.Valid([])
    ensures AtEnd(old(Frames(clientReader.AllBytes(), clientReader.AllFds())).messages, session.state, ClientLoop, cut)
    ensures AtEnd(old(Frames(containerReader.AllBytes(), containerReader.AllFds())).messages, session.state, BusLoop(Container), cut)
    ensures session.hostConn ==>
      AtEnd(old(Frames(hostReader.AllBytes(), hostReader.AllFds())).messages, session.state, BusLoop(Host), cut)
    ensures FramedRun(session.trace)
    ensures DistinctSerials(old(Frames(clientReader.AllBytes(), clientReader.AllFds())).messages) ==>
      BusesBehave(session.hostConn, session.trace) ==> ValidRun(Initial(session.hostConn), session.trace)
  {
    hide ValidRun, BusesBehave, DistinctSerials, Frames, FramedRun, Progress, ReadBy, Running, Resting, AtEnd;
    hide MessageReader.Valid, MessageReader.AllBytes, MessageReader.AllFds, ClientSession.Valid;
    ghost var frames := Frames(clientReader.AllBytes(), clientReader.AllFds()).messages;
    ghost var replies := Frames(containerReader.AllBytes(), containerReader.AllFds()).messages;
    ghost var hostReplies := Frames(hostReader.AllBytes(), hostReader.AllFds()).messages;
    var clientOn, containerOn, hostOn := true, true, session.hostConn;
    NothingRead(session, ClientLoop, frames);
    NothingRead(session, BusLoop(Container), replies);
    NothingRead(session, BusLoop(Host), hostReplies);
    while clientOn || containerOn || hostOn
      invariant clientReader.Valid() && containerReader.Valid() && hostReader.Valid() && session.Valid([])
      invariant Resting(session.state) && FramedRun(session.trace) && (hostOn ==> session.hostConn)
      invariant Progress(frames, ReadBy(session.state, ClientLoop), clientOn,
                         Frames(clientReader.AllBytes(), clientReader.AllFds()).messages, cut, Running(session.state, ClientLoop))
      invariant Progress(replies, ReadBy(session.state, BusLoop(Container)), containerOn,
                         Frames(containerReader.AllBytes(), containerReader.AllFds()).messages, cut, Running(session.state, BusLoop(Container)))
      invariant session.hostConn ==>
        Progress(hostReplies, ReadBy(session.state, BusLoop(Host)), hostOn,
                 Frames(hostReader.AllBytes(), hostReader.AllFds()).messages, cut, Running(session.state, BusLoop(Host)))
      invariant DistinctSerials(frames) && BusesBehave(session.hostConn, session.trace) ==> ValidRun(Initial(session.hostConn), session.trace)
      decreases |clientReader.AllBytes()| + |containerReader.AllBytes()| + |hostReader.AllBytes()|, clientOn, containerOn, hostOn
    {
      if {
        case clientOn =>
          clientOn := Continue(ClientLoop, clientReader, session, frames, frames, cut);
        case containerOn =>
          containerOn := Continue(BusLoop(Container), containerReader, session, replies, frames, cut);
        case hostOn =>
          hostOn := Continue(BusLoop(Host), hostReader, session, hostReplies, frames, cut);
      }
    }
    Ended(session, frames, ClientLoop, Frames(clientReader.AllBytes(), clientReader.AllFds()).messages, cut);
    Ended(session, replies, BusLoop(Container), Frames(containerReader.AllBytes(), containerReader.AllFds()).messages, cut);
    if session.hostConn {
      Ended(session, hostReplies, BusLoop(Host), Frames(hostReader.AllBytes(), hostReader.AllFds()).messages, cut);
    }
  }

  /** A loop that has ended has read the first messages of its stream; all of them, unless a write has
      failed or connections are cut. */
  ghost predicate AtEnd(all: seq<Message>, s: State, loop: Loop, cut: bool) {
    ReadBy(s, loop) <= all && (!cut && Running(s, loop) ==> ReadBy(s, loop) == all)
  }

  lemma Ended(session: ClientSession, all: seq<Message>, loop: Loop, left: seq<Message>, cut: bool)
    requires Progress(all, ReadBy(session.state, loop), false, left, cut, Running(session.state, loop))
    ensures AtEnd(all, session.state, loop, cut)
  {
  }

  lemma NothingRead(session: ClientSession, loop: Loop, all: seq<Message>)
    requires session.Valid([]) && session.trace == []
    ensures Resting(session.state) && FramedRun(session.trace) && ValidRun(Initial(session.hostConn), session.trace)
    ensures forall cut :: Progress(all, ReadBy(session.state, loop), true, all, cut, Running(session.state, loop))
  {
    assert session.state == Initial(session.hostConn) && Messages([]) == [];
    assert [] + all == all;
  }

  /** A client connection from its first byte: the handshake, then the three loops. The messages that
      are dispatched are, in order, the frames of the bytes behind the `BEGIN` line; those taken from
      each bus are the frames of its stream; all of them, unless a write fails or a connection is cut.
      The loops start unless the first byte is not NUL, no `BEGIN` line comes, or a response fails.
      If the client never reuses a serial and the buses behave, what happens is a valid run. */
  method ServeSession(conn: Conn, containerReader: MessageReader, hostReader: MessageReader, session: ClientSession, cut: bool)
    returns (begun: bool)
    requires conn.Valid() && containerReader != hostReader && containerReader.Valid() && hostReader.Valid()
    requires session.Valid([]) && session.trace == []
    modifies conn, containerReader, hostReader, session
    ensures session.Valid([]) && (!begun ==> session.trace == [])
    ensures begun ==> old(conn.Unread()) != [] && old(conn.Unread())[0] == 0
    ensures !begun && old(conn.Unread()) != [] && old(conn.Unread())[0] == 0 ==>
      var talk := TalkOf(old(conn.Unread())[1..]);
      talk.rest.None? || exists sent :: conn.written == old(conn.written) + sent && sent < talk.responses
    ensures begun ==>
      var talk := TalkOf(old(conn.Unread())[1..]);
      && talk.rest.Some? && conn.written == old(conn.written) + talk.responses
      && var frames := Frames(talk.rest.value, ChunkFds(conn.incoming)).messages;
         && AtEnd(frames, session.state, ClientLoop, cut)
         && (DistinctSerials(frames) && BusesBehave(session.hostConn, session.trace) ==> ValidRun(Initial(session.hostConn), session.trace))
    ensures begun ==>
      && AtEnd(old(Frames(containerReader.AllBytes(), containerReader.AllFds())).messages, session.state, BusLoop(Container), cut)
      && (session.hostConn ==>
            AtEnd(old(Frames(hostReader.AllBytes(), hostReader.AllFds())).messages, session.state, BusLoop(Host), cut))
    ensures begun ==> FramedRun(session.trace)
  {
    hide ValidRun, DistinctSerials, BusesBehave, Frames, TalkOf, FramedRun, AtEnd, ClientSession.Valid;
    var r := AuthenticateClient(conn);
    if r.Failure? {
      assert r == Failure(r.error);
      assert r.error.WriteFailed? || r.error.NoLine? || r.error.NoFirstByte? || r.error.NotNul?;
      return false;
    }
    var clientReader := new MessageReader(conn.incoming, r.value);
    ServeLoops(clientReader, containerReader, hostReader, session, cut);
    var _ := clientReader.Close();
    var _ := containerReader.Close();
    var _ := hostReader.Close();
    return true;
  }
}
