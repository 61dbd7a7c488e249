/** From bytes to bytes: what is read from the client is dispatched as the frames of its stream,
    and what the router writes is read back as exactly the messages it meant to write
    (container/dbus/router.go:184-274, container/dbus/wire.go:85-175, 404-425). */
module EndToEnd {
  import opened Bytes
  import opened Wrappers
  import opened Wire
  import opened Bodies
  import opened Merging
  import opened ErrorReply
  import opened Reader
  import opened Session
  import opened Correlation
  import opened Effects
  import opened Delivery
  import opened Traffic
  import opened ClientSessions

  /** The messages of a run are ones that a reader returns. */
  predicate FramedStep(step: Step) {
    match step
    case ClientSends(m) => WholeFrame(m)
    case ContainerSends(m) => WholeFrame(m)
    case HostSends(m) => WholeFrame(m)
    case _ => true
  }

  predicate FramedRun(steps: seq<Step>) {
    forall i :: 0 <= i < |steps| ==> FramedStep(steps[i])
  }

  /** The raw bytes are one frame, of any size, which parses to the message. */
  predicate OneFrame(m: Message) {
    Parse(m.raw) == Success(m.(fds := [])) && m.totalLength == |m.raw|
  }

  lemma WholeMeansOneFrame(m: Message)
    ensures WholeFrame(m) <==> OneFrame(m) && |m.raw| <= MAX_MESSAGE_SIZE && |m.fds| == m.fields.unixFDs
  {
    hide ParseFrom, GetUint32;
  }

  predicate AllWhole(ms: seq<Message>) {
    forall i :: 0 <= i < |ms| ==> WholeFrame(ms[i])
  }

  predicate AllSentWhole(es: seq<Sent>) {
    forall i :: 0 <= i < |es| ==> WholeFrame(es[i].msg)
  }

  predicate MergesFramed(merges: map<uint32, MergeState>) {
    forall n :: n in merges && merges[n].contMsg.Some? ==> OneFrame(merges[n].contMsg.value)
  }

  predicate ReaderFramed(r: BusReader) {
    r.SendingMerged? ==> OneFrame(r.m) && r.m.fds == []
  }

  /** An error that the router made for a message of the client. */
  ghost predicate RouterError(log: seq<Sent>, m: Message) {
    exists e, serial :: e in log && m == UnavailableReply(e.msg, serial)
  }

  ghost predicate OutFramed(log: seq<Sent>, o: Out) {
    match o.origin
    case FromBoth => OneFrame(o.msg) && o.msg.fds == []
    case FromRouter => RouterError(log, o.msg)
    case _ => true
  }

  predicate DispatchFramed(s: State) {
    && AllSentWhole(s.contIn) && AllSentWhole(s.hostIn) && MergesFramed(s.merges)
    && (InHand(s.disp).Some? ==> WholeFrame(InHand(s.disp).value.msg) && InHand(s.disp).value in s.log)
  }

  ghost predicate Framed(s: State) {
    && AllSentWhole(s.log) && DispatchFramed(s)
    && AllWhole(s.contSent) && AllWhole(s.hostSent)
    && ReaderFramed(s.cont) && ReaderFramed(s.host)
    && forall p :: 0 <= p < |s.clientOut| ==> OutFramed(s.log, s.clientOut[p])
  }

  /** The merged reply is one frame. */
  lemma CombinedIsFramed(cont: Message, host: Message)
    requires ReplyTo(cont, host.fields.replySerial) && ReplyTo(host, cont.fields.replySerial) && OneFrame(cont)
    ensures OneFrame(Combine(cont, host)) && Combine(cont, host).fds == []
  {
    hide SelfContained, Parse, Merge, Mergeable;
    ReceivedMerge(cont, host);
    if cont.kind == TYPE_METHOD_RETURN || host.kind == TYPE_METHOD_RETURN {
      MergedReplyReads(cont, host);
      assert Combine(cont, host) == Merge(cont, host);
    } else {
      MergedErrors(cont, host);
    }
  }

  lemma OneMoreIsWhole(es: seq<Sent>, e: Sent)
    requires AllSentWhole(es) && WholeFrame(e.msg)
    ensures AllSentWhole(es + [e])
  {
    hide WholeFrame;
  }

  lemma NotingKeepsFramed(s: State, e: Sent)
    requires MergesFramed(s.merges)
    ensures MergesFramed(Note(s, e).merges) && MergesFramed(Undo(s, e).merges)
  {
    hide OneFrame;
  }

  lemma RecordsKeepFramed(s: State, ok: bool, serial: uint32)
    requires DispatchFramed(s) && (s.disp.Noting? || s.disp.Undoing?)
    ensures DispatchFramed(DispatcherStep(s, ok, serial))
  {
    NotingKeepsFramed(s, s.disp.e);
    hide WholeFrame, AllSentWhole, MergesFramed;
  }

  lemma WritesKeepFramed(s: State, ok: bool, serial: uint32)
    requires DispatchFramed(s) && (s.disp.WritingHost? || s.disp.WritingContainer?)
    ensures DispatchFramed(DispatcherStep(s, ok, serial))
  {
    OneMoreIsWhole(s.contIn, s.disp.e);
    OneMoreIsWhole(s.hostIn, s.disp.e);
    hide WholeFrame, AllSentWhole, MergesFramed;
  }

  lemma DispatcherKeepsFramed(s: State, ok: bool, serial: uint32)
    requires DispatchFramed(s)
    ensures DispatchFramed(DispatcherStep(s, ok, serial))
  {
    match s.disp
    case Noting(_) => RecordsKeepFramed(s, ok, serial);
    case Undoing(_) => RecordsKeepFramed(s, ok, serial);
    case WritingHost(_) => WritesKeepFramed(s, ok, serial);
    case WritingContainer(_) => WritesKeepFramed(s, ok, serial);
    case Answering(_) => hide WholeFrame, AllSentWhole, MergesFramed, UnavailableReply;
    case _ =>
  }

  lemma ContainerKeepsFramed(s: State, ok: bool)
    requires Framed(s) && Sound(s) && HandsFit(s)
    ensures
      var t := ContainerStep(s, ok);
      MergesFramed(t.merges) && ReaderFramed(t.cont)
  {
    hide WholeFrame, OneFrame, OutFramed, Combine, LogOf, PendingSound, BusSound, Answers;
    match s.cont
    case Matching(m) =>
      WholeMeansOneFrame(s.contSent[s.contTaken - 1]);
      var n := m.fields.replySerial;
      if n in s.merges && s.merges[n].hostMsg.Some? {
        assert MergeFits(LogOf(s.log, n), n, s.merges[n]);
        CombinedIsFramed(m, s.merges[n].hostMsg.value);
      }
    case Waiting =>
    case Sending(_) =>
    case SendingMerged(_) =>
    case _ =>
  }

  lemma HostMatchesFramed(s: State, ok: bool)
    requires MergesFramed(s.merges) && Sound(s) && s.host.Matching?
    ensures
      var t := HostStep(s, ok);
      MergesFramed(t.merges) && ReaderFramed(t.host)
  {
    hide WholeFrame, OneFrame, Combine, LogOf, PendingSound, BusSound, Answers;
    var n := s.host.m.fields.replySerial;
    if n in s.merges && s.merges[n].contMsg.Some? {
      assert MergeFits(LogOf(s.log, n), n, s.merges[n]);
      CombinedIsFramed(s.merges[n].contMsg.value, s.host.m);
    }
  }

  lemma HostAcceptsFramed(s: State, ok: bool)
    requires MergesFramed(s.merges) && (s.host.Waiting? || s.host.LookingUp?)
    ensures
      var t := HostStep(s, ok);
      MergesFramed(t.merges) && ReaderFramed(t.host)
  {
    hide MergesFramed, OneFrame, AcceptSignal, AcceptReply;
    if s.host.Waiting? && s.hostTaken < |s.hostSent| {
      AcceptedIsNotMerged(s.hostSent[s.hostTaken], Pending(Swallow, []));
    }
    if s.host.LookingUp? && s.host.m.fields.replySerial in s.hostPending {
      AcceptedIsNotMerged(s.host.m, s.hostPending[s.host.m.fields.replySerial]);
    }
  }

  lemma HostKeepsFramed(s: State, ok: bool)
    requires MergesFramed(s.merges) && Sound(s)
    ensures
      var t := HostStep(s, ok);
      MergesFramed(t.merges) && ReaderFramed(t.host)
  {
    match s.host
    case Waiting => HostAcceptsFramed(s, ok);
    case LookingUp(_) => HostAcceptsFramed(s, ok);
    case Matching(_) => HostMatchesFramed(s, ok);
    case _ => hide Sound, MergesFramed, OneFrame, Remember;
  }

  lemma HandedIsFramed(s: State, step: Step, o: Out)
    requires Framed(s) && Hands(s, step, o)
    ensures OutFramed(s.log, o)
  {
    hide WholeFrame, OneFrame, UnavailableReply;
  }

  lemma LogOnlyGrows(s: State, step: Step)
    ensures s.log <= Next(s, step).log
  {
    hide RouteOf, DispatcherStep, ContainerStep, HostStep;
    match step
    case Dispatch(ok, serial) => DispatcherEffect(s, ok, serial);
    case ContainerReads(ok) => ContainerEffect(s, ok);
    case HostReads(ok) => HostEffect(s, ok);
    case _ =>
  }

  lemma OutStaysFramed(log: seq<Sent>, longer: seq<Sent>, o: Out)
    requires OutFramed(log, o) && log <= longer
    ensures OutFramed(longer, o)
  {
    hide OneFrame, UnavailableReply;
    if o.origin.FromRouter? {
      var e, serial :| e in log && o.msg == UnavailableReply(e.msg, serial);
      assert e in longer;
    }
  }

  lemma OutsKeepFramed(s: State, step: Step)
    requires Framed(s) && HandsFit(s)
    ensures forall p :: 0 <= p < |Next(s, step).clientOut| ==> OutFramed(Next(s, step).log, Next(s, step).clientOut[p])
  {
    hide Next, OutFramed, Hands, DispatchFramed, AllSentWhole, AllWhole, ReaderFramed;
    LogOnlyGrows(s, step);
    StepHandsOne(s, step);
    var t := Next(s, step);
    forall o | OutFramed(s.log, o) ensures OutFramed(t.log, o) {
      OutStaysFramed(s.log, t.log, o);
    }
    if t.clientOut != s.clientOut {
      var o :| t.clientOut == s.clientOut + [o] && Hands(s, step, o);
      HandedIsFramed(s, step, o);
    }
  }

  lemma OutsideKeepsFramed(s: State, step: Step)
    requires Framed(s) && HandsFit(s) && FramedStep(step) && By(step) == TheOutside
    ensures Framed(Next(s, step))
  {
    hide RouteOf, WholeFrame, OutFramed, MergesFramed, ReaderFramed;
    OutsKeepFramed(s, step);
  }

  lemma StepKeepsFramed(s: State, step: Step)
    requires Framed(s) && Sound(s) && HandsFit(s) && FramedStep(step)
    ensures Framed(Next(s, step))
  {
    hide DispatcherStep, ContainerStep, HostStep, RouteOf, WholeFrame, AllWhole, AllSentWhole, OutFramed, Sound, HandsFit;
    hide MergesFramed, ReaderFramed;
    OutsKeepFramed(s, step);
    match step
    case Dispatch(ok, serial) =>
      DispatcherEffect(s, ok, serial);
      DispatcherKeepsFramed(s, ok, serial);
    case ContainerReads(ok) =>
      ContainerEffect(s, ok);
      ContainerKeepsFramed(s, ok);
    case HostReads(ok) =>
      HostEffect(s, ok);
      HostKeepsFramed(s, ok);
    case _ => OutsideKeepsFramed(s, step);
  }

  lemma {:induction false} RunKeepsFramed(s: State, steps: seq<Step>)
    requires Framed(s) && Sound(s) && InOrder(s) && ValidRun(s, steps) && FramedRun(steps)
    ensures Framed(Run(s, steps))
    decreases |steps|
  {
    hide Framed, Sound, HandsFit, InPlace, Precedes, Next, Enabled, FramedStep;
    if steps != [] {
      StepKeepsSound(s, steps[0]);
      StepKeepsOrder(s, steps[0]);
      StepKeepsFramed(s, steps[0]);
      RunKeepsFramed(Next(s, steps[0]), steps[1..]);
    }
  }

  lemma FramedAfter(hostUp: bool, steps: seq<Step>)
    requires ValidRun(Initial(hostUp), steps) && FramedRun(steps)
    ensures Framed(Run(Initial(hostUp), steps)) && InOrder(Run(Initial(hostUp), steps))
  {
    SoundInitially(hostUp);
    assert InOrder(Initial(hostUp)) && Framed(Initial(hostUp));
    RunKeepsFramed(Initial(hostUp), steps);
    RunKeepsOrder(Initial(hostUp), steps);
  }

  function Messages(es: seq<Sent>): (ms: seq<Message>)
    ensures |ms| == |es|
  {
    seq(|es|, i requires 0 <= i < |es| => es[i].msg)
  }

  /** A message to the client as its bytes read. */
  function ReadAs(o: Out): Message {
    if Parse(o.msg.raw).Success? then Parse(o.msg.raw).value.(fds := o.msg.fds) else o.msg
  }

  function AsRead(outs: seq<Out>): (ms: seq<Message>)
    ensures |ms| == |outs|
  {
    seq(|outs|, i requires 0 <= i < |outs| => ReadAs(outs[i]))
  }

  lemma {:induction false} RawsAppend(ms: seq<Message>, m: Message)
    ensures Raws(ms + [m]) == Raws(ms) + m.raw
    decreases |ms|
  {
    if ms == [] {
      assert ([] + [m])[1..] == [];
    } else {
      assert (ms + [m])[1..] == ms[1..] + [m];
      RawsAppend(ms[1..], m);
    }
  }

  lemma {:induction false} SentBytesAreRaws(es: seq<Sent>)
    ensures SentBytes(es) == Raws(Messages(es))
    decreases |es|
  {
    if es != [] {
      var n := |es| - 1;
      SentBytesAreRaws(es[..n]);
      RawsAppend(Messages(es[..n]), es[n].msg);
      assert Messages(es) == Messages(es[..n]) + [es[n].msg];
    }
  }

  lemma ReadAsKeepsRaw(o: Out)
    ensures ReadAs(o).raw == o.msg.raw
  {
    hide ParseFrom;
  }

  lemma {:induction false} OutBytesAreRaws(outs: seq<Out>)
    ensures OutBytes(outs) == Raws(AsRead(outs))
    decreases |outs|
  {
    hide ReadAs;
    if outs != [] {
      var n := |outs| - 1;
      OutBytesAreRaws(outs[..n]);
      ReadAsKeepsRaw(outs[n]);
      RawsAppend(AsRead(outs[..n]), ReadAs(outs[n]));
      assert AsRead(outs) == AsRead(outs[..n]) + [ReadAs(outs[n])];
    }
  }

  // What is read from a stream of frames, whatever descriptors come along.

  function Bare(m: Message): Message {
    m.(fds := [])
  }

  /** How many descriptors the headers of the messages declare. */
  function Declared(ms: seq<Message>): nat
    decreases |ms|
  {
    if ms == [] then 0 else ms[0].fields.unixFDs + Declared(ms[1..])
  }

  predicate AllFrames(ms: seq<Message>) {
    forall i :: 0 <= i < |ms| ==> OneFrame(ms[i])
  }

  predicate AllSmall(ms: seq<Message>) {
    forall i :: 0 <= i < |ms| ==> |ms[i].raw| <= MAX_MESSAGE_SIZE
  }

  /** The messages read are the first of those written, up to their descriptors. */
  predicate FirstOf(read: seq<Message>, written: seq<Message>) {
    |read| <= |written| && forall i :: 0 <= i < |read| ==> Bare(read[i]) == Bare(written[i])
  }

  /** The frame at the front of a stream is read if its size is accepted and its descriptors are there. */
  lemma FrontFrame(m: Message, bytes: seq<byte>, ds: seq<Fd>)
    requires OneFrame(m)
    ensures
      var o := NextFrame(m.raw + bytes, ds);
      if |m.raw| <= MAX_MESSAGE_SIZE && m.fields.unixFDs <= |ds| then
        o == Outcome(Success(m.(fds := ds[..m.fields.unixFDs])), bytes, ds[m.fields.unixFDs..])
      else o.result.Failure?
  {
    hide ParseFrom, GetUint32, PaddedHeader;
    var all := m.raw + bytes;
    ParsedHasNoFds(m.raw);
    var order := OrderOf(m.raw[0]).value;
    SameFrameLength(m.raw, all, order);
    assert Parse(m.raw).value.totalLength == FrameLength(m.raw, order) == |m.raw|;
    assert all[..|m.raw|] == m.raw && all[|m.raw|..] == bytes;
  }

  lemma NothingFollows(ds: seq<Fd>)
    ensures Frames([], ds) == Stream([], [], ds, StreamEnded)
  {
    assert NextFrame([], ds).result == Failure(StreamEnded);
  }

  /** Of frames written one after the other, the messages read are the first ones, up to their
      descriptors; all of them, with nothing left, if and only if every size is accepted and as many
      descriptors come along as the headers declare. */
  lemma {:induction false} FramesRead(ms: seq<Message>, ds: seq<Fd>)
    requires AllFrames(ms)
    ensures
      var r := Frames(Raws(ms), ds);
      && FirstOf(r.messages, ms)
      && (|r.messages| == |ms| <==> AllSmall(ms) && Declared(ms) <= |ds|)
      && (|r.messages| == |ms| ==> r.bytes == [] && r.error == StreamEnded)
    decreases |ms|
  {
    hide NextFrame, OneFrame;
    if ms == [] {
      NothingFollows(ds);
    } else {
      var m, tail := ms[0], ms[1..];
      FrontFrame(m, Raws(tail), ds);
      var r := Frames(Raws(ms), ds);
      if |m.raw| <= MAX_MESSAGE_SIZE && m.fields.unixFDs <= |ds| {
        FrameAdvances(Raws(ms), ds);
        FramesRead(tail, ds[m.fields.unixFDs..]);
        var rest := Frames(Raws(tail), ds[m.fields.unixFDs..]);
        assert r.messages == [m.(fds := ds[..m.fields.unixFDs])] + rest.messages;
        assert FirstOf(r.messages, ms) by {
          forall i | 0 <= i < |r.messages| ensures Bare(r.messages[i]) == Bare(ms[i]) {
            assert i > 0 ==> r.messages[i] == rest.messages[i - 1] && ms[i] == tail[i - 1];
          }
        }
        assert AllSmall(ms) <==> AllSmall(tail);
      } else {
        assert r.messages == [];
      }
    }
  }

  /** The bytes are frames of the messages: with any descriptors, what is read are the first of the
      messages, and all of them exactly when enough descriptors come along. No descriptor is lost. */
  predicate ReadsBack(bytes: seq<byte>, ms: seq<Message>, ds: seq<Fd>) {
    var r := Frames(bytes, ds);
    && FirstOf(r.messages, ms)
    && (|r.messages| == |ms| <==> Declared(ms) <= |ds|)
    && FdsOf(r.messages) + r.fds == ds
  }

  lemma WholeStreamReadsBack(ms: seq<Message>, ds: seq<Fd>)
    requires AllWhole(ms)
    ensures ReadsBack(Raws(ms), ms, ds)
  {
    hide WholeFrame, OneFrame, Frames, Raws, FdsOf, Declared, FirstOf;
    forall i | 0 <= i < |ms| ensures OneFrame(ms[i]) && |ms[i].raw| <= MAX_MESSAGE_SIZE {
      WholeMeansOneFrame(ms[i]);
    }
    FramesRead(ms, ds);
    StreamConserved(Raws(ms), ds);
  }

  /** The bytes that a bus receives read back as exactly the client messages routed to it, provided
      that their descriptors come along; where they do not, because a copy is sent without the
      descriptors that could not be duplicated, only the messages before it are read. In a run
      without failed writes these are all the messages routed to the bus. */
  lemma BusStreamsRead(hostUp: bool, steps: seq<Step>, ds: seq<Fd>)
    requires ValidRun(Initial(hostUp), steps) && FramedRun(steps)
    ensures
      var s := Run(Initial(hostUp), steps);
      && ReadsBack(SentBytes(s.contIn), Messages(s.contIn), ds)
      && ReadsBack(SentBytes(s.hostIn), Messages(s.hostIn), ds)
      && (!s.failed && s.disp.Idle? ==>
            && SentBytes(s.contIn) == Raws(Messages(ContainerShare(s.log)))
            && SentBytes(s.hostIn) == Raws(Messages(HostShare(s.log)))
            && ReadsBack(SentBytes(s.contIn), Messages(ContainerShare(s.log)), ds)
            && ReadsBack(SentBytes(s.hostIn), Messages(HostShare(s.log)), ds))
  {
    hide Run, ValidRun, FramedRun, WholeFrame, SentBytes, ReadsBack, Raws, ContainerShare, HostShare, InOrder;
    FramedAfter(hostUp, steps);
    NothingIsLost(hostUp, steps);
    var s := Run(Initial(hostUp), steps);
    SentBytesAreRaws(s.contIn);
    SentBytesAreRaws(s.hostIn);
    WholeStreamReadsBack(Messages(s.contIn), ds);
    WholeStreamReadsBack(Messages(s.hostIn), ds);
  }

  lemma RouterErrorReads(s: State, o: Out)
    requires AllSentWhole(s.log) && o.origin.FromRouter? && RouterError(s.log, o.msg)
    ensures OneFrame(ReadAs(o)) && ReadAs(o).fds == o.msg.fds == [] && ReadAs(o).fields.unixFDs == 0
    ensures ReadAs(o).kind == o.msg.kind == TYPE_ERROR && ReadAs(o).fields.replySerial == o.msg.fields.replySerial
    ensures exists e :: e in s.log && ReadAs(o).fields.destination == e.msg.fields.sender
  {
    hide WholeFrame, Parse, SelfContained, ErrorFrame, TextBody, ErrorFieldBytes, PaddedHeader, UnavailableText, ErrorFits;
    var e, serial :| e in s.log && o.msg == UnavailableReply(e.msg, serial);
    RefusalFits(e.msg);
    ErrorReplyReads(e.msg, SERVICE_UNKNOWN, UnavailableText(e.msg.fields.destination), serial);
    var m := ErrorAsRead(e.msg, SERVICE_UNKNOWN, UnavailableText(e.msg.fields.destination), serial);
    assert ReadAs(o) == m && m.(fds := []) == m;
  }

  /** What the client reads is what was sent; of the router's errors, the bytes say more. */
  predicate FaithfullyRead(o: Out) {
    && OneFrame(ReadAs(o)) && ReadAs(o).fds == o.msg.fds
    && ReadAs(o).kind == o.msg.kind && ReadAs(o).fields.replySerial == o.msg.fields.replySerial
    && (!o.origin.FromRouter? ==> ReadAs(o) == o.msg)
  }

  lemma OutReads(s: State, o: Out)
    requires InPlace(s, o) && OutFramed(s.log, o) && AllSentWhole(s.log) && AllWhole(s.contSent) && AllWhole(s.hostSent)
    ensures FaithfullyRead(o)
    ensures !o.origin.FromBoth? ==> |o.msg.fds| == ReadAs(o).fields.unixFDs
    ensures !o.origin.FromBoth? && !o.origin.FromRouter? ==> |o.msg.raw| <= MAX_MESSAGE_SIZE
  {
    hide WholeFrame, Parse, InPlace;
    if o.origin.FromRouter? {
      RouterErrorReads(s, o);
    } else {
      if !o.origin.FromBoth? {
        PlacedIsWhole(s, o);
        WholeMeansOneFrame(o.msg);
      }
      assert o.msg.(fds := []).(fds := o.msg.fds) == o.msg;
    }
  }

  lemma PlacedIsWhole(s: State, o: Out)
    requires InPlace(s, o) && AllWhole(s.contSent) && AllWhole(s.hostSent) && !o.origin.FromBoth? && !o.origin.FromRouter?
    ensures WholeFrame(o.msg)
  {
    hide WholeFrame, Done;
  }

  /** Whether the client can read a message, by what is in the message: its size must be accepted,
      and a merged reply carries no descriptors, so its header must not declare any. */
  predicate Readable(o: Out) {
    |o.msg.raw| <= MAX_MESSAGE_SIZE && (o.origin.FromBoth? ==> o.msg.fields.unixFDs == 0)
  }

  /** What a message to the client reads as, and whether it can be read. */
  predicate ReadableIfSaid(o: Out) {
    FaithfullyRead(o) && (WholeFrame(ReadAs(o)) <==> Readable(o))
  }

  lemma AllFaithful(hostUp: bool, steps: seq<Step>)
    requires ValidRun(Initial(hostUp), steps) && FramedRun(steps)
    ensures forall o :: o in Run(Initial(hostUp), steps).clientOut ==> ReadableIfSaid(o)
  {
    hide Run, ValidRun, FramedRun, WholeFrame, ReadAs, OneFrame, AllSentWhole, AllWhole, DispatchFramed, InPlace;
    FramedAfter(hostUp, steps);
    var s := Run(Initial(hostUp), steps);
    forall o | o in s.clientOut ensures ReadableIfSaid(o) {
      OutReads(s, o);
      ReadAsKeepsRaw(o);
      WholeMeansOneFrame(ReadAs(o));
    }
  }

  lemma WholeStreamIsRead(ms: seq<Message>)
    ensures Frames(Raws(ms), FdsOf(ms)) == Stream(ms, [], [], StreamEnded) <==> AllWhole(ms)
  {
    hide WholeFrame, Raws, FdsOf, Frames;
    if AllWhole(ms) {
      WrittenFramesRead(ms, [], []);
      assert Raws(ms) + [] == Raws(ms) && FdsOf(ms) + [] == FdsOf(ms);
      NothingFollows([]);
      assert ms + [] == ms;
    }
    StreamConserved(Raws(ms), FdsOf(ms));
  }

  /** The client stream is a concatenation of frames at any moment. With the descriptors that were
      sent along it reads back as exactly the messages that were sent, the router's own errors with
      the destination that their struct leaves out, if and only if each of them is readable. */
  lemma ClientStreamReads(hostUp: bool, steps: seq<Step>)
    requires ValidRun(Initial(hostUp), steps) && FramedRun(steps)
    ensures
      var outs := Run(Initial(hostUp), steps).clientOut;
      && (Frames(OutBytes(outs), FdsOf(AsRead(outs))) == Stream(AsRead(outs), [], [], StreamEnded)
          <==> forall o :: o in outs ==> Readable(o))
      && forall o :: o in outs ==> FaithfullyRead(o)
  {
    hide Run, ValidRun, FramedRun, WholeFrame, ReadAs, OutBytes, Frames, FdsOf, Raws, FaithfullyRead;
    AllFaithful(hostUp, steps);
    var outs := Run(Initial(hostUp), steps).clientOut;
    OutBytesAreRaws(outs);
    WholeStreamIsRead(AsRead(outs));
    AllReadable(outs);
  }

  lemma AllReadable(outs: seq<Out>)
    requires forall o :: o in outs ==> ReadableIfSaid(o)
    ensures AllWhole(AsRead(outs)) <==> forall o :: o in outs ==> Readable(o)
  {
    hide WholeFrame, ReadAs, Readable, FaithfullyRead;
    if AllWhole(AsRead(outs)) {
      forall o | o in outs ensures Readable(o) {
        var i :| 0 <= i < |outs| && outs[i] == o;
        assert WholeFrame(AsRead(outs)[i]);
      }
    }
    forall i | 0 <= i < |outs| && Readable(outs[i]) ensures WholeFrame(AsRead(outs)[i]) {
      assert outs[i] in outs;
    }
  }

  lemma {:induction false} SameReplies(a: seq<Message>, b: seq<Message>, n: uint32)
    requires |a| == |b| && forall i :: 0 <= i < |a| ==> Bare(a[i]) == Bare(b[i])
    ensures Replies(a, n) == Replies(b, n)
    decreases |a|
  {
    if a != [] {
      var k := |a| - 1;
      SameReplies(a[..k], b[..k], n);
      assert a[k].kind == Bare(a[k]).kind == Bare(b[k]).kind == b[k].kind;
      assert a[k].fields == Bare(a[k]).fields == Bare(b[k]).fields == b[k].fields;
    }
  }

  lemma {:induction false} ReadReplies(outs: seq<Out>, n: uint32)
    requires forall o :: o in outs ==> FaithfullyRead(o)
    ensures Replies(AsRead(outs), n) == Delivered(outs, n)
    decreases |outs|
  {
    hide ReadAs, OneFrame;
    if outs != [] {
      var k := |outs| - 1;
      assert FaithfullyRead(outs[k]);
      ReadReplies(outs[..k], n);
      assert AsRead(outs)[..k] == AsRead(outs[..k]);
    }
  }

  /** At most one reply per call, in bytes: whatever descriptors come along, among the messages that
      the client reads from its stream there is at most one return or error for each serial, and none
      it did not ask for. */
  lemma ClientReadsAtMostOneReply(hostUp: bool, steps: seq<Step>, ds: seq<Fd>, n: uint32)
    requires ValidRun(Initial(hostUp), steps) && FramedRun(steps)
    ensures
      var s := Run(Initial(hostUp), steps);
      && FirstOf(Frames(OutBytes(s.clientOut), ds).messages, AsRead(s.clientOut))
      && Replies(Frames(OutBytes(s.clientOut), ds).messages, n) <= Owed(LogOf(s.log, n)) <= 1
  {
    hide Run, ValidRun, FramedRun, ReadAs, OneFrame, OutBytes, Frames, Raws, Declared, LogOf, Replies, Delivered, Readable, WholeFrame;
    AllFaithful(hostUp, steps);
    AtMostOneReply(hostUp, steps, n);
    var outs := Run(Initial(hostUp), steps).clientOut;
    var ms := AsRead(outs);
    forall i | 0 <= i < |ms| ensures OneFrame(ms[i]) {
      assert outs[i] in outs && ReadableIfSaid(outs[i]);
    }
    OutBytesAreRaws(outs);
    FramesRead(ms, ds);
    ReadReplies(outs, n);
    var read := Frames(OutBytes(outs), ds).messages;
    SameReplies(read, ms[..|read|], n);
    RepliesOfPrefix(ms, |read|, n);
  }

  /** The same of the session object: whatever turns its methods have made so far, in any order, the
      bytes on its three sockets read back as the messages of its run, and the client reads at most
      one reply to a call, whatever descriptors come along. */
  lemma SessionStreamsRead(session: ClientSession, ds: seq<Fd>, n: uint32)
    requires session.Valid([]) && ValidRun(Initial(session.hostConn), session.trace) && FramedRun(session.trace)
    ensures
      var s := session.state;
      && ReadsBack(session.containerStream, Messages(s.contIn), ds)
      && ReadsBack(session.hostStream, Messages(s.hostIn), ds)
      && FirstOf(Frames(session.clientStream, ds).messages, AsRead(s.clientOut))
      && Replies(Frames(session.clientStream, ds).messages, n) <= 1
      && (Frames(session.clientStream, FdsOf(AsRead(s.clientOut))) == Stream(AsRead(s.clientOut), [], [], StreamEnded)
          <==> forall o :: o in s.clientOut ==> Readable(o))
  {
    hide Run, ValidRun, FramedRun, ReadAs, OutBytes, SentBytes, Frames, FdsOf, Readable, ReadsBack, ContainerShare, HostShare, LogOf;
    BusStreamsRead(session.hostConn, session.trace, ds);
    ClientStreamReads(session.hostConn, session.trace);
    ClientReadsAtMostOneReply(session.hostConn, session.trace, ds, n);
  }
}
