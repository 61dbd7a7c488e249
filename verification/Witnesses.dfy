/** Runs in which the code does not do what one would expect of it, with real frames: a message that
    is no call leaves its entry behind (container/dbus/router.go:385-434), and a merged reply declares
    descriptors that it does not carry (container/dbus/router.go:532-536, 565-588). */
module Witnesses {
  import opened Bytes
  import opened Wrappers
  import opened Wire
  import opened Bodies
  import opened HeaderFields
  import opened BuiltFrames
  import opened ErrorReply
  import opened Session
  import opened Routing
  import opened Quiescence
  import opened Reader
  import opened ClientSessions
  import opened EndToEnd
  import opened Readability

  const GO_ON := Dispatch(true, 0)

  /** The client sends a message, and the dispatcher records it, copies it and delivers it. */
  function Dispatched(m: Message): seq<Step> {
    [ClientSends(m), GO_ON, GO_ON, GO_ON]
  }

  function AfterDispatch(e: Sent): State {
    Note(Initial(true), e).(log := [e], hostIn := [e], contIn := [e])
  }

  lemma {:induction false} RunsCompose(s: State, a: seq<Step>, b: seq<Step>)
    ensures Run(s, a + b) == Run(Run(s, a), b)
    ensures ValidRun(s, a) && ValidRun(Run(s, a), b) ==> ValidRun(s, a + b)
    ensures DisciplinedRun(s, a) && DisciplinedRun(Run(s, a), b) ==> DisciplinedRun(s, a + b)
    decreases |a|
  {
    hide Next, Enabled, HostAnswers;
    if a == [] {
      assert a + b == b;
    } else {
      assert (a + b)[1..] == a[1..] + b;
      RunsCompose(Next(s, a[0]), a[1..], b);
    }
  }

  lemma OneStep(s: State, step: Step)
    ensures Run(s, [step]) == Next(s, step)
    ensures Enabled(s, step) ==> ValidRun(s, [step])
    ensures HostAnswers(s, step) ==> DisciplinedRun(s, [step])
  {
    hide Next, Enabled, HostAnswers;
    assert [step][1..] == [];
  }

  /** One more step at the end of a run. */
  lemma GoesOn(s: State, a: seq<Step>, t: State, step: Step)
    requires Run(s, a) == t && ValidRun(s, a) && DisciplinedRun(s, a)
    requires Enabled(t, step) && HostAnswers(t, step)
    ensures Run(s, a + [step]) == Next(t, step) && ValidRun(s, a + [step]) && DisciplinedRun(s, a + [step])
  {
    hide Next, Enabled, HostAnswers, Run, ValidRun, DisciplinedRun;
    OneStep(t, step);
    RunsCompose(s, a, [step]);
  }

  lemma DispatchRuns(m: Message, e: Sent)
    requires e == Sent(m, RouteOf(m, true, {}), {}) && (e.route.CopySwallow? || e.route.CopyMerge?)
    ensures
      var s := Initial(true);
      Run(s, Dispatched(m)) == AfterDispatch(e) && ValidRun(s, Dispatched(m)) && DisciplinedRun(s, Dispatched(m))
  {
    hide Run, ValidRun, DisciplinedRun, RouteOf;
    var s := Initial(true);
    OneStep(s, ClientSends(m));
    var s1 := s.(log := [e], disp := Noting(e));
    assert Next(s, ClientSends(m)) == s1;
    GoesOn(s, [ClientSends(m)], s1, GO_ON);
    var s2 := Note(s1, e).(disp := WritingHost(e));
    GoesOn(s, [ClientSends(m)] + [GO_ON], s2, GO_ON);
    var s3 := s2.(hostIn := [e], disp := WritingContainer(e));
    GoesOn(s, [ClientSends(m)] + [GO_ON] + [GO_ON], s3, GO_ON);
    assert [ClientSends(m)] + [GO_ON] + [GO_ON] + [GO_ON] == Dispatched(m);
  }

  /** Every single message of that kind, sent to the bus with a host bus present, leaves its entry
      behind: the session is drained, nothing has failed, and the entry stands. */
  lemma EntryIsLeft(m: Message)
    requires LeavesEntry(m, true)
    ensures
      var s := Run(Initial(true), Dispatched(m));
      && ValidRun(Initial(true), Dispatched(m)) && DisciplinedRun(Initial(true), Dispatched(m))
      && Drained(s) && !s.failed
      && (m.serial in s.hostPending || m.serial in s.merges)
  {
    hide Run, ValidRun, DisciplinedRun, RouteOf, LeavesEntry;
    var e := Sent(m, RouteOf(m, true, {}), {});
    LeftBehind(e, true);
    NoCall(m);
    DispatchRuns(m, e);
    NothingToAnswer(e);
  }

  lemma NoCall(m: Message)
    requires LeavesEntry(m, true)
    ensures !m.IsCall()
  {
  }

  lemma NothingToAnswer(e: Sent)
    requires !e.msg.IsCall() && e.Recorded()
    ensures Drained(AfterDispatch(e)) && !AfterDispatch(e).failed
    ensures e.Serial() in AfterDispatch(e).hostPending || e.Serial() in AfterDispatch(e).merges
  {
    assert forall n :: Calls([e], n) == Calls([], n);
  }

  /** A frame of two text fields and a body, all of them short. */
  lemma ShortFrame(kind: byte, serial: uint32, f: Field, g: Field, body: seq<byte>)
    requires |FieldBytes(f)| <= 100 && |FieldBytes(g)| <= 100 && |body| <= 100
    requires Expressible(f) && Expressible(g)
    ensures
      var m := Built(kind, 0, serial, [f, g], body);
      && OneFrame(m) && SelfContained(m) && |m.raw| <= 1000 && m.fds == []
      && m.fields == Store(Store(NO_FIELDS, f), g)
  {
    hide FieldBytes, FieldArray, BuiltFrame, Parse, SelfContained, PaddedHeader, Expressible, Store;
    var fs := [f, g];
    ShortFields(f, g);
    FrameLayout(kind, 0, serial, fs, body);
    BuiltReads(kind, 0, serial, fs, body);
    assert fs[1..] == [g] && [g][1..] == [];
    assert StoreAll(NO_FIELDS, fs) == StoreAll(Store(NO_FIELDS, f), [g]);
    var m := Built(kind, 0, serial, fs, body);
    assert m.(fds := []) == m;
  }

  lemma ShortFields(f: Field, g: Field)
    requires |FieldBytes(f)| <= 100 && |FieldBytes(g)| <= 100
    ensures |FieldArray([f, g])| <= 214
  {
    hide FieldBytes, AppendFields;
    AppendedSize([], [f, g]);
    RoomForTwo(f, g, []);
    assert [f, g] + [] == [f, g];
  }

  /** A return, to the bus itself, that names a member which the router records. */
  const HELLO_RETURN := Built(TYPE_METHOD_RETURN, 0, 1, [TextField(HEADER_DESTINATION, BUS), TextField(HEADER_MEMBER, Ascii("Hello"))], [])

  /** Such a message can be sent: so the maps of a drained session need not be empty. */
  lemma EntryCanBeLeft()
    ensures WholeFrame(HELLO_RETURN) && LeavesEntry(HELLO_RETURN, true)
    ensures
      var s := Run(Initial(true), Dispatched(HELLO_RETURN));
      && ValidRun(Initial(true), Dispatched(HELLO_RETURN)) && DisciplinedRun(Initial(true), Dispatched(HELLO_RETURN))
      && Drained(s) && !s.failed && 1 in s.hostPending
  {
    hide Run, ValidRun, DisciplinedRun, Drained;
    HelloReturnReads();
    EntryIsLeft(HELLO_RETURN);
    DispatchRuns(HELLO_RETURN, Sent(HELLO_RETURN, CopySwallow, {}));
  }

  lemma HelloReturnReads()
    ensures WholeFrame(HELLO_RETURN) && LeavesEntry(HELLO_RETURN, true) && HELLO_RETURN.serial == 1
    ensures RouteOf(HELLO_RETURN, true, {}) == CopySwallow
  {
    hide BuiltFrame, FieldArray, SelfContained, OneFrame, WholeFrame, Uint32Bytes;
    var f, g := TextField(HEADER_DESTINATION, BUS), TextField(HEADER_MEMBER, Ascii("Hello"));
    assert |FieldBytes(f)| <= 100 && |FieldBytes(g)| <= 100;
    ShortFrame(TYPE_METHOD_RETURN, 1, f, g, []);
    WholeMeansOneFrame(HELLO_RETURN);
  }

  /** The container answers, then the host, and the merged reply goes to the client. */
  function Answered(r1: Message, r2: Message): seq<Step> {
    [ContainerSends(r1), ContainerReads(true), ContainerReads(true), HostSends(r2), HostReads(true), HostReads(true), HostReads(true)]
  }

  predicate AnswersCall(r: Message, n: uint32) {
    r.IsReply() && r.fields.replySerial == n && Received(r) && SelfContained(r)
  }

  lemma MayReply(e: Sent, r: Message)
    requires e.msg.IsCall() && AnswersCall(r, e.Serial())
    ensures MayAnswer([e], [], r) && WellFormed([e], r)
  {
    hide Received, SelfContained;
    assert Calls([e], e.Serial()) == 1 + Calls([], e.Serial());
  }

  lemma AnswersRun(s: State, a: seq<Step>, e: Sent, r1: Message, r2: Message)
    requires Run(s, a) == AfterDispatch(e) && ValidRun(s, a) && DisciplinedRun(s, a)
    requires e.route.CopyMerge? && e.msg.IsCall() && AnswersCall(r1, e.Serial()) && AnswersCall(r2, e.Serial())
    ensures
      var all := a + Answered(r1, r2);
      && ValidRun(s, all) && DisciplinedRun(s, all) && !Run(s, all).failed
      && Run(s, all).clientOut == [Out(FromBoth, Combine(r1, r2))]
  {
    hide Run, ValidRun, DisciplinedRun, Combine, WellFormed, MayAnswer, Received, SelfContained;
    MayReply(e, r1);
    MayReply(e, r2);
    var n := e.Serial();
    var s0 := AfterDispatch(e);
    var blank := MergeState(e.msg.fields.member, None, None);
    assert s0.merges == map[n := blank];
    GoesOn(s, a, s0, ContainerSends(r1));
    var s1 := s0.(contSent := [r1]);
    var a1 := a + [ContainerSends(r1)];
    GoesOn(s, a1, s1, ContainerReads(true));
    var s2 := s1.(contTaken := 1, cont := Matching(r1));
    var a2 := a1 + [ContainerReads(true)];
    GoesOn(s, a2, s2, ContainerReads(true));
    var s3 := s2.(merges := s2.merges[n := blank.(contMsg := Some(r1))], cont := Waiting);
    var a3 := a2 + [ContainerReads(true)];
    GoesOn(s, a3, s3, HostSends(r2));
    var s4 := s3.(hostSent := [r2]);
    var a4 := a3 + [HostSends(r2)];
    GoesOn(s, a4, s4, HostReads(true));
    var s5 := s4.(hostTaken := 1, host := Matching(r2));
    var a5 := a4 + [HostReads(true)];
    GoesOn(s, a5, s5, HostReads(true));
    var s6 := s5.(merges := s5.merges - {n}, host := SendingMerged(Combine(r1, r2)));
    var a6 := a5 + [HostReads(true)];
    GoesOn(s, a6, s6, HostReads(true));
    assert a6 + [HostReads(true)] == a + Answered(r1, r2);
  }

  /** A name list call whose container reply declares a descriptor: the merged reply declares it too
      and does not carry it, so the client cannot read what it is sent. */
  lemma DescriptorsAreLost(c: Message, r1: Message, r2: Message)
    requires RouteOf(c, true, {}) == CopyMerge && c.IsCall() && WholeFrame(c) && WholeFrame(r1) && WholeFrame(r2)
    requires AnswersCall(r1, c.serial) && AnswersCall(r2, c.serial)
    requires r1.kind == TYPE_METHOD_RETURN && r1.fields.unixFDs != 0
    ensures
      var steps := Dispatched(c) + Answered(r1, r2);
      var outs := Run(Initial(true), steps).clientOut;
      && ValidRun(Initial(true), steps) && DisciplinedRun(Initial(true), steps) && FramedRun(steps)
      && !Run(Initial(true), steps).failed
      && Frames(OutBytes(outs), FdsOf(AsRead(outs))) != Stream(AsRead(outs), [], [], StreamEnded)
  {
    hide Run, ValidRun, DisciplinedRun, RouteOf, WholeFrame, Combine, Received, SelfContained, Readable, ReadAs, OutBytes, Frames, FdsOf;
    var e := Sent(c, CopyMerge, {});
    DispatchRuns(c, e);
    AnswersRun(Initial(true), Dispatched(c), e, r1, r2);
    var steps := Dispatched(c) + Answered(r1, r2);
    AllAreWhole(c, r1, r2);
    MergedIsReadable(r1, r2);
    ClientStreamReads(true, steps);
    var o := Out(FromBoth, Combine(r1, r2));
    assert o in Run(Initial(true), steps).clientOut && !Readable(o);
  }

  lemma AllAreWhole(c: Message, r1: Message, r2: Message)
    requires WholeFrame(c) && WholeFrame(r1) && WholeFrame(r2)
    ensures FramedRun(Dispatched(c) + Answered(r1, r2))
  {
    hide WholeFrame;
  }

  const LIST_CALL := Built(TYPE_METHOD_CALL, 0, 1, [TextField(HEADER_DESTINATION, BUS), TextField(HEADER_MEMBER, Ascii("ListNames"))], [])

  /** A reply with an empty list of names, and a header that declares some descriptors. */
  function EmptyList(declared: uint32): Message {
    Built(TYPE_METHOD_RETURN, 0, 1, [UintField(HEADER_REPLY_SERIAL, 1), UintField(HEADER_UNIX_FDS, declared)], [0, 0, 0, 0])
  }

  const CARRYING_REPLY := EmptyList(1).(fds := [5])

  lemma ListCallReads()
    ensures WholeFrame(LIST_CALL) && LIST_CALL.IsCall() && LIST_CALL.serial == 1 && RouteOf(LIST_CALL, true, {}) == CopyMerge
  {
    hide BuiltFrame, FieldArray, SelfContained, OneFrame, WholeFrame, Uint32Bytes;
    var f, g := TextField(HEADER_DESTINATION, BUS), TextField(HEADER_MEMBER, Ascii("ListNames"));
    assert |FieldBytes(f)| <= 100 && |FieldBytes(g)| <= 100;
    ShortFrame(TYPE_METHOD_CALL, 1, f, g, []);
    WholeMeansOneFrame(LIST_CALL);
    BusCallRoutes(LIST_CALL, true, {});
    MembersApart(Ascii("ListNames"));
  }

  lemma EmptyListReads(declared: uint32, fds: seq<Fd>)
    requires |fds| == declared
    ensures
      var r := EmptyList(declared).(fds := fds);
      && WholeFrame(r) && AnswersCall(r, 1) && r.kind == TYPE_METHOD_RETURN && r.fields.unixFDs == declared
  {
    hide BuiltFrame, FieldArray, OneFrame, WholeFrame, Uint32Bytes, Contained, Parse;
    var f, g := UintField(HEADER_REPLY_SERIAL, 1), UintField(HEADER_UNIX_FDS, declared);
    assert |FieldBytes(f)| <= 100 && |FieldBytes(g)| <= 100;
    ShortFrame(TYPE_METHOD_RETURN, 1, f, g, [0, 0, 0, 0]);
    var m := EmptyList(declared);
    var r := m.(fds := fds);
    FdsDoNotMatter(m, fds);
    WholeMeansOneFrame(r);
  }

  lemma FdsDoNotMatter(m: Message, fds: seq<Fd>)
    requires OneFrame(m) && SelfContained(m) && |m.raw| <= MAX_MESSAGE_SIZE
    ensures OneFrame(m.(fds := fds)) && SelfContained(m.(fds := fds)) && Received(m.(fds := fds))
  {
    assert m.(fds := fds).(fds := []) == m.(fds := []);
  }

  /** There are such frames: so it depends on the replies whether the client can read its stream. */
  lemma StreamCanBeUnreadable()
    ensures
      var steps := Dispatched(LIST_CALL) + Answered(CARRYING_REPLY, EmptyList(0));
      var outs := Run(Initial(true), steps).clientOut;
      && ValidRun(Initial(true), steps) && DisciplinedRun(Initial(true), steps) && FramedRun(steps)
      && Frames(OutBytes(outs), FdsOf(AsRead(outs))) != Stream(AsRead(outs), [], [], StreamEnded)
  {
    hide Run, ValidRun, DisciplinedRun, FramedRun, RouteOf, WholeFrame, AnswersCall, Built, AsRead, OutBytes, Frames, FdsOf;
    ListCallReads();
    EmptyListReads(1, [5]);
    EmptyListReads(0, []);
    assert EmptyList(0).(fds := []) == EmptyList(0) by {
      BuiltHasNoFds(0);
    }
    DescriptorsAreLost(LIST_CALL, CARRYING_REPLY, EmptyList(0));
  }

  lemma BuiltHasNoFds(declared: uint32)
    ensures EmptyList(declared).(fds := []) == EmptyList(declared)
  {
    hide BuiltFrame, FieldArray, PaddedHeader;
  }
}
