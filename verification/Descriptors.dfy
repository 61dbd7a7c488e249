/** What becomes of every descriptor by the end of a session. */
module Descriptors {
  import opened Bytes
  import opened Wire
  import Reader
  import opened Session
  import opened Correlation
  import opened Solicited
  import opened Delivery
  import opened Traffic
  import opened Quiescence
  import opened FdLedger

  function LedgerRun(s: State, steps: seq<Step>, dups: seq<seq<Fd>>, l: Ledger): Ledger
    requires |dups| == |steps|
    decreases |steps|
  {
    if steps == [] then l
    else LedgerRun(Next(s, steps[0]), steps[1..], dups[1..], LedgerNext(s, steps[0], l, dups[0]))
  }

  predicate FreshRun(s: State, steps: seq<Step>, dups: seq<seq<Fd>>, l: Ledger)
    requires |dups| == |steps|
    decreases |steps|
  {
    steps == [] ||
    (&& FreshStep(steps[0], l, dups[0])
     && FreshRun(Next(s, steps[0]), steps[1..], dups[1..], LedgerNext(s, steps[0], l, dups[0])))
  }

  const NO_DESCRIPTORS := Ledger(map[], [])

  lemma OwnedInitially(hostUp: bool)
    ensures Owned(Initial(hostUp), NO_DESCRIPTORS)
  {
  }

  lemma {:induction false} RunKeepsOwned(s: State, steps: seq<Step>, dups: seq<seq<Fd>>, l: Ledger)
    requires |dups| == |steps| && Sound(s) && InOrder(s) && Owned(s, l)
    requires ValidRun(s, steps) && FreshRun(s, steps, dups, l)
    ensures Owned(Run(s, steps), LedgerRun(s, steps, dups, l))
    decreases |steps|
  {
    hide Sound, Owned, HandsFit, InPlace, Precedes, Next, Enabled, FreshStep, LedgerNext;
    if steps != [] {
      StepKeepsSound(s, steps[0]);
      StepKeepsOrder(s, steps[0]);
      StepKeepsOwned(s, steps[0], l, dups[0]);
      RunKeepsOwned(Next(s, steps[0]), steps[1..], dups[1..], LedgerNext(s, steps[0], l, dups[0]));
    }
  }

  /** Every descriptor that a run has received or duplicated is at exactly one place: with the
      message it came with, wherever that is now, or closed, or lost with an overwritten or deleted
      merge entry. No path of any interleaving closes one twice. */
  lemma EachDescriptorHasOneOwner(hostUp: bool, steps: seq<Step>, dups: seq<seq<Fd>>)
    requires |dups| == |steps| && ValidRun(Initial(hostUp), steps)
    requires FreshRun(Initial(hostUp), steps, dups, NO_DESCRIPTORS)
    ensures Owned(Run(Initial(hostUp), steps), LedgerRun(Initial(hostUp), steps, dups, NO_DESCRIPTORS))
  {
    SoundInitially(hostUp);
    OwnedInitially(hostUp);
    assert InOrder(Initial(hostUp));
    RunKeepsOwned(Initial(hostUp), steps, dups, NO_DESCRIPTORS);
  }

  predicate NoneLost(l: Ledger) {
    Lost !in l.place.Values
  }

  lemma PutLosesNone(l: Ledger, fds: seq<Fd>, p: Place)
    requires NoneLost(l) && (p != Lost || fds == [])
    ensures NoneLost(Put(l, fds, p)) && NoneLost(Close(l, fds))
  {
    forall f | f in Put(l, fds, p).place ensures Put(l, fds, p).place[f] != Lost {
    }
    forall f | f in Close(l, fds).place ensures Close(l, fds).place[f] != Lost {
    }
  }

  /** Where an entry is deleted after a failed write, it holds no reply yet. */
  lemma UndoneMergeIsEmpty(s: State)
    requires Sound(s) && HandsOrdered(s) && s.disp.Undoing? && s.disp.e.route.CopyMerge?
    requires Balanced(s, s.disp.e.Serial()) && s.disp.e.Serial() in s.merges
    ensures s.merges[s.disp.e.Serial()].hostMsg.None? && s.merges[s.disp.e.Serial()].contMsg.None?
  {
    var n := s.disp.e.Serial();
    OutstandingIsNatural(s, n);
    DisjointEntries(s, n);
    hide LogOf, Replies, Calls, Delivered, PendingSound, MergesSound, BusSound, Answers, ReaderSound, Taken, Outstanding;
  }

  lemma HostStoresOnce(s: State)
    requires Sound(s) && HandsOrdered(s) && s.host.Matching? && s.host.m.fields.replySerial in s.merges
    requires AskedAt(s, s.host.m.fields.replySerial)
    ensures s.merges[s.host.m.fields.replySerial].hostMsg.None?
  {
    var n := s.host.m.fields.replySerial;
    hide LogOf, Replies, Calls, PendingSound, MergesSound, BusSound, Answers, Taken, WellFormed;
    HeldReplyIsAwaited(s, n);
    DisjointEntries(s, n);
  }

  lemma DispatcherLosesNone(s: State, t: State, l: Ledger, dups: seq<Fd>)
    requires FullInv(s) && NoneLost(l)
    ensures NoneLost(DispatcherLedger(s, t, l, dups))
  {
    FullIsSound(s);
    if s.disp.Undoing? && s.disp.e.route.CopyMerge? && s.disp.e.Serial() in s.merges {
      assert Balanced(s, s.disp.e.Serial());
      UndoneMergeIsEmpty(s);
      PutNothing(l, Lost);
    }
    hide FullInv, Sound, HandsOrdered, TrafficInv, NoneLost, Close, Put;
    if InHand(s.disp).Some? {
      PutLosesNone(l, InHand(s.disp).value.msg.fds, Closed);
      PutLosesNone(l, dups, Closed);
      PutLosesNone(Close(l, dups), InHand(s.disp).value.msg.fds, Closed);
    }
  }

  lemma ContainerLosesNone(s: State, l: Ledger)
    requires FullInv(s) && NoneLost(l)
    ensures NoneLost(ContainerLedger(s, l))
  {
    FullIsSound(s);
    if s.cont.Matching? && s.cont.m.fields.replySerial in s.merges {
      assert Balanced(s, s.cont.m.fields.replySerial);
      ContainerReplyIsNew(s);
      PutNothing(l, Lost);
    }
    hide FullInv, Sound, HandsOrdered, TrafficInv, NoneLost, Close, Put;
    match s.cont
    case Waiting =>
      if s.contTaken < |s.contSent| {
        PutLosesNone(l, s.contSent[s.contTaken].fds, WithContainerReader);
      }
    case Matching(m) =>
      var n := m.fields.replySerial;
      PutLosesNone(l, m.fds, StoredContainer(n));
      if n in s.merges && s.merges[n].hostMsg.Some? {
        PutLosesNone(l, s.merges[n].hostMsg.value.fds, Closed);
        PutLosesNone(Close(l, s.merges[n].hostMsg.value.fds), m.fds, Closed);
      }
    case Sending(m) => PutLosesNone(l, m.fds, Closed);
    case _ =>
  }

  lemma HostLosesNone(s: State, t: State, l: Ledger)
    requires FullInv(s) && NoneLost(l)
    ensures NoneLost(HostLedger(s, t, l))
  {
    FullIsSound(s);
    if s.host.Matching? && s.host.m.fields.replySerial in s.merges {
      assert AskedAt(s, s.host.m.fields.replySerial);
      HostStoresOnce(s);
      PutNothing(l, Lost);
    }
    hide FullInv, Sound, HandsOrdered, TrafficInv, NoneLost, Close, Put;
    match s.host
    case Waiting =>
      if s.hostTaken < |s.hostSent| {
        PutLosesNone(l, s.hostSent[s.hostTaken].fds, WithHostReader);
      }
    case Matching(m) =>
      var n := m.fields.replySerial;
      PutLosesNone(l, m.fds, StoredHost(n));
      if n in s.merges && s.merges[n].contMsg.Some? {
        PutLosesNone(Close(l, m.fds), s.merges[n].contMsg.value.fds, Closed);
      }
    case LookingUp(m) => PutLosesNone(l, m.fds, Closed);
    case Learning(m, _, _) => PutLosesNone(l, m.fds, Closed);
    case Sending(m) => PutLosesNone(l, m.fds, Closed);
    case _ =>
  }

  lemma StepLosesNone(s: State, step: Step, l: Ledger, dups: seq<Fd>)
    requires FullInv(s) && NoneLost(l)
    ensures NoneLost(LedgerNext(s, step, l, dups))
  {
    hide FullInv, NoneLost, Next, DispatcherLedger, ContainerLedger, HostLedger, Put;
    match step
    case ClientSends(m) => PutLosesNone(l, m.fds, WithDispatcher);
    case ContainerSends(m) => PutLosesNone(l, m.fds, QueuedContainer(|s.contSent|));
    case HostSends(m) => PutLosesNone(l, m.fds, QueuedHost(|s.hostSent|));
    case Dispatch(_, _) => DispatcherLosesNone(s, Next(s, step), l, dups);
    case ContainerReads(_) => ContainerLosesNone(s, l);
    case HostReads(_) => HostLosesNone(s, Next(s, step), l);
  }

  lemma {:induction false} RunLosesNone(s: State, steps: seq<Step>, dups: seq<seq<Fd>>, l: Ledger)
    requires |dups| == |steps| && FullInv(s) && NoneLost(l)
    requires ValidRun(s, steps) && DisciplinedRun(s, steps)
    ensures NoneLost(LedgerRun(s, steps, dups, l))
    decreases |steps|
  {
    hide FullInv, NoneLost, Next, Enabled, HostAnswers, LedgerNext;
    if steps != [] {
      StepLosesNone(s, steps[0], l, dups[0]);
      StepKeepsFull(s, steps[0]);
      RunLosesNone(Next(s, steps[0]), steps[1..], dups[1..], LedgerNext(s, steps[0], l, dups[0]));
    }
  }

  lemma PlaceIsReal(s: State, l: Ledger, f: Fd)
    requires Owned(s, l) && f in l.place
    ensures Live(l.place[f]) ==> MessageAt(s, l.place[f]).Some? && f in MessageAt(s, l.place[f]).value.fds
    ensures l.place[f] == Closed <==> f in l.closed
  {
    if Live(l.place[f]) {
      assert OwnedAt(s, l, l.place[f]);
    }
  }

  /** Nothing is in anyone's hand or still to be read. */
  predicate AtRest(s: State) {
    && InHand(s.disp).None? && !HasInHand(s.cont) && !HasInHand(s.host)
    && s.contTaken >= |s.contSent| && s.hostTaken >= |s.hostSent|
  }

  lemma StoredOrClosed(s: State, l: Ledger, f: Fd)
    requires Owned(s, l) && NoneLost(l) && AtRest(s) && f in l.place
    ensures f in l.closed || l.place[f].StoredContainer? || l.place[f].StoredHost?
  {
    PlaceIsReal(s, l, f);
    hide Owned;
    assert l.place[f] in l.place.Values;
  }

  lemma NothingIsLostYet()
    ensures NoneLost(NO_DESCRIPTORS)
  {
  }

  lemma PlaceIsNotLost(l: Ledger, f: Fd)
    requires NoneLost(l) && f in l.place
    ensures l.place[f] != Lost
  {
    assert l.place[f] in l.place.Values;
  }

  /** The threads have ended: no message is in anyone's hand, some may never have been read. */
  predicate HandsEmpty(s: State) {
    InHand(s.disp).None? && !HasInHand(s.cont) && !HasInHand(s.host)
  }

  function CloseAll(l: Ledger, ms: seq<Message>): Ledger
    decreases |ms|
  {
    if ms == [] then l else CloseAll(Close(l, ms[0].fds), ms[1..])
  }

  function UnreadContainer(s: State): seq<Message> {
    if s.contTaken <= |s.contSent| then s.contSent[s.contTaken..] else []
  }

  function UnreadHost(s: State): seq<Message> {
    if s.hostTaken <= |s.hostSent| then s.hostSent[s.hostTaken..] else []
  }

  /** The end of a session: the readers are closed, and with them the connections. What has arrived
      for messages that were never read is closed. */
  function SessionEnd(s: State, l: Ledger): Ledger {
    CloseAll(CloseAll(l, UnreadContainer(s)), UnreadHost(s))
  }

  /** What is closed at the end are the descriptors that the readers have still to hand out. */
  lemma {:induction false} ClosesWhatIsLeft(l: Ledger, ms: seq<Message>)
    ensures CloseAll(l, ms).closed == l.closed + Reader.FdsOf(ms)
    decreases |ms|
  {
    hide Put;
    if ms != [] {
      ClosesWhatIsLeft(Close(l, ms[0].fds), ms[1..]);
      assert l.closed + ms[0].fds + Reader.FdsOf(ms[1..]) == l.closed + (ms[0].fds + Reader.FdsOf(ms[1..]));
    }
  }

  lemma {:induction false} ContainerUnreadCloses(s: State, l: Ledger)
    requires Owned(s, l) && s.contTaken <= |s.contSent|
    ensures Owned(s.(contTaken := |s.contSent|), CloseAll(l, UnreadContainer(s)))
    decreases |s.contSent| - s.contTaken
  {
    hide Owned, Close;
    if s.contTaken < |s.contSent| {
      var m, t := s.contSent[s.contTaken], s.(contTaken := s.contTaken + 1);
      Closes(s, t, l, m, QueuedContainer(s.contTaken));
      assert UnreadContainer(s)[1..] == UnreadContainer(t);
      ContainerUnreadCloses(t, Close(l, m.fds));
    } else {
      assert UnreadContainer(s) == [];
    }
  }

  lemma {:induction false} HostUnreadCloses(s: State, l: Ledger)
    requires Owned(s, l) && s.hostTaken <= |s.hostSent|
    ensures Owned(s.(hostTaken := |s.hostSent|), CloseAll(l, UnreadHost(s)))
    decreases |s.hostSent| - s.hostTaken
  {
    hide Owned, Close;
    if s.hostTaken < |s.hostSent| {
      var m, t := s.hostSent[s.hostTaken], s.(hostTaken := s.hostTaken + 1);
      Closes(s, t, l, m, QueuedHost(s.hostTaken));
      assert UnreadHost(s)[1..] == UnreadHost(t);
      HostUnreadCloses(t, Close(l, m.fds));
    } else {
      assert UnreadHost(s) == [];
    }
  }

  lemma {:induction false} ClosingLosesNone(l: Ledger, ms: seq<Message>)
    requires NoneLost(l)
    ensures NoneLost(CloseAll(l, ms))
    ensures l.place.Keys <= CloseAll(l, ms).place.Keys
    decreases |ms|
  {
    hide NoneLost;
    if ms != [] {
      PutLosesNone(l, ms[0].fds, Closed);
      ClosingLosesNone(Close(l, ms[0].fds), ms[1..]);
    }
  }

  lemma EndedSession(s: State, l: Ledger, f: Fd)
    requires Owned(s, l) && NoneLost(l) && HandsEmpty(s) && f in l.place
    requires s.contTaken <= |s.contSent| && s.hostTaken <= |s.hostSent|
    ensures
      var end := SessionEnd(s, l);
      && Distinct(end.closed) && f in end.place
      && (f in end.closed || end.place[f].StoredContainer? || end.place[f].StoredHost?)
  {
    hide NoneLost, CloseAll;
    var u := s.(contTaken := |s.contSent|);
    var t := u.(hostTaken := |u.hostSent|);
    ContainerUnreadCloses(s, l);
    HostUnreadCloses(u, CloseAll(l, UnreadContainer(s)));
    ClosingLosesNone(l, UnreadContainer(s));
    ClosingLosesNone(CloseAll(l, UnreadContainer(s)), UnreadHost(s));
    StoredOrClosed(t, SessionEnd(s, l), f);
  }

  /** If the host answers only what it was asked, no descriptor is ever lost, with any writes
      failing and wherever the session ends: once its readers are closed, every descriptor that it
      has received or duplicated has been closed, none of them twice, except those of replies that
      are still stored in a merge entry. */
  lemma OnlyStoredRepliesStayOpen(hostUp: bool, steps: seq<Step>, dups: seq<seq<Fd>>, f: Fd)
    requires |dups| == |steps| && ValidRun(Initial(hostUp), steps) && DisciplinedRun(Initial(hostUp), steps)
    requires FreshRun(Initial(hostUp), steps, dups, NO_DESCRIPTORS)
    requires f in LedgerRun(Initial(hostUp), steps, dups, NO_DESCRIPTORS).place
    ensures
      var s := Run(Initial(hostUp), steps);
      var l := LedgerRun(Initial(hostUp), steps, dups, NO_DESCRIPTORS);
      && l.place[f] != Lost
      && (HandsEmpty(s) ==>
            var end := SessionEnd(s, l);
            && end.closed == l.closed + Reader.FdsOf(UnreadContainer(s)) + Reader.FdsOf(UnreadHost(s))
            && Distinct(end.closed) && f in end.place
            && (f in end.closed || end.place[f].StoredContainer? || end.place[f].StoredHost?))
  {
    hide Run, LedgerRun, ValidRun, DisciplinedRun, FreshRun, FullInv, Owned, NoneLost, HandsEmpty, CloseAll, Distinct;
    var s := Run(Initial(hostUp), steps);
    var l := LedgerRun(Initial(hostUp), steps, dups, NO_DESCRIPTORS);
    FullInitially(hostUp);
    NothingIsLostYet();
    RunKeepsFull(Initial(hostUp), steps);
    RunLosesNone(Initial(hostUp), steps, dups, NO_DESCRIPTORS);
    EachDescriptorHasOneOwner(hostUp, steps, dups);
    PlaceIsNotLost(l, f);
    TakenWhatWasSent(s);
    ClosesWhatIsLeft(l, UnreadContainer(s));
    ClosesWhatIsLeft(CloseAll(l, UnreadContainer(s)), UnreadHost(s));
    if HandsEmpty(s) {
      EndedSession(s, l, f);
    }
  }

  lemma TakenWhatWasSent(s: State)
    requires FullInv(s)
    ensures s.contTaken <= |s.contSent| && s.hostTaken <= |s.hostSent|
  {
    FullIsSound(s);
    hide FullInv;
  }

  lemma DrainedCloses(s: State, l: Ledger, f: Fd)
    requires FullInv(s) && Owned(s, l) && NoneLost(l) && Drained(s) && !s.failed && f in l.place
    ensures f in l.closed && Distinct(l.closed)
  {
    PlaceIsReal(s, l, f);
    DrainedHoldsNothing(s);
    StoredOrClosed(s, l, f);
    if l.place[f].StoredContainer? || l.place[f].StoredHost? {
      DrainedStoresNothing(s, l.place[f].serial);
    }
    hide FullInv, Drained;
  }

  /** In a drained session without failed writes every descriptor has been closed, once. */
  lemma DrainedSessionClosesAll(hostUp: bool, steps: seq<Step>, dups: seq<seq<Fd>>, f: Fd)
    requires |dups| == |steps| && ValidRun(Initial(hostUp), steps) && DisciplinedRun(Initial(hostUp), steps)
    requires FreshRun(Initial(hostUp), steps, dups, NO_DESCRIPTORS)
    requires Drained(Run(Initial(hostUp), steps)) && !Run(Initial(hostUp), steps).failed
    requires f in LedgerRun(Initial(hostUp), steps, dups, NO_DESCRIPTORS).place
    ensures
      var l := LedgerRun(Initial(hostUp), steps, dups, NO_DESCRIPTORS);
      f in l.closed && Distinct(l.closed)
  {
    hide Run, LedgerRun, ValidRun, DisciplinedRun, FreshRun, FullInv, Owned, NoneLost, Drained, Distinct;
    FullInitially(hostUp);
    NothingIsLostYet();
    RunKeepsFull(Initial(hostUp), steps);
    RunLosesNone(Initial(hostUp), steps, dups, NO_DESCRIPTORS);
    EachDescriptorHasOneOwner(hostUp, steps, dups);
    DrainedCloses(Run(Initial(hostUp), steps), LedgerRun(Initial(hostUp), steps, dups, NO_DESCRIPTORS), f);
  }

  lemma DrainedHoldsNothing(s: State)
    requires FullInv(s) && Drained(s)
    ensures AtRest(s)
  {
    hide FullInv;
  }

  lemma DrainedStoresNothing(s: State, n: uint32)
    requires FullInv(s) && Drained(s) && !s.failed
    ensures n in s.merges ==> s.merges[n].hostMsg.None? && s.merges[n].contMsg.None?
  {
    if n in s.merges {
      FullIsSound(s);
      UncalledHasNoCredit(s, n);
      EntryIsRecorded(s, n);
      StuckStays(s, n);
      assert Balanced(s, n) && AskedAt(s, n);
      HostHasSeen(s, n);
      ConsumedWhenDrained(s, n);
      DisjointEntries(s, n);
      hide Drained, FullInv, Sound, HandsOrdered, TrafficInv, LogOf, Replies, Calls, Consumed, Outstanding, Delivered;
    }
  }
}
