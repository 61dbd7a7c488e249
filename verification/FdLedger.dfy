/** Ownership of file descriptors over whole runs (container/dbus/wire.go:59-66, 456-485;
    container/dbus/router.go:230-273, 317-325, 452-538).

    Each descriptor that arrives with a message, or is duplicated for a host copy, is a distinct
    handle. The ledger records where each one is, and the list of all closes so far. */
module FdLedger {
  import opened Bytes
  import opened Wrappers
  import opened Wire
  import opened Session
  import opened Correlation
  import opened Delivery

  datatype Place =
    | WithDispatcher
    | WithContainerReader
    | WithHostReader
    | StoredContainer(serial: uint32)
    | StoredHost(serial: uint32)
    | QueuedContainer(index: nat)
    | QueuedHost(index: nat)
    | Closed
    | Lost

  datatype Ledger = Ledger(place: map<Fd, Place>, closed: seq<Fd>)

  predicate Distinct(fds: seq<Fd>) {
    forall i, j :: 0 <= i < j < |fds| ==> fds[i] != fds[j]
  }

  predicate Fresh(l: Ledger, fds: seq<Fd>) {
    Distinct(fds) && forall f :: f in fds ==> f !in l.place
  }

  function Put(l: Ledger, fds: seq<Fd>, p: Place): Ledger {
    l.(place := l.place + map f | f in fds :: p)
  }

  /** `CloseFDs`: every descriptor of the list is closed once. */
  function Close(l: Ledger, fds: seq<Fd>): Ledger {
    Put(l, fds, Closed).(closed := l.closed + fds)
  }

  function FdsOf(m: Option<Message>): seq<Fd> {
    if m.Some? then m.value.fds else []
  }

  /** An entry that is deleted takes its stored replies with it. */
  function Forget(l: Ledger, e: MergeState): Ledger {
    Put(Put(l, FdsOf(e.hostMsg), Lost), FdsOf(e.contMsg), Lost)
  }

  /** The descriptors of the host copy are duplicated, sent and closed within one step. */
  function DispatcherLedger(s: State, t: State, l: Ledger, dups: seq<Fd>): Ledger {
    match s.disp
    case Undoing(e) =>
      var l1 := if e.route.CopyMerge? && e.Serial() in s.merges then Forget(l, s.merges[e.Serial()]) else l;
      if InHand(t.disp).None? then Close(l1, e.msg.fds) else l1
    case WritingHost(e) =>
      var l1 := if e.route.ToHost? then l else Close(l, dups);
      if InHand(t.disp).None? then Close(l1, e.msg.fds) else l1
    case WritingContainer(e) => Close(l, e.msg.fds)
    case Answering(e) => Close(l, e.msg.fds)
    case _ => l
  }

  function ContainerLedger(s: State, l: Ledger): Ledger {
    match s.cont
    case Waiting =>
      if s.contTaken < |s.contSent| then Put(l, s.contSent[s.contTaken].fds, WithContainerReader) else l
    case Matching(m) =>
      var n := m.fields.replySerial;
      if n !in s.merges then l
      else if s.merges[n].hostMsg.Some? then
        Close(Close(l, s.merges[n].hostMsg.value.fds), m.fds)
      else Put(Put(l, FdsOf(s.merges[n].contMsg), Lost), m.fds, StoredContainer(n))
    case Sending(m) => Close(l, m.fds)
    case _ => l
  }

  function HostLedger(s: State, t: State, l: Ledger): Ledger {
    match s.host
    case Waiting =>
      if s.hostTaken < |s.hostSent| then
        var m := s.hostSent[s.hostTaken];
        if t.host.Waiting? then Close(l, m.fds) else Put(l, m.fds, WithHostReader)
      else l
    case Matching(m) =>
      var n := m.fields.replySerial;
      if n !in s.merges then l
      else if s.merges[n].contMsg.Some? then
        Close(Close(l, m.fds), s.merges[n].contMsg.value.fds)
      else Put(Put(l, FdsOf(s.merges[n].hostMsg), Lost), m.fds, StoredHost(n))
    case LookingUp(m) => if t.host.Waiting? then Close(l, m.fds) else l
    case Learning(m, _, deliver) => if deliver then l else Close(l, m.fds)
    case Sending(m) => Close(l, m.fds)
    case _ => l
  }

  function LedgerNext(s: State, step: Step, l: Ledger, dups: seq<Fd>): Ledger {
    match step
    case ClientSends(m) => Put(l, m.fds, WithDispatcher)
    case ContainerSends(m) => Put(l, m.fds, QueuedContainer(|s.contSent|))
    case HostSends(m) => Put(l, m.fds, QueuedHost(|s.hostSent|))
    case Dispatch(_, _) => DispatcherLedger(s, Next(s, step), l, dups)
    case ContainerReads(_) => ContainerLedger(s, l)
    case HostReads(_) => HostLedger(s, Next(s, step), l)
  }

  /** Descriptors come into the process as new handles. */
  predicate FreshStep(step: Step, l: Ledger, dups: seq<Fd>) {
    && Fresh(l, dups)
    && match step
       case ClientSends(m) => Fresh(l, m.fds)
       case ContainerSends(m) => Fresh(l, m.fds)
       case HostSends(m) => Fresh(l, m.fds)
       case _ => true
  }

  /** The message that is at a place in a session state. */
  function MessageAt(s: State, p: Place): Option<Message> {
    match p
    case WithDispatcher => if InHand(s.disp).Some? then Some(InHand(s.disp).value.msg) else None
    case WithContainerReader => if HasInHand(s.cont) then Some(s.cont.m) else None
    case WithHostReader => if HasInHand(s.host) then Some(s.host.m) else None
    case StoredContainer(n) => if n in s.merges then s.merges[n].contMsg else None
    case StoredHost(n) => if n in s.merges then s.merges[n].hostMsg else None
    case QueuedContainer(i) => if s.contTaken <= i < |s.contSent| then Some(s.contSent[i]) else None
    case QueuedHost(i) => if s.hostTaken <= i < |s.hostSent| then Some(s.hostSent[i]) else None
    case _ => None
  }

  predicate Live(p: Place) {
    !p.Closed? && !p.Lost?
  }

  /** The descriptors that the ledger has at a place are those of the message there. */
  ghost predicate OwnedAt(s: State, l: Ledger, p: Place) {
    && Distinct(FdsOf(MessageAt(s, p)))
    && forall f :: (f in l.place && l.place[f] == p) <==> f in FdsOf(MessageAt(s, p))
  }

  /** Nothing is closed twice, and what the ledger calls closed has been closed. */
  ghost predicate ClosesSound(l: Ledger) {
    Distinct(l.closed) && forall f :: f in l.closed <==> (f in l.place && l.place[f] == Closed)
  }

  ghost predicate Owned(s: State, l: Ledger) {
    ClosesSound(l) && forall p :: Live(p) ==> OwnedAt(s, l, p)
  }

  ghost predicate SameElsewhere(s: State, t: State, a: Place, b: Place) {
    forall p :: Live(p) && p != a && p != b ==> MessageAt(t, p) == MessageAt(s, p)
  }

  lemma PutNothing(l: Ledger, p: Place)
    ensures Put(l, [], p) == l
  {
    assert l.place + (map f: Fd | f in [] :: p) == l.place;
  }

  /** A message moves from one place to another, and its descriptors with it. */
  lemma Moves(s: State, t: State, l: Ledger, m: Message, from: Place, to: Place)
    requires Owned(s, l) && Live(from) && from != to && to != Closed
    requires MessageAt(s, from) == Some(m) && MessageAt(t, from) == None
    requires Live(to) ==> MessageAt(s, to) == None && MessageAt(t, to) == Some(m)
    requires SameElsewhere(s, t, from, to)
    ensures Owned(t, Put(l, m.fds, to))
  {
    hide MessageAt, Distinct;
    var l' := Put(l, m.fds, to);
    assert OwnedAt(s, l, from);
    forall p | Live(p) ensures OwnedAt(t, l', p) {
      assert OwnedAt(s, l, p);
      NothingIsDistinct();
    }
    assert ClosesSound(l');
  }

  lemma NothingIsDistinct()
    ensures Distinct([])
  {
  }

  /** A message leaves a place because its descriptors are closed. */
  lemma Closes(s: State, t: State, l: Ledger, m: Message, from: Place)
    requires Owned(s, l) && Live(from)
    requires MessageAt(s, from) == Some(m) && MessageAt(t, from) == None
    requires SameElsewhere(s, t, from, from)
    ensures Owned(t, Close(l, m.fds))
  {
    hide MessageAt, Distinct;
    var l' := Close(l, m.fds);
    assert OwnedAt(s, l, from);
    forall p | Live(p) ensures OwnedAt(t, l', p) {
      assert OwnedAt(s, l, p);
      NothingIsDistinct();
    }
    ClosesOnce(l, m.fds);
  }

  /** Closing descriptors that are not closed yet. */
  lemma ClosesOnce(l: Ledger, fds: seq<Fd>)
    requires ClosesSound(l) && Distinct(fds)
    requires forall f :: f in fds ==> !(f in l.place && l.place[f] == Closed)
    ensures ClosesSound(Close(l, fds))
  {
    var l' := Close(l, fds);
    forall i, j | 0 <= i < j < |l'.closed| ensures l'.closed[i] != l'.closed[j] {
      if j >= |l.closed| > i {
        assert l.closed[i] in l.closed && fds[j - |l.closed|] in fds;
      }
    }
  }

  /** A message arrives with new descriptors. */
  lemma Arrives(s: State, t: State, l: Ledger, m: Message, to: Place)
    requires Owned(s, l) && Live(to) && Fresh(l, m.fds)
    requires MessageAt(s, to) == None && MessageAt(t, to) == Some(m)
    requires SameElsewhere(s, t, to, to)
    ensures Owned(t, Put(l, m.fds, to))
  {
    hide MessageAt, Distinct;
    var l' := Put(l, m.fds, to);
    forall p | Live(p) ensures OwnedAt(t, l', p) {
      assert OwnedAt(s, l, p);
    }
    assert ClosesSound(l');
  }

  lemma Stays(s: State, t: State, l: Ledger)
    requires Owned(s, l) && forall p :: Live(p) ==> MessageAt(t, p) == MessageAt(s, p)
    ensures Owned(t, l)
  {
    hide MessageAt, Distinct;
    forall p | Live(p) ensures OwnedAt(t, l, p) {
      assert OwnedAt(s, l, p);
    }
  }

  /** Duplicates are opened and closed within the step. */
  lemma ClosesDuplicates(s: State, l: Ledger, dups: seq<Fd>)
    requires Owned(s, l) && Fresh(l, dups)
    ensures Owned(s, Close(l, dups))
  {
    hide MessageAt, Distinct;
    var l' := Close(l, dups);
    forall p | Live(p) ensures OwnedAt(s, l', p) {
      assert OwnedAt(s, l, p);
    }
    ClosesOnce(l, dups);
  }

  lemma ClientKeepsOwned(s: State, m: Message, l: Ledger)
    requires Owned(s, l) && s.disp.Idle? && Fresh(l, m.fds)
    ensures Owned(Next(s, ClientSends(m)), Put(l, m.fds, WithDispatcher))
  {
    hide RouteOf, Owned, Fresh;
    Arrives(s, Next(s, ClientSends(m)), l, m, WithDispatcher);
  }

  lemma BusesKeepOwned(s: State, step: Step, l: Ledger)
    requires Owned(s, l) && (step.ContainerSends? || step.HostSends?) && FreshStep(step, l, [])
    requires HandsFit(s)
    ensures Owned(Next(s, step), LedgerNext(s, step, l, []))
  {
    hide Owned, Fresh;
    var place := if step.ContainerSends? then QueuedContainer(|s.contSent|) else QueuedHost(|s.hostSent|);
    Arrives(s, Next(s, step), l, step.m, place);
  }

  lemma ForgetKeepsOwned(s: State, t: State, l: Ledger, n: uint32)
    requires Owned(s, l) && n in s.merges && MergeSound(n, s.merges[n])
    requires t.merges == s.merges - {n} && SameButMerges(s, t)
    ensures Owned(t, Forget(l, s.merges[n]))
  {
    hide Owned;
    var e := s.merges[n];
    PutNothing(l, Lost);
    if e.hostMsg.Some? {
      PutNothing(Put(l, e.hostMsg.value.fds, Lost), Lost);
      Moves(s, t, l, e.hostMsg.value, StoredHost(n), Lost);
    } else if e.contMsg.Some? {
      Moves(s, t, l, e.contMsg.value, StoredContainer(n), Lost);
    } else {
      Stays(s, t, l);
    }
  }

  predicate SameButMerges(s: State, t: State) {
    && t.disp == s.disp && t.cont == s.cont && t.host == s.host
    && t.contSent == s.contSent && t.contTaken == s.contTaken
    && t.hostSent == s.hostSent && t.hostTaken == s.hostTaken
  }

  lemma UndoingKeepsOwned(s: State, ok: bool, serial: uint32, l: Ledger, dups: seq<Fd>)
    requires Sound(s) && Owned(s, l) && s.disp.Undoing?
    ensures var t := DispatcherStep(s, ok, serial); Owned(t, DispatcherLedger(s, t, l, dups))
  {
    hide Owned, LogOf, PendingSound, BusSound, Answers, ReaderSound, Forget, Close, MergeSound;
    var e := s.disp.e;
    var t := DispatcherStep(s, ok, serial);
    var u := t.(disp := s.disp);
    var l1 := if e.route.CopyMerge? && e.Serial() in s.merges then Forget(l, s.merges[e.Serial()]) else l;
    assert Owned(u, l1) by {
      if e.route.CopyMerge? && e.Serial() in s.merges {
        assert MergeFits(LogOf(s.log, e.Serial()), e.Serial(), s.merges[e.Serial()]);
        ForgetKeepsOwned(s, u, l, e.Serial());
      } else {
        assert u.merges == s.merges;
        Stays(s, u, l);
      }
    }
    if InHand(t.disp).None? {
      Closes(u, t, l1, e.msg, WithDispatcher);
    } else {
      Stays(u, t, l1);
    }
  }

  lemma WritingHostKeepsOwned(s: State, ok: bool, serial: uint32, l: Ledger, dups: seq<Fd>)
    requires Owned(s, l) && s.disp.WritingHost? && Fresh(l, dups)
    ensures var t := DispatcherStep(s, ok, serial); Owned(t, DispatcherLedger(s, t, l, dups))
  {
    hide Owned, Close, Fresh;
    var e := s.disp.e;
    var t := DispatcherStep(s, ok, serial);
    if !e.route.ToHost? {
      ClosesDuplicates(s, l, dups);
    }
    var l1 := if e.route.ToHost? then l else Close(l, dups);
    if InHand(t.disp).None? {
      Closes(s, t, l1, e.msg, WithDispatcher);
    } else {
      Stays(s, t, l1);
    }
  }

  lemma DispatcherKeepsOwned(s: State, ok: bool, serial: uint32, l: Ledger, dups: seq<Fd>)
    requires Sound(s) && Owned(s, l) && Fresh(l, dups)
    ensures var t := DispatcherStep(s, ok, serial); Owned(t, DispatcherLedger(s, t, l, dups))
  {
    hide Owned, PendingSound, MergesSound, BusSound, Answers, ReaderSound, LogOf, Close, Fresh, UnavailableReply;
    var t := DispatcherStep(s, ok, serial);
    match s.disp
    case Noting(e) => NotingKeepsOwned(s, ok, serial, l);
    case Undoing(_) => UndoingKeepsOwned(s, ok, serial, l, dups);
    case WritingHost(_) => WritingHostKeepsOwned(s, ok, serial, l, dups);
    case WritingContainer(e) => Closes(s, t, l, e.msg, WithDispatcher);
    case Answering(e) => Closes(s, t, l, e.msg, WithDispatcher);
    case _ =>
  }

  lemma NotingKeepsOwned(s: State, ok: bool, serial: uint32, l: Ledger)
    requires Sound(s) && Owned(s, l) && s.disp.Noting?
    ensures Owned(DispatcherStep(s, ok, serial), l)
  {
    hide Owned, PendingSound, MergesSound, BusSound, Answers, ReaderSound, LogOf;
    Stays(s, DispatcherStep(s, ok, serial), l);
  }

  lemma ContainerCompletesOwned(s: State, ok: bool, l: Ledger)
    requires Owned(s, l) && s.cont.Matching? && s.cont.m.fields.replySerial in s.merges
    requires s.merges[s.cont.m.fields.replySerial].hostMsg.Some? && s.merges[s.cont.m.fields.replySerial].contMsg.None?
    ensures Owned(ContainerStep(s, ok), ContainerLedger(s, l))
  {
    hide Owned, Combine, Close;
    var n := s.cont.m.fields.replySerial;
    var u := s.(merges := s.merges - {n});
    var host := s.merges[n].hostMsg.value;
    Closes(s, u, l, host, StoredHost(n));
    Closes(u, ContainerStep(s, ok), Close(l, host.fds), s.cont.m, WithContainerReader);
  }

  lemma ContainerStoresOwned(s: State, ok: bool, l: Ledger)
    requires Owned(s, l) && s.cont.Matching? && s.cont.m.fields.replySerial in s.merges
    requires s.merges[s.cont.m.fields.replySerial].hostMsg.None?
    ensures Owned(ContainerStep(s, ok), ContainerLedger(s, l))
  {
    hide Owned, Close;
    var n := s.cont.m.fields.replySerial;
    var e := s.merges[n];
    var u := s.(merges := s.merges[n := e.(contMsg := None)]);
    PutNothing(l, Lost);
    if e.contMsg.Some? {
      Moves(s, u, l, e.contMsg.value, StoredContainer(n), Lost);
    } else {
      Stays(s, u, l);
    }
    Moves(u, ContainerStep(s, ok), Put(l, FdsOf(e.contMsg), Lost), s.cont.m, WithContainerReader, StoredContainer(n));
  }

  lemma ContainerMatchesOwned(s: State, ok: bool, l: Ledger)
    requires Sound(s) && Owned(s, l) && s.cont.Matching?
    ensures Owned(ContainerStep(s, ok), ContainerLedger(s, l))
  {
    hide Owned, LogOf, PendingSound, BusSound, Answers, Combine, Close, ReplyTo;
    var n := s.cont.m.fields.replySerial;
    if n !in s.merges {
      Stays(s, ContainerStep(s, ok), l);
    } else {
      assert MergeFits(LogOf(s.log, n), n, s.merges[n]);
      hide ContainerStep, ContainerLedger;
      if s.merges[n].hostMsg.Some? {
        ContainerCompletesOwned(s, ok, l);
      } else {
        ContainerStoresOwned(s, ok, l);
      }
    }
  }

  lemma ContainerKeepsOwned(s: State, ok: bool, l: Ledger)
    requires Sound(s) && Owned(s, l) && HandsFit(s)
    ensures Owned(ContainerStep(s, ok), ContainerLedger(s, l))
  {
    hide Owned, Combine, Close, PendingSound, MergesSound, BusSound, Answers, LogOf, ReaderSound;
    var t := ContainerStep(s, ok);
    match s.cont
    case Waiting =>
      if s.contTaken < |s.contSent| {
        Moves(s, t, l, s.contSent[s.contTaken], QueuedContainer(s.contTaken), WithContainerReader);
      }
    case Matching(_) => ContainerMatchesOwned(s, ok, l);
    case Sending(m) => Closes(s, t, l, m, WithContainerReader);
    case SendingMerged(_) => Stays(s, t, l);
    case _ =>
  }

  lemma HostCompletesOwned(s: State, ok: bool, l: Ledger)
    requires Owned(s, l) && s.host.Matching? && s.host.m.fields.replySerial in s.merges
    requires s.merges[s.host.m.fields.replySerial].contMsg.Some? && s.merges[s.host.m.fields.replySerial].hostMsg.None?
    ensures Owned(HostStep(s, ok), HostLedger(s, HostStep(s, ok), l))
  {
    hide Owned, Combine, Close;
    var n := s.host.m.fields.replySerial;
    var u := s.(host := Waiting);
    Closes(s, u, l, s.host.m, WithHostReader);
    Closes(u, HostStep(s, ok), Close(l, s.host.m.fds), s.merges[n].contMsg.value, StoredContainer(n));
  }

  lemma HostStoresOwned(s: State, ok: bool, l: Ledger)
    requires Owned(s, l) && s.host.Matching? && s.host.m.fields.replySerial in s.merges
    requires s.merges[s.host.m.fields.replySerial].contMsg.None?
    ensures Owned(HostStep(s, ok), HostLedger(s, HostStep(s, ok), l))
  {
    hide Owned, Close;
    var n := s.host.m.fields.replySerial;
    var e := s.merges[n];
    var u := s.(merges := s.merges[n := e.(hostMsg := None)]);
    PutNothing(l, Lost);
    if e.hostMsg.Some? {
      Moves(s, u, l, e.hostMsg.value, StoredHost(n), Lost);
    } else {
      Stays(s, u, l);
    }
    Moves(u, HostStep(s, ok), Put(l, FdsOf(e.hostMsg), Lost), s.host.m, WithHostReader, StoredHost(n));
  }

  lemma HostMatchesOwned(s: State, ok: bool, l: Ledger)
    requires Sound(s) && Owned(s, l) && s.host.Matching?
    ensures Owned(HostStep(s, ok), HostLedger(s, HostStep(s, ok), l))
  {
    hide Owned, LogOf, PendingSound, BusSound, Answers, Combine, Close, ReplyTo;
    var n := s.host.m.fields.replySerial;
    if n !in s.merges {
      Stays(s, HostStep(s, ok), l);
    } else {
      assert MergeFits(LogOf(s.log, n), n, s.merges[n]);
      hide HostStep, HostLedger;
      if s.merges[n].contMsg.Some? {
        HostCompletesOwned(s, ok, l);
      } else {
        HostStoresOwned(s, ok, l);
      }
    }
  }

  lemma AcceptedKeepsHold(m: Message, p: Pending)
    ensures AcceptSignal(m).Waiting? || (HasInHand(AcceptSignal(m)) && AcceptSignal(m).m == m)
    ensures AcceptReply(m, p).Waiting? || (HasInHand(AcceptReply(m, p)) && AcceptReply(m, p).m == m)
  {
  }

  lemma HostTakesOwned(s: State, ok: bool, l: Ledger)
    requires Owned(s, l) && HandsFit(s) && s.host.Waiting?
    ensures Owned(HostStep(s, ok), HostLedger(s, HostStep(s, ok), l))
  {
    hide Owned, Close, AcceptSignal;
    var t := HostStep(s, ok);
    if s.hostTaken < |s.hostSent| {
      var m := s.hostSent[s.hostTaken];
      AcceptedKeepsHold(m, Pending(Swallow, []));
      if t.host.Waiting? {
        Closes(s, t, l, m, QueuedHost(s.hostTaken));
      } else {
        Moves(s, t, l, m, QueuedHost(s.hostTaken), WithHostReader);
      }
    }
  }

  lemma HostLooksUpOwned(s: State, ok: bool, l: Ledger)
    requires Owned(s, l) && s.host.LookingUp?
    ensures Owned(HostStep(s, ok), HostLedger(s, HostStep(s, ok), l))
  {
    hide Owned, Close, AcceptReply;
    var m := s.host.m;
    var t := HostStep(s, ok);
    if m.fields.replySerial in s.hostPending {
      AcceptedKeepsHold(m, s.hostPending[m.fields.replySerial]);
    }
    if t.host.Waiting? {
      Closes(s, t, l, m, WithHostReader);
    } else {
      Stays(s, t, l);
    }
  }

  lemma HostLearnsOwned(s: State, ok: bool, l: Ledger)
    requires Owned(s, l) && (s.host.Naming? || s.host.Learning?)
    ensures Owned(HostStep(s, ok), HostLedger(s, HostStep(s, ok), l))
  {
    hide Owned, Close, Remember;
    var t := HostStep(s, ok);
    if s.host.Learning? && !s.host.deliver {
      Closes(s, t, l, s.host.m, WithHostReader);
    } else {
      Stays(s, t, l);
    }
  }

  lemma HostSendsOwned(s: State, ok: bool, l: Ledger)
    requires Owned(s, l) && (s.host.Sending? || s.host.SendingMerged? || s.host.Stopped?)
    ensures Owned(HostStep(s, ok), HostLedger(s, HostStep(s, ok), l))
  {
    hide Owned, Close;
    var t := HostStep(s, ok);
    if s.host.Sending? {
      Closes(s, t, l, s.host.m, WithHostReader);
    } else {
      Stays(s, t, l);
    }
  }

  lemma StepKeepsOwned(s: State, step: Step, l: Ledger, dups: seq<Fd>)
    requires Sound(s) && HandsFit(s) && Owned(s, l) && Enabled(s, step) && FreshStep(step, l, dups)
    ensures Owned(Next(s, step), LedgerNext(s, step, l, dups))
  {
    hide Sound, Owned, DispatcherStep, ContainerStep, HostStep, DispatcherLedger, ContainerLedger, HostLedger, Fresh, RouteOf;
    match step
    case ClientSends(m) => ClientKeepsOwned(s, m, l);
    case ContainerSends(_) =>
      NoDuplicates(l);
      BusesKeepOwned(s, step, l);
    case HostSends(_) =>
      NoDuplicates(l);
      BusesKeepOwned(s, step, l);
    case Dispatch(ok, serial) => DispatcherKeepsOwned(s, ok, serial, l, dups);
    case ContainerReads(ok) => ContainerKeepsOwned(s, ok, l);
    case HostReads(ok) =>
      match s.host {
        case Waiting => HostTakesOwned(s, ok, l);
        case Matching(_) => HostMatchesOwned(s, ok, l);
        case LookingUp(_) => HostLooksUpOwned(s, ok, l);
        case Naming(_) => HostLearnsOwned(s, ok, l);
        case Learning(_, _, _) => HostLearnsOwned(s, ok, l);
        case _ => HostSendsOwned(s, ok, l);
      }
  }

  lemma NoDuplicates(l: Ledger)
    ensures Fresh(l, [])
  {
  }
}
