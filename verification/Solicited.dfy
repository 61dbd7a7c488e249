/** Replies of a host bus that answers only what it was asked, each call at most once
    (container/dbus/router.go:283-287, 327-338, 389-437, 463-478, 511-527). */
module Solicited {
  import opened Bytes
  import opened Wrappers
  import opened Wire
  import opened Session
  import opened Correlation

  /** A reply that the host reader has taken and not yet matched with an entry. */
  function Held(r: BusReader, n: uint32): nat {
    match r
    case Matching(m) => Worth(m, n)
    case LookingUp(m) => Worth(m, n)
    case _ => 0
  }

  /** Host replies to a serial that have been matched or dropped. */
  function Consumed(s: State, n: uint32): int {
    Replies(Taken(s.hostSent, s.hostTaken), n) - Held(s.host, n)
  }

  /** Some entry still waits for the host's reply. */
  predicate Waits(s: State, n: uint32) {
    n in s.hostPending || (n in s.merges && s.merges[n].hostMsg.None?)
  }

  predicate BroadcastsAreNoCalls(e: Option<Sent>) {
    e.Some? && e.value.route.CopyBroadcast? ==> !e.value.msg.IsCall()
  }

  /** For one serial: the host is called at most once and answers at most once, and an entry waits
      exactly as long as the host's answer is outstanding. */
  ghost predicate AskedAt(s: State, n: uint32) {
    var asked := LogOf(s.hostIn, n);
    && (asked.Some? ==> asked == LogOf(s.log, n) && asked.value.route.ReachesHost())
    && Calls(s.hostIn, n) <= (if asked.Some? && asked.value.msg.IsCall() then 1 else 0)
    && Replies(s.hostSent, n) <= Calls(s.hostIn, n)
    && (asked.Some? && asked.value.Recorded() && Consumed(s, n) == 0 ==> Waits(s, n))
    && (Waits(s, n) ==> Consumed(s, n) == 0)
    && BroadcastsAreNoCalls(LogOf(s.log, n))
  }

  function BeforeHost(d: Dispatcher): Option<Sent> {
    match d
    case Noting(e) => Some(e)
    case WritingHost(e) => Some(e)
    case Undoing(e) => Some(e)
    case _ => None
  }

  predicate AwaitingEntry(d: Dispatcher) {
    (d.WritingHost? || d.Undoing?) && d.e.Recorded()
  }

  predicate LastTaken(s: State, m: Message) {
    0 < s.hostTaken <= |s.hostSent| && s.hostSent[s.hostTaken - 1] == m
  }

  /** The entry is recorded before the host can see the call; a reply in hand is the last one
      taken, and once no merge was found for it there is none. */
  ghost predicate HandsOrdered(s: State) {
    && (BeforeHost(s.disp).Some? ==> LogOf(s.hostIn, BeforeHost(s.disp).value.Serial()).None?)
    && (AwaitingEntry(s.disp) ==> Waits(s, s.disp.e.Serial()))
    && (s.host.Matching? ==> LastTaken(s, s.host.m))
    && (s.host.LookingUp? ==> LastTaken(s, s.host.m) && s.host.m.fields.replySerial !in s.merges)
  }

  ghost predicate Asked(s: State) {
    HandsOrdered(s) && forall n :: AskedAt(s, n)
  }

  lemma LastTakenCounts(s: State, m: Message, n: uint32)
    requires LastTaken(s, m)
    ensures Replies(Taken(s.hostSent, s.hostTaken), n) >= Worth(m, n)
  {
    TakenAppend(s.hostSent, s.hostTaken - 1, n);
  }

  lemma ConsumedIsNatural(s: State, n: uint32)
    requires HandsOrdered(s)
    ensures Consumed(s, n) >= 0
  {
    hide Replies, Taken, LogOf;
    if s.host.Matching? || s.host.LookingUp? {
      LastTakenCounts(s, s.host.m, n);
    }
  }

  lemma TakenAtMostSent(s: State, n: uint32)
    ensures Replies(Taken(s.hostSent, s.hostTaken), n) <= Replies(s.hostSent, n)
  {
    hide Replies;
    if s.hostTaken <= |s.hostSent| {
      RepliesOfPrefix(s.hostSent, s.hostTaken, n);
    }
  }

  /** What the host has not been asked, it has not answered. */
  lemma UnaskedUnanswered(s: State, n: uint32)
    requires HandsOrdered(s) && AskedAt(s, n) && LogOf(s.hostIn, n).None?
    ensures Replies(s.hostSent, n) == 0 && Replies(Taken(s.hostSent, s.hostTaken), n) == 0
    ensures Held(s.host, n) == 0 && Consumed(s, n) == 0
  {
    hide Replies, Calls, LogOf, Taken;
    TakenAtMostSent(s, n);
    ConsumedIsNatural(s, n);
  }

  /** A reply in hand finds its entry. */
  lemma HeldReplyIsAwaited(s: State, n: uint32)
    requires Sound(s) && HandsOrdered(s) && AskedAt(s, n) && Held(s.host, n) == 1
    ensures Waits(s, n) && LogOf(s.hostIn, n).Some? && LogOf(s.hostIn, n).value.Recorded()
  {
    hide Replies, Calls, LogOf, Taken, PendingSound, MergesSound, BusSound, Answers;
    TakenAtMostSent(s, n);
    LastTakenCounts(s, s.host.m, n);
    var e := LogOf(s.hostIn, n).value;
    assert e.msg.IsCall() && e == LogOf(s.log, n).value;
  }

  lemma DisjointEntries(s: State, n: uint32)
    requires Sound(s)
    ensures !(n in s.hostPending && n in s.merges)
  {
    hide LogOf, MergeSound, BusSound, Answers, ReaderSound;
  }

  lemma AskedFrame(s: State, t: State, n: uint32)
    requires AskedAt(s, n) && t.hostIn == s.hostIn && t.log == s.log && t.hostSent == s.hostSent
    requires Consumed(t, n) == Consumed(s, n) && Waits(t, n) == Waits(s, n)
    ensures AskedAt(t, n)
  {
    hide LogOf, Replies, Calls, Consumed, Waits;
  }

  lemma ClientKeepsAsked(s: State, m: Message, n: uint32)
    requires Sound(s) && HandsOrdered(s) && AskedAt(s, n) && AskedAt(s, m.serial) && Enabled(s, ClientSends(m))
    ensures AskedAt(Next(s, ClientSends(m)), n) && HandsOrdered(Next(s, ClientSends(m)))
  {
    hide RouteOf, LogOf, Replies, Calls, PendingSound, MergesSound, BusSound, Answers, ReaderSound, Taken;
    var e := Sent(m, RouteOf(m, s.hostUp, s.hostNames), s.hostNames);
    BroadcastsAreSignals(m, s.hostUp, s.hostNames);
    LogAppend(s.log, e, n);
    assert Consumed(Next(s, ClientSends(m)), n) == Consumed(s, n);
  }

  lemma BroadcastsAreSignals(m: Message, hostUp: bool, hostNames: set<Text>)
    ensures RouteOf(m, hostUp, hostNames).CopyBroadcast? ==> m.kind == TYPE_SIGNAL
  {
  }

  lemma NotingKeepsHands(s: State)
    requires Sound(s) && HandsOrdered(s) && s.disp.Noting?
    requires s.host.LookingUp? ==> AskedAt(s, s.host.m.fields.replySerial)
    ensures HandsOrdered(DispatcherStep(s, true, 0))
  {
    hide LogOf, Replies, Calls, PendingSound, MergesSound, BusSound, Answers, Taken, WellFormed;
    var e := s.disp.e;
    if s.host.LookingUp? && s.host.m.fields.replySerial == e.Serial() {
      UnaskedUnanswered(s, e.Serial());
    }
  }

  lemma NotingKeepsAsked(s: State, n: uint32)
    requires Sound(s) && HandsOrdered(s) && s.disp.Noting? && AskedAt(s, n) && AskedAt(s, s.disp.e.Serial())
    ensures AskedAt(DispatcherStep(s, true, 0), n)
  {
    hide LogOf, Replies, Calls, PendingSound, MergesSound, BusSound, Answers, Taken, ReaderSound;
    var e := s.disp.e;
    var t := DispatcherStep(s, true, 0);
    UnaskedUnanswered(s, e.Serial());
    hide HandsOrdered;
    assert Consumed(t, n) == Consumed(s, n);
    hide Consumed;
    if n != e.Serial() {
      AskedFrame(s, t, n);
    }
  }

  lemma UndoingKeepsAsked(s: State, n: uint32)
    requires HandsOrdered(s) && s.disp.Undoing? && AskedAt(s, n)
    ensures AskedAt(DispatcherStep(s, true, 0), n) && HandsOrdered(DispatcherStep(s, true, 0))
  {
    hide LogOf, Replies, Calls, Taken;
    var t := DispatcherStep(s, true, 0);
    assert Consumed(t, n) == Consumed(s, n);
    hide Consumed;
    if n != s.disp.e.Serial() {
      AskedFrame(s, t, n);
    }
  }

  lemma WritingKeepsHands(s: State, ok: bool, serial: uint32)
    requires HandsOrdered(s) && !s.disp.Noting? && !s.disp.Undoing?
    ensures HandsOrdered(DispatcherStep(s, ok, serial))
  {
    hide LogOf, Replies, Taken, UnavailableReply;
  }

  lemma WritingKeepsAsked(s: State, ok: bool, serial: uint32, n: uint32)
    requires Sound(s) && HandsOrdered(s) && !s.disp.Noting? && !s.disp.Undoing? && AskedAt(s, n)
    ensures AskedAt(DispatcherStep(s, ok, serial), n)
  {
    hide LogOf, Replies, Calls, PendingSound, MergesSound, BusSound, Answers, Taken, UnavailableReply, ReaderSound;
    var t := DispatcherStep(s, ok, serial);
    assert Consumed(t, n) == Consumed(s, n);
    hide Consumed;
    if s.disp.WritingHost? && ok {
      LogAppend(s.hostIn, s.disp.e, n);
      CallsAppend(s.hostIn, s.disp.e, n);
    } else {
      AskedFrame(s, t, n);
    }
  }

  lemma DispatcherKeepsAsked(s: State, ok: bool, serial: uint32, n: uint32)
    requires Sound(s) && Asked(s)
    ensures AskedAt(DispatcherStep(s, ok, serial), n) && HandsOrdered(DispatcherStep(s, ok, serial))
  {
    hide Sound, HandsOrdered, AskedAt, UnavailableReply;
    match s.disp
    case Noting(e) =>
      assert AskedAt(s, e.Serial());
      assert s.host.LookingUp? ==> AskedAt(s, s.host.m.fields.replySerial);
      NotingKeepsAsked(s, n);
      NotingKeepsHands(s);
    case Undoing(_) => UndoingKeepsAsked(s, n);
    case _ =>
      WritingKeepsAsked(s, ok, serial, n);
      WritingKeepsHands(s, ok, serial);
  }

  lemma HostSendsKeepsAsked(s: State, m: Message, n: uint32)
    requires Sound(s) && HandsOrdered(s) && AskedAt(s, n) && HostAnswers(s, HostSends(m))
    ensures AskedAt(Next(s, HostSends(m)), n) && HandsOrdered(Next(s, HostSends(m)))
  {
    hide LogOf, Replies, Calls, PendingSound, MergesSound, Answers, ReaderSound;
    var t := Next(s, HostSends(m));
    RepliesAppend(s.hostSent, m, n);
    assert (s.hostSent + [m])[..s.hostTaken] == s.hostSent[..s.hostTaken];
    assert Consumed(t, n) == Consumed(s, n);
  }

  lemma ContainerReaderFrame(s: State, ok: bool)
    ensures
      var t := ContainerStep(s, ok);
      && t.disp == s.disp && t.host == s.host
      && t.log == s.log && t.hostIn == s.hostIn && t.hostSent == s.hostSent && t.hostTaken == s.hostTaken
      && t.hostPending == s.hostPending
  {
    hide Combine;
    match s.cont
    case Waiting =>
    case Matching(_) =>
    case Sending(_) =>
    case SendingMerged(_) =>
    case _ =>
  }

  lemma ContainerReaderKeepsWaits(s: State, ok: bool, n: uint32)
    ensures
      var t := ContainerStep(s, ok);
      (n in t.merges ==> n in s.merges) && Waits(t, n) == Waits(s, n)
  {
    ContainerReaderFrame(s, ok);
    hide Combine;
    match s.cont
    case Waiting =>
    case Matching(_) =>
    case Sending(_) =>
    case SendingMerged(_) =>
    case _ =>
  }

  lemma ContainerReaderKeepsAsked(s: State, ok: bool, n: uint32)
    requires HandsOrdered(s) && AskedAt(s, n)
    ensures AskedAt(ContainerStep(s, ok), n) && HandsOrdered(ContainerStep(s, ok))
  {
    hide LogOf, Replies, Calls, Taken, AskedAt, ContainerStep, Waits;
    ContainerReaderFrame(s, ok);
    ContainerReaderKeepsWaits(s, ok, n);
    AskedFrame(s, ContainerStep(s, ok), n);
    if AwaitingEntry(s.disp) {
      ContainerReaderKeepsWaits(s, ok, s.disp.e.Serial());
    }
    if s.host.LookingUp? {
      ContainerReaderKeepsWaits(s, ok, s.host.m.fields.replySerial);
    }
  }

  lemma HostTakesKeepsAsked(s: State, ok: bool, n: uint32)
    requires Sound(s) && HandsOrdered(s) && s.host.Waiting? && AskedAt(s, n)
    ensures AskedAt(HostStep(s, ok), n) && HandsOrdered(HostStep(s, ok))
  {
    hide LogOf, Replies, Calls, PendingSound, MergesSound, Answers, ReaderSound, AcceptSignal, WellFormed;
    if s.hostTaken < |s.hostSent| {
      TakenAppend(s.hostSent, s.hostTaken, n);
      AcceptedSignalIsNotHeld(s.hostSent[s.hostTaken], n);
    }
  }

  lemma AcceptedSignalIsNotHeld(m: Message, n: uint32)
    ensures Held(AcceptSignal(m), n) == 0 && !AcceptSignal(m).Matching? && !AcceptSignal(m).LookingUp?
  {
  }

  lemma AcceptedReplyIsNotHeld(m: Message, p: Pending, n: uint32)
    ensures Held(AcceptReply(m, p), n) == 0 && !AcceptReply(m, p).Matching? && !AcceptReply(m, p).LookingUp?
  {
  }

  lemma HostMatches(s: State, ok: bool, n: uint32)
    requires s.host.Matching?
    requires var k := s.host.m.fields.replySerial; Waits(s, k) && !(k in s.hostPending && k in s.merges)
    ensures
      var k := s.host.m.fields.replySerial;
      var t := HostStep(s, ok);
      && t.disp == s.disp && t.log == s.log && t.hostIn == s.hostIn
      && t.hostSent == s.hostSent && t.hostTaken == s.hostTaken
      && (k in s.merges ==> t.host.Waiting? || t.host.SendingMerged?)
      && (k !in s.merges ==> t.host == LookingUp(s.host.m))
      && Waits(t, n) == (Waits(s, n) && (n == k ==> k !in s.merges))
      && t.merges.Keys <= s.merges.Keys
  {
    hide Replies, Taken, Combine;
  }

  lemma HostMatchesKeepsHands(s: State, ok: bool)
    requires HandsOrdered(s) && s.host.Matching?
    requires
      var k := s.host.m.fields.replySerial;
      Waits(s, k) && !(k in s.hostPending && k in s.merges) && LogOf(s.hostIn, k).Some?
    ensures HandsOrdered(HostStep(s, ok))
  {
    var k := s.host.m.fields.replySerial;
    HostMatches(s, ok, k);
    if AwaitingEntry(s.disp) {
      HostMatches(s, ok, s.disp.e.Serial());
    }
    hide HostStep, Waits, LogOf;
  }

  lemma HostMatchesKeepsAsked(s: State, ok: bool, n: uint32)
    requires Sound(s) && HandsOrdered(s) && s.host.Matching? && AskedAt(s, n) && AskedAt(s, s.host.m.fields.replySerial)
    ensures AskedAt(HostStep(s, ok), n) && HandsOrdered(HostStep(s, ok))
  {
    var k := s.host.m.fields.replySerial;
    var t := HostStep(s, ok);
    hide LogOf, Replies, Calls, PendingSound, MergesSound, BusSound, Answers, Taken, HostStep, WellFormed;
    HeldReplyIsAwaited(s, k);
    DisjointEntries(s, k);
    hide Sound;
    HostMatchesKeepsHands(s, ok);
    HostMatches(s, ok, n);
    hide Waits, HandsOrdered;
    if n != k || k !in s.merges {
      AskedFrame(s, t, n);
    }
  }

  lemma HostLooksUp(s: State, ok: bool, n: uint32)
    requires s.host.LookingUp?
    requires var k := s.host.m.fields.replySerial; k in s.hostPending && k !in s.merges
    ensures
      var k := s.host.m.fields.replySerial;
      var t := HostStep(s, ok);
      && t.disp == s.disp && t.log == s.log && t.hostIn == s.hostIn
      && t.hostSent == s.hostSent && t.hostTaken == s.hostTaken
      && Held(t.host, n) == 0 && !t.host.Matching? && !t.host.LookingUp?
      && Waits(t, n) == (Waits(s, n) && n != k)
  {
    hide AcceptReply;
    AcceptedReplyIsNotHeld(s.host.m, s.hostPending[s.host.m.fields.replySerial], n);
  }

  lemma HostLooksUpKeepsAsked(s: State, ok: bool, n: uint32)
    requires Sound(s) && HandsOrdered(s) && s.host.LookingUp? && AskedAt(s, n) && AskedAt(s, s.host.m.fields.replySerial)
    ensures AskedAt(HostStep(s, ok), n) && HandsOrdered(HostStep(s, ok))
  {
    var k := s.host.m.fields.replySerial;
    var t := HostStep(s, ok);
    hide LogOf, Replies, Calls, PendingSound, MergesSound, BusSound, Answers, Taken, HostStep, WellFormed;
    HeldReplyIsAwaited(s, k);
    hide Sound;
    HostLooksUp(s, ok, n);
    if AwaitingEntry(s.disp) {
      HostLooksUp(s, ok, s.disp.e.Serial());
    }
    if n != k {
      hide Waits;
      AskedFrame(s, t, n);
    }
  }

  lemma HostReaderKeepsAsked(s: State, ok: bool, n: uint32)
    requires Sound(s) && Asked(s)
    ensures AskedAt(HostStep(s, ok), n) && HandsOrdered(HostStep(s, ok))
  {
    hide Sound, AskedAt, LogOf, Replies, Taken;
    match s.host
    case Waiting => HostTakesKeepsAsked(s, ok, n);
    case Matching(m) =>
      assert AskedAt(s, m.fields.replySerial);
      HostMatchesKeepsAsked(s, ok, n);
    case LookingUp(m) =>
      assert AskedAt(s, m.fields.replySerial);
      HostLooksUpKeepsAsked(s, ok, n);
    case _ =>
      assert HostBusy(s.host);
      HostMovesOnKeepsAsked(s, ok, n);
  }

  predicate HostBusy(r: BusReader) {
    r.Naming? || r.Learning? || r.Sending? || r.SendingMerged? || r.Stopped?
  }

  lemma HostMovesOnFrame(s: State, ok: bool)
    requires HostBusy(s.host)
    ensures
      var t := HostStep(s, ok);
      && (HostBusy(t.host) || t.host.Waiting?) && t.disp == s.disp
      && t.log == s.log && t.hostIn == s.hostIn && t.hostSent == s.hostSent && t.hostTaken == s.hostTaken
      && t.hostPending == s.hostPending && t.merges == s.merges
  {
  }

  lemma HostMovesOnKeepsAsked(s: State, ok: bool, n: uint32)
    requires HandsOrdered(s) && HostBusy(s.host) && AskedAt(s, n)
    ensures AskedAt(HostStep(s, ok), n) && HandsOrdered(HostStep(s, ok))
  {
    HostMovesOnFrame(s, ok);
    hide LogOf, Replies, Calls, Taken, AskedAt, HostStep;
    AskedFrame(s, HostStep(s, ok), n);
  }

  lemma StepKeepsAskedAt(s: State, step: Step, n: uint32)
    requires Sound(s) && Asked(s) && Enabled(s, step) && HostAnswers(s, step)
    ensures AskedAt(Next(s, step), n) && HandsOrdered(Next(s, step))
  {
    hide Sound, HandsOrdered, AskedAt, DispatcherStep, ContainerStep, HostStep;
    match step
    case ClientSends(m) =>
      assert AskedAt(s, m.serial);
      ClientKeepsAsked(s, m, n);
    case Dispatch(ok, serial) => DispatcherKeepsAsked(s, ok, serial, n);
    case ContainerSends(m) => ContainerSendsKeepsAsked(s, m, n);
    case HostSends(m) => HostSendsKeepsAsked(s, m, n);
    case ContainerReads(ok) => ContainerReaderKeepsAsked(s, ok, n);
    case HostReads(ok) => HostReaderKeepsAsked(s, ok, n);
  }

  lemma ContainerSendsKeepsAsked(s: State, m: Message, n: uint32)
    requires HandsOrdered(s) && AskedAt(s, n)
    ensures AskedAt(Next(s, ContainerSends(m)), n) && HandsOrdered(Next(s, ContainerSends(m)))
  {
    hide LogOf, Replies, Calls, Taken;
    assert Consumed(Next(s, ContainerSends(m)), n) == Consumed(s, n);
  }

  lemma StepKeepsAsked(s: State, step: Step)
    requires Sound(s) && Asked(s) && Enabled(s, step) && HostAnswers(s, step)
    ensures Asked(Next(s, step))
  {
    hide Sound, HandsOrdered, AskedAt, Next, Enabled, HostAnswers;
    forall n ensures AskedAt(Next(s, step), n) && HandsOrdered(Next(s, step)) {
      StepKeepsAskedAt(s, step, n);
    }
    StepKeepsAskedAt(s, step, 0);
  }

  lemma AskedInitially(hostUp: bool)
    ensures Asked(Initial(hostUp))
  {
  }

  lemma {:induction false} RunKeepsAsked(s: State, steps: seq<Step>)
    requires Sound(s) && Asked(s) && ValidRun(s, steps) && DisciplinedRun(s, steps)
    ensures Sound(Run(s, steps)) && Asked(Run(s, steps))
    decreases |steps|
  {
    hide Sound, Asked, Next, Enabled, HostAnswers;
    if steps != [] {
      StepKeepsSound(s, steps[0]);
      StepKeepsAsked(s, steps[0]);
      RunKeepsAsked(Next(s, steps[0]), steps[1..]);
    }
  }

  /** No solicited reply is lost to a race. If the host answers only calls it has received, each at
      most once, every host reply finds the entry that waits for it, for every interleaving and
      with any writes failing: the branch for replies that were not asked for is never taken. No
      serial is ever both pending and merging. */
  lemma EveryHostReplyIsAwaited(hostUp: bool, steps: seq<Step>)
    requires ValidRun(Initial(hostUp), steps) && DisciplinedRun(Initial(hostUp), steps)
    ensures
      var s := Run(Initial(hostUp), steps);
      && (s.host.Matching? ==> Waits(s, s.host.m.fields.replySerial))
      && (s.host.LookingUp? ==> s.host.m.fields.replySerial in s.hostPending)
      && s.hostPending.Keys !! s.merges.Keys
  {
    SoundInitially(hostUp);
    AskedInitially(hostUp);
    RunKeepsAsked(Initial(hostUp), steps);
    var s := Run(Initial(hostUp), steps);
    hide Run, ValidRun, DisciplinedRun, LogOf, Replies, Calls, Taken, PendingSound, MergesSound, BusSound, Answers, WellFormed;
    forall n ensures !(n in s.hostPending && n in s.merges) {
      DisjointEntries(s, n);
    }
    if s.host.Matching? || s.host.LookingUp? {
      var k := s.host.m.fields.replySerial;
      assert AskedAt(s, k);
      HeldReplyIsAwaited(s, k);
    }
  }
}
