/** What the host tells, the router learns (container/dbus/router.go:289-296, 467-500, 540-563). */
module Lessons {
  import opened Bytes
  import opened Wrappers
  import opened Wire
  import opened Texts
  import opened Rules
  import opened Session
  import opened Correlation
  import opened Effects
  import opened Delivery
  import opened Solicited
  import opened Forwarding
  import Origins

  /** The host tells a name: first in its return to the client's own `Hello`, in its return to a
      forwarded question for an owner, or third in the news that a name on the host has a new owner.
      `e` is the client message that the host message answers, if any. */
  predicate Tells(e: Option<Sent>, m: Message, name: Text) {
    || (&& m.kind == TYPE_METHOD_RETURN && e.Some? && name == FirstText(m)
        && (|| (e.value.route.CopySwallow? && e.value.msg.fields.member == Ascii("Hello"))
            || (e.value.route.ToHost? && e.value.msg.IsCall() && e.value.msg.fields.member == Ascii("GetNameOwner"))))
    || (&& m.kind == TYPE_SIGNAL && FromDriver(m) && OwnerNews(m) && m.fields.member == Ascii("NameOwnerChanged")
        && |BodyTexts(m)| >= 3 && name == BodyTexts(m)[2])
  }

  function AnswerTo(log: seq<Sent>, m: Message): Option<Sent> {
    LogOf(log, m.fields.replySerial)
  }

  /** Every unique name that the message tells is known. */
  ghost predicate Known(log: seq<Sent>, names: set<Text>, m: Message) {
    forall x :: Tells(AnswerTo(log, m), m, x) && IsUnique(x) ==> x in names
  }

  ghost predicate TellsOnly(log: seq<Sent>, m: Message, name: Text) {
    forall x :: Tells(AnswerTo(log, m), m, x) ==> x == name
  }

  ghost predicate TellsNothing(log: seq<Sent>, m: Message) {
    forall x :: !Tells(AnswerTo(log, m), m, x)
  }

  /** The host reader has in hand what it is about to learn. */
  ghost predicate HandTells(log: seq<Sent>, names: set<Text>, r: BusReader) {
    match r
    case Naming(m) => TellsOnly(log, m, FirstText(m))
    case Learning(m, name, _) => TellsOnly(log, m, name)
    case Sending(m) => Known(log, names, m)
    case _ => true
  }

  ghost predicate LessonsInv(s: State) {
    && HandTells(s.log, s.hostNames, s.host)
    && forall i :: 0 <= i < Done(s.host, s.hostTaken) && i < |s.hostSent| ==> Known(s.log, s.hostNames, s.hostSent[i])
  }

  lemma AcceptedSignalTells(log: seq<Sent>, names: set<Text>, m: Message)
    requires !m.IsReply()
    ensures HandTells(log, names, AcceptSignal(m)) && (AcceptSignal(m).Waiting? ==> TellsNothing(log, m))
  {
    ForwardsWanted(m);
    hide ForwardsSignal, OwnerNews, BodyTexts, FirstText, LogOf;
  }

  lemma AcceptedReplyTells(log: seq<Sent>, names: set<Text>, m: Message, p: Pending)
    requires m.IsReply() && PendingFits(AnswerTo(log, m), p)
    ensures HandTells(log, names, AcceptReply(m, p)) && (AcceptReply(m, p).Waiting? ==> TellsNothing(log, m))
  {
    hide OwnerNews, FromDriver, BodyTexts, FirstText, LogOf;
  }

  lemma MergedTellsNothing(log: seq<Sent>, m: Message)
    requires m.IsReply() && AnswerTo(log, m).Some? && AnswerTo(log, m).value.route.CopyMerge?
    ensures TellsNothing(log, m)
  {
    hide OwnerNews, FromDriver, BodyTexts, FirstText, LogOf;
  }

  /** One step of the host reader: what it is done with afterwards is known. */
  ghost predicate HostLearns(s: State, t: State) {
    && HandTells(t.log, t.hostNames, t.host) && s.hostNames <= t.hostNames && t.log == s.log && t.hostSent == s.hostSent
    && (|| Done(t.host, t.hostTaken) == Done(s.host, s.hostTaken)
        || (&& Done(t.host, t.hostTaken) == Done(s.host, s.hostTaken) + 1 <= |s.hostSent|
            && Known(t.log, t.hostNames, s.hostSent[Done(s.host, s.hostTaken)])))
  }

  lemma HostTakesLesson(s: State, ok: bool)
    requires HandsFit(s) && s.host.Waiting?
    ensures HostLearns(s, HostStep(s, ok))
  {
    hide AcceptSignal, Tells;
    if s.hostTaken < |s.hostSent| && !s.hostSent[s.hostTaken].IsReply() {
      AcceptedSignalTells(s.log, s.hostNames, s.hostSent[s.hostTaken]);
      AcceptedSignalWaits(s.hostSent[s.hostTaken]);
    }
  }

  lemma AcceptedSignalWaits(m: Message)
    ensures AcceptSignal(m).Waiting? || HasInHand(AcceptSignal(m))
  {
  }

  lemma AcceptedReplyWaits(m: Message, p: Pending)
    ensures AcceptReply(m, p).Waiting? || HasInHand(AcceptReply(m, p))
  {
  }

  lemma HostMatchesLesson(s: State, ok: bool)
    requires HandsFit(s) && Sound(s) && s.host.Matching?
    ensures HostLearns(s, HostStep(s, ok))
  {
    hide LogOf, PendingSound, BusSound, Answers, WellFormed, Combine, Tells;
    if s.host.m.fields.replySerial in s.merges {
      HostReplyMatches(s);
      MergedTellsNothing(s.log, s.host.m);
    }
  }

  lemma HostLooksUpLesson(s: State, ok: bool)
    requires HandsFit(s) && Sound(s) && s.host.LookingUp? && s.host.m.fields.replySerial in s.hostPending
    ensures HostLearns(s, HostStep(s, ok))
  {
    hide LogOf, MergesSound, BusSound, Answers, WellFormed, AcceptReply, Tells;
    var p := s.hostPending[s.host.m.fields.replySerial];
    AcceptedReplyTells(s.log, s.hostNames, s.host.m, p);
    AcceptedReplyWaits(s.host.m, p);
  }

  lemma HostLearnsLesson(s: State, ok: bool)
    requires HandsFit(s) && HandTells(s.log, s.hostNames, s.host)
    requires !s.host.Waiting? && !s.host.Matching? && !s.host.LookingUp?
    ensures HostLearns(s, HostStep(s, ok))
  {
    hide LogOf, Tells, IsUnique;
    match s.host
    case Naming(_) =>
    case Learning(_, _, _) =>
    case Sending(_) =>
    case SendingMerged(_) =>
    case _ =>
  }

  lemma HostReaderLearns(s: State, ok: bool)
    requires HandsFit(s) && Sound(s) && Asked(s) && HandTells(s.log, s.hostNames, s.host)
    ensures HostLearns(s, HostStep(s, ok))
  {
    if s.host.LookingUp? {
      ReplyFindsEntry(s);
    }
    hide HandsFit, Sound, Asked, HandTells, HostLearns, HostStep;
    match s.host
    case Waiting => HostTakesLesson(s, ok);
    case Matching(_) => HostMatchesLesson(s, ok);
    case LookingUp(_) => HostLooksUpLesson(s, ok);
    case _ => HostLearnsLesson(s, ok);
  }

  lemma ReplyFindsEntry(s: State)
    requires Sound(s) && Asked(s) && s.host.LookingUp?
    ensures s.host.m.fields.replySerial in s.hostPending
  {
    hide LogOf, Replies, Calls, Taken, PendingSound, MergesSound, BusSound, Answers;
    var k := s.host.m.fields.replySerial;
    assert AskedAt(s, k);
    LookedUpReply(s);
    HeldReplyIsAwaited(s, k);
  }

  lemma LookedUpReply(s: State)
    requires Sound(s) && s.host.LookingUp?
    ensures Held(s.host, s.host.m.fields.replySerial) == 1
  {
    hide LogOf, PendingSound, MergesSound, BusSound, Answers;
  }

  lemma KnownStays(s: State, t: State, m: Message)
    requires Known(s.log, s.hostNames, m) && t.log == s.log && s.hostNames <= t.hostNames
    ensures Known(t.log, t.hostNames, m)
  {
    hide Tells;
  }

  lemma HostKeepsLessons(s: State, ok: bool)
    requires HandsFit(s) && Sound(s) && Asked(s) && LessonsInv(s)
    ensures LessonsInv(HostStep(s, ok))
  {
    hide HandsFit, Sound, Asked, HandTells, HostStep, Known, Done;
    HostReaderLearns(s, ok);
    var t := HostStep(s, ok);
    forall i | 0 <= i < Done(t.host, t.hostTaken) && i < |t.hostSent| ensures Known(t.log, t.hostNames, t.hostSent[i]) {
      if i < Done(s.host, s.hostTaken) {
        KnownStays(s, t, s.hostSent[i]);
      }
    }
  }

  lemma {:induction false} SentReplyCounts(ms: seq<Message>, i: nat, n: uint32)
    requires i < |ms| && ms[i].IsReply() && ms[i].fields.replySerial == n
    ensures Replies(ms, n) >= 1
    decreases |ms|
  {
    if i < |ms| - 1 {
      SentReplyCounts(ms[..|ms| - 1], i, n);
    }
  }

  /** What a host message tells does not change when the client goes on. */
  lemma AnswersStay(s: State, e: Sent, i: nat)
    requires Asked(s) && LogOf(s.log, e.Serial()).None? && i < |s.hostSent|
    ensures
      var m := s.hostSent[i];
      forall x :: Tells(AnswerTo(s.log + [e], m), m, x) <==> Tells(AnswerTo(s.log, m), m, x)
  {
    hide LogOf, OwnerNews, FromDriver, BodyTexts, FirstText, HandsOrdered;
    var m := s.hostSent[i];
    var n := m.fields.replySerial;
    LogAppend(s.log, e, n);
    if n == e.Serial() && m.IsReply() {
      UnloggedIsUnanswered(s, n);
      SentReplyCounts(s.hostSent, i, n);
    }
  }

  lemma UnloggedIsUnanswered(s: State, n: uint32)
    requires Asked(s) && LogOf(s.log, n).None?
    ensures Replies(s.hostSent, n) == 0
  {
    hide LogOf, Calls, Replies, HandsOrdered, Taken;
    assert AskedAt(s, n);
    assert LogOf(s.hostIn, n).None?;
    UnaskedUnanswered(s, n);
  }

  lemma KnownAnyway(log: seq<Sent>, longer: seq<Sent>, names: set<Text>, m: Message)
    requires forall x :: Tells(AnswerTo(longer, m), m, x) <==> Tells(AnswerTo(log, m), m, x)
    ensures Known(log, names, m) ==> Known(longer, names, m)
    ensures forall name :: TellsOnly(log, m, name) ==> TellsOnly(longer, m, name)
  {
    hide Tells, IsUnique, AnswerTo;
  }

  lemma ClientKeepsLessons(s: State, m: Message)
    requires HandsFit(s) && Asked(s) && LessonsInv(s) && Enabled(s, ClientSends(m))
    ensures LessonsInv(Next(s, ClientSends(m)))
  {
    hide RouteOf, Asked, Known, TellsOnly, Tells, AnswerTo, LogOf;
    var t := Next(s, ClientSends(m));
    forall i | 0 <= i < |s.hostSent|
      ensures Known(s.log, s.hostNames, s.hostSent[i]) ==> Known(t.log, s.hostNames, s.hostSent[i])
      ensures forall name :: TellsOnly(s.log, s.hostSent[i], name) ==> TellsOnly(t.log, s.hostSent[i], name)
    {
      AnswersStay(s, t.log[|s.log|], i);
      KnownAnyway(s.log, t.log, s.hostNames, s.hostSent[i]);
    }
  }

  lemma OthersKeepLessons(s: State, t: State)
    requires LessonsInv(s) && Done(s.host, s.hostTaken) <= |s.hostSent|
    requires t.log == s.log && t.hostNames == s.hostNames && t.host == s.host && t.hostTaken == s.hostTaken
    requires s.hostSent <= t.hostSent
    ensures LessonsInv(t)
  {
    hide Known, HandTells;
  }

  lemma StepKeepsLessons(s: State, step: Step)
    requires HandsFit(s) && Sound(s) && Asked(s) && LessonsInv(s) && Enabled(s, step)
    ensures LessonsInv(Next(s, step))
  {
    hide Sound, Asked, LessonsInv, RouteOf, DispatcherStep, ContainerStep, HostStep, LogOf;
    match step
    case ClientSends(m) => ClientKeepsLessons(s, m);
    case Dispatch(ok, serial) =>
      DispatcherEffect(s, ok, serial);
      OthersKeepLessons(s, Next(s, step));
    case ContainerReads(ok) =>
      ContainerEffect(s, ok);
      OthersKeepLessons(s, Next(s, step));
    case HostReads(ok) => HostKeepsLessons(s, ok);
    case _ => OthersKeepLessons(s, Next(s, step));
  }

  lemma {:induction false} RunKeepsLessons(s: State, steps: seq<Step>)
    requires InOrder(s) && Sound(s) && Asked(s) && LessonsInv(s) && ValidRun(s, steps) && DisciplinedRun(s, steps)
    ensures InOrder(Run(s, steps)) && LessonsInv(Run(s, steps))
    decreases |steps|
  {
    hide Sound, Asked, LessonsInv, Next, Enabled, HostAnswers, InPlace, Precedes, HandFits;
    if steps != [] {
      StepKeepsSound(s, steps[0]);
      StepKeepsAsked(s, steps[0]);
      StepKeepsOrder(s, steps[0]);
      StepKeepsLessons(s, steps[0]);
      RunKeepsLessons(Next(s, steps[0]), steps[1..]);
    }
  }

  /** Each logged message is the one with its serial. */
  ghost predicate SerialsDiffer(log: seq<Sent>) {
    forall e :: e in log ==> LogOf(log, e.Serial()) == Some(e)
  }

  lemma StepKeepsSerials(s: State, step: Step)
    requires SerialsDiffer(s.log) && Enabled(s, step)
    ensures SerialsDiffer(Next(s, step).log)
  {
    hide RouteOf, DispatcherStep, ContainerStep, HostStep, LogOf;
    match step
    case ClientSends(m) =>
      var e := Next(s, step).log[|s.log|];
      forall x | x in s.log + [e] ensures LogOf(s.log + [e], x.Serial()) == Some(x) {
        LogAppend(s.log, e, x.Serial());
      }
    case Dispatch(ok, serial) => DispatcherEffect(s, ok, serial);
    case ContainerReads(ok) => ContainerEffect(s, ok);
    case HostReads(ok) => HostEffect(s, ok);
    case _ =>
  }

  lemma {:induction false} RunKeepsSerials(s: State, steps: seq<Step>)
    requires SerialsDiffer(s.log) && ValidRun(s, steps)
    ensures SerialsDiffer(Run(s, steps).log)
    decreases |steps|
  {
    hide SerialsDiffer, Next, Enabled;
    if steps != [] {
      StepKeepsSerials(s, steps[0]);
      RunKeepsSerials(Next(s, steps[0]), steps[1..]);
    }
  }

  ghost predicate Told(s: State, name: Text) {
    exists i :: 0 <= i < s.hostTaken && i < |s.hostSent| && Tells(AnswerTo(s.log, s.hostSent[i]), s.hostSent[i], name)
  }

  lemma TaughtIsTold(log: seq<Sent>, m: Message, name: Text)
    requires SerialsDiffer(log) && Origins.Teaches(log, m, name)
    ensures Tells(AnswerTo(log, m), m, name)
  {
    hide LogOf, BodyTexts, FirstText, OwnerNews, ForwardsSignal;
    ForwardsWanted(m);
    if m.kind == TYPE_METHOD_RETURN && name == FirstText(m) && Origins.Asked(log, m.fields.replySerial) {
      var e :| e in log && e.Serial() == m.fields.replySerial && Origins.AsksForName(e);
    }
  }

  lemma LearnedIsTold(hostUp: bool, steps: seq<Step>, name: Text)
    requires ValidRun(Initial(hostUp), steps) && name in Run(Initial(hostUp), steps).hostNames
    ensures IsUnique(name) && Told(Run(Initial(hostUp), steps), name)
  {
    hide Run, ValidRun, Tells, AnswerTo, Origins.Teaches, RouteName, IsUnique;
    Origins.LearnedNamesAreUnique(hostUp, steps, name);
    var s := Run(Initial(hostUp), steps);
    assert SerialsDiffer(Initial(hostUp).log);
    RunKeepsSerials(Initial(hostUp), steps);
    var i :| 0 <= i < s.hostTaken && i < |s.hostSent| && Origins.Teaches(s.log, s.hostSent[i], name);
    TaughtIsTold(s.log, s.hostSent[i], name);
  }

  lemma ToldIsLearned(hostUp: bool, steps: seq<Step>, name: Text)
    requires ValidRun(Initial(hostUp), steps) && DisciplinedRun(Initial(hostUp), steps)
    requires Run(Initial(hostUp), steps).host.Waiting? && IsUnique(name) && Told(Run(Initial(hostUp), steps), name)
    ensures name in Run(Initial(hostUp), steps).hostNames
  {
    SoundInitially(hostUp);
    AskedInitially(hostUp);
    assert InOrder(Initial(hostUp)) && LessonsInv(Initial(hostUp));
    RunKeepsLessons(Initial(hostUp), steps);
    var s := Run(Initial(hostUp), steps);
    hide Run, ValidRun, DisciplinedRun, InOrder, Tells, AnswerTo, IsUnique;
    var i :| 0 <= i < s.hostTaken && i < |s.hostSent| && Tells(AnswerTo(s.log, s.hostSent[i]), s.hostSent[i], name);
    assert Known(s.log, s.hostNames, s.hostSent[i]);
  }

  /** The learned names are exactly the unique names that the host has told. With a host that answers
      what it was asked, in every interleaving and with any writes failing, this holds whenever the host
      reader waits for its next message; so a unique name is routed to the host exactly if it was told. */
  lemma LearnedNamesAreThoseTold(hostUp: bool, steps: seq<Step>, name: Text)
    requires ValidRun(Initial(hostUp), steps) && DisciplinedRun(Initial(hostUp), steps)
    requires Run(Initial(hostUp), steps).host.Waiting?
    ensures
      var s := Run(Initial(hostUp), steps);
      && (name in s.hostNames <==> IsUnique(name) && Told(s, name))
      && (IsUnique(name) ==> (RouteName(name, s.hostNames) == Host <==> Told(s, name)))
  {
    hide Run, ValidRun, DisciplinedRun, Told, IsUnique, RouteName;
    var s := Run(Initial(hostUp), steps);
    Origins.LearnedNamesAreUnique(hostUp, steps, name);
    if name in s.hostNames {
      LearnedIsTold(hostUp, steps, name);
    }
    if IsUnique(name) && Told(s, name) {
      ToldIsLearned(hostUp, steps, name);
    }
  }
}
