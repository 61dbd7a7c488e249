/** Which parts of the session each thread's step leaves alone. */
module Effects {
  import opened Bytes
  import opened Session

  predicate ClientSideSame(s: State, t: State) {
    t.hostUp == s.hostUp && t.log == s.log && t.contIn == s.contIn && t.hostIn == s.hostIn && t.disp == s.disp
  }

  predicate ContainerSideSame(s: State, t: State) {
    t.cont == s.cont && t.contSent == s.contSent && t.contTaken == s.contTaken
  }

  predicate HostSideSame(s: State, t: State) {
    t.host == s.host && t.hostSent == s.hostSent && t.hostTaken == s.hostTaken
  }

  predicate DispatcherLeaves(s: State, t: State) {
    && ContainerSideSame(s, t) && HostSideSame(s, t)
    && t.hostUp == s.hostUp && t.log == s.log && t.hostNames == s.hostNames && t.hostName == s.hostName
    && (s.failed ==> t.failed)
  }

  lemma RecordsLeave(s: State, e: Sent, d: Dispatcher)
    ensures DispatcherLeaves(s, Note(s, e).(disp := d)) && DispatcherLeaves(s, Undo(s, e).(disp := d))
  {
  }

  lemma DispatcherEffect(s: State, ok: bool, serial: uint32)
    ensures DispatcherLeaves(s, DispatcherStep(s, ok, serial))
  {
    if s.disp.Noting? {
      RecordsLeave(s, s.disp.e, WritingHost(s.disp.e));
    }
    if s.disp.Undoing? {
      RecordsLeave(s, s.disp.e, AfterHost(s.disp.e, false));
    }
    hide UnavailableReply, Note, Undo;
    match s.disp
    case Noting(e) =>
    case WritingHost(e) =>
    case Undoing(e) =>
    case WritingContainer(e) =>
    case Answering(e) =>
    case _ =>
  }

  lemma ContainerEffect(s: State, ok: bool)
    ensures
      var t := ContainerStep(s, ok);
      && ClientSideSame(s, t) && HostSideSame(s, t)
      && t.contSent == s.contSent
      && t.hostPending == s.hostPending && t.hostNames == s.hostNames && t.hostName == s.hostName
      && (s.failed ==> t.failed)
  {
    hide Combine;
    match s.cont
    case Waiting =>
    case Matching(_) =>
    case Sending(_) =>
    case SendingMerged(_) =>
    case _ =>
  }

  lemma HostEffect(s: State, ok: bool)
    ensures
      var t := HostStep(s, ok);
      && ClientSideSame(s, t) && ContainerSideSame(s, t)
      && t.hostSent == s.hostSent
      && (s.failed ==> t.failed)
  {
    hide Combine, AcceptSignal, AcceptReply, Remember;
    match s.host
    case Waiting =>
    case Matching(_) =>
    case LookingUp(_) =>
    case Naming(_) =>
    case Learning(_, _, _) =>
    case Sending(_) =>
    case SendingMerged(_) =>
    case _ =>
  }
}
