/** Where the messages of a client go, over the messages themselves
    (container/dbus/router.go:298-450; container/dbus/rules.go). */
module Routing {
  import opened Bytes
  import opened Wrappers
  import opened Wire
  import opened Reader
  import opened WireLayout
  import opened Texts
  import opened Rules
  import opened ErrorReply
  import opened Session
  import opened Traffic

  /** A name is served by the host: a static rule names it, or it has been learned. */
  predicate OnHost(name: Text, learned: set<Text>) {
    name != [] && (HostTalks(name) || HostOwns(name) || name in learned)
  }

  predicate HostRule(rule: Text) {
    || Mentions(rule, Ascii("org.freedesktop.portal"))
    || Mentions(rule, Ascii("org.freedesktop.Notifications"))
    || Mentions(rule, Ascii("org.freedesktop.secrets"))
    || Mentions(rule, Ascii("org.freedesktop.ScreenSaver"))
    || Mentions(rule, Ascii("org.kde.StatusNotifierWatcher"))
  }

  /** The bus methods that are about a name. */
  predicate AboutName(member: Text) {
    || member == Ascii("GetNameOwner") || member == Ascii("NameHasOwner") || member == Ascii("StartServiceByName")
    || member == Ascii("GetConnectionUnixProcessID") || member == Ascii("GetConnectionUnixUser")
    || member == Ascii("GetConnectionCredentials") || member == Ascii("GetAdtAuditSessionData")
    || member == Ascii("GetConnectionSELinuxSecurityContext")
  }

  predicate AboutOwnership(member: Text) {
    member == Ascii("RequestName") || member == Ascii("ReleaseName")
  }

  predicate AboutMatches(member: Text) {
    member == Ascii("AddMatch") || member == Ascii("RemoveMatch")
  }

  predicate AboutLists(member: Text) {
    member == Ascii("ListNames") || member == Ascii("ListActivatableNames")
  }

  predicate AboutNothing(member: Text) {
    && !AboutName(member) && !AboutOwnership(member) && !AboutMatches(member) && !AboutLists(member)
    && member != Ascii("Hello")
  }

  lemma NamesAreRouted(name: Text, learned: set<Text>)
    ensures RouteName(name, learned) == Host <==> OnHost(name, learned)
  {
    hide RouteDestination, RouteOwnership, HostTalks, HostOwns;
    RuleTables(name);
  }

  lemma MembersNamed(member: Text)
    ensures member in NAME_QUERIES <==> AboutName(member)
    ensures member in OWNERSHIP_CALLS <==> AboutOwnership(member)
    ensures member in MATCH_CALLS <==> AboutMatches(member)
    ensures member in LIST_QUERIES <==> AboutLists(member)
  {
  }

  lemma MemberLengths(member: Text)
    ensures |Ascii("Hello")| == 5
    ensures AboutMatches(member) ==> |member| == 8 || |member| == 11
    ensures AboutOwnership(member) ==> |member| == 11
    ensures AboutLists(member) ==> |member| == 9 || |member| == 20
    ensures AboutName(member) ==> |member| in {12, 18, 21, 22, 24, 26, 35}
  {
  }

  lemma MatchesAreNoOwnership(member: Text)
    ensures AboutMatches(member) ==> !AboutOwnership(member)
  {
    assert Ascii("RemoveMatch")[2] == 'm' as int;
    assert Ascii("RequestName")[2] == 'q' as int;
    assert Ascii("ReleaseName")[2] == 'l' as int;
  }

  /** No member is of two kinds. */
  lemma MembersApart(member: Text)
    ensures member == Ascii("Hello") ==> !AboutMatches(member) && !AboutOwnership(member) && !AboutLists(member) && !AboutName(member)
    ensures AboutMatches(member) ==> !AboutOwnership(member) && !AboutLists(member) && !AboutName(member)
    ensures AboutOwnership(member) ==> !AboutLists(member) && !AboutName(member)
    ensures AboutLists(member) ==> !AboutName(member)
  {
    hide AboutMatches, AboutOwnership, AboutLists, AboutName, Ascii;
    MemberLengths(member);
    MatchesAreNoOwnership(member);
  }

  /** Calls to the bus itself. With a host bus: a name is requested and released on the host alone if it
      lies under the ownership rule, and asked about on the host alone if it is on the host; `Hello`
      goes to both buses, and so do match calls whose rule concerns the host; name lists are asked of
      both and merged; everything else goes to the container alone, and all of it without a host bus. */
  lemma BusCallRoutes(m: Message, hostUp: bool, learned: set<Text>)
    requires m.kind != TYPE_SIGNAL && m.fields.destination == Ascii("org.freedesktop.DBus")
    ensures
      var member, arg, r := m.fields.member, FirstText(m), RouteOf(m, hostUp, learned);
      if !hostUp then r == ToContainer
      else
        && (AboutOwnership(member) ==> r == if HostOwns(arg) then ToHost else ToContainer)
        && (AboutName(member) ==> r == if OnHost(arg, learned) then ToHost else ToContainer)
        && (member == Ascii("Hello") ==> r == CopySwallow)
        && (AboutMatches(member) ==> r == if HostRule(arg) then CopySwallow else ToContainer)
        && (AboutLists(member) ==> r == CopyMerge)
        && (AboutNothing(member) ==> r == ToContainer)
  {
    hide FirstText, RouteName, RouteOwnership, MatchSignalRuleHost, AboutName, AboutOwnership, AboutMatches, AboutLists,
         HostOwns, OnHost, HostRule;
    var member, arg := m.fields.member, FirstText(m);
    MembersNamed(member);
    MembersApart(member);
    NamesAreRouted(arg, learned);
    RuleTables(arg);
    RulesConcernHost(arg);
  }

  lemma RulesConcernHost(rule: Text)
    ensures MatchSignalRuleHost(rule) <==> HostRule(rule)
  {
    SignalRuleTable(rule);
  }

  /** Calls and replies to other names. */
  lemma NamedRoutes(m: Message, hostUp: bool, learned: set<Text>)
    requires m.kind != TYPE_SIGNAL && m.fields.destination != Ascii("org.freedesktop.DBus")
    ensures
      RouteOf(m, hostUp, learned)
      == if !OnHost(m.fields.destination, learned) then ToContainer else if hostUp then ToHost else Unavailable
  {
    hide RouteName, OnHost;
    NamesAreRouted(m.fields.destination, learned);
  }

  /** Signals: a broadcast reaches both buses, unless it claims to come from the bus itself; one with a
      destination reaches the bus of the destination. */
  lemma SignalRoutes(m: Message, hostUp: bool, learned: set<Text>)
    requires m.kind == TYPE_SIGNAL
    ensures
      var to, bus, r := m.fields.destination, Ascii("org.freedesktop.DBus"), RouteOf(m, hostUp, learned);
      && (to == [] ==> r == if hostUp && m.fields.iface != bus then CopyBroadcast else ToContainer)
      && (to != [] ==> r == if hostUp && to != bus && OnHost(to, learned) then ToHost else ToContainer)
  {
    hide RouteName, OnHost;
    NamesAreRouted(m.fields.destination, learned);
  }

  /** The messages that the host bus alone receives: requests for names of the ownership rule, questions
      about names on the host, and what is addressed to a name on the host. */
  predicate HostAlone(m: Message, learned: set<Text>) {
    if m.fields.destination != Ascii("org.freedesktop.DBus") then OnHost(m.fields.destination, learned)
    else
      && m.kind != TYPE_SIGNAL
      && (|| (AboutOwnership(m.fields.member) && HostOwns(FirstText(m)))
          || (AboutName(m.fields.member) && OnHost(FirstText(m), learned)))
  }

  /** The messages that both buses receive: `Hello`, name lists, match rules that concern the host, and
      broadcast signals that do not claim to come from the bus. */
  predicate BothGet(m: Message) {
    if m.kind == TYPE_SIGNAL then m.fields.destination == [] && m.fields.iface != Ascii("org.freedesktop.DBus")
    else
      && m.fields.destination == Ascii("org.freedesktop.DBus")
      && (|| m.fields.member == Ascii("Hello") || AboutLists(m.fields.member)
          || (AboutMatches(m.fields.member) && HostRule(FirstText(m))))
  }

  /** The messages that the client gets back as errors where there is no host bus. */
  predicate NeedsHost(m: Message, learned: set<Text>) {
    && m.kind != TYPE_SIGNAL && m.fields.destination != Ascii("org.freedesktop.DBus")
    && OnHost(m.fields.destination, learned)
  }

  lemma RoutesMean(m: Message, hostUp: bool, learned: set<Text>)
    ensures
      var r := RouteOf(m, hostUp, learned);
      && (r.ReachesHost() <==> hostUp && (HostAlone(m, learned) || BothGet(m)))
      && (r.ReachesContainer() <==> if hostUp then !HostAlone(m, learned) else !NeedsHost(m, learned))
      && (r.Unavailable? <==> !hostUp && NeedsHost(m, learned))
  {
    if m.kind == TYPE_SIGNAL {
      SignalRoutes(m, hostUp, learned);
    } else if m.fields.destination != Ascii("org.freedesktop.DBus") {
      NamedRoutes(m, hostUp, learned);
    } else {
      BusCallRoutes(m, hostUp, learned);
      MembersApart(m.fields.member);
    }
    hide RouteOf, FirstText, AboutName, AboutOwnership, AboutMatches, AboutLists, HostOwns, HostTalks, HostRule;
  }

  lemma {:induction false} SharesContain(log: seq<Sent>, e: Sent)
    ensures e in HostShare(log) <==> e in log && e.route.ReachesHost()
    ensures e in ContainerShare(log) <==> e in log && e.route.ReachesContainer()
    ensures e in log && e.route.Unavailable? ==> e.Serial() in Undeliverable(log)
    decreases |log|
  {
    if log != [] {
      SharesContain(log[..|log| - 1], e);
      assert log == log[..|log| - 1] + [log[|log| - 1]];
    }
  }

  /** Who receives what. In a run without failed writes, whenever the dispatcher is idle, each message
      of the client has reached the host bus, the container bus, both, or neither, as the message itself
      and the names learned by then say; where it has reached neither, the client has been told. */
  lemma EachBusGetsItsShare(hostUp: bool, steps: seq<Step>, i: nat)
    requires ValidRun(Initial(hostUp), steps) && i < |Run(Initial(hostUp), steps).log|
    requires !Run(Initial(hostUp), steps).failed && Run(Initial(hostUp), steps).disp.Idle?
    ensures
      var s := Run(Initial(hostUp), steps);
      var e := s.log[i];
      && (e in s.hostIn <==> hostUp && (HostAlone(e.msg, e.hostNames) || BothGet(e.msg)))
      && (e in s.contIn <==> if hostUp then !HostAlone(e.msg, e.hostNames) else !NeedsHost(e.msg, e.hostNames))
      && (!hostUp && NeedsHost(e.msg, e.hostNames) ==> e.msg.serial in Refusals(s.clientOut))
  {
    hide Run, ValidRun, RouteOf, HostAlone, BothGet, NeedsHost, HostShare, ContainerShare, Undeliverable, Refusals;
    var s := Run(Initial(hostUp), steps);
    NothingIsLost(hostUp, steps);
    RunKeepsRouted(Initial(hostUp), steps);
    SharesContain(s.log, s.log[i]);
    RoutesMean(s.log[i].msg, hostUp, s.log[i].hostNames);
  }

  lemma {:induction false} LoggedRoute(log: seq<Sent>, hostUp: bool, n: uint32)
    requires Routed(log, hostUp) && LogOf(log, n).Some?
    ensures LogOf(log, n).value.route == RouteOf(LogOf(log, n).value.msg, hostUp, LogOf(log, n).value.hostNames)
    decreases |log|
  {
    hide RouteOf;
    if log[|log| - 1].Serial() != n {
      LoggedRoute(log[..|log| - 1], hostUp, n);
    }
  }

  function NotificationHead(big: bool): (h: seq<byte>)
    ensures |h| == 16
  {
    if big then CallHead(66, [0, 0, 0, 7], [0, 0, 0, 38]) else CallHead(108, [7, 0, 0, 0], [38, 0, 0, 0])
  }

  /** The fixed header of a call without a body. */
  function CallHead(mark: byte, serial: seq<byte>, fieldsLen: seq<byte>): seq<byte> {
    [mark, 1, 0, 1] + [0, 0, 0, 0] + serial + fieldsLen
  }

  function NotificationField(big: bool): (f: seq<byte>)
    ensures |f| == 38
  {
    [6, 1, 115, 0] + (if big then [0, 0, 0, 29] else [29, 0, 0, 0]) + Ascii("org.freedesktop.Notifications") + [0]
  }

  /** A method call to the notification service, byte by byte, in either byte order: fixed header,
      destination field, two bytes of padding, no body. */
  function NotificationCall(big: bool): seq<byte> {
    NotificationHead(big) + NotificationField(big) + [0, 0]
  }

  lemma NotificationHeadReads(raw: seq<byte>, big: bool)
    requires |raw| >= 16 && raw[..16] == NotificationHead(big)
    ensures raw[0] == (if big then 66 else 108) && raw[1] == 1
    ensures NumberAt(raw, 4) == 0 && NumberAt(raw, 8) == 7 && NumberAt(raw, 12) == 38
  {
    hide CallHead, NumberAt;
    if big {
      CallHeadReads(raw, 66, [0, 0, 0, 7], [0, 0, 0, 38]);
    } else {
      CallHeadReads(raw, 108, [7, 0, 0, 0], [38, 0, 0, 0]);
    }
  }

  lemma CallHeadReads(raw: seq<byte>, mark: byte, serial: seq<byte>, fieldsLen: seq<byte>)
    requires |serial| == 4 && |fieldsLen| == 4 && |raw| >= 16 && raw[..16] == CallHead(mark, serial, fieldsLen)
    ensures raw[0] == mark && raw[1] == 1 && NumberAt(raw, 4) == 0
    ensures mark == 66 ==> NumberAt(raw, 8) == Number(serial[0], serial[1], serial[2], serial[3])
    ensures mark == 66 ==> NumberAt(raw, 12) == Number(fieldsLen[0], fieldsLen[1], fieldsLen[2], fieldsLen[3])
    ensures mark != 66 ==> NumberAt(raw, 8) == Number(serial[3], serial[2], serial[1], serial[0])
    ensures mark != 66 ==> NumberAt(raw, 12) == Number(fieldsLen[3], fieldsLen[2], fieldsLen[1], fieldsLen[0])
  {
    hide CallHead, NumberAt;
    CallHeadStands(raw, mark, serial, fieldsLen);
    QuadReads(raw, 4, [0, 0, 0, 0]);
    QuadReads(raw, 8, serial);
    QuadReads(raw, 12, fieldsLen);
  }

  lemma CallHeadStands(raw: seq<byte>, mark: byte, serial: seq<byte>, fieldsLen: seq<byte>)
    requires |serial| == 4 && |fieldsLen| == 4 && |raw| >= 16 && raw[..16] == CallHead(mark, serial, fieldsLen)
    ensures raw[0] == mark && raw[1] == 1 && raw[4..8] == [0, 0, 0, 0] && raw[8..12] == serial && raw[12..16] == fieldsLen
  {
    var h := CallHead(mark, serial, fieldsLen);
    var first: seq<byte> := [mark, 1, 0, 1];
    assert h == first + ([0, 0, 0, 0] + serial + fieldsLen);
    assert raw[0] == raw[..16][0] == first[0] && raw[1] == raw[..16][1] == first[1];
    assert raw[4..8] == raw[..16][4..8] && raw[8..12] == raw[..16][8..12] && raw[12..16] == raw[..16][12..16];
  }

  lemma QuadReads(raw: seq<byte>, at: nat, q: seq<byte>)
    requires at + 4 <= |raw| && raw[at..at + 4] == q
    ensures NumberAt(raw, at) == if raw[0] == 66 then Number(q[0], q[1], q[2], q[3]) else Number(q[3], q[2], q[1], q[0])
  {
  }

  lemma NotificationFieldNames(big: bool)
    ensures NotificationField(big)
         == [6, 1, 115, 0] + Uint32Bytes(if big then Big else Little, 29) + Ascii("org.freedesktop.Notifications") + [0]
  {
    hide Ascii;
    assert Uint32Bytes(if big then Big else Little, 29) == if big then [0, 0, 0, 29] else [29, 0, 0, 0];
  }

  lemma NotificationCallFields(big: bool)
    ensures
      var raw := NotificationCall(big);
      && |raw| == 56 && raw[0] == (if big then 66 else 108) && raw[1] == 1
      && NumberAt(raw, 4) == 0 && NumberAt(raw, 8) == 7 && NumberAt(raw, 12) == 38
      && raw[16..54] == [6, 1, 115, 0] + Uint32Bytes(if big then Big else Little, 29) + Ascii("org.freedesktop.Notifications") + [0]
  {
    hide Ascii, NotificationHead, NotificationField, NumberAt, Uint32Bytes;
    var raw := NotificationCall(big);
    assert raw[..16] == NotificationHead(big) && raw[16..54] == NotificationField(big);
    NotificationHeadReads(raw, big);
    NotificationFieldNames(big);
  }

  /** From bytes to the bus: the reader takes this frame whole, it reads as a call with serial 7 to the
      notification service, and goes to the host alone, or back as an error without a host bus. */
  lemma NotificationCallReachesHost(big: bool, learned: set<Text>)
    ensures
      var raw := NotificationCall(big);
      && Parse(raw).Success? && NextFrame(raw, []) == Outcome(Success(Parse(raw).value), [], [])
      && Parse(raw).value.IsCall() && Parse(raw).value.serial == 7
      && Parse(raw).value.fields.destination == Ascii("org.freedesktop.Notifications")
      && RouteOf(Parse(raw).value, true, learned) == ToHost && RouteOf(Parse(raw).value, false, learned) == Unavailable
  {
    hide Ascii, Parse, NotificationCall, NumberAt, RouteOf, NextFrame, FrameLength;
    var raw := NotificationCall(big);
    NotificationCallFields(big);
    FixedHeaderLayout(raw);
    LoneTextField(raw, 6, Ascii("org.freedesktop.Notifications"));
    FrameIsNext(raw);
    NamedRoutes(Parse(raw).value, true, learned);
    NamedRoutes(Parse(raw).value, false, learned);
    assert Ascii("org.freedesktop.Notifications") != Ascii("org.freedesktop.DBus") by {
      assert |Ascii("org.freedesktop.DBus")| == 20;
    }
  }

  lemma FrameIsNext(raw: seq<byte>)
    requires Parse(raw).Success? && Parse(raw).value.fields.unixFDs == 0
    requires RoundUp(16 + NumberAt(raw, 12)) + NumberAt(raw, 4) == |raw| <= 1000
    ensures NextFrame(raw, []) == Outcome(Success(Parse(raw).value), [], [])
  {
    hide Parse, NumberAt, RoundUp, Wrap, PaddedHeader, OrderOf, GetUint32;
    FixedHeaderLayout(raw);
    NumberIsRead(raw, 4);
    NumberIsRead(raw, 12);
    PaddedIsRounded(NumberAt(raw, 12));
    WrapAdds(RoundUp(16 + NumberAt(raw, 12)), NumberAt(raw, 4));
    WrapsAround(RoundUp(16 + NumberAt(raw, 12)));
    var m := Parse(raw).value;
    assert raw[..|raw|] == raw && raw[|raw|..] == [];
    assert m.(fds := []) == m;
  }

  /** The error that answers such a message where there is no host bus, as its bytes read. */
  lemma RefusalReads(m: Message, serial: uint32)
    requires Parse(m.raw) == Success(m.(fds := [])) && |m.raw| <= MAX_MESSAGE_SIZE
    ensures
      var raw := UnavailableReply(m, serial).raw;
      && Parse(raw).Success?
      && var r := Parse(raw).value;
         && r.kind == TYPE_ERROR && r.serial == serial
         && r.fields.errorName == Ascii("org.freedesktop.DBus.Error.ServiceUnknown")
         && r.fields.replySerial == m.serial && r.fields.destination == m.fields.sender
         && BodyTexts(r)
            == [Ascii("The name ") + m.fields.destination + Ascii(" is a host service but host proxy is unavailable")]
  {
    hide Parse, ErrorFrame, PaddedHeader, TextBody, ErrorFieldBytes, Ascii;
    ParsedTextsFit(m);
    ErrorReplyReads(m, SERVICE_UNKNOWN, UnavailableText(m.fields.destination), serial);
  }
}
