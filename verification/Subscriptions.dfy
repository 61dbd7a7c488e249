/** The host bus's match rules mirror the client's (container/dbus/router.go:398-408;
    container/dbus/rules.go:75-84; the calls are those of the D-Bus Specification, section
    "Match Rules"). */
module Subscriptions {
  import opened Bytes
  import opened Wire
  import opened Texts
  import opened Session
  import opened Traffic
  import opened Routing

  predicate BusCall(m: Message, member: Text) {
    m.IsCall() && m.fields.destination == Ascii("org.freedesktop.DBus") && m.fields.member == member
  }

  /** The match rules that a bus keeps for a connection: a rule added twice counts twice, and
      removing takes one of them away if there is one. */
  function MatchRules(received: seq<Sent>): multiset<Text>
    decreases |received|
  {
    if received == [] then multiset{} else ApplyCall(MatchRules(received[..|received| - 1]), received[|received| - 1].msg)
  }

  function ApplyCall(rules: multiset<Text>, m: Message): multiset<Text> {
    if BusCall(m, Ascii("AddMatch")) then rules + multiset{FirstText(m)}
    else if BusCall(m, Ascii("RemoveMatch")) then rules - multiset{FirstText(m)}
    else rules
  }

  lemma MatchRulesAppend(received: seq<Sent>, e: Sent)
    ensures MatchRules(received + [e]) == ApplyCall(MatchRules(received), e.msg)
  {
    assert (received + [e])[..|received|] == received;
  }

  lemma MatchCallRoute(m: Message, hostNames: set<Text>)
    requires BusCall(m, Ascii("AddMatch")) || BusCall(m, Ascii("RemoveMatch"))
    ensures RouteOf(m, true, hostNames) == if HostRule(FirstText(m)) then CopySwallow else ToContainer
  {
    hide FirstText, HostRule, RouteOf;
    BusCallRoutes(m, true, hostNames);
  }

  ghost predicate MirrorsAt(host: seq<Sent>, cont: seq<Sent>, rule: Text) {
    MatchRules(host)[rule] == if HostRule(rule) then MatchRules(cont)[rule] else 0
  }

  lemma {:induction false} SharesMirror(log: seq<Sent>, rule: Text)
    requires Routed(log, true)
    ensures MirrorsAt(HostShare(log), ContainerShare(log), rule)
    decreases |log|
  {
    if log != [] {
      var front, e := log[..|log| - 1], log[|log| - 1];
      SharesMirror(front, rule);
      hide RouteOf, FirstText, MirrorsAt;
      assert HostShare(front) + [] == HostShare(front) && ContainerShare(front) + [] == ContainerShare(front);
      if BusCall(e.msg, Ascii("AddMatch")) || BusCall(e.msg, Ascii("RemoveMatch")) {
        MatchCallRoute(e.msg, e.hostNames);
      }
      SharingKeepsMirror(HostShare(front), ContainerShare(front), e, rule);
    }
  }

  /** A message that goes to one bus or to both, by the route of its match rule if it has one. */
  lemma SharingKeepsMirror(host: seq<Sent>, cont: seq<Sent>, e: Sent, rule: Text)
    requires MirrorsAt(host, cont, rule)
    requires BusCall(e.msg, Ascii("AddMatch")) || BusCall(e.msg, Ascii("RemoveMatch")) ==>
      e.route == if HostRule(FirstText(e.msg)) then CopySwallow else ToContainer
    ensures
      MirrorsAt(if e.route.ReachesHost() then host + [e] else host, if e.route.ReachesContainer() then cont + [e] else cont, rule)
  {
    MatchRulesAppend(host, e);
    MatchRulesAppend(cont, e);
    hide FirstText, HostRule, MatchRules, BusCall;
  }

  /** Host subscriptions mirror the client's. In a run with a host bus and without failed writes,
      whenever the dispatcher is idle, the host bus keeps for the client exactly the rules of the
      container bus that concern the host, each as often. */
  lemma SubscriptionsMirror(steps: seq<Step>, rule: Text)
    requires ValidRun(Initial(true), steps)
    requires !Run(Initial(true), steps).failed && Run(Initial(true), steps).disp.Idle?
    ensures
      var s := Run(Initial(true), steps);
      MatchRules(s.hostIn)[rule] == if HostRule(rule) then MatchRules(s.contIn)[rule] else 0
  {
    NothingIsLost(true, steps);
    RunKeepsRouted(Initial(true), steps);
    SharesMirror(Run(Initial(true), steps).log, rule);
    hide Run, ValidRun, MatchRules, HostRule, HostShare, ContainerShare;
  }
}
