/** The static routing rules (container/dbus/rules.go). */
module Rules {
  import opened Bytes

  datatype Target = Container | Host

  const HOST_TALK_RULES: seq<Text> := [
    Ascii("org.freedesktop.portal.*"),
    Ascii("org.freedesktop.Notifications"),
    Ascii("org.freedesktop.secrets"),
    Ascii("org.freedesktop.ScreenSaver"),
    Ascii("org.kde.StatusNotifierWatcher")
  ]

  const HOST_OWN_RULES: seq<Text> := [Ascii("org.mpris.MediaPlayer2.*")]

  const WILDCARD := Ascii(".*")
  const DOT := Ascii(".")
  const COLON: byte := ':' as int

  predicate HasSuffix(s: Text, suffix: Text) {
    |suffix| <= |s| && s[|s| - |suffix|..] == suffix
  }

  function TrimSuffix(s: Text, suffix: Text): Text {
    if HasSuffix(s, suffix) then s[..|s| - |suffix|] else s
  }

  predicate Contains(s: Text, part: Text) {
    part <= s || (s != [] && Contains(s[1..], part))
  }

  predicate MatchRule(pattern: Text, name: Text) {
    || pattern == name
    || (HasSuffix(pattern, WILDCARD)
        && (name == TrimSuffix(pattern, WILDCARD) || TrimSuffix(pattern, WILDCARD) + DOT <= name))
  }

  predicate MatchesAny(rules: seq<Text>, name: Text) {
    exists i :: 0 <= i < |rules| && MatchRule(rules[i], name)
  }

  function RouteDestination(destination: Text): Target {
    if destination != [] && MatchesAny(HOST_TALK_RULES, destination) then Host else Container
  }

  function RouteOwnership(name: Text): Target {
    if name != [] && MatchesAny(HOST_OWN_RULES, name) then Host else Container
  }

  predicate MatchSignalRuleHost(rule: Text) {
    exists i :: 0 <= i < |HOST_TALK_RULES| && Contains(rule, TrimSuffix(HOST_TALK_RULES[i], WILDCARD))
  }

  /** A wildcard matches its prefix and the names below it, and stops at the dot. */
  lemma WildcardStopsAtDot(prefix: Text, name: Text)
    ensures MatchRule(prefix + WILDCARD, name) <==> name == prefix || prefix + DOT <= name
  {
    var pattern := prefix + WILDCARD;
    assert TrimSuffix(pattern, WILDCARD) == prefix;
    assert pattern == prefix + DOT + Ascii("*");
  }

  lemma WildcardEnds(pattern: Text)
    ensures HasSuffix(pattern, WILDCARD) ==> |pattern| >= 2 && pattern[|pattern| - 1] == '*' as int
  {
    if HasSuffix(pattern, WILDCARD) {
      assert pattern[|pattern| - 2..][1] == WILDCARD[1];
    }
  }

  /** A rule without a wildcard at its end matches itself alone. */
  lemma PlainRule(pattern: Text, name: Text)
    requires pattern != [] && pattern[|pattern| - 1] != '*' as int
    ensures MatchRule(pattern, name) <==> name == pattern
  {
    WildcardEnds(pattern);
  }

  lemma WildcardRule(prefix: string, name: Text)
    ensures MatchRule(Ascii(prefix + ".*"), name) <==> name == Ascii(prefix) || Ascii(prefix + ".") <= name
    ensures TrimSuffix(Ascii(prefix + ".*"), WILDCARD) == Ascii(prefix)
  {
    AsciiJoins(prefix, ".*");
    AsciiJoins(prefix, ".");
    WildcardStopsAtDot(Ascii(prefix), name);
  }

  /** The names that a client talks to on the host. */
  predicate HostTalks(name: Text) {
    || name == Ascii("org.freedesktop.portal") || Ascii("org.freedesktop.portal.") <= name
    || name == Ascii("org.freedesktop.Notifications")
    || name == Ascii("org.freedesktop.secrets")
    || name == Ascii("org.freedesktop.ScreenSaver")
    || name == Ascii("org.kde.StatusNotifierWatcher")
  }

  /** The names that a client owns on the host. */
  predicate HostOwns(name: Text) {
    name == Ascii("org.mpris.MediaPlayer2") || Ascii("org.mpris.MediaPlayer2.") <= name
  }

  lemma TalkRulesMatch(name: Text)
    ensures MatchRule(HOST_TALK_RULES[0], name) <==> name == Ascii("org.freedesktop.portal") || Ascii("org.freedesktop.portal.") <= name
    ensures MatchRule(HOST_TALK_RULES[1], name) <==> name == Ascii("org.freedesktop.Notifications")
    ensures MatchRule(HOST_TALK_RULES[2], name) <==> name == Ascii("org.freedesktop.secrets")
    ensures MatchRule(HOST_TALK_RULES[3], name) <==> name == Ascii("org.freedesktop.ScreenSaver")
    ensures MatchRule(HOST_TALK_RULES[4], name) <==> name == Ascii("org.kde.StatusNotifierWatcher")
  {
    hide MatchRule;
    assert "org.freedesktop.portal" + ".*" == "org.freedesktop.portal.*";
    assert "org.freedesktop.portal" + "." == "org.freedesktop.portal.";
    WildcardRule("org.freedesktop.portal", name);
    PlainRule(HOST_TALK_RULES[1], name);
    PlainRule(HOST_TALK_RULES[2], name);
    PlainRule(HOST_TALK_RULES[3], name);
    PlainRule(HOST_TALK_RULES[4], name);
  }

  /** The static rules: the five talk rules and the ownership rule name exactly these names, and the
      empty name is on the container bus. */
  lemma RuleTables(name: Text)
    ensures RouteDestination(name) == Host <==> HostTalks(name)
    ensures RouteOwnership(name) == Host <==> HostOwns(name)
  {
    hide MatchRule;
    TalkRulesMatch(name);
    assert "org.mpris.MediaPlayer2" + ".*" == "org.mpris.MediaPlayer2.*";
    assert "org.mpris.MediaPlayer2" + "." == "org.mpris.MediaPlayer2.";
    WildcardRule("org.mpris.MediaPlayer2", name);
    assert |HOST_TALK_RULES| == 5 && |HOST_OWN_RULES| == 1;
    assert HOST_OWN_RULES[0] == Ascii("org.mpris.MediaPlayer2.*");
  }

  /** A part stands somewhere in a text. */
  predicate Mentions(s: Text, part: Text) {
    exists i :: 0 <= i <= |s| && part <= s[i..]
  }

  lemma {:induction false} ContainsMeansMentions(s: Text, part: Text)
    ensures Contains(s, part) <==> Mentions(s, part)
    decreases |s|
  {
    assert s[0..] == s;
    if s != [] {
      ContainsMeansMentions(s[1..], part);
      if Mentions(s, part) && !(part <= s) {
        var i :| 0 <= i <= |s| && part <= s[i..];
        assert s[1..][i - 1..] == s[i..];
      }
      if Mentions(s[1..], part) {
        var i :| 0 <= i <= |s[1..]| && part <= s[1..][i..];
        assert s[1..][i..] == s[i + 1..];
      }
    }
  }

  /** A match rule concerns the host exactly if one of these names, wildcard cut off, stands somewhere
      in its text. */
  lemma SignalRuleTable(rule: Text)
    ensures
      MatchSignalRuleHost(rule) <==>
        || Mentions(rule, Ascii("org.freedesktop.portal"))
        || Mentions(rule, Ascii("org.freedesktop.Notifications"))
        || Mentions(rule, Ascii("org.freedesktop.secrets"))
        || Mentions(rule, Ascii("org.freedesktop.ScreenSaver"))
        || Mentions(rule, Ascii("org.kde.StatusNotifierWatcher"))
  {
    hide MatchRule, Contains, Mentions;
    PrefixesTrimmed();
    ContainsMeansMentions(rule, Ascii("org.freedesktop.portal"));
    ContainsMeansMentions(rule, Ascii("org.freedesktop.Notifications"));
    ContainsMeansMentions(rule, Ascii("org.freedesktop.secrets"));
    ContainsMeansMentions(rule, Ascii("org.freedesktop.ScreenSaver"));
    ContainsMeansMentions(rule, Ascii("org.kde.StatusNotifierWatcher"));
  }

  lemma PlainIsUntrimmed(pattern: Text)
    requires pattern != [] && pattern[|pattern| - 1] != '*' as int
    ensures TrimSuffix(pattern, WILDCARD) == pattern
  {
    WildcardEnds(pattern);
  }

  lemma PrefixesTrimmed()
    ensures |HOST_TALK_RULES| == 5
    ensures TrimSuffix(HOST_TALK_RULES[0], WILDCARD) == Ascii("org.freedesktop.portal")
    ensures TrimSuffix(HOST_TALK_RULES[1], WILDCARD) == Ascii("org.freedesktop.Notifications")
    ensures TrimSuffix(HOST_TALK_RULES[2], WILDCARD) == Ascii("org.freedesktop.secrets")
    ensures TrimSuffix(HOST_TALK_RULES[3], WILDCARD) == Ascii("org.freedesktop.ScreenSaver")
    ensures TrimSuffix(HOST_TALK_RULES[4], WILDCARD) == Ascii("org.kde.StatusNotifierWatcher")
  {
    hide TrimSuffix, MatchRule;
    assert "org.freedesktop.portal" + ".*" == "org.freedesktop.portal.*";
    WildcardRule("org.freedesktop.portal", []);
    PlainIsUntrimmed(HOST_TALK_RULES[1]);
    PlainIsUntrimmed(HOST_TALK_RULES[2]);
    PlainIsUntrimmed(HOST_TALK_RULES[3]);
    PlainIsUntrimmed(HOST_TALK_RULES[4]);
  }

  /** Unique names begin with a colon. */
  predicate IsUnique(name: Text) {
    name != [] && name[0] == 58
  }

  lemma RulesNameNoUnique(rules: seq<Text>, name: Text)
    requires rules == HOST_TALK_RULES || rules == HOST_OWN_RULES
    requires IsUnique(name)
    ensures !MatchesAny(rules, name)
  {
    forall i | 0 <= i < |rules| ensures !MatchRule(rules[i], name) {
      assert rules[i][0] == 'o' as int && |rules[i]| > 2;
    }
  }

  /** No static rule sends a unique connection name to the host. */
  lemma UniqueNamesStayInside(name: Text)
    requires IsUnique(name)
    ensures RouteDestination(name) == Container && RouteOwnership(name) == Container
  {
    RulesNameNoUnique(HOST_TALK_RULES, name);
    RulesNameNoUnique(HOST_OWN_RULES, name);
  }
}
