/** Merging the two replies to a name list call into one (container/dbus/router.go,
    `mergeNameListReplies`). */
module Merging {
  import opened Bytes
  import opened Wrappers
  import opened Wire
  import opened Bodies
  import opened Texts
  import opened NameLists

  /** The names a reply contributes: those of a method return whose body decodes. */
  function NamesOf(m: Message): seq<Text> {
    if m.kind == TYPE_METHOD_RETURN && ParseNames(m).Success? then ParseNames(m).value else []
  }

  /** The reply whose header the merged reply takes over. */
  function MergeBase(cont: Message, host: Message): Message {
    if cont.kind != TYPE_METHOD_RETURN && host.kind == TYPE_METHOD_RETURN then host else cont
  }

  function MergedBody(cont: Message, host: Message): seq<byte> {
    EncodeNames(MergeBase(cont, host).ByteOrder(), Unique(NamesOf(cont) + NamesOf(host)))
  }

  /** What `ReplaceBody` needs in order not to write outside its frame. */
  predicate Mergeable(cont: Message, host: Message) {
    KeptHeader(cont) >= 8 && KeptHeader(host) >= 8
  }

  function Merge(cont: Message, host: Message): Message
    requires Mergeable(cont, host)
  {
    if cont.kind != TYPE_METHOD_RETURN && host.kind != TYPE_METHOD_RETURN then cont
    else WithBody(MergeBase(cont, host), MergedBody(cont, host))
  }

  method MergeNameListReplies(containerMsg: Message, hostMsg: Message) returns (r: Message)
    requires Mergeable(containerMsg, hostMsg)
    ensures r == Merge(containerMsg, hostMsg)
  {
    hide WithBody, EncodeNames, Unique, ParseNames;
    var base := containerMsg;
    if containerMsg.kind != TYPE_METHOD_RETURN {
      if hostMsg.kind == TYPE_METHOD_RETURN {
        base := hostMsg;
      } else {
        return containerMsg;
      }
    }
    var names: seq<Text> := [];
    if containerMsg.kind == TYPE_METHOD_RETURN {
      var parsed := ParseStringArray(containerMsg);
      if parsed.Success? {
        names := names + parsed.value;
      }
    }
    assert names == NamesOf(containerMsg);
    if hostMsg.kind == TYPE_METHOD_RETURN {
      var parsed := ParseStringArray(hostMsg);
      if parsed.Success? {
        names := names + parsed.value;
      }
    }
    assert names == NamesOf(containerMsg) + NamesOf(hostMsg);
    var unique := UniqueStrings(names);
    var body := EncodeStringArray(base.ByteOrder(), unique);
    r := ReplaceBody(base, body);
  }

  /** The least room the names take up in a body. */
  function Weight(ts: seq<Text>): nat
    decreases |ts|
  {
    if ts == [] then 0 else |ts[0]| + 5 + Weight(ts[1..])
  }

  lemma {:induction false} WeightOfBoth(a: seq<Text>, b: seq<Text>)
    ensures Weight(a + b) == Weight(a) + Weight(b)
    decreases |a|
  {
    if a == [] {
      assert a + b == b;
    } else {
      assert (a + b)[1..] == a[1..] + b;
      WeightOfBoth(a[1..], b);
    }
  }

  lemma {:induction false} DecodedNamesWeigh(order: Order, body: seq<byte>, end: nat, pos: nat)
    requires pos <= |body| && end <= |body|
    ensures NamesFrom(order, body, end, pos).Success? ==> Weight(NamesFrom(order, body, end, pos).value) <= |body| - pos
    decreases if pos < end then end - pos else 0
  {
    hide GetUint32;
    var a := Align4(pos);
    if pos < end && a + 4 <= end {
      var n := GetUint32(order, body, a);
      if a + 4 + n + 1 <= |body| {
        DecodedNamesWeigh(order, body, end, a + 4 + n + 1);
        var rest := NamesFrom(order, body, end, a + 4 + n + 1);
        if rest.Success? {
          WeightOfBoth([body[a + 4..a + 4 + n]], rest.value);
        }
      }
    }
  }

  lemma {:induction false} EncodedTextsWeigh(order: Order, buf: seq<byte>, ts: seq<Text>)
    ensures |AppendTexts(order, buf, ts)| <= |buf| + 2 * Weight(ts)
    decreases |ts|
  {
    if ts != [] {
      EncodedTextsWeigh(order, AppendText(order, buf, ts[0]), ts[1..]);
    }
  }

  lemma {:induction false} UniqueWeighs(xs: seq<Text>)
    ensures Weight(Unique(xs)) <= Weight(xs)
    decreases |xs|
  {
    if xs != [] {
      var n := |xs| - 1;
      UniqueWeighs(xs[..n]);
      assert xs == xs[..n] + [xs[n]];
      WeightOfBoth(xs[..n], [xs[n]]);
      WeightOfBoth(Unique(xs[..n]), [xs[n]]);
    }
  }

  lemma NamesOfWeigh(m: Message)
    ensures Weight(NamesOf(m)) <= |m.raw|
  {
    hide GetUint32;
    if m.kind == TYPE_METHOD_RETURN && ParseNames(m).Success? {
      var body := m.raw[m.headerLength..];
      DecodedNamesWeigh(m.ByteOrder(), body, 4 + GetUint32(m.ByteOrder(), body, 0), 4);
    }
  }

  /** Two replies of the size the reader accepts never overflow the merged array. */
  lemma MergedNamesFit(order: Order, cont: Message, host: Message)
    requires |cont.raw| <= MAX_MESSAGE_SIZE && |host.raw| <= MAX_MESSAGE_SIZE
    ensures |AppendTexts(order, [], Unique(NamesOf(cont) + NamesOf(host)))| < 0x2000_0001
  {
    hide NamesOf, Unique, AppendTexts, Weight;
    NamesOfWeigh(cont);
    NamesOfWeigh(host);
    WeightOfBoth(NamesOf(cont), NamesOf(host));
    UniqueWeighs(NamesOf(cont) + NamesOf(host));
    EncodedTextsWeigh(order, [], Unique(NamesOf(cont) + NamesOf(host)));
  }

  /** The merged body is at most about twice as long as the two replies together. */
  lemma MergedBodySize(cont: Message, host: Message)
    ensures |MergedBody(cont, host)| <= 4 + 2 * (|cont.raw| + |host.raw|)
  {
    hide NamesOf, Unique, AppendTexts, Weight, EncodeNames;
    var order, names := MergeBase(cont, host).ByteOrder(), Unique(NamesOf(cont) + NamesOf(host));
    NamesOfWeigh(cont);
    NamesOfWeigh(host);
    WeightOfBoth(NamesOf(cont), NamesOf(host));
    UniqueWeighs(NamesOf(cont) + NamesOf(host));
    EncodedTextsWeigh(order, [], names);
    EncodedSize(order, names);
  }

  /** The names of two replies, united: those of both where both list names, container first; those
      of one where the other is an error or does not decode; none where neither lists any. */
  predicate Unites(names: Names, cont: Message, host: Message) {
    var a, b := ParseNames(cont), ParseNames(host);
    var fromCont := cont.kind == TYPE_METHOD_RETURN && a.Success?;
    var fromHost := host.kind == TYPE_METHOD_RETURN && b.Success?;
    && (fromCont && fromHost ==> names == Success(Unique(a.value + b.value)))
    && (fromCont && !fromHost ==> names == Success(Unique(a.value)))
    && (!fromCont && fromHost ==> names == Success(Unique(b.value)))
    && (!fromCont && !fromHost ==> names == Success([]))
  }

  lemma NamesUnite(cont: Message, host: Message)
    ensures Unites(Success(Unique(NamesOf(cont) + NamesOf(host))), cont, host)
  {
    hide ParseNames, Unique;
    var a, b := NamesOf(cont), NamesOf(host);
    assert [] + b == b && a + [] == a;
    NothingIsUnique();
  }

  lemma NothingIsUnique()
    ensures Unique([]) == []
  {
  }

  /** Merged name lists, end to end. If either reply is a method return, the bytes of the merged
      reply parse back to a method return with the serial and the fields of the container's reply if
      that is a return, and of the host's otherwise, and its body decodes to the united names without
      duplicates. The byte orders of the two replies are free. */
  lemma MergedReplyReads(cont: Message, host: Message)
    requires Parse(cont.raw) == Success(cont.(fds := [])) && Parse(host.raw) == Success(host.(fds := []))
    requires |cont.raw| <= MAX_MESSAGE_SIZE && |host.raw| <= MAX_MESSAGE_SIZE
    requires cont.kind == TYPE_METHOD_RETURN || host.kind == TYPE_METHOD_RETURN
    requires SelfContained(if cont.kind == TYPE_METHOD_RETURN then cont else host)
    ensures Mergeable(cont, host)
    ensures
      var out := Merge(cont, host);
      var base := if cont.kind == TYPE_METHOD_RETURN then cont else host;
      && Parse(out.raw) == Success(out) && SelfContained(out)
      && out.kind == TYPE_METHOD_RETURN
      && out.serial == base.serial && out.fields == base.fields && out.fds == []
      && |out.raw| == out.headerLength + out.bodyLength == out.totalLength
      && Unites(ParseNames(out), cont, host)
  {
    NamesUnite(cont, host);
    hide SelfContained, WithBody, KeptHeader, Unique, NamesOf, EncodeNames, Parse, BodyNames, Unites;
    var base := MergeBase(cont, host);
    var names := Unique(NamesOf(cont) + NamesOf(host));
    MergedNamesFit(base.ByteOrder(), cont, host);
    EncodedSize(base.ByteOrder(), names);
    ReplacedFrameParses(cont, []);
    ReplacedFrameParses(host, []);
    BodyReplaced(base, MergedBody(cont, host));
    assert Wrap(base.headerLength + |MergedBody(cont, host)|) == base.headerLength + |MergedBody(cont, host)| by {
      HeaderInside(base);
    }
    SelfContainedParses(Merge(cont, host));
    NamesRoundTrip(base.ByteOrder(), names);
  }

  lemma EncodedSize(order: Order, names: seq<Text>)
    ensures |EncodeNames(order, names)| == 4 + |AppendTexts(order, [], names)|
  {
  }

  lemma HeaderInside(m: Message)
    requires SelfContained(m)
    ensures m.headerLength <= |m.raw|
  {
  }

  lemma SelfContainedParses(m: Message)
    requires SelfContained(m) && m.fds == []
    ensures Parse(m.raw) == Success(m)
  {
    assert m.(fds := []) == m;
  }

  /** Where both replies are errors, the client receives the container's. */
  lemma MergedErrors(cont: Message, host: Message)
    requires Mergeable(cont, host)
    requires cont.kind != TYPE_METHOD_RETURN && host.kind != TYPE_METHOD_RETURN
    ensures Merge(cont, host) == cont
  {
  }
}
