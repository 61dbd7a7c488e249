/** When the client can read everything that the router sends it, by what the router received
    (container/dbus/router.go:511-538, 565-588; container/dbus/wire.go:133-172). */
module Readability {
  import opened Bytes
  import opened Wire
  import opened Bodies
  import opened HeaderFields
  import opened BuiltFrames
  import opened Merging
  import opened ErrorReply
  import opened Session
  import opened Correlation
  import opened Delivery
  import opened Origins
  import opened ListCalls
  import opened MergedReplies
  import opened Reader
  import opened ClientSessions
  import opened EndToEnd

  /** The length of what two replies merge into. */
  function MergedLength(cont: Message, host: Message): nat {
    if cont.kind != TYPE_METHOD_RETURN && host.kind != TYPE_METHOD_RETURN then |cont.raw|
    else MergeBase(cont, host).headerLength + |MergedBody(cont, host)|
  }

  /** The exact condition on two replies to the same call: the client can read what they merge into if
      and only if its length is accepted and the header that it takes over declares no descriptors. */
  lemma MergedIsReadable(cont: Message, host: Message)
    requires ReplyTo(cont, host.fields.replySerial) && ReplyTo(host, cont.fields.replySerial)
    ensures Readable(Out(FromBoth, Combine(cont, host))) <==>
      MergedLength(cont, host) <= MAX_MESSAGE_SIZE && MergeBase(cont, host).fields.unixFDs == 0
  {
    hide SelfContained, Parse, WithBody, MergedBody, KeptHeader;
    ReceivedMerge(cont, host);
    if cont.kind == TYPE_METHOD_RETURN || host.kind == TYPE_METHOD_RETURN {
      MergedReplyReads(cont, host);
      MergedLengths(cont, host);
    }
  }

  lemma MergedLengths(cont: Message, host: Message)
    requires ReplyTo(cont, host.fields.replySerial) && ReplyTo(host, cont.fields.replySerial)
    requires cont.kind == TYPE_METHOD_RETURN || host.kind == TYPE_METHOD_RETURN
    ensures Mergeable(cont, host) && |Merge(cont, host).raw| == MergedLength(cont, host)
    ensures MergeBase(cont, host).headerLength <= |MergeBase(cont, host).raw|
  {
    hide Parse, Contained, MergedBody, FrameWithBody;
    ReceivedMerge(cont, host);
    MergedBodySize(cont, host);
    BodyReplaced(MergeBase(cont, host), MergedBody(cont, host));
  }

  /** An eighth of what the reader accepts. */
  predicate Modest(m: Message) {
    8 * |m.raw| <= MAX_MESSAGE_SIZE
  }

  lemma ModestMerges(cont: Message, host: Message)
    requires ReplyTo(cont, host.fields.replySerial) && ReplyTo(host, cont.fields.replySerial)
    requires Modest(cont) && Modest(host)
    ensures MergedLength(cont, host) <= MAX_MESSAGE_SIZE
  {
    hide ReplyTo, MergedBody;
    MergedBodySize(cont, host);
    if cont.kind == TYPE_METHOD_RETURN || host.kind == TYPE_METHOD_RETURN {
      MergedLengths(cont, host);
    }
  }

  lemma ErrorSize(m: Message, serial: uint32)
    requires WholeFrame(m)
    ensures |UnavailableReply(m, serial).raw| <= 2 * |m.raw| + 400
  {
    hide WholeFrame, FieldArray, BuiltFrame, TextBody;
    var text := UnavailableText(m.fields.destination);
    RefusalFits(m);
    SenderFits(m);
    ErrorFieldsSize(m, SERVICE_UNKNOWN);
    TextBodySize(text);
    FieldsAreExpressible(m);
    FrameLayout(TYPE_ERROR, 1, serial, ErrorFields(m, SERVICE_UNKNOWN), TextBody(text));
  }

  lemma SenderFits(m: Message)
    requires WholeFrame(m)
    ensures |m.fields.sender| <= |m.raw| && |m.fields.destination| <= |m.raw| <= MAX_MESSAGE_SIZE
  {
    ParsedTextsFit(m);
  }

  lemma TextBodySize(text: Text)
    ensures |TextBody(text)| == |text| + 5
  {
  }

  lemma FieldsAreExpressible(m: Message)
    requires |m.fields.sender| < UINT32_LIMIT
    ensures forall i :: 0 <= i < |ErrorFields(m, SERVICE_UNKNOWN)| ==> Expressible(ErrorFields(m, SERVICE_UNKNOWN)[i])
  {
  }

  /** What the router has received is of modest size, and no reply to a name list call declares
      descriptors. */
  predicate ModestInputs(s: State) {
    && (forall e :: e in s.log ==> Modest(e.msg))
    && (forall m :: m in s.contSent ==> Modest(m) && (m.IsReply() && ListCall(s.log, m.fields.replySerial) ==> m.fields.unixFDs == 0))
    && (forall m :: m in s.hostSent ==> Modest(m) && (m.IsReply() && ListCall(s.log, m.fields.replySerial) ==> m.fields.unixFDs == 0))
  }

  lemma ModestOutIsReadable(s: State, o: Out)
    requires ModestInputs(s) && Framed(s) && InPlace(s, o) && OutFramed(s.log, o)
    requires o.origin.FromBoth? ==> MergedFrom(s, o.msg) && (o.msg.IsReply() ==> ListCall(s.log, o.msg.fields.replySerial))
    ensures Readable(o)
  {
    hide WholeFrame, ReplyTo, Combine, ListCall, Modest, UnavailableReply, OneFrame, AllWhole;
    match o.origin
    case FromBoth =>
      var i: nat, j: nat :| Combines(s, o.msg, i, j);
      var c, h := s.contSent[i], s.hostSent[j];
      assert c in s.contSent && h in s.hostSent;
      CombinedAnswers(c, h);
      ModestMerges(c, h);
      MergedIsReadable(c, h);
    case FromRouter =>
      var e, serial :| e in s.log && o.msg == UnavailableReply(e.msg, serial);
      assert WholeFrame(e.msg);
      ErrorSize(e.msg, serial);
      ModestIsSmall(e.msg);
    case FromContainer(i) => ModestIsSmall(s.contSent[i]);
    case FromHost(i) => ModestIsSmall(s.hostSent[i]);
  }

  lemma ModestIsSmall(m: Message)
    requires Modest(m)
    ensures |m.raw| <= MAX_MESSAGE_SIZE && 2 * |m.raw| + 400 <= MAX_MESSAGE_SIZE
  {
  }

  lemma CombinedAnswers(cont: Message, host: Message)
    requires ReplyTo(cont, host.fields.replySerial) && ReplyTo(host, cont.fields.replySerial)
    ensures cont.IsReply() && host.IsReply() && cont.fields.replySerial == host.fields.replySerial
    ensures Combine(cont, host).IsReply() && Combine(cont, host).fields.replySerial == cont.fields.replySerial
  {
    hide Combine, Received, SelfContained;
    CombinedIsReply(cont, host, cont.fields.replySerial);
  }

  /** In a run whose messages are at most 16 MiB long, and whose replies to name list calls declare no
      descriptors, the client can read everything: so its stream reads back as exactly what was sent. */
  lemma ModestRunsRead(hostUp: bool, steps: seq<Step>)
    requires ValidRun(Initial(hostUp), steps) && FramedRun(steps) && ModestInputs(Run(Initial(hostUp), steps))
    ensures
      var outs := Run(Initial(hostUp), steps).clientOut;
      && (forall o :: o in outs ==> Readable(o))
      && Frames(OutBytes(outs), FdsOf(AsRead(outs))) == Stream(AsRead(outs), [], [], StreamEnded)
  {
    hide Run, ValidRun, FramedRun, ModestInputs, Framed, InPlace, Precedes, HandsFit, OutFramed, MergedFrom, StoredFit, Sound;
    hide Readable, ReadAs, OutBytes, Frames, FdsOf;
    FramedAfter(hostUp, steps);
    SoundInitially(hostUp);
    MergingInitially(hostUp);
    RunKeepsMerging(Initial(hostUp), steps);
    var s := Run(Initial(hostUp), steps);
    forall o | o in s.clientOut ensures Readable(o) {
      var p :| 0 <= p < |s.clientOut| && s.clientOut[p] == o;
      FramedOut(s, p);
      RepliesComeFromTheirRoute(hostUp, steps, p);
      ModestOutIsReadable(s, o);
    }
    ClientStreamReads(hostUp, steps);
  }

  lemma FramedOut(s: State, p: nat)
    requires Framed(s) && p < |s.clientOut|
    ensures OutFramed(s.log, s.clientOut[p])
  {
  }
}
