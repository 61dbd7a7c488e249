/** The stream reassembler (container/dbus/wire.go, `MessageReader`). */
module Reader {
  import opened Bytes
  import opened Wrappers
  import opened Wire
  import opened Bodies

  /** What one successful `recvmsg` delivers. A read that delivers neither bytes nor descriptors
      is an error of the code, so it ends the stream. */
  datatype Chunk = Chunk(bytes: seq<byte>, fds: seq<Fd>)

  function ChunkBytes(cs: seq<Chunk>): seq<byte>
    decreases |cs|
  {
    if cs == [] then [] else cs[0].bytes + ChunkBytes(cs[1..])
  }

  function ChunkFds(cs: seq<Chunk>): seq<Fd>
    decreases |cs|
  {
    if cs == [] then [] else cs[0].fds + ChunkFds(cs[1..])
  }

  datatype ReadError =
    | StreamEnded
    | UnknownOrder
    | TooLarge
    | BadFrame(cause: WireError, frame: seq<byte>)
    | FdsMissing(message: Message)

  /** The bytes that a failed call took out of the buffer without returning them. */
  function Dropped(e: ReadError): seq<byte> {
    match e
    case BadFrame(_, frame) => frame
    case FdsMissing(m) => m.raw
    case _ => []
  }

  /** The result of one call, and the bytes and descriptors still to be handed out after it. */
  datatype Outcome = Outcome(result: Result<Message, ReadError>, bytes: seq<byte>, fds: seq<Fd>)

  /** The frame length that a fixed header announces, in the code's `uint32` arithmetic. */
  function FrameLength(b: seq<byte>, order: Order): uint32
    requires |b| >= 16
  {
    Wrap(PaddedHeader(GetUint32(order, b, 12)) + GetUint32(order, b, 4))
  }

  /** What the next call returns, as a function of all the bytes and descriptors of the stream:
      those already buffered and those still to arrive. How they are split does not appear. */
  function NextFrame(bytes: seq<byte>, fds: seq<Fd>): Outcome {
    if |bytes| < 16 then Outcome(Failure(StreamEnded), bytes, fds)
    else if OrderOf(bytes[0]).None? then Outcome(Failure(UnknownOrder), bytes, fds)
    else
      var total := FrameLength(bytes, OrderOf(bytes[0]).value);
      if total > MAX_MESSAGE_SIZE then Outcome(Failure(TooLarge), bytes, fds)
      else if |bytes| < total then Outcome(Failure(StreamEnded), bytes, fds)
      else TakeFds(bytes[..total], bytes[total..], fds)
  }

  /** The second half of a call: the frame is cut off, its descriptors are claimed. */
  function TakeFds(raw: seq<byte>, rest: seq<byte>, fds: seq<Fd>): Outcome {
    match Parse(raw)
    case Failure(e) => Outcome(Failure(BadFrame(e, raw)), rest, fds)
    case Success(m) =>
      if |fds| < m.fields.unixFDs then Outcome(Failure(FdsMissing(m)), rest, fds)
      else Outcome(Success(m.(fds := fds[..m.fields.unixFDs])), rest, fds[m.fields.unixFDs..])
  }

  class MessageReader {
    /** What the connection is still going to deliver. */
    var incoming: seq<Chunk>
    var buf: seq<byte>
    var pendingFDs: seq<Fd>

    ghost predicate Valid()
      reads this
    {
      forall i :: 0 <= i < |incoming| ==> incoming[i].bytes != [] || incoming[i].fds != []
    }

    ghost function AllBytes(): seq<byte>
      reads this
    {
      buf + ChunkBytes(incoming)
    }

    ghost function AllFds(): seq<Fd>
      reads this
    {
      pendingFDs + ChunkFds(incoming)
    }

    /** A reader on a connection, seeded with the bytes that the handshake read too much. */
    constructor (conn: seq<Chunk>, extraBytes: seq<byte>)
      requires forall i :: 0 <= i < |conn| ==> conn[i].bytes != [] || conn[i].fds != []
      ensures Valid() && AllBytes() == extraBytes + ChunkBytes(conn) && AllFds() == ChunkFds(conn)
    {
      incoming := conn;
      buf := [];
      pendingFDs := [];
      new;
      if |extraBytes| > 0 {
        buf := buf + extraBytes;
      }
    }

    method ReadMore() returns (ok: bool)
      requires Valid()
      modifies this
      ensures Valid() && AllBytes() == old(AllBytes()) && AllFds() == old(AllFds())
      ensures ok == (old(incoming) != [])
      ensures ok ==> |incoming| < |old(incoming)|
      ensures !ok ==> incoming == [] && buf == old(buf) && pendingFDs == old(pendingFDs)
    {
      if incoming == [] {
        return false;
      }
      var chunk := incoming[0];
      incoming := incoming[1..];
      pendingFDs := pendingFDs + chunk.fds;
      buf := buf + chunk.bytes;
      ok := true;
    }

    /** Reads until `n` bytes are buffered. */
    method FillBuffer(n: nat) returns (ok: bool)
      requires Valid()
      modifies this
      ensures Valid() && AllBytes() == old(AllBytes()) && AllFds() == old(AllFds())
      ensures ok == (n <= |AllBytes()|)
      ensures ok ==> n <= |buf|
    {
      while |buf| < n
        invariant Valid() && AllBytes() == old(AllBytes()) && AllFds() == old(AllFds())
        decreases |incoming|
      {
        var more := ReadMore();
        if !more {
          return false;
        }
      }
      return true;
    }

    /** Reads until `n` descriptors are pending. */
    method FillFds(n: nat) returns (ok: bool)
      requires Valid()
      modifies this
      ensures Valid() && AllBytes() == old(AllBytes()) && AllFds() == old(AllFds())
      ensures ok == (n <= |AllFds()|)
      ensures ok ==> n <= |pendingFDs|
    {
      while |pendingFDs| < n
        invariant Valid() && AllBytes() == old(AllBytes()) && AllFds() == old(AllFds())
        decreases |incoming|
      {
        var more := ReadMore();
        if !more {
          return false;
        }
      }
      return true;
    }

    /** Chunk independence of one call: whatever the split into reads, the result and what is
        left are those of `NextFrame` on the whole stream. */
    method ReadMessage() returns (r: Result<Message, ReadError>)
      requires Valid()
      modifies this
      ensures Valid()
      ensures Outcome(r, AllBytes(), AllFds()) == NextFrame(old(AllBytes()), old(AllFds()))
    {
      hide GetUint32, PaddedHeader, Parse;
      var ok := FillBuffer(16);
      if !ok {
        return Failure(StreamEnded);
      }
      if OrderOf(buf[0]).None? {
        return Failure(UnknownOrder);
      }
      var order := OrderOf(buf[0]).value;
      var totalLen: int := FrameLength(buf, order);
      SameFrameLength(buf, AllBytes(), order);
      if totalLen > MAX_MESSAGE_SIZE {
        return Failure(TooLarge);
      }
      ok := FillBuffer(totalLen);
      if !ok {
        return Failure(StreamEnded);
      }
      var raw := buf[..totalLen];
      assert AllBytes()[..totalLen] == raw && AllBytes()[totalLen..] == buf[totalLen..] + ChunkBytes(incoming);
      buf := buf[totalLen..];
      r := ClaimFds(raw);
    }

    method ClaimFds(raw: seq<byte>) returns (r: Result<Message, ReadError>)
      requires Valid()
      modifies this
      ensures Valid()
      ensures Outcome(r, AllBytes(), AllFds()) == TakeFds(raw, old(AllBytes()), old(AllFds()))
    {
      hide Parse;
      var parsed := ParseHeader(raw);
      if parsed.Failure? {
        return Failure(BadFrame(parsed.error, raw));
      }
      var msg := parsed.value;
      ParsedHasNoFds(raw);
      if msg.fields.unixFDs > 0 {
        var ok := FillFds(msg.fields.unixFDs);
        if !ok {
          return Failure(FdsMissing(msg));
        }
        assert AllFds()[..msg.fields.unixFDs] == pendingFDs[..msg.fields.unixFDs];
        assert AllFds()[msg.fields.unixFDs..] == pendingFDs[msg.fields.unixFDs..] + ChunkFds(incoming);
        msg := msg.(fds := pendingFDs[..msg.fields.unixFDs]);
        pendingFDs := pendingFDs[msg.fields.unixFDs..];
      } else {
        assert AllFds()[..0] == [] && AllFds()[0..] == AllFds();
      }
      return Success(msg);
    }

    /** Closes the descriptors that no message has claimed. */
    method Close() returns (closed: seq<Fd>)
      requires Valid()
      modifies this`pendingFDs
      ensures Valid() && pendingFDs == [] && closed == old(pendingFDs)
      ensures closed + AllFds() == old(AllFds())
    {
      closed := [];
      var i := 0;
      while i < |pendingFDs|
        invariant i <= |pendingFDs| && closed == pendingFDs[..i]
      {
        closed := closed + [pendingFDs[i]];
        i := i + 1;
      }
      pendingFDs := [];
    }

    /** The reading side of the dispatch loop: messages until the first error. */
    method ReadAll() returns (messages: seq<Message>, error: ReadError)
      requires Valid()
      modifies this
      ensures Valid()
      ensures Stream(messages, AllBytes(), AllFds(), error) == Frames(old(AllBytes()), old(AllFds()))
    {
      hide NextFrame;
      messages := [];
      while true
        invariant Valid()
        invariant
          var rest := Frames(AllBytes(), AllFds());
          rest.(messages := messages + rest.messages) == Frames(old(AllBytes()), old(AllFds()))
        decreases |AllBytes()|
      {
        ghost var bytes, fds, before := AllBytes(), AllFds(), messages;
        FrameAdvances(bytes, fds);
        var r := ReadMessage();
        if r.Failure? {
          assert messages + [] == messages;
          return messages, r.error;
        }
        messages := messages + [r.value];
        assert before + ([r.value] + Frames(AllBytes(), AllFds()).messages) == messages + Frames(AllBytes(), AllFds()).messages;
      }
    }
  }

  lemma SameFrameLength(a: seq<byte>, b: seq<byte>, order: Order)
    requires 16 <= |a| && a <= b
    ensures a[0] == b[0] && FrameLength(a, order) == FrameLength(b, order)
  {
    assert a[12..16] == b[12..16] && a[4..8] == b[4..8];
    SameUint32(order, a, b, 12);
    SameUint32(order, a, b, 4);
  }

  lemma ParsedHasNoFds(raw: seq<byte>)
    ensures Parse(raw).Success? ==> Parse(raw).value.fds == [] && Parse(raw).value.raw == raw && |raw| >= 16
  {
    hide ParseFrom;
  }

  /** All the messages of a stream, and what is left at the first error. */
  datatype Stream = Stream(messages: seq<Message>, bytes: seq<byte>, fds: seq<Fd>, error: ReadError)

  lemma FrameAdvances(bytes: seq<byte>, fds: seq<Fd>)
    ensures NextFrame(bytes, fds).result.Success? ==> |NextFrame(bytes, fds).bytes| < |bytes|
  {
    hide Parse, FrameLength;
    if |bytes| >= 16 && OrderOf(bytes[0]).Some? {
      var total := FrameLength(bytes, OrderOf(bytes[0]).value);
      if total <= |bytes| {
        ParsedHasNoFds(bytes[..total]);
      }
    }
  }

  function Frames(bytes: seq<byte>, fds: seq<Fd>): Stream
    decreases |bytes|
  {
    var o := NextFrame(bytes, fds);
    match o.result
    case Failure(e) => Stream([], o.bytes, o.fds, e)
    case Success(m) =>
      FrameAdvances(bytes, fds);
      var rest := Frames(o.bytes, o.fds);
      rest.(messages := [m] + rest.messages)
  }

  function Raws(ms: seq<Message>): seq<byte>
    decreases |ms|
  {
    if ms == [] then [] else ms[0].raw + Raws(ms[1..])
  }

  function FdsOf(ms: seq<Message>): seq<Fd>
    decreases |ms|
  {
    if ms == [] then [] else ms[0].fds + FdsOf(ms[1..])
  }

  /** A message as the reader delivers it: its raw bytes are one accepted frame that parses to it,
      and it carries as many descriptors as its header says. */
  predicate WholeFrame(m: Message) {
    && |m.raw| >= 16 && OrderOf(m.raw[0]).Some?
    && FrameLength(m.raw, OrderOf(m.raw[0]).value) == |m.raw| <= MAX_MESSAGE_SIZE
    && Parse(m.raw) == Success(m.(fds := []))
    && |m.fds| == m.fields.unixFDs
  }

  /** A frame at the front of a stream is the next one, and its descriptors the next ones. */
  lemma WholeFrameIsNext(m: Message, bytes: seq<byte>, fds: seq<Fd>)
    requires WholeFrame(m)
    ensures NextFrame(m.raw + bytes, m.fds + fds) == Outcome(Success(m), bytes, fds)
  {
    hide Parse, FrameLength;
    var all := m.raw + bytes;
    SameFrameLength(m.raw, all, OrderOf(m.raw[0]).value);
    assert all[..|m.raw|] == m.raw && all[|m.raw|..] == bytes;
    var allFds := m.fds + fds;
    assert allFds[..|m.fds|] == m.fds && allFds[|m.fds|..] == fds;
    assert m.(fds := []).(fds := m.fds) == m;
  }

  /** What a call returns is a whole frame cut off the front of the stream. */
  lemma NextIsWholeFrame(bytes: seq<byte>, fds: seq<Fd>)
    ensures
      var o := NextFrame(bytes, fds);
      match o.result
      case Success(m) => WholeFrame(m) && bytes == m.raw + o.bytes && fds == m.fds + o.fds
      case Failure(e) => bytes == Dropped(e) + o.bytes && fds == o.fds
  {
    hide Parse, FrameLength;
    if |bytes| >= 16 && OrderOf(bytes[0]).Some? {
      var order := OrderOf(bytes[0]).value;
      var total := FrameLength(bytes, order);
      if total <= MAX_MESSAGE_SIZE && total <= |bytes| {
        var raw := bytes[..total];
        ParsedHasNoFds(raw);
        if Parse(raw).Success? {
          SameFrameLength(raw, bytes, order);
          var m := Parse(raw).value;
          if m.fields.unixFDs <= |fds| {
            var got := m.(fds := fds[..m.fields.unixFDs]);
            assert got.(fds := []) == m;
          }
        }
      }
    }
  }

  /** Conservation: the stream is the frames returned, then what a failed call dropped, then what
      is still buffered; the descriptors are those handed out, then those pending. */
  lemma {:induction false} StreamConserved(bytes: seq<byte>, fds: seq<Fd>)
    ensures
      var s := Frames(bytes, fds);
      && bytes == Raws(s.messages) + Dropped(s.error) + s.bytes
      && fds == FdsOf(s.messages) + s.fds
      && (forall i :: 0 <= i < |s.messages| ==> WholeFrame(s.messages[i]))
    decreases |bytes|
  {
    hide NextFrame, WholeFrame;
    var o := NextFrame(bytes, fds);
    NextIsWholeFrame(bytes, fds);
    if o.result.Success? {
      FrameAdvances(bytes, fds);
      StreamConserved(o.bytes, o.fds);
      var m := o.result.value;
      var rest := Frames(o.bytes, o.fds);
      assert Frames(bytes, fds).messages == [m] + rest.messages;
      assert ([m] + rest.messages)[1..] == rest.messages;
      assert bytes == m.raw + (Raws(rest.messages) + Dropped(rest.error) + rest.bytes);
      assert fds == m.fds + (FdsOf(rest.messages) + rest.fds);
    }
  }

  lemma WholeFrameReads(m: Message, bytes: seq<byte>, fds: seq<Fd>)
    requires WholeFrame(m)
    ensures
      var rest := Frames(bytes, fds);
      Frames(m.raw + bytes, m.fds + fds) == rest.(messages := [m] + rest.messages)
  {
    hide NextFrame, WholeFrame;
    WholeFrameIsNext(m, bytes, fds);
  }

  lemma FrontJoins(ms: seq<Message>, bytes: seq<byte>, fds: seq<Fd>)
    requires ms != []
    ensures Raws(ms) + bytes == ms[0].raw + (Raws(ms[1..]) + bytes)
    ensures FdsOf(ms) + fds == ms[0].fds + (FdsOf(ms[1..]) + fds)
  {
  }

  /** Whole frames written one after the other, with their descriptors, are read back as exactly
      those messages, and reading goes on with what follows them. */
  lemma {:induction false} WrittenFramesRead(ms: seq<Message>, bytes: seq<byte>, fds: seq<Fd>)
    requires forall i :: 0 <= i < |ms| ==> WholeFrame(ms[i])
    ensures
      var rest := Frames(bytes, fds);
      Frames(Raws(ms) + bytes, FdsOf(ms) + fds) == rest.(messages := ms + rest.messages)
    decreases |ms|
  {
    hide Frames, WholeFrame;
    var rest := Frames(bytes, fds);
    if ms == [] {
      assert Raws(ms) + bytes == bytes && FdsOf(ms) + fds == fds;
      assert [] + rest.messages == rest.messages;
    } else {
      hide Raws, FdsOf;
      FrontJoins(ms, bytes, fds);
      WrittenFramesRead(ms[1..], bytes, fds);
      WholeFrameReads(ms[0], Raws(ms[1..]) + bytes, FdsOf(ms[1..]) + fds);
      assert [ms[0]] + (ms[1..] + rest.messages) == ms + rest.messages;
    }
  }

  /** Messages are delivered as soon as they are complete: later bytes and descriptors never
      change what has been read. */
  lemma MessagesAreStable(bytes: seq<byte>, fds: seq<Fd>, moreBytes: seq<byte>, moreFds: seq<Fd>)
    ensures Frames(bytes, fds).messages <= Frames(bytes + moreBytes, fds + moreFds).messages
  {
    hide NextFrame, WholeFrame, Frames, Raws, FdsOf, Dropped;
    var s := Frames(bytes, fds);
    StreamConserved(bytes, fds);
    var restBytes, restFds := Dropped(s.error) + s.bytes + moreBytes, s.fds + moreFds;
    assert bytes + moreBytes == Raws(s.messages) + restBytes;
    assert fds + moreFds == FdsOf(s.messages) + restFds;
    WrittenFramesRead(s.messages, restBytes, restFds);
  }

  /** The parts of a returned message fill its frame exactly when the declared body length is one
      that a frame can have. The size check alone does not guarantee that: see below. */
  lemma PartsFillFrame(m: Message)
    requires WholeFrame(m)
    ensures m.headerLength + m.bodyLength == |m.raw| <==> m.bodyLength <= MAX_MESSAGE_SIZE
    ensures m.bodyLength <= MAX_MESSAGE_SIZE ==> 16 <= m.headerLength <= |m.raw|
  {
    hide ParseFrom, GetUint32;
    var order := OrderOf(m.raw[0]).value;
    PaddedHeaderFits(GetUint32(order, m.raw, 12));
  }

  const WRAPPED_FRAME: seq<byte> :=
    ['l' as int, 2, 0, 1, 0xF9, 0xFF, 0xFF, 0xFF, 1, 0, 0, 0, 1, 0, 0, 0, 0]

  /** A body length near the limit of `uint32` wraps the frame length around, passes the size
      check, and yields a message whose header is longer than its frame. */
  lemma WrappedFrameAccepted()
    ensures
      var r := NextFrame(WRAPPED_FRAME, []).result;
      && r.Success? && |r.value.raw| == 17 && r.value.headerLength == 24
      && r.value.headerLength + r.value.bodyLength != |r.value.raw|
  {
    assert GetUint32(Little, WRAPPED_FRAME, 12) == 1 && GetUint32(Little, WRAPPED_FRAME, 4) == 0xFFFF_FFF9;
    hide GetUint32;
    assert WRAPPED_FRAME[..17] == WRAPPED_FRAME;
    assert FrameLength(WRAPPED_FRAME, Little) == 17;
    assert ParseFrom(WRAPPED_FRAME, Little, 17, 16, NO_FIELDS) == NO_FIELDS;
  }
}
