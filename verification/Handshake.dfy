/** The server side of the SASL handshake and its handoff to the binary stream
    (container/dbus/sasl.go, `AuthenticateClient`). The line protocol is that of the D-Bus
    Specification, section "Authentication Protocol". */
module Handshake {
  import opened Bytes
  import opened Wrappers
  import opened Reader

  const NEWLINE: byte := '\n' as int

  const REJECTED := Ascii("REJECTED EXTERNAL\r\n")
  const OK := Ascii("OK 10000000000000000000000000000000\r\n")
  const DATA_CHALLENGE := Ascii("DATA\r\n")
  const AGREE_UNIX_FD := Ascii("AGREE_UNIX_FD\r\n")

  predicate IsSpace(c: byte) {
    c == ' ' as int || 9 <= c <= 13
  }

  function Leading(b: Text, spaces: bool): (n: nat)
    ensures n <= |b|
    ensures n < |b| ==> IsSpace(b[n]) != spaces
  {
    if b == [] || IsSpace(b[0]) != spaces then 0 else 1 + Leading(b[1..], spaces)
  }

  /** `strings.Fields` on ASCII white space. */
  function Words(b: Text): seq<Text>
    decreases |b|
  {
    var s := b[Leading(b, true)..];
    if s == [] then []
    else
      var w := Leading(s, false);
      [s[..w]] + Words(s[w..])
  }

  predicate IsBegin(line: Text) {
    Words(line) != [] && Words(line)[0] == Ascii("BEGIN")
  }

  /** The one line written in answer to a line other than `BEGIN`. */
  function Respond(line: Text): Text {
    var parts := Words(line);
    if parts == [] then REJECTED
    else if parts[0] == Ascii("AUTH") then
      if |parts| == 1 then REJECTED
      else if parts[1] != Ascii("EXTERNAL") then REJECTED
      else if |parts| >= 3 then OK
      else DATA_CHALLENGE
    else if parts[0] == Ascii("DATA") then OK
    else if parts[0] == Ascii("NEGOTIATE_UNIX_FD") then AGREE_UNIX_FD
    else REJECTED
  }

  /** The length of the first line with its newline, or nothing if no line is complete. */
  function LineLength(b: seq<byte>): (n: Option<nat>)
    ensures n.Some? ==> 1 <= n.value <= |b| && b[n.value - 1] == NEWLINE && NEWLINE !in b[..n.value - 1]
    ensures n.None? ==> NEWLINE !in b
  {
    if b == [] then None
    else if b[0] == NEWLINE then Some(1)
    else match LineLength(b[1..])
      case None => None
      case Some(n) => Some(n + 1)
  }

  /** The conversation that a client stream leads to: the responses, and the bytes behind the
      `BEGIN` line if there is one. */
  datatype Talk = Talk(responses: seq<Text>, rest: Option<seq<byte>>)

  function TalkOf(b: seq<byte>): Talk
    decreases |b|
  {
    match LineLength(b)
    case None => Talk([], None)
    case Some(n) =>
      if IsBegin(b[..n]) then Talk([], Some(b[n..]))
      else
        var t := TalkOf(b[n..]);
        t.(responses := [Respond(b[..n])] + t.responses)
  }

  datatype AuthError = NoFirstByte | NotNul | NoLine | WriteFailed

  /** The client's socket during the handshake. A plain read takes bytes and loses descriptors. */
  class Conn {
    var incoming: seq<Chunk>
    var written: seq<Text>

    ghost predicate Valid()
      reads this
    {
      forall i :: 0 <= i < |incoming| ==> incoming[i].bytes != []
    }

    ghost function Unread(): seq<byte>
      reads this
    {
      ChunkBytes(incoming)
    }

    constructor (arriving: seq<Chunk>)
      requires forall i :: 0 <= i < |arriving| ==> arriving[i].bytes != []
      ensures Valid() && incoming == arriving && written == []
    {
      incoming := arriving;
      written := [];
    }

    /** A read into a buffer of `limit` bytes. */
    method Read(limit: nat) returns (bytes: seq<byte>)
      requires Valid() && limit > 0
      modifies this
      ensures Valid() && written == old(written)
      ensures old(Unread()) == bytes + Unread()
      ensures bytes == [] <==> old(Unread()) == []
      ensures |bytes| <= limit
    {
      if incoming == [] {
        return [];
      }
      var front := incoming[0].bytes;
      if |front| <= limit {
        bytes := front;
        incoming := incoming[1..];
      } else {
        bytes := front[..limit];
        ghost var rest := ChunkBytes(incoming[1..]);
        incoming := [Chunk(front[limit..], [])] + incoming[1..];
        assert incoming[1..] == old(incoming)[1..];
        assert front[..limit] + (front[limit..] + rest) == front + rest;
      }
    }

    method Write(line: Text) returns (ok: bool)
      modifies this`written
      ensures written == if ok then old(written) + [line] else old(written)
    {
      ok := *;
      if ok {
        written := written + [line];
      }
    }
  }

  const BUFFER_SIZE: nat := 4096

  /** The buffered reader that splits the stream into lines. */
  class LineReader {
    const conn: Conn
    var buffered: seq<byte>

    ghost function Rest(): seq<byte>
      reads this, conn
    {
      buffered + conn.Unread()
    }

    constructor (conn: Conn)
      ensures this.conn == conn && buffered == []
    {
      this.conn := conn;
      buffered := [];
    }

    method ReadLine() returns (line: Option<Text>)
      requires conn.Valid()
      modifies this, conn
      ensures conn.Valid() && conn.written == old(conn.written)
      ensures
        match LineLength(old(Rest()))
        case None => line == None
        case Some(n) => line == Some(old(Rest())[..n]) && Rest() == old(Rest())[n..]
    {
      while NEWLINE !in buffered
        invariant conn.Valid() && conn.written == old(conn.written) && Rest() == old(Rest())
        decreases |conn.Unread()|
      {
        var more := conn.Read(BUFFER_SIZE);
        if more == [] {
          assert buffered == old(Rest());
          return None;
        }
        buffered := buffered + more;
      }
      var n := LineLength(buffered).value;
      LineInPrefix(buffered, conn.Unread());
      line := Some(buffered[..n]);
      assert old(Rest())[..n] == buffered[..n];
      buffered := buffered[n..];
    }
  }

  lemma {:induction false} LineInPrefix(a: seq<byte>, b: seq<byte>)
    requires NEWLINE in a
    ensures LineLength(a).Some? && LineLength(a + b) == LineLength(a)
    decreases |a|
  {
    if a[0] != NEWLINE {
      assert (a + b)[1..] == a[1..] + b;
      LineInPrefix(a[1..], b);
    }
  }

  /** The handshake. On success the bytes handed over and those still in the socket are together
      exactly the bytes behind the `BEGIN` line, and every line before it got one response; a
      failure is a first byte other than NUL, a stream without `BEGIN` line, or a failed write. */
  method AuthenticateClient(conn: Conn) returns (r: Result<seq<byte>, AuthError>)
    requires conn.Valid()
    modifies conn
    ensures conn.Valid()
    ensures r == Failure(NoFirstByte) <==> old(conn.Unread()) == []
    ensures r == Failure(NotNul) <==> old(conn.Unread()) != [] && old(conn.Unread())[0] != 0
    ensures r.Success? ==>
      var talk := TalkOf(old(conn.Unread())[1..]);
      talk.rest == Some(r.value + conn.Unread()) && conn.written == old(conn.written) + talk.responses
    ensures r == Failure(NoLine) ==>
      var talk := TalkOf(old(conn.Unread())[1..]);
      talk.rest == None && conn.written == old(conn.written) + talk.responses
    ensures r == Failure(WriteFailed) ==>
      exists sent :: conn.written == old(conn.written) + sent && sent < TalkOf(old(conn.Unread())[1..]).responses
  {
    hide Respond, IsBegin;
    var firstByte := conn.Read(1);
    if |firstByte| == 0 {
      return Failure(NoFirstByte);
    }
    assert old(conn.Unread())[0] == firstByte[0];
    if firstByte[0] != 0 {
      return Failure(NotNul);
    }
    assert old(conn.Unread())[1..] == conn.Unread();
    r := Converse(conn);
  }

  lemma TalkGoesOn(b: seq<byte>)
    ensures LineLength(b).None? ==> TalkOf(b) == Talk([], None)
    ensures LineLength(b).Some? && IsBegin(b[..LineLength(b).value])
        ==> TalkOf(b) == Talk([], Some(b[LineLength(b).value..]))
    ensures LineLength(b).Some? && !IsBegin(b[..LineLength(b).value])
        ==> var t := TalkOf(b[LineLength(b).value..]);
            TalkOf(b) == Talk([Respond(b[..LineLength(b).value])] + t.responses, t.rest)
  {
    hide IsBegin, Respond, LineLength;
  }

  datatype LineResult = Again | Begun(extra: seq<byte>) | Ended(error: AuthError)

  /** One turn of the loop: a line is read and answered, or the handshake ends. */
  method AnswerLine(reader: LineReader) returns (t: LineResult)
    requires reader.conn.Valid()
    modifies reader, reader.conn
    ensures reader.conn.Valid()
    ensures
      var talk := TalkOf(old(reader.Rest()));
      match t
      case Again =>
        && talk.responses != []
        && reader.conn.written == old(reader.conn.written) + [talk.responses[0]]
        && TalkOf(reader.Rest()) == Talk(talk.responses[1..], talk.rest)
        && |reader.Rest()| < |old(reader.Rest())|
      case Begun(extra) =>
        && talk == Talk([], Some(extra + reader.conn.Unread()))
        && reader.conn.written == old(reader.conn.written)
      case Ended(e) =>
        && reader.conn.written == old(reader.conn.written)
        && (e == NoLine || e == WriteFailed)
        && (e == NoLine ==> talk == Talk([], None))
        && (e == WriteFailed ==> talk.responses != [])
  {
    hide Respond, IsBegin, LineLength, TalkOf;
    TalkGoesOn(reader.Rest());
    var line := reader.ReadLine();
    if line.None? {
      return Ended(NoLine);
    }
    if IsBegin(line.value) {
      return Begun(reader.buffered);
    }
    var ok := reader.conn.Write(Respond(line.value));
    t := if ok then Again else Ended(WriteFailed);
  }

  /** The loop over the lines. */
  method Converse(conn: Conn) returns (r: Result<seq<byte>, AuthError>)
    requires conn.Valid()
    modifies conn
    ensures conn.Valid()
    ensures r.Failure? ==> r.error == NoLine || r.error == WriteFailed
    ensures r.Success? ==>
      var talk := TalkOf(old(conn.Unread()));
      talk.rest == Some(r.value + conn.Unread()) && conn.written == old(conn.written) + talk.responses
    ensures r == Failure(NoLine) ==>
      var talk := TalkOf(old(conn.Unread()));
      talk.rest == None && conn.written == old(conn.written) + talk.responses
    ensures r == Failure(WriteFailed) ==>
      exists sent :: conn.written == old(conn.written) + sent && sent < TalkOf(old(conn.Unread())).responses
  {
    hide Respond, IsBegin, LineLength, TalkOf;
    var reader := new LineReader(conn);
    ghost var all := TalkOf(conn.Unread());
    ghost var n := 0;
    assert reader.Rest() == conn.Unread();
    while true
      invariant reader.conn == conn && fresh(reader) && conn.Valid()
      invariant n <= |all.responses| && conn.written == old(conn.written) + all.responses[..n]
      invariant TalkOf(reader.Rest()) == Talk(all.responses[n..], all.rest)
      decreases |reader.Rest()|
    {
      var t := AnswerLine(reader);
      match t {
        case Begun(extra) =>
          return Success(extra);
        case Ended(e) =>
          if e == WriteFailed {
            assert all.responses[..n] < all.responses;
          }
          return Failure(e);
        case Again =>
          n := n + 1;
      }
    }
  }

  function Join(lines: seq<seq<byte>>): seq<byte>
    decreases |lines|
  {
    if lines == [] then [] else lines[0] + Join(lines[1..])
  }

  function Responses(lines: seq<seq<byte>>): seq<Text> {
    seq(|lines|, i requires 0 <= i < |lines| => Respond(lines[i]))
  }

  predicate IsLine(b: seq<byte>) {
    b != [] && b[|b| - 1] == NEWLINE && NEWLINE !in b[..|b| - 1]
  }

  lemma {:induction false} LineAtFront(line: seq<byte>, rest: seq<byte>)
    requires IsLine(line)
    ensures LineLength(line + rest) == Some(|line|)
    decreases |line|
  {
    if line[0] != NEWLINE {
      assert (line + rest)[1..] == line[1..] + rest;
      assert line[1..][..|line| - 2] == line[..|line| - 1][1..];
      LineAtFront(line[1..], rest);
    }
  }

  /** For any command lines, a `BEGIN` line and any binary data behind it, the conversation has one
      response per command line and none for `BEGIN`, and hands over exactly the binary data. */
  lemma {:induction false} ConversationHandsOver(lines: seq<seq<byte>>, begin: seq<byte>, data: seq<byte>)
    requires forall i :: 0 <= i < |lines| ==> IsLine(lines[i]) && !IsBegin(lines[i])
    requires IsLine(begin) && IsBegin(begin)
    ensures TalkOf(Join(lines) + begin + data) == Talk(Responses(lines), Some(data))
    decreases |lines|
  {
    hide IsBegin, Respond, IsLine, LineLength;
    var all := Join(lines) + begin + data;
    if lines == [] {
      assert all == begin + data;
      LineAtFront(begin, data);
      assert all[..|begin|] == begin && all[|begin|..] == data;
    } else {
      var rest := Join(lines[1..]) + begin + data;
      assert all == lines[0] + rest;
      LineAtFront(lines[0], rest);
      assert all[..|lines[0]|] == lines[0] && all[|lines[0]|..] == rest;
      ConversationHandsOver(lines[1..], begin, data);
      assert Responses(lines) == [Respond(lines[0])] + Responses(lines[1..]);
    }
  }
}
