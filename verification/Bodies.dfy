/** Replacing the body of a message (container/dbus/wire.go, `ReplaceBody`), and when the header
    of a message is independent of the bytes that follow it. */
module Bodies {
  import opened Bytes
  import opened Wrappers
  import opened Wire

  /** A text value of the struct at `p` ends before `limit`. The parser itself only checks that
      it ends before the end of the frame. */
  predicate TextInside(raw: seq<byte>, order: Order, end: nat, limit: nat, p: nat)
    requires end <= |raw| && HasValue(raw, end, p)
  {
    var sig := SigAt(raw, end, p);
    var a := Align4(ValueStart(raw, end, p));
    (sig == SIG_STRING || sig == SIG_OBJECT) && a + 4 <= end ==> a + 4 + GetUint32(order, raw, a) <= limit
  }

  /** Every text value that the parser meets from `pos` on ends before `limit`. */
  predicate Contained(raw: seq<byte>, order: Order, end: nat, limit: nat, pos: nat)
    requires end <= |raw|
    decreases if pos < end then end - pos else 0
  {
    pos >= end || !HasValue(raw, end, Align8(pos)) ||
    (&& TextInside(raw, order, end, limit, Align8(pos))
     && Contained(raw, order, end, limit, ValueAt(raw, order, end, Align8(pos), NO_FIELDS).pos))
  }

  /** Without wrap-around the padded header ends at the next multiple of eight. */
  lemma PaddedHeaderIsAligned(fieldsLen: uint32)
    requires 16 + fieldsLen <= PaddedHeader(fieldsLen)
    ensures PaddedHeader(fieldsLen) == Align8(16 + fieldsLen)
  {
  }

  lemma PaddedHeaderFits(fieldsLen: uint32)
    requires 16 + fieldsLen + 8 <= UINT32_LIMIT
    ensures PaddedHeader(fieldsLen) == Align8(16 + fieldsLen)
  {
  }

  /** The bytes at `p` are the same in both frames. */
  ghost predicate SameRange(a: seq<byte>, b: seq<byte>, lo: nat, hi: nat) {
    hi <= |a| && hi <= |b| && forall i :: lo <= i < hi ==> a[i] == b[i]
  }

  lemma SameUint32InRange(order: Order, a: seq<byte>, b: seq<byte>, lo: nat, hi: nat, at: nat)
    requires SameRange(a, b, lo, hi) && lo <= at && at + 4 <= hi
    ensures GetUint32(order, a, at) == GetUint32(order, b, at)
  {
  }

  lemma SameSlice(a: seq<byte>, b: seq<byte>, lo: nat, hi: nat, from: nat, to: nat)
    requires SameRange(a, b, lo, hi) && lo <= from <= to <= hi
    ensures a[from..to] == b[from..to]
  {
  }

  lemma SameTextDecoding(a: seq<byte>, b: seq<byte>, order: Order, end: nat, code: byte, sig: Text, at: nat, f: Fields)
    requires 16 <= at <= end <= |a| && end <= |b| && (sig == SIG_STRING || sig == SIG_OBJECT)
    requires SameRange(a, b, 16, Align8(end))
    requires var v := Align4(at); v + 4 <= end ==> v + 4 + GetUint32(order, a, v) <= Align8(end)
    ensures DecodeValue(a, order, end, code, sig, at, f) == DecodeValue(b, order, end, code, sig, at, f)
  {
    hide StoreText, StoreUint;
    var limit := Align8(end);
    var v := Align4(at);
    if v + 4 <= end {
      SameUint32InRange(order, a, b, 16, limit, v);
      hide GetUint32;
      SameSlice(a, b, 16, limit, v + 4, v + 4 + GetUint32(order, a, v));
    }
  }

  /** An unsigned integer behind a one-byte signature is aligned where it stands. */
  lemma UintDecodes(raw: seq<byte>, order: Order, end: nat, code: byte, at: nat, f: Fields)
    requires at <= end <= |raw| && at % 4 == 0
    ensures DecodeValue(raw, order, end, code, SIG_UINT32, at, f)
         == if at + 4 > |raw| then Cursor(at, f) else Cursor(at + 4, StoreUint(f, code, GetUint32(order, raw, at)))
  {
    hide StoreUint, GetUint32;
    assert SIG_UINT32[0] != SIG_STRING[0] && SIG_UINT32[0] != SIG_OBJECT[0];
  }

  lemma DividedByEight(at: nat, rest: nat)
    requires at % 8 == rest
    ensures at == 8 * (at / 8) + rest
  {
  }

  lemma FourTimes(q: nat)
    ensures 4 * q % 4 == 0
  {
  }

  /** Behind an odd multiple of four, the next multiple of eight leaves room for four bytes. */
  lemma RoomForFour(k: nat, j: nat)
    requires 8 * k + 4 <= 8 * j
    ensures 8 * k + 8 <= 8 * j
  {
  }

  lemma UintInside(end: nat, at: nat)
    requires at % 8 == 4 && at <= end
    ensures at % 4 == 0 && at + 4 <= Align8(end)
  {
    hide Align8;
    var a := Align8(end);
    DividedByEight(at, 4);
    DividedByEight(a, 0);
    RoomForFour(at / 8, a / 8);
    FourTimes(2 * (at / 8) + 1);
    assert at == 4 * (2 * (at / 8) + 1);
  }

  lemma FourBehindEight(p: nat)
    requires p % 8 == 0
    ensures (p + 4) % 8 == 4
  {
  }

  lemma SameUintDecoding(a: seq<byte>, b: seq<byte>, order: Order, end: nat, code: byte, at: nat, f: Fields)
    requires 16 <= at <= end <= |a| && end <= |b| && at % 8 == 4
    requires SameRange(a, b, 16, Align8(end))
    ensures DecodeValue(a, order, end, code, SIG_UINT32, at, f) == DecodeValue(b, order, end, code, SIG_UINT32, at, f)
  {
    hide DecodeValue, StoreUint, GetUint32, Align8;
    UintInside(end, at);
    UintDecodes(a, order, end, code, at, f);
    UintDecodes(b, order, end, code, at, f);
    SameUint32InRange(order, a, b, 16, Align8(end), at);
  }

  /** A contained value decodes alike in two frames that share the header. An unsigned integer
      never reaches beyond the padding, because its struct is aligned to eight bytes. */
  lemma SameDecoding(a: seq<byte>, b: seq<byte>, order: Order, end: nat, code: byte, sig: Text, at: nat, f: Fields)
    requires 16 <= at <= end <= |a| && end <= |b|
    requires SameRange(a, b, 16, Align8(end))
    requires sig == SIG_UINT32 ==> at % 8 == 4
    requires
      var v := Align4(at);
      (sig == SIG_STRING || sig == SIG_OBJECT) && v + 4 <= end ==> v + 4 + GetUint32(order, a, v) <= Align8(end)
    ensures DecodeValue(a, order, end, code, sig, at, f) == DecodeValue(b, order, end, code, sig, at, f)
  {
    hide StoreText, StoreUint, GetUint32;
    if sig == SIG_STRING || sig == SIG_OBJECT {
      SameTextDecoding(a, b, order, end, code, sig, at, f);
    } else if sig == SIG_UINT32 {
      SameUintDecoding(a, b, order, end, code, at, f);
    }
  }

  lemma SameStruct(a: seq<byte>, b: seq<byte>, end: nat, p: nat)
    requires end <= |a| && end <= |b| && 16 <= p
    requires SameRange(a, b, 16, Align8(end)) && HasValue(a, end, p)
    ensures HasValue(b, end, p) && a[p] == b[p]
    ensures SigAt(a, end, p) == SigAt(b, end, p)
    ensures ValueStart(a, end, p) == ValueStart(b, end, p)
    ensures SigAt(a, end, p) == SIG_UINT32 ==> ValueStart(a, end, p) == p + 4
  {
    SameSlice(a, b, 16, Align8(end), p + 2, p + 2 + a[p + 1]);
  }

  lemma SameValue(a: seq<byte>, b: seq<byte>, order: Order, end: nat, p: nat, f: Fields)
    requires end <= |a| && end <= |b| && 16 <= p && p % 8 == 0
    requires SameRange(a, b, 16, Align8(end))
    requires HasValue(a, end, p) && TextInside(a, order, end, Align8(end), p)
    ensures HasValue(b, end, p)
    ensures ValueAt(a, order, end, p, f) == ValueAt(b, order, end, p, f)
  {
    SameStruct(a, b, end, p);
    FourBehindEight(p);
    hide DecodeValue, GetUint32, SigAt, ValueStart, HasValue, SameRange, Align8, Align4;
    SameDecoding(a, b, order, end, a[p], SigAt(a, end, p), ValueStart(a, end, p), f);
  }

  lemma SameTextInside(a: seq<byte>, b: seq<byte>, order: Order, end: nat, p: nat)
    requires end <= |a| && end <= |b| && 16 <= p
    requires SameRange(a, b, 16, Align8(end))
    requires HasValue(a, end, p) && HasValue(b, end, p) && TextInside(a, order, end, Align8(end), p)
    ensures TextInside(b, order, end, Align8(end), p)
  {
    SameStruct(a, b, end, p);
    hide SigAt, ValueStart, HasValue;
    var v := Align4(ValueStart(a, end, p));
    if v + 4 <= end {
      SameUint32InRange(order, a, b, 16, Align8(end), v);
    }
  }

  lemma ValueEndIgnoresFields(raw: seq<byte>, order: Order, end: nat, p: nat, f: Fields, g: Fields)
    requires end <= |raw| && HasValue(raw, end, p)
    ensures ValueAt(raw, order, end, p, f).pos == ValueAt(raw, order, end, p, g).pos
  {
  }

  /** Parsing a contained field array depends on the header bytes alone, not on the body. */
  lemma {:induction false} FieldsIgnoreBody(a: seq<byte>, b: seq<byte>, order: Order, end: nat, pos: nat, f: Fields)
    requires end <= |a| && end <= |b| && 16 <= pos
    requires SameRange(a, b, 16, Align8(end))
    requires Contained(a, order, end, Align8(end), pos)
    ensures ParseFrom(a, order, end, pos, f) == ParseFrom(b, order, end, pos, f)
    ensures Contained(b, order, end, Align8(end), pos)
    decreases if pos < end then end - pos else 0
  {
    if pos < end {
      var p := Align8(pos);
      if HasValue(a, end, p) {
        SameValue(a, b, order, end, p, f);
        SameValue(a, b, order, end, p, NO_FIELDS);
        SameTextInside(a, b, order, end, p);
        ValueEndIgnoresFields(a, order, end, p, f, NO_FIELDS);
        var c := ValueAt(a, order, end, p, f);
        FieldsIgnoreBody(a, b, order, end, c.pos, c.fields);
      }
    }
  }

  /** A message that is what its own frame says, with a header that stands for itself: the header
      lies inside the frame, and no text value in it runs into the body. */
  predicate SelfContained(m: Message) {
    && Parse(m.raw) == Success(m.(fds := []))
    && m.headerLength <= |m.raw|
    && FieldsEnd(m.raw, m.ByteOrder()) <= m.headerLength
    && Contained(m.raw, m.ByteOrder(), FieldsEnd(m.raw, m.ByteOrder()), m.headerLength, 16)
  }

  function KeptHeader(m: Message): nat {
    if m.headerLength > |m.raw| then |m.raw| else m.headerLength
  }

  /** The frame that `ReplaceBody` builds: the old header, the new body, and the new length. */
  function FrameWithBody(m: Message, body: seq<byte>): seq<byte>
    requires KeptHeader(m) + |body| >= 8
  {
    var joined := m.raw[..KeptHeader(m)] + body;
    joined[..4] + Uint32Bytes(m.ByteOrder(), Wrap(|body|)) + joined[8..]
  }

  function WithBody(m: Message, body: seq<byte>): Message
    requires KeptHeader(m) + |body| >= 8
  {
    var raw := FrameWithBody(m, body);
    match Parse(raw)
    case Success(out) => out
    case Failure(_) =>
      m.(raw := raw, bodyLength := Wrap(|body|), totalLength := Wrap(|raw|), fds := [])
  }

  method ReplaceBody(m: Message, body: seq<byte>) returns (out: Message)
    requires KeptHeader(m) + |body| >= 8
    ensures out == WithBody(m, body)
  {
    var headerLen: int := m.headerLength;
    if headerLen > |m.raw| {
      headerLen := |m.raw|;
    }
    var raw := new byte[headerLen + |body|];
    CopyInto(raw, 0, m.raw[..headerLen]);
    CopyInto(raw, headerLen, body);
    assert raw[..] == m.raw[..headerLen] + body;
    PutUint32(m.ByteOrder(), raw, 4, Wrap(|body|));
    assert raw[..] == FrameWithBody(m, body);
    var r := ParseHeader(raw[..]);
    if r.Failure? {
      return m.(raw := raw[..], bodyLength := Wrap(|body|), totalLength := Wrap(raw.Length), fds := []);
    }
    return r.value;
  }

  /** The fixed header survives the new body, except for the body length. */
  lemma FrameKeepsHeader(m: Message, body: seq<byte>)
    requires 16 <= KeptHeader(m)
    ensures
      var raw := FrameWithBody(m, body);
      && |raw| == KeptHeader(m) + |body|
      && SameRange(m.raw, raw, 0, 4) && SameRange(m.raw, raw, 8, KeptHeader(m))
      && raw[4..8] == Uint32Bytes(m.ByteOrder(), Wrap(|body|))
      && raw[KeptHeader(m)..] == body
      && GetUint32(m.ByteOrder(), raw, 8) == GetUint32(m.ByteOrder(), m.raw, 8)
      && GetUint32(m.ByteOrder(), raw, 12) == GetUint32(m.ByteOrder(), m.raw, 12)
  {
    var raw := FrameWithBody(m, body);
    SameUint32InRange(m.ByteOrder(), m.raw, raw, 8, 16, 8);
    SameUint32InRange(m.ByteOrder(), m.raw, raw, 8, 16, 12);
  }

  lemma ParsedHeaderInside(m: Message)
    requires Parse(m.raw) == Success(m.(fds := [])) && |m.raw| <= MAX_MESSAGE_SIZE
    ensures OrderOf(m.raw[0]) == Some(m.ByteOrder())
    ensures 16 <= FieldsEnd(m.raw, m.ByteOrder()) <= KeptHeader(m)
  {
    PaddedHeaderFits(GetUint32(m.ByteOrder(), m.raw, 12));
  }

  /** For a frame no larger than the reader accepts, `ReplaceBody` never falls back to patching
      the parsed copy: the new frame always parses. */
  lemma ReplacedFrameParses(m: Message, body: seq<byte>)
    requires Parse(m.raw) == Success(m.(fds := [])) && |m.raw| <= MAX_MESSAGE_SIZE
    ensures KeptHeader(m) >= 16
    ensures Parse(FrameWithBody(m, body)) == Success(WithBody(m, body))
  {
    ParsedHeaderInside(m);
    FrameKeepsHeader(m, body);
    var raw := FrameWithBody(m, body);
    assert raw[0] == m.raw[0];
    assert FieldsEnd(raw, m.ByteOrder()) == FieldsEnd(m.raw, m.ByteOrder()) <= |raw|;
    assert Parse(raw).Success?;
  }

  /** Replacing the body of a self-contained message changes the body and the two lengths and
      nothing else: type, flags, serial and all header fields are kept, and the result is again a
      self-contained message whose body is exactly the new one. */
  lemma BodyReplaced(m: Message, body: seq<byte>)
    requires SelfContained(m) && |body| < UINT32_LIMIT
    ensures KeptHeader(m) == m.headerLength >= 16
    ensures
      var out := WithBody(m, body);
      && SelfContained(out)
      && out == m.(raw := out.raw, bodyLength := |body|, totalLength := Wrap(m.headerLength + |body|), fds := [])
      && out.raw[out.headerLength..] == body
      && |out.raw| == m.headerLength + |body|
  {
    hide Parse, ParseFrom, Contained, FrameWithBody, MessageOf;
    var order := m.ByteOrder();
    FrameKeepsFields(m, body);
    FrameKeepsHeader(m, body);
    var raw := FrameWithBody(m, body);
    HeaderOfReplaced(m, raw, order, body);
  }

  /** What it means to be self-contained, part by part. */
  lemma ContainedParts(m: Message)
    requires SelfContained(m)
    ensures
      var order := m.ByteOrder();
      && |m.raw| >= 16 && OrderOf(m.raw[0]) == Some(order)
      && 16 <= FieldsEnd(m.raw, order) <= m.headerLength == Align8(FieldsEnd(m.raw, order)) <= |m.raw|
      && m.fields == ParseFrom(m.raw, order, FieldsEnd(m.raw, order), 16, NO_FIELDS)
      && Contained(m.raw, order, FieldsEnd(m.raw, order), m.headerLength, 16)
  {
    hide ParseFrom, Contained, GetUint32, Align8, PaddedHeader;
    var order := m.ByteOrder();
    PaddedHeaderIsAligned(GetUint32(order, m.raw, 12));
    assert m.(fds := []).fields == m.fields;
  }

  lemma ParsesAs(raw: seq<byte>, order: Order, fields: Fields)
    requires |raw| >= 16 && OrderOf(raw[0]) == Some(order) && FieldsEnd(raw, order) <= |raw|
    requires fields == ParseFrom(raw, order, FieldsEnd(raw, order), 16, NO_FIELDS)
    ensures Parse(raw) == Success(MessageOf(raw, order, fields))
  {
    hide ParseFrom, GetUint32, MessageOf;
  }

  lemma FrameKeepsFields(m: Message, body: seq<byte>)
    requires SelfContained(m)
    ensures
      var raw := FrameWithBody(m, body);
      var order := m.ByteOrder();
      && KeptHeader(m) == m.headerLength >= 16
      && m.headerLength <= |raw|
      && FieldsEnd(raw, order) == FieldsEnd(m.raw, order) <= m.headerLength
      && Parse(raw) == Success(MessageOf(raw, order, m.fields))
      && Contained(raw, order, FieldsEnd(raw, order), m.headerLength, 16)
  {
    hide SelfContained, Parse, ParseFrom, Contained, MessageOf, Align8, GetUint32, Uint32Bytes, FrameWithBody;
    ContainedParts(m);
    var order := m.ByteOrder();
    var end := FieldsEnd(m.raw, order);
    var raw := FrameWithBody(m, body);
    FrameKeepsHeader(m, body);
    assert SameRange(m.raw, raw, 16, Align8(end)) && raw[0] == m.raw[0];
    FieldsIgnoreBody(m.raw, raw, order, end, 16, NO_FIELDS);
    ParsesAs(raw, order, m.fields);
  }

  lemma HeaderOfReplaced(m: Message, raw: seq<byte>, order: Order, body: seq<byte>)
    requires SelfContained(m) && order == m.ByteOrder() && |m.raw| >= 16 && |raw| >= 16
    requires SameRange(m.raw, raw, 0, 4) && |body| < UINT32_LIMIT && raw[4..8] == Uint32Bytes(order, Wrap(|body|))
    requires GetUint32(order, raw, 8) == GetUint32(order, m.raw, 8)
    requires GetUint32(order, raw, 12) == GetUint32(order, m.raw, 12)
    ensures MessageOf(raw, order, m.fields)
         == m.(raw := raw, bodyLength := |body|, totalLength := Wrap(m.headerLength + |body|), fds := [])
  {
    hide ParseFrom, Contained, GetUint32, Uint32Bytes, PaddedHeader;
    assert Wrap(|body|) == |body|;
    StoredUint32(order, |body|, raw, 4);
    assert m.(fds := []) == MessageOf(m.raw, order, m.fields);
  }

  /** Where the parser goes from `pos` on: the position behind each struct that it decodes. */
  function Walk(raw: seq<byte>, order: Order, end: nat, pos: nat): seq<nat>
    requires end <= |raw|
    decreases if pos < end then end - pos else 0
  {
    if pos >= end || !HasValue(raw, end, Align8(pos)) then []
    else
      var next := ValueAt(raw, order, end, Align8(pos), NO_FIELDS).pos;
      [next] + Walk(raw, order, end, next)
  }

  lemma {:induction false} ContainedWalksAlike(a: seq<byte>, b: seq<byte>, order: Order, end: nat, pos: nat)
    requires end <= |a| && end <= |b| && 16 <= pos
    requires SameRange(a, b, 16, Align8(end)) && Contained(a, order, end, Align8(end), pos)
    ensures Walk(a, order, end, pos) == Walk(b, order, end, pos)
    decreases if pos < end then end - pos else 0
  {
    hide SameRange, ValueAt, TextInside;
    if pos < end {
      StructsAgree(a, b, end, Align8(pos));
      if HasValue(a, end, Align8(pos)) {
        SameValue(a, b, order, end, Align8(pos), NO_FIELDS);
        ContainedWalksAlike(a, b, order, end, ValueAt(a, order, end, Align8(pos), NO_FIELDS).pos);
      }
    }
  }

  lemma StructsAgree(a: seq<byte>, b: seq<byte>, end: nat, p: nat)
    requires end <= |a| && end <= |b| && 16 <= p && SameRange(a, b, 16, Align8(end))
    ensures HasValue(a, end, p) <==> HasValue(b, end, p)
  {
  }

  /** A text that runs out of the header is skipped where there is no body, and read where the
      body is long enough. */
  lemma EscapedTextDiffers(header: seq<byte>, order: Order, end: nat, p: nat) returns (body: seq<byte>)
    requires end <= |header| == Align8(end) && 16 <= p
    requires HasValue(header, end, p) && !TextInside(header, order, end, |header|, p)
    ensures HasValue(header + body, end, p)
    ensures ValueAt(header + body, order, end, p, NO_FIELDS).pos != ValueAt(header, order, end, p, NO_FIELDS).pos
  {
    var a := Align4(ValueStart(header, end, p));
    var n := GetUint32(order, header, a);
    body := Zeros(n);
    var raw := header + body;
    SameStruct(header, raw, end, p);
    SameUint32InRange(order, header, raw, 16, |header|, a);
    hide GetUint32, ValueStart;
  }

  lemma {:induction false} EscapeShows(header: seq<byte>, order: Order, end: nat, pos: nat) returns (body: seq<byte>)
    requires end <= |header| == Align8(end) && 16 <= pos
    requires !Contained(header, order, end, |header|, pos)
    ensures Walk(header + body, order, end, pos) != Walk(header, order, end, pos)
    decreases if pos < end then end - pos else 0
  {
    hide ValueAt, TextInside, HasValue, SameRange;
    var p := Align8(pos);
    if !TextInside(header, order, end, |header|, p) {
      body := EscapedTextDiffers(header, order, end, p);
      assert Walk(header + body, order, end, pos)[0] != Walk(header, order, end, pos)[0];
    } else {
      var next := ValueAt(header, order, end, p, NO_FIELDS).pos;
      body := EscapeShows(header, order, end, next);
      HeaderIsKept(header, body);
      SameValue(header, header + body, order, end, p, NO_FIELDS);
      assert Walk(header, order, end, pos) == [next] + Walk(header, order, end, next);
      assert Walk(header + body, order, end, pos)[1..] == Walk(header + body, order, end, next);
      assert Walk(header, order, end, pos)[1..] == Walk(header, order, end, next);
    }
  }

  lemma HeaderIsKept(header: seq<byte>, body: seq<byte>)
    ensures SameRange(header, header + body, 16, |header|)
  {
  }

  /** The exact condition for the parser to be independent of the body: it goes the same way
      through a header whatever body follows, if and only if no text value of the header runs
      beyond the header's end. */
  lemma ParsingIgnoresBodies(header: seq<byte>, order: Order, end: nat)
    requires end <= |header| == Align8(end)
    ensures Contained(header, order, end, |header|, 16)
       <==> forall body :: Walk(header + body, order, end, 16) == Walk(header, order, end, 16)
  {
    hide Contained, Walk, SameRange;
    if Contained(header, order, end, |header|, 16) {
      forall body ensures Walk(header + body, order, end, 16) == Walk(header, order, end, 16) {
        HeaderIsKept(header, body);
        ContainedWalksAlike(header, header + body, order, end, 16);
      }
    } else {
      var body := EscapeShows(header, order, end, 16);
    }
  }

  const ANSWERS_7: seq<byte> := [5, 1, 'u' as int, 0, 7, 0, 0, 0]
  const CLAIMS_13: seq<byte> := [99, 1, 's' as int, 0, 13, 0, 0, 0]
  const ANSWERS_9: seq<byte> := [5, 1, 'u' as int, 0, 9, 0, 0, 0]

  /** A field that says that the message answers call 7, one that claims a text of 13 bytes, and
      inside that text what reads like a field that answers call 9. */
  predicate HoldsEscape(raw: seq<byte>) {
    |raw| >= 40 && raw[16..24] == ANSWERS_7 && raw[24..32] == CLAIMS_13 && raw[32..40] == ANSWERS_9
  }

  /** A variant of one signature byte and four value bytes. */
  lemma StructReads(raw: seq<byte>, p: nat, s: seq<byte>)
    requires p + 8 <= |raw| && raw[p..p + 8] == s && |s| == 8 && s[1] == 1 && s[5] == s[6] == s[7] == 0 && |raw| >= 40 >= p + 8
    ensures HasValue(raw, 40, p) && raw[p] == s[0] && SigAt(raw, 40, p) == [s[2]] && ValueStart(raw, 40, p) == p + 4
    ensures GetUint32(Little, raw, p + 4) == s[4]
  {
    assert s[0] == raw[p] && s[1] == raw[p + 1] && s[2] == raw[p + 2] && s[4] == raw[p + 4];
    assert s[5] == raw[p + 5] && s[6] == raw[p + 6] && s[7] == raw[p + 7];
  }

  lemma UintStructReads(raw: seq<byte>, p: nat, s: seq<byte>, f: Fields)
    requires p % 8 == 0 && p + 8 <= 40 <= |raw| && raw[p..p + 8] == s && (s == ANSWERS_7 || s == ANSWERS_9)
    ensures HasValue(raw, 40, p) && ValueAt(raw, Little, 40, p, f) == Cursor(p + 8, f.(replySerial := s[4]))
  {
    StructReads(raw, p, s);
    hide HasValue, SigAt, ValueStart, GetUint32, DecodeValue;
    UintDecodes(raw, Little, 40, s[0], p + 4, f);
  }

  lemma ClaimReads(raw: seq<byte>, f: Fields)
    requires 40 <= |raw| && raw[24..32] == CLAIMS_13
    ensures HasValue(raw, 40, 24) && ValueAt(raw, Little, 40, 24, f) == Cursor(if |raw| >= 45 then 46 else 32, f)
  {
    StructReads(raw, 24, CLAIMS_13);
    hide HasValue, SigAt, ValueStart, GetUint32;
  }

  lemma FirstFieldReads(raw: seq<byte>)
    requires HoldsEscape(raw)
    ensures ParseFrom(raw, Little, 40, 16, NO_FIELDS) == ParseFrom(raw, Little, 40, 24, NO_FIELDS.(replySerial := 7))
  {
    hide HasValue, ValueAt, ParseFrom;
    UintStructReads(raw, 16, ANSWERS_7, NO_FIELDS);
    ParseOne(raw, 16, NO_FIELDS);
  }

  lemma SecondFieldReads(raw: seq<byte>, f: Fields)
    requires HoldsEscape(raw)
    ensures ParseFrom(raw, Little, 40, 24, f) == if |raw| >= 45 then f else ParseFrom(raw, Little, 40, 32, f)
  {
    hide HasValue, ValueAt, ParseFrom;
    ClaimReads(raw, f);
    ParseOne(raw, 24, f);
    ParseNone(raw, 46, f);
  }

  lemma ThirdFieldReads(raw: seq<byte>, f: Fields)
    requires HoldsEscape(raw)
    ensures ParseFrom(raw, Little, 40, 32, f) == f.(replySerial := 9)
  {
    hide HasValue, ValueAt, ParseFrom;
    UintStructReads(raw, 32, ANSWERS_9, f);
    ParseOne(raw, 32, f);
    ParseNone(raw, 40, f.(replySerial := 9));
  }

  /** Whether the claimed text is there decides which call the message answers. */
  lemma EscapeReads(raw: seq<byte>)
    requires HoldsEscape(raw)
    ensures ParseFrom(raw, Little, 40, 16, NO_FIELDS) == NO_FIELDS.(replySerial := if |raw| >= 45 then 7 else 9)
  {
    var f := NO_FIELDS.(replySerial := 7);
    FirstFieldReads(raw);
    SecondFieldReads(raw, f);
    ThirdFieldReads(raw, f);
    hide ParseFrom, HoldsEscape;
  }

  lemma ParseOne(raw: seq<byte>, pos: nat, f: Fields)
    requires pos < 40 <= |raw| && pos % 8 == 0 && HasValue(raw, 40, pos)
    ensures
      var c := ValueAt(raw, Little, 40, pos, f);
      ParseFrom(raw, Little, 40, pos, f) == ParseFrom(raw, Little, 40, c.pos, c.fields)
  {
    hide HasValue, ValueAt;
  }

  lemma ParseNone(raw: seq<byte>, pos: nat, f: Fields)
    requires 40 <= |raw| && 40 <= pos
    ensures ParseFrom(raw, Little, 40, pos, f) == f
  {
  }

  /** Without that condition a new body can change the header: every frame with these fields and
      a body of at least five bytes answers call 7, and answers call 9 once its body is replaced by
      an empty array. */
  lemma EscapingTextChangesReply(m: Message)
    requires Parse(m.raw) == Success(m.(fds := [])) && HoldsEscape(m.raw) && |m.raw| >= 45
    requires m.ByteOrder() == Little && FieldsEnd(m.raw, Little) == 40
    ensures KeptHeader(m) == m.headerLength == 40
    ensures m.fields.replySerial == 7 && WithBody(m, [0, 0, 0, 0]).fields.replySerial == 9
  {
    hide ParseFrom, GetUint32, HoldsEscape;
    EscapeReads(m.raw);
    var raw := FrameWithBody(m, [0, 0, 0, 0]);
    FrameKeepsHeader(m, [0, 0, 0, 0]);
    EscapeIsKept(m.raw, raw);
    assert raw[0] == m.raw[0];
    EscapeReads(raw);
  }

  lemma EscapeIsKept(a: seq<byte>, b: seq<byte>)
    requires HoldsEscape(a) && |b| == 44 && SameRange(a, b, 8, 40)
    ensures HoldsEscape(b) && |b| == 44
  {
    SameSlice(a, b, 8, 40, 16, 24);
    SameSlice(a, b, 8, 40, 24, 32);
    SameSlice(a, b, 8, 40, 32, 40);
  }

  const ESCAPING_FRAME: seq<byte> :=
    ['l' as int, 2, 0, 1, 5, 0, 0, 0] + [1, 0, 0, 0, 24, 0, 0, 0] + ANSWERS_7 + CLAIMS_13 + ANSWERS_9 + Zeros(5)

  /** There is such a frame. */
  lemma EscapingFrameExists()
    ensures
      var r := Parse(ESCAPING_FRAME);
      && r.Success? && Parse(r.value.raw) == Success(r.value.(fds := [])) && HoldsEscape(r.value.raw) && |r.value.raw| == 45
      && r.value.ByteOrder() == Little && FieldsEnd(r.value.raw, Little) == 40
  {
    hide ParseFrom;
    var raw := ESCAPING_FRAME;
    assert raw[8..16] == [1, 0, 0, 0, 24, 0, 0, 0];
    assert raw[12] == raw[8..16][4] && raw[13] == raw[8..16][5] && raw[14] == raw[8..16][6] && raw[15] == raw[8..16][7];
    assert GetUint32(Little, raw, 12) == 24;
  }
}
