/** The error reply that the router answers with where the host bus is missing
    (container/dbus/router.go, `NewErrorMessage`). */
module ErrorReply {
  import opened Bytes
  import opened Wrappers
  import opened Wire
  import opened Bodies
  import opened HeaderFields
  import opened BuiltFrames
  import opened Texts

  /** The fields of an error reply: the error name, the serial it answers, the caller if it is
      known, and the signature of the body. */
  function ErrorFields(replyTo: Message, errorName: Text): seq<Field> {
    [TextField(HEADER_ERROR_NAME, errorName), UintField(HEADER_REPLY_SERIAL, replyTo.serial)]
    + (if replyTo.fields.sender != [] then [TextField(HEADER_DESTINATION, replyTo.fields.sender)] else [])
    + [SignatureField(SIG_STRING)]
  }

  function ErrorFieldBytes(replyTo: Message, errorName: Text): seq<byte> {
    FieldArray(ErrorFields(replyTo, errorName))
  }

  /** A body that is one string. */
  function TextBody(text: Text): seq<byte> {
    Uint32Bytes(Little, Wrap(|text|)) + text + [0]
  }

  function ErrorFrame(replyTo: Message, errorName: Text, errorText: Text, serial: uint32): seq<byte> {
    BuiltFrame(TYPE_ERROR, 1, serial, ErrorFields(replyTo, errorName), TextBody(errorText))
  }

  /** The error reply as the code returns it; it leaves the destination out of the struct. */
  function ErrorMessage(replyTo: Message, errorName: Text, errorText: Text, serial: uint32): Message {
    var raw := ErrorFrame(replyTo, errorName, errorText, serial);
    Message(LITTLE_MARK, TYPE_ERROR, 1, 1, Wrap(|TextBody(errorText)|), serial,
            PaddedHeader(Wrap(|ErrorFieldBytes(replyTo, errorName)|)), Wrap(|raw|),
            NO_FIELDS.(errorName := errorName, replySerial := replyTo.serial), raw, [])
  }

  /** The lengths of the reply stay within their integers. */
  predicate ErrorFits(replyTo: Message, errorName: Text, errorText: Text) {
    |errorName| + |replyTo.fields.sender| + |errorText| < 0xFFFF_FF00
  }

  method BuildErrorFields(replyTo: Message, errorName: Text) returns (fields: seq<byte>)
    ensures fields == ErrorFieldBytes(replyTo, errorName)
  {
    hide AppendField;
    fields := [];
    fields := AppendFieldString(fields, HEADER_ERROR_NAME, errorName);
    fields := AppendFieldUint32(fields, HEADER_REPLY_SERIAL, replyTo.serial);
    ghost var front := [TextField(HEADER_ERROR_NAME, errorName), UintField(HEADER_REPLY_SERIAL, replyTo.serial)];
    AppendTwo([], front[0], front[1], ErrorFields(replyTo, errorName)[2..]);
    assert front + ErrorFields(replyTo, errorName)[2..] == ErrorFields(replyTo, errorName);
    if replyTo.fields.sender != [] {
      ghost var before := fields;
      fields := AppendFieldString(fields, HEADER_DESTINATION, replyTo.fields.sender);
      AppendTwo(before, TextField(HEADER_DESTINATION, replyTo.fields.sender), SignatureField(SIG_STRING), []);
      assert ErrorFields(replyTo, errorName)[2..]
          == [TextField(HEADER_DESTINATION, replyTo.fields.sender), SignatureField(SIG_STRING)] + [];
    } else {
      assert ErrorFields(replyTo, errorName)[2..] == [SignatureField(SIG_STRING)];
    }
    fields := AppendFieldSignature(fields, ['s' as int]);
  }

  lemma AppendTwo(buf: seq<byte>, f: Field, g: Field, rest: seq<Field>)
    ensures AppendFields(buf, [f, g] + rest) == AppendFields(AppendField(AppendField(buf, f), g), rest)
  {
    hide AppendField;
    assert ([f, g] + rest)[1..] == [g] + rest;
    assert ([g] + rest)[1..] == rest;
  }

  method PutFixedHeader(header: array<byte>, bodyLen: uint32, serial: uint32, fieldsLen: uint32)
    requires header.Length >= 16
    modifies header
    ensures header[..] == FixedHeader(TYPE_ERROR, 1, bodyLen, serial, fieldsLen) + old(header[16..])
  {
    hide Uint32Bytes;
    ghost var rest := header[16..];
    header[0], header[1], header[2], header[3] := 'l' as int, TYPE_ERROR, 1, 1;
    ghost var mark := [LITTLE_MARK, TYPE_ERROR, 1, 1];
    assert header[..4] == mark && header[16..] == rest;
    PutUint32(Little, header, 4, bodyLen);
    assert header[..8] == mark + Uint32Bytes(Little, bodyLen) && header[16..] == rest;
    PutUint32(Little, header, 8, serial);
    assert header[..12] == mark + Uint32Bytes(Little, bodyLen) + Uint32Bytes(Little, serial) && header[16..] == rest;
    PutUint32(Little, header, 12, fieldsLen);
  }

  /** Copying the fields behind the fixed header leaves the zeros behind them. */
  lemma HeaderJoins(head: seq<byte>, fields: seq<byte>, zeros: nat)
    requires |head| == 16 && |fields| <= zeros
    ensures
      var blank := head + Zeros(zeros);
      blank[..16] + fields + blank[16 + |fields|..] == head + fields + Zeros(zeros - |fields|)
  {
    var blank := head + Zeros(zeros);
    assert blank[..16] == head;
    assert blank[16 + |fields|..] == Zeros(zeros - |fields|);
  }

  method BuildHeader(bodyLen: uint32, serial: uint32, fields: seq<byte>) returns (r: seq<byte>)
    requires 16 + |fields| + 8 <= UINT32_LIMIT
    ensures r == FixedHeader(TYPE_ERROR, 1, bodyLen, serial, Wrap(|fields|)) + fields + Padding(fields)
  {
    hide FixedHeader, PaddedHeader, Padding, Align8, Zeros, Wrap;
    WrapKeeps(|fields|);
    var fieldsLen := Wrap(|fields|);
    var padded: int := PaddedHeader(fieldsLen);
    PaddedHeaderFits(fieldsLen);
    PaddingFills(fields, padded);
    var header := new byte[padded](_ => 0);
    BlankIsZeros(header);
    PutFixedHeader(header, bodyLen, serial, fieldsLen);
    ghost var head := FixedHeader(TYPE_ERROR, 1, bodyLen, serial, fieldsLen);
    ghost var blank := header[..];
    assert blank == head + Zeros(padded - 16);
    CopyInto(header, 16, fields);
    r := header[..];
    assert r == blank[..16] + fields + blank[16 + |fields|..];
    HeaderJoins(head, fields, padded - 16);
  }

  lemma PaddingFills(fields: seq<byte>, padded: nat)
    requires padded == Align8(16 + |fields|)
    ensures 16 + |fields| <= padded && Padding(fields) == Zeros(padded - 16 - |fields|)
  {
  }

  lemma BlankIsZeros(header: array<byte>)
    requires header.Length >= 16 && forall i :: 0 <= i < header.Length ==> header[i] == 0
    ensures header[16..] == Zeros(header.Length - 16)
  {
  }

  method NewErrorMessage(replyTo: Message, errorName: Text, errorText: Text, serial: uint32) returns (m: Message)
    requires ErrorFits(replyTo, errorName, errorText)
    ensures m == ErrorMessage(replyTo, errorName, errorText, serial)
  {
    hide FieldArray, Uint32Bytes, PaddedHeader, FixedHeader, Padding;
    var bodyBytes := TextBytes(errorText);
    var bodyLen := Wrap(|bodyBytes|);
    var fields := BuildErrorFields(replyTo, errorName);
    ErrorFieldsSize(replyTo, errorName);
    var header := BuildHeader(bodyLen, serial, fields);
    var raw := header + bodyBytes;
    m := Message('l' as int, TYPE_ERROR, 1, 1, bodyLen, serial, PaddedHeader(Wrap(|fields|)), Wrap(|raw|),
                 NO_FIELDS.(errorName := errorName, replySerial := replyTo.serial), raw, []);
  }

  predicate TextsUpTo(f: Fields, n: nat) {
    |f.destination| <= n && |f.sender| <= n
  }

  lemma {:induction false} FieldTextsFit(raw: seq<byte>, order: Order, end: nat, pos: nat, f: Fields)
    requires end <= |raw| && TextsUpTo(f, |raw|)
    ensures TextsUpTo(ParseFrom(raw, order, end, pos, f), |raw|)
    decreases if pos < end then end - pos else 0
  {
    hide GetUint32;
    if pos < end && HasValue(raw, end, Align8(pos)) {
      var c := ValueAt(raw, order, end, Align8(pos), f);
      FieldTextsFit(raw, order, end, c.pos, c.fields);
    }
  }

  /** The names in a header are no longer than the frame. */
  lemma ParsedTextsFit(m: Message)
    requires Parse(m.raw) == Success(m.(fds := []))
    ensures TextsUpTo(m.fields, |m.raw|)
  {
    FieldTextsFit(m.raw, m.ByteOrder(), FieldsEnd(m.raw, m.ByteOrder()), 16, NO_FIELDS);
    assert m.fields == m.(fds := []).fields;
  }

  function RoomFor(fs: seq<Field>): nat
    decreases |fs|
  {
    if fs == [] then 0 else 7 + |FieldBytes(fs[0])| + RoomFor(fs[1..])
  }

  lemma {:induction false} AppendedSize(buf: seq<byte>, fs: seq<Field>)
    ensures |AppendFields(buf, fs)| <= |buf| + RoomFor(fs)
    decreases |fs|
  {
    hide FieldBytes;
    if fs != [] {
      AppendedSize(AppendField(buf, fs[0]), fs[1..]);
    }
  }

  lemma RoomForTwo(f: Field, g: Field, rest: seq<Field>)
    ensures RoomFor([f, g] + rest) == 14 + |FieldBytes(f)| + |FieldBytes(g)| + RoomFor(rest)
  {
    hide FieldBytes;
    assert ([f, g] + rest)[1..] == [g] + rest;
    assert ([g] + rest)[1..] == rest;
  }

  lemma ErrorFieldsSize(replyTo: Message, errorName: Text)
    ensures |ErrorFieldBytes(replyTo, errorName)| <= |errorName| + |replyTo.fields.sender| + 100
  {
    var fs := ErrorFields(replyTo, errorName);
    AppendedSize([], fs);
    RoomForTwo(fs[0], fs[1], fs[2..]);
    assert fs == [fs[0], fs[1]] + fs[2..];
    if replyTo.fields.sender != [] {
      RoomForTwo(fs[2], fs[3], []);
      assert fs[2..] == [fs[2], fs[3]] + [];
    } else {
      assert fs[2..] == [fs[2]] && [fs[2]][1..] == [];
    }
  }

  /** The reply as its frame reads: the struct plus the destination. */
  function ErrorAsRead(replyTo: Message, errorName: Text, errorText: Text, serial: uint32): Message {
    var m := ErrorMessage(replyTo, errorName, errorText, serial);
    m.(fields := m.fields.(destination := replyTo.fields.sender))
  }

  lemma ErrorFieldsStored(replyTo: Message, errorName: Text)
    ensures StoreAll(NO_FIELDS, ErrorFields(replyTo, errorName))
         == NO_FIELDS.(errorName := errorName, replySerial := replyTo.serial, destination := replyTo.fields.sender)
  {
    var fs := ErrorFields(replyTo, errorName);
    var f1 := Store(NO_FIELDS, fs[0]);
    var f2 := Store(f1, fs[1]);
    assert StoreAll(NO_FIELDS, fs) == StoreAll(f2, fs[1..][1..]) && fs[1..][1..] == fs[2..];
    if replyTo.fields.sender != [] {
      var f3 := Store(f2, fs[2]);
      assert StoreAll(f2, fs[2..]) == StoreAll(f3, fs[2..][1..]) && fs[2..][1..] == [fs[3]] && [fs[3]][1..] == [];
      assert StoreAll(f3, [fs[3]]) == f3;
    } else {
      assert fs[2..] == [fs[2]] && [fs[2]][1..] == [];
      assert StoreAll(f2, [fs[2]]) == f2;
    }
  }

  /** The error reply round trip: its bytes parse back to an error that asks for no reply, with the
      serial, the error name, the reply serial, the caller as destination and nothing else; its lengths
      add up; its body decodes to the error text alone. */
  lemma ErrorReplyReads(replyTo: Message, errorName: Text, errorText: Text, serial: uint32)
    requires ErrorFits(replyTo, errorName, errorText)
    ensures
      var m := ErrorAsRead(replyTo, errorName, errorText, serial);
      && Parse(m.raw) == Success(m) && SelfContained(m)
      && m.kind == TYPE_ERROR && m.flags == 1 && m.serial == serial && m.ByteOrder() == Little
      && m.fields == Fields([], [], [], errorName, replyTo.serial, replyTo.fields.sender, [], 0)
      && m.headerLength + m.bodyLength == m.totalLength == |m.raw|
      && BodyTexts(m) == [errorText]
  {
    hide FieldArray, Uint32Bytes, PaddedHeader, BuiltFrame, Parse, SelfContained, TextsFrom, StoreAll;
    var fs, body := ErrorFields(replyTo, errorName), TextBody(errorText);
    ErrorFieldsSize(replyTo, errorName);
    ErrorFieldsStored(replyTo, errorName);
    BuiltReads(TYPE_ERROR, 1, serial, fs, body);
    assert ErrorAsRead(replyTo, errorName, errorText, serial) == Built(TYPE_ERROR, 1, serial, fs, body);
    OneTextBody(errorText);
  }

  lemma OneTextBody(text: Text)
    requires |text| < UINT32_LIMIT
    ensures TextsFrom(Little, TextBody(text), 0) == [text]
  {
    hide Uint32Bytes, GetUint32, TextsFrom;
    var body := TextBody(text);
    assert AppendText(Little, [], text) == body;
    assert [text][1..] == [];
    assert AppendTexts(Little, [], [text]) == body;
    assert body[0..0 + |body|] == body;
    TextsRoundTrip(Little, body, [], [text]);
  }
}
