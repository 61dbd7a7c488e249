/** The layout of a frame in plain bytes, in both byte orders: where the parser finds what it stores
    (container/dbus/wire.go:12-43, 115-145, 265-401; D-Bus Specification, sections "Message Format"
    and "Header Fields"). */
module WireLayout {
  import opened Bytes
  import opened Wrappers
  import opened Wire
  import opened Reader

  /** The number that four bytes are, the most significant first. */
  function Number(b3: int, b2: int, b1: int, b0: int): int {
    b3 * 16777216 + b2 * 65536 + b1 * 256 + b0
  }

  /** The number at `at` in the byte order that the first byte names: `B` for the most significant
      byte first, `l` for the least. */
  function NumberAt(raw: seq<byte>, at: nat): int
    requires at + 4 <= |raw|
  {
    if raw[0] == 66 then Number(raw[at], raw[at + 1], raw[at + 2], raw[at + 3])
    else Number(raw[at + 3], raw[at + 2], raw[at + 1], raw[at])
  }

  /** The next multiple of eight. */
  function RoundUp(n: nat): nat {
    (n + 7) / 8 * 8
  }

  lemma NumberIsRead(raw: seq<byte>, at: nat)
    requires at + 4 <= |raw|
    ensures raw[0] == 66 ==> OrderOf(raw[0]) == Some(Big) && GetUint32(Big, raw, at) == NumberAt(raw, at)
    ensures raw[0] == 108 ==> OrderOf(raw[0]) == Some(Little) && GetUint32(Little, raw, at) == NumberAt(raw, at)
    ensures raw[0] != 66 && raw[0] != 108 ==> OrderOf(raw[0]) == None
  {
  }

  lemma Eighths(x: nat)
    ensures x % 8 == 0 ==> RoundUp(x) == x
    ensures x % 8 != 0 ==> RoundUp(x) == x + (8 - x % 8)
  {
  }

  lemma WrapsAround(x: nat)
    ensures Wrap(x) == x % 0x1_0000_0000
    ensures x < 0x1_0000_0000 ==> Wrap(x) == x
    ensures 0x1_0000_0000 <= x < 0x2_0000_0000 ==> Wrap(x) == x - 0x1_0000_0000
  {
  }

  lemma RoundsAround(y: nat)
    ensures RoundUp(y + 0x1_0000_0000) % 0x1_0000_0000 == RoundUp(y) % 0x1_0000_0000
  {
    assert (y + 0x1_0000_0000 + 7) / 8 == (y + 7) / 8 + 0x2000_0000;
  }

  lemma PaddedIsRounded(fieldsLen: uint32)
    ensures PaddedHeader(fieldsLen) == RoundUp(16 + fieldsLen) % 0x1_0000_0000
  {
    hide Wrap, RoundUp;
    var x: nat := 16 + fieldsLen;
    WrapsAround(x);
    var p: nat := Wrap(x);
    Eighths(p);
    WrapsAround(RoundUp(p));
    if x >= 0x1_0000_0000 {
      RoundsAround(p);
      WrapsAround(p);
    }
  }

  lemma WrapAdds(x: nat, y: nat)
    ensures Wrap(Wrap(x) + y) == (x + y) % 0x1_0000_0000
  {
  }

  /** The fixed header. A frame is parsed if and only if it has sixteen bytes, a known first byte and
      a field array that ends in the frame. The second byte tells calls, returns, errors and signals
      apart; body length, serial and field array length are the fifth, ninth and thirteenth byte on. */
  lemma FixedHeaderLayout(raw: seq<byte>)
    ensures Parse(raw).Success? <==> |raw| >= 16 && (raw[0] == 66 || raw[0] == 108) && 16 + NumberAt(raw, 12) <= |raw|
    ensures
      Parse(raw).Success? ==>
        var m := Parse(raw).value;
        && (m.IsCall() <==> raw[1] == 1) && (m.IsReply() <==> raw[1] == 2 || raw[1] == 3)
        && (m.kind == TYPE_METHOD_RETURN <==> raw[1] == 2) && (m.kind == TYPE_ERROR <==> raw[1] == 3)
        && (m.kind == TYPE_SIGNAL <==> raw[1] == 4)
        && m.flags == raw[2] && m.version == raw[3] && m.bodyLength == NumberAt(raw, 4) && m.serial == NumberAt(raw, 8)
        && m.headerLength == RoundUp(16 + NumberAt(raw, 12)) % 0x1_0000_0000
        && m.totalLength == (RoundUp(16 + NumberAt(raw, 12)) + NumberAt(raw, 4)) % 0x1_0000_0000
        && m.ByteOrder() == (if raw[0] == 66 then Big else Little) && m.raw == raw && m.fds == []
  {
    hide GetUint32, Number, NumberAt, OrderOf, ParseFrom, PaddedHeader, RoundUp, Wrap;
    if |raw| >= 16 {
      NumberIsRead(raw, 4);
      NumberIsRead(raw, 8);
      NumberIsRead(raw, 12);
      if raw[0] == 66 || raw[0] == 108 {
        PaddedIsRounded(NumberAt(raw, 12));
        WrapAdds(RoundUp(16 + NumberAt(raw, 12)), NumberAt(raw, 4));
        WrapsAround(RoundUp(16 + NumberAt(raw, 12)));
      }
    }
  }

  /** The length of the next frame: fixed header, field array and padding, body. */
  function NextLength(bytes: seq<byte>): int
    requires |bytes| >= 16
  {
    (RoundUp(16 + NumberAt(bytes, 12)) + NumberAt(bytes, 4)) % 0x1_0000_0000
  }

  /** How the reader cuts the stream: a length of more than 128 MiB is refused, an incomplete frame is
      waited for, and a complete one is exactly as many bytes as its length says, with as many of the
      next descriptors as its header says. */
  lemma NextFrameLayout(bytes: seq<byte>, fds: seq<Fd>)
    requires |bytes| >= 16 && (bytes[0] == 66 || bytes[0] == 108)
    ensures
      var o, n := NextFrame(bytes, fds), NextLength(bytes);
      && (o.result == Failure(TooLarge) <==> n > 134217728)
      && (n <= 134217728 ==> (o.result == Failure(StreamEnded) <==> |bytes| < n))
      && (n <= 134217728 && n <= |bytes| ==> o.bytes == bytes[n..])
      && (o.result.Success? ==>
            var m := o.result.value;
            && m.raw == bytes[..n] && |m.fds| == m.fields.unixFDs && fds == m.fds + o.fds)
      && (!o.result.Success? ==> o.fds == fds)
  {
    hide GetUint32, Number, NumberAt, OrderOf, Parse, PaddedHeader, RoundUp, Wrap;
    NumberIsRead(bytes, 4);
    NumberIsRead(bytes, 12);
    PaddedIsRounded(NumberAt(bytes, 12));
    WrapAdds(RoundUp(16 + NumberAt(bytes, 12)), NumberAt(bytes, 4));
    WrapsAround(RoundUp(16 + NumberAt(bytes, 12)));
    if NextLength(bytes) <= |bytes| {
      ParsedKeepsRaw(bytes[..NextLength(bytes)]);
    }
  }

  lemma ParsedKeepsRaw(raw: seq<byte>)
    ensures Parse(raw).Success? ==> Parse(raw).value.raw == raw
  {
    hide ParseFrom, GetUint32;
  }

  /** Parsing the field array at `p` goes on at `q` with the fields `g`. */
  predicate GoesOn(raw: seq<byte>, order: Order, end: nat, p: nat, f: Fields, q: nat, g: Fields)
    requires end <= |raw|
  {
    ParseFrom(raw, order, end, p, f) == ParseFrom(raw, order, end, q, g)
  }

  /** A struct at a boundary begins with its code, the one-letter signature and a zero. */
  predicate StructAt(raw: seq<byte>, p: nat, code: byte, letter: byte) {
    p % 8 == 0 && p + 4 <= |raw| && raw[p] == code && raw[p + 1] == 1 && raw[p + 2] == letter && raw[p + 3] == 0
  }

  lemma ValueBoundary(raw: seq<byte>, p: nat, code: byte, letter: byte)
    requires StructAt(raw, p, code, letter)
    ensures (p + 4) % 4 == 0
  {
    assert p + 4 == 4 * (2 * (p / 8) + 1);
  }

  lemma StructOpens(raw: seq<byte>, order: Order, end: nat, p: nat, code: byte, letter: byte, f: Fields)
    requires end <= |raw| && StructAt(raw, p, code, letter) && p + 3 < end
    ensures
      var c := DecodeValue(raw, order, end, code, [letter], p + 4, f);
      GoesOn(raw, order, end, p, f, c.pos, c.fields)
  {
    hide DecodeValue;
    assert raw[p + 2..p + 3] == [letter];
  }

  lemma WholeTextDecodes(raw: seq<byte>, order: Order, end: nat, at: nat, code: byte, letter: byte, text: Text, f: Fields)
    requires at % 4 == 0 && at + 4 <= end <= |raw| && at + 4 + |text| <= |raw| && (letter == 115 || letter == 111)
    requires GetUint32(order, raw, at) == |text| && raw[at + 4..at + 4 + |text|] == text
    ensures DecodeValue(raw, order, end, code, [letter], at, f) == Cursor(at + 5 + |text|, StoreText(f, code, text))
  {
    hide GetUint32, StoreText;
  }

  lemma WholeNumberDecodes(raw: seq<byte>, order: Order, end: nat, at: nat, code: byte, f: Fields)
    requires at % 4 == 0 && at <= end <= |raw| && at + 4 <= |raw|
    ensures DecodeValue(raw, order, end, code, [117], at, f) == Cursor(at + 4, StoreUint(f, code, GetUint32(order, raw, at)))
  {
    hide GetUint32, StoreUint;
  }

  /** A text field (`s` or `o`): the codes 1, 2, 3, 4, 6 and 7 are path, interface, member, error name,
      destination and sender; a text under any other code is skipped. */
  lemma TextFieldLayout(raw: seq<byte>, order: Order, end: nat, p: nat, code: byte, letter: byte, text: Text, f: Fields)
    requires |text| < 0x1_0000_0000 && p + 9 + |text| <= end <= |raw| && (letter == 115 || letter == 111)
    requires p % 8 == 0 && raw[p..p + 9 + |text|] == [code, 1, letter, 0] + Uint32Bytes(order, |text|) + text + [0]
    ensures
      var q := p + 9 + |text|;
      && (code == 1 ==> GoesOn(raw, order, end, p, f, q, f.(path := text)))
      && (code == 2 ==> GoesOn(raw, order, end, p, f, q, f.(iface := text)))
      && (code == 3 ==> GoesOn(raw, order, end, p, f, q, f.(member := text)))
      && (code == 4 ==> GoesOn(raw, order, end, p, f, q, f.(errorName := text)))
      && (code == 6 ==> GoesOn(raw, order, end, p, f, q, f.(destination := text)))
      && (code == 7 ==> GoesOn(raw, order, end, p, f, q, f.(sender := text)))
      && (code == 0 || code == 5 || code > 7 ==> GoesOn(raw, order, end, p, f, q, f))
  {
    hide ParseFrom, Uint32Bytes, GetUint32, DecodeValue;
    var s := raw[p..p + 9 + |text|];
    var n := Uint32Bytes(order, |text|);
    assert raw[p] == s[0] && raw[p + 1] == s[1] && raw[p + 2] == s[2] && raw[p + 3] == s[3];
    SliceOfSlice(raw, p, p + 9 + |text|, 4, 8);
    SliceOfSlice(raw, p, p + 9 + |text|, 8, 8 + |text|);
    assert s[4..8] == n && s[8..8 + |text|] == text;
    StoredUint32(order, |text|, raw, p + 4);
    hide StructAt;
    ValueBoundary(raw, p, code, letter);
    StructOpens(raw, order, end, p, code, letter, f);
    WholeTextDecodes(raw, order, end, p + 4, code, letter, text, f);
  }

  /** A number field (`u`): the codes 5 and 9 are the reply serial and the count of descriptors. */
  lemma UintFieldLayout(raw: seq<byte>, order: Order, end: nat, p: nat, code: byte, val: uint32, f: Fields)
    requires p + 4 <= end <= |raw| && p + 8 <= |raw|
    requires p % 8 == 0 && raw[p..p + 8] == [code, 1, 117, 0] + Uint32Bytes(order, val)
    ensures
      && (code == 5 ==> GoesOn(raw, order, end, p, f, p + 8, f.(replySerial := val)))
      && (code == 9 ==> GoesOn(raw, order, end, p, f, p + 8, f.(unixFDs := val)))
      && (code != 5 && code != 9 ==> GoesOn(raw, order, end, p, f, p + 8, f))
  {
    hide ParseFrom, Uint32Bytes, GetUint32, DecodeValue;
    var s := raw[p..p + 8];
    assert raw[p] == s[0] && raw[p + 1] == s[1] && raw[p + 2] == s[2] && raw[p + 3] == s[3];
    SliceOfSlice(raw, p, p + 8, 4, 8);
    StoredUint32(order, val, raw, p + 4);
    hide StructAt;
    ValueBoundary(raw, p, code, 117);
    StructOpens(raw, order, end, p, code, 117, f);
    WholeNumberDecodes(raw, order, end, p + 4, code, f);
  }

  /** A signature field (`g`) is skipped, with its one-byte length and its final zero. */
  lemma SignatureFieldLayout(raw: seq<byte>, order: Order, end: nat, p: nat, code: byte, f: Fields)
    requires p + 5 <= end <= |raw| && StructAt(raw, p, code, 103)
    ensures GoesOn(raw, order, end, p, f, p + 4 + 1 + raw[p + 4] + 1, f)
  {
    hide ParseFrom;
    StructOpens(raw, order, end, p, code, 103, f);
  }

  /** Where the fields end: behind the array, at a struct that is cut off before its signature's final
      zero, and at a value of any other type. */
  lemma FieldsEndLayout(raw: seq<byte>, order: Order, end: nat, p: nat, f: Fields)
    requires p % 8 == 0 && end <= |raw|
    ensures p >= end ==> ParseFrom(raw, order, end, p, f) == f
    ensures p < end && (p + 1 >= end || p + 2 + raw[p + 1] >= end) ==> ParseFrom(raw, order, end, p, f) == f
    ensures
      p + 3 < end && raw[p + 1] == 1 && raw[p + 2] != 115 && raw[p + 2] != 111 && raw[p + 2] != 117 && raw[p + 2] != 103 ==>
        ParseFrom(raw, order, end, p, f) == f
    ensures p + 1 < end && raw[p + 1] != 1 && p + 2 + raw[p + 1] < end ==> ParseFrom(raw, order, end, p, f) == f
  {
    hide DecodeValue;
    if HasValue(raw, end, p) && (raw[p + 1] != 1 || raw[p + 2] !in {103, 111, 115, 117}) {
      ValueOfOtherType(raw, order, end, raw[p], SigAt(raw, end, p), ValueStart(raw, end, p), f);
    }
  }

  lemma ValueOfOtherType(raw: seq<byte>, order: Order, end: nat, code: byte, sig: Text, at: nat, f: Fields)
    requires at <= end <= |raw|
    requires |sig| == 1 ==> sig[0] != 115 && sig[0] != 111 && sig[0] != 117 && sig[0] != 103
    ensures DecodeValue(raw, order, end, code, sig, at, f) == Cursor(end, f)
  {
    hide StoreText, StoreUint, GetUint32;
  }

  /** Between two fields the parser skips to the next boundary. */
  lemma FieldsAreAligned(raw: seq<byte>, order: Order, end: nat, p: nat, f: Fields)
    requires end <= |raw| && p < end
    ensures GoesOn(raw, order, end, p, f, RoundUp(p), f)
  {
    hide ValueAt;
    Eighths(p);
  }

  /** A text that does not fit is not stored: one that is longer than the frame is skipped behind its
      length, and one without room for its length ends the fields. */
  lemma CutTextIsSkipped(raw: seq<byte>, order: Order, end: nat, p: nat, code: byte, letter: byte, f: Fields)
    requires p + 4 <= end <= |raw| && StructAt(raw, p, code, letter) && (letter == 115 || letter == 111)
    ensures
      p + 8 <= end && p + 8 + GetUint32(order, raw, p + 4) > |raw| ==> GoesOn(raw, order, end, p, f, p + 8, f)
    ensures p + 8 > end ==> ParseFrom(raw, order, end, p, f) == f
  {
    hide GetUint32, DecodeValue, ParseFrom, StructAt;
    ValueBoundary(raw, p, code, letter);
    StructOpens(raw, order, end, p, code, letter, f);
    CutTextDecodes(raw, order, end, p + 4, code, letter, f);
    if end < p + 8 {
      StructCutOff(raw, order, end, p, code, letter, f);
    }
  }

  lemma CutTextDecodes(raw: seq<byte>, order: Order, end: nat, at: nat, code: byte, letter: byte, f: Fields)
    requires at % 4 == 0 && at <= end <= |raw| && (letter == 115 || letter == 111)
    ensures
      at + 4 <= end && at + 4 + GetUint32(order, raw, at) > |raw| ==>
        DecodeValue(raw, order, end, code, [letter], at, f) == Cursor(at + 4, f)
    ensures at + 4 > end ==> DecodeValue(raw, order, end, code, [letter], at, f) == Cursor(at, f)
  {
    hide GetUint32, StoreText, StoreUint;
  }

  lemma CutNumberDecodes(raw: seq<byte>, order: Order, end: nat, at: nat, code: byte, f: Fields)
    requires at % 4 == 0 && at <= end <= |raw|
    ensures at + 4 > |raw| ==> DecodeValue(raw, order, end, code, [117], at, f) == Cursor(at, f)
    ensures at == end ==> DecodeValue(raw, order, end, code, [103], at, f) == Cursor(at, f)
  {
    hide GetUint32, StoreText, StoreUint;
  }

  /** A number without room for its four bytes, and a signature without its length, end the fields. */
  lemma CutNumberIsSkipped(raw: seq<byte>, order: Order, end: nat, p: nat, code: byte, letter: byte, f: Fields)
    requires p + 4 <= end <= |raw| && StructAt(raw, p, code, letter)
    ensures letter == 117 && p + 8 > |raw| ==> ParseFrom(raw, order, end, p, f) == f
    ensures letter == 103 && p + 4 == end ==> ParseFrom(raw, order, end, p, f) == f
  {
    hide DecodeValue, ParseFrom, StructAt;
    ValueBoundary(raw, p, code, letter);
    StructOpens(raw, order, end, p, code, letter, f);
    CutNumberDecodes(raw, order, end, p + 4, code, f);
    if end < p + 8 {
      StructCutOff(raw, order, end, p, code, letter, f);
    }
  }

  /** Nothing is read from a struct that begins in the last few bytes of the array. */
  lemma StructCutOff(raw: seq<byte>, order: Order, end: nat, p: nat, code: byte, letter: byte, f: Fields)
    requires StructAt(raw, p, code, letter) && end <= |raw| && p + 4 <= end < p + 8
    ensures ParseFrom(raw, order, end, p + 4, f) == f
  {
  }

  /** A frame with one text field, in either byte order. */
  lemma LoneTextField(raw: seq<byte>, code: byte, text: Text)
    requires |text| < 0xFFFF_FF00 && |raw| >= 25 + |text| && (raw[0] == 66 || raw[0] == 108)
    requires NumberAt(raw, 12) == 9 + |text|
    requires
      raw[16..25 + |text|] == [code, 1, 115, 0] + Uint32Bytes(if raw[0] == 66 then Big else Little, |text|) + text + [0]
    ensures Parse(raw).Success?
    ensures
      var f := Parse(raw).value.fields;
      && (code == 1 ==> f == Fields(text, [], [], [], 0, [], [], 0))
      && (code == 2 ==> f == Fields([], text, [], [], 0, [], [], 0))
      && (code == 3 ==> f == Fields([], [], text, [], 0, [], [], 0))
      && (code == 4 ==> f == Fields([], [], [], text, 0, [], [], 0))
      && (code == 6 ==> f == Fields([], [], [], [], 0, text, [], 0))
      && (code == 7 ==> f == Fields([], [], [], [], 0, [], text, 0))
  {
    hide GetUint32, Number, NumberAt, OrderOf, ParseFrom, Uint32Bytes, MessageOf;
    NumberIsRead(raw, 12);
    var order := if raw[0] == 66 then Big else Little;
    var end := 25 + |text|;
    TextFieldLayout(raw, order, end, 16, code, 115, text, NO_FIELDS);
    NothingFollows(raw, order, end);
    MessageHasFields(raw, order, ParseFrom(raw, order, end, 16, NO_FIELDS));
  }

  lemma NothingFollows(raw: seq<byte>, order: Order, end: nat)
    requires end <= |raw|
    ensures forall f :: ParseFrom(raw, order, end, end, f) == f
  {
  }

  lemma MessageHasFields(raw: seq<byte>, order: Order, fields: Fields)
    requires |raw| >= 16
    ensures MessageOf(raw, order, fields).fields == fields
  {
  }
}
