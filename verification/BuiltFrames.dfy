/** Frames put together from a fixed header, a field array, its padding and a body, as the router
    builds them (container/dbus/router.go:651-699), and what they read back as. */
module BuiltFrames {
  import opened Bytes
  import opened Wrappers
  import opened Wire
  import opened Bodies
  import opened HeaderFields

  function FixedHeader(kind: byte, flags: byte, bodyLen: uint32, serial: uint32, fieldsLen: uint32): (h: seq<byte>)
    ensures |h| == 16
  {
    [LITTLE_MARK, kind, flags, 1]
    + Uint32Bytes(Little, bodyLen) + Uint32Bytes(Little, serial) + Uint32Bytes(Little, fieldsLen)
  }

  function FieldArray(fs: seq<Field>): seq<byte> {
    AppendFields([], fs)
  }

  function BuiltFrame(kind: byte, flags: byte, serial: uint32, fs: seq<Field>, body: seq<byte>): seq<byte> {
    FixedHeader(kind, flags, Wrap(|body|), serial, Wrap(|FieldArray(fs)|)) + FieldArray(fs) + Padding(FieldArray(fs)) + body
  }

  /** The message that such a frame reads as. */
  function Built(kind: byte, flags: byte, serial: uint32, fs: seq<Field>, body: seq<byte>): Message {
    var raw := BuiltFrame(kind, flags, serial, fs, body);
    Message(LITTLE_MARK, kind, flags, 1, Wrap(|body|), serial, PaddedHeader(Wrap(|FieldArray(fs)|)), Wrap(|raw|),
            StoreAll(NO_FIELDS, fs), raw, [])
  }

  /** The lengths stay within their integers. */
  predicate Buildable(fs: seq<Field>, body: seq<byte>) {
    && (forall i :: 0 <= i < |fs| ==> Expressible(fs[i]))
    && |FieldArray(fs)| + |body| < 0xFFFF_FFC0
  }

  lemma FixedHeaderReads(raw: seq<byte>, kind: byte, flags: byte, bodyLen: uint32, serial: uint32, fieldsLen: uint32)
    requires |raw| >= 16 && raw[..16] == FixedHeader(kind, flags, bodyLen, serial, fieldsLen)
    ensures raw[0] == LITTLE_MARK && raw[1] == kind && raw[2] == flags && raw[3] == 1
    ensures GetUint32(Little, raw, 4) == bodyLen
    ensures GetUint32(Little, raw, 8) == serial
    ensures GetUint32(Little, raw, 12) == fieldsLen
  {
    hide Uint32Bytes, GetUint32;
    var head := raw[..16];
    assert raw[0] == head[0] && raw[1] == head[1] && raw[2] == head[2] && raw[3] == head[3];
    assert raw[4..8] == head[4..8] == Uint32Bytes(Little, bodyLen);
    assert raw[8..12] == head[8..12] == Uint32Bytes(Little, serial);
    assert raw[12..16] == head[12..16] == Uint32Bytes(Little, fieldsLen);
    StoredUint32(Little, bodyLen, raw, 4);
    StoredUint32(Little, serial, raw, 8);
    StoredUint32(Little, fieldsLen, raw, 12);
  }

  /** The parts of the frame stand where the fixed header says. */
  lemma FrameLayout(kind: byte, flags: byte, serial: uint32, fs: seq<Field>, body: seq<byte>)
    requires Buildable(fs, body)
    ensures
      var raw := BuiltFrame(kind, flags, serial, fs, body);
      var fields := FieldArray(fs);
      && 16 + |fields| <= Align8(16 + |fields|) <= |raw|
      && |raw| == Align8(16 + |fields|) + |body| < UINT32_LIMIT
      && PaddedHeader(Wrap(|fields|)) == Align8(16 + |fields|)
      && raw[0] == LITTLE_MARK && raw[1] == kind && raw[2] == flags && raw[3] == 1
      && GetUint32(Little, raw, 4) == |body|
      && GetUint32(Little, raw, 8) == serial
      && GetUint32(Little, raw, 12) == |fields|
      && raw[16..16 + |fields|] == fields
      && raw[Align8(16 + |fields|)..] == body
  {
    hide FieldArray, Uint32Bytes, GetUint32, FixedHeader;
    var raw := BuiltFrame(kind, flags, serial, fs, body);
    var fields := FieldArray(fs);
    PaddedHeaderFits(|fields|);
    assert Wrap(|fields|) == |fields| && Wrap(|body|) == |body|;
    var head := FixedHeader(kind, flags, |body|, serial, |fields|);
    assert raw[..16] == head;
    FixedHeaderReads(raw, kind, flags, |body|, serial, |fields|);
  }

  lemma FieldsParse(fs: seq<Field>, raw: seq<byte>)
    requires forall i :: 0 <= i < |fs| ==> Expressible(fs[i])
    requires 16 + |FieldArray(fs)| <= |raw| && raw[16..16 + |FieldArray(fs)|] == FieldArray(fs)
    ensures
      var end := 16 + |FieldArray(fs)|;
      && ParseFrom(raw, Little, end, 16, NO_FIELDS) == StoreAll(NO_FIELDS, fs)
      && Contained(raw, Little, end, Align8(end), 16)
  {
    hide ParseFrom, Contained, AppendFields, StoreAll, Expressible;
    var end := 16 + |FieldArray(fs)|;
    assert HoldsFields(raw, [], fs, end);
    FieldsRoundTrip(raw, [], fs, end, NO_FIELDS);
    AppendedFieldsContained(raw, [], fs, end);
    ContainedWidens(raw, Little, end, end, Align8(end), 16);
  }

  /** A built frame parses back to its type, flags, serial, fields and body; its lengths add up, and
      its header stands for itself. */
  lemma BuiltReads(kind: byte, flags: byte, serial: uint32, fs: seq<Field>, body: seq<byte>)
    requires Buildable(fs, body)
    ensures
      var m := Built(kind, flags, serial, fs, body);
      && Parse(m.raw) == Success(m) && SelfContained(m)
      && m.headerLength + m.bodyLength == m.totalLength == |m.raw|
      && m.raw[m.headerLength..] == body && m.bodyLength == |body|
  {
    hide FieldArray, GetUint32, Uint32Bytes, PaddedHeader, BuiltFrame, ParseFrom, Contained, Align8, StoreAll, Expressible;
    var m := Built(kind, flags, serial, fs, body);
    FrameLayout(kind, flags, serial, fs, body);
    FieldsParse(fs, m.raw);
    assert Wrap(|FieldArray(fs)|) == |FieldArray(fs)| && Wrap(|body|) == |body| && Wrap(|m.raw|) == |m.raw|;
    assert m.(fds := []) == m;
  }
}
