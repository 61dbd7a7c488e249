/** Building header field arrays (container/dbus/router.go), and the round trip through the
    header parser. */
module HeaderFields {
  import opened Bytes
  import opened Wire
  import opened Bodies

  datatype Field =
    | TextField(code: byte, text: Text)
    | UintField(code: byte, val: uint32)
    | SignatureField(sig: Text)

  /** What the one-byte and four-byte length prefixes can express. */
  predicate Expressible(f: Field) {
    match f
    case TextField(_, text) => |text| < UINT32_LIMIT
    case UintField(_, _) => true
    case SignatureField(sig) => |sig| < 0x100
  }

  /** The zeros that bring the next field struct to an eight-byte boundary of the message. */
  function Padding(buf: seq<byte>): seq<byte> {
    Zeros(Align8(16 + |buf|) - (16 + |buf|))
  }

  function FieldBytes(f: Field): seq<byte> {
    match f
    case TextField(code, text) =>
      [code, 1] + SIG_STRING + [0] + Uint32Bytes(Little, Wrap(|text|)) + text + [0]
    case UintField(code, val) =>
      [code, 1] + SIG_UINT32 + [0] + Uint32Bytes(Little, val)
    case SignatureField(sig) =>
      [HEADER_SIGNATURE, 1] + SIG_SIGNATURE + [0] + [|sig| % 0x100] + sig + [0]
  }

  function AppendField(buf: seq<byte>, f: Field): seq<byte> {
    buf + Padding(buf) + FieldBytes(f)
  }

  function AppendFields(buf: seq<byte>, fs: seq<Field>): seq<byte>
    decreases |fs|
  {
    if fs == [] then buf else AppendFields(AppendField(buf, fs[0]), fs[1..])
  }

  /** The padding loops of the append functions. */
  method PadTo8(buf: seq<byte>) returns (r: seq<byte>)
    ensures r == buf + Padding(buf)
  {
    r := buf;
    var offset := 16 + |buf|;
    var rem := offset % 8;
    if rem != 0 {
      var pad := 8 - rem;
      for i := 0 to pad
        invariant r == buf + Zeros(i)
      {
        r := r + [0];
      }
    }
  }

  method PadTo4(buf: seq<byte>) returns (r: seq<byte>)
    ensures r == buf + Zeros(Align4(16 + |buf|) - (16 + |buf|))
  {
    r := buf;
    var offset := 16 + |buf|;
    var rem := offset % 4;
    if rem != 0 {
      var pad := 4 - rem;
      for i := 0 to pad
        invariant r == buf + Zeros(i)
      {
        r := r + [0];
      }
    }
  }

  /** The marshalled text: its length, its bytes and a terminating zero. */
  method TextBytes(val: Text) returns (r: seq<byte>)
    ensures r == Uint32Bytes(Little, Wrap(|val|)) + val + [0]
  {
    hide Uint32Bytes;
    var valBytes := new byte[4 + |val| + 1](_ => 0);
    ghost var length := Uint32Bytes(Little, Wrap(|val|));
    PutUint32(Little, valBytes, 0, Wrap(|val|));
    assert valBytes[..4] == length;
    CopyInto(valBytes, 4, val);
    assert valBytes[..4 + |val|] == length + val;
    valBytes[4 + |val|] := 0;
    assert valBytes[..4 + |val|] == length + val;
    r := valBytes[..];
  }

  lemma ValueIsAligned(buf: seq<byte>, r: seq<byte>)
    requires |r| == |buf + Padding(buf)| + 4
    ensures Align4(16 + |r|) == 16 + |r|
  {
  }

  /** The start of a field: its alignment, its code and its one-byte signature. The value behind
      it is aligned to four bytes where it stands. */
  method AppendStart(buf: seq<byte>, code: byte, sig: byte) returns (r: seq<byte>)
    ensures r == buf + Padding(buf) + [code, 1, sig, 0]
  {
    hide Padding;
    r := PadTo8(buf);
    r := r + [code];
    r := r + [1, sig, 0];
    ghost var start := r;
    ValueIsAligned(buf, r);
    r := PadTo4(r);
    assert r == start;
  }

  method AppendFieldString(buf: seq<byte>, code: byte, val: Text) returns (r: seq<byte>)
    ensures r == AppendField(buf, TextField(code, val))
  {
    hide Padding, Uint32Bytes;
    var start := AppendStart(buf, code, 's' as int);
    var valBytes := TextBytes(val);
    r := start + valBytes;
    assert FieldBytes(TextField(code, val)) == [code, 1, 's' as int, 0] + valBytes;
  }

  method AppendFieldUint32(buf: seq<byte>, code: byte, val: uint32) returns (r: seq<byte>)
    ensures r == AppendField(buf, UintField(code, val))
  {
    hide Padding, Uint32Bytes;
    var start := AppendStart(buf, code, 'u' as int);
    var valBytes := NewUint32(Little, val);
    r := start + valBytes;
    assert FieldBytes(UintField(code, val)) == [code, 1, 'u' as int, 0] + Uint32Bytes(Little, val);
  }

  method AppendFieldSignature(buf: seq<byte>, sig: Text) returns (r: seq<byte>)
    ensures r == AppendField(buf, SignatureField(sig))
  {
    hide Padding;
    r := PadTo8(buf);
    ghost var padded := r;
    r := r + [HEADER_SIGNATURE];
    r := r + [1, 'g' as int, 0];
    ghost var start := [HEADER_SIGNATURE, 1] + SIG_SIGNATURE + [0];
    assert start == [HEADER_SIGNATURE, 1, 'g' as int, 0];
    assert r == padded + start;
    var length := |sig| % 0x100;
    r := r + [length];
    r := r + sig;
    r := r + [0];
    assert r == padded + (start + [length] + sig + [0]);
    assert start + [length] + sig + [0] == FieldBytes(SignatureField(sig));
  }

  /** What the parser should make of one field. */
  function Store(f: Fields, field: Field): Fields {
    match field
    case TextField(code, text) => StoreText(f, code, text)
    case UintField(code, val) => StoreUint(f, code, val)
    case SignatureField(_) => f
  }

  function StoreAll(f: Fields, fs: seq<Field>): Fields
    decreases |fs|
  {
    if fs == [] then f else StoreAll(Store(f, fs[0]), fs[1..])
  }

  lemma {:induction false} FieldsGrow(buf: seq<byte>, fs: seq<Field>)
    ensures buf <= AppendFields(buf, fs)
    decreases |fs|
  {
    if fs != [] {
      FieldsGrow(AppendField(buf, fs[0]), fs[1..]);
    }
  }

  lemma TextFieldDecodes(raw: seq<byte>, code: byte, text: Text, end: nat, at: nat, f: Fields)
    requires at % 4 == 0 && at + 4 + |text| + 1 <= end <= |raw| && |text| < UINT32_LIMIT
    requires raw[at..at + 4 + |text| + 1] == Uint32Bytes(Little, |text|) + text + [0]
    ensures GetUint32(Little, raw, at) == |text|
    ensures DecodeValue(raw, Little, end, code, SIG_STRING, at, f) == Cursor(at + 4 + |text| + 1, StoreText(f, code, text))
  {
    hide StoreText;
    var s := raw[at..at + 4 + |text| + 1];
    var prefix := Uint32Bytes(Little, |text|);
    assert s == prefix + (text + [0]);
    SliceOfSlice(raw, at, at + 4 + |text| + 1, 0, 4);
    SliceOfSlice(raw, at, at + 4 + |text| + 1, 4, 4 + |text|);
    assert s[..4] == prefix && s[4..4 + |text|] == text;
    StoredUint32(Little, |text|, raw, at);
  }

  lemma UintFieldDecodes(raw: seq<byte>, code: byte, val: uint32, end: nat, at: nat, f: Fields)
    requires at % 4 == 0 && at + 4 <= end <= |raw|
    requires raw[at..at + 4] == Uint32Bytes(Little, val)
    ensures DecodeValue(raw, Little, end, code, SIG_UINT32, at, f) == Cursor(at + 4, StoreUint(f, code, val))
  {
    StoredUint32(Little, val, raw, at);
  }

  /** Where the parser finds an appended field, the struct is complete and names its type. */
  lemma FieldStruct(raw: seq<byte>, field: Field, end: nat, p: nat)
    requires Expressible(field) && p % 8 == 0
    requires p + |FieldBytes(field)| <= end <= |raw| && raw[p..p + |FieldBytes(field)|] == FieldBytes(field)
    ensures |FieldBytes(field)| > 4 && raw[p + 1] == 1 && HasValue(raw, end, p)
    ensures raw[p + 4..p + |FieldBytes(field)|] == FieldBytes(field)[4..]
    ensures raw[p] == if field.SignatureField? then HEADER_SIGNATURE else field.code
    ensures ValueStart(raw, end, p) == p + 4
    ensures SigAt(raw, end, p) == match field
                                  case TextField(_, _) => SIG_STRING
                                  case UintField(_, _) => SIG_UINT32
                                  case SignatureField(_) => SIG_SIGNATURE
  {
    hide Uint32Bytes;
    var s := raw[p..p + |FieldBytes(field)|];
    assert raw[p] == s[0] && raw[p + 1] == s[1] && raw[p + 2] == s[2];
    SliceOfSlice(raw, p, p + |FieldBytes(field)|, 4, |FieldBytes(field)|);
  }

  lemma SignatureFieldDecodes(raw: seq<byte>, code: byte, sig: Text, end: nat, at: nat, f: Fields)
    requires at + 1 + |sig| + 1 <= end <= |raw| && |sig| < 0x100 && raw[at] == |sig|
    ensures DecodeValue(raw, Little, end, code, SIG_SIGNATURE, at, f) == Cursor(at + 1 + |sig| + 1, f)
  {
  }

  ghost predicate Stands(raw: seq<byte>, field: Field, end: nat, p: nat) {
    && Expressible(field) && p % 8 == 0
    && p + |FieldBytes(field)| <= end <= |raw|
    && raw[p..p + |FieldBytes(field)|] == FieldBytes(field)
  }

  lemma FieldTail(field: Field)
    requires field.TextField? && |field.text| < UINT32_LIMIT
    ensures |FieldBytes(field)| == 4 + 4 + |field.text| + 1
    ensures FieldBytes(field)[4..] == Uint32Bytes(Little, |field.text|) + field.text + [0]
  {
    assert Wrap(|field.text|) == |field.text|;
  }

  lemma TextFieldParses(raw: seq<byte>, field: Field, end: nat, p: nat, f: Fields)
    requires Stands(raw, field, end, p) && field.TextField?
    ensures HasValue(raw, end, p)
    ensures ValueAt(raw, Little, end, p, f) == Cursor(p + |FieldBytes(field)|, Store(f, field))
    ensures TextInside(raw, Little, end, end, p)
  {
    hide DecodeValue, StoreText, Uint32Bytes, HasValue, FieldBytes, SigAt, ValueStart;
    FieldTail(field);
    FieldStruct(raw, field, end, p);
    TextFieldDecodes(raw, field.code, field.text, end, p + 4, f);
  }

  lemma UintFieldParses(raw: seq<byte>, field: Field, end: nat, p: nat, f: Fields)
    requires Stands(raw, field, end, p) && field.UintField?
    ensures HasValue(raw, end, p)
    ensures ValueAt(raw, Little, end, p, f) == Cursor(p + |FieldBytes(field)|, Store(f, field))
    ensures TextInside(raw, Little, end, end, p)
  {
    hide DecodeValue, StoreUint, GetUint32, Uint32Bytes, HasValue, SigAt, ValueStart;
    FieldStruct(raw, field, end, p);
    assert FieldBytes(field)[4..] == Uint32Bytes(Little, field.val);
    UintFieldDecodes(raw, field.code, field.val, end, p + 4, f);
  }

  lemma SignatureFieldParses(raw: seq<byte>, field: Field, end: nat, p: nat, f: Fields)
    requires Stands(raw, field, end, p) && field.SignatureField?
    ensures HasValue(raw, end, p)
    ensures ValueAt(raw, Little, end, p, f) == Cursor(p + |FieldBytes(field)|, f)
    ensures TextInside(raw, Little, end, end, p)
  {
    hide DecodeValue, GetUint32, HasValue, SigAt, ValueStart;
    FieldStruct(raw, field, end, p);
    assert FieldBytes(field)[4..] == [|field.sig|] + field.sig + [0];
    assert raw[p + 4] == FieldBytes(field)[4..][0];
    SignatureFieldDecodes(raw, HEADER_SIGNATURE, field.sig, end, p + 4, f);
  }

  /** The parser reads one appended field back, and stands right behind it afterwards. */
  lemma FieldParses(raw: seq<byte>, field: Field, end: nat, p: nat, f: Fields)
    requires Stands(raw, field, end, p)
    ensures HasValue(raw, end, p)
    ensures ValueAt(raw, Little, end, p, f) == Cursor(p + |FieldBytes(field)|, Store(f, field))
    ensures TextInside(raw, Little, end, end, p)
  {
    hide ValueAt, TextInside, HasValue, StoreText, StoreUint, FieldBytes, Stands;
    match field
    case TextField(_, _) => TextFieldParses(raw, field, end, p, f);
    case UintField(_, _) => UintFieldParses(raw, field, end, p, f);
    case SignatureField(_) => SignatureFieldParses(raw, field, end, p, f);
  }

  lemma ContainedWidens(raw: seq<byte>, order: Order, end: nat, small: nat, large: nat, pos: nat)
    requires end <= |raw| && small <= large && Contained(raw, order, end, small, pos)
    ensures Contained(raw, order, end, large, pos)
    decreases if pos < end then end - pos else 0
  {
  }

  /** The frame's field array, which ends at `end`, is `fs` appended to `buf`. */
  ghost predicate HoldsFields(raw: seq<byte>, buf: seq<byte>, fs: seq<Field>, end: nat) {
    && (forall i :: 0 <= i < |fs| ==> Expressible(fs[i]))
    && end == 16 + |AppendFields(buf, fs)| <= |raw|
    && raw[16..end] == AppendFields(buf, fs)
  }

  lemma FieldPlace(buf: seq<byte>, f: Field)
    ensures
      var p := Align8(16 + |buf|);
      var next := AppendField(buf, f);
      && 16 + |buf| <= p < p + |FieldBytes(f)| == 16 + |next|
      && next[p - 16..] == FieldBytes(f)
  {
    assert |FieldBytes(f)| > 0;
    hide FieldBytes;
  }

  /** The first of the appended fields stands at the next boundary, the others behind it. */
  lemma FieldStands(raw: seq<byte>, buf: seq<byte>, fs: seq<Field>, end: nat)
    requires fs != [] && HoldsFields(raw, buf, fs, end)
    ensures HoldsFields(raw, AppendField(buf, fs[0]), fs[1..], end)
    ensures
      var p := Align8(16 + |buf|);
      && 16 + |buf| <= p < p + |FieldBytes(fs[0])| == 16 + |AppendField(buf, fs[0])| <= end <= |raw|
      && Stands(raw, fs[0], end, p)
  {
    hide FieldBytes, Align8, AppendField;
    var next := AppendField(buf, fs[0]);
    FieldsGrow(next, fs[1..]);
    FieldPlace(buf, fs[0]);
    var p := Align8(16 + |buf|);
    SliceOfSlice(raw, 16, end, p - 16, |next|);
    assert AppendFields(buf, fs)[..|next|] == next;
  }

  lemma NoFieldsLeft(raw: seq<byte>, buf: seq<byte>, end: nat)
    requires HoldsFields(raw, buf, [], end)
    ensures end == 16 + |buf| <= |raw|
  {
  }

  /** Header round trip: whatever fields are appended, in whatever order and number, the parser
      recovers exactly what storing them one after the other gives. */
  lemma {:induction false} FieldsRoundTrip(raw: seq<byte>, buf: seq<byte>, fs: seq<Field>, end: nat, f: Fields)
    requires HoldsFields(raw, buf, fs, end)
    ensures end <= |raw| && ParseFrom(raw, Little, end, 16 + |buf|, f) == StoreAll(f, fs)
    decreases |fs|
  {
    hide FieldBytes, ValueAt, Store, HasValue, AppendField, AppendFields, Align8, Stands, HoldsFields;
    if fs == [] {
      NoFieldsLeft(raw, buf, end);
    } else {
      FieldStands(raw, buf, fs, end);
      FieldParses(raw, fs[0], end, Align8(16 + |buf|), f);
      FieldsRoundTrip(raw, AppendField(buf, fs[0]), fs[1..], end, Store(f, fs[0]));
    }
  }

  /** No text in an appended field array leaves it. */
  lemma {:induction false} AppendedFieldsContained(raw: seq<byte>, buf: seq<byte>, fs: seq<Field>, end: nat)
    requires HoldsFields(raw, buf, fs, end)
    ensures end <= |raw| && Contained(raw, Little, end, end, 16 + |buf|)
    decreases |fs|
  {
    hide FieldBytes, ValueAt, Store, TextInside, HasValue, AppendField, AppendFields, Align8, Stands, HoldsFields;
    if fs == [] {
      NoFieldsLeft(raw, buf, end);
    } else {
      FieldStands(raw, buf, fs, end);
      FieldParses(raw, fs[0], end, Align8(16 + |buf|), NO_FIELDS);
      AppendedFieldsContained(raw, AppendField(buf, fs[0]), fs[1..], end);
    }
  }

  /** The text that the last field with a code carries; fields of other types do not count. */
  function LastText(fs: seq<Field>, code: byte, none: Text): Text
    decreases |fs|
  {
    if fs == [] then none
    else
      var l := fs[|fs| - 1];
      if l.TextField? && l.code == code then l.text else LastText(fs[..|fs| - 1], code, none)
  }

  function LastUint(fs: seq<Field>, code: byte, none: uint32): uint32
    decreases |fs|
  {
    if fs == [] then none
    else
      var l := fs[|fs| - 1];
      if l.UintField? && l.code == code then l.val else LastUint(fs[..|fs| - 1], code, none)
  }

  lemma {:induction false} StoreAllLast(f: Fields, fs: seq<Field>)
    requires fs != []
    ensures StoreAll(f, fs) == Store(StoreAll(f, fs[..|fs| - 1]), fs[|fs| - 1])
    decreases |fs|
  {
    if |fs| > 1 {
      StoreAllLast(Store(f, fs[0]), fs[1..]);
      assert fs[1..][..|fs| - 2] == fs[..|fs| - 1][1..];
    } else {
      assert fs[..|fs| - 1] == [];
    }
  }

  /** For every code the parser stores, the value it recovers is the last one appended. */
  lemma {:induction false} LastFieldWins(fs: seq<Field>)
    ensures
      var r := StoreAll(NO_FIELDS, fs);
      && r.path == LastText(fs, 1, [])
      && r.iface == LastText(fs, 2, [])
      && r.member == LastText(fs, 3, [])
      && r.errorName == LastText(fs, 4, [])
      && r.destination == LastText(fs, 6, [])
      && r.sender == LastText(fs, 7, [])
      && r.replySerial == LastUint(fs, 5, 0)
      && r.unixFDs == LastUint(fs, 9, 0)
    decreases |fs|
  {
    if fs != [] {
      StoreAllLast(NO_FIELDS, fs);
      LastFieldWins(fs[..|fs| - 1]);
    }
  }
}
