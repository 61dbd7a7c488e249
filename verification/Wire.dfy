/** D-Bus messages and the header parser (container/dbus/wire.go).

    The field layout follows the D-Bus Specification, sections "Message Format",
    "Header Fields" and "Marshaling (Wire Format)". */
module Wire {
  import opened Bytes
  import opened Wrappers

  const TYPE_METHOD_CALL: byte := 1
  const TYPE_METHOD_RETURN: byte := 2
  const TYPE_ERROR: byte := 3
  const TYPE_SIGNAL: byte := 4

  const HEADER_PATH: byte := 1
  const HEADER_INTERFACE: byte := 2
  const HEADER_MEMBER: byte := 3
  const HEADER_ERROR_NAME: byte := 4
  const HEADER_REPLY_SERIAL: byte := 5
  const HEADER_DESTINATION: byte := 6
  const HEADER_SENDER: byte := 7
  const HEADER_SIGNATURE: byte := 8
  const HEADER_UNIX_FDS: byte := 9

  const MAX_MESSAGE_SIZE := 0x800_0000

  const LITTLE_MARK: byte := 'l' as int
  const BIG_MARK: byte := 'B' as int

  const SIG_STRING: Text := ['s' as int]
  const SIG_OBJECT: Text := ['o' as int]
  const SIG_UINT32: Text := ['u' as int]
  const SIG_SIGNATURE: Text := ['g' as int]

  /** An open file descriptor; each one received or duplicated is a distinct handle. */
  type Fd = nat

  /** The header fields the router keeps. */
  datatype Fields = Fields(
    path: Text, iface: Text, member: Text, errorName: Text,
    replySerial: uint32, destination: Text, sender: Text, unixFDs: uint32)

  const NO_FIELDS := Fields([], [], [], [], 0, [], [], 0)

  datatype Message = Message(
    endian: byte, kind: byte, flags: byte, version: byte,
    bodyLength: uint32, serial: uint32, headerLength: uint32, totalLength: uint32,
    fields: Fields, raw: seq<byte>, fds: seq<Fd>)
  {
    function ByteOrder(): Order {
      if endian == BIG_MARK then Big else Little
    }

    predicate IsReply() {
      kind == TYPE_METHOD_RETURN || kind == TYPE_ERROR
    }

    predicate IsCall() {
      kind == TYPE_METHOD_CALL
    }
  }

  datatype WireError = ShortHeader | BadEndian | FieldsTooLong

  /** The header size with the struct padding, in the code's `uint32` arithmetic. */
  function PaddedHeader(fieldsLen: uint32): uint32 {
    var p := Wrap(16 + fieldsLen);
    if p % 8 != 0 then Wrap(p + (8 - p % 8)) else p
  }

  function StoreText(f: Fields, code: byte, val: Text): Fields {
    if code == HEADER_PATH then f.(path := val)
    else if code == HEADER_INTERFACE then f.(iface := val)
    else if code == HEADER_MEMBER then f.(member := val)
    else if code == HEADER_ERROR_NAME then f.(errorName := val)
    else if code == HEADER_DESTINATION then f.(destination := val)
    else if code == HEADER_SENDER then f.(sender := val)
    else f
  }

  function StoreUint(f: Fields, code: byte, val: uint32): Fields {
    if code == HEADER_REPLY_SERIAL then f.(replySerial := val)
    else if code == HEADER_UNIX_FDS then f.(unixFDs := val)
    else f
  }

  datatype Cursor = Cursor(pos: nat, fields: Fields)

  /** One variant value: where parsing goes on, and the fields after it. A value that does not
      fit is skipped without being stored, and parsing goes on where the failed check stood. */
  function DecodeValue(raw: seq<byte>, order: Order, end: nat, code: byte, sig: Text, at: nat, f: Fields): (c: Cursor)
    requires at <= end <= |raw|
    ensures at <= c.pos
  {
    if sig == SIG_STRING || sig == SIG_OBJECT then
      var a := Align4(at);
      if a + 4 > end then Cursor(a, f) else
      var n := GetUint32(order, raw, a);
      if a + 4 + n > |raw| then Cursor(a + 4, f)
      else Cursor(a + 4 + n + 1, StoreText(f, code, raw[a + 4..a + 4 + n]))
    else if sig == SIG_UINT32 then
      var a := Align4(at);
      if a + 4 > |raw| then Cursor(a, f)
      else Cursor(a + 4, StoreUint(f, code, GetUint32(order, raw, a)))
    else if sig == SIG_SIGNATURE then
      if at >= end then Cursor(at, f) else Cursor(at + 1 + raw[at] + 1, f)
    else
      Cursor(end, f)
  }

  /** Where the variant of the struct at `p` ends its signature, if the struct is complete. */
  predicate HasValue(raw: seq<byte>, end: nat, p: nat)
    requires end <= |raw|
  {
    p + 1 < end && p + 2 + raw[p + 1] < end
  }

  /** The signature of the variant at `p`. */
  function SigAt(raw: seq<byte>, end: nat, p: nat): Text
    requires end <= |raw| && HasValue(raw, end, p)
  {
    raw[p + 2..p + 2 + raw[p + 1]]
  }

  /** Where the value of the variant at `p` begins, before its alignment. */
  function ValueStart(raw: seq<byte>, end: nat, p: nat): (at: nat)
    requires end <= |raw| && HasValue(raw, end, p)
    ensures p < at <= end
  {
    p + 2 + raw[p + 1] + 1
  }

  /** The value of the struct at `p`. */
  function ValueAt(raw: seq<byte>, order: Order, end: nat, p: nat, f: Fields): (c: Cursor)
    requires end <= |raw| && HasValue(raw, end, p)
    ensures p < c.pos
  {
    DecodeValue(raw, order, end, raw[p], SigAt(raw, end, p), ValueStart(raw, end, p), f)
  }

  /** The fields found from `pos` on, in a field array that ends at `end`. */
  function ParseFrom(raw: seq<byte>, order: Order, end: nat, pos: nat, f: Fields): Fields
    requires end <= |raw|
    decreases if pos < end then end - pos else 0
  {
    if pos >= end then f else
    var p := Align8(pos);
    if !HasValue(raw, end, p) then f else
    var c := ValueAt(raw, order, end, p, f);
    ParseFrom(raw, order, end, c.pos, c.fields)
  }

  function OrderOf(endian: byte): Option<Order> {
    if endian == LITTLE_MARK then Some(Little)
    else if endian == BIG_MARK then Some(Big)
    else None
  }

  /** The message whose fixed header stands at the front of `raw`. */
  function MessageOf(raw: seq<byte>, order: Order, fields: Fields): Message
    requires |raw| >= 16
  {
    var bodyLen := GetUint32(order, raw, 4);
    var padded := PaddedHeader(GetUint32(order, raw, 12));
    Message(raw[0], raw[1], raw[2], raw[3], bodyLen, GetUint32(order, raw, 8), padded,
            Wrap(padded + bodyLen), fields, raw, [])
  }

  /** Where the field array ends. */
  function FieldsEnd(raw: seq<byte>, order: Order): nat
    requires |raw| >= 16
  {
    16 + GetUint32(order, raw, 12)
  }

  /** What a frame means: its fixed header and its header fields. */
  function Parse(raw: seq<byte>): Result<Message, WireError> {
    if |raw| < 16 then Failure(ShortHeader)
    else if OrderOf(raw[0]).None? then Failure(BadEndian)
    else
      var order := OrderOf(raw[0]).value;
      if FieldsEnd(raw, order) > |raw| then Failure(FieldsTooLong)
      else Success(MessageOf(raw, order, ParseFrom(raw, order, FieldsEnd(raw, order), 16, NO_FIELDS)))
  }

  /** The `switch` on the variant's signature inside the field loop. */
  method ReadValue(raw: seq<byte>, order: Order, end: nat, code: byte, sig: Text, at: nat, before: Fields)
    returns (pos: nat, fields: Fields)
    requires at <= end <= |raw|
    ensures Cursor(pos, fields) == DecodeValue(raw, order, end, code, sig, at, before)
  {
    hide StoreText, StoreUint, GetUint32;
    pos, fields := at, before;
    if sig == SIG_STRING || sig == SIG_OBJECT {
      pos := Align4(pos);
      if pos + 4 <= end {
        var strLen: int := GetUint32(order, raw, pos);
        pos := pos + 4;
        if pos + strLen <= |raw| {
          var strVal := raw[pos..pos + strLen];
          pos := pos + strLen + 1;
          fields := StoreText(fields, code, strVal);
        }
      }
    } else if sig == SIG_UINT32 {
      pos := Align4(pos);
      if pos + 4 <= |raw| {
        var uVal := GetUint32(order, raw, pos);
        pos := pos + 4;
        fields := StoreUint(fields, code, uVal);
      }
    } else if sig == SIG_SIGNATURE {
      if pos < end {
        var sLen: int := raw[pos];
        pos := pos + 1;
        pos := pos + sLen + 1;
      }
    } else {
      pos := end;
    }
  }

  /** One turn of the field loop; `more` is false where the code leaves the loop. */
  method ReadStruct(raw: seq<byte>, order: Order, end: nat, from: nat, before: Fields)
    returns (more: bool, pos: nat, fields: Fields)
    requires from < end <= |raw|
    ensures more == HasValue(raw, end, Align8(from))
    ensures more ==> Cursor(pos, fields) == ValueAt(raw, order, end, Align8(from), before)
    ensures !more ==> fields == before
  {
    pos, fields := Align8(from), before;
    if pos >= end {
      return false, pos, fields;
    }
    var code := raw[pos];
    pos := pos + 1;
    if pos >= end {
      return false, pos, fields;
    }
    var sigLen: int := raw[pos];
    pos := pos + 1;
    if pos + sigLen >= end {
      return false, pos, fields;
    }
    var sig := raw[pos..pos + sigLen];
    pos := pos + sigLen + 1;
    pos, fields := ReadValue(raw, order, end, code, sig, pos, fields);
    more := true;
  }

  /** The loop over the field array `a(yv)`. */
  method ReadFields(raw: seq<byte>, order: Order, end: nat) returns (fields: Fields)
    requires 16 <= end <= |raw|
    ensures fields == ParseFrom(raw, order, end, 16, NO_FIELDS)
  {
    var pos := 16;
    fields := NO_FIELDS;
    while pos < end
      invariant ParseFrom(raw, order, end, pos, fields) == ParseFrom(raw, order, end, 16, NO_FIELDS)
      decreases end - pos
    {
      var more;
      more, pos, fields := ReadStruct(raw, order, end, pos, fields);
      if !more {
        break;
      }
    }
  }

  /** The header parser. It never reads outside `raw`, whatever lengths `raw` declares, and it
      terminates although `pos` may overshoot `end`. */
  method ParseHeader(raw: seq<byte>) returns (r: Result<Message, WireError>)
    ensures r == Parse(raw)
  {
    if |raw| < 16 {
      return Failure(ShortHeader);
    }
    var endian := raw[0];
    var order;
    if endian == LITTLE_MARK {
      order := Little;
    } else if endian == BIG_MARK {
      order := Big;
    } else {
      return Failure(BadEndian);
    }
    var end := FieldsEnd(raw, order);
    if end > |raw| {
      return Failure(FieldsTooLong);
    }
    var fields := ReadFields(raw, order, end);
    r := Success(MessageOf(raw, order, fields));
  }
}
