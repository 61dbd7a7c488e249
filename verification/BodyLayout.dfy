/** The layout of message bodies in plain bytes: texts and arrays of texts
    (container/dbus/router.go:618-649; container/dbus/wire.go:184-239; D-Bus Specification, section
    "Marshaling (Wire Format)"). */
module BodyLayout {
  import opened Bytes
  import opened Wrappers
  import opened Wire
  import opened Texts
  import opened NameLists

  function Body(m: Message): seq<byte>
    requires m.headerLength <= |m.raw|
  {
    m.raw[m.headerLength..]
  }

  /** A text on the wire: its length, its bytes and a final zero. */
  function OnWire(order: Order, t: Text): seq<byte>
    requires |t| < UINT32_LIMIT
  {
    Uint32Bytes(order, |t|) + t + [0]
  }

  lemma WireTextReads(order: Order, body: seq<byte>, at: nat, t: Text)
    requires |t| < UINT32_LIMIT && at + 5 + |t| <= |body| && body[at..at + 5 + |t|] == OnWire(order, t)
    ensures GetUint32(order, body, at) == |t| && body[at + 4..at + 4 + |t|] == t
  {
    hide Uint32Bytes, GetUint32;
    assert Wrap(|t|) == |t|;
    TextReads(order, body, at, t);
  }

  /** Two texts with up to three bytes between them, which bring the second to a boundary. */
  predicate TwoTexts(order: Order, b: seq<byte>, s: Text, pad: seq<byte>, t: Text) {
    && |s| < UINT32_LIMIT && |t| < UINT32_LIMIT && |pad| < 4 && (|s| + 5 + |pad|) % 4 == 0
    && b == OnWire(order, s) + pad + OnWire(order, t)
  }

  lemma TwoTextsStand(order: Order, head: seq<byte>, b: seq<byte>, s: Text, pad: seq<byte>, t: Text)
    requires TwoTexts(order, b, s, pad, t)
    ensures
      var second := |s| + 5 + |pad|;
      && |b| == second + 5 + |t|
      && (head + b)[|head|..|head| + 5 + |s|] == OnWire(order, s)
      && (head + b)[|head| + second..|head| + second + 5 + |t|] == OnWire(order, t)
  {
    hide Uint32Bytes;
    var first := OnWire(order, s);
    assert (head + b)[|head|..] == b;
    assert b[..|first|] == first && b[|first| + |pad|..] == OnWire(order, t);
    SliceOfSlice(head + b, |head|, |head + b|, 0, |first|);
    SliceOfSlice(head + b, |head|, |head + b|, |first| + |pad|, |b|);
  }

  lemma BoundaryAbove(k: nat, pad: nat)
    requires pad < 4 && pad <= 4 * k
    ensures Align4(4 * k - pad) == 4 * k
  {
    hide Align4;
    var a := Align4(4 * k - pad);
    assert a == 4 * (a / 4);
  }

  lemma NextBoundary(base: nat, n: nat, pad: nat)
    requires base % 4 == 0 && pad < 4 && (n + pad) % 4 == 0
    ensures Align4(base + n) == base + n + pad && Align4(base) == base
  {
    hide Align4;
    assert base == 4 * (base / 4) && n + pad == 4 * ((n + pad) / 4);
    BoundaryAbove(base / 4 + (n + pad) / 4, pad);
    BoundaryAbove(base / 4, 0);
  }

  /** A body of two texts holds these two, whatever the bytes between them are. */
  lemma TwoTextsLayout(m: Message, s: Text, pad: seq<byte>, t: Text)
    requires m.headerLength <= |m.raw| && TwoTexts(m.ByteOrder(), Body(m), s, pad, t)
    ensures BodyTexts(m) == [s, t] && FirstText(m) == s
  {
    hide GetUint32, OnWire, Align4, TextsFrom;
    var order, body := m.ByteOrder(), Body(m);
    TwoTextsStand(order, [], body, s, pad, t);
    assert [] + body == body;
    var second := |s| + 5 + |pad|;
    WireTextReads(order, body, 0, s);
    WireTextReads(order, body, second, t);
    NextBoundary(0, |s| + 5, |pad|);
    NextBoundary(second, 0, 0);
    TextsUnfold(order, body, 0);
    TextsUnfold(order, body, |s| + 5);
    TextsUnfold(order, body, |body|);
  }

  lemma TextsUnfold(order: Order, body: seq<byte>, pos: nat)
    ensures
      var a := Align4(pos);
      TextsFrom(order, body, pos) ==
        if pos + 4 > |body| || a + 4 > |body| || a + 5 + GetUint32(order, body, a) > |body| then []
        else [body[a + 4..a + 4 + GetUint32(order, body, a)]] + TextsFrom(order, body, a + 5 + GetUint32(order, body, a))
  {
    hide GetUint32, Align4;
  }

  /** A body that is too short for a length, or for the text and final zero that it announces, holds
      no text. */
  lemma NoTextLayout(m: Message)
    requires m.headerLength <= |m.raw|
    requires |Body(m)| < 4 || |Body(m)| < 5 + GetUint32(m.ByteOrder(), Body(m), 0)
    ensures BodyTexts(m) == [] && FirstText(m) == []
  {
    hide GetUint32;
  }

  lemma NamesUnfold(order: Order, body: seq<byte>, end: nat, pos: nat)
    requires end <= |body|
    ensures
      var a := Align4(pos);
      NamesFrom(order, body, end, pos) ==
        if pos >= end || a + 4 > end then Success([])
        else if a + 5 + GetUint32(order, body, a) > |body| then Failure(ShortText)
        else Prepend([body[a + 4..a + 4 + GetUint32(order, body, a)]], NamesFrom(order, body, end, a + 5 + GetUint32(order, body, a)))
  {
    hide GetUint32, Align4;
  }

  /** An array of two texts: its length in bytes, which does not count itself, then the texts. */
  lemma TwoNamesLayout(m: Message, s: Text, pad: seq<byte>, t: Text)
    requires m.headerLength <= |m.raw| && 4 <= |Body(m)| < UINT32_LIMIT
    requires Body(m)[..4] == Uint32Bytes(m.ByteOrder(), |Body(m)| - 4)
    requires TwoTexts(m.ByteOrder(), Body(m)[4..], s, pad, t)
    ensures ParseNames(m) == Success([s, t])
  {
    hide GetUint32, OnWire, Align4, NamesFrom, Uint32Bytes, TwoTexts;
    var order, body := m.ByteOrder(), Body(m);
    assert body == body[..4] + body[4..];
    TwoTextsStand(order, body[..4], body[4..], s, pad, t);
    PadFits(order, body[4..], s, pad, t);
    StoredUint32(order, |body| - 4, body, 0);
    var second := |s| + 9 + |pad|;
    WireTextReads(order, body, 4, s);
    WireTextReads(order, body, second, t);
    NextBoundary(4, |s| + 5, |pad|);
    NextBoundary(second, 0, 0);
    NamesUnfold(order, body, |body|, 4);
    NamesUnfold(order, body, |body|, |s| + 9);
    NamesUnfold(order, body, |body|, |body|);
    assert [s] + ([t] + []) == [s, t];
  }

  lemma PadFits(order: Order, b: seq<byte>, s: Text, pad: seq<byte>, t: Text)
    requires TwoTexts(order, b, s, pad, t)
    ensures |s| < UINT32_LIMIT && |t| < UINT32_LIMIT && |pad| < 4 && (|s| + 5 + |pad|) % 4 == 0 && (|s| + 9 + |pad|) % 4 == 0
  {
    assert |s| + 9 + |pad| == 4 * ((|s| + 5 + |pad|) / 4 + 1);
  }

  lemma TextFollows(order: Order, buf: seq<byte>, t: Text, pad: nat)
    requires |t| < UINT32_LIMIT && pad < 4 && (|buf| + pad) % 4 == 0
    ensures AppendText(order, buf, t) == buf + Zeros(pad) + OnWire(order, t)
  {
    hide Uint32Bytes, Align4, Zeros;
    NextBoundary(0, |buf|, pad);
    assert Wrap(|t|) == |t|;
  }

  lemma TwoTextsFollow(order: Order, s: Text, t: Text, pad: nat)
    requires |s| < UINT32_LIMIT && |t| < UINT32_LIMIT && pad < 4 && (|s| + 5 + pad) % 4 == 0
    ensures AppendTexts(order, [], [s, t]) == OnWire(order, s) + Zeros(pad) + OnWire(order, t)
  {
    hide AppendText;
    TextFollows(order, [], s, 0);
    assert [] + Zeros(0) + OnWire(order, s) == OnWire(order, s);
    TextFollows(order, OnWire(order, s), t, pad);
    assert [s, t][1..] == [t] && [t][1..] == [];
    assert AppendTexts(order, OnWire(order, s), [t]) == AppendText(order, OnWire(order, s), t);
  }

  /** What the encoder writes: four zeros for no name, and zeros between two names. */
  lemma EncodedLayout(order: Order, s: Text, t: Text, pad: nat)
    requires |s| + |t| < 0xFFFF_FF00 && pad < 4 && (|s| + 5 + pad) % 4 == 0
    ensures EncodeNames(order, []) == [0, 0, 0, 0]
    ensures
      EncodeNames(order, [s, t]) == Uint32Bytes(order, |s| + |t| + 10 + pad) + (OnWire(order, s) + Zeros(pad) + OnWire(order, t))
  {
    hide AppendTexts, Uint32Bytes, Zeros, Wrap, OnWire;
    NothingEncoded(order);
    TwoTextsFollow(order, s, t, pad);
    WiredSize(order, s);
    WiredSize(order, t);
    WrapKeeps(|s| + |t| + 10 + pad);
  }

  lemma NothingEncoded(order: Order)
    ensures EncodeNames(order, []) == [0, 0, 0, 0]
  {
    assert Uint32Bytes(order, 0) == [0, 0, 0, 0];
  }

  lemma WiredSize(order: Order, t: Text)
    requires |t| < UINT32_LIMIT
    ensures |OnWire(order, t)| == |t| + 5
  {
  }

  lemma PrependOne(name: Text)
    ensures Prepend([name], Success([])) == Success([name])
  {
    assert [name] + [] == [name];
  }

  /** An array is refused if it is missing, longer than the body, or ends in a text that is not
      complete in the body; a text that is complete in the body is taken although it leaves the array. */
  lemma BrokenListLayout(m: Message)
    ensures m.headerLength > |m.raw| ==> ParseNames(m).Failure?
    ensures m.headerLength <= |m.raw| && |Body(m)| < 4 ==> ParseNames(m).Failure?
    ensures
      m.headerLength <= |m.raw| && |Body(m)| >= 4 && 4 + GetUint32(m.ByteOrder(), Body(m), 0) > |Body(m)| ==> ParseNames(m).Failure?
    ensures
      m.headerLength <= |m.raw| && |Body(m)| >= 8 && 4 <= GetUint32(m.ByteOrder(), Body(m), 0) <= |Body(m)| - 4 ==>
        var declared, n := GetUint32(m.ByteOrder(), Body(m), 0), GetUint32(m.ByteOrder(), Body(m), 4);
        && (9 + n > |Body(m)| ==> ParseNames(m).Failure?)
        && (4 + declared <= 9 + n <= |Body(m)| ==> ParseNames(m) == Success([Body(m)[8..8 + n]]))
  {
    hide GetUint32, NamesFrom, Align4;
    if m.headerLength <= |m.raw| && |Body(m)| >= 8 && 4 <= GetUint32(m.ByteOrder(), Body(m), 0) <= |Body(m)| - 4 {
      var order, body := m.ByteOrder(), Body(m);
      NextBoundary(4, 0, 0);
      NamesUnfold(order, body, 4 + GetUint32(order, body, 0), 4);
      NamesUnfold(order, body, 4 + GetUint32(order, body, 0), 9 + GetUint32(order, body, 4));
      if 9 + GetUint32(order, body, 4) <= |body| {
        PrependOne(body[8..8 + GetUint32(order, body, 4)]);
      }
    }
  }
}
