/** Marshalled texts in message bodies: the router's body decoder (container/dbus/router.go,
    `extractBodyStrings`) and the layout it shares with string arrays. */
module Texts {
  import opened Bytes
  import opened Wire

  /** One more text at the end of `buf`, aligned to four bytes. */
  function AppendText(order: Order, buf: seq<byte>, t: Text): seq<byte> {
    buf + Zeros(Align4(|buf|) - |buf|) + (Uint32Bytes(order, Wrap(|t|)) + t + [0])
  }

  function AppendTexts(order: Order, buf: seq<byte>, ts: seq<Text>): seq<byte>
    decreases |ts|
  {
    if ts == [] then buf else AppendTexts(order, AppendText(order, buf, ts[0]), ts[1..])
  }

  lemma {:induction false} TextsGrow(order: Order, buf: seq<byte>, ts: seq<Text>)
    ensures buf <= AppendTexts(order, buf, ts)
    decreases |ts|
  {
    if ts != [] {
      TextsGrow(order, AppendText(order, buf, ts[0]), ts[1..]);
    }
  }

  lemma {:induction false} AppendTextsLast(order: Order, buf: seq<byte>, ts: seq<Text>, t: Text)
    ensures AppendTexts(order, buf, ts + [t]) == AppendText(order, AppendTexts(order, buf, ts), t)
    decreases |ts|
  {
    hide AppendText;
    if ts == [] {
      assert (ts + [t])[1..] == [];
    } else {
      assert (ts + [t])[1..] == ts[1..] + [t];
      AppendTextsLast(order, AppendText(order, buf, ts[0]), ts[1..], t);
    }
  }

  /** From `base` on, `body` holds `ts` appended to `buf`. */
  ghost predicate HoldsTexts(order: Order, body: seq<byte>, base: nat, buf: seq<byte>, ts: seq<Text>) {
    && base % 4 == 0
    && (forall i :: 0 <= i < |ts| ==> |ts[i]| < UINT32_LIMIT)
    && base + |AppendTexts(order, buf, ts)| <= |body|
    && body[base..base + |AppendTexts(order, buf, ts)|] == AppendTexts(order, buf, ts)
  }

  lemma NoTextsLeft(order: Order, body: seq<byte>, base: nat, buf: seq<byte>)
    requires HoldsTexts(order, body, base, buf, [])
    ensures base + |AppendTexts(order, buf, [])| == base + |buf| <= |body|
  {
  }

  lemma TextPlace(order: Order, base: nat, buf: seq<byte>, t: Text)
    requires base % 4 == 0
    ensures
      var a := Align4(base + |buf|);
      var next := AppendText(order, buf, t);
      && base + |buf| <= a
      && a + 4 + |t| + 1 == base + |next|
      && next[a - base..] == Uint32Bytes(order, Wrap(|t|)) + t + [0]
  {
    hide Uint32Bytes;
    assert Align4(base + |buf|) == base + Align4(|buf|);
  }

  /** The first text stands at the next boundary, the others behind it. */
  lemma TextStands(order: Order, body: seq<byte>, base: nat, buf: seq<byte>, ts: seq<Text>)
    requires ts != [] && HoldsTexts(order, body, base, buf, ts)
    ensures
      var a := Align4(base + |buf|);
      var next := AppendText(order, buf, ts[0]);
      && |ts[0]| < UINT32_LIMIT
      && HoldsTexts(order, body, base, next, ts[1..])
      && AppendTexts(order, next, ts[1..]) == AppendTexts(order, buf, ts)
      && base + |buf| <= a
      && a + 4 + |ts[0]| + 1 == base + |next| <= base + |AppendTexts(order, buf, ts)| <= |body|
      && body[a..a + 4 + |ts[0]| + 1] == Uint32Bytes(order, Wrap(|ts[0]|)) + ts[0] + [0]
  {
    hide Uint32Bytes, Align4, AppendText;
    var a := Align4(base + |buf|);
    var next := AppendText(order, buf, ts[0]);
    TextsGrow(order, next, ts[1..]);
    TextPlace(order, base, buf, ts[0]);
    SliceOfSlice(body, base, base + |AppendTexts(order, buf, ts)|, a - base, |next|);
    assert AppendTexts(order, buf, ts)[..|next|] == next;
  }

  lemma TextReads(order: Order, body: seq<byte>, at: nat, t: Text)
    requires |t| < UINT32_LIMIT && at + 4 + |t| + 1 <= |body|
    requires body[at..at + 4 + |t| + 1] == Uint32Bytes(order, Wrap(|t|)) + t + [0]
    ensures GetUint32(order, body, at) == |t|
    ensures body[at + 4..at + 4 + |t|] == t
  {
    hide Uint32Bytes, GetUint32;
    assert Wrap(|t|) == |t|;
    var s := body[at..at + 4 + |t| + 1];
    assert s == Uint32Bytes(order, |t|) + (t + [0]);
    SliceOfSlice(body, at, at + 4 + |t| + 1, 0, 4);
    SliceOfSlice(body, at, at + 4 + |t| + 1, 4, 4 + |t|);
    StoredUint32(order, |t|, body, at);
  }

  /** The texts that the decoder finds in a body from `pos` on. */
  function TextsFrom(order: Order, body: seq<byte>, pos: nat): seq<Text>
    decreases |body| - pos
  {
    var a := Align4(pos);
    if pos + 4 > |body| || a + 4 > |body| then [] else
    var n := GetUint32(order, body, a);
    if a + 4 + n + 1 > |body| then []
    else [body[a + 4..a + 4 + n]] + TextsFrom(order, body, a + 4 + n + 1)
  }

  function BodyTexts(m: Message): seq<Text> {
    if m.headerLength + 4 > |m.raw| then [] else TextsFrom(m.ByteOrder(), m.raw[m.headerLength..], 0)
  }

  function FirstText(m: Message): Text {
    if BodyTexts(m) == [] then [] else BodyTexts(m)[0]
  }

  /** Whether another text begins at the boundary behind `pos`, and whether it is complete. */
  predicate HasText(order: Order, body: seq<byte>, pos: nat) {
    var a := Align4(pos);
    pos + 4 <= |body| && a + 4 <= |body| && a + 4 + GetUint32(order, body, a) + 1 <= |body|
  }

  lemma TextsStep(order: Order, body: seq<byte>, pos: nat, out: seq<Text>)
    requires HasText(order, body, pos)
    ensures
      var a := Align4(pos);
      var n := GetUint32(order, body, a);
      out + TextsFrom(order, body, pos) == out + [body[a + 4..a + 4 + n]] + TextsFrom(order, body, a + 4 + n + 1)
  {
    hide GetUint32;
    var a := Align4(pos);
    var n := GetUint32(order, body, a);
    var text, rest := body[a + 4..a + 4 + n], TextsFrom(order, body, a + 4 + n + 1);
    assert TextsFrom(order, body, pos) == [text] + rest;
    assert out + ([text] + rest) == out + [text] + rest;
  }

  lemma TextsStop(order: Order, body: seq<byte>, pos: nat, out: seq<Text>)
    requires !HasText(order, body, pos)
    ensures out + TextsFrom(order, body, pos) == out
  {
  }

  /** The decoder's loop. */
  method ReadTexts(order: Order, body: seq<byte>) returns (out: seq<Text>)
    ensures out == TextsFrom(order, body, 0)
  {
    hide GetUint32, TextsFrom;
    out := [];
    var pos := 0;
    assert [] + TextsFrom(order, body, 0) == TextsFrom(order, body, 0);
    while pos + 4 <= |body|
      invariant out + TextsFrom(order, body, pos) == TextsFrom(order, body, 0)
      decreases |body| - pos
    {
      ghost var before := pos;
      pos := Align4(pos);
      if pos + 4 > |body| {
        TextsStop(order, body, before, out);
        return;
      }
      var strLen: int := GetUint32(order, body, pos);
      pos := pos + 4;
      if pos + strLen + 1 > |body| {
        TextsStop(order, body, before, out);
        return;
      }
      TextsStep(order, body, before, out);
      out := out + [body[pos..pos + strLen]];
      pos := pos + strLen + 1;
    }
    TextsStop(order, body, pos, out);
  }

  /** The body decoder. It never reads outside the body, whatever lengths the body declares. */
  method ExtractBodyStrings(m: Message) returns (out: seq<Text>)
    ensures out == BodyTexts(m)
  {
    if m.headerLength as int + 4 > |m.raw| {
      return [];
    }
    out := ReadTexts(m.ByteOrder(), m.raw[m.headerLength..]);
  }

  method ExtractFirstStringArg(m: Message) returns (t: Text)
    ensures t == FirstText(m)
  {
    var stringsInBody := ExtractBodyStrings(m);
    if |stringsInBody| == 0 {
      return [];
    }
    return stringsInBody[0];
  }

  /** A body that consists of k aligned texts decodes to exactly those k texts. */
  lemma {:induction false} TextsRoundTrip(order: Order, body: seq<byte>, buf: seq<byte>, ts: seq<Text>)
    requires HoldsTexts(order, body, 0, buf, ts) && |body| == |AppendTexts(order, buf, ts)|
    ensures TextsFrom(order, body, |buf|) == ts
    decreases |ts|
  {
    hide AppendText, AppendTexts, HoldsTexts, GetUint32, Uint32Bytes;
    if ts == [] {
      NoTextsLeft(order, body, 0, buf);
    } else {
      var a := Align4(|buf|);
      TextStands(order, body, 0, buf, ts);
      TextReads(order, body, a, ts[0]);
      TextsRoundTrip(order, body, AppendText(order, buf, ts[0]), ts[1..]);
    }
  }

  /** A body that begins with a marshalled text has that text first, whatever follows it. */
  lemma FirstTextReads(m: Message, t: Text, rest: seq<byte>)
    requires |t| < UINT32_LIMIT && m.headerLength <= |m.raw|
    requires m.raw[m.headerLength..] == Uint32Bytes(m.ByteOrder(), Wrap(|t|)) + t + [0] + rest
    ensures BodyTexts(m) != [] && FirstText(m) == t
  {
    hide Uint32Bytes, GetUint32;
    var body := m.raw[m.headerLength..];
    assert body[0..0 + 4 + |t| + 1] == Uint32Bytes(m.ByteOrder(), Wrap(|t|)) + t + [0];
    TextReads(m.ByteOrder(), body, 0, t);
  }
}
