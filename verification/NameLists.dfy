/** String arrays and the removal of duplicates (container/dbus/wire.go, `ParseStringArray` and
    `EncodeStringArray`; container/dbus/router.go, `uniqueStrings`). */
module NameLists {
  import opened Bytes
  import opened Wrappers
  import opened Wire
  import opened Texts

  datatype ArrayError = NoBody | ShortArray | ArrayTooLong | ShortText

  type Names = Result<seq<Text>, ArrayError>

  function Prepend(front: seq<Text>, rest: Names): Names {
    match rest
    case Success(names) => Success(front + names)
    case Failure(e) => Failure(e)
  }

  lemma PrependNothing(r: Names)
    ensures Prepend([], r) == r
  {
    if r.Success? {
      assert [] + r.value == r.value;
    }
  }

  lemma PrependTwice(a: seq<Text>, b: seq<Text>, r: Names)
    ensures Prepend(a, Prepend(b, r)) == Prepend(a + b, r)
  {
    if r.Success? {
      assert a + (b + r.value) == a + b + r.value;
    }
  }

  /** The elements of an array that ends at `end`, from `pos` on. */
  function NamesFrom(order: Order, body: seq<byte>, end: nat, pos: nat): Names
    requires end <= |body|
    decreases if pos < end then end - pos else 0
  {
    var a := Align4(pos);
    if pos >= end || a + 4 > end then Success([]) else
    var n := GetUint32(order, body, a);
    if a + 4 + n + 1 > |body| then Failure(ShortText)
    else Prepend([body[a + 4..a + 4 + n]], NamesFrom(order, body, end, a + 4 + n + 1))
  }

  function BodyNames(order: Order, body: seq<byte>): Names {
    if |body| < 4 then Failure(ShortArray)
    else if 4 + GetUint32(order, body, 0) > |body| then Failure(ArrayTooLong)
    else NamesFrom(order, body, 4 + GetUint32(order, body, 0), 4)
  }

  function ParseNames(m: Message): Names {
    if m.headerLength > |m.raw| then Failure(NoBody)
    else BodyNames(m.ByteOrder(), m.raw[m.headerLength..])
  }

  /** The loop over the elements. */
  method ReadNames(order: Order, body: seq<byte>, end: nat) returns (r: Names)
    requires 4 <= end <= |body|
    ensures r == NamesFrom(order, body, end, 4)
  {
    hide GetUint32;
    var pos := 4;
    var out: seq<Text> := [];
    PrependNothing(NamesFrom(order, body, end, 4));
    while pos < end
      invariant Prepend(out, NamesFrom(order, body, end, pos)) == NamesFrom(order, body, end, 4)
      decreases end - pos
    {
      pos := Align4(pos);
      if pos + 4 > end {
        break;
      }
      var strLen: int := GetUint32(order, body, pos);
      pos := pos + 4;
      if pos + strLen + 1 > |body| {
        return Failure(ShortText);
      }
      PrependTwice(out, [body[pos..pos + strLen]], NamesFrom(order, body, end, pos + strLen + 1));
      out := out + [body[pos..pos + strLen]];
      pos := pos + strLen + 1;
    }
    assert out + [] == out;
    return Success(out);
  }

  /** The decoder of `as` bodies. It never reads outside the body, whatever the body declares. */
  method ParseStringArray(m: Message) returns (r: Names)
    ensures r == ParseNames(m)
  {
    if m.headerLength as int > |m.raw| {
      return Failure(NoBody);
    }
    var body := m.raw[m.headerLength..];
    var order := m.ByteOrder();
    if |body| < 4 {
      return Failure(ShortArray);
    }
    var arrayLen: int := GetUint32(order, body, 0);
    var end := 4 + arrayLen;
    if end > |body| {
      return Failure(ArrayTooLong);
    }
    r := ReadNames(order, body, end);
  }

  function EncodeNames(order: Order, names: seq<Text>): seq<byte> {
    var inner := AppendTexts(order, [], names);
    Uint32Bytes(order, Wrap(|inner|)) + inner
  }

  /** The encoder's inner loop: alignment, length, bytes and terminating zero. */
  method AppendName(order: Order, inner: seq<byte>, name: Text) returns (r: seq<byte>)
    ensures r == AppendText(order, inner, name)
  {
    hide Uint32Bytes;
    r := inner;
    while |r| % 4 != 0
      invariant |inner| <= |r| <= Align4(|inner|) && r == inner + Zeros(|r| - |inner|)
      decreases Align4(|inner|) - |r|
    {
      r := r + [0];
    }
    ghost var padded := r;
    var lenbuf := NewUint32(order, Wrap(|name|));
    r := r + lenbuf;
    r := r + name;
    r := r + [0];
    assert r == padded + (Uint32Bytes(order, Wrap(|name|)) + name + [0]);
  }

  method EncodeStringArray(order: Order, names: seq<Text>) returns (r: seq<byte>)
    ensures r == EncodeNames(order, names)
  {
    hide AppendText, Uint32Bytes;
    var inner: seq<byte> := [];
    for i := 0 to |names|
      invariant inner == AppendTexts(order, [], names[..i])
    {
      AppendTextsLast(order, [], names[..i], names[i]);
      assert names[..i + 1] == names[..i] + [names[i]];
      inner := AppendName(order, inner, names[i]);
    }
    assert names[..|names|] == names;
    var out := new byte[4 + |inner|](_ => 0);
    PutUint32(order, out, 0, Wrap(|inner|));
    assert out[..4] == Uint32Bytes(order, Wrap(|inner|));
    CopyInto(out, 4, inner);
    r := out[..];
  }

  /** From any point of an encoded array on, the decoder returns the names that are left. */
  lemma {:induction false} NamesFromRoundTrip(order: Order, body: seq<byte>, buf: seq<byte>, names: seq<Text>)
    requires HoldsTexts(order, body, 4, buf, names) && |body| == 4 + |AppendTexts(order, buf, names)|
    ensures NamesFrom(order, body, |body|, 4 + |buf|) == Success(names)
    decreases |names|
  {
    hide AppendText, AppendTexts, HoldsTexts, GetUint32, Uint32Bytes;
    if names == [] {
      NoTextsLeft(order, body, 4, buf);
    } else {
      var a := Align4(4 + |buf|);
      TextStands(order, body, 4, buf, names);
      TextReads(order, body, a, names[0]);
      NamesFromRoundTrip(order, body, AppendText(order, buf, names[0]), names[1..]);
      assert [names[0]] + names[1..] == names;
    }
  }

  lemma {:induction false} TextsFitInWhole(order: Order, buf: seq<byte>, ts: seq<Text>, i: nat)
    requires i < |ts|
    ensures |ts[i]| < |AppendTexts(order, buf, ts)|
    decreases |ts|
  {
    TextsGrow(order, AppendText(order, buf, ts[0]), ts[1..]);
    if i > 0 {
      TextsFitInWhole(order, AppendText(order, buf, ts[0]), ts[1..], i - 1);
    }
  }

  /** String array round trip, in both byte orders: empty names, the empty list and every padding
      residue included. The one condition is that the array length fits its four bytes. */
  lemma NamesRoundTrip(order: Order, names: seq<Text>)
    requires |AppendTexts(order, [], names)| < UINT32_LIMIT
    ensures BodyNames(order, EncodeNames(order, names)) == Success(names)
  {
    hide AppendTexts, NamesFrom, GetUint32, Uint32Bytes;
    var inner := AppendTexts(order, [], names);
    var body := EncodeNames(order, names);
    assert Wrap(|inner|) == |inner|;
    assert body[0..4] == Uint32Bytes(order, |inner|);
    StoredUint32(order, |inner|, body, 0);
    assert body[4..4 + |inner|] == inner;
    forall i | 0 <= i < |names| ensures |names[i]| < UINT32_LIMIT {
      TextsFitInWhole(order, [], names, i);
    }
    NamesFromRoundTrip(order, body, [], names);
  }

  /** The list without later duplicates. */
  function Unique(xs: seq<Text>): (u: seq<Text>)
    decreases |xs|
  {
    if xs == [] then []
    else
      var u := Unique(xs[..|xs| - 1]);
      if xs[|xs| - 1] in u then u else u + [xs[|xs| - 1]]
  }

  method UniqueStrings(input: seq<Text>) returns (out: seq<Text>)
    ensures out == Unique(input)
  {
    var seen: set<Text> := {};
    out := [];
    for i := 0 to |input|
      invariant out == Unique(input[..i])
      invariant forall t :: t in seen <==> t in out
    {
      assert input[..i + 1][..i] == input[..i];
      var s := input[i];
      if s !in seen {
        seen := seen + {s};
        out := out + [s];
      }
    }
    assert input[..|input|] == input;
  }

  /** The position of the first occurrence. */
  function FirstIndex(xs: seq<Text>, x: Text): (i: nat)
    requires x in xs
    ensures i < |xs| && xs[i] == x && x !in xs[..i]
    decreases |xs|
  {
    if xs[0] == x then 0 else 1 + FirstIndex(xs[1..], x)
  }

  lemma FirstIndexOfPrefix(xs: seq<Text>, n: nat, x: Text)
    requires n <= |xs| && x in xs[..n]
    ensures x in xs && FirstIndex(xs, x) == FirstIndex(xs[..n], x) < n
  {
    var j := FirstIndex(xs[..n], x);
    assert xs[..n][..j] == xs[..j] && xs[j] == x;
  }

  /** `Unique` keeps every element once, in the order of first occurrences. */
  lemma {:induction false} UniqueKeepsFirsts(xs: seq<Text>)
    ensures forall x :: x in Unique(xs) <==> x in xs
    ensures
      forall i, j :: 0 <= i < j < |Unique(xs)| ==>
        Unique(xs)[i] != Unique(xs)[j] && FirstIndex(xs, Unique(xs)[i]) < FirstIndex(xs, Unique(xs)[j])
    decreases |xs|
  {
    if xs != [] {
      var n := |xs| - 1;
      UniqueKeepsFirsts(xs[..n]);
      var u := Unique(xs[..n]);
      assert xs == xs[..n] + [xs[n]];
      forall i | 0 <= i < |u| ensures u[i] in xs[..n] && FirstIndex(xs, u[i]) == FirstIndex(xs[..n], u[i]) < n {
        FirstIndexOfPrefix(xs, n, u[i]);
      }
      if xs[n] !in u {
        assert FirstIndex(xs, xs[n]) == n;
      }
    }
  }
}
