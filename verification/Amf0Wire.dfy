/** The bytes of AMF0 values as sections 2.2 to 2.11 of the AMF 0 specification lay them out. */
module Amf0Wire {
  import opened Common
  import opened Octets
  import opened Amf0
  import opened Amf0Serializer

  /** `w` is the form of `v` on the wire. */
  ghost predicate OnWire(v: Value, w: Text)
    decreases v, 1
  {
    match v
    case Number(bits) => |w| == 9 && w[0] == 0x00 && Number64(w[1..]) == bits
    case Boolean(b) => w == [0x01, if b then 1 else 0]
    case String(s) => |w| == 3 + |s| && w[0] == 0x02 && Number16(w[1..3]) == |s| && w[3..] == s
    case Null => w == [0x05]
    case Object(order, _) => |w| >= 4 && w[0] == 0x03 && Closed(w) && OnWireFields(v, order, w[1..|w| - 3])
    case EcmaArray(elements) =>
      && |w| >= 8 && w[0] == 0x08 && Number32(w[1..5]) == |elements| && Closed(w)
      && OnWireFields(v, Keys(elements.Keys), w[5..|w| - 3])
  }

  predicate Closed(w: Text)
    requires |w| >= 3
  {
    w[|w| - 3..] == [0x00, 0x00, 0x09]
  }

  /** One key and value after the other: two bytes of key size, the key, the value. */
  ghost predicate OnWireFields(v: Value, ks: seq<Text>, w: Text)
    decreases v, 0, |ks|
  {
    if ks == [] then w == []
    else exists n: nat :: StartsWithField(v, ks[0], w, n) && OnWireFields(v, ks[1..], w[n..])
  }

  /** The first `n` bytes of `w` are the key `k` and its value. */
  ghost predicate StartsWithField(v: Value, k: Text, w: Text, n: nat)
    decreases v, 0, 0
  {
    && 2 + |k| <= n <= |w| && Number16(w[..2]) == |k| && w[2..2 + |k|] == k
    && k in Props(v) && OnWire(Props(v)[k], w[2 + |k|..n])
  }

  /** Serialize writes every value in its form on the wire. */
  lemma {:induction false} EncodedOnWire(v: Value)
    requires WellFormed(v)
    ensures OnWire(v, Encode(v))
    decreases v, 1
  {
    Widths();
    if v.Object? {
      FieldsOnWire(v, v.order);
      ObjectOnWire(v, EncodeFields(v, v.order));
    } else if v.EcmaArray? {
      var ks := Keys(v.elements.Keys);
      FieldsOnWire(v, ks);
      BigEndian4(|v.elements|);
      ArrayOnWire(v, ToBytes(|v.elements|, 4), EncodeFields(v, ks));
    } else {
      ScalarOnWire(v);
    }
  }

  lemma ScalarOnWire(v: Value)
    requires WellFormed(v) && !v.Object? && !v.EcmaArray?
    ensures OnWire(v, Encode(v))
  {
    Widths();
    if v.Number? {
      BigEndian8(v.bits);
      assert Encode(v)[1..] == ToBytes(v.bits, 8);
    } else if v.String? {
      BigEndian2(|v.s|);
      assert Encode(v)[1..3] == ToBytes(|v.s|, 2) && Encode(v)[3..] == v.s;
    }
  }

  lemma ObjectOnWire(v: Value, body: Text)
    requires v.Object? && OnWireFields(v, v.order, body)
    ensures OnWire(v, [0x03] + (body + END))
  {
    Framed([0x03], body);
  }

  lemma Framed(head: Text, body: Text)
    ensures var w := head + (body + END);
            |w| >= |head| + 3 && Closed(w) && w[|head|..|w| - 3] == body && w[..|head|] == head
  {
    var w := head + (body + END);
    assert w[|w| - 3..] == END;
  }

  lemma Counted(count: Text, body: Text)
    requires |count| == 4
    ensures var w := [0x08] + (count + (body + END));
            |w| >= 8 && w[0] == 0x08 && w[1..5] == count && Closed(w) && w[5..|w| - 3] == body
  {
    var head, w := [0x08] + count, [0x08] + (count + (body + END));
    Framed(head, body);
    assert w == head + (body + END);
  }

  lemma ArrayOnWire(v: Value, count: Text, body: Text)
    requires v.EcmaArray? && OnWireFields(v, Keys(v.elements.Keys), body)
    requires |count| == 4 && Number32(count) == |v.elements|
    ensures OnWire(v, [0x08] + (count + (body + END)))
  {
    Counted(count, body);
  }

  lemma {:induction false} FieldsOnWire(v: Value, ks: seq<Text>)
    requires PropsOk(v) && forall k :: k in ks ==> k in Props(v)
    ensures OnWireFields(v, ks, EncodeFields(v, ks))
    decreases v, 0, |ks|
  {
    if ks != [] {
      var k := ks[0];
      assert k in ks;
      EncodedOnWire(Props(v)[k]);
      FieldsOnWire(v, ks[1..]);
      FieldOnWire(v, ks, EncodeFields(v, ks[1..]));
    }
  }

  lemma Sliced(size: Text, k: Text, value: Text, rest: Text)
    requires |size| == 2
    ensures var w, n := (size + k) + (value + rest), 2 + |k| + |value|;
            n <= |w| && w[..2] == size && w[2..2 + |k|] == k && w[2 + |k|..n] == value && w[n..] == rest
  {
  }

  lemma FieldBytes(k: Text, value: Text, rest: Text) returns (w: Text, n: nat)
    requires |k| < 0x1_0000
    ensures w == (ToBytes(|k|, 2) + k) + (value + rest) && 2 + |k| <= n <= |w|
    ensures Number16(w[..2]) == |k| && w[2..2 + |k|] == k && w[2 + |k|..n] == value && w[n..] == rest
  {
    w, n := (ToBytes(|k|, 2) + k) + (value + rest), 2 + |k| + |value|;
    BigEndian2(|k|);
    Sliced(ToBytes(|k|, 2), k, value, rest);
  }

  lemma FieldOnWire(v: Value, ks: seq<Text>, rest: Text)
    requires ks != [] && PropsOk(v) && (forall k :: k in ks ==> k in Props(v)) && rest == EncodeFields(v, ks[1..])
    requires OnWire(Props(v)[ks[0]], Encode(Props(v)[ks[0]])) && OnWireFields(v, ks[1..], rest)
    ensures OnWireFields(v, ks, EncodeFields(v, ks))
  {
    Widths();
    var w, n := FieldBytes(ks[0], Encode(Props(v)[ks[0]]), rest);
    KeyOnWire(v, ks, w, n);
    assert w == EncodeFields(v, ks);
  }

  lemma KeyOnWire(v: Value, ks: seq<Text>, w: Text, n: nat)
    requires ks != [] && ks[0] in Props(v) && 2 + |ks[0]| <= n <= |w|
    requires Number16(w[..2]) == |ks[0]| && w[2..2 + |ks[0]|] == ks[0]
    requires OnWire(Props(v)[ks[0]], w[2 + |ks[0]|..n]) && OnWireFields(v, ks[1..], w[n..])
    ensures OnWireFields(v, ks, w)
  {
    FieldStarts(v, ks[0], w, n);
    FieldsGoOn(v, ks, w, n);
  }

  lemma FieldStarts(v: Value, k: Text, w: Text, n: nat)
    requires 2 + |k| <= n <= |w| && k in Props(v)
    requires Number16(w[..2]) == |k| && w[2..2 + |k|] == k && OnWire(Props(v)[k], w[2 + |k|..n])
    ensures StartsWithField(v, k, w, n)
  {
  }

  lemma FieldsGoOn(v: Value, ks: seq<Text>, w: Text, n: nat)
    requires ks != [] && n <= |w| && StartsWithField(v, ks[0], w, n) && OnWireFields(v, ks[1..], w[n..])
    ensures OnWireFields(v, ks, w)
  {
  }

  // ---------- What the parser refuses ----------

  /** A value begins with one of the six markers; any other first byte is an exception. */
  lemma MarkersKnown(data: Text)
    requires |data| > 0
    ensures data[0] !in {0x00, 0x01, 0x02, 0x03, 0x05, 0x08} ==> Received(None, data).Thrown?
    ensures Received(None, data[..1]).Ok? <==> data[0] in {0x00, 0x01, 0x02, 0x03, 0x05, 0x08}
  {
    assert data[..1][0] == data[0];
  }

  /** Behind an empty key only the end marker is accepted, and it completes the object or array. */
  lemma EndMarkerRequired(n: Node, b: Byte)
    requires Holding(n) && Open(n) && CharsParsed(n.fields.key) && n.fields.key.size.value == 0
    ensures FeedNode(n, b).Ok? <==> b == 0x09
    ensures b == 0x09 ==> Parsed(FeedNode(n, b).value) && ValueOf(FeedNode(n, b).value) == ValueOf(n)
  {
    HoldingFeeds(n, b);
  }
}
