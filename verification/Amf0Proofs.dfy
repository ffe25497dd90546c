/** The AMF0 round trip: every value, cut into any pieces, comes back from the incremental parser. */
module Amf0Proofs {
  import opened Common
  import opened Octets
  import opened Amf0
  import opened Amf0Serializer

  // ---------- Eating every byte ----------

  /** The node after all of `w`; a byte left over once it is complete counts as a failure. */
  function Eat(n: Node, w: Text): (r: Fed<Node>)
    requires Parsed(n) || Open(n)
    ensures r.Ok? ==> Parsed(r.value) || Open(r.value)
    decreases |w|
  {
    if w == [] then Ok(n)
    else if Parsed(n) then Thrown
    else
      match FeedNode(n, w[0])
      case Thrown => Thrown
      case Ok(n') => Eat(n', w[1..])
  }

  function EatParser(p: Option<Node>, w: Text): (r: Fed<Node>)
    requires w != [] && (p.Some? ==> Open(p.value))
    ensures r.Ok? ==> Parsed(r.value) || Open(r.value)
  {
    match FeedParser(p, w[0])
    case Thrown => Thrown
    case Ok(n) => Eat(n, w[1..])
  }

  lemma {:induction false} EatAppend(n: Node, a: Text, b: Text)
    requires Parsed(n) || Open(n)
    ensures Eat(n, a + b) == match Eat(n, a) case Thrown => Thrown case Ok(m) => Eat(m, b)
    decreases |a|
  {
    if a == [] {
      assert a + b == b;
    } else {
      assert (a + b)[1..] == a[1..] + b;
      if !Parsed(n) && FeedNode(n, a[0]).Ok? {
        EatAppend(FeedNode(n, a[0]).value, a[1..], b);
      }
    }
  }

  // ---------- Integers and strings ----------

  function EatUint(u: Uint, w: Text): Uint
    requires |w| <= u.len
    decreases |w|
  {
    if w == [] then u else EatUint(FeedUint(u, w[0]), w[1..])
  }

  lemma {:induction false} EatUintLast(u: Uint, w: Text, b: Byte)
    requires |w| < u.len
    ensures EatUint(u, w).len > 0 && EatUint(u, w + [b]) == FeedUint(EatUint(u, w), b)
    decreases |w|
  {
    if w == [] {
      assert w + [b] == [b] && [b][1..] == [];
    } else {
      assert (w + [b])[1..] == w[1..] + [b];
      EatUintLast(FeedUint(u, w[0]), w[1..], b);
    }
  }

  lemma {:induction false} ShiftedAdds(a: nat, b: nat, n: nat)
    ensures Shifted(a, n) + Shifted(b, n) == Shifted(a + b, n)
  {
    if n > 0 {
      ShiftedAdds(a, b, n - 1);
    }
  }

  lemma {:induction false} ShiftedOnce(a: nat, n: nat)
    ensures Shifted(a, n + 1) == Shifted(256 * a, n)
  {
    if n > 0 {
      ShiftedOnce(a, n - 1);
    }
  }

  /** The `n` high bytes of a number of `n + k` bytes. */
  lemma {:induction false} HighBytes(n: nat, k: nat, value: nat, x: nat)
    requires x < Pow256(n)
    ensures EatUint(Uint(n + k, value), ToBytes(x, n)) == Uint(k, value + Shifted(x, k))
    decreases n
  {
    if n == 0 {
      ShiftedAdds(0, 0, k);
    } else {
      HighBytes(n - 1, k + 1, value, x / 256);
      EatUintLast(Uint(n + k, value), ToBytes(x / 256, n - 1), x % 256);
      ShiftedOnce(x / 256, k);
      ShiftedAdds(256 * (x / 256), x % 256, k);
    }
  }

  /** The bytes of `x` add `x` to what the parser holds. */
  lemma UintDecodes(u: Uint, x: nat)
    requires x < Pow256(u.len)
    ensures EatUint(u, ToBytes(x, u.len)) == Uint(0, u.value + x)
  {
    HighBytes(u.len, 0, u.value, x);
  }

  lemma {:induction false} NumberEats(u: Uint, w: Text)
    requires |w| <= u.len
    ensures Eat(NumberNode(u), w) == Ok(NumberNode(EatUint(u, w)))
    decreases |w|
  {
    if w != [] {
      NumberEats(FeedUint(u, w[0]), w[1..]);
    }
  }

  lemma {:induction false} CountEats(n: Node, w: Text)
    requires n.ArrayNode? && OpenFields(n.fields) && Open(n) && |w| <= n.num.len
    ensures Eat(n, w) == Ok(n.(num := EatUint(n.num, w)))
    decreases |w|
  {
    if w != [] {
      var n1 := n.(num := FeedUint(n.num, w[0]));
      assert FeedNode(n, w[0]) == Ok(n1);
      CountEats(n1, w[1..]);
    }
  }

  /** A string parser given all of `w`, none of it in excess. */
  function EatChars(c: Chars, w: Text): Fed<Chars>
    decreases |w|
  {
    if w == [] then Ok(c) else if CharsParsed(c) then Thrown else EatChars(FeedChars(c, w[0]), w[1..])
  }

  lemma {:induction false} SizeEats(c: Chars, w: Text, s: Text)
    requires |w| == c.size.len
    ensures EatChars(c, w + s) == EatChars(c.(size := EatUint(c.size, w)), s)
    decreases |w|
  {
    if w == [] {
      assert w + s == s;
    } else {
      assert (w + s)[1..] == w[1..] + s;
      SizeEats(FeedChars(c, w[0]), w[1..], s);
    }
  }

  lemma {:induction false} BytesEat(c: Chars, s: Text)
    requires c.size.len == 0 && |c.bytes| + |s| <= c.size.value
    ensures EatChars(c, s) == Ok(c.(bytes := c.bytes + s))
    decreases |s|
  {
    if s == [] {
      assert c.bytes + s == c.bytes;
    } else {
      BytesEat(FeedChars(c, s[0]), s[1..]);
      assert c.bytes + [s[0]] + s[1..] == c.bytes + s;
    }
  }

  /** A size-prefixed string is read back whole. */
  lemma CharsDecode(n: nat, s: Text)
    requires |s| < Pow256(n)
    ensures EatChars(Chars(Uint(n, 0), []), ToBytes(|s|, n) + s) == Ok(Chars(Uint(0, |s|), s))
  {
    SizeEats(Chars(Uint(n, 0), []), ToBytes(|s|, n), s);
    UintDecodes(Uint(n, 0), |s|);
    BytesEat(Chars(Uint(0, |s|), []), s);
    assert [] + s == s;
  }

  lemma {:induction false} StringEats(c: Chars, w: Text)
    ensures Eat(StringNode(c), w) == match EatChars(c, w) case Thrown => Thrown case Ok(c') => Ok(StringNode(c'))
    decreases |w|
  {
    if w != [] && !CharsParsed(c) {
      StringEats(FeedChars(c, w[0]), w[1..]);
    }
  }

  lemma {:induction false} KeyEats(n: Node, w: Text)
    requires Holding(n) && Open(n) && EatChars(n.fields.key, w).Ok?
    ensures OpenFields(n.fields.(key := EatChars(n.fields.key, w).value))
    ensures Eat(n, w) == Ok(With(n, n.fields.(key := EatChars(n.fields.key, w).value)))
    decreases |w|
  {
    if w != [] {
      HoldingFeeds(n, w[0]);
      KeyEats(With(n, n.fields.(key := FeedChars(n.fields.key, w[0]))), w[1..]);
    }
  }

  // ---------- Values inside holders ----------

  /** A holder whose key is known follows its value byte by byte, and attaches it at the last. */
  lemma {:induction false} ValueEats(n: Node, w: Text)
    requires Holding(n) && Open(n) && w != [] && CharsParsed(n.fields.key) && n.fields.key.size.value > 0
    requires (n.fields.parser.Some? ==> Open(n.fields.parser.value)) && EatParser(n.fields.parser, w).Ok?
    ensures OpenFields(Attach(n.fields, EatParser(n.fields.parser, w).value))
    ensures Eat(n, w) == Ok(With(n, Attach(n.fields, EatParser(n.fields.parser, w).value)))
    decreases |w|
  {
    HoldingFeeds(n, w[0]);
    var m := FeedParser(n.fields.parser, w[0]).value;
    AttachOpens(n.fields, m);
    AttachOpens(n.fields, EatParser(n.fields.parser, w).value);
    var n1 := With(n, Attach(n.fields, m));
    if |w| > 1 {
      assert Eat(m, w[1..]) == EatParser(Some(m), w[1..]);
      ValueEats(n1, w[1..]);
    } else {
      assert w[1..] == [];
    }
  }

  /** A holder between two properties. */
  predicate AtKey(n: Node) {
    Holding(n) && Open(n) && n.fields.key == NO_CHARS && n.fields.parser == None
  }

  function Added(f: Fields, k: Text, v: Value): Fields {
    f.(order := f.order + [k], props := f.props[k := v])
  }

  function AllAdded(f: Fields, v: Value, ks: seq<Text>): Fields
    requires forall k :: k in ks ==> k in Props(v)
    decreases |ks|
  {
    if ks == [] then f else AllAdded(Added(f, ks[0], Props(v)[ks[0]]), v, ks[1..])
  }

  /** `m` is what the parser makes of the bytes of `v`. */
  ghost predicate Decodes(v: Value)
    requires WellFormed(v)
  {
    var w := Encode(v);
    w != [] && EatParser(None, w).Ok? && Parsed(EatParser(None, w).value) && ValueOf(EatParser(None, w).value) == v
  }

  ghost predicate PropsDecode(v: Value)
    requires PropsOk(v)
  {
    forall k :: k in Props(v) ==> Decodes(Props(v)[k])
  }

  lemma FieldDecodes(n: Node, k: Text, v: Value, rest: Text)
    requires AtKey(n) && 0 < |k| < Pow256(2) && WellFormed(v) && Decodes(v)
    ensures AtKey(With(n, Added(n.fields, k, v)))
    ensures Eat(n, (ToBytes(|k|, 2) + k) + (Encode(v) + rest)) == Eat(With(n, Added(n.fields, k, v)), rest)
  {
    var kb, vb := ToBytes(|k|, 2) + k, Encode(v);
    CharsDecode(2, k);
    KeyEats(n, kb);
    EatAppend(n, kb, vb + rest);
    var n1 := With(n, n.fields.(key := Chars(Uint(0, |k|), k)));
    ValueEats(n1, vb);
    EatAppend(n1, vb, rest);
  }

  lemma {:induction false} ZeroBytes(n: nat)
    ensures forall i :: 0 <= i < n ==> ToBytes(0, n)[i] == 0
  {
    if n > 0 {
      ZeroBytes(n - 1);
    }
  }

  lemma EmptyKey(n: nat, w: Text)
    requires |w| == n && forall i :: 0 <= i < n ==> w[i] == 0
    ensures EatChars(Chars(Uint(n, 0), []), w) == Ok(Chars(Uint(0, 0), []))
  {
    ZeroBytes(n);
    CharsDecode(n, []);
    assert ToBytes(0, n) + [] == w;
  }

  function Ended(f: Fields): Fields {
    f.(key := Chars(Uint(0, 0), []), marker := true)
  }

  lemma EndEats(n: Node, w: Text)
    requires AtKey(n) && |w| == 3 && w[0] == w[1] == 0 && w[2] == OBJECT_END_MARKER
    ensures Eat(n, w) == Ok(n.(fields := Ended(n.fields)))
  {
    EmptyKey(2, w[..2]);
    assert w == w[..2] + w[2..];
    KeyEats(n, w[..2]);
    EatAppend(n, w[..2], w[2..]);
    MarkerEats(With(n, n.fields.(key := Chars(Uint(0, 0), []))), w[2..]);
  }

  lemma MarkerEats(n: Node, w: Text)
    requires Holding(n) && Open(n) && n.fields.key == Chars(Uint(0, 0), []) && |w| == 1 && w[0] == OBJECT_END_MARKER
    ensures Eat(n, w) == Ok(n.(fields := n.fields.(marker := true)))
  {
    HoldingFeeds(n, OBJECT_END_MARKER);
  }

  lemma {:induction false} FieldsDecode(v: Value, ks: seq<Text>, n: Node)
    requires PropsOk(v) && (forall k :: k in ks ==> k in Props(v)) && AtKey(n)
    requires forall k :: k in ks ==> Decodes(Props(v)[k])
    ensures AtKey(With(n, AllAdded(n.fields, v, ks)))
    ensures Eat(n, EncodeFields(v, ks)) == Ok(With(n, AllAdded(n.fields, v, ks)))
    decreases |ks|
  {
    if ks != [] {
      var k := ks[0];
      assert k in ks;
      FieldDecodes(n, k, Props(v)[k], EncodeFields(v, ks[1..]));
      FieldsDecode(v, ks[1..], With(n, Added(n.fields, k, Props(v)[k])));
    }
  }

  lemma {:induction false} AllAddedIs(f: Fields, v: Value, ks: seq<Text>)
    requires forall k :: k in ks ==> k in Props(v)
    ensures var g := AllAdded(f, v, ks);
            && g.order == f.order + ks
            && g.props.Keys == f.props.Keys + (set k | k in ks)
            && (forall k :: k in ks ==> g.props[k] == Props(v)[k])
            && (forall k :: k in f.props && k !in ks ==> g.props[k] == f.props[k])
    decreases |ks|
  {
    if ks == [] {
      assert f.order + ks == f.order;
    } else {
      AllAddedIs(Added(f, ks[0], Props(v)[ks[0]]), v, ks[1..]);
      assert f.order + [ks[0]] + ks[1..] == f.order + ks;
      assert forall k :: k in ks <==> k == ks[0] || k in ks[1..];
    }
  }

  lemma ListingRestores(v: Value, ks: seq<Text>)
    requires Lists(ks, Props(v).Keys)
    ensures AllAdded(NO_FIELDS, v, ks).order == ks && AllAdded(NO_FIELDS, v, ks).props == Props(v)
  {
    AllAddedIs(NO_FIELDS, v, ks);
    assert NO_FIELDS.order + ks == ks;
    assert AllAdded(NO_FIELDS, v, ks).props.Keys == Props(v).Keys;
  }

  lemma HolderDecodes(v: Value, ks: seq<Text>, n: Node)
    requires PropsOk(v) && Lists(ks, Props(v).Keys) && AtKey(n) && n.fields == NO_FIELDS
    requires PropsDecode(v)
    ensures Eat(n, EncodeFields(v, ks) + END) == Ok(n.(fields := Ended(AllAdded(NO_FIELDS, v, ks))))
  {
    EatAppend(n, EncodeFields(v, ks), END);
    FieldsDecode(v, ks, n);
    EndEats(With(n, AllAdded(n.fields, v, ks)), END);
  }

  lemma ScalarDecodes(v: Value)
    requires WellFormed(v) && !v.Object? && !v.EcmaArray?
    ensures Decodes(v)
  {
    var w := Encode(v);
    match v
    case Number(bits) =>
      UintDecodes(Uint(8, 0), bits);
      NumberEats(Uint(8, 0), ToBytes(bits, 8));
      assert w[1..] == ToBytes(bits, 8);
    case Boolean(b) =>
      assert w[1..] == [w[1]] && w[1..][1..] == [];
    case String(s) =>
      assert w[1..] == ToBytes(|s|, 2) + s;
      CharsDecode(2, s);
      StringEats(NO_CHARS, w[1..]);
    case Null =>
      assert w[1..] == [];
  }

  lemma ObjectDecodes(v: Value, n: Node)
    requires WellFormed(v) && v.Object? && PropsOk(v) && PropsDecode(v) && AtKey(n) && n == ObjectNode(NO_FIELDS)
    ensures Decodes(v)
  {
    var rest := EncodeFields(v, v.order) + END;
    assert Encode(v)[1..] == rest;
    HolderDecodes(v, v.order, n);
    ListingRestores(v, v.order);
    assert EatParser(None, Encode(v)) == Eat(n, rest);
  }

  lemma CountDecodes(n: Node, x: nat, rest: Text)
    requires n.ArrayNode? && OpenFields(n.fields) && Open(n) && n.num.value == 0 && x < Pow256(n.num.len)
    ensures Eat(n, ToBytes(x, n.num.len) + rest) == Eat(n.(num := Uint(0, x)), rest)
  {
    UintDecodes(n.num, x);
    CountEats(n, ToBytes(x, n.num.len));
    EatAppend(n, ToBytes(x, n.num.len), rest);
  }

  lemma ArrayDecodes(v: Value, n: Node)
    requires WellFormed(v) && v.EcmaArray? && PropsOk(v) && PropsDecode(v)
    requires n.ArrayNode? && Open(n) && n.num.len == 4 && n.num.value == 0 && n.fields == NO_FIELDS
    ensures Decodes(v)
  {
    var ks := Keys(v.elements.Keys);
    var m := ArrayBody(v, ks, n);
    ListingRestores(v, ks);
    MarkerThen(n, Encode(v), ToBytes(|v.elements|, 4) + (EncodeFields(v, ks) + END));
  }

  lemma ArrayBody(v: Value, ks: seq<Text>, n: Node) returns (m: Node)
    requires v.EcmaArray? && PropsOk(v) && PropsDecode(v) && Lists(ks, Props(v).Keys)
    requires n.ArrayNode? && Open(n) && n.num.value == 0 && n.fields == NO_FIELDS && |v.elements| < Pow256(n.num.len)
    ensures Eat(n, ToBytes(|v.elements|, n.num.len) + (EncodeFields(v, ks) + END)) == Ok(m)
    ensures m == n.(num := Uint(0, |v.elements|), fields := Ended(AllAdded(NO_FIELDS, v, ks)))
  {
    var n1 := n.(num := Uint(0, |v.elements|));
    var body := EncodeFields(v, ks) + END;
    CountDecodes(n, |v.elements|, body);
    HolderDecodes(v, ks, n1);
    m := n1.(fields := Ended(AllAdded(NO_FIELDS, v, ks)));
  }

  lemma MarkerThen(n: Node, w: Text, rest: Text)
    requires n.ArrayNode? && Open(n) && n.num == Uint(4, 0) && n.fields == NO_FIELDS && w == [ECMA_ARRAY_MARKER] + rest
    ensures EatParser(None, w) == Eat(n, rest)
  {
    assert w[1..] == rest;
  }

  /** Every well-formed value is read back from its own bytes, complete at the last one and not before. */
  lemma {:induction false} ValueDecodes(v: Value)
    requires WellFormed(v)
    ensures Decodes(v)
  {
    forall k | k in Props(v)
      ensures Decodes(Props(v)[k])
    {
      ValueDecodes(Props(v)[k]);
    }
    ShapeDecodes(v);
  }

  lemma ShapeDecodes(v: Value)
    requires WellFormed(v) && PropsDecode(v)
    ensures Decodes(v)
  {
    if v.Object? {
      ObjectDecodes(v, ObjectNode(NO_FIELDS));
    } else if v.EcmaArray? {
      ArrayDecodes(v, ArrayNode(Uint(4, 0), NO_FIELDS));
    } else {
      ScalarDecodes(v);
    }
  }

  // ---------- Pieces ----------

  lemma {:induction false} EatenIsConsumed(n: Node, w: Text, data: Text, pos: nat)
    requires (Parsed(n) || Open(n)) && Eat(n, w).Ok? && pos + |w| <= |data| && data[pos..pos + |w|] == w
    ensures Consume(n, data, pos) == Consume(Eat(n, w).value, data, pos + |w|)
    decreases |w|
  {
    if w != [] {
      EatenIsConsumed(FeedNode(n, w[0]).value, w[1..], data, pos + 1);
    }
  }

  /** A piece that does not finish the value is taken whole, and the parser goes on. */
  lemma PieceTaken(p: Option<Node>, a: Text, b: Text)
    requires a != [] && (p.Some? ==> Open(p.value)) && EatParser(p, a + b).Ok?
    ensures ConsumeParser(p, a, 0).Ok? && ConsumeParser(p, a, 0).value.1 == |a|
    ensures var n := ConsumeParser(p, a, 0).value.0;
            if b == [] then EatParser(p, a + b) == Ok(n) else Open(n) && EatParser(Some(n), b) == EatParser(p, a + b)
  {
    var n := FeedParser(p, a[0]).value;
    assert (a + b)[1..] == a[1..] + b;
    EatAppend(n, a[1..], b);
    EatenIsConsumed(n, a[1..], a, 1);
  }

  function Joined(pieces: seq<Text>): Text {
    if pieces == [] then [] else pieces[0] + Joined(pieces[1..])
  }

  /** Given piece by piece, the parser takes each one whole and is complete at the last one only, as `m`. */
  ghost predicate Receives(p: Option<Node>, pieces: seq<Text>, m: Node)
    decreases |pieces|
  {
    && pieces != [] && pieces[0] != [] && (p.Some? ==> Open(p.value))
    && var r := ConsumeParser(p, pieces[0], 0);
       r.Ok? && r.value.1 == |pieces[0]| &&
       if |pieces| == 1 then r.value.0 == m && Parsed(m)
       else !Parsed(r.value.0) && Receives(Some(r.value.0), pieces[1..], m)
  }

  lemma {:induction false} PiecesReceived(p: Option<Node>, pieces: seq<Text>)
    requires pieces != [] && (forall i :: 0 <= i < |pieces| ==> pieces[i] != []) && (p.Some? ==> Open(p.value))
    requires EatParser(p, Joined(pieces)).Ok? && Parsed(EatParser(p, Joined(pieces)).value)
    ensures Receives(p, pieces, EatParser(p, Joined(pieces)).value)
    decreases |pieces|
  {
    var rest := Joined(pieces[1..]);
    PieceTaken(p, pieces[0], rest);
    if |pieces| > 1 {
      assert pieces[1..][0] != [];
      PiecesReceived(Some(ConsumeParser(p, pieces[0], 0).value.0), pieces[1..]);
    }
  }

  /**
   The round trip under any chunking: however the bytes of a value are cut into non-empty pieces, the
   parser consumes every byte, is complete exactly at the last one, and holds that value.
   */
  lemma RoundTrip(v: Value, pieces: seq<Text>)
    requires WellFormed(v) && Joined(pieces) == Encode(v)
    requires forall i :: 0 <= i < |pieces| ==> pieces[i] != []
    ensures exists m :: Receives(None, pieces, m) && ValueOf(m) == v
  {
    ValueDecodes(v);
    PiecesReceived(None, pieces);
  }

  lemma StopsAfter(v: Value, w: Text, rest: Text)
    requires WellFormed(v) && w == Encode(v)
    ensures var r := ConsumeParser(None, w + rest, 0);
            r.Ok? && r.value.1 == |w| && Parsed(r.value.0) && ValueOf(r.value.0) == v
  {
    ValueDecodes(v);
    assert (w + rest)[1..|w|] == w[1..];
    EatenIsConsumed(FeedParser(None, w[0]).value, w[1..], w + rest, 1);
  }

  /** Bytes that follow the value in the same piece are left to the next one. */
  lemma StopsAtEnd(v: Value, rest: Text)
    requires WellFormed(v)
    ensures var r := ConsumeParser(None, Encode(v) + rest, 0);
            r.Ok? && r.value.1 == GetSize(v) && Parsed(r.value.0) && ValueOf(r.value.0) == v
  {
    StopsAfter(v, Encode(v), rest);
    EncodedSize(v);
  }
}
