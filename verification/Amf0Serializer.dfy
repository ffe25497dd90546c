/** The AMF0 serializer and the size it announces. */
module Amf0Serializer {
  import opened Octets
  import opened Amf0

  // ---------- The order of std::map keys ----------

  /** Lexicographic order; on UTF-8 it is the order of the code points. */
  predicate Below(a: Text, b: Text) {
    a == [] || (b != [] && (a[0] < b[0] || (a[0] == b[0] && Below(a[1..], b[1..]))))
  }

  lemma {:induction false} BelowTotal(a: Text, b: Text)
    ensures Below(a, b) || Below(b, a)
    ensures Below(a, b) && Below(b, a) ==> a == b
  {
    if a != [] && b != [] && a[0] == b[0] {
      BelowTotal(a[1..], b[1..]);
      if Below(a, b) && Below(b, a) {
        assert a == [a[0]] + a[1..] && b == [b[0]] + b[1..];
      }
    }
  }

  lemma {:induction false} BelowTransitive(a: Text, b: Text, c: Text)
    requires Below(a, b) && Below(b, c)
    ensures Below(a, c)
  {
    if a != [] && a[0] == b[0] == c[0] {
      BelowTransitive(a[1..], b[1..], c[1..]);
    }
  }

  ghost predicate IsFirst(keys: set<Text>, k: Text) {
    k in keys && forall x :: x in keys ==> Below(k, x)
  }

  lemma {:induction false} FirstExists(keys: set<Text>)
    requires keys != {}
    ensures exists k :: IsFirst(keys, k)
  {
    var k :| k in keys;
    var others := keys - {k};
    if others == {} {
      BelowTotal(k, k);
      assert forall x :: x in keys ==> x == k || x in others;
      assert IsFirst(keys, k);
    } else {
      FirstExists(others);
      var f :| IsFirst(others, f);
      BelowTotal(k, f);
      BelowTotal(k, k);
      var least := if Below(k, f) then k else f;
      forall x | x in keys
        ensures Below(least, x)
      {
        if x != k && least == k {
          BelowTransitive(k, f, x);
        }
      }
      assert IsFirst(keys, least);
    }
  }

  ghost predicate Ascending(ks: seq<Text>) {
    forall i, j :: 0 <= i < j < |ks| ==> Below(ks[i], ks[j])
  }

  /** The keys in the order a std::map iterates over them. */
  ghost function Keys(keys: set<Text>): (ks: seq<Text>)
    ensures Lists(ks, keys) && Ascending(ks)
  {
    if keys == {} then []
    else
      FirstExists(keys);
      var k :| IsFirst(keys, k);
      [k] + Keys(keys - {k})
  }

  ghost predicate Distinct(ks: seq<Text>) {
    forall i, j :: 0 <= i < j < |ks| ==> ks[i] != ks[j]
  }

  /** `ks` names each of `keys` once. */
  ghost predicate Lists(ks: seq<Text>, keys: set<Text>) {
    |ks| == |keys| && Distinct(ks) && forall k :: k in ks <==> k in keys
  }

  // ---------- Values the format can carry ----------

  function Props(v: Value): map<Text, Value> {
    if v.Object? then v.properties else if v.EcmaArray? then v.elements else map[]
  }

  ghost predicate WellFormed(v: Value) {
    match v
    case Number(bits) => bits < Pow256(8)
    case String(s) => |s| < Pow256(2)
    case Object(order, properties) => Lists(order, properties.Keys) && PropsOk(v)
    case EcmaArray(elements) => |elements| < Pow256(4) && PropsOk(v)
    case _ => true
  }

  ghost predicate PropsOk(v: Value)
    decreases v, 0
  {
    forall k :: k in Props(v) ==> 0 < |k| < Pow256(2) && WellFormed(Props(v)[k])
  }

  // ---------- Serialize and GetSize ----------

  const END: Text := [0, 0, OBJECT_END_MARKER]

  ghost function Encode(v: Value): Text
    requires WellFormed(v)
    decreases v, 1
  {
    match v
    case Number(bits) => [NUMBER_MARKER] + ToBytes(bits, 8)
    case Boolean(b) => [BOOLEAN_MARKER, if b then 1 else 0]
    case String(s) => [STRING_MARKER] + (ToBytes(|s|, 2) + s)
    case Null => [NULL_MARKER]
    case Object(order, _) => [OBJECT_MARKER] + (EncodeFields(v, order) + END)
    case EcmaArray(elements) =>
      [ECMA_ARRAY_MARKER] + (ToBytes(|elements|, 4) + (EncodeFields(v, Keys(elements.Keys)) + END))
  }

  ghost function EncodeFields(v: Value, ks: seq<Text>): Text
    requires PropsOk(v) && forall k :: k in ks ==> k in Props(v)
    decreases v, 0, |ks|
  {
    if ks == [] then [] else (ToBytes(|ks[0]|, 2) + ks[0]) + (Encode(Props(v)[ks[0]]) + EncodeFields(v, ks[1..]))
  }

  /** GetSize walks the map of an object, not its insertion order. */
  ghost function GetSize(v: Value): nat
    decreases v, 1
  {
    match v
    case Number(_) => 9
    case Boolean(_) => 2
    case String(s) => |s| + 3
    case Null => 1
    case Object(_, properties) => 4 + SizeFields(v, Keys(properties.Keys))
    case EcmaArray(elements) => 8 + SizeFields(v, Keys(elements.Keys))
  }

  ghost function SizeFields(v: Value, ks: seq<Text>): nat
    decreases v, 0, |ks|
  {
    if ks == [] then 0
    else 2 + |ks[0]| + (if ks[0] in Props(v) then GetSize(Props(v)[ks[0]]) else 0) + SizeFields(v, ks[1..])
  }

  lemma {:induction false} SizeWithout(v: Value, ks: seq<Text>, i: nat)
    requires i < |ks|
    ensures SizeFields(v, ks) == SizeFields(v, [ks[i]]) + SizeFields(v, ks[..i] + ks[i + 1..])
  {
    assert [ks[i]][1..] == ks[..0];
    if i == 0 {
      assert ks[..0] + ks[1..] == ks[1..];
    } else {
      var rest := ks[..i] + ks[i + 1..];
      SizeWithout(v, ks[1..], i - 1);
      assert rest[1..] == ks[1..][..i - 1] + ks[1..][i..];
    }
  }

  /** The order of the walk does not matter. */
  lemma {:induction false} SizeOfListing(v: Value, ks: seq<Text>, js: seq<Text>, keys: set<Text>)
    requires Lists(ks, keys) && Lists(js, keys)
    ensures SizeFields(v, ks) == SizeFields(v, js)
    decreases |ks|
  {
    if ks != [] {
      assert ks[0] in keys;
      var i :| 0 <= i < |js| && js[i] == ks[0];
      SizeWithout(v, js, i);
      SizeWithout(v, ks, 0);
      ListsRest(ks, 0, keys);
      ListsRest(js, i, keys);
      assert ks[..0] + ks[1..] == ks[1..];
      SizeOfListing(v, ks[1..], js[..i] + js[i + 1..], keys - {ks[0]});
    }
  }

  lemma DistinctRest(ks: seq<Text>, i: nat)
    requires Distinct(ks) && i < |ks|
    ensures var rest := ks[..i] + ks[i + 1..]; Distinct(rest) && ks[i] !in rest && forall k :: k in rest ==> k in ks
  {
    var rest := ks[..i] + ks[i + 1..];
    assert forall j :: 0 <= j < |rest| ==> rest[j] == if j < i then ks[j] else ks[j + 1];
  }

  lemma ListsRest(ks: seq<Text>, i: nat, keys: set<Text>)
    requires Lists(ks, keys) && i < |ks|
    ensures Lists(ks[..i] + ks[i + 1..], keys - {ks[i]})
  {
    var rest := ks[..i] + ks[i + 1..];
    DistinctRest(ks, i);
    forall k | k in keys && k != ks[i]
      ensures k in rest
    {
      var j :| 0 <= j < |ks| && ks[j] == k;
      assert rest[if j < i then j else j - 1] == k;
    }
  }

  lemma ObjectSize(v: Value)
    requires WellFormed(v) && v.Object?
    ensures GetSize(v) == 4 + SizeFields(v, v.order)
  {
    SizeOfListing(v, v.order, Keys(v.properties.Keys), v.properties.Keys);
  }

  /** Serialize writes exactly the number of bytes GetSize announces. */
  lemma {:induction false} EncodedSize(v: Value)
    requires WellFormed(v)
    ensures |Encode(v)| == GetSize(v)
    decreases v, 1
  {
    match v
    case Object(order, _) =>
      EncodedFieldsSize(v, order);
      ObjectSize(v);
    case EcmaArray(elements) =>
      EncodedFieldsSize(v, Keys(elements.Keys));
    case _ =>
  }

  lemma {:induction false} EncodedFieldsSize(v: Value, ks: seq<Text>)
    requires PropsOk(v) && forall k :: k in ks ==> k in Props(v)
    ensures |EncodeFields(v, ks)| == SizeFields(v, ks)
    decreases v, 0, |ks|
  {
    if ks != [] {
      assert ks[0] in ks;
      EncodedSize(Props(v)[ks[0]]);
      EncodedFieldsSize(v, ks[1..]);
    }
  }

  // ---------- Room ----------

  /** What is left of a buffer after `n` more bytes; -1 once something did not fit. */
  function Taken(room: int, n: nat): int {
    if room < n then -1 else room - n
  }

  /**
   What Serialize leaves of a buffer: -1 if a Serialize at some depth refuses the room it is given, or if bytes that
   an object writes without looking fall outside.
   */
  ghost function Left(v: Value, room: int): int
    decreases v, 1
  {
    match v
    case Number(_) => Taken(room, 9)
    case Boolean(_) => Taken(room, 2)
    case String(s) => if room < GetSize(v) then -1 else Taken(Taken(Taken(room, 1), 2), |s|)
    case Null => Taken(room, 1)
    case Object(order, _) => LeftByFields(v, order, Taken(room, 1))
    case EcmaArray(elements) =>
      if room < GetSize(v) then -1 else LeftByFields(v, Keys(elements.Keys), Taken(Taken(room, 1), 4))
  }

  /** The keys and values, each in what the earlier ones left, and the end marker. */
  ghost function LeftByFields(v: Value, ks: seq<Text>, room: int): int
    decreases v, 0, |ks|, 1
  {
    if ks == [] then Taken(room, |END|) else LeftByFields(v, ks[1..], LeftByFirst(v, ks, room))
  }

  /** What the first key and its value leave. */
  ghost function LeftByFirst(v: Value, ks: seq<Text>, room: int): int
    requires ks != []
    decreases v, 0, |ks|, 0
  {
    var left := Taken(Taken(room, 2), |ks[0]|);
    if ks[0] in Props(v) then Left(Props(v)[ks[0]], left) else left
  }

  /** A buffer of the announced size is enough at every depth, nothing smaller is, and the rest is left over. */
  lemma {:induction false} SizeSuffices(v: Value, room: int)
    requires WellFormed(v) && room >= -1
    ensures Left(v, room) == Taken(room, GetSize(v))
    decreases v, 2
  {
    if v.Object? {
      ObjectSuffices(v, room);
    } else if v.EcmaArray? {
      ArraySuffices(v, room);
    }
  }

  lemma {:induction false} ObjectSuffices(v: Value, room: int)
    requires WellFormed(v) && v.Object? && room >= -1
    ensures Left(v, room) == Taken(room, GetSize(v))
    decreases v, 1
  {
    FieldsSuffice(v, v.order, Taken(room, 1));
    ObjectSize(v);
    ObjectLeft(v, room, SizeFields(v, v.order));
  }

  lemma {:induction false} ArraySuffices(v: Value, room: int)
    requires WellFormed(v) && v.EcmaArray? && room >= -1
    ensures Left(v, room) == Taken(room, GetSize(v))
    decreases v, 1
  {
    var ks := Keys(v.elements.Keys);
    FieldsSuffice(v, ks, Taken(Taken(room, 1), 4));
    ArrayLeft(v, room, SizeFields(v, ks));
  }

  lemma ObjectLeft(v: Value, room: int, n: nat)
    requires v.Object? && GetSize(v) == 4 + n
    requires LeftByFields(v, v.order, Taken(room, 1)) == Taken(Taken(room, 1), n + |END|)
    ensures Left(v, room) == Taken(room, GetSize(v))
  {
  }

  lemma ArrayLeft(v: Value, room: int, n: nat)
    requires v.EcmaArray? && GetSize(v) == 8 + n
    requires var left := Taken(Taken(room, 1), 4);
             LeftByFields(v, Keys(v.elements.Keys), left) == Taken(left, n + |END|)
    ensures Left(v, room) == Taken(room, GetSize(v))
  {
  }

  lemma {:induction false} FieldsSuffice(v: Value, ks: seq<Text>, room: int)
    requires PropsOk(v) && room >= -1
    ensures LeftByFields(v, ks, room) == Taken(room, SizeFields(v, ks) + |END|)
    decreases v, 0, |ks|
  {
    if ks != [] {
      if ks[0] in Props(v) {
        SizeSuffices(Props(v)[ks[0]], Taken(Taken(room, 2), |ks[0]|));
      }
      var n := FirstLeft(v, ks, room);
      FieldsSuffice(v, ks[1..], Taken(room, n));
      RestLeft(v, ks, room, n, SizeFields(v, ks[1..]));
    }
  }

  lemma FirstLeft(v: Value, ks: seq<Text>, room: int) returns (n: nat)
    requires ks != [] && room >= -1
    requires var left := Taken(Taken(room, 2), |ks[0]|);
             ks[0] in Props(v) ==> Left(Props(v)[ks[0]], left) == Taken(left, GetSize(Props(v)[ks[0]]))
    ensures LeftByFirst(v, ks, room) == Taken(room, n)
    ensures SizeFields(v, ks) == n + SizeFields(v, ks[1..])
  {
    n := 2 + |ks[0]| + if ks[0] in Props(v) then GetSize(Props(v)[ks[0]]) else 0;
  }

  lemma RestLeft(v: Value, ks: seq<Text>, room: int, n: nat, m: nat)
    requires ks != [] && room >= -1 && LeftByFirst(v, ks, room) == Taken(room, n)
    requires LeftByFields(v, ks[1..], Taken(room, n)) == Taken(Taken(room, n), m + |END|)
    ensures LeftByFields(v, ks, room) == Taken(room, n + m + |END|)
  {
  }
}
