/**
 AMF0 values, their serializer and the incremental parser of nested objects.  A parser node holds what
 the source's `AMFNumber`, `AMFString`, `AMFObject`... keep between two calls; `Feed` gives it one byte,
 and the `Parse...` methods are the loops that give it a whole piece.
 */
module Amf0 {
  import opened Common

  type Text = seq<Byte>

  const NUMBER_MARKER: Byte := 0x00
  const BOOLEAN_MARKER: Byte := 0x01
  const STRING_MARKER: Byte := 0x02
  const OBJECT_MARKER: Byte := 0x03
  const NULL_MARKER: Byte := 0x05
  const ECMA_ARRAY_MARKER: Byte := 0x08
  const OBJECT_END_MARKER: Byte := 0x09

  /** An object remembers the order its properties were added in; an array's map is ordered by key. */
  datatype Value =
    | Number(bits: nat)
    | Boolean(b: bool)
    | String(s: Text)
    | Null
    | Object(order: seq<Text>, properties: map<Text, Value>)
    | EcmaArray(elements: map<Text, Value>)

  // ---------- Big-endian integers ----------

  /** U16Parser, U32Parser and AMFNumber: `len` bytes missing, the others already in place in `value`. */
  datatype Uint = Uint(len: nat, value: nat)

  /** b << 8 * n */
  function Shifted(b: nat, n: nat): nat {
    if n == 0 then b else 256 * Shifted(b, n - 1)
  }

  /** The byte lands where `value` still has zero bits, so `|` is `+`. */
  function FeedUint(u: Uint, b: Byte): Uint
    requires u.len > 0
  {
    Uint(u.len - 1, u.value + Shifted(b, u.len - 1))
  }

  // ---------- Parser nodes ----------

  /** AMFString: the 16-bit size, then that many bytes for the UTF-8 parser. */
  datatype Chars = Chars(size: Uint, bytes: Text)

  const NO_CHARS := Chars(Uint(2, 0), [])

  predicate CharsParsed(c: Chars) {
    c.size.len == 0 && |c.bytes| >= c.size.value
  }

  function FeedChars(c: Chars, b: Byte): Chars
    requires !CharsParsed(c)
  {
    if c.size.len > 0 then c.(size := FeedUint(c.size, b)) else c.(bytes := c.bytes + [b])
  }

  /** What AMFObject and AMFEcmaArray share: the key being read, the properties read, the value being read. */
  datatype Fields = Fields(key: Chars, order: seq<Text>, props: map<Text, Value>, parser: Option<Node>, marker: bool)

  const NO_FIELDS := Fields(NO_CHARS, [], map[], None, false)

  datatype Node =
    | NumberNode(number: Uint)
    | BooleanNode(known: bool, flag: bool)
    | StringNode(chars: Chars)
    | NullNode
    | ObjectNode(fields: Fields)
    | ArrayNode(num: Uint, fields: Fields)

  predicate Parsed(n: Node) {
    match n
    case NumberNode(u) => u.len == 0
    case BooleanNode(known, _) => known
    case StringNode(c) => CharsParsed(c)
    case NullNode => true
    case ObjectNode(f) => f.marker
    case ArrayNode(num, f) => num.len == 0 && f.marker
  }

  /** What a parsed node stands for. */
  function ValueOf(n: Node): Value {
    match n
    case NumberNode(u) => Number(u.value)
    case BooleanNode(_, flag) => Boolean(flag)
    case StringNode(c) => String(c.bytes)
    case NullNode => Null
    case ObjectNode(f) => Object(f.order, f.props)
    case ArrayNode(_, f) => EcmaArray(f.props)
  }

  /** `Thrown` stands for the source's exceptions and for the markers of types outside this model. */
  datatype Fed<+T> = Ok(value: T) | Thrown

  /** AMFParser::Parse on a marker. */
  function NewNode(marker: Byte): Fed<Node> {
    if marker == NUMBER_MARKER then Ok(NumberNode(Uint(8, 0)))
    else if marker == BOOLEAN_MARKER then Ok(BooleanNode(false, false))
    else if marker == STRING_MARKER then Ok(StringNode(NO_CHARS))
    else if marker == OBJECT_MARKER then Ok(ObjectNode(NO_FIELDS))
    else if marker == NULL_MARKER then Ok(NullNode)
    else if marker == ECMA_ARRAY_MARKER then Ok(ArrayNode(Uint(4, 0), NO_FIELDS))
    else Thrown
  }

  /** The value read becomes a property once it is complete, and the next key starts. */
  function Attach(f: Fields, n: Node): Fields {
    if Parsed(n) then
      Fields(NO_CHARS, f.order + [f.key.bytes], f.props[f.key.bytes := ValueOf(n)], None, f.marker)
    else f.(parser := Some(n))
  }

  /** Not complete, and nothing complete waits inside: it would have been attached. */
  predicate Open(n: Node) {
    !Parsed(n) && (n.ObjectNode? || n.ArrayNode? ==> OpenFields(n.fields))
  }

  predicate OpenFields(f: Fields) {
    !f.marker && (f.parser.Some? ==> Open(f.parser.value))
  }

  function FeedFields(f: Fields, b: Byte): (r: Fed<Fields>)
    requires OpenFields(f)
    ensures r.Ok? ==> r.value.marker || OpenFields(r.value)
    decreases f, 0
  {
    if !CharsParsed(f.key) then Ok(f.(key := FeedChars(f.key, b)))
    else if f.key.size.value == 0 then
      if b == OBJECT_END_MARKER then Ok(f.(marker := true)) else Thrown
    else
      match FeedParser(f.parser, b)
      case Thrown => Thrown
      case Ok(n) => Ok(Attach(f, n))
  }

  /** One byte for an AMFParser: a marker if it holds nothing yet. */
  function FeedParser(p: Option<Node>, b: Byte): (r: Fed<Node>)
    requires p.Some? ==> Open(p.value)
    ensures r.Ok? ==> Parsed(r.value) || Open(r.value)
    decreases p, 2
  {
    match p
    case None => NewNode(b)
    case Some(n) => FeedNode(n, b)
  }

  /** One byte for an object that is not complete. */
  function FeedNode(n: Node, b: Byte): (r: Fed<Node>)
    requires Open(n)
    ensures r.Ok? ==> Parsed(r.value) || Open(r.value)
    decreases n, 1
  {
    match n
    case NumberNode(u) => Ok(NumberNode(FeedUint(u, b)))
    case BooleanNode(_, _) => Ok(BooleanNode(true, b > 0))
    case StringNode(c) => Ok(StringNode(FeedChars(c, b)))
    case ObjectNode(f) => (match FeedFields(f, b) case Thrown => Thrown case Ok(f') => Ok(ObjectNode(f')))
    case ArrayNode(num, f) =>
      if num.len > 0 then Ok(ArrayNode(FeedUint(num, b), f))
      else (match FeedFields(f, b) case Thrown => Thrown case Ok(f') => Ok(ArrayNode(num, f')))
  }

  // ---------- A piece of input ----------

  /** The bytes of `data` from `pos` on, until the object is complete or the piece ends. */
  function Consume(n: Node, data: Text, pos: nat): (r: Fed<(Node, nat)>)
    requires pos <= |data| && (Parsed(n) || Open(n))
    ensures r.Ok? ==> (Parsed(r.value.0) || Open(r.value.0)) && pos <= r.value.1 <= |data|
    ensures r.Ok? && !Parsed(r.value.0) ==> r.value.1 == |data|
    ensures r.Ok? && !Parsed(n) && pos < |data| ==> pos < r.value.1
    decreases |data| - pos
  {
    if pos == |data| || Parsed(n) then Ok((n, pos))
    else
      match FeedNode(n, data[pos])
      case Thrown => Thrown
      case Ok(n') => Consume(n', data, pos + 1)
  }

  function ConsumeParser(p: Option<Node>, data: Text, pos: nat): (r: Fed<(Node, nat)>)
    requires pos < |data| && (p.Some? ==> Open(p.value))
    ensures r.Ok? ==> (Parsed(r.value.0) || Open(r.value.0)) && pos < r.value.1 <= |data|
    ensures r.Ok? && !Parsed(r.value.0) ==> r.value.1 == |data|
  {
    match FeedParser(p, data[pos])
    case Thrown => Thrown
    case Ok(n) => Consume(n, data, pos + 1)
  }

  function ConsumeChars(c: Chars, data: Text, pos: nat): (r: (Chars, nat))
    requires pos <= |data|
    ensures pos <= r.1 <= |data| && (!CharsParsed(r.0) ==> r.1 == |data|)
    ensures !CharsParsed(c) && pos < |data| ==> pos < r.1
    decreases |data| - pos
  {
    if pos == |data| || CharsParsed(c) then (c, pos) else ConsumeChars(FeedChars(c, data[pos]), data, pos + 1)
  }

  function ConsumeUint(u: Uint, data: Text, pos: nat): (r: (Uint, nat))
    requires pos <= |data|
    ensures pos <= r.1 <= |data| && (r.0.len > 0 ==> r.1 == |data|)
    ensures u.len > 0 && pos < |data| ==> pos < r.1
    decreases |data| - pos
  {
    if pos == |data| || u.len == 0 then (u, pos) else ConsumeUint(FeedUint(u, data[pos]), data, pos + 1)
  }

  // ---------- The loops ----------

  method ParseUint(u: Uint, data: Text, pos: nat) returns (u': Uint, next: nat)
    requires pos <= |data|
    ensures (u', next) == ConsumeUint(u, data, pos)
  {
    u', next := u, pos;
    while u'.len > 0 && next < |data|
      invariant pos <= next <= |data|
      invariant ConsumeUint(u', data, next) == ConsumeUint(u, data, pos)
    {
      u' := FeedUint(u', data[next]);
      next := next + 1;
    }
  }

  /** How many bytes the UTF-8 parser takes: those it misses, if the piece holds them. */
  function Wanted(c: Chars, available: nat): (n: nat)
    ensures n <= available
  {
    if |c.bytes| >= c.size.value then 0
    else if c.size.value - |c.bytes| < available then c.size.value - |c.bytes|
    else available
  }

  lemma {:induction false} CharsCopied(c: Chars, data: Text, pos: nat)
    requires pos <= |data| && c.size.len == 0
    ensures var n := Wanted(c, |data| - pos);
            ConsumeChars(c, data, pos) == (c.(bytes := c.bytes + data[pos..pos + n]), pos + n)
    decreases |data| - pos
  {
    var n := Wanted(c, |data| - pos);
    if n == 0 {
      assert c.bytes + data[pos..pos] == c.bytes;
    } else {
      var c1 := FeedChars(c, data[pos]);
      CharsCopied(c1, data, pos + 1);
      assert c.bytes + data[pos..pos + n] == c1.bytes + data[pos + 1..pos + n];
    }
  }

  lemma {:induction false} CharsSized(c: Chars, data: Text, pos: nat)
    requires pos <= |data| && c.size.len > 0
    ensures var (u, next) := ConsumeUint(c.size, data, pos);
            ConsumeChars(c, data, pos) == ConsumeChars(c.(size := u), data, next)
    decreases |data| - pos
  {
    if pos < |data| && c.size.len > 1 {
      CharsSized(FeedChars(c, data[pos]), data, pos + 1);
    } else if pos < |data| {
      assert FeedChars(c, data[pos]).size == FeedUint(c.size, data[pos]);
    }
  }

  /** AMFString::Parse */
  method ParseChars(c: Chars, data: Text, pos: nat) returns (c': Chars, next: nat)
    requires pos <= |data|
    ensures (c', next) == ConsumeChars(c, data, pos)
  {
    c', next := c, pos;
    if c'.size.len > 0 {
      CharsSized(c, data, pos);
      var u, copied := ParseUint(c'.size, data, next);
      c', next := c'.(size := u), copied;
    }
    if next < |data| {
      CharsCopied(c', data, next);
      var copy := Wanted(c', |data| - next);
      c', next := c'.(bytes := c'.bytes + data[next..next + copy]), next + copy;
    }
  }

  // ---------- Objects inside objects ----------

  /** A node that is reading its properties. */
  predicate Holding(n: Node) {
    (n.ObjectNode? || (n.ArrayNode? && n.num.len == 0)) && OpenFields(n.fields)
  }

  function With(n: Node, f: Fields): (n': Node)
    requires Holding(n)
    ensures OpenFields(f) ==> Holding(n') && Open(n')
    ensures f.marker ==> Parsed(n')
  {
    n.(fields := f)
  }

  lemma HoldingFeeds(n: Node, b: Byte)
    requires Holding(n)
    ensures Open(n)
    ensures FeedNode(n, b) == match FeedFields(n.fields, b) case Thrown => Thrown case Ok(f) => Ok(With(n, f))
  {
  }

  lemma {:induction false} KeyLifts(n: Node, data: Text, pos: nat)
    requires Holding(n) && Open(n) && pos <= |data| && !CharsParsed(n.fields.key)
    ensures var (key, next) := ConsumeChars(n.fields.key, data, pos);
            && OpenFields(n.fields.(key := key))
            && Consume(n, data, pos) == Consume(With(n, n.fields.(key := key)), data, next)
    decreases |data| - pos
  {
    if pos < |data| {
      var f1 := n.fields.(key := FeedChars(n.fields.key, data[pos]));
      HoldingFeeds(n, data[pos]);
      if !CharsParsed(f1.key) {
        KeyLifts(With(n, f1), data, pos + 1);
      }
    }
  }

  lemma AttachOpens(f: Fields, m: Node)
    requires OpenFields(f) && (Parsed(m) || Open(m))
    ensures OpenFields(Attach(f, m))
  {
  }

  /** The holder of a value being read follows it: complete, the value is attached. */
  lemma {:induction false} ValueLifts(n: Node, data: Text, pos: nat)
    requires Holding(n) && Open(n) && pos <= |data| && n.fields.parser.Some?
    requires CharsParsed(n.fields.key) && n.fields.key.size.value > 0
    ensures Open(n.fields.parser.value)
    ensures match Consume(n.fields.parser.value, data, pos)
            case Thrown => Consume(n, data, pos).Thrown?
            case Ok((m, next)) =>
              && OpenFields(Attach(n.fields, m))
              && Consume(n, data, pos) == Consume(With(n, Attach(n.fields, m)), data, next)
    decreases |data| - pos
  {
    var m := n.fields.parser.value;
    var r := Consume(m, data, pos);
    if r.Ok? {
      AttachOpens(n.fields, r.value.0);
    }
    if pos < |data| {
      ValueFeeds(n, data[pos]);
      var fed := FeedNode(m, data[pos]);
      if fed.Ok? {
        var n1 := With(n, Attach(n.fields, fed.value));
        AttachOpens(n.fields, fed.value);
        assert Consume(n, data, pos) == Consume(n1, data, pos + 1);
        assert r == Consume(fed.value, data, pos + 1);
        if Parsed(fed.value) {
          assert r == Ok((fed.value, pos + 1));
        } else {
          ValueLifts(n1, data, pos + 1);
          if r.Ok? {
            AttachAgain(n, fed.value, r.value.0);
          }
        }
      }
    } else {
      assert Attach(n.fields, m) == n.fields;
    }
  }

  lemma AttachAgain(n: Node, m: Node, m': Node)
    requires Holding(n) && !Parsed(m) && Holding(With(n, Attach(n.fields, m)))
    ensures var n1 := With(n, Attach(n.fields, m)); With(n1, Attach(n1.fields, m')) == With(n, Attach(n.fields, m'))
  {
  }

  /** A holder whose key is known passes a byte on to the value it reads. */
  lemma ValueFeeds(n: Node, b: Byte)
    requires Holding(n) && Open(n) && n.fields.parser.Some?
    requires CharsParsed(n.fields.key) && n.fields.key.size.value > 0
    ensures Open(n.fields.parser.value)
    ensures FeedNode(n, b) == match FeedNode(n.fields.parser.value, b)
                              case Thrown => Thrown
                              case Ok(m) => Ok(With(n, Attach(n.fields, m)))
  {
    HoldingFeeds(n, b);
  }

  lemma ParserLifts(n: Node, data: Text, pos: nat)
    requires Holding(n) && Open(n) && pos < |data| && CharsParsed(n.fields.key) && n.fields.key.size.value > 0
    ensures n.fields.parser.Some? ==> Open(n.fields.parser.value)
    ensures match ConsumeParser(n.fields.parser, data, pos)
            case Thrown => Consume(n, data, pos).Thrown?
            case Ok((m, next)) =>
              && OpenFields(Attach(n.fields, m))
              && Consume(n, data, pos) == Consume(With(n, Attach(n.fields, m)), data, next)
  {
    HoldingFeeds(n, data[pos]);
    var fed := FeedParser(n.fields.parser, data[pos]);
    if fed.Ok? {
      AttachOpens(n.fields, fed.value);
      if !Parsed(fed.value) {
        ValueLifts(With(n, Attach(n.fields, fed.value)), data, pos + 1);
      }
    }
  }

  /** AMFObject::Parse, and AMFEcmaArray::Parse once it knows its count. */
  method ParseFields(n: Node, data: Text, pos: nat) returns (r: Fed<(Node, nat)>)
    requires Holding(n) && Open(n) && pos <= |data|
    ensures r == Consume(n, data, pos)
    decreases |data| - pos, n, 0
  {
    var n', i := n, pos;
    while i < |data|
      invariant pos <= i <= |data| && Holding(n') && Open(n') && (i == pos ==> n' == n)
      invariant Consume(n', data, i) == Consume(n, data, pos)
      decreases |data| - i
    {
      var f := n'.fields;
      if !CharsParsed(f.key) {
        KeyLifts(n', data, i);
        var key, next := ParseChars(f.key, data, i);
        n', i := With(n', f.(key := key)), next;
      } else if f.key.size.value == 0 {
        HoldingFeeds(n', data[i]);
        if data[i] != OBJECT_END_MARKER {
          return Thrown;
        }
        return Ok((With(n', f.(marker := true)), i + 1));
      } else {
        ParserLifts(n', data, i);
        var v := ParseParser(f.parser, data, i);
        if v.Thrown? {
          return Thrown;
        }
        n', i := With(n', Attach(f, v.value.0)), v.value.1;
      }
    }
    return Ok((n', i));
  }

  /** AMFParser::Parse */
  method ParseParser(p: Option<Node>, data: Text, pos: nat) returns (r: Fed<(Node, nat)>)
    requires pos < |data| && (p.Some? ==> Open(p.value))
    ensures r == ConsumeParser(p, data, pos)
    decreases |data| - pos, p, 2
  {
    match p
    case Some(n) =>
      r := ParseNode(n, data, pos);
    case None =>
      var n := NewNode(data[pos]);
      if n.Thrown? {
        return Thrown;
      }
      if Parsed(n.value) {
        return Ok((n.value, pos + 1));
      }
      r := ParseNode(n.value, data, pos + 1);
  }

  lemma {:induction false} NumberLifts(u: Uint, data: Text, pos: nat)
    requires pos <= |data|
    ensures var (u', next) := ConsumeUint(u, data, pos); Consume(NumberNode(u), data, pos) == Ok((NumberNode(u'), next))
    decreases |data| - pos
  {
    if pos < |data| && u.len > 0 {
      NumberLifts(FeedUint(u, data[pos]), data, pos + 1);
    }
  }

  lemma {:induction false} StringLifts(c: Chars, data: Text, pos: nat)
    requires pos <= |data|
    ensures var (c', next) := ConsumeChars(c, data, pos);
            Consume(StringNode(c), data, pos) == Ok((StringNode(c'), next))
    decreases |data| - pos
  {
    if pos < |data| && !CharsParsed(c) {
      StringLifts(FeedChars(c, data[pos]), data, pos + 1);
    }
  }

  lemma {:induction false} CountLifts(n: Node, data: Text, pos: nat)
    requires Open(n) && n.ArrayNode? && n.num.len > 0 && pos <= |data|
    ensures var (num, next) := ConsumeUint(n.num, data, pos);
            Consume(n, data, pos) == Consume(n.(num := num), data, next)
    decreases |data| - pos
  {
    if pos < |data| {
      var n1 := n.(num := FeedUint(n.num, data[pos]));
      assert FeedNode(n, data[pos]) == Ok(n1);
      if n1.num.len > 0 {
        CountLifts(n1, data, pos + 1);
      }
    }
  }

  method ParseNode(n: Node, data: Text, pos: nat) returns (r: Fed<(Node, nat)>)
    requires Open(n) && pos <= |data|
    ensures r == Consume(n, data, pos)
    decreases |data| - pos, n, 1
  {
    match n
    case NumberNode(u) =>
      NumberLifts(u, data, pos);
      var u', next := ParseUint(u, data, pos);
      r := Ok((NumberNode(u'), next));
    case BooleanNode(_, _) =>
      r := if pos == |data| then Ok((n, pos)) else Ok((BooleanNode(true, data[pos] > 0), pos + 1));
    case StringNode(c) =>
      StringLifts(c, data, pos);
      var c', next := ParseChars(c, data, pos);
      r := Ok((StringNode(c'), next));
    case ObjectNode(_) =>
      r := ParseFields(n, data, pos);
    case ArrayNode(num, _) =>
      if num.len > 0 {
        CountLifts(n, data, pos);
        var num', next := ParseUint(num, data, pos);
        if num'.len > 0 {
          return Ok((n.(num := num'), next));
        }
        r := ParseFields(n.(num := num'), data, next);
      } else {
        r := ParseFields(n, data, pos);
      }
  }

  // ---------- Past the end ----------

  /** A complete object stands behind the empty key before its end marker. */
  predicate Ended(n: Node) {
    n.ObjectNode? && n.fields.marker ==> CharsParsed(n.fields.key) && n.fields.key.size.value == 0
  }

  lemma FieldsEnd(f: Fields, b: Byte)
    requires OpenFields(f)
    ensures FeedFields(f, b).Ok? && FeedFields(f, b).value.marker ==>
              FeedFields(f, b).value.key == f.key && CharsParsed(f.key) && f.key.size.value == 0
  {
  }

  lemma FeedEnds(n: Node, b: Byte)
    requires Open(n)
    ensures FeedNode(n, b).Ok? ==> Ended(FeedNode(n, b).value)
  {
    if n.ObjectNode? {
      FieldsEnd(n.fields, b);
    }
  }

  lemma {:induction false} ConsumeEnds(n: Node, data: Text, pos: nat)
    requires pos <= |data| && (Parsed(n) || Open(n)) && Ended(n)
    ensures Consume(n, data, pos).Ok? ==> Ended(Consume(n, data, pos).value.0)
    decreases |data| - pos
  {
    if pos < |data| && !Parsed(n) && FeedNode(n, data[pos]).Ok? {
      FeedEnds(n, data[pos]);
      ConsumeEnds(FeedNode(n, data[pos]).value, data, pos + 1);
    }
  }

  /**
   A complete value that is fed again, before it was taken: a Boolean throws, an object takes end markers only, and
   the others take nothing.
   */
  function Refed(n: Node, b: Byte): (r: Fed<(Node, nat)>)
    requires Parsed(n)
    ensures r.Ok? ==> r.value.0 == n
  {
    match n
    case BooleanNode(_, _) => Thrown
    case ObjectNode(_) => if b == OBJECT_END_MARKER then Ok((n, 1)) else Thrown
    case _ => Ok((n, 0))
  }

  /** It does what it did as long as it was not complete: the code does not look whether it is. */
  lemma RefedAsBefore(n: Node, b: Byte)
    requires n.ObjectNode? && Parsed(n) && Ended(n) && (n.fields.parser.Some? ==> Open(n.fields.parser.value))
    ensures var open := ObjectNode(n.fields.(marker := false));
            Open(open) && Refed(n, b) == match FeedNode(open, b) case Thrown => Thrown case Ok(m) => Ok((m, 1))
  {
    var f := n.fields.(marker := false);
    assert n == ObjectNode(f.(marker := true));
    assert FeedFields(f, b) == if b == OBJECT_END_MARKER then Ok(f.(marker := true)) else Thrown;
  }

  lemma RefedTakesNothing(n: Node, data: Text)
    requires Parsed(n) && !n.ObjectNode? && !n.BooleanNode? && |data| > 0
    ensures Refed(n, data[0]) == Consume(n, data, 0)
  {
  }

  /** What a parser makes of a piece. */
  function Received(p: Option<Node>, data: Text): Fed<(Node, nat)>
    requires |data| > 0 && (p.Some? ==> Parsed(p.value) || Open(p.value))
  {
    if p.Some? && Parsed(p.value) then Refed(p.value, data[0]) else ConsumeParser(p, data, 0)
  }

  /** The object the connection feeds with what it receives. */
  class AmfParser {
    var current: Option<Node>

    predicate Valid()
      reads this
    {
      current.Some? ==> (Parsed(current.value) || Open(current.value)) && Ended(current.value)
    }

    constructor ()
      ensures Valid() && current == None
    {
      current := None;
    }

    /** Consumes from a non-empty piece; what an exception leaves behind is not specified. */
    method Parse(data: Text) returns (r: Fed<nat>)
      requires Valid() && |data| > 0
      modifies this
      ensures Valid()
      ensures match Received(old(current), data)
              case Thrown => r == Thrown
              case Ok((n, used)) => r == Ok(used) && current == Some(n)
    {
      if current.Some? && Parsed(current.value) {
        r := ParseAgain(data);
        return;
      }
      var v := ParseParser(current, data, 0);
      if v.Thrown? {
        return Thrown;
      }
      if current.Some? {
        FeedEnds(current.value, data[0]);
      }
      ConsumeEnds(FeedParser(current, data[0]).value, data, 1);
      current := Some(v.value.0);
      return Ok(v.value.1);
    }

    /** The same calls on an object that is complete. */
    method ParseAgain(data: Text) returns (r: Fed<nat>)
      requires Valid() && |data| > 0 && current.Some? && Parsed(current.value)
      ensures r == match Refed(current.value, data[0]) case Thrown => Thrown case Ok((_, used)) => Ok(used)
    {
      match current.value
      case NumberNode(u) =>
        var u', next := ParseUint(u, data, 0);
        r := Ok(next);
      case BooleanNode(_, _) =>
        r := Thrown;
      case StringNode(c) =>
        var c', next := ParseChars(c, data, 0);
        r := Ok(next);
      case ObjectNode(f) =>
        r := if data[0] != OBJECT_END_MARKER then Thrown else Ok(1);
      case _ =>
        r := Ok(0);
    }

    method GetObject() returns (v: Option<Value>)
      requires Valid()
      modifies this
      ensures Valid()
      ensures if old(current).Some? && Parsed(old(current).value)
              then v == Some(ValueOf(old(current).value)) && current == None
              else v == None && current == old(current)
    {
      if current.Some? && Parsed(current.value) {
        v := Some(ValueOf(current.value));
        current := None;
      } else {
        v := None;
      }
    }
  }
}
