/** The BSON 1.1 document and element grammar in the types the cursor
    recognises, its meaning, and the agreement of the observed cursor with it. */
module BsonGrammar {
  import opened Basics
  import opened Bson

  datatype Scalar =
    | DoubleOf(bits: nat) | BoolOf(b: bool) | Int32Of(n: int) | Int64Of(m: int) | Text(s: seq<byte>)
    | Undefined | Null | ObjectId(oid: seq<byte>) | DateTime(at: nat) | Timestamp(ts: nat)
    | Binary(subtype: byte, data: seq<byte>) | Regex(pattern: seq<byte>, flags: seq<byte>)
    | DbRef(name: seq<byte>, oid: seq<byte>) | Code(source: seq<byte>) | Symbol(source: seq<byte>)

  /** A leaf is a type byte, its payload and what it means; WellFormed says that
      these are some scalar's. */
  datatype Node =
    | Leaf(typ: byte, payload: seq<byte>, value: Option<Value>)
    | Nested(isArray: bool, fields: Fields)
    | CodeWithScope(source: seq<byte>, scope: Fields)

  /** The elements of a document up to its closing zero byte, or up to an element
      of a type the cursor does not know, whatever its bytes and those after it. */
  datatype Fields = End | Foreign(typ: byte, key: seq<byte>, tail: seq<byte>)
      | Field(key: seq<byte>, node: Node, rest: Fields)

  /** The unknown type that ends the elements, or zero. */
  function ForeignType(fields: Fields): byte {
    match fields
    case End => 0
    case Foreign(typ, _, _) => typ
    case Field(_, _, rest) => ForeignType(rest)
  }

  function ScalarType(scalar: Scalar): (r: byte)
    ensures r != 0 && r != 0x03 && r != 0x04
  {
    match scalar
    case DoubleOf(_) => 0x01 case Text(_) => 0x02 case Binary(_, _) => 0x05 case Undefined => 0x06
    case ObjectId(_) => 0x07 case BoolOf(_) => 0x08 case DateTime(_) => 0x09 case Null => 0x0a
    case Regex(_, _) => 0x0b case DbRef(_, _) => 0x0c case Code(_) => 0x0d case Symbol(_) => 0x0e
    case Int32Of(_) => 0x10 case Timestamp(_) => 0x11 case Int64Of(_) => 0x12
  }

  function TypeOf(node: Node): byte {
    match node
    case Leaf(typ, _, _) => typ
    case Nested(isArray, _) => if isArray then 0x04 else 0x03
    case CodeWithScope(_, _) => 0x0f
  }

  /** n in k little-endian bytes. */
  function Bytes(n: nat, k: nat): (r: seq<byte>)
    ensures |r| == k
  {
    if k == 0 then [] else [n % 256] + Bytes(n / 256, k - 1)
  }

  function Size(k: nat): (r: nat)
    ensures r > 0
  {
    if k == 0 then 1 else 256 * Size(k - 1)
  }

  /** A length-prefixed string with its closing zero byte. */
  function LongText(s: seq<byte>): seq<byte> { Bytes(|s| + 1, INT32) + (s + [0]) }

  function ScalarPayload(scalar: Scalar): seq<byte> {
    match scalar
    case DoubleOf(bits) => Bytes(bits, INT64)
    case BoolOf(b) => [if b then 1 else 0]
    case Int32Of(n) => Bytes(n % 0x1_0000_0000, INT32)
    case Int64Of(m) => Bytes(m % 0x1_0000_0000_0000_0000, INT64)
    case Text(s) => LongText(s)
    case Undefined => []
    case Null => []
    case ObjectId(oid) => oid
    case DateTime(at) => Bytes(at, INT64)
    case Timestamp(ts) => Bytes(ts, INT64)
    case Binary(subtype, data) => Bytes(|data|, INT32) + ([subtype] + data)
    case Regex(pattern, flags) => pattern + ([0] + (flags + [0]))
    case DbRef(name, oid) => LongText(name) + oid
    case Code(source) => LongText(source)
    case Symbol(source) => LongText(source)
  }

  function Payload(node: Node): seq<byte>
    decreases node, 2
  {
    match node
    case Leaf(_, payload, _) => payload
    case Nested(_, fields) => EncodeDocument(fields)
    case CodeWithScope(source, scope) =>
      var body := LongText(source) + EncodeDocument(scope);
      Bytes(|body| + 4, INT32) + body
  }

  /** A list of elements with its closing zero byte. */
  function EncodeFields(fields: Fields): seq<byte>
    decreases fields, 0
  {
    match fields
    case End => [0]
    case Foreign(typ, key, tail) => [typ] + (key + ([0] + tail))
    case Field(key, node, rest) => [TypeOf(node)] + (key + ([0] + (Payload(node) + EncodeFields(rest))))
  }

  function EncodeDocument(fields: Fields): seq<byte>
    decreases fields, 1
  {
    Bytes(|EncodeFields(fields)| + 4, INT32) + EncodeFields(fields)
  }

  predicate NulFree(s: seq<byte>) { forall b :: b in s ==> b != 0 }

  /** Numbers fit their widths, object identities are twelve bytes, and strings
      the cursor reads are zero-free and valid. */
  predicate ScalarForm(scalar: Scalar, valid: seq<byte> -> bool) {
    |ScalarPayload(scalar)| < 0x8000_0000 &&
    match scalar
    case DoubleOf(bits) => bits < 0x1_0000_0000_0000_0000
    case Int32Of(n) => -0x8000_0000 <= n < 0x8000_0000
    case Int64Of(m) => -0x8000_0000_0000_0000 <= m < 0x8000_0000_0000_0000
    case Text(s) => NulFree(s) && valid(s)
    case ObjectId(oid) => |oid| == 12
    case Regex(pattern, flags) => NulFree(pattern) && NulFree(flags)
    case DbRef(_, oid) => |oid| == 12
    case _ => true
  }

  predicate IsScalar(node: Node, scalar: Scalar, valid: seq<byte> -> bool) {
    ScalarForm(scalar, valid) && node == Leaf(ScalarType(scalar), ScalarPayload(scalar), ScalarMeaning(scalar))
  }

  /** Every length prefix fits a signed 32-bit integer. */
  ghost predicate WellFormed(node: Node, valid: seq<byte> -> bool) {
    Width(node) < 0x8000_0000 &&
    match node
    case Leaf(_, _, _) => exists scalar :: IsScalar(node, scalar, valid)
    case Nested(_, fields) => AllWellFormed(fields, valid)
    case CodeWithScope(_, _) => true
  }

  /** Types above 0x12 are unknown. */
  predicate Unrecognised(typ: byte) { typ > 0x12 }

  /** Keys are zero-free, and valid where something is read for them. */
  ghost predicate AllWellFormed(fields: Fields, valid: seq<byte> -> bool) {
    match fields
    case End => true
    case Foreign(typ, key, _) => Unrecognised(typ) && NulFree(key)
    case Field(key, node, rest) => NulFree(key) && valid(key) && WellFormed(node, valid) && AllWellFormed(rest, valid)
  }

  function ScalarMeaning(scalar: Scalar): Option<Value> {
    match scalar
    case DoubleOf(bits) => Some(Double(bits))
    case BoolOf(b) => Some(Bool(b))
    case Int32Of(n) => Some(Int32(n))
    case Int64Of(m) => Some(Int64(m))
    case Text(s) => Some(Str(s))
    case _ => None
  }

  /** The tree the grammar gives: nulls and types without a value branch assign
      nothing, and a later duplicate replaces an earlier one. */
  function Meaning(node: Node): Option<Value> {
    match node
    case Leaf(_, _, value) => value
    case Nested(isArray, fields) => Some(if isArray then Arr(Items(fields)) else Doc(Entries(fields)))
    case CodeWithScope(_, _) => None
  }

  /** Arrays keep the assigned values in order and forget the keys. */
  function Items(fields: Fields): seq<Value> {
    match fields
    case Field(_, node, rest) =>
      var value := Meaning(node);
      (if value.Some? then [value.value] else []) + Items(rest)
    case _ => []
  }

  /** Built from the back: an earlier field counts only where no later one
      assigns its key. */
  function Entries(fields: Fields): map<seq<byte>, Value> {
    match fields
    case Field(key, node, rest) =>
      var later := Entries(rest);
      var value := Meaning(node);
      if value.Some? && key !in later then later[key := value.value] else later
    case _ => map[]
  }

  /** Nesting below this level, and the visits the cursor makes: one per element
      met and one per closing zero byte. */
  function Depth(fields: Fields): nat {
    match fields
    case Field(_, node, rest) =>
      var inner := if node.Nested? then 1 + Depth(node.fields) else 0;
      if inner > Depth(rest) then inner else Depth(rest)
    case _ => 0
  }

  function Visits(fields: Fields): nat {
    match fields
    case End => 1
    case Foreign(_, _, _) => 1
    case Field(_, node, rest) => 1 + (if node.Nested? then Visits(node.fields) else 0) + Visits(rest)
  }

  /** Encoded widths. */
  function Width(node: Node): nat {
    match node
    case Leaf(_, payload, _) => |payload|
    case Nested(_, fields) => FieldsWidth(fields) + 5
    case CodeWithScope(source, scope) => |source| + FieldsWidth(scope) + 14
  }

  function FieldsWidth(fields: Fields): nat {
    match fields
    case End => 0
    case Foreign(_, key, tail) => |key| + 1 + |tail|
    case Field(key, node, rest) => |key| + 2 + Width(node) + FieldsWidth(rest)
  }

  lemma {:induction false} Widths(fields: Fields)
    ensures |EncodeFields(fields)| == FieldsWidth(fields) + 1
  {
    if fields.Field? {
      NodeWidths(fields.node);
      Widths(fields.rest);
    }
  }

  lemma {:induction false} NodeWidths(node: Node)
    ensures |Payload(node)| == Width(node)
  {
    match node
    case Leaf(_, _, _) =>
    case Nested(_, fields) => Widths(fields);
    case CodeWithScope(_, scope) => Widths(scope);
  }

  lemma {:induction false} VisitsAtMostWidth(fields: Fields)
    ensures Visits(fields) <= FieldsWidth(fields) + 1
  {
    if fields.Field? {
      VisitsAtMostWidth(fields.rest);
      if fields.node.Nested? { VisitsAtMostWidth(fields.node.fields); }
    }
  }

  /** part lies in src at pos. */
  predicate At(src: seq<byte>, pos: nat, part: seq<byte>) {
    pos + |part| <= |src| && forall i {:trigger part[i]} :: 0 <= i < |part| ==> part[i] == src[pos + i]
  }

  lemma AtSplit(src: seq<byte>, pos: nat, left: seq<byte>, right: seq<byte>)
    requires At(src, pos, left + right)
    ensures At(src, pos, left) && At(src, pos + |left|, right)
  {
    forall i | 0 <= i < |left| ensures left[i] == src[pos + i] {
      assert (left + right)[i] == left[i];
    }
    forall i | 0 <= i < |right| ensures right[i] == src[pos + |left| + i] {
      assert (left + right)[|left| + i] == right[i];
    }
  }

  lemma {:induction false} BytesRead(src: seq<byte>, pos: nat, n: nat, k: nat)
    requires n < Size(k) && At(src, pos, Bytes(n, k))
    ensures LittleEndian(src, pos, k) == n
    decreases k
  {
    if k > 0 {
      OneAt(src, pos, n % 256, Bytes(n / 256, k - 1));
      BytesRead(src, pos + 1, n / 256, k - 1);
    }
  }

  lemma {:induction false} SpanAt(src: seq<byte>, pos: nat, s: seq<byte>)
    requires At(src, pos, s)
    ensures Span(src, pos, pos + |s|) == s
    decreases |s|
  {
    if s != [] {
      assert s == [s[0]] + s[1..];
      OneAt(src, pos, s[0], s[1..]);
      SpanAt(src, pos + 1, s[1..]);
    }
  }

  lemma Sizes()
    ensures Size(4) == 0x1_0000_0000 && Size(8) == 0x1_0000_0000_0000_0000
  {
    assert Size(1) == 256 && Size(2) == 65536 && Size(3) == 0x100_0000 && Size(4) == 0x1_0000_0000;
    assert Size(5) == 0x100_0000_0000 && Size(6) == 0x1_0000_0000_0000 && Size(7) == 0x100_0000_0000_0000;
  }

  lemma LengthRead(src: seq<byte>, pos: nat, n: nat, tail: seq<byte>)
    requires n < 0x8000_0000 && At(src, pos, Bytes(n, INT32) + tail)
    ensures pos + 4 + |tail| <= |src| && Int32At(src, pos) == n && At(src, pos + 4, tail)
  {
    Sizes();
    AtSplit(src, pos, Bytes(n, INT32), tail);
    BytesRead(src, pos, n, INT32);
  }

  lemma {:induction false} NulAfter(src: seq<byte>, pos: nat, s: seq<byte>)
    requires NulFree(s) && At(src, pos, s) && pos + |s| < |src| && src[pos + |s|] == 0
    ensures FindNul(src, pos) == pos + |s|
    decreases |s|
  {
    if s != [] {
      assert s == [s[0]] + s[1..] && s[0] in s;
      OneAt(src, pos, s[0], s[1..]);
      assert forall c :: c in s[1..] ==> c in s;
      NulAfter(src, pos + 1, s[1..]);
    }
  }

  lemma OneAt(src: seq<byte>, pos: nat, b: byte, tail: seq<byte>)
    requires At(src, pos, [b] + tail)
    ensures pos < |src| && src[pos] == b && At(src, pos + 1, tail)
  {
    AtSplit(src, pos, [b], tail);
    assert src[pos + 0] == [b][0];
  }

  /** A zero-ended string and what follows it. */
  lemma CStringAt(src: seq<byte>, pos: nat, s: seq<byte>, tail: seq<byte>)
    requires NulFree(s) && At(src, pos, s + ([0] + tail))
    ensures FindNul(src, pos) == pos + |s| < |src| && Span(src, pos, pos + |s|) == s && At(src, pos + |s| + 1, tail)
  {
    AtSplit(src, pos, s, [0] + tail);
    OneAt(src, pos + |s|, 0, tail);
    NulAfter(src, pos, s);
    SpanAt(src, pos, s);
  }

  /** The element a value, or a type without one, reads as. */
  function Element(value: Option<Value>, next: nat): Bson.Element {
    if value.Some? then Found(value.value, next) else Skipped(next)
  }

  lemma Modular(n: int, m: int)
    ensures -0x8000_0000 <= n < 0x8000_0000 ==> Signed32(n % 0x1_0000_0000) == n
    ensures -0x8000_0000_0000_0000 <= m < 0x8000_0000_0000_0000 ==> Signed64(m % 0x1_0000_0000_0000_0000) == m
  {
  }

  lemma NumberRead(src: seq<byte>, pos: nat, scalar: Scalar, limits: Limits)
    requires ScalarForm(scalar, limits.valid) && ScalarMeaning(scalar).Some? && !scalar.Text?
    requires At(src, pos, ScalarPayload(scalar))
    ensures ScalarAt(src, pos, ScalarType(scalar), limits) ==
      Element(ScalarMeaning(scalar), pos + |ScalarPayload(scalar)|)
  {
    Sizes();
    match scalar
    case DoubleOf(bits) => BytesRead(src, pos, bits, INT64);
    case BoolOf(b) =>
      assert [if b then 1 else 0] + [] == [if b then 1 else 0];
      OneAt(src, pos, if b then 1 else 0, []);
    case Int32Of(n) => BytesRead(src, pos, n % 0x1_0000_0000, INT32); Modular(n, 0);
    case Int64Of(m) => BytesRead(src, pos, m % 0x1_0000_0000_0000_0000, INT64); Modular(0, m);
  }

  lemma TextRead(src: seq<byte>, pos: nat, s: seq<byte>, limits: Limits)
    requires NulFree(s) && limits.valid(s) && |s| + 5 < 0x8000_0000 && At(src, pos, LongText(s))
    ensures StringAt(src, pos, limits) == Found(Str(s), pos + 5 + |s|)
  {
    LengthRead(src, pos, |s| + 1, s + [0]);
    assert [0] + [] == [0];
    CStringAt(src, pos + 4, s, []);
  }

  lemma RegexSkips(src: seq<byte>, pos: nat, pattern: seq<byte>, flags: seq<byte>)
    requires NulFree(pattern) && NulFree(flags) && At(src, pos, pattern + ([0] + (flags + [0])))
    ensures SkipWidth(src, pos, 0x0b) == Some(pos + |pattern| + |flags| + 2)
  {
    CStringAt(src, pos, pattern, flags + [0]);
    assert [0] + [] == [0];
    CStringAt(src, pos + |pattern| + 1, flags, []);
  }

  lemma LongTextSkips(src: seq<byte>, pos: nat, s: seq<byte>, tail: seq<byte>)
    requires |s| + 5 < 0x8000_0000 && At(src, pos, LongText(s) + tail)
    ensures pos + 5 + |s| + |tail| <= |src| && Int32At(src, pos) == |s| + 1
  {
    AtSplit(src, pos, LongText(s), tail);
    LengthRead(src, pos, |s| + 1, s + [0]);
  }

  lemma ScalarSkips(src: seq<byte>, pos: nat, scalar: Scalar, valid: seq<byte> -> bool)
    requires ScalarForm(scalar, valid) && ScalarMeaning(scalar).None? && !scalar.Null?
    requires At(src, pos, ScalarPayload(scalar))
    ensures SkipWidth(src, pos, ScalarType(scalar)) == Some(pos + |ScalarPayload(scalar)|)
  {
    match scalar
    case Binary(subtype, data) =>
      LengthRead(src, pos, |data|, [subtype] + data);
    case Regex(pattern, flags) => RegexSkips(src, pos, pattern, flags);
    case DbRef(name, oid) => LongTextSkips(src, pos, name, oid);
    case Code(source) => assert LongText(source) + [] == LongText(source); LongTextSkips(src, pos, source, []);
    case Symbol(source) => assert LongText(source) + [] == LongText(source); LongTextSkips(src, pos, source, []);
    case _ =>
  }

  lemma ScalarRead(src: seq<byte>, pos: nat, scalar: Scalar, limits: Limits)
    requires ScalarForm(scalar, limits.valid) && At(src, pos, ScalarPayload(scalar))
    ensures ScalarAt(src, pos, ScalarType(scalar), limits) ==
      Element(ScalarMeaning(scalar), pos + |ScalarPayload(scalar)|)
  {
    if scalar.Text? {
      TextRead(src, pos, scalar.s, limits);
    } else if ScalarMeaning(scalar).Some? {
      NumberRead(src, pos, scalar, limits);
    } else if !scalar.Null? {
      ScalarSkips(src, pos, scalar, limits.valid);
    }
  }

  /** The container after the remaining fields. */
  function Grown(container: Value, fields: Fields): (r: Value)
    requires container.Doc? || container.Arr?
  {
    if container.Arr? then Arr(container.items + Items(fields)) else Doc(container.fields + Entries(fields))
  }

  lemma GrownStep(container: Value, fields: Fields)
    requires fields.Field? && (container.Doc? || container.Arr?)
    ensures Grown(container, fields) ==
      Grown(Taken(container, fields.key, Meaning(fields.node)), fields.rest)
  {
    var value := Meaning(fields.node);
    if container.Arr? && value.Some? {
      assert container.items + ([value.value] + Items(fields.rest)) ==
        container.items + [value.value] + Items(fields.rest);
    } else if container.Arr? {
      assert [] + Items(fields.rest) == Items(fields.rest);
    } else if value.Some? {
      assert container.fields + Entries(fields) == container.fields[fields.key := value.value] + Entries(fields.rest);
    }
  }

  predicate Fits(fields: Fields, limits: Limits, work: nat, depth: nat) {
    depth + Depth(fields) <= limits.maxDepth && work + Visits(fields) <= limits.maxWork
  }

  function NodeVisits(node: Node): nat { if node.Nested? then Visits(node.fields) else 0 }

  predicate NodeFits(node: Node, limits: Limits, work: nat, depth: nat) {
    node.Nested? ==> Fits(node.fields, limits, work, depth + 1)
  }

  /** The fields and their closing zero byte as the cursor meets them: keys where
      the scan for a zero byte ends them, and each node where it reads as its
      meaning and its declared width. */
  ghost predicate Lies(src: seq<byte>, pos: nat, fields: Fields, limits: Limits)
    decreases fields
  {
    pos < |src| &&
    if fields.End? then src[pos] == 0
    else if fields.Foreign? then src[pos] == fields.typ && Unrecognised(fields.typ) && FindNul(src, pos + 1) < |src|
    else
      var nul := FindNul(src, pos + 1);
      && nul < |src| && src[pos] == TypeOf(fields.node)
      && Span(src, pos + 1, nul) == fields.key && limits.valid(fields.key)
      && NodeLies(src, nul + 1, fields.node, limits)
      && Lies(src, nul + 1 + Width(fields.node), fields.rest, limits)
  }

  ghost predicate NodeLies(src: seq<byte>, pos: nat, node: Node, limits: Limits)
    decreases node
  {
    if node.Nested? then
      pos + 5 <= |src| && 5 <= Int32At(src, pos) == Width(node) <= |src| - pos &&
        Lies(src, pos + 4, node.fields, limits)
    else
      pos <= |src| && TypeOf(node) !in {0x00, 0x03, 0x04} && LeafLies(src, pos, node, pos + Width(node), limits)
  }

  /** The cursor reads the leaf's value and its end; quantified so that a proof
      which only passes it on need not look into the cursor. */
  ghost predicate LeafLies(src: seq<byte>, pos: nat, node: Node, next: nat, limits: Limits)
    requires pos <= |src|
  {
    forall e :: e == ScalarAt(src, pos, TypeOf(node), limits) ==> IsElement(e, node, next)
  }

  predicate IsElement(e: Bson.Element, node: Node, next: nat) { e == Element(Meaning(node), next) }

  // ---- What is encoded is met ----

  /** Where the payload lies, the cursor reads the node's value from it. */
  ghost predicate ReadsAt(src: seq<byte>, pos: nat, node: Node, limits: Limits)
    requires !node.Nested?
  {
    At(src, pos, Payload(node)) ==> NodeLies(src, pos, node, limits)
  }

  ghost predicate Readable(node: Node, limits: Limits)
    requires !node.Nested?
  {
    forall src, pos: nat :: ReadsAt(src, pos, node, limits)
  }

  ghost predicate NodeReadable(node: Node, limits: Limits) {
    if node.Nested? then Width(node) < 0x8000_0000 && AllReadable(node.fields, limits) else Readable(node, limits)
  }

  ghost predicate AllReadable(fields: Fields, limits: Limits) {
    match fields
    case End => true
    case Foreign(typ, key, _) => Unrecognised(typ) && NulFree(key)
    case Field(key, node, rest) =>
      NulFree(key) && limits.valid(key) && NodeReadable(node, limits) && AllReadable(rest, limits)
  }

  lemma LeafReadable(node: Node, limits: Limits)
    requires !node.Nested? && WellFormed(node, limits.valid)
    ensures Readable(node, limits)
  {
    forall src, pos: nat
      ensures ReadsAt(src, pos, node, limits)
    {
      if At(src, pos, Payload(node)) { LeafRead(src, pos, node, limits); }
    }
  }

  lemma LeafRead(src: seq<byte>, pos: nat, node: Node, limits: Limits)
    requires !node.Nested? && WellFormed(node, limits.valid) && At(src, pos, Payload(node))
    ensures NodeLies(src, pos, node, limits)
  {
    NodeWidths(node);
    if node.Leaf? {
      var scalar :| IsScalar(node, scalar, limits.valid);
      ScalarRead(src, pos, scalar, limits);
    } else {
      var body := LongText(node.source) + EncodeDocument(node.scope);
      LengthRead(src, pos, |body| + 4, body);
    }
  }

  lemma {:induction false} WellFormedReadable(fields: Fields, limits: Limits)
    requires AllWellFormed(fields, limits.valid)
    ensures AllReadable(fields, limits)
  {
    if fields.Field? {
      if fields.node.Nested? {
        WellFormedReadable(fields.node.fields, limits);
      } else {
        LeafReadable(fields.node, limits);
      }
      WellFormedReadable(fields.rest, limits);
    }
  }

  lemma {:induction false} EncodedLies(src: seq<byte>, pos: nat, fields: Fields, limits: Limits)
    requires AllReadable(fields, limits) && At(src, pos, EncodeFields(fields))
    ensures Lies(src, pos, fields, limits)
    decreases fields, 1
  {
    if fields.End? {
      EndLies(src, pos, limits);
    } else if fields.Foreign? {
      OneAt(src, pos, fields.typ, fields.key + ([0] + fields.tail));
      CStringAt(src, pos + 1, fields.key, fields.tail);
    } else {
      var nul := FieldAt(src, pos, fields);
      PartsLie(src, nul + 1, fields, limits);
      FieldLies(src, pos, nul, fields, limits);
    }
  }

  lemma {:induction false} PartsLie(src: seq<byte>, pos: nat, fields: Fields, limits: Limits)
    requires fields.Field? && NodeReadable(fields.node, limits) && At(src, pos, Payload(fields.node))
    requires AllReadable(fields.rest, limits) && At(src, pos + Width(fields.node), EncodeFields(fields.rest))
    ensures NodeLies(src, pos, fields.node, limits) && Lies(src, pos + Width(fields.node), fields.rest, limits)
    decreases fields, 0
  {
    EncodedNodeLies(src, pos, fields.node, limits);
    EncodedLies(src, pos + Width(fields.node), fields.rest, limits);
  }

  lemma EndLies(src: seq<byte>, pos: nat, limits: Limits)
    requires At(src, pos, [0])
    ensures Lies(src, pos, End, limits)
  {
    assert [0] + [] == [0];
    OneAt(src, pos, 0, []);
  }

  lemma FieldLies(src: seq<byte>, pos: nat, nul: nat, fields: Fields, limits: Limits)
    requires fields.Field? && pos < |src| && nul == FindNul(src, pos + 1) < |src| && src[pos] == TypeOf(fields.node)
    requires Span(src, pos + 1, nul) == fields.key && limits.valid(fields.key)
    requires NodeLies(src, nul + 1, fields.node, limits)
    requires Lies(src, nul + 1 + Width(fields.node), fields.rest, limits)
    ensures Lies(src, pos, fields, limits)
  {
  }

  lemma FieldAt(src: seq<byte>, pos: nat, fields: Fields) returns (nul: nat)
    requires fields.Field? && NulFree(fields.key) && At(src, pos, EncodeFields(fields))
    ensures pos < |src| && src[pos] == TypeOf(fields.node)
    ensures nul == FindNul(src, pos + 1) < |src| && Span(src, pos + 1, nul) == fields.key
    ensures At(src, nul + 1, Payload(fields.node)) && At(src, nul + 1 + Width(fields.node), EncodeFields(fields.rest))
  {
    nul := Parts(src, pos, TypeOf(fields.node), fields.key, Payload(fields.node), EncodeFields(fields.rest));
    NodeWidths(fields.node);
  }

  lemma Parts(src: seq<byte>, pos: nat, typ: byte, key: seq<byte>, payload: seq<byte>, after: seq<byte>)
    returns (nul: nat)
    requires NulFree(key) && At(src, pos, [typ] + (key + ([0] + (payload + after))))
    ensures pos < |src| && src[pos] == typ && nul == FindNul(src, pos + 1) < |src| && Span(src, pos + 1, nul) == key
    ensures At(src, nul + 1, payload) && At(src, nul + 1 + |payload|, after)
  {
    OneAt(src, pos, typ, key + ([0] + (payload + after)));
    CStringAt(src, pos + 1, key, payload + after);
    AtSplit(src, pos + |key| + 2, payload, after);
    nul := pos + 1 + |key|;
  }

  lemma {:induction false} EncodedNodeLies(src: seq<byte>, pos: nat, node: Node, limits: Limits)
    requires NodeReadable(node, limits) && At(src, pos, Payload(node))
    ensures NodeLies(src, pos, node, limits)
    decreases node, 0
  {
    if node.Nested? {
      NodeWidths(node);
      LengthRead(src, pos, |EncodeFields(node.fields)| + 4, EncodeFields(node.fields));
      EncodedLies(src, pos + 4, node.fields, limits);
    } else {
      assert ReadsAt(src, pos, node, limits);
    }
  }

  // ---- What is met is read ----

  /** A loop's result against the grammar: its tree exactly when nesting and
      visits fit, and a bounds error otherwise. */
  predicate Agrees(r: (Loop, nat), fields: Fields, limits: Limits, work: nat, depth: nat, propagate: bool,
                   container: Value)
    requires container.Doc? || container.Arr?
  {
    if Fits(fields, limits, work, depth) then
      r.0.Ended? && r.0.value == Grown(container, fields) && r.0.unknown == Reported(fields, propagate) &&
      r.1 == work + Visits(fields)
    else r.0 == Stopped(Bounds)
  }

  /** Only the top document reports an unknown type. */
  function Reported(fields: Fields, propagate: bool): byte { if propagate then ForeignType(fields) else 0 }

  predicate NodeAgrees(r: (Bson.Element, nat), node: Node, next: nat, limits: Limits, work: nat, depth: nat) {
    if NodeFits(node, limits, work, depth) then r == (Element(Meaning(node), next), work + NodeVisits(node))
    else r.0 == Failed(Bounds)
  }

  /** The same of the cursor's own results, quantified so that a proof which only
      passes them on need not look into the cursor. */
  ghost predicate Settles(src: seq<byte>, pos: nat, fields: Fields, limits: Limits,
                          work: nat, depth: nat, propagate: bool, container: Value)
    requires pos <= |src| && depth <= limits.maxDepth && work <= limits.maxWork && (container.Doc? || container.Arr?)
  {
    forall r :: r == Visit(src, pos, limits, work, depth, propagate, container) ==>
      Agrees(r, fields, limits, work, depth, propagate, container)
  }

  ghost predicate NodeSettles(src: seq<byte>, pos: nat, node: Node, next: nat, limits: Limits, work: nat, depth: nat)
    requires pos <= |src| && depth <= limits.maxDepth && work <= limits.maxWork
  {
    forall r :: r == ElementAt(src, pos, TypeOf(node), limits, work, depth) ==>
      NodeAgrees(r, node, next, limits, work, depth)
  }

  lemma EndSettles(src: seq<byte>, pos: nat, limits: Limits, work: nat, depth: nat, propagate: bool, container: Value)
    requires pos < |src| && src[pos] == 0
    requires depth <= limits.maxDepth && work <= limits.maxWork && (container.Doc? || container.Arr?)
    ensures Settles(src, pos, End, limits, work, depth, propagate, container)
  {
    assert Grown(container, End) == container;
  }

  lemma ForeignSettles(src: seq<byte>, pos: nat, fields: Fields, limits: Limits, work: nat, depth: nat, propagate: bool,
                       container: Value)
    requires fields.Foreign? && pos < |src| && src[pos] == fields.typ && Unrecognised(fields.typ)
    requires FindNul(src, pos + 1) < |src|
    requires depth <= limits.maxDepth && work <= limits.maxWork && (container.Doc? || container.Arr?)
    ensures Settles(src, pos, fields, limits, work, depth, propagate, container)
  {
    assert Grown(container, fields) == container;
    if work < limits.maxWork {
      var nul := FindNul(src, pos + 1);
      assert ElementAt(src, nul + 1, fields.typ, limits, work + 1, depth) == (Unknown(fields.typ, nul + 1), work + 1);
    }
  }

  lemma MoreAgrees(r: (Loop, nat), fields: Fields, limits: Limits, work: nat, depth: nat, propagate: bool,
                   container: Value)
    requires fields.Field? && NodeFits(fields.node, limits, work + 1, depth) && (container.Doc? || container.Arr?)
    requires Agrees(r, fields.rest, limits, work + 1 + NodeVisits(fields.node), depth, propagate,
                    Taken(container, fields.key, Meaning(fields.node)))
    ensures Agrees(r, fields, limits, work, depth, propagate, container)
  {
    GrownStep(container, fields);
  }

  /** The cursor over the fields it meets agrees with the grammar. */
  lemma {:induction false} FieldsRead(src: seq<byte>, pos: nat, fields: Fields, limits: Limits,
                                      work: nat, depth: nat, propagate: bool, container: Value)
    requires Lies(src, pos, fields, limits)
    requires depth <= limits.maxDepth && work <= limits.maxWork && (container.Doc? || container.Arr?)
    ensures Agrees(Visit(src, pos, limits, work, depth, propagate, container), fields, limits, work, depth, propagate,
                   container)
    decreases fields, 1
  {
    FieldsSettle(src, pos, fields, limits, work, depth, propagate, container);
  }

  lemma {:induction false} FieldsSettle(src: seq<byte>, pos: nat, fields: Fields, limits: Limits,
                                        work: nat, depth: nat, propagate: bool, container: Value)
    requires Lies(src, pos, fields, limits)
    requires depth <= limits.maxDepth && work <= limits.maxWork && (container.Doc? || container.Arr?)
    ensures Settles(src, pos, fields, limits, work, depth, propagate, container)
    decreases fields, 0
  {
    if fields.End? {
      EndSettles(src, pos, limits, work, depth, propagate, container);
    } else if fields.Foreign? {
      ForeignSettles(src, pos, fields, limits, work, depth, propagate, container);
    } else if work == limits.maxWork {
      SpentSettles(src, pos, fields, limits, depth, propagate, container);
    } else {
      var nul := FindNul(src, pos + 1);
      var next := nul + 1 + Width(fields.node);
      NodeRead(src, nul + 1, fields.node, limits, work + 1, depth);
      if NodeFits(fields.node, limits, work + 1, depth) {
        var spent, grown := work + 1 + NodeVisits(fields.node), Taken(container, fields.key, Meaning(fields.node));
        FieldsSettle(src, next, fields.rest, limits, spent, depth, propagate, grown);
        FieldSettles(src, pos, nul, next, spent, grown, fields, limits, work, depth, propagate, container);
      } else {
        FailureSettles(src, pos, nul, next, fields, limits, work, depth, propagate, container);
      }
    }
  }

  lemma SpentSettles(src: seq<byte>, pos: nat, fields: Fields, limits: Limits, depth: nat, propagate: bool,
                     container: Value)
    requires pos <= |src| && depth <= limits.maxDepth && fields.Field? && (container.Doc? || container.Arr?)
    ensures Settles(src, pos, fields, limits, limits.maxWork, depth, propagate, container)
  {
  }

  /** The first field's node does not fit. */
  lemma FailureSettles(src: seq<byte>, pos: nat, nul: nat, next: nat, fields: Fields, limits: Limits,
                       work: nat, depth: nat, propagate: bool, container: Value)
    requires fields.Field? && pos < |src| && src[pos] == TypeOf(fields.node) != 0
    requires nul == FindNul(src, pos + 1) < |src|
    requires depth <= limits.maxDepth && work < limits.maxWork && (container.Doc? || container.Arr?)
    requires NodeSettles(src, nul + 1, fields.node, next, limits, work + 1, depth)
    requires !NodeFits(fields.node, limits, work + 1, depth)
    ensures Settles(src, pos, fields, limits, work, depth, propagate, container)
  {
    var typ := TypeOf(fields.node);
    assert NodeAgrees(ElementAt(src, nul + 1, typ, limits, work + 1, depth), fields.node, next, limits, work + 1,
                      depth);
    TurnFails(src, pos, nul, typ, limits, work, depth, propagate, container);
  }

  /** The first field is taken. */
  lemma FieldTaken(src: seq<byte>, pos: nat, nul: nat, next: nat, spent: nat, grown: Value, fields: Fields,
                   limits: Limits, work: nat, depth: nat, propagate: bool, container: Value)
    requires fields.Field? && pos < |src| && src[pos] == TypeOf(fields.node) != 0
    requires nul == FindNul(src, pos + 1) < |src|
    requires Span(src, pos + 1, nul) == fields.key && limits.valid(fields.key)
    requires depth <= limits.maxDepth && work < limits.maxWork && (container.Doc? || container.Arr?)
    requires NodeSettles(src, nul + 1, fields.node, next, limits, work + 1, depth)
    requires NodeFits(fields.node, limits, work + 1, depth) && spent == work + 1 + NodeVisits(fields.node)
    requires grown == Taken(container, fields.key, Meaning(fields.node))
    ensures TurnAt(src, pos, limits, work, depth, propagate, container) == (More(next, grown), spent)
  {
    var typ := TypeOf(fields.node);
    assert NodeAgrees(ElementAt(src, nul + 1, typ, limits, work + 1, depth), fields.node, next, limits, work + 1,
                      depth);
    TurnRead(src, pos, nul, typ, fields.key, Meaning(fields.node), next, spent, limits, work, depth, propagate,
             container);
  }

  /** The others are read from where the first ends. */
  lemma MoreSettles(src: seq<byte>, pos: nat, next: nat, spent: nat, grown: Value, fields: Fields, limits: Limits,
                    work: nat, depth: nat, propagate: bool, container: Value)
    requires fields.Field? && pos <= next <= |src| && work <= spent <= limits.maxWork
    requires depth <= limits.maxDepth && (container.Doc? || container.Arr?)
    requires NodeFits(fields.node, limits, work + 1, depth) && spent == work + 1 + NodeVisits(fields.node)
    requires grown == Taken(container, fields.key, Meaning(fields.node))
    requires TurnAt(src, pos, limits, work, depth, propagate, container) == (More(next, grown), spent)
    requires Settles(src, next, fields.rest, limits, spent, depth, propagate, grown)
    ensures Settles(src, pos, fields, limits, work, depth, propagate, container)
  {
    VisitMore(src, pos, next, spent, grown, limits, work, depth, propagate, container);
    var r := Visit(src, next, limits, spent, depth, propagate, grown);
    assert Agrees(r, fields.rest, limits, spent, depth, propagate, grown);
    MoreAgrees(r, fields, limits, work, depth, propagate, container);
  }

  lemma FieldSettles(src: seq<byte>, pos: nat, nul: nat, next: nat, spent: nat, grown: Value, fields: Fields,
                     limits: Limits, work: nat, depth: nat, propagate: bool, container: Value)
    requires fields.Field? && pos < |src| && src[pos] == TypeOf(fields.node) != 0
    requires nul == FindNul(src, pos + 1) < |src|
    requires Span(src, pos + 1, nul) == fields.key && limits.valid(fields.key)
    requires depth <= limits.maxDepth && work < limits.maxWork && (container.Doc? || container.Arr?)
    requires NodeSettles(src, nul + 1, fields.node, next, limits, work + 1, depth)
    requires NodeFits(fields.node, limits, work + 1, depth) && nul < next <= |src|
    requires spent == work + 1 + NodeVisits(fields.node) <= limits.maxWork
    requires grown == Taken(container, fields.key, Meaning(fields.node))
    requires Settles(src, next, fields.rest, limits, spent, depth, propagate, grown)
    ensures Settles(src, pos, fields, limits, work, depth, propagate, container)
  {
    FieldTaken(src, pos, nul, next, spent, grown, fields, limits, work, depth, propagate, container);
    MoreSettles(src, pos, next, spent, grown, fields, limits, work, depth, propagate, container);
  }

  lemma VisitMore(src: seq<byte>, pos: nat, next: nat, spent: nat, grown: Value, limits: Limits,
                  work: nat, depth: nat, propagate: bool, container: Value)
    requires pos <= |src| && depth <= limits.maxDepth && work <= limits.maxWork && (container.Doc? || container.Arr?)
    requires TurnAt(src, pos, limits, work, depth, propagate, container) == (More(next, grown), spent)
    ensures Visit(src, pos, limits, work, depth, propagate, container) ==
      Visit(src, next, limits, spent, depth, propagate, grown)
  {
  }

  lemma TurnRead(src: seq<byte>, pos: nat, nul: nat, typ: byte, key: seq<byte>, value: Option<Value>, next: nat,
                 spent: nat, limits: Limits, work: nat, depth: nat, propagate: bool, container: Value)
    requires pos < |src| && src[pos] == typ != 0 && nul == FindNul(src, pos + 1) < |src|
    requires Span(src, pos + 1, nul) == key && limits.valid(key)
    requires depth <= limits.maxDepth && work < limits.maxWork && (container.Doc? || container.Arr?)
    requires ElementAt(src, nul + 1, typ, limits, work + 1, depth) == (Element(value, next), spent)
    ensures TurnAt(src, pos, limits, work, depth, propagate, container) ==
      (More(next, Taken(container, key, value)), spent)
  {
  }

  lemma TurnFails(src: seq<byte>, pos: nat, nul: nat, typ: byte, limits: Limits, work: nat, depth: nat, propagate: bool,
                  container: Value)
    requires pos < |src| && src[pos] == typ != 0 && nul == FindNul(src, pos + 1) < |src|
    requires depth <= limits.maxDepth && work < limits.maxWork && (container.Doc? || container.Arr?)
    requires ElementAt(src, nul + 1, typ, limits, work + 1, depth).0 == Failed(Bounds)
    ensures TurnAt(src, pos, limits, work, depth, propagate, container).0 == Halt(Stopped(Bounds))
  {
  }

  /** The container after one field. */
  function Taken(container: Value, key: seq<byte>, value: Option<Value>): (r: Value)
    requires container.Doc? || container.Arr?
    ensures (r.Doc? <==> container.Doc?) && (r.Arr? <==> container.Arr?)
  {
    if value.Some? then Assign(container, key, value.value) else container
  }

  lemma {:induction false} NodeRead(src: seq<byte>, pos: nat, node: Node, limits: Limits, work: nat, depth: nat)
    requires pos <= |src| && NodeLies(src, pos, node, limits) && depth <= limits.maxDepth && work <= limits.maxWork
    ensures TypeOf(node) != 0 && NodeSettles(src, pos, node, pos + Width(node), limits, work, depth)
    decreases node, 3
  {
    if node.Nested? {
      DocumentRead(src, pos + 4, node.fields, limits, work, depth + 1, node.isArray, false);
      NestedElement(src, pos, node.isArray, Document(src, pos + 4, limits, work, depth + 1, node.isArray, false),
                    limits, work, depth);
    } else {
      assert IsElement(ScalarAt(src, pos, TypeOf(node), limits), node, pos + Width(node));
    }
  }

  lemma NestedElement(src: seq<byte>, pos: nat, isArray: bool, nested: (Loop, nat), limits: Limits, work: nat,
                      depth: nat)
    requires pos + 5 <= |src| && 5 <= Int32At(src, pos) <= |src| - pos
    requires depth <= limits.maxDepth && work <= limits.maxWork
    requires nested == Document(src, pos + 4, limits, work, depth + 1, isArray, false)
    ensures ElementAt(src, pos, if isArray then 0x04 else 0x03, limits, work, depth) ==
      (if nested.0.Stopped? then Failed(nested.0.error) else Found(nested.0.value, pos + Int32At(src, pos)), nested.1)
  {
  }

  lemma {:induction false} DocumentRead(src: seq<byte>, pos: nat, fields: Fields, limits: Limits, work: nat, depth: nat,
                                        isArray: bool, propagate: bool)
    requires Lies(src, pos, fields, limits) && work <= limits.maxWork
    ensures Agrees(Document(src, pos, limits, work, depth, isArray, propagate), fields, limits, work, depth,
                   propagate, Empty(isArray))
    ensures Grown(Empty(isArray), fields) == Meaning(Nested(isArray, fields)).value
    decreases fields, 2
  {
    GrownFromEmpty(isArray, fields);
    if depth <= limits.maxDepth {
      FieldsRead(src, pos, fields, limits, work, depth, propagate, Empty(isArray));
    }
  }

  lemma GrownFromEmpty(isArray: bool, fields: Fields)
    ensures Grown(Empty(isArray), fields) == Meaning(Nested(isArray, fields)).value
  {
    assert map[] + Entries(fields) == Entries(fields);
    assert [] + Items(fields) == Items(fields);
  }

  lemma WholeLies(fields: Fields, rest: seq<byte>, limits: Limits)
    requires AllWellFormed(fields, limits.valid)
    ensures Lies(EncodeDocument(fields) + rest, 4, fields, limits)
  {
    WellFormedReadable(fields, limits);
    var src := EncodeDocument(fields) + rest;
    AtSplit(src, 0, EncodeDocument(fields), rest);
    AtSplit(src, 0, Bytes(|EncodeFields(fields)| + 4, INT32), EncodeFields(fields));
    EncodedLies(src, 4, fields, limits);
  }

  predicate WithinBytes(src: seq<byte>, options: Settings) { options.maxBytes <= 0 || |src| <= options.maxBytes }

  /** On every well-formed document, whatever follows it, the cursor returns the
      grammar's tree exactly when size, nesting and visits are within the limits,
      and reports the bounds error otherwise. The tree ends at an element of
      unknown type; the result names that type if the document itself holds it,
      and not if a nested one does. */
  lemma DecodesTheGrammar(fields: Fields, rest: seq<byte>, options: Settings, valid: seq<byte> -> bool)
    requires AllWellFormed(fields, valid)
    ensures var src := EncodeDocument(fields) + rest;
            var limits := LimitsOf(options, |src|, valid);
            Decode(src, options, valid).0 ==
              if WithinBytes(src, options) && Depth(fields) <= limits.maxDepth && Visits(fields) <= limits.maxWork then
                Decoded(Entries(fields), ForeignType(fields))
              else
                Refused(Bounds)
    ensures var r := Decode(EncodeDocument(fields) + rest, options, valid);
            r.0.Decoded? ==> r.1 == Visits(fields) <= |EncodeDocument(fields)|
  {
    var src := EncodeDocument(fields) + rest;
    if WithinBytes(src, options) {
      var limits := LimitsOf(options, |src|, valid);
      WholeLies(fields, rest, limits);
      DocumentRead(src, 4, fields, limits, 0, 0, false, true);
      VisitsAtMostWidth(fields);
      Widths(fields);
    }
  }

  /** Under default work and byte limits only nesting can refuse a document. */
  lemma DefaultLimitsSuffice(fields: Fields, options: Settings, valid: seq<byte> -> bool)
    requires AllWellFormed(fields, valid) && options.maxBytes <= 0 && options.maxWork <= 0
    ensures Decode(EncodeDocument(fields), options, valid).0 ==
      if Depth(fields) <= LimitsOf(options, 0, valid).maxDepth then Decoded(Entries(fields), ForeignType(fields))
      else Refused(Bounds)
  {
    assert EncodeDocument(fields) + [] == EncodeDocument(fields);
    DecodesTheGrammar(fields, [], options, valid);
    VisitsAtMostWidth(fields);
    Widths(fields);
  }
}
