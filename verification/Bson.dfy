/** The observed BSON cursor (internal/shadow/bounded_bson.go): it ignores the
    document length prefix and every container end, stops at a zero type byte,
    and lets a parent resume at the declared width of a child. */
module Bson {
  import opened Basics

  type byte = b: int | 0 <= b < 256

  datatype Value =
    | Double(bits: int) | Bool(b: bool) | Int32(n: int) | Int64(m: int) | Str(s: seq<byte>)
    | Doc(fields: map<seq<byte>, Value>) | Arr(items: seq<Value>)

  datatype Error = Bounds | Malformed | InvalidKey

  /** valid is the UTF-8 test. */
  datatype Limits = Limits(maxDepth: nat, maxWork: nat, valid: seq<byte> -> bool)

  /** One element: an error, an unrecognised type, a value the helper does not
      assign, or a value; next is where the cursor resumes. */
  datatype Element = Failed(error: Error) | Unknown(typ: byte, next: nat) | Skipped(next: nat)
      | Found(value: Value, next: nat)

  /** A document loop's end, and the element visits spent so far. */
  datatype Loop = Stopped(error: Error) | Ended(value: Value, next: nat, unknown: byte)

  /** Widths of the fixed-size integers. */
  const INT32: nat := 4
  const INT64: nat := 8

  function LittleEndian(src: seq<byte>, pos: nat, n: nat): (r: nat)
    requires pos + n <= |src|
    decreases n
  {
    if n == 0 then 0 else src[pos] + 256 * LittleEndian(src, pos + 1, n - 1)
  }

  /** The bytes from pos up to end, one by one. */
  function Span(src: seq<byte>, pos: nat, end: nat): (r: seq<byte>)
    requires pos <= end <= |src|
    decreases end - pos
  {
    if pos == end then [] else [src[pos]] + Span(src, pos + 1, end)
  }

  lemma {:induction false} SpanIsSlice(src: seq<byte>, pos: nat, end: nat)
    requires pos <= end <= |src|
    ensures Span(src, pos, end) == src[pos..end]
    decreases end - pos
  {
    if pos < end { SpanIsSlice(src, pos + 1, end); }
  }

  function Signed32(n: int): int { if n < 0x8000_0000 then n else n - 0x1_0000_0000 }
  function Signed64(n: int): int { if n < 0x8000_0000_0000_0000 then n else n - 0x1_0000_0000_0000_0000 }

  function Int32At(src: seq<byte>, pos: nat): int
    requires pos + 4 <= |src|
  {
    Signed32(LittleEndian(src, pos, INT32))
  }

  /** The first zero byte at or after pos, or the end. */
  function FindNul(src: seq<byte>, pos: nat): (end: nat)
    requires pos <= |src|
    ensures pos <= end <= |src|
    ensures forall i :: pos <= i < end ==> src[i] != 0
    ensures end < |src| ==> src[end] == 0
    decreases |src| - pos
  {
    if pos == |src| || src[pos] == 0 then pos else FindNul(src, pos + 1)
  }

  predicate NoValueType(typ: byte) {
    typ == 0x05 || typ == 0x06 || typ == 0x07 || typ == 0x09 || (0x0b <= typ <= 0x0f) || typ == 0x11
  }

  /** The width of a recognised type that has no value branch. */
  function SkipWidth(src: seq<byte>, pos: nat, typ: byte): (end: Option<nat>)
    requires pos <= |src|
    ensures end.Some? ==> pos <= end.value <= |src|
  {
    if typ == 0x06 then Some(pos)
    else if typ == 0x07 then Within(src, pos, 12)
    else if typ == 0x09 || typ == 0x11 then Within(src, pos, 8)
    else if typ == 0x0b then
      var first := FindNul(src, pos);
      if first == |src| then None
      else var second := FindNul(src, first + 1);
           if second == |src| then None else Some(second + 1)
    else if |src| - pos < (if typ == 0x05 then 5 else 4) then None
    else
      var n := Int32At(src, pos);
      if n < 0 then None
      else Within(src, pos, n + (if typ == 0x05 then 5 else if typ == 0x0c then 16 else if typ == 0x0f then 0 else 4))
  }

  function Within(src: seq<byte>, pos: nat, n: nat): (end: Option<nat>)
    requires pos <= |src|
    ensures end.Some? ==> end.value == pos + n <= |src|
  {
    if n > |src| - pos then None else Some(pos + n)
  }

  function Remaining(limits: Limits, depth: nat): nat {
    if depth <= limits.maxDepth then limits.maxDepth + 1 - depth else 0
  }

  /** An element that holds no document. */
  function ScalarAt(src: seq<byte>, pos: nat, typ: byte, limits: Limits): (r: Element)
    requires pos <= |src|
    ensures r.Skipped? || r.Found? ==> pos <= r.next <= |src|
    ensures r.Unknown? ==> r == Unknown(typ, pos)
  {
    var left := |src| - pos;
    if NoValueType(typ) then
      var end := SkipWidth(src, pos, typ);
      if end.None? then Failed(Malformed) else Skipped(end.value)
    else if typ == 0x0a then Skipped(pos)
    else if typ == 0x01 then
      if left < 8 then Failed(Malformed) else Found(Double(LittleEndian(src, pos, INT64)), pos + 8)
    else if typ == 0x08 then
      if left < 1 then Failed(Malformed) else Found(Bool(src[pos] != 0), pos + 1)
    else if typ == 0x10 then
      if left < 4 then Failed(Malformed) else Found(Int32(Int32At(src, pos)), pos + 4)
    else if typ == 0x12 then
      if left < 8 then Failed(Malformed) else Found(Int64(Signed64(LittleEndian(src, pos, INT64))), pos + 8)
    else if typ == 0x02 then StringAt(src, pos, limits)
    else Unknown(typ, pos)
  }

  /** The element's value, and the visits spent. Positions stay inside the input,
      and visits never pass the limit by more than the one that reports it. */
  function ElementAt(src: seq<byte>, pos: nat, typ: byte, limits: Limits, work: nat, depth: nat): (r: (Element, nat))
    requires pos <= |src| && depth <= limits.maxDepth && work <= limits.maxWork
    ensures r.0.Skipped? || r.0.Found? ==> pos <= r.0.next <= |src|
    ensures r.0.Unknown? ==> r.0 == Unknown(typ, pos)
    ensures work <= r.1 <= limits.maxWork + 1 && (!r.0.Failed? ==> r.1 <= limits.maxWork)
    decreases Remaining(limits, depth), |src| - pos, 0
  {
    if typ != 0x03 && typ != 0x04 then (ScalarAt(src, pos, typ, limits), work)
    else if |src| - pos < 4 || Int32At(src, pos) < 5 || Int32At(src, pos) > |src| - pos then (Failed(Malformed), work)
    else
      var (nested, spent) := Document(src, pos + 4, limits, work, depth + 1, typ == 0x04, false);
      (if nested.Stopped? then Failed(nested.error) else Found(nested.value, pos + Int32At(src, pos)), spent)
  }

  /** The text up to the first zero byte; the cursor moves by the declared
      length. */
  function StringAt(src: seq<byte>, pos: nat, limits: Limits): (r: Element)
    requires pos <= |src|
    ensures !r.Unknown? && (r.Skipped? || r.Found? ==> pos <= r.next <= |src|)
  {
    if |src| - pos < 4 || Int32At(src, pos) <= 0 || Int32At(src, pos) > |src| - pos - 4 then Failed(Malformed)
    else
      var next, nul := pos + 4 + Int32At(src, pos), FindNul(src, pos + 4);
      if nul == |src| then Failed(Malformed)
      else
        var text := Span(src, pos + 4, nul);
        if limits.valid(text) then Found(Str(text), next) else Skipped(next)
  }

  /** A nested or top document from its first element on. */
  function Document(src: seq<byte>, pos: nat, limits: Limits, work: nat, depth: nat, isArray: bool,
                    propagate: bool): (r: (Loop, nat))
    requires pos <= |src| && work <= limits.maxWork
    ensures r.0.Ended? ==> r.0.next <= |src| && (r.0.value.Arr? <==> isArray) && (r.0.value.Doc? <==> !isArray)
    ensures r.0.Ended? && !propagate ==> r.0.unknown == 0
    ensures work <= r.1 <= limits.maxWork + 1 && (r.0.Ended? ==> r.1 <= limits.maxWork)
    decreases Remaining(limits, depth), |src| + 1, 1
  {
    if depth > limits.maxDepth then (Stopped(Bounds), work)
    else Visit(src, pos, limits, work, depth, propagate, Empty(isArray))
  }

  function Empty(isArray: bool): Value { if isArray then Arr([]) else Doc(map[]) }

  /** The container so far with one more value. */
  function Assign(container: Value, key: seq<byte>, value: Value): (r: Value)
    requires container.Doc? || container.Arr?
    ensures (r.Doc? <==> container.Doc?) && (r.Arr? <==> container.Arr?)
  {
    if container.Arr? then Arr(container.items + [value]) else Doc(container.fields[key := value])
  }

  /** One turn of a document loop: the loop ends, or it goes on at next. */
  datatype Turn = Halt(end: Loop) | More(next: nat, container: Value)

  function TurnAt(src: seq<byte>, pos: nat, limits: Limits, work: nat, depth: nat, propagate: bool,
                  container: Value): (r: (Turn, nat))
    requires pos <= |src| && depth <= limits.maxDepth && work <= limits.maxWork && (container.Doc? || container.Arr?)
    ensures r.0.Halt? && r.0.end.Ended? ==> r.0.end.next <= |src| && r.0.end.value == container
    ensures r.0.Halt? && r.0.end.Ended? && !propagate ==> r.0.end.unknown == 0
    ensures r.0.More? ==>
      pos < r.0.next <= |src| && (r.0.container.Arr? <==> container.Arr?) && (r.0.container.Doc? <==> container.Doc?)
    ensures work < r.1 <= limits.maxWork + 1 && (r.0.More? || r.0.end.Ended? ==> r.1 <= limits.maxWork)
    decreases Remaining(limits, depth), |src| - pos, 1
  {
    if work == limits.maxWork then (Halt(Stopped(Bounds)), work + 1)
    else if pos >= |src| then (Halt(Stopped(Malformed)), work + 1)
    else if src[pos] == 0 then (Halt(Ended(container, pos + 1, 0)), work + 1)
    else
      var nul := FindNul(src, pos + 1);
      if nul == |src| then (Halt(Stopped(Malformed)), work + 1)
      else
        var key := Span(src, pos + 1, nul);
        var (element, spent) := ElementAt(src, nul + 1, src[pos], limits, work + 1, depth);
        (match element
         case Failed(error) => Halt(Stopped(error))
         case Unknown(typ, next) => Halt(if propagate then Ended(container, next, typ) else Ended(container, |src|, 0))
         case Skipped(next) => More(next, container)
         case Found(value, next) =>
           if container.Doc? && !limits.valid(key) then Halt(Stopped(InvalidKey))
           else More(next, Assign(container, key, value)),
         spent)
  }

  /** The loop over elements, from pos on. */
  function Visit(src: seq<byte>, pos: nat, limits: Limits, work: nat, depth: nat, propagate: bool,
                 container: Value): (r: (Loop, nat))
    requires pos <= |src| && depth <= limits.maxDepth && work <= limits.maxWork && (container.Doc? || container.Arr?)
    ensures r.0.Ended? ==>
      r.0.next <= |src| && (r.0.value.Arr? <==> container.Arr?) && (r.0.value.Doc? <==> container.Doc?)
    ensures r.0.Ended? && !propagate ==> r.0.unknown == 0
    ensures work < r.1 <= limits.maxWork + 1 && (r.0.Ended? ==> r.1 <= limits.maxWork)
    decreases Remaining(limits, depth), |src| - pos, 2
  {
    var (turn, spent) := TurnAt(src, pos, limits, work, depth, propagate, container);
    match turn
    case Halt(end) => (end, spent)
    case More(next, grown) => Visit(src, next, limits, spent, depth, propagate, grown)
  }

  datatype Settings = Settings(maxBytes: int, maxDepth: int, maxWork: int)
  datatype Decoded = Refused(error: Error) | Decoded(document: map<seq<byte>, Value>, unknownType: byte)

  /** The limits a decode runs under: a non-positive option takes its default. */
  function LimitsOf(options: Settings, length: nat, valid: seq<byte> -> bool): (r: Limits) {
    Limits(if options.maxDepth <= 0 then 32 else options.maxDepth,
           if options.maxWork <= 0 then (if 64 * length < 1024 then 1024 else 64 * length) else options.maxWork,
           valid)
  }

  /** The whole decode, and the visits it spent. */
  function Decode(src: seq<byte>, options: Settings, valid: seq<byte> -> bool): (r: (Decoded, nat)) {
    if options.maxBytes > 0 && |src| > options.maxBytes then (Refused(Bounds), 0)
    else if |src| < 4 then (Refused(Malformed), 0)
    else
      var (top, spent) := Document(src, 4, LimitsOf(options, |src|, valid), 0, 0, false, true);
      (if top.Stopped? then Refused(top.error) else Decoded(top.value.fields, top.unknown), spent)
  }

  // ---- What is malformed ----

  /** Bytes a value of the type takes, where that is fixed. */
  function FixedWidth(typ: byte): Option<nat> {
    match typ
    case 0x06 => Some(0) case 0x0a => Some(0) case 0x08 => Some(1) case 0x10 => Some(4) case 0x07 => Some(12)
    case 0x01 => Some(8) case 0x09 => Some(8) case 0x11 => Some(8) case 0x12 => Some(8)
    case _ => None
  }

  /** The least length a value may declare, and what it takes besides. */
  function Declared(typ: byte): Option<(int, nat)> {
    match typ
    case 0x02 => Some((1, 4)) case 0x05 => Some((0, 5)) case 0x0c => Some((0, 16))
    case 0x0d => Some((0, 4)) case 0x0e => Some((0, 4)) case 0x0f => Some((0, 0))
    case _ => None
  }

  /** The value's bytes do not fit what is left, or it declares no legal length, or
      its text has no end. */
  predicate Misfits(src: seq<byte>, pos: nat, typ: byte)
    requires pos <= |src|
  {
    var left := |src| - pos;
    if FixedWidth(typ).Some? then left < FixedWidth(typ).value
    else if Declared(typ).Some? then
      var (least, more) := Declared(typ).value;
      left < 4 || Int32At(src, pos) < least || Int32At(src, pos) + more > left ||
        (typ == 0x02 && FindNul(src, pos + 4) == |src|)
    else
      typ == 0x0b && (FindNul(src, pos) == |src| || FindNul(src, FindNul(src, pos) + 1) == |src|)
  }

  /** A value without a document in it is malformed exactly when it misfits, and
      unknown exactly when its type is above 0x12. */
  lemma ScalarMalformedIff(src: seq<byte>, pos: nat, typ: byte, limits: Limits)
    requires pos <= |src| && typ != 0 && typ != 0x03 && typ != 0x04
    ensures ScalarAt(src, pos, typ, limits) == Failed(Malformed) <==> Misfits(src, pos, typ)
    ensures ScalarAt(src, pos, typ, limits).Failed? ==> ScalarAt(src, pos, typ, limits) == Failed(Malformed)
    ensures ScalarAt(src, pos, typ, limits).Unknown? <==> typ > 0x12
  {
  }

  /** A nested document's length covers its own five bytes and fits what is left. */
  predicate Declares(src: seq<byte>, pos: nat)
    requires pos <= |src|
  {
    |src| - pos >= 4 && 5 <= Int32At(src, pos) <= |src| - pos
  }

  /** A nested document that declares fewer than its own five bytes, or more than
      are left, is malformed, and one too deep or out of visits is out of bounds. */
  lemma NestedRefused(src: seq<byte>, pos: nat, typ: byte, limits: Limits, work: nat, depth: nat)
    requires pos <= |src| && depth <= limits.maxDepth && work <= limits.maxWork && (typ == 0x03 || typ == 0x04)
    ensures !Declares(src, pos) ==>
      ElementAt(src, pos, typ, limits, work, depth) == (Failed(Malformed), work)
    ensures Declares(src, pos) && depth == limits.maxDepth ==>
      ElementAt(src, pos, typ, limits, work, depth).0 == Failed(Bounds)
    ensures Declares(src, pos) && work == limits.maxWork ==>
      ElementAt(src, pos, typ, limits, work, depth).0 == Failed(Bounds)
  {
    if |src| - pos >= 4 && depth < limits.maxDepth && work == limits.maxWork {
      var turn := TurnAt(src, pos + 4, limits, work, depth + 1, false, Empty(typ == 0x04));
      assert turn.0 == Halt(Stopped(Bounds));
      assert Visit(src, pos + 4, limits, work, depth + 1, false, Empty(typ == 0x04)).0 == Stopped(Bounds);
    }
  }

  /** One turn refuses an input that ends without a zero byte, and a key that is
      not valid where something would be stored under it. */
  lemma TurnRefuses(src: seq<byte>, pos: nat, limits: Limits, work: nat, depth: nat, propagate: bool, container: Value)
    requires pos <= |src| && depth <= limits.maxDepth && work < limits.maxWork && (container.Doc? || container.Arr?)
    ensures var turn := TurnAt(src, pos, limits, work, depth, propagate, container).0;
      && (pos == |src| ==> turn == Halt(Stopped(Malformed)))
      && (pos < |src| && src[pos] != 0 && FindNul(src, pos + 1) == |src| ==> turn == Halt(Stopped(Malformed)))
      && (pos < |src| && src[pos] != 0 && FindNul(src, pos + 1) < |src| ==>
          var nul := FindNul(src, pos + 1);
          var element := ElementAt(src, nul + 1, src[pos], limits, work + 1, depth).0;
          turn == Halt(Stopped(InvalidKey)) <==>
            element == Failed(InvalidKey) ||
              (element.Found? && container.Doc? && !limits.valid(Span(src, pos + 1, nul))))
  {
  }

  /** The scan for a zero byte. */
  method ReadCString(src: seq<byte>, pos: nat) returns (end: nat)
    requires pos <= |src|
    ensures end == FindNul(src, pos)
  {
    end := pos;
    while end < |src| && src[end] != 0
      invariant pos <= end <= |src| && FindNul(src, end) == FindNul(src, pos)
    {
      end := end + 1;
    }
  }

  method SkipObservedValue(src: seq<byte>, pos: nat, typ: byte) returns (end: Option<nat>)
    requires pos <= |src| && NoValueType(typ)
    ensures end == SkipWidth(src, pos, typ)
  {
    if typ == 0x0b {
      var first := ReadCString(src, pos);
      if first == |src| { return None; }
      var second := ReadCString(src, first + 1);
      return if second == |src| then None else Some(second + 1);
    }
    var width := 0;
    if typ == 0x07 {
      width := 12;
    } else if typ == 0x09 || typ == 0x11 {
      width := 8;
    } else if typ != 0x06 {
      if |src| - pos < (if typ == 0x05 then 5 else 4) { return None; }
      var n := Int32At(src, pos);
      if n < 0 { return None; }
      width := match typ case 0x05 => 5 + n case 0x0c => 16 + n case 0x0f => n case _ => 4 + n;
    }
    end := Within(src, pos, width);
  }

  method DecodeObservedElement(src: seq<byte>, pos: nat, typ: byte, limits: Limits, work: nat, depth: nat)
    returns (element: Element, spent: nat)
    requires pos <= |src| && depth <= limits.maxDepth && work <= limits.maxWork
    ensures (element, spent) == ElementAt(src, pos, typ, limits, work, depth)
    decreases Remaining(limits, depth), |src| - pos, 0
  {
    spent := work;
    var left := |src| - pos;
    if NoValueType(typ) {
      var end := SkipObservedValue(src, pos, typ);
      element := if end.None? then Failed(Malformed) else Skipped(end.value);
    } else if typ == 0x0a {
      element := Skipped(pos);
    } else if typ == 0x02 {
      if left < 4 { return Failed(Malformed), work; }
      var length := Int32At(src, pos);
      if length <= 0 || length > left - 4 { return Failed(Malformed), work; }
      var nul := ReadCString(src, pos + 4);
      if nul == |src| { return Failed(Malformed), work; }
      var text := src[pos + 4..nul];
      SpanIsSlice(src, pos + 4, nul);
      element := if limits.valid(text) then Found(Str(text), pos + 4 + length) else Skipped(pos + 4 + length);
    } else if typ == 0x03 || typ == 0x04 {
      if left < 4 { return Failed(Malformed), work; }
      var length := Int32At(src, pos);
      if length < 5 || length > left { return Failed(Malformed), work; }
      var nested;
      nested, spent := DecodeObservedDocument(src, pos + 4, limits, work, depth + 1, typ == 0x04, false);
      element := match nested
        case Stopped(error) => Failed(error)
        case Ended(value, _, _) => Found(value, pos + length);
    } else if typ == 0x01 || typ == 0x12 {
      if left < 8 { return Failed(Malformed), work; }
      var bits := LittleEndian(src, pos, INT64);
      element := Found(if typ == 0x01 then Double(bits) else Int64(Signed64(bits)), pos + 8);
    } else if typ == 0x08 {
      element := if left < 1 then Failed(Malformed) else Found(Bool(src[pos] != 0), pos + 1);
    } else if typ == 0x10 {
      element := if left < 4 then Failed(Malformed) else Found(Int32(Int32At(src, pos)), pos + 4);
    } else {
      element := Unknown(typ, pos);
    }
  }

  method DecodeTurn(src: seq<byte>, pos: nat, limits: Limits, work: nat, depth: nat, propagate: bool,
                    out: Value) returns (turn: Turn, spent: nat)
    requires pos <= |src| && depth <= limits.maxDepth && work <= limits.maxWork && (out.Doc? || out.Arr?)
    ensures (turn, spent) == TurnAt(src, pos, limits, work, depth, propagate, out)
    decreases Remaining(limits, depth), |src| - pos, 1
  {
    spent := work + 1;
    if spent > limits.maxWork { return Halt(Stopped(Bounds)), spent; }
    if pos >= |src| { return Halt(Stopped(Malformed)), spent; }
    var typ := src[pos];
    if typ == 0 { return Halt(Ended(out, pos + 1, 0)), spent; }
    var nul := ReadCString(src, pos + 1);
    if nul == |src| { return Halt(Stopped(Malformed)), spent; }
    var element;
    element, spent := DecodeObservedElement(src, nul + 1, typ, limits, spent, depth);
    if element.Failed? { return Halt(Stopped(element.error)), spent; }
    if element.Unknown? {
      return Halt(if propagate then Ended(out, element.next, typ) else Ended(out, |src|, 0)), spent;
    }
    if element.Skipped? { return More(element.next, out), spent; }
    var key := src[pos + 1..nul];
    SpanIsSlice(src, pos + 1, nul);
    if out.Doc? && !limits.valid(key) { return Halt(Stopped(InvalidKey)), spent; }
    turn := More(element.next, Assign(out, key, element.value));
  }

  method DecodeObservedDocument(src: seq<byte>, start: nat, limits: Limits, work: nat, depth: nat, isArray: bool,
                                propagate: bool) returns (end: Loop, spent: nat)
    requires start <= |src| && work <= limits.maxWork
    ensures (end, spent) == Document(src, start, limits, work, depth, isArray, propagate)
    decreases Remaining(limits, depth), |src| + 1, 1
  {
    spent := work;
    if depth > limits.maxDepth { return Stopped(Bounds), work; }
    var turn := More(start, Empty(isArray));
    while turn.More?
      invariant spent <= limits.maxWork + 1
      invariant turn.More? ==>
        start <= turn.next <= |src| && spent <= limits.maxWork && (turn.container.Doc? || turn.container.Arr?)
      invariant Document(src, start, limits, work, depth, isArray, propagate) ==
        if turn.More? then Visit(src, turn.next, limits, spent, depth, propagate, turn.container) else (turn.end, spent)
      decreases if turn.More? then |src| - turn.next + 1 else 0
    {
      turn, spent := DecodeTurn(src, turn.next, limits, spent, depth, propagate, turn.container);
    }
    end := turn.end;
  }

  method DecodeObservedBson(src: seq<byte>, options: Settings, valid: seq<byte> -> bool)
    returns (r: Decoded, spent: nat)
    ensures (r, spent) == Decode(src, options, valid)
    ensures spent <= LimitsOf(options, |src|, valid).maxWork + 1
  {
    spent := 0;
    if options.maxBytes > 0 && |src| > options.maxBytes { return Refused(Bounds), 0; }
    if |src| < 4 { return Refused(Malformed), 0; }
    var top;
    top, spent := DecodeObservedDocument(src, 4, LimitsOf(options, |src|, valid), 0, 0, false, true);
    r := if top.Stopped? then Refused(top.error) else Decoded(top.value.fields, top.unknown);
  }
}
