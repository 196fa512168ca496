// Runtime values of the tree-walking interpreter (src/lib/interpreter.ts and its older
// copy in services/javaInterpreter.ts), the heap they point into (src/types.ts), and the
// JavaScript operators the interpreter applies to them.
//
// A JavaScript number whose value is an integer of magnitude at most 2^53 is an IntV.
// A double literal that provably stands for a number that is neither an integer nor zero
// is kept opaque as a DoubleV; what needs only that fact (truthiness, equality with a
// non-double, use as an array index or length) is answered, while arithmetic, ordering,
// equality of two doubles and printing are Unmodelled, as is every other literal and
// every result that would leave the integers a double holds exactly.

module Values {
  import opened Common
  import Text
  import opened Ast

  /** A method as `run` stores it in a class descriptor. */
  datatype MethodDef = MethodDef(name: string, params: seq<Param>, body: seq<Stmt>, line: nat)

  /** Every value an evaluation can produce.
      RefV is the wrapper object `{ __ref__: "heap_<id>" }`; one wrapper is made per
      allocation, so two refs are the same object exactly when their ids agree.
      ClassV is the descriptor `{ type: 'class', name, methods }` that `run` declares in
      the global environment. BreakV and ContinueV are the two sentinel singletons and
      ReturnV is a ReturnSentinel carrying the returned value. */
  datatype Value =
    | IntV(i: int)
    | DoubleV(text: string)
    | BoolV(b: bool)
    | StrV(s: string)
    | NullV
    | UndefinedV
    | RefV(id: nat)
    | ClassV(name: string, methods: map<string, MethodDef>)
    | BreakV
    | ContinueV
    | ReturnV(result: Value)

  /** The results at which a block stops running its statements. */
  predicate StopsBlock(v: Value) { v.BreakV? || v.ContinueV? || v.ReturnV? }

  /** The results at which a loop stops iterating. */
  predicate StopsLoop(v: Value) { v.BreakV? || v.ReturnV? }

  /** Values that are JavaScript objects rather than primitives. */
  predicate IsObject(v: Value)
  {
    v.RefV? || v.ClassV? || v.BreakV? || v.ContinueV? || v.ReturnV?
  }

  /** `isHeapRef`: a truthy object with an own `__ref__` property. Among the objects
      only the ref wrapper has that property. */
  predicate IsHeapRef(v: Value)
  {
    Truthy(v) && IsObject(v) && !(v.ClassV? || v.BreakV? || v.ContinueV? || v.ReturnV?)
  }

  lemma HeapRefIsRef(v: Value)
    ensures IsHeapRef(v) <==> v.RefV?
  {
  }

  // ---------------------------------------------------------------------------
  // The heap

  /** The two shapes a heap entry can take. Nothing in the interpreter writes an
      object's fields, so they stay empty. */
  datatype HeapValue =
    | ArrayV(elementType: string, values: seq<Value>)
    | ObjectV(className: string, fields: map<string, Value>)

  /** The heap is a record keyed by `heap_<id>`; its entries keep the order in which
      they were stored, which is not always the order of their ids (an array's id is
      taken before its elements are evaluated). */
  datatype HeapEntry = HeapEntry(id: nat, value: HeapValue)

  type Heap = seq<HeapEntry>

  /** The key `heap_<id>` a ref carries. */
  function HeapKey(id: nat): (k: string)
    ensures |k| > 5 && k[..5] == "heap_"
  {
    "heap_" + Text.NatToString(id)
  }

  /** Distinct ids give distinct keys, so a ref can be identified by its id. */
  lemma HeapKeyInjective(a: nat, b: nat)
    ensures HeapKey(a) == HeapKey(b) ==> a == b
  {
    if HeapKey(a) == HeapKey(b) {
      assert Text.NatToString(a) == HeapKey(a)[5..];
      assert Text.NatToString(b) == HeapKey(b)[5..];
      Text.NatToStringRoundTrip(a);
      Text.NatToStringRoundTrip(b);
    }
  }

  function Ids(h: Heap): seq<nat>
  {
    seq(|h|, i requires 0 <= i < |h| => h[i].id)
  }

  /** `heap[key]`: the entry stored under an id, if any. */
  function Find(h: Heap, id: nat): (r: Option<HeapValue>)
    ensures r.None? <==> id !in Ids(h)
    ensures r.Some? ==> HeapEntry(id, r.value) in h
  {
    if h == [] then None
    else
      assert Ids(h) == [h[0].id] + Ids(h[1..]);
      if h[0].id == id then
        assert h[0] == HeapEntry(id, h[0].value);
        Some(h[0].value)
      else Find(h[1..], id)
  }

  /** `heap[key] = v`: overwrites the entry in place, or appends a new one. */
  function Store(h: Heap, id: nat, v: HeapValue): (r: Heap)
    ensures Find(r, id) == Some(v)
    ensures forall other :: other != id ==> Find(r, other) == Find(h, other)
    ensures id in Ids(h) ==> Ids(r) == Ids(h)
    ensures id !in Ids(h) ==> Ids(r) == Ids(h) + [id]
  {
    if h == [] then [HeapEntry(id, v)]
    else if h[0].id == id then
      assert Ids([HeapEntry(id, v)] + h[1..]) == [id] + Ids(h[1..]);
      [HeapEntry(id, v)] + h[1..]
    else
      assert Ids(h) == [h[0].id] + Ids(h[1..]);
      var rest := Store(h[1..], id, v);
      assert Ids([h[0]] + rest) == [h[0].id] + Ids(rest);
      [h[0]] + rest
  }

  /** `heap[x.__ref__]` for the value `x`: a TypeError on null and undefined, no entry
      for a value that is not a ref (its `__ref__` is undefined). */
  function HeapAt(h: Heap, x: Value): (r: Result<Option<HeapValue>>)
    ensures (x.NullV? || x.UndefinedV?) <==> r.Err?
    ensures x.RefV? ==> r == Ok(Find(h, x.id))
    ensures !x.RefV? && r.Ok? ==> r.value.None?
  {
    match x
    case NullV => Err(HostError("TypeError"))
    case UndefinedV => Err(HostError("TypeError"))
    case RefV(id) => Ok(Find(h, id))
    case _ => Ok(None)
  }

  /** `values[index]` on an array: an element for an index in range, `undefined` for any
      other number (a double is never an integer, so never an index) and for the non-number keys that name no array property. A string
      key may name an element, the length or a method, and is not modelled. */
  function ReadIndex(values: seq<Value>, index: Value): (r: Result<Value>)
    ensures index.IntV? && 0 <= index.i < |values| ==> r == Ok(values[index.i])
    ensures index.IntV? && !(0 <= index.i < |values|) ==> r == Ok(UndefinedV)
    ensures r.Err? <==> index.StrV?
  {
    match index
    case IntV(i) => if 0 <= i < |values| then Ok(values[i]) else Ok(UndefinedV)
    case StrV(_) => Err(Unmodelled("array property read with a string key"))
    case _ => Ok(UndefinedV)
  }

  /** The largest array index JavaScript allows, plus one. */
  const ArrayIndexLimit: int := 0xFFFF_FFFF

  /** `values[index] = v` on an array: overwrites an element in range; past the end the
      array grows, and the holes it leaves read as `undefined`. Writes under a key that
      is not an array index are not modelled. */
  function WriteIndex(values: seq<Value>, index: Value, v: Value): (r: Result<seq<Value>>)
    ensures r.Ok? <==> index.IntV? && 0 <= index.i < ArrayIndexLimit
    ensures r.Ok? ==> |r.value| == if index.i < |values| then |values| else index.i + 1
    ensures r.Ok? ==> r.value[index.i] == v
    ensures r.Ok? ==> forall k :: 0 <= k < |values| && k != index.i ==> r.value[k] == values[k]
    ensures r.Ok? ==> forall k :: |values| <= k < |r.value| && k != index.i ==> r.value[k] == UndefinedV
  {
    match index
    case IntV(i) =>
      if !(0 <= i < ArrayIndexLimit) then Err(Unmodelled("array property write"))
      else if i < |values| then Ok(values[i := v])
      else Ok(values + seq(i - |values|, _ => UndefinedV) + [v])
    case _ => Err(Unmodelled("array property write"))
  }

  /** The default element of `new T[n]` and the initial value of a declaration
      without initializer: `false` for boolean, `0` for int and double, else `null`. */
  function DefaultValue(elementType: string): (v: Value)
    ensures elementType == "boolean" ==> v == BoolV(false)
    ensures (elementType == "int" || elementType == "double") ==> v == IntV(0)
    ensures elementType != "boolean" && elementType != "int" && elementType != "double" ==> v == NullV
  {
    if elementType == "boolean" then BoolV(false)
    else if elementType != "int" && elementType != "double" then NullV
    else IntV(0)
  }

  /** `Array(n).fill(d)`. A number must be a valid length, an integer from 0 to 2^32 - 1
      (a RangeError otherwise, as for every double, which is never an integer); any other
      single argument makes a one-element array. */
  function FilledArray(n: Value, d: Value): (r: Result<seq<Value>>)
    ensures n.IntV? && 0 <= n.i <= ArrayIndexLimit ==> r.Ok? && |r.value| == n.i
    ensures r.Ok? ==> forall k :: 0 <= k < |r.value| ==> r.value[k] == d
    ensures (n.IntV? && !(0 <= n.i <= ArrayIndexLimit)) || n.DoubleV? ==> r == Err(HostError("RangeError"))
  {
    match n
    case IntV(len) =>
      if 0 <= len <= ArrayIndexLimit then Ok(seq(len, _ => d)) else Err(HostError("RangeError"))
    case DoubleV(_) => Err(HostError("RangeError"))
    case _ => Ok([d])
  }

  /** `JSON.parse(JSON.stringify(heap))` as a trace step holds it: holes and
      `undefined` elements of an array come back as `null`. */
  function JsonCopyHeap(h: Heap): (r: Heap)
    ensures Ids(r) == Ids(h)
    ensures forall k :: 0 <= k < |r| ==> r[k].value.ArrayV? == h[k].value.ArrayV?
  {
    seq(|h|, k requires 0 <= k < |h| => HeapEntry(h[k].id, JsonCopyValue(h[k].value)))
  }

  function JsonCopyValue(v: HeapValue): (r: HeapValue)
    ensures r.ArrayV? ==> UndefinedV !in r.values
  {
    match v
    case ArrayV(t, values) =>
      ArrayV(t, seq(|values|, k requires 0 <= k < |values| => if values[k].UndefinedV? then NullV else values[k]))
    case ObjectV(c, fields) => v
  }

  // ---------------------------------------------------------------------------
  // Numbers

  /** `parseFloat` of a DoubleLiteral token: digits, a dot and digits. When every digit
      after the dot is zero the number is an integer, indistinguishable from an int, and
      it is modelled when a double holds it exactly. A literal with a nonzero fraction
      becomes a DoubleV only when it is `ProvablyFractional`, so that every DoubleV stands
      for a number that is neither an integer nor zero; any other literal, which
      `parseFloat` may round onto an integer or to zero, is not modelled. */
  function DoubleLiteralValue(text: string): (r: Result<Value>)
    ensures r.Ok? ==> IsDecimalText(text)
    ensures r.Ok? && r.value.IntV? ==>
      AllZeros(Fraction(text)) && r.value.i == Text.DigitsValue(Whole(text)) && IsExactInteger(r.value.i)
    ensures r.Ok? ==> r.value.IntV? || (r.value == DoubleV(text) && ProvablyFractional(text))
    ensures IsDecimalText(text) && AllZeros(Fraction(text)) ==>
      (r.Ok? <==> IsExactInteger(Text.DigitsValue(Whole(text))))
    ensures IsDecimalText(text) && !AllZeros(Fraction(text)) ==> (r.Ok? <==> ProvablyFractional(text))
  {
    if !IsDecimalText(text) then Err(Unmodelled("malformed double literal"))
    else if AllZeros(Fraction(text)) then
      var n := Text.DigitsValue(Whole(text));
      if IsExactInteger(n) then Ok(IntV(n)) else Err(Unmodelled("double literal rounded to an integer"))
    else if ProvablyFractional(text) then Ok(DoubleV(text))
    else Err(Unmodelled("double literal that may round to an integer or to zero"))
  }

  /** The digits before the dot. */
  function Whole(text: string): string { text[..DotIndex(text)] }

  /** The digits after the dot (none when there is no dot). */
  function Fraction(text: string): string
  {
    var dot := DotIndex(text);
    if dot < |text| then text[dot + 1..] else []
  }

  /** Digits, a dot, and digits, with at least one digit before the dot. */
  predicate IsDecimalText(text: string)
  {
    var dot := DotIndex(text);
    0 < dot < |text| && AllDigits(text[..dot]) && AllDigits(text[dot + 1..])
  }

  /** The most significant digits a decimal may have and still reach a double less than
      half its last digit's unit away (10^15 times the relative error 2^-53 is below 1/2). */
  const MaxSignificantDigits: nat := 15

  /** The most leading zeros a decimal may have and still lie above the smallest normal
      double (about 2.2 * 10^-308). */
  const MaxLeadingZeros: nat := 300

  /** A decimal with a nonzero fraction, at most `MaxSignificantDigits` digits from its
      first nonzero one on, and at most `MaxLeadingZeros` zeros before that one.
      `parseFloat` rounds it by less than half its last digit's unit, and every integer
      is at least that unit away, so the double is not an integer; and it is far above
      the range that rounds to zero. */
  predicate ProvablyFractional(text: string)
  {
    var digits := Whole(text) + Fraction(text);
    !AllZeros(Fraction(text))
    && |digits| - LeadingZeros(digits) <= MaxSignificantDigits
    && LeadingZeros(digits) <= MaxLeadingZeros
  }

  /** `1.5` is a double and `2.0` the integer 2. */
  lemma DoubleLiteralCases()
    ensures DoubleLiteralValue("1.5") == Ok(DoubleV("1.5"))
    ensures DoubleLiteralValue("2.0") == Ok(IntV(2))
  {
    assert "1.5"[1..] == ".5";
    assert DotIndex("1.5") == 1;
    assert Whole("1.5") == "1" && Fraction("1.5") == "5";
    assert IsDecimalText("1.5") && Fraction("1.5")[0] != '0';
    assert Whole("1.5") + Fraction("1.5") == "15" && LeadingZeros("15") == 0;
    assert "2.0"[1..] == ".0";
    assert DotIndex("2.0") == 1;
  }

  /** `1.00000000000000000001`, which `parseFloat` rounds to 1, is not modelled. */
  lemma DoubleLiteralNearInteger()
    ensures DoubleLiteralValue("1.00000000000000000001").Err?
  {
    var text := "1.00000000000000000001";
    assert text[1..][0] == '.';
    assert DotIndex(text) == 1;
    assert Whole(text) == "1";
    assert Fraction(text) == text[2..];
    assert Fraction(text)[19] == '1';
    assert LeadingZeros(Whole(text) + Fraction(text)) == 0;
  }

  /** A literal with 400 zeros after the dot, which `parseFloat` rounds to 0, is not
      modelled. */
  lemma DoubleLiteralUnderflow()
    ensures DoubleLiteralValue("0." + seq(400, _ => '0') + "1").Err?
  {
    var tiny := "0." + seq(400, _ => '0') + "1";
    assert tiny[0] == '0' && tiny[1..][0] == '.';
    assert DotIndex(tiny) == 1;
    assert Whole(tiny) == "0";
    assert Fraction(tiny) == seq(400, _ => '0') + "1";
    assert Fraction(tiny)[400] == '1';
    var digits := Whole(tiny) + Fraction(tiny);
    assert digits == seq(401, _ => '0') + "1";
    assert LeadingZeros(digits) > MaxLeadingZeros;
  }

  /** The number of zeros that open `s`. */
  function LeadingZeros(s: string): (n: nat)
    ensures n <= |s|
    ensures forall k :: 0 <= k < n ==> s[k] == '0'
    ensures n < |s| ==> s[n] != '0'
  {
    if s != [] && s[0] == '0' then 1 + LeadingZeros(s[1..]) else 0
  }

  predicate AllDigits(s: string) { forall k :: 0 <= k < |s| ==> '0' <= s[k] <= '9' }

  predicate AllZeros(s: string) { forall k :: 0 <= k < |s| ==> s[k] == '0' }

  function DotIndex(s: string): (k: nat)
    ensures k <= |s|
    ensures k < |s| ==> s[k] == '.'
    ensures forall j :: 0 <= j < k ==> s[j] != '.'
  {
    if s == [] then 0
    else if s[0] == '.' then 0
    else 1 + DotIndex(s[1..])
  }

  /** `Math.trunc(a / b)`: the quotient rounded toward zero, as integer division is in
      section 15.17.2 of the Java Language Specification. */
  function TruncDiv(a: int, b: int): int
    requires b != 0
  {
    var q := Abs(a) / Abs(b);
    if (a < 0) == (b < 0) then q else -q
  }

  /** JavaScript's `%` on integers: the remainder takes the sign of the dividend. */
  function TruncRem(a: int, b: int): int
    requires b != 0
  {
    a - b * TruncDiv(a, b)
  }

  function Abs(a: int): nat { if a < 0 then -a else a }

  /** The quotient rounds toward zero: the remainder it leaves is smaller than the
      divisor and has the sign of the dividend, and negating the dividend negates the
      quotient. */
  lemma TruncDivRoundsTowardZero(a: int, b: int)
    requires b != 0
    ensures a == b * TruncDiv(a, b) + TruncRem(a, b)
    ensures Abs(TruncRem(a, b)) < Abs(b)
    ensures TruncRem(a, b) == 0 || (TruncRem(a, b) < 0 <==> a < 0)
    ensures Abs(b * TruncDiv(a, b)) <= Abs(a)
    ensures TruncDiv(-a, b) == -TruncDiv(a, b)
  {
    var q := Abs(a) / Abs(b);
    var m := Abs(a) % Abs(b);
    var p := Abs(b) * q;
    EuclideanParts(Abs(a), Abs(b));
    var negate := (a < 0) != (b < 0);
    ProductSign(b, q, negate);
    assert TruncDiv(a, b) == if negate then -q else q;
    if a < 0 {
      assert b * TruncDiv(a, b) == -p;
    } else {
      assert b * TruncDiv(a, b) == p;
    }
  }

  lemma EuclideanParts(x: nat, y: nat)
    requires y != 0
    ensures x == y * (x / y) + x % y && 0 <= x % y < y && 0 <= y * (x / y)
  {
  }

  /** `b` times the quotient magnitude `q`, signed as the quotient is. */
  lemma ProductSign(b: int, q: int, negate: bool)
    requires b != 0 && q >= 0
    ensures b * (if negate then -q else q) == if (b < 0) != negate then -(Abs(b) * q) else Abs(b) * q
  {
    if b < 0 {
      assert Abs(b) == -b;
    }
  }

  /** Truncation is not Dafny's (Euclidean) division on negative operands. */
  lemma TruncDivDiffersFromEuclidean()
    ensures TruncDiv(-7, 2) == -3 && -7 / 2 == -4
    ensures TruncRem(-7, 2) == -1 && -7 % 2 == 1
  {
  }

  // ---------------------------------------------------------------------------
  // Conversions

  /** JavaScript truthiness: 0, "", false, null and undefined are falsy; objects and
      doubles (never zero, see `DoubleLiteralValue`) are truthy. */
  function Truthy(v: Value): (t: bool)
    ensures v.IntV? ==> (t <==> v.i != 0)
    ensures v.StrV? ==> (t <==> v.s != "")
    ensures v.BoolV? ==> t == v.b
    ensures (v.NullV? || v.UndefinedV?) ==> !t
    ensures IsObject(v) ==> t
  {
    match v
    case IntV(i) => i != 0
    case DoubleV(_) => true
    case BoolV(b) => b
    case StrV(s) => s != ""
    case NullV => false
    case UndefinedV => false
    case _ => true
  }

  /** `String(v)`. A double's shortest decimal form is not modelled, nor the digits of a
      number beyond the integers a double holds exactly. */
  function ToJsString(v: Value): (r: Result<string>)
    ensures r.Err? <==> v.DoubleV? || (v.IntV? && !IsExactInteger(v.i))
    ensures v.StrV? ==> r == Ok(v.s)
    ensures v.IntV? && IsExactInteger(v.i) ==> r == Ok(Text.IntToString(v.i))
    ensures IsObject(v) ==> r == Ok("[object Object]")
  {
    match v
    case IntV(i) =>
      if IsExactInteger(i) then Ok(Text.IntToString(i))
      else Err(Unmodelled("decimal form of a rounded integer"))
    case DoubleV(_) => Err(Unmodelled("decimal form of a double"))
    case BoolV(b) => Ok(if b then "true" else "false")
    case StrV(s) => Ok(s)
    case NullV => Ok("null")
    case UndefinedV => Ok("undefined")
    case _ => Ok("[object Object]")
  }

  /** JavaScript's numeric conversion, for the values it turns into an integer:
      numbers a double holds exactly, booleans (0 and 1) and null (0). Undefined and
      objects give NaN, strings need parsing, and a larger number has been rounded; none
      of those is modelled. */
  function ToInteger(v: Value): (r: Result<int>)
    ensures r.Ok? <==> (v.IntV? && IsExactInteger(v.i)) || v.BoolV? || v.NullV?
    ensures r.Ok? ==> IsExactInteger(r.value)
    ensures v.IntV? && IsExactInteger(v.i) ==> r == Ok(v.i)
  {
    match v
    case IntV(i) =>
      if IsExactInteger(i) then Ok(i)
      else Err(Unmodelled("numeric conversion of a rounded integer"))
    case BoolV(b) => Ok(if b then 1 else 0)
    case NullV => Ok(0)
    case _ => Err(Unmodelled("numeric conversion to NaN, a double or from a string"))
  }

  // ---------------------------------------------------------------------------
  // Operators

  /** A numeric operation whose operands and exact result are all integers a double
      holds exactly, so that the double arithmetic of the source rounds nothing. */
  predicate ExactOperation(a: int, b: int, result: int)
  {
    IsExactInteger(a) && IsExactInteger(b) && IsExactInteger(result)
  }

  /** The number an integer operation yields: the integer itself while a double holds it
      exactly; past that the source's double has rounded it, which is not modelled. */
  function IntegerNumber(n: int): (v: Result<Value>)
    ensures v.Ok? <==> IsExactInteger(n)
    ensures v.Ok? ==> v.value == IntV(n)
  {
    if IsExactInteger(n) then Ok(IntV(n))
    else Err(Unmodelled("an integer beyond 2^53, which a double rounds"))
  }

  /** `left + right`: concatenation as soon as either side is a string or an object
      (whose primitive form is a string), numeric addition otherwise. */
  function JsAdd(l: Value, r: Value): (v: Result<Value>)
    ensures l.IntV? && r.IntV? && ExactOperation(l.i, r.i, l.i + r.i) ==> v == Ok(IntV(l.i + r.i))
    ensures l.IntV? && r.IntV? && !ExactOperation(l.i, r.i, l.i + r.i) ==> v.Err?
    ensures l.StrV? && r.StrV? ==> v == Ok(StrV(l.s + r.s))
    ensures v.Ok? ==> v.value.StrV? || (v.value.IntV? && IsExactInteger(v.value.i))
  {
    if l.StrV? || r.StrV? || IsObject(l) || IsObject(r) then
      var a :- ToJsString(l);
      var b :- ToJsString(r);
      Ok(StrV(a + b))
    else
      var a :- ToInteger(l);
      var b :- ToInteger(r);
      IntegerNumber(a + b)
  }

  function JsSub(l: Value, r: Value): (v: Result<Value>)
    ensures l.IntV? && r.IntV? && ExactOperation(l.i, r.i, l.i - r.i) ==> v == Ok(IntV(l.i - r.i))
    ensures l.IntV? && r.IntV? && !ExactOperation(l.i, r.i, l.i - r.i) ==> v.Err?
    ensures v.Ok? ==> v.value.IntV? && IsExactInteger(v.value.i)
  {
    var a :- ToInteger(l);
    var b :- ToInteger(r);
    IntegerNumber(a - b)
  }

  function JsMul(l: Value, r: Value): (v: Result<Value>)
    ensures l.IntV? && r.IntV? && ExactOperation(l.i, r.i, l.i * r.i) ==> v == Ok(IntV(l.i * r.i))
    ensures l.IntV? && r.IntV? && !ExactOperation(l.i, r.i, l.i * r.i) ==> v.Err?
    ensures v.Ok? ==> v.value.IntV? && IsExactInteger(v.value.i)
  {
    var a :- ToInteger(l);
    var b :- ToInteger(r);
    IntegerNumber(a * b)
  }

  /** The interpreter's `/`: `Math.trunc(left / right)` when both are integers,
      `left / right` otherwise. Division by zero gives an infinity or NaN, and an
      inexact quotient gives a double; neither is modelled, nor an operand beyond the
      integers a double holds exactly. */
  function JsDiv(l: Value, r: Value): (v: Result<Value>)
    ensures l.IntV? && r.IntV? && r.i != 0 && IsExactInteger(l.i) && IsExactInteger(r.i) ==>
              v == Ok(IntV(TruncDiv(l.i, r.i)))
    ensures r.IntV? && r.i == 0 ==> v.Err?
  {
    var a :- ToInteger(l);
    var b :- ToInteger(r);
    if l.IntV? && r.IntV? then
      if b == 0 then Err(Unmodelled("division by zero"))
      else Ok(IntV(TruncDiv(a, b)))
    else if b != 0 && a % b == 0 then Ok(IntV(a / b))
    else Err(Unmodelled("a quotient that is not an integer"))
  }

  /** `left % right` of src/lib/expressions.ts. */
  function JsRem(l: Value, r: Value): (v: Result<Value>)
    ensures l.IntV? && r.IntV? && r.i != 0 && IsExactInteger(l.i) && IsExactInteger(r.i) ==>
              v == Ok(IntV(TruncRem(l.i, r.i)))
  {
    var a :- ToInteger(l);
    var b :- ToInteger(r);
    if b == 0 then Err(Unmodelled("remainder by zero"))
    else Ok(IntV(TruncRem(a, b)))
  }

  /** `-arg`. */
  function JsNegate(x: Value): (v: Result<Value>)
    ensures x.IntV? && IsExactInteger(x.i) ==> v == Ok(IntV(-x.i))
  {
    var a :- ToInteger(x);
    Ok(IntV(-a))
  }

  /** Lexicographic order on strings, character by character. A model string holds
      Unicode characters, where the source's `<` compares UTF-16 code units; the two
      orders differ only between a character above U+FFFF and one from U+E000 to U+FFFF. */
  predicate StrLess(a: string, b: string)
  {
    if a == [] then b != []
    else if b == [] then false
    else if a[0] != b[0] then a[0] < b[0]
    else StrLess(a[1..], b[1..])
  }

  /** `<`, `>`, `<=`, `>=`. A comparison with `undefined` compares NaN and is false;
      two strings compare character by character (`StrLess`); numbers, booleans and null compare as
      integers. Mixed strings and numbers, doubles and objects are not modelled. */
  function JsCompare(op: string, l: Value, r: Value): (v: Result<Value>)
    requires op == "<" || op == ">" || op == "<=" || op == ">="
    ensures v.Ok? ==> v.value.BoolV?
    ensures l.IntV? && r.IntV? && IsExactInteger(l.i) && IsExactInteger(r.i) ==> v == Ok(BoolV(
              if op == "<" then l.i < r.i else if op == ">" then l.i > r.i
              else if op == "<=" then l.i <= r.i else l.i >= r.i))
    ensures l.UndefinedV? || r.UndefinedV? ==> v == Ok(BoolV(false))
  {
    if l.UndefinedV? || r.UndefinedV? then Ok(BoolV(false))
    else if l.StrV? && r.StrV? then
      Ok(BoolV(
        if op == "<" then StrLess(l.s, r.s) else if op == ">" then StrLess(r.s, l.s)
        else if op == "<=" then !StrLess(r.s, l.s) else !StrLess(l.s, r.s)))
    else if (l.IntV? || l.BoolV? || l.NullV?) && (r.IntV? || r.BoolV? || r.NullV?) then
      var a :- ToInteger(l);
      var b :- ToInteger(r);
      Ok(BoolV(if op == "<" then a < b else if op == ">" then a > b else if op == "<=" then a <= b else a >= b))
    else Err(Unmodelled("comparison needing a string or double conversion"))
  }

  /** `left === right`: the same kind and the same value; objects by identity, which the
      model's values determine. A double is never an integer, so it differs from every
      IntV; two doubles, which two spellings of one number can make, are not compared. */
  function StrictEquals(l: Value, r: Value): (v: Result<bool>)
    ensures v.Err? <==> l.DoubleV? && r.DoubleV?
    ensures v.Ok? ==> (v.value <==> l == r)
  {
    if l.DoubleV? && r.DoubleV? then Err(Unmodelled("equality of two doubles"))
    else Ok(l == r)
  }
}
