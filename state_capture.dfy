// The run-time recorder the instrumented program calls (StateCapture): variables set
// by name, one step per `captureState` holding a copy of the variables and the console
// text printed since the previous step, a fixed step cap, and `reset`.

module StateCapture {
  import opened Common

  /** `MAXSTEPS`: the number of steps a run may record. */
  const MaxSteps := 25000

  // Values and their serialization (`serializeValue`)

  /** A value handed to `setVariable`, boxed as at the call site. Floating point values
      are kept as their text; any other object only by its class name. */
  datatype JavaValue =
    | JNull
    | JInt(i: int)
    | JLong(l: int)
    | JDouble(d: string)
    | JFloat(f: string)
    | JBoolean(b: bool)
    | JString(s: string)
    | JArray(elems: seq<JavaValue>)
    | JObject(className: string)

  /** The boxed kinds `serializeValue` returns as they are. */
  predicate IsScalar(v: JavaValue)
  {
    v.JInt? || v.JLong? || v.JDouble? || v.JFloat? || v.JBoolean? || v.JString?
  }

  /** What the trace holds for a value: null, the value itself, or a list. */
  datatype Serialized =
    | SNull
    | SScalar(v: JavaValue)
    | SList(items: seq<Serialized>)

  function Width(v: JavaValue): nat
  {
    if v.JArray? then |v.elems| else 0
  }

  /** `serializeValue`: null stays null, an array becomes the list of its serialized
      elements, a boxed primitive or string is returned as is. The reflective walk over
      the fields of any other object is not part of this model. */
  function Serialize(v: JavaValue): Result<Serialized>
    decreases v, Width(v) + 1
  {
    if v.JNull? then Ok(SNull)
    else if v.JArray? then
      var items :- SerializeItems(v, |v.elems|);
      Ok(SList(items))
    else if IsScalar(v) then Ok(SScalar(v))
    else Err(Unmodelled("the reflective serialization of an object's fields"))
  }

  /** The first `n` elements of the array `v`, serialized in order. */
  function SerializeItems(v: JavaValue, n: nat): Result<seq<Serialized>>
    requires v.JArray? && n <= |v.elems|
    decreases v, n
  {
    if n == 0 then Ok([])
    else
      var prev :- SerializeItems(v, n - 1);
      var last :- Serialize(v.elems[n - 1]);
      Ok(prev + [last])
  }

  /** The value a serialized form stands for. */
  function Restore(s: Serialized): JavaValue
  {
    match s
    case SNull => JNull
    case SScalar(v) => v
    case SList(items) => JArray(seq(|items|, i requires 0 <= i < |items| => Restore(items[i])))
  }

  /** The values `Serialize` handles: no object outside the arrays and primitives. */
  predicate NoObjects(v: JavaValue)
  {
    match v
    case JObject(_) => false
    case JArray(elems) => forall i :: 0 <= i < |elems| ==> NoObjects(elems[i])
    case _ => true
  }

  /** The serialized elements are those of the array, one for one and in order. */
  lemma {:induction false} ItemsAre(v: JavaValue, n: nat)
    requires v.JArray? && n <= |v.elems| && SerializeItems(v, n).Ok?
    ensures |SerializeItems(v, n).value| == n
    ensures forall i :: 0 <= i < n ==> Serialize(v.elems[i]) == Ok(SerializeItems(v, n).value[i])
    decreases n
  {
    if n > 0 {
      ItemsAre(v, n - 1);
    }
  }

  /** The serialization of a list fails exactly when one of its elements' does. */
  lemma {:induction false} ItemsSucceed(v: JavaValue, n: nat)
    requires v.JArray? && n <= |v.elems|
    ensures SerializeItems(v, n).Ok? <==> forall i :: 0 <= i < n ==> Serialize(v.elems[i]).Ok?
    decreases n
  {
    if n > 0 {
      ItemsSucceed(v, n - 1);
    }
  }

  /** Serialization succeeds exactly on the values without objects. */
  lemma {:induction false} SerializableValues(v: JavaValue)
    ensures Serialize(v).Ok? <==> NoObjects(v)
    decreases v
  {
    if v.JArray? {
      forall i | 0 <= i < |v.elems|
        ensures Serialize(v.elems[i]).Ok? <==> NoObjects(v.elems[i])
      {
        SerializableValues(v.elems[i]);
      }
      ItemsSucceed(v, |v.elems|);
    }
  }

  /** Serialization loses nothing: the value can be read back from its serialized form. */
  lemma {:induction false} RestoreSerialize(v: JavaValue)
    requires Serialize(v).Ok?
    ensures Restore(Serialize(v).value) == v
    decreases v
  {
    if v.JArray? {
      var items := SerializeItems(v, |v.elems|).value;
      ItemsAre(v, |v.elems|);
      forall i | 0 <= i < |v.elems|
        ensures Restore(items[i]) == v.elems[i]
      {
        RestoreSerialize(v.elems[i]);
      }
      assert Restore(SList(items)).elems == v.elems;
    }
  }

  /** Once an element fails, the list fails with its error. */
  lemma {:induction false} ItemsErrSticks(v: JavaValue, n: nat, m: nat)
    requires v.JArray? && n <= m <= |v.elems| && SerializeItems(v, n).Err?
    ensures SerializeItems(v, m) == Err(SerializeItems(v, n).error)
    decreases m - n
  {
    if n < m {
      ItemsErrSticks(v, n, m - 1);
    }
  }

  /** `serializeValue`, filling the list of an array's elements in a loop. */
  method SerializeValue(v: JavaValue) returns (r: Result<Serialized>)
    ensures r == Serialize(v)
    decreases v, Width(v) + 1
  {
    if v.JNull? {
      return Ok(SNull);
    }
    if v.JArray? {
      var arrayContent: seq<Serialized> := [];
      var i := 0;
      while i < |v.elems|
        invariant i <= |v.elems|
        invariant SerializeItems(v, i) == Ok(arrayContent)
      {
        var element := SerializeValue(v.elems[i]);
        if element.Err? {
          ItemsErrSticks(v, i + 1, |v.elems|);
          return Err(element.error);
        }
        arrayContent := arrayContent + [element.value];
        i := i + 1;
      }
      return Ok(SList(arrayContent));
    }
    if IsScalar(v) {
      return Ok(SScalar(v));
    }
    return Err(Unmodelled("the reflective serialization of an object's fields"));
  }

  // The variables: a LinkedHashMap kept as its entries in insertion order

  type Vars = seq<(string, Serialized)>

  function Keys(m: Vars): (ks: seq<string>)
    ensures |ks| == |m|
  {
    seq(|m|, i requires 0 <= i < |m| => m[i].0)
  }

  predicate DistinctKeys(m: Vars)
  {
    forall i, j :: 0 <= i < j < |m| ==> m[i].0 != m[j].0
  }

  /** The position of key `k`, or -1. */
  function KeyIndex(m: Vars, k: string): (i: int)
    ensures -1 <= i < |m|
    ensures i >= 0 ==> m[i].0 == k && forall j :: 0 <= j < i ==> m[j].0 != k
    ensures i < 0 ==> forall j :: 0 <= j < |m| ==> m[j].0 != k
  {
    if m == [] then -1
    else if m[0].0 == k then 0
    else
      var i := KeyIndex(m[1..], k);
      if i < 0 then -1 else i + 1
  }

  /** `get`. */
  function Get(m: Vars, k: string): Option<Serialized>
  {
    var i := KeyIndex(m, k);
    if i >= 0 then Some(m[i].1) else None
  }

  /** `put`: a key already present keeps its place and takes the new value; a new key
      goes last. */
  function Put(m: Vars, k: string, v: Serialized): Vars
  {
    var i := KeyIndex(m, k);
    if i >= 0 then m[i := (k, v)] else m + [(k, v)]
  }

  /** After `put`, the key maps to the new value and every other key to what it mapped
      to before. */
  lemma PutGet(m: Vars, k: string, v: Serialized, k': string)
    ensures Get(Put(m, k, v), k') == if k' == k then Some(v) else Get(m, k')
  {
    var i := KeyIndex(m, k);
    var p := Put(m, k, v);
    if i >= 0 {
      SameKeys(m, p, k');
    } else {
      KeyIndexAppend(m, (k, v), k');
    }
  }

  /** Where a key is found once an entry is appended. */
  lemma KeyIndexAppend(m: Vars, e: (string, Serialized), k: string)
    ensures KeyIndex(m + [e], k) == if KeyIndex(m, k) >= 0 then KeyIndex(m, k) else if e.0 == k then |m| else -1
  {
    var p := m + [e];
    var a := KeyIndex(m, k);
    var b := KeyIndex(p, k);
    assert forall j :: 0 <= j < |m| ==> p[j] == m[j];
    assert p[|m|] == e;
    if a >= 0 {
      assert p[a].0 == k;
      assert !(b < 0) && !(b < a) && !(a < b);
    }
  }

  /** Entries with the same keys in the same places find every key at the same place. */
  lemma SameKeys(m: Vars, p: Vars, k: string)
    requires |m| == |p| && forall n :: 0 <= n < |m| ==> p[n].0 == m[n].0
    ensures KeyIndex(p, k) == KeyIndex(m, k)
  {
    var a := KeyIndex(m, k);
    var b := KeyIndex(p, k);
    if a >= 0 && b >= 0 {
      assert !(a < b) && !(b < a);
    }
  }

  /** `put` keeps the insertion order: an existing key does not move, a new one is
      appended, and distinct keys stay distinct. */
  lemma PutOrder(m: Vars, k: string, v: Serialized)
    requires DistinctKeys(m)
    ensures Keys(Put(m, k, v)) == if k in Keys(m) then Keys(m) else Keys(m) + [k]
    ensures DistinctKeys(Put(m, k, v))
  {
    var i := KeyIndex(m, k);
    if i >= 0 {
      assert k in Keys(m) by {
        assert Keys(m)[i] == k;
      }
      assert Keys(Put(m, k, v)) == Keys(m);
    } else {
      assert k !in Keys(m);
      assert Keys(Put(m, k, v)) == Keys(m) + [k];
    }
  }

  // The recorder's state

  /** One recorded step; the call stack it also holds is not part of this model. */
  datatype Step = Step(lineNumber: int, variables: Vars, consoleOutput: string)

  /** The static fields: `trace`, `stepCount`, `consoleBuffer`, `lastCapturedLength` and
      `currentVariables`. */
  datatype Recording = Recording(trace: seq<Step>, stepCount: int, buffer: string, lastCaptured: int, variables: Vars)

  /** The state after class initialization, and after `reset`. */
  function Initial(): Recording
  {
    Recording([], 0, [], 0, [])
  }

  newtype byte = b: int | 0 <= b < 256

  /** The character the capture stream appends for a byte written to `System.out`: the
      byte reaches `write(int)` sign-extended, and the cast to `char` keeps 16 bits, so
      the bytes from 0x80 up become the characters from U+FF80 up. */
  function Widened(b: byte): char
  {
    if b < 128 then b as char else (0xFF00 + b as int) as char
  }

  /** The byte a buffered character came from. */
  function Narrowed(c: char): byte
  {
    (c as int % 256) as byte
  }

  /** No byte is lost: each comes back from its character. Only the bytes below 0x80
      come out as the characters they encode on their own; every other byte becomes a
      character from U+FF80 up, whatever text it was part of. */
  lemma WidenedBytes(b: byte)
    ensures Narrowed(Widened(b)) == b
    ensures b < 128 <==> (Widened(b) as int) < 128
    ensures b >= 128 ==> (Widened(b) as int) >= 0xFF80
  {
  }

  /** A byte written to the redirected `System.out`. */
  function WriteByte(s: Recording, b: byte): Recording
  {
    s.(buffer := s.buffer + [Widened(b)])
  }

  /** `setVariable`. */
  function SetVar(s: Recording, name: string, value: JavaValue): Result<Recording>
  {
    var sv :- Serialize(value);
    Ok(s.(variables := Put(s.variables, name, sv)))
  }

  /** `captureState`: refused once the cap is reached; otherwise a step with the line,
      a copy of the variables and the text printed since the last capture. */
  function Capture(s: Recording, lineNumber: int): Result<Recording>
  {
    if s.stepCount >= MaxSteps then Err(RuntimeError("Maximum steps exceeded"))
    else if !(0 <= s.lastCaptured <= |s.buffer|) then Err(HostError("StringIndexOutOfBoundsException"))
    else
      var step := Step(lineNumber, s.variables, s.buffer[s.lastCaptured..]);
      Ok(s.(trace := s.trace + [step], stepCount := s.stepCount + 1, lastCaptured := |s.buffer|))
  }

  /** The console text of the steps, one after another. */
  function Outputs(trace: seq<Step>): string
  {
    if trace == [] then [] else Outputs(trace[..|trace| - 1]) + trace[|trace| - 1].consoleOutput
  }

  /** What the fields keep to between calls: the counter counts the steps, no more than
      the cap; the captured length lies within the buffer and the steps' console text
      is exactly the buffer up to it; the variables have distinct names. */
  predicate Consistent(s: Recording)
  {
    s.stepCount == |s.trace| && s.stepCount <= MaxSteps
    && 0 <= s.lastCaptured <= |s.buffer| && Outputs(s.trace) == s.buffer[..s.lastCaptured]
    && DistinctKeys(s.variables)
  }

  lemma InitialConsistent()
    ensures Consistent(Initial())
  {
  }

  /** Writing keeps the state consistent and touches only the buffer. */
  lemma WriteKeeps(s: Recording, b: byte)
    requires Consistent(s)
    ensures Consistent(WriteByte(s, b))
    ensures WriteByte(s, b).buffer[..|s.buffer|] == s.buffer
  {
    var t := WriteByte(s, b);
    assert t.buffer[..|s.buffer|] == s.buffer;
    assert t.buffer[..s.lastCaptured] == s.buffer[..s.lastCaptured];
  }

  /** Setting a variable keeps the state consistent and never changes a recorded step. */
  lemma SetVarKeeps(s: Recording, name: string, value: JavaValue)
    requires Consistent(s) && SetVar(s, name, value).Ok?
    ensures Consistent(SetVar(s, name, value).value)
    ensures SetVar(s, name, value).value.trace == s.trace
    ensures Get(SetVar(s, name, value).value.variables, name) == Some(Serialize(value).value)
  {
    PutOrder(s.variables, name, Serialize(value).value);
    PutGet(s.variables, name, Serialize(value).value, name);
  }

  /** `captureState` fails exactly at the cap, and otherwise appends a step whose console
      text is the buffer from the previous captured length on, keeping the state
      consistent. */
  lemma CaptureKeeps(s: Recording, lineNumber: int)
    requires Consistent(s)
    ensures Capture(s, lineNumber).Err? <==> s.stepCount >= MaxSteps
    ensures Capture(s, lineNumber).Err? ==> Capture(s, lineNumber).error == RuntimeError("Maximum steps exceeded")
    ensures Capture(s, lineNumber).Ok? ==>
      var t := Capture(s, lineNumber).value;
      Consistent(t) && t.trace == s.trace + [Step(lineNumber, s.variables, s.buffer[s.lastCaptured..])]
      && t.lastCaptured == |s.buffer| && t.buffer == s.buffer && t.variables == s.variables
  {
    if s.stepCount < MaxSteps {
      var t := Capture(s, lineNumber).value;
      assert t.trace[..|s.trace|] == s.trace;
      assert Outputs(t.trace) == s.buffer[..s.lastCaptured] + s.buffer[s.lastCaptured..];
      assert s.buffer[..s.lastCaptured] + s.buffer[s.lastCaptured..] == s.buffer;
      assert s.buffer[..|s.buffer|] == s.buffer;
    }
  }

  // Runs: the calls the instrumented program makes, in order

  datatype Call =
    | Print(b: byte)
    | SetVariable(name: string, value: JavaValue)
    | CaptureState(lineNumber: int)
    | Reset

  function Apply(s: Recording, c: Call): Result<Recording>
  {
    match c
    case Print(b) => Ok(WriteByte(s, b))
    case SetVariable(name, value) => SetVar(s, name, value)
    case CaptureState(line) => Capture(s, line)
    case Reset => Ok(Initial())
  }

  /** The calls in order; the first failure ends the run. */
  function Run(s: Recording, calls: seq<Call>): Result<Recording>
    decreases |calls|
  {
    if calls == [] then Ok(s)
    else
      var t :- Apply(s, calls[0]);
      Run(t, calls[1..])
  }

  lemma ApplyKeeps(s: Recording, c: Call)
    requires Consistent(s) && Apply(s, c).Ok?
    ensures Consistent(Apply(s, c).value)
  {
    match c
    case Print(b) => WriteKeeps(s, b);
    case SetVariable(name, value) => SetVarKeeps(s, name, value);
    case CaptureState(line) => CaptureKeeps(s, line);
    case Reset => InitialConsistent();
  }

  /** Every run from a consistent state ends consistent: in particular the steps never
      exceed the cap, and their console texts put together are the buffer up to the last
      captured length. */
  lemma {:induction false} RunKeeps(s: Recording, calls: seq<Call>)
    requires Consistent(s) && Run(s, calls).Ok?
    ensures Consistent(Run(s, calls).value)
    decreases |calls|
  {
    if calls != [] {
      ApplyKeeps(s, calls[0]);
      RunKeeps(Apply(s, calls[0]).value, calls[1..]);
    }
  }

  /** Without `reset`, steps once recorded stay as they were: the trace only grows. */
  lemma {:induction false} StepsAreKept(s: Recording, calls: seq<Call>)
    requires Run(s, calls).Ok? && forall k :: 0 <= k < |calls| ==> !calls[k].Reset?
    ensures |s.trace| <= |Run(s, calls).value.trace|
    ensures Run(s, calls).value.trace[..|s.trace|] == s.trace
    decreases |calls|
  {
    if calls != [] {
      var t := Apply(s, calls[0]).value;
      assert t.trace[..|s.trace|] == s.trace;
      StepsAreKept(t, calls[1..]);
      var u := Run(s, calls).value;
      assert u.trace[..|s.trace|] == u.trace[..|t.trace|][..|s.trace|];
    }
  }

  /** The recorder as the static class keeps it. */
  class Recorder {
    var trace: seq<Step>
    var stepCount: int
    var consoleBuffer: string
    var lastCapturedLength: int
    var currentVariables: Vars

    function State(): Recording
      reads this
    {
      Recording(trace, stepCount, consoleBuffer, lastCapturedLength, currentVariables)
    }

    /** The static initializer (the redirection of `System.out` aside). */
    constructor()
      ensures State() == Initial()
    {
      trace := [];
      stepCount := 0;
      consoleBuffer := [];
      lastCapturedLength := 0;
      currentVariables := [];
    }

    /** `write(int)` of the capture stream. */
    method Write(b: byte)
      modifies this
      ensures State() == WriteByte(old(State()), b)
    {
      consoleBuffer := consoleBuffer + [Widened(b)];
    }

    method SetVariable(name: string, value: JavaValue) returns (r: Result<()>)
      modifies this
      ensures r.Ok? <==> SetVar(old(State()), name, value).Ok?
      ensures r.Ok? ==> State() == SetVar(old(State()), name, value).value
      ensures r.Err? ==> r.error == SetVar(old(State()), name, value).error && State() == old(State())
    {
      var sv := SerializeValue(value);
      if sv.Err? {
        return Err(sv.error);
      }
      currentVariables := Put(currentVariables, name, sv.value);
      r := Ok(());
    }

    method CaptureState(lineNumber: int) returns (r: Result<()>)
      modifies this
      ensures r.Ok? <==> Capture(old(State()), lineNumber).Ok?
      ensures r.Ok? ==> State() == Capture(old(State()), lineNumber).value
      ensures r.Err? ==> r.error == Capture(old(State()), lineNumber).error && State() == old(State())
    {
      if stepCount >= MaxSteps {
        return Err(RuntimeError("Maximum steps exceeded"));
      }
      if !(0 <= lastCapturedLength <= |consoleBuffer|) {
        return Err(HostError("StringIndexOutOfBoundsException"));
      }
      var newOutput := consoleBuffer[lastCapturedLength..];
      lastCapturedLength := |consoleBuffer|;
      var step := Step(lineNumber, currentVariables, newOutput);
      trace := trace + [step];
      stepCount := stepCount + 1;
      r := Ok(());
    }

    method Reset()
      modifies this
      ensures State() == Initial()
    {
      trace := [];
      stepCount := 0;
      consoleBuffer := [];
      lastCapturedLength := 0;
      currentVariables := [];
    }
  }
}
