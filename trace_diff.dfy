// src/hooks/useChangedVariables.ts and src/hooks/useChangedHeapIds.ts: which variables
// and which heap entries a step changed with respect to the step before it. The hooks
// compare `JSON.stringify` texts; the model compares values, which agrees except for
// doubles: a DoubleV keeps the text of its literal, so two spellings of one number
// (`1.50` and `1.5`) differ here while their JSON texts are equal.

module TraceDiff {
  import opened Common
  import opened Values
  import opened Environments
  import opened Interpreter

  // ---------------------------------------------------------------------------
  // Variables

  /** `vars[key]`: the value bound to a key, if any. */
  function Field(vars: seq<Binding>, key: string): (r: Option<Value>)
    ensures r.Some? <==> key in Names(vars)
  {
    if key in Names(vars) then Some(Get(vars, key)) else None
  }

  /** The first test of the hook: the key is new, or its value's JSON differs. */
  predicate ValueChanged(cur: Step, prev: Step, key: string)
  {
    Field(prev.variables, key) != Field(cur.variables, key)
  }

  /** The second test: the key holds a reference whose heap entry is new or whose JSON
      differs. */
  predicate RefChanged(cur: Step, prev: Step, key: string)
  {
    var v := Field(cur.variables, key);
    v.Some? && v.value.RefV? && EntryChanged(cur, prev, v.value.id)
  }

  predicate Marked(cur: Step, prev: Step, key: string)
  {
    ValueChanged(cur, prev, key) || RefChanged(cur, prev, key)
  }

  /** The keys the variables panel highlights. */
  function ChangedVariables(cur: Option<Step>, prev: Option<Step>): set<string>
  {
    if cur.None? then {}
    else if prev.None? then AllKeys(cur.value.variables)
    else NewOrChangedValues(cur.value, prev.value) + ChangedTargets(cur.value, prev.value)
  }

  function AllKeys(vars: seq<Binding>): set<string>
  {
    set j | 0 <= j < |vars| :: vars[j].name
  }

  /** The two tests of the hook's loops. */
  datatype Test = ValueTest | TargetTest

  predicate Passes(t: Test, cur: Step, prev: Step, key: string)
  {
    if t.ValueTest? then ValueChanged(cur, prev, key) else RefChanged(cur, prev, key)
  }

  /** The keys among the first `i` variables of `cur` that pass a test, as a loop
      adds them. */
  function PassingUpTo(t: Test, cur: Step, prev: Step, i: nat): set<string>
    requires i <= |cur.variables|
    decreases i
  {
    if i == 0 then {}
    else
      var key := cur.variables[i - 1].name;
      PassingUpTo(t, cur, prev, i - 1) + (if Passes(t, cur, prev, key) then {key} else {})
  }

  /** A key is among them when it is one of the first `i` names and passes. */
  lemma {:induction false} PassingMembers(t: Test, cur: Step, prev: Step, i: nat, key: string)
    requires i <= |cur.variables|
    ensures key in PassingUpTo(t, cur, prev, i) <==> key in Names(cur.variables)[..i] && Passes(t, cur, prev, key)
  {
    if i > 0 {
      PassingMembers(t, cur, prev, i - 1, key);
      assert Names(cur.variables)[..i] == Names(cur.variables)[..i - 1] + [cur.variables[i - 1].name];
    }
  }

  function NewOrChangedValues(cur: Step, prev: Step): set<string>
  {
    PassingUpTo(ValueTest, cur, prev, |cur.variables|)
  }

  function ChangedTargets(cur: Step, prev: Step): set<string>
  {
    PassingUpTo(TargetTest, cur, prev, |cur.variables|)
  }

  /** The computation inside `useMemo`: every key without a previous step, else a
      first loop for new or changed values and a second for changed targets. */
  method ComputeChangedVariables(cur: Option<Step>, prev: Option<Step>) returns (changed: set<string>)
    ensures changed == ChangedVariables(cur, prev)
  {
    if cur.None? {
      return {};
    }
    if prev.None? {
      changed := CollectKeys(cur.value.variables);
      return;
    }
    var first := CollectPassing(ValueTest, cur.value, prev.value);
    var second := CollectPassing(TargetTest, cur.value, prev.value);
    changed := first + second;
  }

  /** `Object.keys(currentStep.variables).forEach(key => changed.add(key))`. */
  method CollectKeys(vars: seq<Binding>) returns (changed: set<string>)
    ensures changed == AllKeys(vars)
  {
    changed := {};
    var i := 0;
    while i < |vars|
      invariant 0 <= i <= |vars|
      invariant changed == set j | 0 <= j < i :: vars[j].name
    {
      changed := changed + {vars[i].name};
      i := i + 1;
    }
  }

  /** One `for ... in` loop of the hook, adding the keys that pass its test to what
      the set already holds. */
  method CollectPassing(t: Test, cur: Step, prev: Step) returns (changed: set<string>)
    ensures changed == PassingUpTo(t, cur, prev, |cur.variables|)
  {
    var vars := cur.variables;
    changed := {};
    var i := 0;
    while i < |vars|
      invariant 0 <= i <= |vars|
      invariant changed == PassingUpTo(t, cur, prev, i)
    {
      var key := vars[i].name;
      var passes := Passes(t, cur, prev, key);
      assert PassingUpTo(t, cur, prev, i + 1) == PassingUpTo(t, cur, prev, i) + (if passes then {key} else {});
      if passes {
        changed := changed + {key};
      }
      i := i + 1;
    }
  }

  /** A variable is marked exactly when it is a key of the current step that is new,
      holds another value, or refers to a heap entry that is new or changed. */
  lemma MarkedWhenChanged(cur: Step, prev: Step, key: string)
    ensures key in ChangedVariables(Some(cur), Some(prev)) <==> key in Names(cur.variables) && Marked(cur, prev, key)
  {
    var n := |cur.variables|;
    assert Names(cur.variables)[..n] == Names(cur.variables);
    PassingMembers(ValueTest, cur, prev, n, key);
    PassingMembers(TargetTest, cur, prev, n, key);
  }

  /** Every variable of the first step is new; with no step nothing is. */
  lemma FirstStepMarksAll(s: Step, key: string)
    ensures key in ChangedVariables(Some(s), None) <==> key in Names(s.variables)
    ensures ChangedVariables(None, Some(s)) == {}
  {
    if key in Names(s.variables) {
      var j :| 0 <= j < |s.variables| && Names(s.variables)[j] == key;
      assert s.variables[j].name == key;
    }
    if key in ChangedVariables(Some(s), None) {
      var j :| 0 <= j < |s.variables| && s.variables[j].name == key;
      assert Names(s.variables)[j] == key;
    }
  }

  /** Only keys of the current step are reported: a variable that went out of scope
      never is. */
  lemma OnlyCurrentKeys(cur: Option<Step>, prev: Option<Step>, key: string)
    requires key in ChangedVariables(cur, prev)
    ensures cur.Some? && key in Names(cur.value.variables)
  {
    if prev.None? {
      FirstStepMarksAll(cur.value, key);
    } else {
      MarkedWhenChanged(cur.value, prev.value, key);
    }
  }

  /** A step compared with itself marks nothing, provided each reference in it points
      at an entry of its heap; a dangling reference is marked even then. */
  lemma SameStepMarksNothing(s: Step)
    requires forall j :: 0 <= j < |s.variables| && s.variables[j].value.RefV? ==> s.variables[j].value.id in Ids(s.heap)
    ensures ChangedVariables(Some(s), Some(s)) == {}
  {
    var vars := s.variables;
    forall key | key in ChangedVariables(Some(s), Some(s))
      ensures false
    {
      MarkedWhenChanged(s, s, key);
    }
  }

  // ---------------------------------------------------------------------------
  // Heap entries

  /** The heap entry under `id` is new or its JSON differs. */
  predicate EntryChanged(cur: Step, prev: Step, id: nat)
  {
    Find(prev.heap, id).None? || Find(cur.heap, id) != Find(prev.heap, id)
  }

  /** The heap ids the heap panel highlights. */
  function ChangedHeapIds(cur: Option<Step>, prev: Option<Step>): set<nat>
  {
    if cur.None? then {}
    else
      var h := cur.value.heap;
      if prev.None? then set j | 0 <= j < |h| :: h[j].id
      else set j | 0 <= j < |h| && EntryChanged(cur.value, prev.value, h[j].id) :: h[j].id
  }

  /** The computation inside `useMemo`, id by id. */
  method ComputeChangedHeapIds(cur: Option<Step>, prev: Option<Step>) returns (changed: set<nat>)
    ensures changed == ChangedHeapIds(cur, prev)
  {
    changed := {};
    if cur.None? {
      return;
    }
    var h := cur.value.heap;
    var i := 0;
    while i < |h|
      invariant 0 <= i <= |h|
      invariant prev.None? ==> changed == set j | 0 <= j < i :: h[j].id
      invariant prev.Some? ==> changed == set j | 0 <= j < i && EntryChanged(cur.value, prev.value, h[j].id) :: h[j].id
    {
      if prev.None? || EntryChanged(cur.value, prev.value, h[i].id) {
        changed := changed + {h[i].id};
      }
      i := i + 1;
    }
  }

  /** The marked ids are ids of the current heap, and an id is marked exactly when its
      entry is new or changed. */
  lemma HeapMarksExactlyChanged(cur: Step, prev: Step, id: nat)
    ensures id in ChangedHeapIds(Some(cur), Some(prev)) <==> id in Ids(cur.heap) && EntryChanged(cur, prev, id)
  {
    var h := cur.heap;
    if id in Ids(h) {
      var j :| 0 <= j < |h| && Ids(h)[j] == id;
      assert h[j].id == id;
    }
    if id in ChangedHeapIds(Some(cur), Some(prev)) {
      var j :| 0 <= j < |h| && h[j].id == id;
      assert Ids(h)[j] == id;
    }
  }

  /** Storing one entry between two steps marks that id alone, and only when the stored
      value differs from what was there. */
  lemma StoreMarksOneId(prev: Step, cur: Step, id: nat, v: HeapValue)
    requires cur.heap == Store(prev.heap, id, v)
    ensures ChangedHeapIds(Some(cur), Some(prev)) == if Find(prev.heap, id) == Some(v) then {} else {id}
  {
    forall x | x in ChangedHeapIds(Some(cur), Some(prev))
      ensures x == id && Find(prev.heap, id) != Some(v)
    {
      HeapMarksExactlyChanged(cur, prev, x);
    }
    if Find(prev.heap, id) != Some(v) {
      HeapMarksExactlyChanged(cur, prev, id);
    }
  }
}
