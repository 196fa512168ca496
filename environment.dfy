// The scope chain of src/lib/environment.ts (and its copy in services/javaInterpreter.ts).
//
// Every Environment the interpreter creates lives in an arena, a sequence of scopes
// addressed by index; a scope names its parent by index. Scopes are only ever added,
// and a parent is always created before its children, so a parent's index is smaller
// than its child's. The `variables` Map of a scope is a sequence of bindings in
// insertion order with distinct names.

module Environments {
  import opened Common
  import opened Values

  datatype Binding = Binding(name: string, value: Value)

  datatype Scope = Scope(parent: Option<nat>, variables: seq<Binding>)

  type Arena = seq<Scope>

  function Names(vars: seq<Binding>): (ns: seq<string>)
    ensures |ns| == |vars|
    ensures forall k :: 0 <= k < |vars| ==> ns[k] == vars[k].name
  {
    if vars == [] then [] else [vars[0].name] + Names(vars[1..])
  }

  predicate Distinct(ns: seq<string>)
  {
    forall j, k :: 0 <= j < k < |ns| ==> ns[j] != ns[k]
  }

  predicate WellFormed(a: Arena)
  {
    && (forall i :: 0 <= i < |a| && a[i].parent.Some? ==> a[i].parent.value < i)
    && (forall i :: 0 <= i < |a| ==> Distinct(Names(a[i].variables)))
  }

  /** Where `name` sits in a map that has it. */
  function IndexOf(vars: seq<Binding>, name: string): (k: nat)
    requires name in Names(vars)
    ensures k < |vars| && vars[k].name == name
    ensures forall j :: 0 <= j < k ==> vars[j].name != name
  {
    if vars[0].name == name then 0
    else
      assert Names(vars) == [vars[0].name] + Names(vars[1..]);
      1 + IndexOf(vars[1..], name)
  }

  /** `variables.get(name)` on a map that has the name. */
  function Get(vars: seq<Binding>, name: string): Value
    requires name in Names(vars)
  {
    vars[IndexOf(vars, name)].value
  }

  /** `variables.set(name, value)`: an existing key keeps its place, a new key goes
      last. */
  function Set(vars: seq<Binding>, name: string, v: Value): (r: seq<Binding>)
    ensures name in Names(vars) ==> Names(r) == Names(vars)
    ensures name !in Names(vars) ==> Names(r) == Names(vars) + [name]
    ensures name in Names(r) && Get(r, name) == v
  {
    if name in Names(vars) then
      var k := IndexOf(vars, name);
      var r := vars[k := Binding(name, v)];
      assert Names(r) == Names(vars);
      assert IndexOf(r, name) == k by {
        var m := IndexOf(r, name);
        assert !(m < k) && !(k < m);
      }
      r
    else
      var r := vars + [Binding(name, v)];
      assert Names(r) == Names(vars) + [name];
      assert IndexOf(r, name) == |vars| by {
        var m := IndexOf(r, name);
        assert forall j :: 0 <= j < |vars| ==> r[j].name == Names(vars)[j];
      }
      r
  }

  /** Setting one name leaves every other name's value alone. */
  lemma SetOther(vars: seq<Binding>, name: string, v: Value, other: string)
    requires other != name && other in Names(vars)
    ensures other in Names(Set(vars, name, v)) && Get(Set(vars, name, v), other) == Get(vars, other)
  {
    var r := Set(vars, name, v);
    var k := IndexOf(vars, other);
    assert r[k] == vars[k];
    assert forall j :: 0 <= j < k ==> r[j].name != other;
    assert Names(r)[k] == other;
    assert IndexOf(r, other) == k by {
      var m := IndexOf(r, other);
      assert !(m < k) && !(k < m);
    }
  }

  /** `new Environment(parent)`: a fresh empty scope, appended to the arena. */
  function NewScope(a: Arena, parent: nat): (r: (Arena, nat))
    requires parent < |a|
    ensures r.1 == |a| && r.0 == a + [Scope(Some(parent), [])]
    ensures WellFormed(a) ==> WellFormed(r.0)
  {
    (a + [Scope(Some(parent), [])], |a|)
  }

  /** The scopes `resolve` visits from `e`: `e`, its parent, and so on to the root. */
  function Chain(a: Arena, e: nat): (c: seq<nat>)
    requires WellFormed(a) && e < |a|
    ensures |c| > 0 && c[0] == e
    ensures forall k :: 0 <= k < |c| ==> c[k] <= e
    decreases e
  {
    match a[e].parent
    case None => [e]
    case Some(p) => [e] + Chain(a, p)
  }

  /** `resolve(name)`: the nearest scope up the chain that binds the name. */
  function Resolve(a: Arena, e: nat, name: string): (r: Result<nat>)
    requires WellFormed(a) && e < |a|
    ensures r.Ok? ==> r.value <= e && name in Names(a[r.value].variables)
    ensures r.Err? ==> r.error == RuntimeError("Variable \"" + name + "\" not found.")
    decreases e
  {
    if name in Names(a[e].variables) then Ok(e)
    else
      match a[e].parent
      case None => Err(RuntimeError("Variable \"" + name + "\" not found."))
      case Some(p) => Resolve(a, p, name)
  }

  /** `lookup(name)`. */
  function Lookup(a: Arena, e: nat, name: string): (r: Result<Value>)
    requires WellFormed(a) && e < |a|
    ensures r.Ok? <==> Resolve(a, e, name).Ok?
    ensures r.Ok? ==> r.value == Get(a[Resolve(a, e, name).value].variables, name)
  {
    var t :- Resolve(a, e, name);
    Ok(Get(a[t].variables, name))
  }

  /** `declare(name, value)`: fails when this scope, and only this scope, already binds
      the name. */
  function Declare(a: Arena, e: nat, name: string, v: Value): (r: Result<Arena>)
    requires WellFormed(a) && e < |a|
    ensures r.Err? <==> name in Names(a[e].variables)
    ensures r.Err? ==> r.error == RuntimeError("Variable \"" + name + "\" has already been declared.")
    ensures r.Ok? ==> |r.value| == |a| && WellFormed(r.value)
    ensures r.Ok? ==> r.value[e].parent == a[e].parent
    ensures r.Ok? ==> r.value[e].variables == a[e].variables + [Binding(name, v)]
    ensures r.Ok? ==> forall i :: 0 <= i < |a| && i != e ==> r.value[i] == a[i]
  {
    var vars := a[e].variables;
    if name in Names(vars) then Err(RuntimeError("Variable \"" + name + "\" has already been declared."))
    else
      var vars' := vars + [Binding(name, v)];
      assert Names(vars') == Names(vars) + [name];
      Ok(a[e := Scope(a[e].parent, vars')])
  }

  /** `assign(name, value)`: overwrites the binding in the resolving scope. */
  function Assign(a: Arena, e: nat, name: string, v: Value): (r: Result<Arena>)
    requires WellFormed(a) && e < |a|
    ensures r.Ok? <==> Resolve(a, e, name).Ok?
    ensures r.Err? ==> r.error == Resolve(a, e, name).error
    ensures r.Ok? ==> |r.value| == |a| && WellFormed(r.value)
    ensures r.Ok? ==> var t := Resolve(a, e, name).value;
              && r.value[t].parent == a[t].parent
              && r.value[t].variables == Set(a[t].variables, name, v)
              && forall i :: 0 <= i < |a| && i != t ==> r.value[i] == a[i]
  {
    var t :- Resolve(a, e, name);
    var vars' := Set(a[t].variables, name, v);
    Ok(a[t := Scope(a[t].parent, vars')])
  }

  /** `getSnapshot()`: a copy of this scope's own bindings, in insertion order. */
  function Snapshot(a: Arena, e: nat): (s: seq<Binding>)
    requires e < |a|
    ensures Names(s) == Names(a[e].variables)
  {
    a[e].variables
  }

  // ---------------------------------------------------------------------------
  // Properties

  /** Two arenas with the same parents and the same names in every scope of the first
      resolve every name alike from those scopes. */
  lemma {:induction false} ResolveSameShape(a: Arena, b: Arena, e: nat, name: string)
    requires WellFormed(a) && WellFormed(b) && |a| <= |b| && e < |a|
    requires forall i :: 0 <= i < |a| ==> a[i].parent == b[i].parent && Names(a[i].variables) == Names(b[i].variables)
    ensures Resolve(a, e, name) == Resolve(b, e, name)
    decreases e
  {
    if name !in Names(a[e].variables) && a[e].parent.Some? {
      ResolveSameShape(a, b, a[e].parent.value, name);
    }
  }

  /** No scope among the first `k` of a chain binds `name`. */
  predicate UnboundAlong(a: Arena, c: seq<nat>, k: nat, name: string)
    requires k <= |c| && forall j :: 0 <= j < |c| ==> c[j] < |a|
  {
    forall j :: 0 <= j < k ==> name !in Names(a[c[j]].variables)
  }

  lemma UnboundAlongCons(a: Arena, x: nat, cp: seq<nat>, k: nat, name: string)
    requires x < |a| && k <= |cp| && forall j :: 0 <= j < |cp| ==> cp[j] < |a|
    requires name !in Names(a[x].variables)
    ensures UnboundAlong(a, [x] + cp, k + 1, name) == UnboundAlong(a, cp, k, name)
  {
    var c := [x] + cp;
    if UnboundAlong(a, cp, k, name) {
      forall j | 0 <= j < k + 1
        ensures name !in Names(a[c[j]].variables)
      {
        if j > 0 { assert c[j] == cp[j - 1]; }
      }
    }
    if UnboundAlong(a, c, k + 1, name) {
      forall j | 0 <= j < k
        ensures name !in Names(a[cp[j]].variables)
      {
        assert c[j + 1] == cp[j];
      }
    }
  }

  /** `resolve` returns the first scope of the chain that binds the name, and fails
      exactly when no scope of the chain binds it. */
  lemma {:induction false} ResolveNearest(a: Arena, e: nat, name: string)
    requires WellFormed(a) && e < |a|
    ensures Resolve(a, e, name).Ok? ==>
              exists k :: 0 <= k < |Chain(a, e)| && Chain(a, e)[k] == Resolve(a, e, name).value
                && UnboundAlong(a, Chain(a, e), k, name)
    ensures Resolve(a, e, name).Err? <==> UnboundAlong(a, Chain(a, e), |Chain(a, e)|, name)
    decreases e
  {
    var c := Chain(a, e);
    if name in Names(a[e].variables) {
      assert c[0] == Resolve(a, e, name).value && UnboundAlong(a, c, 0, name);
      assert !UnboundAlong(a, c, |c|, name) by {
        assert name in Names(a[c[0]].variables);
      }
    } else {
      match a[e].parent
      case None =>
        assert c == [e];
      case Some(p) =>
        ResolveNearest(a, p, name);
        var cp := Chain(a, p);
        assert c == [e] + cp;
        assert Resolve(a, e, name) == Resolve(a, p, name);
        forall k | 0 <= k <= |cp|
          ensures UnboundAlong(a, c, k + 1, name) == UnboundAlong(a, cp, k, name)
        {
          UnboundAlongCons(a, e, cp, k, name);
        }
        if Resolve(a, e, name).Ok? {
          var k :| 0 <= k < |cp| && cp[k] == Resolve(a, p, name).value && UnboundAlong(a, cp, k, name);
          assert c[k + 1] == Resolve(a, e, name).value && UnboundAlong(a, c, k + 1, name);
        }
    }
  }

  /** After a successful `declare(n, v)`, `lookup(n)` in the same scope gives `v`. */
  lemma LookupAfterDeclare(a: Arena, e: nat, name: string, v: Value)
    requires WellFormed(a) && e < |a|
    requires Declare(a, e, name, v).Ok?
    ensures Lookup(Declare(a, e, name, v).value, e, name) == Ok(v)
  {
    var a' := Declare(a, e, name, v).value;
    var vars := a'[e].variables;
    assert Names(vars) == Names(a[e].variables) + [name];
    assert Names(vars)[|vars| - 1] == name;
    forall j | 0 <= j < |vars| - 1
      ensures vars[j].name != name
    {
      assert vars[j].name == Names(a[e].variables)[j];
    }
  }

  /** Shadowing: a scope may declare a name its parent binds; lookups through the
      child then see the new value while the parent keeps its own. */
  lemma Shadowing(a: Arena, e: nat, name: string, v: Value)
    requires WellFormed(a) && e < |a| && a[e].parent.Some?
    requires name !in Names(a[e].variables)
    ensures Declare(a, e, name, v).Ok?
    ensures Lookup(Declare(a, e, name, v).value, e, name) == Ok(v)
    ensures Lookup(Declare(a, e, name, v).value, a[e].parent.value, name) == Lookup(a, a[e].parent.value, name)
  {
    var a' := Declare(a, e, name, v).value;
    LookupAfterDeclare(a, e, name, v);
    var p := a[e].parent.value;
    ResolveUnaffected(a, a', e, p, name);
  }

  /** Changing only scope `e`, or scopes above `p` in no way, leaves resolution from a
      smaller index alone. */
  lemma {:induction false} ResolveUnaffected(a: Arena, b: Arena, e: nat, p: nat, name: string)
    requires WellFormed(a) && WellFormed(b) && |a| == |b| && p < e < |a|
    requires forall i :: 0 <= i < |a| && i != e ==> a[i] == b[i]
    ensures Resolve(a, p, name) == Resolve(b, p, name)
    ensures Lookup(a, p, name) == Lookup(b, p, name)
    decreases p
  {
    if name !in Names(a[p].variables) && a[p].parent.Some? {
      ResolveUnaffected(a, b, e, a[p].parent.value, name);
    }
  }

  /** After a successful `assign(n, v)`, `lookup(n)` from the same scope gives `v`, and
      every other name looks up as before from every scope. */
  lemma AssignThenLookup(a: Arena, e: nat, name: string, v: Value, x: nat, other: string)
    requires WellFormed(a) && e < |a| && x < |a|
    requires Assign(a, e, name, v).Ok?
    ensures Lookup(Assign(a, e, name, v).value, e, name) == Ok(v)
    ensures other != name ==> Lookup(Assign(a, e, name, v).value, x, other) == Lookup(a, x, other)
  {
    var a' := Assign(a, e, name, v).value;
    var t := Resolve(a, e, name).value;
    SameShapeAfterAssign(a, e, name, v);
    ResolveSameShape(a, a', e, name);
    ResolveSameShape(a, a', x, other);
    var rx := Resolve(a, x, other);
    if other != name && rx.Ok? && rx.value == t {
      SetOther(a[t].variables, name, v, other);
    }
  }

  lemma SameShapeAfterAssign(a: Arena, e: nat, name: string, v: Value)
    requires WellFormed(a) && e < |a|
    requires Assign(a, e, name, v).Ok?
    ensures var b := Assign(a, e, name, v).value;
      forall i :: 0 <= i < |a| ==> a[i].parent == b[i].parent && Names(a[i].variables) == Names(b[i].variables)
  {
  }
}
