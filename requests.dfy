/** exec/request.go: the request a step sends, and the substitution of whole-string
    `{name}` values in its body by the stored variables, keeping their native type.
    The walk visits the entries of a map in iteration order; on reaching a nested
    map it walks that map and returns its result at once, so entries of the
    enclosing map that come later in iteration order are never visited. */
module Requests {
  import opened Wrappers
  import opened GoStrings
  import opened Json
  import opened Variables
  import opened Methods

  /** "variable <name> does not exist in variable map" */
  datatype MissingVariable = VariableDoesNotExist(name: string)

  function MissingVariableMessage(e: MissingVariable): string
  {
    "variable " + e.name + " does not exist in variable map"
  }

  /** The variable a string value refers to: at least three characters, a `{` first
      and a `}` last; the name is what lies between them. */
  function Reference(s: string): (r: Option<string>)
    ensures r.Some? <==> |s| >= 3 && s[0] == '{' && s[|s| - 1] == '}'
    ensures r.Some? ==> s == "{" + r.value + "}" && |r.value| > 0
  {
    if |s| < 3 then None
    else if HasPrefix(s, "{") && HasSuffix(s, "}") then Some(s[1..|s| - 1])
    else None
  }

  /** The body after the walk (with every replacement made before it stopped, since
      the source writes in place) and the error that stopped it, if any. */
  datatype Traversal = Traversal(body: Fields, err: Option<MissingVariable>)

  /** The walk over the entries of `m` from index `i` on, where `acc` is `m` with the
      entries before `i` already rewritten. */
  function TraverseFrom(m: Fields, acc: Fields, i: nat, store: map<string, Captured>): (t: Traversal)
    requires i <= |m| == |acc|
    ensures |t.body| == |m|
    ensures (forall j :: 0 <= j < |m| ==> acc[j].0 == m[j].0) ==>
              forall j :: 0 <= j < |m| ==> t.body[j].0 == m[j].0
    decreases Obj(m), |m| - i
  {
    if i == |m| then Traversal(acc, None)
    else
      match m[i].1
      case Str(s) =>
        (match Reference(s)
         case None => TraverseFrom(m, acc, i + 1, store)
         case Some(name) =>
           if name !in store then Traversal(acc, Some(VariableDoesNotExist(name)))
           else TraverseFrom(m, acc[i := (m[i].0, ToValue(store[name]))], i + 1, store))
      case Obj(f) =>
        var inner := TraverseFrom(f, f, 0, store);
        Traversal(acc[i := (m[i].0, Obj(inner.body))], inner.err)
      case _ => TraverseFrom(m, acc, i + 1, store)
  }

  /** `traverse` on a whole map. */
  function Traverse(m: Fields, store: map<string, Captured>): (t: Traversal)
    ensures |t.body| == |m| && forall j :: 0 <= j < |m| ==> t.body[j].0 == m[j].0
  {
    TraverseFrom(m, m, 0, store)
  }

  /** The request a step sends. */
  class Request {
    var contentType: string
    var url: string
    var httpMethod: Method
    var body: Fields

    constructor (contentType: string, url: string, httpMethod: Method, body: Fields)
      ensures this.contentType == contentType && this.url == url
      ensures this.httpMethod == httpMethod && this.body == body
    {
      this.contentType := contentType;
      this.url := url;
      this.httpMethod := httpMethod;
      this.body := body;
    }

    /** `processWithVariableMap`: walks the body and rewrites it in place; only the
        body changes, and a failed walk leaves the replacements made before it. */
    method ProcessWithVariableMap(vm: VariableMap) returns (err: Option<MissingVariable>)
      modifies this
      ensures Traversal(body, err) == Traverse(old(body), vm.variableToValue)
      ensures contentType == old(contentType) && url == old(url) && httpMethod == old(httpMethod)
    {
      var t := Walk(body, vm);
      body := t.body;
      err := t.err;
    }

    /** `traverse`: the loop over the entries of `m`, with the recursive call for a
        nested map returning straight away. */
    method Walk(m: Fields, vm: VariableMap) returns (t: Traversal)
      ensures t == Traverse(m, vm.variableToValue)
      decreases Obj(m)
    {
      var acc := m;
      var i := 0;
      while i < |m|
        invariant 0 <= i <= |m| == |acc|
        invariant Traverse(m, vm.variableToValue) == TraverseFrom(m, acc, i, vm.variableToValue)
      {
        var (k, v) := m[i];
        if v.Str? {
          var str := v.s;
          if |str| < 3 {
            i := i + 1;
            continue;
          }
          if HasPrefix(str, "{") && HasSuffix(str, "}") {
            var varName := str[1..|str| - 1];
            var (value, exists_) := vm.Get(varName);
            if !exists_ {
              return Traversal(acc, Some(VariableDoesNotExist(varName)));
            }
            acc := acc[i := (k, value)];
          }
        } else if v.Obj? {
          var inner := Walk(v.fields, vm);
          return Traversal(acc[i := (k, Obj(inner.body))], inner.err);
        }
        i := i + 1;
      }
      return Traversal(acc, None);
    }
  }

  // ------------------------------------------------------------------ what the walk does

  /** What a visited value becomes: a reference to a stored variable is replaced by
      the stored value with its own type (a string or an integer); everything else,
      lists included, stays as it is. */
  function Replacement(v: Value, store: map<string, Captured>): Value
  {
    if v.Str? && Reference(v.s).Some? && Reference(v.s).value in store
    then ToValue(store[Reference(v.s).value])
    else v
  }

  /** A value at which the walk of its map ends: a nested map, or a reference to a
      variable the store does not hold. */
  predicate Halts(v: Value, store: map<string, Captured>)
  {
    v.Obj? || (v.Str? && Reference(v.s).Some? && Reference(v.s).value !in store)
  }

  /** The index of the first entry at which the walk ends, or `|m|`. */
  function StopAt(m: Fields, store: map<string, Captured>): (s: nat)
    ensures s <= |m|
    ensures forall j :: 0 <= j < s ==> !Halts(m[j].1, store)
    ensures s < |m| ==> Halts(m[s].1, store)
  {
    if |m| == 0 then 0
    else if Halts(m[0].1, store) then 0
    else
      var s := StopAt(m[1..], store);
      assert forall j :: 1 <= j < s + 1 ==> m[j] == m[1..][j - 1];
      1 + s
  }

  /** The walk from index `i` (not past the stopping entry), with the entries from `i`
      on still as in `m`. */
  lemma {:induction false} TraverseFromEntries(m: Fields, acc: Fields, i: nat, store: map<string, Captured>)
    requires i <= StopAt(m, store) && |acc| == |m|
    requires forall j :: i <= j < |m| ==> acc[j] == m[j]
    ensures var t, s := TraverseFrom(m, acc, i, store), StopAt(m, store);
      && (forall j :: 0 <= j < i ==> t.body[j] == acc[j])
      && (forall j :: i <= j < s ==> t.body[j] == (m[j].0, Replacement(m[j].1, store)))
      && (forall j :: s < j < |m| ==> t.body[j] == m[j])
      && (s == |m| ==> t.err == None)
      && (s < |m| && m[s].1.Str? ==>
            t.body[s] == m[s] && t.err == Some(VariableDoesNotExist(Reference(m[s].1.s).value)))
      && (s < |m| && m[s].1.Obj? ==>
            var inner := Traverse(m[s].1.fields, store);
            t.body[s] == (m[s].0, Obj(inner.body)) && t.err == inner.err)
    decreases |m| - i
  {
    var s := StopAt(m, store);
    if i < s {
      var acc' := acc[i := (m[i].0, Replacement(m[i].1, store))];
      TraverseFromStep(m, acc, i, store);
      TraverseFromEntries(m, acc', i + 1, store);
    } else {
      TraverseFromStopped(m, acc, i, store);
    }
  }

  /** The walk over an entry before the stopping one replaces its value and goes on. */
  lemma TraverseFromStep(m: Fields, acc: Fields, i: nat, store: map<string, Captured>)
    requires i < StopAt(m, store) && |acc| == |m| && acc[i] == m[i]
    ensures TraverseFrom(m, acc, i, store) ==
              TraverseFrom(m, acc[i := (m[i].0, Replacement(m[i].1, store))], i + 1, store)
  {
    var v := m[i].1;
    if !(v.Str? && Reference(v.s).Some?) {
      assert acc[i := (m[i].0, Replacement(v, store))] == acc;
    }
  }

  /** The walk at the entry where it stops. */
  lemma TraverseFromStopped(m: Fields, acc: Fields, i: nat, store: map<string, Captured>)
    requires i == StopAt(m, store) && |acc| == |m|
    requires forall j :: i <= j < |m| ==> acc[j] == m[j]
    ensures var t := TraverseFrom(m, acc, i, store);
      && (forall j :: 0 <= j < i ==> t.body[j] == acc[j])
      && (forall j :: i < j < |m| ==> t.body[j] == m[j])
      && (i == |m| ==> t.err == None)
      && (i < |m| && m[i].1.Str? ==>
            t.body[i] == m[i] && t.err == Some(VariableDoesNotExist(Reference(m[i].1.s).value)))
      && (i < |m| && m[i].1.Obj? ==>
            var inner := Traverse(m[i].1.fields, store);
            t.body[i] == (m[i].0, Obj(inner.body)) && t.err == inner.err)
  {
  }


  /** `traverse`, entry by entry: every entry before the stopping one holds its
      replacement, every entry after it is untouched, and the keys and their order
      are kept. A missing variable stops the walk with that variable's name and
      leaves its entry as it was; a nested map is walked and its outcome is the
      outcome of the whole walk. */
  lemma TraverseEntries(m: Fields, store: map<string, Captured>)
    ensures var t, s := Traverse(m, store), StopAt(m, store);
      && Keys(t.body) == Keys(m)
      && (forall j :: 0 <= j < s ==> t.body[j] == (m[j].0, Replacement(m[j].1, store)))
      && (forall j :: s < j < |m| ==> t.body[j] == m[j])
      && (s == |m| ==> t.err == None)
      && (s < |m| && m[s].1.Str? ==>
            t.body[s] == m[s] && t.err == Some(VariableDoesNotExist(Reference(m[s].1.s).value)))
      && (s < |m| && m[s].1.Obj? ==>
            var inner := Traverse(m[s].1.fields, store);
            t.body[s] == (m[s].0, Obj(inner.body)) && t.err == inner.err)
  {
    TraverseFromEntries(m, m, 0, store);
    SameKeys(Traverse(m, store).body, m);
  }

  lemma SameKeys(a: Fields, b: Fields)
    requires |a| == |b| && forall j :: 0 <= j < |a| ==> a[j].0 == b[j].0
    ensures Keys(a) == Keys(b)
  {
  }

  /** A referenced variable that is stored replaces the string with the stored value
      in its native type: an integer stays an integer. */
  lemma ReplacementKeepsType(s: string, store: map<string, Captured>)
    requires Reference(s).Some? && Reference(s).value in store
    ensures var c := store[s[1..|s| - 1]];
      && (c.CInt? ==> Replacement(Str(s), store) == Int(c.i))
      && (c.CStr? ==> Replacement(Str(s), store) == Str(c.s))
  {
  }

  /** Values that cannot refer to a variable are never rewritten: strings shorter
      than three characters (so `{}` stays), other strings without the braces,
      numbers, booleans, nil and lists, whose items are never visited. */
  lemma ReplacementUnchanged(v: Value, store: map<string, Captured>)
    requires !v.Str? || |v.s| < 3 || v.s[0] != '{' || v.s[|v.s| - 1] != '}'
    ensures Replacement(v, store) == v
  {
  }

  /** A string value refers to a variable exactly when it is `{name}` for a
      non-empty name. */
  lemma ReferenceExactly(s: string, name: string)
    ensures Reference(s) == Some(name) <==> s == "{" + name + "}" && |name| > 0
  {
    if s == "{" + name + "}" && |name| > 0 {
      assert s[1..|s| - 1] == name;
    }
  }

  /** A failed walk names a variable that the store does not hold. */
  lemma {:induction false} TraverseErrorMissing(m: Fields, store: map<string, Captured>)
    ensures var t := Traverse(m, store);
      t.err.Some? ==> t.err.value.name !in store && Refers(m, t.err.value.name)
    decreases Obj(m)
  {
    TraverseFromEntries(m, m, 0, store);
    var t, s := Traverse(m, store), StopAt(m, store);
    if s < |m| {
      if m[s].1.Obj? {
        TraverseErrorMissing(m[s].1.fields, store);
        if t.err.Some? {
          assert RefersAt(m, t.err.value.name, s);
        }
      } else {
        assert RefersAt(m, t.err.value.name, s);
      }
    }
  }

  /** Entry `j` of `m` refers to `name`, directly or somewhere inside a nested map. */
  predicate RefersAt(m: Fields, name: string, j: nat)
    decreases Obj(m), 0
  {
    j < |m| &&
    match m[j].1
    case Str(s) => Reference(s) == Some(name)
    case Obj(f) => Refers(f, name)
    case _ => false
  }

  /** Some entry of `m` refers to `name`. */
  predicate Refers(m: Fields, name: string)
    decreases Obj(m), 1
  {
    exists j :: 0 <= j < |m| && RefersAt(m, name, j)
  }

  /** A map with no references at all is returned as it is, with no error. */
  predicate NoReferences(m: Fields)
    decreases Obj(m)
  {
    forall j :: 0 <= j < |m| ==>
      match m[j].1
      case Str(s) => Reference(s).None?
      case Obj(f) => NoReferences(f)
      case _ => true
  }

  lemma {:induction false} TraverseNoReferences(m: Fields, store: map<string, Captured>)
    requires NoReferences(m)
    ensures Traverse(m, store) == Traversal(m, None)
    decreases Obj(m)
  {
    TraverseFromEntries(m, m, 0, store);
    var t, s := Traverse(m, store), StopAt(m, store);
    if s < |m| {
      TraverseNoReferences(m[s].1.fields, store);
    }
    assert t.body == m;
  }
}
