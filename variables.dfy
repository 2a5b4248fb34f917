/** variable_map.go: the variable store that captures response values, and the
    path resolver that reads `data.apps[1].name`-style paths inside a response tree. */
module Variables {
  import opened Wrappers
  import opened GoStrings
  import opened Json

  // ------------------------------------------------------------------ path errors

  /** The failures of `getArrayValue`, each with its own message. */
  datatype IndexError =
    | InvalidIndexNotation(ix: string)  // "invalid index notation: <ix>"
    | InvalidIndexRange(index: int)     // "invalid index range: <ix>"
    | NameNotFound                      // "not found"
    | NotAnArray(got: string)           // "required type is an array but has type <T>"
    | IndexOutOfRange(length: nat)      // "index out of range with length <n>"
    | SliceBoundsPanic                  // the first ']' comes before the first '[': Go panics
    | IndexPanic                        // `ix+1` wraps for the largest index, the length check
                                        // passes, and indexing the list panics

  datatype Cause = NotFound | NotObject(got: string) | BadIndex(e: IndexError)

  /** "field <prefix>: <cause>", where the prefix is the dotted path read so far,
      up to and including the segment that failed. */
  datatype PathError = FieldError(prefix: string, cause: Cause)

  function IndexErrorMessage(e: IndexError): string
  {
    match e
    case InvalidIndexNotation(ix) => "invalid index notation: " + ix
    case InvalidIndexRange(ix) => "invalid index range: " + FormatInt(ix)
    case NameNotFound => "not found"
    case NotAnArray(t) => "required type is an array but has type " + t
    case IndexOutOfRange(n) => "index out of range with length " + FormatInt(n)
    case SliceBoundsPanic => "panic: slice bounds out of range"
    case IndexPanic => "panic: index out of range"
  }

  function PathErrorMessage(e: PathError): string
  {
    "field " + e.prefix + ": " +
    match e.cause
    case NotFound => "not found"
    case NotObject(t) => "required type is object but got " + t
    case BadIndex(ie) => IndexErrorMessage(ie)
  }

  // ------------------------------------------------------------------ segments

  /** `isArray`: the segment uses `name[index]` notation. */
  predicate IsArray(v: string)
  {
    '[' in v && HasSuffix(v, "]")
  }

  /** `getArrayValue`: checks, in this order, that the index is a decimal integer,
      that it is not negative, that the name exists, that its value is a list and
      that the index is within it. */
  function GetArrayValue(v: string, m: Fields): (r: Result<Value, IndexError>)
    requires IsArray(v)
    ensures r.Ok? ==>
      var open := IndexOf(v, '[');
      && IndexOf(v, ']') > open
      && ParseInt(v[open + 1..IndexOf(v, ']')]).Some?
      && var ix := ParseInt(v[open + 1..IndexOf(v, ']')]).value;
      && Find(m, v[..open]).Some? && Find(m, v[..open]).value.Arr?
      && 0 <= ix < |Find(m, v[..open]).value.items|
      && r.value == Find(m, v[..open]).value.items[ix]
  {
    var open := IndexOf(v, '[');
    var closer := IndexOf(v, ']');
    if closer < open + 1 then Err(SliceBoundsPanic)
    else
      var ixStr := v[open + 1..closer];
      match ParseInt(ixStr)
      case None => Err(InvalidIndexNotation(ixStr))
      case Some(ix) =>
        if ix < 0 then Err(InvalidIndexRange(ix))
        else IndexLookup(m, v[..open], ix)
  }

  /** The second half of `getArrayValue`: the element `ix` of the list under `name`.
      The length check compares with `ix+1` in `int64`, which wraps for the largest
      index. */
  function IndexLookup(m: Fields, name: string, ix: nat): Result<Value, IndexError>
    requires ix <= MaxInt64
  {
    match Find(m, name)
    case None => Err(NameNotFound)
    case Some(field) =>
      if !field.Arr? then Err(NotAnArray(TypeName(field)))
      else if |field.items| < WrapInt64(ix + 1) then Err(IndexOutOfRange(|field.items|))
      else if ix < |field.items| then Ok(field.items[ix])
      else Err(IndexPanic)
  }

  /** One segment of a path: `name[index]` through `getArrayValue`, anything else as
      a plain key. */
  function ResolveSegment(m: Fields, part: string): Result<Value, Cause>
  {
    if IsArray(part) then
      match GetArrayValue(part, m)
      case Ok(v) => Ok(v)
      case Err(e) => Err(BadIndex(e))
    else
      match Find(m, part)
      case Some(v) => Ok(v)
      case None => Err(NotFound)
  }

  /** What `getM` computes: walk `parts`, each of which must hold an object; `track`
      is the dotted text already walked, each segment followed by ".". */
  function Descend(m: Fields, parts: seq<string>, track: string): Result<Fields, PathError>
    decreases |parts|
  {
    if |parts| == 0 then Ok(m)
    else
      match ResolveSegment(m, parts[0])
      case Err(c) => Err(FieldError(track + parts[0], c))
      case Ok(v) =>
        if v.Obj? then Descend(v.fields, parts[1..], track + parts[0] + ".")
        else Err(FieldError(track + parts[0], NotObject(TypeName(v))))
  }

  /** `getM`: the loop that goes one level deeper per segment. */
  method GetM(m: Fields, parts: seq<string>) returns (r: Result<Fields, PathError>)
    ensures r == Descend(m, parts, "")
  {
    var nextLevel := m;
    var track := "";
    var i := 0;
    while i < |parts|
      invariant 0 <= i <= |parts|
      invariant Descend(m, parts, "") == Descend(nextLevel, parts[i..], track)
    {
      var part := parts[i];
      assert parts[i..][1..] == parts[i + 1..];
      var v: Value;
      if IsArray(part) {
        var got := GetArrayValue(part, nextLevel);
        if got.Err? {
          return Err(FieldError(track + part, BadIndex(got.error)));
        }
        v := got.value;
      } else {
        var found := Find(nextLevel, part);
        if found.None? {
          return Err(FieldError(track + part, NotFound));
        }
        v := found.value;
      }
      if !v.Obj? {
        return Err(FieldError(track + part, NotObject(TypeName(v))));
      }
      nextLevel := v.fields;
      track := track + part + ".";
      i := i + 1;
    }
    return Ok(nextLevel);
  }

  /** `getKeyInMap`: a dot-free field is one segment (array notation honoured);
      otherwise every segment but the last is walked with `getM` and the last one is
      looked up as a plain key. */
  function GetKeyInMap(field: string, resp: Fields): Result<Value, PathError>
  {
    var parts := Split(field, '.');
    if |parts| < 2 then
      match ResolveSegment(resp, field)
      case Ok(v) => Ok(v)
      case Err(c) => Err(FieldError(field, c))
    else
      match Descend(resp, parts[..|parts| - 1], "")
      case Err(e) => Err(e)
      case Ok(nextLevel) =>
        match Find(nextLevel, parts[|parts| - 1])
        case Some(v) => Ok(v)
        case None => Err(FieldError(field, NotFound))
  }

  // ------------------------------------------------------------------ the store

  /** A value the store can hold: `ProcessResponse`, its only writer, admits strings
      and signed integers and refuses every other kind. */
  datatype Captured = CStr(s: string) | CInt(i: Int64)

  function ToValue(c: Captured): Value
  {
    match c
    case CStr(s) => Str(s)
    case CInt(i) => Int(i)
  }

  /** The type switch of `ProcessResponse`. */
  function AsCaptured(v: Value): (r: Option<Captured>)
    ensures r.Some? <==> v.Str? || v.Int?
    ensures r.Some? ==> ToValue(r.value) == v
  {
    match v
    case Str(s) => Some(CStr(s))
    case Int(i) => Some(CInt(i))
    case _ => None
  }

  datatype CaptureError =
    | PathFailed(e: PathError)
      // "variable <name> is of type <T> in the response body, only string & integer is currently supported"
    | Unsupported(variable: string, got: string)

  /** The effect of `ProcessResponse`: the entries of `variableToField` (variable name
      to response path) are captured in iteration order; the first failure stops the
      loop and keeps what was stored before it. */
  function Capture(store: map<string, Captured>, variableToField: seq<(string, string)>, values: Fields)
    : (map<string, Captured>, Option<CaptureError>)
    decreases |variableToField|
  {
    if |variableToField| == 0 then (store, None)
    else
      var (name, field) := variableToField[0];
      match GetKeyInMap(field, values)
      case Err(e) => (store, Some(PathFailed(e)))
      case Ok(v) =>
        match AsCaptured(v)
        case None => (store, Some(Unsupported(name, TypeName(v))))
        case Some(c) => Capture(store[name := c], variableToField[1..], values)
  }

  /** What `GetString` reads from a store: the stored text, an integer rendered in
      decimal (which parses back to the integer), or ("", false). */
  function StringIn(store: map<string, Captured>, key: string): (r: (string, bool))
    ensures r.1 <==> key in store
    ensures !r.1 ==> r.0 == ""
    ensures r.1 && store[key].CStr? ==> r.0 == store[key].s
    ensures r.1 && store[key].CInt? ==> ParseInt(r.0) == Some(store[key].i)
  {
    if key !in store then ("", false)
    else
      match store[key]
      case CStr(s) => (s, true)
      case CInt(i) => FormatParseRoundTrip(i); (FormatInt(i), true)
  }

  class VariableMap {
    var variableToValue: map<string, Captured>

    /** `NewVariableMap`. */
    constructor ()
      ensures variableToValue == map[]
    {
      variableToValue := map[];
    }

    /** `GetString`. */
    function GetString(key: string): (r: (string, bool))
      reads this
      ensures r == StringIn(variableToValue, key)
    {
      StringIn(variableToValue, key)
    }

    /** `Get`: the stored value with its native type, and whether the key is present
        (a Go nil when it is not). */
    function Get(key: string): (r: (Value, bool))
      reads this
      ensures r.1 <==> key in variableToValue
      ensures r.1 ==> r.0 == ToValue(variableToValue[key]) && (r.0.Str? || r.0.Int?)
      ensures !r.1 ==> r.0 == Null
    {
      if key in variableToValue then (ToValue(variableToValue[key]), true) else (Null, false)
    }

    /** `ProcessResponse`. */
    method ProcessResponse(variableToField: seq<(string, string)>, values: Fields)
      returns (err: Option<CaptureError>)
      modifies this
      ensures (variableToValue, err) == Capture(old(variableToValue), variableToField, values)
    {
      var i := 0;
      while i < |variableToField|
        invariant 0 <= i <= |variableToField|
        invariant Capture(old(variableToValue), variableToField, values)
               == Capture(variableToValue, variableToField[i..], values)
      {
        assert variableToField[i..][1..] == variableToField[i + 1..];
        var (varName, field) := variableToField[i];
        var value := GetKeyInMap(field, values);
        if value.Err? {
          return Some(PathFailed(value.error));
        }
        var c := AsCaptured(value.value);
        if c.None? {
          return Some(Unsupported(varName, TypeName(value.value)));
        }
        variableToValue := variableToValue[varName := c.value];
        i := i + 1;
      }
      return None;
    }
  }

  // ------------------------------------------------------------------ what a path means

  /** One non-terminal step of a path, independent of its text. */
  datatype Step = Key(name: string) | Index(name: string, index: nat)

  /** A name that can be written in a path: no separator and no brackets. */
  predicate PlainName(n: string)
  {
    '.' !in n && '[' !in n && ']' !in n
  }

  predicate WellFormedStep(st: Step)
  {
    PlainName(st.name) && (st.Index? ==> st.index <= MaxInt64)
  }

  /** How a step is written: `name` or `name[index]`. */
  function StepText(st: Step): string
  {
    match st
    case Key(n) => n
    case Index(n, i) => n + "[" + NatToDigits(i) + "]"
  }

  function StepTexts(steps: seq<Step>): (ts: seq<string>)
    ensures |ts| == |steps| && forall k :: 0 <= k < |steps| ==> ts[k] == StepText(steps[k])
  {
    if |steps| == 0 then [] else [StepText(steps[0])] + StepTexts(steps[1..])
  }

  /** The value a step addresses in an object, if any. */
  function StepAt(m: Fields, st: Step): Option<Value>
  {
    match Find(m, st.name)
    case None => None
    case Some(v) =>
      match st
      case Key(_) => Some(v)
      case Index(_, i) => if v.Arr? && i < |v.items| then Some(v.items[i]) else None
  }

  /** The object reached by following `steps`, each of which must address an object. */
  function ObjectAt(m: Fields, steps: seq<Step>): Option<Fields>
    decreases |steps|
  {
    if |steps| == 0 then Some(m)
    else
      match StepAt(m, steps[0])
      case Some(Obj(f)) => ObjectAt(f, steps[1..])
      case _ => None
  }

  /** The value at `steps` followed by the plain key `last`. */
  function ValueAt(m: Fields, steps: seq<Step>, last: string): Option<Value>
  {
    match ObjectAt(m, steps)
    case None => None
    case Some(f) => Find(f, last)
  }

  /** The shape of `n[d]` for a name and an index text free of brackets. */
  lemma BracketText(n: string, d: string)
    requires '[' !in n && ']' !in n && ']' !in d
    ensures var t := n + "[" + d + "]";
      && IsArray(t) && IndexOf(t, '[') == |n| && IndexOf(t, ']') == |t| - 1
      && t[..|n|] == n && t[|n| + 1..|t| - 1] == d
  {
    var a := n + "[" + d;
    var t := a + "]";
    IndexOfAfter(n, '[', d + "]");
    assert n + ['['] + (d + "]") == t;
    assert ']' !in a;
    IndexOfAfter(a, ']', "");
    assert a + [']'] + "" == t;
    assert t[..|n|] == n;
    assert t[|n| + 1..|t| - 1] == d;
  }

  lemma IndexStepText(n: string, i: nat)
    requires WellFormedStep(Index(n, i))
    ensures var t := StepText(Index(n, i));
      && IsArray(t) && IndexOf(t, '[') == |n| && IndexOf(t, ']') == |t| - 1
      && t[..|n|] == n && t[|n| + 1..|t| - 1] == NatToDigits(i)
      && ParseInt(NatToDigits(i)) == Some(i)
  {
    var d := NatToDigits(i);
    assert forall k :: 0 <= k < |d| ==> d[k] != ']';
    BracketText(n, d);
    FormatParseRoundTrip(i);
  }

  /** Resolving the text of a well-formed step finds exactly what the step addresses. */
  lemma ResolveStep(m: Fields, st: Step)
    requires WellFormedStep(st)
    ensures ResolveSegment(m, StepText(st)).Ok? <==> StepAt(m, st).Some?
    ensures StepAt(m, st).Some? ==> ResolveSegment(m, StepText(st)).value == StepAt(m, st).value
  {
    if st.Index? {
      IndexStepText(st.name, st.index);
    }
  }

  lemma {:induction false} DescendSteps(m: Fields, steps: seq<Step>, track: string)
    requires forall k :: 0 <= k < |steps| ==> WellFormedStep(steps[k])
    ensures Descend(m, StepTexts(steps), track).Ok? <==> ObjectAt(m, steps).Some?
    ensures ObjectAt(m, steps).Some? ==> Descend(m, StepTexts(steps), track).value == ObjectAt(m, steps).value
    decreases |steps|
  {
    if |steps| > 0 {
      var ts := StepTexts(steps);
      assert ts[0] == StepText(steps[0]);
      assert ts[1..] == StepTexts(steps[1..]);
      ResolveStep(m, steps[0]);
      match StepAt(m, steps[0])
      case Some(Obj(f)) =>
        DescendSteps(f, steps[1..], track + ts[0] + ".");
      case _ =>
    }
  }

  lemma StepTextNoDot(st: Step)
    requires WellFormedStep(st)
    ensures '.' !in StepText(st)
  {
    if st.Index? {
      var d := NatToDigits(st.index);
      var t := StepText(st);
      assert t == st.name + "[" + d + "]";
      forall k | 0 <= k < |t| ensures t[k] != '.' {
        if |st.name| < k < |t| - 1 { assert t[k] == d[k - |st.name| - 1]; }
      }
    }
  }

  /** The path `s1.s2…sn.last` as text. */
  function PathText(steps: seq<Step>, last: string): string
  {
    Join(StepTexts(steps) + [last], '.')
  }

  /** A path with at least one non-terminal step reads exactly the value it
      addresses: array notation in every non-terminal step, and the last segment a
      plain key (brackets included). */
  lemma GetKeyInMapPath(m: Fields, steps: seq<Step>, last: string)
    requires |steps| >= 1 && '.' !in last
    requires forall k :: 0 <= k < |steps| ==> WellFormedStep(steps[k])
    ensures GetKeyInMap(PathText(steps, last), m).Ok? <==> ValueAt(m, steps, last).Some?
    ensures ValueAt(m, steps, last).Some? ==>
      GetKeyInMap(PathText(steps, last), m).value == ValueAt(m, steps, last).value
  {
    var ts := StepTexts(steps);
    var parts := ts + [last];
    forall k | 0 <= k < |parts| ensures '.' !in parts[k] {
      if k < |ts| { StepTextNoDot(steps[k]); }
    }
    SplitJoin(parts, '.');
    assert parts[..|parts| - 1] == ts;
    DescendSteps(m, steps, "");
  }

  /** A dot-free path of one step reads exactly the value it addresses. */
  lemma GetKeyInMapStep(m: Fields, st: Step)
    requires WellFormedStep(st)
    ensures GetKeyInMap(StepText(st), m).Ok? <==> StepAt(m, st).Some?
    ensures StepAt(m, st).Some? ==> GetKeyInMap(StepText(st), m).value == StepAt(m, st).value
  {
    StepTextNoDot(st);
    var t := StepText(st);
    assert Split(t, '.') == [t];
    ResolveStep(m, st);
  }

  // ------------------------------------------------------------------ where a path fails

  /** How many leading segments of `parts` lead from `m` to an object. */
  function Reached(m: Fields, parts: seq<string>): (k: nat)
    ensures k <= |parts|
    decreases |parts|
  {
    if |parts| == 0 then 0
    else
      match ResolveSegment(m, parts[0])
      case Ok(Obj(f)) => 1 + Reached(f, parts[1..])
      case _ => 0
  }

  /** Why a segment does not lead to an object, if it does not. */
  function SegmentFailure(m: Fields, part: string): Option<Cause>
  {
    match ResolveSegment(m, part)
    case Err(c) => Some(c)
    case Ok(v) => if v.Obj? then None else Some(NotObject(TypeName(v)))
  }

  /** `getM` fails exactly when some segment does not lead to an object; the error
      names the dotted path up to and including the first such segment, and gives
      that segment's own failure. */
  lemma DescendError(m: Fields, parts: seq<string>, track: string)
    ensures var r, k := Descend(m, parts, track), Reached(m, parts);
      && (r.Ok? <==> k == |parts|)
      && (r.Err? ==>
            && r.error.prefix == track + Join(parts[..k + 1], '.')
            && Descend(m, parts[..k], track).Ok?
            && SegmentFailure(Descend(m, parts[..k], track).value, parts[k]) == Some(r.error.cause))
  {
    DescendReached(m, parts, track);
    DescendErrorPrefix(m, parts, track);
    DescendErrorCause(m, parts, track);
  }

  lemma {:induction false} DescendReached(m: Fields, parts: seq<string>, track: string)
    ensures Descend(m, parts, track).Ok? <==> Reached(m, parts) == |parts|
    decreases |parts|
  {
    if |parts| > 0 {
      var step := ResolveSegment(m, parts[0]);
      if step.Ok? && step.value.Obj? {
        var f := step.value.fields;
        DescendReached(f, parts[1..], track + parts[0] + ".");
      }
    }
  }

  /** A failed walk names `track` followed by the segments up to and including the
      first one that does not lead to an object, joined by dots. */
  ghost predicate PrefixNamed(m: Fields, parts: seq<string>, track: string)
  {
    var r, k := Descend(m, parts, track), Reached(m, parts);
    r.Err? ==> k < |parts| && r.error.prefix == track + Join(parts[..k + 1], '.')
  }

  lemma {:induction false} DescendErrorPrefix(m: Fields, parts: seq<string>, track: string)
    ensures PrefixNamed(m, parts, track)
    decreases |parts|
  {
    if |parts| > 0 {
      var step := ResolveSegment(m, parts[0]);
      if step.Ok? && step.value.Obj? {
        var f := step.value.fields;
        DescendErrorPrefix(f, parts[1..], track + parts[0] + ".");
        DescendPrefixDeeper(m, parts, track, f);
      } else {
        DescendPrefixHere(m, parts, track);
      }
    }
  }

  /** `DescendErrorPrefix` at a first segment that does not lead to an object. */
  lemma DescendPrefixHere(m: Fields, parts: seq<string>, track: string)
    requires |parts| > 0
    requires var step := ResolveSegment(m, parts[0]); !(step.Ok? && step.value.Obj?)
    ensures Descend(m, parts, track).Err? && Reached(m, parts) == 0
    ensures PrefixNamed(m, parts, track)
  {
    assert parts[..1] == [parts[0]];
  }

  /** The step of `DescendErrorPrefix` through a segment that leads to an object. */
  lemma DescendPrefixDeeper(m: Fields, parts: seq<string>, track: string, f: Fields)
    requires |parts| > 0 && ResolveSegment(m, parts[0]) == Ok(Obj(f))
    requires PrefixNamed(f, parts[1..], track + parts[0] + ".")
    ensures PrefixNamed(m, parts, track)
  {
    var rest := parts[1..];
    var k' := Reached(f, rest);
    var r := Descend(f, rest, track + parts[0] + ".");
    assert Descend(m, parts, track) == r;
    assert Reached(m, parts) == k' + 1;
    if r.Err? {
      var head := parts[..k' + 2];
      var tail := Join(rest[..k' + 1], '.');
      assert head[0] == parts[0] && head[1..] == rest[..k' + 1];
      JoinHead(head, '.');
      DottedAssoc(track, parts[0], tail);
    }
  }

  lemma DottedAssoc(track: string, part: string, tail: string)
    ensures track + part + "." + tail == track + (part + "." + tail)
  {
    var dot: string := ".";
    assert track + part + dot + tail == track + (part + dot + tail);
  }

  lemma JoinHead(ps: seq<string>, sep: char)
    requires |ps| >= 2
    ensures Join(ps, sep) == ps[0] + [sep] + Join(ps[1..], sep)
  {
  }

  lemma {:induction false} DescendErrorCause(m: Fields, parts: seq<string>, track: string)
    ensures var r, k := Descend(m, parts, track), Reached(m, parts);
      r.Err? ==>
        && k < |parts|
        && Descend(m, parts[..k], track).Ok?
        && SegmentFailure(Descend(m, parts[..k], track).value, parts[k]) == Some(r.error.cause)
    decreases |parts|
  {
    if |parts| > 0 {
      var step := ResolveSegment(m, parts[0]);
      if step.Ok? && step.value.Obj? {
        var f := step.value.fields;
        var track', rest := track + parts[0] + ".", parts[1..];
        DescendErrorCause(f, rest, track');
        var k' := Reached(f, rest);
        if Descend(f, rest, track').Err? {
          DescendCauseDeeper(m, parts, track, f, k');
        }
      } else {
        assert Descend(m, parts[..0], track) == Ok(m);
      }
    }
  }

  /** The step of `DescendErrorCause` through a segment that leads to an object:
      the walk over the first `k + 1` segments is the inner walk over `k`. */
  lemma DescendCauseDeeper(m: Fields, parts: seq<string>, track: string, f: Fields, k: nat)
    requires |parts| > 0 && ResolveSegment(m, parts[0]) == Ok(Obj(f))
    requires k < |parts| - 1
    ensures Descend(m, parts[..k + 1], track) == Descend(f, parts[1..][..k], track + parts[0] + ".")
    ensures parts[k + 1] == parts[1..][k]
  {
    assert parts[..k + 1][1..] == parts[1..][..k];
    assert parts[..k + 1][0] == parts[0];
  }

  /** Joining a longer list extends the shorter join at a separator. */
  lemma {:induction false} JoinPrefix(parts: seq<string>, j: nat, sep: char)
    requires 1 <= j < |parts|
    ensures Join(parts, sep) == Join(parts[..j], sep) + [sep] + Join(parts[j..], sep)
    decreases j
  {
    if j > 1 {
      JoinPrefix(parts[1..], j - 1, sep);
      assert parts[1..][..j - 1] == parts[..j][1..];
      assert parts[1..][j - 1..] == parts[j..];
    } else {
      assert parts[..1] == [parts[0]];
      assert parts[1..] == parts[j..];
    }
  }

  /** The prefix a failing `getKeyInMap` reports is the field itself or the part of
      it that ends right before one of its dots. */
  lemma GetKeyInMapErrorPrefix(field: string, m: Fields)
    ensures var r := GetKeyInMap(field, m);
      r.Err? ==>
        && r.error.prefix <= field
        && (r.error.prefix == field || field[|r.error.prefix|] == '.')
  {
    var parts := Split(field, '.');
    if |parts| >= 2 && Descend(m, parts[..|parts| - 1], "").Err? {
      InitErrorPrefix(field, m);
    }
  }

  /** `GetKeyInMapErrorPrefix` when the walk over the segments before the last fails. */
  lemma InitErrorPrefix(field: string, m: Fields)
    requires var parts := Split(field, '.');
      |parts| >= 2 && Descend(m, parts[..|parts| - 1], "").Err?
    ensures var parts := Split(field, '.');
      var p := Descend(m, parts[..|parts| - 1], "").error.prefix;
      p <= field && |p| < |field| && field[|p|] == '.'
  {
    var parts := Split(field, '.');
    var init := parts[..|parts| - 1];
    DescendErrorPrefix(m, init, "");
    var k := Reached(m, init);
    assert init[..k + 1] == parts[..k + 1];
    assert "" + Join(parts[..k + 1], '.') == Join(parts[..k + 1], '.');
    JoinSplit(field, '.');
    JoinPrefixAtDot(parts, k + 1, '.');
  }

  /** The join of a proper prefix of a list ends right before a separator. */
  lemma JoinPrefixAtDot(parts: seq<string>, j: nat, sep: char)
    requires 1 <= j < |parts|
    ensures var s, p := Join(parts, sep), Join(parts[..j], sep);
      p <= s && |p| < |s| && s[|p|] == sep
  {
    JoinPrefix(parts, j, sep);
  }

  // ------------------------------------------------------------------ array segments

  predicate IndexSyntaxError(e: IndexError)
  {
    e.SliceBoundsPanic? || e.InvalidIndexNotation? || e.InvalidIndexRange?
  }

  /** The index is examined before the object: a malformed or negative index fails
      the same way whatever the object holds. */
  lemma IndexCheckedBeforeLookup(v: string, m: Fields, m': Fields)
    requires IsArray(v)
    ensures GetArrayValue(v, m).Err? && IndexSyntaxError(GetArrayValue(v, m).error)
            ==> GetArrayValue(v, m') == GetArrayValue(v, m)
  {
  }

  /** A well-formed `name[i]` fails with "not found" exactly when the name is
      absent, with the dynamic type when it holds no list, and with the length
      when the list is too short, except for the largest index: there `i+1` wraps,
      the length check passes and indexing panics. */
  lemma IndexStepErrors(m: Fields, n: string, i: nat)
    requires WellFormedStep(Index(n, i))
    ensures var r, f := GetArrayValue(StepText(Index(n, i)), m), Find(m, n);
      && (r == Err(NameNotFound) <==> f.None?)
      && (f.Some? && !f.value.Arr? ==> r == Err(NotAnArray(TypeName(f.value))))
      && (f.Some? && f.value.Arr? && |f.value.items| <= i < MaxInt64 ==>
            r == Err(IndexOutOfRange(|f.value.items|)))
      && (f.Some? && f.value.Arr? && |f.value.items| <= i == MaxInt64 ==> r == Err(IndexPanic))
      && (r == Err(IndexPanic) <==> f.Some? && f.value.Arr? && |f.value.items| <= i == MaxInt64)
      && !(r.Err? && IndexSyntaxError(r.error))
  {
    IndexStepLookup(m, n, i);
    IndexLookupErrors(m, n, i);
  }

  /** The errors of the lookup half of `getArrayValue`. */
  lemma IndexLookupErrors(m: Fields, n: string, i: nat)
    requires i <= MaxInt64
    ensures var r, f := IndexLookup(m, n, i), Find(m, n);
      && (r == Err(NameNotFound) <==> f.None?)
      && (f.Some? && !f.value.Arr? ==> r == Err(NotAnArray(TypeName(f.value))))
      && (f.Some? && f.value.Arr? && |f.value.items| <= i < MaxInt64 ==>
            r == Err(IndexOutOfRange(|f.value.items|)))
      && (r == Err(IndexPanic) <==> f.Some? && f.value.Arr? && |f.value.items| <= i == MaxInt64)
      && !(r.Err? && IndexSyntaxError(r.error))
  {
    if i == MaxInt64 {
      WrapLargest();
    }
  }

  /** `MaxInt64 + 1` wraps to `MinInt64`. */
  lemma WrapLargest()
    ensures WrapInt64(MaxInt64 + 1) == MinInt64
  {
    assert (MaxInt64 + 1 - MinInt64) % 0x1_0000_0000_0000_0000 == 0;
  }

  /** A well-formed `name[i]` goes straight to the lookup of element `i` under `name`. */
  lemma IndexStepLookup(m: Fields, n: string, i: nat)
    requires WellFormedStep(Index(n, i))
    ensures GetArrayValue(StepText(Index(n, i)), m) == IndexLookup(m, n, i)
  {
    IndexStepText(n, i);
  }

  // ------------------------------------------------------------------ captures

  /** The variables named in a `variableToField` list. */
  function Names(variableToField: seq<(string, string)>): set<string>
  {
    set k | 0 <= k < |variableToField| :: variableToField[k].0
  }

  /** A path that resolves to a string or an integer. */
  predicate Capturable(field: string, values: Fields)
  {
    GetKeyInMap(field, values).Ok? && AsCaptured(GetKeyInMap(field, values).value).Some?
  }

  /** What capturing one entry fails with when it is not capturable. */
  function Failure(entry: (string, string), values: Fields): CaptureError
  {
    match GetKeyInMap(entry.1, values)
    case Err(e) => PathFailed(e)
    case Ok(v) => Unsupported(entry.0, TypeName(v))
  }

  /** Capturing writes only the listed variables; every other one keeps its value. */
  lemma {:induction false} CaptureFrame(store: map<string, Captured>, variableToField: seq<(string, string)>, values: Fields)
    ensures var r := Capture(store, variableToField, values).0;
      && r.Keys <= store.Keys + Names(variableToField)
      && forall name :: name in store && name !in Names(variableToField) ==> name in r && r[name] == store[name]
    decreases |variableToField|
  {
    if |variableToField| > 0 {
      var rest := variableToField[1..];
      assert Names(variableToField) == {variableToField[0].0} + Names(rest) by {
        forall x | x in Names(variableToField) ensures x in {variableToField[0].0} + Names(rest) {
          var k :| 0 <= k < |variableToField| && variableToField[k].0 == x;
          if k > 0 { assert rest[k - 1] == variableToField[k]; }
        }
        forall x | x in Names(rest) ensures x in Names(variableToField) {
          var k :| 0 <= k < |rest| && rest[k].0 == x;
          assert variableToField[k + 1] == rest[k];
        }
      }
      var (name, field) := variableToField[0];
      match GetKeyInMap(field, values)
      case Err(_) =>
      case Ok(v) =>
        match AsCaptured(v)
        case None =>
        case Some(c) => CaptureFrame(store[name := c], rest, values);
    }
  }

  /** With distinct variable names, capturing succeeds exactly when every path
      resolves to a string or an integer, and then each variable holds the value
      found at its path, with its native type. */
  lemma {:induction false} CaptureAll(store: map<string, Captured>, variableToField: seq<(string, string)>, values: Fields)
    requires forall j, k :: 0 <= j < k < |variableToField| ==> variableToField[j].0 != variableToField[k].0
    ensures var (r, err) := Capture(store, variableToField, values);
      && (err.None? <==> forall k :: 0 <= k < |variableToField| ==> Capturable(variableToField[k].1, values))
      && (err.None? ==> forall k :: 0 <= k < |variableToField| ==>
            variableToField[k].0 in r && ToValue(r[variableToField[k].0]) == GetKeyInMap(variableToField[k].1, values).value)
    decreases |variableToField|
  {
    if |variableToField| > 0 {
      var rest := variableToField[1..];
      var (name, field) := variableToField[0];
      if Capturable(field, values) {
        var c := AsCaptured(GetKeyInMap(field, values).value).value;
        CaptureAll(store[name := c], rest, values);
        CaptureFrame(store[name := c], rest, values);
        forall k | 0 <= k < |rest| ensures rest[k].0 != name {
          assert rest[k] == variableToField[k + 1];
        }
        assert name !in Names(rest);
        forall k | 0 <= k < |rest| ensures Capturable(rest[k].1, values) <==> Capturable(variableToField[k + 1].1, values) {
          assert rest[k] == variableToField[k + 1];
        }
      }
    }
  }

  /** A failed capture reports the first entry that is not capturable: its path
      error, or its variable name with the unsupported type. */
  lemma {:induction false} CaptureFirstFailure(store: map<string, Captured>, variableToField: seq<(string, string)>, values: Fields)
    ensures var err := Capture(store, variableToField, values).1;
      err.Some? ==>
        (exists k :: 0 <= k < |variableToField|
           && !Capturable(variableToField[k].1, values)
           && (forall j :: 0 <= j < k ==> Capturable(variableToField[j].1, values))
           && err.value == Failure(variableToField[k], values))
    decreases |variableToField|
  {
    if |variableToField| > 0 {
      var rest := variableToField[1..];
      var (name, field) := variableToField[0];
      if Capturable(field, values) {
        var c := CaptureHead(store, variableToField, values);
        CaptureFirstFailure(store[name := c], rest, values);
        var err := Capture(store, variableToField, values).1;
        if err.Some? {
          var k :| 0 <= k < |rest| && !Capturable(rest[k].1, values)
            && (forall j :: 0 <= j < k ==> Capturable(rest[j].1, values))
            && err.value == Failure(rest[k], values);
          assert variableToField[k + 1] == rest[k];
          forall j | 0 <= j < k + 1 ensures Capturable(variableToField[j].1, values) {
            if j > 0 { assert variableToField[j] == rest[j - 1]; }
          }
        }
      } else {
        CaptureHeadFails(store, variableToField, values);
      }
    }
  }

  /** The step of `Capture` over a capturable first entry; returns what it stores. */
  lemma CaptureHead(store: map<string, Captured>, variableToField: seq<(string, string)>, values: Fields)
    returns (c: Captured)
    requires |variableToField| > 0 && Capturable(variableToField[0].1, values)
    ensures Capture(store, variableToField, values)
         == Capture(store[variableToField[0].0 := c], variableToField[1..], values)
  {
    c := AsCaptured(GetKeyInMap(variableToField[0].1, values).value).value;
  }

  /** A first entry that is not capturable is the failure reported. */
  lemma CaptureHeadFails(store: map<string, Captured>, variableToField: seq<(string, string)>, values: Fields)
    requires |variableToField| > 0 && !Capturable(variableToField[0].1, values)
    ensures Capture(store, variableToField, values).1 == Some(Failure(variableToField[0], values))
  {
  }
}
