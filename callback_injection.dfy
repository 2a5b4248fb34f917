/** callback.go: writing the correlation id into a nested object of a request body.
    The source writes into the caller's map in place; here the updated body is
    returned. */
module CallbackInjection {
  import opened Wrappers
  import opened GoStrings
  import opened Json
  import opened Variables

  /** `CallbackIDFieldName`: the key the id is stored under. */
  const CallbackIDFieldName: string := "immune_callback_id"

  datatype InjectError =
    | FieldDoesNotExist(field: string)  // "the field <f>, does not exist"
    | FieldNotObject(field: string)     // "the field <f>, is not an object in the request body"
    | WalkFailed(e: PathError)          // an error of getM, unchanged

  /** The key a segment writes under: the name before `[` for array notation. */
  function SegmentName(part: string): string
  {
    if IsArray(part) then part[..IndexOf(part, '[')] else part
  }

  /** The index written in an array segment `name[index]` (-1 when there is none). */
  function ArrayIndex(part: string): int
    requires IsArray(part)
  {
    var open, closer := IndexOf(part, '['), IndexOf(part, ']');
    if closer < open + 1 then -1
    else
      match ParseInt(part[open + 1..closer])
      case Some(ix) => ix
      case None => -1
  }

  /** Stores `nv` where the segment `part` resolves in `m`: under the key, or as the
      addressed element of the list under the name. */
  function ReplaceSegment(m: Fields, part: string, nv: Value): Fields
    requires ResolveSegment(m, part).Ok?
  {
    if IsArray(part) then
      var items := Find(m, SegmentName(part)).value.items;
      Put(m, SegmentName(part), Arr(items[ArrayIndex(part) := nv]))
    else Put(m, part, nv)
  }

  /** Reading the segment back gives what was stored. */
  lemma ReplaceSegmentResolves(m: Fields, part: string, nv: Value)
    requires ResolveSegment(m, part).Ok?
    ensures ResolveSegment(ReplaceSegment(m, part, nv), part) == Ok(nv)
  {
    if IsArray(part) {
      var items := Find(m, SegmentName(part)).value.items;
      assert Find(ReplaceSegment(m, part, nv), SegmentName(part)) == Some(Arr(items[ArrayIndex(part) := nv]));
    }
  }

  /** Replacing a segment changes no other key and keeps the key order; through
      array notation it changes only the addressed element of the list. */
  lemma ReplaceSegmentFrame(m: Fields, part: string, nv: Value)
    requires ResolveSegment(m, part).Ok?
    ensures var r, name := ReplaceSegment(m, part, nv), SegmentName(part);
      && Keys(r) == Keys(m)
      && (forall k :: k != name ==> Find(r, k) == Find(m, k))
      && (IsArray(part) ==>
            && Find(m, name).Some? && Find(m, name).value.Arr?
            && 0 <= ArrayIndex(part) < |Find(m, name).value.items|
            && Find(r, name) == Some(Arr(Find(m, name).value.items[ArrayIndex(part) := nv])))
      && (!IsArray(part) ==> Find(r, name) == Some(nv))
  {
    var name := SegmentName(part);
    var r := ReplaceSegment(m, part, nv);
    var stored := if IsArray(part) then Arr(Find(m, name).value.items[ArrayIndex(part) := nv]) else nv;
    assert r == Put(m, name, stored);
    PutKeys(m, name, stored);
    forall k | k != name ensures Find(r, k) == Find(m, k) {
      PutOther(m, name, stored, k);
    }
  }

  /** `getM` followed by `nextLevel[key] = val`: the path is walked as `getM` walks
      it and the object it reaches gets `key`; each enclosing object is rebuilt
      around its updated child. */
  function WriteAt(m: Fields, parts: seq<string>, track: string, key: string, val: Value)
    : Result<Fields, PathError>
    decreases |parts|
  {
    if |parts| == 0 then Ok(Put(m, key, val))
    else
      match ResolveSegment(m, parts[0])
      case Err(c) => Err(FieldError(track + parts[0], c))
      case Ok(v) =>
        if !v.Obj? then Err(FieldError(track + parts[0], NotObject(TypeName(v))))
        else
          match WriteAt(v.fields, parts[1..], track + parts[0] + ".", key, val)
          case Err(e) => Err(e)
          case Ok(f) => Ok(ReplaceSegment(m, parts[0], Obj(f)))
  }

  /** The write fails exactly when `getM` fails, with the same error; when it
      succeeds, walking the path again reaches the object `getM` reached, now with
      `key` set to `val`. */
  lemma {:induction false} WriteAtDescend(m: Fields, parts: seq<string>, track: string, key: string, val: Value)
    ensures var w, d := WriteAt(m, parts, track, key, val), Descend(m, parts, track);
      && (w.Err? <==> d.Err?)
      && (w.Err? ==> w.error == d.error)
      && (w.Ok? ==> Descend(w.value, parts, track) == Ok(Put(d.value, key, val)))
    decreases |parts|
  {
    if |parts| > 0 {
      match ResolveSegment(m, parts[0])
      case Err(_) =>
      case Ok(v) =>
        if v.Obj? {
          var track' := track + parts[0] + ".";
          WriteAtDescend(v.fields, parts[1..], track', key, val);
          var w := WriteAt(v.fields, parts[1..], track', key, val);
          if w.Ok? {
            ReplaceSegmentResolves(m, parts[0], Obj(w.value));
          }
        }
    }
  }

  /** `after` differs from `before` only under the segment `part`: same keys, every
      other key unchanged, and through array notation every other element of the
      list unchanged. */
  ghost predicate OnlySegmentChanged(before: Fields, after: Fields, part: string)
  {
    && Keys(after) == Keys(before)
    && (forall x :: x != SegmentName(part) ==> Find(after, x) == Find(before, x))
    && (IsArray(part) ==>
          var name := SegmentName(part);
          && Find(before, name).Some? && Find(before, name).value.Arr?
          && Find(after, name).Some? && Find(after, name).value.Arr?
          && var xs, ys := Find(before, name).value.items, Find(after, name).value.items;
          && |ys| == |xs|
          && forall j :: 0 <= j < |xs| && j != ArrayIndex(part) ==> ys[j] == xs[j])
  }

  lemma ReplaceSegmentOnly(m: Fields, part: string, nv: Value)
    requires ResolveSegment(m, part).Ok?
    ensures OnlySegmentChanged(m, ReplaceSegment(m, part, nv), part)
  {
    ReplaceSegmentFrame(m, part, nv);
  }

  /** Walking `k > 0` segments starts with the first one. */
  lemma DescendCons(m: Fields, parts: seq<string>, track: string, f: Fields, k: nat)
    requires 0 < k <= |parts| && ResolveSegment(m, parts[0]) == Ok(Obj(f))
    ensures Descend(m, parts[..k], track) == Descend(f, parts[1..][..k - 1], track + parts[0] + ".")
  {
    assert parts[..k][0] == parts[0];
    assert parts[..k][1..] == parts[1..][..k - 1];
  }

  /** Every object along the path, at every depth, is rewritten only under the
      segment that leads further down. */
  lemma {:induction false} WriteAtPathFrame(m: Fields, parts: seq<string>, track: string, key: string,
                                            val: Value, k: nat)
    requires k < |parts| && WriteAt(m, parts, track, key, val).Ok?
    ensures var w := WriteAt(m, parts, track, key, val).value;
      && Descend(m, parts[..k], track).Ok? && Descend(w, parts[..k], track).Ok?
      && OnlySegmentChanged(Descend(m, parts[..k], track).value, Descend(w, parts[..k], track).value, parts[k])
    decreases k
  {
    var f := ResolveSegment(m, parts[0]).value.fields;
    var track' := track + parts[0] + ".";
    var fw := WriteAt(f, parts[1..], track', key, val).value;
    var w := ReplaceSegment(m, parts[0], Obj(fw));
    assert WriteAt(m, parts, track, key, val).value == w;
    if k == 0 {
      assert parts[..0] == [];
      ReplaceSegmentOnly(m, parts[0], Obj(fw));
    } else {
      WriteAtPathFrame(f, parts[1..], track', key, val, k - 1);
      ReplaceSegmentResolves(m, parts[0], Obj(fw));
      DescendCons(m, parts, track, f, k);
      DescendCons(w, parts, track, fw, k);
      assert parts[1..][k - 1] == parts[k];
    }
  }

  /** `InjectCallbackID`: a dot-free field names an object directly under the top
      level (array notation is not honoured there); a dotted field is walked in full
      by `getM`. */
  function InjectCallbackID(field: string, value: Value, r: Fields): Result<Fields, InjectError>
  {
    var parts := Split(field, '.');
    if |parts| < 2 then
      match Find(r, field)
      case None => Err(FieldDoesNotExist(field))
      case Some(v) =>
        if !v.Obj? then Err(FieldNotObject(field))
        else Ok(Put(r, field, Obj(Put(v.fields, CallbackIDFieldName, value))))
    else
      match WriteAt(r, parts, "", CallbackIDFieldName, value)
      case Err(e) => Err(WalkFailed(e))
      case Ok(r') => Ok(r')
  }

  /** A dot-free field: absent is "does not exist", not an object is "not an object";
      otherwise that object now maps the id key to the value, and nothing else in
      the body changes. */
  lemma InjectDotFree(field: string, value: Value, r: Fields)
    requires '.' !in field
    ensures var res, f := InjectCallbackID(field, value, r), Find(r, field);
      && (res == Err(FieldDoesNotExist(field)) <==> f.None?)
      && (res == Err(FieldNotObject(field)) <==> f.Some? && !f.value.Obj?)
      && (res.Ok? <==> f.Some? && f.value.Obj?)
      && (res.Ok? ==>
            && Keys(res.value) == Keys(r)
            && (forall k :: k != field ==> Find(res.value, k) == Find(r, k))
            && Find(res.value, field).value.Obj?
            && var inner, old_ := Find(res.value, field).value.fields, f.value.fields;
               && Find(inner, CallbackIDFieldName) == Some(value)
               && (forall k :: k != CallbackIDFieldName ==> Find(inner, k) == Find(old_, k)))
  {
    JoinSplit(field, '.');
    assert Split(field, '.') == [field] by {
      assert IndexOf(field, '.') == -1;
    }
    var f := Find(r, field);
    if f.Some? && f.value.Obj? {
      var inner := Put(f.value.fields, CallbackIDFieldName, value);
      PutKeys(r, field, Obj(inner));
      forall k | k != field ensures Find(InjectCallbackID(field, value, r).value, k) == Find(r, k) {
        PutOther(r, field, Obj(inner), k);
      }
      forall k | k != CallbackIDFieldName ensures Find(inner, k) == Find(f.value.fields, k) {
        PutOther(f.value.fields, CallbackIDFieldName, value, k);
      }
    }
  }

  /** A dotted field: the injection fails exactly when `getM` fails on all its
      segments, with that error unchanged; otherwise the object `getM` reaches now
      maps the id key to the value and keeps all its other entries. */
  lemma InjectDotted(field: string, value: Value, r: Fields)
    requires '.' in field
    ensures var res, parts := InjectCallbackID(field, value, r), Split(field, '.');
      && var d := Descend(r, parts, "");
      && (res.Err? <==> d.Err?)
      && (res.Err? ==> res.error == WalkFailed(d.error))
      && (res.Ok? ==>
            && Descend(res.value, parts, "").Ok?
            && var inner := Descend(res.value, parts, "").value;
               && Find(inner, CallbackIDFieldName) == Some(value)
               && (forall k :: k != CallbackIDFieldName ==> Find(inner, k) == Find(d.value, k)))
  {
    var parts := Split(field, '.');
    JoinSplit(field, '.');
    assert |parts| >= 2;
    WriteAtDescend(r, parts, "", CallbackIDFieldName, value);
    var d := Descend(r, parts, "");
    if d.Ok? {
      forall k | k != CallbackIDFieldName
        ensures Find(Put(d.value, CallbackIDFieldName, value), k) == Find(d.value, k)
      {
        PutOther(d.value, CallbackIDFieldName, value, k);
      }
    }
  }

  /** A write below the first segment of a path rewrites only the entry that
      segment names, and keeps the key order. */
  lemma WriteAtTopFrame(m: Fields, parts: seq<string>, track: string, key: string, val: Value)
    requires |parts| > 0
    ensures var w := WriteAt(m, parts, track, key, val);
      w.Ok? ==>
        && Keys(w.value) == Keys(m)
        && forall k :: k != SegmentName(parts[0]) ==> Find(w.value, k) == Find(m, k)
  {
    var step := ResolveSegment(m, parts[0]);
    if step.Ok? && step.value.Obj? {
      var f := WriteAt(step.value.fields, parts[1..], track + parts[0] + ".", key, val);
      if f.Ok? {
        ReplaceSegmentFrame(m, parts[0], Obj(f.value));
      }
    }
  }

  /** The top-level frame of a dotted injection: only the entry its first segment
      names is rewritten, and the key order is kept. */
  lemma InjectDottedFrame(field: string, value: Value, r: Fields)
    requires '.' in field
    ensures var res := InjectCallbackID(field, value, r);
      res.Ok? ==>
        && Keys(res.value) == Keys(r)
        && forall k :: k != SegmentName(Split(field, '.')[0]) ==> Find(res.value, k) == Find(r, k)
  {
    var parts := Split(field, '.');
    JoinSplit(field, '.');
    WriteAtTopFrame(r, parts, "", CallbackIDFieldName, value);
  }

  /** The frame of a dotted injection at every depth: each object `getM` passes
      through is rewritten only under the segment that leads further down, and
      through `name[i]` only element `i` of that list changes. */
  lemma InjectDottedPathFrame(field: string, value: Value, r: Fields)
    requires '.' in field
    ensures var res, parts := InjectCallbackID(field, value, r), Split(field, '.');
      res.Ok? ==>
        forall k :: 0 <= k < |parts| ==>
          && Descend(r, parts[..k], "").Ok? && Descend(res.value, parts[..k], "").Ok?
          && OnlySegmentChanged(Descend(r, parts[..k], "").value, Descend(res.value, parts[..k], "").value, parts[k])
  {
    var parts := Split(field, '.');
    JoinSplit(field, '.');
    var res := InjectCallbackID(field, value, r);
    if res.Ok? {
      forall k | 0 <= k < |parts|
        ensures && Descend(r, parts[..k], "").Ok? && Descend(res.value, parts[..k], "").Ok?
                && OnlySegmentChanged(Descend(r, parts[..k], "").value, Descend(res.value, parts[..k], "").value, parts[k])
      {
        WriteAtPathFrame(r, parts, "", CallbackIDFieldName, value, k);
      }
    }
  }
}
