/** url/url.go: URL templates with `{name}` placeholders. `Parse` records each
    distinct placeholder name once; `ProcessWithVariableMap` replaces every
    occurrence of each recorded placeholder with the variable's text. */
module Urls {
  import opened Wrappers
  import opened GoStrings
  import opened Variables

  datatype ParseError =
    | UrlEmpty                 // "url is empty"
    | MissingClosingDelimiter  // a '{' with no later '}': the source panics

  /** "variable <name> not found in variable map" */
  datatype ProcessError = VariableNotFound(variable: string)

  /** What `nextVariable` finds: no `{` at all, a `{` that is never closed, or a
      placeholder whose `}` sits at `closing`. */
  datatype Scan = NoVariable | Unclosed | Found(name: string, closing: nat)

  /** The first placeholder of `s`: from the first `{` to the first `}` after it. */
  function NextVar(s: string): (r: Scan)
    ensures r.Found? ==> 0 < r.closing < |s| && s[r.closing] == '}' && '}' !in r.name
  {
    var open := IndexOf(s, '{');
    if open < 0 then NoVariable else ScanClosing(s[open..], open)
  }

  /** The placeholder opened by the `{` that starts `sub`, found at `open`. */
  function ScanClosing(sub: string, open: nat): (r: Scan)
    requires |sub| > 0 && sub[0] == '{'
    ensures r.Found? ==> open < r.closing < open + |sub| && sub[r.closing - open] == '}' && '}' !in r.name
  {
    var c := IndexOf(sub, '}');
    if c < 0 then Unclosed
    else
      assert sub[1..c] == sub[..c][1..];
      Found(sub[1..c], open + c)
  }

  /** `nextVariable`: the scan for the closing `}` is a loop over the rest of `s`. */
  method NextVariable(s: string) returns (r: Scan)
    ensures r == NextVar(s)
  {
    var open := IndexOf(s, '{');
    if open < 0 {
      return NoVariable;
    }
    var closing := ScanFrom(s, open);
    ghost var c := IndexOf(s[open..], '}');
    assert NextVar(s) == ScanClosing(s[open..], open);
    if closing == open {
      return Unclosed;
    }
    assert s[open + 1..closing] == s[open..][1..c];
    if s[open..closing + 1] == "{}" {
      return Found("", closing);
    }
    return Found(s[open + 1..closing], closing);
  }

  /** The `range` loop of `nextVariable`: where the first `}` after `open` is, or
      `open` itself when there is none. */
  method ScanFrom(s: string, open: nat) returns (closing: nat)
    requires open < |s| && s[open] == '{'
    ensures var c := IndexOf(s[open..], '}');
      closing == if c < 0 then open else open + c
  {
    closing := open;
    var i := 0;
    while i < |s| - open
      invariant 0 <= i <= |s| - open
      invariant '}' !in s[open..][..i]
    {
      if s[open + i] == '}' {
        IndexOfAt(s[open..], '}', i);
        return open + i;
      }
      assert s[open..][..i + 1] == s[open..][..i] + [s[open + i]];
      i := i + 1;
    }
    assert s[open..][..i] == s[open..];
  }

  /** Every placeholder name of `s` in order, repeats and empty names included. */
  function RawNames(s: string): (r: Result<seq<string>, ParseError>)
    ensures r.Err? ==> r.error == MissingClosingDelimiter
    decreases |s|
  {
    match NextVar(s)
    case NoVariable => Ok([])
    case Unclosed => Err(MissingClosingDelimiter)
    case Found(n, c) =>
      match RawNames(s[c..])
      case Ok(ns) => Ok([n] + ns)
      case Err(e) => Err(e)
  }

  /** The names of `ns` not yet `seen`, each once, in order of first occurrence,
      the empty name left out. */
  function Fresh(ns: seq<string>, seen: set<string>): seq<string>
    decreases |ns|
  {
    if |ns| == 0 then []
    else if ns[0] == "" || ns[0] in seen then Fresh(ns[1..], seen)
    else [ns[0]] + Fresh(ns[1..], seen + {ns[0]})
  }

  /** The state of `Parse`'s loop: `rest` still to scan, the names `seen` so far and
      the `variables` recorded. */
  function ParseFrom(rest: string, seen: set<string>, variables: seq<string>): Result<seq<string>, ParseError>
    decreases |rest|
  {
    match NextVar(rest)
    case NoVariable => Ok(variables)
    case Unclosed => Err(MissingClosingDelimiter)
    case Found(n, c) =>
      if n == "" || n in seen then ParseFrom(rest[c..], seen, variables)
      else ParseFrom(rest[c..], seen + {n}, variables + [n])
  }

  /** `URL`: the recorded placeholder names and the template as given. */
  datatype URL = URL(variables: seq<string>, url: string)
  {
    /** `ProcessWithVariableMap`: with no recorded names the template is returned
        as it is and the map is never read (it may be nil); otherwise each name is
        looked up in turn and all its placeholders replaced. */
    method ProcessWithVariableMap(vm: VariableMap?) returns (r: Result<string, ProcessError>)
      requires |variables| > 0 ==> vm != null
      ensures |variables| == 0 ==> r == Ok(url)
      ensures vm != null ==> r == Substitute(url, variables, vm.variableToValue)
    {
      if |variables| == 0 {
        return Ok(url);
      }
      var result := url;
      var i := 0;
      while i < |variables|
        invariant 0 <= i <= |variables|
        invariant Substitute(url, variables, vm.variableToValue)
               == Substitute(result, variables[i..], vm.variableToValue)
      {
        var variable := variables[i];
        assert variables[i..][1..] == variables[i + 1..];
        var (v, ok) := vm.GetString(variable);
        if !ok {
          return Err(VariableNotFound(variable));
        }
        result := ReplaceAll(result, "{" + variable + "}", v);
        i := i + 1;
      }
      return Ok(result);
    }
  }

  /** What `Parse` returns. */
  function ParseUrl(s: string): (r: Result<URL, ParseError>)
    ensures r.Ok? ==> |s| > 0 && r.value.url == s
  {
    if |s| == 0 then Err(UrlEmpty)
    else
      match ParseFrom(s, {}, [])
      case Ok(vs) => Ok(URL(vs, s))
      case Err(e) => Err(e)
  }

  /** `Parse`: repeatedly takes the next placeholder and cuts the string at its `}`. */
  method Parse(s: string) returns (r: Result<URL, ParseError>)
    ensures r == ParseUrl(s)
  {
    if |s| == 0 {
      return Err(UrlEmpty);
    }
    var variables: seq<string> := [];
    var seen: set<string> := {};
    var rest := s;
    while true
      invariant ParseFrom(s, {}, []) == ParseFrom(rest, seen, variables)
      decreases |rest|
    {
      var v := NextVariable(rest);
      if v.NoVariable? {
        break;
      }
      if v.Unclosed? {
        return Err(MissingClosingDelimiter);
      }
      rest := rest[v.closing..];
      if v.name == "" || v.name in seen {
        continue;
      }
      seen := seen + {v.name};
      variables := variables + [v.name];
    }
    return Ok(URL(variables, s));
  }

  /** What `ProcessWithVariableMap` computes from the store. */
  function Substitute(result: string, variables: seq<string>, store: map<string, Captured>)
    : (r: Result<string, ProcessError>)
    ensures r.Err? ==> r.error.variable in variables && r.error.variable !in store
    decreases |variables|
  {
    if |variables| == 0 then Ok(result)
    else
      var (v, ok) := StringIn(store, variables[0]);
      if !ok then Err(VariableNotFound(variables[0]))
      else Substitute(ReplaceAll(result, "{" + variables[0] + "}", v), variables[1..], store)
  }

  // ------------------------------------------------------------------ what Parse records

  /** What the loop of `Parse` returns, given the scan of what is left. */
  function FromRaw(raw: Result<seq<string>, ParseError>, seen: set<string>, variables: seq<string>)
    : Result<seq<string>, ParseError>
  {
    match raw
    case Ok(ns) => Ok(variables + Fresh(ns, seen))
    case Err(e) => Err(e)
  }

  /** The loop of `Parse` computes the fresh names of the whole scan. */
  lemma {:induction false} ParseFromRaw(rest: string, seen: set<string>, variables: seq<string>)
    ensures ParseFrom(rest, seen, variables) == FromRaw(RawNames(rest), seen, variables)
    decreases |rest|
  {
    var scan := NextVar(rest);
    if scan.NoVariable? {
      assert variables + [] == variables;
    } else if scan.Found? {
      var n, c := scan.name, scan.closing;
      if n == "" || n in seen {
        ParseFromRaw(rest[c..], seen, variables);
      } else {
        ParseFromRaw(rest[c..], seen + {n}, variables + [n]);
      }
      FromRawCons(RawNames(rest[c..]), n, seen, variables);
    }
  }

  /** One more scanned name, as the loop of `Parse` treats it. */
  lemma FromRawCons(tail: Result<seq<string>, ParseError>, n: string, seen: set<string>, variables: seq<string>)
    ensures var raw := if tail.Ok? then Ok([n] + tail.value) else tail;
      FromRaw(raw, seen, variables)
      == if n == "" || n in seen then FromRaw(tail, seen, variables)
         else FromRaw(tail, seen + {n}, variables + [n])
  {
    if tail.Ok? {
      assert ([n] + tail.value)[1..] == tail.value;
      var f := Fresh(tail.value, seen + {n});
      assert variables + [n] + f == variables + ([n] + f);
    }
  }

  /** The fresh names are exactly the non-empty unseen names of `ns`. */
  lemma {:induction false} FreshMembers(ns: seq<string>, seen: set<string>)
    ensures forall x :: x in Fresh(ns, seen) <==> x in ns && x != "" && x !in seen
    decreases |ns|
  {
    if |ns| > 0 {
      assert forall x :: x in ns <==> x == ns[0] || x in ns[1..];
      if ns[0] == "" || ns[0] in seen {
        FreshMembers(ns[1..], seen);
      } else {
        FreshMembers(ns[1..], seen + {ns[0]});
      }
    }
  }

  /** No fresh name is recorded twice. */
  lemma {:induction false} FreshDistinct(ns: seq<string>, seen: set<string>)
    ensures forall i, j :: 0 <= i < j < |Fresh(ns, seen)| ==> Fresh(ns, seen)[i] != Fresh(ns, seen)[j]
    decreases |ns|
  {
    if |ns| > 0 {
      var n := ns[0];
      var f := Fresh(ns, seen);
      if n == "" || n in seen {
        FreshDistinct(ns[1..], seen);
        assert f == Fresh(ns[1..], seen);
      } else {
        var g := Fresh(ns[1..], seen + {n});
        FreshDistinct(ns[1..], seen + {n});
        FreshMembers(ns[1..], seen + {n});
        assert f == [n] + g;
        forall i, j | 0 <= i < j < |f| ensures f[i] != f[j] {
          assert f[j] == g[j - 1] && g[j - 1] in g;
          if i > 0 { assert f[i] == g[i - 1]; }
        }
      }
    }
  }

  /** `f` lists names in order of first occurrence in `ns`: every occurrence of a
      later name is preceded by an occurrence of each earlier one. */
  predicate FirstOccurrenceOrder(f: seq<string>, ns: seq<string>)
  {
    forall i, j, p :: 0 <= i < j < |f| && 0 <= p < |ns| && ns[p] == f[j] ==> f[i] in ns[..p]
  }

  /** A name in front of `rest` that is not listed keeps the order. */
  lemma OrderSkip(n: string, rest: seq<string>, g: seq<string>)
    requires FirstOccurrenceOrder(g, rest) && n !in g
    ensures FirstOccurrenceOrder(g, [n] + rest)
  {
    var ns := [n] + rest;
    forall i, j, p | 0 <= i < j < |g| && 0 <= p < |ns| && ns[p] == g[j] ensures g[i] in ns[..p] {
      assert g[j] in g;
      assert p > 0;
      assert ns[p] == rest[p - 1];
      assert g[i] in rest[..p - 1];
      assert rest[..p - 1] == ns[1..p];
    }
  }

  /** A name in front of `rest` that is listed first keeps the order. */
  lemma OrderTake(n: string, rest: seq<string>, g: seq<string>)
    requires FirstOccurrenceOrder(g, rest) && n !in g
    ensures FirstOccurrenceOrder([n] + g, [n] + rest)
  {
    var ns, f := [n] + rest, [n] + g;
    forall i, j, p | 0 <= i < j < |f| && 0 <= p < |ns| && ns[p] == f[j] ensures f[i] in ns[..p] {
      assert f[j] == g[j - 1] && g[j - 1] in g;
      assert p > 0;
      assert ns[p] == rest[p - 1];
      if i == 0 {
        assert ns[..p][0] == n;
      } else {
        assert f[i] == g[i - 1];
        assert g[i - 1] in rest[..p - 1];
        assert rest[..p - 1] == ns[1..p];
      }
    }
  }

  /** The fresh names come in order of first occurrence. */
  lemma {:induction false} FreshOrder(ns: seq<string>, seen: set<string>)
    ensures FirstOccurrenceOrder(Fresh(ns, seen), ns)
    decreases |ns|
  {
    if |ns| > 0 {
      var rest := ns[1..];
      var n := ns[0];
      assert ns == [n] + rest;
      if n == "" || n in seen {
        FreshOrder(rest, seen);
        FreshMembers(rest, seen);
        OrderSkip(n, rest, Fresh(rest, seen));
      } else {
        FreshOrder(rest, seen + {n});
        FreshMembers(rest, seen + {n});
        OrderTake(n, rest, Fresh(rest, seen + {n}));
      }
    }
  }

  /** `Parse` fails on the empty string and on a `{` that is never closed; otherwise
      it keeps the string verbatim and records exactly the non-empty placeholder
      names, each once, in order of first occurrence. */
  lemma ParseRecords(s: string)
    ensures var r := ParseUrl(s);
      && (r == Err(UrlEmpty) <==> |s| == 0)
      && (r.Err? <==> |s| == 0 || RawNames(s).Err?)
      && (r.Ok? ==>
            var vs, ns := r.value.variables, RawNames(s).value;
            && r.value.url == s
            && (forall i :: 0 <= i < |vs| ==> vs[i] != "")
            && (forall i, j :: 0 <= i < j < |vs| ==> vs[i] != vs[j])
            && (forall x :: x in vs <==> x in ns && x != "")
            && FirstOccurrenceOrder(vs, ns))
  {
    ParseFromRaw(s, {}, []);
    if |s| > 0 && RawNames(s).Ok? {
      var ns := RawNames(s).value;
      var vs := Fresh(ns, {});
      assert [] + vs == vs;
      assert ParseUrl(s) == Ok(URL(vs, s));
      FreshMembers(ns, {});
      FreshDistinct(ns, {});
      FreshOrder(ns, {});
      forall i | 0 <= i < |vs| ensures vs[i] != "" {
        assert vs[i] in vs;
      }
    }
  }

  // ------------------------------------------------------------------ what processing replaces

  /** With no recorded names, processing gives the template whatever the store. */
  lemma NoVariablesUnchanged(url: string, store: map<string, Captured>)
    ensures Substitute(url, [], store) == Ok(url)
  {
  }

  /** Processing fails exactly when a recorded name is missing from the store, and
      then names the first missing one. */
  lemma {:induction false} SubstituteMissing(result: string, variables: seq<string>, store: map<string, Captured>)
    ensures var r := Substitute(result, variables, store);
      && (r.Err? <==> exists k :: 0 <= k < |variables| && variables[k] !in store)
      && (r.Err? ==>
            exists k :: 0 <= k < |variables| && variables[k] == r.error.variable
              && variables[k] !in store && forall j :: 0 <= j < k ==> variables[j] in store)
    decreases |variables|
  {
    if |variables| > 0 {
      var (v, ok) := StringIn(store, variables[0]);
      if ok {
        var rest := variables[1..];
        SubstituteMissing(ReplaceAll(result, "{" + variables[0] + "}", v), rest, store);
        forall k | 0 <= k < |rest| ensures rest[k] == variables[k + 1] { }
        var r := Substitute(result, variables, store);
        if r.Err? {
          var k :| 0 <= k < |rest| && rest[k] == r.error.variable
            && rest[k] !in store && forall j :: 0 <= j < k ==> rest[j] in store;
          forall j | 0 <= j < k + 1 ensures variables[j] in store {
            if j > 0 { assert variables[j] == rest[j - 1]; }
          }
        } else {
          forall k | 0 <= k < |variables| ensures variables[k] in store {
            if k > 0 { assert variables[k] == rest[k - 1]; }
          }
        }
      }
    }
  }

  /** A template as pieces: literal text, or a `{name}` placeholder. */
  datatype Piece = Lit(text: string) | Ref(name: string)

  /** A name `Parse` can record whole: non-empty and free of braces. */
  predicate GoodName(n: string)
  {
    |n| > 0 && '{' !in n && '}' !in n
  }

  /** Literal text opens no placeholder, save the literal `{}`. */
  predicate GoodPiece(p: Piece)
  {
    match p
    case Lit(t) => t == "{}" || '{' !in t
    case Ref(n) => GoodName(n)
  }

  /** The text of the pieces, with the placeholders named in `filled` replaced by
      their text and every other one written as `{name}`. */
  function Filled(pieces: seq<Piece>, filled: map<string, string>): string
  {
    if |pieces| == 0 then ""
    else
      var head :=
        match pieces[0]
        case Lit(t) => t
        case Ref(n) => if n in filled then filled[n] else "{" + n + "}";
      head + Filled(pieces[1..], filled)
  }

  /** The placeholder of one name does not begin with the placeholder of another. */
  lemma PlaceholderMismatch(n: string, v: string, y: string)
    requires GoodName(n) && GoodName(v) && n != v
    requires |"{" + n + "}" + y| >= |"{" + v + "}"|
    ensures ("{" + n + "}" + y)[..|v| + 2] != "{" + v + "}"
  {
    var s := "{" + n + "}" + y;
    var pat := "{" + v + "}";
    var q: nat;
    if |n| < |v| {
      q := |n| + 1;
      assert s[q] == '}';
      assert pat[q] == v[|n|] && v[|n|] in v;
    } else if |n| > |v| {
      q := |v| + 1;
      assert s[q] == n[|v|] && n[|v|] in n;
      assert pat[q] == '}';
    } else {
      var k :| 0 <= k < |n| && n[k] != v[k];
      q := k + 1;
      assert s[q] == n[k] && pat[q] == v[k];
    }
    assert s[..|pat|][q] != pat[q];
  }

  /** A placeholder for a different name does not start an occurrence. */
  lemma OtherRefSkips(n: string, v: string, y: string, rep: string)
    requires GoodName(n) && GoodName(v) && n != v
    ensures ReplaceAll("{" + n + "}" + y, "{" + v + "}", rep) == "{" + n + "}" + ReplaceAll(y, "{" + v + "}", rep)
  {
    var pat := "{" + v + "}";
    var s := "{" + n + "}" + y;
    var t := n + "}";
    if |s| >= |pat| {
      PlaceholderMismatch(n, v, y);
      assert ReplaceAll(s, pat, rep) == [s[0]] + ReplaceAll(s[1..], pat, rep);
      assert s[1..] == t + y;
      assert '{' !in t;
      ReplaceAllSkips(t, y, pat, rep);
      assert [s[0]] + (t + ReplaceAll(y, pat, rep)) == "{" + n + "}" + ReplaceAll(y, pat, rep);
    } else {
      assert ReplaceAll(y, pat, rep) == y;
    }
  }

  /** The literal `{}` does not start an occurrence of a placeholder. */
  lemma EmptyBracesSkip(v: string, y: string, rep: string)
    requires GoodName(v)
    ensures ReplaceAll("{}" + y, "{" + v + "}", rep) == "{}" + ReplaceAll(y, "{" + v + "}", rep)
  {
    var pat := "{" + v + "}";
    var s := "{}" + y;
    if |s| >= |pat| {
      assert s[..|pat|] != pat by {
        assert s[..|pat|][1] == '}' && pat[1] == v[0];
      }
      assert ReplaceAll(s, pat, rep) == [s[0]] + ReplaceAll(s[1..], pat, rep);
      assert s[1..] == "}" + y;
      ReplaceAllSkips("}", y, pat, rep);
      var tail := ReplaceAll(y, pat, rep);
      assert [s[0]] + ("}" + tail) == "{}" + tail;
    } else {
      assert ReplaceAll(y, pat, rep) == y;
    }
  }

  /** One round of processing fills one more name. */
  lemma {:induction false} ReplaceFills(pieces: seq<Piece>, filled: map<string, string>, v: string, rep: string)
    requires forall k :: 0 <= k < |pieces| ==> GoodPiece(pieces[k])
    requires GoodName(v) && v !in filled && '{' !in rep
    requires forall n :: n in filled ==> '{' !in filled[n]
    ensures ReplaceAll(Filled(pieces, filled), "{" + v + "}", rep) == Filled(pieces, filled[v := rep])
    decreases |pieces|
  {
    var pat := "{" + v + "}";
    if |pieces| == 0 {
      assert ReplaceAll("", pat, rep) == "";
    } else {
      ReplaceFills(pieces[1..], filled, v, rep);
      var y := Filled(pieces[1..], filled);
      match pieces[0]
      case Lit(t) =>
        if t == "{}" { EmptyBracesSkip(v, y, rep); } else { ReplaceAllSkips(t, y, pat, rep); }
      case Ref(n) =>
        if n in filled {
          ReplaceAllSkips(filled[n], y, pat, rep);
        } else if n == v {
          ReplaceAllFront(y, pat, rep);
        } else {
          OtherRefSkips(n, v, y, rep);
        }
    }
  }

  /** The text each of `variables` is replaced by. */
  function Values(variables: seq<string>, store: map<string, Captured>): map<string, string>
  {
    map v | v in variables :: StringIn(store, v).0
  }

  /** Processing with names all present in the store, whose texts open no
      placeholder, replaces every placeholder of those names and leaves the rest of
      the template (the literal `{}` included) as it is. */
  lemma {:induction false} SubstituteFills(pieces: seq<Piece>, filled: map<string, string>,
                                           variables: seq<string>, store: map<string, Captured>)
    requires forall k :: 0 <= k < |pieces| ==> GoodPiece(pieces[k])
    requires forall k :: 0 <= k < |variables| ==> GoodName(variables[k]) && variables[k] !in filled
    requires forall i, j :: 0 <= i < j < |variables| ==> variables[i] != variables[j]
    requires forall k :: 0 <= k < |variables| ==> variables[k] in store && '{' !in StringIn(store, variables[k]).0
    requires forall n :: n in filled ==> '{' !in filled[n]
    ensures Substitute(Filled(pieces, filled), variables, store)
         == Ok(Filled(pieces, filled + Values(variables, store)))
    decreases |variables|
  {
    if |variables| == 0 {
      assert filled + Values(variables, store) == filled;
    } else {
      var v := variables[0];
      var rest := variables[1..];
      var rep := StringIn(store, v).0;
      ReplaceFills(pieces, filled, v, rep);
      forall k | 0 <= k < |rest| ensures rest[k] == variables[k + 1] { }
      SubstituteFills(pieces, filled[v := rep], rest, store);
      ValuesCons(filled, variables, store);
      SubstituteStep(Filled(pieces, filled), variables, store);
    }
  }

  /** One round of `Substitute`. */
  lemma SubstituteStep(text: string, variables: seq<string>, store: map<string, Captured>)
    requires |variables| > 0 && variables[0] in store
    ensures Substitute(text, variables, store)
         == Substitute(ReplaceAll(text, "{" + variables[0] + "}", StringIn(store, variables[0]).0), variables[1..], store)
  {
  }

  lemma ValuesCons(filled: map<string, string>, variables: seq<string>, store: map<string, Captured>)
    requires |variables| > 0
    ensures filled[variables[0] := StringIn(store, variables[0]).0] + Values(variables[1..], store)
         == filled + Values(variables, store)
  {
    var v := variables[0];
    assert forall x :: x in variables <==> x == v || x in variables[1..];
  }

  // ------------------------------------------------------------------ parsing a template

  /** Where a template's placeholders sit: `""` for a literal `{}`, the name for a
      placeholder, nothing for other text. */
  function PieceNames(pieces: seq<Piece>): seq<string>
  {
    if |pieces| == 0 then []
    else
      PieceName(pieces[0]) + PieceNames(pieces[1..])
  }

  /** Past a stretch without `c`, the first `c` is the first `c` of the rest. */
  lemma IndexOfSuffix(s: string, c: char, k: nat)
    requires k <= |s| && c !in s[..k]
    ensures IndexOf(s, c) == if IndexOf(s[k..], c) < 0 then -1 else k + IndexOf(s[k..], c)
  {
    var i := IndexOf(s[k..], c);
    if i >= 0 {
      forall j | 0 <= j < k + i ensures s[j] != c {
        if j < k {
          assert s[j] == s[..k][j];
        } else {
          assert s[j] == s[k..][..i][j - k];
        }
      }
      IndexOfAt(s, c, k + i);
    } else {
      forall j | 0 <= j < |s| ensures s[j] != c {
        if j < k {
          assert s[j] == s[..k][j];
        } else {
          assert s[j] == s[k..][j - k];
        }
      }
    }
  }

  /** The placeholder scan of the same text found further along only moves the
      closing position. */
  lemma ScanClosingShift(sub: string, open: nat, d: nat)
    requires |sub| > 0 && sub[0] == '{'
    ensures var a, b := ScanClosing(sub, open + d), ScanClosing(sub, open);
      && (a.Unclosed? <==> b.Unclosed?)
      && (b.Found? ==> a == Found(b.name, b.closing + d))
      && !a.NoVariable? && !b.NoVariable?
  {
  }

  /** Text free of `{` in front of a string moves its first placeholder along. */
  lemma NextVarSuffix(s: string, k: nat)
    requires k <= |s| && '{' !in s[..k]
    ensures var a, b := NextVar(s), NextVar(s[k..]);
      && (a.NoVariable? <==> b.NoVariable?)
      && (a.Unclosed? <==> b.Unclosed?)
      && (b.Found? ==> a == Found(b.name, b.closing + k))
  {
    IndexOfSuffix(s, '{', k);
    var open := IndexOf(s[k..], '{');
    if open >= 0 {
      var sub := s[k + open..];
      assert sub == s[k..][open..];
      assert NextVar(s) == ScanClosing(sub, open + k);
      assert NextVar(s[k..]) == ScanClosing(sub, open);
      ScanClosingShift(sub, open, k);
    }
  }

  /** Two strings whose first placeholders agree, and agree on what follows,
      have the same placeholders. */
  lemma RawNamesAgree(s: string, t: string)
    requires NextVar(s).NoVariable? <==> NextVar(t).NoVariable?
    requires NextVar(s).Unclosed? <==> NextVar(t).Unclosed?
    requires NextVar(s).Found? ==>
      && NextVar(t).Found? && NextVar(s).name == NextVar(t).name
      && s[NextVar(s).closing..] == t[NextVar(t).closing..]
    ensures RawNames(s) == RawNames(t)
  {
  }

  /** Text free of `{` in front of a string changes nothing about its placeholders. */
  lemma RawNamesSuffix(s: string, k: nat)
    requires k <= |s| && '{' !in s[..k]
    ensures RawNames(s) == RawNames(s[k..])
  {
    NextVarSuffix(s, k);
    SuffixAgree(s, s[k..], k);
  }

  /** `RawNamesAgree` for a suffix whose first placeholder is the one of `s`. */
  lemma SuffixAgree(s: string, t: string, k: nat)
    requires k <= |s| && t == s[k..]
    requires NextVar(s).NoVariable? <==> NextVar(t).NoVariable?
    requires NextVar(s).Unclosed? <==> NextVar(t).Unclosed?
    requires NextVar(t).Found? ==> NextVar(s) == Found(NextVar(t).name, NextVar(t).closing + k)
    ensures RawNames(s) == RawNames(t)
  {
    var b := NextVar(t);
    if b.Found? {
      assert s[b.closing + k..] == t[b.closing..];
    }
    RawNamesAgree(s, t);
  }

  lemma RawNamesShift(t: string, r: string)
    requires '{' !in t
    ensures RawNames(t + r) == RawNames(r)
  {
    var s := t + r;
    assert s[..|t|] == t && s[|t|..] == r;
    RawNamesSuffix(s, |t|);
  }

  /** A placeholder at the front is the first one found. */
  lemma NextVarPlaceholder(n: string, y: string)
    requires '}' !in n
    ensures NextVar("{" + n + "}" + y) == Found(n, |n| + 1)
    ensures ("{" + n + "}" + y)[|n| + 1..] == "}" + y
  {
    var s := "{" + n + "}" + y;
    IndexOfAt(s, '{', 0);
    assert s[0..] == s;
    assert s[..|n| + 1] == "{" + n;
    IndexOfAt(s, '}', |n| + 1);
    assert s[1..|n| + 1] == n;
  }

  /** One step of the scan. */
  lemma RawNamesFound(s: string)
    requires NextVar(s).Found?
    ensures var tail := RawNames(s[NextVar(s).closing..]);
      RawNames(s) == if tail.Ok? then Ok([NextVar(s).name] + tail.value) else tail
  {
  }

  /** A placeholder in front adds its name in front. */
  lemma RawNamesPlaceholderFront(n: string, y: string)
    requires '}' !in n
    ensures RawNames("{" + n + "}" + y) == if RawNames(y).Ok? then Ok([n] + RawNames(y).value) else RawNames(y)
  {
    NextVarPlaceholder(n, y);
    RawNamesShift("}", y);
    RawNamesFound("{" + n + "}" + y);
  }

  /** How one piece is written in the template. */
  function PieceText(p: Piece): string
  {
    match p
    case Lit(t) => t
    case Ref(n) => "{" + n + "}"
  }

  /** What one piece contributes to the scan. */
  function PieceName(p: Piece): seq<string>
  {
    match p
    case Lit(t) => if t == "{}" then [""] else []
    case Ref(n) => [n]
  }

  lemma TemplateStep(p: Piece, y: string, rest: seq<string>)
    requires GoodPiece(p) && RawNames(y) == Ok(rest)
    ensures RawNames(PieceText(p) + y) == Ok(PieceName(p) + rest)
  {
    match p
    case Lit(t) =>
      if t == "{}" {
        assert t == "{" + "" + "}";
        RawNamesPlaceholderFront("", y);
      } else {
        RawNamesShift(t, y);
        assert [] + rest == rest;
      }
    case Ref(n) =>
      RawNamesPlaceholderFront(n, y);
  }

  /** The placeholders of a template, read by the scan, are its pieces' names. */
  lemma {:induction false} TemplateRawNames(pieces: seq<Piece>)
    requires forall k :: 0 <= k < |pieces| ==> GoodPiece(pieces[k])
    ensures RawNames(Filled(pieces, map[])) == Ok(PieceNames(pieces))
    decreases |pieces|
  {
    if |pieces| > 0 {
      TemplateRawNames(pieces[1..]);
      var y := Filled(pieces[1..], map[]);
      assert Filled(pieces, map[]) == PieceText(pieces[0]) + y;
      assert PieceNames(pieces) == PieceName(pieces[0]) + PieceNames(pieces[1..]);
      TemplateStep(pieces[0], y, PieceNames(pieces[1..]));
    }
  }

  /** Every name read from a template is a proper name or the empty one of `{}`. */
  lemma {:induction false} PieceNamesGood(pieces: seq<Piece>)
    requires forall k :: 0 <= k < |pieces| ==> GoodPiece(pieces[k])
    ensures forall n :: n in PieceNames(pieces) ==> n == "" || GoodName(n)
    decreases |pieces|
  {
    if |pieces| > 0 {
      PieceNamesGood(pieces[1..]);
    }
  }

  /** The text of a placeholder: what `StringIn` gives for it. */
  function Rendered(pieces: seq<Piece>, store: map<string, Captured>): string
  {
    Filled(pieces, map n | n in PieceNames(pieces) && n != "" :: StringIn(store, n).0)
  }

  /** End to end: a template parsed and then processed against a store that holds
      every placeholder's name (with text that opens no placeholder) comes out with
      each placeholder replaced by its variable's text. */
  lemma ParseThenProcess(pieces: seq<Piece>, store: map<string, Captured>)
    requires forall k :: 0 <= k < |pieces| ==> GoodPiece(pieces[k])
    requires |Filled(pieces, map[])| > 0
    requires forall n :: n in PieceNames(pieces) && n != "" ==> n in store && '{' !in StringIn(store, n).0
    ensures ParseUrl(Filled(pieces, map[])).Ok?
    ensures var u := ParseUrl(Filled(pieces, map[])).value;
      Substitute(u.url, u.variables, store) == Ok(Rendered(pieces, store))
  {
    var s := Filled(pieces, map[]);
    ParsedTemplate(pieces);
    var vs := ParseUrl(s).value.variables;
    SubstituteFills(pieces, map[], vs, store);
    ValuesOfNames(vs, PieceNames(pieces), store);
  }

  /** Parsing a template gives the template itself and its proper names, each once. */
  lemma ParsedTemplate(pieces: seq<Piece>)
    requires forall k :: 0 <= k < |pieces| ==> GoodPiece(pieces[k])
    requires |Filled(pieces, map[])| > 0
    ensures var r := ParseUrl(Filled(pieces, map[]));
      && r.Ok? && r.value.url == Filled(pieces, map[])
      && var vs := r.value.variables;
      && (forall x :: x in vs <==> x in PieceNames(pieces) && x != "")
      && (forall k :: 0 <= k < |vs| ==> GoodName(vs[k]))
      && (forall i, j :: 0 <= i < j < |vs| ==> vs[i] != vs[j])
  {
    TemplateRawNames(pieces);
    ParseRecords(Filled(pieces, map[]));
    PieceNamesGood(pieces);
  }

  lemma ValuesOfNames(vs: seq<string>, names: seq<string>, store: map<string, Captured>)
    requires forall x :: x in vs <==> x in names && x != ""
    ensures map[] + Values(vs, store) == map n | n in names && n != "" :: StringIn(store, n).0
  {
  }
}
