/** method.go: the HTTP methods a test case may use. */
module Methods {
  import opened Wrappers
  import opened GoStrings

  /** `Method`: the method's name as written in the suite file. */
  type Method = string

  const MethodPost: Method := "POST"
  const MethodPut: Method := "PUT"
  const MethodGet: Method := "GET"
  const MethodPatch: Method := "PATCH"
  const MethodHead: Method := "HEAD"
  const MethodDelete: Method := "DELETE"
  const MethodConnect: Method := "CONNECT"
  const MethodOptions: Method := "OPTIONS"
  const MethodTrace: Method := "TRACE"

  /** The nine names the engine accepts, all upper case. */
  const KnownMethods: seq<Method> :=
    [MethodPost, MethodPut, MethodGet, MethodPatch, MethodHead,
     MethodDelete, MethodConnect, MethodOptions, MethodTrace]

  /** `IsValid`: the switch over the nine constants. */
  function IsValid(m: Method): (r: bool)
    ensures r <==> m in KnownMethods
  {
    match m
    case "POST" => true
    case "PUT" => true
    case "GET" => true
    case "PATCH" => true
    case "HEAD" => true
    case "DELETE" => true
    case "CONNECT" => true
    case "OPTIONS" => true
    case "TRACE" => true
    case _ => false
  }

  /** `String`: the text the method was written with. */
  function MethodString(m: Method): (r: string)
    ensures |r| == |m| && forall k :: 0 <= k < |m| ==> r[k] == m[k]
  {
    m
  }

  /** "unknown http method <m>" */
  datatype MethodError = UnknownMethod(name: Method)

  function MethodErrorMessage(e: MethodError): string
  {
    "unknown http method " + MethodString(e.name)
  }

  /** `UnmarshalJSON`: every leading and trailing `"` of the raw token is dropped
      (not just one pair), the receiver takes the remaining text whether or not it
      names a method, and an unknown name is reported. The pair is the receiver's
      new value and the error. */
  function UnmarshalJSON(b: string): (r: (Method, Option<MethodError>))
    ensures r.1 == None <==> r.0 in KnownMethods
    ensures r.1 != None ==> r.1 == Some(UnknownMethod(r.0))
  {
    var m := Trim(b, '"');
    (m, if IsValid(m) then None else Some(UnknownMethod(m)))
  }

  /** What `UnmarshalJSON` keeps of the raw token: a slice of it with only `"`
      removed around it, and no `"` left at either end. */
  lemma UnmarshalKeepsInner(b: string)
    ensures var m, i := UnmarshalJSON(b).0, TrimStart(b, '"');
      && (|m| == 0 || (m[0] != '"' && m[|m| - 1] != '"'))
      && i + |m| <= |b| && b[i..i + |m|] == m
      && (forall k :: 0 <= k < i ==> b[k] == '"')
      && (forall k :: i + |m| <= k < |b| ==> b[k] == '"')
  {
    TrimShape(b, '"');
  }

  /** A method written as a JSON string (with any number of quotes around it) is
      read back as itself, with no error. */
  lemma UnmarshalQuoted(m: Method, left: nat, right: nat)
    requires IsValid(m)
    ensures UnmarshalJSON(Quotes(left) + m + Quotes(right)) == (m, None)
  {
    var b := Quotes(left) + m + Quotes(right);
    TrimmedQuotes(m, left, right);
  }

  function Quotes(n: nat): (q: string)
    ensures |q| == n && forall k :: 0 <= k < n ==> q[k] == '"'
  {
    if n == 0 then "" else Quotes(n - 1) + ['"']
  }

  /** Trimming quotes around a text that neither starts nor ends with one gives the
      text back. */
  lemma {:induction false} TrimmedQuotes(m: string, left: nat, right: nat)
    requires |m| > 0 && m[0] != '"' && m[|m| - 1] != '"'
    ensures Trim(Quotes(left) + m + Quotes(right), '"') == m
  {
    var b := Quotes(left) + m + Quotes(right);
    QuotesPrefix(Quotes(left), m + Quotes(right));
    assert b == Quotes(left) + (m + Quotes(right));
    TrimRightQuotes(m, right);
  }

  /** Leading quotes in front of a text that does not start with one are dropped. */
  lemma {:induction false} QuotesPrefix(p: string, s: string)
    requires forall k :: 0 <= k < |p| ==> p[k] == '"'
    requires |s| > 0 && s[0] != '"'
    ensures TrimLeft(p + s, '"') == s
    decreases |p|
  {
    if |p| > 0 {
      assert (p + s)[0] == '"';
      assert (p + s)[1..] == p[1..] + s;
      QuotesPrefix(p[1..], s);
    } else {
      assert p + s == s;
    }
  }

  lemma {:induction false} TrimRightQuotes(m: string, n: nat)
    requires |m| > 0 && m[|m| - 1] != '"'
    ensures TrimRight(m + Quotes(n), '"') == m
    decreases n
  {
    if n > 0 {
      var b := m + Quotes(n);
      assert b[|b| - 1] == '"';
      assert b[..|b| - 1] == m + Quotes(n - 1);
      TrimRightQuotes(m, n - 1);
    } else {
      assert m + Quotes(n) == m;
    }
  }
}
