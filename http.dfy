/** Request headers as the engine reads them. */
module Http {

  /** `http.Header`, one value per name. The names are canonical, as the HTTP
      server stores them. */
  type Header = map<string, string>

  /** A character allowed in a header field name (a token character of RFC 7230). */
  predicate IsTokenChar(c: char)
  {
    || ('a' <= c <= 'z') || ('A' <= c <= 'Z') || ('0' <= c <= '9')
    || c in "!#$%&'*+-.^_`|~"
  }

  function ToUpper(c: char): char
  {
    if 'a' <= c <= 'z' then (c as int - 32) as char else c
  }

  function ToLower(c: char): char
  {
    if 'A' <= c <= 'Z' then (c as int + 32) as char else c
  }

  /** The case conversion of `CanonicalMIMEHeaderKey` from position 0 of `s`:
      a letter at the start or after '-' upper-case, every other letter
      lower-case. */
  function CanonicalFrom(s: string, upper: bool): (r: string)
    ensures |r| == |s|
  {
    if |s| == 0 then ""
    else
      var c := if upper then ToUpper(s[0]) else ToLower(s[0]);
      [c] + CanonicalFrom(s[1..], c == '-')
  }

  /** `textproto.CanonicalMIMEHeaderKey`: a name made of token characters is
      brought into canonical case; any other name is left as it is. */
  function Canonical(name: string): (r: string)
    ensures |r| == |name|
  {
    if forall i :: 0 <= i < |name| ==> IsTokenChar(name[i]) then CanonicalFrom(name, true) else name
  }

  lemma {:induction false} CanonicalFromIdempotent(s: string, upper: bool)
    ensures CanonicalFrom(CanonicalFrom(s, upper), upper) == CanonicalFrom(s, upper)
    ensures forall i :: 0 <= i < |s| ==> (IsTokenChar(s[i]) <==> IsTokenChar(CanonicalFrom(s, upper)[i]))
    decreases |s|
  {
    if |s| > 0 {
      var c := if upper then ToUpper(s[0]) else ToLower(s[0]);
      CanonicalFromIdempotent(s[1..], c == '-');
      var r := CanonicalFrom(s, upper);
      assert r == [c] + CanonicalFrom(s[1..], c == '-');
      assert r[1..] == CanonicalFrom(s[1..], c == '-');
      assert (if upper then ToUpper(c) else ToLower(c)) == c;
      forall i | 0 <= i < |s|
        ensures IsTokenChar(s[i]) <==> IsTokenChar(r[i])
      {
        if i > 0 {
          assert s[i] == s[1..][i - 1];
          assert r[i] == CanonicalFrom(s[1..], c == '-')[i - 1];
        }
      }
    }
  }

  /** Canonicalising a name twice is the same as once. */
  lemma CanonicalIdempotent(name: string)
    ensures Canonical(Canonical(name)) == Canonical(name)
  {
    CanonicalFromIdempotent(name, true);
  }

  /** `Header.Get`: the value under the canonical form of `name`, or "" when there
      is none. */
  function HeaderGet(h: Header, name: string): (v: string)
    ensures Canonical(name) !in h ==> v == ""
    ensures Canonical(name) in h ==> v == h[Canonical(name)]
  {
    var key := Canonical(name);
    if key in h then h[key] else ""
  }

  /** Any spelling of a name that canonicalises alike reads the same value. */
  lemma HeaderGetCanonical(h: Header, name: string)
    ensures HeaderGet(h, Canonical(name)) == HeaderGet(h, name)
  {
    CanonicalIdempotent(name);
  }
}
