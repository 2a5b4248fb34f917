/** callback/signature_verifier.go: checking the signature a callback carries. The
    header holds the hex-encoded (section 8 of RFC 4648) HMAC (RFC 2104) of the body,
    preceded by the timestamp header and a comma when replay protection is on. The
    HMAC itself is a parameter: `Mac(algorithm, key, message)`. */
module SignatureVerifiers {
  import opened Wrappers
  import opened GoStrings
  import opened Http

  /** The hash functions `getHashFunction` knows. */
  datatype HashAlgorithm =
    | MD5 | SHA1 | SHA224 | SHA256 | SHA384 | SHA512
    | SHA3_224 | SHA3_256 | SHA3_384 | SHA3_512 | SHA512_224 | SHA512_256

  /** The name a suite file uses for an algorithm. */
  function AlgorithmName(a: HashAlgorithm): string
  {
    match a
    case MD5 => "MD5"
    case SHA1 => "SHA1"
    case SHA224 => "SHA224"
    case SHA256 => "SHA256"
    case SHA384 => "SHA384"
    case SHA512 => "SHA512"
    case SHA3_224 => "SHA3_224"
    case SHA3_256 => "SHA3_256"
    case SHA3_384 => "SHA3_384"
    case SHA3_512 => "SHA3_512"
    case SHA512_224 => "SHA512_224"
    case SHA512_256 => "SHA512_256"
  }

  const KnownAlgorithms: seq<string> :=
    ["MD5", "SHA1", "SHA224", "SHA256", "SHA384", "SHA512",
     "SHA3_224", "SHA3_256", "SHA3_384", "SHA3_512", "SHA512_224", "SHA512_256"]

  /** "unknown hash algorithm" */
  datatype HashError = UnknownHashAlgorithm

  /** `getHashFunction`: exactly the twelve names, spelled as above, are known. */
  function GetHashFunction(algorithm: string): (r: Result<HashAlgorithm, HashError>)
    ensures r.Ok? <==> algorithm in KnownAlgorithms
    ensures r.Ok? ==> AlgorithmName(r.value) == algorithm
  {
    match algorithm
    case "MD5" => Ok(MD5)
    case "SHA1" => Ok(SHA1)
    case "SHA224" => Ok(SHA224)
    case "SHA256" => Ok(SHA256)
    case "SHA384" => Ok(SHA384)
    case "SHA512" => Ok(SHA512)
    case "SHA3_224" => Ok(SHA3_224)
    case "SHA3_256" => Ok(SHA3_256)
    case "SHA3_384" => Ok(SHA3_384)
    case "SHA3_512" => Ok(SHA3_512)
    case "SHA512_224" => Ok(SHA512_224)
    case "SHA512_256" => Ok(SHA512_256)
    case _ => Err(UnknownHashAlgorithm)
  }

  /** Every algorithm is found again under its own name. */
  lemma GetHashFunctionByName(a: HashAlgorithm)
    ensures GetHashFunction(AlgorithmName(a)) == Ok(a)
  {
    match a
    case MD5 =>
    case SHA1 =>
    case SHA224 =>
    case SHA256 =>
    case SHA384 =>
    case SHA512 =>
    case SHA3_224 =>
    case SHA3_256 =>
    case SHA3_384 =>
    case SHA3_512 =>
    case SHA512_224 =>
    case SHA512_256 =>
  }

  /** `SignatureVerifier`, with the hash function it was built with. */
  datatype SignatureVerifier = SignatureVerifier(
    replayAttacks: bool, secret: string, header: string, hash: string, hashFn: HashAlgorithm)

  /** `NewSignatureVerifier`: fails exactly on an unknown algorithm name, so a built
      verifier always has the hash function its name says. */
  function NewSignatureVerifier(replayAttacks: bool, secret: string, header: string, hash: string)
    : (r: Result<SignatureVerifier, HashError>)
    ensures r.Err? <==> hash !in KnownAlgorithms
    ensures r.Ok? ==>
      && r.value.replayAttacks == replayAttacks && r.value.secret == secret
      && r.value.header == header && r.value.hash == hash
      && AlgorithmName(r.value.hashFn) == hash
  {
    match GetHashFunction(hash)
    case Err(e) => Err(e)
    case Ok(fn) => Ok(SignatureVerifier(replayAttacks, secret, header, hash, fn))
  }

  // ------------------------------------------------------------------ hex

  type Byte = b: int | 0 <= b < 256

  /** The value of a hex digit (either case), or -1. */
  function HexValue(c: char): (v: int)
    ensures -1 <= v < 16
  {
    if '0' <= c <= '9' then c as int - '0' as int
    else if 'a' <= c <= 'f' then c as int - 'a' as int + 10
    else if 'A' <= c <= 'F' then c as int - 'A' as int + 10
    else -1
  }

  predicate IsHexDigit(c: char)
  {
    HexValue(c) >= 0
  }

  /** The errors of `hex.Decode`: "encoding/hex: invalid byte: <c>" and
      "encoding/hex: odd length hex string". */
  datatype HexError = InvalidByte(c: char) | OddLength

  /** `hex.Decode`: pairs of digits from the left, the first digit of a pair checked
      before the second; a trailing single digit is checked for validity before the
      odd length is reported. */
  function HexDecode(src: string): (r: Result<seq<Byte>, HexError>)
    ensures r.Ok? ==> 2 * |r.value| == |src|
    decreases |src|
  {
    if |src| == 0 then Ok([])
    else if |src| == 1 then
      if !IsHexDigit(src[0]) then Err(InvalidByte(src[0])) else Err(OddLength)
    else if !IsHexDigit(src[0]) then Err(InvalidByte(src[0]))
    else if !IsHexDigit(src[1]) then Err(InvalidByte(src[1]))
    else
      match HexDecode(src[2..])
      case Err(e) => Err(e)
      case Ok(rest) => Ok([HexValue(src[0]) * 16 + HexValue(src[1])] + rest)
  }

  /** The lower-case digit of a value below 16. */
  function HexDigit(v: int): (c: char)
    requires 0 <= v < 16
    ensures HexValue(c) == v
  {
    if v < 10 then ('0' as int + v) as char else ('a' as int + v - 10) as char
  }

  /** `hex.EncodeToString`. */
  function HexEncode(b: seq<Byte>): (s: string)
    ensures |s| == 2 * |b|
  {
    if |b| == 0 then "" else [HexDigit(b[0] / 16), HexDigit(b[0] % 16)] + HexEncode(b[1..])
  }

  /** Decoding what was encoded gives the bytes back. */
  lemma {:induction false} HexRoundTrip(b: seq<Byte>)
    ensures HexDecode(HexEncode(b)) == Ok(b)
  {
    if |b| > 0 {
      var s := HexEncode(b);
      assert s[2..] == HexEncode(b[1..]);
      HexRoundTrip(b[1..]);
      assert [b[0]] + b[1..] == b;
    }
  }

  /** Decoding fails exactly on an odd length or a character that is no hex digit,
      and then reports the first bad character, or the odd length when there is
      none. */
  lemma {:induction false} HexDecodeErrors(src: string)
    ensures var r := HexDecode(src);
      && (r.Err? <==> |src| % 2 == 1 || exists k :: 0 <= k < |src| && !IsHexDigit(src[k]))
      && (r.Err? && r.error.InvalidByte? ==> FirstBad(src) < |src| && r.error.c == src[FirstBad(src)])
      && (r.Err? && r.error.OddLength? ==> FirstBad(src) == |src|)
    decreases |src|
  {
    if |src| >= 2 && IsHexDigit(src[0]) && IsHexDigit(src[1]) {
      var tail := src[2..];
      HexDecodeErrors(tail);
      assert forall k :: 0 <= k < |tail| ==> tail[k] == src[k + 2];
      if exists k :: 0 <= k < |src| && !IsHexDigit(src[k]) {
        var k :| 0 <= k < |src| && !IsHexDigit(src[k]);
        assert !IsHexDigit(tail[k - 2]);
      }
    }
  }

  /** On success each pair of digits gives one byte. */
  lemma {:induction false} HexDecodeBytes(src: string)
    ensures var r := HexDecode(src);
      && (r.Ok? ==> |src| == 2 * |r.value|)
      && (r.Ok? ==>
            forall k :: 0 <= k < |r.value| ==> r.value[k] == HexValue(src[2 * k]) * 16 + HexValue(src[2 * k + 1]))
    decreases |src|
  {
    var r := HexDecode(src);
    if r.Ok? && |src| >= 2 {
      var tail := src[2..];
      HexDecodeBytes(tail);
      var rest := HexDecode(tail).value;
      assert r.value == [HexValue(src[0]) * 16 + HexValue(src[1])] + rest;
      forall k | 1 <= k < |r.value|
        ensures r.value[k] == HexValue(src[2 * k]) * 16 + HexValue(src[2 * k + 1])
      {
        assert r.value[k] == rest[k - 1];
        assert tail[2 * (k - 1)] == src[2 * k];
        assert tail[2 * (k - 1) + 1] == src[2 * k + 1];
      }
    }
  }

  /** The index of the first character that is no hex digit, or `|src|`. */
  function FirstBad(src: string): (k: nat)
    ensures k <= |src|
    ensures forall j :: 0 <= j < k ==> IsHexDigit(src[j])
    ensures k < |src| ==> !IsHexDigit(src[k])
  {
    if |src| == 0 then 0
    else if !IsHexDigit(src[0]) then 0
    else
      var k := FirstBad(src[1..]);
      assert forall j :: 1 <= j < k + 1 ==> src[j] == src[1..][j - 1];
      k + 1
  }

  // ------------------------------------------------------------------ verification

  /** The callback request as the verifier reads it: its headers, and its body or the
      error reading it. */
  datatype CallbackRequest = CallbackRequest(header: Header, body: Result<string, string>)

  /** HMAC with the given hash function and key over a message. */
  type Mac = (HashAlgorithm, string, string) -> seq<Byte>

  const TimestampHeader: string := "Convoy-Timestamp"

  /** One minute, in nanoseconds. */
  const Minute: int := 60_000_000_000

  /** Seconds from 1 January of year 1 to 1 January 1970: `time.Unix` stores its
      seconds from year 1 in an `int64`, adding this to the Unix seconds. */
  const UnixToInternal: int := 62_135_596_800

  /** `time.Since(time.Unix(timestamp, 0))` in nanoseconds, for the current time
      `nowSec` seconds and `nowNsec` nanoseconds after the Unix epoch. The sum in
      `time.Unix` wraps around for timestamps near the top of the `int64` range;
      `Sub` saturates at the limits of `Duration`, which does not change whether
      the age exceeds a minute. */
  function Age(timestamp: Int64, nowSec: Int64, nowNsec: nat): int
  {
    var t := WrapInt64(timestamp + UnixToInternal);
    (nowSec + UnixToInternal - t) * 1_000_000_000 + nowNsec
  }

  datatype VerifyError =
    | BodyUnreadable(msg: string)  // "unable to read request body"
    | HexFailed(e: HexError)       // "unable to hex decode signature body"
    | TimestampInvalid             // "unable to parse signature timestamp"
    | ReplayAttack                 // "replay attack timestamp is more than a minute ago"
    | SignatureInvalid             // "signature invalid"

  /** What the HMAC is computed over: the timestamp header, a comma and the body with
      replay protection on, the body alone otherwise. */
  function MacInput(sv: SignatureVerifier, timestamp: string, body: string): string
  {
    if sv.replayAttacks then timestamp + "," + body else body
  }

  /** `VerifyCallbackSignature`: the body is read, the signature header decoded, the
      timestamp parsed and its age checked (with replay protection on), and only
      then the HMAC compared. */
  function Verify(sv: SignatureVerifier, r: CallbackRequest, nowSec: Int64, nowNsec: nat, mac: Mac)
    : (e: Option<VerifyError>)
    ensures e.None? ==>
      var ts := HeaderGet(r.header, TimestampHeader);
      && r.body.Ok?
      && HexDecode(HeaderGet(r.header, sv.header)) == Ok(mac(sv.hashFn, sv.secret, MacInput(sv, ts, r.body.value)))
      && (sv.replayAttacks ==> ParseInt(ts).Some? && Age(ParseInt(ts).value, nowSec, nowNsec) <= Minute)
  {
    match r.body
    case Err(msg) => Some(BodyUnreadable(msg))
    case Ok(body) =>
      match HexDecode(HeaderGet(r.header, sv.header))
      case Err(e) => Some(HexFailed(e))
      case Ok(signature) =>
        var ts := HeaderGet(r.header, TimestampHeader);
        if sv.replayAttacks && ParseInt(ts).None? then Some(TimestampInvalid)
        else if sv.replayAttacks && Age(ParseInt(ts).value, nowSec, nowNsec) > Minute then Some(ReplayAttack)
        else if signature != mac(sv.hashFn, sv.secret, MacInput(sv, ts, body)) then Some(SignatureInvalid)
        else None
  }

  /** A timestamp away from the top of the `int64` range is as old as the difference
      of the clocks says. */
  lemma AgeOfTimestamp(timestamp: Int64, nowSec: Int64, nowNsec: nat)
    requires timestamp <= MaxInt64 - UnixToInternal
    ensures Age(timestamp, nowSec, nowNsec) == (nowSec - timestamp) * 1_000_000_000 + nowNsec
  {
  }

  /** A timestamp so large that `time.Unix` wraps around reads as far in the past,
      so it is refused as a replay. */
  lemma AgeOfWrappedTimestamp(timestamp: Int64, nowSec: Int64, nowNsec: nat)
    requires timestamp > MaxInt64 - UnixToInternal
    requires nowSec >= 0
    ensures Age(timestamp, nowSec, nowNsec) > Minute
  {
    assert WrapInt64(timestamp + UnixToInternal) == timestamp + UnixToInternal - 0x1_0000_0000_0000_0000;
  }

  /** The order of the checks: an unreadable body first, then a signature header
      that is not hex, then (with replay protection on) an unparsable timestamp,
      then a timestamp more than a minute old; none of these depends on the HMAC.
      Otherwise the verdict is the comparison of the decoded header with the HMAC of
      the timestamp, a comma and the body (the body alone without replay
      protection). */
  lemma VerifyCases(sv: SignatureVerifier, r: CallbackRequest, nowSec: Int64, nowNsec: nat, mac: Mac)
    ensures var res, hex, ts := Verify(sv, r, nowSec, nowNsec, mac),
                               HexDecode(HeaderGet(r.header, sv.header)), HeaderGet(r.header, TimestampHeader);
      && (r.body.Err? ==> res == Some(BodyUnreadable(r.body.error)))
      && (r.body.Ok? && hex.Err? ==> res == Some(HexFailed(hex.error)))
      && (r.body.Ok? && hex.Ok? && sv.replayAttacks && ParseInt(ts).None? ==> res == Some(TimestampInvalid))
      && (r.body.Ok? && hex.Ok? && sv.replayAttacks && ParseInt(ts).Some? ==>
            Age(ParseInt(ts).value, nowSec, nowNsec) > Minute ==> res == Some(ReplayAttack))
      && (res == None <==>
            && r.body.Ok? && hex.Ok?
            && (sv.replayAttacks ==> ParseInt(ts).Some? && Age(ParseInt(ts).value, nowSec, nowNsec) <= Minute)
            && hex.value == mac(sv.hashFn, sv.secret, MacInput(sv, ts, r.body.value)))
      && (res == Some(SignatureInvalid) <==>
            && r.body.Ok? && hex.Ok?
            && (sv.replayAttacks ==> ParseInt(ts).Some? && Age(ParseInt(ts).value, nowSec, nowNsec) <= Minute)
            && hex.value != mac(sv.hashFn, sv.secret, MacInput(sv, ts, r.body.value)))
  {
  }

  /** A callback signed with the verifier's algorithm and secret over the same
      payload, with a fresh timestamp when replay protection is on, is accepted. */
  lemma SignThenVerify(sv: SignatureVerifier, header: Header, body: string, timestamp: Int64,
                       nowSec: Int64, nowNsec: nat, mac: Mac)
    requires sv.replayAttacks ==> HeaderGet(header, TimestampHeader) == FormatInt(timestamp)
    requires sv.replayAttacks ==> Age(timestamp, nowSec, nowNsec) <= Minute
    requires HeaderGet(header, sv.header) == HexEncode(mac(sv.hashFn, sv.secret, MacInput(sv, HeaderGet(header, TimestampHeader), body)))
    ensures Verify(sv, CallbackRequest(header, Ok(body)), nowSec, nowNsec, mac) == None
  {
    HexRoundTrip(mac(sv.hashFn, sv.secret, MacInput(sv, HeaderGet(header, TimestampHeader), body)));
    if sv.replayAttacks {
      FormatParseRoundTrip(timestamp);
    }
  }
}
