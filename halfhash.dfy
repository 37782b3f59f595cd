/** What the Node and browser variants of oidc-token-hash.js share: the digest
    algorithms a JOSE `alg` can select, the left-half truncation that the
    `at_hash`, `c_hash` and `s_hash` claims use (OpenID Connect Core 1.0,
    section 3.1.3.6), and the guard chain and final comparison of `validate`.
    The digests themselves are not computed: a `Hasher` is any function that
    returns an output of the algorithm's fixed length. */
module HalfHash {
  import opened Js
  import opened Errors
  import opened Base64Url

  datatype DigestAlg =
    | Sha256
    | Sha384
    | Sha512
    /** shake256 with a 114-octet output, as Node computes it for Ed448 */
    | Shake256

  /** Output length in octets; every selectable digest has an even length,
      so the left half is exactly half of it. */
  function DigestLength(d: DigestAlg): (n: nat)
    ensures n > 0 && n % 2 == 0
  {
    match d
    case Sha256 => 32
    case Sha384 => 48
    case Sha512 => 64
    case Shake256 => 114
  }

  /** A digest function: the octets of the UTF-8 encoding of the text, hashed
      with the given algorithm. Only its output length is known. */
  type Hasher = h: (DigestAlg, string) -> seq<byte> | forall d, t :: |h(d, t)| == DigestLength(d)
    witness (d: DigestAlg, t: string) => seq(DigestLength(d), _ => 0)

  /** The JWS algorithms of each SHA-2 size. */
  const Sha256Family: set<string> := {"HS256", "RS256", "PS256", "ES256", "ES256K"}
  const Sha384Family: set<string> := {"HS384", "RS384", "PS384", "ES384"}
  const Sha512Family: set<string> := {"HS512", "RS512", "PS512", "ES512"}

  /** Every `alg` value the switch knows. */
  const JwsAlgs: set<string> := Sha256Family + Sha384Family + Sha512Family + {"EdDSA"}

  const UnknownAlgMessage := "unrecognized or invalid JWS algorithm provided"
  const UnknownCurveMessage := "unrecognized or invalid EdDSA curve provided"

  /** The hash size written in a JWS algorithm name: the three digits after
      its two-letter prefix (RFC 7518, section 3.1), so `RS384` names 384. */
  function NamedHashBits(alg: string): nat
    requires |alg| >= 5
  {
    var digit := (c: char) => if '0' <= c <= '9' then c as int - '0' as int else 0;
    digit(alg[2]) * 100 + digit(alg[3]) * 10 + digit(alg[4])
  }

  /** `digest.slice(0, digest.length / 2)`; `slice` truncates a fractional end. */
  function LeftHalf<T>(d: seq<T>): (r: seq<T>)
    ensures |r| <= |d| && (|d| % 2 == 0 ==> |r| * 2 == |d|)
    ensures forall i :: 0 <= i < |r| ==> r[i] == d[i]
  {
    d[..|d| / 2]
  }

  /** The claim value that OpenID Connect Core 1.0, section 3.1.3.6 defines:
      base64url of the left-most half of the digest of the token's octets. */
  function ClaimValue(h: Hasher, d: DigestAlg, text: string): string
  {
    Base64UrlNoPad(LeftHalf(h(d, text)))
  }

  /** The claim value has ceil(4n/3) characters for an n-octet half digest:
      22, 32, 43 and 76 for SHA-256, SHA-384, SHA-512 and shake256/114. */
  lemma ClaimValueLength(h: Hasher, d: DigestAlg, text: string)
    ensures |LeftHalf(h(d, text))| * 2 == DigestLength(d)
    ensures |ClaimValue(h, d, text)| == (2 * DigestLength(d) + 2) / 3
    ensures |ClaimValue(h, d, text)| == match d case Sha256 => 22 case Sha384 => 32 case Sha512 => 43 case Shake256 => 76
    ensures forall i :: 0 <= i < |ClaimValue(h, d, text)| ==> IsUrlChar(ClaimValue(h, d, text)[i])
  {
    Base64UrlNoPadShape(LeftHalf(h(d, text)));
  }

  /** Two claim values are equal exactly when the half digests are. */
  lemma ClaimValueDeterminesHalf(h: Hasher, d: DigestAlg, t: string, d': DigestAlg, t': string)
    ensures ClaimValue(h, d, t) == ClaimValue(h, d', t') <==> LeftHalf(h(d, t)) == LeftHalf(h(d', t'))
  {
    if ClaimValue(h, d, t) == ClaimValue(h, d', t') {
      Base64UrlNoPadInjective(LeftHalf(h(d, t)), LeftHalf(h(d', t')));
    }
  }

  /** The labels `validate` puts in its messages, e.g. `at_hash` / `access_token`. */
  datatype Names = Names(claim: JsValue, source: JsValue)

  /** `typeof x !== 'string' && x`: a truthy value that is not a string. */
  predicate TruthyNonString(v: JsValue)
  {
    !v.Str? && Truthy(v)
  }

  /** The guards of `validate`, before any hashing. */
  function Guard(names: Names, actual: JsValue, source: JsValue): (r: Result<()>)
    ensures r.Ok? <==>
              NonEmptyString(names.claim) && NonEmptyString(names.source)
              && !TruthyNonString(actual) && !TruthyNonString(source)
    ensures !NonEmptyString(names.claim) ==>
              r == Throw(TypeError("names.claim must be a non-empty string"))
    ensures NonEmptyString(names.claim) && !NonEmptyString(names.source) ==>
              r == Throw(TypeError("names.source must be a non-empty string"))
    ensures NonEmptyString(names.claim) && NonEmptyString(names.source) && TruthyNonString(actual) ==>
              r == Throw(Error(names.claim.s + " must be a non-empty string"))
    ensures NonEmptyString(names.claim) && NonEmptyString(names.source) && !TruthyNonString(actual)
            && TruthyNonString(source) ==>
              r == Throw(Error(names.source.s + " must be a non-empty string"))
  {
    if !NonEmptyString(names.claim) then Throw(TypeError("names.claim must be a non-empty string"))
    else if !NonEmptyString(names.source) then Throw(TypeError("names.source must be a non-empty string"))
    else if TruthyNonString(actual) then Throw(Error(names.claim.s + " must be a non-empty string"))
    else if TruthyNonString(source) then Throw(Error(names.source.s + " must be a non-empty string"))
    else Ok(())
  }

  /** The end of `validate` as written: a failed generation leaves `expected`
      undefined, and `expected !== actual` then lets an undefined `actual` pass. */
  function ConcludeAsWritten(claim: string, actual: JsValue, expected: Result<string>): (r: Result<()>)
    // it accepts a matching claim, and an undefined one whenever generation failed
    ensures r.Ok? <==> (expected.Ok? && actual == Str(expected.value)) || (expected.Throw? && actual == Undefined)
    // on every other input it ends as the corrected comparison does
    ensures !(expected.Throw? && actual == Undefined) ==> r == Conclude(claim, actual, expected)
  {
    match expected
    case Ok(e) =>
      if actual == Str(e) then Ok(()) else Throw(Error(claim + " mismatch, expected " + e + ", got: " + ToText(actual)))
    case Throw(err) =>
      if actual == Undefined then Ok(())
      else Throw(Error(claim + " could not be validated (" + err.Message() + ")"))
  }

  /** The end of `validate` as evidently intended: it succeeds only when a
      claim value was generated and equals `actual`. */
  function Conclude(claim: string, actual: JsValue, expected: Result<string>): (r: Result<()>)
    ensures r.Ok? <==> expected.Ok? && actual == Str(expected.value)
    ensures expected.Ok? && actual != Str(expected.value) ==>
              r == Throw(Error(claim + " mismatch, expected " + expected.value + ", got: " + ToText(actual)))
    ensures expected.Throw? ==>
              r == Throw(Error(claim + " could not be validated (" + expected.thrown.Message() + ")"))
  {
    match expected
    case Ok(e) =>
      if actual == Str(e) then Ok(()) else Throw(Error(claim + " mismatch, expected " + e + ", got: " + ToText(actual)))
    case Throw(err) =>
      Throw(Error(claim + " could not be validated (" + err.Message() + ")"))
  }
}
