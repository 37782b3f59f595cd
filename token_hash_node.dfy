/** The Node build of the half-hash claims (lib/helpers/oidc-token-hash.js).
    At load time the module picks one of two branches: when a global WebCrypto
    `crypto` exists it uses the same digest table as the browser build and a
    binary-string digest; otherwise it uses Node's `crypto.createHash`, which
    returns an octet buffer and also offers shake256 for Ed448 on runtimes
    that support an output length. */
module NodeTokenHash {
  import opened Js
  import opened Errors
  import opened Base64Url
  import opened HalfHash
  import BrowserTokenHash

  /** The branch taken at load time; `shake256` is the capability flag
      computed from the Node version and `crypto.getHashes()`. */
  datatype Runtime = WebCrypto | NodeCrypto(shake256: bool)

  const Ed448Message := "Ed448 *_hash calculation is not supported in your Node.js runtime version"

  /** The TypeError of `hash.update(data)` for data that is neither a string
      nor a buffer. */
  const UpdateArgMessage :=
    "The \"data\" argument must be of type string or an instance of Buffer, TypedArray, or DataView."

  /** `getHash(alg, crv)` of the Node branch: the digest `crypto.createHash` builds. */
  function GetHash(shake256: bool, alg: JsValue, crv: JsValue): (r: Result<DigestAlg>)
    // supported exactly for the listed algorithms; EdDSA on Ed25519, or on Ed448 where shake256 exists
    ensures r.Ok? <==>
              alg.Str? && alg.s in JwsAlgs
              && (alg.s == "EdDSA" ==> crv == Str("Ed25519") || (crv == Str("Ed448") && shake256))
    ensures r.Ok? && alg.s != "EdDSA" ==> |alg.s| >= 5 && DigestLength(r.value) * 8 == NamedHashBits(alg.s)
    ensures r.Ok? && alg.s == "EdDSA" ==> r.value == if crv == Str("Ed25519") then Sha512 else Shake256
    ensures !(alg.Str? && alg.s in JwsAlgs) ==> r == Throw(TypeError(UnknownAlgMessage))
    ensures alg == Str("EdDSA") && crv == Str("Ed448") && !shake256 ==> r == Throw(TypeError(Ed448Message))
    ensures alg == Str("EdDSA") && crv != Str("Ed448") && crv != Str("Ed25519") ==>
              r == Throw(TypeError(UnknownCurveMessage))
  {
    if alg.Str? && alg.s in Sha256Family then Ok(Sha256)
    else if alg.Str? && alg.s in Sha384Family then Ok(Sha384)
    else if alg.Str? && alg.s in Sha512Family then Ok(Sha512)
    else if alg == Str("EdDSA") then
      if crv == Str("Ed25519") then Ok(Sha512)
      else if crv == Str("Ed448") then
        if !shake256 then Throw(TypeError(Ed448Message)) else Ok(Shake256)
      else Throw(TypeError(UnknownCurveMessage))
    else Throw(TypeError(UnknownAlgMessage))
  }

  /** The digest the runtime's branch selects. */
  function SelectedDigest(rt: Runtime, alg: JsValue, crv: JsValue): Result<DigestAlg>
  {
    match rt
    case WebCrypto => BrowserTokenHash.GetHash(alg, crv)
    case NodeCrypto(shake256) => GetHash(shake256, alg, crv)
  }

  /** The text whose octets are digested: the Node branch's `update` takes a
      string as is; WebCrypto's `TextEncoder` converts any value. */
  function DigestedText(rt: Runtime, token: JsValue): string
  {
    if rt.WebCrypto? then ArgumentText(token) else if token.Str? then token.s else ""
  }

  /** `getHashValue(alg, crv, token)`: a binary string on the WebCrypto branch,
      an octet buffer on the Node branch, where `update` accepts only a
      string token. The algorithm is looked up before the token is read. */
  function GetHashValue(h: Hasher, rt: Runtime, alg: JsValue, crv: JsValue, token: JsValue): (r: Result<EncodeInput>)
    ensures r.Ok? <==> SelectedDigest(rt, alg, crv).Ok? && (rt.NodeCrypto? ==> token.Str?)
    ensures SelectedDigest(rt, alg, crv).Throw? ==> r == Throw(SelectedDigest(rt, alg, crv).thrown)
    ensures SelectedDigest(rt, alg, crv).Ok? && rt.NodeCrypto? && !token.Str? ==> r == Throw(TypeError(UpdateArgMessage))
    // the digest of the text, as a binary string or as octets
    ensures r.Ok? ==>
              var d := h(SelectedDigest(rt, alg, crv).value, DigestedText(rt, token));
              r.value == if rt.WebCrypto? then Text(BinaryString(d)) else ByteArray(d)
  {
    match rt
    case WebCrypto =>
      (match BrowserTokenHash.GetHashValue(h, alg, crv, token)
       case Ok(s) => Ok(Text(s))
       case Throw(e) => Throw(e))
    case NodeCrypto(shake256) =>
      match GetHash(shake256, alg, crv)
      case Ok(d) => if token.Str? then Ok(ByteArray(h(d, token.s))) else Throw(TypeError(UpdateArgMessage))
      case Throw(e) => Throw(e)
  }

  /** `digest.slice(0, digest.length / 2)` on either kind of digest. */
  function SliceHalf(digest: EncodeInput): EncodeInput
  {
    match digest
    case ByteArray(b) => ByteArray(LeftHalf(b))
    case Text(s) => Text(LeftHalf(s))
  }

  /** `generate(token, alg, crv)`: on either branch it fails when the
      algorithm is not supported there (or, on the Node branch, when the
      token is not a string), and otherwise yields the OpenID Connect
      half-hash claim value of the digested text. */
  function Generate(h: Hasher, rt: Runtime, token: JsValue, alg: JsValue, crv: JsValue): (r: Result<string>)
    ensures r.Ok? <==> SelectedDigest(rt, alg, crv).Ok? && (rt.NodeCrypto? ==> token.Str?)
    ensures r.Throw? ==> r == Throw(GetHashValue(h, rt, alg, crv, token).thrown)
    ensures r.Ok? ==> r == Ok(ClaimValue(h, SelectedDigest(rt, alg, crv).value, DigestedText(rt, token)))
  {
    match GetHashValue(h, rt, alg, crv, token)
    case Ok(digest) =>
      var d := h(SelectedDigest(rt, alg, crv).value, DigestedText(rt, token));
      assert LeftHalf(BinaryString(d)) == BinaryString(LeftHalf(d));
      CharCodesOfBinaryString(LeftHalf(d));
      Encode(SliceHalf(digest))
    case Throw(e) => Throw(e)
  }

  /** The claim has 22, 32, 43 or 76 characters: the base64url length of 16,
      24, 32 or 57 octets, half of a 32, 48, 64 or 114-octet digest. */
  lemma GenerateLength(h: Hasher, rt: Runtime, token: JsValue, alg: JsValue, crv: JsValue)
    requires Generate(h, rt, token, alg, crv).Ok?
    ensures |Generate(h, rt, token, alg, crv).value|
            == match SelectedDigest(rt, alg, crv).value
               case Sha256 => 22 case Sha384 => 32 case Sha512 => 43 case Shake256 => 76
  {
    ClaimValueLength(h, SelectedDigest(rt, alg, crv).value, DigestedText(rt, token));
  }

  /** The WebCrypto branch of the Node build computes what the browser build does. */
  lemma WebCryptoBranchIsBrowser(h: Hasher, token: JsValue, alg: JsValue, crv: JsValue)
    ensures Generate(h, WebCrypto, token, alg, crv) == BrowserTokenHash.Generate(h, token, alg, crv)
  {
  }

  /** Away from EdDSA with Ed448, both branches look up the same digest. */
  lemma GetHashAgrees(shake256: bool, alg: JsValue, crv: JsValue)
    requires !(alg == Str("EdDSA") && crv == Str("Ed448"))
    ensures GetHash(shake256, alg, crv) == BrowserTokenHash.GetHash(alg, crv)
  {
  }

  /** For a string token the two branches agree on every algorithm except
      EdDSA with Ed448, which only the Node branch with shake256 supports. */
  lemma BranchesAgree(h: Hasher, shake256: bool, token: string, alg: JsValue, crv: JsValue)
    requires !(alg == Str("EdDSA") && crv == Str("Ed448"))
    ensures Generate(h, NodeCrypto(shake256), Str(token), alg, crv) == Generate(h, WebCrypto, Str(token), alg, crv)
  {
    GetHashAgrees(shake256, alg, crv);
    assert SelectedDigest(NodeCrypto(shake256), alg, crv) == SelectedDigest(WebCrypto, alg, crv);
    assert DigestedText(NodeCrypto(shake256), Str(token)) == DigestedText(WebCrypto, Str(token)) == token;
  }

  /** Ed448 is supported exactly on the Node branch with shake256, with a
      114-octet digest whose 57-octet half is encoded. */
  lemma Ed448Support(h: Hasher, rt: Runtime, token: string)
    ensures Generate(h, rt, Str(token), Str("EdDSA"), Str("Ed448")).Ok? <==> rt == NodeCrypto(true)
    ensures rt == NodeCrypto(true) ==>
              Generate(h, rt, Str(token), Str("EdDSA"), Str("Ed448")) == Ok(ClaimValue(h, Shake256, token))
              && |LeftHalf(h(Shake256, token))| == 57
  {
    ClaimValueLength(h, Shake256, token);
  }

  /** `validate(names, actual, source, alg, crv)`, with its final comparison
      corrected so that a failed generation is never accepted: past the
      guards it succeeds exactly when generation succeeds and `actual` is the
      generated claim value, and a failed generation is reported as
      "<claim> could not be validated (<cause>)". */
  function Validate(h: Hasher, rt: Runtime, names: Names, actual: JsValue, source: JsValue, alg: JsValue, crv: JsValue): (r: Result<()>)
    ensures Guard(names, actual, source).Throw? ==> r == Guard(names, actual, source)
    ensures Guard(names, actual, source).Ok? ==>
              (r.Ok? <==> Generate(h, rt, source, alg, crv).Ok? && actual == Str(Generate(h, rt, source, alg, crv).value))
    ensures Guard(names, actual, source).Ok? && Generate(h, rt, source, alg, crv).Throw? ==>
              r == Throw(Error(names.claim.s + " could not be validated ("
                               + Generate(h, rt, source, alg, crv).thrown.Message() + ")"))
    ensures Guard(names, actual, source).Ok? && Generate(h, rt, source, alg, crv).Ok?
            && actual != Str(Generate(h, rt, source, alg, crv).value) ==>
              r == Throw(Error(names.claim.s + " mismatch, expected "
                               + Generate(h, rt, source, alg, crv).value + ", got: " + ToText(actual)))
  {
    match Guard(names, actual, source)
    case Throw(e) => Throw(e)
    case Ok(_) => Conclude(names.claim.s, actual, Generate(h, rt, source, alg, crv))
  }

  /** `validate` exactly as written: it agrees with the corrected version
      except that an undefined `actual` passes when generation fails. */
  function ValidateAsWritten(h: Hasher, rt: Runtime, names: Names, actual: JsValue, source: JsValue, alg: JsValue, crv: JsValue): (r: Result<()>)
    ensures Guard(names, actual, source).Throw? ==> r == Guard(names, actual, source)
    ensures Guard(names, actual, source).Ok? && Generate(h, rt, source, alg, crv).Throw? && actual == Undefined ==>
              r == Ok(())
    ensures !(Guard(names, actual, source).Ok? && Generate(h, rt, source, alg, crv).Throw? && actual == Undefined) ==>
              r == Validate(h, rt, names, actual, source, alg, crv)
  {
    match Guard(names, actual, source)
    case Throw(e) => Throw(e)
    case Ok(_) => ConcludeAsWritten(names.claim.s, actual, Generate(h, rt, source, alg, crv))
  }

  /** A claim generated from a token validates against that token. */
  lemma ValidateGenerated(h: Hasher, rt: Runtime, names: Names, token: string, alg: JsValue, crv: JsValue)
    requires NonEmptyString(names.claim) && NonEmptyString(names.source)
    requires Generate(h, rt, Str(token), alg, crv).Ok?
    ensures Validate(h, rt, names, Str(Generate(h, rt, Str(token), alg, crv).value), Str(token), alg, crv) == Ok(())
  {
  }

  /** On the Node branch a falsy non-string source (say `null`) passes the
      guards but makes `update` throw, so the claim cannot be validated. */
  lemma NullSourceCannotBeValidated(h: Hasher, shake256: bool, names: Names, actual: string)
    requires NonEmptyString(names.claim) && NonEmptyString(names.source)
    ensures Validate(h, NodeCrypto(shake256), names, Str(actual), Null, Str("RS256"), Undefined)
            == Throw(Error(names.claim.s + " could not be validated (" + UpdateArgMessage + ")"))
  {
    assert "RS256" in Sha256Family;
  }
}
