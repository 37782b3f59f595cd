/** The browser build of the half-hash claims (browser/helpers/oidc-token-hash.js):
    the digest comes from WebCrypto, is turned into a binary string, and the
    left half of that string is base64url-encoded. Ed448 is never available. */
module BrowserTokenHash {
  import opened Js
  import opened Errors
  import opened Base64Url
  import opened HalfHash

  const Ed448Message := "Ed448 *_hash calculation is not supported in non-Node runtimes"

  /** `getHash(alg, crv)`: the WebCrypto digest name for a JOSE `alg`. */
  function GetHash(alg: JsValue, crv: JsValue): (r: Result<DigestAlg>)
    // supported exactly for the listed algorithms, and EdDSA only on Ed25519
    ensures r.Ok? <==> alg.Str? && alg.s in JwsAlgs && (alg.s == "EdDSA" ==> crv == Str("Ed25519"))
    // the digest size is the one the algorithm's name announces; Ed25519 uses SHA-512
    ensures r.Ok? && alg.s != "EdDSA" ==> |alg.s| >= 5 && DigestLength(r.value) * 8 == NamedHashBits(alg.s)
    ensures r.Ok? && alg.s == "EdDSA" ==> r.value == Sha512
    ensures r.Ok? ==> r.value != Shake256
    // each failure is a TypeError with its own message
    ensures !(alg.Str? && alg.s in JwsAlgs) ==> r == Throw(TypeError(UnknownAlgMessage))
    ensures alg == Str("EdDSA") && crv == Str("Ed448") ==> r == Throw(TypeError(Ed448Message))
    ensures alg == Str("EdDSA") && crv != Str("Ed448") && crv != Str("Ed25519") ==>
              r == Throw(TypeError(UnknownCurveMessage))
  {
    if alg.Str? && alg.s in Sha256Family then Ok(Sha256)
    else if alg.Str? && alg.s in Sha384Family then Ok(Sha384)
    else if alg.Str? && alg.s in Sha512Family then Ok(Sha512)
    else if alg == Str("EdDSA") then
      if crv == Str("Ed25519") then Ok(Sha512)
      else if crv == Str("Ed448") then Throw(TypeError(Ed448Message))
      else Throw(TypeError(UnknownCurveMessage))
    else Throw(TypeError(UnknownAlgMessage))
  }

  /** `getHashValue(alg, crv, token)`: the digest as a binary string. */
  function GetHashValue(h: Hasher, alg: JsValue, crv: JsValue, token: JsValue): (r: Result<string>)
    ensures r.Ok? <==> GetHash(alg, crv).Ok?
    ensures r.Throw? ==> r.thrown == GetHash(alg, crv).thrown
    // one character per digest octet, so the length is the digest's byte length
    ensures r.Ok? ==> IsBinaryString(r.value) && |r.value| == DigestLength(GetHash(alg, crv).value)
    ensures r.Ok? ==> CharCodes(r.value) == h(GetHash(alg, crv).value, ArgumentText(token))
  {
    match GetHash(alg, crv)
    case Ok(d) => Ok(BinaryString(h(d, ArgumentText(token))))
    case Throw(e) => Throw(e)
  }

  /** `generate(token, alg, crv)`: it fails exactly when `getHash` does,
      with its error, and otherwise encodes the left half of the digest as
      the OpenID Connect half-hash rule prescribes. */
  function Generate(h: Hasher, token: JsValue, alg: JsValue, crv: JsValue): (r: Result<string>)
    ensures r.Ok? <==> GetHash(alg, crv).Ok?
    ensures GetHash(alg, crv).Throw? ==> r == Throw(GetHash(alg, crv).thrown)
    ensures GetHash(alg, crv).Ok? ==> r == Ok(ClaimValue(h, GetHash(alg, crv).value, ArgumentText(token)))
  {
    match GetHashValue(h, alg, crv, token)
    case Ok(digest) =>
      var d := h(GetHash(alg, crv).value, ArgumentText(token));
      assert LeftHalf(digest) == BinaryString(LeftHalf(d));
      CharCodesOfBinaryString(LeftHalf(d));
      Encode(Text(LeftHalf(digest)))
    case Throw(e) => Throw(e)
  }

  /** The claim has 22, 32 or 43 characters for the 256, 384 and 512 families. */
  lemma GenerateLength(h: Hasher, token: JsValue, alg: JsValue, crv: JsValue)
    requires Generate(h, token, alg, crv).Ok?
    ensures |Generate(h, token, alg, crv).value|
            == match GetHash(alg, crv).value case Sha256 => 22 case Sha384 => 32 case _ => 43
  {
    ClaimValueLength(h, GetHash(alg, crv).value, ArgumentText(token));
  }

  /** `validate(names, actual, source, alg, crv)`, with its final comparison
      corrected so that a failed generation is never accepted: past the
      guards it succeeds exactly when `actual` is the claim value of
      `source`, and otherwise the error names the claim. */
  function Validate(h: Hasher, names: Names, actual: JsValue, source: JsValue, alg: JsValue, crv: JsValue): (r: Result<()>)
    // the guard chain runs first, whatever the algorithm
    ensures Guard(names, actual, source).Throw? ==> r == Guard(names, actual, source)
    ensures Guard(names, actual, source).Ok? ==>
              (r.Ok? <==> GetHash(alg, crv).Ok?
                          && actual == Str(ClaimValue(h, GetHash(alg, crv).value, ArgumentText(source))))
    ensures Guard(names, actual, source).Ok? && GetHash(alg, crv).Throw? ==>
              r == Throw(Error(names.claim.s + " could not be validated (" + GetHash(alg, crv).thrown.Message() + ")"))
    ensures Guard(names, actual, source).Ok? && GetHash(alg, crv).Ok?
            && actual != Str(ClaimValue(h, GetHash(alg, crv).value, ArgumentText(source))) ==>
              r == Throw(Error(names.claim.s + " mismatch, expected "
                               + ClaimValue(h, GetHash(alg, crv).value, ArgumentText(source)) + ", got: " + ToText(actual)))
  {
    match Guard(names, actual, source)
    case Throw(e) => Throw(e)
    case Ok(_) => Conclude(names.claim.s, actual, Generate(h, source, alg, crv))
  }

  /** `validate` exactly as written: it agrees with the corrected version
      except that an undefined `actual` passes when generation fails. */
  function ValidateAsWritten(h: Hasher, names: Names, actual: JsValue, source: JsValue, alg: JsValue, crv: JsValue): (r: Result<()>)
    ensures Guard(names, actual, source).Throw? ==> r == Guard(names, actual, source)
    ensures Guard(names, actual, source).Ok? && GetHash(alg, crv).Throw? && actual == Undefined ==> r == Ok(())
    ensures !(Guard(names, actual, source).Ok? && GetHash(alg, crv).Throw? && actual == Undefined) ==>
              r == Validate(h, names, actual, source, alg, crv)
  {
    match Guard(names, actual, source)
    case Throw(e) => Throw(e)
    case Ok(_) => ConcludeAsWritten(names.claim.s, actual, Generate(h, source, alg, crv))
  }

  /** A claim generated from a token validates against that token. */
  lemma ValidateGenerated(h: Hasher, names: Names, token: string, alg: JsValue, crv: JsValue)
    requires NonEmptyString(names.claim) && NonEmptyString(names.source)
    requires Generate(h, Str(token), alg, crv).Ok?
    ensures Validate(h, names, Str(Generate(h, Str(token), alg, crv).value), Str(token), alg, crv) == Ok(())
  {
  }

  /** As written, an absent claim passes when the algorithm is unsupported,
      although with a supported algorithm it is reported as a mismatch. */
  lemma AbsentClaimPassesAsWritten(h: Hasher)
    ensures ValidateAsWritten(h, Names(Str("at_hash"), Str("access_token")), Undefined, Str("token"), Str("none"), Undefined)
            == Ok(())
    ensures Validate(h, Names(Str("at_hash"), Str("access_token")), Undefined, Str("token"), Str("none"), Undefined)
            == Throw(Error("at_hash" + " could not be validated (" + UnknownAlgMessage + ")"))
    ensures ValidateAsWritten(h, Names(Str("at_hash"), Str("access_token")), Undefined, Str("token"), Str("RS256"), Undefined).Throw?
  {
    assert "none" !in JwsAlgs;
    assert "RS256" in Sha256Family;
    var names := Names(Str("at_hash"), Str("access_token"));
    assert Guard(names, Undefined, Str("token")) == Ok(());
    assert GetHash(Str("none"), Undefined) == Throw(TypeError(UnknownAlgMessage));
    assert Generate(h, Str("token"), Str("none"), Undefined) == Throw(TypeError(UnknownAlgMessage));
  }
}
