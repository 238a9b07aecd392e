/**
 Blind-RSA session tokens (sections 4.2 to 4.4 of RFC 9474), the client half in `token.ts`:
 blinding a token input, unblinding and checking the issuer's answer, and the token bytes.
 The issuer is modelled by what it does to a request: raise it to its private exponent.
 */
module BlindToken {
  import opened Numbers
  import opened Octets
  import opened Pss
  import opened Results

  const NONCE_LEN := 32
  const CHALLENGE_DIGEST_LEN := 32
  const TOKEN_KEY_ID_LEN := 32
  const TOKEN_INPUT_LEN := 98
  const AUTHENTICATOR_LEN := 256
  const TOKEN_LEN := 354
  const MOD_BITS := 2048

  datatype IssuerPublicKey = IssuerPublicKey(n: nat, e: nat, keyId: Bytes)

  datatype TokenClientState = TokenClientState(
    rInv: nat, tokenInput: Bytes, nonce: Bytes, challengeDigest: Bytes, tokenKeyId: Bytes)

  datatype Token = Token(nonce: Bytes, challengeDigest: Bytes, tokenKeyId: Bytes, authenticator: Bytes)

  datatype TokenError = Encoding | NotCoprime | TooLarge | WrongSize | DoesNotVerify

  /** `token_type || nonce || challenge_digest || token_key_id`. */
  function TokenInput(nonce: Bytes, challengeDigest: Bytes, tokenKeyId: Bytes): Bytes {
    [0x00, 0x02] + nonce + challengeDigest + tokenKeyId
  }

  /** The encoded message of a token input, as the integer that gets signed. */
  function Message(scheme: Scheme, tokenInput: Bytes, salt: Bytes): nat
    requires Encodable(MOD_BITS - 1, |salt|)
  {
    Value(Pss.Encoding(scheme, tokenInput, MOD_BITS - 1, salt))
  }

  /** `m * r^e mod n`. */
  function Blinded(m: nat, r: nat, pk: IssuerPublicKey): nat
    requires pk.n > 0
  {
    (m * PowMod(r, pk.e, pk.n)) % pk.n
  }

  /** `blind_sig * r^-1 mod n`. */
  function Unblinded(signature: nat, rInv: nat, pk: IssuerPublicKey): nat
    requires pk.n > 0
  {
    (signature * rInv) % pk.n
  }

  method BlindToken(hash: Hash, pk: IssuerPublicKey, challengeDigest: Bytes, nonce: Bytes, salt: Bytes, blind: nat)
      returns (r: Result<(Bytes, TokenClientState), TokenError>)
    requires pk.n > 0
    ensures r.Ok? <==>
      && Encodable(MOD_BITS - 1, |salt|) && Coprime(blind, pk.n)
      && Blinded(Message(Mgf1Scheme(hash), TokenInput(nonce, challengeDigest, pk.keyId), salt), blind, pk)
         < Pow(256, AUTHENTICATOR_LEN)
    ensures r.Ok? ==>
      && r.value.0 == Spelling(
           Blinded(Message(Mgf1Scheme(hash), TokenInput(nonce, challengeDigest, pk.keyId), salt), blind, pk),
           AUTHENTICATOR_LEN)
      && IsInverse(blind, pk.n, r.value.1.rInv)
      && r.value.1 == TokenClientState(
           r.value.1.rInv, TokenInput(nonce, challengeDigest, pk.keyId), nonce, challengeDigest, pk.keyId)
  {
    var tokenInput := TokenInput(nonce, challengeDigest, pk.keyId);
    var em := EmsaPssEncode(hash, tokenInput, MOD_BITS - 1, salt);
    if em.Err? {
      return Err(Encoding);
    }
    var m := OctetsToInteger(em.value);
    var rInv := ModInverse(blind, pk.n);
    if rInv.Err? {
      return Err(NotCoprime);
    }
    var raised := ModPow(blind, pk.e, pk.n);
    var request := IntegerToOctets((m * raised) % pk.n, AUTHENTICATOR_LEN);
    if request.Err? {
      return Err(TooLarge);
    }
    return Ok((request.value, TokenClientState(rInv.value, tokenInput, nonce, challengeDigest, pk.keyId)));
  }

  /** What a finalized token proves: its authenticator is an RSASSA-PSS signature on its input. */
  ghost predicate SignsInput(scheme: Scheme, pk: IssuerPublicKey, tokenInput: Bytes, s: nat)
    requires pk.n > 0
  {
    && PowMod(s, pk.e, pk.n) < Pow(256, AUTHENTICATOR_LEN)
    && IsEncoding(scheme, tokenInput, Spelling(PowMod(s, pk.e, pk.n), AUTHENTICATOR_LEN), MOD_BITS - 1)
  }

  method FinalizeToken(hash: Hash, pk: IssuerPublicKey, blindSignature: Bytes, state: TokenClientState)
      returns (r: Result<Token, TokenError>)
    requires pk.n > 0
    ensures r.Ok? <==>
      var s := Unblinded(Value(blindSignature), state.rInv, pk);
      && |blindSignature| == AUTHENTICATOR_LEN && s < Pow(256, AUTHENTICATOR_LEN)
      && SignsInput(Mgf1Scheme(hash), pk, state.tokenInput, s)
    ensures r.Ok? ==>
      var s := Unblinded(Value(blindSignature), state.rInv, pk);
      r.value == Token(state.nonce, state.challengeDigest, state.tokenKeyId, Spelling(s, AUTHENTICATOR_LEN))
  {
    if |blindSignature| != AUTHENTICATOR_LEN {
      return Err(WrongSize);
    }
    var signature := OctetsToInteger(blindSignature);
    var s := (signature * state.rInv) % pk.n;
    var sig := IntegerToOctets(s, AUTHENTICATOR_LEN);
    if sig.Err? {
      return Err(TooLarge);
    }
    var recovered := ModPow(s, pk.e, pk.n);
    var em := IntegerToOctets(recovered, AUTHENTICATOR_LEN);
    if em.Err? {
      return Err(TooLarge);
    }
    var ok := EmsaPssVerify(hash, state.tokenInput, em.value, MOD_BITS - 1);
    assert em.value[..EmLen(MOD_BITS - 1)] == em.value;
    if !ok {
      return Err(DoesNotVerify);
    }
    return Ok(Token(state.nonce, state.challengeDigest, state.tokenKeyId, sig.value));
  }

  // ---- the issuer and the round trip --------------------------------------

  /** A 2048-bit RSA key: raising to `e * d` gives every residue back. */
  ghost predicate IssuerKey(pk: IssuerPublicKey, d: nat) {
    && Pow(2, MOD_BITS - 1) <= pk.n < Pow(2, MOD_BITS)
    && forall x: nat :: x < pk.n ==> Pow(x, pk.e * d) % pk.n == x
  }

  /** The issuer's answer to a blinded request. */
  function BlindSignature(request: Bytes, d: nat, pk: IssuerPublicKey): Bytes
    requires pk.n > 0
  {
    Spelling(PowMod(Value(request), d, pk.n), AUTHENTICATOR_LEN)
  }

  lemma KeyBounds(pk: IssuerPublicKey, d: nat)
    requires IssuerKey(pk, d)
    ensures 1 < pk.n < Pow(256, AUTHENTICATOR_LEN)
  {
    PowersOfTwo(AUTHENTICATOR_LEN);
    PowIncreases(2, 1, MOD_BITS - 1);
  }

  lemma RaisedTwice(x: nat, pk: IssuerPublicKey, d: nat)
    requires pk.n > 0 && forall x: nat :: x < pk.n ==> Pow(x, pk.e * d) % pk.n == x
    ensures Pow(Pow(x, pk.e), d) % pk.n == x % pk.n && Pow(Pow(x, d), pk.e) % pk.n == x % pk.n
  {
    PowMultiplies(x, pk.e, d);
    PowMultiplies(x, d, pk.e);
    assert pk.e * d == d * pk.e;
    PowOfRemainder(x, pk.e * d, pk.n);
  }

  /** A power of a product of a power: `(m * r^e)^d` modulo `n`. */
  lemma PowerOfBlinded(m: nat, r: nat, pk: IssuerPublicKey, d: nat)
    requires pk.n > 0 && forall x: nat :: x < pk.n ==> Pow(x, pk.e * d) % pk.n == x
    ensures Pow(m * Pow(r, pk.e), d) % pk.n == (Pow(m, d) * r) % pk.n
  {
    PowDistributes(m, Pow(r, pk.e), d);
    RaisedTwice(r, pk, d);
    MulCongruent(Pow(m, d), Pow(Pow(r, pk.e), d), r, pk.n);
  }

  /** The issuer's signature on the blinded message is the message's, times the blind. */
  lemma SignatureOnBlinded(m: nat, r: nat, pk: IssuerPublicKey, d: nat)
    requires IssuerKey(pk, d) && pk.n > 1
    ensures PowMod(Blinded(m, r, pk), d, pk.n) == (Pow(m, d) * r) % pk.n
  {
    var re := Pow(r, pk.e);
    PowModIsPower(r, pk.e, pk.n);
    MulModRight(m, re, pk.n);
    PowModIsPower((m * re) % pk.n, d, pk.n);
    PowOfRemainder(m * re, d, pk.n);
    PowerOfBlinded(m, r, pk, d);
  }

  /** Multiplying by the inverse of `r` removes it. */
  lemma InverseRemoves(x: int, r: nat, rInv: nat, n: nat)
    requires n > 0 && IsInverse(r, n, rInv)
    ensures (((x * r) % n) * rInv) % n == x % n
  {
    MulModRight(rInv, x * r, n);
    assert ((x * r) % n) * rInv == rInv * ((x * r) % n);
    Reassociate(rInv, x, r);
    MulCongruent(x, r * rInv, 1, n);
  }

  lemma Reassociate(a: int, x: int, r: int)
    ensures a * (x * r) == x * (r * a)
  {
    assert a * (x * r) == (x * r) * a;
  }

  /** The blinding cancels: unblinding the signature on the blinded message signs the message. */
  lemma BlindingCancels(m: nat, r: nat, rInv: nat, pk: IssuerPublicKey, d: nat)
    requires IssuerKey(pk, d) && pk.n > 1 && IsInverse(r, pk.n, rInv)
    ensures Unblinded(PowMod(Blinded(m, r, pk), d, pk.n), rInv, pk) == Pow(m, d) % pk.n
  {
    SignatureOnBlinded(m, r, pk, d);
    InverseRemoves(Pow(m, d), r, rInv, pk.n);
  }

  /** The signature of a message below the modulus recovers it exactly. */
  lemma SignatureRecovers(m: nat, pk: IssuerPublicKey, d: nat)
    requires IssuerKey(pk, d) && 1 < pk.n && m < pk.n
    ensures PowMod(Pow(m, d) % pk.n, pk.e, pk.n) == m
  {
    PowNonNegative(m, d);
    PowModIsPower(Pow(m, d) % pk.n, pk.e, pk.n);
    PowOfRemainder(Pow(m, d), pk.e, pk.n);
    RaisedTwice(m, pk, d);
    DivModUnique(m, pk.n, 0, m);
  }

  /** An encoded message is below every 2048-bit modulus, so its signature verifies. */
  lemma HonestSignatureSigns(scheme: Scheme, pk: IssuerPublicKey, d: nat, tokenInput: Bytes, salt: Bytes)
    requires IssuerKey(pk, d) && |salt| == HASH_LEN
    ensures pk.n > 1 && SignsInput(scheme, pk, tokenInput, Pow(Message(scheme, tokenInput, salt), d) % pk.n)
  {
    var em := Pss.Encoding(scheme, tokenInput, MOD_BITS - 1, salt);
    KeyBounds(pk, d);
    EncodingBound(scheme, tokenInput, MOD_BITS - 1, salt);
    SignatureRecovers(Value(em), pk, d);
    SpellingOfValue(em);
  }

  /**
   Blind, issue, finalize. For every key, input, 48-octet salt and blind coprime to the
   modulus, nothing throws, and the authenticator is the plain signature `m^d mod n`.
   */
  method Mint(hash: Hash, pk: IssuerPublicKey, d: nat, challengeDigest: Bytes, nonce: Bytes, salt: Bytes, blind: nat)
      returns (r: Result<Token, TokenError>)
    requires IssuerKey(pk, d) && |salt| == HASH_LEN && Coprime(blind, pk.n)
    ensures pk.n > 0
    ensures
      var m := Message(Mgf1Scheme(hash), TokenInput(nonce, challengeDigest, pk.keyId), salt);
      r == Ok(Token(nonce, challengeDigest, pk.keyId, Spelling(Pow(m, d) % pk.n, AUTHENTICATOR_LEN)))
  {
    KeyBounds(pk, d);
    var scheme := Mgf1Scheme(hash);
    var tokenInput := TokenInput(nonce, challengeDigest, pk.keyId);
    ghost var m := Message(scheme, tokenInput, salt);
    var blinded := BlindToken(hash, pk, challengeDigest, nonce, salt, blind);
    var (request, state) := blinded.value;
    ValueOfSpelling(Blinded(m, blind, pk), AUTHENTICATOR_LEN);
    var signature := BlindSignature(request, d, pk);
    ValueOfSpelling(PowMod(Value(request), d, pk.n), AUTHENTICATOR_LEN);
    BlindingCancels(m, blind, state.rInv, pk, d);
    HonestSignatureSigns(scheme, pk, d, tokenInput, salt);
    r := FinalizeToken(hash, pk, signature, state);
  }

  // ---- token bytes ---------------------------------------------------------

  /** The 354 bytes of a session token. */
  method Serialize(token: Token) returns (bytes: Bytes)
    requires |token.nonce| == NONCE_LEN && |token.challengeDigest| == CHALLENGE_DIGEST_LEN
    requires |token.tokenKeyId| == TOKEN_KEY_ID_LEN && |token.authenticator| == AUTHENTICATOR_LEN
    ensures |bytes| == TOKEN_LEN
    ensures bytes[..TOKEN_INPUT_LEN] == TokenInput(token.nonce, token.challengeDigest, token.tokenKeyId)
    ensures bytes[TOKEN_INPUT_LEN..] == token.authenticator
    ensures bytes[..2] == [0x00, 0x02] && bytes[2..34] == token.nonce && bytes[34..66] == token.challengeDigest
    ensures bytes[66..98] == token.tokenKeyId && bytes[98..] == token.authenticator
  {
    var out := new byte[TOKEN_LEN];
    out[0], out[1] := 0x00, 0x02;
    var o := 2;
    Put(out, token.nonce, o);
    o := o + NONCE_LEN;
    Put(out, token.challengeDigest, o);
    o := o + CHALLENGE_DIGEST_LEN;
    Put(out, token.tokenKeyId, o);
    o := o + TOKEN_KEY_ID_LEN;
    Put(out, token.authenticator, o);
    bytes := out[..];
  }

  /** The redemption serial: the hash of the token input, of well-formed tokens only. */
  function TokenSerial(sha256: Bytes -> Bytes, bytes: Bytes): Option<Bytes> {
    if |bytes| != TOKEN_LEN then None
    else if bytes[0] as int * 256 + bytes[1] as int != 0x0002 then None
    else Some(sha256(bytes[..TOKEN_INPUT_LEN]))
  }

  /** A serialized token has a serial, and its authenticator has no part in it. */
  lemma SerialOfSerialized(sha256: Bytes -> Bytes, token: Token, bytes: Bytes)
    requires |bytes| == TOKEN_LEN
    requires bytes[..TOKEN_INPUT_LEN] == TokenInput(token.nonce, token.challengeDigest, token.tokenKeyId)
    ensures TokenSerial(sha256, bytes)
            == Some(sha256(TokenInput(token.nonce, token.challengeDigest, token.tokenKeyId)))
  {
    assert bytes[0] == bytes[..TOKEN_INPUT_LEN][0] && bytes[1] == bytes[..TOKEN_INPUT_LEN][1];
  }
}
