/**
 * jsonwebtoken's `sign` and `verify` for an HMAC key, on a compact encoding of
 * the claims. A token is the text `<id>:<iat>:<exp>.<signature>`; the signature
 * stands for the HMAC of the payload under the key and is modelled as a string
 * injective in the key and the payload (that it also hides the key is not
 * modelled). Times are whole seconds, as in the `iat` and `exp` claims.
 */
module Jwt {
  import opened Wrappers
  import opened Text

  datatype Claims = Claims(id: nat, iat: nat, exp: nat)

  /** Why `verify` throws. The middleware reports all of them alike. */
  datatype Failure = Missing | Malformed | BadSignature | Expired

  datatype Verdict = Verified(claims: Claims) | Rejected(reason: Failure)

  function Payload(c: Claims): string {
    Digits(c.id) + ":" + Digits(c.iat) + ":" + Digits(c.exp)
  }

  function Signature(key: string, payload: string): string {
    key + "/" + payload
  }

  /** `jwt.sign(claims, key)`. */
  function Sign(c: Claims, key: string): string {
    Payload(c) + "." + Signature(key, Payload(c))
  }

  /** Reads the claims, the payload text and the signature text out of a token. */
  function Decode(token: string): Option<(Claims, string, string)> {
    match CutAt(token, '.')
    case None => None
    case Some((payload, signature)) =>
      var parts := Split(payload, ':');
      if |parts| == 3 && parts[0] != [] && parts[1] != [] && parts[2] != []
         && AllDigits(parts[0]) && AllDigits(parts[1]) && AllDigits(parts[2])
      then Some((Claims(ParseNat(parts[0]), ParseNat(parts[1]), ParseNat(parts[2])), payload, signature))
      else None
  }

  /**
   * `jwt.verify(token, key)` at clock time `now`: a missing or empty token, a
   * token that does not decode, a signature that is not the key's signature of
   * the payload, and a token at or past its `exp` are all rejected.
   */
  function Verify(token: Option<string>, key: string, now: nat): (v: Verdict)
    ensures v.Verified? ==> token.Some? && now < v.claims.exp
  {
    if token.None? || token.value == "" then Rejected(Missing)
    else match Decode(token.value)
      case None => Rejected(Malformed)
      case Some((c, payload, signature)) =>
        if signature != Signature(key, payload) then Rejected(BadSignature)
        else if now >= c.exp then Rejected(Expired)
        else Verified(c)
  }

  lemma PayloadNoDot(c: Claims)
    ensures '.' !in Payload(c) && ' ' !in Payload(c)
  {
    DigitsHaveNo(c.id, '.');
    DigitsHaveNo(c.iat, '.');
    DigitsHaveNo(c.exp, '.');
    DigitsHaveNo(c.id, ' ');
    DigitsHaveNo(c.iat, ' ');
    DigitsHaveNo(c.exp, ' ');
  }

  /** The payload splits at its colons into the three numbers' digits. */
  lemma SplitPayload(c: Claims)
    ensures Split(Payload(c), ':') == [Digits(c.id), Digits(c.iat), Digits(c.exp)]
  {
    DigitsHaveNo(c.id, ':');
    DigitsHaveNo(c.iat, ':');
    DigitsHaveNo(c.exp, ':');
    SplitNoSep(Digits(c.exp), ':');
    var tail := Digits(c.iat) + ":" + Digits(c.exp);
    assert tail == Digits(c.iat) + [':'] + Digits(c.exp);
    SplitFirst(Digits(c.iat), ':', Digits(c.exp));
    assert Payload(c) == Digits(c.id) + [':'] + tail;
    SplitFirst(Digits(c.id), ':', tail);
  }

  /** Decoding a signed token gives back its claims, its payload and its signature. */
  lemma DecodeSign(c: Claims, key: string)
    ensures Decode(Sign(c, key)) == Some((c, Payload(c), Signature(key, Payload(c))))
  {
    var p := Payload(c);
    PayloadNoDot(c);
    assert Sign(c, key) == p + ['.'] + Signature(key, p);
    CutAtFirst(p, '.', Signature(key, p));
    SplitPayload(c);
    ParseDigits(c.id);
    ParseDigits(c.iat);
    ParseDigits(c.exp);
  }

  /** A token signed with the verifying key is accepted until its expiry and rejected from then on. */
  lemma VerifySign(c: Claims, key: string, now: nat)
    ensures Verify(Some(Sign(c, key)), key, now) == if now < c.exp then Verified(c) else Rejected(Expired)
  {
    DecodeSign(c, key);
  }

  lemma SignatureKeyInjective(k1: string, k2: string, p: string)
    requires k1 != k2
    ensures Signature(k1, p) != Signature(k2, p)
  {
    if |k1| == |k2| {
      var i :| 0 <= i < |k1| && k1[i] != k2[i];
      assert Signature(k1, p)[i] == k1[i] && Signature(k2, p)[i] == k2[i];
    } else {
      assert |Signature(k1, p)| != |Signature(k2, p)|;
    }
  }

  /** A token signed with any other key is rejected for its signature. */
  lemma VerifyOtherKey(c: Claims, signer: string, key: string, now: nat)
    requires signer != key
    ensures Verify(Some(Sign(c, signer)), key, now) == Rejected(BadSignature)
  {
    DecodeSign(c, signer);
    SignatureKeyInjective(signer, key, Payload(c));
  }

  /** A signed token contains no space, so it survives being sent as `Bearer <token>`. */
  lemma SignNoSpace(c: Claims, key: string)
    requires ' ' !in key
    ensures ' ' !in Sign(c, key)
  {
    PayloadNoDot(c);
  }
}
