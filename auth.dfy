/**
 * `authMiddleware`: reads the `Authorization` header, takes the token after
 * `Bearer`, verifies it with the server secret at clock time `now` and loads the
 * user it names. Calling `next()` with `req.user` set is the `Next` outcome;
 * every other outcome is a 401 reply and `next` is not called.
 */
module Auth {
  import opened Wrappers
  import opened Text
  import opened Jwt
  import opened UserModel
  import opened UserController

  /** `authHeader.split(' ')[1]`: the second space-separated piece, if there is one. */
  function BearerToken(header: string): Option<string> {
    var parts := Split(header, ' ');
    if |parts| > 1 then Some(parts[1]) else None
  }

  datatype Outcome = Reject(status: nat, message: string) | Next(user: PublicUser)

  method Authenticate(store: UserStore, header: Option<string>, now: nat) returns (r: Outcome)
    requires store.Valid()
    ensures header.None? || !StartsWith(header.value, "Bearer") ==>
              r == Reject(401, "Not Authorized, token missing")
    ensures header.Some? && StartsWith(header.value, "Bearer") ==>
              match Verify(BearerToken(header.value), JWT_SECRET, now)
              case Rejected(_) => r == Reject(401, "Token Invalid or Expired")
              case Verified(c) =>
                if c.id in store.users then r == Next(Public(store.users[c.id]))
                else r == Reject(401, "User Not Found")
    ensures r.Reject? ==> r.status == 401
    ensures r.Next? ==> r.user.id in store.users && r.user == Public(store.users[r.user.id])
  {
    if header.None? || header.value == "" || !StartsWith(header.value, "Bearer") {
      return Reject(401, "Not Authorized, token missing");
    }
    var token := BearerToken(header.value);
    var verdict := Verify(token, JWT_SECRET, now);
    if verdict.Rejected? {
      return Reject(401, "Token Invalid or Expired");
    }
    if verdict.claims.id !in store.users {
      return Reject(401, "User Not Found");
    }
    r := Next(Public(store.users[verdict.claims.id]));
  }

  lemma SecretHasNoSpace()
    ensures ' ' !in JWT_SECRET
  {
  }

  /** A header `Bearer <token>` yields the token, for any token without spaces. */
  lemma BearerTokenOf(token: string)
    requires ' ' !in token
    ensures StartsWith("Bearer " + token, "Bearer") && BearerToken("Bearer " + token) == Some(token)
  {
    assert "Bearer " + token == "Bearer" + [' '] + token;
    SplitFirst("Bearer", ' ', token);
    SplitNoSep(token, ' ');
  }

  /**
   * The prefix test does not require the space or an exact scheme: `Bearer`
   * followed by any word, a space and a token passes it and yields that token.
   */
  lemma LaxScheme(word: string, token: string)
    requires ' ' !in word && ' ' !in token
    ensures StartsWith("Bearer" + word + " " + token, "Bearer")
    ensures BearerToken("Bearer" + word + " " + token) == Some(token)
  {
    var h := "Bearer" + word + " " + token;
    assert h[..6] == "Bearer";
    assert h == ("Bearer" + word) + [' '] + token;
    SplitFirst("Bearer" + word, ' ', token);
    SplitNoSep(token, ' ');
  }

  /** `Bearer` alone passes the prefix test but carries no token, so verification fails. */
  lemma BearerAlone(now: nat)
    ensures StartsWith("Bearer", "Bearer")
    ensures BearerToken("Bearer") == None
    ensures Verify(BearerToken("Bearer"), JWT_SECRET, now) == Rejected(Missing)
  {
    SplitNoSep("Bearer", ' ');
  }

  /** The header for a token issued at `issued` is accepted for 24 hours, naming the user the token was issued to. */
  lemma IssuedTokenAccepted(id: UserId, issued: nat, now: nat)
    requires issued <= now < issued + TOKEN_EXPIRES
    ensures Verify(BearerToken("Bearer " + CreateToken(id, issued)), JWT_SECRET, now)
            == Verified(Claims(id, issued, issued + TOKEN_EXPIRES))
  {
    SecretHasNoSpace();
    SignNoSpace(Claims(id, issued, issued + TOKEN_EXPIRES), JWT_SECRET);
    BearerTokenOf(CreateToken(id, issued));
  }

  /** From 24 hours after issue the same header is refused as expired. */
  lemma IssuedTokenExpires(id: UserId, issued: nat, now: nat)
    requires now >= issued + TOKEN_EXPIRES
    ensures Verify(BearerToken("Bearer " + CreateToken(id, issued)), JWT_SECRET, now) == Rejected(Expired)
  {
    SecretHasNoSpace();
    SignNoSpace(Claims(id, issued, issued + TOKEN_EXPIRES), JWT_SECRET);
    BearerTokenOf(CreateToken(id, issued));
  }

  /** Accepted one hour after issue, refused twenty-five hours after. */
  lemma OneHourAndTwentyFiveHours(id: UserId, issued: nat)
    ensures Verify(BearerToken("Bearer " + CreateToken(id, issued)), JWT_SECRET, issued + 3600).Verified?
    ensures Verify(BearerToken("Bearer " + CreateToken(id, issued)), JWT_SECRET, issued + 25 * 3600).Rejected?
  {
    IssuedTokenAccepted(id, issued, issued + 3600);
    IssuedTokenExpires(id, issued, issued + 25 * 3600);
  }
}
