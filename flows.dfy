/** How the components fit together across requests: a token from `login` opens the guard. */
module Flows {
  import opened Common
  import opened Tables
  import opened Crypto
  import opened Storage
  import opened AuthService
  import opened Guard

  /**
   * Presenting the access token of a successful login as `Bearer <token>` admits the request
   * with the user's id, name and phone as claims, provided the token is a single non-empty word
   * and the verifier accepts what the signer produced with the same key.
   */
  lemma LoginTokenOpensGuard(users: seq<User>, data: Credentials, compare: Comparer, sign: Signer,
                             verify: Verifier, accessKey: string)
    requires Login(users, data, compare, sign, accessKey).Ok?
    requires var u := Find(users, UserPhone, data.phone).value;
      var token := sign(ClaimsOf(u), accessKey, AccessTokenTtl);
      token != [] && ' ' !in token && verify(token, accessKey) == Some(ClaimsOf(u))
    ensures var s := Login(users, data, compare, sign, accessKey).value;
      Authenticate(Some(Scheme + " " + s.token), verify, accessKey)
        == Ok(Claims(s.user.id, s.user.name, s.user.phone))
  {
    var s := Login(users, data, compare, sign, accessKey).value;
    var h := Scheme + " " + s.token;
    assert h[..|Scheme| + 1 + |s.token|] == Scheme + " " + s.token;
    ExtractTokenIff(h, s.token);
  }
}
