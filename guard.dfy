/** `JwtAuthGuard`: admits a request only with a `Bearer` access token that verifies. */
module Guard {
  import opened Common
  import opened Text
  import opened Crypto

  const MissingTokenMessage := "Không tìm thấy token!"
  const MalformedTokenMessage := "Token không hợp lệ!"
  const RejectedTokenMessage := "Token không tồn tại hoặc không hợp lệ!"
  const Scheme := "Bearer"

  /** The header is `Bearer`, one space, the token `t` (non-empty, no space), then nothing or a space. */
  predicate BearerHeader(h: string, t: string) {
    && t != [] && ' ' !in t
    && |h| >= |Scheme| + 1 + |t|
    && h[..|Scheme| + 1 + |t|] == Scheme + " " + t
    && (|h| == |Scheme| + 1 + |t| || h[|Scheme| + 1 + |t|] == ' ')
  }

  /**
   * The token of an `authorization` header: a missing or empty header is "no token"; otherwise
   * the header is split on spaces and the first two pieces must be `Bearer` and a non-empty token.
   */
  function ExtractToken(header: Option<string>): (r: Result<string, HttpError>)
    ensures header.None? || header == Some("") ==> r == Err(HttpError(Unauthorized, MissingTokenMessage))
    ensures header.Some? && header.value != "" && r.Err? ==> r.error == HttpError(Unauthorized, MalformedTokenMessage)
    ensures r.Ok? ==> r.value != [] && ' ' !in r.value
  {
    if header.None? || header.value == "" then Err(HttpError(Unauthorized, MissingTokenMessage))
    else
      var pieces := Split(header.value, ' ');
      var token := if |pieces| >= 2 then pieces[1] else "";
      if pieces[0] != Scheme || token == "" then Err(HttpError(Unauthorized, MalformedTokenMessage))
      else Ok(token)
  }

  /** A non-empty header yields token `t` exactly when it has the `Bearer <t>` shape. */
  lemma ExtractTokenIff(h: string, t: string)
    requires h != ""
    ensures ExtractToken(Some(h)) == Ok(t) <==> BearerHeader(h, t)
  {
    var pieces := Split(h, ' ');
    var n := |Scheme| + 1 + |t|;
    if ExtractToken(Some(h)) == Ok(t) {
      JoinSplit(h, ' ');
      assert Join(pieces, ' ') == Scheme + [' '] + Join(pieces[1..], ' ');
      var tail := Join(pieces[1..], ' ');
      assert pieces[1..][0] == t;
      if |pieces| > 2 {
        assert tail == t + [' '] + Join(pieces[2..], ' ') by {
          assert pieces[1..][1..] == pieces[2..];
        }
        assert h[n] == tail[|t|];
      }
      assert h[..n] == Scheme + " " + t;
    }
    if BearerHeader(h, t) {
      var rest := h[n..];
      assert h == Scheme + [' '] + (t + rest);
      assert ' ' !in Scheme;
      SplitAfterPrefix(Scheme, t + rest, ' ');
      SplitHead(t, rest, ' ');
    }
  }

  /** Only the first two pieces matter: whatever follows a second space is ignored. */
  lemma ExtraPiecesIgnored(t: string, more: string)
    requires t != [] && ' ' !in t
    ensures ExtractToken(Some(Scheme + " " + t + " " + more)) == Ok(t)
  {
    var h := Scheme + " " + t + " " + more;
    assert h[..|Scheme| + 1 + |t|] == Scheme + " " + t;
    ExtractTokenIff(h, t);
  }

  /** An accepted header starts with the scheme, one space, and a character other than a space. */
  lemma AcceptedShape(h: string)
    requires h != ""
    ensures ExtractToken(Some(h)).Ok? ==> |h| > 7 && h[..6] == Scheme && h[6] == ' ' && h[7] != ' '
  {
    var r := ExtractToken(Some(h));
    if r.Ok? {
      var t := r.value;
      ExtractTokenIff(h, t);
      var n := |Scheme| + 1 + |t|;
      assert h[..n][..6] == Scheme && h[..n][6] == ' ' && h[..n][7] == t[0];
    }
  }

  /** The scheme is case-sensitive: `bearer <t>` is malformed. */
  lemma LowerCaseSchemeMalformed(t: string)
    ensures ExtractToken(Some("bearer " + t)) == Err(HttpError(Unauthorized, MalformedTokenMessage))
  {
    var h := "bearer " + t;
    assert h[0] == 'b' && h[..6][0] == h[0];
    AcceptedShape(h);
  }

  /** A header without a space, the bare scheme `Bearer` included, is malformed. */
  lemma NoSpaceMalformed(h: string)
    requires h != "" && ' ' !in h
    ensures ExtractToken(Some(h)) == Err(HttpError(Unauthorized, MalformedTokenMessage))
  {
    AcceptedShape(h);
  }

  /** Two spaces after the scheme leave an empty second piece, so the header is malformed. */
  lemma DoubleSpaceMalformed(t: string)
    ensures ExtractToken(Some(Scheme + "  " + t)) == Err(HttpError(Unauthorized, MalformedTokenMessage))
  {
    var h := Scheme + "  " + t;
    assert h[7] == ' ';
    AcceptedShape(h);
  }

  /** The claims of the request's access token, or UNAUTHORIZED with the reason. */
  function Authenticate(header: Option<string>, verify: Verifier, accessKey: string): (r: Result<Claims, HttpError>)
    ensures r.Ok? <==> ExtractToken(header).Ok? && verify(ExtractToken(header).value, accessKey).Some?
    ensures r.Ok? ==> r.value == verify(ExtractToken(header).value, accessKey).value
    ensures r.Err? && ExtractToken(header).Ok? ==> r.error == HttpError(Unauthorized, RejectedTokenMessage)
    ensures r.Err? ==> r.error.status == Unauthorized
  {
    match ExtractToken(header)
    case Err(e) => Err(e)
    case Ok(token) =>
      match verify(token, accessKey)
      case None => Err(HttpError(Unauthorized, RejectedTokenMessage))
      case Some(claims) => Ok(claims)
  }

  /** The incoming request: its `authorization` header, and the `user` the guard attaches. */
  class Request {
    const authorization: Option<string>
    var user: Option<Claims>

    constructor(authorization: Option<string>)
      ensures this.authorization == authorization && user == None
    {
      this.authorization := authorization;
      user := None;
    }
  }

  /** `canActivate`: on success attaches the token's claims to the request as `user`; otherwise leaves it untouched. */
  method CanActivate(req: Request, verify: Verifier, accessKey: string) returns (r: Result<bool, HttpError>)
    modifies req`user
    ensures r.Ok? <==> Authenticate(req.authorization, verify, accessKey).Ok?
    ensures r.Ok? ==> r.value && req.user == Some(Authenticate(req.authorization, verify, accessKey).value)
    ensures r.Err? ==> req.user == old(req.user) && r.error == Authenticate(req.authorization, verify, accessKey).error
  {
    var claims := Authenticate(req.authorization, verify, accessKey);
    match claims
    case Err(e) =>
      r := Err(e);
    case Ok(c) =>
      req.user := Some(c);
      r := Ok(true);
  }
}
