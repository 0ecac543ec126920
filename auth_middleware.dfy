/** The request authentication of `limitless-backend`
    (middleware/auth.js): the bearer token is taken from the Authorization
    header, verified, and its claims become `req.user`. Signature checking
    is the `verify` parameter: it yields the decoded payload of a genuine,
    unexpired token and nothing for any other string. */
module AuthMiddleware {
  import opened Common
  import opened Text

  /** A decoded token payload. Tokens signed by this service carry `id`;
      `altId` is the `_id` some other tokens carry instead. */
  datatype Claims = Claims(id: Option<Id>, altId: Option<Id>, email: Option<string>, role: Option<string>)

  /** `req.user` as the middleware sets it. */
  datatype RequestUser = RequestUser(id: Option<Id>, email: Option<string>, role: Option<string>)

  /** `req.header('Authorization')?.replace('Bearer ', '')`: the header with
      the first occurrence of "Bearer " removed; no header, no token. */
  function ExtractToken(header: Option<string>): (r: Option<string>)
    ensures header.None? <==> r.None?
    ensures header.Some? && !Contains(header.value, "Bearer ") ==> r == header
    ensures header.Some? && Contains(header.value, "Bearer ") ==>
      var h, i := header.value, FirstOccurrence(header.value, "Bearer ");
      && OccursAt(h, "Bearer ", i) && (forall j :: 0 <= j < i ==> !OccursAt(h, "Bearer ", j))
      && r.value == h[..i] + h[i + 7..]
    ensures header.Some? && Contains(header.value, "Bearer ") ==> |r.value| == |header.value| - 7
  {
    match header
    case None => None
    case Some(h) =>
      var r := ReplaceFirst(h, "Bearer ", "");
      if Contains(h, "Bearer ") then
        var i := FirstOccurrence(h, "Bearer ");
        assert h[..i] + "" == h[..i];
        Some(r)
      else Some(r)
  }

  /** A header of the form "Bearer <token>" yields exactly the token. */
  lemma ExtractBearer(t: string)
    ensures ExtractToken(Some("Bearer " + t)) == Some(t)
  {
    ReplaceFirstAtStart("Bearer ", t);
  }

  /** The middleware: an absent or empty token and a token that does not
      verify are both refused with 401; otherwise `req.user` takes `id`,
      falling back to `_id` when `id` is absent, and copies email and role. */
  function Authenticate(header: Option<string>, verify: string -> Option<Claims>): (r: Result<RequestUser>)
    ensures !Present(ExtractToken(header)) ==>
      r == Err(Unauthorized("No token, authorization denied"))
    ensures Present(ExtractToken(header)) && verify(ExtractToken(header).value).None? ==>
      r == Err(Unauthorized("Token is not valid"))
    ensures r.Ok? <==> Present(ExtractToken(header)) && verify(ExtractToken(header).value).Some?
    ensures r.Ok? ==>
      var c := verify(ExtractToken(header).value).value;
      r.value.email == c.email && r.value.role == c.role
      && r.value.id == (if c.id.Some? then c.id else c.altId)
  {
    var token := ExtractToken(header);
    if !Present(token) then Err(Unauthorized("No token, authorization denied"))
    else
      match verify(token.value)
      case None => Err(Unauthorized("Token is not valid"))
      case Some(c) => Ok(RequestUser(if c.id.Some? then c.id else c.altId, c.email, c.role))
  }

  /** A request bearing a genuine token whose payload has an `id` is
      authenticated as that id, whatever `_id` says. */
  lemma BearerTokenAuthenticates(t: string, verify: string -> Option<Claims>, c: Claims)
    requires t != [] && verify(t) == Some(c) && c.id.Some?
    ensures Authenticate(Some("Bearer " + t), verify) == Ok(RequestUser(c.id, c.email, c.role))
  {
    ExtractBearer(t);
  }

  /** Without a header, or with just "Bearer ", the handler never runs. */
  lemma EmptyBearerRefused(verify: string -> Option<Claims>)
    ensures Authenticate(None, verify) == Err(Unauthorized("No token, authorization denied"))
    ensures Authenticate(Some("Bearer "), verify) == Err(Unauthorized("No token, authorization denied"))
  {
    ExtractBearer("");
    assert "Bearer " + "" == "Bearer ";
  }
}
