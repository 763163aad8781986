/**
 * The step-up authentication gate run before every request handler.
 *
 * A handler marked as needing step-up authentication is let through only when
 * the caller's verified JWT carries the `acr` claim with the exact value "2".
 * Without a JWT, or without the claim, the request is refused with 403. With
 * any other `acr` value the request is refused with 412, and the response
 * carries the URL of the identity provider's authorization endpoint (OpenID
 * Connect Core 1.0, section 3.1.2.1) asking for `acr_values=2`, with a
 * `redirect_uri` made of the request's `referer` and `x-api-cb` headers.
 *
 * What the framework supplies is passed in explicitly: which handler the
 * request is routed to, the security context of the thread, the two headers
 * (as the UTF-8 bytes of their values) and the configured issuer URI and
 * client id.
 */
module StepupAuthentication {
  import opened Wrappers
  import opened FormUrlEncoding
  import opened QueryString

  const AcrClaimName: string := "acr"
  const AcrClaimLevel: string := "2"
  const ApplicationJson: string := "application/json"
  /** The UTF-8 bytes of "/", the value used for a missing header. */
  const Slash: seq<byte> := ['/' as int]

  /** A verified JWT, reduced to its string-valued claims. */
  datatype Jwt = Jwt(claims: map<string, string>)

  /** The principal of an authentication: a JWT, or some other kind of principal. */
  datatype Principal = JwtPrincipal(token: Jwt) | OtherPrincipal

  datatype Authentication = Authentication(principal: Option<Principal>)

  datatype SecurityContext = SecurityContext(authentication: Option<Authentication>)

  /** The handler a request is routed to: a controller method, which may carry `@StepupAuthentication`, or anything else. */
  datatype Handler = HandlerMethod(hasStepupAuthentication: bool) | OtherHandler

  /** The two request headers the gate reads; `None` when the header is absent. */
  datatype Request = Request(referer: Option<seq<byte>>, callback: Option<seq<byte>>)

  /** The gate's three outcomes. */
  datatype Decision = Allow | Deny | Challenge(authenticationUrl: string)

  /** The two HTTP statuses the gate answers with. */
  datatype HttpStatus = Forbidden | PreconditionFailed {
    function Value(): (code: int)
      ensures code == (if Forbidden? then 403 else 412)
    {
      match this
      case Forbidden => 403
      case PreconditionFailed => 412
    }
  }

  /** The body of a 412 response, before JSON serialization: the status constant and the URL. */
  datatype ResponseDto = ResponseDto(status: HttpStatus, authenticationUrl: string)

  /** True when the gate has work to do: a controller method carrying the annotation. */
  predicate IsMarked(handler: Handler) {
    handler.HandlerMethod? && handler.hasStepupAuthentication
  }

  /** The JWT of the current authentication, if there is one and its principal is a JWT. */
  function GetAuthorizationToken(context: Option<SecurityContext>): (r: Option<Jwt>)
    ensures r.Some? ==> context == Some(SecurityContext(Some(Authentication(Some(JwtPrincipal(r.value))))))
    ensures r.None? ==> context.None? || context.value.authentication.None?
                        || context.value.authentication.value.principal.None?
                        || context.value.authentication.value.principal.value.OtherPrincipal?
  {
    match context
    case Some(SecurityContext(Some(Authentication(Some(JwtPrincipal(token)))))) => Some(token)
    case _ => None
  }

  /** The `acr` claim of a token, if it has one. */
  function GetAcrClaim(token: Jwt): (r: Option<string>)
    ensures r.Some? <==> AcrClaimName in token.claims
    ensures r.Some? ==> r.value == token.claims[AcrClaimName]
  {
    if AcrClaimName in token.claims then Some(token.claims[AcrClaimName]) else None
  }

  /** The `acr` claim of the current JWT: present only when both the JWT and its claim are. */
  function AcrClaimOf(context: Option<SecurityContext>): (r: Option<string>)
    ensures r.Some? <==> GetAuthorizationToken(context).Some? && AcrClaimName in GetAuthorizationToken(context).value.claims
    ensures r.Some? ==> r.value == GetAuthorizationToken(context).value.claims[AcrClaimName]
  {
    var token := GetAuthorizationToken(context);
    if token.None? then None else GetAcrClaim(token.value)
  }

  /** The address the identity provider sends the caller back to: `referer` followed by `x-api-cb`, each "/" when absent. */
  function RedirectTarget(request: Request): (target: seq<byte>)
    ensures request.referer.None? && request.callback.None? ==> target == Slash + Slash
    ensures request.referer.Some? ==> request.referer.value <= target
    ensures |target| == |request.referer.GetOr(Slash)| + |request.callback.GetOr(Slash)|
    ensures target[..|request.referer.GetOr(Slash)|] == request.referer.GetOr(Slash)
    ensures target[|request.referer.GetOr(Slash)|..] == request.callback.GetOr(Slash)
  {
    request.referer.GetOr(Slash) + request.callback.GetOr(Slash)
  }

  /** The path of the identity provider's authorization endpoint, below the issuer URI. */
  const AuthorizationEndpoint: string := "/protocol/openid-connect/auth"

  /** The query parameters of the authorization request, in the template's fixed order. */
  function AuthorizationRequestParameters(clientId: string, redirectUri: string, acrLevel: string): (fields: seq<(string, string)>)
    ensures |fields| == 6
  {
    [("client_id", clientId), ("redirect_uri", redirectUri), ("response_type", "code"),
     ("response_mode", "query"), ("scope", "openid"), ("acr_values", acrLevel)]
  }

  /**
   * The template `{issuer}/protocol/openid-connect/auth?client_id={client}&redirect_uri={redirect}`
   * `&response_type=code&response_mode=query&scope=openid&acr_values={level}`, filled in.
   */
  function FormatAuthenticationUrl(issuerUri: string, clientId: string, redirectUri: string, acrLevel: string): string {
    issuerUri + AuthorizationEndpoint + "?" + JoinQuery(AuthorizationRequestParameters(clientId, redirectUri, acrLevel))
  }

  /**
   * The filled template, written out field by field in its fixed order: it
   * starts with the issuer URI and ends with `acr_values=` and the level.
   */
  lemma AuthenticationUrlTemplate(issuerUri: string, clientId: string, redirectUri: string, acrLevel: string)
    ensures var url := FormatAuthenticationUrl(issuerUri, clientId, redirectUri, acrLevel);
      && url == issuerUri + "/protocol/openid-connect/auth" + "?"
                + ("client_id" + "=" + clientId + "&" + "redirect_uri" + "=" + redirectUri + "&"
                   + "response_type" + "=" + "code" + "&" + "response_mode" + "=" + "query" + "&"
                   + "scope" + "=" + "openid" + "&" + "acr_values" + "=" + acrLevel)
      && issuerUri <= url
      && EndsWith(url, "acr_values" + "=" + acrLevel)
  {
    var fields := AuthorizationRequestParameters(clientId, redirectUri, acrLevel);
    var url := FormatAuthenticationUrl(issuerUri, clientId, redirectUri, acrLevel);
    JoinSixFields("client_id", clientId, "redirect_uri", redirectUri, "response_type", "code",
                  "response_mode", "query", "scope", "openid", "acr_values", acrLevel);
    JoinQueryEndsWithLast(fields);
    assert url == issuerUri + (url[|issuerUri|..]);
  }

  lemma ParametersDelimited(clientId: string, redirectUri: string, acrLevel: string)
    requires '&' !in clientId && '&' !in redirectUri && '&' !in acrLevel
    ensures Delimited(AuthorizationRequestParameters(clientId, redirectUri, acrLevel))
  {
  }

  /** Only the last parameter is called `acr_values`. */
  lemma AcrValuesParameter(clientId: string, redirectUri: string, acrLevel: string)
    ensures var fields := AuthorizationRequestParameters(clientId, redirectUri, acrLevel);
      && FirstValue(fields, "client_id") == Some(clientId)
      && FirstValue(fields, "redirect_uri") == Some(redirectUri)
      && FirstValue(fields, "acr_values") == Some(acrLevel)
  {
    var f := AuthorizationRequestParameters(clientId, redirectUri, acrLevel);
    assert f[5..][0] == ("acr_values", acrLevel);
    assert FirstValue(f[5..], "acr_values") == Some(acrLevel);
    assert f[4..][1..] == f[5..] && f[4..][0].0 == "scope";
    assert f[3..][1..] == f[4..] && f[3..][0].0 == "response_mode";
    assert f[2..][1..] == f[3..] && f[2..][0].0 == "response_type";
    assert f[1..][1..] == f[2..] && f[1..][0].0 == "redirect_uri";
    assert f[0].0 == "client_id";
  }

  /**
   * Read back through its query, the filled template carries the client id,
   * the redirect URI and the required level as the values of `client_id`,
   * `redirect_uri` and `acr_values`, provided the issuer URI has no query of
   * its own and none of the three values holds `&`.
   */
  lemma AuthenticationUrlParameters(issuerUri: string, clientId: string, redirectUri: string, acrLevel: string)
    requires '?' !in issuerUri && '&' !in clientId && '&' !in redirectUri && '&' !in acrLevel
    ensures var url := FormatAuthenticationUrl(issuerUri, clientId, redirectUri, acrLevel);
      && QueryParameter(url, "client_id") == Some(clientId)
      && QueryParameter(url, "redirect_uri") == Some(redirectUri)
      && QueryParameter(url, "acr_values") == Some(acrLevel)
  {
    var fields := AuthorizationRequestParameters(clientId, redirectUri, acrLevel);
    var path := issuerUri + AuthorizationEndpoint;
    assert '?' !in path by {
      forall i | 0 <= i < |path| ensures path[i] != '?' {
        if i >= |issuerUri| { assert path[i] == AuthorizationEndpoint[i - |issuerUri|]; }
      }
    }
    SplitFirstAt(path, '?', JoinQuery(fields));
    ParametersDelimited(clientId, redirectUri, acrLevel);
    AcrValuesParameter(clientId, redirectUri, acrLevel);
    LookupJoinQuery(fields, "client_id");
    LookupJoinQuery(fields, "redirect_uri");
    LookupJoinQuery(fields, "acr_values");
  }

  /**
   * The re-authentication URL: the template filled with the issuer URI, the
   * client id, the form-encoding of the redirect target and the level "2".
   */
  function BuildSteppedUpAuthenticationUrl(request: Request, issuerUri: string, clientId: string): (url: string)
    ensures url == issuerUri + "/protocol/openid-connect/auth" + "?"
         + ("client_id" + "=" + clientId + "&" + "redirect_uri" + "=" + Encode(RedirectTarget(request)) + "&"
            + "response_type" + "=" + "code" + "&" + "response_mode" + "=" + "query" + "&"
            + "scope" + "=" + "openid" + "&" + "acr_values" + "=" + AcrClaimLevel)
    ensures issuerUri <= url
    ensures EndsWith(url, "acr_values" + "=" + AcrClaimLevel)
    ensures '?' !in issuerUri && '&' !in clientId ==>
      && QueryParameter(url, "client_id") == Some(clientId)
      && QueryParameter(url, "acr_values") == Some(AcrClaimLevel)
      && QueryParameter(url, "redirect_uri") == Some(Encode(RedirectTarget(request)))
      && FormDecode(QueryParameter(url, "redirect_uri").value) == Some(RedirectTarget(request))
  {
    var redirectUri := Encode(RedirectTarget(request));
    var url := FormatAuthenticationUrl(issuerUri, clientId, redirectUri, AcrClaimLevel);
    AuthenticationUrlTemplate(issuerUri, clientId, redirectUri, AcrClaimLevel);
    FormEncodedHasNoDelimiters(redirectUri);
    DecodeEncode(RedirectTarget(request));
    if '?' !in issuerUri && '&' !in clientId then
      AuthenticationUrlParameters(issuerUri, clientId, redirectUri, AcrClaimLevel);
      url
    else
      url
  }

  /**
   * The gate's decision. Unmarked handlers are always allowed; on a marked
   * handler the outcome is Deny exactly when the JWT or its `acr` claim is
   * missing, Allow exactly when the claim is "2", and otherwise Challenge
   * with the re-authentication URL.
   */
  function Decide(handler: Handler, context: Option<SecurityContext>, request: Request, issuerUri: string, clientId: string): (d: Decision)
    ensures !IsMarked(handler) ==> d == Allow
    ensures d == Deny <==> IsMarked(handler) && AcrClaimOf(context).None?
    ensures d == Allow <==> !IsMarked(handler) || AcrClaimOf(context) == Some(AcrClaimLevel)
    ensures d.Challenge? <==> IsMarked(handler) && AcrClaimOf(context).Some? && AcrClaimOf(context).value != AcrClaimLevel
    ensures d.Challenge? ==> d.authenticationUrl == BuildSteppedUpAuthenticationUrl(request, issuerUri, clientId)
  {
    if !handler.HandlerMethod? then
      Allow
    else if !handler.hasStepupAuthentication then
      Allow
    else
      var token := GetAuthorizationToken(context);
      if token.None? then
        Deny
      else
        var acr := GetAcrClaim(token.value);
        if acr.None? then
          Deny
        else if AcrClaimLevel == acr.value then
          Allow
        else
          Challenge(BuildSteppedUpAuthenticationUrl(request, issuerUri, clientId))
  }

  /**
   * A Challenge sends the caller to the configured identity provider asking
   * for level "2": its URL is the template filled with the issuer URI, the
   * client id and the encoded redirect target, and that encoded value decodes
   * to exactly the `referer` header (or "/") followed by the `x-api-cb`
   * header (or "/"). When the issuer URI has no `?` and the client id no `&`,
   * reading the URL's query gives back the client id, the level and that
   * redirect target.
   */
  lemma ChallengeUrlContents(handler: Handler, context: Option<SecurityContext>, request: Request, issuerUri: string, clientId: string)
    requires IsMarked(handler) && AcrClaimOf(context).Some? && AcrClaimOf(context).value != AcrClaimLevel
    ensures var d := Decide(handler, context, request, issuerUri, clientId);
      var redirectUri := Encode(RedirectTarget(request));
      && d.Challenge?
      && d.authenticationUrl == FormatAuthenticationUrl(issuerUri, clientId, redirectUri, AcrClaimLevel)
      && issuerUri <= d.authenticationUrl
      && EndsWith(d.authenticationUrl, "acr_values" + "=" + AcrClaimLevel)
      && FormDecode(redirectUri) == Some(request.referer.GetOr(Slash) + request.callback.GetOr(Slash))
    ensures var d := Decide(handler, context, request, issuerUri, clientId);
      '?' !in issuerUri && '&' !in clientId ==>
      && d.Challenge?
      && QueryParameter(d.authenticationUrl, "client_id") == Some(clientId)
      && QueryParameter(d.authenticationUrl, "acr_values") == Some(AcrClaimLevel)
      && QueryParameter(d.authenticationUrl, "redirect_uri").Some?
      && FormDecode(QueryParameter(d.authenticationUrl, "redirect_uri").value)
         == Some(request.referer.GetOr(Slash) + request.callback.GetOr(Slash))
  {
    DecodeEncode(RedirectTarget(request));
  }

  /** With neither header, the redirect URI is "/" twice, written "%2F%2F". */
  lemma DefaultRedirectUri()
    ensures Encode(RedirectTarget(Request(None, None))) == "%2F%2F"
  {
    EncodeConcat(Slash, Slash);
  }

  /** On a marked handler, a JWT whose `acr` is "2" is let through, and no security context is refused. */
  lemma DecisionExamples()
    ensures var context := Some(SecurityContext(Some(Authentication(Some(JwtPrincipal(Jwt(map["acr" := "2"])))))));
      Decide(HandlerMethod(true), context, Request(None, None), "https://idp.example.com", "abc123") == Allow
    ensures Decide(HandlerMethod(true), None, Request(None, None), "https://idp.example.com", "abc123") == Deny
  {
  }

  /** A response as the gate sees it: its status, its content type and what has been written to its body. */
  class HttpResponse {
    var status: int
    var contentType: Option<string>
    var written: seq<ResponseDto>

    constructor ()
      ensures status == 200 && contentType == None && written == []
    {
      status := 200;
      contentType := None;
      written := [];
    }
  }

  /** The interceptor, with the issuer URI and client id it is configured with. */
  class StepupAuthenticationInterceptor {
    const issuerUri: string
    const clientId: string

    constructor (issuerUri: string, clientId: string)
      ensures this.issuerUri == issuerUri && this.clientId == clientId
    {
      this.issuerUri := issuerUri;
      this.clientId := clientId;
    }

    /**
     * Runs the gate on one request: returns whether the handler may run, and
     * on a refusal sets the response's status (and, for 412, its content type
     * and body) as the decision says.
     */
    method PreHandle(request: Request, response: HttpResponse, handler: Handler, context: Option<SecurityContext>)
      returns (proceed: bool)
      modifies response
      ensures var d := Decide(handler, context, request, issuerUri, clientId);
        && (proceed <==> d == Allow)
        && (d == Allow ==> unchanged(response))
        && (d == Deny ==> response.status == 403
                          && response.contentType == old(response.contentType)
                          && response.written == old(response.written))
        && (d.Challenge? ==> response.status == 412
                             && response.contentType == Some(ApplicationJson)
                             && response.written == old(response.written) + [ResponseDto(PreconditionFailed, d.authenticationUrl)])
    {
      if !handler.HandlerMethod? {
        return true;
      }
      if !handler.hasStepupAuthentication {
        return true;
      }
      var tokenOpt := GetAuthorizationToken(context);
      if tokenOpt.None? {
        response.status := Forbidden.Value();
        return false;
      }
      var acrClaimValueOpt := GetAcrClaim(tokenOpt.value);
      if acrClaimValueOpt.None? {
        response.status := Forbidden.Value();
        return false;
      }
      if AcrClaimLevel == acrClaimValueOpt.value {
        return true;
      }
      var url := BuildSteppedUpAuthenticationUrl(request, issuerUri, clientId);
      var responseDto := ResponseDto(PreconditionFailed, url);
      response.status := responseDto.status.Value();
      response.contentType := Some(ApplicationJson);
      response.written := response.written + [responseDto];
      return false;
    }
  }
}
