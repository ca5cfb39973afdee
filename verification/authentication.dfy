/**
  Token acquisition of KeyVaultClient/KeyVault/Authentication.swift: the authority and
  resource of a Key Vault server are read from the `Bearer` challenge of its
  `WWW-Authenticate` header, under either of two names each, and cached per host; the
  application's callback then turns them into a token.

  The fetch of the challenge and the callback are parameters: `Fetched` is what the request to
  the server produced, and the callback a function from authority and resource to a token.
*/
module KeyVaultAuthentication {
  import opened Outcomes
  import opened AuthHeader
  import AuthHeaderItems

  /** The errors a token request can fail with. */
  datatype AuthError =
    | NoAuthHeader
    | NoBearerChallenge
    | BearerChallengeMissingRequiredParameter
    | NoAuthCallback
    | HeaderError(error: AuthHeaderError)  // thrown by `AuthHeader.parse`
    | TransportError(description: string)  // the request for the challenge failed
    | CallbackError(description: string)   // the callback's own failure

  datatype AuthParameters = AuthParameters(authority: string, resource: string)

  /**
    The outcome of requesting the server without a token: a transport error, or a response and
    its `Www-Authenticate` header if it has one.
  */
  type Fetched = Result<Option<string>, string>

  /** `authCallback`: authority and resource to a token, or an error's description. */
  type AuthCallback = (string, string) -> Result<string, string>

  const AuthorityKeys := ["authorization_uri", "authorization"]
  const ResourceKeys := ["resource", "resource_id"]

  /** The value of the first of `keys` that the map holds. */
  function FirstPresent(dict: Params, keys: seq<string>): Option<string>
    decreases |keys|
  {
    if keys == [] then None
    else if keys[0] in dict then Some(dict[keys[0]])
    else FirstPresent(dict, keys[1..])
  }

  /** `FirstPresent` finds a key exactly when one is present, and it is the earliest present one. */
  lemma {:induction false} FirstPresentIsFirst(dict: Params, keys: seq<string>)
    ensures FirstPresent(dict, keys).None? <==> forall i :: 0 <= i < |keys| ==> keys[i] !in dict
    ensures FirstPresent(dict, keys).Some? ==>
              exists i :: 0 <= i < |keys| && keys[i] in dict && FirstPresent(dict, keys).value == dict[keys[i]]
                          && forall j :: 0 <= j < i ==> keys[j] !in dict
    decreases |keys|
  {
    if keys != [] && keys[0] !in dict {
      FirstPresentIsFirst(dict, keys[1..]);
      if FirstPresent(dict, keys).Some? {
        var i :| 0 <= i < |keys[1..]| && keys[1..][i] in dict && FirstPresent(dict, keys[1..]).value == dict[keys[1..][i]]
                 && forall j :: 0 <= j < i ==> keys[1..][j] !in dict;
        assert keys[i + 1] in dict && forall j :: 0 <= j < i + 1 ==> keys[j] !in dict by {
          forall j | 0 <= j < i + 1 ensures keys[j] !in dict {
            if j > 0 {
              assert keys[j] == keys[1..][j - 1];
            }
          }
        }
      } else {
        forall i | 0 <= i < |keys| ensures keys[i] !in dict {
          if i > 0 {
            assert keys[i] == keys[1..][i - 1];
          }
        }
      }
    }
  }

  /** `getValue` (Authentication.swift:53-61): the loop over the keys, in order. */
  method GetValue(dict: Params, possibleKeys: seq<string>) returns (r: Result<string, AuthError>)
    ensures r.Ok? <==> FirstPresent(dict, possibleKeys).Some?
    ensures r.Ok? ==> r.value == FirstPresent(dict, possibleKeys).value
    ensures r.Err? ==> r.error == BearerChallengeMissingRequiredParameter
  {
    for i := 0 to |possibleKeys|
      invariant FirstPresent(dict, possibleKeys) == FirstPresent(dict, possibleKeys[i..])
    {
      assert possibleKeys[i..][1..] == possibleKeys[i + 1..];
      if possibleKeys[i] in dict {
        return Ok(dict[possibleKeys[i]]);
      }
    }
    return Err(BearerChallengeMissingRequiredParameter);
  }

  /** The parameters of the `Bearer` challenge (Authentication.swift:83-89). */
  function BearerParams(challenges: Challenges): (r: Result<AuthParameters, AuthError>)
    ensures "Bearer" !in challenges ==> r == Err(NoBearerChallenge)
    ensures r.Err? ==> r.error == NoBearerChallenge || r.error == BearerChallengeMissingRequiredParameter
  {
    if "Bearer" !in challenges then Err(NoBearerChallenge)
    else
      var bearer := challenges["Bearer"];
      match (FirstPresent(bearer, AuthorityKeys), FirstPresent(bearer, ResourceKeys))
      case (Some(authority), Some(resource)) => Ok(AuthParameters(authority, resource))
      case _ => Err(BearerChallengeMissingRequiredParameter)
  }

  /**
    `authorization_uri` wins over `authorization`, and `resource` over `resource_id`; a challenge
    with neither name of either pair is refused.
  */
  lemma AliasPrecedence(bearer: Params)
    ensures var r := BearerParams(map["Bearer" := bearer]);
            && (r.Ok? <==> ("authorization_uri" in bearer || "authorization" in bearer) && ("resource" in bearer || "resource_id" in bearer))
            && (r.Ok? ==> r.value.authority == (if "authorization_uri" in bearer then bearer["authorization_uri"] else bearer["authorization"]))
            && (r.Ok? ==> r.value.resource == (if "resource" in bearer then bearer["resource"] else bearer["resource_id"]))
  {
    assert AuthorityKeys[1..] == ["authorization"] && ResourceKeys[1..] == ["resource_id"];
    assert AuthorityKeys[1..][1..] == [] && ResourceKeys[1..][1..] == [];
  }

  /** What the completion of `getAuthParams` receives (Authentication.swift:65-96). */
  function AuthParamsFrom(fetched: Fetched): (r: Result<AuthParameters, AuthError>)
    ensures fetched.Err? ==> r == Err(TransportError(fetched.error))
    ensures fetched == Ok(None) ==> r == Err(NoAuthHeader)
  {
    match fetched
    case Err(e) => Err(TransportError(e))
    case Ok(None) => Err(NoAuthHeader)
    case Ok(Some(header)) =>
      match ParseHeader(header)
      case Err(e) => Err(HeaderError(e))
      case Ok(challenges) => BearerParams(challenges)
  }

  /** A header whose items are one `Bearer` challenge naming an authority and a resource gives them. */
  lemma BearerChallengeGivesParams(header: string, ps: seq<Param>)
    requires AuthHeaderItems.IsNotBlankOrEmpty(header) && AuthHeaderItems.Tokenize(header) == ChallengeItems("Bearer", ps)
    requires AtomParams(ps)
    ensures var bearer := ParamMap(ps);
            ("authorization_uri" in bearer || "authorization" in bearer) && ("resource" in bearer || "resource_id" in bearer)
            ==> AuthParamsFrom(Ok(Some(header))) == BearerParams(map["Bearer" := bearer]) && AuthParamsFrom(Ok(Some(header))).Ok?
  {
    SingleChallenge("Bearer", ps);
    AliasPrecedence(ParamMap(ps));
  }

  /** What the application's callback makes of the parameters (Authentication.swift:44-51). */
  function TokenFor(authCallback: Option<AuthCallback>, params: AuthParameters): (r: Result<string, AuthError>)
    ensures authCallback.None? ==> r == Err(NoAuthCallback)
    ensures authCallback.Some? ==> (r.Ok? <==> authCallback.value(params.authority, params.resource).Ok?)
    ensures authCallback.Some? && r.Ok? ==> authCallback.value(params.authority, params.resource) == Ok(r.value)
    ensures authCallback.Some? && r.Err? ==>
              r.error == CallbackError(authCallback.value(params.authority, params.resource).error)
  {
    match authCallback
    case None => Err(NoAuthCallback)
    case Some(callback) =>
      match callback(params.authority, params.resource)
      case Ok(token) => Ok(token)
      case Err(e) => Err(CallbackError(e))
  }

  /** The static state of `Authentication`: the parameter cache and the callback. */
  class Authentication {
    var paramCache: map<string, AuthParameters>
    var authCallback: Option<AuthCallback>

    constructor (authCallback: Option<AuthCallback>)
      ensures paramCache == map[] && this.authCallback == authCallback
    {
      paramCache := map[];
      this.authCallback := authCallback;
    }

    /**
      `getAuthParams` (Authentication.swift:63-98), for the server's host and the outcome of
      requesting it: parses the challenge, and caches the parameters it yields.
    */
    method GetAuthParams(host: string, fetched: Fetched) returns (r: Result<AuthParameters, AuthError>)
      modifies this
      ensures r == AuthParamsFrom(fetched)
      ensures r.Ok? ==> paramCache == old(paramCache)[host := r.value]
      ensures r.Err? ==> paramCache == old(paramCache)
      ensures authCallback == old(authCallback)
    {
      if fetched.Err? {
        return Err(TransportError(fetched.error));
      }
      if fetched.value.None? {
        return Err(NoAuthHeader);
      }
      var challenges := Parse(fetched.value.value);
      if challenges.Err? {
        return Err(HeaderError(challenges.error));
      }
      if "Bearer" !in challenges.value {
        return Err(NoBearerChallenge);
      }
      var bearer := challenges.value["Bearer"];
      var authority := GetValue(bearer, AuthorityKeys);
      if authority.Err? {
        return Err(authority.error);
      }
      var resource := GetValue(bearer, ResourceKeys);
      if resource.Err? {
        return Err(resource.error);
      }
      var params := AuthParameters(authority.value, resource.value);
      paramCache := paramCache[host := params];
      return Ok(params);
    }

    /**
      `getToken(_:_:)` (Authentication.swift:100-117): cached parameters are used without
      requesting the server; otherwise they are obtained with `GetAuthParams`. Says whether the
      server was requested.
    */
    method GetToken(host: string, fetched: Fetched) returns (r: Result<string, AuthError>, requested: bool)
      modifies this
      ensures requested <==> host !in old(paramCache)
      ensures !requested ==> paramCache == old(paramCache) && r == TokenFor(authCallback, paramCache[host])
      ensures requested ==>
                match AuthParamsFrom(fetched)
                case Ok(params) => paramCache == old(paramCache)[host := params] && r == TokenFor(authCallback, params)
                case Err(e) => paramCache == old(paramCache) && r == Err(e)
      ensures host in paramCache <==> host in old(paramCache) || AuthParamsFrom(fetched).Ok?
      ensures authCallback == old(authCallback)
      ensures authCallback.None? ==>
                r == (if requested && AuthParamsFrom(fetched).Err? then Err(AuthParamsFrom(fetched).error) else Err(NoAuthCallback))
    {
      if host in paramCache {
        return TokenFor(authCallback, paramCache[host]), false;
      }
      var params := GetAuthParams(host, fetched);
      if params.Err? {
        return Err(params.error), true;
      }
      return TokenFor(authCallback, params.value), true;
    }
  }
}
