/**
 The API gateway's authentication filter: the decision, for one incoming
 request, to forward it to the routed service or to answer it with an
 error status.

 Requests under a public path are forwarded untouched. Every other request
 needs an Authorization header whose first value is `Bearer <token>` with
 a token the token validator accepts. Token validation belongs to a
 separate component; it is a parameter here.
 */
module AuthenticationFilter {
  import opened Wrappers
  import Text

  /** The path prefixes that need no token. */
  const PublicApiEndpoints: seq<string> := [
    "/user-service/api/auth/register",
    "/user-service/api/auth/login",
    "/actuator"
  ]

  const ActuatorSubtree := "/actuator/"
  const BearerPrefix := "Bearer "

  const Unauthorized := 401
  const InternalServerError := 500

  /**
   The parts of a request the filter reads: the path, and the values of
   the Authorization header, or None when the header is absent.
   */
  datatype Request = Request(path: string, authorization: Option<seq<string>>)

  /** What the token validator answers for a token. */
  datatype TokenCheck =
    | TokenValid
    | TokenInvalid      // invalid or expired
    | ValidationThrew   // the validator raised an exception

  datatype Decision =
    | Forward
    | Reject(status: int)

  /**
   The public-path test as written: some listed endpoint is a prefix of
   the path, or the path starts with the actuator subtree.
   */
  predicate IsPublicApi(path: string) {
    exists i :: 0 <= i < |PublicApiEndpoints| &&
      (Text.StartsWith(path, PublicApiEndpoints[i]) || Text.StartsWith(path, ActuatorSubtree))
  }

  /**
   The filter's decision. Public paths are forwarded. Otherwise a missing
   header, a missing first value, or one not starting with "Bearer " is
   answered with 401; the rest of the value after those seven characters
   is the token, which is forwarded when valid, answered with 401 when
   invalid, and with 500 when validation throws.
   */
  function Filter(request: Request, validate: string -> TokenCheck): (d: Decision)
    ensures IsPublicApi(request.path) ==> d == Forward
    ensures !IsPublicApi(request.path) && request.authorization.None? ==> d == Reject(Unauthorized)
    ensures d == Forward <==>
              || IsPublicApi(request.path)
              || exists token :: BearerHeaderCarries(request, token) && validate(token) == TokenValid
    ensures d == Reject(InternalServerError) <==>
              && !IsPublicApi(request.path)
              && exists token :: BearerHeaderCarries(request, token) && validate(token) == ValidationThrew
  {
    if IsPublicApi(request.path) then
      Forward
    else if request.authorization.None? then
      Reject(Unauthorized)
    else
      // `getFirst` answers null when the header carries no value
      var values := request.authorization.value;
      if |values| == 0 || !Text.StartsWith(values[0], BearerPrefix) then
        assert forall token :: !BearerHeaderCarries(request, token);
        Reject(Unauthorized)
      else
        var token := values[0][|BearerPrefix|..];
        assert BearerHeaderCarries(request, token) by {
          assert values[0] == BearerPrefix + token;
        }
        BearerTokenUnique(request, token);
        match validate(token)
        case TokenValid => Forward
        case TokenInvalid => Reject(Unauthorized)
        case ValidationThrew => Reject(InternalServerError)
  }

  /** The first Authorization value is exactly "Bearer " followed by `token`. */
  predicate BearerHeaderCarries(request: Request, token: string) {
    && request.authorization.Some?
    && |request.authorization.value| > 0
    && request.authorization.value[0] == BearerPrefix + token
  }

  /** A header carries at most one token. */
  lemma BearerTokenUnique(request: Request, token: string)
    requires BearerHeaderCarries(request, token)
    ensures forall other :: BearerHeaderCarries(request, other) ==> other == token
  {
    forall other | BearerHeaderCarries(request, other)
      ensures other == token
    {
      var v := request.authorization.value[0];
      assert other == v[|BearerPrefix|..] && token == v[|BearerPrefix|..];
    }
  }

  /**
   The second disjunct of the public-path test adds nothing: a path is
   public exactly when it starts with one of the three listed endpoints.
   In particular every path starting with "/actuator", such as
   "/actuatorx", is public, and so is any path extending the register or
   login endpoint.
   */
  lemma PublicIffListedPrefix(path: string)
    ensures IsPublicApi(path) <==>
              || Text.StartsWith(path, "/user-service/api/auth/register")
              || Text.StartsWith(path, "/user-service/api/auth/login")
              || Text.StartsWith(path, "/actuator")
  {
    if Text.StartsWith(path, ActuatorSubtree) {
      assert ActuatorSubtree == "/actuator" + "/";
      Text.StartsWithTransitive(path, "/actuator", "/");
    }
    if Text.StartsWith(path, "/actuator") {
      assert Text.StartsWith(path, PublicApiEndpoints[2]);
    } else if Text.StartsWith(path, "/user-service/api/auth/login") {
      assert Text.StartsWith(path, PublicApiEndpoints[1]);
    } else if Text.StartsWith(path, "/user-service/api/auth/register") {
      assert Text.StartsWith(path, PublicApiEndpoints[0]);
    }
  }

  /** The filter never answers with anything but forwarding, 401 or 500. */
  lemma DecisionIsOneOfThree(request: Request, validate: string -> TokenCheck)
    ensures var d := Filter(request, validate);
            d == Forward || d == Reject(Unauthorized) || d == Reject(InternalServerError)
  {
  }

  /** For a public path the headers and the validator play no part. */
  lemma PublicIgnoresCredentials(path: string, a1: Option<seq<string>>, a2: Option<seq<string>>,
                                 v1: string -> TokenCheck, v2: string -> TokenCheck)
    requires IsPublicApi(path)
    ensures Filter(Request(path, a1), v1) == Filter(Request(path, a2), v2) == Forward
  {
  }

  /**
   Only the first Authorization value is read: later values neither admit
   nor reject a request.
   */
  lemma OnlyFirstValueCounts(path: string, first: string, rest1: seq<string>, rest2: seq<string>,
                             validate: string -> TokenCheck)
    ensures Filter(Request(path, Some([first] + rest1)), validate) ==
            Filter(Request(path, Some([first] + rest2)), validate)
  {
  }
}
