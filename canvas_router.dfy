/**
 * backend/src/trpc/router/canvas/index.ts: the `authenticateAccessToken`
 * mutation. The Canvas client is a parameter: what its constructor and its
 * `/users/self` request throw, if anything, for a given token.
 */
module CanvasRouter {
  import opened Wrappers
  import opened Text
  import opened Trpc

  const ApiUrl := "https://canvas.instructure.com"

  const AccessTokenRequired := "Access token is required"
  const AuthenticationFailed := "Authentication failed"
  const InvalidAccessToken := "Invalid access token"
  const InsufficientPermissions := "Insufficient permissions"
  const UnableToAuthenticate := "Unable to authenticate with Canvas"

  /** What `new CanvasApi(url, token)` and `canvas.get("/users/self")` throw; `None` when they succeed. */
  datatype CanvasClient = CanvasClient(construct: (string, string) -> Option<Thrown>,
                                       getSelf: string -> Option<Thrown>)

  datatype AuthReply = AuthReply(success: bool)

  /** index.ts:26-31: any failure of the self request becomes UNAUTHORIZED. */
  function SelfRequestError(t: Thrown): TrpcError {
    TrpcError(Unauthorized, if IsError(t) then ErrorMessage(t) else AuthenticationFailed)
  }

  /** index.ts:44-75: the outer `catch`. */
  function Classify(t: Thrown): TrpcError {
    if t.ThrownTrpc? then t.err
    else if t.ThrownError? && (Contains(t.message, "401") || Contains(t.message, "Unauthorized")) then
      TrpcError(Unauthorized, InvalidAccessToken)
    else if t.ThrownError? && (Contains(t.message, "403") || Contains(t.message, "Forbidden")) then
      TrpcError(Forbidden, InsufficientPermissions)
    else TrpcError(InternalServerError, UnableToAuthenticate)
  }

  /** `m` has `sub` somewhere in it. */
  ghost predicate Mentions(m: string, sub: string) {
    exists i :: OccursAt(m, sub, i)
  }

  /**
   * The outer classification: a `TRPCError` passes unchanged; an `Error`
   * whose message mentions 401 or Unauthorized is an invalid token, else one
   * mentioning 403 or Forbidden is a permissions error; anything else is
   * internal.
   */
  lemma ClassifyOutcomes(t: Thrown)
    ensures t.ThrownTrpc? ==> Classify(t) == t.err
    ensures t.ThrownValue? ==> Classify(t) == TrpcError(InternalServerError, UnableToAuthenticate)
    ensures t.ThrownError? ==>
      var m := t.message;
      && (Classify(t) == TrpcError(Unauthorized, InvalidAccessToken) <==> Mentions(m, "401") || Mentions(m, "Unauthorized"))
      && (Classify(t) == TrpcError(Forbidden, InsufficientPermissions) <==>
            !Mentions(m, "401") && !Mentions(m, "Unauthorized") && (Mentions(m, "403") || Mentions(m, "Forbidden")))
      && (Classify(t) == TrpcError(InternalServerError, UnableToAuthenticate) <==>
            !Mentions(m, "401") && !Mentions(m, "Unauthorized") && !Mentions(m, "403") && !Mentions(m, "Forbidden"))
  {
    if t.ThrownError? {
      ContainsIff(t.message, "401");
      ContainsIff(t.message, "Unauthorized");
      ContainsIff(t.message, "403");
      ContainsIff(t.message, "Forbidden");
    }
  }

  /** index.ts:7-76. */
  function AuthenticateAccessToken(accessToken: string, canvas: CanvasClient): Outcome<AuthReply> {
    if |accessToken| < 1 then Rejected(TrpcError(BadRequest, AccessTokenRequired))
    else match canvas.construct(ApiUrl, accessToken)
      case Some(t) => Rejected(Classify(t))
      case None =>
        match canvas.getSelf(accessToken)
        case Some(t) => Rejected(Classify(ThrownTrpc(SelfRequestError(t))))
        case None => Resolved(AuthReply(true))
  }

  /**
   * The mutation resolves exactly when the token is non-empty and neither the
   * client nor its self request throws. A failing self request always
   * surfaces as UNAUTHORIZED with the request's own message, whatever that
   * message says, so the 403 classification applies only to a throwing
   * constructor.
   */
  lemma AuthenticateOutcomes(accessToken: string, canvas: CanvasClient)
    ensures var r := AuthenticateAccessToken(accessToken, canvas);
      && (accessToken == "" ==> r == Rejected(TrpcError(BadRequest, AccessTokenRequired)))
      && (r.Resolved? <==> accessToken != "" && canvas.construct(ApiUrl, accessToken).None? && canvas.getSelf(accessToken).None?)
      && (r.Resolved? ==> r.reply.success)
      && (accessToken != "" && canvas.construct(ApiUrl, accessToken).Some? ==>
            r == Rejected(Classify(canvas.construct(ApiUrl, accessToken).value)))
      && (accessToken != "" && canvas.construct(ApiUrl, accessToken).None? && canvas.getSelf(accessToken).Some? ==>
            var t := canvas.getSelf(accessToken).value;
            && r.Rejected? && r.err.code == Unauthorized
            && (t.ThrownError? ==> r.err.message == t.message)
            && (t.ThrownValue? ==> r.err.message == AuthenticationFailed))
  {
  }

  /** A self request rejected with a 403 message is reported as UNAUTHORIZED, not FORBIDDEN. */
  lemma SelfForbiddenIsUnauthorized(accessToken: string, canvas: CanvasClient, m: string)
    requires accessToken != "" && canvas.construct(ApiUrl, accessToken).None?
    requires canvas.getSelf(accessToken) == Some(ThrownError(m))
    ensures AuthenticateAccessToken(accessToken, canvas) == Rejected(TrpcError(Unauthorized, m))
    ensures Mentions(m, "403") ==> AuthenticateAccessToken(accessToken, canvas).err.code != Forbidden
  {
  }
}
