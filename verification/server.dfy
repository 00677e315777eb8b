/**
 * How cmd/main.go wires the packages together: the configuration's token is
 * handed to the bearer middleware that guards "/metrics" and "/prometheus".
 */
module Server {
  import Middleware
  import Config
  import Http

  /** A protected route: the middleware built from the configuration, in front of a handler's answer. */
  function Protected(cfg: Config.Config, header: string, next: Http.Response): (r: Middleware.Outcome)
    ensures r.nextCalled ==> r.response == next
    ensures !r.nextCalled ==> r.response.status == Http.StatusUnauthorized
  {
    Middleware.AuthMiddleware(cfg.expectedAuthToken, header, next)
  }

  /**
   * A started server can be reached with some header exactly when the
   * configured token has no space; otherwise the protected routes are shut
   * for every request.
   */
  lemma ConfiguredTokenUsable(portEnv: string, tokenEnv: string, next: Http.Response)
    requires Config.New(portEnv, tokenEnv).Ok?
    ensures var cfg := Config.New(portEnv, tokenEnv).value;
      (exists header :: Protected(cfg, header, next).nextCalled) <==> ' ' !in cfg.expectedAuthToken
  {
    var cfg := Config.New(portEnv, tokenEnv).value;
    var t := cfg.expectedAuthToken;
    if ' ' !in t {
      Middleware.AcceptsBearerToken(t);
      assert Protected(cfg, "Bearer " + t, next).nextCalled;
    } else {
      forall header ensures !Protected(cfg, header, next).nextCalled {
        Middleware.TokenWithSpaceNeverAccepted(header, t);
      }
    }
  }

  /** The configured token is never empty, so the header "Bearer " never gets through. */
  lemma RefusesEmptyBearer(portEnv: string, tokenEnv: string, next: Http.Response)
    requires Config.New(portEnv, tokenEnv).Ok?
    ensures !Protected(Config.New(portEnv, tokenEnv).value, "Bearer ", next).nextCalled
  {
    Middleware.EmptyTokenHeader(Config.New(portEnv, tokenEnv).value.expectedAuthToken);
  }
}
