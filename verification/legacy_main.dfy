/**
 * The request gate and start-up of the single-file program main.go: its
 * bearer check answers 401 with one of three messages, and it reads the
 * expected token at start-up, refusing to start when the variable is empty
 * and only then trimming it.
 */
module LegacyMain {
  import opened Wrappers
  import opened Text
  import Http
  import Middleware
  import Config

  const NoTokenMessage := "Acesso não autorizado: token não fornecido"
  const BadFormatMessage := "Acesso não autorizado: formato de token inválido"
  const BadTokenMessage := "Acesso não autorizado: token inválido"

  /** Exactly two space-separated parts, the first "bearer" in any case. */
  predicate WellFormed(header: string)
  {
    var parts := Split(header, ' ');
    |parts| == 2 && ToLower(parts[0]) == Middleware.Scheme
  }

  /** The token part of a well-formed header. */
  function Presented(header: string): string
    requires WellFormed(header)
  {
    Split(header, ' ')[1]
  }

  /**
   * `authMiddleware(next)`: a missing header, a malformed one and a wrong
   * token are each refused with their own message.
   */
  function Authenticate(expected: string, header: string, next: Http.Response): (r: Middleware.Outcome)
    ensures r.nextCalled <==> header != "" && WellFormed(header) && Presented(header) == expected
    ensures r.nextCalled ==> r.response == next
    ensures header == "" ==> r.response == Http.Error(NoTokenMessage, Http.StatusUnauthorized)
    ensures header != "" && !WellFormed(header) ==> r.response == Http.Error(BadFormatMessage, Http.StatusUnauthorized)
    ensures header != "" && WellFormed(header) && Presented(header) != expected ==>
      r.response == Http.Error(BadTokenMessage, Http.StatusUnauthorized)
  {
    if header == "" then
      Middleware.Outcome(Http.Error(NoTokenMessage, Http.StatusUnauthorized), false)
    else if !WellFormed(header) then
      Middleware.Outcome(Http.Error(BadFormatMessage, Http.StatusUnauthorized), false)
    else if Presented(header) != expected then
      Middleware.Outcome(Http.Error(BadTokenMessage, Http.StatusUnauthorized), false)
    else Middleware.Outcome(next, true)
  }

  /**
   * The program's gate and the middleware package let the same requests
   * through; only the refusal messages differ.
   */
  lemma SameAcceptance(expected: string, header: string, next: Http.Response)
    ensures Authenticate(expected, header, next).nextCalled == Middleware.AuthMiddleware(expected, header, next).nextCalled
    ensures !Authenticate(expected, header, next).nextCalled ==>
      Authenticate(expected, header, next).response.status == Middleware.AuthMiddleware(expected, header, next).response.status
  {
    if header == "" {
      Middleware.RejectsMissingHeader(expected);
    }
  }

  /** Every refusal is a 401 carrying exactly one of the three messages. */
  lemma RefusalMessages(expected: string, header: string, next: Http.Response)
    requires !Authenticate(expected, header, next).nextCalled
    ensures Authenticate(expected, header, next).response.status == Http.StatusUnauthorized
    ensures Authenticate(expected, header, next).response.body in
      {NoTokenMessage + "\n", BadFormatMessage + "\n", BadTokenMessage + "\n"}
  {
  }

  // ----- start-up -----

  /**
   * The expected token as main.go reads it: `None` is the exit on an empty
   * variable; anything else is trimmed after the check.
   */
  function LegacyStartupToken(tokenEnv: string): (r: Option<string>)
    ensures r.None? <==> tokenEnv == ""
    ensures r.Some? ==> (r.value == "" <==> AllSpace(tokenEnv))
  {
    TrimSpaceEmpty(tokenEnv);
    if tokenEnv == "" then None else Some(TrimSpace(tokenEnv))
  }

  /**
   * A variable holding only white space passes the emptiness check and then
   * trims to the empty token, and with it the header "Bearer " is let in.
   */
  lemma BlankTokenOpensGate(next: Http.Response)
    ensures LegacyStartupToken(" ") == Some("")
    ensures Authenticate(LegacyStartupToken(" ").value, "Bearer ", next) == Middleware.Outcome(next, true)
  {
    assert AllSpace(" ");
    Middleware.EmptyTokenHeader("");
    SameAcceptance("", "Bearer ", next);
  }

  /** The start-up read with the trim done first, as the configuration package does it. */
  function StartupToken(tokenEnv: string): (r: Option<string>)
    ensures r.None? <==> AllSpace(tokenEnv)
    ensures r.Some? ==> r.value != "" && !IsSpace(r.value[0]) && !IsSpace(r.value[|r.value| - 1])
  {
    var t := TrimSpace(tokenEnv);
    TrimSpaceEmpty(tokenEnv);
    if t == "" then None else Some(t)
  }

  /** The corrected read accepts exactly the tokens the configuration package accepts, and stores the same one. */
  lemma StartupTokenMatchesConfig(portEnv: string, tokenEnv: string)
    ensures StartupToken(tokenEnv).Some? <==> Config.New(portEnv, tokenEnv).Ok?
    ensures StartupToken(tokenEnv).Some? ==>
      StartupToken(tokenEnv).value == Config.New(portEnv, tokenEnv).value.expectedAuthToken
  {
  }

  /** With the corrected read, a server that starts never lets "Bearer " in. */
  lemma StartedServerRefusesEmptyBearer(tokenEnv: string, next: Http.Response)
    requires StartupToken(tokenEnv).Some?
    ensures !Authenticate(StartupToken(tokenEnv).value, "Bearer ", next).nextCalled
  {
    Middleware.EmptyTokenHeader(StartupToken(tokenEnv).value);
    SameAcceptance(StartupToken(tokenEnv).value, "Bearer ", next);
  }

  /** The two reads differ exactly on non-empty, all-white-space variables. */
  lemma ReadsDifferOnlyOnBlank(tokenEnv: string)
    ensures LegacyStartupToken(tokenEnv) != StartupToken(tokenEnv) <==> tokenEnv != "" && AllSpace(tokenEnv)
  {
  }

  /** `PORT`, defaulting to "8080"; the server listens on ":" + port. */
  function ListenAddress(portEnv: string): (r: string)
    ensures |r| > 1 && r[0] == ':'
    ensures portEnv != "" ==> r[1..] == portEnv
    ensures portEnv == "" ==> r == ":8080"
  {
    ":" + (if portEnv == "" then Config.DefaultPort else portEnv)
  }

  /** The program and the configuration package pick the same port. */
  lemma ListenAddressMatchesConfig(portEnv: string, tokenEnv: string)
    requires Config.New(portEnv, tokenEnv).Ok?
    ensures ListenAddress(portEnv) == ":" + Config.New(portEnv, tokenEnv).value.port
  {
  }
}
