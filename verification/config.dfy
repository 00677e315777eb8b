/**
 * Start-up configuration of internal/config: the listening port (default
 * "8080") and the expected bearer token, trimmed of surrounding white space
 * and required to be non-empty. Environment variables are parameters; an
 * unset variable reads as the empty string.
 */
module Config {
  import opened Wrappers
  import opened Text

  const DefaultPort := "8080"

  datatype Config = Config(port: string, expectedAuthToken: string)

  datatype ConfigError = ConfigError(msg: string)

  /** The one error New can return. */
  const ErrMissingAuthToken := ConfigError("EXPECTED_AUTH_TOKEN não definido")

  /** `ConfigError.Error()`. */
  function Error(e: ConfigError): string
  {
    e.msg
  }

  /** A blank token variable is reported with the message the source defines for it. */
  lemma MissingTokenText(portEnv: string, tokenEnv: string)
    requires AllSpace(tokenEnv)
    ensures New(portEnv, tokenEnv).Err?
    ensures Error(New(portEnv, tokenEnv).error) == "EXPECTED_AUTH_TOKEN não definido"
  {
  }

  /**
   * `New()` with `portEnv` = PORT and `tokenEnv` = EXPECTED_AUTH_TOKEN.
   * It fails exactly when the token is nothing but white space; otherwise
   * the stored token is non-empty and neither starts nor ends with white
   * space (`TokenIsTrimmed` says where it comes from).
   */
  function New(portEnv: string, tokenEnv: string): (r: Result<Config, ConfigError>)
    ensures r.Err? <==> AllSpace(tokenEnv)
    ensures r.Err? ==> r.error == ErrMissingAuthToken
    ensures r.Ok? ==> r.value.port == (if portEnv == "" then DefaultPort else portEnv)
    ensures r.Ok? ==> r.value.port != "" && r.value.expectedAuthToken != ""
    ensures r.Ok? ==> TrimmedEnds(r.value.expectedAuthToken)
  {
    var port := if portEnv == "" then DefaultPort else portEnv;
    var expectedToken := TrimSpace(tokenEnv);
    TrimSpaceEmpty(tokenEnv);
    if expectedToken == "" then Err(ErrMissingAuthToken)
    else Ok(Config(port, expectedToken))
  }

  /** The stored token is the variable with white space, and only white space, cut from either end. */
  lemma TokenIsTrimmed(portEnv: string, tokenEnv: string)
    requires New(portEnv, tokenEnv).Ok?
    ensures exists i, j :: 0 <= i <= j <= |tokenEnv| && New(portEnv, tokenEnv).value.expectedAuthToken == tokenEnv[i..j]
                && AllSpace(tokenEnv[..i]) && AllSpace(tokenEnv[j..])
  {
    var i, j := TrimSpaceBounds(tokenEnv);
  }

  /**
   * Feeding the stored token back as the variable reproduces it: the token
   * is already in its trimmed form.
   */
  lemma TokenStable(portEnv: string, tokenEnv: string)
    requires New(portEnv, tokenEnv).Ok?
    ensures New(portEnv, New(portEnv, tokenEnv).value.expectedAuthToken) == New(portEnv, tokenEnv)
  {
    TrimSpaceIdempotent(tokenEnv);
  }

  /** Surrounding white space in the variable does not change the configuration. */
  lemma PaddingIgnored(portEnv: string, tokenEnv: string, pad: string)
    requires AllSpace(pad)
    ensures New(portEnv, pad + tokenEnv + pad) == New(portEnv, tokenEnv)
  {
    TrimSpacePadded(tokenEnv, pad);
  }
}
