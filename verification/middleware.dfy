/**
 * The bearer-token check of internal/middleware: the Authorization header is
 * split on single spaces; it must give exactly two parts, the first equal to
 * "bearer" ignoring case and the second equal to the configured token.
 * Anything else is answered 401 "unauthorized" and the wrapped handler is not
 * called.
 */
module Middleware {
  import opened Text
  import Http

  const Scheme := "bearer"
  const UnauthorizedMessage := "unauthorized"

  /** The condition under which a request is let through. */
  predicate Authorized(header: string, expected: string)
  {
    var parts := Split(header, ' ');
    |parts| == 2 && ToLower(parts[0]) == Scheme && parts[1] == expected
  }

  /** "bearer" spelled with each letter in either case. */
  predicate IsBearerWord(s: string)
  {
    |s| == |Scheme| && forall i :: 0 <= i < |s| ==> s[i] == Scheme[i] || s[i] == UpperChar(Scheme[i])
  }

  /** What one request produces: the response, and whether the wrapped handler ran. */
  datatype Outcome = Outcome(response: Http.Response, nextCalled: bool)

  /**
   * `AuthMiddleware(expected)(next)` on a request whose Authorization header
   * is `header` (the empty string when absent); `next` is what the wrapped
   * handler would answer.
   */
  function AuthMiddleware(expected: string, header: string, next: Http.Response): (r: Outcome)
    ensures r.nextCalled <==> Authorized(header, expected)
    ensures r.nextCalled ==> r.response == next
    ensures !r.nextCalled ==> r.response == Http.Response(Http.StatusUnauthorized, "unauthorized\n")
  {
    if Authorized(header, expected) then Outcome(next, true)
    else Outcome(Http.Error(UnauthorizedMessage, Http.StatusUnauthorized), false)
  }

  /** The two spellings the documentation and the tests use. */
  lemma BearerSpellings()
    ensures IsBearerWord("Bearer") && IsBearerWord("bearer")
  {
    var upper, lower := "Bearer", "bearer";
    forall i | 0 <= i < |upper| ensures upper[i] == Scheme[i] || upper[i] == UpperChar(Scheme[i]) {
    }
    forall i | 0 <= i < |lower| ensures lower[i] == Scheme[i] {
    }
  }

  /** No spelling of the scheme contains a space. */
  lemma BearerWordHasNoSpace(scheme: string)
    requires IsBearerWord(scheme)
    ensures ' ' !in scheme
  {
    forall i | 0 <= i < |scheme| ensures scheme[i] != ' ' {
      assert scheme[i] == Scheme[i] || scheme[i] == UpperChar(Scheme[i]);
    }
  }

  /** An accepted header is a spelling of the scheme, one space and the expected token. */
  lemma AuthorizedShape(header: string, expected: string)
    requires Authorized(header, expected)
    ensures ' ' !in expected
    ensures exists scheme :: IsBearerWord(scheme) && header == scheme + " " + expected
  {
    var parts := Split(header, ' ');
    SplitTwoParts(header, ' ');
    LowerEqualsWord(parts[0], Scheme);
    var a: string, b: string :| ' ' !in a && ' ' !in b && header == a + [' '] + b;
    SplitJoin([a, b], ' ');
    assert [a, b][1..] == [b];
    assert parts == [a, b];
    assert IsBearerWord(a);
    assert header == a + " " + expected;
  }

  /** A spelling of the scheme, one space and a space-free token form an accepted header. */
  lemma ShapeAuthorized(scheme: string, expected: string)
    requires IsBearerWord(scheme) && ' ' !in expected
    ensures Authorized(scheme + " " + expected, expected)
  {
    BearerWordHasNoSpace(scheme);
    SplitJoin([scheme, expected], ' ');
    assert [scheme, expected][1..] == [expected];
    assert scheme + " " + expected == Join([scheme, expected], ' ');
    LowerEqualsWord(scheme, Scheme);
  }

  /**
   * The header is accepted exactly when it is a spelling of "bearer", one
   * space, and the expected token, and the token itself has no space.
   */
  lemma AuthorizedIff(header: string, expected: string)
    ensures Authorized(header, expected) <==>
      ' ' !in expected && exists scheme :: IsBearerWord(scheme) && header == scheme + " " + expected
  {
    if Authorized(header, expected) {
      AuthorizedShape(header, expected);
    }
    if ' ' !in expected && exists scheme :: IsBearerWord(scheme) && header == scheme + " " + expected {
      var scheme :| IsBearerWord(scheme) && header == scheme + " " + expected;
      ShapeAuthorized(scheme, expected);
    }
  }

  /** The header the documentation asks clients to send is accepted, in any case of the scheme. */
  lemma AcceptsBearerToken(expected: string)
    requires ' ' !in expected
    ensures Authorized("Bearer " + expected, expected)
    ensures Authorized("bearer " + expected, expected)
  {
    BearerSpellings();
    ShapeAuthorized("Bearer", expected);
    ShapeAuthorized("bearer", expected);
    assert "Bearer " + expected == "Bearer" + " " + expected;
    assert "bearer " + expected == "bearer" + " " + expected;
  }

  /** A configured token containing a space can never be presented. */
  lemma TokenWithSpaceNeverAccepted(header: string, expected: string)
    requires ' ' in expected
    ensures !Authorized(header, expected)
  {
    AuthorizedIff(header, expected);
  }

  /** A missing header reads as the empty string, which splits into one part. */
  lemma RejectsMissingHeader(expected: string)
    ensures !Authorized("", expected)
  {
    SplitNoSeparator("", ' ');
  }

  /** A header without a space is one part. */
  lemma RejectsWithoutSpace(header: string, expected: string)
    requires ' ' !in header
    ensures !Authorized(header, expected)
  {
    SplitNoSeparator(header, ' ');
  }

  /** A scheme followed by one space carries the empty token, which matches only an empty expected token. */
  lemma SchemeOnlyHeader(scheme: string, expected: string)
    requires IsBearerWord(scheme)
    ensures Authorized(scheme + [' '], expected) <==> expected == ""
  {
    BearerWordHasNoSpace(scheme);
    SplitAfterFirstPart(scheme, ' ', []);
    SplitNoSeparator([], ' ');
    assert scheme + [' '] == scheme + [' '] + [];
    LowerEqualsWord(scheme, Scheme);
  }

  /** In particular "Bearer " is accepted only when the expected token is empty. */
  lemma EmptyTokenHeader(expected: string)
    ensures Authorized("Bearer ", expected) <==> expected == ""
  {
    var scheme := "Bearer";
    BearerSpellings();
    assert "Bearer " == scheme + [' '];
    SchemeOnlyHeader(scheme, expected);
  }

  /** Two spaces between a scheme and the token give three parts. */
  lemma RejectsDoubleSpace(scheme: string, expected: string)
    requires ' ' !in scheme && ' ' !in expected
    ensures !Authorized(scheme + [' ', ' '] + expected, expected)
  {
    var rest := [' '] + expected;
    SplitAfterFirstPart(scheme, ' ', rest);
    SplitAfterFirstPart([], ' ', expected);
    SplitNoSeparator(expected, ' ');
    assert scheme + [' ', ' '] + expected == scheme + [' '] + rest;
    assert rest == [] + [' '] + expected;
  }

  /** The scheme has a fixed length, so the token is whatever follows its space. */
  lemma TokenAfterScheme(a: string, b: string, x: string, y: string)
    requires IsBearerWord(a) && IsBearerWord(b)
    ensures a + " " + x == b + " " + y ==> x == y
  {
    if a + " " + x == b + " " + y {
      assert x == (a + " " + x)[|Scheme| + 1..];
      assert y == (b + " " + y)[|Scheme| + 1..];
    }
  }

  /** A header with the right scheme and another token is rejected. */
  lemma RejectsOtherToken(token: string, expected: string)
    requires token != expected
    ensures !Authorized("Bearer " + token, expected)
  {
    AuthorizedIff("Bearer " + token, expected);
    BearerSpellings();
    assert "Bearer " + token == "Bearer" + " " + token;
    forall scheme | IsBearerWord(scheme)
      ensures "Bearer" + " " + token != scheme + " " + expected
    {
      TokenAfterScheme("Bearer", scheme, token, expected);
    }
  }

  /** The token of the middleware's table-driven test. */
  const TestToken := "valid-token-123"

  /** The accepted case of that test: the header "Bearer " followed by the token. */
  lemma TestValidToken(next: Http.Response)
    ensures AuthMiddleware(TestToken, "Bearer " + TestToken, next) == Outcome(next, true)
  {
    AcceptsBearerToken(TestToken);
  }

  /** The rejected cases of the same test: each is answered 401 "unauthorized". */
  lemma TestRejected(next: Http.Response)
    ensures AuthMiddleware(TestToken, "", next) == Outcome(Http.Response(401, "unauthorized\n"), false)
    ensures AuthMiddleware(TestToken, "Bearer " + "invalid-token", next) == Outcome(Http.Response(401, "unauthorized\n"), false)
    ensures AuthMiddleware(TestToken, "InvalidFormat", next) == Outcome(Http.Response(401, "unauthorized\n"), false)
    ensures AuthMiddleware(TestToken, "Bearer ", next) == Outcome(Http.Response(401, "unauthorized\n"), false)
  {
    RejectsMissingHeader(TestToken);
    RejectsOtherToken("invalid-token", TestToken);
    RejectsWithoutSpace("InvalidFormat", TestToken);
    EmptyTokenHeader(TestToken);
  }
}
