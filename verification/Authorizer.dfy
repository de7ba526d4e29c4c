/** The guard every todo route runs first: take the bearer token from the Authorization
    header and verify it into the caller's user id. */
module Authorizer {
  import opened Wrappers
  import opened Strings
  import opened Store

  /** `authorization?.split(" ")[1]`: the second space-separated segment of the header,
      absent when there is no header or no space. The first word is not inspected. */
  function BearerToken(header: Option<string>): (token: Option<string>)
    ensures header.None? ==> token.None?
    ensures token.Some? ==> header.Some? && ' ' !in token.value
    ensures token.Some? ==> exists k :: 0 <= k < |header.value| && header.value[k] == ' '
  {
    match header
    case None => None
    case Some(h) =>
      var parts := Split(h, ' ');
      if |parts| < 2 then None
      else
        assert h[|parts[0]|] == ' ' by {
          assert h == parts[0] + [' '] + Join(parts[1..], ' ');
        }
        Some(parts[1])
  }

  /** A header `w t rest...` whose words contain no space yields exactly its second word `t`,
      whatever the first word is (`Bearer`, `Basic` or anything else). */
  lemma BearerTokenIsSecondWord(words: seq<string>)
    requires |words| >= 2 && SeparatorFree(words, ' ')
    ensures BearerToken(Some(Join(words, ' '))) == Some(words[1])
  {
    SplitJoin(words, ' ');
  }

  /** The usual `scheme + " " + token` form yields the token. */
  lemma BearerTokenOfSchemeAndToken(scheme: string, token: string)
    requires ' ' !in scheme && ' ' !in token
    ensures BearerToken(Some(scheme + " " + token)) == Some(token)
  {
    var words := [scheme, token];
    assert Join(words, ' ') == scheme + " " + token by {
      assert words[1..] == [token];
    }
    BearerTokenIsSecondWord(words);
  }

  /** A header with no space carries no token. */
  lemma BearerTokenNeedsSpace(h: string)
    requires ' ' !in h
    ensures BearerToken(Some(h)) == None
  {
    SplitWithoutSeparator(h, ' ');
  }

  /** The authorization prologue of every todo route: 401 "Unauthorized" when the token is
      absent or empty (`!token`), 401 "Invalid token" when verification throws, and the
      `id` claim of the verified token otherwise. */
  function Authorize(f: Foreign, header: Option<string>): (r: Result<int, Failure>)
    ensures r.Err? ==> r.error in {MissingToken, InvalidToken}
    ensures r.Err? && r.error == MissingToken <==> BearerToken(header) in {None, Some("")}
    ensures r.Ok? <==> exists t :: BearerToken(header) == Some(t) && t != "" && f.verify(t).Some?
    ensures r.Ok? ==> f.verify(BearerToken(header).value) == Some(r.value)
  {
    match BearerToken(header)
    case None => Err(MissingToken)
    case Some(t) =>
      if t == "" then Err(MissingToken)
      else
        match f.verify(t)
        case None => Err(InvalidToken)
        case Some(uid) => Ok(uid)
  }

  /** A well-formed `scheme token` header authorizes exactly as the token verifies. */
  lemma AuthorizeSchemeAndToken(f: Foreign, scheme: string, token: string)
    requires ' ' !in scheme && ' ' !in token && token != ""
    ensures f.verify(token).None? ==> Authorize(f, Some(scheme + " " + token)) == Err(InvalidToken)
    ensures f.verify(token).Some? ==> Authorize(f, Some(scheme + " " + token)) == Ok(f.verify(token).value)
  {
    BearerTokenOfSchemeAndToken(scheme, token);
  }
}
