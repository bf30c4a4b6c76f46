/** The header check of telegram_http/main.py. The FastAPI route and the
    Telegram client behind it are left out; the configured token (the
    `TOKEN` environment variable) is a parameter, and which characters
    `str.split()` treats as whitespace is a parameter. */
module TelegramHttp {
  import opened Common

  /** "bearer" in any case. `str.lower()` maps no character other than the
      ASCII letters onto the letters of "bearer", so ASCII lower-casing is
      exact here. */
  predicate IsBearer(word: string)
  {
    |word| == 6 && forall i :: 0 <= i < 6 ==> ToLower(word[i]) == "bearer"[i]
  }

  /** `get_bearer_token`: with a header, the token is the second word when
      there are exactly two words, whatever the first one is, or when the
      first word is "bearer" in any case. Indexing a missing word raises
      IndexError: an empty or all-whitespace header, or a lone "bearer". */
  function GetBearerToken(authorization: Option<string>, isSpace: char -> bool): (r: Result<Option<string>>)
    ensures authorization.None? ==> r == Ok(None)
    ensures authorization.Some? ==>
      var parts := Split(authorization.value, isSpace);
      && (|parts| == 2 ==> r == Ok(Some(parts[1])))
      && (|parts| > 2 ==> r == (if IsBearer(parts[0]) then Ok(Some(parts[1])) else Ok(None)))
      && (parts == [] ==> r == Err(IndexError))
      && (|parts| == 1 ==> r == (if IsBearer(parts[0]) then Err(IndexError) else Ok(None)))
    ensures r.Ok? && r.value.Some? ==>
      var t := r.value.value;
      t != [] && forall i :: 0 <= i < |t| ==> !isSpace(t[i])
  {
    if authorization.None? then Ok(None)
    else
      var parts := Split(authorization.value, isSpace);
      if |parts| == 2 then Ok(Some(parts[1]))
      else if parts == [] then Err(IndexError)
      else if IsBearer(parts[0]) then
        if |parts| < 2 then Err(IndexError) else Ok(Some(parts[1]))
      else Ok(None)
  }

  /** `verify_bearer_token`: with no configured token every request passes;
      otherwise the extracted token must equal it exactly, and anything else
      is refused with 401. */
  function VerifyBearerToken(configured: Option<string>, token: Option<string>): (r: Result<bool>)
    ensures r.Ok? <==> configured.None? || token == configured
    ensures r.Ok? ==> r.value
    ensures r.Err? ==> r.error == HttpUnauthorized
  {
    if configured.None? || token == configured then Ok(true) else Err(HttpUnauthorized)
  }

  /** The header a client is meant to send, "Bearer <token>", yields the
      token, and so passes the check against that configured token. */
  lemma BearerHeaderAccepted(token: string, isSpace: char -> bool)
    requires token != [] && forall i :: 0 <= i < |token| ==> !isSpace(token[i])
    requires isSpace(' ') && forall i :: 0 <= i < 6 ==> !isSpace("Bearer"[i])
    ensures GetBearerToken(Some("Bearer " + token), isSpace) == Ok(Some(token))
    ensures VerifyBearerToken(Some(token), GetBearerToken(Some("Bearer " + token), isSpace).value) == Ok(true)
  {
    SplitSingleWord(token, isSpace);
    SplitWordThenRest("Bearer", ' ', token, isSpace);
    assert "Bearer " + token == "Bearer" + [' '] + token;
  }

  /** The scheme is not checked: any two-word header hands over its second
      word, so "Basic <token>" is accepted as well. */
  lemma AnySchemeAccepted(scheme: string, token: string, isSpace: char -> bool)
    requires scheme != [] && forall i :: 0 <= i < |scheme| ==> !isSpace(scheme[i])
    requires token != [] && forall i :: 0 <= i < |token| ==> !isSpace(token[i])
    requires isSpace(' ')
    ensures GetBearerToken(Some(scheme + " " + token), isSpace) == Ok(Some(token))
  {
    SplitSingleWord(token, isSpace);
    SplitWordThenRest(scheme, ' ', token, isSpace);
    assert scheme + " " + token == scheme + [' '] + token;
  }

  /** A lone scheme word: "bearer" in any case raises, any other word gives
      no token. */
  lemma LoneWord(word: string, isSpace: char -> bool)
    requires word != [] && forall i :: 0 <= i < |word| ==> !isSpace(word[i])
    ensures GetBearerToken(Some(word), isSpace) == if IsBearer(word) then Err(IndexError) else Ok(None)
  {
    SplitSingleWord(word, isSpace);
  }

  /** With a configured token, a request without a header is refused. */
  lemma MissingHeaderRefused(configured: string, isSpace: char -> bool)
    ensures VerifyBearerToken(Some(configured), GetBearerToken(None, isSpace).value) == Err(HttpUnauthorized)
  {
  }
}
