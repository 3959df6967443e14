/**
 * What `executeKiteWebLogin` and the request-token extraction promise, proved of
 * their specification functions `LoginRun` and `RequestTokenFrom`.
 */
module ZerodhaProperties {
  import opened Wrappers
  import opened JavaStrings
  import opened QueryParsing
  import opened Zerodha

  /** The browser login is attempted: the credentials are complete and no cached token was accepted. */
  predicate ReachesWebLogin(cred: Credentials, file: Option<string>, env: Collaborators)
  {
    cred.Complete() && (file.None? || env.cachedProbe.IOFail? || env.cachedProbe.KiteFail?)
  }

  /** The request token the login sends to `generateSession`. */
  function RequestToken(cred: Credentials, env: Collaborators): Outcome<Option<string>>
    requires cred.Complete()
  {
    RequestTokenFrom(env.browser, cred.redirectUrl.value, env.urlAccepted, env.decode)
  }

  /** Some step of the login `try` threw an IOException. */
  predicate LoginIOException(cred: Credentials, env: Collaborators)
    requires cred.Complete()
  {
    var token := RequestToken(cred, env);
    || token.IOFail?
    || (token.Ok? && env.session.IOFail?)
    || (token.Ok? && env.session.Ok? && env.confirmProbe.IOFail?)
  }

  /** Some step of the login `try` threw a KiteException. */
  predicate LoginKiteException(cred: Credentials, env: Collaborators)
    requires cred.Complete()
  {
    var token := RequestToken(cred, env);
    || (token.Ok? && env.session.KiteFail?)
    || (token.Ok? && env.session.Ok? && env.confirmProbe.KiteFail?)
  }

  /** Every step of the login `try` returned normally. */
  predicate LoginSucceeds(cred: Credentials, env: Collaborators)
    requires cred.Complete()
  {
    RequestToken(cred, env).Ok? && env.session.Ok? && env.confirmProbe.Ok?
  }

  /** A null constructor argument throws before the client is created or the token file is read. */
  lemma MissingCredentialThrowsFirst(cred: Credentials, file: Option<string>, client: Option<KiteConnect>,
                                     env: Collaborators)
    requires !cred.Complete()
    ensures LoginRun(cred, file, client, env) == Run(Threw(MissingCredential), file, client, [])
  {
  }

  /** The browser login's calls start with the browser and never return to it. */
  lemma WebLoginRunCalls(cred: Credentials, file: Option<string>, client: KiteConnect, env: Collaborators)
    requires cred.Complete()
    ensures var calls := WebLoginRun(cred, file, client, env).calls;
      && 1 <= |calls| <= 4
      && calls[0] == BrowserLogin(cred.apiKey.value, cred.userId.value, cred.password.value,
                                  cred.twoFactorPin.value, cred.redirectUrl.value)
      && forall i | 1 <= i < |calls| :: !calls[i].BrowserLogin? && !calls[i].ReadTokenFile?
  {
  }

  /** Without a token file the flow goes from reading it straight to the browser login. */
  lemma AbsentTokenFileGoesToWebLogin(cred: Credentials, client: Option<KiteConnect>, env: Collaborators)
    requires cred.Complete()
    ensures var run := LoginRun(cred, None, client, env);
      && |run.calls| >= 2
      && run.calls[..2] == [ReadTokenFile, BrowserLogin(cred.apiKey.value, cred.userId.value, cred.password.value,
                                                         cred.twoFactorPin.value, cred.redirectUrl.value)]
  {
    WebLoginRunCalls(cred, None, KiteConnect(cred.apiKey.value, cred.userId.value, None, None), env);
  }

  /** A cached token the profile probe accepts ends the run: no browser login, no write, client holds that token. */
  lemma ValidCachedTokenSkipsWebLogin(cred: Credentials, token: string, client: Option<KiteConnect>,
                                      env: Collaborators)
    requires cred.Complete() && env.cachedProbe.Ok?
    ensures LoginRun(cred, Some(token), client, env) ==
      Run(Returned(()), Some(token),
          Some(KiteConnect(cred.apiKey.value, cred.userId.value, Some(token), None)),
          [ReadTokenFile, GetProfile(Some(token))])
  {
  }

  /** A probe of the cached token that throws IOException or KiteException is swallowed and the browser login runs once. */
  lemma RejectedCachedTokenLogsInOnce(cred: Credentials, token: string, client: Option<KiteConnect>,
                                      env: Collaborators)
    requires cred.Complete() && (env.cachedProbe.IOFail? || env.cachedProbe.KiteFail?)
    ensures var run := LoginRun(cred, Some(token), client, env);
      && |run.calls| >= 3
      && run.calls[..3] == [ReadTokenFile, GetProfile(Some(token)),
                            BrowserLogin(cred.apiKey.value, cred.userId.value, cred.password.value,
                                         cred.twoFactorPin.value, cred.redirectUrl.value)]
      && forall i | 3 <= i < |run.calls| :: !run.calls[i].BrowserLogin?
  {
    var probing := KiteConnect(cred.apiKey.value, cred.userId.value, Some(token), None);
    WebLoginRunCalls(cred, Some(token), probing, env);
  }

  /** Whatever the world answers, the token file is read once, first, and the browser login runs at most once. */
  lemma AtMostOneWebLogin(cred: Credentials, file: Option<string>, client: Option<KiteConnect>, env: Collaborators)
    ensures var calls := LoginRun(cred, file, client, env).calls;
      && (cred.Complete() ==> |calls| >= 1 && calls[0] == ReadTokenFile)
      && (forall i | 1 <= i < |calls| :: !calls[i].ReadTokenFile?)
      && (forall i, j | 0 <= i < j < |calls| :: !(calls[i].BrowserLogin? && calls[j].BrowserLogin?))
      && ((exists i | 0 <= i < |calls| :: calls[i].BrowserLogin?) <==> ReachesWebLogin(cred, file, env))
  {
    if cred.Complete() {
      var created := KiteConnect(cred.apiKey.value, cred.userId.value, None, None);
      WebLoginRunCalls(cred, file, created, env);
      WebLoginRunCalls(cred, file, created.(accessToken := file), env);
      var calls := LoginRun(cred, file, client, env).calls;
      if ReachesWebLogin(cred, file, env) {
        var k := if file.None? then 1 else 2;
        assert calls[k].BrowserLogin?;
      }
    }
  }

  /**
   * The token file changes only when the browser login, `generateSession` and the
   * second `getProfile` all returned normally, and then it holds the new access token;
   * when any of them throws, the file is as it was.
   */
  lemma TokenFileChangesOnlyAfterFullLogin(cred: Credentials, file: Option<string>, client: Option<KiteConnect>,
                                           env: Collaborators)
    ensures var run := LoginRun(cred, file, client, env);
      run.tokenFile != file ==>
        && ReachesWebLogin(cred, file, env)
        && LoginSucceeds(cred, env)
        && env.fileWritable
        && run.tokenFile == Some(env.session.value.accessToken)
    ensures var run := LoginRun(cred, file, client, env);
      (exists t :: WriteTokenFile(t) in run.calls) ==> ReachesWebLogin(cred, file, env) && LoginSucceeds(cred, env)
  {
  }

  /** A login whose every step returns normally writes the new access token, which the client also holds. */
  lemma FullLoginSavesNewToken(cred: Credentials, file: Option<string>, client: Option<KiteConnect>,
                               env: Collaborators)
    requires ReachesWebLogin(cred, file, env) && LoginSucceeds(cred, env)
    ensures var run := LoginRun(cred, file, client, env);
      var user := env.session.value;
      && run.completion == Returned(())
      && run.tokenFile == (if env.fileWritable then Some(user.accessToken) else file)
      && run.client == Some(KiteConnect(cred.apiKey.value, cred.userId.value,
                                        Some(user.accessToken), Some(user.publicToken)))
      && run.calls[|run.calls| - 1] == WriteTokenFile(user.accessToken)
      && GenerateSession(RequestToken(cred, env).value, cred.apiSecret.value) in run.calls
  {
  }

  /**
   * Without a token file, a login whose every step returns normally reads the file,
   * runs the browser once, exchanges the request token, probes the new access token
   * and writes it, in that order (the write is attempted even when it then fails).
   */
  lemma FreshLoginCalls(cred: Credentials, client: Option<KiteConnect>, env: Collaborators)
    requires cred.Complete() && LoginSucceeds(cred, env)
    ensures LoginRun(cred, None, client, env).calls ==
      [ReadTokenFile,
       BrowserLogin(cred.apiKey.value, cred.userId.value, cred.password.value, cred.twoFactorPin.value,
                    cred.redirectUrl.value),
       GenerateSession(RequestToken(cred, env).value, cred.apiSecret.value),
       GetProfile(Some(env.session.value.accessToken)),
       WriteTokenFile(env.session.value.accessToken)]
  {
  }

  /** The client is set to null exactly when a step of the login `try` throws an IOException. */
  lemma ClientNulledOnlyByLoginIOException(cred: Credentials, file: Option<string>, client: Option<KiteConnect>,
                                           env: Collaborators)
    requires cred.Complete()
    ensures var run := LoginRun(cred, file, client, env);
      run.client.None? <==> ReachesWebLogin(cred, file, env) && LoginIOException(cred, env)
    ensures var run := LoginRun(cred, file, client, env);
      run.client.None? ==> run.completion == Returned(()) && run.tokenFile == file
  {
  }

  /**
   * A KiteException in the login `try` leaves the client in place: with the cached
   * token, or already with the new tokens when only the second probe threw.
   */
  lemma LoginKiteExceptionKeepsClient(cred: Credentials, file: Option<string>, client: Option<KiteConnect>,
                                      env: Collaborators)
    requires ReachesWebLogin(cred, file, env) && LoginKiteException(cred, env)
    ensures var run := LoginRun(cred, file, client, env);
      && run.completion == Returned(())
      && run.tokenFile == file
      && run.client == Some(
           if env.session.Ok? then
             KiteConnect(cred.apiKey.value, cred.userId.value,
                         Some(env.session.value.accessToken), Some(env.session.value.publicToken))
           else
             KiteConnect(cred.apiKey.value, cred.userId.value, file, None))
  {
  }

  /** An unchecked exception never follows a write: a run that throws leaves the token file as it was. */
  lemma ThrowingRunKeepsTokenFile(cred: Credentials, file: Option<string>, client: Option<KiteConnect>,
                                  env: Collaborators)
    ensures var run := LoginRun(cred, file, client, env);
      run.completion.Threw? ==> run.tokenFile == file && forall c <- run.calls :: !c.WriteTokenFile?
  {
    TokenFileChangesOnlyAfterFullLogin(cred, file, client, env);
    if ReachesWebLogin(cred, file, env) && LoginSucceeds(cred, env) {
      FullLoginSavesNewToken(cred, file, client, env);
    }
  }

  /** A failure of the browser automation propagates out of the login. */
  lemma BrowserFailurePropagates(cred: Credentials, file: Option<string>, client: Option<KiteConnect>,
                                 env: Collaborators)
    requires ReachesWebLogin(cred, file, env) && env.browser.WebDriverFailed?
    ensures var run := LoginRun(cred, file, client, env);
      run.completion == Threw(AutomationFailed) && run.tokenFile == file
  {
  }

  /**
   * When the final URL does not contain the redirect URL, `autoWebLogin` returns null
   * and the login goes on to call `generateSession` with a null request token.
   */
  lemma RedirectNotReachedSendsNullToken(cred: Credentials, file: Option<string>, client: Option<KiteConnect>,
                                         env: Collaborators)
    requires ReachesWebLogin(cred, file, env)
    requires env.browser.FinalUrl? && !Contains(env.browser.url, cred.redirectUrl.value)
    ensures GenerateSession(None, cred.apiSecret.value) in LoginRun(cred, file, client, env).calls
  {
  }

  /**
   * A final URL that reaches the redirect but that `new URL` rejects is a
   * MalformedURLException, an IOException: the login's catch sets the client to null,
   * the run returns normally and `generateSession` is never called.
   */
  lemma MalformedRedirectNullsClient(cred: Credentials, file: Option<string>, client: Option<KiteConnect>,
                                     env: Collaborators)
    requires ReachesWebLogin(cred, file, env)
    requires env.browser.FinalUrl? && Contains(env.browser.url, cred.redirectUrl.value) && !env.urlAccepted
    ensures var run := LoginRun(cred, file, client, env);
      && run.client == None
      && run.completion == Returned(())
      && run.tokenFile == file
      && forall c <- run.calls :: !c.GenerateSession?
  {
  }

  /**
   * A redirect URL without a query string (no `?` before the fragment) makes `split`
   * dereference null: the NullPointerException escapes the login with the client kept.
   */
  lemma MissingQueryEscapesLogin(cred: Credentials, file: Option<string>, client: Option<KiteConnect>,
                                 env: Collaborators)
    requires ReachesWebLogin(cred, file, env)
    requires env.browser.FinalUrl? && Contains(env.browser.url, cred.redirectUrl.value) && env.urlAccepted
    requires forall i | 0 <= i < |env.browser.url| :: env.browser.url[i] == '?' ==> '#' in env.browser.url[..i]
    ensures var run := LoginRun(cred, file, client, env);
      && run.completion == Threw(NoQueryString)
      && run.tokenFile == file
      && run.client == Some(KiteConnect(cred.apiKey.value, cred.userId.value, file, None))
  {
  }

  /**
   * A query segment without `=` makes the parse loop throw an unchecked exception: it
   * escapes both catch clauses, so the run throws, the client is kept with the token it
   * had, the token file is untouched and no session is requested.
   */
  lemma SegmentWithoutEqualsEscapesLogin(cred: Credentials, file: Option<string>, client: Option<KiteConnect>,
                                         env: Collaborators, query: string, k: int)
    requires ReachesWebLogin(cred, file, env)
    requires env.browser.FinalUrl? && Contains(env.browser.url, cred.redirectUrl.value) && env.urlAccepted
    requires QueryOf(env.browser.url) == Some(query)
    requires 0 <= k < |Split(query, '&')| && '=' !in Split(query, '&')[k]
    ensures var run := LoginRun(cred, file, client, env);
      && run.completion.Threw?
      && run.completion.fault.BadQuery?
      && run.tokenFile == file
      && run.client == Some(KiteConnect(cred.apiKey.value, cred.userId.value, file, None))
      && forall c <- run.calls :: !c.GenerateSession?
  {
    ParsedSegmentsHaveEquals(query, env.decode);
    assert Split(query, '&')[k] in Split(query, '&');
  }

  /**
   * The request token of a URL that reaches the redirect: the value of the last
   * `request_token` pair of its query.
   */
  lemma RequestTokenIsLastOccurrence(url: string, redirectUrl: string, decode: string -> Option<string>,
                                     pairs: seq<(string, string)>, i: int)
    requires Contains(url, redirectUrl)
    requires QueryOf(url).Some? && DecodePairs(Split(QueryOf(url).value, '&'), decode) == Success(pairs)
    requires 0 <= i < |pairs| && pairs[i].0 == RequestTokenKey
    requires forall j | i < j < |pairs| :: pairs[j].0 != RequestTokenKey
    ensures RequestTokenFrom(FinalUrl(url), redirectUrl, true, decode) == Ok(Some(pairs[i].1))
  {
    LastOccurrenceWins(pairs, i);
  }

  /** A URL that reaches the redirect and whose query parses yields that query's `request_token`. */
  lemma RequestTokenOfParsedQuery(url: string, redirectUrl: string, decode: string -> Option<string>,
                                  query: string, queryPairs: map<string, string>)
    requires Contains(url, redirectUrl) && QueryOf(url) == Some(query)
    requires ParseQuery(query, decode) == Success(queryPairs)
    ensures RequestTokenFrom(FinalUrl(url), redirectUrl, true, decode)
            == Ok(if RequestTokenKey in queryPairs then Some(queryPairs[RequestTokenKey]) else None)
  {
  }

  /** A URL built on `base` contains it. */
  lemma UrlContainsBase(base: string, query: string, tail: string)
    ensures Contains(base + "?" + query + tail, base)
  {
    assert base + "?" + query + tail == base + ("?" + query + tail);
    ContainsPrefix(base, "?" + query + tail);
  }

  /**
   * A redirect to `base?k1=v1&...` (optionally followed by a `#` fragment) whose pairs
   * need no escaping yields the value the query map holds for `request_token`.
   */
  lemma RedirectWithPlainQuery(base: string, pairs: seq<(string, string)>, tail: string,
                               decode: string -> Option<string>)
    requires DecodesPlainText(decode)
    requires '?' !in base && '#' !in base
    requires |pairs| >= 1 && forall j | 0 <= j < |pairs| :: PlainPair(pairs[j])
    requires tail == "" || tail[0] == '#'
    ensures RequestTokenFrom(FinalUrl(base + "?" + QueryText(pairs) + tail), base, true, decode)
            == Ok(if RequestTokenKey in QueryMap(pairs) then Some(QueryMap(pairs)[RequestTokenKey]) else None)
  {
    var url := base + "?" + QueryText(pairs) + tail;
    UrlContainsBase(base, QueryText(pairs), tail);
    ParsePlainPairs(pairs, decode);
    QueryOfComposed(base, QueryText(pairs), tail);
    RequestTokenOfParsedQuery(url, base, decode, QueryText(pairs), QueryMap(pairs));
  }

  /** Given `redirect?a=1&request_token=R1&b=2`, the extracted request token is exactly `R1`. */
  lemma ExampleRequestToken(redirect: string, decode: string -> Option<string>)
    requires '?' !in redirect && '#' !in redirect && DecodesPlainText(decode)
    ensures var pairs := [("a", "1"), (RequestTokenKey, "R1"), ("b", "2")];
            RequestTokenFrom(FinalUrl(redirect + "?" + QueryText(pairs) + ""), redirect, true, decode) == Ok(Some("R1"))
  {
    var pairs := [("a", "1"), (RequestTokenKey, "R1"), ("b", "2")];
    RedirectWithPlainQuery(redirect, pairs, "", decode);
    LastOccurrenceWins(pairs, 1);
  }

  /** A repeated `request_token` yields its last value, and a `#` fragment is not part of the query. */
  lemma ExampleDuplicateRequestToken(redirect: string, decode: string -> Option<string>)
    requires '?' !in redirect && '#' !in redirect && DecodesPlainText(decode)
    ensures var pairs := [(RequestTokenKey, "A"), (RequestTokenKey, "B")];
            RequestTokenFrom(FinalUrl(redirect + "?" + QueryText(pairs) + "#request_token=C"), redirect, true, decode)
            == Ok(Some("B"))
  {
    var pairs := [(RequestTokenKey, "A"), (RequestTokenKey, "B")];
    RedirectWithPlainQuery(redirect, pairs, "#request_token=C", decode);
    LastOccurrenceWins(pairs, 1);
  }

  /** A redirect without a `request_token` pair yields null. */
  lemma ExampleMissingRequestToken(redirect: string, decode: string -> Option<string>)
    requires '?' !in redirect && '#' !in redirect && DecodesPlainText(decode)
    ensures RequestTokenFrom(FinalUrl(redirect + "?" + QueryText([("status", "success")]) + ""), redirect, true, decode)
            == Ok(None)
  {
    RedirectWithPlainQuery(redirect, [("status", "success")], "", decode);
  }

  /** The query text of `ExampleRequestToken`, written out. */
  lemma ExampleRequestTokenText(pairs: seq<(string, string)>)
    requires pairs == [("a", "1"), (RequestTokenKey, "R1"), ("b", "2")]
    ensures QueryText(pairs) == "a=1&request_token=R1&b=2"
  {
    QueryTextSingle(pairs[2]);
    assert pairs[1..] == [pairs[1]] + pairs[2..];
    QueryTextCons(pairs[1], pairs[2..]);
    assert pairs == [pairs[0]] + pairs[1..];
    QueryTextCons(pairs[0], pairs[1..]);
  }

  /** The query text of `ExampleDuplicateRequestToken`, written out. */
  lemma ExampleDuplicateRequestTokenText(pairs: seq<(string, string)>)
    requires pairs == [(RequestTokenKey, "A"), (RequestTokenKey, "B")]
    ensures QueryText(pairs) == "request_token=A&request_token=B"
  {
    QueryTextSingle(pairs[1]);
    assert pairs == [pairs[0]] + pairs[1..];
    QueryTextCons(pairs[0], pairs[1..]);
  }

  /** The query text of `ExampleMissingRequestToken`, written out. */
  lemma ExampleMissingRequestTokenText(pairs: seq<(string, string)>)
    requires pairs == [("status", "success")]
    ensures QueryText(pairs) == "status=success"
  {
    QueryTextSingle(pairs[0]);
  }

  /** The redirect `redirect?action=login&request_token=T` of a successful login yields `T`. */
  lemma LoginRedirectToken(redirect: string, requestToken: string, decode: string -> Option<string>)
    requires '?' !in redirect && '#' !in redirect && PlainText(requestToken) && DecodesPlainText(decode)
    ensures RequestTokenFrom(FinalUrl(redirect + "?" + QueryText([("action", "login"), (RequestTokenKey, requestToken)]) + ""),
                             redirect, true, decode) == Ok(Some(requestToken))
  {
    var pairs := [("action", "login"), (RequestTokenKey, requestToken)];
    RedirectWithPlainQuery(redirect, pairs, "", decode);
    LastOccurrenceWins(pairs, 1);
  }

  /**
   * No token file; the browser ends on `redirect?action=login&request_token=T`; the
   * session exchange and the probe succeed. Then the client holds the new tokens, the
   * token file holds the new access token, and the calls are exactly the fresh login's.
   */
  lemma EndToEndFreshLogin(cred: Credentials, client: Option<KiteConnect>, env: Collaborators,
                           requestToken: string, user: User)
    requires cred.Complete() && '?' !in cred.redirectUrl.value && '#' !in cred.redirectUrl.value
    requires PlainText(requestToken) && DecodesPlainText(env.decode) && env.urlAccepted
    requires env.browser == FinalUrl(cred.redirectUrl.value + "?" +
                                     QueryText([("action", "login"), (RequestTokenKey, requestToken)]) + "")
    requires env.session == Ok(user) && env.confirmProbe.Ok? && env.fileWritable
    ensures LoginRun(cred, None, client, env) ==
      Run(Returned(()), Some(user.accessToken),
          Some(KiteConnect(cred.apiKey.value, cred.userId.value, Some(user.accessToken), Some(user.publicToken))),
          [ReadTokenFile,
           BrowserLogin(cred.apiKey.value, cred.userId.value, cred.password.value, cred.twoFactorPin.value,
                        cred.redirectUrl.value),
           GenerateSession(Some(requestToken), cred.apiSecret.value),
           GetProfile(Some(user.accessToken)),
           WriteTokenFile(user.accessToken)])
  {
    LoginRedirectToken(cred.redirectUrl.value, requestToken, env.decode);
    FreshLoginCalls(cred, client, env);
    FullLoginSavesNewToken(cred, None, client, env);
  }

  /** The token store's round trip: what `saveText` managed to write, `loadText` reads back. */
  method SaveThenLoad(store: KiteLogin, token: string, writable: bool) returns (loaded: Option<string>)
    modifies store
    ensures loaded == (if writable then Some(token) else old(store.tokenFile))
  {
    store.SaveText(token, writable);
    loaded := store.LoadText();
  }

  /** Two loads with no save between them read the same content. */
  method LoadTwice(store: KiteLogin) returns (first: Option<string>, second: Option<string>)
    modifies store
    ensures first == second == old(store.tokenFile)
  {
    first := store.LoadText();
    second := store.LoadText();
  }
}
