/**
 * `KiteLogin`: obtains an authorised KiteConnect client for one Zerodha user. It
 * tries the access token cached in `access.token.txt`; when there is none, or the
 * profile probe with it fails, it logs in through a browser, exchanges the
 * request token for a session, probes the profile with the new access token and
 * caches that token.
 *
 * The token file is a field holding `Option<string>` (`None`: missing or
 * unreadable). The KiteConnect client is a value held in `kiteConnect`
 * (`None`: Java's `null`). Every call to the outside world is appended to the
 * ghost trace `Calls`; its answer comes from a `Collaborators` value supplied by
 * the caller, so each property holds for every answer the world may give.
 */
module Zerodha {
  import opened Wrappers
  import opened JavaStrings
  import opened QueryParsing

  /** The six constructor arguments; `None` stands for a Java `null`. */
  datatype Credentials = Credentials(
    userId: Option<string>,
    password: Option<string>,
    twoFactorPin: Option<string>,
    apiKey: Option<string>,
    apiSecret: Option<string>,
    redirectUrl: Option<string>)
  {
    predicate Complete()
    {
      && userId.Some? && password.Some? && twoFactorPin.Some?
      && apiKey.Some? && apiSecret.Some? && redirectUrl.Some?
    }
  }

  /** Unchecked exceptions: nothing in `KiteLogin` catches them. */
  datatype Fault =
    | MissingCredential           // the RuntimeException thrown when an argument is null
    | AutomationFailed            // a Selenium exception: element not found, redirect wait timed out
    | NoQueryString               // `url.getQuery()` is null and `split` dereferences it
    | BadQuery(error: ParseError) // the parse loop throws
    | NullClient                  // a method called on a client that was set to null
    | SdkFault                    // an unchecked exception out of the KiteConnect SDK

  /** How a call to a collaborator ends: normally, or with one of the exceptions Java tells apart. */
  datatype Outcome<+T> = Ok(value: T) | IOFail | KiteFail | Raised(fault: Fault)

  /** How a modelled method of `KiteLogin` ends. */
  datatype Completion<+T> = Returned(value: T) | Threw(fault: Fault)

  /** What the login keeps of the `User` returned by `generateSession`. */
  datatype User = User(accessToken: string, publicToken: string)

  /** The fields of the KiteConnect client that `KiteLogin` sets. */
  datatype KiteConnect = KiteConnect(
    apiKey: string,
    userId: string,
    accessToken: Option<string>,
    publicToken: Option<string>)

  /** The browser session of `autoWebLogin`, up to reading the final URL. */
  datatype BrowserRun = FinalUrl(url: string) | WebDriverFailed

  /** The answers of the outside world to one run of `executeKiteWebLogin`. */
  datatype Collaborators = Collaborators(
    cachedProbe: Outcome<()>,          // getProfile with the cached access token
    browser: BrowserRun,               // the Selenium login
    urlAccepted: bool,                 // `new URL(curUrl)` does not throw MalformedURLException
    decode: string -> Option<string>,  // URLDecoder.decode; None is IllegalArgumentException
    session: Outcome<User>,            // generateSession
    confirmProbe: Outcome<()>,         // getProfile with the new access token
    fileWritable: bool)                // the FileWriter opens and writes

  /** A call to the outside world, with the data it is given. */
  datatype Call =
    | ReadTokenFile
    | GetProfile(accessToken: Option<string>)
    | BrowserLogin(apiKey: string, userId: string, password: string, twoFactorPin: string, redirectUrl: string)
    | GenerateSession(requestToken: Option<string>, apiSecret: string)
    | WriteTokenFile(text: string)
    | RemoteLogout(accessToken: Option<string>)
    | DeleteTokenFile

  const RequestTokenKey: string := "request_token"

  /**
   * What `autoWebLogin` returns once the browser has produced its final URL: the
   * decoded `request_token` parameter, `None` (Java's `null`) when the URL does not
   * contain `redirectUrl` or the parameter is absent, `IOFail` for a
   * MalformedURLException, and the unchecked exceptions of the parse.
   */
  function RequestTokenFrom(browser: BrowserRun, redirectUrl: string, urlAccepted: bool,
                            decode: string -> Option<string>): (r: Outcome<Option<string>>)
    ensures !r.KiteFail?
    ensures r.Ok? && r.value.Some? ==> browser.FinalUrl? && Contains(browser.url, redirectUrl) && urlAccepted
    ensures browser.FinalUrl? && !Contains(browser.url, redirectUrl) ==> r == Ok(None)
  {
    match browser
    case WebDriverFailed => Raised(AutomationFailed)
    case FinalUrl(url) =>
      if !Contains(url, redirectUrl) then Ok(None)
      else if !urlAccepted then IOFail
      else
        match QueryOf(url)
        case None => Raised(NoQueryString)
        case Some(query) =>
          match ParseQuery(query, decode)
          case Failure(e) => Raised(BadQuery(e))
          case Success(pairs) =>
            Ok(if RequestTokenKey in pairs then Some(pairs[RequestTokenKey]) else None)
  }

  /** `autoWebLogin` after the browser has run: the redirect check and the query parse. */
  method AutoWebLogin(browser: BrowserRun, redirectUrl: string, urlAccepted: bool,
                      decode: string -> Option<string>) returns (requestToken: Outcome<Option<string>>)
    ensures requestToken == RequestTokenFrom(browser, redirectUrl, urlAccepted, decode)
  {
    if browser.WebDriverFailed? {
      return Raised(AutomationFailed);
    }
    var curUrl := browser.url;
    requestToken := Ok(None);
    if Contains(curUrl, redirectUrl) {
      if !urlAccepted {
        return IOFail;
      }
      var query := QueryOf(curUrl);
      if query.None? {
        return Raised(NoQueryString);
      }
      var queryPairs := ParseQueryPairs(query.value, decode);
      if queryPairs.Failure? {
        return Raised(BadQuery(queryPairs.error));
      }
      var pairs := queryPairs.value;
      requestToken := Ok(if RequestTokenKey in pairs then Some(pairs[RequestTokenKey]) else None);
    }
  }

  /** The effect of one run of `executeKiteWebLogin`. */
  datatype Run = Run(
    completion: Completion<()>,
    tokenFile: Option<string>,
    client: Option<KiteConnect>,
    calls: seq<Call>)

  /**
   * The catch clauses of the login `try`: an IOException sets the client to null,
   * a KiteException leaves it as it is, and anything else propagates.
   */
  function Recover<T>(o: Outcome<T>, file: Option<string>, client: KiteConnect, calls: seq<Call>): Run
    requires !o.Ok?
  {
    match o
    case IOFail => Run(Returned(()), file, None, calls)
    case KiteFail => Run(Returned(()), file, Some(client), calls)
    case Raised(f) => Run(Threw(f), file, Some(client), calls)
  }

  /**
   * The body of the login `try` and its catch clauses: browser login, session
   * exchange, profile probe with the new token, save. The calls are those made from
   * the browser login on.
   */
  function WebLoginRun(cred: Credentials, file: Option<string>, client: KiteConnect, env: Collaborators): Run
    requires cred.Complete()
  {
    var calls := [BrowserLogin(cred.apiKey.value, cred.userId.value, cred.password.value,
                               cred.twoFactorPin.value, cred.redirectUrl.value)];
    var requestToken := RequestTokenFrom(env.browser, cred.redirectUrl.value, env.urlAccepted, env.decode);
    if !requestToken.Ok? then Recover(requestToken, file, client, calls)
    else
      var calls := calls + [GenerateSession(requestToken.value, cred.apiSecret.value)];
      if !env.session.Ok? then Recover(env.session, file, client, calls)
      else
        var user := env.session.value;
        var client := client.(accessToken := Some(user.accessToken), publicToken := Some(user.publicToken));
        var calls := calls + [GetProfile(Some(user.accessToken))];
        if !env.confirmProbe.Ok? then Recover(env.confirmProbe, file, client, calls)
        else
          var saved := if env.fileWritable then Some(user.accessToken) else file;
          Run(Returned(()), saved, Some(client), calls + [WriteTokenFile(user.accessToken)])
  }

  /** `executeKiteWebLogin` from token file `file` and client `client`, as a function of the world's answers. */
  function LoginRun(cred: Credentials, file: Option<string>, client: Option<KiteConnect>, env: Collaborators): Run
  {
    if !cred.Complete() then Run(Threw(MissingCredential), file, client, [])
    else
      var created := KiteConnect(cred.apiKey.value, cred.userId.value, None, None);
      match file
      case None =>
        var login := WebLoginRun(cred, file, created, env);
        login.(calls := [ReadTokenFile] + login.calls)
      case Some(_) =>
        var probing := created.(accessToken := file);
        var calls := [ReadTokenFile, GetProfile(file)];
        match env.cachedProbe
        case Ok(_) => Run(Returned(()), file, Some(probing), calls)
        case Raised(f) => Run(Threw(f), file, Some(probing), calls)
        case _ =>
          var login := WebLoginRun(cred, file, probing, env);
          login.(calls := calls + login.calls)
  }

  /** Appending calls in two steps or in one gives the same trace. */
  lemma AppendAssoc(a: seq<Call>, b: seq<Call>, c: seq<Call>)
    ensures a + b + c == a + (b + c)
  {
  }

  class KiteLogin {
    /** The content of `access.token.txt` in the working directory; `None` when missing or unreadable. */
    var tokenFile: Option<string>
    /** The KiteConnect client; `None` before creation and after an IOException on the login path. */
    var kiteConnect: Option<KiteConnect>
    /** Every call made to the outside world, oldest first. */
    ghost var Calls: seq<Call>

    /** A `KiteLogin` before its login runs, in a working directory whose token file holds `file`. */
    constructor (file: Option<string>)
      ensures tokenFile == file && kiteConnect == None && Calls == []
    {
      tokenFile := file;
      kiteConnect := None;
      Calls := [];
    }

    /** `loadText`: the token file's content, or `None` when it is missing or unreadable; never throws. */
    method LoadText() returns (text: Option<string>)
      modifies this`Calls
      ensures text == tokenFile
      ensures Calls == old(Calls) + [ReadTokenFile]
    {
      text := tokenFile;
      Calls := Calls + [ReadTokenFile];
    }

    /** `saveText`: replaces the token file by `text` when it can be written; a failure is only logged. */
    method SaveText(text: string, writable: bool)
      modifies this`tokenFile, this`Calls
      ensures tokenFile == if writable then Some(text) else old(tokenFile)
      ensures Calls == old(Calls) + [WriteTokenFile(text)]
    {
      if writable {
        tokenFile := Some(text);
      }
      Calls := Calls + [WriteTokenFile(text)];
    }

    /**
     * `logout`: true exactly when the remote logout returns normally, and only then is
     * the token file deleted. A null client throws NullPointerException.
     */
    method Logout(remote: Outcome<()>, deletable: bool) returns (c: Completion<bool>)
      modifies this`tokenFile, this`Calls
      ensures kiteConnect == old(kiteConnect)
      ensures kiteConnect.None? ==> c == Threw(NullClient) && tokenFile == old(tokenFile) && Calls == old(Calls)
      ensures kiteConnect.Some? ==>
        && c == (if remote.Raised? then Threw(remote.fault) else Returned(remote.Ok?))
        && tokenFile == (if remote.Ok? && deletable then None else old(tokenFile))
        && Calls == old(Calls) + [RemoteLogout(kiteConnect.value.accessToken)]
                              + (if remote.Ok? then [DeleteTokenFile] else [])
    {
      if kiteConnect.None? {
        return Threw(NullClient);
      }
      var status := false;
      Calls := Calls + [RemoteLogout(kiteConnect.value.accessToken)];
      match remote {
        case Ok(_) =>
          Calls := Calls + [DeleteTokenFile];
          if deletable {
            tokenFile := None;
          }
          status := true;
        case Raised(f) =>
          return Threw(f);
        case _ =>
      }
      c := Returned(status);
    }

    /** The catch clauses of the login `try` in `executeKiteWebLogin`. */
    method CatchLoginFailure<T>(o: Outcome<T>) returns (c: Completion<()>)
      requires !o.Ok? && kiteConnect.Some?
      modifies this`kiteConnect
      ensures var run := Recover(o, tokenFile, old(kiteConnect.value), []);
        c == run.completion && kiteConnect == run.client
    {
      match o {
        case IOFail =>
          kiteConnect := None;
          c := Returned(());
        case KiteFail =>
          c := Returned(());
        case Raised(f) =>
          c := Threw(f);
      }
    }

    /** The login `try` of `executeKiteWebLogin`, entered when no valid cached session was found. */
    method LoginThroughBrowser(cred: Credentials, env: Collaborators) returns (c: Completion<()>)
      requires cred.Complete() && kiteConnect.Some?
      modifies this
      ensures var run := WebLoginRun(cred, old(tokenFile), old(kiteConnect.value), env);
        && c == run.completion
        && tokenFile == run.tokenFile
        && kiteConnect == run.client
        && Calls == old(Calls) + run.calls
    {
      var userId, password, twoFactorPin := cred.userId.value, cred.password.value, cred.twoFactorPin.value;
      var apiSecret, redirectUrl := cred.apiSecret.value, cred.redirectUrl.value;
      ghost var calls := [BrowserLogin(cred.apiKey.value, userId, password, twoFactorPin, redirectUrl)];
      Calls := Calls + calls;
      var requestToken := AutoWebLogin(env.browser, redirectUrl, env.urlAccepted, env.decode);
      if !requestToken.Ok? {
        c := CatchLoginFailure(requestToken);
        return;
      }
      AppendAssoc(old(Calls), calls, [GenerateSession(requestToken.value, apiSecret)]);
      calls := calls + [GenerateSession(requestToken.value, apiSecret)];
      Calls := Calls + [GenerateSession(requestToken.value, apiSecret)];
      if !env.session.Ok? {
        c := CatchLoginFailure(env.session);
        return;
      }
      var user := env.session.value;
      var accessToken := Some(user.accessToken);
      kiteConnect := Some(kiteConnect.value.(accessToken := accessToken, publicToken := Some(user.publicToken)));
      AppendAssoc(old(Calls), calls, [GetProfile(accessToken)]);
      calls := calls + [GetProfile(accessToken)];
      Calls := Calls + [GetProfile(accessToken)];
      if !env.confirmProbe.Ok? {
        c := CatchLoginFailure(env.confirmProbe);
        return;
      }
      AppendAssoc(old(Calls), calls, [WriteTokenFile(user.accessToken)]);
      SaveText(user.accessToken, env.fileWritable);
      c := Returned(());
    }

    /** `executeKiteWebLogin`, the body of the Java constructor. */
    method ExecuteKiteWebLogin(cred: Credentials, env: Collaborators) returns (c: Completion<()>)
      modifies this
      ensures var run := LoginRun(cred, old(tokenFile), old(kiteConnect), env);
        && c == run.completion
        && tokenFile == run.tokenFile
        && kiteConnect == run.client
        && Calls == old(Calls) + run.calls
    {
      if !cred.Complete() {
        return Threw(MissingCredential);
      }
      kiteConnect := Some(KiteConnect(cred.apiKey.value, cred.userId.value, None, None));

      var accessToken := LoadText();
      ghost var prefix := [ReadTokenFile];
      var profileFound := false;
      if accessToken.Some? {
        kiteConnect := Some(kiteConnect.value.(accessToken := accessToken));
        Calls := Calls + [GetProfile(accessToken)];
        prefix := [ReadTokenFile, GetProfile(accessToken)];
        AppendAssoc(old(Calls), [ReadTokenFile], [GetProfile(accessToken)]);
        assert [ReadTokenFile] + [GetProfile(accessToken)] == prefix;
        match env.cachedProbe {
          case Ok(_) =>
            profileFound := true;
          case Raised(f) =>
            return Threw(f);
          case _ =>
        }
      }

      c := Returned(());
      if !profileFound {
        ghost var login := WebLoginRun(cred, tokenFile, kiteConnect.value, env);
        AppendAssoc(old(Calls), prefix, login.calls);
        c := LoginThroughBrowser(cred, env);
      }
    }
  }
}
