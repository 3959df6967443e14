# KiteLogin session acquisition, modelled in Dafny

`KiteLogin` obtains an authorised KiteConnect client for one Zerodha trading
account. Its constructor runs `executeKiteWebLogin`:

1. It checks that none of the six credentials is null.
2. It creates the client and reads the access token cached in `access.token.txt`.
3. When a cached token exists, it probes it with `getProfile`.
4. When there is no cached token, or the probe fails, it logs in through a
   headless browser. It then reads `request_token` from the query string of the
   redirect URL and exchanges it with `generateSession` for an access token.
5. It probes the profile with the new token and writes the token back to the file.

`logout` ends the remote session and deletes the file.

The model has four modules:

- `JavaStrings` (`java_strings.dfy`) covers the parts of `java.lang.String` the
  parser uses. `IndexOf` is `indexOf` of one character. The code calls `indexOf("=")`, which gives the same position for a one-character string. `Contains` is `contains`. `Split`
  is `split` with limit zero and a one-character separator that is not a
  regular-expression metacharacter, such as `&`: it drops trailing
  empty pieces and keeps the whole string when the separator is absent.
  `Split` is proved against `Join`.
- `QueryParsing` (`query_parsing.dfy`) models the request-token parse.
  - `QueryOf` is `URL.getQuery`.
  - `CutPair` and `DecodeSegment` handle one segment; `DecodePairs` handles the whole segment list.
  - `QueryMap` is the `HashMap` the parse fills, in which a later key overwrites an earlier one.
  - `ParseQueryPairs` is the `for` loop as a method, proved equal to the function `ParseQuery`.
  - `URLDecoder.decode` is a parameter `decode`. Its `None` is the `IllegalArgumentException` it throws.
- `Zerodha` (`kite_login.dfy`) holds the session logic.
  - The class `KiteLogin` has the fields `tokenFile: Option<string>` (the file's content) and `kiteConnect: Option<KiteConnect>`. It also keeps a ghost trace `Calls` of every call made to the outside world.
  - Every collaborator answer during `executeKiteWebLogin` is a field of a `Collaborators` value: the two profile probes, the browser, `new URL`, the decoder, `generateSession` and the file write. The two probes and `generateSession` are `Outcome` values: `Ok`, `IOFail` (an IOException), `KiteFail` (a KiteException) or `Raised` (an unchecked exception). The browser is a `BrowserRun`: a final URL, or a failure that propagates. `new URL` and the file write are booleans that say whether they succeed, and the decoder is a function.
  - `Logout` takes the remote logout's answer and whether the file can be deleted as its own parameters.
  - The pure functions `LoginRun` and `WebLoginRun` give the whole effect of one run. The methods `ExecuteKiteWebLogin` and `LoginThroughBrowser` are proved to produce exactly that effect.
- `ZerodhaProperties` (`kite_login_properties.dfy`) proves the promised behaviour of `LoginRun` and `RequestTokenFrom` for every collaborator answer.

The model follows the code as written. In particular:
- The browser is never quit, on any path.
- `logout` deletes the token file only after the remote logout returns normally,
  although its Javadoc (KiteLogin.java:108) says only that the file will be deleted.
- A throwing second `getProfile` skips `saveText`.
- When the final URL does not contain the redirect URL, `autoWebLogin` returns
  null, and that null is passed on to `generateSession`.

## Model

| member | source | states |
|---|---|---|
| JavaStrings.IndexOf | src/in/satpathy/charanna/broker/zerodha/KiteLogin.java:295 | The result is -1 exactly when the character is absent. Otherwise the result is a position holding the character, with no occurrence before it. |
| JavaStrings.IndexOfAppend | src/in/satpathy/charanna/broker/zerodha/KiteLogin.java:295 | When the first part has no occurrence, `indexOf` on the concatenation is found in the second part, shifted by the first part's length. |
| JavaStrings.IndexOfFirst | src/in/satpathy/charanna/broker/zerodha/KiteLogin.java:295 | An occurrence with no earlier occurrence is the position `indexOf` returns. |
| JavaStrings.Contains | src/in/satpathy/charanna/broker/zerodha/KiteLogin.java:289 | `contains` is true exactly when the substring occurs at some position. |
| JavaStrings.ContainsPrefix | src/in/satpathy/charanna/broker/zerodha/KiteLogin.java:289 | A string followed by anything contains it. |
| JavaStrings.SplitAll | src/in/satpathy/charanna/broker/zerodha/KiteLogin.java:293 | The pieces between separators, empty pieces included. There is at least one piece and none holds the separator. |
| JavaStrings.JoinSplitAll | src/in/satpathy/charanna/broker/zerodha/KiteLogin.java:293 | Joining the pieces with the separator gives the original string back, so nothing is lost. |
| JavaStrings.SplitAllJoin | src/in/satpathy/charanna/broker/zerodha/KiteLogin.java:293 | Pieces free of the separator are recovered by splitting their join. |
| JavaStrings.JoinAppendEmpty | src/in/satpathy/charanna/broker/zerodha/KiteLogin.java:293 | One more empty piece adds exactly one separator at the end of the join. |
| JavaStrings.SplitAllAppendSeparator | src/in/satpathy/charanna/broker/zerodha/KiteLogin.java:293 | A trailing separator adds exactly one empty piece. |
| JavaStrings.DropTrailingEmpty | src/in/satpathy/charanna/broker/zerodha/KiteLogin.java:293 | The result is a prefix of the pieces that ends in a non-empty piece or is empty. Only empty pieces are removed. |
| JavaStrings.DropTrailingEmptyAppendEmpty | src/in/satpathy/charanna/broker/zerodha/KiteLogin.java:293 | One more empty piece at the end makes no difference once trailing empties are dropped. |
| JavaStrings.Split | src/in/satpathy/charanna/broker/zerodha/KiteLogin.java:293 | `split` with limit 0 behaves as follows: the whole string when the separator is absent; otherwise the pieces with trailing empty ones removed. The last piece is non-empty and no piece holds the separator. |
| JavaStrings.TrailingSeparatorIgnored | src/in/satpathy/charanna/broker/zerodha/KiteLogin.java:293 | A trailing separator on a non-empty string does not change the result of `split`. |
| JavaStrings.OnlySeparators | src/in/satpathy/charanna/broker/zerodha/KiteLogin.java:293 | A string made only of separators splits into no pieces at all. |
| QueryParsing.CutPair | src/in/satpathy/charanna/broker/zerodha/KiteLogin.java:295-297 | The result is absent exactly when the segment has no `=`. Otherwise the key has no `=`, and key, `=` and value put back together give the segment, so the value keeps every later `=`. |
| QueryParsing.CutPairOfJoined | src/in/satpathy/charanna/broker/zerodha/KiteLogin.java:295-297 | Cutting `key=value` with a `=`-free key gives exactly that key and value, for any value. |
| QueryParsing.DecodePairsEach | src/in/satpathy/charanna/broker/zerodha/KiteLogin.java:294-298 | The segment list decodes exactly when every segment decodes, and pair `i` is segment `i` decoded. |
| QueryParsing.DecodePairsFromEach | src/in/satpathy/charanna/broker/zerodha/KiteLogin.java:294-298 | Segments that each decode to a given pair decode together to those pairs, in order. |
| QueryParsing.DecodePairsSnoc | src/in/satpathy/charanna/broker/zerodha/KiteLogin.java:294-298 | One more segment that decodes adds its pair at the end. |
| QueryParsing.FirstFailureDecides | src/in/satpathy/charanna/broker/zerodha/KiteLogin.java:294-298 | The exception of the first failing segment is the exception of the whole loop; later segments make no difference. |
| QueryParsing.QueryMap | src/in/satpathy/charanna/broker/zerodha/KiteLogin.java:291-298 | The map's keys are exactly the keys of the pairs. |
| QueryParsing.QueryMapSnoc | src/in/satpathy/charanna/broker/zerodha/KiteLogin.java:296-297 | Each `put` overwrites the key it names. |
| QueryParsing.LastOccurrenceWins | src/in/satpathy/charanna/broker/zerodha/KiteLogin.java:294-299 | A key maps to the value of its last occurrence. |
| QueryParsing.DecodePair | src/in/satpathy/charanna/broker/zerodha/KiteLogin.java:295-297 | The loop body (`indexOf`, `substring`, decoding the key then the value) returns exactly the decoded pair, or the exception the segment throws. |
| QueryParsing.ParseQueryPairs | src/in/satpathy/charanna/broker/zerodha/KiteLogin.java:291-298 | The loop fills the map that `ParseQuery` specifies, or stops with the first segment's exception. |
| QueryParsing.ParsedSegmentsHaveEquals | src/in/satpathy/charanna/broker/zerodha/KiteLogin.java:293-297 | The parse succeeds exactly when every segment decodes. A segment without `=` makes it fail. |
| QueryParsing.TrailingAmpersandIgnored | src/in/satpathy/charanna/broker/zerodha/KiteLogin.java:293-298 | A trailing `&` on a non-empty query changes nothing. |
| QueryParsing.OnlyAmpersandsParseEmpty | src/in/satpathy/charanna/broker/zerodha/KiteLogin.java:293-298 | A query made only of `&` parses to the empty map. |
| QueryParsing.JoinedCharInSomePart | src/in/satpathy/charanna/broker/zerodha/KiteLogin.java:293 | Every non-separator character of a join comes from one of its pieces. |
| QueryParsing.LeadingAmpersandFails | src/in/satpathy/charanna/broker/zerodha/KiteLogin.java:293-297 | A leading `&` followed by anything other than `&` alone produces an empty first segment. That segment throws, because it has no `=`. |
| QueryParsing.LeadingSeparatorSplit | src/in/satpathy/charanna/broker/zerodha/KiteLogin.java:293 | `split` keeps the empty piece before a leading `&` when something other than `&` follows. |
| QueryParsing.SplitOfJoined | src/in/satpathy/charanna/broker/zerodha/KiteLogin.java:293 | `&`-free segments whose last one is non-empty split back out of their `&`-join. |
| QueryParsing.PlainSegment | src/in/satpathy/charanna/broker/zerodha/KiteLogin.java:295-297 | A `key=value` segment with no escapes decodes to exactly `(key, value)`. |
| QueryParsing.ParsePlainPairs | src/in/satpathy/charanna/broker/zerodha/KiteLogin.java:291-298 | Round trip: plain pairs written as `k1=v1&k2=v2...` parse back to their map, and the written text has no `#`. |
| QueryParsing.AbsentFromSlice | src/in/satpathy/charanna/broker/zerodha/KiteLogin.java:292 | A character missing from a prefix is missing from every slice of it. |
| QueryParsing.QueryOf | src/in/satpathy/charanna/broker/zerodha/KiteLogin.java:292 | `getQuery` gives a query exactly when some `?` comes before any `#`. Otherwise it gives null, for example when the only `?` is inside the fragment. A query it returns never holds the fragment's `#`. |
| QueryParsing.QueryOfComposed | src/in/satpathy/charanna/broker/zerodha/KiteLogin.java:292 | The query of `base?query`, optionally followed by a `#` fragment, is exactly `query`. |
| Zerodha.RequestTokenFrom | src/in/satpathy/charanna/broker/zerodha/KiteLogin.java:289-303 | Never a KiteException. A token is returned only when the URL contains the redirect and is accepted. A URL that does not contain the redirect yields null. The error paths are stated over the whole run in `MalformedRedirectNullsClient`, `MissingQueryEscapesLogin` and `SegmentWithoutEqualsEscapesLogin`. |
| Zerodha.AutoWebLogin | src/in/satpathy/charanna/broker/zerodha/KiteLogin.java:289-303 | The redirect check, `new URL`, `getQuery` and the parse loop give exactly `RequestTokenFrom`. |
| Zerodha.KiteLogin.constructor | src/in/satpathy/charanna/broker/zerodha/KiteLogin.java:86-105 | The object before `executeKiteWebLogin` runs: the client is still null and the token file holds what the working directory holds. The Java constructor is this constructor followed by `ExecuteKiteWebLogin`. |
| Zerodha.KiteLogin.LoadText | src/in/satpathy/charanna/broker/zerodha/KiteLogin.java:322-334 | Returns the file's content, or null when the file is missing or unreadable. Never throws and changes nothing. |
| Zerodha.KiteLogin.SaveText | src/in/satpathy/charanna/broker/zerodha/KiteLogin.java:342-363 | The file holds the text when it can be written and is otherwise unchanged. The write is attempted either way and never throws. |
| Zerodha.KiteLogin.Logout | src/in/satpathy/charanna/broker/zerodha/KiteLogin.java:112-135 | Returns true exactly when the remote logout returns normally, and only then is the file deleted. An IOException or KiteException gives false and leaves the file alone. A null client throws. |
| Zerodha.KiteLogin.CatchLoginFailure | src/in/satpathy/charanna/broker/zerodha/KiteLogin.java:237-244 | An IOException nulls the client, a KiteException keeps it, and anything else propagates. |
| Zerodha.KiteLogin.LoginThroughBrowser | src/in/satpathy/charanna/broker/zerodha/KiteLogin.java:196-245 | The login `try` and its catches end in exactly the state, result and call trace that `WebLoginRun` gives. |
| Zerodha.KiteLogin.ExecuteKiteWebLogin | src/in/satpathy/charanna/broker/zerodha/KiteLogin.java:152-246 | The whole decision procedure ends in exactly the state, result and call trace that `LoginRun` gives. |
| ZerodhaProperties.MissingCredentialThrowsFirst | src/in/satpathy/charanna/broker/zerodha/KiteLogin.java:158-166 | A null argument throws with no call made, before the client is created or the file is read. |
| ZerodhaProperties.WebLoginRunCalls | src/in/satpathy/charanna/broker/zerodha/KiteLogin.java:198-236 | The login `try` calls the browser first, once, and makes at most three more calls. None of them is a browser login or a file read. |
| ZerodhaProperties.AbsentTokenFileGoesToWebLogin | src/in/satpathy/charanna/broker/zerodha/KiteLogin.java:175-199 | With no token file, reading it is followed directly by the browser login. |
| ZerodhaProperties.ValidCachedTokenSkipsWebLogin | src/in/satpathy/charanna/broker/zerodha/KiteLogin.java:179-196 | When the cached token's probe succeeds, the run is exactly a read and one probe. There is no browser and no write, and the client holds the cached token. |
| ZerodhaProperties.RejectedCachedTokenLogsInOnce | src/in/satpathy/charanna/broker/zerodha/KiteLogin.java:179-199 | When the cached probe throws IOException or KiteException, the error is swallowed and the browser login follows, exactly once. |
| ZerodhaProperties.AtMostOneWebLogin | src/in/satpathy/charanna/broker/zerodha/KiteLogin.java:175-199 | For every collaborator answer, the file is read first and only once, and the browser runs at most once. It runs exactly when the credentials are complete and no cached token was accepted. |
| ZerodhaProperties.TokenFileChangesOnlyAfterFullLogin | src/in/satpathy/charanna/broker/zerodha/KiteLogin.java:198-244 | The file changes only when the browser login, `generateSession` and the second probe all return normally, and it then holds the new access token. A write is attempted only then. |
| ZerodhaProperties.FullLoginSavesNewToken | src/in/satpathy/charanna/broker/zerodha/KiteLogin.java:199-236 | A fully successful login returns normally and writes the new access token. The client holds both new tokens, and `generateSession` received the extracted request token. |
| ZerodhaProperties.FreshLoginCalls | src/in/satpathy/charanna/broker/zerodha/KiteLogin.java:175-236 | A successful run with no file makes exactly these calls in order: read, browser, exchange, probe, write. |
| ZerodhaProperties.ClientNulledOnlyByLoginIOException | src/in/satpathy/charanna/broker/zerodha/KiteLogin.java:237-241 | The client ends null exactly when a step of the login `try` throws an IOException. The run then returns normally with the file unchanged. |
| ZerodhaProperties.LoginKiteExceptionKeepsClient | src/in/satpathy/charanna/broker/zerodha/KiteLogin.java:218-244 | A KiteException in the login `try` keeps the client. The client holds the new tokens when only the second probe threw, and the cached one otherwise. |
| ZerodhaProperties.ThrowingRunKeepsTokenFile | src/in/satpathy/charanna/broker/zerodha/KiteLogin.java:198-245 | A run that throws made no write and leaves the file as it was. |
| ZerodhaProperties.BrowserFailurePropagates | src/in/satpathy/charanna/broker/zerodha/KiteLogin.java:198-245 | A browser automation failure propagates out of the login and leaves the file unchanged. |
| ZerodhaProperties.RedirectNotReachedSendsNullToken | src/in/satpathy/charanna/broker/zerodha/KiteLogin.java:199-203 | When the final URL lacks the redirect, `generateSession` is called with a null request token. |
| ZerodhaProperties.MalformedRedirectNullsClient | src/in/satpathy/charanna/broker/zerodha/KiteLogin.java:289-290 | A final URL that reaches the redirect but that `new URL` rejects is an IOException. It sets the client to null (KiteLogin.java:238-240), the run returns normally with the file unchanged, and `generateSession` is never called. |
| ZerodhaProperties.MissingQueryEscapesLogin | src/in/satpathy/charanna/broker/zerodha/KiteLogin.java:292-293 | When the redirect URL has no `?` before its fragment, `getQuery` is null and `split` throws a NullPointerException. It escapes the login with the file unchanged and the client kept. |
| ZerodhaProperties.SegmentWithoutEqualsEscapesLogin | src/in/satpathy/charanna/broker/zerodha/KiteLogin.java:293-297 | A query segment without `=` makes the parse throw an unchecked exception. It escapes both catch clauses, so the run throws, the client keeps the token it had, the file is unchanged and no session is requested. |
| ZerodhaProperties.RequestTokenIsLastOccurrence | src/in/satpathy/charanna/broker/zerodha/KiteLogin.java:289-299 | The token extracted is the value of the last `request_token` pair of the query. |
| ZerodhaProperties.RequestTokenOfParsedQuery | src/in/satpathy/charanna/broker/zerodha/KiteLogin.java:289-299 | For a URL that reaches the redirect and whose query parses, the result is the map's `request_token` value, or null when that key is absent. |
| ZerodhaProperties.UrlContainsBase | src/in/satpathy/charanna/broker/zerodha/KiteLogin.java:289 | A URL `base?query...` passes the redirect check for `base`. |
| ZerodhaProperties.RedirectWithPlainQuery | src/in/satpathy/charanna/broker/zerodha/KiteLogin.java:289-299 | A redirect whose query is written from plain pairs, optionally with a fragment, yields that map's `request_token` value, or null. |
| ZerodhaProperties.ExampleRequestToken | src/in/satpathy/charanna/broker/zerodha/KiteLogin.java:289-299 | `redirect?a=1&request_token=R1&b=2` yields exactly `R1`. The query text is built from pairs; `ExampleRequestTokenText` writes it out as the text quoted here. |
| ZerodhaProperties.ExampleDuplicateRequestToken | src/in/satpathy/charanna/broker/zerodha/KiteLogin.java:289-299 | `redirect?request_token=A&request_token=B#request_token=C` yields `B`. The last pair wins, and the fragment is not part of the query. The query text is built from pairs; `ExampleDuplicateRequestTokenText` writes it out as the text quoted here. |
| ZerodhaProperties.ExampleMissingRequestToken | src/in/satpathy/charanna/broker/zerodha/KiteLogin.java:289-303 | `redirect?status=success` yields null. The query text is built from pairs; `ExampleMissingRequestTokenText` writes it out as the text quoted here. |
| ZerodhaProperties.ExampleRequestTokenText | src/in/satpathy/charanna/broker/zerodha/KiteLogin.java:293-297 | The pairs of `ExampleRequestToken` are written as the query text `a=1&request_token=R1&b=2`. |
| ZerodhaProperties.ExampleDuplicateRequestTokenText | src/in/satpathy/charanna/broker/zerodha/KiteLogin.java:293-297 | The pairs of `ExampleDuplicateRequestToken` are written as the query text `request_token=A&request_token=B`. |
| ZerodhaProperties.ExampleMissingRequestTokenText | src/in/satpathy/charanna/broker/zerodha/KiteLogin.java:293-297 | The pair of `ExampleMissingRequestToken` is written as the query text `status=success`. |
| ZerodhaProperties.LoginRedirectToken | src/in/satpathy/charanna/broker/zerodha/KiteLogin.java:289-299 | `redirect?action=login&request_token=T` yields `T` for every plain `T`. |
| ZerodhaProperties.EndToEndFreshLogin | src/in/satpathy/charanna/broker/zerodha/KiteLogin.java:152-246 | End to end, there is no token file and the redirect carries request token `T`. The exchange yields access token `A` and the probe succeeds. Then the file holds `A`, the client holds the new tokens, and the calls are read, browser, `generateSession(T)`, probe with `A`, write `A`. |
| ZerodhaProperties.SaveThenLoad | src/in/satpathy/charanna/broker/zerodha/KiteLogin.java:322-363 | Round trip: `loadText` after `saveText(T)` returns `T` when the write succeeds, and the old content otherwise. |
| ZerodhaProperties.LoadTwice | src/in/satpathy/charanna/broker/zerodha/KiteLogin.java:322-334 | Two loads with no save between them return the same content. |

## Left out

- Selenium automation (KiteLogin.java:262-287) is not modelled step by step. It is reduced to an answer: a final URL, or a failure that propagates. The answer stands for an element not found, a timed-out wait for the redirect and the like. Leaving the browser open is not modelled either, because the code never quits it.
- `kiteConnect.getLoginURL` and the `setSessionExpiryHook` call are folded into the client creation and the browser-login call.
- The KiteConnect SDK is represented only by the outcome of each call: `getProfile`, `generateSession`, `logout`, `setAccessToken` and `setPublicToken`. The client keeps only the fields `KiteLogin` sets. `getKiteConnect` is a plain field read and has no member of its own.
- The model keeps the client as a value in a field, not as a shared object. Aliasing by callers that hold the object returned by `getKiteConnect` is not modelled.
- `URLDecoder.decode` is a parameter. Its percent and `+` decoding is library code. The examples only assume that it leaves text without `%` and `+` unchanged.
- `new URL(curUrl)` is reduced to a yes/no answer (`urlAccepted`): whether the string is an acceptable URL. Its protocol rules and whitespace handling are not modelled.
- Real file I/O, the default charset of `new String(bytes)`, and the working-directory path of `access.token.txt` are reduced to an `Option<string>` field.
  - A `FileWriter` that opens the file but then fails to write leaves it truncated. The model treats the write as all or nothing.
- Logging, the static gecko-driver property (KiteLogin.java:78-81), the `main` method (KiteLogin.java:370-410) and `CharannaSessionExpiryHook`, which only logs, are not part of this model.
- Single-threaded use is assumed, as in the source. No concurrency is modelled.
