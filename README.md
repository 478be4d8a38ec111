# PyBlox2 HTTP transport, modelled in Dafny

This project models the HTTP transport of PyBlox2 (`PyBlox2/utils/Http.py`).
It covers:

- the endpoint table;
- `Url`, which builds `https://` URLs from an endpoint key and a path template, and its five verb methods;
- `HttpClient`, with its header map, cookie dictionary, session and `authed` flag;
- the anti-forgery (`X-CSRF-TOKEN`) refresh;
- the request policy: one token refresh and one retry after a status other than 200, then an error;
- `connect` and `close`.

The network is a `Network` object. `reply(n)` is the remote's answer to the n-th raw call, and `log` lists every raw call made, so call counts, call order and outcomes can be stated exactly.

Modules, one per file:

- `Wrappers` (wrappers.dfy): `Option`.
- `Endpoints` (endpoints.dfy): the `ENDPOINTS` table, ASCII lower-casing and the host lookup that `Url` does.
- `Substitution` (substitution.dfy): `str.replace(old, new, 1)` and the in-order fill of `%key%` placeholders.
- `OrderedDict` (ordered_dict.dfy): the insertion-ordered Python dict that holds the cookies.
- `CsrfToken` (csrf_token.dfy): `re.findall(csrfTokenRegex, text)[0]` for this one pattern.
  - The first match wins.
  - Each unescaped `.` matches any character except a line break.
  - The greedy `(.+)` runs to the last `')` on the same line.
- `Transport` (transport.dfy): the values the client handles and `RequestStep`.
  - `RequestStep` is the whole effect of `request` as a function of the state before the call: the outcome, the client's header map, the caller's header map and the raw calls.
  - The lemmas about the retry policy are stated on `RequestStep`.
- `Http` (http.dfy): the objects.
  - `HeaderMap` is a Python dict shared by reference.
  - `Network`.
  - `HttpClient`, whose methods update its fields in place.
  - `Url`, whose `url` field is what the `url` property returns.
  - `HttpClient.Request` is proved to do exactly what `Transport.RequestStep` says.
  - `Connect`, `CompleteLogin` and the verb methods are proved in terms of it.

Behaviour kept as the code has it:

- `close()` closes the session only when the client is authenticated.
  - It does not reset `authed`.
  - A failed `connect` leaves its session open.
- After a status other than 200, `request` refreshes the token and calls itself once at `retries=1`.
  - It then raises `HttpError` for the FIRST status, even when the retry succeeded; the retry's response is dropped.
  - When the retry fails, the retry's own error propagates instead.
  - `FailureRefreshesAndRetriesOnce` states both cases.
- The header map is shared, which has two consequences:
  - When no (or an empty) header map is given, the client's own map is used by reference. A GET writes `content-type: application/json` into it, and that entry stays for every later request.
  - The retry reuses the map the first attempt chose. With the client's map the retry carries the freshly extracted token. With a caller's map the retry sends that map unchanged, without the new token (`RetrySendsHeaders`).
- `HttpClient.Request` shows the same asymmetry: the refreshed token reaches the client's map but not the caller's map.

## Model

| member | source | states |
|---|---|---|
| Endpoints.Lower | PyBlox2/utils/Http.py:122 | lower-casing keeps the length and lower-cases each ASCII letter in place, leaving every other character as it is |
| Endpoints.ResolveHost | PyBlox2/utils/Http.py:122 | `ENDPOINTS.get(str.lower(endpoint), endpoint)`; characterised by `UnknownKeyPassesThrough`, `LookupIgnoresCase`, `KeyInAnyCase` and `DefaultHostOnlyByName` |
| Endpoints.LowerEach | PyBlox2/utils/Http.py:122 | lower-casing is determined by what it does to each character |
| Endpoints.UnknownKeyPassesThrough | PyBlox2/utils/Http.py:122 | a key whose lower-case form is not in the table is its own host, in its original letter case |
| Endpoints.LookupIgnoresCase | PyBlox2/utils/Http.py:14-18 | two keys that agree after lower-casing resolve to the same table host |
| Endpoints.KeyInAnyCase | PyBlox2/utils/Http.py:14-18 | any upper/lower-case spelling of `groups`, `friends` or `default` reaches that key's host |
| Endpoints.DefaultHostOnlyByName | PyBlox2/utils/Http.py:14-18 | `api.roblox.com` is reached only through the key `default` (any case) or by naming that host; an unknown key never falls back to it |
| Endpoints.LowerCaseHostPassesThrough | PyBlox2/utils/Http.py:122 | a host name without capitals that is not a key is used as it is |
| Endpoints.LoginHostPassesThrough | PyBlox2/utils/Http.py:56 | `www.roblox.com`, the login host, resolves to itself |
| Substitution.Placeholder | PyBlox2/utils/Http.py:126 | the placeholder of `k` is `k` itself with a `%` added at each end |
| Substitution.ReplaceFirst | PyBlox2/utils/Http.py:126 | `str.replace(pat, rep, 1)`; characterised by `ReplaceFirstAt` (the first occurrence only) and `ReplaceFirstAbsent` (no occurrence) |
| Substitution.Substitute | PyBlox2/utils/Http.py:124-126 | the loop over the parameters as a fold; characterised by `NoParameters`, `SubstituteInOrder`, `SubstituteUntouched` and `SingleParameter`, and equal to what the `Url` constructor's loop computes |
| Substitution.OccursInTail | PyBlox2/utils/Http.py:126 | an occurrence in the tail of a string is an occurrence in the string one place later, and back |
| Substitution.ReplaceFirstSkips | PyBlox2/utils/Http.py:126 | when the placeholder is not at the start, the replacement keeps the first character and continues on the rest |
| Substitution.ReplaceFirstAt | PyBlox2/utils/Http.py:126 | `replace(pat, rep, 1)` puts `rep` in place of the FIRST occurrence of `pat` and keeps everything before and after it, later occurrences included |
| Substitution.ReplaceFirstAbsent | PyBlox2/utils/Http.py:126 | when `pat` does not occur, the string is unchanged |
| Substitution.NoParameters | PyBlox2/utils/Http.py:124 | with no parameters the path is unchanged |
| Substitution.SubstituteInOrder | PyBlox2/utils/Http.py:125-126 | parameters are applied in the order given: the last acts on the result of all earlier ones |
| Substitution.SubstituteUntouched | PyBlox2/utils/Http.py:124-126 | when no parameter's placeholder occurs, the path comes out verbatim, including placeholders that have no parameter |
| Substitution.SingleParameter | PyBlox2/utils/Http.py:124-126 | one parameter replaces its placeholder's first occurrence and keeps all other text |
| OrderedDict.Get | PyBlox2/utils/Http.py:107 | `d.get(k)` on the insertion-ordered dict; related to `Put` by `PutGet` |
| OrderedDict.Put | PyBlox2/utils/Http.py:107 | `d[k] = v` on the insertion-ordered dict; characterised by `PutGet`, `PutExisting`, `PutNew` and `PutKeepsKeysDistinct` |
| OrderedDict.PutGet | PyBlox2/utils/Http.py:107 | after `d[k] = v`, `k` maps to `v` and every other key keeps its value |
| OrderedDict.PutExisting | PyBlox2/utils/Http.py:107 | re-setting an existing key replaces its value where it stands; no pair is added or moved |
| OrderedDict.PutNew | PyBlox2/utils/Http.py:107 | a new key is appended after all existing pairs |
| OrderedDict.PutKeepsKeysDistinct | PyBlox2/utils/Http.py:107 | keys stay distinct |
| CsrfToken.MatchAt | PyBlox2/utils/Http.py:10 | the capture of a match that starts at one position; characterised by `MatchAtSound`, `MatchAtComplete` and `MatchAtGreedy` |
| CsrfToken.FirstFrom | PyBlox2/utils/Http.py:91-94 | the scan for the leftmost match; characterised by `FirstFromSound`, `FirstFromComplete` and `FirstFromLeftmost` |
| CsrfToken.Extract | PyBlox2/utils/Http.py:91-96 | `findall(csrfTokenRegex, text)[0]`, or none when the list is empty; characterised by `ExtractFindsToken`, `ExtractIsLeftmost` and `ExtractSetterCall` |
| CsrfToken.LineEnd | PyBlox2/utils/Http.py:10 | the end of the current line is the next line break, or the end of the text, and no line break comes before it |
| CsrfToken.LastClose | PyBlox2/utils/Http.py:10 | the greedy group stops at the last `')` in range, or there is none |
| CsrfToken.MatchAtSound | PyBlox2/utils/Http.py:10 | a match at `i` captures a non-empty, one-line argument that is followed by `')` |
| CsrfToken.MatchAtComplete | PyBlox2/utils/Http.py:10 | where such an argument follows the pattern, a match starts there |
| CsrfToken.FirstFromSound | PyBlox2/utils/Http.py:91-94 | the leftmost search returns a token that really stands in the text |
| CsrfToken.FirstFromComplete | PyBlox2/utils/Http.py:91-94 | a token present in the text is found by every search that starts at or before it |
| CsrfToken.MatchAtGreedy | PyBlox2/utils/Http.py:10 | the greedy `(.+)`: a match captures at least as much as any setter argument that starts at the same place |
| CsrfToken.FirstFromLeftmost | PyBlox2/utils/Http.py:91-94 | the scan returns the capture of the first position at or after its start where a match begins |
| CsrfToken.ExtractIsLeftmost | PyBlox2/utils/Http.py:91-96 | `findall(...)[0]` is the capture of the leftmost match: no setter call stands anywhere before it |
| CsrfToken.ExtractFindsToken | PyBlox2/utils/Http.py:91-96 | `findall` yields a first token exactly when the page holds the setter call with a non-empty one-line argument, and what it yields is such an argument |
| CsrfToken.ExtractSetterCall | PyBlox2/utils/Http.py:91-96 | a page opening with `Roblox.XsrfToken.setToken('tok')` and a line break yields exactly `tok` |
| Transport.Prepared | PyBlox2/utils/Http.py:75-76 | GET sets `content-type` to `application/json` and changes no other header; other methods change nothing |
| Transport.Refresh | PyBlox2/utils/Http.py:96-99 | token refresh touches only `X-CSRF-TOKEN`: it is set to the first extracted token; with no match, or an equal stored token, the map is unchanged |
| Transport.RequestStep | PyBlox2/utils/Http.py:71-86 | a request makes at most 3 raw calls (1 on a retry) and only appends to the call list; it returns only a 200 response; it keeps using the caller's map when given one, and the client's map otherwise. The caller's map must be non-empty, since `not headers` sends an empty one to the client's map (see `OwnHeaders`) |
| Transport.NotConnectedMakesNoCall | PyBlox2/utils/Http.py:65-78 | without an open session a request raises the not-connected error and makes no raw call; the client's map is left as lines 72-76 prepared it |
| Transport.SuccessOnFirstCall | PyBlox2/utils/Http.py:78-80 | a first answer of 200 is returned as it is, after exactly one raw call carrying the prepared headers, with no token refresh |
| Transport.FailureRefreshesAndRetriesOnce | PyBlox2/utils/Http.py:80-84 | a first status other than 200 at retries 0 gives exactly three raw calls. The request carries the body and the chosen map, prepared. Then comes the home page. Then the retry, with the same verb, URL and body. The request always raises: with the retry's status if the retry failed, else with the first status. The token refresh (lines 97-99) stays in the client's own map whichever map was sent, and that map then holds exactly the prepared and refreshed headers |
| Transport.RetryIsFinal | PyBlox2/utils/Http.py:81-84 | at retries > 0 a failure raises for its status after one raw call and is never retried |
| Transport.OnlyContentTypeAndTokenChange | PyBlox2/utils/Http.py:72-83 | a request changes the client's map only in `content-type` (GET with that map) and `X-CSRF-TOKEN` |
| Transport.GetMarksClientMapJson | PyBlox2/utils/Http.py:72-76 | a GET that uses the client's map leaves `content-type: application/json` in it, whatever the outcome |
| Transport.CallerMapOnlyPrepared | PyBlox2/utils/Http.py:72-76 | a caller's map gains the JSON content type on GET and nothing else; other methods leave it alone |
| Transport.RetrySendsHeaders | PyBlox2/utils/Http.py:82-83 | the retry sends the client's map as the refresh left it, or else the caller's map without the new token |
| Transport.RetryCarriesFreshToken | PyBlox2/utils/Http.py:82-83 | with the client's map, the retry carries the token extracted from the home page |
| Transport.CookiePair | PyBlox2/utils/Http.py:111-114 | the four pieces `k`, `=`, `v`, `;` that one cookie adds |
| Transport.CookieHeader | PyBlox2/utils/Http.py:109-116 | `"".join(cookie_list)` over all cookies in insertion order; characterised by `CookieHeaderConcat` and `CookieHeaderInPlace`, and equal to what `SetCookie`'s loop builds |
| Transport.CookieHeaderConcat | PyBlox2/utils/Http.py:109-116 | the `Cookie` value of a list of cookies is the values of its parts, one after the other |
| Transport.CookieHeaderInPlace | PyBlox2/utils/Http.py:107-116 | changing one cookie's value changes only that cookie's `k=v;` pair in the header |
| Http.HeaderMap.constructor | PyBlox2/utils/Http.py:27-28 | a header dict holding the given entries |
| Http.Network.constructor | PyBlox2/utils/Http.py:65-69 | a network with the given answers and no calls made |
| Http.HttpClient.constructor | PyBlox2/utils/Http.py:27-31 | a client keeps the given header map by reference and starts with no cookies, no session and `authed` false |
| Http.HttpClient.OwnHeaders | PyBlox2/utils/Http.py:72-73 | the caller's map is used only when it is given, is not the client's own, and is not empty (`not headers`); what it yields is that non-empty map |
| Http.HttpClient.Close | PyBlox2/utils/Http.py:34-36 | the session is closed only when authenticated; cookies and `authed` are unchanged |
| Http.HttpClient.SetHeader | PyBlox2/utils/Http.py:102-103 | exactly one header of the client's map is set |
| Http.HttpClient.SetCookie | PyBlox2/utils/Http.py:106-116 | the cookie dictionary gets `key = value`. The `Cookie` header becomes `k=v;` over all stored cookies in insertion order. No other header changes, and the keys stay distinct |
| Http.HttpClient.RawRequest | PyBlox2/utils/Http.py:65-69 | with an open session, one call is appended to the network log and its scripted answer returned; otherwise not-connected with no call |
| Http.HttpClient.ActualizeToken | PyBlox2/utils/Http.py:88-99 | one header-less GET of the home page; the header map becomes `Refresh` of the old map by that page |
| Http.HttpClient.PrepareHeaders | PyBlox2/utils/Http.py:72-76 | chooses the caller's non-empty map or else the client's own, and on GET writes the JSON content type into the map chosen, in place |
| Http.HttpClient.RefreshAndRetry | PyBlox2/utils/Http.py:81-83 | refreshes the token and then requests at retries 1 with the same map, as `RequestStep` gives it |
| Http.HttpClient.Request | PyBlox2/utils/Http.py:71-86 | the outcome, the client's map, the caller's map and the network log are exactly those of `RequestStep` on the state before the call |
| Http.HttpClient.CompleteLogin | PyBlox2/utils/Http.py:51-63 | a GET of `https://www.roblox.com/my/settings/json` with the client's map, its HTTP error propagated |
| Http.HttpClient.Connect | PyBlox2/utils/Http.py:38-49 | sets the `.ROBLOSECURITY` cookie, opens the session, refreshes the token, then verifies login; `authed` becomes true exactly when that verification returned |
| Http.Url.constructor | PyBlox2/utils/Http.py:121-128 | the URL is `https://` + the resolved host + the path with its placeholders filled in order |
| Http.Url.Get | PyBlox2/utils/Http.py:135-136 | a GET of the URL through the client, with the effect `RequestStep` gives |
| Http.Url.Post | PyBlox2/utils/Http.py:138-139 | a POST of the URL through the client, with the effect `RequestStep` gives |
| Http.Url.Put | PyBlox2/utils/Http.py:141-142 | a PUT of the URL through the client, with the effect `RequestStep` gives |
| Http.Url.Delete | PyBlox2/utils/Http.py:144-145 | a DELETE of the URL through the client, with the effect `RequestStep` gives |
| Http.Url.Patch | PyBlox2/utils/Http.py:147-148 | a PATCH of the URL through the client, with the effect `RequestStep` gives |

## Left out

- The network: the aiohttp session, async/await interleavings and logging are not modelled. `__raw_request` is replaced by the scripted `Network`, and a session's state is the `Session` value.
- The `loop` argument of the constructor and of the aiohttp session is not modelled; it only picks an event loop.
- The singleton `HttpClient.__instance` and `HttpClient.get()` are left out: `Url` is given its client explicitly.
- Http.HeaderMap.constructor: the mutable default `headers: dict={}` is not modelled as a dict shared by every client; each client is given its own map.
- Using a client before `connect` (no `__session` attribute) and after `close` (a closed aiohttp session) are both modelled as the not-connected error, not as Python's own exceptions.
- Http.HttpClient.CompleteLogin: parsing the JSON body into `[UserId, Name]` is left out. The method returns the settings response, and the user id and name are treated as opaque. The `headers` argument is not modelled because the code never uses it.
- `HttpError.error` and the error classes are not part of this model. Every `HttpError` is an outcome carrying its status, and it always raises.
- `BloxResponse` is a plain record of status, text and headers, without its JSON parsing.
- Http.HttpClient.Request: `retries` is a natural number, since only 0 and 1 are ever passed.
- Http.HttpClient.SetCookie: `cookieProps` is ignored, as the code ignores it. Values are taken as strings, so `str(v)` is not modelled.
- Http.Url.constructor: parameters are a sequence of string pairs in call order. The `str(v)` conversion of a value is not modelled.
- Endpoints.Lower: only ASCII letters are lower-cased. Python's `str.lower` also lowers other letters, and this model does not follow that for non-ASCII keys. For the table keys, which are ASCII, the lookup is exact.
- CsrfToken.Extract: the matcher covers only this one pattern, not a general regular-expression engine.
- `PyBlox2/Groups.py`, page-cursor pagination (`read_pages`) and the resource classes it builds are not part of this model.
