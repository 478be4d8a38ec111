/**
 * The values the HTTP client of PyBlox2/utils/Http.py works with, and the
 * request policy of `HttpClient.request` stated as a function of the state
 * before the call: headers, the raw calls already made, and what the remote
 * answers to each raw call.
 */
module Transport {
  import opened Wrappers
  import CsrfToken

  type Headers = map<string, string>

  /** A raw HTTP result: status code, body text and response headers. */
  datatype Response = Response(status: int, text: string, headers: Headers)

  /** What a call can raise: an HTTP error for a status, or a call made without an open session. */
  datatype Error = HttpError(status: int) | NotConnected

  /** A call either returns a value or raises. */
  datatype Outcome<T> = Ok(value: T) | Raised(error: Error)

  /** One call handed to the network: method, URL, body and the headers sent (none at all for the token page). */
  datatype RawCall = RawCall(verb: string, url: string, data: Option<string>, headers: Option<Headers>)

  const TokenHeader: string := "X-CSRF-TOKEN"
  const ContentType: string := "content-type"
  const Json: string := "application/json"
  const HomePage: string := "https://www.roblox.com/"

  /** The raw GET of the home page that token refresh makes, without headers. */
  const HomePageCall: RawCall := RawCall("GET", HomePage, None, None)

  /** The header map as `request` leaves it before sending: GET forces a JSON content type. */
  function Prepared(verb: string, h: Headers): (r: Headers)
    ensures verb == "GET" ==> ContentType in r && r[ContentType] == Json
    ensures forall k :: k != ContentType ==> (k in r <==> k in h) && (k in h ==> r[k] == h[k])
    ensures verb != "GET" ==> r == h
  {
    if verb == "GET" then h[ContentType := Json] else h
  }

  /**
   * The header map after a token refresh that read `page`: only the token
   * header can change; it takes the first extracted token, and with no match
   * nothing changes.
   */
  function Refresh(h: Headers, page: string): (r: Headers)
    ensures forall k :: k != TokenHeader ==> (k in r <==> k in h) && (k in h ==> r[k] == h[k])
    ensures CsrfToken.Extract(page).None? ==> r == h
    ensures CsrfToken.Extract(page).Some? ==> TokenHeader in r && r[TokenHeader] == CsrfToken.Extract(page).value
    ensures CsrfToken.Extract(page).Some? && TokenHeader in h && h[TokenHeader] == CsrfToken.Extract(page).value ==> r == h
  {
    match CsrfToken.Extract(page)
    case None => h
    case Some(tok) => if TokenHeader !in h || h[TokenHeader] != tok then h[TokenHeader := tok] else h
  }

  /**
   * The state a request leaves: its outcome, the client's header map, the
   * caller's own header map (None when the client's map was used) and the
   * raw calls made so far.
   */
  datatype Step = Step(out: Outcome<Response>, client: Headers, own: Option<Headers>, log: seq<RawCall>)

  /**
   * `request(verb, url, data, headers, retries)`. `sessionOpen` says whether the
   * network session is open; `reply(n)` is the remote's answer to the n-th raw
   * call; `own` is the caller's non-empty header map, or None when the
   * client's own map is used by reference.
   */
  function RequestStep(sessionOpen: bool, reply: nat -> Response, verb: string, url: string, data: Option<string>,
                       client: Headers, own: Option<Headers>, log: seq<RawCall>, retries: nat): (s: Step)
    requires own.Some? ==> own.value != map[]
    ensures |log| <= |s.log| <= |log| + (if retries == 0 then 3 else 1)
    ensures s.log[..|log|] == log
    ensures s.out.Ok? ==> s.out.value.status == 200
    ensures own.None? <==> s.own.None?
    decreases if retries == 0 then 1 else 0
  {
    var client1 := if own.None? then Prepared(verb, client) else client;
    var own1 := if own.None? then None else Some(Prepared(verb, own.value));
    var sent := if own.None? then client1 else own1.value;
    if !sessionOpen then Step(Raised(NotConnected), client1, own1, log)
    else
      var first := reply(|log|);
      var log1 := log + [RawCall(verb, url, data, Some(sent))];
      if first.status == 200 then Step(Ok(first), client1, own1, log1)
      else if retries > 0 then Step(Raised(HttpError(first.status)), client1, own1, log1)
      else
        var page := reply(|log1|);
        var retry := RequestStep(sessionOpen, reply, verb, url, data, Refresh(client1, page.text), own1, log1 + [HomePageCall], retries + 1);
        var out := if retry.out.Raised? then retry.out else Raised(HttpError(first.status));
        Step(out, retry.client, retry.own, retry.log)
  }

  /**
   * With no open session the request raises NotConnected and makes no raw
   * call; the client's map has only been prepared (GET writes the content type
   * before the send fails).
   */
  lemma NotConnectedMakesNoCall(reply: nat -> Response, verb: string, url: string, data: Option<string>,
                                client: Headers, own: Option<Headers>, log: seq<RawCall>, retries: nat)
    requires own.Some? ==> own.value != map[]
    ensures var s := RequestStep(false, reply, verb, url, data, client, own, log, retries);
            && s.out == Raised(NotConnected) && s.log == log
            && s.client == (if own.None? then Prepared(verb, client) else client)
  {
  }

  /**
   * A first answer of 200 is returned as it is, after exactly one raw call
   * that carried the prepared headers, and no token refresh happens.
   */
  lemma SuccessOnFirstCall(reply: nat -> Response, verb: string, url: string, data: Option<string>,
                           client: Headers, own: Option<Headers>, log: seq<RawCall>, retries: nat)
    requires own.Some? ==> own.value != map[]
    requires reply(|log|).status == 200
    ensures var s := RequestStep(true, reply, verb, url, data, client, own, log, retries);
            var sent := if own.None? then Prepared(verb, client) else Prepared(verb, own.value);
            && s.out == Ok(reply(|log|))
            && s.log == log + [RawCall(verb, url, data, Some(sent))]
            && s.client == (if own.None? then Prepared(verb, client) else client)
  {
  }

  /**
   * A first answer other than 200, at retries = 0: the failed call carried the
   * chosen map, prepared, and the body; exactly one token refresh and exactly
   * one retry with the same body follow (three raw calls in all), and the request
   * raises, never returns. It raises for the retry's status when the retry
   * failed too, and for the first status when the retry succeeded (the
   * retry's response is dropped). The refreshed token stays in the client's
   * own map whichever map the request sent.
   */
  lemma FailureRefreshesAndRetriesOnce(reply: nat -> Response, verb: string, url: string, data: Option<string>,
                                       client: Headers, own: Option<Headers>, log: seq<RawCall>)
    requires own.Some? ==> own.value != map[]
    requires reply(|log|).status != 200
    ensures var s := RequestStep(true, reply, verb, url, data, client, own, log, 0);
            var first := reply(|log|).status;
            var second := reply(|log| + 2).status;
            && |s.log| == |log| + 3
            && s.log[|log|] == RawCall(verb, url, data, Some(if own.None? then Prepared(verb, client) else Prepared(verb, own.value)))
            && s.log[|log| + 1] == HomePageCall
            && s.log[|log| + 2].verb == verb && s.log[|log| + 2].url == url && s.log[|log| + 2].data == data
            && s.out == Raised(HttpError(if second == 200 then first else second))
            && s.client == (if own.None? then Prepared(verb, Refresh(Prepared(verb, client), reply(|log| + 1).text))
                            else Refresh(client, reply(|log| + 1).text))
  {
    var client1 := if own.None? then Prepared(verb, client) else client;
    var own1 := if own.None? then None else Some(Prepared(verb, own.value));
    var sent := if own.None? then client1 else own1.value;
    var log1 := log + [RawCall(verb, url, data, Some(sent))];
    var retry := RequestStep(true, reply, verb, url, data, Refresh(client1, reply(|log1|).text), own1, log1 + [HomePageCall], 1);
    assert |log1 + [HomePageCall]| == |log| + 2;
    assert retry.log[..|log| + 2] == log1 + [HomePageCall];
  }

  /** The retry is never retried: at retries > 0 a failure raises after one raw call. */
  lemma RetryIsFinal(reply: nat -> Response, verb: string, url: string, data: Option<string>,
                     client: Headers, own: Option<Headers>, log: seq<RawCall>, retries: nat)
    requires own.Some? ==> own.value != map[]
    requires retries > 0 && reply(|log|).status != 200
    ensures var s := RequestStep(true, reply, verb, url, data, client, own, log, retries);
            s.out == Raised(HttpError(reply(|log|).status)) && |s.log| == |log| + 1
  {
  }

  /**
   * The request changes the client's own header map only in the content type
   * (GET, when that map is the one used) and the token (refresh): every other
   * header keeps its presence and value.
   */
  lemma {:induction false} OnlyContentTypeAndTokenChange(sessionOpen: bool, reply: nat -> Response, verb: string, url: string,
                                                         data: Option<string>, client: Headers, own: Option<Headers>,
                                                         log: seq<RawCall>, retries: nat)
    requires own.Some? ==> own.value != map[]
    ensures var s := RequestStep(sessionOpen, reply, verb, url, data, client, own, log, retries);
            forall k :: k != TokenHeader && (k != ContentType || own.Some? || verb != "GET") ==>
              (k in s.client <==> k in client) && (k in client ==> s.client[k] == client[k])
    decreases if retries == 0 then 1 else 0
  {
    var client1 := if own.None? then Prepared(verb, client) else client;
    var own1 := if own.None? then None else Some(Prepared(verb, own.value));
    if sessionOpen && reply(|log|).status != 200 && retries == 0 {
      var sent := if own.None? then client1 else own1.value;
      var log1 := log + [RawCall(verb, url, data, Some(sent))];
      var client2 := Refresh(client1, reply(|log1|).text);
      OnlyContentTypeAndTokenChange(sessionOpen, reply, verb, url, data, client2, own1, log1 + [HomePageCall], 1);
    }
  }

  /**
   * GET with the client's own map: the JSON content type is written into that
   * map and is still there when the request is over, whatever the outcome.
   */
  lemma {:induction false} GetMarksClientMapJson(sessionOpen: bool, reply: nat -> Response, url: string, data: Option<string>,
                                                 client: Headers, log: seq<RawCall>, retries: nat)
    ensures var s := RequestStep(sessionOpen, reply, "GET", url, data, client, None, log, retries);
            ContentType in s.client && s.client[ContentType] == Json
    decreases if retries == 0 then 1 else 0
  {
    if sessionOpen && reply(|log|).status != 200 && retries == 0 {
      var client1 := Prepared("GET", client);
      var log1 := log + [RawCall("GET", url, data, Some(client1))];
      GetMarksClientMapJson(sessionOpen, reply, url, data, Refresh(client1, reply(|log1|).text), log1 + [HomePageCall], 1);
    }
  }

  /** A caller's own map gets the content type on GET and nothing else; other methods leave it alone. */
  lemma CallerMapOnlyPrepared(sessionOpen: bool, reply: nat -> Response, verb: string, url: string, data: Option<string>,
                              client: Headers, own: Headers, log: seq<RawCall>, retries: nat)
    requires own != map[]
    ensures var s := RequestStep(sessionOpen, reply, verb, url, data, client, Some(own), log, retries);
            s.own == Some(Prepared(verb, own))
  {
    if sessionOpen && reply(|log|).status != 200 && retries == 0 {
      assert Prepared(verb, Prepared(verb, own)) == Prepared(verb, own);
    }
  }

  /**
   * What the retry sends. With the client's own map it sends that map as the
   * refresh left it, so a newly extracted token goes out with the retry; with
   * a caller's map it sends the caller's map again, without the new token.
   */
  lemma RetrySendsHeaders(reply: nat -> Response, verb: string, url: string, data: Option<string>,
                          client: Headers, own: Option<Headers>, log: seq<RawCall>)
    requires own.Some? ==> own.value != map[]
    requires reply(|log|).status != 200
    ensures var s := RequestStep(true, reply, verb, url, data, client, own, log, 0);
            var page := reply(|log| + 1).text;
            |s.log| == |log| + 3 &&
            s.log[|log| + 2].headers ==
              Some(if own.None? then Prepared(verb, Refresh(Prepared(verb, client), page)) else Prepared(verb, own.value))
  {
    var client1 := if own.None? then Prepared(verb, client) else client;
    var own1 := if own.None? then None else Some(Prepared(verb, own.value));
    var sent := if own.None? then client1 else own1.value;
    var log1 := log + [RawCall(verb, url, data, Some(sent))];
    var log2 := log1 + [HomePageCall];
    assert |log2| == |log| + 2;
    if own.Some? {
      assert Prepared(verb, own1.value) == Prepared(verb, own.value);
    }
  }

  /** The token the retry carries, with the client's own map, is the one extracted from the home page. */
  lemma RetryCarriesFreshToken(reply: nat -> Response, verb: string, url: string, data: Option<string>,
                               client: Headers, log: seq<RawCall>)
    requires reply(|log|).status != 200
    requires CsrfToken.Extract(reply(|log| + 1).text).Some?
    ensures var s := RequestStep(true, reply, verb, url, data, client, None, log, 0);
            var sent := s.log[|log| + 2].headers;
            sent.Some? && TokenHeader in sent.value && sent.value[TokenHeader] == CsrfToken.Extract(reply(|log| + 1).text).value
  {
    RetrySendsHeaders(reply, verb, url, data, client, None, log);
  }

  /**
   * The cookie header value: `key=value;` for each stored cookie, in
   * insertion order, with no separator other than the `;` after each pair.
   */
  function CookieHeader(cookies: seq<(string, string)>): string {
    if cookies == [] then ""
    else CookieHeader(cookies[..|cookies| - 1]) + CookiePair(cookies[|cookies| - 1])
  }

  /** One cookie as the header writes it. */
  function CookiePair(cookie: (string, string)): string {
    cookie.0 + "=" + cookie.1 + ";"
  }

  /** The serialisation of a list of cookies is the serialisations of its parts, one after the other. */
  lemma {:induction false} CookieHeaderConcat(a: seq<(string, string)>, b: seq<(string, string)>)
    ensures CookieHeader(a + b) == CookieHeader(a) + CookieHeader(b)
    decreases |b|
  {
    if b != [] {
      var init := b[..|b| - 1];
      assert (a + b)[..|a + b| - 1] == a + init;
      assert (a + b)[|a + b| - 1] == b[|b| - 1];
      CookieHeaderConcat(a, init);
      calc {
        CookieHeader(a + b);
        CookieHeader(a + init) + CookiePair(b[|b| - 1]);
        CookieHeader(a) + CookieHeader(init) + CookiePair(b[|b| - 1]);
        CookieHeader(a) + (CookieHeader(init) + CookiePair(b[|b| - 1]));
        CookieHeader(a) + CookieHeader(b);
      }
    } else {
      assert a + b == a;
    }
  }

  /** Changing one cookie's value in place changes only that pair of the header. */
  lemma CookieHeaderInPlace(cookies: seq<(string, string)>, i: nat, k: string, v: string)
    requires i < |cookies|
    ensures CookieHeader(cookies[i := (k, v)])
         == CookieHeader(cookies[..i]) + CookiePair((k, v)) + CookieHeader(cookies[i + 1..])
  {
    var updated := cookies[i := (k, v)];
    assert updated == cookies[..i] + [(k, v)] + cookies[i + 1..];
    CookieHeaderConcat(cookies[..i] + [(k, v)], cookies[i + 1..]);
    CookieHeaderConcat(cookies[..i], [(k, v)]);
    assert [(k, v)][..0] == [];
  }
}
