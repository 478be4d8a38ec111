/**
 * The client objects of PyBlox2/utils/Http.py: the session state of
 * `HttpClient` (header map, cookie dictionary, session, authenticated flag),
 * its request policy, and `Url` with its verb methods. The network is a
 * `Network` object that answers the n-th raw call with `reply(n)` and keeps
 * the list of calls made.
 */
module Http {
  import opened Wrappers
  import opened Transport
  import Endpoints
  import Substitution
  import OrderedDict
  import CsrfToken

  /** A header dictionary, shared by reference as Python shares it. */
  class HeaderMap {
    var entries: Headers

    constructor (entries: Headers)
      ensures this.entries == entries
    {
      this.entries := entries;
    }
  }

  /** The remote side: a scripted answer per raw call and the calls made so far. */
  class Network {
    const reply: nat -> Response
    var log: seq<RawCall>

    constructor (reply: nat -> Response)
      ensures this.reply == reply && log == []
    {
      this.reply := reply;
      log := [];
    }
  }

  /** The client's network session: never opened, open, or closed again. */
  datatype Session = NoSession | Open | Closed

  const SecurityCookie: string := ".ROBLOSECURITY"
  const LoginHost: string := "www.roblox.com"
  const LoginPath: string := "/my/settings/json"
  /** The settings page that verifies a login: `https://www.roblox.com/my/settings/json`. */
  const LoginUrl: string := "https://" + LoginHost + LoginPath

  class HttpClient {
    const headers: HeaderMap
    const net: Network
    var cookies: OrderedDict.Dict<string, string>
    var session: Session
    var authed: bool

    /** Cookie keys are distinct, as the keys of a Python dict are. */
    ghost predicate Valid()
      reads this
    {
      OrderedDict.DistinctKeys(cookies)
    }

    /** A new client keeps the header map it is given, by reference, with no cookies and no session. */
    constructor (net: Network, headers: HeaderMap)
      ensures Valid()
      ensures this.net == net && this.headers == headers
      ensures cookies == [] && session == NoSession && !authed
    {
      this.net := net;
      this.headers := headers;
      cookies := [];
      session := NoSession;
      authed := false;
    }

    /** The caller's header map when `request` uses it, None when it uses the client's own. */
    function OwnHeaders(hdrs: HeaderMap?): (own: Option<Headers>)
      reads hdrs
      ensures own.Some? ==> hdrs != null && hdrs != headers && own.value == hdrs.entries && own.value != map[]
    {
      if hdrs == null || hdrs == headers || hdrs.entries == map[] then None else Some(hdrs.entries)
    }

    /**
     * The effect of `request(verb, url, data, hdrs, retries)` returning `out`,
     * as `Transport.RequestStep` gives it from the state before the call.
     */
    twostate predicate Performed(verb: string, url: string, data: Option<string>, hdrs: HeaderMap?, retries: nat,
                                 new out: Outcome<Response>)
      reads this, headers, net, hdrs
    {
      var own := old(OwnHeaders(hdrs));
      var s := RequestStep(old(session) == Open, net.reply, verb, url, data, old(headers.entries), own, old(net.log), retries);
      && out == s.out
      && headers.entries == s.client
      && net.log == s.log
      && (hdrs != null && hdrs != headers ==> hdrs.entries == if own.Some? then s.own.value else old(hdrs.entries))
    }

    /** `close`: the session is closed only when the client is authenticated. */
    method Close()
      requires Valid()
      modifies this
      ensures Valid()
      ensures session == (if old(authed) then Closed else old(session))
      ensures cookies == old(cookies) && authed == old(authed)
    {
      if authed {
        session := Closed;
      }
    }

    /** `__set_header`: one header set in the client's own map. */
    method SetHeader(key: string, value: string)
      modifies headers
      ensures headers.entries == old(headers.entries)[key := value]
    {
      headers.entries := headers.entries[key := value];
    }

    /**
     * `__set_cookie`: stores the cookie, then rebuilds the whole `Cookie`
     * header from every stored cookie in insertion order.
     */
    method SetCookie(key: string, value: string)
      requires Valid()
      modifies this, headers
      ensures Valid()
      ensures cookies == OrderedDict.Put(old(cookies), key, value)
      ensures headers.entries == old(headers.entries)["Cookie" := CookieHeader(cookies)]
      ensures session == old(session) && authed == old(authed)
    {
      OrderedDict.PutKeepsKeysDistinct(cookies, key, value);
      cookies := OrderedDict.Put(cookies, key, value);
      var line := "";
      var i := 0;
      while i < |cookies|
        invariant 0 <= i <= |cookies|
        invariant line == CookieHeader(cookies[..i])
      {
        assert cookies[..i + 1][..i] == cookies[..i];
        var (k, v) := cookies[i];
        line := line + k + "=" + v + ";";
        i := i + 1;
      }
      assert cookies[..i] == cookies;
      SetHeader("Cookie", line);
    }

    /** `__raw_request`: one call to the network, which needs an open session. */
    method RawRequest(verb: string, url: string, data: Option<string>, sent: Option<Headers>) returns (out: Outcome<Response>)
      modifies net
      ensures session == Open ==> out == Ok(net.reply(|old(net.log)|)) && net.log == old(net.log) + [RawCall(verb, url, data, sent)]
      ensures session != Open ==> out == Raised(NotConnected) && net.log == old(net.log)
    {
      if session != Open {
        return Raised(NotConnected);
      }
      out := Ok(net.reply(|net.log|));
      net.log := net.log + [RawCall(verb, url, data, sent)];
    }

    /**
     * `__actualize_token`: reads the home page and stores the first token
     * found there when it differs from the stored one.
     */
    method ActualizeToken() returns (out: Outcome<()>)
      modifies headers, net
      ensures session == Open ==> && out == Ok(())
                                  && net.log == old(net.log) + [HomePageCall]
                                  && headers.entries == Refresh(old(headers.entries), net.reply(|old(net.log)|).text)
      ensures session != Open ==> out == Raised(NotConnected) && net.log == old(net.log) && headers.entries == old(headers.entries)
    {
      var page := RawRequest("GET", HomePage, None, None);
      if page.Raised? {
        return Raised(page.error);
      }
      var token := CsrfToken.Extract(page.value.text);
      if token.Some? {
        if TokenHeader !in headers.entries || headers.entries[TokenHeader] != token.value {
          SetHeader(TokenHeader, token.value);
        }
      }
      out := Ok(());
    }

    /**
     * The failure branch of `request` at retries = 0: refresh the token, then
     * request again at retries = 1 with the same header map `h`; the caller
     * raises afterwards unless this attempt raised first.
     */
    method RefreshAndRetry(verb: string, url: string, data: Option<string>, h: HeaderMap) returns (retry: Outcome<Response>)
      requires session == Open
      requires h != headers ==> h.entries != map[]
      modifies headers, net, h
      ensures var own := old(if h == headers then None else Some(h.entries));
              var s := RequestStep(true, net.reply, verb, url, data, Refresh(old(headers.entries), net.reply(|old(net.log)|).text),
                                   own, old(net.log) + [HomePageCall], 1);
              && retry == s.out
              && headers.entries == s.client
              && net.log == s.log
              && (h != headers ==> Some(h.entries) == s.own)
      decreases 1
    {
      // The session is open, so the refresh cannot raise.
      var refreshed := ActualizeToken();
      assert refreshed == Ok(());
      retry := Request(verb, url, data, h, 1);
    }

    /**
     * The first lines of `request`: the caller's map when it is given and not
     * empty, else the client's own; GET writes the JSON content type into the
     * map chosen, in place.
     */
    method PrepareHeaders(verb: string, hdrs: HeaderMap?) returns (h: HeaderMap)
      modifies headers, hdrs
      ensures h == if old(OwnHeaders(hdrs)).None? then headers else hdrs
      ensures old(OwnHeaders(hdrs)).None? ==> headers.entries == Prepared(verb, old(headers.entries))
      ensures old(OwnHeaders(hdrs)).Some? ==> headers.entries == old(headers.entries) && h.entries == Prepared(verb, old(h.entries))
      ensures hdrs != null && hdrs != headers && old(OwnHeaders(hdrs)).None? ==> hdrs.entries == old(hdrs.entries)
    {
      h := if hdrs == null || hdrs.entries == map[] then headers else hdrs;
      if verb == "GET" {
        h.entries := h.entries[ContentType := Json];
      }
    }

    /**
     * `request`: sends with the caller's non-empty map or else the client's
     * own (GET writes the JSON content type into it); on a status other than
     * 200 at retries = 0 refreshes the token and retries once, then raises.
     */
    method Request(verb: string, url: string, data: Option<string>, hdrs: HeaderMap?, retries: nat)
      returns (out: Outcome<Response>)
      modifies headers, net, hdrs
      ensures var own := old(OwnHeaders(hdrs));
              var s := RequestStep(old(session) == Open, net.reply, verb, url, data, old(headers.entries), own, old(net.log), retries);
              && out == s.out
              && headers.entries == s.client
              && net.log == s.log
              && (hdrs != null && hdrs != headers ==> hdrs.entries == if own.Some? then s.own.value else old(hdrs.entries))
      decreases if retries == 0 then 2 else 0
    {
      ghost var own := OwnHeaders(hdrs);
      ghost var client0 := headers.entries;
      ghost var log0 := net.log;
      var h := PrepareHeaders(verb, hdrs);
      ghost var client1 := if own.None? then Prepared(verb, client0) else client0;
      ghost var own1 := if own.None? then None else Some(Prepared(verb, own.value));
      ghost var call := RawCall(verb, url, data, Some(if own.None? then client1 else own1.value));
      var response := RawRequest(verb, url, data, Some(h.entries));
      if response.Raised? {
        return response;
      }
      assert net.log == log0 + [call];
      if response.value.status == 200 {
        return response;
      }
      if retries == 0 {
        assert own.Some? ==> h.entries == own1.value && own.value.Keys <= h.entries.Keys;
        var retry := RefreshAndRetry(verb, url, data, h);
        if retry.Raised? {
          return retry;
        }
      }
      out := Raised(HttpError(response.value.status));
    }

    /**
     * `__complete_login`: a GET of the settings page through a `Url` for the
     * login host, with no header map of its own; an HTTP error propagates.
     */
    method CompleteLogin() returns (out: Outcome<Response>)
      modifies headers, net
      ensures Performed("GET", LoginUrl, None, null, 0, out)
    {
      var settings := new Url(LoginHost, LoginPath, [], this);
      assert settings.url == LoginUrl by {
        Endpoints.LoginHostPassesThrough();
        assert Substitution.Substitute(LoginPath, []) == LoginPath;
      }
      out := settings.Get(None, null);
    }

    /**
     * `connect`: stores the security cookie, opens a session, refreshes the
     * token and verifies the login; the client is authenticated only when
     * that verification returned.
     */
    method Connect(secret: string) returns (out: Outcome<Response>)
      requires Valid()
      modifies this, headers, net
      ensures Valid()
      ensures cookies == OrderedDict.Put(old(cookies), SecurityCookie, secret)
      ensures session == Open
      ensures authed == (old(authed) || out.Ok?)
      ensures var withCookie := old(headers.entries)["Cookie" := CookieHeader(cookies)];
              var refreshed := Refresh(withCookie, net.reply(|old(net.log)|).text);
              var s := RequestStep(true, net.reply, "GET", LoginUrl, None, refreshed, None, old(net.log) + [HomePageCall], 0);
              && out == s.out
              && headers.entries == s.client
              && net.log == s.log
    {
      SetCookie(SecurityCookie, secret);
      session := Open;
      // The session was just opened, so the refresh cannot raise.
      var refreshed := ActualizeToken();
      assert refreshed == Ok(());
      out := CompleteLogin();
      if out.Ok? {
        authed := true;
      }
    }
  }

  /** A request target: the resolved URL and the client the verb methods go through. */
  class Url {
    const http: HttpClient
    const url: string

    /**
     * Resolves the endpoint key to a host, fills the placeholders of `path`
     * with `params` in order (first occurrence each) and prefixes the scheme.
     */
    constructor (endpoint: string, path: string, params: seq<(string, string)>, http: HttpClient)
      ensures this.http == http
      ensures url == "https://" + Endpoints.ResolveHost(endpoint) + Substitution.Substitute(path, params)
    {
      var host := Endpoints.ResolveHost(endpoint);
      var filled := path;
      var i := 0;
      while i < |params|
        invariant 0 <= i <= |params|
        invariant filled == Substitution.Substitute(path, params[..i])
      {
        var (key, value) := params[i];
        assert params[..i + 1][..i] == params[..i];
        filled := Substitution.ReplaceFirst(filled, Substitution.Placeholder(key), value);
        i := i + 1;
      }
      assert params[..i] == params;
      this.http := http;
      this.url := "https://" + (host + filled);
    }

    /** `get`: forwards to the client's request with method GET. */
    method Get(data: Option<string>, hdrs: HeaderMap?) returns (out: Outcome<Response>)
      modifies http.headers, http.net, hdrs
      ensures http.Performed("GET", url, data, hdrs, 0, out)
    {
      out := http.Request("GET", url, data, hdrs, 0);
    }

    /** `post`: forwards to the client's request with method POST. */
    method Post(data: Option<string>, hdrs: HeaderMap?) returns (out: Outcome<Response>)
      modifies http.headers, http.net, hdrs
      ensures http.Performed("POST", url, data, hdrs, 0, out)
    {
      out := http.Request("POST", url, data, hdrs, 0);
    }

    /** `put`: forwards to the client's request with method PUT. */
    method Put(data: Option<string>, hdrs: HeaderMap?) returns (out: Outcome<Response>)
      modifies http.headers, http.net, hdrs
      ensures http.Performed("PUT", url, data, hdrs, 0, out)
    {
      out := http.Request("PUT", url, data, hdrs, 0);
    }

    /** `delete`: forwards to the client's request with method DELETE. */
    method Delete(data: Option<string>, hdrs: HeaderMap?) returns (out: Outcome<Response>)
      modifies http.headers, http.net, hdrs
      ensures http.Performed("DELETE", url, data, hdrs, 0, out)
    {
      out := http.Request("DELETE", url, data, hdrs, 0);
    }

    /** `patch`: forwards to the client's request with method PATCH. */
    method Patch(data: Option<string>, hdrs: HeaderMap?) returns (out: Outcome<Response>)
      modifies http.headers, http.net, hdrs
      ensures http.Performed("PATCH", url, data, hdrs, 0, out)
    {
      out := http.Request("PATCH", url, data, hdrs, 0);
    }
  }
}
