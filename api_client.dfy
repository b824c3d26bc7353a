/**
 * The browser side of the API: `localStorage`, the axios base URL, the
 * request interceptor that attaches the stored admin token as a bearer
 * header, and the query-string form of the message status call.
 */
module ApiClient {
  import opened Wrappers
  import opened Text
  import opened AuthMiddleware

  /** The `localStorage` key the admin token is kept under. */
  const TokenKey := "admin_token"

  /** The header name the interceptor writes. */
  const AuthorizationName := "Authorization"

  /** `window.localStorage`: string values by string key. */
  class LocalStorage {
    var items: map<string, string>

    constructor (items: map<string, string>)
      ensures this.items == items
    {
      this.items := items;
    }

    /** `getItem(key)`: `null` (here `None`) for a missing key. */
    function GetItem(key: string): (v: Option<string>)
      reads this`items
      ensures v.Some? <==> key in items
      ensures v.Some? ==> v.value == items[key]
    {
      if key in items then Some(items[key]) else None
    }

    method SetItem(key: string, value: string)
      modifies this`items
      ensures items == old(items)[key := value]
      ensures GetItem(key) == Some(value)
    {
      items := items[key := value];
    }

    method RemoveItem(key: string)
      modifies this`items
      ensures items == old(items) - {key}
      ensures GetItem(key).None?
    {
      items := items - {key};
    }
  }

  /** `${BACKEND_URL}/api`: the template literal prints an unset variable as
      `undefined`. */
  function ApiBase(backendUrl: Option<string>): (r: string)
    ensures |r| >= 4 && r[|r| - 4..] == "/api"
    ensures backendUrl.Some? ==> r[..|r| - 4] == backendUrl.value
    ensures backendUrl.None? ==> r == "undefined/api"
  {
    (if backendUrl.Some? then backendUrl.value else "undefined") + "/api"
  }

  /** A stored value passes `if (token)` when it is present and not the empty
      string. */
  predicate Truthy(v: Option<string>) {
    v.Some? && v.value != ""
  }

  /** The header value built from a stored token. */
  function BearerValue(token: string): string {
    "Bearer " + token
  }

  /** The bearer header parses back to the token through the guard's
      `split(' ')[1]` exactly when the token is non-empty and holds no space. */
  lemma BearerRoundTrip(token: string)
    ensures BearerToken(Some(BearerValue(token))) == Some(token) <==> token != "" && ' ' !in token
  {
    if token != "" && ' ' !in token {
      assert BearerValue(token) == "Bearer" + " " + token;
      BearerTokenAfterAnyWord("Bearer", token);
    }
  }

  /** The axios request config; only its headers matter here. */
  class RequestConfig {
    var headers: map<string, string>

    constructor (headers: map<string, string>)
      ensures this.headers == headers
    {
      this.headers := headers;
    }
  }

  /** The request interceptor: with a truthy stored token the `Authorization`
      header is set to `Bearer <token>`; otherwise the headers are left as they
      are. The config it returns is the one it was given. */
  method Intercept(storage: LocalStorage, config: RequestConfig) returns (r: RequestConfig)
    modifies config`headers
    ensures r == config
    ensures var token := storage.GetItem(TokenKey);
      if Truthy(token) then config.headers == old(config.headers)[AuthorizationName := BearerValue(token.value)]
      else config.headers == old(config.headers)
    ensures forall k :: k != AuthorizationName && k in old(config.headers) ==>
              k in config.headers && config.headers[k] == old(config.headers)[k]
  {
    var token := storage.GetItem(TokenKey);
    if Truthy(token) {
      config.headers := config.headers[AuthorizationName := BearerValue(token.value)];
    }
    return config;
  }

  /** The route part of `adminUpdateMessageStatus`'s URL. */
  function MessageStatusRoute(id: string): string {
    "/admin/messages/" + id + "/status"
  }

  /** `/admin/messages/${id}/status?status=${status}`: the status travels as
      a query parameter, interpolated without encoding. */
  function MessageStatusPath(id: string, status: string): string {
    MessageStatusRoute(id) + "?" + StatusQuery(status)
  }

  /** The query part: `status=${status}`. */
  function StatusQuery(status: string): string {
    "status=" + status
  }

  /** The route adds no `?` and no `#` of its own. */
  lemma RouteReserved(id: string)
    requires '?' !in id && '#' !in id
    ensures '?' !in MessageStatusRoute(id) && '#' !in MessageStatusRoute(id)
  {
    var head := "/admin/messages/";
    var tail := "/status";
    assert forall i :: 0 <= i < |head| ==> head[i] != '?' && head[i] != '#';
    assert forall i :: 0 <= i < |tail| ==> tail[i] != '?' && tail[i] != '#';
    assert MessageStatusRoute(id) == head + id + tail;
  }

  /** The query adds no `?`, `&` or `#` of its own. */
  lemma QueryReserved(status: string)
    requires '?' !in status && '&' !in status && '#' !in status
    ensures var q := StatusQuery(status); '?' !in q && '&' !in q && '#' !in q
  {
    var key := "status=";
    assert forall i :: 0 <= i < |key| ==> key[i] != '?' && key[i] != '&' && key[i] != '#';
  }

  /** When the id holds neither `?` nor `#`, and the status holds none of `?`,
      `&` and `#`, the URL has no fragment and splits at its one `?` into the
      route and a query that is the single `status` parameter. The values are
      interpolated without encoding, so these characters are exactly the ones
      that would change what the server reads. */
  lemma MessageStatusPathSplits(id: string, status: string)
    requires '?' !in id && '#' !in id
    requires '?' !in status && '&' !in status && '#' !in status
    ensures Split(MessageStatusPath(id, status), '?') == [MessageStatusRoute(id), StatusQuery(status)]
    ensures Split(StatusQuery(status), '&') == [StatusQuery(status)]
    ensures '#' !in MessageStatusPath(id, status)
  {
    var route := MessageStatusRoute(id);
    var query := StatusQuery(status);
    RouteReserved(id);
    QueryReserved(status);
    assert MessageStatusPath(id, status) == route + ['?'] + query;
    SplitFree(query, '?');
    SplitFree(query, '&');
    SplitAfterWord(route, query, '?');
  }
}
