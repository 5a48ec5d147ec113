/** The axios instance of src/services/api.ts: the request interceptor that
    attaches the stored credential, and the response interceptor that drops it
    when the backend answers 401. The browser's localStorage is an object whose
    map the interceptors and the session store read and write. */
module Http {
  import opened Wrappers

  /** The localStorage key under which the credential is kept. */
  const TokenKey := "adminToken"

  const AuthorizationHeader := "Authorization"

  /** `localStorage.getItem(key)`: null becomes None. */
  function Stored(items: map<string, string>, key: string): Option<string> {
    if key in items then Some(items[key]) else None
  }

  /** JavaScript truthiness of `getItem`'s result: neither null nor "". */
  predicate Truthy(s: Option<string>) {
    s.Some? && s.value != ""
  }

  class LocalStorage {
    var items: map<string, string>

    constructor (initial: map<string, string>)
      ensures items == initial
    {
      items := initial;
    }

    function GetItem(key: string): Option<string>
      reads this
    {
      Stored(items, key)
    }

    method SetItem(key: string, value: string)
      modifies this
      ensures items == old(items)[key := value]
    {
      items := items[key := value];
    }

    method RemoveItem(key: string)
      modifies this
      ensures items == old(items) - {key}
    {
      items := items - {key};
    }
  }

  /** The part of an outgoing axios request config the interceptor touches. */
  class RequestConfig {
    var headers: Option<map<string, string>>

    constructor (headers: Option<map<string, string>>)
      ensures this.headers == headers
    {
      this.headers := headers;
    }
  }

  // ---------------------------------------------------------------------------
  // Bearer credentials, section 2.1 of RFC 6750

  const BearerPrefix := "Bearer "

  function BearerValue(token: string): string {
    BearerPrefix + token
  }

  /** The token an `Authorization: Bearer <token>` value carries, as the
      backend reads it; None when the value is not in the bearer form. */
  function BearerToken(value: string): Option<string> {
    if |value| >= |BearerPrefix| && value[..|BearerPrefix|] == BearerPrefix
    then Some(value[|BearerPrefix|..]) else None
  }

  lemma BearerRoundTrip(token: string)
    ensures BearerToken(BearerValue(token)) == Some(token)
  {
    assert BearerValue(token)[..|BearerPrefix|] == BearerPrefix;
    assert BearerValue(token)[|BearerPrefix|..] == token;
  }

  /** What the request interceptor does to a config's headers, given what
      `localStorage.getItem('adminToken')` returned. */
  function Authorize(headers: Option<map<string, string>>, token: Option<string>): (h: Option<map<string, string>>)
    ensures h.Some? <==> headers.Some?
    ensures !Truthy(token) ==> h == headers
    ensures Truthy(token) && headers.Some? ==>
      && AuthorizationHeader in h.value
      && BearerToken(h.value[AuthorizationHeader]) == token
      && h.value.Keys == headers.value.Keys + {AuthorizationHeader}
      && (forall k :: k in headers.value && k != AuthorizationHeader ==> h.value[k] == headers.value[k])
  {
    if Truthy(token) && headers.Some? then
      BearerRoundTrip(token.value);
      Some(headers.value[AuthorizationHeader := BearerValue(token.value)])
    else headers
  }

  /** The request interceptor: attach `Authorization: Bearer <token>` when a
      non-empty token is stored and the config has headers. */
  method InterceptRequest(config: RequestConfig, storage: LocalStorage)
    modifies config
    ensures config.headers == Authorize(old(config.headers), storage.GetItem(TokenKey))
  {
    var token := storage.GetItem(TokenKey);
    if Truthy(token) && config.headers.Some? {
      config.headers := Some(config.headers.value[AuthorizationHeader := BearerValue(token.value)]);
    }
  }

  /** What the response interceptor leaves in localStorage after a call settles. */
  function StorageAfter<T>(items: map<string, string>, reply: Reply<T>): map<string, string> {
    if reply.Failed? && reply.status == Some(401) then items - {TokenKey} else items
  }

  /** The response interceptor. A response passes through unchanged; an error
      is rejected to the caller unchanged, and a 401 first removes the stored
      credential. The navigation to /login that follows a 401 is not modelled. */
  method InterceptResponse<T>(storage: LocalStorage, reply: Reply<T>) returns (settled: Reply<T>)
    modifies storage
    ensures settled == reply
    ensures storage.items == StorageAfter(old(storage.items), reply)
  {
    if reply.Failed? && reply.status == Some(401) {
      storage.RemoveItem(TokenKey);
    }
    settled := reply;
  }

  /** After a 401 on any call, the next request goes out without a credential;
      any other outcome leaves the stored credential as it was. */
  lemma UnauthorizedDropsCredential<T>(items: map<string, string>, reply: Reply<T>, headers: Option<map<string, string>>)
    ensures reply.Failed? && reply.status == Some(401) ==>
      Authorize(headers, Stored(StorageAfter(items, reply), TokenKey)) == headers
    ensures !(reply.Failed? && reply.status == Some(401)) ==>
      Stored(StorageAfter(items, reply), TokenKey) == Stored(items, TokenKey)
  {
  }
}
