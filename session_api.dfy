/**
 * The encrypted-channel endpoints of app/routes/api.py: the `/rs` handshake
 * that opens a session, the `/api` call that rotates it, and the refusal of
 * other HTTP methods. The store `Kv` is the only state. SHA-256, the PEM
 * check and RSA-OAEP are parameters or symbolic values; the random uuid
 * hex mixed into each digest is the parameter `nonce`.
 */
module SessionApi {
  import opened Common
  import opened Values
  import opened HeapOrder
  import opened KvSpec
  import opened KvStore
  import opened Envelope

  /** Lifetime of a session, both of its store entry and of its cookie, in seconds. */
  const SESSION_TTL: int := 120
  /** Largest request body `/api` reads: 3 MiB. */
  const MAX_BODY: int := 3 * 1024 * 1024
  /** Error code of a refused HTTP method. */
  const METHOD_NOT_ALLOWED: int := 100405

  /** The `session_id` cookie a handler sets on its response. */
  datatype Cookie = Cookie(name: string, value: string, maxAge: int, httpOnly: bool, sameSite: string)

  function SessionCookie(session: string): Cookie
  {
    Cookie("session_id", session, SESSION_TTL, true, "strict")
  }

  /** Hex RSA-OAEP ciphertext of a plaintext under a public key. */
  datatype OaepSealed = OaepSealed(pem: string, plain: string)

  /** What a handler answers. */
  datatype Reply =
    | Envelope(body: Response, cookie: Option<Cookie>)
    /** The handshake's own `{"key": ..., "code": 0}` dict. */
    | KeyReply(key: OaepSealed, code: int, setCookie: Cookie)
    /** An exception the handler does not catch: HTTP 500, and the cookie set on `response` is lost. */
    | ServerError

  /**
   * The `error(message, code=...)` the handlers call, read as
   * `res_no_encrypt(message, code=...)`: the text travels as the data.
   */
  function Error(text: string, code: int := -999): (r: Reply)
    ensures r.Envelope? && r.cookie == None && Visible(r.body) == (code, "error", Some(Str(text)))
  {
    Envelope(ResNoEncrypt(Str(text), code := code), None)
  }

  /** A failure reported in the clear, without a cookie. */
  predicate Refusal(r: Reply)
  {
    r.Envelope? && r.cookie == None && r.body.data.Clear? && r.body.code == -999
  }

  /** `method_not_allowed`: GET, PUT and DELETE on /rs and /api. */
  function MethodNotAllowed(): (r: Reply)
    ensures r.Envelope? && r.cookie == None && r.body.code == METHOD_NOT_ALLOWED && r.body.data.Clear?
  {
    Error("不允许的方式", code := METHOD_NOT_ALLOWED)
  }

  // ---------------------------------------------------------------- digests

  /** A lower-case hex digit, as `hexdigest()` writes them. */
  predicate HexDigit(c: char)
  {
    '0' <= c <= '9' || 'a' <= c <= 'f'
  }

  /** A SHA-256 hex digest: 64 hex digits. */
  predicate HexDigest(s: string)
  {
    |s| == 64 && forall i :: 0 <= i < |s| ==> HexDigit(s[i])
  }

  /** `sha256[:16]` and `sha256[16:]`: the AES key and the session id cut from a digest. */
  function Split(digest: string): (r: (string, string))
    ensures r.0 + r.1 == digest
    ensures HexDigest(digest) ==> |r.0| == 16 && |r.1| == 48
  {
    (Take(digest, 16), Drop(digest, 16))
  }

  /** A string of one-byte characters is as long in UTF-8 as in characters. */
  lemma {:induction false} AsciiUtf8Length(s: string)
    requires forall i :: 0 <= i < |s| ==> HexDigit(s[i])
    ensures Utf8Length(s) == |s|
  {
    if s != [] {
      assert HexDigit(s[0]);
      AsciiUtf8Length(s[1..]);
    }
  }

  /** The key cut from a hex digest is one AES accepts (16 bytes). */
  lemma DigestKeyAccepted(digest: string)
    requires HexDigest(digest)
    ensures AesKeyOk(Split(digest).0)
  {
    var key := Split(digest).0;
    assert forall i :: 0 <= i < |key| ==> key[i] == digest[i];
    AsciiUtf8Length(key);
  }

  // ---------------------------------------------------------------- /rs

  /**
   * `rs` as a transition of the store: an invalid PEM is refused before
   * anything changes; an OAEP failure raises; otherwise the digest of the PEM
   * and the nonce is cut into the key and the session id, the session is
   * stored for 120 seconds, and the key goes back encrypted to the caller's
   * public key with the session id in the cookie.
   */
  function Handshake(d: Data, pem: string, nonce: string, now: nat,
                     pemOk: string -> bool, oaepOk: string -> bool, sha256: string -> string): (r: (Reply, Data))
    ensures !pemOk(pem) ==> r.1 == d && Refusal(r.0)
    ensures r.0.KeyReply? <==> pemOk(pem) && oaepOk(pem)
    ensures !r.0.KeyReply? ==> r.1 == d
    ensures r.0.KeyReply? ==>
      var (key, session) := Split(sha256(pem + nonce));
      && key + session == sha256(pem + nonce)
      && r.0.key == OaepSealed(pem, key) && r.0.code == 0
      && r.0.setCookie.value == session && r.0.setCookie.maxAge == SESSION_TTL
      && Lookup(r.1, session, now + SESSION_TTL) == Some(Str(key))
      && Lookup(r.1, session, now + SESSION_TTL + 1) == None
      && forall k, t :: k != session ==> Lookup(r.1, k, t) == Lookup(d, k, t)
  {
    if !pemOk(pem) then
      (Error("无效的 RSA 公钥"), d)
    else
      var (key, session) := Split(sha256(pem + nonce));
      if !oaepOk(pem) then
        (ServerError, d)
      else
        (KeyReply(OaepSealed(pem, key), 0, SessionCookie(session)), Stored(d, session, Str(key), SESSION_TTL, now))
  }

  /** The `/rs` handler over the store. */
  method Rs(kv: Kv, pem: string, nonce: string, now: nat,
            pemOk: string -> bool, oaepOk: string -> bool, sha256: string -> string) returns (reply: Reply)
    requires kv.Valid()
    modifies kv
    ensures kv.Valid()
    ensures (reply, kv.data) == Handshake(old(kv.data), pem, nonce, now, pemOk, oaepOk, sha256)
    ensures kv.heap == if reply.KeyReply? then Push(old(kv.heap), HeapEntry(now + SESSION_TTL, Split(sha256(pem + nonce)).1))
                       else old(kv.heap)
  {
    if !pemOk(pem) {
      return Error("无效的 RSA 公钥");
    }
    var digest := sha256(pem + nonce);
    var key, session := Take(digest, 16), Drop(digest, 16);
    if !oaepOk(pem) {
      return ServerError;
    }
    var encryptedKey := OaepSealed(pem, key);
    var cookie := SessionCookie(session);
    var _ := kv.Add(session, Str(key), SESSION_TTL, now);
    return KeyReply(encryptedKey, 0, cookie);
  }

  // ---------------------------------------------------------------- /api

  /** The `ReqData1` body: a message, a compression flag and algorithm, and the sealed content. */
  datatype ReqData = ReqData(message: string, compression: bool, algorithm: string, content: Sealed)

  /** How `orjson.loads` and the `ReqData1` schema take the body. */
  datatype Parse =
    | NotJson
    | SchemaError(detail: string)
    | OtherError(detail: string)
    | Parsed(payload: ReqData)

  /** An `/api` request: its Content-Type header ("" when absent), its cookie, body size and parse. */
  datatype ApiRequest = ApiRequest(contentType: string, session: Option<string>, bodySize: nat, parse: Parse)

  /** The value `kv.get(session_id, None)` gives, or None for no cookie, an absent or an expired session. */
  function Channel(d: Data, session: Option<string>, now: int): Option<Value>
  {
    if session.Some? then Lookup(d, session.value, now) else None
  }

  /** The store after that `kv.get`: lazy expiry of the cookie's session. */
  function AfterLookup(d: Data, session: Option<string>, now: int): Data
  {
    if session.Some? then Expire(d, session.value, now) else d
  }

  /**
   * The reply once the session has rotated: the content is opened with the
   * old key (a compressed body leaves the empty string, which orjson refuses),
   * and the `operate` field goes back sealed under the old key next to the
   * new key.
   */
  function Answer(p: ReqData, aesKey: string, newKey: string, newSession: string): Reply
  {
    if p.compression then ServerError
    else match GcmOpen(p.content, aesKey)
      case None => ServerError
      case Some(v) =>
        if !v.Dict? then ServerError
        else Envelope(Res(Dict(map["operate" := Field(v, "operate")]), aesKey, newKey), Some(SessionCookie(newSession)))
  }

  /**
   * `api_post` as a transition of the store. The checks run in the source's
   * order: Content-Type, a live truthy channel key, body size, parse. Only
   * then is the session rotated (old id deleted, new id stored for 120
   * seconds), and only after that is the content decrypted.
   */
  function ApiStep(d: Data, req: ApiRequest, nonce: string, now: int, sha256: string -> string): (r: (Reply, Data))
  {
    if !StartsWith(req.contentType, "application/json") then
      (Error("Content-Type 不正确"), d)
    else
      var d1 := AfterLookup(d, req.session, now);
      var found := Channel(d, req.session, now);
      if found.None? || !Truthy(found.value) then
        (Error("无有效的加密通道"), d1)
      else if req.bodySize > MAX_BODY then
        (Error("请求体过大"), d1)
      else match req.parse
        case NotJson => (Error("JSON 格式解析失败"), d1)
        case SchemaError(detail) => (Error("数据结构校验失败: " + detail), d1)
        case OtherError(detail) => (Error("未知错误: " + detail), d1)
        case Parsed(p) =>
          if !found.value.Str? then
            (ServerError, d1)
          else
            var aesKey := found.value.s;
            var (newKey, newSession) := Split(sha256(aesKey + nonce));
            var d2 := Stored(d1 - {req.session.value}, newSession, Str(newKey), SESSION_TTL, now);
            (Answer(p, aesKey, newKey, newSession), d2)
  }

  /** Whether `api_post` passes every check and rotates the session: the checks of `ApiStep`, and a string key. */
  predicate Rotates(d: Data, req: ApiRequest, now: int)
  {
    && StartsWith(req.contentType, "application/json")
    && Channel(d, req.session, now).Some? && Truthy(Channel(d, req.session, now).value)
    && req.bodySize <= MAX_BODY && req.parse.Parsed?
    && Channel(d, req.session, now).value.Str?
  }

  /** The `/api` handler over the store; its one heap push is the new session's. */
  method ApiPost(kv: Kv, req: ApiRequest, nonce: string, now: nat, sha256: string -> string) returns (reply: Reply)
    requires kv.Valid()
    modifies kv
    ensures kv.Valid()
    ensures (reply, kv.data) == ApiStep(old(kv.data), req, nonce, now, sha256)
    ensures kv.heap == if Rotates(old(kv.data), req, now)
      then Push(old(kv.heap), HeapEntry(now + SESSION_TTL, Split(sha256(Channel(old(kv.data), req.session, now).value.s + nonce)).1))
      else old(kv.heap)
  {
    if !StartsWith(req.contentType, "application/json") {
      return Error("Content-Type 不正确");
    }
    var aesKey := Null;
    if req.session.Some? {
      aesKey := kv.Get(req.session.value, Null, now);
    }
    if !Truthy(aesKey) {
      return Error("无有效的加密通道");
    }
    if req.bodySize > MAX_BODY {
      return Error("请求体过大");
    }
    var payload;
    match req.parse {
      case NotJson => return Error("JSON 格式解析失败");
      case SchemaError(detail) => return Error("数据结构校验失败: " + detail);
      case OtherError(detail) => return Error("未知错误: " + detail);
      case Parsed(p) => payload := p;
    }
    if !aesKey.Str? {
      return ServerError;
    }
    var digest := sha256(aesKey.s + nonce);
    var newKey, newSession := Take(digest, 16), Drop(digest, 16);
    kv.Delete(req.session.value);
    var _ := kv.Add(newSession, Str(newKey), SESSION_TTL, now);
    reply := Answer(payload, aesKey.s, newKey, newSession);
  }

  // ---------------------------------------------------------------- properties

  /**
   * Each early check refuses in the clear, without a cookie and without
   * rotating: at most the cookie's expired session is dropped.
   */
  lemma EarlyChecksRefuse(d: Data, req: ApiRequest, nonce: string, now: int, sha256: string -> string)
    requires || !StartsWith(req.contentType, "application/json")
             || Channel(d, req.session, now).None?
             || req.bodySize > MAX_BODY
             || !req.parse.Parsed?
    ensures var r := ApiStep(d, req, nonce, now, sha256);
      Refusal(r.0) && LiveView(r.1, now) == LiveView(d, now)
      && (r.1 == d || r.1 == AfterLookup(d, req.session, now))
  {
    var r := ApiStep(d, req, nonce, now, sha256);
    if req.session.Some? {
      ExpireKeepsView(d, req.session.value, now, now);
    }
  }

  /**
   * Once the checks pass, the old session is consumed whatever happens
   * next: its id no longer reads back, and the new id holds the new key for
   * exactly 120 seconds. This holds for a reply that is a server error too.
   */
  lemma RotationConsumesSession(d: Data, req: ApiRequest, nonce: string, now: nat, sha256: string -> string, t: int)
    requires StartsWith(req.contentType, "application/json")
    requires req.session.Some? && Lookup(d, req.session.value, now).Some?
    requires Lookup(d, req.session.value, now).value.Str? && Lookup(d, req.session.value, now).value.s != ""
    requires req.bodySize <= MAX_BODY && req.parse.Parsed?
    ensures var oldKey := Lookup(d, req.session.value, now).value.s;
      var (newKey, newSession) := Split(sha256(oldKey + nonce));
      var r := ApiStep(d, req, nonce, now, sha256);
      && (newSession != req.session.value ==> Lookup(r.1, req.session.value, t) == None)
      && Lookup(r.1, newSession, t) == (if t <= now + SESSION_TTL then Some(Str(newKey)) else None)
      && forall k :: k != req.session.value && k != newSession ==> Lookup(r.1, k, t) == Lookup(d, k, t)
  {
    var sid := req.session.value;
    var oldKey := Lookup(d, sid, now).value.s;
    var (newKey, newSession) := Split(sha256(oldKey + nonce));
    var d1 := Expire(d, sid, now);
    StoredThenLookup(d1 - {sid}, newSession, Str(newKey), SESSION_TTL, now, t);
  }

  /**
   * Replaying a request, once the first call has completed, on the session
   * it rotated away is refused as a missing channel and rotates nothing again.
   */
  lemma ReplayRefused(d: Data, req: ApiRequest, nonce: string, now: nat, sha256: string -> string,
                      nonce2: string, later: nat)
    requires StartsWith(req.contentType, "application/json")
    requires req.session.Some? && Lookup(d, req.session.value, now).Some?
    requires Lookup(d, req.session.value, now).value.Str? && Lookup(d, req.session.value, now).value.s != ""
    requires req.bodySize <= MAX_BODY && req.parse.Parsed?
    requires Split(sha256(Lookup(d, req.session.value, now).value.s + nonce)).1 != req.session.value
    ensures var d' := ApiStep(d, req, nonce, now, sha256).1;
      var again := ApiStep(d', req, nonce2, later, sha256);
      again.0 == Error("无有效的加密通道") && again.1 == d'
  {
    RotationConsumesSession(d, req, nonce, now, sha256, later);
  }

  /**
   * A successful reply is sealed under the key the request used and carries
   * the new key inside the box, with the new session id in the cookie.
   */
  lemma SuccessUnderOldKey(d: Data, req: ApiRequest, nonce: string, now: nat, sha256: string -> string)
    requires ApiStep(d, req, nonce, now, sha256).0.Envelope?
    requires ApiStep(d, req, nonce, now, sha256).0.body.data.Secret?
    ensures req.session.Some? && Lookup(d, req.session.value, now).Some? && Lookup(d, req.session.value, now).value.Str?
    ensures var oldKey := Lookup(d, req.session.value, now).value.s;
      var (newKey, newSession) := Split(sha256(oldKey + nonce));
      var r := ApiStep(d, req, nonce, now, sha256).0;
      && AesKeyOk(oldKey)
      && GcmOpen(r.body.data.box, oldKey).Some?
      && GcmOpen(r.body.data.box, oldKey).value.fields["key"] == Str(newKey)
      && r.cookie == Some(SessionCookie(newSession))
      && r.body.code == 0 && r.body.message == "OK"
  {
    var oldKey := Lookup(d, req.session.value, now).value.s;
    var (newKey, newSession) := Split(sha256(oldKey + nonce));
    var p := req.parse.payload;
    var v := GcmOpen(p.content, oldKey).value;
    ResOpens(Dict(map["operate" := Field(v, "operate")]), oldKey, newKey, "OK", 0);
  }

  /**
   * The protocol end to end: a client that completed the handshake and
   * seals a JSON object under the key it received, sending it with the
   * cookie within 120 seconds, gets its `operate` field back under that key
   * together with a fresh key it can open, and a new session cookie.
   */
  lemma HandshakeThenCall(d: Data, pem: string, nonce: string, now: nat,
                          pemOk: string -> bool, oaepOk: string -> bool, sha256: string -> string,
                          fields: map<string, Value>, message: string, algorithm: string,
                          bodySize: nat, nonce2: string, later: nat)
    requires pemOk(pem) && oaepOk(pem) && HexDigest(sha256(pem + nonce))
    requires now <= later <= now + SESSION_TTL && bodySize <= MAX_BODY
    ensures var (reply, d') := Handshake(d, pem, nonce, now, pemOk, oaepOk, sha256);
      var key := reply.key.plain;
      var req := ApiRequest("application/json", Some(reply.setCookie.value), bodySize,
                            Parsed(ReqData(message, false, algorithm, Box(key, Dict(fields)))));
      var answer := ApiStep(d', req, nonce2, later, sha256).0;
      && answer.Envelope? && answer.body.data.Secret?
      && GcmOpen(answer.body.data.box, key)
         == Some(Inner(Dict(map["operate" := Field(Dict(fields), "operate")]), Split(sha256(key + nonce2)).0))
  {
    var (key, session) := Split(sha256(pem + nonce));
    DigestKeyAccepted(sha256(pem + nonce));
    var d' := Stored(d, session, Str(key), SESSION_TTL, now);
    StoredThenLookup(d, session, Str(key), SESSION_TTL, now, later);
    assert |key| == 16;
    ResOpens(Dict(map["operate" := Field(Dict(fields), "operate")]), key, Split(sha256(key + nonce2)).0, "OK", 0);
  }
}
