/**
 * The response envelope of app/utils/response.py and the AES-GCM string
 * encryption it relies on, taken symbolically: a sealed box records the key
 * and the plaintext, and only that key opens it.
 */
module Envelope {
  import opened Common
  import opened Values

  /**
   * The dict `Eec.Aes.Gcm.encrypt_str` returns: the {iv, data, tag}
   * ciphertext of a JSON text under a key, or `{}` when AES refuses the key.
   */
  datatype Sealed = Box(key: string, plain: Value) | Refused

  /** AES accepts a key whose UTF-8 encoding is 16, 24 or 32 bytes long. */
  predicate AesKeyOk(key: string)
  {
    Utf8Length(key) in {16, 24, 32}
  }

  /** `Gcm.encrypt_str(json.dumps(plain), key)`. */
  function GcmSeal(plain: Value, key: string): (r: Sealed)
    ensures r.Box? <==> AesKeyOk(key)
  {
    if AesKeyOk(key) then Box(key, plain) else Refused
  }

  /**
   * `Gcm.decrypt_str` followed by parsing the JSON text: the plaintext when
   * the key is accepted and authenticates the box, None for the empty string
   * returned on any failure.
   */
  function GcmOpen(c: Sealed, key: string): (r: Option<Value>)
    ensures r.Some? ==> c.Box? && c.key == key && AesKeyOk(key)
  {
    if AesKeyOk(key) && c.Box? && c.key == key then Some(c.plain) else None
  }

  /** The `data` field of an envelope: in the clear, or sealed. */
  datatype Payload = Clear(value: Value) | Secret(box: Sealed)

  /** The dict `{"code", "message", "data"}` both builders return. */
  datatype Response = Response(code: int, message: string, data: Payload)

  /** What an observer without any key learns from a response: its code, message and clear data. */
  function Visible(r: Response): (int, string, Option<Value>)
  {
    (r.code, r.message, if r.data.Clear? then Some(r.data.value) else None)
  }

  /** The plaintext `res` seals: `{'key': new_key, 'data': data}`. */
  function Inner(data: Value, newKey: string): Value
  {
    Dict(map["key" := Str(newKey), "data" := data])
  }

  /**
   * `res(data, old_key, new_key, message="OK", code=0)`: the code and message
   * in the clear, and the new key together with the data sealed under the
   * old key.
   */
  function Res(data: Value, oldKey: string, newKey: string, message: string := "OK", code: int := 0): (r: Response)
    ensures Visible(r) == (code, message, None)
  {
    Response(code, message, Secret(GcmSeal(Inner(data, newKey), oldKey)))
  }

  /** `res_no_encrypt(data, message="error", code=-999)`: everything in the clear. */
  function ResNoEncrypt(data: Value, message: string := "error", code: int := -999): (r: Response)
    ensures Visible(r) == (code, message, Some(data))
  {
    Response(code, message, Clear(data))
  }

  /** Opening with the old key the request used gives back the new key and the data. */
  lemma ResOpens(data: Value, oldKey: string, newKey: string, message: string, code: int)
    requires AesKeyOk(oldKey)
    ensures var r := Res(data, oldKey, newKey, message, code);
      r.data.Secret? && GcmOpen(r.data.box, oldKey) == Some(Inner(data, newKey))
      && Inner(data, newKey).fields["key"] == Str(newKey) && Inner(data, newKey).fields["data"] == data
  {
  }

  /** No other key opens the envelope, and a key AES refuses leaves nothing to open. */
  lemma ResSealedToOldKey(data: Value, oldKey: string, newKey: string, message: string, code: int, other: string)
    requires other != oldKey || !AesKeyOk(oldKey)
    ensures GcmOpen(Res(data, oldKey, newKey, message, code).data.box, other) == None
  {
  }

  /** The new key is not visible in the clear: two envelopes that differ only in it look the same. */
  lemma NewKeyHidden(data: Value, oldKey: string, newKey1: string, newKey2: string, message: string, code: int)
    ensures Visible(Res(data, oldKey, newKey1, message, code)) == Visible(Res(data, oldKey, newKey2, message, code))
  {
  }

  /** The defaults of the two builders. */
  lemma Defaults(data: Value, oldKey: string, newKey: string)
    ensures Res(data, oldKey, newKey).code == 0 && Res(data, oldKey, newKey).message == "OK"
    ensures ResNoEncrypt(data).code == -999 && ResNoEncrypt(data).message == "error"
    ensures ResNoEncrypt(data).data == Clear(data)
  {
  }
}
