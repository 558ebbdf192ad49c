/**
 * Single-use registration tokens of app/utils/registration_code.py. A token
 * is the AES-CBC encryption, under the server key, of the JSON claims
 * {uuid, key_type, qq_number, ttl}; it is stored in the store under
 * `RK:<key_type>:<uuid>` and consumed by its first successful use. The
 * cipher is a pair of functions; the random uuid is a parameter.
 */
module Registration {
  import opened Common
  import opened Values
  import opened HeapOrder
  import opened KvSpec
  import opened KvStore

  /** Default lifetime of a token: twelve hours. */
  const DEFAULT_TTL: int := 3600 * 12

  /** The only token lengths `use` looks at. */
  predicate TokenLength(token: string)
  {
    |token| == 152 || |token| == 172 || |token| == 192
  }

  /** The token kinds `create` accepts. */
  predicate KnownType(keyType: string)
  {
    keyType == "all" || keyType == "qq"
  }

  /**
   * `Eec.Aes.Cbc.encrypt_str(_, state.key)` of the JSON of a value, and
   * `decrypt_str` followed by `json.loads` (None for the empty string either
   * returns on failure, which `json.loads` refuses).
   */
  datatype Cbc = Cbc(seal: Value -> string, open: string -> Option<Value>)

  /** Decrypting what was encrypted under the server key gives it back. */
  ghost predicate RoundTrips(c: Cbc)
  {
    forall v :: c.open(c.seal(v)) == Some(v)
  }

  /** The claims `create` serialises. */
  function Claims(uuid: string, keyType: string, qq: int, ttl: int): Value
  {
    Dict(map["uuid" := Str(uuid), "key_type" := Str(keyType), "qq_number" := Int(qq), "ttl" := Int(ttl)])
  }

  /** The store key of a token: `RK:all:<uuid>` or `RK:qq:<uuid>`. */
  function Slot(keyType: string, uuid: string): string
  {
    "RK:" + keyType + ":" + uuid
  }

  /** The store key named by decoded claims, when they hold a known kind and a string uuid. */
  function SlotOf(claims: Value): (r: Option<string>)
    ensures r.Some? ==> claims.Dict? && Field(claims, "key_type").Str? && KnownType(Field(claims, "key_type").s)
  {
    if claims.Dict? && Field(claims, "key_type").Str? && KnownType(Field(claims, "key_type").s)
       && Field(claims, "uuid").Str?
    then Some(Slot(Field(claims, "key_type").s, Field(claims, "uuid").s))
    else None
  }

  /** What `create` returns: the token (the empty string for an unknown kind), or the ValueError `kv.add` raises. */
  datatype CreateOutcome = Token(token: string) | Raised

  // ---------------------------------------------------------------- create

  /**
   * `create` as a transition of the store: an unknown kind gives "" and
   * stores nothing; a ttl below -1 makes `kv.add` raise before any change;
   * otherwise the sealed claims are stored under their slot for ttl seconds
   * and returned.
   */
  function CreateStep(d: Data, ttl: int := DEFAULT_TTL, keyType: string := "all", qq: int := 0, uuid: string, now: nat, c: Cbc): (r: (CreateOutcome, Data))
    ensures !KnownType(keyType) ==> r == (Token(""), d)
    ensures KnownType(keyType) && ttl < -1 ==> r == (Raised, d)
    ensures KnownType(keyType) && ttl >= -1 ==>
      && r.0 == Token(c.seal(Claims(uuid, keyType, qq, ttl)))
      && (forall t :: Lookup(r.1, Slot(keyType, uuid), t)
            == if ttl == -1 || t <= now + ttl then Some(Str(r.0.token)) else None)
      && (forall k, t :: k != Slot(keyType, uuid) ==> Lookup(r.1, k, t) == Lookup(d, k, t))
  {
    if !KnownType(keyType) then
      (Token(""), d)
    else
      var data := c.seal(Claims(uuid, keyType, qq, ttl));
      if ttl < -1 then (Raised, d)
      else (Token(data), Stored(d, Slot(keyType, uuid), Str(data), ttl, now))
  }

  /** `RegKey.create` over the store. */
  method Create(kv: Kv, ttl: int := DEFAULT_TTL, keyType: string := "all", qq: int := 0, uuid: string, now: nat, c: Cbc) returns (r: CreateOutcome)
    requires kv.Valid()
    modifies kv
    ensures kv.Valid()
    ensures (r, kv.data) == CreateStep(old(kv.data), ttl, keyType, qq, uuid, now, c)
    ensures kv.heap == if KnownType(keyType) && ttl >= 0 then Push(old(kv.heap), HeapEntry(now + ttl, Slot(keyType, uuid)))
                       else old(kv.heap)
  {
    if !KnownType(keyType) {
      return Token("");
    }
    var data := c.seal(Claims(uuid, keyType, qq, ttl));
    var added := kv.Add(Slot(keyType, uuid), Str(data), ttl, now);
    if added == TtlRejected {
      return Raised;
    }
    return Token(data);
  }

  // ---------------------------------------------------------------- use

  /**
   * `use` as a transition of the store: a token of the wrong length, one that
   * does not decrypt to claims of a known kind, one that differs from what
   * the slot holds, or a `qq` token presented with another QQ number is
   * refused; the lookup may drop the slot if it expired. A matching token is
   * deleted and accepted.
   */
  function UseStep(d: Data, token: string, qq: int := 0, now: nat, c: Cbc): (r: (bool, Data))
    ensures !TokenLength(token) ==> r == (false, d)
    ensures r.0 <==>
      && TokenLength(token) && c.open(token).Some? && SlotOf(c.open(token).value).Some?
      && Lookup(d, SlotOf(c.open(token).value).value, now) == Some(Str(token))
      && (Field(c.open(token).value, "key_type") == Str("qq") ==> EqualsInt(Field(c.open(token).value, "qq_number"), qq))
    ensures r.0 ==> r.1 == d - {SlotOf(c.open(token).value).value}
    ensures !r.0 ==> r.1 == d || (c.open(token).Some? && SlotOf(c.open(token).value).Some?
                                  && r.1 == Expire(d, SlotOf(c.open(token).value).value, now))
  {
    if !TokenLength(token) then (false, d)
    else match c.open(token)
      case None => (false, d)
      case Some(claims) =>
        match SlotOf(claims)
        case None => (false, d)
        case Some(name) =>
          var d1 := Expire(d, name, now);
          if Lookup(d, name, now) != Some(Str(token)) then (false, d1)
          else if Field(claims, "key_type") == Str("qq") && !EqualsInt(Field(claims, "qq_number"), qq) then (false, d1)
          else (true, d1 - {name})
  }

  /** `RegKey.use` over the store. */
  method Use(kv: Kv, token: string, qq: int := 0, now: nat, c: Cbc) returns (ok: bool)
    requires kv.Valid()
    modifies kv
    ensures kv.Valid()
    ensures (ok, kv.data) == UseStep(old(kv.data), token, qq, now, c)
    ensures kv.heap == old(kv.heap)
  {
    if !TokenLength(token) {
      return false;
    }
    var decoded := c.open(token);
    if decoded.None? {
      return false;
    }
    var claims := decoded.value;
    var slot := SlotOf(claims);
    if slot.None? {
      return false;
    }
    var stored := kv.Get(slot.value, Null, now);
    if stored != Str(token) {
      return false;
    }
    if Field(claims, "key_type") == Str("qq") && !EqualsInt(Field(claims, "qq_number"), qq) {
      return false;
    }
    kv.Delete(slot.value);
    return true;
  }

  // ---------------------------------------------------------------- properties

  /**
   * After a success, a later use of the same token, made once the first has
   * completed, fails (with any QQ number, at any later time).
   */
  lemma UseOnce(d: Data, token: string, qq: int, now: nat, c: Cbc, qq2: int, later: nat)
    requires UseStep(d, token, qq, now, c).0
    ensures !UseStep(UseStep(d, token, qq, now, c).1, token, qq2, later, c).0
  {
    var name := SlotOf(c.open(token).value).value;
    assert name !in UseStep(d, token, qq, now, c).1;
  }

  /** A `qq` token presented with another QQ number is refused and stays usable. */
  lemma QqMismatchKeepsToken(d: Data, token: string, qq: int, now: nat, c: Cbc)
    requires TokenLength(token) && c.open(token).Some? && SlotOf(c.open(token).value).Some?
    requires Field(c.open(token).value, "key_type") == Str("qq")
    requires !EqualsInt(Field(c.open(token).value, "qq_number"), qq)
    ensures var name := SlotOf(c.open(token).value).value;
      var r := UseStep(d, token, qq, now, c);
      !r.0 && forall t :: t >= now ==> Lookup(r.1, name, t) == Lookup(d, name, t)
  {
  }

  /**
   * What `create` hands out is accepted by `use` while it lives, with the
   * QQ number it was made for when it is a `qq` token, and then only once.
   */
  lemma CreateThenUse(d: Data, ttl: int, keyType: string, qq: int, uuid: string, now: nat, c: Cbc,
                      qq2: int, later: nat)
    requires RoundTrips(c) && KnownType(keyType) && ttl >= -1
    requires TokenLength(c.seal(Claims(uuid, keyType, qq, ttl)))
    requires now <= later && (ttl == -1 || later <= now + ttl)
    requires keyType == "qq" ==> qq2 == qq
    ensures var (made, d') := CreateStep(d, ttl, keyType, qq, uuid, now, c);
      UseStep(d', made.token, qq2, later, c).0
  {
    var claims := Claims(uuid, keyType, qq, ttl);
    assert c.open(c.seal(claims)) == Some(claims);
    assert Field(claims, "key_type") == Str(keyType);
    assert SlotOf(claims) == Some(Slot(keyType, uuid));
  }

  // ---------------------------------------------------------------- as written

  /**
   * `create` as the repository ships it: `Eec.Aes.Cbc` is commented out, so
   * after the kind check the attribute lookup raises before anything is
   * stored.
   */
  function CreateAsShipped(d: Data, keyType: string): (r: (CreateOutcome, Data))
    ensures r.1 == d
  {
    if !KnownType(keyType) then (Token(""), d) else (Raised, d)
  }

  /**
   * `use` as the repository ships it: after the length check the missing
   * `Eec.Aes.Cbc` raises inside the `try`, and the handler returns False.
   */
  function UseAsShipped(d: Data, token: string): (r: (bool, Data))
    ensures r.1 == d
  {
    (false, d)
  }

  /**
   * As shipped, no token is ever created and none is ever accepted, although
   * the cipher-based version accepts the token it creates (`CreateThenUse`).
   */
  lemma ShippedNeverRegisters(d: Data, keyType: string, token: string)
    ensures !CreateAsShipped(d, keyType).0.Token? || CreateAsShipped(d, keyType).0.token == ""
    ensures KnownType(keyType) ==> CreateAsShipped(d, keyType).0 == Raised
    ensures !UseAsShipped(d, token).0
  {
  }
}
