# Expiring key-value store and encrypted session channel of ZEROLINGG/chatroom

This Dafny project models three parts of the chat-room server and proves properties about them.

**The in-memory store `Kv`** (app/kv.py). It maps string keys to a value and an absolute expiry time; the expiry -1 means "never". Three structures must agree:
- the `_data` dict;
- a min-heap of `(expiry, key)` pairs, which may hold stale pairs;
- a prefix index that files every key under each of its prefixes of length 1 to 4, with no empty bucket.

Expiry works in two ways:
- `get`, `exists` and `extend_ttl` drop an expired key lazily.
- A batch reaper pops due heap entries. It deletes a key only when the popped expiry equals the stored one, and deletes at most `max_cleanup_batch` keys per run.

**The session channel** (app/routes/api.py, app/utils/response.py):
- **`/rs` handshake.** It hashes the client's RSA public key with a random nonce. It cuts the SHA-256 hex digest into a 16-character AES key and a 48-character session id. The session is stored for 120 seconds and named in a cookie. The key is returned RSA-OAEP encrypted.
- **`/api` call.** It checks, in order, the Content-Type, a live channel key, the body size and the body's JSON schema. It then rotates the session: it deletes the old id and stores a new id and key for 120 seconds. Only then does it decrypt the AES-GCM content. It answers with a `res` envelope sealed under the *old* key that carries the *new* key.

**Single-use registration tokens** (app/utils/registration_code.py). `create` stores the AES-CBC encryption of the token's claims under `RK:<kind>:<uuid>`. `use` accepts a token only if it matches the stored copy (and, for a `qq` token, the QQ number), and deletes it.

How the model is built:
- The class `KvStore.Kv` has the three structures as fields, and its methods update them in place.
- Each method is proved against a pure transition in `KvSpec` on the `_data` map. The class invariant `Valid()` states that the heap is ordered and covers every expiring entry, and that the index is exactly the reference index `PrefixIndex.Indexes`.
- The handlers and token operations are methods over a `Kv`. Each is proved equal to a pure transition (`Handshake`, `ApiStep`, `CreateStep`, `UseStep`), and the protocol lemmas are stated about those transitions.

Time and external code:
- Time is an integer `now` passed to each operation: one clock reading per call.
- The source's default arguments are kept as Dafny parameter defaults: `Kv(max_cleanup_batch=1000)`, `add(ttl=-1)`, `get(default=None)`, `create(ttl=43200, key_type="all", qq_number=0)` and `use(qq_number=0)`.
- SHA-256, the PEM check and the AES-CBC cipher are function parameters.
- RSA-OAEP and AES-GCM ciphertexts are symbolic values that record the key and the plaintext. Only the same key, of 16, 24 or 32 UTF-8 bytes, opens a GCM box.
- The random uuid is a parameter.

Where the code departs from what its comments and names suggest, the model follows the code:
- **No session-binding or CSRF check.** `/api` has no such header check, and none is modelled.
- **Handshake reply.** It is the bare dict `{key, code: 0}`, not an envelope.
- **Liveness boundary.** A key is live while `now <= expiry`, and the reaper deletes at `expiry <= now`. At `now == expiry` an entry is both live and reapable.
- **`get_ttl` boundary.** It reports None once `expiry - now <= 0`, so it already says None at `now == expiry`.
- **`success` and `error`.** app/routes/api.py imports them from app/utils/response.py, which does not define them. They are read as `res` and `res_no_encrypt` with the same positional arguments. So `error(text, code=c)` answers `{"code": c, "message": "error", "data": text}`. As shipped, importing app/routes/api.py raises ImportError, so app/application.py:13 cannot load the router and neither endpoint is served; the model describes the handlers as they would run with that import resolved.

Consequences of the code that the lemmas make explicit:
- **`RotationConsumesSession`.** The old session is gone after rotation, even when decryption later fails. That failure raises, so the cookie naming the new session never reaches the client.
- **Any live key can be consumed.** Rotation deletes whatever live store key the cookie names, as long as its value is a non-empty string.
- **`extend_ttl` onto -1.** A negative extension that lands exactly on -1 makes the key never expire (`Extended` as written). The heap entry `(-1, key)` then sits at the head of the heap, and the reaper stops at it.

## Model

| member | source | states |
|---|---|---|
| HeapOrder.Push | app/kv.py:173 | heappush: one more entry, the same entries plus the pushed one as a multiset, the head is the pushed entry or the old head, and order is preserved |
| HeapOrder.SortedExpiries | app/kv.py:70-72 | in the heap's pop order expiries never decrease, so the loop may stop at the first entry that is not due |
| HeapOrder.EntryLeTotal | app/kv.py:173 | Python's comparison of (expiry, key) tuples is total, so any entry can be pushed |
| PrefixIndex.EmptyIndexes | app/kv.py:33 | the empty dict indexes the empty store |
| PrefixIndex.IndexDetermined | app/kv.py:90-108 | the prefix index of a set of keys is unique: two maps that both index the same keys are equal |
| PrefixIndex.BucketIsPrefixScan | app/kv.py:305-308 | a prefix has a bucket iff it is 1 to 4 characters long and some stored key starts with it, and the bucket is then exactly the stored keys starting with it |
| PrefixIndex.DiscardedIndexes | app/kv.py:90-101 | discarding a key from every bucket and dropping emptied buckets gives the index of the keys without it |
| KvSpec.Lookup | app/kv.py:188-209 | get reports a value exactly for keys of the live view, and the value is the live one |
| KvSpec.Expire | app/kv.py:200-205 | lazy expiry drops the key iff it is stored and no longer live, and no entry changes |
| KvSpec.Extended | app/kv.py:383-414 | extend_ttl succeeds iff the key is live; the value is kept; a never-expiring key is unchanged; otherwise the expiry moves by exactly the seconds; on failure the key is gone (dropped if expired); other keys are untouched |
| KvSpec.RemainingTtl | app/kv.py:362-381 | None iff absent or expiry <= now; -1 iff never expiring; otherwise a positive r such that the key is live at now + r and dead at now + r + 1 |
| KvSpec.IsTrue | app/kv.py:347-360 | true iff the key is live and holds the boolean True (the int 1 does not count) |
| KvSpec.Scan | app/kv.py:67-82 | the reaper's pop loop as a run over the heap: it pops at most the whole heap and marks at most one key per pop |
| KvSpec.ScanCap | app/kv.py:67-82 | at most max_cleanup_batch keys are marked (none for a non-positive cap), and the loop stops only at the end, at -1, at an entry not due, or with the cap reached |
| KvSpec.ScanSound | app/kv.py:70-82 | every popped entry is finite and due (<= now); every marked key is stored with exactly the expiry of a popped entry; the marks are exactly the keys of the popped entries that match the stored expiry, one per such entry in pop order, so stale pops mark nothing and do not use up the cap |
| KvSpec.Reaped | app/kv.py:84-88 | deleting the marked keys keeps exactly the unmarked keys with their entries |
| KvSpec.CoverAfterStore | app/kv.py:163-179 | storing an entry and pushing its (expiry, key) keeps every finite expiry represented in the heap; a never entry needs no push |
| KvSpec.StoredThenLookup | app/kv.py:163-179 | after add the key reads back as the value exactly while its ttl has not run out (always for -1), and no other key's reading changes |
| KvSpec.StoredView | app/kv.py:163-179 | what add does to the live view at any time: the key is set or, once its ttl has run out, absent |
| KvSpec.ExpireKeepsView | app/kv.py:200-205 | lazy expiry changes nothing callers can observe now or later |
| KvSpec.DeleteView | app/kv.py:211-220 | delete removes the key from the live view and nothing else |
| KvSpec.ExtendShiftsTtl | app/kv.py:405-412 | on a live expiring key, get_ttl afterwards reports the old remaining time plus the seconds (None if that is not positive) |
| KvSpec.ReapInvisibleLater | app/kv.py:61-88 | the reaper removes nothing that is live at any time after now |
| KvSpec.ReapKeepsCover | app/kv.py:61-88 | after a run, the remaining heap still covers every expiring entry that remains |
| KvSpec.ReapComplete | app/kv.py:69-72 | when a run stops at the end of the heap or at an entry after now, no stored entry with a finite expiry <= now remains |
| KvStore.Kv.constructor | app/kv.py:16-44 | starts empty, with a consistent heap and index and the given batch cap (1000 by default) |
| KvStore.Kv.AddToPrefixIndex | app/kv.py:103-108 | files the key under each prefix of length 1 to min(len, 4): the index of the keys plus this key |
| KvStore.Kv.RemoveFromPrefixIndex | app/kv.py:90-101 | the index of the keys without this one |
| KvStore.Kv.DiscardFromBuckets | app/kv.py:90-101 | the index after both loops is the reference `Discarded` map |
| KvStore.Kv.EmptiedBuckets | app/kv.py:93-98 | every bucket loses the key, and exactly the buckets this emptied are listed |
| KvStore.Kv.DropBuckets | app/kv.py:100-101 | exactly the listed prefixes are deleted, other buckets unchanged |
| KvStore.Kv.Add | app/kv.py:145-179 | a ttl below -1 (the default is -1) is refused with nothing changed; otherwise the data is `Stored`, a finite expiry is pushed and -1 pushes nothing, and the invariant holds |
| KvStore.Kv.Get | app/kv.py:181-209 | the live value or the default (None unless given); an expired key is dropped from data and index; the heap is untouched |
| KvStore.Kv.Delete | app/kv.py:211-220 | the key is gone from data and index, and nothing else changes |
| KvStore.Kv.Exists | app/kv.py:222-244 | true iff the key is live, with the same lazy expiry as get |
| KvStore.Kv.Keys | app/kv.py:246-261 | each live key exactly once; expired entries are skipped, not removed |
| KvStore.Kv.Values | app/kv.py:263-277 | as many values as live keys, each the live value of a key, and the keys behind them are every live key exactly once |
| KvStore.Kv.CountAll | app/kv.py:279-293 | the number of live keys |
| KvStore.Kv.PrefixCandidates | app/kv.py:304-308 | the bucket, or the full-scan fallback when there is none, is exactly the stored keys starting with the prefix (also for "" and prefixes longer than 4) |
| KvStore.Kv.CountWithPrefix | app/kv.py:295-319 | the number of live keys starting with the prefix |
| KvStore.Kv.KeysWithPrefix | app/kv.py:321-345 | each live key starting with the prefix exactly once |
| KvStore.Kv.ValueIsTrue | app/kv.py:347-360 | the key is live and holds True, with no change |
| KvStore.Kv.GetTtl | app/kv.py:362-381 | the remaining ttl as `RemainingTtl`, with no change |
| KvStore.Kv.ExtendTtl | app/kv.py:383-414 | the result and data are `Extended`; a new heap entry for the new expiry exactly when a finite expiry moved; the invariant holds |
| KvStore.Kv.Clear | app/kv.py:416-423 | data, heap and index are all empty and consistent |
| KvStore.Kv.CleanupExpiredBatch | app/kv.py:61-88 | the heap loses exactly the popped prefix and data loses exactly the marked keys; the invariant holds; after a run that stopped at an entry after now, nothing due remains |
| KvStore.Kv.PopDue | app/kv.py:67-82 | the pop loop pops `Scan`'s entries and returns its marked keys, changing only the heap |
| KvStore.Kv.DeleteMarked | app/kv.py:84-88 | each marked key still stored is deleted from data and index |
| Envelope.GcmSeal | app/utils/eec.py:107-117 | encryption yields a box iff AES accepts the key, else the empty dict |
| Envelope.GcmOpen | app/utils/eec.py:119-130 | decryption succeeds only with the very key the box was sealed under, of an accepted length |
| Envelope.Res | app/utils/response.py:8-17 | the code and message are in the clear and nothing else is |
| Envelope.ResNoEncrypt | app/utils/response.py:20-25 | code, message and data are all in the clear, the data unchanged |
| Envelope.ResOpens | app/utils/response.py:9-16 | opening the envelope with the old key gives {'key': new key, 'data': data} |
| Envelope.ResSealedToOldKey | app/utils/response.py:16 | no key other than the old one opens the envelope |
| Envelope.NewKeyHidden | app/utils/response.py:13-17 | envelopes that differ only in the new key look identical to anyone without the old key |
| Envelope.Defaults | app/utils/response.py:8-25 | res defaults to code 0 and "OK"; res_no_encrypt defaults to -999 and "error" and passes data through |
| SessionApi.Error | app/routes/api.py:13 | error(text, code) answers in the clear with that code, message "error" and the text as data, and sets no cookie |
| SessionApi.MethodNotAllowed | app/routes/api.py:19-22 | GET, PUT and DELETE answer code 100405 in the clear without a cookie |
| SessionApi.Split | app/routes/api.py:31-33 | key and session id together are the digest; from a hex digest they are 16 and 48 characters |
| SessionApi.DigestKeyAccepted | app/routes/api.py:32 | the key cut from a hex digest is 16 UTF-8 bytes, so AES accepts it |
| SessionApi.Handshake | app/routes/api.py:25-47 | an invalid PEM is refused before any change; a reply carrying a key comes iff PEM and OAEP both accept; then the key is OAEP-encrypted to the PEM, the cookie carries the session id with max_age 120, the session reads back as the key exactly 120 seconds, and every other key reads back exactly as before at any time |
| SessionApi.Rs | app/routes/api.py:25-47 | the handler's reply and store are the `Handshake` transition, the store stays consistent, and the heap gets exactly one push, the new session's (now + 120), and only when the key is sent |
| SessionApi.ApiPost | app/routes/api.py:50-109 | the handler's reply and store are the `ApiStep` transition, the store stays consistent, and the heap gets exactly one push, the new session's (now + 120), and only when every check passes and the session rotates (`Rotates`) |
| SessionApi.EarlyChecksRefuse | app/routes/api.py:52-71 | a bad Content-Type, no live channel, an oversized body, or a JSON or schema failure answers a clear error with no cookie and no rotation; the store is unchanged apart from dropping the cookie's expired session |
| SessionApi.RotationConsumesSession | app/routes/api.py:73-85 | once the checks pass, the old id no longer reads back (unless it equals the new id), the new id holds the new key for exactly 120 seconds, and every other key reads as before, whatever the reply |
| SessionApi.ReplayRefused | app/routes/api.py:55-57 | replaying a request after the first call completed, on the session it rotated away, is refused as a missing channel and changes nothing |
| SessionApi.SuccessUnderOldKey | app/routes/api.py:105 | a sealed reply opens with the key the request used and carries the new key, with the new session in the cookie, code 0 and "OK" |
| SessionApi.HandshakeThenCall | app/routes/api.py:25-105 | a client that completed the handshake and seals a JSON object under its key within 120 seconds gets its operate field and a fresh key back under that key |
| Registration.SlotOf | app/utils/registration_code.py:49-62 | decoded claims name a slot only when they are a dict of a known kind |
| Registration.CreateStep | app/utils/registration_code.py:13-38 | an unknown kind returns "" and stores nothing; a ttl below -1 raises before any change; otherwise the sealed claims are returned and read back under RK:kind:uuid for exactly the ttl, and no other key changes |
| Registration.Create | app/utils/registration_code.py:13-38 | the method's result and store are `CreateStep`, with the defaults ttl 43200, kind "all" and QQ number 0; the heap gets the token's push (now + ttl) for a known kind and a ttl of 0 or more, and is unchanged otherwise |
| Registration.UseStep | app/utils/registration_code.py:40-75 | a wrong length refuses with no change; acceptance iff the token decrypts to claims naming a slot whose live value is the token itself, and for a qq token the QQ number matches; on acceptance exactly that slot is deleted |
| Registration.Use | app/utils/registration_code.py:40-75 | the method's result and store are `UseStep`, with the default QQ number 0; the heap is unchanged |
| Registration.UseOnce | app/utils/registration_code.py:53-69 | after one acceptance, every use of the same token made after it completed fails |
| Registration.QqMismatchKeepsToken | app/utils/registration_code.py:66-67 | a qq token with another QQ number is refused and its slot reads the same as before at any later time |
| Registration.CreateThenUse | app/utils/registration_code.py:13-75 | with a cipher that round-trips, a created token of an accepted length is accepted while it lives (with its own QQ number for qq) |
| Registration.CreateAsShipped | app/utils/registration_code.py:29 | as shipped, create never stores anything |
| Registration.UseAsShipped | app/utils/registration_code.py:45-47 | as shipped, use never changes the store |
| Registration.ShippedNeverRegisters | app/utils/registration_code.py:29-47 | as shipped, create raises for every known kind and use never accepts a token |

## Left out

- The read/write lock and its managers (app/kv.py:444-518), the background reaper task and `close` (app/kv.py:46-59, 433-441). Each public operation is one atomic step; the double-checked lookups in `get`/`exists` collapse to one check.
- Interleaving of handlers. Each handler (`rs`, `api_post`, `RegKey.create`, `RegKey.use`) is taken as one atomic step, although the source awaits between its store calls. Two races are therefore not captured: two concurrent `/api` calls with the same cookie can both pass the channel check (app/routes/api.py:55) before either deletes the session (:84), so both rotate and the session chain forks; and two concurrent `use` calls can both read the token (app/utils/registration_code.py:55/63) before either deletes it (:58/68), so both succeed. `UseOnce` and `ReplayRefused` hold only for calls that run one after the other.
- Values outside the `Value` datatype: lists, floats, tuples and dicts with non-string keys. `Kv.add` checks only the outer type (app/kv.py:157), so such nested values are storable in the source but not in the model. The JSON `api_post` parses (app/routes/api.py:100-105) cannot be an array or a number in the model, and its `operate` field cannot be a list or a float. A top-level array would make `data.get` raise, and the model's "not a dict" branch covers only the non-dict values it can express.
- The TypeError checks of `add` on the key and value types (app/kv.py:155-158): the parameter types rule those inputs out.
- `_cleanup_expired_immediate` (app/kv.py:110-143): it is never called.
- The demo `main` of app/kv.py and the `print` calls in app/routes/api.py: output only.
- Floating-point time. `now` and expiries are integers, so the truncation `int(expiry - now)` in `get_ttl` is plain subtraction. A remaining time between 0 and 1 second, which the source truncates to 0 and reports as None, does not arise.
- The heap's list layout. The heap is modelled as its content in pop order: heappush inserts in order, heappop takes the head.
- Dict and set iteration order: `keys`, `values` and `keys_kh` are specified as sets of keys, each key once.
- KvSpec.ExtendShiftsTtl requires that the new expiry is not exactly -1, because an expiry of -1 means never.
- SHA-256, RSA-OAEP, AES-GCM, AES-CBC, base64, the PEM check, `orjson`/`json` and the pydantic schema are not modelled. They are function parameters, symbolic ciphertexts or a parse outcome given with the request. A GCM plaintext that is not JSON is not representable.
- The cookie is recorded in the reply, not in a response object.
- The compression branches of `/api` (app/routes/api.py:90-99) are empty placeholders. The model keeps their effect: a compressed body leaves the empty string, which `orjson.loads` rejects.
- Registration.UseStep: a decrypted uuid that is not a string would be formatted by Python's `str()`; the model refuses such claims instead. Only a forged ciphertext can carry one.
- Registration.Cbc: the cipher's key-length check and the empty-string failure result live inside the abstract functions.
- The database layer, the framework glue, the websocket demo and the permission constants.

## Findings

| source | as written | input that shows it | evidently intended | confidence | as-written member | corrected member |
|---|---|---|---|---|---|---|
| app/utils/registration_code.py:29 | `create` and `use` call `Eec.Aes.Cbc`, which is commented out in app/utils/eec.py:74-103, so `create` raises after the kind check and `use` always returns False | `create(state, key_type="all")`, then `use` of any 152-character string | tokens encrypted with AES-CBC under the server key, accepted once by `use` | high (not executed) | Registration.ShippedNeverRegisters | Registration.CreateThenUse |
