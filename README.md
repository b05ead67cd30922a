# Certificate cache for autocert: a Dafny model

This project models the two stateful layers of jgocache's certificate cache
for `golang.org/x/crypto/acme/autocert`, and proves what they promise.

- **The decorator** (`autocert/cache/cache.go`, module `Cache`). A `Cache`
  object wraps one storage backend. When an encryption key is set, it
  encrypts payloads with AES in CFB mode: the stored payload is a random
  16-byte IV followed by the ciphertext. It also keeps an in-process
  *precache*, which maps keys to plaintext.
  - `Get` looks in the precache first (only when precaching is on). Then it
    reads the backend, decrypts, and fills the precache.
  - `Put` encrypts, writes, and fills the precache only after the write
    succeeds.
  - `Delete` evicts the key from the precache first, then deletes from the
    backend.
- **The factory** (`NewCacheFactory` and its three backend helpers, module
  `Factory`). It validates the option map and parses `usePrecaching` with
  `strconv.ParseBool`. It derives a 32-byte key from `encryptionKey` through
  SHA-256 and PBKDF2, and checks each backend's options, including `db` for
  Redis with `strconv.Atoi`.
  - An unrecognised `backend` name, the empty one included, is accepted and
    gives a decorator with no backend.
  - The PBKDF2 password is bytes 0 to 14 of the digest and the salt is
    bytes 16 to 31, so byte 15 of the digest is used by neither.
- **The SQL adapter** (`autocert/cache/sql/sql.go`, module `Sql`). It picks
  a dialect from the driver's type name. It base64-encodes every payload on
  `Put` and decodes it on `Get`, using the standard alphabet with `=`
  padding (section 4 of RFC 4648, Go's `base64.StdEncoding`; module
  `Base64`).

Supporting modules:

- `Types`: bytes, `Result`, `Outcome` and the errors the layers tell apart.
- `Storage`: the backend contract (`autocert.Cache`), a `Store` object whose
  `entries` map is its table.
- `Cfb`: the CFB-128 mode of section 6.3 of NIST SP 800-38A, with the block
  cipher as a parameter.
  - It has a block-recursive specification and proofs that decryption and
    encryption undo each other.
  - Its in-place loops over byte arrays are proved against that
    specification. Go's `XORKeyStream` works the same way.

Failures that come from outside the model are parameters of the operations.
Such a failure is a disk or network fault in a backend (`fault`) or the
random source for the IV (`entropy`).

The main invariant is `Cache.Cache.Coherent`: with precaching on, every
precache entry is the plaintext a fault-free backend read would return
(`Cache.Consistent`, stated over the backend's table and the precache).
`Get`, `Put` and `Delete` each preserve it, through one lemma each about
those two maps. Without encryption, `Get` stores what it read in the
precache even when precaching is off. The precache is then never read, so
this is not observable through the decorator's operations.

## Model

| member | source | states |
|---|---|---|
| Storage.Store.Get | autocert/cache/cache.go:69 | a backend read returns the injected fault, the stored bytes, or the cache-miss error for an absent key |
| Storage.Store.Put | autocert/cache/cache.go:111 | a backend write reports its fault and then changes nothing, or stores the bytes under the key |
| Storage.Store.Delete | autocert/cache/cache.go:132 | a backend delete reports its fault and then changes nothing, or removes the key; an absent key is not an error |
| Base64.DecodeSextet | autocert/cache/sql/sql.go:79-87 | a byte that decodes gives the 6-bit value whose alphabet character it is; a byte outside the alphabet gives no value |
| Base64.Encode | autocert/cache/sql/sql.go:89-94 | the encoding is whole 4-character quanta, and empty exactly for empty input; its exact length is `EncodeLength` and its inverse `DecodeEncode` |
| Base64.EncodeLength | autocert/cache/sql/sql.go:89-94 | the encoding of n bytes is 4 * ceil(n / 3) characters long |
| Base64.EncodeAlphabet | autocert/cache/sql/sql.go:89-94 | every encoded character is in the RFC 4648 alphabet, except '=' padding, which appears only in the last two positions |
| Base64.DecodeQuanta | autocert/cache/sql/sql.go:79-87 | decoding succeeds only on whole 4-character quanta, yields at most 3 bytes per quantum, and otherwise fails with a corrupt-input error and no data |
| Base64.DecodeQuantaAccepts | autocert/cache/sql/sql.go:81 | newline-free text decodes if and only if it is well formed: a malformed quantum anywhere, or '=' followed by an alphabet character, is rejected |
| Base64.RemoveNewlines | autocert/cache/sql/sql.go:81 | the '\r' and '\n' characters the standard decoder skips are all dropped |
| Base64.RemoveNewlinesAppend | autocert/cache/sql/sql.go:81 | dropping newlines distributes over concatenation, so the remaining bytes keep their order |
| Base64.RemoveNewlinesKeeps | autocert/cache/sql/sql.go:81 | exactly the '\r' and '\n' bytes are dropped: every other byte value occurs as often as before |
| Base64.Decode | autocert/cache/sql/sql.go:79-87 | StdEncoding's decode succeeds if and only if the text without its newlines is well formed (whole quanta of alphabet characters, '=' only as the last one or two characters of the last quantum); otherwise it fails with a corrupt-input error and no data. It yields at most 3 bytes per 4 characters of input |
| Base64.DecodeEncode | autocert/cache/sql/sql.go:79-94 | decode(encode(x)) == x for every byte sequence, NULs and non-UTF-8 bytes included |
| Base64.KnownAnswer | autocert/cache/sql/sql.go:79-94 | 0xFB 0xFF encodes to "+/8=" and decodes back, which fixes the standard alphabet rather than the URL-safe one |
| Sql.SelectDialect | autocert/cache/sql/sql.go:28-41 | "*mysql.MySQLDriver" selects MySQL and "*pq.Driver" selects PostgreSQL (each if and only if); every other driver type is "Unsupported driver" |
| Sql.NewCache | autocert/cache/sql/sql.go:25-46 | an adapter over the given database for a recognised driver, else no adapter and the unsupported-driver error |
| Sql.Fetch | autocert/cache/sql/sql.go:49-61 | the driver's error, a miss included, comes back unchanged; otherwise the result is the base64 decoding of the stored text, which on failure is an error and no data |
| Sql.Stored | autocert/cache/sql/sql.go:64-66 | a write stores text of length 4 * ceil(n / 3) drawn from the base64 alphabet and '=', and leaves every other key as it was |
| Sql.FetchStored | autocert/cache/sql/sql.go:49-94 | after a write through the adapter, a fault-free read of that key returns exactly the bytes written |
| Sql.Cache.Get | autocert/cache/sql/sql.go:49-61 | the adapter's read is the driver's read followed by base64 decoding, as `Sql.Fetch` states it |
| Sql.Cache.Put | autocert/cache/sql/sql.go:64-72 | the driver is handed the encoded text; a driver error is returned unchanged and leaves the table as it was |
| Sql.Cache.Delete | autocert/cache/sql/sql.go:75-77 | the delete passes to the driver unencoded and its result is returned verbatim |
| Cfb.Encrypt | autocert/cache/cache.go:170-171 | CFB encryption yields exactly as many bytes as the plaintext |
| Cfb.Decrypt | autocert/cache/cache.go:149-151 | CFB decryption yields exactly as many bytes as the ciphertext |
| Cfb.DecryptEncrypt | autocert/cache/cache.go:149-171 | decrypting the CFB encryption of p under the same key and IV gives back p, for any block cipher |
| Cfb.EncryptDecrypt | autocert/cache/cache.go:149-171 | encrypting the CFB decryption of c gives back c, so decryption is a bijection for a fixed key and IV |
| Cfb.EncryptInto | autocert/cache/cache.go:170-171 | the keystream loop writes the CFB encryption of the plaintext after the IV and leaves the rest of the buffer untouched |
| Cfb.DecryptInPlace | autocert/cache/cache.go:149-151 | the in-place keystream loop replaces the bytes after the IV with their CFB decryption and leaves the IV untouched |
| Cache.Seal | autocert/cache/cache.go:156-174 | a key that is not 16, 24 or 32 bytes and a random-source failure are errors; otherwise the payload is 16 + len(p) bytes and its first 16 are the IV |
| Cache.Open | autocert/cache/cache.go:135-154 | a bad key size is an error, as is input shorter than 16 bytes ("Ciphertext is too short"); otherwise the output is len - 16 bytes |
| Cache.OpenSeal | autocert/cache/cache.go:135-174 | decrypt(encrypt(p)) == p, whatever IV was drawn |
| Cache.FetchWritten | autocert/cache/cache.go:111 | for the direct and the SQL backend alike, a fault-free read returns exactly the payload the last successful write of that key stored |
| Cache.FetchDeleted | autocert/cache/cache.go:132 | after a successful backend delete, every backend kind reports a cache miss for that key |
| Cache.Served | autocert/cache/cache.go:69-84 | a backend read's fault comes back unchanged and an absent key is a cache miss; otherwise the stored payload is returned as it is without a key, or its decryption with one, after base64 decoding for the SQL adapter |
| Cache.PlaintextPayload | autocert/cache/cache.go:74-109 | the plaintext Get makes of the payload Put produced is the data put, with or without an encryption key |
| Cache.ServedAfterPut | autocert/cache/cache.go:98-121 | after a successful backend write of Put's payload, a fault-free backend read of that key serves the data put, through the direct and the SQL backend alike |
| Cache.PutKeepsConsistent | autocert/cache/cache.go:98-121 | a successful Put, which stores the payload and precaches the plaintext under the same key, keeps every precache entry equal to what a fault-free backend read serves |
| Cache.DeleteKeepsConsistent | autocert/cache/cache.go:126-133 | evicting the key from the precache keeps it consistent with the backend, whether the backend delete then succeeds or fails |
| Cache.GetKeepsConsistent | autocert/cache/cache.go:69-89 | precaching the plaintext a successful backend read served keeps the precache consistent with the backend |
| Cache.Cache.constructor | autocert/cache/cache.go:226-231 | the decorator starts with the given backend, key and precaching flag, and an empty precache, so with a backend it starts coherent |
| Cache.Cache.Encrypt | autocert/cache/cache.go:156-174 | the buffer-filling implementation returns exactly the payload `Cache.Seal` describes |
| Cache.Cache.Decrypt | autocert/cache/cache.go:135-154 | the in-place implementation returns exactly the plaintext `Cache.Open` describes |
| Cache.Cache.BackendGet | autocert/cache/cache.go:69 | `c.backend.Get` is the read of the direct store or of the SQL adapter, as `Cache.Fetch` states it for the backend's table |
| Cache.Cache.BackendPut | autocert/cache/cache.go:111 | `c.backend.Put` reports the backend's fault and then changes nothing, or stores the payload (base64 text for the SQL adapter) under the key |
| Cache.Cache.BackendDelete | autocert/cache/cache.go:132 | `c.backend.Delete` reports the backend's fault and then changes nothing, or removes the key from the backend's table |
| Cache.Cache.Get | autocert/cache/cache.go:59-91 | a precache hit is returned and the backend is not consulted. Otherwise the backend's error, a miss included, is returned unchanged and the precache is untouched, and a failed decrypt leaves the precache unchanged. A result is precached when precaching is on, and also, without encryption, when it is off. Coherence is preserved. With a coherent precache, a fault-free Get returns exactly what a backend read would serve, so the precache cannot be observed |
| Cache.Cache.Put | autocert/cache/cache.go:98-121 | an encryption or backend failure returns that error and changes nothing. On success the backend holds the (encrypted) payload and, with precaching on, the precache maps the key to the plaintext, with no other key changed. Coherence is preserved |
| Cache.Cache.Delete | autocert/cache/cache.go:126-133 | with precaching on, the key is evicted whatever the backend reports; the backend's result is returned verbatim; coherence is preserved |
| Cache.PutThenGet | autocert/cache/cache.go:59-121 | after a successful Put, a Get of the same key returns the bytes put: always with precaching on, and on a fault-free read otherwise |
| Cache.DeleteThenGet | autocert/cache/cache.go:59-133 | after a successful Delete, a fault-free Get is a cache miss even if the key had been precached |
| Cache.SqlLifecycle | autocert/cache/cache_test.go:16-43 | over a MySQL-backed adapter, with or without encryption and precaching: Put succeeds, Get returns the data, Delete succeeds, and the next Get is a cache miss |
| Factory.ParseBool | autocert/cache/cache.go:187-191 | "1", "t", "T", "TRUE", "true" and "True" are true and their six counterparts false (each if and only if); anything else is a syntax error |
| Factory.ScanUint | autocert/cache/cache.go:295 | the unsigned scan succeeds exactly on all-digit text whose value fits in 64 bits, and returns that value |
| Factory.Atoi | autocert/cache/cache.go:295-299 | Atoi fails only with a syntax or a range error and succeeds only on an optionally signed digit string; the exact set and value are `Factory.AtoiAccepts` |
| Factory.AtoiAccepts | autocert/cache/cache.go:295-299 | Atoi accepts exactly an optional sign followed by digits whose value fits in an int64, and returns that value |
| Factory.DeriveKey | autocert/cache/cache.go:193-201 | the derived encryption key is 32 bytes |
| Factory.DeriveKeyIgnoresByte15 | autocert/cache/cache.go:200 | passphrases whose digests differ only in byte 15 yield the same key |
| Factory.NewDirCacheBackend | autocert/cache/cache.go:236-241 | the dir backend is accepted if and only if `path` is given, else it fails with "Option 'path' is required" |
| Factory.NewSqlCacheBackend | autocert/cache/cache.go:254-265 | `driver` is checked first, then `dsn`, each with its own message; the backend is accepted if and only if both are present |
| Factory.NewRedisCacheBackend | autocert/cache/cache.go:280-299 | a missing or empty `addr` is an error; `password` defaults to empty; a `db` that Atoi rejects is an error wrapping Atoi's |
| Factory.RedisDefaultDb | autocert/cache/cache.go:289-293 | without a `db` option, Redis uses database 0 |
| Factory.PrecachingOption | autocert/cache/cache.go:186-191 | precaching is on if and only if `usePrecaching` is one of ParseBool's true spellings; a value ParseBool rejects means off, its error dropped |
| Factory.FactorySettings | autocert/cache/cache.go:177-234 | a missing `backend` is an error; precaching is on only for a true spelling; a 32-byte key is derived if and only if `encryptionKey` is present and non-empty; "dir", "sql" and "redis" each select their own kind of backend (if and only if), and for each the factory succeeds exactly when that helper does, with the helper's backend or the helper's error |
| Factory.FactoryAccepted | autocert/cache/cache.go:180-299 | the factory succeeds if and only if the options meet the stated requirements of the named backend |
| Factory.UnknownBackend | autocert/cache/cache.go:205-233 | an unrecognised backend name gives a decorator with no backend and no error |
| Factory.NewCacheFactory | autocert/cache/cache.go:177-234 | an option error is returned as is; otherwise a fresh decorator with an empty precache, the derived key and the precaching flag, over the backend the options name: the given store for "dir" and "redis", the SQL adapter over it with the selected dialect for "sql" (whose unsupported-driver error is returned), and no backend for any other name |

## Left out

- AES is the uninterpreted block function `cipher`, so confidentiality is not stated. Only `aes.NewCipher`'s key-size check is modelled.
- The crypto/rand IV is the `entropy` parameter of `Put`.
- SHA-256 and PBKDF2 are the function parameters `hash` and `kdf`. Their key length of 32 and the iteration count are modelled, their internals are not.
- The factory's I/O is the caller's, and the assembled decorator is given the store it produced.
  - This covers `os.Stat` and `os.MkdirAll`, `sql.Open` and `db.Ping` with their wrapped errors, and `redis.NewClient`.
  - It also covers `rediscache.NewCache` and `autocert.DirCache`, which are not part of this model.
- The MySQL and PostgreSQL dialects, the Redis cache and autocert's directory cache are not part of this model. Each is the abstract `Storage.Store`.
- `reflect.TypeOf(db.Driver())` is the `driverTypeName` string.
- `context.Context` and the concurrency of `sync.Map` are not modelled. The precache is a plain map field.
- Cache.Cache.Get, Cache.Cache.Put, Cache.Cache.Delete: these require a backend. With the nil backend that an unknown `backend` name produces, Go panics on the first call, and the model does not describe the panic.
- Factory.NewRedisCacheBackend: a failed `db` wraps the strconv error's kind (syntax or range). It does not carry Go's quoted message text.
- Error messages: every `fmt.Errorf` text is a constant string. A cause is kept as a value.
- Slice aliasing is not modelled:
  - Go's `decrypt` writes into the buffer the backend returned, and the model copies it into a fresh array first.
  - Go's precache keeps the caller's slice, and the model keeps its value.
- Sql.SelectDialect: the chosen dialect is recorded, but both dialects share the one abstract store. Their SQL is not modelled.
- autocert/cache/benchmarks_test.go holds only timing loops against live databases.
