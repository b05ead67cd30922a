/** The cache decorator (package cache, type Cache): wraps one backend,
    encrypts payloads at rest when a key is configured, and keeps an
    in-process precache of plaintext by key. */
module Cache {
  import opened Types
  import Storage
  import Base64
  import Sql
  import Cfb

  /** The backend a decorator wraps. A directory or Redis backend stores the
      payload as it is given (`Direct`); the SQL adapter base64-encodes it
      for its driver (`ViaSql`). `NoBackend` is the nil backend the factory
      leaves for an unrecognised `backend` option. */
  datatype Backend = NoBackend | Direct(store: Storage.Store) | ViaSql(adapter: Sql.Cache)

  // ----- backend reads and writes, as values -----

  /** What a backend Get reports for the table `entries`. */
  function Fetch(viaSql: bool, entries: map<string, seq<Byte>>, key: string, fault: Option<Error>): Result<seq<Byte>>
  {
    if viaSql then Sql.Fetch(entries, key, fault) else Storage.Lookup(entries, key, fault)
  }

  /** What a backend Put writes into its table for `payload`. */
  function Written(viaSql: bool, payload: seq<Byte>): seq<Byte>
  {
    if viaSql then Base64.Encode(payload) else payload
  }

  /** For every backend kind, a fault-free Get returns exactly the payload
      a successful Put of the same key wrote. */
  lemma FetchWritten(viaSql: bool, entries: map<string, seq<Byte>>, key: string, payload: seq<Byte>)
    ensures Fetch(viaSql, entries[key := Written(viaSql, payload)], key, None) == Ok(payload)
  {
    if viaSql {
      Sql.FetchStored(entries, key, payload);
    }
  }

  /** After a delete that reached the backend, every backend kind reports a
      cache miss for that key. */
  lemma FetchDeleted(viaSql: bool, entries: map<string, seq<Byte>>, key: string)
    ensures Fetch(viaSql, entries - {key}, key, None) == Err(CacheMiss)
  {
  }

  // ----- encrypt / decrypt, as values -----

  /** aes.NewCipher accepts keys of 16, 24 or 32 bytes. */
  predicate AesKeySize(n: nat)
  {
    n == 16 || n == 24 || n == 32
  }

  /** The payload `encrypt` stores: IV || CFB ciphertext. `entropy` is what
      crypto/rand produced for the IV. */
  function Seal(cipher: Cfb.BlockCipher, key: seq<Byte>, entropy: Result<Cfb.Block>, p: seq<Byte>): (r: Result<seq<Byte>>)
    ensures !AesKeySize(|key|) ==> r == Err(KeySizeError(|key|))
    ensures AesKeySize(|key|) && entropy.Err? ==> r == Err(entropy.error)
    ensures AesKeySize(|key|) && entropy.Ok? ==> r.Ok?
    ensures r.Ok? ==> |r.value| == Cfb.BlockSize + |p| && r.value[..Cfb.BlockSize] == entropy.value
  {
    if !AesKeySize(|key|) then Err(KeySizeError(|key|))
    else if entropy.Err? then Err(entropy.error)
    else Ok(entropy.value + Cfb.Encrypt(cipher, key, entropy.value, p))
  }

  /** What `decrypt` returns: the length check, then CFB decryption of
      everything after the IV. There is no integrity check. */
  function Open(cipher: Cfb.BlockCipher, key: seq<Byte>, data: seq<Byte>): (r: Result<seq<Byte>>)
    ensures !AesKeySize(|key|) ==> r == Err(KeySizeError(|key|))
    ensures AesKeySize(|key|) && |data| < Cfb.BlockSize ==> r == Err(CiphertextTooShort)
    ensures AesKeySize(|key|) && |data| >= Cfb.BlockSize ==> r.Ok?
    ensures r.Ok? ==> |r.value| == |data| - Cfb.BlockSize
  {
    if !AesKeySize(|key|) then Err(KeySizeError(|key|))
    else if |data| < Cfb.BlockSize then Err(CiphertextTooShort)
    else Ok(Cfb.Decrypt(cipher, key, data[..Cfb.BlockSize], data[Cfb.BlockSize..]))
  }

  /** decrypt(encrypt(p)) == p, whatever IV was drawn. */
  lemma {:induction false} OpenSeal(cipher: Cfb.BlockCipher, key: seq<Byte>, entropy: Result<Cfb.Block>, p: seq<Byte>)
    requires Seal(cipher, key, entropy, p).Ok?
    ensures Open(cipher, key, Seal(cipher, key, entropy, p).value) == Ok(p)
  {
    var c := Seal(cipher, key, entropy, p).value;
    assert c[..Cfb.BlockSize] == entropy.value && c[Cfb.BlockSize..] == Cfb.Encrypt(cipher, key, entropy.value, p);
    Cfb.DecryptEncrypt(cipher, key, entropy.value, p);
  }

  // ----- what the decorator reads and writes, as values -----

  /** The key bytes aes.NewCipher is given (nil when there is none). */
  function KeyBytes(encryptionKey: Option<seq<Byte>>): seq<Byte>
  {
    if encryptionKey.Some? then encryptionKey.value else []
  }

  /** The payload Put hands the backend for `data`. */
  function Payload(cipher: Cfb.BlockCipher, encryptionKey: Option<seq<Byte>>, data: seq<Byte>,
                   entropy: Result<Cfb.Block>): Result<seq<Byte>>
  {
    if encryptionKey.None? then Ok(data) else Seal(cipher, encryptionKey.value, entropy, data)
  }

  /** The plaintext Get makes of a payload read from the backend. */
  function Plaintext(cipher: Cfb.BlockCipher, encryptionKey: Option<seq<Byte>>, payload: seq<Byte>): Result<seq<Byte>>
  {
    if encryptionKey.None? then Ok(payload) else Open(cipher, encryptionKey.value, payload)
  }

  /** Get's plaintext of Put's payload is the data put, with or without a key. */
  lemma PlaintextPayload(cipher: Cfb.BlockCipher, encryptionKey: Option<seq<Byte>>, data: seq<Byte>,
                         entropy: Result<Cfb.Block>)
    requires Payload(cipher, encryptionKey, data, entropy).Ok?
    ensures Plaintext(cipher, encryptionKey, Payload(cipher, encryptionKey, data, entropy).value) == Ok(data)
  {
    if encryptionKey.Some? {
      OpenSeal(cipher, encryptionKey.value, entropy, data);
    }
  }

  /** What Get returns when it goes to a backend whose table is `stored`. */
  function Served(viaSql: bool, cipher: Cfb.BlockCipher, encryptionKey: Option<seq<Byte>>,
                  stored: map<string, seq<Byte>>, key: string, fault: Option<Error>): (r: Result<seq<Byte>>)
    ensures fault.Some? ==> r == Err(fault.value)
    ensures fault.None? && key !in stored ==> r == Err(CacheMiss)
    ensures fault.None? && key in stored && !viaSql ==>
      r == if encryptionKey.None? then Ok(stored[key]) else Open(cipher, encryptionKey.value, stored[key])
    ensures fault.None? && key in stored && viaSql && encryptionKey.None? ==> r == Base64.Decode(stored[key])
  {
    match Fetch(viaSql, stored, key, fault)
    case Err(e) => Err(e)
    case Ok(payload) => Plaintext(cipher, encryptionKey, payload)
  }

  /** Every precache entry is the plaintext a fault-free read of the
      backend would give: plaintext, never ciphertext, and nothing stale. */
  predicate Consistent(viaSql: bool, cipher: Cfb.BlockCipher, encryptionKey: Option<seq<Byte>>,
                       stored: map<string, seq<Byte>>, precache: map<string, seq<Byte>>)
  {
    forall k :: k in precache ==> Served(viaSql, cipher, encryptionKey, stored, k, None) == Ok(precache[k])
  }

  /** After a successful Put of `data`, a fault-free read of that key serves
      `data` back, through any backend and with or without encryption. */
  lemma ServedAfterPut(viaSql: bool, cipher: Cfb.BlockCipher, encryptionKey: Option<seq<Byte>>,
                       stored: map<string, seq<Byte>>, key: string, data: seq<Byte>, entropy: Result<Cfb.Block>)
    requires Payload(cipher, encryptionKey, data, entropy).Ok?
    ensures var payload := Payload(cipher, encryptionKey, data, entropy).value;
      Served(viaSql, cipher, encryptionKey, stored[key := Written(viaSql, payload)], key, None) == Ok(data)
  {
    var payload := Payload(cipher, encryptionKey, data, entropy).value;
    FetchWritten(viaSql, stored, key, payload);
    PlaintextPayload(cipher, encryptionKey, data, entropy);
  }

  /** A successful Put keeps the precache consistent with the backend: the
      key now maps to the plaintext on both sides, other keys are as they were. */
  lemma PutKeepsConsistent(viaSql: bool, cipher: Cfb.BlockCipher, encryptionKey: Option<seq<Byte>>,
                           stored: map<string, seq<Byte>>, precache: map<string, seq<Byte>>,
                           key: string, data: seq<Byte>, entropy: Result<Cfb.Block>)
    requires Consistent(viaSql, cipher, encryptionKey, stored, precache)
    requires Payload(cipher, encryptionKey, data, entropy).Ok?
    ensures var payload := Payload(cipher, encryptionKey, data, entropy).value;
      Consistent(viaSql, cipher, encryptionKey, stored[key := Written(viaSql, payload)], precache[key := data])
  {
    var payload := Payload(cipher, encryptionKey, data, entropy).value;
    var stored' := stored[key := Written(viaSql, payload)];
    ServedAfterPut(viaSql, cipher, encryptionKey, stored, key, data, entropy);
    forall k | k in precache && k != key
      ensures Served(viaSql, cipher, encryptionKey, stored', k, None) == Ok(precache[k])
    {
      assert Fetch(viaSql, stored', k, None) == Fetch(viaSql, stored, k, None);
    }
  }

  /** A Delete evicts the key from the precache and, when the backend
      accepts it, from the table: consistency survives either way. */
  lemma DeleteKeepsConsistent(viaSql: bool, cipher: Cfb.BlockCipher, encryptionKey: Option<seq<Byte>>,
                              stored: map<string, seq<Byte>>, precache: map<string, seq<Byte>>, key: string)
    requires Consistent(viaSql, cipher, encryptionKey, stored, precache)
    ensures Consistent(viaSql, cipher, encryptionKey, stored, precache - {key})
    ensures Consistent(viaSql, cipher, encryptionKey, stored - {key}, precache - {key})
  {
    forall k | k in precache - {key}
      ensures Served(viaSql, cipher, encryptionKey, stored - {key}, k, None) == Ok(precache[k])
    {
      assert Fetch(viaSql, stored - {key}, k, None) == Fetch(viaSql, stored, k, None);
    }
  }

  /** Precaching what a successful backend read served keeps consistency. */
  lemma GetKeepsConsistent(viaSql: bool, cipher: Cfb.BlockCipher, encryptionKey: Option<seq<Byte>>,
                           stored: map<string, seq<Byte>>, precache: map<string, seq<Byte>>,
                           key: string, fault: Option<Error>)
    requires Consistent(viaSql, cipher, encryptionKey, stored, precache)
    requires Served(viaSql, cipher, encryptionKey, stored, key, fault).Ok?
    ensures Consistent(viaSql, cipher, encryptionKey, stored,
                       precache[key := Served(viaSql, cipher, encryptionKey, stored, key, fault).value])
  {
    assert fault.None?;
  }

  class Cache {
    const backend: Backend
    const encryptionKey: Option<seq<Byte>>
    const usePrecaching: bool
    const cipher: Cfb.BlockCipher
    var precache: map<string, seq<Byte>>

    constructor (backend: Backend, encryptionKey: Option<seq<Byte>>, usePrecaching: bool, cipher: Cfb.BlockCipher)
      ensures this.backend == backend && this.encryptionKey == encryptionKey
      ensures this.usePrecaching == usePrecaching && this.cipher == cipher
      ensures precache == map[]
      ensures backend != NoBackend ==> Coherent()
    {
      this.backend := backend;
      this.encryptionKey := encryptionKey;
      this.usePrecaching := usePrecaching;
      this.cipher := cipher;
      precache := map[];
    }

    /** The object that holds the backend's table. */
    function Backing(): set<object>
    {
      match backend
      case NoBackend => {}
      case Direct(s) => {s}
      case ViaSql(a) => {a.driver}
    }

    /** The backend's table: payloads, base64 text for the SQL adapter. */
    ghost function Stored(): map<string, seq<Byte>>
      requires backend != NoBackend
      reads Backing()
    {
      match backend
      case Direct(s) => s.entries
      case ViaSql(a) => a.driver.entries
    }

    /** What Get returns when it goes to the backend now. */
    ghost function Serves(key: string, fault: Option<Error>): Result<seq<Byte>>
      requires backend != NoBackend
      reads Backing()
    {
      Served(backend.ViaSql?, cipher, encryptionKey, Stored(), key, fault)
    }

    /** With precaching on, the precache is consistent with the backend. */
    ghost predicate Coherent()
      requires backend != NoBackend
      reads this, Backing()
    {
      usePrecaching ==> Consistent(backend.ViaSql?, cipher, encryptionKey, Stored(), precache)
    }

    method Encrypt(plaintext: seq<Byte>, entropy: Result<Cfb.Block>) returns (r: Result<seq<Byte>>)
      ensures r == Seal(cipher, KeyBytes(encryptionKey), entropy, plaintext)
    {
      var key := KeyBytes(encryptionKey);
      if !AesKeySize(|key|) {
        return Err(KeySizeError(|key|));
      }
      var buf := new Byte[Cfb.BlockSize + |plaintext|];
      if entropy.Err? {
        return Err(entropy.error);
      }
      var iv := entropy.value;
      forall i | 0 <= i < Cfb.BlockSize {
        buf[i] := iv[i];
      }
      assert buf[..Cfb.BlockSize] == iv;
      assert buf[Cfb.BlockSize + |plaintext|..] == [];
      Cfb.EncryptInto(cipher, key, iv, buf, Cfb.BlockSize, plaintext);
      assert buf[..] == iv + Cfb.Encrypt(cipher, key, iv, plaintext);
      r := Ok(buf[..]);
    }

    method Decrypt(ciphertext: seq<Byte>) returns (r: Result<seq<Byte>>)
      ensures r == Open(cipher, KeyBytes(encryptionKey), ciphertext)
    {
      var key := KeyBytes(encryptionKey);
      if !AesKeySize(|key|) {
        return Err(KeySizeError(|key|));
      }
      if |ciphertext| < Cfb.BlockSize {
        return Err(CiphertextTooShort);
      }
      var buf := new Byte[|ciphertext|](i requires 0 <= i < |ciphertext| => ciphertext[i]);
      assert buf[..] == ciphertext;
      var iv: Cfb.Block := ciphertext[..Cfb.BlockSize];
      assert buf[Cfb.BlockSize..] == ciphertext[Cfb.BlockSize..];
      Cfb.DecryptInPlace(cipher, key, iv, buf, Cfb.BlockSize);
      r := Ok(buf[Cfb.BlockSize..]);
    }

    method BackendGet(key: string, fault: Option<Error>) returns (r: Result<seq<Byte>>)
      requires backend != NoBackend
      ensures r == Fetch(backend.ViaSql?, Stored(), key, fault)
    {
      match backend
      case Direct(s) => r := s.Get(key, fault);
      case ViaSql(a) => r := a.Get(key, fault);
    }

    method BackendPut(key: string, payload: seq<Byte>, fault: Option<Error>) returns (o: Outcome)
      requires backend != NoBackend
      modifies Backing()
      ensures o == Storage.Report(fault)
      ensures Stored() == if fault.Some? then old(Stored())
                          else old(Stored())[key := Written(backend.ViaSql?, payload)]
    {
      match backend
      case Direct(s) => o := s.Put(key, payload, fault);
      case ViaSql(a) => o := a.Put(key, payload, fault);
    }

    method BackendDelete(key: string, fault: Option<Error>) returns (o: Outcome)
      requires backend != NoBackend
      modifies Backing()
      ensures o == Storage.Report(fault)
      ensures Stored() == if fault.Some? then old(Stored()) else old(Stored()) - {key}
    {
      match backend
      case Direct(s) => o := s.Delete(key, fault);
      case ViaSql(a) => o := a.Delete(key, fault);
    }

    /** A precache hit is returned as it is and the backend is not asked
        (the result does not depend on `fault`); otherwise the backend's
        error comes back unchanged, or the (decrypted) payload. A result is
        stored into the precache when precaching is on, and also, without
        encryption, when it is off. */
    method Get(key: string, fault: Option<Error>) returns (r: Result<seq<Byte>>)
      requires backend != NoBackend
      modifies this
      ensures usePrecaching && key in old(precache) ==> r == Ok(old(precache)[key]) && precache == old(precache)
      ensures old(Coherent()) && fault.None? ==> r == Serves(key, None)
      ensures !(usePrecaching && key in old(precache)) ==>
        && r == Serves(key, fault)
        && precache == if r.Ok? && (usePrecaching || encryptionKey.None?)
                       then old(precache)[key := r.value] else old(precache)
      ensures old(Coherent()) ==> Coherent()
    {
      if usePrecaching && key in precache {
        return Ok(precache[key]);
      }
      ghost var viaSql, pre := backend.ViaSql?, precache;
      var data := BackendGet(key, fault);
      if data.Err? {
        return Err(data.error);
      }
      if encryptionKey.None? {
        precache := precache[key := data.value];
        r := Ok(data.value);
      } else {
        r := Decrypt(data.value);
        if r.Err? {
          return r;
        }
        if usePrecaching {
          precache := precache[key := r.value];
        }
      }
      if usePrecaching && Consistent(viaSql, cipher, encryptionKey, Stored(), pre) {
        GetKeepsConsistent(viaSql, cipher, encryptionKey, Stored(), pre, key, fault);
      }
    }

    /** Encrypt, write, and fill the precache with the plaintext only once
        the backend write has succeeded. */
    method Put(key: string, data: seq<Byte>, entropy: Result<Cfb.Block>, fault: Option<Error>) returns (o: Outcome)
      requires backend != NoBackend
      modifies this, Backing()
      ensures var p := Payload(cipher, encryptionKey, data, entropy);
        if p.Err? then o == Fail(p.error) && precache == old(precache) && Stored() == old(Stored())
        else if fault.Some? then o == Fail(fault.value) && precache == old(precache) && Stored() == old(Stored())
        else && o == Pass
             && Stored() == old(Stored())[key := Written(backend.ViaSql?, p.value)]
             && precache == if usePrecaching then old(precache)[key := data] else old(precache)
      ensures old(Coherent()) ==> Coherent()
    {
      var payload: seq<Byte>;
      if encryptionKey.Some? {
        var sealed := Encrypt(data, entropy);
        if sealed.Err? {
          return Fail(sealed.error);
        }
        payload := sealed.value;
      } else {
        payload := data;
      }
      ghost var before, pre := Stored(), precache;
      o := BackendPut(key, payload, fault);
      if o.Fail? {
        return o;
      }
      if usePrecaching {
        precache := precache[key := data];
        if Consistent(backend.ViaSql?, cipher, encryptionKey, before, pre) {
          PutKeepsConsistent(backend.ViaSql?, cipher, encryptionKey, before, pre, key, data, entropy);
        }
      }
    }

    /** The key leaves the precache before the backend is asked, whatever
        the backend then reports; its result is returned verbatim. */
    method Delete(key: string, fault: Option<Error>) returns (o: Outcome)
      requires backend != NoBackend
      modifies this, Backing()
      ensures precache == if usePrecaching then old(precache) - {key} else old(precache)
      ensures o == Storage.Report(fault)
      ensures Stored() == if fault.Some? then old(Stored()) else old(Stored()) - {key}
      ensures old(Coherent()) ==> Coherent()
    {
      ghost var before, pre := Stored(), precache;
      if usePrecaching {
        precache := precache - {key};
      }
      o := BackendDelete(key, fault);
      if usePrecaching && Consistent(backend.ViaSql?, cipher, encryptionKey, before, pre) {
        DeleteKeepsConsistent(backend.ViaSql?, cipher, encryptionKey, before, pre, key);
      }
    }
  }

  // ----- sequences of operations -----

  /** A successful Put followed by a Get of the same key returns the bytes
      put: from the precache when precaching is on, whatever the backend
      then reports, and through the backend (and decrypt) when the read is
      fault-free. */
  method PutThenGet(c: Cache, key: string, data: seq<Byte>, entropy: Result<Cfb.Block>,
                    writeFault: Option<Error>, readFault: Option<Error>) returns (o: Outcome, r: Result<seq<Byte>>)
    requires c.backend != NoBackend
    modifies c, c.Backing()
    ensures o == Pass <==> Payload(c.cipher, c.encryptionKey, data, entropy).Ok? && writeFault.None?
    ensures o == Pass && (c.usePrecaching || readFault.None?) ==> r == Ok(data)
  {
    ghost var before := c.Stored();
    o := c.Put(key, data, entropy, writeFault);
    r := c.Get(key, readFault);
    if o == Pass && !c.usePrecaching && readFault.None? {
      ServedAfterPut(c.backend.ViaSql?, c.cipher, c.encryptionKey, before, key, data, entropy);
    }
  }

  /** After a Delete the backend accepted, a fault-free Get is a cache miss,
      even when the key had been precached. */
  method DeleteThenGet(c: Cache, key: string, deleteFault: Option<Error>, readFault: Option<Error>)
    returns (o: Outcome, r: Result<seq<Byte>>)
    requires c.backend != NoBackend
    modifies c, c.Backing()
    ensures o == Storage.Report(deleteFault)
    ensures readFault.Some? ==> r == Err(readFault.value)
    ensures o == Pass && readFault.None? ==> r == Err(CacheMiss)
  {
    ghost var before := c.Stored();
    o := c.Delete(key, deleteFault);
    r := c.Get(key, readFault);
    if o == Pass {
      FetchDeleted(c.backend.ViaSql?, before, key);
    }
  }

  /** The life of one entry in a decorator over a MySQL-backed SQL adapter:
      the Put succeeds, the Get returns the bytes put, the Delete succeeds
      and the next Get is a cache miss, with or without encryption and
      precaching. */
  method SqlLifecycle(cipher: Cfb.BlockCipher, encryptionKey: Option<seq<Byte>>, usePrecaching: bool,
                      key: string, data: seq<Byte>, iv: Cfb.Block)
    returns (put: Outcome, got: Result<seq<Byte>>, deleted: Outcome, gone: Result<seq<Byte>>)
    requires encryptionKey.Some? ==> AesKeySize(|encryptionKey.value|)
    ensures put == Pass && got == Ok(data)
    ensures deleted == Pass && gone == Err(CacheMiss)
  {
    var db := new Storage.Store();
    var adapter := Sql.NewCache("*mysql.MySQLDriver", db);
    var c := new Cache(ViaSql(adapter.value), encryptionKey, usePrecaching, cipher);
    put, got := PutThenGet(c, key, data, Ok(iv), None, None);
    deleted, gone := DeleteThenGet(c, key, None, None);
  }
}
