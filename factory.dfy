/** NewCacheFactory and its backend helpers: validation of the option map,
    the precaching flag, key derivation, and assembly of the decorator over
    the backend the checked options describe. The I/O that follows the
    option checks (creating the directory, opening and pinging the
    database, creating the Redis client) is the caller's: the assembled
    decorator is given the store it produced. */
module Factory {
  import opened Types
  import Storage
  import Sql
  import Cfb
  import Cache

  const BackendDir := "dir"
  const BackendRedis := "redis"
  const BackendSql := "sql"

  const MissingBackend := "Missing required 'backend' parameter"
  const MissingPath := "Option 'path' is required for 'dir' cache backend"
  const MissingDriver := "No driver specified"
  const MissingDsn := "dsn option to backend is required"
  const MissingAddr := "No 'addr' specified for Redis cache"
  const BadDb := "Error parsing db field"

  // ----- strconv.ParseBool -----

  const TrueSpellings: set<string> := {"1", "t", "T", "TRUE", "true", "True"}
  const FalseSpellings: set<string> := {"0", "f", "F", "FALSE", "false", "False"}

  function ParseBool(s: string): (r: Result<bool>)
    ensures r == Ok(true) <==> s in TrueSpellings
    ensures r == Ok(false) <==> s in FalseSpellings
    ensures r.Err? <==> s !in TrueSpellings + FalseSpellings
    ensures r.Err? ==> r.error == SyntaxError
  {
    if s in TrueSpellings then Ok(true)
    else if s in FalseSpellings then Ok(false)
    else Err(SyntaxError)
  }

  // ----- strconv.Atoi, on a 64-bit platform -----

  const MaxUint64: nat := 0xFFFF_FFFF_FFFF_FFFF
  const Int64Limit: nat := 0x8000_0000_0000_0000  // 2^63

  predicate IsDigit(c: char)
  {
    '0' <= c <= '9'
  }

  function DigitValue(c: char): nat
    requires IsDigit(c)
  {
    c as int - '0' as int
  }

  predicate AllDigits(s: string)
  {
    forall i :: 0 <= i < |s| ==> IsDigit(s[i])
  }

  /** The number the digits `s` spell when read after the value `acc`. */
  function Horner(acc: nat, s: string): nat
    requires AllDigits(s)
    decreases |s|
  {
    if |s| == 0 then acc else Horner(acc * 10 + DigitValue(s[0]), s[1..])
  }

  function Pow10(n: nat): nat
  {
    if n == 0 then 1 else 10 * Pow10(n - 1)
  }

  lemma {:induction false} HornerGrows(acc: nat, s: string)
    requires AllDigits(s)
    ensures Horner(acc, s) >= acc
    decreases |s|
  {
    if |s| > 0 {
      HornerGrows(acc * 10 + DigitValue(s[0]), s[1..]);
    }
  }

  /** Reading n more digits multiplies by less than 10^n. */
  lemma {:induction false} HornerBound(acc: nat, s: string)
    requires AllDigits(s)
    ensures Horner(acc, s) < (acc + 1) * Pow10(|s|)
    decreases |s|
  {
    if |s| > 0 {
      var next := acc * 10 + DigitValue(s[0]);
      HornerBound(next, s[1..]);
      assert next + 1 <= (acc + 1) * 10;
      assert (next + 1) * Pow10(|s| - 1) <= (acc + 1) * 10 * Pow10(|s| - 1);
    }
  }

  /** The scan of ParseUint(s, 10, 64) once it knows `s` is non-empty: a
      non-digit is a syntax error and a value past 2^64 - 1 a range error,
      whichever the scan meets first. */
  function ScanUint(s: string, acc: nat): (r: Result<nat>)
    requires acc <= MaxUint64
    ensures r.Ok? <==> AllDigits(s) && Horner(acc, s) <= MaxUint64
    ensures r.Ok? ==> r.value == Horner(acc, s)
    ensures r.Err? ==> r.error == SyntaxError || r.error == RangeError
    decreases |s|
  {
    if |s| == 0 then Ok(acc)
    else if !IsDigit(s[0]) then Err(SyntaxError)
    else if acc * 10 + DigitValue(s[0]) > MaxUint64 then
      if AllDigits(s) then HornerGrows(acc * 10 + DigitValue(s[0]), s[1..]); Err(RangeError)
      else Err(RangeError)
    else
      assert AllDigits(s) <==> AllDigits(s[1..]);
      ScanUint(s[1..], acc * 10 + DigitValue(s[0]))
  }

  /** The text after an optional leading sign. */
  function Unsigned(s: string): string
  {
    if |s| > 0 && (s[0] == '+' || s[0] == '-') then s[1..] else s
  }

  /** strconv.ParseInt(s, 10, 64): sign, then ParseUint, then the int64
      range check. */
  function ParseInt(s: string): Result<int>
  {
    if |s| == 0 then Err(SyntaxError)
    else if |Unsigned(s)| == 0 then Err(SyntaxError)
    else match ScanUint(Unsigned(s), 0)
      case Err(e) => Err(e)
      case Ok(u) =>
        if s[0] != '-' && u >= Int64Limit then Err(RangeError)
        else if s[0] == '-' && u > Int64Limit then Err(RangeError)
        else Ok(if s[0] == '-' then -(u as int) else u)
  }

  /** strconv.Atoi: a fast path for 1 to 18 characters, which cannot
      overflow, and ParseInt for everything else. */
  function Atoi(s: string): (r: Result<int>)
    ensures r.Ok? ==> Numeral(s)
    ensures r.Err? ==> r.error == SyntaxError || r.error == RangeError
  {
    if 0 < |s| < 19 then
      if |Unsigned(s)| == 0 || !AllDigits(Unsigned(s)) then Err(SyntaxError)
      else Ok(if s[0] == '-' then -(Horner(0, Unsigned(s)) as int) else Horner(0, Unsigned(s)))
    else ParseInt(s)
  }

  /** A decimal numeral: an optional sign, then at least one digit. */
  predicate Numeral(s: string)
  {
    |Unsigned(s)| > 0 && AllDigits(Unsigned(s))
  }

  function NumeralValue(s: string): int
    requires Numeral(s)
  {
    if s[0] == '-' then -(Horner(0, Unsigned(s)) as int) else Horner(0, Unsigned(s))
  }

  /** A numeral whose value fits in an int64. */
  predicate Int64Numeral(s: string)
  {
    Numeral(s) && -(Int64Limit as int) <= NumeralValue(s) < Int64Limit
  }

  lemma Pow10Eighteen()
    ensures Pow10(18) == 1_000_000_000_000_000_000
  {
    assert Pow10(6) == 1_000_000;
    assert Pow10(12) == 1_000_000_000_000;
  }

  /** Atoi accepts exactly the int64 numerals, and returns their value. */
  lemma AtoiAccepts(s: string)
    ensures Atoi(s).Ok? <==> Int64Numeral(s)
    ensures Atoi(s).Ok? ==> Atoi(s).value == NumeralValue(s)
  {
    if 0 < |s| < 19 && Numeral(s) {
      HornerBound(0, Unsigned(s));
      Pow10Eighteen();
      Pow10Monotone(|Unsigned(s)|, 18);
    }
  }

  lemma {:induction false} Pow10Monotone(m: nat, n: nat)
    requires m <= n
    ensures Pow10(m) <= Pow10(n)
    decreases n
  {
    if m < n {
      Pow10Monotone(m, n - 1);
    }
  }

  // ----- key derivation -----

  /** A SHA-256 digest, and a 32-byte PBKDF2 key. */
  type Digest = s: seq<Byte> | |s| == 32
    witness [0, 0, 0, 0, 0, 0, 0, 0, 0, 0, 0, 0, 0, 0, 0, 0,
             0, 0, 0, 0, 0, 0, 0, 0, 0, 0, 0, 0, 0, 0, 0, 0]

  /** sha256 over the bytes of an option value. */
  type Hash = string -> Digest

  /** pbkdf2.Key(password, salt, iterations, 32, sha256.New). */
  type Kdf = (seq<Byte>, seq<Byte>, nat) -> Digest

  const KdfIterations: nat := 1048

  /** The encryption key of a passphrase: the digest's first 15 bytes are
      the PBKDF2 password and its last 16 the salt; byte 15 is used by
      neither. */
  function DeriveKey(hash: Hash, kdf: Kdf, passphrase: string): (key: seq<Byte>)
    ensures |key| == 32
  {
    var d := hash(passphrase);
    kdf(d[..15], d[16..32], KdfIterations)
  }

  /** Two passphrases whose digests differ only in byte 15 yield the same
      key. */
  lemma DeriveKeyIgnoresByte15(hash: Hash, kdf: Kdf, p: string, q: string)
    requires hash(p)[..15] == hash(q)[..15] && hash(p)[16..] == hash(q)[16..]
    ensures DeriveKey(hash, kdf, p) == DeriveKey(hash, kdf, q)
  {
    assert hash(p)[16..32] == hash(p)[16..] && hash(q)[16..32] == hash(q)[16..];
  }

  // ----- backend options -----

  /** What the checked options ask the I/O step to set up. */
  datatype BackendSpec =
    | DirSpec(path: string)
    | SqlSpec(driver: string, dsn: string)
    | RedisSpec(addr: string, password: string, db: int)
    | NoBackendSpec

  /** newDirCacheBackend's option check. */
  function NewDirCacheBackend(options: map<string, string>): (r: Result<BackendSpec>)
    ensures r.Ok? <==> "path" in options
    ensures r.Ok? ==> r.value == DirSpec(options["path"])
    ensures r.Err? ==> r.error == ConfigError(MissingPath)
  {
    if "path" !in options then Err(ConfigError(MissingPath))
    else Ok(DirSpec(options["path"]))
  }

  /** newSQLCacheBackend's option checks: `driver` first, then `dsn`. */
  function NewSqlCacheBackend(options: map<string, string>): (r: Result<BackendSpec>)
    ensures "driver" !in options ==> r == Err(ConfigError(MissingDriver))
    ensures "driver" in options && "dsn" !in options ==> r == Err(ConfigError(MissingDsn))
    ensures r.Ok? <==> "driver" in options && "dsn" in options
    ensures r.Ok? ==> r.value == SqlSpec(options["driver"], options["dsn"])
  {
    if "driver" !in options then Err(ConfigError(MissingDriver))
    else if "dsn" !in options then Err(ConfigError(MissingDsn))
    else Ok(SqlSpec(options["driver"], options["dsn"]))
  }

  /** The `db` option, "0" when absent. */
  function DbOption(options: map<string, string>): string
  {
    if "db" in options then options["db"] else "0"
  }

  /** newRedisCacheBackend's option checks: a non-empty `addr`, an optional
      `password`, and `db` parsed by Atoi. */
  function NewRedisCacheBackend(options: map<string, string>): (r: Result<BackendSpec>)
    ensures ("addr" !in options || options["addr"] == "") ==> r == Err(ConfigError(MissingAddr))
    ensures r.Ok? ==> r.value.RedisSpec? && r.value.addr == options["addr"] && r.value.addr != ""
    ensures r.Ok? ==> r.value.password == (if "password" in options then options["password"] else "")
    ensures r.Ok? ==> Atoi(DbOption(options)) == Ok(r.value.db)
    ensures r.Err? && "addr" in options && options["addr"] != "" ==>
      Atoi(DbOption(options)).Err? && r.error == Wrapped(BadDb, Atoi(DbOption(options)).error)
  {
    if "addr" !in options || options["addr"] == "" then Err(ConfigError(MissingAddr))
    else
      var password := if "password" in options then options["password"] else "";
      match Atoi(DbOption(options))
      case Err(e) => Err(Wrapped(BadDb, e))
      case Ok(db) => Ok(RedisSpec(options["addr"], password, db))
  }

  /** Without a `db` option a Redis backend uses database 0. */
  lemma RedisDefaultDb(options: map<string, string>)
    requires "addr" in options && options["addr"] != "" && "db" !in options
    ensures NewRedisCacheBackend(options).Ok? && NewRedisCacheBackend(options).value.db == 0
  {
    AtoiAccepts("0");
    assert Unsigned("0") == "0";
  }

  // ----- NewCacheFactory -----

  /** The decorator's configuration. */
  datatype Settings = Settings(backend: BackendSpec, encryptionKey: Option<seq<Byte>>, usePrecaching: bool)

  /** The `usePrecaching` option: true only for a ParseBool true spelling;
      an unparsable value is false, its error dropped. */
  function PrecachingOption(options: map<string, string>): (r: bool)
    ensures r <==> "usePrecaching" in options && options["usePrecaching"] in TrueSpellings
  {
    if "usePrecaching" in options then
      match ParseBool(options["usePrecaching"])
      case Ok(v) => v
      case Err(_) => false
    else false
  }

  /** The option checks of NewCacheFactory, in its order: `backend` must be
      present; the key is derived when `encryptionKey` is present and
      non-empty; a recognised backend name runs its helper's checks; any
      other name, the empty one included, gives no backend and no error. */
  function FactorySettings(options: map<string, string>, hash: Hash, kdf: Kdf): (r: Result<Settings>)
    ensures "backend" !in options ==> r == Err(ConfigError(MissingBackend))
    ensures r.Ok? ==> r.value.usePrecaching == ("usePrecaching" in options && options["usePrecaching"] in TrueSpellings)
    ensures r.Ok? ==> (r.value.encryptionKey.Some? <==> "encryptionKey" in options && options["encryptionKey"] != "")
    ensures r.Ok? && r.value.encryptionKey.Some? ==>
      r.value.encryptionKey.value == DeriveKey(hash, kdf, options["encryptionKey"])
      && |r.value.encryptionKey.value| == 32
    ensures r.Ok? ==> (r.value.backend.DirSpec? <==> options["backend"] == BackendDir)
    ensures r.Ok? ==> (r.value.backend.SqlSpec? <==> options["backend"] == BackendSql)
    ensures r.Ok? ==> (r.value.backend.RedisSpec? <==> options["backend"] == BackendRedis)
    ensures "backend" in options && options["backend"] == BackendDir ==>
      && (r.Ok? <==> NewDirCacheBackend(options).Ok?)
      && (r.Ok? ==> r.value.backend == NewDirCacheBackend(options).value)
      && (r.Err? ==> r.error == NewDirCacheBackend(options).error)
    ensures "backend" in options && options["backend"] == BackendSql ==>
      && (r.Ok? <==> NewSqlCacheBackend(options).Ok?)
      && (r.Ok? ==> r.value.backend == NewSqlCacheBackend(options).value)
      && (r.Err? ==> r.error == NewSqlCacheBackend(options).error)
    ensures "backend" in options && options["backend"] == BackendRedis ==>
      && (r.Ok? <==> NewRedisCacheBackend(options).Ok?)
      && (r.Ok? ==> r.value.backend == NewRedisCacheBackend(options).value)
      && (r.Err? ==> r.error == NewRedisCacheBackend(options).error)
  {
    if "backend" !in options then Err(ConfigError(MissingBackend))
    else
      var usePrecaching := PrecachingOption(options);
      var key := if "encryptionKey" in options && options["encryptionKey"] != ""
                 then Some(DeriveKey(hash, kdf, options["encryptionKey"])) else None;
      var b :=
        if options["backend"] == BackendSql then NewSqlCacheBackend(options)
        else if options["backend"] == BackendDir then NewDirCacheBackend(options)
        else if options["backend"] == BackendRedis then NewRedisCacheBackend(options)
        else Ok(NoBackendSpec);
      match b
      case Err(e) => Err(e)
      case Ok(spec) => Ok(Settings(spec, key, usePrecaching))
  }

  /** The option maps NewCacheFactory accepts, stated on their own. */
  predicate Accepted(options: map<string, string>)
  {
    && "backend" in options
    && (options["backend"] == BackendDir ==> "path" in options)
    && (options["backend"] == BackendSql ==> "driver" in options && "dsn" in options)
    && (options["backend"] == BackendRedis ==>
          "addr" in options && options["addr"] != "" && Int64Numeral(DbOption(options)))
  }

  lemma FactoryAccepted(options: map<string, string>, hash: Hash, kdf: Kdf)
    ensures FactorySettings(options, hash, kdf).Ok? <==> Accepted(options)
  {
    AtoiAccepts(DbOption(options));
  }

  /** An unrecognised backend name is accepted and gives no backend. */
  lemma UnknownBackend(options: map<string, string>, hash: Hash, kdf: Kdf)
    requires "backend" in options
    requires options["backend"] !in {BackendDir, BackendSql, BackendRedis}
    ensures FactorySettings(options, hash, kdf).Ok?
    ensures FactorySettings(options, hash, kdf).value.backend == NoBackendSpec
  {
  }

  /** NewCacheFactory: the decorator over the backend the options describe.
      `store` is the table the I/O step produced for it (the directory, the
      Redis database, or the SQL database whose driver's type prints as
      `driverTypeName`); a SQL backend goes through sqlcache.NewCache, whose
      error is returned. The precache starts empty. */
  method NewCacheFactory(options: map<string, string>, hash: Hash, kdf: Kdf, cipher: Cfb.BlockCipher,
                         store: Storage.Store, driverTypeName: string) returns (r: Result<Cache.Cache>)
    ensures FactorySettings(options, hash, kdf).Err? ==> r == Err(FactorySettings(options, hash, kdf).error)
    ensures FactorySettings(options, hash, kdf).Ok? ==>
      var s := FactorySettings(options, hash, kdf).value;
      if s.backend.SqlSpec? && Sql.SelectDialect(driverTypeName).Err? then r == Err(UnsupportedDriver)
      else
        && r.Ok? && fresh(r.value) && r.value.precache == map[]
        && r.value.encryptionKey == s.encryptionKey && r.value.usePrecaching == s.usePrecaching
        && r.value.cipher == cipher
        && (s.backend.NoBackendSpec? <==> r.value.backend.NoBackend?)
        && (s.backend.SqlSpec? <==> r.value.backend.ViaSql?)
        && (r.value.backend.Direct? ==> r.value.backend.store == store)
        && (r.value.backend.ViaSql? ==> r.value.backend.adapter.driver == store)
        && (options["backend"] in {BackendDir, BackendRedis} ==> r.value.backend == Cache.Direct(store))
        && (options["backend"] == BackendSql ==>
              r.value.backend.ViaSql? && r.value.backend.adapter.dialect == Sql.SelectDialect(driverTypeName).value)
        && (options["backend"] !in {BackendDir, BackendSql, BackendRedis} ==> r.value.backend == Cache.NoBackend)
  {
    var settings := FactorySettings(options, hash, kdf);
    if settings.Err? {
      return Err(settings.error);
    }
    var s := settings.value;
    var backend: Cache.Backend;
    match s.backend {
      case NoBackendSpec =>
        backend := Cache.NoBackend;
      case SqlSpec(_, _) =>
        var adapter := Sql.NewCache(driverTypeName, store);
        if adapter.Err? {
          return Err(adapter.error);
        }
        backend := Cache.ViaSql(adapter.value);
      case DirSpec(_) =>
        backend := Cache.Direct(store);
      case RedisSpec(_, _, _) =>
        backend := Cache.Direct(store);
    }
    var c := new Cache.Cache(backend, s.encryptionKey, s.usePrecaching, cipher);
    r := Ok(c);
  }
}
