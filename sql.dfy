/** The SQL adapter (package sql): picks a dialect from the database
    driver's type name and stores payloads base64-encoded, so that any
    bytes survive a text column. Both dialects (MySQL, PostgreSQL) are the
    same abstract store here: the table they keep is `driver.entries`. */
module Sql {
  import opened Types
  import Base64
  import Storage

  datatype Dialect = MySql | PostgreSql

  const MySqlDriverLabel := "Driver: *mysql.MySQLDriver"
  const PostgreSqlDriverLabel := "Driver: *pq.Driver"

  /** The dialect for a driver whose dynamic type prints as `typeName`;
      the source formats "Driver: %s" around the type and switches on it. */
  function SelectDialect(typeName: string): (r: Result<Dialect>)
    ensures r == Ok(MySql) <==> typeName == "*mysql.MySQLDriver"
    ensures r == Ok(PostgreSql) <==> typeName == "*pq.Driver"
    ensures r.Err? <==> typeName != "*mysql.MySQLDriver" && typeName != "*pq.Driver"
    ensures r.Err? ==> r.error == UnsupportedDriver
  {
    var shown := "Driver: " + typeName;
    assert shown[..8] == "Driver: " && shown[8..] == typeName;
    if shown == MySqlDriverLabel then Ok(MySql)
    else if shown == PostgreSqlDriverLabel then Ok(PostgreSql)
    else Err(UnsupportedDriver)
  }

  /** What the adapter's Get reports for a driver table: the driver's error
      unchanged, or the decoded payload, or a decode error and no data. */
  function Fetch(entries: map<string, seq<Byte>>, key: string, fault: Option<Error>): (r: Result<seq<Byte>>)
    ensures fault.Some? ==> r == Err(fault.value)
    ensures fault.None? && key !in entries ==> r == Err(CacheMiss)
    ensures fault.None? && key in entries ==> r == Base64.Decode(entries[key])
  {
    match Storage.Lookup(entries, key, fault)
    case Err(e) => Err(e)
    case Ok(text) => Base64.Decode(text)
  }

  /** What a successful Put leaves in the driver's table. */
  function Stored(entries: map<string, seq<Byte>>, key: string, data: seq<Byte>): (r: map<string, seq<Byte>>)
    ensures key in r && |r[key]| == 4 * ((|data| + 2) / 3)
    ensures forall i :: 0 <= i < |r[key]| ==> Base64.InAlphabet(r[key][i]) || r[key][i] == Base64.Pad
    ensures forall k :: k != key ==> (k in r <==> k in entries) && (k in r ==> r[k] == entries[k])
  {
    Base64.EncodeLength(data);
    Base64.EncodeAlphabet(data);
    entries[key := Base64.Encode(data)]
  }

  /** Whatever bytes are put through the adapter, a fault-free Get of the
      same key returns exactly those bytes. */
  lemma {:induction false} FetchStored(entries: map<string, seq<Byte>>, key: string, data: seq<Byte>)
    ensures Fetch(Stored(entries, key, data), key, None) == Ok(data)
  {
    Base64.DecodeEncode(data);
  }

  class Cache {
    const dialect: Dialect
    const driver: Storage.Store

    constructor (dialect: Dialect, driver: Storage.Store)
      ensures this.dialect == dialect && this.driver == driver
    {
      this.dialect := dialect;
      this.driver := driver;
    }

    method Get(key: string, fault: Option<Error>) returns (r: Result<seq<Byte>>)
      ensures r == Fetch(driver.entries, key, fault)
    {
      var text := driver.Get(key, fault);
      if text.Err? {
        return Err(text.error);
      }
      r := Base64.Decode(text.value);
    }

    /** The driver is handed the base64 text; its error comes back unchanged. */
    method Put(key: string, data: seq<Byte>, fault: Option<Error>) returns (o: Outcome)
      modifies driver
      ensures o == Storage.Report(fault)
      ensures driver.entries == if fault.Some? then old(driver.entries) else Stored(old(driver.entries), key, data)
    {
      o := driver.Put(key, Base64.Encode(data), fault);
    }

    /** No encoding is involved: the driver's result is returned verbatim. */
    method Delete(key: string, fault: Option<Error>) returns (o: Outcome)
      modifies driver
      ensures o == Storage.Report(fault)
      ensures driver.entries == if fault.Some? then old(driver.entries) else old(driver.entries) - {key}
    {
      o := driver.Delete(key, fault);
    }
  }

  /** NewCache: a cache over `db` for a recognised driver, else no cache and
      "Unsupported driver". */
  method NewCache(driverTypeName: string, db: Storage.Store) returns (r: Result<Cache>)
    ensures SelectDialect(driverTypeName).Err? ==> r == Err(UnsupportedDriver)
    ensures SelectDialect(driverTypeName).Ok? ==>
      r.Ok? && fresh(r.value) && r.value.driver == db && r.value.dialect == SelectDialect(driverTypeName).value
  {
    var d := SelectDialect(driverTypeName);
    if d.Err? {
      return Err(d.error);
    }
    var c := new Cache(d.value, db);
    r := Ok(c);
  }
}
