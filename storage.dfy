/** The storage-backend contract every layer talks to (autocert.Cache):
    Get, Put and Delete on an abstract key -> bytes store. A directory, a
    Redis server or one SQL dialect's table is such a store. Whether an
    operation fails for a reason outside the model (disk, network) is the
    environment's choice, passed in as `fault`. */
module Storage {
  import opened Types

  /** What a backend Get reports: the injected fault, the stored bytes, or a
      cache miss for an absent key. */
  function Lookup(entries: map<string, seq<Byte>>, key: string, fault: Option<Error>): Result<seq<Byte>>
  {
    if fault.Some? then Err(fault.value)
    else if key in entries then Ok(entries[key])
    else Err(CacheMiss)
  }

  /** The `error` a backend Put or Delete reports. */
  function Report(fault: Option<Error>): Outcome
  {
    if fault.Some? then Fail(fault.value) else Pass
  }

  class Store {
    var entries: map<string, seq<Byte>>

    constructor ()
      ensures entries == map[]
    {
      entries := map[];
    }

    method Get(key: string, fault: Option<Error>) returns (r: Result<seq<Byte>>)
      ensures fault.Some? ==> r == Err(fault.value)
      ensures fault.None? ==> (r.Ok? <==> key in entries)
      ensures r == Lookup(entries, key, fault)
    {
      if fault.Some? {
        r := Err(fault.value);
      } else if key in entries {
        r := Ok(entries[key]);
      } else {
        r := Err(CacheMiss);
      }
    }

    /** A failed write leaves the store as it was. */
    method Put(key: string, data: seq<Byte>, fault: Option<Error>) returns (o: Outcome)
      modifies this
      ensures o == Report(fault)
      ensures entries == if fault.Some? then old(entries) else old(entries)[key := data]
    {
      if fault.Some? {
        o := Fail(fault.value);
      } else {
        entries := entries[key := data];
        o := Pass;
      }
    }

    /** Deleting an absent key is not an error. */
    method Delete(key: string, fault: Option<Error>) returns (o: Outcome)
      modifies this
      ensures o == Report(fault)
      ensures entries == if fault.Some? then old(entries) else old(entries) - {key}
    {
      if fault.Some? {
        o := Fail(fault.value);
      } else {
        entries := entries - {key};
        o := Pass;
      }
    }
  }
}
