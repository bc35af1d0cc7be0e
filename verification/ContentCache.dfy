/** The address-to-content cache. */
module ContentCache {
  import opened Storage

  type Entries = map<string, Bytes>

  function AddedEntry(c: Entries, key: string, value: Bytes): Entries {
    if key in c then c else c[key := value]
  }

  function UpdatedEntry(c: Entries, key: string, value: Bytes): Entries {
    if key in c then c[key := value] else c
  }

  function Lookup(c: Entries, key: string): Bytes {
    if key in c then c[key] else []
  }

  class Cache {
    var entries: Entries

    constructor ()
      ensures entries == map[]
    {
      entries := map[];
    }

    method AddToCache(key: string, value: Bytes)
      modifies this
      ensures entries == AddedEntry(old(entries), key, value)
      ensures entries == if key in old(entries) then old(entries) else old(entries)[key := value]
    {
      if key !in entries {
        entries := entries[key := value];
      }
    }

    method GetValueFromCache(key: string) returns (value: Bytes)
      ensures value == Lookup(entries, key)
      ensures if key in entries then value == entries[key] else value == []
    {
      if key !in entries {
        return [];
      }
      return entries[key];
    }

    method UpdateCache(key: string, value: Bytes)
      modifies this
      ensures entries == UpdatedEntry(old(entries), key, value)
      ensures entries.Keys == old(entries.Keys)
      ensures entries == if key in old(entries) then old(entries)[key := value] else old(entries)
    {
      if key in entries {
        entries := entries[key := value];
      }
    }
  }
}
