/** The browser's `localStorage`: one string per key, one instance shared by the whole page. */
module Storage {
  import opened Maybe

  class LocalStorage {
    var entries: map<string, string>

    constructor (initial: map<string, string>)
      ensures entries == initial
    {
      entries := initial;
    }

    /** `getItem`: the stored string, or `null` (None) for a key never set or removed. */
    method GetItem(key: string) returns (r: Option<string>)
      ensures r.Some? <==> key in entries
      ensures r.Some? ==> r.value == entries[key]
    {
      r := if key in entries then Some(entries[key]) else None;
    }

    method SetItem(key: string, value: string)
      modifies this
      ensures entries == old(entries)[key := value]
    {
      entries := entries[key := value];
    }

    method RemoveItem(key: string)
      modifies this
      ensures entries == old(entries) - {key}
    {
      entries := entries - {key};
    }
  }
}
