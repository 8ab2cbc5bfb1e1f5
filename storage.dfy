/** The local ("dev mode") backend: each collection is a JSON array kept
    under one fixed key of the browser's key-value storage. */
module Storage {

  /** What reading a key can find, as far as the model goes: nothing (the
      key is missing, or holds the empty string), text that does not parse,
      or a parsed array. Text that parses to a JSON value other than an
      array is not modelled. */
  datatype Entry<T> = Absent | Unreadable | Present(records: seq<T>)

  /** The load helpers of every component: a missing or unreadable key reads
      as an empty collection. */
  function Load<T>(e: Entry<T>): (r: seq<T>)
    ensures e.Present? ==> r == e.records
    ensures !e.Present? ==> r == []
  {
    if e.Present? then e.records else []
  }

  /** One storage key, with the entry currently stored under it. */
  class StorageKey<T> {
    const name: string
    var entry: Entry<T>

    constructor (name: string)
      ensures this.name == name && entry == Absent
    {
      this.name := name;
      entry := Absent;
    }

    /** The collection the component's load helper returns. */
    function Loaded(): seq<T>
      reads this
    {
      Load(entry)
    }

    /** The component's save helper: the whole array replaces what the key
        held before, whatever that was. */
    method Save(records: seq<T>)
      modifies this
      ensures entry == Present(records)
      ensures Loaded() == records
    {
      entry := Present(records);
    }
  }
}
