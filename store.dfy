/** The token store (a sled tree): device token -> registration marker. */
module Store {

  newtype byte = x: int | 0 <= x < 256

  /** The outcome of one storage operation. */
  datatype Io = Done | Failed

  /** One item yielded by the store's iterator: an entry, or an error in
      place of an entry that could not be read. */
  datatype Item = Entry(key: string, value: seq<byte>) | ReadError

  /** `items` is what one pass of the iterator over the contents `m` yields:
      one item per entry, each `Entry` being an entry of `m`, no entry twice. */
  ghost predicate IsIterationOf(items: seq<Item>, m: map<string, seq<byte>>) {
    && |items| == |m|
    && (forall i :: 0 <= i < |items| && items[i].Entry? ==>
          items[i].key in m && m[items[i].key] == items[i].value)
    && DistinctEntries(items)
  }

  /** No two entries among `items` have the same key. */
  ghost predicate DistinctEntries(items: seq<Item>) {
    forall i, j :: 0 <= i < j < |items| && items[i].Entry? && items[j].Entry? ==>
      items[i].key != items[j].key
  }

  /** Every item was read without error. */
  ghost predicate AllRead(items: seq<Item>) {
    forall i :: 0 <= i < |items| ==> items[i].Entry?
  }

  /** Every entry of `small` is an entry of `big`, with the same value. */
  ghost predicate SubMap(small: map<string, seq<byte>>, big: map<string, seq<byte>>) {
    forall k :: k in small ==> k in big && small[k] == big[k]
  }

  /** The shared store handle. */
  class Db {
    var entries: map<string, seq<byte>>

    constructor (initial: map<string, seq<byte>>)
      ensures entries == initial
    {
      entries := initial;
    }

    /** `insert`: sets `key` to `value`, overwriting any earlier value. */
    method Insert(key: string, value: seq<byte>, io: Io) returns (ok: bool)
      modifies this
      ensures ok <==> io == Done
      ensures entries == if ok then old(entries)[key := value] else old(entries)
    {
      ok := io == Done;
      if ok {
        entries := entries[key := value];
      }
    }

    /** `remove`: deletes `key` if present; an absent key is not an error. */
    method Remove(key: string, io: Io) returns (ok: bool)
      modifies this
      ensures ok <==> io == Done
      ensures entries == if ok then old(entries) - {key} else old(entries)
    {
      ok := io == Done;
      if ok {
        entries := entries - {key};
      }
    }
  }
}
