/** The plain sequence that every log representation refines: the entries at
    absolute positions front .. Back(), with 1-based indices as in raft_log.c. */
module LogModel {

  datatype Log<T> = Log(front: nat, entries: seq<T>) {

    function Back(): nat {
      front + |entries|
    }

    /** An index whose entry is still present. */
    predicate Has(idx: int) {
      front < idx <= Back()
    }

    function At(idx: int): T
      requires Has(idx)
    {
      entries[idx - 1 - front]
    }

    function Append(es: seq<T>): Log<T> {
      Log(front, entries + es)
    }

    /** Drops the newest entries until the last position is `back`. */
    function TruncateTo(back: nat): Log<T>
      requires front <= back <= Back()
    {
      Log(front, entries[..back - front])
    }

    /** Drops the `cnt` oldest entries. */
    function Poll(cnt: nat): Log<T>
      requires cnt <= |entries|
    {
      Log(front + cnt, entries[cnt..])
    }
  }
}
