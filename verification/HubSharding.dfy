/** Where the hub keeps a user or a room: shards chosen by the 64-bit id. */
module HubSharding {
  const UINT64: int := 0x1_0000_0000_0000_0000

  /** int(uint64(id) % uint64(n)): the conversion wraps negative ids. */
  function ShardOf(id: int, n: nat): (i: nat)
    requires n > 0
    ensures i < n
  {
    (id % UINT64) % n
  }

  function SetOf(ids: seq<int>): set<int> { set r | r in ids }
}
