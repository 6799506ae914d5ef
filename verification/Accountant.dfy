/** The buffer accountant shared by every TCP flow and UDP session of an engine. */
module Accountant {

  class BufferAccountant {
    const limit: nat
    var used: nat

    constructor (limit: nat)
      ensures this.limit == limit && used == 0
    {
      this.limit := limit;
      used := 0;
    }

    ghost predicate Valid()
      reads this
    {
      used <= limit
    }

    /** Written without forming `used + n`, which could wrap around in size_t. */
    method Reserve(n: nat) returns (ok: bool)
      requires Valid()
      modifies this
      ensures Valid()
      ensures ok <==> old(used) + n <= limit
      ensures used == old(used) + if ok then n else 0
    {
      if n > limit || used > limit - n {
        return false;
      }
      used := used + n;
      return true;
    }

    method Release(n: nat)
      requires Valid() && n <= used
      modifies this
      ensures Valid() && used == old(used) - n
    {
      used := used - n;
    }
  }

}
