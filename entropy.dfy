/** The operating system's random device, as the key generator sees it: a
    file that may be missing or unopenable, and whose reads hand out the
    next bytes of an unknown stream. */
module Entropy {
  import opened Bits

  /** Whether the device passes the readability check and opens. */
  datatype Device = Device(readable: bool, openable: bool)

  /** How many bytes a read of `length` bytes returns from `pool`: fread
      returns fewer bytes when the stream runs dry, and nothing when asked
      for a length that is not positive. */
  function Taken(pool: seq<Byte>, length: int): (k: nat)
    ensures k <= |pool|
    ensures length <= 0 ==> k == 0
    ensures length > 0 ==> k == if length <= |pool| then length else |pool|
  {
    if length <= 0 then 0 else if length <= |pool| then length else |pool|
  }

  class EntropyDevice {
    const readable: bool
    const openable: bool
    /** The bytes the device will still hand out, in order. */
    var pool: seq<Byte>

    function Status(): Device
    {
      Device(readable, openable)
    }

    constructor (readable: bool, openable: bool, pool: seq<Byte>)
      ensures this.readable == readable && this.openable == openable
      ensures this.pool == pool
    {
      this.readable, this.openable, this.pool := readable, openable, pool;
    }

    /** fread on the open device: the next bytes, at most `length` of them. */
    method Fread(length: int) returns (bytes: seq<Byte>)
      modifies this
      ensures bytes == old(pool)[..Taken(old(pool), length)]
      ensures pool == old(pool)[Taken(old(pool), length)..]
      ensures bytes + pool == old(pool)
    {
      var k := Taken(pool, length);
      bytes := pool[..k];
      pool := pool[k..];
    }
  }
}
