/** The buffers that the filters work on in place. */
module Buffers {
  import opened Bytes

  /** A buffer of a chain: its bytes are `data[..last]`. */
  class Buf {
    var data: array<byte>
    var last: nat

    constructor (data: array<byte>)
      ensures this.data == data && last == data.Length
    {
      this.data := data;
      last := data.Length;
    }

    ghost predicate Valid()
      reads this
    {
      last <= data.Length
    }

    ghost function Bytes(): seq<byte>
      requires Valid()
      reads this, data
    {
      data[..last]
    }
  }
}
