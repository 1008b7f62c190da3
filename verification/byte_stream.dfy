/** Byte sources whose reads may come back short. */
module ByteStream {

  type Byte = b: int | 0 <= b < 256
  type Bytes = seq<Byte>

  class Stream {
    /** What has not been read yet. */
    var data: Bytes
    /** Reads of at most this many bytes come back whole. */
    const wholeReads: nat

    constructor (data: Bytes, wholeReads: nat)
      ensures this.data == data && this.wholeReads == wholeReads
    {
      this.data, this.wholeReads := data, wholeReads;
    }

    /** Returns at most n bytes; nothing only when nothing was asked for or nothing is left. */
    method Read(n: nat) returns (chunk: Bytes)
      modifies this
      ensures chunk + data == old(data) && |chunk| <= n
      ensures chunk == [] ==> n == 0 || old(data) == []
      ensures n <= wholeReads && n <= |old(data)| ==> |chunk| == n
    {
      if n == 0 || data == [] {
        return [];
      }
      var k :| 1 <= k <= n && k <= |data| && (n <= wholeReads && n <= |data| ==> k == n);
      chunk := data[..k];
      data := data[k..];
    }
  }
}
