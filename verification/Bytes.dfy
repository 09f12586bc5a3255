/** Bytes and copying them between buffers. */
module Bytes {
  newtype byte = x: int | 0 <= x < 256

  type bytes = seq<byte>

  method Memcpy(dest: array<byte>, at: nat, src: array<byte>, from: nat, n: nat)
    requires dest != src && at + n <= dest.Length && from + n <= src.Length
    modifies dest
    ensures dest[..at] == old(dest[..at]) && dest[at..at + n] == src[from..from + n] && dest[at + n..] == old(dest[at + n..])
  {
    var i := 0;
    while i < n
      invariant 0 <= i <= n && dest[..at] == old(dest[..at]) && dest[at + n..] == old(dest[at + n..])
      invariant dest[at..at + i] == src[from..from + i]
    {
      dest[at + i] := src[from + i];
      i := i + 1;
    }
  }
}
