/**
 * The operating system's random source behind `secrets.token_bytes`: an
 * endless stream of bytes of which every draw takes the next `n`. What the
 * bytes are is left open, so every property proved holds whatever they are.
 */
module Entropy {
  import opened Text

  class Source {
    /** The bytes the source will hand out, in order. */
    const stream: nat -> Byte
    /** How many bytes have been handed out so far. */
    var drawn: nat

    constructor (stream: nat -> Byte)
      ensures this.stream == stream && drawn == 0
    {
      this.stream := stream;
      drawn := 0;
    }

    /** The `n` bytes starting at position `from` of the stream. */
    function Peek(from: nat, n: nat): (bs: seq<Byte>)
      ensures |bs| == n
      ensures forall i :: 0 <= i < n ==> bs[i] == stream(from + i)
    {
      seq(n, i requires 0 <= i => stream(from + i))
    }

    /** Two draws in a row read one window of the stream: the first `m` bytes, then the `n` after them. */
    lemma PeekSplit(from: nat, m: nat, n: nat, next: nat)
      requires next == from + m
      ensures Peek(from, m + n)[..m] == Peek(from, m)
      ensures Peek(from, m + n)[m..] == Peek(next, n)
    {
      var w := Peek(from, m + n);
      forall i | 0 <= i < n
        ensures w[m..][i] == Peek(next, n)[i]
      {
        assert w[m..][i] == w[m + i];
      }
    }

    /** `secrets.token_bytes(n)`: the next `n` bytes. */
    method TokenBytes(n: nat) returns (bs: seq<Byte>)
      modifies this
      ensures bs == Peek(old(drawn), n)
      ensures drawn == old(drawn) + n
    {
      bs := Peek(drawn, n);
      drawn := drawn + n;
    }
  }
}
