/** Byte streams as the caching path sees them: what is left to be delivered, and how it ends. */
module Streams {

  newtype byte = x: int | 0 <= x < 256

  /** What an io.Reader still has to give: `bytes`, and then either io.EOF (`complete`) or an
      error. A stream that is not complete never reports io.EOF. */
  datatype Stream = Stream(bytes: seq<byte>, complete: bool)

  const Done := Stream([], true)

  function Drop(s: Stream, n: nat): (r: Stream)
    ensures r.bytes == if n <= |s.bytes| then s.bytes[n..] else []
  {
    if n <= |s.bytes| then Stream(s.bytes[n..], s.complete) else Stream([], s.complete)
  }

  function Take(s: Stream, n: nat): (r: Stream)
    ensures r.bytes == if n <= |s.bytes| then s.bytes[..n] else s.bytes
  {
    if n <= |s.bytes| then Stream(s.bytes[..n], true) else s
  }

  function Concat(a: Stream, b: Stream): Stream {
    if a.complete then Stream(a.bytes + b.bytes, b.complete) else a
  }

  lemma DropDrop(s: Stream, m: nat, n: nat)
    requires m <= |s.bytes|
    ensures Drop(Drop(s, m), n) == Drop(s, m + n)
  {
    if m + n <= |s.bytes| {
      assert s.bytes[m..][n..] == s.bytes[m + n..];
    }
  }

  lemma TakeDrop(s: Stream, n: nat, k: nat)
    requires k <= n && k <= |s.bytes|
    ensures Drop(Take(s, n), k) == Take(Drop(s, k), n - k)
  {
    if n <= |s.bytes| {
      assert s.bytes[..n][k..] == s.bytes[k..][..n - k];
    }
  }

  lemma ConcatDrop(a: Stream, b: Stream, k: nat)
    requires k <= |a.bytes|
    ensures Drop(Concat(a, b), k) == Concat(Drop(a, k), b)
  {
    if a.complete {
      assert (a.bytes + b.bytes)[k..] == a.bytes[k..] + b.bytes;
    }
  }

  /** `out` is what came first of `all`, and `rest` is what is left. */
  ghost predicate Sent(all: Stream, out: seq<byte>, rest: Stream) {
    |out| <= |all.bytes| && out == all.bytes[..|out|] && rest == Drop(all, |out|)
  }

  lemma SentMore(all: Stream, out: seq<byte>, rest: Stream, piece: seq<byte>)
    requires Sent(all, out, rest) && piece <= rest.bytes
    ensures Sent(all, out + piece, Drop(rest, |piece|)) && out + piece <= all.bytes
  {
    DropDrop(all, |out|, |piece|);
    assert all.bytes[..|out| + |piece|] == out + piece;
  }
}
