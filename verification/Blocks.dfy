/** How a byte stream that begins somewhere in an object is cut into the object's blocks. Both
    savers of pkg/iobuf are proved against these definitions. */
module Blocks {
  import opened Streams
  import opened Arith
  import opened Assembly

  /** One onSuccess call: the bytes, the block number as uint32, the position behind them, eof. */
  datatype Block = Block(buf: seq<byte>, index: nat, pos: nat, eof: bool)

  function Flat(blocks: seq<Block>): seq<byte> {
    if blocks == [] then [] else blocks[0].buf + Flat(blocks[1..])
  }

  /** Block j of a saver that began with block number `first` starts at a multiple of bs. */
  ghost predicate Placed(b: Block, k: nat, bs: nat) {
    0 < |b.buf| <= bs && b.index == U32(k) && b.pos == k * bs + |b.buf|
  }

  /** While bytes come in: what was saved are full, consecutive blocks from `first` on, and with
      the buffer they make up all the bytes `s` since the first block boundary. A full buffer is
      only saved when the next byte comes. */
  ghost predicate Kept(saved: seq<Block>, buf: seq<byte>, s: seq<byte>, first: nat, bs: nat) {
    && Flat(saved) + buf == s
    && |buf| <= bs && (buf == [] ==> saved == [])
    && forall j :: 0 <= j < |saved| ==> Placed(saved[j], first + j, bs) && |saved[j].buf| == bs
  }

  /** After the last byte: nothing is left over, and only the last block may be short. */
  ghost predicate Complete(saved: seq<Block>, s: seq<byte>, first: nat, bs: nat) {
    && Flat(saved) == s
    && (forall j :: 0 <= j < |saved| ==> Placed(saved[j], first + j, bs))
    && forall j :: 0 <= j < |saved| - 1 ==> |saved[j].buf| == bs
  }

  lemma {:induction false} FlatLength(saved: seq<Block>, bs: nat)
    requires forall j :: 0 <= j < |saved| ==> |saved[j].buf| == bs
    ensures |Flat(saved)| == |saved| * bs
  {
    if saved != [] {
      FlatLength(saved[1..], bs);
      assert |saved| * bs == (|saved| - 1) * bs + bs;
    }
  }

  lemma {:induction false} FlatAppend(saved: seq<Block>, b: Block)
    ensures Flat(saved + [b]) == Flat(saved) + b.buf
  {
    if saved == [] {
      assert saved + [b] == [b] && [b][1..] == [];
      assert Flat([b]) == b.buf + [];
    } else {
      FlatAppend(saved[1..], b);
      assert (saved + [b])[1..] == saved[1..] + [b];
    }
  }

  lemma {:induction false} FlatSplit(saved: seq<Block>, j: nat)
    requires j < |saved|
    ensures Flat(saved) == Flat(saved[..j]) + (saved[j].buf + Flat(saved[j + 1..]))
  {
    if 0 < j {
      var more := saved[1..];
      FlatSplit(more, j - 1);
      assert saved[..j][1..] == more[..j - 1] && saved[j + 1..] == more[j..];
      var b, x, y := saved[0].buf, Flat(more[..j - 1]), more[j - 1].buf + Flat(more[j..]);
      assert b + (x + y) == (b + x) + y;
    } else {
      assert Flat(saved[..0]) == [];
    }
  }

  lemma KeptGrow(saved: seq<Block>, buf: seq<byte>, s: seq<byte>, first: nat, bs: nat, piece: seq<byte>)
    requires Kept(saved, buf, s, first, bs) && 0 < |piece| && |buf| + |piece| <= bs
    ensures Kept(saved, buf + piece, s + piece, first, bs)
  {
    assert Flat(saved) + (buf + piece) == Flat(saved) + buf + piece;
  }

  /** The block that is due, once the buffer is full. */
  function Due(buf: seq<byte>, pos: nat, bs: nat, eof: bool): Block
    requires 0 < bs && |buf| <= pos
  {
    Block(buf, U32((pos - |buf|) / bs), pos, eof)
  }

  lemma DuePlaced(buf: seq<byte>, pos: nat, bs: nat, eof: bool, k: nat)
    requires 0 < |buf| <= bs && pos == k * bs + |buf|
    ensures Placed(Due(buf, pos, bs, eof), k, bs)
  {
    DivUnique(k * bs, k, bs);
  }

  lemma KeptPos(saved: seq<Block>, buf: seq<byte>, s: seq<byte>, first: nat, bs: nat)
    requires Kept(saved, buf, s, first, bs)
    ensures first * bs + |s| == (first + |saved|) * bs + |buf|
  {
    FlatLength(saved, bs);
    assert (first + |saved|) * bs == first * bs + |saved| * bs;
  }

  /** A full buffer was just sent and the byte that made it due is still to come. */
  ghost predicate JustSent(saved: seq<Block>, r: seq<byte>, first: nat, bs: nat) {
    Flat(saved) == r && forall j :: 0 <= j < |saved| ==> Placed(saved[j], first + j, bs) && |saved[j].buf| == bs
  }

  lemma KeptSend(saved: seq<Block>, buf: seq<byte>, r: seq<byte>, first: nat, bs: nat, b: Block)
    requires Kept(saved, buf, r, first, bs) && |buf| == bs
    requires Placed(b, first + |saved|, bs) && b.buf == buf
    ensures JustSent(saved + [b], r, first, bs)
  {
    FlatAppend(saved, b);
  }

  lemma SentGrow(saved: seq<Block>, r: seq<byte>, first: nat, bs: nat, piece: seq<byte>)
    requires JustSent(saved, r, first, bs) && 0 < |piece| <= bs
    ensures Kept(saved, piece, r + piece, first, bs)
  {
  }

  lemma KeptFinish(saved: seq<Block>, buf: seq<byte>, s: seq<byte>, first: nat, bs: nat, b: Block)
    requires Kept(saved, buf, s, first, bs) && 0 < |buf|
    requires Placed(b, first + |saved|, bs) && b.buf == buf
    ensures Complete(saved + [b], s, first, bs)
  {
    FlatAppend(saved, b);
  }

  lemma KeptEmpty(saved: seq<Block>, s: seq<byte>, first: nat, bs: nat)
    requires Kept(saved, [], s, first, bs)
    ensures saved == [] && s == [] && Complete(saved, s, first, bs)
  {
  }

  /** The same cut written down directly: the pieces of `s` in blocks of bs bytes. */
  function Cut(s: seq<byte>, bs: nat): seq<seq<byte>>
    requires 0 < bs
  {
    if |s| <= bs then (if s == [] then [] else [s]) else [s[..bs]] + Cut(s[bs..], bs)
  }

  function Bufs(blocks: seq<Block>): seq<seq<byte>> {
    seq(|blocks|, i requires 0 <= i < |blocks| => blocks[i].buf)
  }

  /** The blocks behind the first are a saver's that began one block later. */
  lemma Rest(saved: seq<Block>, first: nat, bs: nat)
    requires 0 < |saved| && forall j :: 0 <= j < |saved| ==> Placed(saved[j], first + j, bs)
    ensures forall j :: 0 <= j < |saved[1..]| ==> Placed(saved[1..][j], first + 1 + j, bs)
  {
    forall j | 0 <= j < |saved[1..]| ensures Placed(saved[1..][j], first + 1 + j, bs) {
      assert Placed(saved[1 + j], first + (1 + j), bs);
    }
  }

  /** Completeness determines the blocks: they are the cut of what came in. */
  lemma {:induction false} CompleteIsCut(saved: seq<Block>, s: seq<byte>, first: nat, bs: nat)
    requires 0 < bs && Complete(saved, s, first, bs)
    ensures Bufs(saved) == Cut(s, bs)
    decreases |saved|
  {
    if |saved| == 1 {
      assert Flat(saved[1..]) == [];
      assert s == saved[0].buf;
    } else if 1 < |saved| {
      var b, more := saved[0].buf, saved[1..];
      assert s == b + Flat(more) && s[bs..] == Flat(more) && s[..bs] == b;
      assert Flat(more) == more[0].buf + Flat(more[1..]);
      Rest(saved, first, bs);
      CompleteIsCut(more, s[bs..], first + 1, bs);
      assert Bufs(saved) == [b] + Bufs(more);
    }
  }
}
