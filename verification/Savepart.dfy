/** The synchronous saver of pkg/iobuf/savepart_reader.go: it passes a body through and hands its
    blocks to a callback, however the body is split into reads. */
module Savepart {
  import opened Streams
  import opened Arith
  import opened Readers
  import opened Assembly
  import opened Blocks

  /** Block `first` is the first whose start is at or behind `startAt`. */
  ghost predicate FirstBlock(first: nat, startAt: nat, bs: nat) {
    0 < bs && startAt <= first * bs < startAt + bs
  }

  /** The bytes received from the first block boundary on. */
  function Since(got: seq<byte>, startAt: nat, first: nat, bs: nat): seq<byte>
    requires startAt <= first * bs
  {
    var lead := first * bs - startAt;
    if |got| <= lead then [] else got[lead..]
  }

  lemma SinceGrows(got: seq<byte>, piece: seq<byte>, startAt: nat, first: nat, bs: nat)
    requires first * bs <= startAt + |got| && startAt <= first * bs
    ensures Since(got + piece, startAt, first, bs) == Since(got, startAt, first, bs) + piece
  {
  }

  /** Where a saver that is past its first boundary stands inside the block. */
  lemma InsideBlock(saved: seq<Block>, buf: seq<byte>, got: seq<byte>, startAt: nat, first: nat, bs: nat)
    requires FirstBlock(first, startAt, bs) && first * bs <= startAt + |got|
    requires Kept(saved, buf, Since(got, startAt, first, bs), first, bs)
    ensures var pos := startAt + |got|;
            && pos == (first + |saved|) * bs + |buf|
            && pos % bs == if |buf| == bs then 0 else |buf|
  {
    KeptPos(saved, buf, Since(got, startAt, first, bs), first, bs);
    var k := first + |saved|;
    if |buf| == bs {
      assert (k + 1) * bs == k * bs + bs;
      DivUnique(startAt + |got|, k + 1, bs);
    } else {
      DivUnique(startAt + |got|, k, bs);
    }
  }

  /** Where a saver that still skips stands. */
  lemma BeforeBlock(pos: nat, startAt: nat, first: nat, bs: nat)
    requires FirstBlock(first, startAt, bs) && startAt <= pos <= first * bs
    ensures if pos == first * bs then pos % bs == 0 else bs - pos % bs == first * bs - pos && pos % bs != 0
  {
    if pos == first * bs {
      DivUnique(pos, first, bs);
    } else {
      assert (first - 1) * bs == first * bs - bs;
      DivUnique(pos, first - 1, bs);
    }
  }

  lemma SentPos(saved: seq<Block>, got: seq<byte>, startAt: nat, first: nat, bs: nat)
    requires FirstBlock(first, startAt, bs) && first * bs <= startAt + |got|
    requires JustSent(saved, Since(got, startAt, first, bs), first, bs)
    ensures (startAt + |got|) % bs == 0
  {
    FlatLength(saved, bs);
    assert (first + |saved|) * bs == first * bs + |saved| * bs;
    DivUnique(startAt + |got|, first + |saved|, bs);
  }

  lemma PrefixGrows(g: seq<byte>, data: seq<byte>, a: nat, b: nat)
    requires a <= b <= |data|
    ensures g + data[..a] + data[a..b] == g + data[..b]
    ensures g <= g + data[..b] <= g + data
  {
    assert data[..a] + data[a..b] == data[..b];
    assert g + data == g + data[..b] + data[b..];
  }

  class SavepartReader {
    const R: IoReader
    const blockSize: nat
    const startAt: nat
    const mayFail: bool        // whether onSuccess may return an error
    var failed: bool           // onError was called
    var skip: bool
    var eof: bool
    var pos: nat
    var buf: seq<byte>
    var saved: seq<Block>      // the onSuccess calls that succeeded
    ghost const first: nat
    ghost var got: seq<byte>   // the bytes taken in so far

    constructor (r: IoReader, blockSize: nat, startAt: nat, mayFail: bool)
      requires 0 < blockSize && r.view.Readable() && !r.view.ended
      ensures Valid() && R == r && this.blockSize == blockSize && this.startAt == startAt && this.mayFail == mayFail
      ensures got == [] && saved == [] && !failed
    {
      R, this.blockSize, this.startAt, this.mayFail, failed := r, blockSize, startAt, mayFail, false;
      skip, eof, pos, buf, saved, got := startAt > 0, false, startAt, [], [], [];
      var k := (startAt + blockSize - 1) / blockSize;
      first := k;
      new;
      assert startAt + blockSize - 1 == k * blockSize + (startAt + blockSize - 1) % blockSize;
    }

    ghost predicate Valid()
      reads this
    {
      && FirstBlock(first, startAt, blockSize)
      && pos == startAt + |got|
      && (if skip then pos <= first * blockSize && buf == [] && saved == []
          else first * blockSize <= pos && Kept(saved, buf, Since(got, startAt, first, blockSize), first, blockSize))
    }

    /** writeBlock; the callback may fail. */
    method WriteBlock(eof: bool) returns (ok: bool)
      requires 0 < blockSize && |buf| <= pos
      modifies this`eof, this`saved, this`buf
      ensures this.eof == eof
      ensures !ok ==> mayFail && saved == old(saved) && buf == old(buf)
      ensures ok ==> buf == [] && saved == old(saved) + if old(buf) == []
                then [] else [Due(old(buf), pos, blockSize, eof)]
    {
      this.eof := eof;
      if buf == [] {
        return true;
      }
      var bad: bool := *;
      ok := !(mayFail && bad);
      if ok {
        saved := saved + [Block(buf, U32((pos - |buf|) / blockSize), pos, eof)];
        buf := [];
      }
    }

    /** The part of flush that skips to the first block boundary. */
    method SkipSome(data: seq<byte>, datapos: nat) returns (next: nat)
      requires Valid() && skip && datapos < |data|
      modifies this`skip, this`pos, this`got
      ensures Valid() && datapos <= next <= |data| && got == old(got) + data[datapos..next]
      ensures datapos < next || !skip
    {
      var from := pos % blockSize;
      var to := blockSize - from;
      BeforeBlock(pos, startAt, first, blockSize);
      next := datapos;
      if from != 0 {
        var k := Min(to, |data| - datapos);
        next := datapos + k;
        pos := pos + k;
        got := got + data[datapos..next];
      } else {
        skip := false;
        assert Since(got, startAt, first, blockSize) == [];
        assert data[datapos..next] == [] && got + [] == got;
      }
    }

    /** There is room in the buffer: it was partly filled, or is empty after a full one was saved. */
    ghost predicate Roomy()
      reads this
    {
      && FirstBlock(first, startAt, blockSize) && !skip
      && pos == startAt + |got| && first * blockSize <= pos && |buf| < blockSize
      && var r := Since(got, startAt, first, blockSize);
         if buf == [] then JustSent(saved, r, first, blockSize) else Kept(saved, buf, r, first, blockSize)
    }

    /** The part of flush that saves a full buffer. */
    method SaveFull(eof: bool) returns (ok: bool)
      requires Valid() && !skip
      modifies this`eof, this`saved, this`buf
      ensures ok ==> Roomy()
      ensures !ok ==> mayFail && Valid()
    {
      ok := true;
      if |buf| == blockSize {
        ghost var was, b := saved, buf;
        InsideBlock(saved, buf, got, startAt, first, blockSize);
        ok := WriteBlock(eof);
        if ok {
          DuePlaced(b, pos, blockSize, eof, first + |was|);
          KeptSend(was, b, Since(got, startAt, first, blockSize), first, blockSize, saved[|was|]);
        }
      }
    }

    /** The part of flush that copies bytes into the buffer, up to the end of the block. */
    method AppendSome(data: seq<byte>, datapos: nat) returns (next: nat)
      requires Roomy() && datapos < |data|
      modifies this`buf, this`pos, this`got
      ensures Valid() && datapos < next <= |data| && got == old(got) + data[datapos..next]
    {
      var from := pos % blockSize;
      var to := blockSize - from;
      ghost var r := Since(got, startAt, first, blockSize);
      if buf == [] {
        SentPos(saved, got, startAt, first, blockSize);
      } else {
        InsideBlock(saved, buf, got, startAt, first, blockSize);
      }
      var tow := Min(to, |data| - datapos);
      next := datapos + tow;
      var piece := data[datapos..next];
      SinceGrows(got, piece, startAt, first, blockSize);
      if buf == [] {
        SentGrow(saved, r, first, blockSize, piece);
        assert buf + piece == piece;
      } else {
        KeptGrow(saved, buf, r, first, blockSize, piece);
      }
      buf := buf + piece;
      pos := pos + tow;
      got := got + piece;
    }

    /** After the end of the body: every byte from the first boundary on is in a block. */
    ghost predicate Final()
      reads this
    {
      && FirstBlock(first, startAt, blockSize)
      && buf == [] && Complete(saved, Since(got, startAt, first, blockSize), first, blockSize)
    }

    /** flush */
    method Flush(data: seq<byte>, eof: bool) returns (ok: bool)
      requires Valid()
      modifies this`skip, this`eof, this`saved, this`buf, this`pos, this`got
      ensures !ok ==> mayFail && Valid() && old(got) <= got <= old(got) + data
      ensures ok ==> got == old(got) + data && if eof then Final() else Valid()
    {
      var datapos := 0;
      while datapos < |data|
        invariant datapos <= |data| && Valid() && got == old(got) + data[..datapos]
        decreases |data| - datapos, skip
      {
        ghost var before := datapos;
        ok := true;
        if skip {
          datapos := SkipSome(data, datapos);
        } else {
          ok := SaveFull(eof);
          if ok {
            datapos := AppendSome(data, datapos);
          }
        }
        PrefixGrows(old(got), data, before, datapos);
        if !ok {
          return;
        }
      }
      assert data[..datapos] == data;
      ok := true;
      if eof {
        ok := Finish();
      }
    }

    /** The last writeBlock of flush at the end of the body. */
    method Finish() returns (ok: bool)
      requires Valid()
      modifies this`eof, this`saved, this`buf
      ensures !ok ==> mayFail && Valid()
      ensures ok ==> Final()
    {
      ghost var s, was, b := Since(got, startAt, first, blockSize), saved, buf;
      if !skip {
        InsideBlock(saved, buf, got, startAt, first, blockSize);
      }
      ok := WriteBlock(true);
      if b == [] {
        if !skip {
          KeptEmpty(was, s, first, blockSize);
        }
      } else if ok {
        DuePlaced(b, pos, blockSize, true, first + |was|);
        KeptFinish(was, b, s, first, blockSize, saved[|was|]);
      }
    }

    /** The saver seen as an io.Reader: it passes its source through. */
    function AsReader(): View
      reads this, R
    {
      R.view.(reliable := R.view.reliable && !mayFail)
    }

    /** Read: what the source delivers, and every byte of it also goes to the saver. */
    method Read(cap: nat) returns (out: seq<byte>, err: Outcome)
      requires Valid() && R.view.Readable()
      modifies this, R
      ensures Reads(old(AsReader()), cap, out, err, AsReader()) && R.view.reliable == old(R.view.reliable)
      ensures err == More ==> Valid() && R.view.Readable() && got == old(got) + out && failed == old(failed)
      ensures err == Eof && !failed ==> Final() && got == old(got) + out
      ensures failed && !old(failed) ==> mayFail || !old(R.view.reliable)
    {
      out, err := R.Read(cap);
      if err == Eof {
        var ok := Flush(out, true);
        failed := failed || !ok;
      } else if err == Failed {
        failed := true;
        out := [];
      } else {
        var ok := Flush(out, false);
        if !ok {
          failed := true;
          err := Failed;
        }
      }
    }

    /** Reading to the end, with any sizes of reads: the client gets the body, and the callback
        gets the blocks of its bytes from the first boundary on, numbered from there. */
    method ReadAll() returns (out: seq<byte>, ok: bool)
      requires Valid() && R.view.Readable() && got == [] && !failed
      modifies this, R
      ensures ok ==> Stream(out, true) == old(R.view.rest)
      ensures !ok ==> mayFail || !old(R.view.reliable)
      ensures ok && !failed ==>
                && Complete(saved, Since(out, startAt, first, blockSize), first, blockSize)
                && Bufs(saved) == Cut(Since(out, startAt, first, blockSize), blockSize)
    {
      ghost var all := R.view.rest;
      out := [];
      while true
        invariant Valid() && R.view.Readable() && !failed && got == out
        invariant R.view.reliable == old(R.view.reliable)
        invariant Sent(all, out, R.view.rest)
        decreases R.view.work
      {
        var cap :| 0 < cap;
        ghost var before := R.view.rest;
        var piece, err := Read(cap);
        SentMore(all, out, before, piece);
        out := out + piece;
        if err != More {
          if err == Eof && !failed {
            CompleteIsCut(saved, Since(out, startAt, first, blockSize), first, blockSize);
          }
          return out, err == Eof;
        }
      }
    }
  }
}
