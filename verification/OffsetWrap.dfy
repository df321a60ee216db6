/** Chunk offsets are computed in uint32. For objects of fewer than 2^32 chunks, range responses
    are right for every cache and origin exactly when the last requested chunk's offset fits. */
module OffsetWrap {
  import opened Streams
  import opened Arith
  import opened Assembly
  import opened AssemblyProof

  /** All zeros but for a one at `p`. */
  function Marked(size: nat, p: nat): (obj: seq<byte>)
    ensures |obj| == size && forall j :: 0 <= j < size ==> obj[j] == if j == p then 1 else 0
  {
    seq(size, j => if j == p then 1 else 0)
  }

  function Honest(obj: seq<byte>): (nat, nat) -> Stream {
    (a: nat, b: nat) => if a <= b && a < |obj| then Stream(obj[a..Min(b + 1, |obj|)], true) else Stream([], false)
  }

  /** Chunks first..x-1 are cached, nothing else is, and the origin answers. */
  function Cached(obj: seq<byte>, bs: nat, first: nat, x: nat): World {
    World(|obj|, bs, (i: nat) => if first <= i < x then File(Chunk(obj, bs, i)) else Missing, [], Honest(obj))
  }

  lemma CachedSound(obj: seq<byte>, bs: nat, first: nat, x: nat)
    requires 0 < bs && 0 < |obj|
    ensures Sound(Cached(obj, bs, first, x), obj)
  {
  }

  /** The first chunk, from `first` on, whose offset does not fit. */
  function FirstUnfit(first: nat, bs: nat): (x: nat)
    requires 0 < bs
    ensures first <= x && TWO32 <= x * bs
    ensures first < x ==> (x - 1) * bs < TWO32
  {
    var q := (TWO32 + bs - 1) / bs;
    assert q * bs >= TWO32 && (q - 1) * bs < TWO32;
    if first <= q then q else MulMonotone(q, first, bs); first
  }

  /** The turn at j adds the object up to the next position, and takes one chunk. */
  ghost predicate PlainTurn(turn: nat -> Piece, j: nat, pos: nat -> nat, obj: seq<byte>) {
    var k := j + 1;
    pos(j) <= pos(k) <= |obj| && turn(j) == Piece(Stream(obj[pos(j)..pos(k)], true), 1)
  }

  /** A complete piece that begins with another byte than the object has at p. */
  ghost predicate Off(t: Piece, count: nat, obj: seq<byte>, p: nat)
    requires p < |obj|
  {
    t.Piece? && t.count == count && t.s.complete && 0 < |t.s.bytes| && t.s.bytes[0] != obj[p]
  }

  ghost predicate PlainTurns(turn: nat -> Piece, m: nat, pos: nat -> nat, obj: seq<byte>) {
    forall j: nat :: j < m ==> PlainTurn(turn, j, pos, obj)
  }

  lemma {:induction false} AssembleTail(turn: nat -> Piece, i: nat, m: nat, n: nat, pos: nat -> nat, obj: seq<byte>,
                                        tail: seq<byte>)
    requires i <= m < n && pos(m) <= |obj|
    requires PlainTurns(turn, m, pos, obj)
    requires turn(m) == Piece(Stream(tail, true), n - m)
    ensures pos(i) <= pos(m) && Assemble(turn, i, n) == Body(Stream(obj[pos(i)..pos(m)] + tail, true))
    decreases m - i
  {
    if i < m {
      assert PlainTurn(turn, i, pos, obj);
      AssembleTail(turn, i + 1, m, n, pos, obj, tail);
      var a, b, c := pos(i), pos(i + 1), pos(m);
      assert obj[a..b] + (obj[b..c] + tail) == obj[a..c] + tail;
    } else {
      assert Assemble(turn, n, n) == Body(Done);
      assert tail + [] == obj[pos(m)..pos(m)] + tail;
    }
  }

  lemma CachedContents(obj: seq<byte>, end: nat, bs: nat, req: seq<nat>, first: nat, x: nat, j: nat)
    requires 0 < bs && 0 < |obj| && j < |req| && first <= req[j] < x && req[j] < |obj| / bs < TWO32
    requires req[j] * bs + bs <= |obj|
    ensures GetContents(Cached(obj, bs, first, x), req, j, end) == Piece(Stream(Chunk(obj, bs, req[j]), true), 1)
  {
    SmallU32(|obj| / bs);
  }

  /** Positions before the unfit chunk are served from their files. */
  lemma CachedTurn(obj: seq<byte>, start: nat, end: nat, bs: nat, req: seq<nat>, first: nat, last: nat, x: nat, j: nat)
    requires Request(req, start, end, bs, first, last) && end < |obj| && x <= last
    requires |obj| / bs < TWO32 && j < x - first
    ensures var lo, hi := Pos(j, |req|, first, start, end, bs), Pos(j + 1, |req|, first, start, end, bs);
            && lo <= hi <= |obj|
            && Turn(Cached(obj, bs, first, x), req, start, end, j) == Piece(Stream(obj[lo..hi], true), 1)
  {
    var k := first + j;
    var data := Chunk(obj, bs, k);
    NextChunk(k, last, bs);
    FullChunk(k, bs, |obj|);
    CachedContents(obj, end, bs, req, first, x, j);
    var hi := FilePiece(obj, end, bs, k, last, data);
    TrimmedPiece(Piece(Stream(data, true), 1), obj, j, |req|, start, end, bs, first, last, hi);
  }

  lemma FullChunk(k: nat, bs: nat, size: nat)
    requires 0 < bs && k * bs + bs <= size
    ensures k < size / bs
  {
    assert size < size / bs * bs + bs;
    if size / bs <= k {
      MulMonotone(size / bs, k, bs);
    }
  }

  /** The range fetched for an unfit chunk begins at a wrong place. */
  lemma UnfitRange(obj: seq<byte>, end: nat, bs: nat, x: nat, last: nat, count: nat)
    requires 0 < bs && end < |obj| <= MAX64 && LastChunk(last, end, bs)
    requires x <= last < TWO32 && TWO32 <= x * bs
    ensures Offset(x, bs) < TWO32 <= x * bs <= end
    ensures Min(|obj| - 1, Min(Before(U32(last + 1) * bs), end)) == end
  {
    MulMonotone(x, last, bs);
    assert end < (last + 1) * bs;
    if last + 1 < TWO32 {
      SmallU32(last + 1);
    }
  }

  lemma UnfitContents(obj: seq<byte>, end: nat, bs: nat, req: seq<nat>, m: nat, first: nat, x: nat, last: nat)
    requires 0 < bs && end < |obj| <= MAX64 && LastChunk(last, end, bs)
    requires x <= last < TWO32 && TWO32 <= x * bs
    requires m < |req| && req[m] == x && req[|req| - 1] == last
    ensures var fb := Offset(x, bs);
            fb <= end && GetContents(Cached(obj, bs, first, x), req, m, end) ==
                Piece(Stream(obj[fb..end + 1], true), |req| - m)
  {
    UnfitRange(obj, end, bs, x, last, |req| - m);
  }

  /** Of what was fetched from `fb` on, the byte that should be at `p` comes from before it. */
  lemma UnfitTrim(obj: seq<byte>, start: nat, end: nat, bs: nat, m: nat, n: nat, first: nat, last: nat, fb: nat, p: nat)
    requires 0 < bs && start <= end < |obj| && first * bs <= start < first * bs + bs && LastChunk(last, end, bs)
    requires m < n == last - first + 1 && p == Lo(m, first, start, bs) <= end && fb < (first + m) * bs
    ensures var s := Trim(Piece(Stream(obj[fb..end + 1], true), n - m), m, n, start, end, bs);
            s.complete && |s.bytes| == end + 1 - p && exists q :: 0 <= q < p && s.bytes[0] == obj[q]
  {
    var head := Head(m, start, bs);
    if m == 0 {
      DivUnique(start, first, bs);
    }
    TailLimit(m, n - m, start, end, bs, first, last);
    assert Skipped(Stream(obj[fb..end + 1], true), head).bytes == obj[fb + head..end + 1];
    assert obj[fb + head..end + 1][..end + 1 - p][0] == obj[fb + head];
  }

  lemma UnfitTurn(obj: seq<byte>, start: nat, end: nat, bs: nat, req: seq<nat>, first: nat, last: nat, x: nat,
                  p: nat, t: Piece)
    requires Request(req, start, end, bs, first, last) && end < |obj| <= MAX64
    requires first <= x <= last < TWO32 && TWO32 <= x * bs
    requires p == Lo(x - first, first, start, bs) <= end && forall q :: 0 <= q < p ==> obj[q] != obj[p]
    requires t == Turn(Cached(obj, bs, first, x), req, start, end, x - first)
    ensures Off(t, |req| - (x - first), obj, p)
  {
    var m := x - first;
    UnfitContents(obj, end, bs, req, m, first, x, last);
    UnfitRange(obj, end, bs, x, last, |req| - m);
    UnfitTrim(obj, start, end, bs, m, |req|, first, last, Offset(x, bs), p);
  }

  /** The first unfit chunk is requested, and where its wanted bytes begin. */
  lemma UnfitPlace(start: nat, end: nat, bs: nat, first: nat, last: nat)
    requires 0 < bs && start <= end && first * bs <= start < first * bs + bs && LastChunk(last, end, bs)
    requires TWO32 <= last * bs && first <= last
    ensures var x := FirstUnfit(first, bs);
            && first <= x <= last && start <= Lo(x - first, first, start, bs) <= end
            && Lo(x - first, first, start, bs) == Pos(x - first, last - first + 1, first, start, end, bs)
  {
    var x := FirstUnfit(first, bs);
    if last < x {
      MulMonotone(last, x - 1, bs);
    }
    MulMonotone(x, last, bs);
    if first < x {
      NextChunk(first, x, bs);
    }
  }

  /** With an offset that does not fit, some cache and object give a complete, wrong response. */
  lemma UnfitWrong(start: nat, end: nat, size: nat, bs: nat) returns (w: World, obj: seq<byte>)
    requires 0 < bs && start <= end < size <= MAX64 && size / bs < TWO32 && !Fits(end, bs)
    ensures Sound(w, obj) && w.size == size && w.blockSize == bs
    ensures var r := Respond(w, start, end); r.Body? && r.s.complete && r.s.bytes != obj[start..end + 1]
  {
    DivMonotone(end, size, bs);
    IndexesRequest(start, end, bs);
    UnfitPlace(start, end, bs, start / bs, end / bs);
    w, obj := UnfitCase(start, end, size, bs, Indexes(start, end, bs), start / bs, end / bs);
  }

  lemma UnfitCase(start: nat, end: nat, size: nat, bs: nat, req: seq<nat>, first: nat, last: nat)
    returns (w: World, obj: seq<byte>)
    requires Request(req, start, end, bs, first, last) && end < size <= MAX64 && size / bs < TWO32
    requires last < TWO32 <= last * bs
    ensures Sound(w, obj) && w.size == size && w.blockSize == bs
    ensures var r := Assemble((i: nat) => Turn(w, req, start, end, i), 0, |req|);
            r.Body? && r.s.complete && r.s.bytes != obj[start..end + 1]
  {
    UnfitPlace(start, end, bs, first, last);
    var x := FirstUnfit(first, bs);
    var m := x - first;
    var p := Lo(m, first, start, bs);
    obj := Marked(size, p);
    w := Cached(obj, bs, first, x);
    CachedSound(obj, bs, first, x);
    UnfitBody(obj, start, end, bs, req, first, last, x, p, (i: nat) => Turn(w, req, start, end, i));
  }

  lemma UnfitBody(obj: seq<byte>, start: nat, end: nat, bs: nat, req: seq<nat>, first: nat, last: nat, x: nat,
                  p: nat, turn: nat -> Piece)
    requires Request(req, start, end, bs, first, last) && end < |obj| <= MAX64 && |obj| / bs < TWO32
    requires first <= x <= last < TWO32 <= x * bs && start <= p <= end
    requires p == Lo(x - first, first, start, bs) == Pos(x - first, |req|, first, start, end, bs)
    requires forall q :: 0 <= q < p ==> obj[q] != obj[p]
    requires Turns(turn, Cached(obj, bs, first, x), req, start, end)
    ensures var r := Assemble(turn, 0, |req|); r.Body? && r.s.complete && r.s.bytes != obj[start..end + 1]
  {
    var pos := (i: nat) => Pos(i, |req|, first, start, end, bs);
    WrongTurns(obj, start, end, bs, req, first, last, x, p, turn, pos);
    WrongBody(turn, x - first, |req|, pos, obj, start, p, end);
  }

  /** Right turns up to `p`, then one that begins with another byte. */
  ghost predicate Wrong(turn: nat -> Piece, m: nat, n: nat, pos: nat -> nat, obj: seq<byte>, start: nat, p: nat,
                        end: nat) {
    && m < n && pos(0) == start <= pos(m) == p <= end < |obj|
    && PlainTurns(turn, m, pos, obj)
    && Off(turn(m), n - m, obj, p)
  }

  lemma WrongTurns(obj: seq<byte>, start: nat, end: nat, bs: nat, req: seq<nat>, first: nat, last: nat, x: nat, p: nat,
                   turn: nat -> Piece, pos: nat -> nat)
    requires Request(req, start, end, bs, first, last) && end < |obj| <= MAX64 && |obj| / bs < TWO32
    requires first <= x <= last < TWO32 <= x * bs && start <= p <= end
    requires p == Lo(x - first, first, start, bs) == Pos(x - first, |req|, first, start, end, bs)
    requires forall q :: 0 <= q < p ==> obj[q] != obj[p]
    requires Turns(turn, Cached(obj, bs, first, x), req, start, end)
    requires Positions(pos, |req|, first, start, end, bs)
    ensures Wrong(turn, x - first, |req|, pos, obj, start, p, end)
  {
    CachedTurns(obj, start, end, bs, req, first, last, x, turn, pos);
    UnfitTurn(obj, start, end, bs, req, first, last, x, p, turn(x - first));
  }

  lemma WrongBody(turn: nat -> Piece, m: nat, n: nat, pos: nat -> nat, obj: seq<byte>, start: nat, p: nat, end: nat)
    requires Wrong(turn, m, n, pos, obj, start, p, end)
    ensures var r := Assemble(turn, 0, n); r.Body? && r.s.complete && r.s.bytes != obj[start..end + 1]
  {
    AssembleTail(turn, 0, m, n, pos, obj, turn(m).s.bytes);
    DifferAt(obj[start..p], turn(m).s.bytes, obj[start..end + 1]);
  }

  lemma DifferAt(a: seq<byte>, b: seq<byte>, c: seq<byte>)
    requires |a| < |c| && 0 < |b| && b[0] != c[|a|]
    ensures a + b != c
  {
    assert (a + b)[|a|] == b[0];
  }

  lemma CachedTurns(obj: seq<byte>, start: nat, end: nat, bs: nat, req: seq<nat>, first: nat, last: nat, x: nat,
                    turn: nat -> Piece, pos: nat -> nat)
    requires Request(req, start, end, bs, first, last) && end < |obj| && first <= x <= last && |obj| / bs < TWO32
    requires Turns(turn, Cached(obj, bs, first, x), req, start, end)
    requires Positions(pos, |req|, first, start, end, bs)
    ensures PlainTurns(turn, x - first, pos, obj)
  {
    forall j: nat | j < x - first ensures PlainTurn(turn, j, pos, obj) {
      CachedTurn(obj, start, end, bs, req, first, last, x, j);
    }
  }

  /** The exact condition: responses are right for every cache and origin iff the offset of the
      last requested chunk fits a uint32. */
  lemma RightIffFits(start: nat, end: nat, size: nat, bs: nat)
    requires 0 < bs && start <= end < size <= MAX64 && size / bs < TWO32
    ensures Fits(end, bs) <==>
            forall w: World, obj: seq<byte> :: Sound(w, obj) && w.size == size && w.blockSize == bs ==>
              var r := Respond(w, start, end); r.Body? ==> Faithful(r.s, obj[start..end + 1])
  {
    if Fits(end, bs) {
      forall w: World, obj: seq<byte> | Sound(w, obj) && w.size == size && w.blockSize == bs
        ensures var r := Respond(w, start, end); r.Body? ==> Faithful(r.s, obj[start..end + 1])
      {
        RespondRight(w, obj, start, end);
      }
    } else {
      var w, obj := UnfitWrong(start, end, size, bs);
      assert Sound(w, obj);
    }
  }

  /** A five-gigabyte object in one-megabyte chunks: byte 2^32 is read from byte 0. */
  lemma FiveGigabytes()
    ensures !Fits(TWO32, 0x10_0000) && Offset(TWO32 / 0x10_0000, 0x10_0000) == 0
  {
  }
}
