/** What of an assembled response the server sends. It copies the body with io.Copy, which is the
    WriteTo of the parts reader, and that ends behind the first part that is itself a parts reader. */
module Sending {
  import opened Streams
  import opened Search
  import opened Arith
  import opened Assembly
  import opened AssemblyProof
  import opened OffsetWrap
  import opened Hidden

  /** The turn at position i takes an anchor, and its reader, upstream and file joined, is neither
      skipped into nor limited. */
  predicate Bare(w: World, req: seq<nat>, start: nat, i: nat)
    requires 0 < w.blockSize
  {
    && i < |req| && Head(i, start, w.blockSize) == 0
    && var plan := Choose(w, req[i], req[|req| - 1]);
       plan.FromAnchor? && i + (plan.a - req[i] + 1) != |req|
  }

  /** What is sent of the turns from position i to n, when all of them succeed. */
  function SentFrom(turn: nat -> Piece, bare: nat -> bool, i: nat, n: nat): Body
    decreases n - i
  {
    if i >= n then Body(Done)
    else
      match turn(i)
      case Error => Refused
      case Piece(s, count) =>
        if count == 0 then Refused
        else
          match SentFrom(turn, bare, i + count, n)
          case Refused => Refused
          case Body(t) => Body(if bare(i) then s else Concat(s, t))
  }

  /** What the server sends of the response to bytes start..end. */
  function RespondSent(w: World, start: nat, end: nat): Body
    requires 0 < w.blockSize && 0 < w.size && start <= end
  {
    var req := Indexes(start, end, w.blockSize);
    SentFrom((i: nat) => Turn(w, req, start, end, i), (i: nat) => Bare(w, req, start, i), 0, |req|)
  }

  /** `bare` tells the bare turns, as a fact behind a name. */
  ghost predicate HasBares(bare: nat -> bool, w: World, req: seq<nat>, start: nat)
    requires 0 < w.blockSize
  {
    forall t {:trigger Shown(t)} :: Shown(t) ==> forall i: nat :: bare(i) == Bare(w, req, start, i)
  }

  ghost function BaresOf(bare: nat -> bool, w: World, req: seq<nat>, start: nat): Option<nat -> bool>
    requires 0 < w.blockSize
  {
    if HasBares(bare, w, req, start) then Some(bare) else None
  }

  lemma MakeBares(bare: nat -> bool, w: World, req: seq<nat>, start: nat)
    requires 0 < w.blockSize && forall i: nat :: bare(i) == Bare(w, req, start, i)
    ensures BaresOf(bare, w, req, start).Some?
  {
  }

  lemma BaresAt(bare: nat -> bool, w: World, req: seq<nat>, start: nat, i: nat)
    requires 0 < w.blockSize && BaresOf(bare, w, req, start).Some?
    ensures bare(i) == Bare(w, req, start, i)
  {
    assert Shown(0);
  }

  /** The loop of lazilyRespond comes to position k. */
  predicate Visits(turn: nat -> Piece, i: nat, n: nat, k: nat)
    decreases n - i
  {
    && i < n
    && (k == i || (turn(i).Piece? && 0 < turn(i).count && Visits(turn, i + turn(i).count, n, k)))
  }

  /** No turn takes an anchor, other than the last one or a first one that is skipped into. */
  ghost predicate NoBareTurn(w: World, start: nat, end: nat)
    requires 0 < w.blockSize && 0 < w.size && start <= end
  {
    var req := Indexes(start, end, w.blockSize);
    forall k: nat :: Visits((i: nat) => Turn(w, req, start, end, i), 0, |req|, k) ==> !Bare(w, req, start, k)
  }

  /** The loop is refused or not whatever is sent. */
  lemma {:induction false} SentIfAssembled(turn: nat -> Piece, bare: nat -> bool, i: nat, n: nat)
    ensures SentFrom(turn, bare, i, n).Body? <==> Assemble(turn, i, n).Body?
    decreases n - i
  {
    if i < n && turn(i).Piece? && 0 < turn(i).count {
      SentIfAssembled(turn, bare, i + turn(i).count, n);
    }
  }

  lemma {:induction false} AllSent(turn: nat -> Piece, bare: nat -> bool, i: nat, n: nat)
    requires forall k: nat :: Visits(turn, i, n, k) ==> !bare(k)
    ensures SentFrom(turn, bare, i, n) == Assemble(turn, i, n)
    decreases n - i
  {
    if i < n && turn(i).Piece? && 0 < turn(i).count {
      assert Visits(turn, i, n, i);
      AllSent(turn, bare, i + turn(i).count, n);
    }
  }

  /** A bare turn ends before the last position. */
  ghost predicate EndsEarly(turn: nat -> Piece, bare: nat -> bool, j: nat, n: nat, pos: nat -> nat) {
    bare(j) && turn(j).Piece? ==> var k := j + turn(j).count; pos(k) < pos(n)
  }

  lemma SentPiece(s: Stream, t: Stream, obj: seq<byte>, lo: nat, mid: nat, hi: nat)
    requires Covers(s, obj, lo, mid) && mid <= hi <= |obj| && t.bytes <= obj[mid..hi]
    ensures Concat(s, t).bytes <= obj[lo..hi] && s.bytes <= obj[lo..hi]
    ensures Concat(s, t).complete ==> |Concat(s, t).bytes| == mid - lo + |t.bytes|
  {
    assert obj[lo..mid] + obj[mid..hi] == obj[lo..hi];
  }

  /** What is sent is a beginning of the requested bytes, and not all of them if a bare turn was met. */
  lemma {:induction false} SentCovers(turn: nat -> Piece, bare: nat -> bool, i: nat, n: nat, pos: nat -> nat,
                                      obj: seq<byte>)
    requires i <= n && pos(i) <= pos(n) <= |obj|
    requires forall j: nat :: j < n ==> GoodTurn(turn, j, n, pos, obj) && EndsEarly(turn, bare, j, n, pos)
    requires forall j: nat :: j <= n ==> pos(j) <= pos(n)
    ensures var r := SentFrom(turn, bare, i, n);
            r.Body? ==>
              && r.s.bytes <= obj[pos(i)..pos(n)]
              && (r.s.complete && (exists k: nat :: Visits(turn, i, n, k) && bare(k)) ==>
                  |r.s.bytes| < pos(n) - pos(i))
    decreases n - i
  {
    var r := SentFrom(turn, bare, i, n);
    if i < n && r.Body? {
      assert GoodTurn(turn, i, n, pos, obj) && EndsEarly(turn, bare, i, n, pos);
      var j := i + turn(i).count;
      SentCovers(turn, bare, j, n, pos, obj);
      var t := SentFrom(turn, bare, j, n).s;
      SentPiece(turn(i).s, t, obj, pos(i), pos(j), pos(n));
      if r.s.complete && !bare(i) && exists k: nat :: Visits(turn, i, n, k) && bare(k) {
        var k: nat :| Visits(turn, i, n, k) && bare(k);
        assert Visits(turn, j, n, k);
      }
    }
  }

  lemma PosBefore(j: nat, n: nat, first: nat, last: nat, start: nat, end: nat, bs: nat)
    requires 0 < bs && n == last - first + 1 && first * bs <= start <= end && LastChunk(last, end, bs) && j < n
    ensures Pos(j, n, first, start, end, bs) < Pos(n, n, first, start, end, bs) == end + 1
  {
    MulMonotone(first + j, last, bs);
  }

  /** A bare turn moves on by its count, and not to the end. */
  lemma BareMoves(w: World, req: seq<nat>, start: nat, end: nat, i: nat)
    requires 0 < w.blockSize && 0 < w.size && Bare(w, req, start, i)
    ensures var t := Turn(w, req, start, end, i); t.Piece? && i + t.count != |req|
  {
  }

  lemma BareEndsEarly(turn: nat -> Piece, bare: nat -> bool, pos: nat -> nat, w: World, obj: seq<byte>, req: seq<nat>,
                      start: nat, end: nat, first: nat, last: nat, j: nat)
    requires 0 < w.blockSize && 0 < w.size && AssemblyProof.Request(req, start, end, w.blockSize, first, last)
    requires Positions(pos, |req|, first, start, end, w.blockSize) && j < |req|
    requires turn(j) == Turn(w, req, start, end, j) && bare(j) == Bare(w, req, start, j)
    requires GoodTurn(turn, j, |req|, pos, obj)
    ensures EndsEarly(turn, bare, j, |req|, pos)
  {
    if bare(j) {
      BareMoves(w, req, start, end, j);
      PosBefore(j + turn(j).count, |req|, first, last, start, end, w.blockSize);
    }
  }

  /** What the server sends of a response whose files and origin agree with the object: a beginning of the
      requested bytes; and if the copy ends without an error, all of them if and only if no turn takes
      an anchor, other than the last one or a first one that is skipped into. */
  lemma SentRightIff(w: World, obj: seq<byte>, start: nat, end: nat)
    requires Wanted(w, obj, start, end)
    ensures var r := RespondSent(w, start, end);
            && (r.Body? <==> Respond(w, start, end).Body?)
            && (r.Body? ==> r.s.bytes <= obj[start..end + 1])
            && (r.Body? && r.s.complete ==> (r.s.bytes == obj[start..end + 1] <==> NoBareTurn(w, start, end)))
  {
    var req := Indexes(start, end, w.blockSize);
    var turn := (i: nat) => Turn(w, req, start, end, i);
    var bare := (i: nat) => Bare(w, req, start, i);
    SentIfAssembled(turn, bare, 0, |req|);
    SentInside(w, obj, start, end, req, turn, bare);
    if NoBareTurn(w, start, end) {
      AllSent(turn, bare, 0, |req|);
      RespondRight(w, obj, start, end);
    }
  }

  lemma SentInside(w: World, obj: seq<byte>, start: nat, end: nat, req: seq<nat>, turn: nat -> Piece, bare: nat -> bool)
    requires Wanted(w, obj, start, end) && req == Indexes(start, end, w.blockSize)
    requires Turns(turn, w, req, start, end) && forall i: nat :: bare(i) == Bare(w, req, start, i)
    ensures var r := SentFrom(turn, bare, 0, |req|);
            r.Body? ==>
              && r.s.bytes <= obj[start..end + 1]
              && (r.s.complete && (exists k: nat :: Visits(turn, 0, |req|, k) && bare(k)) ==>
                  |r.s.bytes| < end + 1 - start)
  {
    var bs, first := w.blockSize, start / w.blockSize;
    OffsetExact(end / bs, bs);
    IndexesRequest(start, end, bs);
    var pos := (i: nat) => Pos(i, |req|, first, start, end, bs);
    TurnsGood(w, obj, start, end, req, first, end / bs, turn, pos);
    SentBounds(turn, bare, pos, w, obj, req, start, end, first, end / bs);
  }

  lemma SentBounds(turn: nat -> Piece, bare: nat -> bool, pos: nat -> nat, w: World, obj: seq<byte>, req: seq<nat>,
                   start: nat, end: nat, first: nat, last: nat)
    requires 0 < w.blockSize && 0 < w.size && AssemblyProof.Request(req, start, end, w.blockSize, first, last)
    requires end < |obj| && Positions(pos, |req|, first, start, end, w.blockSize)
    requires forall j: nat :: j < |req| ==> turn(j) == Turn(w, req, start, end, j) && bare(j) == Bare(w, req, start, j)
    requires forall j: nat :: j < |req| ==> GoodTurn(turn, j, |req|, pos, obj)
    ensures var r := SentFrom(turn, bare, 0, |req|);
            r.Body? ==>
              && r.s.bytes <= obj[start..end + 1]
              && (r.s.complete && (exists k: nat :: Visits(turn, 0, |req|, k) && bare(k)) ==>
                  |r.s.bytes| < end + 1 - start)
  {
    forall j: nat | j <= |req| ensures pos(j) <= pos(|req|) {
      if j < |req| {
        PosBefore(j, |req|, first, last, start, end, w.blockSize);
      }
    }
    forall j: nat | j < |req| ensures EndsEarly(turn, bare, j, |req|, pos) {
      BareEndsEarly(turn, bare, pos, w, obj, req, start, end, first, last, j);
    }
    SentCovers(turn, bare, 0, |req|, pos, obj);
  }

  const SIX: seq<byte> := [1, 2, 3, 4, 5, 6]

  /** Chunks of two bytes of the object 1..6; only the middle one is cached, and the origin answers. */
  function MiddleCached(): World {
    World(6, 2, (i: nat) => if i == 1 then File([3, 4]) else Missing, [1], Honest(SIX))
  }

  lemma UpToMiddle(w: World)
    requires w == MiddleCached()
    ensures Choose(w, 0, 2) == FromAnchor(1, [3, 4]) && Bare(w, [0, 1, 2], 0, 0)
    ensures Asked(w, [0, 1, 2], 0, 5) == Ask(0, 1)
  {
    assert BinarySearch(w.avail, Between(0, 2), 0, 1) == 0;
  }

  lemma BehindMiddle(w: World)
    requires w == MiddleCached()
    ensures Choose(w, 2, 2) == FromOrigin && Asked(w, [0, 1, 2], 2, 5) == Ask(4, 5)
  {
    assert BinarySearch(w.avail, Between(2, 2), 0, 1) == 1;
  }

  lemma AnchorTurn(w: World, f: Stream, file: Stream)
    requires w.blockSize == 2 && w.size == 6 && Choose(w, 0, 2) == FromAnchor(1, file.bytes) && file.complete
    requires Asked(w, [0, 1, 2], 0, 5) == Ask(0, 1) && w.fetch(0, 1) == f
    ensures Turn(w, [0, 1, 2], 0, 5, 0) == Piece(Concat(f, file), 2)
  {
    assert GetContents(w, [0, 1, 2], 0, 5) == Piece(Concat(f, file), 2);
  }

  lemma OriginTurn(w: World, f: Stream)
    requires w.blockSize == 2 && w.size == 6 && Choose(w, 2, 2) == FromOrigin && f == Stream([5, 6], true)
    requires Asked(w, [0, 1, 2], 2, 5) == Ask(4, 5) && w.fetch(4, 5) == f
    ensures Turn(w, [0, 1, 2], 0, 5, 2) == Piece(f, 1)
  {
    assert GetContents(w, [0, 1, 2], 2, 5) == Piece(f, 1);
    assert [5, 6][..2] == [5, 6];
  }

  lemma FirstTurn(w: World)
    requires w == MiddleCached()
    ensures Turn(w, [0, 1, 2], 0, 5, 0) == Piece(Stream([1, 2, 3, 4], true), 2) && Bare(w, [0, 1, 2], 0, 0)
  {
    UpToMiddle(w);
    assert SIX[0..2] == [1, 2];
    var f: Stream, file: Stream := Stream([1, 2], true), Stream([3, 4], true);
    assert Concat(f, file) == Stream([1, 2, 3, 4], true);
    AnchorTurn(w, f, file);
  }

  lemma LastTurn(w: World)
    requires w == MiddleCached()
    ensures Turn(w, [0, 1, 2], 0, 5, 2) == Piece(Stream([5, 6], true), 1)
  {
    BehindMiddle(w);
    assert SIX[4..6] == [5, 6];
    OriginTurn(w, Stream([5, 6], true));
  }

  /** Two turns, the first of them bare. */
  lemma TwoTurns(turn: nat -> Piece, bare: nat -> bool, s: Stream, t: Stream)
    requires turn(0) == Piece(s, 2) && turn(2) == Piece(t, 1) && bare(0) && s.complete && t.complete
    ensures Assemble(turn, 0, 3) == Body(Stream(s.bytes + t.bytes, true)) && SentFrom(turn, bare, 0, 3) == Body(s)
    ensures Visits(turn, 0, 3, 0)
  {
    assert Assemble(turn, 3, 3) == Body(Done) && SentFrom(turn, bare, 3, 3) == Body(Done);
    assert t.bytes + [] == t.bytes;
    assert Assemble(turn, 2, 3) == Body(t) && SentFrom(turn, bare, 2, 3).Body?;
  }

  lemma CutOff(w: World, s: Stream, t: Stream)
    requires w.blockSize == 2 && w.size == 6 && s == Stream([1, 2, 3, 4], true) && t == Stream([5, 6], true)
    requires Turn(w, [0, 1, 2], 0, 5, 0) == Piece(s, 2) && Turn(w, [0, 1, 2], 0, 5, 2) == Piece(t, 1)
    requires Bare(w, [0, 1, 2], 0, 0)
    ensures Respond(w, 0, 5) == Body(Stream(SIX, true)) && RespondSent(w, 0, 5) == Body(s) && !NoBareTurn(w, 0, 5)
  {
    var req := Indexes(0, 5, 2);
    assert req == [0, 1, 2] by {
      IndexesRequest(0, 5, 2);
    }
    var turn, bare := (i: nat) => Turn(w, req, 0, 5, i), (i: nat) => Bare(w, req, 0, i);
    TwoTurns(turn, bare, s, t);
    assert s.bytes + t.bytes == SIX;
  }

  /** The whole object is requested. The body holds its six bytes, and four of them are sent. */
  lemma PartialHitCutOff(w: World)
    requires w == MiddleCached()
    ensures Wanted(w, SIX, 0, 5) && !NoBareTurn(w, 0, 5)
    ensures Respond(w, 0, 5) == Body(Stream(SIX, true))
    ensures RespondSent(w, 0, 5) == Body(Stream([1, 2, 3, 4], true))
  {
    MiddleSound(w);
    FirstTurn(w);
    LastTurn(w);
    CutOff(w, Stream([1, 2, 3, 4], true), Stream([5, 6], true));
  }

  lemma MiddleSound(w: World)
    requires w == MiddleCached()
    ensures Wanted(w, SIX, 0, 5)
  {
    assert Chunk(SIX, 2, 1) == [3, 4];
  }
}
