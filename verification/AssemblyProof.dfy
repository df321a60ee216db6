/** Whatever is cached and however upstream fails, the assembled body is the requested bytes. */
module AssemblyProof {
  import opened Streams
  import opened Search
  import opened Arith
  import opened Assembly
  import opened Hidden

  /** `s` delivers `t`, or stops short of it with an error. */
  ghost predicate Faithful(s: Stream, t: seq<byte>) {
    s.bytes <= t && (s.complete ==> s.bytes == t)
  }

  lemma FaithfulDrop(s: Stream, t: seq<byte>, k: nat)
    requires Faithful(s, t) && k <= |t|
    ensures Faithful(Drop(s, k), t[k..])
  {
  }

  lemma FaithfulTake(s: Stream, t: seq<byte>, n: nat)
    requires Faithful(s, t) && n <= |t|
    ensures Faithful(Take(s, n), t[..n])
  {
  }

  lemma FaithfulConcat(s: Stream, t: seq<byte>, s': Stream, t': seq<byte>)
    requires Faithful(s, t) && Faithful(s', t')
    ensures Faithful(Concat(s, s'), t + t')
  {
  }

  /** The bytes of chunk i. */
  function Chunk(obj: seq<byte>, bs: nat, i: nat): seq<byte> {
    if i * bs <= |obj| then obj[i * bs..Min(i * bs + bs, |obj|)] else []
  }

  /** A file whose length passes checkChunkSize holds its chunk. */
  ghost predicate GoodFile(obj: seq<byte>, bs: nat, i: nat, f: Open)
    requires 0 < bs
  {
    f.File? && |f.data| == ExpectedSize(|obj|, bs, i) ==> f.data == Chunk(obj, bs, i)
  }

  /** A 206 body for bytes a-b of the object; anything else fails. */
  ghost predicate GoodFetch(obj: seq<byte>, a: nat, b: nat, s: Stream) {
    if a <= b && a < |obj| then Faithful(s, obj[a..Min(b + 1, |obj|)]) else !s.complete
  }

  ghost predicate Sound(w: World, obj: seq<byte>) {
    && |obj| == w.size && 0 < w.size && 0 < w.blockSize
    && Ascending(w.avail)
    && (forall i: nat :: GoodFile(obj, w.blockSize, i, w.open(i)))
    && (forall a: nat, b: nat :: GoodFetch(obj, a, b, w.fetch(a, b)))
  }

  /** Nothing stands in the way: files open, anchors have their size, fetches complete. */
  ghost predicate Healthy(w: World)
    requires 0 < w.blockSize
  {
    && (forall i: nat :: !w.open(i).Broken?)
    && (forall a <- w.avail :: w.open(a).File? ==> |w.open(a).data| == ExpectedSize(w.size, w.blockSize, a))
    && (forall a: nat, b: nat :: a <= b < w.size ==> w.fetch(a, b).complete)
  }

  /** Where position i of the n requested chunks, the first of them `first`, begins in the object. */
  function Pos(i: nat, n: nat, first: nat, start: nat, end: nat, bs: nat): nat {
    if i == 0 then start else if i == n then end + 1 else (first + i) * bs
  }

  /** Chunk offsets up to the last requested chunk fit a uint32. */
  predicate Fits(end: nat, bs: nat)
    requires 0 < bs
  {
    end / bs * bs < TWO32
  }

  lemma SmallU32(x: nat)
    requires x < TWO32
    ensures U32(x) == x
  {
  }

  lemma OffsetExact(k: nat, bs: nat)
    requires 0 < bs && k * bs < TWO32
    ensures Offset(k, bs) == k * bs && k < TWO32
  {
    if k > 0 {
      MulMonotone(1, k, bs);
      MulMonotone(1, bs, k);
      SmallU32(bs);
    }
    SmallU32(k * bs);
  }

  /** A request for bytes start..end that SingleRange accepts, with offsets that fit. */
  ghost predicate Wanted(w: World, obj: seq<byte>, start: nat, end: nat) {
    Sound(w, obj) && start <= end < w.size && Fits(end, w.blockSize)
  }

  /** The object from `lo` to `hi`, or a part of it and an error. */
  ghost predicate Covers(s: Stream, obj: seq<byte>, lo: nat, hi: nat) {
    lo <= hi <= |obj| && Faithful(s, obj[lo..hi])
  }

  lemma CoversConcat(s: Stream, s': Stream, obj: seq<byte>, lo: nat, mid: nat, hi: nat)
    requires Covers(s, obj, lo, mid) && Covers(s', obj, mid, hi)
    ensures Covers(Concat(s, s'), obj, lo, hi)
  {
    assert obj[lo..mid] + obj[mid..hi] == obj[lo..hi];
    FaithfulConcat(s, obj[lo..mid], s', obj[mid..hi]);
  }

  /** Chunk `last` holds byte `end`. */
  ghost predicate LastChunk(last: nat, end: nat, bs: nat) {
    last * bs <= end < last * bs + bs
  }

  /** The end of what chunk k, the last of a piece, gives. */
  ghost predicate EndsAt(hi: nat, k: nat, last: nat, end: nat, bs: nat) {
    if k == last then end < hi else hi == k * bs + bs
  }

  lemma FilePiece(obj: seq<byte>, end: nat, bs: nat, k: nat, last: nat, data: seq<byte>) returns (hi: nat)
    requires end < |obj| && LastChunk(last, end, bs) && k <= last && data == Chunk(obj, bs, k)
    ensures Covers(Stream(data, true), obj, k * bs, hi) && EndsAt(hi, k, last, end, bs)
  {
    hi := Min(k * bs + bs, |obj|);
    if k < last {
      NextChunk(k, last, bs);
    }
  }

  /** The range fetched in front of an anchor ends just before it. */
  lemma AnchorRange(size: nat, bs: nat, k: nat, a: nat, last: nat, end: nat)
    requires 0 < bs && end < size && LastChunk(last, end, bs) && last * bs < TWO32 && k < a <= last
    ensures Offset(k, bs) == k * bs < a * bs < size
    ensures Min(size - 1, Before(Offset(a, bs))) == a * bs - 1
  {
    NextChunk(k, a, bs);
    MulMonotone(a, last, bs);
    OffsetExact(k, bs);
    OffsetExact(a, bs);
  }

  lemma EndRange(size: nat, bs: nat, k: nat, last: nat, end: nat)
    requires 0 < bs && end < size && LastChunk(last, end, bs) && last * bs < TWO32 && k <= last
    ensures Offset(k, bs) == k * bs <= end
    ensures Min(size - 1, Min(Before(U32(last + 1) * bs), end)) == end
  {
    MulMonotone(k, last, bs);
    OffsetExact(k, bs);
    OffsetExact(last, bs);
    assert end < (last + 1) * bs;
    if last + 1 < TWO32 {
      SmallU32(last + 1);
    }
  }

  lemma AnchorPiece(f: Stream, obj: seq<byte>, end: nat, bs: nat, k: nat, a: nat, last: nat,
                    data: seq<byte>) returns (hi: nat)
    requires 0 < bs && end < |obj| && LastChunk(last, end, bs) && last * bs < TWO32
    requires k < a <= last && data == Chunk(obj, bs, a)
    requires GoodFetch(obj, Offset(k, bs), Min(|obj| - 1, Before(Offset(a, bs))), f)
    ensures Covers(Concat(f, Stream(data, true)), obj, k * bs, hi) && EndsAt(hi, a, last, end, bs)
  {
    AnchorRange(|obj|, bs, k, a, last, end);
    hi := FilePiece(obj, end, bs, a, last, data);
    CoversConcat(f, Stream(data, true), obj, k * bs, a * bs, hi);
  }

  lemma EndPiece(f: Stream, obj: seq<byte>, end: nat, bs: nat, k: nat, last: nat)
    requires 0 < bs && end < |obj| && LastChunk(last, end, bs) && last * bs < TWO32 && k <= last
    requires GoodFetch(obj, Offset(k, bs), Min(|obj| - 1, Min(Before(U32(last + 1) * bs), end)), f)
    ensures Covers(f, obj, k * bs, end + 1)
  {
    EndRange(|obj|, bs, k, last, end);
  }

  /** What is chosen for chunk k holds the object's bytes. */
  lemma GoodPlan(w: World, obj: seq<byte>, k: nat, last: nat)
    requires Sound(w, obj)
    ensures var plan := Choose(w, k, last);
            && (plan.FromFile? ==> plan.data == Chunk(obj, w.blockSize, k))
            && (plan.FromAnchor? ==> k < plan.a <= last && plan.anchor == Chunk(obj, w.blockSize, plan.a))
  {
    assert GoodFile(obj, w.blockSize, k, w.open(k));
    var plan := ChooseAnchor(w, k, last);
    if plan.FromAnchor? {
      assert GoodFile(obj, w.blockSize, plan.a, w.open(plan.a));
    }
  }

  /** What getContents returns for chunk k, at position i of the request, reads the object from
      the start of that chunk to the end of the last chunk it covers. */
  lemma RawPiece(w: World, obj: seq<byte>, end: nat, req: seq<nat>, i: nat, k: nat, last: nat) returns (hi: nat)
    requires Sound(w, obj) && end < w.size && LastChunk(last, end, w.blockSize) && last * w.blockSize < TWO32
    requires i < |req| && req[i] == k <= last == req[|req| - 1] && last - k == |req| - 1 - i
    ensures var p := GetContents(w, req, i, end);
            p.Piece? ==>
              && i + p.count <= |req|
              && Covers(p.s, obj, k * w.blockSize, hi)
              && EndsAt(hi, k + p.count - 1, last, end, w.blockSize)
  {
    GoodPlan(w, obj, k, last);
    var ask := Asked(w, req, i, end);
    var f := if ask.Ask? then w.fetch(ask.a, ask.b) else Done;
    assert ask.Ask? ==> GoodFetch(obj, ask.a, ask.b, f);
    match Choose(w, k, last)
    case Fail => hi := 0;
    case FromFile(data) => hi := FilePiece(obj, end, w.blockSize, k, last, data);
    case FromAnchor(a, data) => hi := AnchorPiece(f, obj, end, w.blockSize, k, a, last, data);
    case FromOrigin =>
      EndPiece(f, obj, end, w.blockSize, k, last);
      hi := end + 1;
  }

  lemma CoversDrop(s: Stream, obj: seq<byte>, lo: nat, hi: nat, d: nat)
    requires Covers(s, obj, lo, hi) && lo + d <= hi
    ensures Covers(Drop(s, d), obj, lo + d, hi)
  {
    FaithfulDrop(s, obj[lo..hi], d);
  }

  lemma CoversTake(s: Stream, obj: seq<byte>, lo: nat, hi: nat, n: nat)
    requires Covers(s, obj, lo, hi) && lo + n <= hi
    ensures Covers(Take(s, n), obj, lo, lo + n)
  {
    FaithfulTake(s, obj[lo..hi], n);
    assert obj[lo..hi][..n] == obj[lo..lo + n];
  }

  /** `req` are the chunks first..last, which hold the bytes start..end. */
  ghost predicate Request(req: seq<nat>, start: nat, end: nat, bs: nat, first: nat, last: nat) {
    && 0 < bs && start <= end && first <= last && |req| == last - first + 1
    && first * bs <= start < first * bs + bs && LastChunk(last, end, bs)
    && forall j :: 0 <= j < |req| ==> req[j] == first + j
  }

  lemma IndexesRequest(start: nat, end: nat, bs: nat)
    requires 0 < bs && start <= end && end / bs < TWO32
    ensures Request(Indexes(start, end, bs), start, end, bs, start / bs, end / bs)
  {
    forall j | 0 <= j < |Indexes(start, end, bs)| ensures Indexes(start, end, bs)[j] == start / bs + j {
      SmallU32(start / bs + j);
    }
  }

  /** The first byte wanted of the piece at position i. */
  function Lo(i: nat, first: nat, start: nat, bs: nat): nat {
    if i == 0 then start else (first + i) * bs
  }

  lemma HeadSkip(s: Stream, obj: seq<byte>, i: nat, start: nat, bs: nat, first: nat, hi: nat)
    requires 0 < bs && first * bs <= start < first * bs + bs && (i == 0 ==> start <= hi)
    requires Covers(s, obj, (first + i) * bs, hi)
    ensures Covers(Skipped(s, Head(i, start, bs)), obj, Lo(i, first, start, bs), hi)
  {
    if i == 0 {
      DivUnique(start, first, bs);
      CoversDrop(s, obj, first * bs, hi, start % bs);
    }
  }

  /** A tail piece is cut behind byte `end`. */
  lemma TailLimit(i: nat, count: nat, start: nat, end: nat, bs: nat, first: nat, last: nat)
    requires 0 < bs && 0 < count && first + i + count - 1 == last && start <= end
    requires first * bs <= start < first * bs + bs && last * bs <= end < last * bs + bs
    ensures Lo(i, first, start, bs) + Tail(count, end, bs, Head(i, start, bs)) == end + 1
  {
    DivUnique(start, first, bs);
    DivUnique(end, last, bs);
    assert (first + i + (count - 1)) * bs == (first + i) * bs + (count - 1) * bs;
  }

  lemma PieceEnd(k: nat, c: nat, bs: nat, hi: nat, last: nat, end: nat)
    requires EndsAt(hi, k + c, last, end, bs) && k + c <= last && LastChunk(last, end, bs)
    ensures k * bs + bs <= hi || end < hi
    ensures k + c < last ==> hi == (k + c + 1) * bs
  {
    assert (k + c) * bs == k * bs + c * bs;
    assert (k + c + 1) * bs == (k + c) * bs + bs;
  }

  /** After head skip and tail limit, a piece is the object between two positions. */
  lemma TrimmedPiece(p: Piece, obj: seq<byte>, i: nat, n: nat, start: nat, end: nat, bs: nat, first: nat, last: nat,
                     hi: nat)
    requires 0 < bs && start <= end && first * bs <= start < first * bs + bs && LastChunk(last, end, bs)
    requires p.Piece? && 0 < p.count && i + p.count <= n == last - first + 1
    requires Covers(p.s, obj, (first + i) * bs, hi) && EndsAt(hi, first + i + p.count - 1, last, end, bs)
    ensures Covers(Trim(p, i, n, start, end, bs), obj, Pos(i, n, first, start, end, bs), Pos(i + p.count, n,
              first, start, end, bs))
  {
    PieceEnd(first + i, p.count - 1, bs, hi, last, end);
    HeadSkip(p.s, obj, i, start, bs, first, hi);
    assert Pos(i, n, first, start, end, bs) == Lo(i, first, start, bs);
    if i + p.count == n {
      TailLimit(i, p.count, start, end, bs, first, last);
      CoversTake(Skipped(p.s, Head(i, start, bs)), obj, Lo(i, first, start, bs), hi, Tail(p.count, end, bs,
          Head(i, start, bs)));
    }
  }

  /** One turn of the assembly loop: it moves on, and not past the last chunk, and what it adds is
      the object between the two positions. */
  lemma RightPiece(w: World, obj: seq<byte>, start: nat, end: nat, req: seq<nat>, i: nat, first: nat, last: nat)
    requires Sound(w, obj) && end < w.size && Request(req, start, end, w.blockSize, first, last)
    requires last * w.blockSize < TWO32 && i < |req|
    ensures var p := GetContents(w, req, i, end);
            p.Piece? ==>
              && 0 < p.count && i + p.count <= |req|
              && Covers(Trim(p, i, |req|, start, end, w.blockSize), obj,
                        Pos(i, |req|, first, start, end, w.blockSize), Pos(i + p.count, |req|, first, start, end,
                            w.blockSize))
  {
    var hi := RawPiece(w, obj, end, req, i, first + i, last);
    var p := GetContents(w, req, i, end);
    if p.Piece? {
      TrimmedPiece(p, obj, i, |req|, start, end, w.blockSize, first, last, hi);
    }
  }

  /** A piece that moves a request on from position i, not past n, and gives the object between
      the two positions. */
  ghost predicate Advances(t: Piece, obj: seq<byte>, i: nat, n: nat, first: nat, start: nat, end: nat, bs: nat) {
    t.Piece? ==>
      && 0 < t.count && i + t.count <= n
      && Covers(t.s, obj, Pos(i, n, first, start, end, bs), Pos(i + t.count, n, first, start, end, bs))
  }

  lemma RightTurn(w: World, obj: seq<byte>, start: nat, end: nat, req: seq<nat>, i: nat, first: nat, last: nat)
    requires Sound(w, obj) && end < w.size && Request(req, start, end, w.blockSize, first, last)
    requires last * w.blockSize < TWO32 && i < |req|
    ensures Advances(Turn(w, req, start, end, i), obj, i, |req|, first, start, end, w.blockSize)
  {
    RightPiece(w, obj, start, end, req, i, first, last);
  }

  /** A piece that advances, as a fact behind a name. */
  ghost predicate HasGained(t: Piece, obj: seq<byte>, i: nat, n: nat, first: nat, start: nat, end: nat, bs: nat) {
    forall x {:trigger Shown(x)} :: Shown(x) ==> Advances(t, obj, i, n, first, start, end, bs)
  }

  ghost function Gains(t: Piece, obj: seq<byte>, i: nat, n: nat, first: nat, start: nat, end: nat,
                       bs: nat): Option<Piece> {
    if HasGained(t, obj, i, n, first, start, end, bs) then Some(t) else None
  }

  lemma AdvancesCovers(t: Piece, obj: seq<byte>, i: nat, n: nat, first: nat, start: nat, end: nat, bs: nat, lo: nat,
                       hi: nat)
    requires t.Piece? && Gains(t, obj, i, n, first, start, end, bs).Some?
    requires lo == Pos(i, n, first, start, end, bs) && hi == Pos(i + t.count, n, first, start, end, bs)
    ensures 0 < t.count && i + t.count <= n && Covers(t.s, obj, lo, hi)
  {
    assert Shown(0);
  }

  /** `turn` and `pos` are the turns and the positions of this request. */
  ghost predicate Turns(turn: nat -> Piece, w: World, req: seq<nat>, start: nat, end: nat)
    requires 0 < w.blockSize && 0 < w.size
  {
    forall i: nat :: turn(i) == Turn(w, req, start, end, i)
  }

  /** That, as a fact behind a name. */
  ghost predicate HasTurns(turn: nat -> Piece, w: World, req: seq<nat>, start: nat, end: nat)
    requires 0 < w.blockSize && 0 < w.size
  {
    forall t {:trigger Shown(t)} :: Shown(t) ==> Turns(turn, w, req, start, end)
  }

  ghost function TurnsOf(turn: nat -> Piece, w: World, req: seq<nat>, start: nat, end: nat): Option<nat -> Piece>
    requires 0 < w.blockSize && 0 < w.size
  {
    if HasTurns(turn, w, req, start, end) then Some(turn) else None
  }

  lemma MakeTurns(turn: nat -> Piece, w: World, req: seq<nat>, start: nat, end: nat)
    requires 0 < w.blockSize && 0 < w.size && Turns(turn, w, req, start, end)
    ensures TurnsOf(turn, w, req, start, end).Some?
  {
  }

  lemma TurnsAt(turn: nat -> Piece, w: World, req: seq<nat>, start: nat, end: nat, i: nat)
    requires 0 < w.blockSize && 0 < w.size && TurnsOf(turn, w, req, start, end).Some?
    ensures turn(i) == Turn(w, req, start, end, i)
  {
    assert Shown(0);
  }

  ghost predicate Positions(pos: nat -> nat, n: nat, first: nat, start: nat, end: nat, bs: nat) {
    forall i: nat :: pos(i) == Pos(i, n, first, start, end, bs)
  }

  /** The turn at position j moves on, not past n, and gives the object between the positions. */
  ghost predicate GoodTurn(turn: nat -> Piece, j: nat, n: nat, pos: nat -> nat, obj: seq<byte>) {
    turn(j).Piece? ==>
      var k := j + turn(j).count; j < k <= n && Covers(turn(j).s, obj, pos(j), pos(k))
  }

  lemma {:induction false} AssembleCovers(turn: nat -> Piece, i: nat, n: nat, pos: nat -> nat, obj: seq<byte>)
    requires i <= n && pos(n) <= |obj|
    requires forall j: nat :: j < n ==> GoodTurn(turn, j, n, pos, obj)
    ensures var r := Assemble(turn, i, n); r.Body? ==> Covers(r.s, obj, pos(i), pos(n))
    decreases n - i
  {
    if i < n && turn(i).Piece? {
      assert GoodTurn(turn, i, n, pos, obj);
      var j := i + turn(i).count;
      AssembleCovers(turn, j, n, pos, obj);
      var t := Assemble(turn, j, n);
      if t.Body? {
        CoversConcat(turn(i).s, t.s, obj, pos(i), pos(j), pos(n));
      }
    }
  }

  lemma TurnGains(w: World, obj: seq<byte>, start: nat, end: nat, req: seq<nat>, i: nat, first: nat, last: nat)
    requires Sound(w, obj) && end < w.size && Request(req, start, end, w.blockSize, first, last)
    requires last * w.blockSize < TWO32 && i < |req|
    ensures Gains(Turn(w, req, start, end, i), obj, i, |req|, first, start, end, w.blockSize).Some?
  {
    RightTurn(w, obj, start, end, req, i, first, last);
  }

  lemma GainsGood(turn: nat -> Piece, j: nat, n: nat, pos: nat -> nat, obj: seq<byte>, first: nat,
                  start: nat, end: nat, bs: nat)
    requires Gains(turn(j), obj, j, n, first, start, end, bs).Some? && Positions(pos, n, first, start, end, bs)
    ensures GoodTurn(turn, j, n, pos, obj)
  {
    if turn(j).Piece? {
      AdvancesCovers(turn(j), obj, j, n, first, start, end, bs, pos(j), pos(j + turn(j).count));
    }
  }

  lemma TurnsGood(w: World, obj: seq<byte>, start: nat, end: nat, req: seq<nat>, first: nat, last: nat,
                  turn: nat -> Piece, pos: nat -> nat)
    requires Sound(w, obj) && end < w.size && Request(req, start, end, w.blockSize, first, last)
    requires last * w.blockSize < TWO32
    requires Turns(turn, w, req, start, end) && Positions(pos, |req|, first, start, end, w.blockSize)
    ensures forall j: nat :: j < |req| ==> GoodTurn(turn, j, |req|, pos, obj)
  {
    forall j: nat | j < |req| ensures GoodTurn(turn, j, |req|, pos, obj) {
      TurnGains(w, obj, start, end, req, j, first, last);
      GainsGood(turn, j, |req|, pos, obj, first, start, end, w.blockSize);
    }
  }

  /** The body of the response to a range request, read through, for every pattern of present, missing, unreadable and
      wrong-length chunk files and every upstream failure: refused, failing, or the bytes. */
  lemma RespondRight(w: World, obj: seq<byte>, start: nat, end: nat)
    requires Wanted(w, obj, start, end)
    ensures var r := Respond(w, start, end); r.Body? ==> Faithful(r.s, obj[start..end + 1])
  {
    var bs, req, first := w.blockSize, Indexes(start, end, w.blockSize), start / w.blockSize;
    OffsetExact(end / bs, bs);
    IndexesRequest(start, end, bs);
    var turn := (i: nat) => Turn(w, req, start, end, i);
    var pos := (i: nat) => Pos(i, |req|, first, start, end, bs);
    TurnsGood(w, obj, start, end, req, first, end / bs, turn, pos);
    AssembleCovers(turn, 0, |req|, pos, obj);
  }

  lemma {:induction false} AssembleComplete(turn: nat -> Piece, i: nat, n: nat)
    requires forall j: nat :: j < n ==> turn(j).Piece? && 0 < turn(j).count && turn(j).s.complete
    ensures Assemble(turn, i, n).Body? && Assemble(turn, i, n).s.complete
    decreases n - i
  {
    if i < n {
      AssembleComplete(turn, i + turn(i).count, n);
    }
  }

  lemma HealthyPlan(w: World, k: nat, last: nat)
    requires 0 < w.blockSize && Healthy(w)
    ensures !Choose(w, k, last).Fail?
  {
    var index := BinarySearch(w.avail, Between(k, last), 0, |w.avail|);
    if index < |w.avail| {
      assert w.avail[index] in w.avail;
    }
  }

  lemma HealthyPiece(w: World, end: nat, req: seq<nat>, i: nat, last: nat)
    requires 0 < w.blockSize && Healthy(w) && end < w.size && LastChunk(last, end, w.blockSize)
    requires last * w.blockSize < TWO32
    requires i < |req| && req[i] <= last == req[|req| - 1]
    ensures GetContents(w, req, i, end).Piece? && GetContents(w, req, i, end).s.complete
  {
    var k := req[i];
    HealthyPlan(w, k, last);
    match Choose(w, k, last)
    case FromFile(_) =>
    case FromAnchor(a, _) => AnchorRange(w.size, w.blockSize, k, a, last, end);
    case FromOrigin => EndRange(w.size, w.blockSize, k, last, end);
  }

  /** When files open, anchors have their size and fetches complete, the response is complete. */
  lemma RespondComplete(w: World, obj: seq<byte>, start: nat, end: nat)
    requires Wanted(w, obj, start, end) && Healthy(w)
    ensures Respond(w, start, end) == Body(Stream(obj[start..end + 1], true))
  {
    var bs, req := w.blockSize, Indexes(start, end, w.blockSize);
    OffsetExact(end / bs, bs);
    IndexesRequest(start, end, bs);
    var turn := (i: nat) => Turn(w, req, start, end, i);
    forall j: nat | j < |req| ensures turn(j).Piece? && 0 < turn(j).count && turn(j).s.complete {
      HealthyPiece(w, end, req, j, end / bs);
    }
    AssembleComplete(turn, 0, |req|);
    RespondRight(w, obj, start, end);
  }
}
