/** What a response needs of the origin: nothing for chunks whose files are there. */
module CacheHit {
  import opened Streams
  import opened Search
  import opened Arith
  import opened Assembly
  import opened AssemblyProof
  import opened Sending
  import opened Hidden

  /** The chunk's file opens and has the length checkChunkSize expects. */
  predicate HasFile(w: World, k: nat)
    requires 0 < w.blockSize
  {
    w.open(k).File? && |w.open(k).data| == ExpectedSize(w.size, w.blockSize, k)
  }

  /** That is the length of the chunk, unless the number of the object's last chunk is cut to 32 bits and
      meets another chunk. */
  lemma ExpectedIs(obj: seq<byte>, bs: nat, k: nat)
    requires 0 < bs && k * bs < |obj| && k < TWO32
    ensures ExpectedSize(|obj|, bs, k) == |Chunk(obj, bs, k)| <==> k == |obj| / bs || k != U32(|obj| / bs)
  {
    var q := |obj| / bs;
    assert |obj| == q * bs + |obj| % bs;
    if k < q {
      NextChunk(k, q, bs);
      assert |Chunk(obj, bs, k)| == bs;
    } else if q < k {
      NextChunk(q, k, bs);
      assert false;
    } else {
      SmallU32(q);
      assert |Chunk(obj, bs, k)| == |obj| % bs;
    }
  }

  /** Files of the expected length hold their chunks. Nothing is said of the origin. */
  ghost predicate FilesRight(w: World, obj: seq<byte>) {
    && |obj| == w.size && 0 < w.size && 0 < w.blockSize
    && forall i: nat :: GoodFile(obj, w.blockSize, i, w.open(i))
  }

  /** Every requested chunk has its file. */
  ghost predicate AllCached(w: World, start: nat, end: nat)
    requires 0 < w.blockSize
  {
    forall k: nat :: start / w.blockSize <= k <= end / w.blockSize ==> HasFile(w, k)
  }

  /** The same bucket, with an origin that is down and no other chunk known. */
  function Alone(w: World): World {
    w.(avail := [], fetch := (a: nat, b: nat) => Stream([], false))
  }

  lemma AloneSound(w: World, obj: seq<byte>)
    requires FilesRight(w, obj)
    ensures Sound(Alone(w), obj)
  {
    var v := Alone(w);
    forall i: nat ensures GoodFile(obj, v.blockSize, i, v.open(i)) {
      assert GoodFile(obj, w.blockSize, i, w.open(i));
    }
  }

  /** A chunk with a file is read from it, whatever else there is. */
  lemma HitTurn(w: World, req: seq<nat>, start: nat, end: nat, i: nat)
    requires 0 < w.blockSize && 0 < w.size && i < |req| && HasFile(w, req[i])
    ensures Turn(w, req, start, end, i) == Turn(Alone(w), req, start, end, i)
    ensures Turn(w, req, start, end, i).Piece? && Turn(w, req, start, end, i).count == 1
    ensures Turn(w, req, start, end, i).s.complete && !Bare(w, req, start, i)
  {
    assert GetContents(w, req, i, end) == Piece(Stream(w.open(req[i]).data, true), 1);
    assert GetContents(Alone(w), req, i, end) == Piece(Stream(w.open(req[i]).data, true), 1);
  }

  lemma {:induction false} SameAssembly(turn: nat -> Piece, other: nat -> Piece, i: nat, n: nat)
    requires forall j: nat :: j < n ==> turn(j) == other(j)
    ensures Assemble(turn, i, n) == Assemble(other, i, n)
    decreases n - i
  {
    if i < n && turn(i).Piece? && 0 < turn(i).count {
      SameAssembly(turn, other, i + turn(i).count, n);
    }
  }

  lemma {:induction false} VisitsBelow(turn: nat -> Piece, i: nat, n: nat, k: nat)
    requires Visits(turn, i, n, k)
    ensures k < n
    decreases n - i
  {
    if k != i {
      VisitsBelow(turn, i + turn(i).count, n, k);
    }
  }

  lemma CachedAt(w: World, start: nat, end: nat, req: seq<nat>, j: nat)
    requires 0 < w.blockSize && start <= end && end / w.blockSize < TWO32 && AllCached(w, start, end)
    requires req == Indexes(start, end, w.blockSize) && j < |req|
    ensures HasFile(w, req[j])
  {
    IndexesRequest(start, end, w.blockSize);
    assert req[j] == start / w.blockSize + j;
  }

  /** A request whose chunks all have their files is answered with its bytes, and all of them are sent,
      whatever the origin does. */
  lemma HitServed(w: World, obj: seq<byte>, start: nat, end: nat)
    requires FilesRight(w, obj) && start <= end < w.size && Fits(end, w.blockSize) && AllCached(w, start, end)
    ensures Respond(w, start, end) == Body(Stream(obj[start..end + 1], true))
    ensures RespondSent(w, start, end) == Body(Stream(obj[start..end + 1], true))
  {
    var bs := w.blockSize;
    OffsetExact(end / bs, bs);
    var req := Indexes(start, end, bs);
    var turn := (i: nat) => Turn(w, req, start, end, i);
    var other := (i: nat) => Turn(Alone(w), req, start, end, i);
    var bare := (i: nat) => Bare(w, req, start, i);
    forall j: nat | j < |req|
      ensures turn(j) == other(j) && turn(j).Piece? && 0 < turn(j).count && turn(j).s.complete && !bare(j) {
      CachedAt(w, start, end, req, j);
      HitTurn(w, req, start, end, j);
    }
    SameAssembly(turn, other, 0, |req|);
    AssembleComplete(turn, 0, |req|);
    AloneSound(w, obj);
    RespondRight(Alone(w), obj, start, end);
    forall k: nat | Visits(turn, 0, |req|, k) ensures !bare(k) {
      VisitsBelow(turn, 0, |req|, k);
    }
    AllSent(turn, bare, 0, |req|);
  }

  // ---- Breaking off ----

  /** A fetch of bytes up to `end` at most, that begins with chunk k, which has no file, breaks off. */
  ghost predicate Broke(w: World, k: nat, end: nat)
    requires 0 < w.blockSize
  {
    !HasFile(w, k) && exists b: nat :: k * w.blockSize <= b <= end && !w.fetch(k * w.blockSize, b).complete
  }

  /** What is asked for at position j, whose chunk has no file, breaks off. */
  ghost predicate AskBroke(w: World, req: seq<nat>, end: nat, j: nat)
    requires 0 < w.blockSize && 0 < w.size && j < |req|
  {
    var ask := Asked(w, req, j, end);
    !HasFile(w, req[j]) && ask.Ask? && !w.fetch(ask.a, ask.b).complete
  }

  ghost predicate FetchBroke(w: World, req: seq<nat>, end: nat)
    requires 0 < w.blockSize && 0 < w.size
  {
    exists j :: 0 <= j < |req| && AskBroke(w, req, end, j)
  }

  lemma NoFileChosen(w: World, idx: nat, last: nat)
    requires 0 < w.blockSize
    ensures Choose(w, idx, last).FromAnchor? || Choose(w, idx, last).FromOrigin? ==> !HasFile(w, idx)
  {
  }

  lemma TurnBreaks(w: World, req: seq<nat>, start: nat, end: nat, i: nat)
    requires 0 < w.blockSize && 0 < w.size && i < |req|
    requires Turn(w, req, start, end, i).Piece? && !Turn(w, req, start, end, i).s.complete
    ensures AskBroke(w, req, end, i)
  {
    NoFileChosen(w, req[i], req[|req| - 1]);
  }

  lemma {:induction false} AssembleBreaks(turn: nat -> Piece, i: nat, n: nat) returns (j: nat)
    requires Assemble(turn, i, n).Body? && !Assemble(turn, i, n).s.complete
    ensures j < n && turn(j).Piece? && !turn(j).s.complete
    decreases n - i
  {
    if turn(i).s.complete {
      j := AssembleBreaks(turn, i + turn(i).count, n);
    } else {
      j := i;
    }
  }

  /** A turn is refused when the chunk's file cannot be read, or when an anchor has the wrong length. */
  ghost predicate Spoilt(w: World, k: nat, last: nat)
    requires 0 < w.blockSize
  {
    || w.open(k).Broken?
    || (!HasFile(w, k) && exists a :: a in w.avail && k < a <= last && w.open(a).File? && !HasFile(w, a))
  }

  lemma TurnRefused(w: World, req: seq<nat>, start: nat, end: nat, i: nat)
    requires 0 < w.blockSize && 0 < w.size && i < |req| && Turn(w, req, start, end, i).Error?
    ensures Spoilt(w, req[i], req[|req| - 1])
  {
    var last, index := req[|req| - 1], BinarySearch(w.avail, Between(req[i], req[|req| - 1]), 0, |w.avail|);
    if !w.open(req[i]).Broken? {
      assert index < |w.avail| && w.avail[index] in w.avail;
    }
  }

  lemma {:induction false} AssembleRefused(turn: nat -> Piece, i: nat, n: nat) returns (j: nat)
    requires Assemble(turn, i, n).Refused?
    ensures j < n && (turn(j).Error? || turn(j).count == 0)
    decreases n - i
  {
    if turn(i).Piece? && 0 < turn(i).count {
      j := AssembleRefused(turn, i + turn(i).count, n);
    } else {
      j := i;
    }
  }

  /** What is asked for begins with the chunk and lies before the end of the range. */
  lemma AskInside(w: World, req: seq<nat>, start: nat, end: nat, first: nat, last: nat, j: nat)
    requires 0 < w.blockSize && end < w.size && AssemblyProof.Request(req, start, end, w.blockSize, first, last)
    requires last * w.blockSize < TWO32 && j < |req|
    ensures var ask := Asked(w, req, j, end); ask.Ask? ==> ask.a == req[j] * w.blockSize <= ask.b <= end
  {
    var k := req[j];
    assert req[|req| - 1] == last;
    match Choose(w, k, last)
    case FromAnchor(a, _) =>
      AnchorRange(w.size, w.blockSize, k, a, last, end);
      MulMonotone(a, last, w.blockSize);
    case FromOrigin => EndRange(w.size, w.blockSize, k, last, end);
    case _ =>
  }

  lemma BrokeAt(w: World, req: seq<nat>, start: nat, end: nat, first: nat, last: nat, j: nat)
    requires 0 < w.blockSize && end < w.size && AssemblyProof.Request(req, start, end, w.blockSize, first, last)
    requires last * w.blockSize < TWO32 && j < |req| && AskBroke(w, req, end, j)
    ensures first <= req[j] <= last && Broke(w, req[j], end)
  {
    AskInside(w, req, start, end, first, last, j);
  }

  lemma BrokeSome(w: World, req: seq<nat>, start: nat, end: nat, first: nat, last: nat)
    requires 0 < w.blockSize && end < w.size && AssemblyProof.Request(req, start, end, w.blockSize, first, last)
    requires last * w.blockSize < TWO32 && FetchBroke(w, req, end)
    ensures exists k: nat :: first <= k <= last && Broke(w, k, end)
  {
    var j :| 0 <= j < |req| && AskBroke(w, req, end, j);
    BrokeAt(w, req, start, end, first, last, j);
  }

  lemma BrokeIs(w: World, start: nat, end: nat)
    requires 0 < w.blockSize && start <= end < w.size && Fits(end, w.blockSize)
    ensures FetchBroke(w, Indexes(start, end, w.blockSize), end) ==>
              exists k: nat :: start / w.blockSize <= k <= end / w.blockSize && Broke(w, k, end)
  {
    var bs, req := w.blockSize, Indexes(start, end, w.blockSize);
    var first: nat, last: nat := start / bs, end / bs;
    OffsetExact(last, bs);
    IndexesRequest(start, end, bs);
    if FetchBroke(w, req, end) {
      BrokeSome(w, req, start, end, first, last);
    }
  }

  /** A body breaks off only if a fetch does that begins with a requested chunk without a file; and a
      request is refused only for such a file that cannot be read, or an anchor of the wrong length. */
  lemma BreaksOffOnly(w: World, start: nat, end: nat)
    requires 0 < w.blockSize && start <= end < w.size && Fits(end, w.blockSize)
    ensures var r, bs := Respond(w, start, end), w.blockSize;
            && (r.Body? && !r.s.complete ==>
                exists k: nat :: start / bs <= k <= end / bs && Broke(w, k, end))
            && (r.Refused? ==> exists k: nat :: start / bs <= k <= end / bs && Spoilt(w, k, end / bs))
  {
    var bs, req := w.blockSize, Indexes(start, end, w.blockSize);
    OffsetExact(end / bs, bs);
    IndexesRequest(start, end, bs);
    var turn := (i: nat) => Turn(w, req, start, end, i);
    var r := Respond(w, start, end);
    if r.Body? && !r.s.complete {
      var j := AssembleBreaks(turn, 0, |req|);
      TurnBreaks(w, req, start, end, j);
      BrokeIs(w, start, end);
    } else if r.Refused? {
      var j := AssembleRefused(turn, 0, |req|);
      TurnRefused(w, req, start, end, j);
      assert req[j] == start / bs + j;
    }
  }

  // ---- What the origin is asked for ----

  /** No known chunk lies behind the last requested one. Otherwise the search can miss (BetweenMisses). */
  ghost predicate NoneBehind(avail: seq<nat>, last: nat) {
    Ascending(avail) && forall i :: 0 <= i < |avail| ==> avail[i] <= last
  }

  /** Chunk a is the next known one behind chunk k. */
  ghost predicate NextKnown(avail: seq<nat>, k: nat, a: nat) {
    a in avail && k < a && forall i :: 0 <= i < |avail| ==> avail[i] <= k || a <= avail[i]
  }

  lemma FindsSome(avail: seq<nat>, k: nat, last: nat)
    requires avail != [] && k < avail[|avail| - 1] <= last
    ensures BinarySearch(avail, Between(k, last), 0, |avail|) < |avail|
  {
    assert Between(k, last)(avail[|avail| - 1]);
  }

  lemma FindsNext(avail: seq<nat>, k: nat, last: nat, a: nat)
    requires NoneBehind(avail, last) && NextKnown(avail, k, a)
    ensures var r := BinarySearch(avail, Between(k, last), 0, |avail|); r < |avail| && avail[r] == a
  {
    var i :| 0 <= i < |avail| && avail[i] == a;
    assert i < |avail| - 1 ==> avail[i] < avail[|avail| - 1];
    FindsSome(avail, k, last);
    BetweenFindsFirst(avail, k, last);
  }

  lemma FindsNone(avail: seq<nat>, k: nat, last: nat)
    requires forall i :: 0 <= i < |avail| ==> avail[i] <= k
    ensures BinarySearch(avail, Between(k, last), 0, |avail|) == |avail|
  {
  }

  /** For a chunk without a file, the origin is asked for the bytes up to the next cached chunk and no further,
      and if none is known, for the rest of the range; for a chunk with a file, for nothing. */
  lemma AsksOnlyMissing(w: World, req: seq<nat>, start: nat, end: nat, first: nat, last: nat, j: nat, a: nat)
    requires 0 < w.blockSize && end < w.size && AssemblyProof.Request(req, start, end, w.blockSize, first, last)
    requires last * w.blockSize < TWO32 && last < TWO32 && j < |req| && !w.open(req[j]).Broken?
    requires NoneBehind(w.avail, last)
    ensures HasFile(w, req[j]) ==> Asked(w, req, j, end) == NoAsk
    ensures !HasFile(w, req[j]) && NextKnown(w.avail, req[j], a) && HasFile(w, a) ==>
              Asked(w, req, j, end) == Ask(req[j] * w.blockSize, a * w.blockSize - 1)
    ensures !HasFile(w, req[j]) && (forall i :: 0 <= i < |w.avail| ==> w.avail[i] <= req[j]) ==>
              Asked(w, req, j, end) == Ask(req[j] * w.blockSize, end)
  {
    var k := req[j];
    assert req[|req| - 1] == last;
    if !HasFile(w, k) {
      if NextKnown(w.avail, k, a) && HasFile(w, a) {
        FindsNext(w.avail, k, last, a);
        AnchorRange(w.size, w.blockSize, k, a, last, end);
      } else if forall i :: 0 <= i < |w.avail| ==> w.avail[i] <= k {
        FindsNone(w.avail, k, last);
        EndRange(w.size, w.blockSize, k, last, end);
      }
    }
  }

  /** A turn is refused exactly when the chunk's file cannot be read, or when there is none and the next known
      chunk has a file of the wrong length. */
  lemma RefusedTurn(w: World, req: seq<nat>, start: nat, end: nat, j: nat, a: nat)
    requires 0 < w.blockSize && 0 < w.size && j < |req| && NoneBehind(w.avail, req[|req| - 1])
    ensures NextKnown(w.avail, req[j], a) ==>
              (Turn(w, req, start, end, j).Error? <==>
               w.open(req[j]).Broken? || (!HasFile(w, req[j]) && w.open(a).File? && !HasFile(w, a)))
    ensures (forall i :: 0 <= i < |w.avail| ==> w.avail[i] <= req[j]) ==>
              (Turn(w, req, start, end, j).Error? <==> w.open(req[j]).Broken?)
  {
    var k, last := req[j], req[|req| - 1];
    if NextKnown(w.avail, k, a) {
      FindsNext(w.avail, k, last, a);
    } else if forall i :: 0 <= i < |w.avail| ==> w.avail[i] <= k {
      FindsNone(w.avail, k, last);
    }
  }

  /** A request is refused when the file of its first chunk cannot be read. */
  lemma UnreadableRefused(w: World, start: nat, end: nat)
    requires 0 < w.blockSize && 0 < w.size && start <= end && w.open(U32(start / w.blockSize)).Broken?
    ensures Respond(w, start, end) == Refused
  {
    var req := Indexes(start, end, w.blockSize);
    assert req[0] == U32(start / w.blockSize);
    assert Turn(w, req, start, end, 0).Error?;
  }

  /** An object smaller than a block, cached, and an origin that is down: the client gets all of it. */
  lemma SmallObjectHit(w: World)
    requires w == World(3, 4, (i: nat) => if i == 0 then File([1, 2, 3]) else Missing, [0],
                        (a: nat, b: nat) => Stream([], false))
    ensures RespondSent(w, 0, 2) == Body(Stream([1, 2, 3], true))
  {
    var obj: seq<byte> := [1, 2, 3];
    assert Chunk(obj, 4, 0) == obj;
    forall i: nat ensures GoodFile(obj, 4, i, w.open(i)) {
    }
    HitServed(w, obj, 0, 2);
    assert obj[0..3] == obj;
  }

  // ---- For the code that builds the response ----

  /** `bad` holds if a fetch for a chunk of req breaks off, as a fact behind a name. */
  ghost predicate Blames(bad: bool, w: World, req: seq<nat>, end: nat)
    requires 0 < w.blockSize && 0 < w.size
  {
    forall t {:trigger Shown(t)} :: Shown(t) ==> FetchBroke(w, req, end) ==> bad
  }

  ghost function Blamed(bad: bool, w: World, req: seq<nat>, end: nat): Option<bool>
    requires 0 < w.blockSize && 0 < w.size
  {
    if Blames(bad, w, req, end) then Some(bad) else None
  }

  lemma MakeBlamed(bad: bool, w: World, req: seq<nat>, end: nat)
    requires 0 < w.blockSize && 0 < w.size && (FetchBroke(w, req, end) ==> bad)
    ensures Blamed(bad, w, req, end).Some?
  {
  }

  lemma BlamedAt(bad: bool, w: World, req: seq<nat>, end: nat, j: nat)
    requires 0 < w.blockSize && 0 < w.size && Blamed(bad, w, req, end).Some? && j < |req|
    ensures var ask := Asked(w, req, j, end); ask.Ask? && !w.fetch(ask.a, ask.b).complete ==> bad
  {
    assert Shown(0);
    NoFileChosen(w, req[j], req[|req| - 1]);
    var ask := Asked(w, req, j, end);
    if ask.Ask? && !w.fetch(ask.a, ask.b).complete {
      assert AskBroke(w, req, end, j);
    }
  }
}
