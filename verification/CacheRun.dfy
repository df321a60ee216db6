/** A whole run of the cache for one object: any number of range requests assembling their
    responses, from files, from the origin or through shared flights, while any number of origin
    fetches save chunks and chunks are discarded, all interleaved in any way, against an origin
    whose object does not change. */
module CacheRun {
  import opened Streams
  import opened Arith
  import opened Search
  import opened Assembly
  import opened AssemblyProof
  import opened Blocks
  import opened Hidden
  import opened Savepart
  import opened Requests
  import Async = SavepartAsync
  import Flight = ChunkFlight

  /** Every chunk offset of an object of `size` bytes fits a uint32, and so do chunk numbers. */
  ghost predicate SmallEnough(size: nat, bs: nat) {
    0 < bs && 0 < size && size / bs < TWO32 && Fits(size - 1, bs)
  }

  type Files = map<nat, seq<byte>>

  /** Every file whose length passes checkChunkSize holds its chunk. */
  ghost predicate GoodFiles(obj: seq<byte>, bs: nat, files: Files)
    requires 0 < bs
  {
    forall i <- files :: GoodFile(obj, bs, i, File(files[i]))
  }

  /** writerBuffer, for an object of known size: the file is created first, and stays empty when
      the block is neither full nor the last. */
  function WriteChunk(files: Files, b: Block, size: nat, bs: nat): Files {
    if |b.buf| != bs && b.pos != size then files[b.index := []] else files[b.index := b.buf]
  }

  /** The block holds the object's bytes at its place. */
  ghost predicate FromObject(b: Block, k: nat, obj: seq<byte>, bs: nat) {
    Placed(b, k, bs) && b.pos <= |obj| && b.buf == obj[k * bs..b.pos]
  }

  lemma ChunkNumber(k: nat, size: nat, bs: nat)
    requires SmallEnough(size, bs) && k * bs < size
    ensures U32(k) == k && k <= size / bs && (k == size / bs <==> size < k * bs + bs)
    ensures k == size / bs ==> size % bs == size - k * bs
  {
    if size < k * bs + bs {
      DivUnique(size, k, bs);
    } else {
      DivMonotone(k * bs + bs, size, bs);
      assert (k + 1) * bs == k * bs + bs;
      DivUnique(k * bs + bs, k + 1, bs);
    }
    SmallU32(k);
  }

  /** Saving a block keeps the files good, complete or not. */
  lemma WriteKeepsGood(obj: seq<byte>, bs: nat, files: Files, b: Block, k: nat)
    requires SmallEnough(|obj|, bs) && GoodFiles(obj, bs, files) && FromObject(b, k, obj, bs)
    ensures GoodFiles(obj, bs, WriteChunk(files, b, |obj|, bs))
  {
    ChunkNumber(k, |obj|, bs);
    SmallU32(|obj| / bs);
  }

  /** The file left behind passes checkChunkSize exactly when the block was full or the last one:
      an incomplete block replaces even a good file by an empty one. */
  lemma FileServesIffComplete(obj: seq<byte>, bs: nat, files: Files, b: Block, k: nat)
    requires SmallEnough(|obj|, bs) && FromObject(b, k, obj, bs)
    ensures var after := WriteChunk(files, b, |obj|, bs);
            k in after && (|after[k]| == ExpectedSize(|obj|, bs, k) <==> |b.buf| == bs || b.pos == |obj|)
  {
    ChunkNumber(k, |obj|, bs);
    SmallU32(|obj| / bs);
  }

  /** A good chunk file is lost to an incomplete block of the same chunk. */
  lemma GoodFileLost()
    ensures var obj: seq<byte>, files := [1, 2, 3, 4, 5], map[0 := [1, 2]];
            && FromObject(Block([1], 0, 1, true), 0, obj, 2)
            && |files[0]| == ExpectedSize(5, 2, 0) && WriteChunk(files, Block([1], 0, 1, true), 5, 2) == map[0 := []]
  {
    var files: Files := map[0 := [1, 2]];
    assert files[0 := []] == map[0 := []];
  }

  /** The callbacks flushbufferSlice makes for an object of known size. */
  class FlushBuffer {
    const size: nat
    const blockSize: nat
    var files: Files
    var chunks: set<nat>   // md.Chunks

    constructor (size: nat, blockSize: nat, files: Files, chunks: set<nat>)
      ensures this.size == size && this.blockSize == blockSize && this.files == files && this.chunks == chunks
    {
      this.size, this.blockSize, this.files, this.chunks := size, blockSize, files, chunks;
    }

    /** writerBuffer: the bit is set exactly for a block that was written. */
    method WriterBuffer(buf: seq<byte>, index: nat, current: nat, eof: bool)
      modifies this
      ensures files == WriteChunk(old(files), Block(buf, index, current, eof), size, blockSize)
      ensures chunks == old(chunks) + if |buf| == blockSize || current == size then {index} else {}
    {
      // WriteChunkFile opens the file; closing it puts it in place whatever was written.
      var file: seq<byte> := [];
      if |buf| != blockSize && current != size {
        files := files[index := file];
        return;
      }
      file := file + buf;
      assert file == buf;
      chunks := chunks + {index};
      files := files[index := file];
    }
  }

  /** Whatever stage a saver is in: its blocks are consecutive pieces of what it received. */
  ghost predicate Cutting(saved: seq<Block>, r: seq<byte>, first: nat, bs: nat) {
    && Flat(saved) <= r
    && (forall j :: 0 <= j < |saved| ==> Placed(saved[j], first + j, bs))
    && (forall j :: 0 <= j < |saved| - 1 ==> |saved[j].buf| == bs)
  }

  lemma MiddleSlice(x: seq<byte>, y: seq<byte>, z: seq<byte>, r: seq<byte>)
    requires x + (y + z) <= r
    ensures |x| + |y| <= |r| && y == r[|x|..|x| + |y|]
  {
    var xyz := x + (y + z);
    assert xyz[|x|..|x| + |y|] == y;
    assert r[..|xyz|] == xyz;
  }

  lemma BlockBytes(saved: seq<Block>, r: seq<byte>, first: nat, bs: nat, j: nat)
    requires Cutting(saved, r, first, bs) && j < |saved|
    ensures j * bs + |saved[j].buf| <= |r| && saved[j].buf == r[j * bs..j * bs + |saved[j].buf|]
  {
    FlatSplit(saved, j);
    FlatLength(saved[..j], bs);
    MiddleSlice(Flat(saved[..j]), saved[j].buf, Flat(saved[j + 1..]), r);
  }

  /** One origin fetch for bytes a..b, its body going through an asynchronous saver. */
  datatype Fetch = Fetch(a: nat, b: nat, cfg: Async.Config, st: Async.State)

  datatype State = State(files: Files, requests: seq<Request>, fetches: seq<Fetch>, flights: Flight.State)

  /** getUpstreamReader: a sub-request of its own, or collapsed forwarding. */
  datatype Way = Own(s: Stream) | Collapsed

  /** The object's key in the flight group. */
  const KEY := "k"

  datatype Event =
    | Arrive(start: nat, end: nat)
    | Turn(r: nat, w: World, way: Way)
    | GiveUp(r: nat)                        // the flight a turn waited for failed
    | OpenFetch(a: nat, b: nat, queueSize: nat)
    | FetchStep(k: nat, e: Async.Event, torn: nat)
    | FlightStep(fe: Flight.Event)
    | Discard(ids: set<nat>)

  /** What fetch f has received is what the origin sends: a prefix of bytes a..b. */
  ghost predicate Genuine(f: Fetch, obj: seq<byte>) {
    f.a <= f.b < |obj| && f.cfg.startAt == f.a && f.st.got + f.st.pending <= obj[f.a..f.b + 1]
  }

  /** A turn sees files as they are; whichever it finds missing or broken, and whatever the index
      says is available. */
  ghost predicate Sees(w: World, files: Files, size: nat, bs: nat) {
    && w.size == size && w.blockSize == bs && Ascending(w.avail)
    && forall i: nat :: w.open(i).File? ==> i in files && w.open(i).data == files[i]
  }

  ghost predicate Enabled(obj: seq<byte>, bs: nat, s: State, e: Event)
    requires 0 < bs
  {
    match e
    case Arrive(start, end) => start <= end < |obj|
    case Turn(r, w, way) =>
      && r < |s.requests| && !s.requests[r].refused && 0 < |obj| && Sees(w, s.files, |obj|, bs)
      && var q := s.requests[r];
         && q.start <= q.end && Returned(q, s.flights)
         && var req, at := Indexes(q.start, q.end, bs), Next(q, |q.parts|);
            at < |req| && CanAsk(obj, s.flights, Asked(w, req, at, q.end), way)
    case GiveUp(r) =>
      && r < |s.requests| && !s.requests[r].refused
      && var parts := s.requests[r].parts;
         parts != [] && CallerIs(parts[|parts| - 1].src, s.flights, Flight.Refused)
    case OpenFetch(a, b, queueSize) => a <= b < |obj| && 0 < queueSize
    case FetchStep(k, ev, torn) =>
      && k < |s.fetches|
      && var f := s.fetches[k];
         && f.a <= f.b < |obj| && 0 < f.cfg.blockSize && Async.Enabled(f.cfg, f.st, ev) && |f.st.buf| <= f.st.pos
         && (ev.StartRead? ==> f.st.got + ev.data <= obj[f.a..f.b + 1])
         && (ev.Write? ==> torn < |f.st.queue[0].buf|)
    case FlightStep(fe) =>
      && !fe.Arrive? && Flight.Enabled(Only(obj), s.flights, fe)
      && (fe.Fan? && fe.e.Deliver? ==> Attended(s, bs, fe.i, s.flights.calls[fe.i].phase.copy.w))
    case Discard(_) => true
  }

  /** Every request that holds pipe w of flight i is reading there: only then bytes are taken. */
  predicate Attended(s: State, bs: nat, i: nat, w: nat) {
    forall r, j :: 0 <= r < |s.requests| && 0 <= j < |s.requests[r].parts| ==>
      s.requests[r].parts[j].src == Shared(i, w) ==> Reads(s.requests[r], j, bs, s.flights)
  }

  /** The origin answers what was asked, or the flight group takes the caller. */
  ghost predicate CanAsk(obj: seq<byte>, fl: Flight.State, ask: Ask, way: Way) {
    ask.Ask? ==>
      match way
      case Own(s) => GoodFetch(obj, ask.a, ask.b, s)
      case Collapsed => Flight.Enabled(Only(obj), fl, Flight.Arrive(KEY, Flight.Range(ask.a, ask.b)))
  }

  ghost function FlightsAfter(obj: seq<byte>, fl: Flight.State, ask: Ask, way: Way): Flight.State
    requires CanAsk(obj, fl, ask, way)
  {
    if way.Collapsed? && ask.Ask? then Flight.Apply(Only(obj), fl, Flight.Arrive(KEY, Flight.Range(ask.a, ask.b)))
    else fl
  }

  ghost function SourceOf(obj: seq<byte>, fl: Flight.State, ask: Ask, way: Way): Source
    requires CanAsk(obj, fl, ask, way)
  {
    if ask.NoAsk? then Direct(Done)
    else
      match way
      case Own(s) => Direct(s)
      case Collapsed => var seat := Flight.Seat(fl, KEY); Shared(seat.0, seat.1)
  }

  /** A turn of the assembly loop of one request, at its position. */
  function TurnOf(q: Request, w: World, src: Source, req: seq<nat>): Request
    requires 0 < w.blockSize && Next(q, |q.parts|) < |req|
  {
    var at := Next(q, |q.parts|);
    var count := Count(w, req, at);
    if count == 0 then q.(refused := true) else q.(parts := q.parts + [Part(at, count, w, src)])
  }

  ghost function TurnApplied(obj: seq<byte>, bs: nat, s: State, r: nat, w: World, way: Way): State
    requires 0 < bs && Enabled(obj, bs, s, Turn(r, w, way))
  {
    var q := s.requests[r];
    var req := Indexes(q.start, q.end, bs);
    var ask := Asked(w, req, Next(q, |q.parts|), q.end);
    s.(requests := s.requests[r := TurnOf(q, w, SourceOf(obj, s.flights, ask, way), req)],
       flights := FlightsAfter(obj, s.flights, ask, way))
  }

  /** A fetch step; when the writing goroutine makes a call, the file changes. A failing call
      leaves the first `torn` bytes of the block. */
  function FilesAfter(files: Files, f: Fetch, e: Async.Event, torn: nat, size: nat, bs: nat): Files
    requires e.Write? ==> f.st.queue != [] && torn < |f.st.queue[0].buf|
  {
    if !e.Write? then files
    else if e.ok then WriteChunk(files, f.st.queue[0], size, bs)
    else files[f.st.queue[0].index := f.st.queue[0].buf[..torn]]
  }

  ghost function Apply(obj: seq<byte>, bs: nat, s: State, e: Event): State
    requires 0 < bs && Enabled(obj, bs, s, e)
  {
    match e
    case Arrive(start, end) => s.(requests := s.requests + [Request(start, end, [], false)])
    case Turn(r, w, way) => TurnApplied(obj, bs, s, r, w, way)
    case GiveUp(r) => s.(requests := s.requests[r := s.requests[r].(refused := true)])
    case OpenFetch(a, b, queueSize) =>
      var cfg := Async.Config(bs, a, (a + bs - 1) / bs, queueSize);
      s.(fetches := s.fetches + [Fetch(a, b, cfg, Async.Init(cfg))])
    case FetchStep(k, ev, torn) =>
      var f := s.fetches[k];
      s.(files := FilesAfter(s.files, f, ev, torn, |obj|, bs),
         fetches := s.fetches[k := f.(st := Async.Apply(f.cfg, f.st, ev))])
    case FlightStep(fe) => s.(flights := Flight.Apply(Only(obj), s.flights, fe))
    case Discard(ids) => s.(files := map i | i in s.files && i !in ids :: s.files[i])
  }

  lemma SliceOfSlice(obj: seq<byte>, a: nat, end: nat, got: seq<byte>, lead: nat, j: nat, n: nat)
    requires a <= end <= |obj| && got <= obj[a..end] && lead + j + n <= |got|
    ensures got[lead..][j..j + n] == obj[a + lead + j..a + lead + j + n]
  {
    var p, q := got[lead..][j..j + n], obj[a + lead + j..a + lead + j + n];
    forall x | 0 <= x < n ensures p[x] == q[x] {
      assert got[lead + j + x] == obj[a..end][lead + j + x];
    }
  }

  lemma HoldsCutting(c: Async.Config, st: Async.State)
    requires Async.Inv(c, st)
    ensures Cutting(st.handed + st.queue, Async.Received(c, st), c.first, c.blockSize)
  {
  }

  /** Block j behind `first` holds its bytes, when `at` and `lead` are where it starts. */
  lemma PlacedFromObject(b: Block, first: nat, j: nat, bs: nat, obj: seq<byte>, at: nat, lead: nat)
    requires Placed(b, first + j, bs) && at == first * bs && lead == j * bs && at + lead + |b.buf| <= |obj|
    requires b.buf == obj[at + lead..at + lead + |b.buf|]
    ensures FromObject(b, first + j, obj, bs)
  {
    assert (first + j) * bs == first * bs + j * bs;
  }

  /** `b` is what the received bytes r hold from `lead` on. */
  ghost predicate BlockAt(b: Block, r: seq<byte>, lead: nat) {
    0 < |b.buf| && lead + |b.buf| <= |r| && b.buf == r[lead..lead + |b.buf|]
  }

  /** The next block a fetch queues is the one behind those handed over. */
  lemma QueueHead(c: Async.Config, st: Async.State, at: nat, lead: nat)
    requires Async.Inv(c, st) && st.queue != [] && at == c.first * c.blockSize && lead == |st.handed| * c.blockSize
    ensures c.startAt <= at <= c.startAt + |st.got| && Placed(st.queue[0], c.first + |st.handed|, c.blockSize)
    ensures BlockAt(st.queue[0], st.got[at - c.startAt..], lead)
  {
    HoldsCutting(c, st);
    BlockBytes(st.handed + st.queue, Async.Received(c, st), c.first, c.blockSize, |st.handed|);
  }

  /** A block of bytes that came from the object, from position a on, holds the object's bytes. */
  lemma BlockFromObject(b: Block, got: seq<byte>, obj: seq<byte>, a: nat, end: nat, first: nat, j: nat, bs: nat,
                        at: nat, lead: nat)
    requires a <= end <= |obj| && got <= obj[a..end] && a <= at <= a + |got| && BlockAt(b, got[at - a..], lead)
    requires Placed(b, first + j, bs) && at == first * bs && lead == j * bs
    ensures FromObject(b, first + j, obj, bs)
  {
    SliceOfSlice(obj, a, end, got, at - a, lead, |b.buf|);
    PlacedFromObject(b, first, j, bs, obj, at, lead);
  }

  /** Every block a fetch queues holds the object's bytes at its place. */
  lemma QueuedFromObject(f: Fetch, obj: seq<byte>) returns (k: nat)
    requires Async.Inv(f.cfg, f.st) && Genuine(f, obj) && f.st.queue != []
    ensures FromObject(f.st.queue[0], k, obj, f.cfg.blockSize)
  {
    var c, st, j := f.cfg, f.st, |f.st.handed|;
    var at, lead := c.first * c.blockSize, j * c.blockSize;
    QueueHead(c, st, at, lead);
    assert st.got <= st.got + st.pending;
    BlockFromObject(st.queue[0], st.got, obj, f.a, f.b + 1, c.first, j, c.blockSize, at, lead);
    k := c.first + j;
  }

  ghost predicate GoodRequest(q: Request, obj: seq<byte>, bs: nat, fl: Flight.State)
    requires 0 < bs
  {
    q.start <= q.end && RequestOk(q, Indexes(q.start, q.end, bs), obj, bs, fl)
  }

  ghost predicate GoodFetchState(f: Fetch, obj: seq<byte>, bs: nat) {
    f.cfg.blockSize == bs && Async.Inv(f.cfg, f.st) && Genuine(f, obj)
  }

  ghost predicate Inv(obj: seq<byte>, bs: nat, s: State) {
    && SmallEnough(|obj|, bs)
    && GoodFiles(obj, bs, s.files)
    && Flight.Inv(Only(obj), s.flights)
    && (forall r :: 0 <= r < |s.requests| ==> GoodRequest(s.requests[r], obj, bs, s.flights))
    && (forall k :: 0 <= k < |s.fetches| ==> GoodFetchState(s.fetches[k], obj, bs))
  }

  lemma EndFits(end: nat, size: nat, bs: nat)
    requires SmallEnough(size, bs) && end < size
    ensures Fits(end, bs) && end / bs < TWO32
  {
    DivMonotone(end, size - 1, bs);
    MulMonotone(end / bs, (size - 1) / bs, bs);
    OffsetExact(end / bs, bs);
  }

  lemma SeesRight(w: World, files: Files, obj: seq<byte>, bs: nat)
    requires 0 < bs && 0 < |obj| && Sees(w, files, |obj|, bs) && GoodFiles(obj, bs, files)
    ensures WorldOk(w, obj, bs)
  {
    forall i: nat ensures GoodFile(obj, bs, i, w.open(i)) {
      if w.open(i).File? {
        assert GoodFile(obj, bs, i, File(files[i]));
      }
    }
  }

  /** A turn sees right files, whatever changed since the last turn. */
  lemma TurnGood(obj: seq<byte>, bs: nat, files: Files, q: Request, req: seq<nat>, w: World, src: Source,
                 fl: Flight.State)
    requires 0 < bs && GoodFiles(obj, bs, files) && RequestOk(q, req, obj, bs, fl) && Sees(w, files, |obj|, bs)
    requires Next(q, |q.parts|) < |req| && SourceOk(src, Asked(w, req, Next(q, |q.parts|), q.end), obj, fl)
    ensures RequestOk(TurnOf(q, w, src, req), req, obj, bs, fl)
  {
    SeesRight(w, files, obj, bs);
    assert Shown(0);
    var t := TurnOf(q, w, src, req);
    forall j | 0 <= j < |t.parts| ensures GoodPart(t, j, req, obj, bs, fl).Some? {
      assert j < |q.parts| ==> GoodPart(q, j, req, obj, bs, fl).Some?;
      assert PartOk(t, j, req, obj, bs, fl);
    }
  }

  /** What callers of flights registered for stays. */
  lemma RangesStay(objs: string -> seq<byte>, fl: Flight.State, e: Flight.Event, i: nat, k: nat)
    requires Flight.Enabled(objs, fl, e) && i < |fl.calls| && k < |fl.calls[i].ranges|
    ensures var fl' := Flight.Apply(objs, fl, e);
            i < |fl'.calls| && k < |fl'.calls[i].ranges| && fl'.calls[i].ranges[k] == fl.calls[i].ranges[k]
  {
  }

  lemma FlightKeeps(q: Request, req: seq<nat>, obj: seq<byte>, bs: nat, fl: Flight.State, e: Flight.Event)
    requires 0 < bs && RequestOk(q, req, obj, bs, fl) && Flight.Enabled(Only(obj), fl, e)
    ensures RequestOk(q, req, obj, bs, Flight.Apply(Only(obj), fl, e))
  {
    assert Shown(0);
    var fl' := Flight.Apply(Only(obj), fl, e);
    forall j | 0 <= j < |q.parts| ensures GoodPart(q, j, req, obj, bs, fl').Some? {
      assert GoodPart(q, j, req, obj, bs, fl).Some?;
      var p := q.parts[j];
      if Asked(p.w, req, p.at, q.end).Ask? && p.src.Shared? {
        RangesStay(Only(obj), fl, e, p.src.i, p.src.k);
      }
      assert PartOk(q, j, req, obj, bs, fl');
    }
  }

  lemma NewFetch(obj: seq<byte>, bs: nat, a: nat, b: nat, queueSize: nat)
    requires 0 < bs && a <= b < |obj| && 0 < queueSize
    ensures var cfg := Async.Config(bs, a, (a + bs - 1) / bs, queueSize);
            GoodFetchState(Fetch(a, b, cfg, Async.Init(cfg)), obj, bs)
  {
    var first := (a + bs - 1) / bs;
    assert a + bs - 1 == first * bs + (a + bs - 1) % bs;
    Async.InitInv(Async.Config(bs, a, first, queueSize));
  }

  lemma FetchGood(obj: seq<byte>, bs: nat, f: Fetch, e: Async.Event)
    requires GoodFetchState(f, obj, bs) && Async.Enabled(f.cfg, f.st, e)
    requires e.StartRead? ==> f.st.got + e.data <= obj[f.a..f.b + 1]
    ensures GoodFetchState(f.(st := Async.Apply(f.cfg, f.st, e)), obj, bs)
  {
    Async.StepInv(f.cfg, f.st, e);
    StepGenuine(f.cfg, f.st, e);
  }

  /** A step moves bytes from pending to got; only a read brings new ones. */
  lemma StepGenuine(c: Async.Config, st: Async.State, e: Async.Event)
    requires 0 < c.blockSize && Async.Enabled(c, st, e) && |st.buf| <= st.pos
    requires st.phase.Idle? ==> st.pending == []
    ensures var st' := Async.Apply(c, st, e);
            st'.got + st'.pending == st.got + if e.StartRead? then e.data else st.pending
  {
    var n := Async.TurnSize(c, st);
    assert st.got + st.pending[..n] + st.pending[n..] == st.got + st.pending;
  }

  lemma FilesGood(obj: seq<byte>, bs: nat, files: Files, f: Fetch, e: Async.Event, torn: nat)
    requires SmallEnough(|obj|, bs) && GoodFiles(obj, bs, files) && GoodFetchState(f, obj, bs)
    requires Async.Enabled(f.cfg, f.st, e) && (e.Write? ==> torn < |f.st.queue[0].buf|)
    ensures GoodFiles(obj, bs, FilesAfter(files, f, e, torn, |obj|, bs))
  {
    if e.Write? {
      var b := f.st.queue[0];
      var k := QueuedFromObject(f, obj);
      WriteKeepsGood(obj, bs, files, b, k);
      ChunkNumber(k, |obj|, bs);
      SmallU32(|obj| / bs);
    }
  }

  lemma StepInv(obj: seq<byte>, bs: nat, s: State, e: Event)
    requires Inv(obj, bs, s) && Enabled(obj, bs, s, e)
    ensures Inv(obj, bs, Apply(obj, bs, s, e))
  {
    match e
    case Arrive(_, _) =>
    case Turn(_, _, _) => TurnInv(obj, bs, s, e);
    case GiveUp(_) =>
      RefusedGood(obj, bs, s, e);
    case OpenFetch(a, b, queueSize) => NewFetch(obj, bs, a, b, queueSize);
    case FetchStep(k, ev, torn) =>
      FetchGood(obj, bs, s.fetches[k], ev);
      FilesGood(obj, bs, s.files, s.fetches[k], ev, torn);
    case FlightStep(fe) => FlightGood(obj, bs, s, fe);
    case Discard(ids) =>
  }

  /** Whether a turn asks the origin or joins a flight, its source answers what it asked for. */
  lemma SourceRight(obj: seq<byte>, fl: Flight.State, ask: Ask, way: Way)
    requires CanAsk(obj, fl, ask, way)
    ensures SourceOk(SourceOf(obj, fl, ask, way), ask, obj, FlightsAfter(obj, fl, ask, way))
  {
    if ask.Ask? && way.Collapsed? {
      Flight.Seated(Only(obj), fl, KEY, Flight.Range(ask.a, ask.b));
    }
  }

  lemma FlightsGood(obj: seq<byte>, bs: nat, s: State, ask: Ask, way: Way)
    requires Inv(obj, bs, s) && CanAsk(obj, s.flights, ask, way)
    ensures Inv(obj, bs, s.(flights := FlightsAfter(obj, s.flights, ask, way)))
  {
    if ask.Ask? && way.Collapsed? {
      FlightGood(obj, bs, s, Flight.Arrive(KEY, Flight.Range(ask.a, ask.b)));
    } else {
      assert s.(flights := s.flights) == s;
    }
  }

  lemma TurnInv(obj: seq<byte>, bs: nat, s: State, e: Event)
    requires Inv(obj, bs, s) && e.Turn? && Enabled(obj, bs, s, e)
    ensures Inv(obj, bs, Apply(obj, bs, s, e))
  {
    var q := s.requests[e.r];
    var req := Indexes(q.start, q.end, bs);
    var ask := Asked(e.w, req, Next(q, |q.parts|), q.end);
    FlightsGood(obj, bs, s, ask, e.way);
    SourceRight(obj, s.flights, ask, e.way);
    TurnGood(obj, bs, s.files, q, req, e.w, SourceOf(obj, s.flights, ask, e.way),
             FlightsAfter(obj, s.flights, ask, e.way));
  }

  lemma RefusedGood(obj: seq<byte>, bs: nat, s: State, e: Event)
    requires Inv(obj, bs, s) && e.GiveUp? && Enabled(obj, bs, s, e)
    ensures Inv(obj, bs, Apply(obj, bs, s, e))
  {
    var q := s.requests[e.r];
    var req, t := Indexes(q.start, q.end, bs), q.(refused := true);
    assert Shown(0);
    forall j | 0 <= j < |t.parts| ensures GoodPart(t, j, req, obj, bs, s.flights).Some? {
      assert GoodPart(q, j, req, obj, bs, s.flights).Some?;
      assert PartOk(t, j, req, obj, bs, s.flights);
    }
  }

  lemma FlightGood(obj: seq<byte>, bs: nat, s: State, fe: Flight.Event)
    requires Inv(obj, bs, s) && Flight.Enabled(Only(obj), s.flights, fe)
    ensures Inv(obj, bs, s.(flights := Flight.Apply(Only(obj), s.flights, fe)))
  {
    Flight.StepInv(Only(obj), s.flights, fe);
    forall r | 0 <= r < |s.requests| ensures GoodRequest(s.requests[r], obj, bs, Flight.Apply(Only(obj),
        s.flights, fe)) {
      assert GoodRequest(s.requests[r], obj, bs, s.flights);
      FlightKeeps(s.requests[r], Indexes(s.requests[r].start, s.requests[r].end, bs), obj, bs, s.flights, fe);
    }
  }

  /** A cache that holds whatever is right, and nothing going on. */
  ghost predicate Begin(obj: seq<byte>, bs: nat, s: State)
    requires 0 < bs
  {
    GoodFiles(obj, bs, s.files) && s.requests == [] && s.fetches == [] && s.flights == Flight.State(map[], [])
  }

  /** `s` is reached from a beginning by `events`, each of them possible in its turn. */
  ghost predicate Run(obj: seq<byte>, bs: nat, events: seq<Event>, s: State)
    requires 0 < bs
  {
    if events == [] then Begin(obj, bs, s)
    else
      var n := |events| - 1;
      exists t: State :: Run(obj, bs, events[..n], t) && Enabled(obj, bs, t, events[n]) &&
          s == Apply(obj, bs, t, events[n])
  }

  lemma {:induction false} RunInv(obj: seq<byte>, bs: nat, events: seq<Event>, s: State)
    requires SmallEnough(|obj|, bs) && Run(obj, bs, events, s)
    ensures Inv(obj, bs, s)
  {
    if events != [] {
      var n := |events| - 1;
      var t: State :| Run(obj, bs, events[..n], t) && Enabled(obj, bs, t, events[n]) &&
          s == Apply(obj, bs, t, events[n]);
      RunInv(obj, bs, events[..n], t);
      StepInv(obj, bs, t, events[n]);
    }
  }

  lemma RequestChunks(q: Request, size: nat, bs: nat, req: seq<nat>) returns (first: nat, last: nat)
    requires SmallEnough(size, bs) && q.start <= q.end < size && req == Indexes(q.start, q.end, bs)
    ensures Chunks(req, q.start, q.end, bs, first, last).Some?
  {
    first, last := q.start / bs, q.end / bs;
    assert last * bs < TWO32 && last < TWO32 by {
      EndFits(q.end, size, bs);
    }
    IndexesRequest(q.start, q.end, bs);
  }

  /** Every request of a run asks for bytes of the object, from the chunks req. */
  lemma RequestInside(obj: seq<byte>, bs: nat, events: seq<Event>, s: State, r: nat, q: Request) returns (req: seq<nat>)
    requires SmallEnough(|obj|, bs) && Run(obj, bs, events, s) && r < |s.requests| && q == s.requests[r]
    ensures q.start <= q.end < |obj| && req == Indexes(q.start, q.end, bs)
    ensures RequestOk(q, req, obj, bs, s.flights) && Flight.Inv(Only(obj), s.flights)
  {
    RunInv(obj, bs, events, s);
    assert GoodRequest(s.requests[r], obj, bs, s.flights);
    req := Indexes(q.start, q.end, bs);
  }

  /** The cache agrees with the origin: over any run, the body of every response that was assembled
      to its end has at every moment delivered the origin's bytes of the requested range, or a part of
      them and an error, if every flight it reads from covers what it wanted. */
  lemma EveryResponseRight(obj: seq<byte>, bs: nat, events: seq<Event>, s: State, r: nat,
                           q: Request) returns (req: seq<nat>)
    requires SmallEnough(|obj|, bs) && Run(obj, bs, events, s) && r < |s.requests| && q == s.requests[r]
    ensures q.start <= q.end < |obj| && req == Indexes(q.start, q.end, bs)
    ensures Next(q, |q.parts|) == |req| && AllCovered(q, req, s.flights) ==>
              Faithful(BodyOf(q, req, s.flights), obj[q.start..q.end + 1])
  {
    req := RequestInside(obj, bs, events, s, r, q);
    if Next(q, |q.parts|) == |req| {
      ServedRight(obj, bs, s.flights, q, req);
    }
  }

  lemma ServedRight(obj: seq<byte>, bs: nat, fl: Flight.State, q: Request, req: seq<nat>)
    requires SmallEnough(|obj|, bs) && q.start <= q.end < |obj| && req == Indexes(q.start, q.end, bs)
    requires RequestOk(q, req, obj, bs, fl) && Flight.Inv(Only(obj), fl) && Next(q, |q.parts|) == |req|
    ensures AllCovered(q, req, fl) ==> Faithful(BodyOf(q, req, fl), obj[q.start..q.end + 1])
    ensures BodyOf(q, req, fl).complete ==>
              (BodyOf(q, req, fl).bytes == obj[q.start..q.end + 1] <==> AllServed(q, req, obj, fl))
  {
    var first, last := RequestChunks(q, |obj|, bs, req);
    if AllCovered(q, req, fl) {
      FaithfulIfCovered(q, req, obj, bs, fl, first, last);
    }
    if BodyOf(q, req, fl).complete {
      RightIffServed(q, req, obj, bs, fl, first, last);
    }
  }

  /** The exact condition: once a body has ended without an error, it was the requested bytes if
      and only if every flight it read from covers what it wanted of it; or, for a flight before the
      last requested chunk, cached, if that chunk has at least as many bytes behind the requested ones
      as the flight left out, and those that came instead of the missing ones are the same. */
  lemma ResponseRightIffServed(obj: seq<byte>, bs: nat, events: seq<Event>, s: State, r: nat,
                               q: Request) returns (req: seq<nat>)
    requires SmallEnough(|obj|, bs) && Run(obj, bs, events, s) && r < |s.requests| && q == s.requests[r]
    ensures q.start <= q.end < |obj| && req == Indexes(q.start, q.end, bs)
    ensures Next(q, |q.parts|) == |req| && BodyOf(q, req, s.flights).complete ==>
              (BodyOf(q, req, s.flights).bytes == obj[q.start..q.end + 1] <==> AllServed(q, req, obj, s.flights))
  {
    req := RequestInside(obj, bs, events, s, r, q);
    if Next(q, |q.parts|) == |req| {
      ServedRight(obj, bs, s.flights, q, req);
    }
  }

  /** And what the server sends, when the copy ends without an error: the requested bytes if and only if
      that holds and no part is bare, that is, takes an anchor and is neither the last part nor a first
      one that is skipped into. */
  lemma SentRightIff(obj: seq<byte>, bs: nat, events: seq<Event>, s: State, r: nat, q: Request) returns (req: seq<nat>)
    requires SmallEnough(|obj|, bs) && Run(obj, bs, events, s) && r < |s.requests| && q == s.requests[r]
    ensures q.start <= q.end < |obj| && req == Indexes(q.start, q.end, bs)
    ensures Next(q, |q.parts|) == |req| && SentOf(q, req, s.flights).complete ==>
              (SentOf(q, req, s.flights).bytes == obj[q.start..q.end + 1] <==>
               AllServed(q, req, obj, s.flights) && NoBarePart(q, req))
  {
    req := RequestInside(obj, bs, events, s, r, q);
    if Next(q, |q.parts|) == |req| && SentOf(q, req, s.flights).complete {
      var first, last := RequestChunks(q, |obj|, bs, req);
      SentRightIffServed(q, req, obj, bs, s.flights, first, last);
    }
  }

  ghost predicate Reachable(obj: seq<byte>, bs: nat, s: State)
    requires 0 < bs
  {
    exists events :: Run(obj, bs, events, s)
  }

  lemma Reach(obj: seq<byte>, bs: nat, s: State, e: Event)
    requires 0 < bs && Reachable(obj, bs, s) && Enabled(obj, bs, s, e)
    ensures Reachable(obj, bs, Apply(obj, bs, s, e))
  {
    var events :| Run(obj, bs, events, s);
    var all := events + [e];
    assert all[..|all| - 1] == events && all[|all| - 1] == e;
    assert Run(obj, bs, all, Apply(obj, bs, s, e));
  }

  lemma ReachArrive(obj: seq<byte>, bs: nat, s: State, start: nat, end: nat)
    requires 0 < bs && Reachable(obj, bs, s) && start <= end < |obj|
    ensures Reachable(obj, bs, s.(requests := s.requests + [Request(start, end, [], false)]))
  {
    Reach(obj, bs, s, Arrive(start, end));
  }

  lemma ReachFlight(obj: seq<byte>, bs: nat, s: State, fe: Flight.Event)
    requires 0 < bs && Reachable(obj, bs, s) && !fe.Arrive? && Flight.Enabled(Only(obj), s.flights, fe)
    requires fe.Fan? && fe.e.Deliver? ==> Attended(s, bs, fe.i, s.flights.calls[fe.i].phase.copy.w)
    ensures Reachable(obj, bs, s.(flights := Flight.Apply(Only(obj), s.flights, fe)))
  {
    Reach(obj, bs, s, FlightStep(fe));
  }

  /** A turn at position `at` of a request for bytes start..end that finds the bucket like w: it asks
      for bytes a..b and covers `count` chunks, of n. */
  ghost predicate HasPlan(w: World, start: nat, end: nat, bs: nat, n: nat, at: nat, a: nat, b: nat, count: nat) {
    forall t {:trigger Shown(t)} :: Shown(t) ==>
      && 0 < bs == w.blockSize && 0 < w.size && start <= end && n == |Indexes(start, end, bs)| && at < n
      && Asked(w, Indexes(start, end, bs), at, end) == Ask(a, b) && 0 < count == Count(w, Indexes(start, end, bs), at)
  }

  ghost function Planned(w: World, start: nat, end: nat, bs: nat, n: nat, at: nat, a: nat, b: nat,
                         count: nat): Option<World> {
    if HasPlan(w, start, end, bs, n, at, a, b, count) then Some(w) else None
  }

  /** It joins a flight for these bytes. */
  lemma ReachJoin(obj: seq<byte>, bs: nat, s: State, r: nat, q: Request, w: World, n: nat, at: nat, a: nat, b: nat,
                  count: nat)
    requires 0 < bs && Reachable(obj, bs, s) && 0 < |obj| && Sees(w, s.files, |obj|, bs)
    requires r < |s.requests| && q == s.requests[r] && !q.refused && Returned(q, s.flights)
    requires at == Next(q, |q.parts|) && Planned(w, q.start, q.end, bs, n, at, a, b, count).Some?
    requires Flight.Enabled(Only(obj), s.flights, Flight.Arrive(KEY, Flight.Range(a, b)))
    ensures var seat := Flight.Seat(s.flights, KEY);
            var t := q.(parts := q.parts + [Part(at, count, w, Shared(seat.0, seat.1))]);
            Reachable(obj, bs, s.(requests := s.requests[r := t],
                flights := Flight.Apply(Only(obj), s.flights, Flight.Arrive(KEY, Flight.Range(a, b)))))
  {
    assert Shown(0);
    Reach(obj, bs, s, Turn(r, w, Collapsed));
  }

  /** And what is on disk is right: a chunk file of the right length is that chunk. */
  lemma EveryFileRight(obj: seq<byte>, bs: nat, events: seq<Event>, s: State, i: nat)
    requires SmallEnough(|obj|, bs) && Run(obj, bs, events, s)
    requires i in s.files && |s.files[i]| == ExpectedSize(|obj|, bs, i)
    ensures s.files[i] == Chunk(obj, bs, i)
  {
    RunInv(obj, bs, events, s);
    assert GoodFile(obj, bs, i, File(s.files[i]));
  }
}
