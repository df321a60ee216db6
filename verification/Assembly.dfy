/** Answering a range request from chunk files and upstream sub-requests: the loop of
    lazilyRespond in server/middleware/caching/caching.go and getContents in internal.go, as
    functions of what the files and the origin answer. */
module Assembly {
  import opened Streams
  import opened Search
  import opened Arith

  const TWO32 := 0x1_0000_0000
  const MAX64 := 0xFFFF_FFFF_FFFF_FFFF

  /** The value a Go uint32 keeps of x. */
  function U32(x: nat): nat {
    x % TWO32
  }

  function Min(a: nat, b: nat): nat {
    if a < b then a else b
  }

  /** ReadChunkFile: not there, some other error, or the contents. */
  datatype Open = Missing | Broken | File(data: seq<byte>)

  /** What one request sees: the object's metadata, the bucket, and the origin. `fetch(a, b)` is
      the body of the sub-request for bytes a-b. */
  datatype World = World(
    size: nat,
    blockSize: nat,
    open: nat -> Open,
    avail: seq<nat>,
    fetch: (nat, nat) -> Stream)

  /** The chunk numbers of the bytes start..end, as uint32 (ioindexes.Build). */
  function Indexes(start: nat, end: nat, bs: nat): (r: seq<nat>)
    requires 0 < bs && start <= end
    ensures |r| == end / bs - start / bs + 1
  {
    DivMonotone(start, end, bs);
    seq<nat>(end / bs + 1 - start / bs, (k: nat) => U32(start / bs + k))
  }

  /** The size checkChunkSize expects of chunk file `idx`. */
  function ExpectedSize(size: nat, bs: nat, idx: nat): nat
    requires 0 < bs
  {
    if idx == U32(size / bs) then size % bs else bs
  }

  datatype Piece = Error | Piece(s: Stream, count: nat)

  /** The byte offset of a chunk, computed in uint32. */
  function Offset(idx: nat, bs: nat): nat {
    U32(idx * U32(bs))
  }

  /** x - 1 in uint64. */
  function Before(x: nat): nat {
    if x == 0 then MAX64 else x - 1
  }

  predicate RightSize(w: World, idx: nat, f: Open)
    requires 0 < w.blockSize
  {
    f.File? && |f.data| == ExpectedSize(w.size, w.blockSize, idx)
  }

  /** Where the chunk comes from. */
  datatype Plan = Fail | FromFile(data: seq<byte>) | FromAnchor(a: nat, anchor: seq<byte>) | FromOrigin

  /** The nearest cached chunk behind a missing one, if the search finds it. */
  function ChooseAnchor(w: World, idx: nat, last: nat): (plan: Plan)
    requires 0 < w.blockSize
    ensures plan.FromAnchor? ==> idx < plan.a <= last
  {
    var index := BinarySearch(w.avail, Between(idx, last), 0, |w.avail|);
    if index < |w.avail| && w.open(w.avail[index]).File? then
      var a := w.avail[index];
      if RightSize(w, a, w.open(a)) then FromAnchor(a, w.open(a).data) else Fail
    else FromOrigin
  }

  function Choose(w: World, idx: nat, last: nat): (plan: Plan)
    requires 0 < w.blockSize
    ensures plan.FromAnchor? ==> idx < plan.a <= last
  {
    var f := w.open(idx);
    if f.Broken? then Fail
    else if RightSize(w, idx, f) then FromFile(f.data)
    else ChooseAnchor(w, idx, last)
  }

  /** The bytes a turn asks upstream for, if it does. */
  datatype Ask = NoAsk | Ask(a: nat, b: nat)

  /** Before an anchor, the missing chunks up to it; without one, all that is left. */
  function Asked(w: World, req: seq<nat>, at: nat, end: nat): Ask
    requires at < |req| && 0 < w.blockSize && 0 < w.size
  {
    var idx, last, bs := req[at], req[|req| - 1], w.blockSize;
    match Choose(w, idx, last)
    case FromAnchor(a, _) => Ask(Offset(idx, bs), Min(w.size - 1, Before(Offset(a, bs))))
    case FromOrigin => Ask(Offset(idx, bs), Min(w.size - 1, Min(Before(U32(last + 1) * bs), end)))
    case _ => NoAsk
  }

  /** What is read for chunk idx, at position `at` of n, when upstream answers f. */
  function Raw(plan: Plan, idx: nat, at: nat, n: nat, f: Stream): (p: Piece)
    requires at < n && (plan.FromAnchor? ==> idx < plan.a)
    ensures p.Piece? ==> 0 < p.count
  {
    match plan
    case Fail => Error
    case FromFile(data) => Piece(Stream(data, true), 1)
    case FromAnchor(a, data) => Piece(Concat(f, Stream(data, true)), a - idx + 1)
    case FromOrigin => Piece(f, n - at)
  }

  /** getContents: what chunk req[from] and possibly some after it are read from. */
  function GetContents(w: World, req: seq<nat>, from: nat, end: nat): (p: Piece)
    requires from < |req| && 0 < w.blockSize && 0 < w.size
    ensures p.Piece? ==> 0 < p.count
  {
    var idx, ask := req[from], Asked(w, req, from, end);
    Raw(Choose(w, idx, req[|req| - 1]), idx, from, |req|, if ask.Ask? then w.fetch(ask.a, ask.b) else Done)
  }

  /** The bytes skipped at position i. */
  function Head(i: nat, start: nat, bs: nat): nat
    requires 0 < bs
  {
    if i == 0 then start % bs else 0
  }

  /** The bytes allowed in a tail piece of `count` chunks. */
  function Tail(count: nat, end: nat, bs: nat, head: nat): nat
    requires 0 < bs && 0 < count
  {
    var limit := (count - 1) * bs + end % bs + 1 - head;
    if limit < 0 then 0 else limit
  }

  function Skipped(s: Stream, head: nat): Stream {
    if head > 0 then Drop(s, head) else s
  }

  /** Head skip and tail limit of the piece that starts at position i of n. */
  function Trim(p: Piece, i: nat, n: nat, start: nat, end: nat, bs: nat): Stream
    requires p.Piece? && 0 < p.count && 0 < bs
  {
    var head := Head(i, start, bs);
    if i + p.count == n then Take(Skipped(p.s, head), Tail(p.count, end, bs, head)) else Skipped(p.s, head)
  }

  datatype Body = Refused | Body(s: Stream)

  /** One turn of the loop of lazilyRespond at position i. */
  function Turn(w: World, req: seq<nat>, start: nat, end: nat, i: nat): Piece
    requires 0 < w.blockSize && 0 < w.size
  {
    if i >= |req| then Error
    else
      match GetContents(w, req, i, end)
      case Error => Error
      case Piece(s, count) => Piece(Trim(Piece(s, count), i, |req|, start, end, w.blockSize), count)
  }

  /** The loop from position i to n, where a turn at a position adds a stream and moves on: the
      body of the response. */
  function Assemble(turn: nat -> Piece, i: nat, n: nat): Body
    decreases n - i
  {
    if i >= n then Body(Done)
    else
      match turn(i)
      case Error => Refused
      case Piece(s, count) =>
        if count == 0 then Refused
        else
          match Assemble(turn, i + count, n)
          case Refused => Refused
          case Body(t) => Body(Concat(s, t))
  }

  /** lazilyRespond: the body for bytes start..end. */
  function Respond(w: World, start: nat, end: nat): Body
    requires 0 < w.blockSize && 0 < w.size && start <= end
  {
    var req := Indexes(start, end, w.blockSize);
    Assemble((i: nat) => Turn(w, req, start, end, i), 0, |req|)
  }
}
