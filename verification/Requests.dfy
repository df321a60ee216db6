/** Range requests whose missing chunks may be read through shared flights. A request holds the
    readers of its parts; what it delivers depends on how far the flights behind them have come. */
module Requests {
  import opened Streams
  import opened Arith
  import opened Search
  import opened Assembly
  import opened AssemblyProof
  import opened Hidden
  import opened Sending
  import Flight = ChunkFlight

  /** What getUpstreamReader gives: the origin's own answer or, with collapsed forwarding, the
      reader of caller k of flight i. */
  datatype Source = Direct(s: Stream) | Shared(i: nat, k: nat)

  /** One turn of the assembly loop: its position, how many chunks it covers, what it saw of the
      bucket, and its source. */
  datatype Part = Part(at: nat, count: nat, w: World, src: Source)

  datatype Request = Request(start: nat, end: nat, parts: seq<Part>, refused: bool)

  /** How many chunks a turn covers. */
  function Count(w: World, req: seq<nat>, at: nat): nat
    requires at < |req| && 0 < w.blockSize
  {
    match Raw(Choose(w, req[at], req[|req| - 1]), req[at], at, |req|, Done)
    case Error => 0
    case Piece(_, count) => count
  }

  /** The world of a turn whose upstream reader delivers s. */
  function Fed(w: World, ask: Ask, s: Stream): World {
    w.(fetch := (a: nat, b: nat) => if ask == Ask(a, b) then s else Stream([], false))
  }

  /** What a source has delivered so far. */
  function Value(src: Source, fl: Flight.State): Stream {
    match src
    case Direct(s) => s
    case Shared(i, k) =>
      if i < |fl.calls| && k < |fl.calls[i].ranges| && k < |fl.calls[i].pipes|
         && fl.calls[i].ranges[k].from <= fl.calls[i].ranges[k].to
      then Flight.Delivered(Flight.Reading(fl.calls[i].pipes[k], fl.calls[i].union, fl.calls[i].ranges[k]))
      else Stream([], false)
  }

  /** The source answers what was asked: the origin sends those bytes, or the caller of the flight
      registered for them. */
  ghost predicate SourceOk(src: Source, ask: Ask, obj: seq<byte>, fl: Flight.State) {
    ask.Ask? ==>
      match src
      case Direct(s) => GoodFetch(obj, ask.a, ask.b, s)
      case Shared(i, k) =>
        i < |fl.calls| && k < |fl.calls[i].ranges| && fl.calls[i].ranges[k] == Flight.Range(ask.a, ask.b)
  }

  /** The flight behind the source, if one was asked, covers the range. */
  predicate SourceCovered(src: Source, ask: Ask, fl: Flight.State) {
    ask.Ask? && src.Shared? && src.i < |fl.calls| && src.k < |fl.calls[src.i].ranges| ==>
      Flight.Covered(fl.calls[src.i], src.k)
  }

  /** What a turn saw of the bucket is right. */
  ghost predicate WorldOk(w: World, obj: seq<byte>, bs: nat)
    requires 0 < bs
  {
    && w.size == |obj| && w.blockSize == bs && Ascending(w.avail)
    && forall i: nat :: GoodFile(obj, bs, i, w.open(i))
  }

  function Trimmed(p: Piece, at: nat, n: nat, start: nat, end: nat, bs: nat): Piece
    requires p.Piece? ==> 0 < p.count && 0 < bs
  {
    if p.Error? then Error else Piece(Trim(p, at, n, start, end, bs), p.count)
  }

  /** What part p of a request for the chunks req has delivered. */
  function PieceOf(p: Part, req: seq<nat>, start: nat, end: nat, fl: Flight.State): Piece
    requires p.at < |req| && 0 < p.w.blockSize && 0 < p.w.size
  {
    var idx, last := req[p.at], req[|req| - 1];
    Trimmed(Raw(Choose(p.w, idx, last), idx, p.at, |req|, Value(p.src, fl)), p.at, |req|, start, end,
        p.w.blockSize)
  }

  lemma SamePlan(w: World, ask: Ask, s: Stream, idx: nat, last: nat)
    requires 0 < w.blockSize
    ensures Choose(Fed(w, ask, s), idx, last) == Choose(w, idx, last)
  {
  }

  /** This is the turn of the assembly loop when upstream delivers f. */
  lemma TurnIs(w: World, req: seq<nat>, at: nat, start: nat, end: nat, f: Stream)
    requires 0 < w.blockSize && 0 < w.size && at < |req|
    ensures Turn(Fed(w, Asked(w, req, at, end), f), req, start, end, at) ==
            Trimmed(Raw(Choose(w, req[at], req[|req| - 1]), req[at], at, |req|, f), at, |req|, start, end,
                w.blockSize)
  {
    SamePlan(w, Asked(w, req, at, end), f, req[at], req[|req| - 1]);
  }

  // ---- The parts of a request ----

  /** The turns made so far have returned: the last of them is not waiting for its flight. */
  predicate Returned(q: Request, fl: Flight.State) {
    q.parts == [] || CallerIs(q.parts[|q.parts| - 1].src, fl, Flight.Given)
  }

  /** The caller of the flight behind a source is in this state; a direct source has none. */
  predicate CallerIs(src: Source, fl: Flight.State, c: Flight.Caller) {
    match src
    case Direct(_) => c.Given?
    case Shared(i, k) => i < |fl.calls| && k < |fl.calls[i].callers| && fl.calls[i].callers[k] == c
  }

  /** A source has been read to its end. */
  predicate SourceEnded(src: Source, fl: Flight.State) {
    match src
    case Direct(s) => s.complete
    case Shared(i, k) => i < |fl.calls| && Flight.ReadOut(fl.calls[i], k)
  }

  /** Or an error came from it. */
  predicate SourceFailed(src: Source, fl: Flight.State) {
    match src
    case Direct(s) => !s.complete
    case Shared(i, k) => i < |fl.calls| && Flight.ReadFailed(fl.calls[i], k)
  }

  /** Every turn of the request has been made, and the response is being read. */
  predicate Assembled(q: Request, bs: nat, fl: Flight.State) {
    && 0 < bs && q.start <= q.end && !q.refused
    && Next(q, |q.parts|) == |Indexes(q.start, q.end, bs)| && Returned(q, fl)
  }

  /** The parts before part j have been read to their ends. */
  predicate EndedBefore(q: Request, j: nat, fl: Flight.State) {
    forall h :: 0 <= h < j && h < |q.parts| ==> SourceEnded(q.parts[h].src, fl)
  }

  /** The part's reader is a parts reader that was left as it is: nothing behind it is sent. */
  predicate PartBare(p: Part, req: seq<nat>, start: nat) {
    0 < p.w.blockSize && Bare(p.w, req, start, p.at)
  }

  /** None of the parts before part j is. */
  predicate NoneBareBefore(q: Request, j: nat, bs: nat) {
    && 0 < bs && q.start <= q.end
    && forall h :: 0 <= h < j && h < |q.parts| ==> !PartBare(q.parts[h], Indexes(q.start, q.end, bs), q.start)
  }

  /** The server copies one part after the other, up to the first bare one. */
  predicate Reads(q: Request, j: nat, bs: nat, fl: Flight.State) {
    Assembled(q, bs, fl) && EndedBefore(q, j, fl) && NoneBareBefore(q, j, bs)
  }

  /** Part j goes on where the one before ended, saw right files, and reads what it asked for. */
  ghost predicate PartOk(q: Request, j: nat, req: seq<nat>, obj: seq<byte>, bs: nat, fl: Flight.State)
    requires 0 < bs && 0 < |obj| && j < |q.parts|
  {
    var p := q.parts[j];
    && WorldOk(p.w, obj, bs) && p.at < |req| && p.at == Next(q, j)
    && 0 < p.count == Count(p.w, req, p.at) && SourceOk(p.src, Asked(p.w, req, p.at, q.end), obj, fl)
  }

  /** That, as a fact behind a name. */
  ghost predicate HasPart(q: Request, j: nat, req: seq<nat>, obj: seq<byte>, bs: nat, fl: Flight.State)
    requires 0 < bs && 0 < |obj| && j < |q.parts|
  {
    forall t {:trigger Shown(t)} :: Shown(t) ==> PartOk(q, j, req, obj, bs, fl)
  }

  ghost function GoodPart(q: Request, j: nat, req: seq<nat>, obj: seq<byte>, bs: nat, fl: Flight.State): Option<Part>
    requires 0 < bs && 0 < |obj| && j < |q.parts|
  {
    if HasPart(q, j, req, obj, bs, fl) then Some(q.parts[j]) else None
  }

  /** The position behind the first m parts. */
  function Next(q: Request, m: nat): nat
    requires m <= |q.parts|
  {
    if m == 0 then 0 else q.parts[m - 1].at + q.parts[m - 1].count
  }

  ghost predicate RequestOk(q: Request, req: seq<nat>, obj: seq<byte>, bs: nat, fl: Flight.State)
    requires 0 < bs
  {
    && q.start <= q.end < |obj| && req == Indexes(q.start, q.end, bs)
    && forall j :: 0 <= j < |q.parts| ==> GoodPart(q, j, req, obj, bs, fl).Some?
  }

  /** What part j has delivered. */
  function Delivered(q: Request, j: nat, req: seq<nat>, fl: Flight.State): Stream
    requires j < |q.parts|
  {
    var p := q.parts[j];
    if p.at < |req| && 0 < p.w.blockSize && 0 < p.w.size then
      match PieceOf(p, req, q.start, q.end, fl)
      case Error => Stream([], false)
      case Piece(s, _) => s
    else Stream([], false)
  }

  function Delivereds(q: Request, req: seq<nat>, fl: Flight.State): (ss: seq<Stream>)
    ensures |ss| == |q.parts| && forall j :: 0 <= j < |ss| ==> ss[j] == Delivered(q, j, req, fl)
  {
    seq(|q.parts|, j requires 0 <= j < |q.parts| => Delivered(q, j, req, fl))
  }

  /** Streams one after the other: nothing comes from behind one that has not ended. */
  function Joined(ss: seq<Stream>, m: nat): Stream
    requires m <= |ss|
  {
    if m == 0 then Done else Concat(Joined(ss, m - 1), ss[m - 1])
  }

  /** What the request has delivered. */
  function BodyOf(q: Request, req: seq<nat>, fl: Flight.State): Stream {
    Joined(Delivereds(q, req, fl), |q.parts|)
  }

  /** How many parts are sent when those before part j are: up to the first bare one, or all. */
  function PartsSent(q: Request, req: seq<nat>, j: nat): (m: nat)
    requires j <= |q.parts|
    ensures j <= m <= |q.parts|
    ensures m == |q.parts| || (j < m && PartBare(q.parts[m - 1], req, q.start))
    ensures (exists h :: j <= h < |q.parts| && PartBare(q.parts[h], req, q.start)) ==>
              j < m && PartBare(q.parts[m - 1], req, q.start)
    decreases |q.parts| - j
  {
    if j == |q.parts| then j else if PartBare(q.parts[j], req, q.start) then j + 1 else PartsSent(q, req, j + 1)
  }

  /** What the server has sent of the request's body. */
  function SentOf(q: Request, req: seq<nat>, fl: Flight.State): Stream {
    Joined(Delivereds(q, req, fl), PartsSent(q, req, 0))
  }

  ghost predicate NoBarePart(q: Request, req: seq<nat>) {
    forall j :: 0 <= j < |q.parts| ==> !PartBare(q.parts[j], req, q.start)
  }

  /** Every flight the request reads from covers what it wanted of it. */
  ghost predicate AllCovered(q: Request, req: seq<nat>, fl: Flight.State) {
    forall j :: 0 <= j < |q.parts| ==> PartCovered(q.parts[j], req, q.end, fl)
  }

  predicate PartCovered(p: Part, req: seq<nat>, end: nat, fl: Flight.State) {
    p.at < |req| && 0 < p.w.blockSize && 0 < p.w.size ==> SourceCovered(p.src, Asked(p.w, req, p.at, end), fl)
  }

  /** `req` are the chunks first..last of the bytes start..end, and their offsets fit a uint32. */
  ghost predicate HasChunks(req: seq<nat>, start: nat, end: nat, bs: nat, first: nat, last: nat) {
    forall t {:trigger Shown(t)} :: Shown(t) ==>
      AssemblyProof.Request(req, start, end, bs, first, last) && last * bs < TWO32
  }

  ghost function Chunks(req: seq<nat>, start: nat, end: nat, bs: nat, first: nat, last: nat): Option<seq<nat>> {
    if HasChunks(req, start, end, bs, first, last) then Some(req) else None
  }

  /** Every key of a flight stands for this object. */
  ghost function Only(obj: seq<byte>): string -> seq<byte> {
    (key: string) => obj
  }

  lemma CoveredFetch(src: Source, a: nat, b: nat, obj: seq<byte>, fl: Flight.State)
    requires Flight.Inv(Only(obj), fl) && SourceOk(src, Ask(a, b), obj, fl)
    ensures SourceCovered(src, Ask(a, b), fl) ==> GoodFetch(obj, a, b, Value(src, fl))
    ensures !SourceCovered(src, Ask(a, b), fl) ==> a <= b < |obj| && |Value(src, fl).bytes| < b - a + 1
  {
    if src.Shared? {
      Flight.FlightFetch(Only(obj), fl, src.i, src.k);
    }
  }

  lemma FedSound(w: World, obj: seq<byte>, bs: nat, ask: Ask, s: Stream)
    requires 0 < bs && 0 < |obj| && WorldOk(w, obj, bs) && (ask.Ask? ==> GoodFetch(obj, ask.a, ask.b, s))
    ensures Sound(Fed(w, ask, s), obj)
  {
    var f := Fed(w, ask, s);
    forall a: nat, b: nat ensures GoodFetch(obj, a, b, f.fetch(a, b)) {
    }
    forall i: nat ensures GoodFile(obj, f.blockSize, i, f.open(i)) {
    }
  }

  /** Where part j begins; behind the last part, how far the request has come. */
  function At(q: Request, j: nat, req: seq<nat>, bs: nat, first: nat): nat {
    if j <= |q.parts| then Pos(Next(q, j), |req|, first, q.start, q.end, bs) else 0
  }

  /** Part p of a request for bytes start..end has delivered s, and its place is from lo to hi. */
  ghost predicate StandsAt(p: Part, s: Stream, req: seq<nat>, obj: seq<byte>, bs: nat, fl: Flight.State,
                           start: nat, end: nat, first: nat, lo: nat, hi: nat)
    requires 0 < bs && 0 < |obj|
  {
    forall x {:trigger Shown(x)} :: Shown(x) ==>
      && WorldOk(p.w, obj, bs) && p.at < |req| && SourceOk(p.src, Asked(p.w, req, p.at, end), obj, fl)
      && PieceOf(p, req, start, end, fl) == Piece(s, p.count)
      && lo == Pos(p.at, |req|, first, start, end, bs) && hi == Pos(p.at + p.count, |req|, first, start, end, bs)
  }

  ghost function Sitting(p: Part, s: Stream, req: seq<nat>, obj: seq<byte>, bs: nat, fl: Flight.State,
                        start: nat, end: nat, first: nat, lo: nat, hi: nat): Option<Stream>
    requires 0 < bs && 0 < |obj|
  {
    if StandsAt(p, s, req, obj, bs, fl, start, end, first, lo, hi) then Some(s) else None
  }

  lemma SittingIs(p: Part, s: Stream, req: seq<nat>, obj: seq<byte>, bs: nat, fl: Flight.State,
                 start: nat, end: nat, first: nat, lo: nat, hi: nat)
    requires 0 < bs && 0 < |obj| && Sitting(p, s, req, obj, bs, fl, start, end, first, lo, hi).Some?
    ensures WorldOk(p.w, obj, bs) && p.at < |req| && SourceOk(p.src, Asked(p.w, req, p.at, end), obj, fl)
    ensures PieceOf(p, req, start, end, fl) == Piece(s, p.count)
    ensures lo == Pos(p.at, |req|, first, start, end, bs) && hi == Pos(p.at + p.count, |req|, first, start, end, bs)
  {
    assert Shown(0);
  }

  lemma PartAt(q: Request, j: nat, req: seq<nat>, obj: seq<byte>, bs: nat, fl: Flight.State, first: nat)
    requires 0 < bs && RequestOk(q, req, obj, bs, fl) && j < |q.parts|
    ensures q.parts[j].at < |req| && q.parts[j].w.blockSize == bs
    ensures Sitting(q.parts[j], Delivered(q, j, req, fl), req, obj, bs, fl, q.start, q.end, first,
                   At(q, j, req, bs, first), At(q, j + 1, req, bs, first)).Some?
  {
    assert Shown(0) && GoodPart(q, j, req, obj, bs, fl).Some?;
  }

  lemma CoveredTurn(p: Part, req: seq<nat>, obj: seq<byte>, bs: nat, fl: Flight.State, start: nat, end: nat,
                    first: nat, last: nat)
    requires 0 < bs && end < |obj| && WorldOk(p.w, obj, bs) && p.at < |req|
    requires Chunks(req, start, end, bs, first, last).Some?
    requires SourceOk(p.src, Asked(p.w, req, p.at, end), obj, fl)
    requires Flight.Inv(Only(obj), fl) && PartCovered(p, req, end, fl)
    ensures Gains(PieceOf(p, req, start, end, fl), obj, p.at, |req|, first, start, end, bs).Some?
  {
    assert Shown(0);
    var ask, s := Asked(p.w, req, p.at, end), Value(p.src, fl);
    if ask.Ask? {
      CoveredFetch(p.src, ask.a, ask.b, obj, fl);
    }
    FedSound(p.w, obj, bs, ask, s);
    RightTurn(Fed(p.w, ask, s), obj, start, end, req, p.at, first, last);
    TurnIs(p.w, req, p.at, start, end, s);
  }

  lemma CoveredPiece(p: Part, s: Stream, req: seq<nat>, obj: seq<byte>, bs: nat, fl: Flight.State,
                     start: nat, end: nat, first: nat, last: nat, lo: nat, hi: nat)
    requires 0 < bs && end < |obj| && Sitting(p, s, req, obj, bs, fl, start, end, first, lo, hi).Some?
    requires Chunks(req, start, end, bs, first, last).Some?
    requires Flight.Inv(Only(obj), fl) && PartCovered(p, req, end, fl)
    ensures Covers(s, obj, lo, hi)
  {
    SittingIs(p, s, req, obj, bs, fl, start, end, first, lo, hi);
    CoveredAt(p, PieceOf(p, req, start, end, fl), req, obj, bs, fl, start, end, first, last, lo, hi);
  }

  lemma CoveredAt(p: Part, t: Piece, req: seq<nat>, obj: seq<byte>, bs: nat, fl: Flight.State,
                  start: nat, end: nat, first: nat, last: nat, lo: nat, hi: nat)
    requires 0 < bs && end < |obj| && WorldOk(p.w, obj, bs) && p.at < |req|
    requires Chunks(req, start, end, bs, first, last).Some?
    requires SourceOk(p.src, Asked(p.w, req, p.at, end), obj, fl)
    requires Flight.Inv(Only(obj), fl) && PartCovered(p, req, end, fl)
    requires t == PieceOf(p, req, start, end, fl) && t.Piece? && t.count == p.count
    requires lo == Pos(p.at, |req|, first, start, end, bs) && hi == Pos(p.at + p.count, |req|, first, start, end, bs)
    ensures Covers(t.s, obj, lo, hi)
  {
    CoveredTurn(p, req, obj, bs, fl, start, end, first, last);
    AdvancesCovers(t, obj, p.at, |req|, first, start, end, bs, lo, hi);
  }

  /** A covered part is the object between its two positions. */
  lemma PartCovers(q: Request, j: nat, req: seq<nat>, obj: seq<byte>, bs: nat, fl: Flight.State, first: nat, last: nat)
    requires 0 < bs && RequestOk(q, req, obj, bs, fl) && j < |q.parts|
    requires Chunks(req, q.start, q.end, bs, first, last).Some?
    requires Flight.Inv(Only(obj), fl) && PartCovered(q.parts[j], req, q.end, fl)
    ensures Covers(Delivered(q, j, req, fl), obj, At(q, j, req, bs, first), At(q, j + 1, req, bs, first))
  {
    PartAt(q, j, req, obj, bs, fl, first);
    CoveredPiece(q.parts[j], Delivered(q, j, req, fl), req, obj, bs, fl, q.start, q.end, first, last,
                 At(q, j, req, bs, first), At(q, j + 1, req, bs, first));
  }

  lemma {:induction false} JoinedCovers(ss: seq<Stream>, m: nat, obj: seq<byte>, at: nat -> nat)
    requires m <= |ss| && at(0) <= |obj| && forall j :: 0 <= j < m ==> Covers(ss[j], obj, at(j), at(j + 1))
    ensures Covers(Joined(ss, m), obj, at(0), at(m))
  {
    if m == 0 {
      assert obj[at(0)..at(0)] == [];
    } else {
      JoinedCovers(ss, m - 1, obj, at);
      CoversConcat(Joined(ss, m - 1), ss[m - 1], obj, at(0), at(m - 1), at(m));
    }
  }

  /** Whatever the flights have delivered so far: a request whose flights cover it has delivered
      its bytes up to the position it has reached, or a part of them and an error. */
  lemma BodyCovers(q: Request, req: seq<nat>, obj: seq<byte>, bs: nat, fl: Flight.State, first: nat, last: nat)
    requires 0 < bs && RequestOk(q, req, obj, bs, fl) && Chunks(req, q.start, q.end, bs, first, last).Some?
    requires Flight.Inv(Only(obj), fl) && AllCovered(q, req, fl)
    ensures Covers(BodyOf(q, req, fl), obj, q.start, At(q, |q.parts|, req, bs, first))
  {
    var at := (j: nat) => At(q, j, req, bs, first);
    var ss := Delivereds(q, req, fl);
    forall j | 0 <= j < |ss| ensures Covers(ss[j], obj, at(j), at(j + 1)) {
      PartCovers(q, j, req, obj, bs, fl, first, last);
    }
    JoinedCovers(ss, |ss|, obj, at);
  }

  // ---- A flight that does not cover ----

  /** Chunk k, at position `at`, begins `head` bytes before what is wanted of it. */
  lemma HeadAt(at: nat, start: nat, bs: nat, first: nat)
    requires 0 < bs && first * bs <= start < first * bs + bs
    ensures (first + at) * bs + Head(at, start, bs) == Lo(at, first, start, bs) && Head(at, start, bs) < bs
  {
    DivUnique(start, first, bs);
  }

  lemma OriginShort(f: Stream, obj: seq<byte>, at: nat, n: nat, start: nat, end: nat, bs: nat, first: nat, last: nat)
    requires 0 < bs && first * bs <= start < first * bs + bs && LastChunk(last, end, bs) && start <= end < |obj|
    requires at < n == last - first + 1 && |f.bytes| < end + 1 - (first + at) * bs
    ensures |Trim(Piece(f, n - at), at, n, start, end, bs).bytes| < end + 1 - Lo(at, first, start, bs)
  {
    HeadAt(at, start, bs, first);
    TailLimit(at, n - at, start, end, bs, first, last);
    MulMonotone(first + at, last, bs);
  }

  lemma AnchorShort(f: Stream, data: seq<byte>, at: nat, count: nat, n: nat, start: nat, end: nat, bs: nat,
                    first: nat, gap: nat)
    requires 0 < bs && first * bs <= start < first * bs + bs && 0 < count && at + count < n
    requires bs <= gap && |f.bytes| < gap && |data| == bs
    requires Trim(Piece(Concat(f, Stream(data, true)), count), at, n, start, end, bs).complete
    ensures |Trim(Piece(Concat(f, Stream(data, true)), count), at, n, start, end,
              bs).bytes| < gap + bs - Head(at, start, bs)
  {
    HeadAt(at, start, bs, first);
  }

  /** The chunks up to a cached one, the last that was requested. */
  predicate AnchorLast(w: World, req: seq<nat>, at: nat)
    requires at < |req| && 0 < w.blockSize
  {
    Choose(w, req[at], req[|req| - 1]).FromAnchor? && at + Count(w, req, at) == |req|
  }

  /** How many bytes are asked for. */
  function Wants(plan: Plan, k: nat, end: nat, bs: nat): int {
    match plan
    case FromAnchor(a, _) => a * bs - k * bs
    case FromOrigin => end + 1 - k * bs
    case _ => 0
  }

  lemma AskedOrigin(size: nat, bs: nat, end: nat, k: nat, last: nat)
    requires 0 < bs && end < size && k <= last && LastChunk(last, end, bs) && last * bs < TWO32
    ensures Ask(Offset(k, bs), Min(size - 1, Min(Before(U32(last + 1) * bs), end))) == Ask(k * bs, end)
  {
    EndRange(size, bs, k, last, end);
  }

  lemma AskedAnchor(size: nat, bs: nat, end: nat, k: nat, a: nat, last: nat)
    requires 0 < bs && end < size && k < a <= last && LastChunk(last, end, bs) && last * bs < TWO32
    ensures 0 < a * bs && Ask(Offset(k, bs), Min(size - 1, Before(Offset(a, bs)))) == Ask(k * bs, a * bs - 1)
  {
    AnchorRange(size, bs, k, a, last, end);
  }

  lemma AskedSize(w: World, req: seq<nat>, obj: seq<byte>, bs: nat, at: nat, end: nat, k: nat, last: nat)
    requires 0 < bs && end < |obj| == w.size && w.blockSize == bs && at < |req| && req[at] == k
    requires req[|req| - 1] == last
    requires k <= last && LastChunk(last, end, bs) && last * bs < TWO32
    ensures var ask := Asked(w, req, at, end); ask.Ask? ==> ask.b - ask.a + 1 == Wants(Choose(w, k, last), k, end, bs)
  {
    var ask := Asked(w, req, at, end);
    match Choose(w, k, last)
    case FromOrigin =>
      assert ask == Ask(Offset(k, bs), Min(w.size - 1, Min(Before(U32(last + 1) * bs), end)));
      AskedOrigin(w.size, bs, end, k, last);
    case FromAnchor(a, _) =>
      assert ask == Ask(Offset(k, bs), Min(w.size - 1, Before(Offset(a, bs))));
      AskedAnchor(w.size, bs, end, k, a, last);
    case _ =>
  }

  /** Upstream delivered less than was asked for. */
  predicate TooFew(ask: Ask, s: Stream) {
    ask.Ask? && |s.bytes| < ask.b - ask.a + 1
  }

  lemma UncoveredShort(src: Source, ask: Ask, obj: seq<byte>, fl: Flight.State)
    requires Flight.Inv(Only(obj), fl) && SourceOk(src, ask, obj, fl) && !SourceCovered(src, ask, fl)
    ensures TooFew(ask, Value(src, fl))
  {
    CoveredFetch(src, ask.a, ask.b, obj, fl);
  }

  /** Too few bytes from upstream make a part that ends without an error too short. */
  lemma ShortPiece(plan: Plan, obj: seq<byte>, bs: nat, at: nat, n: nat, start: nat, end: nat, first: nat, last: nat,
                   f: Stream)
    requires 0 < bs && first * bs <= start < first * bs + bs && LastChunk(last, end, bs) && start <= end < |obj|
    requires at < n == last - first + 1 && |f.bytes| < Wants(plan, first + at, end, bs)
    requires plan.FromAnchor? ==> first + at < plan.a < last && plan.anchor == Chunk(obj, bs, plan.a)
    requires plan.FromAnchor? || plan.FromOrigin?
    ensures var t := Trimmed(Raw(plan, first + at, at, n, f), at, n, start, end, bs);
            t.s.complete ==> |t.s.bytes| < Pos(at + t.count, n, first, start, end, bs) - Pos(at, n, first, start,
                end, bs)
  {
    match plan
    case FromOrigin => OriginShort(f, obj, at, n, start, end, bs, first, last);
    case FromAnchor(a, data) => AnchorTurn(obj, bs, at, n, start, end, first, last, f, a, data);
  }

  lemma ShortTurn(p: Part, req: seq<nat>, obj: seq<byte>, bs: nat, fl: Flight.State, start: nat, end: nat,
                  first: nat, last: nat, lo: nat, hi: nat)
    requires 0 < bs && end < |obj| && WorldOk(p.w, obj, bs) && p.at < |req| && !AnchorLast(p.w, req, p.at)
    requires Chunks(req, start, end, bs, first, last).Some?
    requires TooFew(Asked(p.w, req, p.at, end), Value(p.src, fl))
    requires var t := PieceOf(p, req, start, end, fl); t.Piece? && t.count == p.count
    requires lo == Pos(p.at, |req|, first, start, end, bs) && hi == Pos(p.at + p.count, |req|, first, start, end, bs)
    ensures var t := PieceOf(p, req, start, end, fl); t.s.complete ==> |t.s.bytes| < hi - lo
  {
    assert Shown(0);
    var k := first + p.at;
    assert req[p.at] == k && req[|req| - 1] == last;
    AskedSize(p.w, req, obj, bs, p.at, end, k, last);
    GoodPlanOf(p.w, obj, bs, k, last);
    ShortPiece(Choose(p.w, k, last), obj, bs, p.at, |req|, start, end, first, last, Value(p.src, fl));
  }

  lemma GoodPlanOf(w: World, obj: seq<byte>, bs: nat, k: nat, last: nat)
    requires 0 < bs && 0 < |obj| && WorldOk(w, obj, bs)
    ensures var plan := Choose(w, k, last); plan.FromAnchor? ==>
              k < plan.a <= last && plan.anchor == Chunk(obj, bs, plan.a)
  {
    FedSound(w, obj, bs, NoAsk, Done);
    SamePlan(w, NoAsk, Done, k, last);
    GoodPlan(Fed(w, NoAsk, Done), obj, k, last);
  }

  lemma AnchorTurn(obj: seq<byte>, bs: nat, at: nat, n: nat, start: nat, end: nat, first: nat, last: nat,
                   f: Stream, a: nat, data: seq<byte>)
    requires 0 < bs && end < |obj| && at < n == last - first + 1
    requires first * bs <= start < first * bs + bs && LastChunk(last, end, bs)
    requires first + at < a < last && data == Chunk(obj, bs, a) && |f.bytes| < a * bs - (first + at) * bs
    ensures var count := a - (first + at) + 1;
            var t := Trim(Piece(Concat(f, Stream(data, true)), count), at, n, start, end, bs);
            t.complete ==> |t.bytes| < Pos(at + count, n, first, start, end, bs) - Pos(at, n, first, start, end, bs)
  {
    var k, count := first + at, a - (first + at) + 1;
    var gap := a * bs - k * bs;
    NextChunk(k, a, bs);
    NextChunk(a, last, bs);
    HeadAt(at, start, bs, first);
    assert (first + (at + count)) * bs == a * bs + bs;
    if Trim(Piece(Concat(f, Stream(data, true)), count), at, n, start, end, bs).complete {
      AnchorShort(f, data, at, count, n, start, end, bs, first, gap);
    }
  }

  /** A stream that, when it has ended, is shorter than its place. */
  ghost predicate IsShort(s: Stream, lo: nat, hi: nat) {
    forall t {:trigger Shown(t)} :: Shown(t) ==> s.complete ==> |s.bytes| < hi - lo
  }

  ghost function Short(s: Stream, lo: nat, hi: nat): Option<Stream> {
    if IsShort(s, lo, hi) then Some(s) else None
  }

  lemma UncoveredPiece(p: Part, s: Stream, req: seq<nat>, obj: seq<byte>, bs: nat, fl: Flight.State,
                       start: nat, end: nat, first: nat, last: nat, lo: nat, hi: nat)
    requires 0 < bs && end < |obj| && Sitting(p, s, req, obj, bs, fl, start, end, first, lo, hi).Some?
    requires Chunks(req, start, end, bs, first, last).Some?
    requires p.at < |req| && p.w.blockSize == bs && !AnchorLast(p.w, req, p.at)
    requires Flight.Inv(Only(obj), fl) && !PartCovered(p, req, end, fl)
    ensures Short(s, lo, hi).Some?
  {
    SittingIs(p, s, req, obj, bs, fl, start, end, first, lo, hi);
    UncoveredShort(p.src, Asked(p.w, req, p.at, end), obj, fl);
    ShortTurn(p, req, obj, bs, fl, start, end, first, last, lo, hi);
    assert Short(PieceOf(p, req, start, end, fl).s, lo, hi).Some?;
  }

  // ---- A flight that does not cover, before the last chunk ----

  /** Which byte of the object comes for byte x: one further on by `shift` before the cut, by `gap`
      behind it. */
  function Stand(x: nat, cut: nat, shift: nat, gap: int): int {
    if x < cut then x + shift else x + gap
  }

  /** Those that come for the bytes lo..end are the same. */
  ghost predicate Echoes(obj: seq<byte>, lo: nat, cut: nat, end: nat, shift: nat, gap: int) {
    forall x: nat :: lo <= x <= end ==> Same(obj, x, Stand(x, cut, shift, gap))
  }

  predicate Same(obj: seq<byte>, x: nat, y: int) {
    x < |obj| && 0 <= y < |obj| && obj[x] == obj[y]
  }

  /** What a flight for u gives of r, and behind it the `size` bytes that follow r, pass for the
      bytes lo..end: there are enough of them, and those that come instead are the same. */
  ghost predicate Masks(obj: seq<byte>, u: Flight.Range, r: Flight.Range, size: nat, lo: nat, end: nat) {
    var cut := r.from + |Flight.Overlap(obj, u, r)|;
    var gap := r.to + 1 - cut;
    && end + gap <= r.to + size
    && Echoes(obj, lo, cut, end, if r.from < u.from then u.from - r.from else 0, gap)
  }

  /** Byte y of the object stands in t where byte x should, when t begins at byte lo. */
  ghost predicate Comes(t: seq<byte>, obj: seq<byte>, lo: nat, x: nat, y: int) {
    lo <= x < lo + |t| && 0 <= y < |obj| && t[x - lo] == obj[y]
  }

  lemma StandsIn(obj: seq<byte>, u: Flight.Range, r: Flight.Range, data: seq<byte>, x: nat)
    requires r.from <= r.to && r.to + 1 + |data| <= |obj| && data == obj[r.to + 1..r.to + 1 + |data|]
    requires r.from <= x < r.from + |Flight.Overlap(obj, u, r)| + |data|
    ensures var f, shift := Flight.Overlap(obj, u, r), if r.from < u.from then u.from - r.from else 0;
            Comes(f + data, obj, r.from, x, Stand(x, r.from + |f|, shift, r.to + 1 - (r.from + |f|)))
  {
  }

  lemma EqualIffEchoes(t: seq<byte>, obj: seq<byte>, lo: nat, cut: nat, end: nat, shift: nat, gap: int)
    requires lo <= end < |obj| && |t| == end + 1 - lo
    requires forall x: nat :: lo <= x <= end ==> Comes(t, obj, lo, x, Stand(x, cut, shift, gap))
    ensures t == obj[lo..end + 1] <==> Echoes(obj, lo, cut, end, shift, gap)
  {
    var want := obj[lo..end + 1];
    if t == want {
      forall x: nat | lo <= x <= end ensures Same(obj, x, Stand(x, cut, shift, gap)) {
        assert Comes(t, obj, lo, x, Stand(x, cut, shift, gap)) && t[x - lo] == want[x - lo];
      }
    }
    if Echoes(obj, lo, cut, end, shift, gap) {
      forall i: nat | i < |t| ensures t[i] == want[i] {
        assert Same(obj, lo + i, Stand(lo + i, cut, shift, gap));
        assert Comes(t, obj, lo, lo + i, Stand(lo + i, cut, shift, gap));
      }
    }
  }

  lemma SlicedComes(all: seq<byte>, obj: seq<byte>, from: nat, lo: nat, n: nat, x: nat, y: int)
    requires from <= lo && lo - from + n <= |all| && lo <= x < lo + n && Comes(all, obj, from, x, y)
    ensures Comes(all[lo - from..lo - from + n], obj, lo, x, y)
  {
  }

  lemma SlicedTail(all: seq<byte>, head: nat, n: nat)
    ensures var t := Take(Skipped(Stream(all, true), head), n).bytes;
            if head + n <= |all| then t == all[head..head + n] else n == 0 || |t| < n
  {
    if head + n <= |all| {
      assert all[head..][..n] == all[head..head + n];
    }
  }

  lemma AllComes(t: seq<byte>, obj: seq<byte>, u: Flight.Range, r: Flight.Range, data: seq<byte>, lo: nat, end: nat,
                 cut: nat, shift: nat, gap: int)
    requires r.from <= r.to && r.from <= lo <= end && r.to + 1 + |data| <= |obj|
    requires data == obj[r.to + 1..r.to + 1 + |data|]
    requires cut == r.from + |Flight.Overlap(obj, u, r)| && shift == (if r.from < u.from then u.from - r.from else 0)
    requires gap == r.to + 1 - cut && end < cut + |data|
    requires t == (Flight.Overlap(obj, u, r) + data)[lo - r.from..end + 1 - r.from]
    ensures t == obj[lo..end + 1] <==> Echoes(obj, lo, cut, end, shift, gap)
  {
    forall x: nat | lo <= x <= end ensures Comes(t, obj, lo, x, Stand(x, cut, shift, gap)) {
      StandsIn(obj, u, r, data, x);
      SlicedComes(Flight.Overlap(obj, u, r) + data, obj, r.from, lo, end + 1 - lo, x, Stand(x, cut, shift, gap));
    }
    EqualIffEchoes(t, obj, lo, cut, end, shift, gap);
  }

  lemma MaskedBytes(t: seq<byte>, f: seq<byte>, obj: seq<byte>, u: Flight.Range, r: Flight.Range, data: seq<byte>,
                    lo: nat, end: nat)
    requires r.from <= r.to && r.from <= lo <= end < r.to + 1 + |data| <= |obj|
    requires data == obj[r.to + 1..r.to + 1 + |data|] && f == Flight.Overlap(obj, u, r)
    requires if end < r.from + |f| + |data| then t == (f + data)[lo - r.from..end + 1 - r.from] else |t| < end + 1 - lo
    ensures t == obj[lo..end + 1] <==> Masks(obj, u, r, |data|, lo, end)
  {
    var cut := r.from + |f|;
    if end < cut + |data| {
      AllComes(t, obj, u, r, data, lo, end, cut, if r.from < u.from then u.from - r.from else 0, r.to + 1 - cut);
    }
  }

  lemma MaskedTail(obj: seq<byte>, u: Flight.Range, r: Flight.Range, data: seq<byte>, lo: nat, end: nat)
    requires r.from <= r.to && r.from <= lo <= end < r.to + 1 + |data| <= |obj|
    requires data == obj[r.to + 1..r.to + 1 + |data|]
    ensures var all := Stream(Flight.Overlap(obj, u, r) + data, true);
            Take(Skipped(all, lo - r.from), end + 1 - lo).bytes == obj[lo..end + 1] <==>
              Masks(obj, u, r, |data|, lo, end)
  {
    var f := Flight.Overlap(obj, u, r);
    SlicedTail(f + data, lo - r.from, end + 1 - lo);
    MaskedBytes(Take(Skipped(Stream(f + data, true), lo - r.from), end + 1 - lo).bytes, f, obj, u, r, data, lo, end);
  }

  /** The last part of a request, when too little comes from upstream before its cached chunk. */
  lemma MaskedPiece(f: Stream, data: seq<byte>, obj: seq<byte>, at: nat, n: nat, start: nat, end: nat, bs: nat,
                    first: nat, last: nat, u: Flight.Range, lo: nat, a: nat, b: nat)
    requires 0 < bs && first * bs <= start < first * bs + bs && LastChunk(last, end, bs) && start <= end < |obj|
    requires first + at < last && n == last - first + 1 && data == Chunk(obj, bs, last)
    requires a == (first + at) * bs && b + 1 == last * bs && lo == Lo(at, first, start, bs) && |f.bytes| < b - a + 1
    requires f.complete ==> f.bytes == Flight.Overlap(obj, u, Flight.Range(a, b))
    ensures lo <= end
    ensures var t := Trim(Piece(Concat(f, Stream(data, true)), last - (first + at) + 1), at, n, start, end, bs);
            t.complete ==>
              && |t.bytes| <= end + 1 - lo
              && (t.bytes == obj[lo..end + 1] <==> Masks(obj, u, Flight.Range(a, b), |data|, lo, end))
  {
    var count, head := last - (first + at) + 1, Head(at, start, bs);
    NextChunk(first + at, last, bs);
    HeadAt(at, start, bs, first);
    TailLimit(at, count, start, end, bs, first, last);
    if f.complete {
      MaskedTail(obj, u, Flight.Range(a, b), data, lo, end);
    }
  }

  /** A part that ends in the last requested chunk, cached, passes for its bytes. */
  ghost predicate PartMasked(p: Part, req: seq<nat>, obj: seq<byte>, start: nat, end: nat, fl: Flight.State) {
    && p.at < |req| && 0 < p.w.blockSize && 0 < p.w.size && AnchorLast(p.w, req, p.at)
    && p.src.Shared? && p.src.i < |fl.calls|
    && var ask := Asked(p.w, req, p.at, end);
       var size := |Choose(p.w, req[p.at], req[|req| - 1]).anchor|;
       Masks(obj, fl.calls[p.src.i].union, Flight.Range(ask.a, ask.b), size, if p.at == 0 then start else ask.a, end)
  }

  /** A flight gave too little of the bytes a..b: once its reader has ended without an error, what
      the two ranges have in common. */
  ghost predicate GaveLess(src: Source, obj: seq<byte>, fl: Flight.State, a: nat, b: nat) {
    forall t {:trigger Shown(t)} :: Shown(t) ==>
      && src.Shared? && src.i < |fl.calls|
      && var f := Value(src, fl);
         && TooFew(Ask(a, b), f)
         && (f.complete ==> f.bytes == Flight.Overlap(obj, fl.calls[src.i].union, Flight.Range(a, b)))
  }

  ghost function Less(src: Source, obj: seq<byte>, fl: Flight.State, a: nat, b: nat): Option<Source> {
    if GaveLess(src, obj, fl, a, b) then Some(src) else None
  }

  lemma UncoveredLess(src: Source, ask: Ask, obj: seq<byte>, fl: Flight.State)
    requires Flight.Inv(Only(obj), fl) && SourceOk(src, ask, obj, fl) && !SourceCovered(src, ask, fl)
    ensures Less(src, obj, fl, ask.a, ask.b).Some?
  {
    UncoveredShort(src, ask, obj, fl);
    Flight.EndedOverlap(Only(obj), fl, src.i, src.k);
  }

  /** These are the object's bytes lo to hi. */
  ghost predicate Is(t: seq<byte>, obj: seq<byte>, lo: nat, hi: nat) {
    lo <= hi <= |obj| && t == obj[lo..hi]
  }

  /** A stream that, when it has ended without an error, is not longer than its place, and is the
      object there exactly if `ok`. */
  ghost predicate Judged(s: Stream, obj: seq<byte>, lo: nat, hi: nat, ok: bool) {
    s.complete ==> |s.bytes| <= hi - lo && (Is(s.bytes, obj, lo, hi) <==> ok)
  }

  /** That, as a fact behind a name. */
  ghost predicate HasVerdict(s: Stream, obj: seq<byte>, lo: nat, hi: nat, ok: bool) {
    forall t {:trigger Shown(t)} :: Shown(t) ==> Judged(s, obj, lo, hi, ok)
  }

  ghost function Verdict(s: Stream, obj: seq<byte>, lo: nat, hi: nat, ok: bool): Option<Stream> {
    if HasVerdict(s, obj, lo, hi, ok) then Some(s) else None
  }

  /** Before the last requested chunk, cached as `data`, the bytes a..b are asked for at position `at`. */
  ghost predicate AsksBefore(w: World, req: seq<nat>, obj: seq<byte>, bs: nat, at: nat, end: nat, first: nat,
                             last: nat, data: seq<byte>, a: nat, b: nat) {
    forall t {:trigger Shown(t)} :: Shown(t) ==>
      && at < |req| && req[at] == first + at < last && 0 < w.blockSize && 0 < w.size
      && Choose(w, req[at], req[|req| - 1]) == FromAnchor(last, data) && data == Chunk(obj, bs, last)
      && Asked(w, req, at, end) == Ask(a, b) && a == (first + at) * bs && b + 1 == last * bs
  }

  ghost function Asking(w: World, req: seq<nat>, obj: seq<byte>, bs: nat, at: nat, end: nat, first: nat, last: nat,
                        data: seq<byte>, a: nat, b: nat): Option<World> {
    if AsksBefore(w, req, obj, bs, at, end, first, last, data, a, b) then Some(w) else None
  }

  lemma AskedBefore(w: World, req: seq<nat>, size: nat, bs: nat, at: nat, end: nat, k: nat, last: nat,
                    data: seq<byte>) returns (a: nat, b: nat)
    requires 0 < bs == w.blockSize && end < size == w.size && at < |req| && req[at] == k < last == req[|req| - 1]
    requires LastChunk(last, end, bs) && last * bs < TWO32 && Choose(w, k, last) == FromAnchor(last, data)
    ensures Asked(w, req, at, end) == Ask(a, b) && a == k * bs && b + 1 == last * bs
  {
    AskedAnchor(size, bs, end, k, last, last);
    a, b := k * bs, last * bs - 1;
    assert Asked(w, req, at, end) == Ask(Offset(k, bs), Min(w.size - 1, Before(Offset(last, bs))));
  }

  lemma ChunksAt(req: seq<nat>, start: nat, end: nat, bs: nat, first: nat, last: nat, at: nat)
    requires Chunks(req, start, end, bs, first, last).Some? && at < |req|
    ensures |req| == last - first + 1 && req[at] == first + at && req[|req| - 1] == last
    ensures LastChunk(last, end, bs) && last * bs < TWO32
  {
    assert Shown(0);
  }

  lemma AnchorAsks(w: World, req: seq<nat>, obj: seq<byte>, bs: nat, at: nat, start: nat, end: nat,
                   first: nat, last: nat) returns (data: seq<byte>, a: nat, b: nat)
    requires 0 < bs && end < |obj| && WorldOk(w, obj, bs) && at < |req| && AnchorLast(w, req, at)
    requires Chunks(req, start, end, bs, first, last).Some?
    ensures Asking(w, req, obj, bs, at, end, first, last, data, a, b).Some? && Asked(w, req, at, end) == Ask(a, b)
  {
    ChunksAt(req, start, end, bs, first, last, at);
    GoodPlanOf(w, obj, bs, first + at, last);
    data := Choose(w, first + at, last).anchor;
    a, b := AskedBefore(w, req, |obj|, bs, at, end, first + at, last, data);
  }

  /** `ok` says whether the gap is masked, as a fact behind a name. */
  ghost predicate Tells(ok: bool, obj: seq<byte>, u: Flight.Range, r: Flight.Range, size: nat, lo: nat, end: nat) {
    forall t {:trigger Shown(t)} :: Shown(t) ==> (ok <==> Masks(obj, u, r, size, lo, end))
  }

  ghost function Masking(ok: bool, obj: seq<byte>, u: Flight.Range, r: Flight.Range, size: nat, lo: nat,
                         end: nat): Option<bool> {
    if Tells(ok, obj, u, r, size, lo, end) then Some(ok) else None
  }

  lemma LastTrim(t: Stream, ok: bool, f: Stream, data: seq<byte>, req: seq<nat>, obj: seq<byte>, bs: nat, at: nat,
                 start: nat, end: nat, first: nat, last: nat, u: Flight.Range, lo: nat, a: nat, b: nat)
    requires 0 < bs && end < |obj| && at < |req| && first + at < last && data == Chunk(obj, bs, last)
    requires Chunks(req, start, end, bs, first, last).Some?
    requires a == (first + at) * bs && b + 1 == last * bs && lo == Pos(at, |req|, first, start, end, bs)
    requires TooFew(Ask(a, b), f) && (f.complete ==> f.bytes == Flight.Overlap(obj, u, Flight.Range(a, b)))
    requires t == Trim(Piece(Concat(f, Stream(data, true)), last - (first + at) + 1), at, |req|, start, end, bs)
    requires Masking(ok, obj, u, Flight.Range(a, b), |data|, lo, end).Some?
    ensures Verdict(t, obj, lo, end + 1, ok).Some?
  {
    assert Shown(0);
    MaskedPiece(f, data, obj, at, |req|, start, end, bs, first, last, u, lo, a, b);
  }

  lemma AskingIs(w: World, req: seq<nat>, obj: seq<byte>, bs: nat, at: nat, end: nat, first: nat, last: nat,
                 data: seq<byte>, a: nat, b: nat)
    requires Asking(w, req, obj, bs, at, end, first, last, data, a, b).Some?
    ensures at < |req| && req[at] == first + at < last && 0 < w.blockSize && 0 < w.size
    ensures Choose(w, req[at], req[|req| - 1]) == FromAnchor(last, data) && data == Chunk(obj, bs, last)
    ensures a == (first + at) * bs && b + 1 == last * bs
  {
    assert Shown(0);
  }

  lemma LessIs(src: Source, obj: seq<byte>, fl: Flight.State, a: nat, b: nat)
    requires Less(src, obj, fl, a, b).Some?
    ensures src.Shared? && src.i < |fl.calls| && TooFew(Ask(a, b), Value(src, fl))
    ensures var f := Value(src, fl);
            f.complete ==> f.bytes == Flight.Overlap(obj, fl.calls[src.i].union, Flight.Range(a, b))
  {
    assert Shown(0);
  }

  lemma AnchorPieceIs(p: Part, req: seq<nat>, start: nat, end: nat, fl: Flight.State, a: nat, data: seq<byte>)
    requires p.at < |req| && 0 < p.w.blockSize && 0 < p.w.size
    requires Choose(p.w, req[p.at], req[|req| - 1]) == FromAnchor(a, data)
    ensures req[p.at] < a
    ensures var f, count := Value(p.src, fl), a - req[p.at] + 1;
            PieceOf(p, req, start, end, fl) ==
              Piece(Trim(Piece(Concat(f, Stream(data, true)), count), p.at, |req|, start, end, p.w.blockSize), count)
  {
  }

  lemma AskingPlan(w: World, req: seq<nat>, obj: seq<byte>, bs: nat, at: nat, end: nat, first: nat, last: nat,
                   data: seq<byte>, a: nat, b: nat)
    requires Asking(w, req, obj, bs, at, end, first, last, data, a, b).Some?
    ensures at < |req| && req[at] == first + at && 0 < w.blockSize
    ensures Choose(w, req[at], req[|req| - 1]) == FromAnchor(last, data)
  {
    assert Shown(0);
  }

  lemma LastFed(t: Stream, ok: bool, f: Stream, src: Source, w: World, req: seq<nat>, obj: seq<byte>, bs: nat,
                fl: Flight.State, at: nat, start: nat, end: nat, first: nat, last: nat, lo: nat, data: seq<byte>,
                a: nat, b: nat)
    requires 0 < bs && end < |obj| && Chunks(req, start, end, bs, first, last).Some? && f == Value(src, fl)
    requires Asking(w, req, obj, bs, at, end, first, last, data, a, b).Some? && Less(src, obj, fl, a, b).Some?
    requires lo == Pos(at, |req|, first, start, end, bs) && first + at < last && src.Shared? && src.i < |fl.calls|
    requires t == Trim(Piece(Concat(f, Stream(data, true)), last - (first + at) + 1), at, |req|, start, end, bs)
    requires Masking(ok, obj, fl.calls[src.i].union, Flight.Range(a, b), |data|, lo, end).Some?
    ensures Verdict(t, obj, lo, end + 1, ok).Some?
  {
    AskingIs(w, req, obj, bs, at, end, first, last, data, a, b);
    LessIs(src, obj, fl, a, b);
    LastTrim(t, ok, f, data, req, obj, bs, at, start, end, first, last, fl.calls[src.i].union, lo, a, b);
  }

  lemma LastPiece(p: Part, t: Stream, ok: bool, req: seq<nat>, obj: seq<byte>, bs: nat, fl: Flight.State, start: nat,
                  end: nat, first: nat, last: nat, lo: nat, data: seq<byte>, a: nat, b: nat)
    requires 0 < bs && end < |obj| && Chunks(req, start, end, bs, first, last).Some?
    requires Asking(p.w, req, obj, bs, p.at, end, first, last, data, a, b).Some? && Less(p.src, obj, fl, a, b).Some?
    requires p.at < |req| && p.w.blockSize == bs && 0 < p.w.size && PieceOf(p, req, start, end, fl) == Piece(t, p.count)
    requires lo == Pos(p.at, |req|, first, start, end, bs)
    requires p.src.Shared? && p.src.i < |fl.calls|
    requires Masking(ok, obj, fl.calls[p.src.i].union, Flight.Range(a, b), |data|, lo, end).Some?
    ensures Verdict(t, obj, lo, end + 1, ok).Some?
  {
    AskingPlan(p.w, req, obj, bs, p.at, end, first, last, data, a, b);
    AnchorPieceIs(p, req, start, end, fl, last, data);
    LastFed(t, ok, Value(p.src, fl), p.src, p.w, req, obj, bs, fl, p.at, start, end, first, last, lo, data, a, b);
  }

  lemma MaskedIs(p: Part, req: seq<nat>, obj: seq<byte>, bs: nat, start: nat, end: nat, fl: Flight.State,
                 first: nat, last: nat, data: seq<byte>, a: nat, b: nat, lo: nat)
    requires Chunks(req, start, end, bs, first, last).Some? && lo == Pos(p.at, |req|, first, start, end, bs)
    requires Asking(p.w, req, obj, bs, p.at, end, first, last, data, a, b).Some? && Less(p.src, obj, fl, a, b).Some?
    requires p.at < |req| && 0 < p.w.blockSize && AnchorLast(p.w, req, p.at)
    ensures p.src.Shared? && p.src.i < |fl.calls|
    ensures Pos(p.at + Count(p.w, req, p.at), |req|, first, start, end, bs) == end + 1
    ensures Masking(PartMasked(p, req, obj, start, end, fl), obj, fl.calls[p.src.i].union, Flight.Range(a, b), |data|,
                    lo, end).Some?
  {
    assert Shown(0);
  }

  lemma CountIs(p: Part, s: Stream, req: seq<nat>, start: nat, end: nat, fl: Flight.State)
    requires p.at < |req| && 0 < p.w.blockSize && 0 < p.w.size && PieceOf(p, req, start, end, fl) == Piece(s, p.count)
    ensures p.count == Count(p.w, req, p.at)
  {
  }

  lemma MaskedTurn(p: Part, s: Stream, req: seq<nat>, obj: seq<byte>, bs: nat, fl: Flight.State,
                   start: nat, end: nat, first: nat, last: nat, lo: nat, hi: nat)
    requires 0 < bs && end < |obj| && Sitting(p, s, req, obj, bs, fl, start, end, first, lo, hi).Some?
    requires Chunks(req, start, end, bs, first, last).Some?
    requires p.at < |req| && p.w.blockSize == bs && AnchorLast(p.w, req, p.at)
    requires Flight.Inv(Only(obj), fl) && !PartCovered(p, req, end, fl)
    ensures Verdict(s, obj, lo, hi, PartMasked(p, req, obj, start, end, fl)).Some?
  {
    SittingIs(p, s, req, obj, bs, fl, start, end, first, lo, hi);
    var data, a, b := AnchorAsks(p.w, req, obj, bs, p.at, start, end, first, last);
    UncoveredLess(p.src, Ask(a, b), obj, fl);
    MaskedIs(p, req, obj, bs, start, end, fl, first, last, data, a, b, lo);
    CountIs(p, s, req, start, end, fl);
    LastPiece(p, s, PartMasked(p, req, obj, start, end, fl), req, obj, bs, fl, start, end, first, last, lo, data, a, b);
  }

  /** The part is served: its flight covers it, or is covered up for. */
  ghost predicate PartServed(p: Part, req: seq<nat>, obj: seq<byte>, start: nat, end: nat, fl: Flight.State) {
    PartCovered(p, req, end, fl) || PartMasked(p, req, obj, start, end, fl)
  }

  /** That, as a fact behind a name. */
  ghost predicate IsServed(p: Part, req: seq<nat>, obj: seq<byte>, start: nat, end: nat, fl: Flight.State) {
    forall t {:trigger Shown(t)} :: Shown(t) ==> PartServed(p, req, obj, start, end, fl)
  }

  lemma ServedIs(p: Part, req: seq<nat>, obj: seq<byte>, start: nat, end: nat, fl: Flight.State)
    ensures IsServed(p, req, obj, start, end, fl) <==> PartServed(p, req, obj, start, end, fl)
  {
    assert Shown(0);
  }

  lemma JudgedPiece(p: Part, s: Stream, req: seq<nat>, obj: seq<byte>, bs: nat, fl: Flight.State,
                    start: nat, end: nat, first: nat, last: nat, lo: nat, hi: nat)
    requires 0 < bs && end < |obj| && Sitting(p, s, req, obj, bs, fl, start, end, first, lo, hi).Some?
    requires Chunks(req, start, end, bs, first, last).Some?
    requires p.at < |req| && p.w.blockSize == bs && Flight.Inv(Only(obj), fl)
    ensures Verdict(s, obj, lo, hi, IsServed(p, req, obj, start, end, fl)).Some?
  {
    ServedIs(p, req, obj, start, end, fl);
    if PartCovered(p, req, end, fl) {
      CoveredPiece(p, s, req, obj, bs, fl, start, end, first, last, lo, hi);
    } else if AnchorLast(p.w, req, p.at) {
      MaskedTurn(p, s, req, obj, bs, fl, start, end, first, last, lo, hi);
    } else {
      UncoveredPiece(p, s, req, obj, bs, fl, start, end, first, last, lo, hi);
      ShortJudged(s, obj, lo, hi);
    }
  }

  lemma ShortJudged(s: Stream, obj: seq<byte>, lo: nat, hi: nat)
    requires Short(s, lo, hi).Some?
    ensures Verdict(s, obj, lo, hi, false).Some?
  {
    assert Shown(0);
  }

  lemma {:induction false} JoinedJudged(ss: seq<Stream>, m: nat, obj: seq<byte>, at: nat -> nat, oks: seq<bool>)
    requires m <= |ss| == |oks| && at(0) <= |obj|
    requires forall j :: 0 <= j < m ==> Verdict(ss[j], obj, at(j), at(j + 1), oks[j]).Some?
    ensures Verdict(Joined(ss, m), obj, at(0), at(m), AllTrue(oks, m)).Some?
  {
    if m == 0 {
      assert Judged(Done, obj, at(0), at(0), true);
    } else {
      var n := m - 1;
      JoinedJudged(ss, n, obj, at, oks);
      assert Verdict(ss[n], obj, at(n), at(n + 1), oks[n]).Some?;
      ConcatJudged(Joined(ss, n), ss[n], obj, at(0), at(n), at(m), AllTrue(oks, n), oks[n]);
    }
  }

  predicate AllTrue(oks: seq<bool>, m: nat)
    requires m <= |oks|
  {
    m == 0 || (AllTrue(oks, m - 1) && oks[m - 1])
  }

  lemma {:induction false} AllTrueIff(oks: seq<bool>, m: nat)
    requires m <= |oks|
    ensures AllTrue(oks, m) <==> forall j :: 0 <= j < m ==> oks[j]
  {
    if m != 0 {
      AllTrueIff(oks, m - 1);
    }
  }

  lemma ConcatJudged(a: Stream, b: Stream, obj: seq<byte>, lo: nat, mid: nat, hi: nat, ok: bool, also: bool)
    requires Verdict(a, obj, lo, mid, ok).Some? && Verdict(b, obj, mid, hi, also).Some?
    ensures Verdict(Concat(a, b), obj, lo, hi, ok && also).Some?
  {
    assert Shown(0);
    if a.complete && b.complete {
      var t := a.bytes + b.bytes;
      if Is(t, obj, lo, hi) {
        assert a.bytes == t[..|a.bytes|] && b.bytes == t[|a.bytes|..];
        assert a.bytes == obj[lo..mid] && b.bytes == obj[mid..hi];
      }
      if ok && also {
        assert obj[lo..mid] + obj[mid..hi] == obj[lo..hi];
      }
    }
  }

  lemma VerdictIs(s: Stream, obj: seq<byte>, lo: nat, hi: nat, ok: bool)
    requires Verdict(s, obj, lo, hi, ok).Some? && s.complete && lo <= hi <= |obj|
    ensures s.bytes == obj[lo..hi] <==> ok
  {
    assert Shown(0);
  }

  /** Every part of the request is served. */
  ghost predicate AllServed(q: Request, req: seq<nat>, obj: seq<byte>, fl: Flight.State) {
    forall j :: 0 <= j < |q.parts| ==> PartServed(q.parts[j], req, obj, q.start, q.end, fl)
  }

  /** Which parts are. */
  ghost function Serveds(q: Request, req: seq<nat>, obj: seq<byte>, fl: Flight.State): (oks: seq<bool>)
    ensures |oks| == |q.parts|
    ensures forall j :: 0 <= j < |oks| ==> oks[j] == IsServed(q.parts[j], req, obj, q.start, q.end, fl)
  {
    seq(|q.parts|, j requires 0 <= j < |q.parts| => IsServed(q.parts[j], req, obj, q.start, q.end, fl))
  }

  lemma ServedsIff(q: Request, req: seq<nat>, obj: seq<byte>, fl: Flight.State)
    ensures AllTrue(Serveds(q, req, obj, fl), |q.parts|) <==> AllServed(q, req, obj, fl)
  {
    AllTrueIff(Serveds(q, req, obj, fl), |q.parts|);
    forall j | 0 <= j < |q.parts|
      ensures IsServed(q.parts[j], req, obj, q.start, q.end, fl) <==>
              PartServed(q.parts[j], req, obj, q.start, q.end, fl) {
      ServedIs(q.parts[j], req, obj, q.start, q.end, fl);
    }
  }

  /** A request that was assembled to its end and is covered delivers its bytes, or some of them and
      an error. */
  lemma FaithfulIfCovered(q: Request, req: seq<nat>, obj: seq<byte>, bs: nat, fl: Flight.State, first: nat, last: nat)
    requires 0 < bs && RequestOk(q, req, obj, bs, fl) && Chunks(req, q.start, q.end, bs, first, last).Some?
    requires Flight.Inv(Only(obj), fl)
    requires Next(q, |q.parts|) == |req| && AllCovered(q, req, fl)
    ensures Faithful(BodyOf(q, req, fl), obj[q.start..q.end + 1])
  {
    BodyCovers(q, req, obj, bs, fl, first, last);
    assert At(q, |q.parts|, req, bs, first) == q.end + 1;
  }

  /** The first m parts. */
  lemma BodyJudged(q: Request, m: nat, req: seq<nat>, obj: seq<byte>, bs: nat, fl: Flight.State, first: nat, last: nat)
    requires 0 < bs && RequestOk(q, req, obj, bs, fl) && Chunks(req, q.start, q.end, bs, first, last).Some?
    requires Flight.Inv(Only(obj), fl) && m <= |q.parts|
    ensures Verdict(Joined(Delivereds(q, req, fl), m), obj, q.start, At(q, m, req, bs, first),
                    AllTrue(Serveds(q, req, obj, fl), m)).Some?
  {
    var at := (j: nat) => At(q, j, req, bs, first);
    var ss, oks := Delivereds(q, req, fl), Serveds(q, req, obj, fl);
    forall j | 0 <= j < |ss| ensures Verdict(ss[j], obj, at(j), at(j + 1), oks[j]).Some? {
      PartJudged(q, j, req, obj, bs, fl, first, last);
    }
    JoinedJudged(ss, m, obj, at, oks);
  }

  /** A request that was assembled to its end and has come to it without an error delivered its
      bytes exactly if every part was served. */
  lemma RightIffServed(q: Request, req: seq<nat>, obj: seq<byte>, bs: nat, fl: Flight.State, first: nat, last: nat)
    requires 0 < bs && RequestOk(q, req, obj, bs, fl) && Chunks(req, q.start, q.end, bs, first, last).Some?
    requires Flight.Inv(Only(obj), fl)
    requires Next(q, |q.parts|) == |req| && BodyOf(q, req, fl).complete
    ensures BodyOf(q, req, fl).bytes == obj[q.start..q.end + 1] <==> AllServed(q, req, obj, fl)
  {
    BodyJudged(q, |q.parts|, req, obj, bs, fl, first, last);
    assert At(q, |q.parts|, req, bs, first) == q.end + 1;
    VerdictIs(BodyOf(q, req, fl), obj, q.start, q.end + 1, AllTrue(Serveds(q, req, obj, fl), |q.parts|));
    ServedsIff(q, req, obj, fl);
  }

  lemma PartJudged(q: Request, j: nat, req: seq<nat>, obj: seq<byte>, bs: nat, fl: Flight.State, first: nat, last: nat)
    requires 0 < bs && RequestOk(q, req, obj, bs, fl) && j < |q.parts|
    requires Chunks(req, q.start, q.end, bs, first, last).Some? && Flight.Inv(Only(obj), fl)
    ensures Verdict(Delivered(q, j, req, fl), obj, At(q, j, req, bs, first), At(q, j + 1, req, bs, first),
                    IsServed(q.parts[j], req, obj, q.start, q.end, fl)).Some?
  {
    PartAt(q, j, req, obj, bs, fl, first);
    JudgedPiece(q.parts[j], Delivered(q, j, req, fl), req, obj, bs, fl, q.start, q.end, first, last,
                At(q, j, req, bs, first), At(q, j + 1, req, bs, first));
  }

  // ---- What is sent of it ----

  lemma VerdictLength(s: Stream, obj: seq<byte>, lo: nat, hi: nat, ok: bool)
    requires Verdict(s, obj, lo, hi, ok).Some? && s.complete
    ensures |s.bytes| <= hi - lo
  {
    assert Shown(0);
  }

  /** A bare part ends before the end of the range. */
  lemma BareBefore(q: Request, j: nat, req: seq<nat>, obj: seq<byte>, bs: nat, fl: Flight.State, first: nat, last: nat)
    requires 0 < bs && 0 < |obj| && j < |q.parts| && GoodPart(q, j, req, obj, bs, fl).Some?
    requires Chunks(req, q.start, q.end, bs, first, last).Some? && PartBare(q.parts[j], req, q.start)
    ensures At(q, j + 1, req, bs, first) <= q.end
  {
    assert Shown(0);
    var p := q.parts[j];
    ChunksAt(req, q.start, q.end, bs, first, last, p.at);
    MulMonotone(first + p.at + p.count, last, bs);
  }

  lemma SentShort(q: Request, req: seq<nat>, obj: seq<byte>, bs: nat, fl: Flight.State, first: nat, last: nat)
    requires 0 < bs && RequestOk(q, req, obj, bs, fl) && Chunks(req, q.start, q.end, bs, first, last).Some?
    requires Flight.Inv(Only(obj), fl) && !NoBarePart(q, req) && SentOf(q, req, fl).complete
    ensures |SentOf(q, req, fl).bytes| < q.end + 1 - q.start
  {
    var m := PartsSent(q, req, 0);
    assert GoodPart(q, m - 1, req, obj, bs, fl).Some?;
    BareBefore(q, m - 1, req, obj, bs, fl, first, last);
    BodyJudged(q, m, req, obj, bs, fl, first, last);
    VerdictLength(SentOf(q, req, fl), obj, q.start, At(q, m, req, bs, first), AllTrue(Serveds(q, req, obj, fl), m));
  }

  /** The copy of an assembled request that has come to its end without an error sent the requested bytes
      exactly if every part was served and none is bare. */
  lemma SentRightIffServed(q: Request, req: seq<nat>, obj: seq<byte>, bs: nat, fl: Flight.State, first: nat, last: nat)
    requires 0 < bs && RequestOk(q, req, obj, bs, fl) && Chunks(req, q.start, q.end, bs, first, last).Some?
    requires Flight.Inv(Only(obj), fl)
    requires Next(q, |q.parts|) == |req| && SentOf(q, req, fl).complete
    ensures SentOf(q, req, fl).bytes == obj[q.start..q.end + 1] <==>
              AllServed(q, req, obj, fl) && NoBarePart(q, req)
  {
    if NoBarePart(q, req) {
      assert PartsSent(q, req, 0) == |q.parts|;
      RightIffServed(q, req, obj, bs, fl, first, last);
    } else {
      SentShort(q, req, obj, bs, fl, first, last);
    }
  }
}
