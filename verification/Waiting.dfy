/** What the flights of a whole run of the cache wait for. A request reads its parts one after the
    other, up to the first bare one, and the copy into the pipes of a flight waits for each reader in
    turn: a request that holds two pipes of one flight can make it wait for itself. */
module Waiting {
  import opened Streams
  import opened Search
  import opened Arith
  import opened Assembly
  import opened Requests
  import opened CacheRun
  import opened Hidden
  import Flight = ChunkFlight
  import FanOut

  /** Part j of request r reads from a flight. */
  predicate Has(s: State, r: nat, j: nat) {
    r < |s.requests| && j < |s.requests[r].parts| && s.requests[r].parts[j].src.Shared?
  }

  function Src(s: State, r: nat, j: nat): Source
    requires Has(s, r, j)
  {
    s.requests[r].parts[j].src
  }

  predicate InSeat(src: Source, fl: Flight.State) {
    src.Shared? ==> src.i < |fl.calls| && src.k < |fl.calls[src.i].ranges|
  }

  /** All flights are of this object, and only the newest can be joined. */
  ghost predicate Newest(fl: Flight.State) {
    && (forall i :: 0 <= i < |fl.calls| ==> fl.calls[i].key == KEY)
    && (KEY in fl.m ==> fl.m[KEY] + 1 == |fl.calls|)
  }

  /** No two parts hold the same pipe, and a request holds pipes of older flights before those of newer
      ones. */
  ghost predicate Wired(s: State) {
    && Newest(s.flights)
    && (forall r, j :: Has(s, r, j) ==> InSeat(Src(s, r, j), s.flights))
    && (forall r, j, t, k :: Has(s, r, j) && Has(s, t, k) && Src(s, r, j) == Src(s, t, k) ==> r == t && j == k)
    && (forall r, h, j :: h < j && Has(s, r, h) && Has(s, r, j) ==> Src(s, r, h).i <= Src(s, r, j).i)
  }

  lemma NewestStep(obj: seq<byte>, fl: Flight.State, e: Flight.Event)
    requires Flight.Inv(Only(obj), fl) && Newest(fl) && Flight.Enabled(Only(obj), fl, e) && (e.Arrive? ==> e.key == KEY)
    ensures Newest(Flight.Apply(Only(obj), fl, e))
  {
    if !e.Arrive? {
      Flight.LiveStep(Only(obj), fl, e);
    }
  }

  lemma SeatStays(obj: seq<byte>, fl: Flight.State, e: Flight.Event, src: Source)
    requires Flight.Enabled(Only(obj), fl, e) && InSeat(src, fl)
    ensures InSeat(src, Flight.Apply(Only(obj), fl, e))
  {
    if src.Shared? {
      RangesStay(Only(obj), fl, e, src.i, src.k);
    }
  }

  /** Flights move on while the requests stay as they are. */
  lemma WiredFlight(obj: seq<byte>, s: State, e: Flight.Event)
    requires Flight.Inv(Only(obj), s.flights) && Wired(s) && Flight.Enabled(Only(obj), s.flights, e)
    requires e.Arrive? ==> e.key == KEY
    ensures Wired(s.(flights := Flight.Apply(Only(obj), s.flights, e)))
  {
    NewestStep(obj, s.flights, e);
    var t := s.(flights := Flight.Apply(Only(obj), s.flights, e));
    forall r, j | Has(t, r, j) ensures InSeat(Src(t, r, j), t.flights) {
      assert Has(s, r, j);
      SeatStays(obj, s.flights, e, Src(s, r, j));
    }
    assert forall r, j :: Has(t, r, j) ==> Has(s, r, j) && Src(t, r, j) == Src(s, r, j);
  }

  /** The request at r gets one more part, whose pipe, if it has one, is new. */
  lemma WiredMore(s: State, fl: Flight.State, r: nat, p: Part)
    requires Wired(s) && Wired(s.(flights := fl)) && r < |s.requests| && InSeat(p.src, fl)
    requires p.src.Shared? ==> (KEY in s.flights.m ==> s.flights.m[KEY] < |s.flights.calls|)
    requires p.src.Shared? ==> var seat := Flight.Seat(s.flights, KEY); p.src == Shared(seat.0, seat.1)
    ensures var q := s.requests[r];
            Wired(s.(requests := s.requests[r := q.(parts := q.parts + [p])], flights := fl))
  {
    var q := s.requests[r];
    var t := s.(requests := s.requests[r := q.(parts := q.parts + [p])], flights := fl);
    assert forall a, j :: Has(t, a, j) && !(a == r && j == |q.parts|) ==> Has(s, a, j) && Src(t, a, j) == Src(s, a, j);
    assert forall a, j :: Has(s, a, j) ==> Has(s.(flights := fl), a, j);
    if p.src.Shared? {
      forall a, j | Has(s, a, j) ensures Src(s, a, j) != p.src && Src(s, a, j).i <= p.src.i {
        assert InSeat(Src(s, a, j), s.flights);
      }
    }
  }

  lemma WiredSame(s: State, r: nat, q: Request)
    requires Wired(s) && r < |s.requests| && q.parts == s.requests[r].parts
    ensures Wired(s.(requests := s.requests[r := q]))
  {
    var t := s.(requests := s.requests[r := q]);
    assert forall a, j :: Has(t, a, j) ==> Has(s, a, j) && Src(t, a, j) == Src(s, a, j);
  }

  lemma WiredTurn(obj: seq<byte>, bs: nat, s: State, e: Event)
    requires Inv(obj, bs, s) && Wired(s) && e.Turn? && Enabled(obj, bs, s, e)
    ensures Wired(Apply(obj, bs, s, e))
  {
    var q := s.requests[e.r];
    var req, at := Indexes(q.start, q.end, bs), Next(q, |q.parts|);
    var ask := Asked(e.w, req, at, q.end);
    var fl, src := FlightsAfter(obj, s.flights, ask, e.way), SourceOf(obj, s.flights, ask, e.way);
    if ask.Ask? && e.way.Collapsed? {
      WiredFlight(obj, s, Flight.Arrive(KEY, Flight.Range(ask.a, ask.b)));
      Flight.Seated(Only(obj), s.flights, KEY, Flight.Range(ask.a, ask.b));
    } else {
      assert s.(flights := fl) == s;
    }
    if Count(e.w, req, at) == 0 {
      WiredSame(s, e.r, q.(refused := true));
    } else {
      WiredMore(s, fl, e.r, Part(at, Count(e.w, req, at), e.w, src));
    }
  }

  lemma WiredArrive(s: State, q: Request)
    requires Wired(s) && q.parts == []
    ensures Wired(s.(requests := s.requests + [q]))
  {
    var t := s.(requests := s.requests + [q]);
    assert forall a, j :: Has(t, a, j) ==> Has(s, a, j) && Src(t, a, j) == Src(s, a, j);
  }

  lemma WiredAside(s: State, t: State)
    requires Wired(s) && t.requests == s.requests && t.flights == s.flights
    ensures Wired(t)
  {
    assert forall a, j :: Has(t, a, j) ==> Has(s, a, j) && Src(t, a, j) == Src(s, a, j);
  }

  lemma WiredStep(obj: seq<byte>, bs: nat, s: State, e: Event)
    requires Inv(obj, bs, s) && Wired(s) && Enabled(obj, bs, s, e)
    ensures Wired(Apply(obj, bs, s, e))
  {
    match e
    case Arrive(start, end) => WiredArrive(s, Request(start, end, [], false));
    case Turn(_, _, _) => WiredTurn(obj, bs, s, e);
    case GiveUp(r) => WiredSame(s, r, s.requests[r].(refused := true));
    case FlightStep(fe) => WiredFlight(obj, s, fe);
    case OpenFetch(_, _, _) => WiredAside(s, Apply(obj, bs, s, e));
    case FetchStep(_, _, _) => WiredAside(s, Apply(obj, bs, s, e));
    case Discard(_) => WiredAside(s, Apply(obj, bs, s, e));
  }

  lemma {:induction false} RunWired(obj: seq<byte>, bs: nat, events: seq<Event>, s: State)
    requires SmallEnough(|obj|, bs) && Run(obj, bs, events, s)
    ensures Inv(obj, bs, s) && Wired(s)
  {
    RunInv(obj, bs, events, s);
    if events != [] {
      var n := |events| - 1;
      var t: State :| Run(obj, bs, events[..n], t) && Enabled(obj, bs, t, events[n]) &&
          s == Apply(obj, bs, t, events[n]);
      RunWired(obj, bs, events[..n], t);
      WiredStep(obj, bs, t, events[n]);
    }
  }

  // ---- What a flight waits for ----

  predicate CallEnded(c: Flight.Call) {
    c.phase.Fanning? && FanOut.Ended(c.phase.snap, c.phase.copy)
  }

  /** Flight i has not ended, all before it have. */
  predicate First(fl: Flight.State, i: nat) {
    i < |fl.calls| && !CallEnded(fl.calls[i]) && forall h :: 0 <= h < i ==> CallEnded(fl.calls[h])
  }

  /** The copy is writing to pipe w, whose reader has been handed out and has not hung up. */
  predicate Writing(c: Flight.Call, w: nat) {
    && c.phase.Fanning? && c.phase.copy.Copying? && c.phase.copy.w == w < c.phase.snap
    && w < |c.pipes| && w < |c.callers| && !c.pipes[w].hungUp && c.callers[w].Given?
  }

  /** And part j of request r holds that pipe. */
  predicate Holder(s: State, i: nat, w: nat, r: nat, j: nat) {
    i < |s.flights.calls| && Writing(s.flights.calls[i], w) && Has(s, r, j) && Src(s, r, j) == Shared(i, w)
  }

  /** Part h is the one the request is reading, or about to read. */
  predicate Current(q: Request, h: nat, bs: nat, fl: Flight.State) {
    h < |q.parts| && EndedBefore(q, h, fl) && NoneBareBefore(q, h, bs) && !SourceEnded(q.parts[h].src, fl)
  }

  /** The response has ended behind part h, which is bare. */
  predicate EndsBehind(q: Request, h: nat, bs: nat, fl: Flight.State) {
    h < |q.parts| && EndedBefore(q, h + 1, fl) && NoneBareBefore(q, h, bs) && !NoneBareBefore(q, h + 1, bs)
  }

  /** The request that holds the pipe still reads another pipe of the same flight. */
  predicate Stuck(s: State, bs: nat, i: nat, w: nat, r: nat, j: nat, h: nat) {
    && Holder(s, i, w, r, j) && h < j && Has(s, r, h) && Src(s, r, h).i == i
    && Assembled(s.requests[r], bs, s.flights) && Current(s.requests[r], h, bs, s.flights)
  }

  /** The request will not read part j: it was refused, an earlier part failed, or the response ended
      there. */
  ghost predicate Broken(q: Request, j: nat, bs: nat, fl: Flight.State) {
    || q.refused
    || (Assembled(q, bs, fl) && exists h :: 0 <= h < j && Current(q, h, bs, fl) && SourceFailed(q.parts[h].src, fl))
    || (Assembled(q, bs, fl) && exists h :: 0 <= h < j && EndsBehind(q, h, bs, fl))
  }

  /** A step of the flight that the last turn of the request waits for. */
  predicate Awaited(q: Request, fl: Flight.State, fe: Flight.Event) {
    && q.parts != [] && !fe.Arrive? && !fe.HangUp?
    && var src := q.parts[|q.parts| - 1].src;
       src.Shared? && CallerIs(src, fl, Flight.Waiting) && fe.i == src.i && (fe.Wake? ==> fe.k == src.k)
  }

  /** A step of the flight's own leader or goroutine, or of the waiter the goroutine writes to. */
  predicate OwnStep(fl: Flight.State, i: nat, fe: Flight.Event) {
    && i < |fl.calls| && !fe.Arrive? && !fe.HangUp? && fe.i == i
    && (fe.Wake? ==> var p := fl.calls[i].phase; p.Fanning? && p.copy.Copying? && p.copy.w == fe.k)
  }

  /** A step that flight i waits for: its own, or one of the request that holds, as part j, the pipe
      being written to: its next turn, what that turn waits for, or closing what it will not read. */
  ghost predicate Helps(s: State, bs: nat, i: nat, e: Event, r: nat, j: nat) {
    match e
    case FlightStep(fe) =>
      || OwnStep(s.flights, i, fe)
      || (exists w :: Holder(s, i, w, r, j) &&
            (Awaited(s.requests[r], s.flights, fe)
             || (fe == Flight.HangUp(i, w) && Broken(s.requests[r], j, bs, s.flights))))
    case Turn(x, _, _) => x == r && exists w :: Holder(s, i, w, r, j)
    case GiveUp(x) => x == r && exists w :: Holder(s, i, w, r, j)
    case _ => false
  }

  /** While a turn waits for a flight, that flight can take a step. */
  lemma WaiterStep(obj: seq<byte>, fl: Flight.State, i: nat, k: nat) returns (fe: Flight.Event)
    requires Flight.Inv(Only(obj), fl) && i < |fl.calls| && k < |fl.calls[i].callers| && fl.calls[i].callers[k].Waiting?
    ensures Flight.Enabled(Only(obj), fl, fe) && !fe.Arrive? && !fe.HangUp? && !fe.Fan? && fe.i == i
    ensures fe.Wake? ==> fe.k == k
  {
    var c := fl.calls[i];
    fe := if c.phase.Gathering? then Flight.Unite(i) else if c.phase.United? then Flight.Release(i)
          else if c.phase.Released? then Flight.Delete(i) else Flight.Wake(i, k);
  }

  lemma {:induction false} FirstUnended(q: Request, j: nat, bs: nat, fl: Flight.State) returns (h: nat)
    requires j <= |q.parts| && 0 < bs && q.start <= q.end && !(EndedBefore(q, j, fl) && NoneBareBefore(q, j, bs))
    ensures h < j && (Current(q, h, bs, fl) || EndsBehind(q, h, bs, fl))
  {
    if EndedBefore(q, j - 1, fl) && NoneBareBefore(q, j - 1, bs) {
      h := j - 1;
    } else {
      h := FirstUnended(q, j - 1, bs, fl);
    }
  }

  /** Once a flight has ended, each of its readers has come to its end or to an error. */
  lemma EndedRead(obj: seq<byte>, fl: Flight.State, i: nat, k: nat)
    requires Flight.Inv(Only(obj), fl) && i < |fl.calls| && CallEnded(fl.calls[i]) && k < |fl.calls[i].ranges|
    ensures Flight.ReadOut(fl.calls[i], k) || Flight.ReadFailed(fl.calls[i], k)
  {
    var c := fl.calls[i];
    FanOut.PipeRight(c.pipes, c.phase.body, c.phase.snap, c.phase.copy, k);
  }

  /** A bucket in which a turn finds nothing. */
  function Bare(size: nat, bs: nat): World {
    World(size, bs, (i: nat) => Missing, [], (a: nat, b: nat) => Stream([], false))
  }

  lemma BareAsks(req: seq<nat>, size: nat, bs: nat, at: nat, start: nat, end: nat, first: nat, last: nat)
    requires 0 < bs && end < size && at < |req| && Chunks(req, start, end, bs, first, last).Some?
    ensures var ask := Asked(Bare(size, bs), req, at, end); ask.Ask? && ask.a <= ask.b < size
  {
    ChunksAt(req, start, end, bs, first, last, at);
    AskedOrigin(size, bs, end, first + at, last);
    MulMonotone(first + at, last, bs);
  }

  /** With collapsed forwarding or without it, a request with chunks left can make its next turn. */
  lemma TurnCan(obj: seq<byte>, bs: nat, s: State, r: nat, collapsed: bool) returns (e: Event)
    requires Inv(obj, bs, s) && r < |s.requests| && !s.requests[r].refused && Returned(s.requests[r], s.flights)
    requires var q := s.requests[r]; q.start <= q.end && Next(q, |q.parts|) < |Indexes(q.start, q.end, bs)|
    ensures e.Turn? && e.r == r && Enabled(obj, bs, s, e) && (e.way.Collapsed? <==> collapsed)
  {
    var q := s.requests[r];
    assert GoodRequest(q, obj, bs, s.flights);
    var req, w := Indexes(q.start, q.end, bs), Bare(|obj|, bs);
    var first, last := RequestChunks(q, |obj|, bs, req);
    BareAsks(req, |obj|, bs, Next(q, |q.parts|), q.start, q.end, first, last);
    e := Turn(r, w, if collapsed then Collapsed else Own(Stream([], false)));
    assert Sees(w, s.files, |obj|, bs);
  }

  /** The turns of a request never go past its chunks. */
  lemma NextInside(obj: seq<byte>, bs: nat, q: Request, fl: Flight.State)
    requires SmallEnough(|obj|, bs) && GoodRequest(q, obj, bs, fl)
    ensures Next(q, |q.parts|) <= |Indexes(q.start, q.end, bs)|
  {
    var req := Indexes(q.start, q.end, bs);
    if q.parts != [] {
      var m := |q.parts| - 1;
      var first, last := RequestChunks(q, |obj|, bs, req);
      assert GoodPart(q, m, req, obj, bs, fl).Some?;
      PartInside(q, m, req, obj, bs, fl, first, last);
    }
  }

  lemma PartInside(q: Request, j: nat, req: seq<nat>, obj: seq<byte>, bs: nat, fl: Flight.State, first: nat, last: nat)
    requires 0 < bs && 0 < |obj| && j < |q.parts| && GoodPart(q, j, req, obj, bs, fl).Some?
    requires Chunks(req, q.start, q.end, bs, first, last).Some?
    ensures q.parts[j].at + q.parts[j].count <= |req|
  {
    assert Shown(0);
    ChunksAt(req, q.start, q.end, bs, first, last, q.parts[j].at);
  }

  /** Whoever holds the pipe being written to and does not read it: it, or what it waits for, can
      take a step, unless it reads another pipe of the same flight. */
  lemma HolderStep(obj: seq<byte>, bs: nat, s: State, i: nat, w: nat, r: nat, j: nat,
                   collapsed: bool) returns (e: Event, stuck: bool, h: nat)
    requires Inv(obj, bs, s) && Wired(s) && First(s.flights, i) && Holder(s, i, w, r, j)
    requires !Reads(s.requests[r], j, bs, s.flights)
    ensures if stuck then Stuck(s, bs, i, w, r, j, h) else Enabled(obj, bs, s, e) && Helps(s, bs, i, e, r, j)
  {
    var q, fl := s.requests[r], s.flights;
    assert GoodRequest(q, obj, bs, fl);
    stuck, h := false, 0;
    if q.refused {
      e := FlightStep(Flight.HangUp(i, w));
    } else if !Returned(q, fl) {
      e := LastTurn(obj, bs, s, i, w, r, j);
    } else {
      NextInside(obj, bs, q, fl);
      if Next(q, |q.parts|) < |Indexes(q.start, q.end, bs)| {
        e := TurnCan(obj, bs, s, r, collapsed);
      } else {
        h := FirstUnended(q, j, bs, fl);
        e := FlightStep(Flight.HangUp(i, w));
        stuck := Current(q, h, bs, fl) && !SourceFailed(q.parts[h].src, fl);
        if stuck {
          BehindItself(obj, bs, s, i, w, r, j, h);
        }
      }
    }
  }

  lemma LastTurn(obj: seq<byte>, bs: nat, s: State, i: nat, w: nat, r: nat, j: nat) returns (e: Event)
    requires Inv(obj, bs, s) && Wired(s) && Holder(s, i, w, r, j)
    requires !s.requests[r].refused && !Returned(s.requests[r], s.flights)
    ensures Enabled(obj, bs, s, e) && Helps(s, bs, i, e, r, j)
  {
    var q, fl := s.requests[r], s.flights;
    var src := q.parts[|q.parts| - 1].src;
    assert Has(s, r, |q.parts| - 1) && InSeat(Src(s, r, |q.parts| - 1), fl);
    if CallerIs(src, fl, Flight.Refused) {
      e := GiveUp(r);
    } else {
      var fe := WaiterStep(obj, fl, src.i, src.k);
      e := FlightStep(fe);
      assert Awaited(q, fl, fe);
    }
  }

  lemma BehindItself(obj: seq<byte>, bs: nat, s: State, i: nat, w: nat, r: nat, j: nat, h: nat)
    requires Inv(obj, bs, s) && Wired(s) && First(s.flights, i) && Holder(s, i, w, r, j) && h < j
    requires var q := s.requests[r]; Current(q, h, bs, s.flights) && !SourceFailed(q.parts[h].src, s.flights)
    ensures Has(s, r, h) && Src(s, r, h).i == i
  {
    assert Has(s, r, h) && InSeat(Src(s, r, h), s.flights);
    if Src(s, r, h).i < i {
      EndedRead(obj, s.flights, Src(s, r, h).i, Src(s, r, h).k);
    }
  }

  ghost predicate IsStuck(s: State, bs: nat, i: nat) {
    exists w, r, j, h :: Stuck(s, bs, i, w, r, j, h)
  }

  /** Some step that flight i waits for is possible. */
  ghost predicate MovesOn(obj: seq<byte>, bs: nat, s: State, i: nat)
    requires 0 < bs
  {
    exists e, r, j :: Helps(s, bs, i, e, r, j) && Enabled(obj, bs, s, e)
  }

  lemma NotStuckMovesOn(obj: seq<byte>, bs: nat, s: State, i: nat, collapsed: bool)
    requires Inv(obj, bs, s) && Wired(s) && First(s.flights, i) && !IsStuck(s, bs, i)
    ensures MovesOn(obj, bs, s, i)
  {
    var fe := Flight.NextStep(Only(obj), s.flights, i);
    var w := if fe.Fan? && fe.e.Deliver? then s.flights.calls[i].phase.copy.w else 0;
    if fe.Fan? && fe.e.Deliver? && !Attended(s, bs, i, w) {
      var r, j :| 0 <= r < |s.requests| && 0 <= j < |s.requests[r].parts| &&
          s.requests[r].parts[j].src == Shared(i, w) && !Reads(s.requests[r], j, bs, s.flights);
      assert Holder(s, i, w, r, j);
      var e, stuck, h := HolderStep(obj, bs, s, i, w, r, j, collapsed);
      assert !stuck;
    } else {
      assert Helps(s, bs, i, FlightStep(fe), 0, 0) && Enabled(obj, bs, s, FlightStep(fe));
    }
  }

  /** A stuck flight: none of the steps it waits for is possible. */
  lemma StuckWaits(obj: seq<byte>, bs: nat, s: State, i: nat, w: nat, r: nat, j: nat, h: nat, e: Event, x: nat, y: nat)
    requires Inv(obj, bs, s) && Wired(s) && Stuck(s, bs, i, w, r, j, h) && Helps(s, bs, i, e, x, y)
    ensures !Enabled(obj, bs, s, e)
  {
    assert forall v :: Holder(s, i, v, x, y) ==> v == w && x == r && y == j;
    if e.FlightStep? && OwnStep(s.flights, i, e.fe) {
      StuckFan(obj, bs, s, i, w, r, j, h, e.fe);
    } else {
      assert Has(s, r, h) && Holder(s, i, w, x, y) && x == r && y == j;
      StuckOthers(obj, bs, s, i, w, r, j, h, e);
    }
  }

  lemma StuckFan(obj: seq<byte>, bs: nat, s: State, i: nat, w: nat, r: nat, j: nat, h: nat, fe: Flight.Event)
    requires Inv(obj, bs, s) && Stuck(s, bs, i, w, r, j, h) && OwnStep(s.flights, i, fe)
    ensures !Enabled(obj, bs, s, FlightStep(fe))
  {
    assert !Reads(s.requests[r], j, bs, s.flights);
  }

  lemma StuckOthers(obj: seq<byte>, bs: nat, s: State, i: nat, w: nat, r: nat, j: nat, h: nat, e: Event)
    requires Inv(obj, bs, s) && Stuck(s, bs, i, w, r, j, h) && Helps(s, bs, i, e, r, j)
    requires !(e.FlightStep? && OwnStep(s.flights, i, e.fe))
    ensures !Enabled(obj, bs, s, e)
  {
    var q, fl := s.requests[r], s.flights;
    match e
    case FlightStep(fe) =>
      assert !Awaited(q, fl, fe);
      if fe == Flight.HangUp(i, w) && Broken(q, j, bs, fl) {
        NotEnded(q, h, bs, fl);
        var g :| 0 <= g < j && Current(q, g, bs, fl) && SourceFailed(q.parts[g].src, fl);
        CurrentOnce(q, g, h, bs, fl);
        StillCopied(obj, fl, i, Src(s, r, h).k);
        assert false;
      }
    case Turn(_, _, _) =>
    case GiveUp(_) =>
  }

  lemma CurrentOnce(q: Request, g: nat, h: nat, bs: nat, fl: Flight.State)
    requires Current(q, g, bs, fl) && Current(q, h, bs, fl)
    ensures g == h
  {
  }

  /** A response that still reads a part has not ended. */
  lemma NotEnded(q: Request, h: nat, bs: nat, fl: Flight.State)
    requires Current(q, h, bs, fl)
    ensures forall g: nat :: !EndsBehind(q, g, bs, fl)
  {
    forall g: nat ensures !EndsBehind(q, g, bs, fl) {
      if g < h {
        assert NoneBareBefore(q, h, bs) ==> NoneBareBefore(q, g + 1, bs);
      }
    }
  }

  /** While the copy goes on, no pipe is closed. */
  lemma StillCopied(obj: seq<byte>, fl: Flight.State, i: nat, k: nat)
    requires Flight.Inv(Only(obj), fl) && i < |fl.calls|
    requires fl.calls[i].phase.Fanning? && fl.calls[i].phase.copy.Copying? && k < |fl.calls[i].pipes|
    ensures fl.calls[i].pipes[k].ending.Unclosed?
  {
    var c := fl.calls[i];
    assert FanOut.Copied(c.pipes[k], c.phase.body, FanOut.Progress(c.phase.copy, k));
  }

  /** The first flight of a run that has not ended moves on if and only if the request that holds the
      pipe being written to does not still read another pipe of the same flight. */
  lemma MovesOnIffNotStuck(obj: seq<byte>, bs: nat, events: seq<Event>, s: State, i: nat)
    requires SmallEnough(|obj|, bs) && Run(obj, bs, events, s) && First(s.flights, i)
    ensures MovesOn(obj, bs, s, i) <==> !IsStuck(s, bs, i)
  {
    RunWired(obj, bs, events, s);
    if !IsStuck(s, bs, i) {
      NotStuckMovesOn(obj, bs, s, i, true);
    } else {
      var w, r, j, h :| Stuck(s, bs, i, w, r, j, h);
      forall e, x, y | Helps(s, bs, i, e, x, y) ensures !Enabled(obj, bs, s, e) {
        StuckWaits(obj, bs, s, i, w, r, j, h, e, x, y);
      }
    }
  }

  /** No request holds two pipes of one flight. */
  ghost predicate OnePipeEach(s: State) {
    forall r, h, j :: h < j && Has(s, r, h) && Has(s, r, j) ==> Src(s, r, h).i != Src(s, r, j).i
  }

  /** Then no flight gets stuck: the first that has not ended can move on. */
  lemma NoFlightStuck(obj: seq<byte>, bs: nat, events: seq<Event>, s: State, i: nat)
    requires SmallEnough(|obj|, bs) && Run(obj, bs, events, s) && First(s.flights, i) && OnePipeEach(s)
    ensures MovesOn(obj, bs, s, i)
  {
    MovesOnIffNotStuck(obj, bs, events, s, i);
  }

  // ---- A stuck flight stays stuck ----

  /** A reader that has ended stays so, whatever the flights do. */
  lemma EndedStays(obj: seq<byte>, fl: Flight.State, e: Flight.Event, src: Source)
    requires Flight.Inv(Only(obj), fl) && Flight.Enabled(Only(obj), fl, e) && SourceEnded(src, fl)
    ensures SourceEnded(src, Flight.Apply(Only(obj), fl, e))
  {
    if src.Shared? && !e.Arrive? && e.i == src.i {
      CallEndedStays(obj, fl, e, src.k);
    }
  }

  lemma CallEndedStays(obj: seq<byte>, fl: Flight.State, e: Flight.Event, k: nat)
    requires Flight.Enabled(Only(obj), fl, e) && !e.Arrive? && Flight.ReadOut(fl.calls[e.i], k)
    ensures Flight.ReadOut(Flight.CallAfter(Only(obj), fl, e), k)
  {
  }

  /** A caller that has its reader keeps it. */
  lemma GivenStays(obj: seq<byte>, fl: Flight.State, e: Flight.Event, src: Source)
    requires Flight.Enabled(Only(obj), fl, e) && CallerIs(src, fl, Flight.Given)
    ensures CallerIs(src, Flight.Apply(Only(obj), fl, e), Flight.Given)
  {
  }

  /** Another call than i takes the step, or one of its waiters wakes, or a reader of another pipe
      hangs up. */
  ghost predicate Elsewhere(fl: Flight.State, i: nat, w: nat, e: Flight.Event)
    requires i < |fl.calls|
  {
    e.Arrive? || e.i != i || e.Wake? || (e.HangUp? && e.k != w)
  }

  lemma CallKept(obj: seq<byte>, fl: Flight.State, i: nat, w: nat, e: Flight.Event)
    requires Flight.Inv(Only(obj), fl) && Flight.Enabled(Only(obj), fl, e) && i < |fl.calls|
    requires Writing(fl.calls[i], w) && Elsewhere(fl, i, w, e)
    ensures var after := Flight.Apply(Only(obj), fl, e);
            && i < |after.calls| && Writing(after.calls[i], w)
            && forall k :: Flight.ReadOut(after.calls[i], k) ==> Flight.ReadOut(fl.calls[i], k)
  {
  }

  lemma StuckFlight(obj: seq<byte>, bs: nat, s: State, i: nat, w: nat, r: nat, j: nat, h: nat, e: Flight.Event)
    requires Flight.Inv(Only(obj), s.flights) && Flight.Enabled(Only(obj), s.flights, e)
    requires Stuck(s, bs, i, w, r, j, h) && Elsewhere(s.flights, i, w, e)
    ensures Stuck(s.(flights := Flight.Apply(Only(obj), s.flights, e)), bs, i, w, r, j, h)
  {
    var q, fl, after := s.requests[r], s.flights, Flight.Apply(Only(obj), s.flights, e);
    CallKept(obj, fl, i, w, e);
    GivenStays(obj, fl, e, q.parts[|q.parts| - 1].src);
    forall g | 0 <= g < h && g < |q.parts| ensures SourceEnded(q.parts[g].src, after) {
      EndedStays(obj, fl, e, q.parts[g].src);
    }
    assert Has(s.(flights := after), r, j) && Has(s.(flights := after), r, h);
  }

  /** Only the requests change, and not the one that is stuck. */
  lemma StuckRequests(s: State, bs: nat, i: nat, w: nat, r: nat, j: nat, h: nat, requests: seq<Request>)
    requires Stuck(s, bs, i, w, r, j, h) && r < |requests| && requests[r] == s.requests[r]
    ensures Stuck(s.(requests := requests), bs, i, w, r, j, h)
  {
    var t := s.(requests := requests);
    assert Has(t, r, j) && Has(t, r, h);
  }

  lemma StuckTurn(obj: seq<byte>, bs: nat, s: State, i: nat, w: nat, r: nat, j: nat, h: nat, e: Event)
    requires Inv(obj, bs, s) && Stuck(s, bs, i, w, r, j, h) && e.Turn? && Enabled(obj, bs, s, e)
    ensures Stuck(Apply(obj, bs, s, e), bs, i, w, r, j, h)
  {
    var q := s.requests[e.r];
    var ask := Asked(e.w, Indexes(q.start, q.end, bs), Next(q, |q.parts|), q.end);
    var fl := FlightsAfter(obj, s.flights, ask, e.way);
    if ask.Ask? && e.way.Collapsed? {
      StuckFlight(obj, bs, s, i, w, r, j, h, Flight.Arrive(KEY, Flight.Range(ask.a, ask.b)));
    } else {
      assert s.(flights := fl) == s;
    }
    assert e.r != r;
    StuckRequests(s.(flights := fl), bs, i, w, r, j, h, Apply(obj, bs, s, e).requests);
  }

  /** Whatever happens, a stuck flight stays so until the request hangs up on the pipe. */
  lemma StuckStays(obj: seq<byte>, bs: nat, s: State, i: nat, w: nat, r: nat, j: nat, h: nat, e: Event)
    requires Inv(obj, bs, s) && Stuck(s, bs, i, w, r, j, h) && Enabled(obj, bs, s, e)
    requires e != FlightStep(Flight.HangUp(i, w))
    ensures Stuck(Apply(obj, bs, s, e), bs, i, w, r, j, h)
  {
    match e
    case Arrive(_, _) => StuckRequests(s, bs, i, w, r, j, h, Apply(obj, bs, s, e).requests);
    case Turn(_, _, _) => StuckTurn(obj, bs, s, i, w, r, j, h, e);
    case GiveUp(x) => StuckRequests(s, bs, i, w, r, j, h, Apply(obj, bs, s, e).requests);
    case FlightStep(fe) =>
      if OwnStep(s.flights, i, fe) {
        StuckFan(obj, bs, s, i, w, r, j, h, fe);
      } else {
        StuckFlight(obj, bs, s, i, w, r, j, h, fe);
      }
    case OpenFetch(_, _, _) => StuckAside(s, bs, i, w, r, j, h, Apply(obj, bs, s, e));
    case FetchStep(_, _, _) => StuckAside(s, bs, i, w, r, j, h, Apply(obj, bs, s, e));
    case Discard(_) => StuckAside(s, bs, i, w, r, j, h, Apply(obj, bs, s, e));
  }

  lemma StuckAside(s: State, bs: nat, i: nat, w: nat, r: nat, j: nat, h: nat, t: State)
    requires Stuck(s, bs, i, w, r, j, h) && t.requests == s.requests && t.flights == s.flights
    ensures Stuck(t, bs, i, w, r, j, h)
  {
    assert Has(t, r, j) && Has(t, r, h);
  }

  /** `t` comes from `s` by `events`. */
  ghost predicate Goes(obj: seq<byte>, bs: nat, s: State, events: seq<Event>, t: State)
    requires 0 < bs
    decreases events
  {
    if events == [] then s == t
    else Enabled(obj, bs, s, events[0]) && Goes(obj, bs, Apply(obj, bs, s, events[0]), events[1..], t)
  }

  /** However a run goes on: unless the request hangs up on the pipe, the flight is still stuck. */
  lemma {:induction false} StuckForever(obj: seq<byte>, bs: nat, s: State, i: nat, w: nat, r: nat, j: nat, h: nat,
                                        events: seq<Event>, t: State)
    requires Inv(obj, bs, s) && Stuck(s, bs, i, w, r, j, h) && Goes(obj, bs, s, events, t)
    requires FlightStep(Flight.HangUp(i, w)) !in events
    ensures Stuck(t, bs, i, w, r, j, h)
    decreases events
  {
    if events != [] {
      var e := events[0];
      assert e in events;
      StepInv(obj, bs, s, e);
      StuckStays(obj, bs, s, i, w, r, j, h, e);
      StuckForever(obj, bs, Apply(obj, bs, s, e), i, w, r, j, h, events[1..], t);
    }
  }
}
