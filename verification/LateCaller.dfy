/** A run of the whole cache in which a complete response is wrong: a request joined a flight behind
    its union, and the chunk after what it wanted of the flight was cached. */
module LateCaller {
  import opened Streams
  import opened Search
  import opened Assembly
  import opened AssemblyProof
  import opened Requests
  import opened CacheRun
  import Flight = ChunkFlight
  import FanOut

  const EIGHT: seq<byte> := [1, 2, 3, 4, 5, 6, 7, 8]

  /** Chunks of two bytes; only the one with bytes 6 and 7 is cached. */
  function LastCached(): World {
    World(8, 2, (i: nat) => if i == 3 then File([7, 8]) else Missing, [3], (a: nat, b: nat) => Stream([], false))
  }

  lemma LastCachedPlan()
    ensures Choose(LastCached(), 2, 3) == FromAnchor(3, [7, 8])
    ensures Asked(LastCached(), [2, 3], 0, 7) == Ask(4, 5) && Count(LastCached(), [2, 3], 0) == 2
    ensures Asked(LastCached(), [2], 0, 4) == Ask(4, 4) && Count(LastCached(), [2], 0) == 1
  {
    var w := LastCached();
    assert BinarySearch(w.avail, Between(2, 3), 0, 1) == 0;
    assert BinarySearch(w.avail, Between(2, 2), 0, 1) == 1;
  }

  lemma LastChunks()
    ensures Indexes(4, 7, 2) == [2, 3] && Indexes(4, 4, 2) == [2]
  {
    IndexesRequest(4, 7, 2);
    IndexesRequest(4, 4, 2);
  }

  lemma LastTurns(w: World)
    requires w == LastCached()
    ensures Planned(w, 4, 4, 2, 1, 0, 4, 4, 1).Some? && Planned(w, 4, 7, 2, 2, 0, 4, 5, 2).Some?
  {
    LastChunks();
    LastCachedPlan();
  }

  /** A request of one part, with nothing left to assemble. */
  ghost predicate OnePart(q: Request, bs: nat)
    requires 0 < bs
  {
    q.start <= q.end && |q.parts| == 1 && !q.refused && Next(q, 1) == |Indexes(q.start, q.end, bs)|
  }

  lemma OneStep(obj: seq<byte>, bs: nat, s: State, fe: Flight.Event)
    requires 0 < bs && Reachable(obj, bs, s) && forall r :: 0 <= r < |s.requests| ==> OnePart(s.requests[r], bs)
    requires !fe.Arrive? && Flight.Enabled(Only(obj), s.flights, fe)
    ensures Reachable(obj, bs, s.(flights := Flight.Apply(Only(obj), s.flights, fe)))
  {
    if fe.Fan? && fe.e.Deliver? {
      var w := s.flights.calls[fe.i].phase.copy.w;
      forall r, j | 0 <= r < |s.requests| && 0 <= j < |s.requests[r].parts|
        && s.requests[r].parts[j].src == Shared(fe.i, w)
        ensures Reads(s.requests[r], j, bs, s.flights) {
        assert OnePart(s.requests[r], bs);
      }
    }
    ReachFlight(obj, bs, s, fe);
  }

  /** While every request has one part, whatever the flights can do is part of a run. */
  lemma {:induction false} FlightsStep(obj: seq<byte>, bs: nat, s: State, events: seq<Flight.Event>, fl: Flight.State)
    requires 0 < bs && Reachable(obj, bs, s) && forall r :: 0 <= r < |s.requests| ==> OnePart(s.requests[r], bs)
    requires Flight.Steps(Only(obj), s.flights, events, fl)
    ensures Reachable(obj, bs, s.(flights := fl))
  {
    if events == [] {
      assert s.(flights := fl) == s;
    } else {
      var n := |events| - 1;
      var m: Flight.State :| Flight.Steps(Only(obj), s.flights, events[..n], m) && !events[n].Arrive? &&
          Flight.Enabled(Only(obj), m, events[n]) && fl == Flight.Apply(Only(obj), m, events[n]);
      FlightsStep(obj, bs, s, events[..n], m);
      OneStep(obj, bs, s.(flights := m), events[n]);
    }
  }

  /** The leader asks for byte 4. */
  lemma Leader(w: World) returns (s: State, q: Request)
    requires w == LastCached()
    ensures Reachable(EIGHT, 2, s) && s.files == map[3 := [7, 8]] && s.requests == [q] && OnePart(q, 2)
    ensures s.flights == Flight.State(map[KEY := 0], [Flight.NewCall(KEY, Flight.Range(4, 4))])
  {
    LastTurns(w);
    LastChunks();
    var s0 := State(map[3 := [7, 8]], [], [], Flight.State(map[], []));
    assert Begin(EIGHT, 2, s0) by {
      assert Chunk(EIGHT, 2, 3) == [7, 8];
    }
    assert Run(EIGHT, 2, [], s0);
    ReachArrive(EIGHT, 2, s0, 4, 4);
    var s1 := s0.(requests := [Request(4, 4, [], false)]);
    assert [] + s1.requests == s1.requests;
    ReachJoin(EIGHT, 2, s1, 0, s1.requests[0], w, 1, 0, 4, 4, 1);
    q := Request(4, 4, [Part(0, 1, w, Shared(0, 0))], false);
    s := s1.(requests := [q], flights := Flight.State(map[KEY := 0], [Flight.NewCall(KEY, Flight.Range(4, 4))]));
    assert s1.requests[0 := q] == [q] && s1.requests[0].parts + q.parts == q.parts;
    assert Flight.Apply(Only(EIGHT), s1.flights, Flight.Arrive(KEY, Flight.Range(4, 4))) == s.flights;
  }

  /** The late caller asks for bytes 4 and 5, and has bytes 6 and 7. */
  function Late(w: World): Request {
    Request(4, 7, [Part(0, 2, w, Shared(0, 1))], false)
  }

  lemma LateJoins(s: State, w: World, q: Request) returns (t: State)
    requires w == LastCached() && Reachable(EIGHT, 2, s) && s.files == map[3 := [7, 8]] && s.requests == [q]
    requires s.flights.m == map[KEY := 0]
    requires s.flights.calls == [Flight.NewCall(KEY, Flight.Range(4, 4)).(early := 1, phase := Flight.United)]
    ensures Reachable(EIGHT, 2, t) && t.requests == [q, Late(w)]
    ensures Flight.LateJoin(t.flights, FanOut.Fresh, FanOut.Fresh, Flight.Waiting, Flight.Waiting, Flight.United)
  {
    LastTurns(w);
    ReachArrive(EIGHT, 2, s, 4, 7);
    var s1 := s.(requests := [q, Request(4, 7, [], false)]);
    assert [q] + [Request(4, 7, [], false)] == s1.requests;
    ReachJoin(EIGHT, 2, s1, 1, s1.requests[1], w, 2, 0, 4, 5, 2);
    t := s1.(requests := [q, Late(w)],
             flights := Flight.Apply(Only(EIGHT), s1.flights, Flight.Arrive(KEY, Flight.Range(4, 5))));
    assert s1.requests[1 := Late(w)] == t.requests && s1.requests[1].parts + Late(w).parts == Late(w).parts;
  }

  lemma CutPart(p: Part, fl: Flight.State)
    requires p == Late(LastCached()).parts[0] && Value(p.src, fl) == Stream([5], true)
    ensures PieceOf(p, [2, 3], 4, 7, fl) == Piece(Stream([5, 7, 8], true), 2)
  {
    LastCachedPlan();
    var f: Stream := Stream([5], true);
    assert Concat(f, Stream([7, 8], true)) == Stream([5, 7, 8], true);
  }

  lemma CutBody(q: Request, fl: Flight.State)
    requires q == Late(LastCached()) && Value(q.parts[0].src, fl) == Stream([5], true)
    ensures BodyOf(q, [2, 3], fl) == Stream([5, 7, 8], true)
  {
    CutPart(q.parts[0], fl);
    var ss := Delivereds(q, [2, 3], fl);
    assert Joined(ss, 1) == Concat(Joined(ss, 0), ss[0]);
  }

  /** One byte is missing, and the cached chunk has none to spare. */
  lemma NotServed(q: Request, fl: Flight.State)
    requires q == Late(LastCached()) && |fl.calls| == 1
    requires var c := fl.calls[0]; 2 == |c.ranges| && c.union == Flight.Range(4, 4) && !Flight.Covered(c, 1)
    ensures !AllServed(q, [2, 3], EIGHT, fl)
  {
    LastCachedPlan();
    assert Flight.Overlap(EIGHT, Flight.Range(4, 4), Flight.Range(4, 5)) == EIGHT[4..5];
    assert !PartServed(q.parts[0], [2, 3], EIGHT, 4, 7, fl);
  }

  /** A gap that does not show: bytes 0 and 1 are wanted of a flight for byte 0, then byte 2, and the
      cached chunk has one byte to spare; all bytes are the same. */
  lemma GapHidden()
    ensures Masks([9, 9, 9, 9], Flight.Range(0, 0), Flight.Range(0, 1), 2, 0, 2)
    ensures !Flight.Inside(Flight.Range(0, 1), Flight.Range(0, 0))
  {
    var obj: seq<byte> := [9, 9, 9, 9];
    assert Flight.Overlap(obj, Flight.Range(0, 0), Flight.Range(0, 1)) == [9];
    forall x: nat | x <= 2 ensures Same(obj, x, Stand(x, 1, 0, 1)) {
      assert obj[x] == 9;
    }
  }

  /** There is a run in which a complete response to bytes 4 to 7 of the object 1..8 is [5, 7, 8]; that
      it is not the object's bytes is an instance of the exact condition. */
  lemma WrongResponse() returns (s: State, q: Request)
    ensures Reachable(EIGHT, 2, s) && |s.requests| == 2 && s.requests[1] == q && q.start == 4 && q.end == 7
    ensures Indexes(4, 7, 2) == [2, 3] && Next(q, |q.parts|) == 2
    ensures BodyOf(q, [2, 3], s.flights) == Stream([5, 7, 8], true)
    ensures !AllServed(q, [2, 3], EIGHT, s.flights) && BodyOf(q, [2, 3], s.flights).bytes != EIGHT[4..8]
  {
    var w, q0 := LastCached(), Late(LastCached());
    s, q0 := Leader(w);
    ReachFlight(EIGHT, 2, s, Flight.Unite(0));
    s := s.(flights := Flight.Apply(Only(EIGHT), s.flights, Flight.Unite(0)));
    s := LateJoins(s, w, q0);
    q := Late(w);
    LastChunks();
    var fl := Flight.LateCallerCut(Only(EIGHT), s.flights);
    var events :| Flight.Steps(Only(EIGHT), s.flights, events, fl);
    FlightsStep(EIGHT, 2, s, events, fl);
    s := s.(flights := fl);
    assert EIGHT[4..5] == [5];
    CutBody(q, fl);
    NotServed(q, fl);
    WrongByCondition(s, q);
  }

  lemma WrongByCondition(s: State, q: Request)
    requires Reachable(EIGHT, 2, s) && |s.requests| == 2 && s.requests[1] == q && q.start == 4 && q.end == 7
    requires Indexes(4, 7, 2) == [2, 3] && Next(q, |q.parts|) == 2
    requires BodyOf(q, [2, 3], s.flights).complete && !AllServed(q, [2, 3], EIGHT, s.flights)
    ensures BodyOf(q, [2, 3], s.flights).bytes != EIGHT[4..8]
  {
    var all :| Run(EIGHT, 2, all, s);
    var req := ResponseRightIffServed(EIGHT, 2, all, s, 1, q);
  }
}
