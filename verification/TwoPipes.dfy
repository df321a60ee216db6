/** A run of the whole cache that gets stuck: a request joins a flight with its first part, and again
    with its last part before the key of the flight is deleted. */
module TwoPipes {
  import opened Streams
  import opened Search
  import opened Assembly
  import opened AssemblyProof
  import opened Sending
  import opened Requests
  import opened CacheRun
  import opened Waiting
  import Flight = ChunkFlight
  import FanOut

  lemma FirstAsks(w: World)
    requires w == MiddleCached()
    ensures Asked(w, [0], 0, 1) == Ask(0, 1) && Count(w, [0], 0) == 1
  {
    assert BinarySearch(w.avail, Between(0, 0), 0, 1) == 1;
  }

  lemma FirstChunk(w: World)
    requires w == MiddleCached()
    ensures Planned(w, 0, 1, 2, 1, 0, 0, 1, 1).Some?
  {
    FirstAsks(w);
    assert Indexes(0, 1, 2) == [0] by {
      IndexesRequest(0, 1, 2);
    }
  }

  lemma UpToMiddle(w: World)
    requires w == MiddleCached()
    ensures Planned(w, 0, 5, 2, 3, 0, 0, 1, 2).Some?
  {
    IndexesRequest(0, 5, 2);
    assert Indexes(0, 5, 2) == [0, 1, 2] && BinarySearch(w.avail, Between(0, 2), 0, 1) == 0;
    assert Choose(w, 0, 2) == FromAnchor(1, [3, 4]);
  }

  lemma LastChunkAlone(w: World)
    requires w == MiddleCached()
    ensures Planned(w, 0, 5, 2, 3, 2, 4, 5, 1).Some?
  {
    IndexesRequest(0, 5, 2);
    assert Indexes(0, 5, 2) == [0, 1, 2] && BinarySearch(w.avail, Between(2, 2), 0, 1) == 1;
    assert Choose(w, 2, 2) == FromOrigin;
  }

  /** The leader wants the first chunk. */
  function Leader(w: World): Request {
    Request(0, 1, [Part(0, 1, w, Shared(0, 0))], false)
  }

  /** The other request wants everything: it joins for the first chunk, and again for the last. */
  function JoinedOnce(w: World): Request {
    Request(0, 5, [Part(0, 2, w, Shared(0, 1))], false)
  }

  function JoinedTwice(w: World): Request {
    Request(0, 5, [Part(0, 2, w, Shared(0, 1)), Part(2, 1, w, Shared(0, 2))], false)
  }

  lemma LeaderArrives() returns (s: State)
    ensures Reachable(SIX, 2, s)
    ensures s == State(map[1 := [3, 4]], [Request(0, 1, [], false)], [], Flight.State(map[], []))
  {
    var s0 := State(map[1 := [3, 4]], [], [], Flight.State(map[], []));
    assert Begin(SIX, 2, s0) by {
      assert Chunk(SIX, 2, 1) == [3, 4];
    }
    assert Run(SIX, 2, [], s0);
    ReachArrive(SIX, 2, s0, 0, 1);
    s := s0.(requests := [Request(0, 1, [], false)]);
    assert [] + s.requests == s.requests;
  }

  lemma LeaderJoins(w: World) returns (s: State)
    requires w == MiddleCached()
    ensures Reachable(SIX, 2, s) && s.files == map[1 := [3, 4]] && s.requests == [Leader(w)]
    ensures s.flights == Flight.State(map[KEY := 0], [Flight.NewCall(KEY, Flight.Range(0, 1))])
  {
    FirstChunk(w);
    var s1 := LeaderArrives();
    ReachJoin(SIX, 2, s1, 0, s1.requests[0], w, 1, 0, 0, 1, 1);
    var q := Leader(w);
    s := s1.(requests := [q], flights := Flight.State(map[KEY := 0], [Flight.NewCall(KEY, Flight.Range(0, 1))]));
    assert s1.requests[0 := q] == [q] && s1.requests[0].parts + q.parts == q.parts;
    assert Flight.Apply(Only(SIX), s1.flights, Flight.Arrive(KEY, Flight.Range(0, 1))) == s.flights;
  }

  lemma WaiterJoins(s: State, w: World) returns (t: State)
    requires w == MiddleCached() && Reachable(SIX, 2, s) && s.files == map[1 := [3, 4]] && s.requests == [Leader(w)]
    requires s.flights == Flight.State(map[KEY := 0], [Flight.NewCall(KEY, Flight.Range(0, 1))])
    ensures Reachable(SIX, 2, t) && t.files == s.files && t.requests == [Leader(w), JoinedOnce(w)]
    ensures t.flights == Flight.State(map[KEY := 0],
              [Flight.Join(Flight.NewCall(KEY, Flight.Range(0, 1)), Flight.Range(0, 1))])
  {
    UpToMiddle(w);
    ReachArrive(SIX, 2, s, 0, 5);
    var s1 := s.(requests := [Leader(w), Request(0, 5, [], false)]);
    assert [Leader(w)] + [Request(0, 5, [], false)] == s1.requests;
    ReachJoin(SIX, 2, s1, 1, s1.requests[1], w, 3, 0, 0, 1, 2);
    var calls := [Flight.Join(Flight.NewCall(KEY, Flight.Range(0, 1)), Flight.Range(0, 1))];
    t := s1.(requests := [Leader(w), JoinedOnce(w)], flights := Flight.State(map[KEY := 0], calls));
    assert s1.requests[1 := JoinedOnce(w)] == t.requests && [] + JoinedOnce(w).parts == JoinedOnce(w).parts;
    assert s1.flights.calls[0 := calls[0]] == calls;
  }

  /** The union is computed and its waiters are released; the request has its first reader. */
  lemma WaiterWakes(s: State) returns (t: State)
    requires Reachable(SIX, 2, s)
    requires s.flights == Flight.State(map[KEY := 0],
               [Flight.Join(Flight.NewCall(KEY, Flight.Range(0, 1)), Flight.Range(0, 1))])
    ensures Reachable(SIX, 2, t) && t == s.(flights := t.flights)
    ensures t.flights.m == map[KEY := 0] && |t.flights.calls| == 1
    ensures Pair(t.flights.calls[0], Flight.Waiting, Flight.Given, Flight.Released)
  {
    var rs := [Flight.Range(0, 1), Flight.Range(0, 1)];
    assert s.flights.calls[0].ranges == rs && rs[..1] == [Flight.Range(0, 1)];
    assert Flight.Hull(rs) == Flight.Range(0, 1);
    ReachFlight(SIX, 2, s, Flight.Unite(0));
    var s1 := s.(flights := Flight.Apply(Only(SIX), s.flights, Flight.Unite(0)));
    ReachFlight(SIX, 2, s1, Flight.Release(0));
    var s2 := s1.(flights := Flight.Apply(Only(SIX), s1.flights, Flight.Release(0)));
    ReachFlight(SIX, 2, s2, Flight.Wake(0, 1));
    t := s2.(flights := Flight.Apply(Only(SIX), s2.flights, Flight.Wake(0, 1)));
    assert t.flights.calls[0].callers == [Flight.Waiting, Flight.Given];
    assert t.flights.calls[0].pipes == [FanOut.Fresh, FanOut.Fresh];
  }

  /** A flight for bytes 0 and 1 with two callers. */
  ghost predicate Pair(c: Flight.Call, leader: Flight.Caller, waiter: Flight.Caller, phase: Flight.Phase) {
    && c.key == KEY && c.union == Flight.Range(0, 1) && !c.err && c.phase == phase
    && c.ranges == [Flight.Range(0, 1), Flight.Range(0, 1)] && c.pipes == [FanOut.Fresh, FanOut.Fresh]
    && c.callers == [leader, waiter]
  }

  /** The same with the third. */
  ghost predicate Trio(c: Flight.Call, pipes: seq<FanOut.Pipe>, callers: seq<Flight.Caller>, phase: Flight.Phase) {
    && c.key == KEY && c.union == Flight.Range(0, 1) && !c.err && c.phase == phase
    && c.ranges == [Flight.Range(0, 1), Flight.Range(0, 1), Flight.Range(4, 5)]
    && c.pipes == pipes && c.callers == callers && |pipes| == |callers| == 3
  }

  lemma JoinsAgain(s: State, w: World) returns (t: State)
    requires w == MiddleCached() && Reachable(SIX, 2, s) && s.files == map[1 := [3, 4]]
    requires s.requests == [Leader(w), JoinedOnce(w)] && s.flights.m == map[KEY := 0] && |s.flights.calls| == 1
    requires Pair(s.flights.calls[0], Flight.Waiting, Flight.Given, Flight.Released)
    ensures Reachable(SIX, 2, t) && t.requests == [Leader(w), JoinedTwice(w)] && |t.flights.calls| == 1
    ensures Trio(t.flights.calls[0], [FanOut.Fresh, FanOut.Fresh, FanOut.Fresh],
              [Flight.Waiting, Flight.Given, Flight.Waiting], Flight.Released)
  {
    LastChunkAlone(w);
    ReachJoin(SIX, 2, s, 1, s.requests[1], w, 3, 2, 4, 5, 1);
    t := s.(requests := [Leader(w), JoinedTwice(w)],
            flights := Flight.Apply(Only(SIX), s.flights, Flight.Arrive(KEY, Flight.Range(4, 5))));
    assert s.requests[1 := JoinedTwice(w)] == t.requests;
    assert JoinedOnce(w).parts + [Part(2, 1, w, Shared(0, 2))] == JoinedTwice(w).parts;
  }

  /** The key is deleted, and both hold readers of all three pipes. */
  lemma AllGiven(s: State) returns (t: State)
    requires Reachable(SIX, 2, s) && |s.flights.calls| == 1
    requires Trio(s.flights.calls[0], [FanOut.Fresh, FanOut.Fresh, FanOut.Fresh],
               [Flight.Waiting, Flight.Given, Flight.Waiting], Flight.Released)
    ensures Reachable(SIX, 2, t) && t == s.(flights := t.flights) && |t.flights.calls| == 1
    ensures Trio(t.flights.calls[0], [FanOut.Fresh, FanOut.Fresh, FanOut.Fresh],
              [Flight.Given, Flight.Given, Flight.Given], Flight.Deleted)
  {
    ReachFlight(SIX, 2, s, Flight.Delete(0));
    var s1 := s.(flights := Flight.Apply(Only(SIX), s.flights, Flight.Delete(0)));
    ReachFlight(SIX, 2, s1, Flight.Wake(0, 2));
    t := s1.(flights := Flight.Apply(Only(SIX), s1.flights, Flight.Wake(0, 2)));
  }

  /** The origin answers, and the first byte of two is read. */
  lemma Answer(s: State, body: Stream) returns (t: State)
    requires Reachable(SIX, 2, s) && |s.flights.calls| == 1 && body == Stream([1, 2], true)
    requires Trio(s.flights.calls[0], [FanOut.Fresh, FanOut.Fresh, FanOut.Fresh],
               [Flight.Given, Flight.Given, Flight.Given], Flight.Deleted)
    ensures Reachable(SIX, 2, t) && t == s.(flights := t.flights) && |t.flights.calls| == 1
    ensures Trio(t.flights.calls[0], [FanOut.Fresh, FanOut.Fresh, FanOut.Fresh],
              [Flight.Given, Flight.Given, Flight.Given], Flight.Fanning(body, 3, FanOut.Copying(0, 1, 0, 0)))
  {
    assert SIX[0..2] == body.bytes;
    ReachFlight(SIX, 2, s, Flight.Ask(0, body, false));
    var s1 := s.(flights := Flight.Apply(Only(SIX), s.flights, Flight.Ask(0, body, false)));
    ReachFlight(SIX, 2, s1, Flight.Snapshot(0));
    var s2 := s1.(flights := Flight.Apply(Only(SIX), s1.flights, Flight.Snapshot(0)));
    ReachFlight(SIX, 2, s2, Flight.Fan(0, FanOut.Read(1)));
    t := s2.(flights := Flight.Apply(Only(SIX), s2.flights, Flight.Fan(0, FanOut.Read(1))));
  }

  /** It goes to the pipe of the leader or to that of the request's first part. */
  lemma OneByte(s: State, w: World, body: Stream, pipes: seq<FanOut.Pipe>, pipe: nat) returns (t: State)
    requires Reachable(SIX, 2, s) && |s.flights.calls| == 1 && body == Stream([1, 2], true)
    requires s.requests == [Leader(w), JoinedTwice(w)]
    requires pipe < 2 && |pipes| == 3 && pipes[pipe] == FanOut.Fresh
    requires Trio(s.flights.calls[0], pipes,
               [Flight.Given, Flight.Given, Flight.Given], Flight.Fanning(body, 3, FanOut.Copying(0, 1, pipe, 0)))
    ensures Reachable(SIX, 2, t) && t == s.(flights := t.flights) && |t.flights.calls| == 1
    ensures Trio(t.flights.calls[0], pipes[pipe := FanOut.Pipe([1], FanOut.Unclosed, false)],
              [Flight.Given, Flight.Given, Flight.Given], Flight.Fanning(body, 3, FanOut.Copying(0, 1, pipe + 1, 0)))
  {
    assert [] + body.bytes[0..1] == [1];
    Reading(s, w, pipe);
    ReachFlight(SIX, 2, s, Flight.Fan(0, FanOut.Deliver(1)));
    t := s.(flights := Flight.Apply(Only(SIX), s.flights, Flight.Fan(0, FanOut.Deliver(1))));
  }

  /** Both have been assembled, and read their first parts. */
  lemma Reading(s: State, w: World, pipe: nat)
    requires s.requests == [Leader(w), JoinedTwice(w)] && |s.flights.calls| == 1 && pipe < 2
    requires s.flights.calls[0].callers == [Flight.Given, Flight.Given, Flight.Given]
    ensures Attended(s, 2, 0, pipe) && Assembled(s.requests[1], 2, s.flights)
  {
    IndexesRequest(0, 1, 2);
    IndexesRequest(0, 5, 2);
  }

  /** There is a run in which a flight gets stuck: it waits for the second pipe of a request that waits
      for its first. */
  lemma StuckRun() returns (s: State)
    ensures Reachable(SIX, 2, s) && First(s.flights, 0) && Stuck(s, 2, 0, 2, 1, 1, 0)
  {
    var w, body := MiddleCached(), Stream([1, 2], true);
    s := LeaderJoins(w);
    s := WaiterJoins(s, w);
    s := WaiterWakes(s);
    s := JoinsAgain(s, w);
    s := AllGiven(s);
    s := Answer(s, body);
    var none := [FanOut.Fresh, FanOut.Fresh, FanOut.Fresh];
    s := OneByte(s, w, body, none, 0);
    s := OneByte(s, w, body, none[0 := FanOut.Pipe([1], FanOut.Unclosed, false)], 1);
    Reading(s, w, 0);
    assert Has(s, 1, 0) && Has(s, 1, 1);
  }
}
