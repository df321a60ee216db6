/** Collapsed forwarding of chunk requests, server/middleware/caching/chunk_flight.go. Every
    critical section and every step between two of them is an event; a run is any interleaving of
    callers, leaders and fan-out goroutines over any number of keys. */
module ChunkFlight {
  import opened Streams
  import opened AssemblyProof
  import opened Readers
  import FanOut

  datatype Range = Range(from: nat, to: nat)

  /** What a caller holds: still waiting, an io.Reader on its pipe, or an error. */
  datatype Caller = Waiting | Given | Refused

  /** Where the leader of a call, and then its goroutine, is. */
  datatype Phase =
    | Gathering                                              // before line 109
    | United                                                 // the union is computed, line 122
    | Released                                               // wg.Done, line 128
    | Deleted                                                // the key is gone, line 136
    | Answered(body: Stream, failed: bool)                   // fn returned, line 152
    | Fanning(body: Stream, snap: nat, copy: FanOut.Copy)    // the pipes are copied, line 164

  /** A chunkCall. `early` and `asked` are history: how many callers the union was computed from,
      and what the origin was asked for. */
  datatype Call = Call(
    key: string,
    ranges: seq<Range>,
    pipes: seq<FanOut.Pipe>,
    callers: seq<Caller>,
    union: Range,
    early: nat,
    asked: seq<Range>,
    err: bool,
    phase: Phase)

  datatype State = State(m: map<string, nat>, calls: seq<Call>)

  datatype Event =
    | Arrive(key: string, range: Range)
    | Unite(i: nat)
    | Release(i: nat)
    | Delete(i: nat)
    | Ask(i: nat, body: Stream, failed: bool)   // a panic of fn is an error too
    | Snapshot(i: nat)
    | Fan(i: nat, e: FanOut.Event)
    | Wake(i: nat, k: nat)
    | HangUp(i: nat, k: nat)

  /** The smallest range around all of them. */
  function Hull(rs: seq<Range>): Range
    requires 0 < |rs|
  {
    if |rs| == 1 then rs[0]
    else
      var h, r := Hull(rs[..|rs| - 1]), rs[|rs| - 1];
      Range(if r.from < h.from then r.from else h.from, if r.to > h.to then r.to else h.to)
  }

  predicate Inside(r: Range, u: Range) {
    u.from <= r.from && r.to <= u.to
  }

  lemma {:induction false} HullCovers(rs: seq<Range>)
    requires 0 < |rs|
    ensures forall k :: 0 <= k < |rs| ==> Inside(rs[k], Hull(rs))
    ensures exists k :: 0 <= k < |rs| && rs[k].from == Hull(rs).from
    ensures exists k :: 0 <= k < |rs| && rs[k].to == Hull(rs).to
  {
    var n := |rs| - 1;
    if 0 < n {
      HullCovers(rs[..n]);
      var a :| 0 <= a < n && rs[..n][a].from == Hull(rs[..n]).from;
      var b :| 0 <= b < n && rs[..n][b].to == Hull(rs[..n]).to;
      assert rs[a].from == Hull(rs).from || rs[n].from == Hull(rs).from;
      assert rs[b].to == Hull(rs).to || rs[n].to == Hull(rs).to;
      forall k | 0 <= k < |rs| ensures Inside(rs[k], Hull(rs)) {
        assert k < n ==> Inside(rs[..n][k], Hull(rs[..n]));
      }
    } else {
      assert rs[0].from == Hull(rs).from && rs[0].to == Hull(rs).to;
    }
  }

  /** The loop of lines 110 to 119. */
  method ComputeUnion(ranges: seq<Range>) returns (unionFrom: nat, unionTo: nat)
    requires 0 < |ranges|
    ensures Range(unionFrom, unionTo) == Hull(ranges)
  {
    unionFrom, unionTo := ranges[0].from, ranges[0].to;
    assert ranges[..1] == [ranges[0]];
    for i := 1 to |ranges|
      invariant Range(unionFrom, unionTo) == Hull(ranges[..i])
    {
      var r := ranges[i];
      assert ranges[..i + 1][..i] == ranges[..i];
      if r.from < unionFrom {
        unionFrom := r.from;
      }
      if r.to > unionTo {
        unionTo := r.to;
      }
    }
    assert ranges[..|ranges|] == ranges;
  }

  predicate Live(c: Call) {
    c.phase.Gathering? || c.phase.United? || c.phase.Released?
  }

  predicate WasReleased(c: Call) {
    !c.phase.Gathering? && !c.phase.United?
  }

  ghost predicate Enabled(objs: string -> seq<byte>, s: State, e: Event) {
    match e
    case Arrive(key, r) => r.from <= r.to < |objs(key)| && (key in s.m ==> s.m[key] < |s.calls|)
    case Unite(i) => i < |s.calls| && s.calls[i].phase.Gathering? && 0 < |s.calls[i].ranges|
    case Release(i) => i < |s.calls| && s.calls[i].phase.United?
    case Delete(i) => i < |s.calls| && s.calls[i].phase.Released? && 0 < |s.calls[i].callers|
    case Ask(i, body, failed) =>
      && i < |s.calls| && s.calls[i].phase.Deleted?
      && var u := s.calls[i].union;
         if failed then body == Stream([], false) else GoodFetch(objs(s.calls[i].key), u.from, u.to, body)
    case Snapshot(i) => i < |s.calls| && s.calls[i].phase.Answered?
    case Fan(i, fe) =>
      && i < |s.calls|
      && var c := s.calls[i];
         && c.phase.Fanning? && FanOut.Enabled(c.pipes, c.phase.body, c.phase.snap, c.phase.copy, fe)
         && (fe.Deliver? ==> c.phase.copy.w < |c.callers| && c.callers[c.phase.copy.w].Given?)
    case Wake(i, k) =>
      && i < |s.calls| && WasReleased(s.calls[i])
      && 0 < k < |s.calls[i].callers| && k < |s.calls[i].pipes| && s.calls[i].callers[k].Waiting?
    case HangUp(i, k) =>
      && i < |s.calls| && k < |s.calls[i].callers| && k < |s.calls[i].pipes| && s.calls[i].callers[k].Given?
  }

  function Join(c: Call, r: Range): Call {
    c.(ranges := c.ranges + [r], pipes := c.pipes + [FanOut.Fresh], callers := c.callers + [Waiting])
  }

  function NewCall(key: string, r: Range): Call {
    Call(key, [r], [FanOut.Fresh], [Waiting], r, 0, [], false, Gathering)
  }

  function Woken(c: Call, k: nat): Call
    requires k < |c.callers| && k < |c.pipes|
  {
    if c.err then c.(callers := c.callers[k := Refused], pipes := c.pipes[k := FanOut.Close(c.pipes[k], true)])
    else c.(callers := c.callers[k := Given])
  }

  function FanStep(c: Call, e: FanOut.Event): Call
    requires c.phase.Fanning? && FanOut.Enabled(c.pipes, c.phase.body, c.phase.snap, c.phase.copy, e)
  {
    var r := FanOut.Apply(c.pipes, c.phase.body, c.phase.snap, c.phase.copy, e);
    c.(pipes := r.0, phase := c.phase.(copy := r.1))
  }

  /** The call an event touches, after it. */
  ghost function CallAfter(objs: string -> seq<byte>, s: State, e: Event): Call
    requires Enabled(objs, s, e) && !e.Arrive?
  {
    var c := s.calls[e.i];
    match e
    case Unite(_) => c.(union := Hull(c.ranges), early := |c.ranges|, phase := United)
    case Release(_) => c.(phase := Released)
    case Delete(_) => c.(phase := Deleted, callers := c.callers[0 := Given])
    case Ask(_, body, failed) => c.(asked := c.asked + [c.union], phase := Answered(body, failed))
    case Snapshot(_) =>
      var n := |c.pipes|;
      c.(err := c.phase.failed,
         phase := Fanning(c.phase.body, n, if c.phase.failed then FanOut.Closing(true, 0) else FanOut.Start(n)))
    case Fan(_, fe) => FanStep(c, fe)
    case Wake(_, k) => Woken(c, k)
    case HangUp(_, k) => c.(pipes := c.pipes[k := c.pipes[k].(hungUp := true)])
  }

  ghost function Apply(objs: string -> seq<byte>, s: State, e: Event): State
    requires Enabled(objs, s, e)
  {
    if e.Arrive? then
      if e.key in s.m then s.(calls := s.calls[s.m[e.key] := Join(s.calls[s.m[e.key]], e.range)])
      else State(s.m[e.key := |s.calls|], s.calls + [NewCall(e.key, e.range)])
    else
      State(if e.Delete? then s.m - {s.calls[e.i].key} else s.m, s.calls[e.i := CallAfter(objs, s, e)])
  }

  /** What a caller reads: rangeReader over its pipe, told that the body starts at union.from. When
      the wanted range lies wholly before the union, its first Read waits for anything to come from
      the pipe and then reports io.EOF, with a negative count unless the two ranges touch. */
  datatype Seen = Got(s: Stream) | NegativeCount

  function Reading(p: FanOut.Pipe, union: Range, r: Range): Seen
    requires r.from <= r.to
  {
    if union.from <= r.to then Got(Window(Stream(p.got, p.ending.ClosedEof?), union.from, r.from, r.to))
    else if p.got == [] && p.ending.Unclosed? then Got(Stream([], false))
    else if r.to + 1 == union.from then Got(Done)
    else NegativeCount
  }

  /** What io.Copy makes of it: a negative count is ignored, and the io.EOF ends the part. */
  function Delivered(seen: Seen): Stream {
    match seen
    case Got(s) => s
    case NegativeCount => Done
  }

  /** Caller k's reader has come to its end: its pipe was closed with io.EOF or the whole union came
      through it, as what is behind the wanted bytes is read too; an error there is ignored. */
  predicate ReadOut(c: Call, k: nat) {
    && c.phase.Fanning? && k < |c.pipes| && k < |c.ranges|
    && var p, to := c.pipes[k], c.ranges[k].to;
       || p.ending.ClosedEof?
       || (to <= c.union.to && c.union.to < c.union.from + |p.got|)
       || (to <= c.union.to && p.ending.ClosedError? && to < c.union.from + |p.got|)
  }

  /** It has come to an error. */
  predicate ReadFailed(c: Call, k: nat) {
    k < |c.pipes| && c.pipes[k].ending.ClosedError? && !ReadOut(c, k)
  }

  /** The call and the place in it that the next caller for a key gets. */
  function Seat(s: State, key: string): (nat, nat)
    requires key in s.m ==> s.m[key] < |s.calls|
  {
    if key in s.m then (s.m[key], |s.calls[s.m[key]].ranges|) else (|s.calls|, 0)
  }

  lemma Seated(objs: string -> seq<byte>, s: State, key: string, r: Range)
    requires Enabled(objs, s, Arrive(key, r))
    ensures var t, seat := Apply(objs, s, Arrive(key, r)), Seat(s, key);
            seat.0 < |t.calls| && seat.1 < |t.calls[seat.0].ranges| && t.calls[seat.0].ranges[seat.1] == r
  {
  }

  /** The union, once it is computed, holds the caller's range. */
  predicate Covered(c: Call, k: nat)
    requires k < |c.ranges|
  {
    c.phase.Gathering? || Inside(c.ranges[k], c.union)
  }

  ghost predicate Fetched(c: Call, obj: seq<byte>) {
    && c.union.from <= c.union.to < |obj| && c.asked == [c.union] && !Live(c)
    && match c.phase
       case Answered(body, failed) =>
         && (if failed then body == Stream([], false) else Faithful(body, obj[c.union.from..c.union.to + 1]))
         && !c.err && forall k :: 0 <= k < |c.pipes| ==> Untouched(c.pipes[k])
       case Fanning(body, snap, copy) =>
         && FanOut.Inv(c.pipes, body, snap, copy) && Faithful(body, obj[c.union.from..c.union.to + 1])
         && (c.err ==> copy.Closing? && copy.failed)
       case _ => false
  }

  ghost predicate Untouched(p: FanOut.Pipe) {
    p.got == [] && p.ending.Unclosed?
  }

  /** What holds of every call in every reachable state. */
  ghost predicate CallInv(c: Call, obj: seq<byte>) {
    && 0 < |c.ranges| == |c.pipes| == |c.callers|
    && (forall k :: 0 <= k < |c.ranges| ==> c.ranges[k].from <= c.ranges[k].to < |obj|)
    && (c.phase.Gathering? ==> c.early == 0)
    && (!c.phase.Gathering? ==> 0 < c.early <= |c.ranges| && c.union == Hull(c.ranges[..c.early]))
    && (Live(c) || c.phase.Deleted? ==>
        c.asked == [] && !c.err && forall k :: 0 <= k < |c.pipes| ==> Untouched(c.pipes[k]))
    && (!Live(c) ==> c.callers[0].Given?)
    && (forall k :: 0 <= k < |c.callers| && c.callers[k].Refused? ==> c.err)
    && (Live(c) || c.phase.Deleted? || Fetched(c, obj))
  }

  /** The map holds exactly the calls that can still be joined. */
  ghost predicate MapInv(s: State) {
    && (forall key :: key in s.m ==> s.m[key] < |s.calls| && s.calls[s.m[key]].key == key && Live(s.calls[s.m[key]]))
    && (forall i :: 0 <= i < |s.calls| && Live(s.calls[i]) ==> s.calls[i].key in s.m && s.m[s.calls[i].key] == i)
  }

  ghost predicate Inv(objs: string -> seq<byte>, s: State) {
    MapInv(s) && forall i :: 0 <= i < |s.calls| ==> CallInv(s.calls[i], objs(s.calls[i].key))
  }

  lemma JoinInv(c: Call, r: Range, obj: seq<byte>)
    requires CallInv(c, obj) && Live(c) && r.from <= r.to < |obj|
    ensures CallInv(Join(c, r), obj) && Live(Join(c, r))
  {
    assert (c.ranges + [r])[..c.early] == c.ranges[..c.early];
  }

  lemma UniteInv(objs: string -> seq<byte>, s: State, i: nat)
    requires Enabled(objs, s, Unite(i)) && CallInv(s.calls[i], objs(s.calls[i].key))
    ensures CallInv(CallAfter(objs, s, Unite(i)), objs(s.calls[i].key))
  {
    assert s.calls[i].ranges[..|s.calls[i].ranges|] == s.calls[i].ranges;
  }

  lemma HullInside(rs: seq<Range>, size: nat)
    requires 0 < |rs| && forall k :: 0 <= k < |rs| ==> rs[k].from <= rs[k].to < size
    ensures Hull(rs).from <= Hull(rs).to < size
  {
    HullCovers(rs);
    var k :| 0 <= k < |rs| && rs[k].to == Hull(rs).to;
    assert Inside(rs[k], Hull(rs));
  }

  lemma AskInv(objs: string -> seq<byte>, s: State, e: Event)
    requires e.Ask? && Enabled(objs, s, e) && CallInv(s.calls[e.i], objs(s.calls[e.i].key))
    ensures CallInv(CallAfter(objs, s, e), objs(s.calls[e.i].key))
  {
    var c := s.calls[e.i];
    HullInside(c.ranges[..c.early], |objs(c.key)|);
  }

  lemma SnapshotInv(objs: string -> seq<byte>, s: State, i: nat)
    requires Enabled(objs, s, Snapshot(i)) && CallInv(s.calls[i], objs(s.calls[i].key))
    ensures CallInv(CallAfter(objs, s, Snapshot(i)), objs(s.calls[i].key))
  {
    FanOut.StartInv(s.calls[i].pipes, s.calls[i].phase.body);
  }

  lemma FanInv(objs: string -> seq<byte>, s: State, i: nat, fe: FanOut.Event)
    requires Enabled(objs, s, Fan(i, fe)) && CallInv(s.calls[i], objs(s.calls[i].key))
    ensures CallInv(CallAfter(objs, s, Fan(i, fe)), objs(s.calls[i].key))
  {
    var c := s.calls[i];
    FanOut.StepInv(c.pipes, c.phase.body, c.phase.snap, c.phase.copy, fe);
  }

  lemma WakeInv(objs: string -> seq<byte>, s: State, i: nat, k: nat)
    requires Enabled(objs, s, Wake(i, k)) && CallInv(s.calls[i], objs(s.calls[i].key))
    ensures CallInv(CallAfter(objs, s, Wake(i, k)), objs(s.calls[i].key))
  {
    var c := s.calls[i];
    if c.err {
      FanOut.PipeInv(c.pipes, c.phase.body, c.phase.snap, c.phase.copy, k, FanOut.Close(c.pipes[k], true));
    }
  }

  lemma HangUpInv(objs: string -> seq<byte>, s: State, i: nat, k: nat)
    requires Enabled(objs, s, HangUp(i, k)) && CallInv(s.calls[i], objs(s.calls[i].key))
    ensures CallInv(CallAfter(objs, s, HangUp(i, k)), objs(s.calls[i].key))
  {
    var c := s.calls[i];
    if c.phase.Fanning? {
      FanOut.PipeInv(c.pipes, c.phase.body, c.phase.snap, c.phase.copy, k, c.pipes[k].(hungUp := true));
    }
  }

  lemma CallStep(objs: string -> seq<byte>, s: State, e: Event)
    requires Enabled(objs, s, e) && !e.Arrive? && CallInv(s.calls[e.i], objs(s.calls[e.i].key))
    ensures CallInv(CallAfter(objs, s, e), objs(s.calls[e.i].key))
  {
    match e
    case Unite(i) => UniteInv(objs, s, i);
    case Release(_) =>
    case Delete(_) =>
    case Ask(_, _, _) => AskInv(objs, s, e);
    case Snapshot(i) => SnapshotInv(objs, s, i);
    case Fan(i, fe) => FanInv(objs, s, i, fe);
    case Wake(i, k) => WakeInv(objs, s, i, k);
    case HangUp(i, k) => HangUpInv(objs, s, i, k);
  }

  lemma ArriveInv(objs: string -> seq<byte>, s: State, e: Event)
    requires e.Arrive? && Enabled(objs, s, e) && Inv(objs, s)
    ensures Inv(objs, Apply(objs, s, e))
  {
    if e.key in s.m {
      JoinInv(s.calls[s.m[e.key]], e.range, objs(e.key));
    }
  }

  /** One call changes; the map changes only when the call stops being joinable. */
  lemma ReplaceInv(objs: string -> seq<byte>, s: State, i: nat, c: Call)
    requires Inv(objs, s) && i < |s.calls| && c.key == s.calls[i].key && CallInv(c, objs(c.key))
    requires Live(c) ==> Live(s.calls[i])
    ensures Inv(objs, State(if Live(s.calls[i]) && !Live(c) then s.m - {c.key} else s.m, s.calls[i := c]))
  {
  }

  lemma LiveStep(objs: string -> seq<byte>, s: State, e: Event)
    requires Enabled(objs, s, e) && !e.Arrive?
    ensures var c, d := s.calls[e.i], CallAfter(objs, s, e);
            d.key == c.key && (Live(d) ==> Live(c)) && (e.Delete? <==> Live(c) && !Live(d))
  {
  }

  lemma StepInv(objs: string -> seq<byte>, s: State, e: Event)
    requires Enabled(objs, s, e) && Inv(objs, s)
    ensures Inv(objs, Apply(objs, s, e))
  {
    if e.Arrive? {
      ArriveInv(objs, s, e);
    } else {
      CallStep(objs, s, e);
      LiveStep(objs, s, e);
      ReplaceInv(objs, s, e.i, CallAfter(objs, s, e));
    }
  }

  ghost predicate Run(objs: string -> seq<byte>, events: seq<Event>, s: State) {
    if events == [] then s == State(map[], [])
    else
      var n := |events| - 1;
      exists t: State :: Run(objs, events[..n], t) && Enabled(objs, t, events[n]) && s == Apply(objs, t, events[n])
  }

  lemma {:induction false} RunInv(objs: string -> seq<byte>, events: seq<Event>, s: State)
    requires Run(objs, events, s)
    ensures Inv(objs, s)
  {
    if events != [] {
      var n := |events| - 1;
      var t: State :| Run(objs, events[..n], t) && Enabled(objs, t, events[n]) && s == Apply(objs, t, events[n]);
      RunInv(objs, events[..n], t);
      StepInv(objs, t, events[n]);
    }
  }

  /** Every call asks the origin at most once, for its union, and never before its key is gone;
      at most one call per key can be joined. */
  lemma OneOriginCall(objs: string -> seq<byte>, events: seq<Event>, s: State, i: nat)
    requires Run(objs, events, s) && i < |s.calls|
    ensures var c := s.calls[i]; c.asked == if Live(c) || c.phase.Deleted? then [] else [c.union]
    ensures Live(s.calls[i]) ==>
              forall j :: 0 <= j < |s.calls| && Live(s.calls[j]) && s.calls[j].key == s.calls[i].key ==> i == j
  {
    RunInv(objs, events, s);
  }

  /** The union covers exactly the callers that registered before it was computed: it contains
      each of their ranges, and both its ends are theirs. */
  lemma EarlyInside(objs: string -> seq<byte>, events: seq<Event>, s: State, i: nat)
    requires Run(objs, events, s) && i < |s.calls| && !s.calls[i].phase.Gathering?
    ensures var c := s.calls[i];
            && 0 < c.early <= |c.ranges|
            && (forall k :: 0 <= k < c.early ==> Inside(c.ranges[k], c.union))
            && (exists k :: 0 <= k < c.early && c.ranges[k].from == c.union.from)
            && (exists k :: 0 <= k < c.early && c.ranges[k].to == c.union.to)
  {
    RunInv(objs, events, s);
    var c := s.calls[i];
    var early := c.ranges[..c.early];
    HullCovers(early);
    forall k | 0 <= k < c.early ensures Inside(c.ranges[k], c.union) {
      assert Inside(early[k], c.union);
    }
    var a :| 0 <= a < |early| && early[a].from == c.union.from;
    var b :| 0 <= b < |early| && early[b].to == c.union.to;
    assert c.ranges[a].from == c.union.from && c.ranges[b].to == c.union.to;
  }

  /** The snapshot misses nobody: once it is taken it holds every caller that ever registered,
      and when the goroutine is done the pipe of each is closed: with io.EOF for all of them
      unless the fetch failed, the body broke off or some reader hung up. */
  lemma EveryPipeClosed(objs: string -> seq<byte>, events: seq<Event>, s: State, i: nat, k: nat)
    requires Run(objs, events, s) && i < |s.calls| && s.calls[i].phase.Fanning? && k < |s.calls[i].ranges|
    ensures var c := s.calls[i];
            && c.phase.snap == |c.ranges| == |c.pipes|
            && (FanOut.Ended(c.phase.snap, c.phase.copy) ==>
                && !c.pipes[k].ending.Unclosed?
                && (c.phase.copy.failed ==> c.pipes[k].ending.ClosedError?)
                && (!FanOut.Excused(c.pipes, c.phase.body) ==> c.pipes[k].ending.ClosedEof?))
  {
    RunInv(objs, events, s);
    var c := s.calls[i];
    FanOut.PipeRight(c.pipes, c.phase.body, c.phase.snap, c.phase.copy, k);
  }

  lemma WindowRight(s: Stream, u: Range, r: Range, obj: seq<byte>)
    requires r.from <= r.to && u.from <= u.to < |obj| && Inside(r, u)
    requires Faithful(s, obj[u.from..u.to + 1])
    ensures Faithful(Window(s, u.from, r.from, r.to), obj[r.from..r.to + 1])
    ensures s.complete ==> Window(s, u.from, r.from, r.to) == Stream(obj[r.from..r.to + 1], true)
  {
    var d, n, all, want := r.from - u.from, r.to - r.from + 1, obj[u.from..u.to + 1], obj[r.from..r.to + 1];
    assert all[d..][..n] == want;
    if d <= |s.bytes| {
      assert s.bytes[d..] == all[d..|s.bytes|];
      if n <= |s.bytes[d..]| {
        assert s.bytes[d..][..n] == all[d..][..n];
      } else {
        assert s.bytes[d..] <= want;
      }
    }
  }

  /** Outside the union the window is too short, however long the body is. */
  lemma WindowShort(s: Stream, u: Range, r: Range)
    requires r.from <= r.to && u.from <= r.to && |s.bytes| <= u.to - u.from + 1 && !Inside(r, u)
    ensures |Window(s, u.from, r.from, r.to).bytes| < r.to - r.from + 1
  {
  }

  /** The pipe of a caller as a stream of the object's bytes from the start of the union. */
  lemma PipeFaithful(objs: string -> seq<byte>, s: State, i: nat, k: nat)
    requires Inv(objs, s) && i < |s.calls| && !Live(s.calls[i]) && !s.calls[i].phase.Deleted? && k < |s.calls[i].pipes|
    ensures var c := s.calls[i];
            && c.union.from <= c.union.to < |objs(c.key)|
            && Faithful(Stream(c.pipes[k].got, c.pipes[k].ending.ClosedEof?), objs(c.key)[c.union.from..c.union.to + 1])
  {
    var c := s.calls[i];
    if c.phase.Fanning? {
      FanOut.PipeRight(c.pipes, c.phase.body, c.phase.snap, c.phase.copy, k);
    }
  }

  /** A caller whose range the union covers reads a prefix of exactly its bytes at every moment;
      its reader ends without error only with all of them, and does end so when its pipe was
      closed with io.EOF. */
  lemma CoveredRight(objs: string -> seq<byte>, events: seq<Event>, s: State, i: nat, k: nat)
    requires Run(objs, events, s) && i < |s.calls| && k < |s.calls[i].ranges|
    requires !Live(s.calls[i]) && !s.calls[i].phase.Deleted? && Inside(s.calls[i].ranges[k], s.calls[i].union)
    ensures var c := s.calls[i]; var r := c.ranges[k];
            && k < |c.pipes| && r.from <= r.to < |objs(c.key)|
            && var want, seen := objs(c.key)[r.from..r.to + 1], Reading(c.pipes[k], c.union, r);
               && seen.Got? && Faithful(seen.s, want)
               && (c.pipes[k].ending.ClosedEof? ==> seen == Got(Stream(want, true)))
  {
    RunInv(objs, events, s);
    PipeFaithful(objs, s, i, k);
    var c := s.calls[i];
    WindowRight(Stream(c.pipes[k].got, c.pipes[k].ending.ClosedEof?), c.union, c.ranges[k], objs(c.key));
  }

  /** The gap between lines 122 and 136: a caller that joined after the union was computed, and
      whose pipe was closed with io.EOF, read its range if and only if the union happens to cover
      it. The condition is exact for every caller of every flight. */
  lemma ServedIffCovered(objs: string -> seq<byte>, events: seq<Event>, s: State, i: nat, k: nat)
    requires Run(objs, events, s) && i < |s.calls| && k < |s.calls[i].ranges|
    requires k < |s.calls[i].pipes| && s.calls[i].pipes[k].ending.ClosedEof?
    ensures var c := s.calls[i]; var r := c.ranges[k];
            && r.from <= r.to < |objs(c.key)|
            && (Reading(c.pipes[k], c.union, r) == Got(Stream(objs(c.key)[r.from..r.to + 1], true)) <==>
                Inside(r, c.union))
  {
    RunInv(objs, events, s);
    var c := s.calls[i];
    var r := c.ranges[k];
    PipeFaithful(objs, s, i, k);
    if Inside(r, c.union) {
      CoveredRight(objs, events, s, i, k);
    } else if c.union.from <= r.to {
      WindowShort(Stream(c.pipes[k].got, true), c.union, r);
    }
  }

  /** Before the origin has answered, a caller has read nothing. */
  lemma NothingRead(p: FanOut.Pipe, u: Range, r: Range)
    requires r.from <= r.to && Untouched(p)
    ensures Delivered(Reading(p, u, r)) == Stream([], false)
  {
  }

  /** What a caller has read so far is a fetch of its range if the union covers it, and shorter than
      the range if not. */
  lemma FlightFetch(objs: string -> seq<byte>, s: State, i: nat, k: nat)
    requires Inv(objs, s) && i < |s.calls| && k < |s.calls[i].ranges|
    ensures var c := s.calls[i]; var r, obj := c.ranges[k], objs(c.key);
            && k < |c.pipes| && r.from <= r.to < |obj|
            && var t := Delivered(Reading(c.pipes[k], c.union, r));
               if Covered(c, k) then GoodFetch(obj, r.from, r.to, t) else |t.bytes| < r.to - r.from + 1
  {
    var c := s.calls[i];
    var r, p := c.ranges[k], c.pipes[k];
    if Live(c) || c.phase.Deleted? {
      NothingRead(p, c.union, r);
    } else {
      PipeFaithful(objs, s, i, k);
      var all := Stream(p.got, p.ending.ClosedEof?);
      if Covered(c, k) {
        WindowRight(all, c.union, r, objs(c.key));
      } else if c.union.from <= r.to {
        WindowShort(all, c.union, r);
      }
    }
  }

  /** What the range r and the union have in common. */
  function Overlap(obj: seq<byte>, u: Range, r: Range): (t: seq<byte>)
    ensures r.from <= r.to ==> |t| <= r.to - r.from + 1
  {
    var lo, hi := if u.from < r.from then r.from else u.from, if u.to < r.to then u.to + 1 else r.to + 1;
    if lo < hi <= |obj| then obj[lo..hi] else []
  }

  lemma PrefixSlice(got: seq<byte>, obj: seq<byte>, a: nat, b: nat, d: nat, n: nat)
    requires a <= b <= |obj| && got <= obj[a..b] && d + n <= |got|
    ensures got[d..d + n] == obj[a + d..a + d + n]
  {
    forall x | d <= x < d + n ensures got[x] == obj[a + x] {
      assert got[x] == obj[a..b][x];
    }
  }

  lemma WindowSlice(s: Stream, at: nat, r: Range, d: nat)
    requires r.from <= r.to && at <= r.to && d == if at < r.from then r.from - at else 0
    ensures var t, n := Window(s, at, r.from, r.to), r.to + 1 - at - d;
            if d + n <= |s.bytes| then t.bytes == s.bytes[d..d + n]
            else t.complete == s.complete && t.bytes == if d <= |s.bytes| then s.bytes[d..] else []
  {
    var n := r.to + 1 - at - d;
    if d + n <= |s.bytes| {
      assert s.bytes[d..][..n] == s.bytes[d..d + n];
    }
  }

  lemma WindowOverlap(s: Stream, u: Range, r: Range, obj: seq<byte>)
    requires r.from <= r.to < |obj| && u.from <= u.to < |obj| && u.from <= r.to
    requires Faithful(s, obj[u.from..u.to + 1])
    ensures var t := Window(s, u.from, r.from, r.to); t.complete ==> t.bytes == Overlap(obj, u, r)
  {
    var d := if u.from < r.from then r.from - u.from else 0;
    var n := r.to + 1 - u.from - d;
    WindowSlice(s, u.from, r, d);
    if d + n <= |s.bytes| {
      PrefixSlice(s.bytes, obj, u.from, u.to + 1, d, n);
    } else if s.complete && d <= |s.bytes| {
      RestSlice(s.bytes, obj, u.from, u.to + 1, d);
    }
  }

  lemma RestSlice(got: seq<byte>, obj: seq<byte>, a: nat, b: nat, d: nat)
    requires a <= b <= |obj| && got <= obj[a..b] && d <= |got|
    ensures got[d..] == obj[a + d..a + |got|]
  {
    PrefixSlice(got, obj, a, b, d, |got| - d);
    assert got[d..d + (|got| - d)] == got[d..];
  }

  /** A reader that has come to its end has delivered all it will. */
  lemma ReadOutComplete(objs: string -> seq<byte>, s: State, i: nat, k: nat)
    requires Inv(objs, s) && i < |s.calls| && ReadOut(s.calls[i], k)
    ensures var c := s.calls[i];
            c.ranges[k].from <= c.ranges[k].to && Delivered(Reading(c.pipes[k], c.union, c.ranges[k])).complete
  {
  }

  /** Whenever a caller's reader has ended without an error, it gave what the caller's range and the
      union have in common. */
  lemma EndedOverlap(objs: string -> seq<byte>, s: State, i: nat, k: nat)
    requires Inv(objs, s) && i < |s.calls| && k < |s.calls[i].ranges|
    ensures var c := s.calls[i]; var r := c.ranges[k];
            && k < |c.pipes| && r.from <= r.to
            && var t := Delivered(Reading(c.pipes[k], c.union, r));
               t.complete ==> t.bytes == Overlap(objs(c.key), c.union, r)
  {
    var c := s.calls[i];
    var r, p := c.ranges[k], c.pipes[k];
    if Live(c) || c.phase.Deleted? {
      NothingRead(p, c.union, r);
    } else {
      PipeFaithful(objs, s, i, k);
      if c.union.from <= r.to {
        WindowOverlap(Stream(p.got, p.ending.ClosedEof?), c.union, r, objs(c.key));
      }
    }
  }

  /** Whenever a caller's reader has ended without an error, it was a fetch of the caller's range
      exactly if the union covers the range. */
  lemma FetchIffCovered(objs: string -> seq<byte>, events: seq<Event>, s: State, i: nat, k: nat)
    requires Run(objs, events, s) && i < |s.calls| && k < |s.calls[i].ranges|
    ensures var c := s.calls[i]; var r := c.ranges[k];
            && k < |c.pipes| && r.from <= r.to
            && var t := Delivered(Reading(c.pipes[k], c.union, r));
               t.complete ==> (GoodFetch(objs(c.key), r.from, r.to, t) <==> Covered(c, k))
  {
    RunInv(objs, events, s);
    FlightFetch(objs, s, i, k);
  }

  ghost predicate Reachable(objs: string -> seq<byte>, s: State) {
    exists events :: Run(objs, events, s)
  }

  lemma Reach(objs: string -> seq<byte>, s: State, e: Event)
    requires Reachable(objs, s) && Enabled(objs, s, e)
    ensures Reachable(objs, Apply(objs, s, e))
  {
    var events :| Run(objs, events, s);
    var all := events + [e];
    assert all[..|all| - 1] == events && all[|all| - 1] == e;
    assert Run(objs, all, Apply(objs, s, e));
  }

  /** `t` is reached from `s` by events of calls, while nobody arrives. */
  ghost predicate Steps(objs: string -> seq<byte>, s: State, events: seq<Event>, t: State) {
    if events == [] then s == t
    else
      var n := |events| - 1;
      exists m: State :: Steps(objs, s, events[..n], m) && !events[n].Arrive? && Enabled(objs, m, events[n]) &&
          t == Apply(objs, m, events[n])
  }

  ghost predicate Leads(objs: string -> seq<byte>, s: State, t: State) {
    exists events :: Steps(objs, s, events, t)
  }

  lemma Lead(objs: string -> seq<byte>, s: State, m: State, e: Event)
    requires Leads(objs, s, m) && Enabled(objs, m, e) && !e.Arrive?
    ensures Leads(objs, s, Apply(objs, m, e))
  {
    var events :| Steps(objs, s, events, m);
    var all := events + [e];
    assert all[..|all| - 1] == events && all[|all| - 1] == e;
    assert Steps(objs, s, all, Apply(objs, m, e));
  }

  lemma {:induction false} ReachSteps(objs: string -> seq<byte>, s: State, events: seq<Event>, t: State)
    requires Reachable(objs, s) && Steps(objs, s, events, t)
    ensures Reachable(objs, t)
  {
    if events != [] {
      var n := |events| - 1;
      var m: State :| Steps(objs, s, events[..n], m) && !events[n].Arrive? && Enabled(objs, m, events[n]) &&
          t == Apply(objs, m, events[n]);
      ReachSteps(objs, s, events[..n], m);
      Reach(objs, m, events[n]);
    }
  }

  /** One flight for byte 4, which a caller for bytes 4 and 5 joined behind line 122. */
  ghost predicate LateJoin(s: State, a: FanOut.Pipe, b: FanOut.Pipe, leader: Caller, late: Caller, phase: Phase) {
    && |s.calls| == 1
    && var c := s.calls[0];
       && c.key == "k" && c.union == Range(4, 4) && !c.err && c.phase == phase
       && |c.ranges| == 2 && c.ranges[0] == Range(4, 4) && c.ranges[1] == Range(4, 5)
       && |c.pipes| == 2 && c.pipes[0] == a && c.pipes[1] == b
       && |c.callers| == 2 && c.callers[0] == leader && c.callers[1] == late
  }

  lemma LateCallerJoins(objs: string -> seq<byte>) returns (s: State)
    requires 6 <= |objs("k")|
    ensures Reachable(objs, s) && LateJoin(s, FanOut.Fresh, FanOut.Fresh, Waiting, Waiting, United)
  {
    var s0 := State(map[], []);
    assert Run(objs, [], s0);
    var s1 := Apply(objs, s0, Arrive("k", Range(4, 4)));
    Reach(objs, s0, Arrive("k", Range(4, 4)));
    assert s1.calls == [NewCall("k", Range(4, 4))];
    var s2 := Apply(objs, s1, Unite(0));
    Reach(objs, s1, Unite(0));
    s := Apply(objs, s2, Arrive("k", Range(4, 5)));
    Reach(objs, s2, Arrive("k", Range(4, 5)));
  }

  lemma LateCallerWaits(objs: string -> seq<byte>, s0: State, body: Stream) returns (t: State)
    requires 6 <= |objs("k")| && body == Stream(objs("k")[4..5], true)
    requires LateJoin(s0, FanOut.Fresh, FanOut.Fresh, Waiting, Waiting, United)
    ensures Leads(objs, s0, t)
    ensures LateJoin(t, FanOut.Fresh, FanOut.Fresh, Given, Waiting, Answered(body, false))
  {
    assert Steps(objs, s0, [], s0);
    var s1 := Apply(objs, s0, Release(0));
    Lead(objs, s0, s0, Release(0));
    var s2 := Apply(objs, s1, Delete(0));
    Lead(objs, s0, s1, Delete(0));
    t := Apply(objs, s2, Ask(0, body, false));
    Lead(objs, s0, s2, Ask(0, body, false));
  }

  lemma LateCallerWakes(objs: string -> seq<byte>, s0: State, body: Stream) returns (t: State)
    requires 6 <= |objs("k")| && body == Stream(objs("k")[4..5], true)
    requires LateJoin(s0, FanOut.Fresh, FanOut.Fresh, Waiting, Waiting, United)
    ensures Leads(objs, s0, t)
    ensures LateJoin(t, FanOut.Fresh, FanOut.Fresh, Given, Given, Fanning(body, 2, FanOut.Copying(0, 0, 2, 0)))
  {
    var s3 := LateCallerWaits(objs, s0, body);
    var s4 := Apply(objs, s3, Snapshot(0));
    Lead(objs, s0, s3, Snapshot(0));
    t := Apply(objs, s4, Wake(0, 1));
    Lead(objs, s0, s4, Wake(0, 1));
  }

  lemma LateCallerReads(objs: string -> seq<byte>, s0: State, s: State, body: Stream) returns (t: State)
    requires |body.bytes| == 1 && body.complete && Leads(objs, s0, s)
    requires LateJoin(s, FanOut.Fresh, FanOut.Fresh, Given, Given, Fanning(body, 2, FanOut.Copying(0, 0, 2, 0)))
    ensures Leads(objs, s0, t)
    ensures var p := FanOut.Pipe(body.bytes, FanOut.Unclosed, false);
              LateJoin(t, p, p, Given, Given, Fanning(body, 2, FanOut.Closing(false, 0)))
  {
    var s1 := Apply(objs, s, Fan(0, FanOut.Read(1)));
    Lead(objs, s0, s, Fan(0, FanOut.Read(1)));
    assert [] + body.bytes[0..1] == body.bytes;
    var s2 := Apply(objs, s1, Fan(0, FanOut.Deliver(1)));
    Lead(objs, s0, s1, Fan(0, FanOut.Deliver(1)));
    t := LateCallerReadsToo(objs, s0, s2, body, FanOut.Pipe(body.bytes, FanOut.Unclosed, false));
  }

  lemma LateCallerReadsToo(objs: string -> seq<byte>, s0: State, s: State, body: Stream,
                           p: FanOut.Pipe) returns (t: State)
    requires |body.bytes| == 1 && body.complete && p == FanOut.Pipe(body.bytes, FanOut.Unclosed, false)
    requires Leads(objs, s0, s)
    requires LateJoin(s, p, FanOut.Fresh, Given, Given, Fanning(body, 2, FanOut.Copying(0, 1, 1, 0)))
    ensures Leads(objs, s0, t) && LateJoin(t, p, p, Given, Given, Fanning(body, 2, FanOut.Closing(false, 0)))
  {
    assert [] + body.bytes[0..1] == body.bytes;
    var s1 := Apply(objs, s, Fan(0, FanOut.Deliver(1)));
    Lead(objs, s0, s, Fan(0, FanOut.Deliver(1)));
    t := Apply(objs, s1, Fan(0, FanOut.BodyEnds));
    Lead(objs, s0, s1, Fan(0, FanOut.BodyEnds));
  }

  lemma LateCallerEnds(objs: string -> seq<byte>, s0: State, s: State, body: Stream, p: FanOut.Pipe) returns (t: State)
    requires Leads(objs, s0, s) && LateJoin(s, p, p, Given, Given, Fanning(body, 2, FanOut.Closing(false, 0)))
    requires p.ending.Unclosed?
    ensures Leads(objs, s0, t)
    ensures var q := p.(ending := FanOut.ClosedEof);
              LateJoin(t, q, q, Given, Given, Fanning(body, 2, FanOut.Closing(false, 2)))
  {
    var s1 := Apply(objs, s, Fan(0, FanOut.CloseNext));
    Lead(objs, s0, s, Fan(0, FanOut.CloseNext));
    t := Apply(objs, s1, Fan(0, FanOut.CloseNext));
    Lead(objs, s0, s1, Fan(0, FanOut.CloseNext));
  }

  /** Once it has joined, it can be that it reads one byte of its two and then a plain io.EOF. */
  lemma LateCallerCut(objs: string -> seq<byte>, s0: State) returns (s: State)
    requires 6 <= |objs("k")| && LateJoin(s0, FanOut.Fresh, FanOut.Fresh, Waiting, Waiting, United)
    ensures Leads(objs, s0, s) && |s.calls| == 1
    ensures var c := s.calls[0];
            && |c.ranges| == |c.pipes| == |c.callers| == 2 && c.ranges[1] == Range(4, 5) && c.callers[1].Given?
            && c.union == Range(4, 4) && c.phase.Fanning?
            && Reading(c.pipes[1], c.union, c.ranges[1]) == Got(Stream(objs("k")[4..5], true)) && !Covered(c, 1)
  {
    var body := Stream(objs("k")[4..5], true);
    s := LateCallerWakes(objs, s0, body);
    s := LateCallerReads(objs, s0, s, body);
    s := LateCallerEnds(objs, s0, s, body, FanOut.Pipe(body.bytes, FanOut.Unclosed, false));
  }

  /** So there is a run in which a caller reads less than it asked for and then a plain io.EOF. */
  lemma LateCallerCutShort(objs: string -> seq<byte>) returns (s: State)
    requires 6 <= |objs("k")|
    ensures Reachable(objs, s) && |s.calls| == 1
    ensures var c := s.calls[0];
            && |c.ranges| == |c.pipes| == |c.callers| == 2 && c.ranges[1] == Range(4, 5) && c.callers[1].Given?
            && Reading(c.pipes[1], c.union, c.ranges[1]) == Got(Stream(objs("k")[4..5], true)) && !Covered(c, 1)
  {
    var s0 := LateCallerJoins(objs);
    s := LateCallerCut(objs, s0);
    var events :| Steps(objs, s0, events, s);
    ReachSteps(objs, s0, events, s);
  }

  lemma NextStep(objs: string -> seq<byte>, s: State, i: nat) returns (e: Event)
    requires Inv(objs, s) && i < |s.calls|
    requires s.calls[i].phase.Fanning? ==> !FanOut.Ended(s.calls[i].phase.snap, s.calls[i].phase.copy)
    ensures !e.Arrive? && !e.HangUp? && e.i == i && Enabled(objs, s, e)
    ensures e.Wake? ==> s.calls[i].phase.Fanning? && s.calls[i].phase.copy.Copying? && e.k == s.calls[i].phase.copy.w
  {
    var c := s.calls[i];
    match c.phase
    case Gathering => e := Unite(i);
    case United => e := Release(i);
    case Released => e := Delete(i);
    case Deleted => e := Ask(i, Stream([], false), true);
    case Answered(_, _) => e := Snapshot(i);
    case Fanning(body, snap, copy) =>
      var fe := FanOut.CanStep(c.pipes, body, snap, copy);
      e := if fe.Deliver? && c.callers[copy.w].Waiting? then Wake(i, copy.w) else Fan(i, fe);
  }

  /** No call is ever stuck on anything but a reader that does not read: until its pipes are closed,
      its leader, its goroutine or a waiter the goroutine depends on can take a step, if whoever holds
      the pipe that is written to reads from it. */
  lemma NoDeadlock(objs: string -> seq<byte>, events: seq<Event>, s: State, i: nat) returns (e: Event)
    requires Run(objs, events, s) && i < |s.calls|
    requires s.calls[i].phase.Fanning? ==> !FanOut.Ended(s.calls[i].phase.snap, s.calls[i].phase.copy)
    ensures !e.Arrive? && !e.HangUp? && e.i == i && Enabled(objs, s, e)
  {
    RunInv(objs, events, s);
    e := NextStep(objs, s, i);
  }

  // ---- What the origin answered ----

  /** The call has the answer of fn, and acts on it. */
  ghost predicate Kept(c: Call, body: Stream, failed: bool) {
    match c.phase
    case Answered(b, f) => b == body && f == failed
    case Fanning(b, _, copy) => b == body && c.err == failed && (failed ==> copy.Closing? && copy.failed)
    case _ => false
  }

  lemma StepKeeps(objs: string -> seq<byte>, s: State, e: Event, i: nat, body: Stream, failed: bool)
    requires Inv(objs, s) && Enabled(objs, s, e) && i < |s.calls| && Kept(s.calls[i], body, failed)
    ensures i < |Apply(objs, s, e).calls| && Kept(Apply(objs, s, e).calls[i], body, failed)
  {
    assert CallInv(s.calls[i], objs(s.calls[i].key));
  }

  lemma {:induction false} AnswerKept(objs: string -> seq<byte>, events: seq<Event>, s: State, x: nat)
    requires Run(objs, events, s) && x < |events| && events[x].Ask?
    ensures events[x].i < |s.calls| && Kept(s.calls[events[x].i], events[x].body, events[x].failed)
  {
    var n := |events| - 1;
    var t: State :| Run(objs, events[..n], t) && Enabled(objs, t, events[n]) && s == Apply(objs, t, events[n]);
    if x < n {
      AnswerKept(objs, events[..n], t, x);
      RunInv(objs, events[..n], t);
      StepKeeps(objs, t, events[n], events[x].i, events[x].body, events[x].failed);
    }
  }

  /** What the origin answered is what the callers get: each pipe holds a prefix of that body, all of it when
      it was closed with io.EOF; a caller is refused only if fn failed; and when the goroutine is done,
      every pipe is closed: with an error if fn failed, with io.EOF if it did not, the body was complete
      and nobody hung up. */
  lemma AnswerReaches(objs: string -> seq<byte>, events: seq<Event>, s: State, i: nat, k: nat, body: Stream,
                      failed: bool)
    requires Run(objs, events, s) && Ask(i, body, failed) in events
    requires i < |s.calls| && k < |s.calls[i].callers|
    ensures var c := s.calls[i];
            && k < |c.pipes| && c.pipes[k].got <= body.bytes
            && (c.pipes[k].ending.ClosedEof? ==> !failed && body.complete && c.pipes[k].got == body.bytes)
            && (c.callers[k].Refused? ==> failed)
            && (c.phase.Fanning? && FanOut.Ended(c.phase.snap, c.phase.copy) ==>
                && (failed ==> c.pipes[k].ending.ClosedError?)
                && (!failed && body.complete && (forall j :: 0 <= j < |c.pipes| ==> !c.pipes[j].hungUp) ==>
                    c.pipes[k].ending.ClosedEof?))
  {
    RunInv(objs, events, s);
    var x :| 0 <= x < |events| && events[x] == Ask(i, body, failed);
    AnswerKept(objs, events, s, x);
    var c := s.calls[i];
    if c.phase.Fanning? {
      FanOut.PipeRight(c.pipes, body, c.phase.snap, c.phase.copy, k);
    }
  }
}
