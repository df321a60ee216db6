/** Collapsed forwarding of whole objects, server/middleware/caching/object_flight.go: as in the
    chunk flight every step is an event, but here fn runs while the call can still be joined. */
module ObjectFlight {
  import opened Streams
  import FanOut

  datatype Caller = Waiting | Given | Refused

  datatype Phase =
    | Asking                                                 // until fn returns, line 94
    | Answered(body: Stream, failed: bool)
    | Removed(body: Stream, failed: bool)                    // the key is gone, line 97; resp or err is set
    | Released(body: Stream, failed: bool)                   // wg.Done, line 102 or 114
    // the pipes are copied, line 119, or closed from line 105 on
    | Fanning(body: Stream, snap: nat, copy: FanOut.Copy)

  /** An objectFlightCall; `asked` and `released` count the calls of fn and of wg.Done. */
  datatype Call = Call(
    key: string,
    pipes: seq<FanOut.Pipe>,
    callers: seq<Caller>,
    err: bool,
    asked: nat,
    released: nat,
    phase: Phase)

  datatype State = State(m: map<string, nat>, calls: seq<Call>)

  datatype Event =
    | Arrive(key: string)
    | Answer(i: nat, body: Stream, failed: bool)   // a panic of fn is an error too
    | Remove(i: nat)
    | Release(i: nat)
    | Snapshot(i: nat)
    | Fan(i: nat, e: FanOut.Event)
    | Wake(i: nat, k: nat)
    | HangUp(i: nat, k: nat)

  /** While a call is live it is in the map and can be joined. */
  predicate Live(c: Call) {
    c.phase.Asking? || c.phase.Answered?
  }

  predicate WasReleased(c: Call) {
    c.phase.Released? || c.phase.Fanning?
  }

  predicate Enabled(s: State, e: Event) {
    match e
    case Arrive(key) => key in s.m ==> s.m[key] < |s.calls|
    case Answer(i, body, failed) => i < |s.calls| && s.calls[i].phase.Asking? && (failed ==> body == Stream([], false))
    case Remove(i) => i < |s.calls| && s.calls[i].phase.Answered?
    case Release(i) => i < |s.calls| && s.calls[i].phase.Removed?
    case Snapshot(i) => i < |s.calls| && s.calls[i].phase.Released? && 0 < |s.calls[i].callers|
    case Fan(i, fe) =>
      && i < |s.calls|
      && var c := s.calls[i];
         && c.phase.Fanning? && FanOut.Enabled(c.pipes, c.phase.body, c.phase.snap, c.phase.copy, fe)
         && (fe.Deliver? ==> c.phase.copy.w < |c.callers| && c.callers[c.phase.copy.w].Given?)
    case Wake(i, k) =>
      && i < |s.calls| && WasReleased(s.calls[i])
      && 0 < k < |s.calls[i].callers| && k < |s.calls[i].pipes| && s.calls[i].callers[k].Waiting?
    case HangUp(i, k) =>
      && i < |s.calls| && k < |s.calls[i].callers| && k < |s.calls[i].pipes| && s.calls[i].callers[k].Given?
  }

  function Join(c: Call): Call {
    c.(pipes := c.pipes + [FanOut.Fresh], callers := c.callers + [Waiting])
  }

  /** The leader registers its own pipe and goes on to run fn. */
  function NewCall(key: string): Call {
    Call(key, [FanOut.Fresh], [Waiting], false, 0, 0, Asking)
  }

  function Woken(c: Call, k: nat): Call
    requires k < |c.callers| && k < |c.pipes|
  {
    if c.err then c.(callers := c.callers[k := Refused], pipes := c.pipes[k := FanOut.Close(c.pipes[k], true)])
    else c.(callers := c.callers[k := Given])
  }

  function FanStep(c: Call, e: FanOut.Event): Call
    requires c.phase.Fanning? && FanOut.Enabled(c.pipes, c.phase.body, c.phase.snap, c.phase.copy, e)
  {
    var r := FanOut.Apply(c.pipes, c.phase.body, c.phase.snap, c.phase.copy, e);
    c.(pipes := r.0, phase := c.phase.(copy := r.1))
  }

  function CallAfter(s: State, e: Event): Call
    requires Enabled(s, e) && !e.Arrive?
  {
    var c := s.calls[e.i];
    match e
    case Answer(_, body, failed) => c.(asked := c.asked + 1, phase := Answered(body, failed))
    case Remove(_) => c.(err := c.phase.failed, phase := Removed(c.phase.body, c.phase.failed))
    case Release(_) => c.(released := c.released + 1, phase := Released(c.phase.body, c.phase.failed))
    case Snapshot(_) =>
      var n := |c.pipes|;
      c.(callers := c.callers[0 := if c.phase.failed then Refused else Given],
         phase := Fanning(c.phase.body, n, if c.phase.failed then FanOut.Closing(true, 0) else FanOut.Start(n)))
    case Fan(_, fe) => FanStep(c, fe)
    case Wake(_, k) => Woken(c, k)
    case HangUp(_, k) => c.(pipes := c.pipes[k := c.pipes[k].(hungUp := true)])
  }

  function Apply(s: State, e: Event): State
    requires Enabled(s, e)
  {
    if e.Arrive? then
      if e.key in s.m then s.(calls := s.calls[s.m[e.key] := Join(s.calls[s.m[e.key]])])
      else State(s.m[e.key := |s.calls|], s.calls + [NewCall(e.key)])
    else
      State(if e.Remove? then s.m - {s.calls[e.i].key} else s.m, s.calls[e.i := CallAfter(s, e)])
  }

  /** A pipe nothing was written to; it may only be closed already by a waiter told of the error. */
  ghost predicate Untouched(p: FanOut.Pipe, err: bool) {
    p.got == [] && (p.ending.Unclosed? || (err && p.ending.ClosedError?))
  }

  ghost predicate PhaseInv(c: Call) {
    match c.phase
    case Asking => !c.err
    case Answered(body, failed) => !c.err && (failed ==> body == Stream([], false))
    case Removed(body, failed) => c.err == failed && (failed ==> body == Stream([], false))
    case Released(body, failed) => c.err == failed && (failed ==> body == Stream([], false))
    case Fanning(body, snap, copy) => FanOut.Inv(c.pipes, body, snap, copy) && (c.err ==> copy.Closing? && copy.failed)
  }

  ghost predicate CallInv(c: Call) {
    && 0 < |c.pipes| == |c.callers|
    && c.asked == (if c.phase.Asking? then 0 else 1) && c.released == (if WasReleased(c) then 1 else 0)
    && (c.phase.Fanning? ==> !c.callers[0].Waiting?)
    && (!c.phase.Fanning? ==> forall k :: 0 <= k < |c.pipes| ==> Untouched(c.pipes[k], c.err))
    && (forall k :: 0 <= k < |c.callers| ==>
        && (c.callers[k].Given? ==> !c.err && WasReleased(c))
        && (c.callers[k].Refused? ==> c.err && WasReleased(c)))
    && PhaseInv(c)
  }

  ghost predicate MapInv(s: State) {
    && (forall key :: key in s.m ==> s.m[key] < |s.calls| && s.calls[s.m[key]].key == key && Live(s.calls[s.m[key]]))
    && (forall i :: 0 <= i < |s.calls| && Live(s.calls[i]) ==> s.calls[i].key in s.m && s.m[s.calls[i].key] == i)
  }

  ghost predicate Inv(s: State) {
    MapInv(s) && forall i :: 0 <= i < |s.calls| ==> CallInv(s.calls[i])
  }

  lemma SnapshotInv(s: State, i: nat)
    requires Enabled(s, Snapshot(i)) && CallInv(s.calls[i])
    ensures CallInv(CallAfter(s, Snapshot(i)))
  {
    var c := s.calls[i];
    var pipes, body := c.pipes, c.phase.body;
    if c.phase.failed {
      forall k | 0 <= k < |pipes| ensures FanOut.Ends(pipes[k], body, true, false) {
        assert Untouched(pipes[k], c.err);
      }
    } else {
      FanOut.StartInv(pipes, body);
    }
  }

  lemma FanInv(s: State, i: nat, fe: FanOut.Event)
    requires Enabled(s, Fan(i, fe)) && CallInv(s.calls[i])
    ensures CallInv(CallAfter(s, Fan(i, fe)))
  {
    var c := s.calls[i];
    FanOut.StepInv(c.pipes, c.phase.body, c.phase.snap, c.phase.copy, fe);
  }

  lemma WakeInv(s: State, i: nat, k: nat)
    requires Enabled(s, Wake(i, k)) && CallInv(s.calls[i])
    ensures CallInv(CallAfter(s, Wake(i, k)))
  {
    var c := s.calls[i];
    if c.phase.Fanning? && c.err {
      FanOut.PipeInv(c.pipes, c.phase.body, c.phase.snap, c.phase.copy, k, FanOut.Close(c.pipes[k], true));
    }
  }

  lemma HangUpInv(s: State, i: nat, k: nat)
    requires Enabled(s, HangUp(i, k)) && CallInv(s.calls[i])
    ensures CallInv(CallAfter(s, HangUp(i, k)))
  {
    var c := s.calls[i];
    if c.phase.Fanning? {
      FanOut.PipeInv(c.pipes, c.phase.body, c.phase.snap, c.phase.copy, k, c.pipes[k].(hungUp := true));
    }
  }

  lemma CallStep(s: State, e: Event)
    requires Enabled(s, e) && !e.Arrive? && CallInv(s.calls[e.i])
    ensures CallInv(CallAfter(s, e))
  {
    match e
    case Answer(_, _, _) =>
    case Remove(_) =>
    case Release(_) =>
    case Snapshot(i) => SnapshotInv(s, i);
    case Fan(i, fe) => FanInv(s, i, fe);
    case Wake(i, k) => WakeInv(s, i, k);
    case HangUp(i, k) => HangUpInv(s, i, k);
  }

  lemma JoinInv(c: Call)
    requires CallInv(c) && Live(c)
    ensures CallInv(Join(c)) && Live(Join(c)) && Join(c).key == c.key
  {
  }

  lemma ArriveInv(s: State, key: string)
    requires Enabled(s, Arrive(key)) && Inv(s)
    ensures Inv(Apply(s, Arrive(key)))
  {
    if key in s.m {
      JoinInv(s.calls[s.m[key]]);
      ReplaceInv(s, s.m[key], Join(s.calls[s.m[key]]));
    } else {
      assert CallInv(NewCall(key));
    }
  }

  lemma ReplaceInv(s: State, i: nat, c: Call)
    requires Inv(s) && i < |s.calls| && c.key == s.calls[i].key && CallInv(c) && (Live(c) ==> Live(s.calls[i]))
    ensures Inv(State(if Live(s.calls[i]) && !Live(c) then s.m - {c.key} else s.m, s.calls[i := c]))
  {
  }

  lemma LiveStep(s: State, e: Event)
    requires Enabled(s, e) && !e.Arrive?
    ensures var c, d := s.calls[e.i], CallAfter(s, e);
            d.key == c.key && (Live(d) ==> Live(c)) && (e.Remove? <==> Live(c) && !Live(d))
  {
  }

  lemma StepInv(s: State, e: Event)
    requires Enabled(s, e) && Inv(s)
    ensures Inv(Apply(s, e))
  {
    if e.Arrive? {
      ArriveInv(s, e.key);
    } else {
      CallStep(s, e);
      LiveStep(s, e);
      ReplaceInv(s, e.i, CallAfter(s, e));
    }
  }

  ghost predicate Run(events: seq<Event>, s: State) {
    if events == [] then s == State(map[], [])
    else
      var n := |events| - 1;
      exists t: State :: Run(events[..n], t) && Enabled(t, events[n]) && s == Apply(t, events[n])
  }

  lemma {:induction false} RunInv(events: seq<Event>, s: State)
    requires Run(events, s)
    ensures Inv(s)
  {
    if events != [] {
      var n := |events| - 1;
      var t: State :| Run(events[..n], t) && Enabled(t, events[n]) && s == Apply(t, events[n]);
      RunInv(events[..n], t);
      StepInv(t, events[n]);
    }
  }

  /** At most one call per key can be joined, each runs fn once, and each releases its waiters
      exactly once, whether fn succeeded, failed or panicked. */
  lemma OneCallEach(events: seq<Event>, s: State, i: nat)
    requires Run(events, s) && i < |s.calls|
    ensures s.calls[i].asked == if s.calls[i].phase.Asking? then 0 else 1
    ensures s.calls[i].released == if WasReleased(s.calls[i]) then 1 else 0
    ensures Live(s.calls[i]) ==>
              forall j :: 0 <= j < |s.calls| && Live(s.calls[j]) && s.calls[j].key == s.calls[i].key ==> i == j
  {
    RunInv(events, s);
  }

  /** Every caller gets a prefix of the one body at every moment, and all of it when its pipe was
      closed with io.EOF. When the goroutine is done every registered pipe is closed, with io.EOF
      unless fn failed, the body broke off or some reader hung up. */
  lemma OneBody(events: seq<Event>, s: State, i: nat, k: nat)
    requires Run(events, s) && i < |s.calls| && s.calls[i].phase.Fanning? && k < |s.calls[i].callers|
    ensures var c := s.calls[i]; var body, p := c.phase.body, if k < |c.pipes| then c.pipes[k] else FanOut.Fresh;
            && k < |c.pipes| && p.got <= body.bytes
            && (p.ending.ClosedEof? ==> body.complete && p.got == body.bytes)
            && (FanOut.Ended(c.phase.snap, c.phase.copy) ==>
                && !p.ending.Unclosed?
                && (!FanOut.Excused(c.pipes, body) ==> p.ending.ClosedEof?))
  {
    RunInv(events, s);
    var c := s.calls[i];
    FanOut.PipeRight(c.pipes, c.phase.body, c.phase.snap, c.phase.copy, k);
  }

  /** A caller is told of an error exactly when fn failed, and nothing reaches it before. */
  lemma AnswersAgree(events: seq<Event>, s: State, i: nat, k: nat)
    requires Run(events, s) && i < |s.calls| && k < |s.calls[i].callers|
    ensures var c := s.calls[i];
            && k < |c.pipes|
            && (!c.callers[k].Waiting? ==> c.released == 1 && (c.callers[k].Refused? <==> c.err))
            && (c.phase.Answered? || c.phase.Asking? ==> c.callers[k].Waiting? && c.pipes[k].got == [])
  {
    RunInv(events, s);
    assert !s.calls[i].phase.Fanning? ==> Untouched(s.calls[i].pipes[k], s.calls[i].err);
  }

  /** No call is stuck before all its pipes are closed on anything but a reader that does not read. */
  lemma NoDeadlock(events: seq<Event>, s: State, i: nat) returns (e: Event)
    requires Run(events, s) && i < |s.calls|
    requires s.calls[i].phase.Fanning? ==> !FanOut.Ended(s.calls[i].phase.snap, s.calls[i].phase.copy)
    ensures !e.Arrive? && !e.HangUp? && e.i == i && Enabled(s, e)
  {
    RunInv(events, s);
    var c := s.calls[i];
    match c.phase
    case Asking => e := Answer(i, Stream([], false), true);
    case Answered(_, _) => e := Remove(i);
    case Removed(_, _) => e := Release(i);
    case Released(_, _) => e := Snapshot(i);
    case Fanning(body, snap, copy) =>
      var fe := FanOut.CanStep(c.pipes, body, snap, copy);
      e := if fe.Deliver? && c.callers[copy.w].Waiting? then Wake(i, copy.w) else Fan(i, fe);
  }

  // ---- What fn answered ----

  /** The call has the answer of fn, and acts on it. */
  ghost predicate Kept(c: Call, body: Stream, failed: bool) {
    match c.phase
    case Asking => false
    case Answered(b, f) => b == body && f == failed
    case Removed(b, f) => b == body && f == failed
    case Released(b, f) => b == body && f == failed
    case Fanning(b, _, copy) => b == body && c.err == failed && (failed ==> copy.Closing? && copy.failed)
  }

  lemma StepKeeps(s: State, e: Event, i: nat, body: Stream, failed: bool)
    requires Inv(s) && Enabled(s, e) && i < |s.calls| && Kept(s.calls[i], body, failed)
    ensures i < |Apply(s, e).calls| && Kept(Apply(s, e).calls[i], body, failed)
  {
    assert CallInv(s.calls[i]);
  }

  lemma {:induction false} AnswerKept(events: seq<Event>, s: State, x: nat)
    requires Run(events, s) && x < |events| && events[x].Answer?
    ensures events[x].i < |s.calls| && Kept(s.calls[events[x].i], events[x].body, events[x].failed)
  {
    var n := |events| - 1;
    var t: State :| Run(events[..n], t) && Enabled(t, events[n]) && s == Apply(t, events[n]);
    if x < n {
      AnswerKept(events[..n], t, x);
      RunInv(events[..n], t);
      StepKeeps(t, events[n], events[x].i, events[x].body, events[x].failed);
    }
  }

  /** A call that is past asking has had its answer. */
  lemma {:induction false} HasAnswer(events: seq<Event>, s: State, i: nat) returns (x: nat)
    requires Run(events, s) && i < |s.calls| && !s.calls[i].phase.Asking?
    ensures x < |events| && events[x].Answer? && events[x].i == i
  {
    var n := |events| - 1;
    var t: State :| Run(events[..n], t) && Enabled(t, events[n]) && s == Apply(t, events[n]);
    if i < |t.calls| && !t.calls[i].phase.Asking? {
      x := HasAnswer(events[..n], t, i);
    } else {
      x := n;
    }
  }

  /** What fn returned is what the callers get. At every moment each pipe holds a prefix of the body of the
      answer, all of it when it was closed with io.EOF; a caller that came back is refused exactly if fn
      failed; and when the goroutine is done, every pipe is closed: with an error if fn failed, with
      io.EOF if it did not, the body was complete and nobody hung up. */
  lemma AnswerReaches(events: seq<Event>, s: State, i: nat, k: nat, body: Stream, failed: bool)
    requires Run(events, s) && Answer(i, body, failed) in events
    requires i < |s.calls| && k < |s.calls[i].callers|
    ensures var c := s.calls[i];
            && k < |c.pipes| && c.pipes[k].got <= body.bytes
            && (c.pipes[k].ending.ClosedEof? ==> !failed && body.complete && c.pipes[k].got == body.bytes)
            && (!c.callers[k].Waiting? ==> (c.callers[k].Refused? <==> failed))
            && (c.phase.Fanning? && FanOut.Ended(c.phase.snap, c.phase.copy) ==>
                && (failed ==> c.pipes[k].ending.ClosedError?)
                && (!failed && body.complete && (forall j :: 0 <= j < |c.pipes| ==> !c.pipes[j].hungUp) ==>
                    c.pipes[k].ending.ClosedEof?))
  {
    RunInv(events, s);
    var x :| 0 <= x < |events| && events[x] == Answer(i, body, failed);
    AnswerKept(events, s, x);
    var c := s.calls[i];
    if c.phase.Fanning? {
      FanOut.PipeRight(c.pipes, body, c.phase.snap, c.phase.copy, k);
    } else {
      assert Untouched(c.pipes[k], c.err);
    }
  }
}
