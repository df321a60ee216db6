/** What a fetch leaves behind: over any run of the cache, the chunks it brought are in the bucket until
    something takes them away. */
module Filling {
  import opened Streams
  import opened Arith
  import opened Assembly
  import opened AssemblyProof
  import opened Blocks
  import opened Savepart
  import opened CacheRun
  import Async = SavepartAsync
  import Flight = ChunkFlight

  ghost predicate Step(obj: seq<byte>, bs: nat, s: State, e: Event, t: State)
    requires 0 < bs
  {
    Enabled(obj, bs, s, e) && t == Apply(obj, bs, s, e)
  }

  /** The states a run goes through: trace[i] before events[i]. */
  ghost predicate Traced(obj: seq<byte>, bs: nat, trace: seq<State>, events: seq<Event>)
    requires 0 < bs
  {
    && |trace| == |events| + 1 && Begin(obj, bs, trace[0])
    && forall i :: 0 <= i < |events| ==> Step(obj, bs, trace[i], events[i], trace[i + 1])
  }

  lemma {:induction false} RunTraced(obj: seq<byte>, bs: nat, events: seq<Event>, s: State) returns (trace: seq<State>)
    requires 0 < bs && Run(obj, bs, events, s)
    ensures Traced(obj, bs, trace, events) && trace[|events|] == s
  {
    if events == [] {
      trace := [s];
    } else {
      var n := |events| - 1;
      var t: State :| Run(obj, bs, events[..n], t) && Enabled(obj, bs, t, events[n]) &&
          s == Apply(obj, bs, t, events[n]);
      var before := RunTraced(obj, bs, events[..n], t);
      trace := before + [s];
      forall i | 0 <= i < |events| ensures Step(obj, bs, trace[i], events[i], trace[i + 1]) {
        assert i < n ==> Step(obj, bs, before[i], events[..n][i], before[i + 1]);
      }
    }
  }

  lemma BeginInv(obj: seq<byte>, bs: nat, s: State)
    requires SmallEnough(|obj|, bs) && Begin(obj, bs, s)
    ensures Inv(obj, bs, s)
  {
    RunInv(obj, bs, [], s);
  }

  lemma {:induction false} TracedInv(obj: seq<byte>, bs: nat, trace: seq<State>, events: seq<Event>, i: nat)
    requires SmallEnough(|obj|, bs) && Traced(obj, bs, trace, events) && i <= |events|
    ensures Inv(obj, bs, trace[i])
  {
    if i == 0 {
      BeginInv(obj, bs, trace[0]);
    } else {
      TracedInv(obj, bs, trace, events, i - 1);
      assert Step(obj, bs, trace[i - 1], events[i - 1], trace[i - 1 + 1]);
      StepInv(obj, bs, trace[i - 1], events[i - 1]);
    }
  }

  // ---- A chunk's file ----

  /** The bucket has the chunk. */
  ghost predicate Filed(files: Files, obj: seq<byte>, bs: nat, k: nat) {
    k in files && files[k] == Chunk(obj, bs, k)
  }

  /** The block is all of its chunk: it is full, or it ends with the object. */
  predicate Whole(b: Block, size: nat, bs: nat) {
    |b.buf| == bs || b.pos == size
  }

  /** A step that takes chunk k away: it is discarded, or a write of it fails or is of an incomplete block. */
  predicate Spoils(s: State, e: Event, size: nat, bs: nat, k: nat) {
    match e
    case Discard(ids) => k in ids
    case FetchStep(x, ev, _) =>
      && x < |s.fetches| && ev.Write? && s.fetches[x].st.queue != []
      && s.fetches[x].st.queue[0].index == k && !(ev.ok && Whole(s.fetches[x].st.queue[0], size, bs))
    case _ => false
  }

  /** A block of the object is its chunk if and only if it is whole. */
  lemma WholeIsChunk(b: Block, j: nat, obj: seq<byte>, bs: nat, k: nat)
    requires SmallEnough(|obj|, bs) && FromObject(b, j, obj, bs) && b.index == k
    ensures j == k && k * bs < |obj| && |b.buf| <= |Chunk(obj, bs, k)|
    ensures b.buf == Chunk(obj, bs, k) <==> Whole(b, |obj|, bs)
    ensures !Whole(b, |obj|, bs) ==> [] != Chunk(obj, bs, k)
  {
    ChunkNumber(j, |obj|, bs);
  }

  lemma WriteFiles(obj: seq<byte>, bs: nat, files: Files, f: Fetch, e: Async.Event, torn: nat, k: nat)
    requires SmallEnough(|obj|, bs) && GoodFetchState(f, obj, bs) && Async.Enabled(f.cfg, f.st, e)
    requires e.Write? && torn < |f.st.queue[0].buf| && f.st.queue[0].index == k
    ensures Filed(FilesAfter(files, f, e, torn, |obj|, bs), obj, bs, k) <==> e.ok && Whole(f.st.queue[0], |obj|, bs)
  {
    var j := QueuedFromObject(f, obj);
    WholeIsChunk(f.st.queue[0], j, obj, bs, k);
  }

  /** A chunk in the bucket stays there exactly until a step that takes it away. */
  lemma StaysUnlessSpoilt(obj: seq<byte>, bs: nat, s: State, e: Event, k: nat)
    requires Inv(obj, bs, s) && Enabled(obj, bs, s, e) && Filed(s.files, obj, bs, k)
    ensures Filed(Apply(obj, bs, s, e).files, obj, bs, k) <==> !Spoils(s, e, |obj|, bs, k)
  {
    if e.FetchStep? && e.e.Write? && s.fetches[e.k].st.queue[0].index == k {
      WriteFiles(obj, bs, s.files, s.fetches[e.k], e.e, e.torn, k);
    }
  }

  /** From step p on to n, nothing takes chunk k away. */
  ghost predicate Untouched(trace: seq<State>, events: seq<Event>, size: nat, bs: nat, k: nat, p: nat, n: nat)
    requires p <= n <= |events| < |trace|
  {
    forall q :: p <= q < n ==> !Spoils(trace[q], events[q], size, bs, k)
  }

  lemma StaysOne(obj: seq<byte>, bs: nat, trace: seq<State>, events: seq<Event>, k: nat, n: nat)
    requires SmallEnough(|obj|, bs) && Traced(obj, bs, trace, events) && n < |events|
    requires Filed(trace[n].files, obj, bs, k) && !Spoils(trace[n], events[n], |obj|, bs, k)
    ensures Filed(trace[n + 1].files, obj, bs, k)
  {
    TracedInv(obj, bs, trace, events, n);
    assert Step(obj, bs, trace[n], events[n], trace[n + 1]);
    StaysUnlessSpoilt(obj, bs, trace[n], events[n], k);
  }

  lemma {:induction false} StaysFiled(obj: seq<byte>, bs: nat, trace: seq<State>, events: seq<Event>, k: nat, p: nat,
                                      n: nat)
    requires SmallEnough(|obj|, bs) && Traced(obj, bs, trace, events) && p <= n <= |events|
    requires Filed(trace[p].files, obj, bs, k) && Untouched(trace, events, |obj|, bs, k, p, n)
    ensures Filed(trace[n].files, obj, bs, k)
    decreases n - p
  {
    if p < n {
      StaysFiled(obj, bs, trace, events, k, p, n - 1);
      StaysOne(obj, bs, trace, events, k, n - 1);
    }
  }

  // ---- The write that brought it ----

  /** Step e is fetch x's write of block b. */
  predicate Writes(s: State, e: Event, x: nat, ok: bool, b: Block) {
    && e.FetchStep? && e.k == x && e.e == Async.Write(ok)
    && x < |s.fetches| && s.fetches[x].st.queue != [] && s.fetches[x].st.queue[0] == b
  }

  /** What one step does to the blocks fetch x has handed over. */
  lemma HandedStep(obj: seq<byte>, bs: nat, s: State, e: Event, x: nat)
    requires 0 < bs && Enabled(obj, bs, s, e) && x < |Apply(obj, bs, s, e).fetches|
    ensures var t := Apply(obj, bs, s, e).fetches[x].st;
            if x >= |s.fetches| then t.handed == []
            else if e.FetchStep? && e.k == x && e.e.Write? then
              && s.fetches[x].st.queue != [] && t.handed == s.fetches[x].st.handed + [s.fetches[x].st.queue[0]]
              && t.writeErr == (s.fetches[x].st.writeErr || !e.e.ok)
            else t.handed == s.fetches[x].st.handed && t.writeErr == s.fetches[x].st.writeErr
  {
  }

  /** Every block handed over was written by some step, and that write was ok if no write has failed. */
  lemma {:induction false} HandedByWrite(obj: seq<byte>, bs: nat, trace: seq<State>, events: seq<Event>, n: nat,
                                         x: nat, j: nat) returns (p: nat, ok: bool)
    requires 0 < bs && Traced(obj, bs, trace, events) && n <= |events|
    requires x < |trace[n].fetches| && j < |trace[n].fetches[x].st.handed|
    ensures p < n && Writes(trace[p], events[p], x, ok, trace[n].fetches[x].st.handed[j])
    ensures !trace[n].fetches[x].st.writeErr ==> ok
    decreases n
  {
    assert n > 0;
    var s, e := trace[n - 1], events[n - 1];
    assert Step(obj, bs, s, e, trace[n - 1 + 1]);
    HandedStep(obj, bs, s, e, x);
    if j < |s.fetches[x].st.handed| {
      p, ok := HandedByWrite(obj, bs, trace, events, n - 1, x, j);
    } else {
      p, ok := n - 1, e.e.ok;
    }
  }

  // ---- The chunks of a fetch ----

  /** Chunk k, cut at the object's end, lies inside what fetch f received. A fetch that did not come to the
      end of its body keeps back a block until the byte behind it. */
  ghost predicate Brought(f: Fetch, size: nat, bs: nat, k: nat) {
    && k * bs < size && f.a <= k * bs
    && if f.st.phase.Ended? then Min(k * bs + bs, size) <= f.a + |f.st.got| else k * bs + bs < f.a + |f.st.got|
  }

  lemma {:induction false} FlatAtMost(saved: seq<Block>, bs: nat)
    requires forall j :: 0 <= j < |saved| ==> |saved[j].buf| <= bs
    ensures |Flat(saved)| <= |saved| * bs
  {
    if saved != [] {
      FlatAtMost(saved[1..], bs);
      assert |saved| * bs == (|saved| - 1) * bs + bs;
    }
  }

  /** All but the last block are full. */
  lemma LastLength(saved: seq<Block>, bs: nat, j: nat)
    requires j + 1 == |saved| && forall i :: 0 <= i < j ==> |saved[i].buf| == bs
    ensures |Flat(saved)| == j * bs + |saved[j].buf|
  {
    FlatLength(saved[..j], bs);
    FlatAppend(saved[..j], saved[j]);
    assert saved == saved[..j] + [saved[j]];
  }

  /** With n blocks the bytes behind block j are not there. */
  lemma Enough(n: nat, j: nat, bs: nat, length: nat)
    requires 0 < bs && length <= n * bs && j * bs < length
    ensures j < n
  {
    if n <= j {
      MulMonotone(n, j, bs);
    }
  }

  lemma FirstAtMost(first: nat, startAt: nat, bs: nat, k: nat)
    requires FirstBlock(first, startAt, bs) && startAt <= k * bs
    ensures first <= k && k * bs == first * bs + (k - first) * bs
  {
    if k < first {
      NextChunk(k, first, bs);
    }
    assert (first + (k - first)) * bs == first * bs + (k - first) * bs;
  }

  /** Block j of a body read to its end is there and all of its chunk, if its bytes, `length`, came in. */
  lemma EndedWhole(saved: seq<Block>, r: seq<byte>, first: nat, bs: nat, j: nat, lead: nat, length: nat)
    requires 0 < bs && Complete(saved, r, first, bs) && lead == j * bs && 0 < length <= bs && lead + length <= |r|
    ensures j < |saved| && length <= |saved[j].buf|
  {
    forall i | 0 <= i < |saved| ensures |saved[i].buf| <= bs {
      assert Placed(saved[i], first + i, bs);
    }
    FlatAtMost(saved, bs);
    Enough(|saved|, j, bs, |r|);
    if j + 1 == |saved| {
      LastLength(saved, bs, j);
    }
  }

  /** And of a body that broke off, if a byte came behind it. */
  lemma KeptWhole(saved: seq<Block>, buf: seq<byte>, r: seq<byte>, first: nat, bs: nat, j: nat, lead: nat)
    requires 0 < bs && Kept(saved, buf, r, first, bs) && lead == j * bs && lead + bs < |r|
    ensures j < |saved| && |saved[j].buf| == bs
  {
    FlatLength(saved, bs);
    assert (|saved| + 1) * bs == |saved| * bs + bs && (j + 1) * bs == j * bs + bs;
    Enough(|saved| + 1, j + 1, bs, |r|);
  }

  /** What a closed fetch has handed over of chunk first + j, when `at` and `lead` are where its bytes start. */
  lemma HandedWhole(c: Async.Config, st: Async.State, j: nat, at: nat, lead: nat, length: nat)
    requires Async.Inv(c, st) && st.onCloses > 0 && at == c.first * c.blockSize && lead == j * c.blockSize
    requires 0 < length <= c.blockSize && at + lead + length <= c.startAt + |st.got|
    requires !st.phase.Ended? ==> length == c.blockSize && at + lead + length < c.startAt + |st.got|
    ensures j < |st.handed| && length <= |st.handed[j].buf|
  {
    var r := Async.Received(c, st);
    assert st.handed + st.queue == st.handed;
    assert |r| == c.startAt + |st.got| - at;
    if st.phase.Ended? {
      EndedWhole(st.handed, r, c.first, c.blockSize, j, lead, length);
    } else {
      KeptWhole(st.handed, st.buf, r, c.first, c.blockSize, j, lead);
    }
  }

  lemma HandedAt(c: Async.Config, st: Async.State, j: nat, at: nat, lead: nat)
    requires Async.Inv(c, st) && j < |st.handed| && at == c.first * c.blockSize && lead == j * c.blockSize
    ensures c.startAt <= at <= c.startAt + |st.got| && Placed(st.handed[j], c.first + j, c.blockSize)
    ensures BlockAt(st.handed[j], st.got[at - c.startAt..], lead)
  {
    HoldsCutting(c, st);
    assert (st.handed + st.queue)[j] == st.handed[j];
    BlockBytes(st.handed + st.queue, Async.Received(c, st), c.first, c.blockSize, j);
  }

  /** Every block a fetch has handed over holds the object's bytes at its place. */
  lemma HandedFromObject(f: Fetch, obj: seq<byte>, j: nat)
    requires Async.Inv(f.cfg, f.st) && Genuine(f, obj) && j < |f.st.handed|
    ensures FromObject(f.st.handed[j], f.cfg.first + j, obj, f.cfg.blockSize)
  {
    var c, st := f.cfg, f.st;
    var at, lead := c.first * c.blockSize, j * c.blockSize;
    HandedAt(c, st, j, at, lead);
    assert st.got <= st.got + st.pending;
    BlockFromObject(st.handed[j], st.got, obj, f.a, f.b + 1, c.first, j, c.blockSize, at, lead);
  }

  /** A closed fetch has handed over every chunk it brought. */
  lemma ChunkHanded(f: Fetch, obj: seq<byte>, bs: nat, k: nat) returns (j: nat)
    requires SmallEnough(|obj|, bs) && GoodFetchState(f, obj, bs) && f.st.onCloses > 0 && Brought(f, |obj|, bs, k)
    ensures j < |f.st.handed| && f.st.handed[j].index == k && f.st.handed[j].buf == Chunk(obj, bs, k)
    ensures FromObject(f.st.handed[j], k, obj, bs) && Whole(f.st.handed[j], |obj|, bs)
  {
    FirstAtMost(f.cfg.first, f.cfg.startAt, bs, k);
    j := k - f.cfg.first;
    HandedWhole(f.cfg, f.st, j, f.cfg.first * bs, j * bs, Min(bs, |obj| - k * bs));
    HandedFromObject(f, obj, j);
    ChunkNumber(k, |obj|, bs);
    WholeIsChunk(f.st.handed[j], k, obj, bs, k);
  }

  /** A fetch that has closed, with every write ok, has at some step written each chunk it brought; and as
      long as nothing takes the chunk away after that step, the bucket has it. */
  lemma FetchFills(obj: seq<byte>, bs: nat, trace: seq<State>, events: seq<Event>, x: nat, k: nat) returns (p: nat)
    requires SmallEnough(|obj|, bs) && Traced(obj, bs, trace, events) && x < |trace[|events|].fetches|
    requires var f := trace[|events|].fetches[x];
             f.st.onCloses > 0 && !f.st.writeErr && Brought(f, |obj|, bs, k)
    ensures p < |events| && events[p].FetchStep? && events[p].k == x && events[p].e == Async.Write(true)
    ensures Filed(trace[p + 1].files, obj, bs, k)
    ensures Untouched(trace, events, |obj|, bs, k, p + 1, |events|) ==> Filed(trace[|events|].files, obj, bs, k)
  {
    var n := |events|;
    TracedInv(obj, bs, trace, events, n);
    var f := trace[n].fetches[x];
    assert GoodFetchState(f, obj, bs);
    var j := ChunkHanded(f, obj, bs, k);
    var ok;
    p, ok := HandedByWrite(obj, bs, trace, events, n, x, j);
    WriteFiled(obj, bs, trace, events, x, k, p, f.st.handed[j]);
    if Untouched(trace, events, |obj|, bs, k, p + 1, n) {
      StaysFiled(obj, bs, trace, events, k, p + 1, n);
    }
  }

  lemma WriteFiled(obj: seq<byte>, bs: nat, trace: seq<State>, events: seq<Event>, x: nat, k: nat, p: nat, b: Block)
    requires SmallEnough(|obj|, bs) && Traced(obj, bs, trace, events) && p < |events|
    requires Writes(trace[p], events[p], x, true, b) && b.index == k && Whole(b, |obj|, bs)
    ensures Filed(trace[p + 1].files, obj, bs, k)
  {
    TracedInv(obj, bs, trace, events, p);
    var s, e := trace[p], events[p];
    assert Step(obj, bs, s, e, trace[p + 1]);
    assert GoodFetchState(s.fetches[x], obj, bs);
    WriteFiles(obj, bs, s.files, s.fetches[x], e.e, e.torn, k);
  }

  // ---- It does happen ----

  /** What the saver makes of a body of one block: the states behind the read, the copy and the end of flush. */
  lemma OneBlock(c: Async.Config, body: seq<byte>) returns (s: Async.State, t: Async.State, u: Async.State)
    requires c == Async.Config(c.blockSize, 0, 0, 1) && 0 < |body| <= c.blockSize
    ensures Async.Enabled(c, Async.Init(c), Async.StartRead(body, true))
    ensures s == Async.Apply(c, Async.Init(c), Async.StartRead(body, true)) && s.buf == [] && s.got == []
    ensures Async.Enabled(c, s, Async.Append) && t == Async.Apply(c, s, Async.Append) && |t.buf| <= t.pos
    ensures Async.Enabled(c, t, Async.Finish) && u == Async.Apply(c, t, Async.Finish) && |u.buf| <= u.pos
    ensures u.queue == [Block(body, 0, |body|, true)]
  {
    s := Async.Apply(c, Async.Init(c), Async.StartRead(body, true));
    t := Async.Apply(c, s, Async.Append);
    assert [] + body[..|body|] == body;
    u := Async.Apply(c, t, Async.Finish);
  }

  lemma ReachFetch(obj: seq<byte>, bs: nat, s: State, f: Fetch, e: Async.Event)
    requires 0 < bs && Reachable(obj, bs, s) && s.fetches == [f] && f.a <= f.b < |obj| && 0 < f.cfg.blockSize
    requires Async.Enabled(f.cfg, f.st, e) && |f.st.buf| <= f.st.pos
    requires (e.StartRead? ==> f.st.got + e.data <= obj[f.a..f.b + 1]) && (e.Write? ==> 0 < |f.st.queue[0].buf|)
    ensures Reachable(obj, bs, s.(files := FilesAfter(s.files, f, e, 0, |obj|, bs),
                                  fetches := [f.(st := Async.Apply(f.cfg, f.st, e))]))
  {
    Reach(obj, bs, s, FetchStep(0, e, 0));
    assert s.fetches[0 := f.(st := Async.Apply(f.cfg, f.st, e))] == [f.(st := Async.Apply(f.cfg, f.st, e))];
  }

  lemma ReachOpen(obj: seq<byte>, bs: nat, s: State, c: Async.Config)
    requires 0 < |obj| && 0 < bs && Reachable(obj, bs, s) && s.fetches == [] && c == Async.Config(bs, 0, 0, 1)
    ensures Reachable(obj, bs, s.(fetches := [Fetch(0, |obj| - 1, c, Async.Init(c))]))
  {
    DivUnique(bs - 1, 0, bs);
    var f := Fetch(0, |obj| - 1, c, Async.Init(c));
    Reach(obj, bs, s, OpenFetch(0, |obj| - 1, 1));
    assert s.fetches + [f] == [f];
  }

  lemma ReachQueued(obj: seq<byte>, bs: nat, s: State, f: Fetch) returns (st: Async.State)
    requires 0 < |obj| <= bs && Reachable(obj, bs, s) && s.fetches == [f]
    requires f == Fetch(0, |obj| - 1, Async.Config(bs, 0, 0, 1), Async.Init(f.cfg))
    ensures st.queue == [Block(obj, 0, |obj|, true)] && |st.buf| <= st.pos
    ensures Reachable(obj, bs, s.(fetches := [f.(st := st)]))
  {
    var x, y;
    x, y, st := OneBlock(f.cfg, obj);
    assert obj[0..|obj|] == obj && [] + obj == obj;
    ReachFetch(obj, bs, s, f, Async.StartRead(obj, true));
    ReachFetch(obj, bs, s.(fetches := [f.(st := x)]), f.(st := x), Async.Append);
    ReachFetch(obj, bs, s.(fetches := [f.(st := y)]), f.(st := y), Async.Finish);
  }

  /** An object of one block, an empty cache and one fetch: the cache can come to hold the object. */
  lemma OneBlockFilled(obj: seq<byte>, bs: nat) returns (s: State)
    requires 0 < |obj| <= bs
    ensures Reachable(obj, bs, s) && s.files == map[0 := obj]
  {
    s := State(map[], [], [], Flight.State(map[], []));
    assert Run(obj, bs, [], s);
    var c := Async.Config(bs, 0, 0, 1);
    var f := Fetch(0, |obj| - 1, c, Async.Init(c));
    ReachOpen(obj, bs, s, c);
    s := s.(fetches := [f]);
    var st := ReachQueued(obj, bs, s, f);
    f := f.(st := st);
    s := s.(fetches := [f]);
    ReachFetch(obj, bs, s, f, Async.Write(true));
    s := s.(files := map[0 := obj], fetches := [f.(st := Async.Apply(c, st, Async.Write(true)))]);
  }
}
