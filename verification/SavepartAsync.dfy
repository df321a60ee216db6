/** The asynchronous saver of pkg/iobuf/savepart_async_reader.go: a reading goroutine cuts blocks
    and sends them through a bounded channel to a writing goroutine. Every interleaving of the
    two, for every queue size, is a run of this machine. */
module SavepartAsync {
  import opened Streams
  import opened Arith
  import opened Assembly
  import opened Blocks
  import opened Savepart

  datatype Config = Config(blockSize: nat, startAt: nat, first: nat, queueSize: nat)

  /** Where the reading goroutine is: between reads, inside flush, or behind the last flush. */
  datatype Phase = Idle | Flushing(eof: bool) | Ended

  datatype State = State(
    skip: bool,
    pos: nat,
    buf: seq<byte>,
    got: seq<byte>,        // all bytes taken in so far
    pending: seq<byte>,    // what flush has still to take in
    phase: Phase,
    queue: seq<Block>,     // writeCh
    handed: seq<Block>,    // onSuccess calls made, in order
    writeErr: bool,
    closing: bool,         // writeCh is closed
    onCloses: nat)         // onClose calls made

  datatype Event =
    | StartRead(data: seq<byte>, eof: bool)   // R.Read returned; flush begins
    | Skip                                    // one turn of the loop of flush, in skip mode
    | Enqueue                                 // a full buffer is sent
    | Append                                  // bytes are copied into the buffer
    | Finish                                  // flush returns, at the end of a body after a last send
    | Write(ok: bool)                         // the writing goroutine makes one call
    | Close                                   // writeCh is closed
    | OnClose                                 // the writing goroutine is done

  ghost predicate ValidConfig(c: Config) {
    FirstBlock(c.first, c.startAt, c.blockSize) && 0 < c.queueSize
  }

  function Init(c: Config): State {
    State(c.startAt > 0, c.startAt, [], [], [], Idle, [], [], false, false, 0)
  }

  /** Bytes taken in one turn: up to the block boundary. */
  function TurnSize(c: Config, s: State): nat
    requires 0 < c.blockSize
  {
    Min(c.blockSize - s.pos % c.blockSize, |s.pending|)
  }

  predicate Enabled(c: Config, s: State, e: Event)
    requires 0 < c.blockSize
  {
    match e
    case StartRead(_, _) => s.phase.Idle? && !s.closing && !s.writeErr
    case Skip => s.phase.Flushing? && s.pending != [] && s.skip
    case Enqueue => s.phase.Flushing? && s.pending != [] && !s.skip && |s.buf| == c.blockSize && |s.queue| < c.queueSize
    case Append => s.phase.Flushing? && s.pending != [] && !s.skip && |s.buf| < c.blockSize
    case Finish => s.phase.Flushing? && s.pending == [] && (s.phase.eof && s.buf != [] ==> |s.queue| < c.queueSize)
    case Write(_) => s.queue != []
    case Close => !s.phase.Flushing? && !s.closing
    case OnClose => s.closing && s.queue == [] && s.onCloses == 0
  }

  function Apply(c: Config, s: State, e: Event): State
    requires 0 < c.blockSize && Enabled(c, s, e) && |s.buf| <= s.pos
  {
    match e
    case StartRead(data, eof) => s.(pending := data, phase := Flushing(eof))
    case Skip =>
      if s.pos % c.blockSize == 0 then s.(skip := false)
      else TakeIn(c, s)
    case Enqueue =>
      s.(queue := s.queue + [Due(s.buf, s.pos, c.blockSize, s.phase.eof)], buf := [])
    case Append =>
      var n := TurnSize(c, s);
      TakeIn(c, s).(buf := s.buf + s.pending[..n])
    case Finish =>
      if !s.phase.eof then s.(phase := Idle)
      else if s.buf == [] then s.(phase := Ended)
      else s.(phase := Ended, queue := s.queue + [Due(s.buf, s.pos, c.blockSize, true)], buf := [])
    case Write(ok) => s.(handed := s.handed + [s.queue[0]], queue := s.queue[1..], writeErr := s.writeErr || !ok)
    case Close => s.(closing := true)
    case OnClose => s.(onCloses := s.onCloses + 1)
  }

  function TakeIn(c: Config, s: State): State
    requires 0 < c.blockSize
  {
    var n := TurnSize(c, s);
    s.(pos := s.pos + n, got := s.got + s.pending[..n], pending := s.pending[n..])
  }

  function Received(c: Config, s: State): seq<byte>
    requires c.startAt <= c.first * c.blockSize
  {
    Since(s.got, c.startAt, c.first, c.blockSize)
  }

  /** What was handed over and what is queued are, in order, the blocks cut so far. */
  ghost predicate Holds(c: Config, s: State)
    requires ValidConfig(c)
  {
    var saved := s.handed + s.queue;
    if s.skip then s.pos <= c.first * c.blockSize && s.buf == [] && saved == []
    else
      && c.first * c.blockSize <= s.pos
      && (if s.phase.Ended? then s.buf == [] && Complete(saved, Received(c, s), c.first, c.blockSize)
          else if s.phase.Flushing? && s.pending != [] && s.buf == []
              then JustSent(saved, Received(c, s), c.first, c.blockSize)
          else Kept(saved, s.buf, Received(c, s), c.first, c.blockSize))
  }

  ghost predicate Inv(c: Config, s: State) {
    && ValidConfig(c)
    && s.pos == c.startAt + |s.got| && |s.buf| <= s.pos
    && |s.queue| <= c.queueSize
    && (s.phase.Idle? || s.phase.Ended? ==> s.pending == [])
    && Holds(c, s)
    && s.onCloses <= 1
    && (s.onCloses > 0 ==> s.closing && s.queue == [])
    && (s.closing ==> !s.phase.Flushing?)
  }

  lemma InitInv(c: Config)
    requires ValidConfig(c)
    ensures Inv(c, Init(c))
  {
    if c.startAt == 0 {
      assert c.first == 0 by { if c.first > 0 { MulMonotone(1, c.first, c.blockSize); } }
    }
  }

  lemma TurnInv(c: Config, s: State)
    requires Inv(c, s) && s.phase.Flushing? && s.pending != []
    ensures 0 < TurnSize(c, s) <= |s.pending|
    ensures TakeIn(c, s).pos == c.startAt + |TakeIn(c, s).got|
  {
  }

  lemma SkipInv(c: Config, s: State)
    requires Inv(c, s) && Enabled(c, s, Skip)
    ensures Inv(c, Apply(c, s, Skip))
  {
    BeforeBlock(s.pos, c.startAt, c.first, c.blockSize);
    TurnInv(c, s);
  }

  lemma EnqueueInv(c: Config, s: State)
    requires Inv(c, s) && Enabled(c, s, Enqueue)
    ensures Inv(c, Apply(c, s, Enqueue))
  {
    var saved, r, b := s.handed + s.queue, Received(c, s), Due(s.buf, s.pos, c.blockSize, s.phase.eof);
    InsideBlock(saved, s.buf, s.got, c.startAt, c.first, c.blockSize);
    DuePlaced(s.buf, s.pos, c.blockSize, s.phase.eof, c.first + |saved|);
    KeptSend(saved, s.buf, r, c.first, c.blockSize, b);
    assert s.handed + (s.queue + [b]) == saved + [b];
  }

  lemma AppendInv(c: Config, s: State)
    requires Inv(c, s) && Enabled(c, s, Append)
    ensures Inv(c, Apply(c, s, Append))
  {
    var saved, r, piece := s.handed + s.queue, Received(c, s), s.pending[..TurnSize(c, s)];
    TurnInv(c, s);
    SinceGrows(s.got, piece, c.startAt, c.first, c.blockSize);
    if s.buf == [] {
      SentPos(saved, s.got, c.startAt, c.first, c.blockSize);
      SentGrow(saved, r, c.first, c.blockSize, piece);
      assert s.buf + piece == piece;
    } else {
      InsideBlock(saved, s.buf, s.got, c.startAt, c.first, c.blockSize);
      KeptGrow(saved, s.buf, r, c.first, c.blockSize, piece);
    }
  }

  lemma FinishInv(c: Config, s: State)
    requires Inv(c, s) && Enabled(c, s, Finish)
    ensures Inv(c, Apply(c, s, Finish))
  {
    var saved, r := s.handed + s.queue, Received(c, s);
    if s.phase.eof && !s.skip {
      if s.buf == [] {
        KeptEmpty(saved, r, c.first, c.blockSize);
      } else {
        var b := Due(s.buf, s.pos, c.blockSize, true);
        InsideBlock(saved, s.buf, s.got, c.startAt, c.first, c.blockSize);
        DuePlaced(s.buf, s.pos, c.blockSize, true, c.first + |saved|);
        KeptFinish(saved, s.buf, r, c.first, c.blockSize, b);
        assert s.handed + (s.queue + [b]) == saved + [b];
      }
    }
  }

  lemma WriteInv(c: Config, s: State, ok: bool)
    requires Inv(c, s) && Enabled(c, s, Write(ok))
    ensures Inv(c, Apply(c, s, Write(ok)))
  {
    assert (s.handed + [s.queue[0]]) + s.queue[1..] == s.handed + s.queue;
  }

  lemma StepInv(c: Config, s: State, e: Event)
    requires Inv(c, s) && Enabled(c, s, e)
    ensures Inv(c, Apply(c, s, e))
  {
    match e
    case StartRead(_, _) =>
    case Skip => SkipInv(c, s);
    case Enqueue => EnqueueInv(c, s);
    case Append => AppendInv(c, s);
    case Finish => FinishInv(c, s);
    case Write(ok) => WriteInv(c, s, ok);
    case Close =>
    case OnClose =>
  }

  /** `s` is reached from the start by `events`, each of them possible in its turn. */
  ghost predicate Run(c: Config, events: seq<Event>, s: State)
    requires ValidConfig(c)
  {
    if events == [] then s == Init(c)
    else
      var n := |events| - 1;
      exists t: State :: Run(c, events[..n], t) && Enabled(c, t, events[n]) && |t.buf| <= t.pos &&
          s == Apply(c, t, events[n])
  }

  lemma {:induction false} RunInv(c: Config, events: seq<Event>, s: State)
    requires ValidConfig(c) && Run(c, events, s)
    ensures Inv(c, s)
  {
    if events == [] {
      InitInv(c);
    } else {
      var n := |events| - 1;
      var t: State :| Run(c, events[..n], t) && Enabled(c, t, events[n]) && |t.buf| <= t.pos &&
          s == Apply(c, t, events[n]);
      RunInv(c, events[..n], t);
      StepInv(c, t, events[n]);
    }
  }

  /** onClose runs at most once, after every call of onSuccess, and by then the callback was given
      every block cut, in order: all blocks of the body if it was read to its end, and all that
      were full otherwise. */
  lemma AllHandedBeforeClose(c: Config, events: seq<Event>, s: State)
    requires ValidConfig(c) && Run(c, events, s) && s.onCloses > 0
    ensures s.onCloses == 1 && s.queue == [] && !Enabled(c, s, Write(true)) && !Enabled(c, s, OnClose)
    ensures s.phase.Ended? ==> Complete(s.handed, Received(c, s), c.first, c.blockSize)
    ensures s.phase.Ended? ==> Bufs(s.handed) == Cut(Received(c, s), c.blockSize)
    ensures !s.phase.Ended? && !s.skip ==> Kept(s.handed, s.buf, Received(c, s), c.first, c.blockSize)
  {
    RunInv(c, events, s);
    assert s.handed + s.queue == s.handed;
    if s.phase.Ended? {
      if s.skip {
        assert Received(c, s) == [];
      }
      CompleteIsCut(s.handed, Received(c, s), c.first, c.blockSize);
    }
  }

  /** Bytes, number and position; the eof flag is set on the blocks written in the flush of the read that
      reported io.EOF, and so depends on how the body was split into reads. */
  predicate SameBlock(a: Block, b: Block) {
    a.buf == b.buf && a.index == b.index && a.pos == b.pos
  }

  /** Two savers that took in the same bytes saved the same blocks under the same numbers. */
  lemma SameBlocks(a: seq<Block>, b: seq<Block>, r: seq<byte>, first: nat, bs: nat)
    requires 0 < bs && Complete(a, r, first, bs) && Complete(b, r, first, bs)
    ensures |a| == |b| && forall j :: 0 <= j < |a| ==> SameBlock(a[j], b[j])
  {
    CompleteIsCut(a, r, first, bs);
    CompleteIsCut(b, r, first, bs);
    assert |Bufs(a)| == |Bufs(b)|;
    forall j | 0 <= j < |a| ensures SameBlock(a[j], b[j]) {
      assert Bufs(a)[j] == Bufs(b)[j];
      assert Placed(a[j], first + j, bs) && Placed(b[j], first + j, bs);
    }
  }

  lemma FirstBlockUnique(a: nat, b: nat, startAt: nat, bs: nat)
    requires FirstBlock(a, startAt, bs) && FirstBlock(b, startAt, bs)
    ensures a == b
  {
    if a < b {
      NextChunk(a, b, bs);
    } else if b < a {
      NextChunk(b, a, bs);
    }
  }

  /** An asynchronous saver that has ended and a synchronous one, whose bodies were the same bytes, have
      saved the same blocks under the same numbers, however the two bodies were split into reads. */
  lemma SameAsSync(c: Config, events: seq<Event>, s: State, p: SavepartReader)
    requires ValidConfig(c) && Run(c, events, s) && s.phase.Ended? && s.onCloses > 0
    requires p.Final() && p.blockSize == c.blockSize && p.startAt == c.startAt && p.got == s.got
    ensures |s.handed| == |p.saved|
    ensures forall j :: 0 <= j < |s.handed| ==> SameBlock(s.handed[j], p.saved[j])
  {
    AllHandedBeforeClose(c, events, s);
    FirstBlockUnique(c.first, p.first, c.startAt, c.blockSize);
    SameBlocks(s.handed, p.saved, Received(c, s), c.first, c.blockSize);
  }

  /** The blocking send never stops everything: a flush in progress or a close can go on, if only
      by a step of the writing goroutine. */
  lemma NoDeadlock(c: Config, events: seq<Event>, s: State)
    requires ValidConfig(c) && Run(c, events, s)
    requires s.phase.Flushing? || (s.closing && s.onCloses == 0)
    ensures exists e: Event :: !e.StartRead? && !e.Close? && Enabled(c, s, e)
  {
    RunInv(c, events, s);
    var e := if s.queue != [] then Write(true)
             else if s.closing then OnClose
             else if s.pending == [] then Finish
             else if s.skip then Skip
             else if |s.buf| == c.blockSize then Enqueue else Append;
    assert Enabled(c, s, e);
  }
}
