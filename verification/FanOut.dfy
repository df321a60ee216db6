/** The common last part of both flights: io.Copy of one response body through io.MultiWriter
    into the pipes of a snapshot, and the loop that closes them. A pipe's writer is blocked until
    its reader takes the bytes or hangs up; readers take any number of bytes at a time. */
module FanOut {
  import opened Streams

  datatype Ending = Unclosed | ClosedEof | ClosedError

  /** One io.Pipe: the bytes its reader got, how its writer closed it, if the reader closed it. */
  datatype Pipe = Pipe(got: seq<byte>, ending: Ending, hungUp: bool)

  const Fresh := Pipe([], Unclosed, false)

  /** io.Copy has read `taken + chunk` bytes and is writing the last `chunk` of them: pipes before
      w have all of them, pipe w the first `off`. Then the pipes are closed one by one. */
  datatype Copy =
    | Copying(taken: nat, chunk: nat, w: nat, off: nat)
    | Closing(failed: bool, next: nat)

  datatype Event =
    | Read(n: nat)      // resp.Body.Read gave n bytes
    | Deliver(n: nat)   // the reader of pipe w took n bytes
    | Break             // the write to pipe w failed: its reader hung up
    | BodyEnds          // resp.Body gave io.EOF or an error
    | CloseNext         // one turn of the closing loop

  function Start(snap: nat): Copy {
    Copying(0, 0, snap, 0)
  }

  predicate Ended(snap: nat, copy: Copy) {
    copy.Closing? && copy.next == snap
  }

  predicate Enabled(pipes: seq<Pipe>, body: Stream, snap: nat, copy: Copy, e: Event) {
    match e
    case Read(n) => copy.Copying? && copy.w == snap && 0 < n && copy.taken + copy.chunk + n <= |body.bytes|
    case Deliver(n) =>
      && copy.Copying? && copy.w < snap && copy.w < |pipes| && !pipes[copy.w].hungUp
      && 0 < n && copy.off + n <= copy.chunk && copy.taken + copy.chunk <= |body.bytes|
    case Break => copy.Copying? && copy.w < snap && copy.w < |pipes| && pipes[copy.w].hungUp
    case BodyEnds => copy.Copying? && copy.w == snap && copy.taken + copy.chunk == |body.bytes|
    case CloseNext => copy.Closing? && copy.next < snap && copy.next < |pipes|
  }

  /** Only the first close of a pipe counts. */
  function Close(p: Pipe, failed: bool): Pipe {
    if p.ending.Unclosed? then p.(ending := if failed then ClosedError else ClosedEof) else p
  }

  function Apply(pipes: seq<Pipe>, body: Stream, snap: nat, copy: Copy, e: Event): (seq<Pipe>, Copy)
    requires Enabled(pipes, body, snap, copy, e)
  {
    match e
    case Read(n) => (pipes, Copying(copy.taken + copy.chunk, n, 0, 0))
    case Deliver(n) =>
      var from, p := copy.taken + copy.off, pipes[copy.w];
      (pipes[copy.w := p.(got := p.got + body.bytes[from..from + n])],
       if copy.off + n < copy.chunk then copy.(off := copy.off + n) else copy.(w := copy.w + 1, off := 0))
    case Break => (pipes, Closing(true, 0))
    case BodyEnds => (pipes, Closing(!body.complete, 0))
    case CloseNext => (pipes[copy.next := Close(pipes[copy.next], copy.failed)], copy.(next := copy.next + 1))
  }

  /** How many bytes pipe k has. */
  function Progress(copy: Copy, k: nat): nat
    requires copy.Copying?
  {
    copy.taken + if k < copy.w then copy.chunk else if k == copy.w then copy.off else 0
  }

  /** Why a copy fails: the body broke off or was never there, or some reader hung up. */
  ghost predicate Excused(pipes: seq<Pipe>, body: Stream) {
    !body.complete || exists k :: 0 <= k < |pipes| && pipes[k].hungUp
  }

  ghost predicate Copied(p: Pipe, body: Stream, n: nat) {
    n <= |body.bytes| && p.got == body.bytes[..n] && p.ending.Unclosed?
  }

  ghost predicate Ends(p: Pipe, body: Stream, failed: bool, closed: bool) {
    && p.got <= body.bytes && (!failed ==> p.got == body.bytes)
    && (closed ==> p.ending == if failed then ClosedError else ClosedEof)
    && (!closed ==> p.ending.Unclosed? || (failed && p.ending.ClosedError?))
  }

  ghost predicate Inv(pipes: seq<Pipe>, body: Stream, snap: nat, copy: Copy) {
    && snap == |pipes|
    && (copy.Copying? ==>
        && copy.w <= snap && copy.taken + copy.chunk <= |body.bytes|
        && (if copy.w < snap then copy.off < copy.chunk else copy.off == 0)
        && forall k :: 0 <= k < |pipes| ==> Copied(pipes[k], body, Progress(copy, k)))
    && (copy.Closing? ==>
        && copy.next <= snap && (if copy.failed then Excused(pipes, body) else body.complete)
        && forall k :: 0 <= k < |pipes| ==> Ends(pipes[k], body, copy.failed, k < copy.next))
  }

  lemma StartInv(pipes: seq<Pipe>, body: Stream)
    requires forall k :: 0 <= k < |pipes| ==> pipes[k].got == [] && pipes[k].ending.Unclosed?
    ensures Inv(pipes, body, |pipes|, Start(|pipes|))
    ensures !body.complete ==> Inv(pipes, body, |pipes|, Closing(true, 0))
  {
  }

  lemma DeliverInv(pipes: seq<Pipe>, body: Stream, snap: nat, copy: Copy, n: nat)
    requires Inv(pipes, body, snap, copy) && Enabled(pipes, body, snap, copy, Deliver(n))
    ensures var r := Apply(pipes, body, snap, copy, Deliver(n)); Inv(r.0, body, snap, r.1)
  {
    var p, from := pipes[copy.w], copy.taken + copy.off;
    assert Copied(p, body, from);
    assert body.bytes[..from] + body.bytes[from..from + n] == body.bytes[..from + n];
    var r := Apply(pipes, body, snap, copy, Deliver(n));
    forall k | 0 <= k < |r.0| ensures Copied(r.0[k], body, Progress(r.1, k)) {
      assert Copied(pipes[k], body, Progress(copy, k));
    }
  }

  lemma StepInv(pipes: seq<Pipe>, body: Stream, snap: nat, copy: Copy, e: Event)
    requires Inv(pipes, body, snap, copy) && Enabled(pipes, body, snap, copy, e)
    ensures var r := Apply(pipes, body, snap, copy, e); Inv(r.0, body, snap, r.1)
  {
    match e
    case Deliver(n) => DeliverInv(pipes, body, snap, copy, n);
    case Read(n) =>
      assert forall k :: 0 <= k < |pipes| ==> Copied(pipes[k], body, Progress(copy, k));
    case Break =>
      assert pipes[copy.w].hungUp;
      forall k | 0 <= k < |pipes| ensures Ends(pipes[k], body, true, false) {
        assert Copied(pipes[k], body, Progress(copy, k));
      }
    case BodyEnds =>
      forall k | 0 <= k < |pipes| ensures Ends(pipes[k], body, !body.complete, false) {
        assert Copied(pipes[k], body, Progress(copy, k));
        assert body.bytes[..|body.bytes|] == body.bytes;
      }
    case CloseNext =>
      CloseInv(pipes, body, snap, copy);
  }

  lemma CloseInv(pipes: seq<Pipe>, body: Stream, snap: nat, copy: Copy)
    requires Inv(pipes, body, snap, copy) && Enabled(pipes, body, snap, copy, CloseNext)
    ensures var r := Apply(pipes, body, snap, copy, CloseNext); Inv(r.0, body, snap, r.1)
  {
    var r := Apply(pipes, body, snap, copy, CloseNext);
    forall k | 0 <= k < |r.0| ensures Ends(r.0[k], body, copy.failed, k < r.1.next) {
      assert Ends(pipes[k], body, copy.failed, k < copy.next);
    }
    if copy.failed && body.complete {
      var k :| 0 <= k < |pipes| && pipes[k].hungUp;
      assert r.0[k].hungUp;
    }
  }

  /** A reader may hang up at any time, and a waiter that was told of an error closes its own
      pipe with it. */
  lemma PipeInv(pipes: seq<Pipe>, body: Stream, snap: nat, copy: Copy, k: nat, p: Pipe)
    requires Inv(pipes, body, snap, copy) && k < |pipes| && p.got == pipes[k].got && (pipes[k].hungUp ==> p.hungUp)
    requires p.ending == pipes[k].ending || (copy.Closing? && copy.failed && p.ending.ClosedError?)
    ensures Inv(pipes[k := p], body, snap, copy)
  {
    var r := pipes[k := p];
    if copy.Copying? {
      forall j | 0 <= j < |r| ensures Copied(r[j], body, Progress(copy, j)) {
        assert Copied(pipes[j], body, Progress(copy, j));
      }
    } else {
      forall j | 0 <= j < |r| ensures Ends(r[j], body, copy.failed, j < copy.next) {
        assert Ends(pipes[j], body, copy.failed, j < copy.next);
      }
      if copy.failed && body.complete {
        var j :| 0 <= j < |pipes| && pipes[j].hungUp;
        assert r[j].hungUp;
      }
    }
  }

  /** What every reader of a snapshot can rely on at every moment. */
  lemma PipeRight(pipes: seq<Pipe>, body: Stream, snap: nat, copy: Copy, k: nat)
    requires Inv(pipes, body, snap, copy) && k < |pipes|
    ensures pipes[k].got <= body.bytes
    ensures pipes[k].ending.ClosedEof? ==> body.complete && pipes[k].got == body.bytes
    ensures Ended(snap, copy) ==> !pipes[k].ending.Unclosed?
    ensures Ended(snap, copy) && !Excused(pipes, body) ==> pipes[k].ending.ClosedEof?
    ensures Ended(snap, copy) && copy.failed ==> pipes[k].ending.ClosedError?
  {
    if copy.Copying? {
      assert Copied(pipes[k], body, Progress(copy, k));
    } else {
      assert Ends(pipes[k], body, copy.failed, k < copy.next);
    }
  }

  /** The copying goroutine is never stuck on anything but a reader that does not read. */
  lemma CanStep(pipes: seq<Pipe>, body: Stream, snap: nat, copy: Copy) returns (e: Event)
    requires Inv(pipes, body, snap, copy) && !Ended(snap, copy)
    ensures Enabled(pipes, body, snap, copy, e) && (e.Deliver? ==> !pipes[copy.w].hungUp)
  {
    match copy
    case Closing(_, _) => e := CloseNext;
    case Copying(taken, chunk, w, off) =>
      e := if w < snap then (if pipes[w].hungUp then Break else Deliver(1))
           else if taken + chunk == |body.bytes| then BodyEnds else Read(1);
  }
}
