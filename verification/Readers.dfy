/** The stream combinators of pkg/iobuf (skip, limit, parts, range) over io.Readers whose reads
    return any number of bytes, with io.EOF arriving with the last bytes or after them. */
module Readers {
  import opened Streams

  /** The error a Read returns: nil, io.EOF or anything else. */
  datatype Outcome = More | Eof | Failed

  /** What a caller may rely on about an io.Reader. */
  datatype View = View(
    rest: Stream,       // what is left to be delivered
    work: nat,          // bounds the number of reads until an error is returned
    ended: bool,        // io.EOF was returned
    restartable: bool,  // reading again after io.EOF answers io.EOF again
    reliable: bool      // nothing below fails
  ) {
    predicate Readable() {
      && |rest.bytes| <= work
      && (ended ==> rest == Done && restartable)
      && (reliable ==> rest.complete)
    }
  }

  /** The contract of io.Reader.Read with a buffer of `cap` bytes: `out` is what comes next,
      io.EOF only when nothing is left, another error only from an unreliable reader, and
      progress towards one or the other. Every combinator below is proved to keep it. */
  predicate Reads(v: View, cap: nat, out: seq<byte>, err: Outcome, w: View) {
    && |out| <= cap
    && out <= v.rest.bytes
    && w.restartable == v.restartable && w.reliable == v.reliable
    && (out != [] || err != Failed ==> w.rest == Drop(v.rest, |out|) && |w.rest.bytes| <= w.work <= v.work)
    && (err == Eof ==> w.ended && w.rest == Done)
    && (err != Eof ==> (w.ended ==> v.ended))
    && (err == Failed ==> !v.reliable)
    && (err == More && cap > 0 ==> w.work < v.work)
  }

  /** How io.Copy takes a reader: it reads it to its end, or calls the reader's own WriteTo, which sends
      `sends` and then reports io.EOF. */
  datatype Copying = Loop | Own(sends: Stream)

  /** What is sent is a beginning of what is left, and only something below can break it off. */
  predicate Sendable(v: View, c: Copying) {
    c.Own? ==> c.sends.bytes <= v.rest.bytes && (v.reliable ==> c.sends.complete)
  }

  /** The contract of io.Copy from a reader, where `err` is what it returns. */
  predicate Copies(v: View, c: Copying, out: seq<byte>, err: Outcome) {
    && (err == Failed ==> !v.reliable)
    && match c
       case Loop => out <= v.rest.bytes && err != Eof && (err == More ==> Stream(out, true) == v.rest)
       case Own(s) => out <= s.bytes && err != More && (err == Eof ==> Stream(out, true) == s)
  }

  /** Any io.Reader at all: a read does whatever the contract allows. A chunk file, a response
      body, a pipe and every combinator below is one of these. */
  class IoReader {
    var view: View
    var copying: Copying

    constructor (v: View)
      requires v.Readable()
      ensures view == v && copying == Loop
    {
      view, copying := v, Loop;
    }

    /** A reader with a WriteTo of its own. */
    constructor Copied(v: View, c: Copying)
      requires v.Readable() && Sendable(v, c)
      ensures view == v && copying == c
    {
      view, copying := v, c;
    }

    method Read(cap: nat) returns (out: seq<byte>, err: Outcome)
      requires view.Readable()
      modifies this
      ensures Reads(old(view), cap, out, err, view)
      ensures err == More || (err == Eof && view.restartable) || (err == Failed && out != []) ==> view.Readable()
      ensures Sendable(view, copying)
    {
      var c: Copying := *;
      out, err := ReadOnce(cap);
      copying := if Sendable(view, c) then c else Loop;
    }

    method ReadOnce(cap: nat) returns (out: seq<byte>, err: Outcome)
      requires view.Readable()
      modifies this`view
      ensures Reads(old(view), cap, out, err, view)
      ensures err == More || (err == Eof && view.restartable) || (err == Failed && out != []) ==> view.Readable()
    {
      var n: nat, e: Outcome, w: View := *, *, *;
      if n <= |view.rest.bytes| && Reads(view, cap, view.rest.bytes[..n], e, w) {
        out, err, view := view.rest.bytes[..n], e, w;
      } else if view.rest == Done {
        out, err, view := [], Eof, view.(ended := true);
      } else if cap == 0 {
        out, err := [], More;
      } else if view.rest.bytes == [] {
        out, err := [], Failed;
      } else {
        out, err := view.rest.bytes[..1], More;
        view := view.(rest := Drop(view.rest, 1), work := view.work - 1);
      }
    }

    /** io.Copy(w, r): `out` is what was written. */
    method CopyTo() returns (out: seq<byte>, err: Outcome)
      requires view.Readable() && Sendable(view, copying)
      modifies this
      ensures Copies(old(view), old(copying), out, err)
    {
      if copying.Loop? {
        var ok;
        out, ok := ReadAll(this);
        return out, if ok then More else Failed;
      }
      var bad: bool, n: nat := *, *;
      var s := copying.sends;
      if s.complete && (view.reliable || !bad) {
        return s.bytes, Eof;
      }
      out, err := if n <= |s.bytes| then s.bytes[..n] else [], Failed;
    }

    /** io.CopyN(io.Discard, r, k): an error unless k bytes went by. */
    method Discard(k: nat) returns (n: nat, err: Outcome)
      requires view.Readable()
      requires view.restartable || k < |view.rest.bytes| || !view.rest.complete
      modifies this
      ensures n <= k && (err == More <==> n == k)
      ensures view.restartable == old(view).restartable && view.reliable == old(view).reliable
      ensures err == More ==> k <= |old(view).rest.bytes| && view.Readable() && view.rest == Drop(old(view).rest, k)
      ensures err == Eof ==> |old(view).rest.bytes| < k && old(view).rest.complete && view.ended && view.rest == Done
      ensures err == Failed ==> !view.reliable
      ensures err != Failed ==> view.work <= old(view).work && |view.rest.bytes| <= view.work
    {
      n := 0;
      err := More;
      while n < k
        invariant n <= k
        invariant view.restartable == old(view).restartable && view.reliable == old(view).reliable
        invariant n <= |old(view).rest.bytes| && view.Readable() && view.rest == Drop(old(view).rest, n)
        invariant view.work <= old(view).work
        invariant err == More
        decreases view.work
      {
        var cap :| 0 < cap <= k - n;
        ghost var before := view;
        var out, e := Read(cap);
        DropDrop(old(view).rest, n, |out|);
        n := n + |out|;
        if e != More {
          return n, if n == k then More else e;
        }
      }
    }
  }

  /** skipReadCloser */
  class SkipReader {
    const R: IoReader
    var skip: nat
    var ended: bool

    function AsReader(): View
      reads this, R
    {
      R.view.(rest := Drop(R.view.rest, skip), ended := ended)
    }

    ghost predicate Valid()
      reads this, R
    {
      && R.view.Readable()
      && (skip == 0 || R.view.restartable || skip < |R.view.rest.bytes| || !R.view.rest.complete)
      && AsReader().Readable()
    }

    constructor (r: IoReader, n: nat)
      requires r.view.Readable() && !r.view.ended
      requires r.view.restartable || n < |r.view.rest.bytes| || !r.view.rest.complete
      ensures Valid() && R == r
      ensures AsReader() == r.view.(rest := Drop(r.view.rest, n))
    {
      R, skip, ended := r, n, false;
    }

    method Read(cap: nat) returns (out: seq<byte>, err: Outcome)
      requires Valid()
      modifies this, R
      ensures Reads(old(AsReader()), cap, out, err, AsReader())
      ensures err == More || (err == Eof && AsReader().restartable) || (err == Failed && out != []) ==> Valid()
    {
      if skip > 0 {
        var n, e := R.Discard(skip);
        if e != More {
          skip := skip - n;
          ended := e == Eof;
          return [], e;
        }
        skip := 0;
      }
      assert Drop(R.view.rest, 0) == R.view.rest;
      out, err := R.Read(cap);
      assert Drop(R.view.rest, 0) == R.view.rest;
      ended := err == Eof;
    }
  }

  /** limitedReadCloser, that is, io.LimitedReader */
  class LimitReader {
    const R: IoReader
    var left: nat
    var ended: bool

    function AsReader(): View
      reads this, R
    {
      R.view.(rest := Take(R.view.rest, left), ended := ended)
    }

    ghost predicate Valid()
      reads this, R
    {
      R.view.Readable() && AsReader().Readable()
    }

    constructor (r: IoReader, max: nat)
      requires r.view.Readable() && !r.view.ended
      ensures Valid() && R == r
      ensures AsReader() == r.view.(rest := Take(r.view.rest, max))
    {
      R, left, ended := r, max, false;
    }

    method Read(cap: nat) returns (out: seq<byte>, err: Outcome)
      requires Valid()
      modifies this, R
      ensures Reads(old(AsReader()), cap, out, err, AsReader())
      ensures err == More || (err == Eof && AsReader().restartable) || (err == Failed && out != []) ==> Valid()
    {
      if left == 0 {
        ended := true;
        return [], Eof;
      }
      out, err := R.Read(if cap > left then left else cap);
      TakeDrop(old(R.view.rest), left, |out|);
      left := left - |out|;
      ended := err == Eof;
    }
  }

  /** partsReader; `parts` are the readers from its index on. */
  class PartsReader {
    const reliable: bool
    var parts: seq<IoReader>
    var ended: bool

    function AsReader(): View
      reads this, parts
    {
      View(Join(parts), Pending(parts), ended, true, reliable)
    }

    ghost predicate Ready(r: IoReader)
      reads r
    {
      r.view.Readable() && !r.view.ended && (reliable ==> r.view.reliable) && Sendable(r.view, r.copying)
    }

    ghost predicate Valid()
      reads this, parts
    {
      && (forall i, j :: 0 <= i < j < |parts| ==> parts[i] != parts[j])
      && (forall i :: 0 <= i < |parts| ==> Ready(parts[i]))
      && (ended ==> parts == [])
    }

    lemma ValidReadable()
      requires Valid()
      ensures AsReader().Readable()
    {
      JoinReadable(parts);
    }

    constructor (readers: seq<IoReader>)
      requires forall i :: 0 <= i < |readers| ==> readers[i].view.Readable() && !readers[i].view.ended
      requires forall i :: 0 <= i < |readers| ==> Sendable(readers[i].view, readers[i].copying)
      requires forall i, j :: 0 <= i < j < |readers| ==> readers[i] != readers[j]
      ensures Valid() && parts == readers && !ended
      ensures reliable <==> forall i :: 0 <= i < |readers| ==> readers[i].view.reliable
    {
      parts, ended := readers, false;
      reliable := forall i :: 0 <= i < |readers| ==> readers[i].view.reliable;
    }

    method Read(cap: nat) returns (out: seq<byte>, err: Outcome)
      requires Valid()
      modifies this, parts
      ensures Reads(old(AsReader()), cap, out, err, AsReader())
      ensures err != Failed || out != [] ==> Valid()
    {
      if parts == [] {
        ended := true;
        return [], Eof;
      }
      out, err := ReadHead(cap);
      if err == Eof {
        parts := parts[1..];
        if parts != [] {
          err := More;
        }
      }
      ended := err == Eof;
    }

    /** One read of the current part, which may end it. */
    method ReadHead(cap: nat) returns (out: seq<byte>, err: Outcome)
      requires Valid() && parts != []
      modifies parts[0]
      ensures forall i :: 0 < i < |parts| ==> Ready(parts[i])
      ensures err == More || (err == Failed && out != []) ==> Ready(parts[0])
      ensures err != Eof ==> Reads(old(AsReader()), cap, out, err, AsReader())
      ensures err == Eof ==> ReadsTo(old(AsReader()), cap, out, parts[1..])
    {
      var p, more := parts[0], parts[1..];
      ghost var v, tail, todo := p.view, Join(more), Pending(more);
      JoinReadable(more);
      out, err := p.Read(cap);
      assert Join(more) == tail && Pending(more) == todo;
      PartReads(v, cap, out, err, p.view, tail, todo, reliable);
    }

    /** How io.Copy takes a parts reader: by its WriteTo, unless no part is left. */
    function AsCopied(): Copying
      reads this, parts
    {
      if parts == [] then Loop else Own(Sends(parts))
    }

    /** WriteTo, which the server uses to send a body: io.Copy of the parts one after the other, up to
        the first whose copy reports io.EOF. */
    method WriteTo() returns (out: seq<byte>, err: Outcome)
      requires Valid()
      modifies this, parts
      ensures Copies(old(AsReader()), old(AsCopied()), out, err)
      ensures err == More <==> old(parts) == []
    {
      ghost var all := Sends(parts);
      out, err := [], More;
      while parts != []
        invariant Valid() && Sent(all, out, Sends(parts))
        invariant if |parts| == |old(parts)| then err == More && out == [] else err == Eof
        invariant |parts| <= |old(parts)| && forall r :: r in parts ==> r in old(parts)
        decreases |parts|
      {
        ghost var before := Sends(parts);
        assert parts[0] in parts;
        var piece;
        piece, err := CopyHead();
        SentMore(all, out, before, piece);
        out := out + piece;
        if err != More {
          return;
        }
        err := Eof;
      }
    }

    /** io.Copy of the current part, which is then done with. */
    method CopyHead() returns (piece: seq<byte>, err: Outcome)
      requires Valid() && parts != []
      modifies this`parts, parts[0]
      ensures Valid() && parts == old(parts)[1..]
      ensures err == More ==> Sends(parts) == Drop(old(Sends(parts)), |piece|)
      ensures err == Eof ==> Stream(piece, true) == old(Sends(parts))
      ensures piece <= old(Sends(parts)).bytes && (err == Failed ==> !reliable)
    {
      var p, more := parts[0], parts[1..];
      ghost var rest, tail := p.view.rest, Sends(more);
      piece, err := p.CopyTo();
      assert Sends(more) == tail;
      if err == More {
        ConcatDrop(rest, tail, |piece|);
      }
      parts := more;
    }

    /** Delivering `out` leaves the readers `rs`. */
    ghost predicate ReadsTo(v: View, cap: nat, out: seq<byte>, rs: seq<IoReader>)
      reads rs
    {
      && Reads(v, cap, out, More, View(Join(rs), Pending(rs), false, true, reliable))
      && (rs == [] ==> Reads(v, cap, out, Eof, View(Done, 0, true, true, reliable)))
    }
  }

  /** A read of the current part, seen as a read of all the parts from it on. */
  lemma PartReads(v: View, cap: nat, out: seq<byte>, err: Outcome, w: View, tail: Stream, todo: nat, reliable: bool)
    requires Reads(v, cap, out, err, w) && |tail.bytes| <= todo && (reliable ==> v.reliable)
    ensures var all := View(Concat(v.rest, tail), 1 + v.work + todo, false, true, reliable);
            if err == Eof then
              && Reads(all, cap, out, More, View(tail, todo, false, true, reliable))
              && (tail == Done ==> Reads(all, cap, out, Eof, View(tail, todo, true, true, reliable)))
            else
              Reads(all, cap, out, err, View(Concat(w.rest, tail), 1 + w.work + todo, false, true, reliable))
  {
    ConcatDrop(v.rest, tail, |out|);
  }

  /** The given readers, one after the other. */
  function Join(rs: seq<IoReader>): Stream
    reads rs
  {
    if rs == [] then Done else Concat(rs[0].view.rest, Join(rs[1..]))
  }

  /** What WriteTo sends of them: nothing behind one that has a WriteTo of its own, which is a parts
      reader, because that reports io.EOF. */
  function Sends(rs: seq<IoReader>): Stream
    reads rs
  {
    if rs == [] then Done
    else
      match rs[0].copying
      case Loop => Concat(rs[0].view.rest, Sends(rs[1..]))
      case Own(s) => s
  }

  /** That is a beginning of what they hold. */
  lemma {:induction false} SendsBeginning(rs: seq<IoReader>)
    requires forall i :: 0 <= i < |rs| ==> rs[i].view.Readable() && Sendable(rs[i].view, rs[i].copying)
    ensures Sends(rs).bytes <= Join(rs).bytes
    ensures (forall i :: 0 <= i < |rs| ==> rs[i].view.reliable) ==> Sends(rs).complete
  {
    if rs != [] {
      SendsBeginning(rs[1..]);
    }
  }

  /** A reader that, when it is copied, sends all it holds. */
  ghost predicate Uncut(r: IoReader)
    reads r
  {
    r.view.rest.complete && (r.copying.Own? ==> r.copying.sends == r.view.rest)
  }

  /** No parts reader stands before a part that has bytes. */
  ghost predicate NothingBehind(rs: seq<IoReader>)
    reads rs
  {
    forall i, j :: 0 <= i < j < |rs| && rs[i].copying.Own? ==> rs[j].view.rest.bytes == []
  }

  lemma {:induction false} JoinEmpty(rs: seq<IoReader>)
    requires forall i :: 0 <= i < |rs| ==> rs[i].view.rest.complete
    ensures Join(rs).complete && (Join(rs).bytes == [] <==> forall i :: 0 <= i < |rs| ==> rs[i].view.rest.bytes == [])
  {
    if rs != [] {
      JoinEmpty(rs[1..]);
      assert forall i :: 0 < i < |rs| ==> rs[i] == rs[1..][i - 1];
    }
  }

  /** WriteTo sends everything exactly if nothing stands behind a parts reader. */
  lemma {:induction false} SendsAllIff(rs: seq<IoReader>)
    requires forall i :: 0 <= i < |rs| ==> Uncut(rs[i])
    ensures Sends(rs) == Join(rs) <==> NothingBehind(rs)
  {
    if rs != [] {
      var more := rs[1..];
      SendsAllIff(more);
      JoinEmpty(more);
      assert forall i :: 0 < i < |rs| ==> rs[i] == more[i - 1];
      assert forall i :: 0 <= i < |more| ==> more[i] == rs[i + 1];
      if rs[0].copying.Loop? {
        SameBehind(rs[0].view.rest, Sends(more), Join(more));
        assert NothingBehind(rs) <==> NothingBehind(more);
      } else {
        assert NothingBehind(rs) <==> forall j :: 0 < j < |rs| ==> rs[j].view.rest.bytes == [];
      }
    }
  }

  lemma SameBehind(a: Stream, b: Stream, c: Stream)
    requires a.complete
    ensures Concat(a, b) == Concat(a, c) <==> b == c
  {
    assert (a.bytes + b.bytes)[|a.bytes|..] == b.bytes && (a.bytes + c.bytes)[|a.bytes|..] == c.bytes;
  }

  function Pending(rs: seq<IoReader>): nat
    reads rs
  {
    if rs == [] then 0 else 1 + rs[0].view.work + Pending(rs[1..])
  }

  lemma {:induction false} JoinReadable(rs: seq<IoReader>)
    requires forall i :: 0 <= i < |rs| ==> rs[i].view.Readable()
    ensures |Join(rs).bytes| <= Pending(rs)
    ensures (forall i :: 0 <= i < |rs| ==> rs[i].view.reliable) ==> Join(rs).complete
  {
    if rs != [] {
      JoinReadable(rs[1..]);
    }
  }

  /** The bytes rawStart..rawEnd of a stream that begins at position `at`. */
  function Window(s: Stream, at: int, rawStart: int, rawEnd: int): Stream
    requires at <= rawEnd && rawStart <= rawEnd
  {
    if at < rawStart then Take(Drop(s, rawStart - at), rawEnd - rawStart + 1)
    else Take(s, rawEnd - at + 1)
  }

  /** rangeReader. Its source answers io.EOF again when read again, as pipes and response bodies
      do; the range reader itself must not be read again after io.EOF. */
  class RangeReader {
    const R: IoReader
    const newEnd: int
    const rawStart: int
    const rawEnd: int
    var offset: int
    var ended: bool

    function AsReader(): View
      reads this, R
    {
      var rest := if !ended && offset <= rawEnd && rawStart <= rawEnd
                  then Window(R.view.rest, offset, rawStart, rawEnd) else Done;
      R.view.(rest := rest, work := if ended then 0 else R.view.work, ended := ended, restartable := false)
    }

    ghost predicate Valid()
      reads this, R
    {
      !ended && R.view.Readable() && R.view.restartable && offset <= rawEnd && rawStart <= rawEnd
    }

    constructor (r: IoReader, newStart: int, newEnd: int, rawStart: int, rawEnd: int)
      requires r.view.Readable() && !r.view.ended && r.view.restartable
      requires newStart <= rawEnd && rawStart <= rawEnd
      ensures Valid() && AsReader().Readable() && R == r && offset == newStart
      ensures this.newEnd == newEnd && this.rawStart == rawStart && this.rawEnd == rawEnd
      ensures AsReader().rest == Window(r.view.rest, newStart, rawStart, rawEnd)
    {
      R, offset, ended := r, newStart, false;
      this.newEnd, this.rawStart, this.rawEnd := newEnd, rawStart, rawEnd;
    }

    /** A source that stood at `at` with `s` to come has been read through newEnd, or to its end. */
    ghost predicate Drained(s: Stream, at: int)
      reads R
    {
      R.view.rest.bytes == [] || |s.bytes| - |R.view.rest.bytes| >= newEnd - at + 1
    }

    method Read(cap: nat) returns (out: seq<byte>, err: Outcome)
      requires Valid()
      modifies this, R
      ensures Reads(old(AsReader()), cap, out, err, AsReader())
      ensures err == More || (err == Failed && out != []) ==> Valid()
      ensures err == More ==> offset - old(offset) == |old(R.view.rest.bytes)| - |R.view.rest.bytes|
      ensures err == Eof && 0 <= rawEnd <= newEnd && R.view.reliable ==> Drained(old(R.view.rest), old(offset))
    {
      // Skip to the start of the requested range.
      if offset < rawStart {
        var skipN, e := R.Discard(rawStart - offset);
        if e != More {
          ended := e == Eof;
          return [], e;
        }
        offset := offset + skipN;
      }
      out, err := ReadWindow(cap);
    }

    /** What rangeReader.Read does once it stands inside the requested range. */
    method ReadWindow(cap: nat) returns (out: seq<byte>, err: Outcome)
      requires Valid() && rawStart <= offset
      modifies this, R
      ensures Reads(old(AsReader()), cap, out, err, AsReader())
      ensures err == More || (err == Failed && out != []) ==> Valid()
      ensures err == More ==> offset - old(offset) == |old(R.view.rest.bytes)| - |R.view.rest.bytes|
      ensures err == Eof && 0 <= rawEnd <= newEnd && R.view.reliable ==> Drained(old(R.view.rest), old(offset))
    {
      ghost var before := R.view.rest;
      out, err := R.Read(cap);
      var n, cur := |out|, offset + |out|;
      TakeDrop(before, rawEnd - offset + 1, if cur > rawEnd then rawEnd - offset + 1 else n);
      if cur > rawEnd {
        // Trim, and drain the source up to newEnd.
        var remaining := rawEnd - offset + 1;
        var discardSize := if newEnd < newEnd - cur + 1 then newEnd else newEnd - cur + 1;
        if discardSize > 0 {
          var skipN, _ := R.Discard(discardSize);
          offset := offset + skipN;
        } else {
          n := n + discardSize;
        }
        offset := offset + n;
        ended := true;
        return out[..remaining], Eof;
      }
      offset := offset + n;
      ended := err == Eof;
    }

    /** Reading to the first error: exactly the window, and the source is drained behind it. */
    method ReadAll() returns (out: seq<byte>, ok: bool)
      requires Valid() && AsReader().Readable()
      modifies this, R
      ensures ok ==> Stream(out, true) == old(AsReader()).rest
      ensures !ok ==> out <= old(AsReader()).rest.bytes && !R.view.reliable
      ensures ok && 0 <= rawEnd <= newEnd && R.view.reliable ==> Drained(old(R.view.rest), old(offset))
    {
      ghost var all := AsReader().rest;
      out := [];
      while true
        invariant Valid() && R.view.reliable == old(R.view.reliable)
        invariant Sent(all, out, AsReader().rest)
        invariant offset - old(offset) == |old(R.view.rest.bytes)| - |R.view.rest.bytes|
        decreases R.view.work
      {
        var cap :| 0 < cap;
        ghost var before := AsReader().rest;
        var piece, err := Read(cap);
        SentMore(all, out, before, piece);
        out := out + piece;
        if err != More {
          return out, err == Eof;
        }
      }
    }
  }

  /** A client that copies a reader to its end, with any sizes of reads: all the bytes, or an
      error that only an unreliable reader gives. */
  method ReadAll(r: IoReader) returns (out: seq<byte>, ok: bool)
    requires r.view.Readable()
    modifies r
    ensures ok ==> Stream(out, true) == old(r.view.rest)
    ensures !ok ==> out <= old(r.view.rest.bytes) && !r.view.reliable
    ensures r.view.reliable == old(r.view.reliable)
  {
    ghost var all := r.view.rest;
    out := [];
    while true
      invariant r.view.Readable() && r.view.reliable == old(r.view.reliable)
      invariant Sent(all, out, r.view.rest)
      decreases r.view.work
    {
      var cap :| 0 < cap;
      ghost var before := r.view.rest;
      var piece, err := r.Read(cap);
      SentMore(all, out, before, piece);
      out := out + piece;
      if err != More {
        return out, err == Eof;
      }
    }
  }
}
