/** The range filling processor of server/middleware/caching/caching_fillrange.go: a range request
    to the origin is widened to chunk boundaries and its response trimmed back. */
module FillRange {
  import opened Streams
  import opened Arith
  import opened Readers
  import opened Assembly
  import opened AssemblyProof

  /** The request sent to the origin (new) and the one asked for (raw). */
  datatype Context = Context(newStart: int, newEnd: int, rawStart: int, rawEnd: int, flag: bool)

  const TWO63 := 0x8000_0000_0000_0000

  /** Inputs on which Go's 64-bit arithmetic in fill does not wrap. */
  ghost predicate InRange(start: nat, end: nat, cs: nat) {
    0 < cs && cs * 100 < TWO63 && start <= end && end + cs < TWO63
  }

  /** parseFillPercent: the header value, if it is there; an error or one outside 1..100 gives 0. */
  datatype Percent = Unset | BadNumber | Value(p: nat)

  function ParseFillPercent(h: Percent, def: nat): nat {
    match h
    case Unset => def
    case BadNumber => 0
    case Value(p) => if p == 0 || p > 100 then 0 else p
  }

  lemma PercentBounded(h: Percent, def: nat)
    ensures ParseFillPercent(h, def) <= 100 <==> !h.Unset? || def <= 100
    ensures h.Value? && 1 <= h.p <= 100 ==> ParseFillPercent(h, def) == h.p
  {
  }

  /** The largest number of bytes added on one side. */
  function MaxFill(cs: nat, fp: nat): nat {
    cs * fp / 100
  }

  function MinFill(cs: nat, fp: nat): nat
    requires fp <= 100
  {
    cs * (100 - fp) / 100
  }

  /** Bytes start..end widened to down..up, where a side that would add more than `max` is left,
      and all is left when both sides together add too much or the range is too short. */
  function Widened(start: nat, end: nat, down: int, up: int, max: nat, min: nat, cs: nat): Context {
    var ns := if start - down > max then start else down;
    var ne := if up - end > max then end else up;
    var whole := (ne - ns <= cs && start - ns + ne - end > max) || end - start + 1 < min;
    var newStart, newEnd := if whole then start else ns, if whole then end else ne;
    Context(newStart, newEnd, start, end, newStart != start || newEnd != end)
  }

  /** What fill makes of bytes start..end. */
  function Filled(start: nat, end: nat, cs: nat, fp: nat): Context
    requires 0 < cs && fp <= 100
  {
    Widened(start, end, start / cs * cs, (end / cs + 1) * cs - 1, MaxFill(cs, fp), MinFill(cs, fp), cs)
  }

  lemma RoundDown(start: nat, cs: nat)
    requires 0 < cs
    ensures var down := start / cs * cs; 0 <= down <= start < down + cs && (down == 0 || cs <= down)
  {
    var q: nat := start / cs;
    if q > 0 {
      MulMonotone(1, q, cs);
    }
  }

  lemma RoundUp(end: nat, cs: nat)
    requires 0 < cs
    ensures end <= (end / cs + 1) * cs - 1 < end + cs
  {
    var q: nat := end / cs;
    assert (q + 1) * cs == q * cs + cs;
  }

  lemma Rounding(start: nat, end: nat, cs: nat)
    requires 0 < cs
    ensures var down, up := start / cs * cs, (end / cs + 1) * cs - 1;
            0 <= down <= start < down + cs && end <= up < end + cs && (down == 0 || cs <= down)
  {
    RoundDown(start, cs);
    RoundUp(end, cs);
  }

  lemma PercentOf(cs: nat, fp: nat)
    requires fp <= 100
    ensures MaxFill(cs, fp) <= cs
  {
    MulMonotone(fp, 100, cs);
  }

  /** Filling only widens, by at most MaxFill on each side. The widened end lies no further behind
      the asked one than the new start from zero, unless the fill begins at byte 0. */
  lemma FilledWidens(start: nat, end: nat, cs: nat, fp: nat)
    requires 0 < cs && fp <= 100 && start <= end
    ensures var f, max := Filled(start, end, cs, fp), MaxFill(cs, fp);
            && 0 <= f.newStart <= f.rawStart == start <= end == f.rawEnd <= f.newEnd
            && f.rawStart - f.newStart <= max && f.newEnd - f.rawEnd <= max
            && (f.newStart == 0 || f.newEnd - end <= f.newStart)
  {
    Rounding(start, end, cs);
    PercentOf(cs, fp);
    WidenedWidens(start, end, start / cs * cs, (end / cs + 1) * cs - 1, MaxFill(cs, fp), MinFill(cs, fp), cs);
  }

  /** A header that gives no percentage from 1 to 100 switches filling off. */
  lemma BadPercentOff(start: nat, end: nat, cs: nat, h: Percent, def: nat)
    requires 0 < cs && start <= end && (h.BadNumber? || (h.Value? && (h.p == 0 || h.p > 100)))
    ensures var fp := ParseFillPercent(h, def);
            fp <= 100 && Filled(start, end, cs, fp) == Context(start, end, start, end, false)
  {
    FilledWidens(start, end, cs, 0);
  }

  /** The rule, without rounding, for a range that lies l and r bytes inside its chunk boundaries, where
      a and b are fp and 100 - fp percent of cs, times 100. A side is filled if that adds at most fp
      percent; nothing is filled when both sides together add more than that inside one chunk, or when
      the range and one byte more are at most 100 - fp percent of a chunk. */
  predicate Ruled(f: Context, start: nat, end: nat, l: int, r: int, cs: nat, a: nat, b: nat) {
    var left, right := if 100 * l <= a then l else 0, if 100 * r <= a then r else 0;
    var none := (end - start + left + right <= cs && 100 * (left + right) > a) || 100 * (end - start + 2) <= b;
    && f.rawStart == start && f.rawEnd == end
    && f.newStart == (if none then start else start - left)
    && f.newEnd == (if none then end else end + right)
    && (f.flag <==> f.newStart != start || f.newEnd != end)
  }

  lemma FillRule(start: nat, end: nat, cs: nat, fp: nat)
    requires 0 < cs && fp <= 100 && start <= end
    ensures Ruled(Filled(start, end, cs, fp), start, end, start % cs, cs - 1 - end % cs, cs, cs * fp, cs * (100 - fp))
  {
    Sides(start, end, cs);
    WidenedRule(start, end, start / cs * cs, (end / cs + 1) * cs - 1, cs, cs * fp, cs * (100 - fp));
  }

  lemma Sides(start: nat, end: nat, cs: nat)
    requires 0 < cs
    ensures 0 <= start - start / cs * cs == start % cs && 0 <= (end / cs + 1) * cs - 1 - end == cs - 1 - end % cs
  {
    assert (end / cs + 1) * cs == end / cs * cs + cs;
  }

  lemma WidenedRule(start: nat, end: nat, down: int, up: int, cs: nat, a: nat, b: nat)
    requires down <= start <= end <= up
    ensures Ruled(Widened(start, end, down, up, a / 100, b / 100, cs), start, end, start - down, up - end, cs, a, b)
  {
    var l, r := start - down, up - end;
    AtMostPercent(l, a);
    AtMostPercent(r, a);
    AtMostPercent((if 100 * l <= a then l else 0) + (if 100 * r <= a then r else 0), a);
    AtMostPercent(end - start + 2, b);
  }

  lemma AtMostPercent(x: nat, y: nat)
    ensures x <= y / 100 <==> 100 * x <= y
  {
  }

  /** At 50 percent of chunks of four bytes, bytes 5 to 9 are filled at both sides, bytes 7 to 9 only at the
      end, and byte 4 not at all. */
  lemma HalfFilled()
    ensures Filled(5, 9, 4, 50) == Context(4, 11, 5, 9, true)
    ensures Filled(7, 9, 4, 50) == Context(7, 11, 7, 9, true)
    ensures Filled(4, 4, 4, 50) == Context(4, 4, 4, 4, false)
  {
  }

  lemma WidenedWidens(start: nat, end: nat, down: nat, up: nat, max: nat, min: nat, cs: nat)
    requires start <= end && down <= start < down + cs && end <= up < end + cs && (down == 0 || cs <= down) && max <= cs
    ensures var f := Widened(start, end, down, up, max, min, cs);
            && 0 <= f.newStart <= f.rawStart == start <= end == f.rawEnd <= f.newEnd
            && f.rawStart - f.newStart <= max && f.newEnd - f.rawEnd <= max
            && (f.newStart == 0 || f.newEnd - end <= f.newStart)
  {
  }

  /** The context behind the clamp of PostRequest. */
  function Clamped(f: Context, size: nat): Context {
    var newEnd := if f.newEnd - f.newStart > size then f.newStart + size - 1 else f.newEnd;
    f.(newEnd := newEnd, rawEnd := if f.rawEnd > newEnd then newEnd else f.rawEnd)
  }

  /** When the size was known, the clamp never touches the asked range, and moves the end of the
      fill only for a fill that begins at 0, then to the last byte. */
  lemma ClampHarmless(start: nat, end: nat, cs: nat, fp: nat, size: nat)
    requires 0 < cs && fp <= 100 && start <= end < size
    ensures var f := Filled(start, end, cs, fp);
            var g := Clamped(f, size);
            && g.rawStart == start && g.rawEnd == end && g.newStart == f.newStart
            && (g.newEnd == f.newEnd || (f.newStart == 0 && g.newEnd == size - 1))
  {
    FilledWidens(start, end, cs, fp);
  }

  /** The body of the answer to "bytes=a-b". */
  function Answer(obj: seq<byte>, a: int, b: int): Stream {
    if 0 <= a < |obj| && a <= b then Stream(obj[a..Min(b + 1, |obj|)], true) else Stream([], false)
  }

  datatype Response = Response(status: nat, body: IoReader, first: int, last: int, size: nat, length: int)

  /** fillRangeContext */
  class FillRangeContext {
    var newStart: int
    var newEnd: int
    var rawStart: int
    var rawEnd: int
    var flag: bool

    function Value(): Context
      reads this
    {
      Context(newStart, newEnd, rawStart, rawEnd, flag)
    }

    /** fill */
    method Fill(start: nat, end: nat, chunkSize: nat, fp: nat)
      requires InRange(start, end, chunkSize) && fp <= 100
      modifies this
      ensures Value() == Filled(start, end, chunkSize, fp)
    {
      var maxFillSize := chunkSize * fp / 100;
      var minFillSize := chunkSize * (100 - fp) / 100;
      newStart := start / chunkSize * chunkSize;
      rawStart := start;
      if rawStart - newStart > maxFillSize {
        newStart := rawStart;
      }
      newEnd := (end / chunkSize + 1) * chunkSize - 1;
      rawEnd := end;
      if newEnd - rawEnd > maxFillSize {
        newEnd := rawEnd;
      }
      if (newEnd - newStart <= chunkSize && rawStart - newStart + newEnd - rawEnd > maxFillSize)
         || rawEnd - rawStart + 1 < minFillSize {
        newStart := rawStart;
        newEnd := rawEnd;
      }
      flag := newStart != rawStart || newEnd != rawEnd;
    }

    /** PostRequest on a 206 answer whose Content-Range gives the object size. Without the flag the
        answer passes as it is. With it: 416 when the asked range starts behind the object, otherwise
        the body trimmed and its headers rewritten. */
    method PostRequest(body: IoReader, size: nat) returns (r: Response)
      requires 0 <= newStart <= rawStart <= rawEnd <= newEnd && newStart < size
      requires body.view.Readable() && !body.view.ended && body.view.restartable
      modifies this
      ensures r.status == Status(old(Value()), size)
      ensures old(flag) && size < rawStart ==> Value() == old(Value())
      ensures old(flag) && rawStart <= size ==>
                && Value() == Clamped(old(Value()), size) && r.status == 206
                && r.first == rawStart && r.last == rawEnd && r.size == size && r.length == rawEnd - rawStart + 1
                && r.body.view.rest == Trimmed(body.view.rest, Value())
      ensures !old(flag) ==>
                && Value() == old(Value())
                && r == Response(206, body, newStart, newEnd, size, newEnd - newStart + 1)
    {
      r := Response(206, body, newStart, newEnd, size, newEnd - newStart + 1);
      if !flag {
        return;
      }
      if size < rawStart {
        return r.(status := 416);
      }
      if newEnd - newStart > size {
        newEnd := newStart + size - 1;
      }
      if rawEnd > newEnd {
        rawEnd := newEnd;
      }
      var trimmed: IoReader;
      if rawStart <= rawEnd {
        var rr := new RangeReader(body, newStart, newEnd, rawStart, rawEnd);
        trimmed := new IoReader(rr.AsReader());
      } else {
        // An empty window: the first read skips the body and answers io.EOF.
        trimmed := new IoReader(body.view.(rest := Done));
      }
      r := Response(206, trimmed, rawStart, rawEnd, size, rawEnd - rawStart + 1);
    }
  }

  /** The status of a filled answer. */
  function Status(f: Context, size: nat): nat {
    if f.flag && size < f.rawStart then 416 else 206
  }

  /** A filled range that holds no byte of the object is answered 416, as section 15.5.17 of RFC 9110
      asks, exactly when it does not start right behind the last byte. */
  lemma UnsatisfiableIff(f: Context, size: nat)
    requires f.flag && f.newStart < size && 0 <= f.newStart <= f.rawStart
    ensures (Status(f, size) == 416 <==> size <= f.rawStart) <==> f.rawStart != size
  {
  }

  /** An object of one megabyte and ten bytes, asked for from byte one megabyte and ten on: a 206 that
      announces 1991 bytes and has none. */
  lemma StartBehindEnd(obj: seq<byte>)
    requires |obj| == 0x10_0000 + 10
    ensures var f := Filled(0x10_0000 + 10, 0x10_0000 + 2000, 0x10_0000, 100);
            var g := Clamped(f, |obj|);
            && f.flag && f.newStart == 0x10_0000 && f.rawStart == |obj| && Status(f, |obj|) == 206
            && g.rawEnd - g.rawStart + 1 == 1991 && Trimmed(Answer(obj, f.newStart, f.newEnd), g).bytes == []
  {
    var f := Filled(0x10_0000 + 10, 0x10_0000 + 2000, 0x10_0000, 100);
    assert f == Context(0x10_0000, 0x20_0000 - 1, 0x10_0000 + 10, 0x10_0000 + 2000, true);
  }

  /** What the range reader of PostRequest leaves of a body. */
  function Trimmed(s: Stream, f: Context): Stream {
    if f.rawStart <= f.rawEnd && f.newStart <= f.rawEnd then Window(s, f.newStart, f.rawStart, f.rawEnd) else Done
  }

  lemma TrimmedAnswer(obj: seq<byte>, f: Context, newEnd: int)
    requires 0 <= f.newStart <= f.rawStart <= f.rawEnd <= newEnd && f.newStart < |obj|
    ensures var t := Trimmed(Answer(obj, f.newStart, newEnd), f);
            && t.complete
            && t.bytes == if f.rawStart < |obj| then obj[f.rawStart..Min(f.rawEnd + 1, |obj|)] else []
  {
    var all, off, n := Answer(obj, f.newStart, newEnd), f.rawStart - f.newStart, f.rawEnd + 1 - f.rawStart;
    var top := Min(newEnd + 1, |obj|);
    if f.rawStart < |obj| {
      SliceOfSlice(obj, f.newStart, top, off);
      var rest := Drop(all, off);
      assert rest == Stream(obj[f.rawStart..top], true);
      if n <= |rest.bytes| {
        PrefixOfSlice(obj, f.rawStart, top, n);
      }
    } else {
      assert Drop(all, off) == Done;
    }
  }

  lemma SliceOfSlice(obj: seq<byte>, a: nat, b: nat, off: nat)
    requires a <= b <= |obj| && a + off <= b
    ensures obj[a..b][off..] == obj[a + off..b]
  {
  }

  lemma PrefixOfSlice(obj: seq<byte>, a: nat, b: nat, n: nat)
    requires a + n <= b <= |obj|
    ensures obj[a..b][..n] == obj[a..a + n]
  {
  }

  /** With the size known, filling cannot be seen: whatever is asked, the trimmed body is the asked
      bytes and Content-Range and Content-Length describe them. */
  lemma FillTransparent(obj: seq<byte>, start: nat, end: nat, cs: nat, fp: nat)
    requires 0 < cs && fp <= 100 && start <= end < |obj|
    ensures var f := Filled(start, end, cs, fp);
            var g := Clamped(f, |obj|);
            && Trimmed(Answer(obj, f.newStart, f.newEnd), g) == Stream(obj[start..end + 1], true)
            && g.rawStart == start && g.rawEnd == end
            && (!f.flag ==> Answer(obj, f.newStart, f.newEnd) == Stream(obj[start..end + 1], true))
  {
    FilledWidens(start, end, cs, fp);
    WidenedTransparent(obj, start, end, Filled(start, end, cs, fp));
  }

  lemma WidenedTransparent(obj: seq<byte>, start: nat, end: nat, f: Context)
    requires 0 <= f.newStart <= f.rawStart == start <= end == f.rawEnd <= f.newEnd && end < |obj|
    requires f.newStart == 0 || f.newEnd - end <= f.newStart
    ensures var g := Clamped(f, |obj|);
            && Trimmed(Answer(obj, f.newStart, f.newEnd), g) == Stream(obj[start..end + 1], true)
            && g.rawStart == start && g.rawEnd == end
  {
    TrimmedAnswer(obj, Clamped(f, |obj|), f.newEnd);
  }

  /** Without metadata the end asked for may lie behind the object. The headers then describe the
      body exactly when it does not, or when the clamp applies to a fill from byte 0. */
  lemma HeadersExact(obj: seq<byte>, f: Context)
    requires 0 <= f.newStart <= f.rawStart <= f.rawEnd <= f.newEnd && f.newStart < |obj| && f.rawStart <= |obj|
    ensures var g := Clamped(f, |obj|);
            |Trimmed(Answer(obj, f.newStart, f.newEnd), g).bytes| == g.rawEnd - g.rawStart + 1
            <==> f.rawEnd < |obj| || (f.newStart == 0 && f.newEnd > |obj|)
  {
    var g := Clamped(f, |obj|);
    if g.rawStart <= g.rawEnd {
      TrimmedAnswer(obj, g, f.newEnd);
    }
  }

  /** One-megabyte chunks, an object of one megabyte and fifty bytes, and a request for two
      thousand bytes from ten behind the first chunk: 1991 bytes are announced, 40 come. */
  lemma HeadersWrong(obj: seq<byte>)
    requires |obj| == 0x10_0000 + 50
    ensures var f := Filled(0x10_0000 + 10, 0x10_0000 + 2000, 0x10_0000, 100);
            var g := Clamped(f, |obj|);
            && f.newStart == 0x10_0000 && g.rawEnd - g.rawStart + 1 == 1991
            && |Trimmed(Answer(obj, f.newStart, f.newEnd), g).bytes| == 40
  {
    var f := Filled(0x10_0000 + 10, 0x10_0000 + 2000, 0x10_0000, 100);
    assert f == Context(0x10_0000, 0x20_0000 - 1, 0x10_0000 + 10, 0x10_0000 + 2000, true);
    TrimmedAnswer(obj, Clamped(f, |obj|), f.newEnd);
  }
}
