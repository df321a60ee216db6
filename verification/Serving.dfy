/** lazilyRespond and getContents as they run: files are opened, sub-requests sent, and readers
    wrapped and joined, over the state of one object's bucket. */
module Serving {
  import opened Streams
  import opened Readers
  import opened Search
  import opened Arith
  import opened Assembly
  import opened AssemblyProof
  import opened Sending
  import opened CacheHit

  /** The set bits, ascending: what bitmap.Range visits. */
  function SetBits(bits: seq<bool>, n: nat): (r: seq<nat>)
    requires n <= |bits|
    ensures Ascending(r) && (forall i :: 0 <= i < |r| ==> r[i] < n) && forall x: nat :: x in r <==> x < n && bits[x]
  {
    if n == 0 then [] else SetBits(bits, n - 1) + if bits[n - 1] then [n - 1] else []
  }

  /** iobuf.SkipReadCloser: seek when the reader can, as a parts reader cannot, wrap it otherwise. */
  method SkipReadCloser(r: IoReader, n: nat, seekable: bool) returns (s: IoReader)
    requires r.view.Readable() && !r.view.ended && r.view.restartable && (seekable ==> r.copying.Loop?)
    modifies r
    ensures s == r || fresh(s)
    ensures s.view == old(r.view).(rest := Drop(old(r.view.rest), n)) && s.view.Readable() && s.copying.Loop?
  {
    if seekable {
      r.view := r.view.(rest := Drop(r.view.rest, n));
      return r;
    }
    var k := new SkipReader(r, n);
    s := new IoReader(k.AsReader());
  }

  /** iobuf.LimitReadCloser */
  method LimitReadCloser(r: IoReader, max: nat) returns (s: IoReader)
    requires r.view.Readable() && !r.view.ended
    ensures fresh(s)
    ensures s.view == r.view.(rest := Take(r.view.rest, max)) && s.view.Readable() && s.copying.Loop?
  {
    var k := new LimitReader(r, max);
    s := new IoReader(k.AsReader());
  }

  /** iobuf.PartsReadCloser */
  method PartsReadCloser(readers: seq<IoReader>) returns (s: IoReader)
    requires forall i :: 0 <= i < |readers| ==> readers[i].view.Readable() && !readers[i].view.ended
    requires forall i :: 0 <= i < |readers| ==> Sendable(readers[i].view, readers[i].copying)
    requires forall i, j :: 0 <= i < j < |readers| ==> readers[i] != readers[j]
    ensures fresh(s) && s.copying == if readers == [] then Loop else Own(Sends(readers))
    ensures Sendable(s.view, s.copying)
    ensures s.view.rest == Join(readers) && s.view.Readable() && !s.view.ended && s.view.restartable
    ensures s.view.reliable <==> forall i :: 0 <= i < |readers| ==> readers[i].view.reliable
  {
    var k := new PartsReader(readers);
    k.ValidReadable();
    SendsBeginning(readers);
    s := new IoReader.Copied(k.AsReader(), k.AsCopied());
  }

  lemma ConcatAssoc(a: Stream, b: Stream, c: Stream)
    ensures Concat(Concat(a, b), c) == Concat(a, Concat(b, c))
  {
    if a.complete && b.complete {
      assert a.bytes + b.bytes + c.bytes == a.bytes + (b.bytes + c.bytes);
    }
  }

  lemma ConcatDone(s: Stream)
    ensures Concat(s, Done) == s && Concat(Done, s) == s
  {
    assert s.bytes + [] == s.bytes && [] + s.bytes == s.bytes;
  }

  lemma JoinTwo(a: IoReader, b: IoReader)
    ensures Join([a, b]) == Concat(a.view.rest, b.view.rest)
    ensures a.copying.Loop? && b.copying.Loop? ==> Sends([a, b]) == Join([a, b])
  {
    ConcatDone(b.view.rest);
    assert [a, b][1..] == [b] && [b][1..] == [];
    assert Join([b]) == b.view.rest;
    assert b.copying.Loop? ==> Sends([b]) == b.view.rest;
  }

  lemma {:induction false} JoinAppend(rs: seq<IoReader>, r: IoReader)
    ensures Join(rs + [r]) == Concat(Join(rs), r.view.rest)
  {
    ConcatDone(r.view.rest);
    if rs == [] {
      assert rs + [r] == [r] && [r][1..] == [];
    } else {
      assert (rs + [r])[1..] == rs[1..] + [r];
      JoinAppend(rs[1..], r);
      ConcatAssoc(rs[0].view.rest, Join(rs[1..]), r.view.rest);
    }
  }

  /** What is sent of the readers and then of t. */
  ghost function SendsThen(rs: seq<IoReader>, t: Stream): Stream
    reads rs
  {
    if rs == [] then t
    else if rs[0].copying.Own? then rs[0].copying.sends
    else Concat(rs[0].view.rest, SendsThen(rs[1..], t))
  }

  lemma {:induction false} SendsThenMore(rs: seq<IoReader>, r: IoReader, t: Stream)
    ensures SendsThen(rs + [r], t) ==
            SendsThen(rs, if r.copying.Own? then r.copying.sends else Concat(r.view.rest, t))
  {
    if rs == [] {
      assert rs + [r] == [r] && [r][1..] == [];
      assert SendsThen([], t) == t;
    } else {
      assert (rs + [r])[1..] == rs[1..] + [r];
      SendsThenMore(rs[1..], r, t);
    }
  }

  lemma {:induction false} SendsThenDone(rs: seq<IoReader>)
    ensures SendsThen(rs, Done) == Sends(rs)
  {
    if rs != [] {
      SendsThenDone(rs[1..]);
    }
  }

  class Caching {
    const size: nat                      // md.Size
    const blockSize: nat                 // md.BlockSize
    const chunks: seq<bool>              // md.Chunks
    const fetch: (nat, nat) -> Stream    // getUpstreamReader
    var files: map<nat, Open>            // the object's chunk files

    constructor (size: nat, blockSize: nat, chunks: seq<bool>, fetch: (nat, nat) -> Stream, files: map<nat, Open>)
      ensures this.size == size && this.blockSize == blockSize && this.chunks == chunks
      ensures this.fetch == fetch && this.files == files
    {
      this.size, this.blockSize, this.chunks, this.fetch, this.files := size, blockSize, chunks, fetch, files;
    }

    static function OpenIn(files: map<nat, Open>, i: nat): Open {
      if i in files then files[i] else Missing
    }

    /** The world this request sees. */
    function View(): World
      reads this
    {
      var fs := files;
      World(size, blockSize, (i: nat) => OpenIn(fs, i), SetBits(chunks, |chunks|), fetch)
    }

    /** ioindexes.Build */
    static method Build(start: nat, end: nat, partSize: nat) returns (parts: seq<nat>)
      requires 0 < partSize && start <= end
      ensures parts == Indexes(start, end, partSize)
    {
      var firstIndex, lastIndex := start / partSize, end / partSize + 1;
      DivMonotone(start, end, partSize);
      parts := [];
      for i := firstIndex to lastIndex
        invariant |parts| == i - firstIndex
        invariant forall k :: 0 <= k < |parts| ==> parts[k] == U32(firstIndex + k)
      {
        parts := parts + [U32(i)];
      }
    }

    method GetAvailableChunks() returns (available: seq<nat>)
      ensures available == SetBits(chunks, |chunks|)
    {
      available := [];
      for x := 0 to |chunks|
        invariant available == SetBits(chunks, x)
      {
        if chunks[x] {
          available := available + [x];
        }
      }
    }

    method CheckChunkSize(data: seq<byte>, idx: nat) returns (ok: bool)
      requires 0 < blockSize
      ensures ok <==> |data| == ExpectedSize(size, blockSize, idx)
    {
      var realSize := blockSize;
      if idx == U32(size / blockSize) {
        realSize := size % blockSize;
      }
      ok := |data| == realSize;
    }

    /** An opened chunk file. */
    static method Opened(data: seq<byte>) returns (r: IoReader)
      ensures fresh(r) && r.view == Readers.View(Stream(data, true), r.view.work, false, true, true)
      ensures r.view.Readable() && r.copying.Loop?
    {
      var stalls: nat :| 0 <= stalls;
      r := new IoReader(Readers.View(Stream(data, true), |data| + stalls, false, true, true));
    }

    /** getUpstreamReader without collapsed forwarding: a pipe, which answers io.EOF again. */
    method Upstream(fromByte: nat, toByte: nat) returns (r: IoReader)
      ensures fresh(r) && r.view.Readable() && !r.view.ended && r.view.restartable && r.copying.Loop?
      ensures r.view.rest == fetch(fromByte, toByte) && r.view.reliable == r.view.rest.complete
    {
      var s := fetch(fromByte, toByte);
      var stalls: nat :| 0 <= stalls;
      r := new IoReader(Readers.View(s, |s.bytes| + stalls, false, true, s.complete));
    }

    /** A reader handed to lazilyRespond: it can be read, a copy of it sends all of it, and it fails only
        if a fetch for a chunk without a file does, which `bad` says. */
    ghost predicate Usable(r: IoReader, bad: bool)
      reads r
    {
      && r.view.Readable() && !r.view.ended && r.view.restartable
      && (r.copying.Own? ==> r.copying.sends == r.view.rest)
      && (r.view.reliable || bad)
    }

    /** The missing chunks up to an anchor, joined with the anchor's file. */
    method JoinAnchor(idx: nat, a: nat, data: seq<byte>, ghost bad: bool) returns (reader: IoReader, count: nat)
      requires idx < a && 0 < size
      requires !fetch(Offset(idx, blockSize), Min(size - 1, Before(Offset(a, blockSize)))).complete ==> bad
      ensures fresh(reader) && Usable(reader, bad) && reader.copying.Own?
      ensures var f := fetch(Offset(idx, blockSize), Min(size - 1, Before(Offset(a, blockSize))));
              reader.view.rest == Concat(f, Stream(data, true)) && count == a - idx + 1
    {
      var toByte := Min(size - 1, Before(Offset(a, blockSize)));
      var up := Upstream(Offset(idx, blockSize), toByte);
      var file := Opened(data);
      reader := PartsReadCloser([up, file]);
      JoinTwo(up, file);
      count := a - idx + 1;
    }

    method FillToEnd(idx: nat, last: nat, left: nat, end: nat, ghost bad: bool)
      returns (reader: IoReader, count: nat)
      requires 0 < size
      requires var toByte := Min(size - 1, Min(Before(U32(last + 1) * blockSize), end));
               !fetch(Offset(idx, blockSize), toByte).complete ==> bad
      ensures fresh(reader) && Usable(reader, bad) && reader.copying.Loop?
      ensures var toByte := Min(size - 1, Min(Before(U32(last + 1) * blockSize), end));
              reader.view.rest == fetch(Offset(idx, blockSize), toByte) && count == left
    {
      var toByte := Min(size - 1, Min(Before(U32(last + 1) * blockSize), end));
      reader := Upstream(Offset(idx, blockSize), toByte);
      count := left;
    }

    /** Every chunk file the bitmap knows is gone, and no other. */
    ghost predicate Discarded(was: map<nat, Open>)
      reads this
    {
      forall i: nat :: if i < |chunks| && chunks[i] then i !in files else OpenIn(files, i) == OpenIn(was, i)
    }

    /** The search for an anchor; one of the wrong length discards the object. */
    method FindAnchor(idx: nat, last: nat) returns (plan: Plan)
      requires 0 < blockSize
      modifies this
      ensures plan == ChooseAnchor(old(View()), idx, last)
      ensures !plan.Fail? ==> files == old(files)
      ensures plan.Fail? ==> Discarded(old(files))
    {
      var available := GetAvailableChunks();
      var index := SortSearch(available, Between(idx, last));
      if index >= |available| {
        return FromOrigin;
      }
      var a := available[index];
      var f := OpenIn(files, a);
      if !f.File? {
        return FromOrigin;
      }
      var fits := CheckChunkSize(f.data, a);
      if !fits {
        files := map i | i in files && i !in available :: files[i];
        return Fail;
      }
      return FromAnchor(a, f.data);
    }

    /** The choice getContents makes. */
    method ChooseSource(idx: nat, last: nat) returns (plan: Plan)
      requires 0 < blockSize
      modifies this
      ensures plan == Choose(old(View()), idx, last)
      ensures !plan.Fail? || OpenIn(old(files), idx).Broken? ==> files == old(files)
      ensures plan.Fail? && !OpenIn(old(files), idx).Broken? ==> Discarded(old(files))
    {
      var f := OpenIn(files, idx);
      if f.Broken? {
        return Fail;
      }
      if f.File? {
        var fits := CheckChunkSize(f.data, idx);
        if fits {
          return FromFile(f.data);
        }
      }
      plan := FindAnchor(idx, last);
    }

    /** getContents */
    method GetContents(req: seq<nat>, from: nat, end: nat, ghost bad: bool)
      returns (ok: bool, reader: IoReader, count: nat)
      requires from < |req| && 0 < blockSize && 0 < size && Blamed(bad, View(), req, end).Some?
      modifies this
      ensures ok ==> files == old(files) && fresh(reader) && Usable(reader, bad)
      ensures !ok ==> if OpenIn(old(files), req[from]).Broken? then files == old(files) else Discarded(old(files))
      ensures ok ==> (reader.copying.Own? <==> Choose(old(View()), req[from], req[|req| - 1]).FromAnchor?)
      ensures Assembly.GetContents(old(View()), req, from, end) == if ok then Piece(reader.view.rest, count) else Error
    {
      var idx, last := req[from], req[|req| - 1];
      BlamedAt(bad, View(), req, end, from);
      var plan := ChooseSource(idx, last);
      ok := true;
      match plan
      case Fail =>
        reader := Opened([]);
        ok, count := false, 0;
      case FromFile(data) =>
        reader := Opened(data);
        count := 1;
      case FromAnchor(a, data) =>
        reader, count := JoinAnchor(idx, a, data, bad);
      case FromOrigin =>
        reader, count := FillToEnd(idx, last, |req| - from, end, bad);
    }

    /** Head skip and tail limit of one piece. */
    method TrimReader(r: IoReader, i: nat, count: nat, n: nat, start: nat, end: nat, ghost bad: bool)
      returns (s: IoReader)
      requires 0 < blockSize && 0 < count && Usable(r, bad)
      modifies r
      ensures s == r || fresh(s)
      ensures Usable(s, bad) && s.view.rest == Trim(Piece(old(r.view.rest), count), i, n, start, end, blockSize)
      ensures s.copying.Own? <==> old(r.copying).Own? && Head(i, start, blockSize) == 0 && i + count != n
    {
      s := r;
      var startOffset := Head(i, start, blockSize);
      if i == 0 && startOffset > 0 {
        var file: bool := *;
        s := SkipReadCloser(s, startOffset, file && s.copying.Loop?);
      }
      if i + count == n {
        s := LimitReadCloser(s, Tail(count, end, blockSize, startOffset));
      }
    }

    /** One turn of the loop of lazilyRespond. */
    method Step(req: seq<nat>, i: nat, start: nat, end: nat, ghost turn: nat -> Piece, ghost bare: nat -> bool,
                ghost bad: bool)
      returns (ok: bool, reader: IoReader, count: nat)
      requires i < |req| && 0 < blockSize && 0 < size && TurnsOf(turn, View(), req, start, end).Some?
      requires BaresOf(bare, View(), req, start).Some? && Blamed(bad, View(), req, end).Some?
      modifies this
      ensures ok ==> files == old(files) && fresh(reader) && Usable(reader, bad)
      ensures turn(i) == if ok then Piece(reader.view.rest, count) else Error
      ensures ok ==> 0 < count && (reader.copying.Own? <==> bare(i))
    {
      TurnsAt(turn, View(), req, start, end, i);
      BaresAt(bare, View(), req, start, i);
      ok, reader, count := GetContents(req, i, end, bad);
      if ok {
        reader := TrimReader(reader, i, count, |req|, start, end, bad);
      }
    }

    /** The readers so far, followed by what the turns from i on give. */
    ghost function Whole(turn: nat -> Piece, n: nat, i: nat, readers: seq<IoReader>): Body
      reads readers
    {
      var rest := Assemble(turn, i, n);
      if rest.Refused? then Refused else Body(Concat(Join(readers), rest.s))
    }

    lemma WholeStep(turn: nat -> Piece, n: nat, i: nat, readers: seq<IoReader>, r: IoReader, count: nat)
      requires i < n && 0 < count && turn(i) == Piece(r.view.rest, count)
      ensures Whole(turn, n, i + count, readers + [r]) == Whole(turn, n, i, readers)
    {
      JoinAppend(readers, r);
      var rest := Assemble(turn, i + count, n);
      if rest.Body? {
        ConcatAssoc(Join(readers), r.view.rest, rest.s);
      }
    }

    /** What is sent of the readers so far, and of what the turns from i on give. */
    ghost function WholeSent(turn: nat -> Piece, bare: nat -> bool, n: nat, i: nat, readers: seq<IoReader>): Body
      reads readers
    {
      var rest := SentFrom(turn, bare, i, n);
      if rest.Refused? then Refused else Body(SendsThen(readers, rest.s))
    }

    lemma WholeSentStep(turn: nat -> Piece, bare: nat -> bool, n: nat, i: nat, readers: seq<IoReader>, r: IoReader,
                        count: nat)
      requires i < n && 0 < count && turn(i) == Piece(r.view.rest, count) && (r.copying.Own? <==> bare(i))
      requires r.copying.Own? ==> r.copying.sends == r.view.rest
      ensures WholeSent(turn, bare, n, i + count, readers + [r]) == WholeSent(turn, bare, n, i, readers)
    {
      var rest := SentFrom(turn, bare, i + count, n);
      if rest.Body? {
        SendsThenMore(readers, r, rest.s);
      }
    }

    ghost predicate Collected(readers: seq<IoReader>, bad: bool)
      reads readers
    {
      && (forall k :: 0 <= k < |readers| ==> Usable(readers[k], bad))
      && (forall j, k :: 0 <= j < k < |readers| ==> readers[j] != readers[k])
    }

    /** One turn of the loop adds a reader, or ends it. */
    method Grow(req: seq<nat>, i: nat, start: nat, end: nat, readers: seq<IoReader>, ghost turn: nat -> Piece,
                ghost bare: nat -> bool, ghost bad: bool)
      returns (ok: bool, more: seq<IoReader>, j: nat)
      requires i < |req| && 0 < blockSize && 0 < size && TurnsOf(turn, View(), req, start, end).Some?
      requires BaresOf(bare, View(), req, start).Some? && Blamed(bad, View(), req, end).Some?
      requires Collected(readers, bad)
      modifies this
      ensures ok ==>
                && files == old(files) && i < j && Collected(more, bad)
                && |more| == |readers| + 1 && readers <= more && fresh(more[|readers|])
      ensures old(Whole(turn, |req|, i, readers)) == if ok then Whole(turn, |req|, j, more) else Refused
      ensures ok ==> old(WholeSent(turn, bare, |req|, i, readers)) == WholeSent(turn, bare, |req|, j, more)
    {
      var reader, count;
      ok, reader, count := Step(req, i, start, end, turn, bare, bad);
      more, j := readers, i;
      if ok {
        WholeStep(turn, |req|, i, readers, reader, count);
        WholeSentStep(turn, bare, |req|, i, readers, reader, count);
        more, j := readers + [reader], i + count;
      }
    }

    /** The loop of lazilyRespond. */
    method CollectReaders(req: seq<nat>, start: nat, end: nat, ghost turn: nat -> Piece, ghost bare: nat -> bool,
                          ghost bad: bool)
      returns (ok: bool, readers: seq<IoReader>)
      requires 0 < blockSize && 0 < size && TurnsOf(turn, View(), req, start, end).Some?
      requires BaresOf(bare, View(), req, start).Some? && Blamed(bad, View(), req, end).Some?
      modifies this
      ensures ok ==> fresh(readers) && Collected(readers, bad) && (req != [] ==> readers != [])
      ensures ok ==> SentFrom(turn, bare, 0, |req|) == Body(Sends(readers))
      ensures Assemble(turn, 0, |req|) == if ok then Body(Join(readers)) else Refused
    {
      readers, ok := [], true;
      var i := 0;
      ghost var all, sent := Assemble(turn, 0, |req|), SentFrom(turn, bare, 0, |req|);
      WholeStart(turn, |req|);
      assert sent.Body? ==> SendsThen([], sent.s) == sent.s;
      while i < |req|
        invariant files == old(files) && ok
        invariant fresh(readers) && Collected(readers, bad) && (readers == [] ==> i == 0)
        invariant Whole(turn, |req|, i, readers) == all && WholeSent(turn, bare, |req|, i, readers) == sent
        decreases |req| - i
      {
        ok, readers, i := Grow(req, i, start, end, readers, turn, bare, bad);
        if !ok {
          return;
        }
      }
      ConcatDone(Join(readers));
      SendsThenDone(readers);
    }

    /** lazilyRespond: the body it builds is the one Respond describes, so it delivers the
        requested bytes of any object the files and the origin agree on. */
    method LazilyRespond(start: nat, end: nat, ghost obj: seq<byte>) returns (ok: bool, body: IoReader)
      requires 0 < blockSize && 0 < size && start <= end
      modifies this
      ensures ok ==> fresh(body) && body.view.Readable()
      ensures Respond(old(View()), start, end) == if ok then Body(body.view.rest) else Refused
      ensures ok && Wanted(old(View()), obj, start, end) ==> Faithful(body.view.rest, obj[start..end + 1])
      ensures ok ==> body.copying.Own? && Sendable(body.view, body.copying)
      ensures ok ==> RespondSent(old(View()), start, end) == Body(body.copying.sends)
      ensures ok ==> body.view.reliable || FetchBroke(old(View()), Indexes(start, end, blockSize), end)
    {
      ghost var w := View();
      if Wanted(w, obj, start, end) {
        RespondRight(w, obj, start, end);
      }
      var reqChunks := Build(start, end, blockSize);
      ghost var turn := (i: nat) => Turn(w, reqChunks, start, end, i);
      ghost var bare := (i: nat) => Bare(w, reqChunks, start, i);
      ghost var bad := FetchBroke(w, reqChunks, end);
      MakeTurns(turn, w, reqChunks, start, end);
      MakeBares(bare, w, reqChunks, start);
      MakeBlamed(bad, w, reqChunks, end);
      var readers;
      ok, readers := CollectReaders(reqChunks, start, end, turn, bare, bad);
      body := Opened([]);
      if ok {
        body := PartsReadCloser(readers);
      }
    }

    /** doCopyBody of the server, which takes io.EOF for success. When files and origin agree with the object,
        what reaches the client is a beginning of the requested bytes, and without an error it is all of
        them exactly if no turn is bare. It fails only if a fetch breaks off that begins with a requested
        chunk without a file. And when all requested chunks have their files, everything is sent,
        whatever the origin does. */
    method Serve(start: nat, end: nat, ghost obj: seq<byte>) returns (ok: bool, sent: seq<byte>, err: Outcome)
      requires 0 < blockSize && start <= end < size
      modifies this
      ensures ok <==> Respond(old(View()), start, end).Body?
      ensures ok ==> err != More
      ensures ok && Wanted(old(View()), obj, start, end) ==> sent <= obj[start..end + 1]
      ensures ok && Wanted(old(View()), obj, start, end) && err == Eof ==>
                (sent == obj[start..end + 1] <==> NoBareTurn(old(View()), start, end))
      ensures ok && err == Failed && Fits(end, blockSize) ==>
                exists k: nat :: start / blockSize <= k <= end / blockSize && Broke(old(View()), k, end)
      ensures FilesRight(old(View()), obj) && Fits(end, blockSize) && AllCached(old(View()), start, end) ==>
                ok && err == Eof && sent == obj[start..end + 1]
    {
      ghost var w := View();
      ServeFacts(w, obj, start, end);
      var body;
      ok, body := LazilyRespond(start, end, obj);
      sent, err := [], More;
      if ok {
        sent, err := body.CopyTo();
      }
    }

    /** What is known of the response beforehand. */
    static lemma ServeFacts(w: World, obj: seq<byte>, start: nat, end: nat)
      requires 0 < w.blockSize && start <= end < w.size
      ensures Wanted(w, obj, start, end) ==>
                var r := RespondSent(w, start, end);
                && (r.Body? ==> r.s.bytes <= obj[start..end + 1])
                && (r.Body? && r.s.complete ==> (r.s.bytes == obj[start..end + 1] <==> NoBareTurn(w, start, end)))
      ensures Fits(end, w.blockSize) && FetchBroke(w, Indexes(start, end, w.blockSize), end) ==>
                exists k: nat :: start / w.blockSize <= k <= end / w.blockSize && Broke(w, k, end)
      ensures FilesRight(w, obj) && Fits(end, w.blockSize) && AllCached(w, start, end) ==>
                && Respond(w, start, end).Body? && RespondSent(w, start, end) == Body(Stream(obj[start..end + 1], true))
                && !FetchBroke(w, Indexes(start, end, w.blockSize), end)
    {
      if Wanted(w, obj, start, end) {
        SentRightIff(w, obj, start, end);
      }
      if Fits(end, w.blockSize) && FetchBroke(w, Indexes(start, end, w.blockSize), end) {
        BrokeIs(w, start, end);
      }
      if FilesRight(w, obj) && Fits(end, w.blockSize) && AllCached(w, start, end) {
        HitServed(w, obj, start, end);
      }
    }

    lemma WholeStart(turn: nat -> Piece, n: nat)
      ensures Whole(turn, n, 0, []) == Assemble(turn, 0, n)
    {
      var rest := Assemble(turn, 0, n);
      if rest.Body? {
        ConcatDone(rest.s);
      }
    }
  }
}
