# Verified model of Tavern's caching core

Tavern is an HTTP caching proxy that keeps objects as files of a fixed block size. This project
models the parts of it that have to agree with each other, in Dafny, and proves what they promise:

- **Serving a range.** `Readers` (skip, limit, parts and range readers over any way of splitting a
  stream into reads), `RangeHeader`, `Search`, `Assembly` and `AssemblyProof` (the body, read through, is
  the requested bytes for every pattern of cached files), `OffsetWrap` (and exactly when), `Sending` (what
  of the body is sent, and exactly when all of it), `CacheHit` (what the origin is needed for), `Serving` (the
  code that builds and sends the response).
- **Filling the cache.** `Blocks`, `Savepart` and `SavepartAsync` (upstream bodies cut into blocks),
  `FillRange` (widened upstream ranges), `Requests` and `CacheRun` (whole runs: any number of requests,
  fetches, shared flights and discards, interleaved in any way), `Filling` (over any run, a fetch leaves its
  chunks in the bucket), `LateCaller` (a run with a wrong response).
- **Collapsed forwarding.** `FanOut`, `ChunkFlight`, `ObjectFlight`: every interleaving of callers,
  leaders and copying goroutines. `Waiting` and `TwoPipes`: what flights and requests wait for in a whole
  run, and a run in which one waits for itself.
- **Frequency cache.** `Ring` (the linked list with its pointers), `Ladder` (what the cache means),
  `Lfu` (buckets, entries, map and back pointers in the heap, refining the meaning).
- **Hash ring.** `HashRing`: the clockwise walk, its termination, and where keys move.
- **Buckets.** `KeyBound`, `Disk`, `Purge`, `Migration`: recursive discard, directory purge through the
  inverted index, moving objects between tiers.
- **Hit sketch.** `HeavyKeeper`.

`Arith`, `Streams` and `Hidden` are shared helpers. To check the whole project:
`dafny verify dfyconfig.toml`.

A stream is its remaining bytes and how it ends (`Stream(bytes, complete)`). An `io.Reader` is any
object whose reads keep the contract `Readers.Reads`: any prefix length, io.EOF with the last bytes or
after them, errors at any point. Concurrent code is a set of steps, one for each critical section and
each stretch between two of them, and results hold for every run of such steps.

## Where the code does less than it promises

Each of these is shown on a concrete input or run, next to a lemma that says exactly when the promise
holds.

- The server sends a body with io.Copy, which calls the WriteTo of its parts reader. That stops behind the
  first part that is itself a parts reader, because a complete copy of one reports io.EOF, and io.EOF counts
  as success. getContents returns such a reader for missing chunks before a cached one, and it stays bare
  unless it is skipped into or limited. So a partial hit is cut off (`Sending.PartialHitCutOff`: four bytes
  of six). All requested bytes are sent exactly when no turn takes a cached chunk as an anchor, other than
  the last turn or a first turn with start % blockSize != 0 (`Sending.SentRightIff`,
  `Serving.Caching.Serve`, and over whole runs `CacheRun.SentRightIff`). The server logs a warning that
  fewer bytes went out than Content-Length says; a multipart response goes on with its next range.
- Chunk offsets are multiplied in uint32. The body of a range response is right for every cache content and origin
  exactly when the offset of its last chunk fits (`OffsetWrap.RightIffFits`, `OffsetWrap.FiveGigabytes`).
- A caller of a chunk flight that registers after the union range is computed and before the key is
  deleted reads its range exactly when the union happens to cover it; otherwise its stream ends early with
  a plain io.EOF (`ChunkFlight.ServedIffCovered`, `ChunkFlight.LateCallerCutShort`). The comment in the
  source speaks of guaranteed range correctness. A response that reads through such a flight can be
  complete and wrong (`LateCaller.WrongResponse`). It is right exactly when every flight covers what was
  wanted of it or, before a cached last chunk, when that chunk has at least as many bytes behind the
  requested ones as the flight left out, and the bytes that take the place of the missing ones are the same
  (`CacheRun.ResponseRightIffServed`, `LateCaller.GapHidden`).
- A request can join one flight twice, for two of its parts, while the key is still there. It reads its
  parts one after the other and the copy into the pipes waits for each of them, so the flight can wait for
  the request and the request for the flight (`TwoPipes.StuckRun`). That is exactly when flights do not go
  on (`Waiting.MovesOnIffNotStuck`), and only closing the pipe ends it (`Waiting.StuckForever`).
- A block that is neither full nor the last one replaces even a good chunk file by an empty one
  (`CacheRun.FileServesIffComplete`, `CacheRun.GoodFileLost`). Serving stays right, because a file of the
  wrong length is not served.
- `GetN` goes around the ring for ever when the walk starts at index 0 and fewer distinct owners exist than
  asked for (`HashRing.ReturnsIff`, `HashRing.EndlessWalk`).
- `DropPrefix` deletes nothing when the prefix ends in 0xff (`KeyBound.DropExactIff`,
  `KeyBound.NothingDropped`).
- Range headers deviate from section 14.1.2 of RFC 9110 exactly in these forms
  (`RangeHeader.ResolveMatchesRfc`): a suffix longer than the object is refused instead of selecting all of
  it (`RangeHeader.LongSuffixRefused`); a second dash, a plus sign and text that is no number are read over
  (`RangeHeader.MalformedAccepted`); a first byte that does not fit an int64 turns the last one into a
  suffix (`RangeHeader.HugeFirstIsSuffix`). Without a Range header an empty object is given the range 0-0
  (`RangeHeader.SingleInside`).
- When the size was not known, Content-Length after a filled range can announce more bytes than come
  (`FillRange.HeadersExact`, `FillRange.HeadersWrong`). A filled range that starts right behind the last
  byte is answered 206 with an empty body where 416 is due (`FillRange.UnsatisfiableIff`,
  `FillRange.StartBehindEnd`).
- Migrating a vary index throws its variants away (`Migration.VariantsLostIff`,
  `Migration.VariantIsLost`).
- A copy that breaks off during a migration leaves a torn chunk file in the target. That makes the object
  unreadable exactly when the target is the bucket that serves it already (`Migration.NeverLostIff`,
  `Migration.PromotionTears`).
- With one bucket directory inside another, a directory purge removes index entries of the other bucket
  (`Purge.PurgeSafeIff`, `Purge.NestedPurge`).
- A directory purge that should mark objects as expired returns success and does nothing, although its
  comment speaks of a full scan (`Purge.Migrator.PurgeDir`, for every input).
- A full cache whose other keys were all used more than once throws out every new key at once
  (`Ladder.NewcomerGoesIff`, `Lfu.NewcomerGone`).

## Model

| member | source | states |
|---|---|---|
| Readers.IoReader.Discard | pkg/iobuf/range_reader.go:39-45 | io.CopyN to io.Discard over any reads: k bytes go by, or an error; io.EOF only when the stream was shorter than k |
| Readers.SkipReader.Read | pkg/iobuf/skip_reader.go:38-48 | keeps the io.Reader contract for the stream without its first `skip` bytes, also across interrupted skips |
| Readers.LimitReader.Read | pkg/iobuf/limit_reader.go:29-34 | keeps the contract for the first `max` bytes of the stream |
| Readers.PartsReader.Read | pkg/iobuf/part_reader.go:44-67 | keeps the contract for the parts one after the other: no byte of a later part before an earlier one ended, io.EOF only after the last |
| Readers.PartsReader.WriteTo | pkg/iobuf/part_reader.go:71-102 | sends what io.Copy gives of the parts one after the other, up to and including the first that is itself a parts reader, and reports io.EOF, or a beginning of that and an error; no error when no part is left |
| Readers.SendsAllIff | pkg/iobuf/part_reader.go:71-102 | that is all the parts hold if and only if no parts reader stands before a part that has bytes |
| Readers.RangeReader.Read | pkg/iobuf/range_reader.go:37-66 | keeps the contract for positions rawStart..rawEnd of the source, and at its io.EOF the source was read through newEnd or to its end |
| Readers.RangeReader.ReadAll | pkg/iobuf/range_reader.go:37-66 | whatever the read sizes, the bytes up to the first io.EOF are exactly the window, and the source is drained through newEnd |
| Search.SortSearch | server/middleware/caching/internal.go:187-190 | the loop of sort.Search, for any predicate, finds an index whose element satisfies it and whose predecessor does not |
| Search.BetweenFindsFirst | server/middleware/caching/internal.go:187-190 | the anchor search uses a predicate that is not monotone; an index it returns is still the least available chunk above the wanted one |
| Search.BetweenMisses | server/middleware/caching/internal.go:187-190 | and it can miss an anchor that exists |
| RangeHeader.Parse | pkg/x/http/range.go:106-198 | the ranges kept, in order, are those of the parts that resolve, from the first two pieces of each part as ParseInt reads them; errors as in the source |
| RangeHeader.KeptInside | pkg/x/http/range.go:106-199 | every range kept lies inside the object |
| RangeHeader.SingleParse | pkg/x/http/range.go:201-220 | the one range used for a response, the whole object without a header, and the errors |
| RangeHeader.FirstCounts | pkg/x/http/range.go:201-220 | the range used is that of the first part that stands for one; without such a part the header is invalid |
| RangeHeader.SingleInside | pkg/x/http/range.go:201-220 | an accepted range lies inside the object if and only if the object is not empty or a header was sent |
| RangeHeader.ResolveMatchesRfc | pkg/x/http/range.go:124-191 | a part selects the bytes RFC 9110 section 14.1.2 gives it if and only if it is not one of the deviating forms |
| RangeHeader.MalformedAccepted | pkg/x/http/range.go:132-191 | bytes=1-2-3, bytes=1--5 and bytes=+1-2 are answered with bytes |
| RangeHeader.HugeFirstIsSuffix | pkg/x/http/range.go:164-177 | a first byte of 2^63 with a last one of 5 is answered with the last five bytes |
| RangeHeader.LongSuffixRefused | pkg/x/http/range.go:106-199 | bytes=-1000 on 500 bytes is refused |
| AssemblyProof.RightTurn | server/middleware/caching/internal.go:160-235 | one turn moves on by at least one chunk and not past the last, and what it adds, after head skip and tail limit, is the object between the two positions |
| AssemblyProof.RespondRight | server/middleware/caching/caching.go:227-288 | for every pattern of present, missing, broken and wrong-length files and every upstream failure the response is refused, or its body, read through, fails or is exactly the requested bytes |
| AssemblyProof.RespondComplete | server/middleware/caching/caching.go:227-288 | when files open, anchors have their size and fetches complete, the body is complete |
| Sending.SentRightIff | server/middleware/caching/caching.go:249-285 | what the server sends is a beginning of the requested bytes, and if the copy ends without an error, all of them if and only if no turn takes an anchor, other than the last turn or a first turn that is skipped into |
| Sending.PartialHitCutOff | pkg/iobuf/part_reader.go:81-96 | the object 1..6 in chunks of two, the middle one cached: the body for all of it holds six bytes, and 1, 2, 3, 4 are sent |
| CacheHit.ExpectedIs | server/middleware/caching/internal.go:256-281 | the expected length of a chunk file is the length of the chunk if and only if the number of the last chunk, cut to 32 bits, meets no other chunk |
| CacheHit.HitServed | server/middleware/caching/internal.go:160-176 | when every requested chunk has its file, whatever the origin does, the body is the requested bytes, without an error, and all of them are sent |
| CacheHit.BreaksOffOnly | server/middleware/caching/internal.go:160-235 | a body breaks off only if a fetch does that begins with a requested chunk without a file and asks for bytes of the range; a request is refused only for a file that cannot be read or an anchor of the wrong length |
| CacheHit.AsksOnlyMissing | server/middleware/caching/internal.go:160-235 | nothing is asked of the origin for a chunk with a file; for one without, the bytes up to the next cached chunk, or to the end of the range when none is known, if no known chunk lies behind the range |
| CacheHit.RefusedTurn | server/middleware/caching/internal.go:160-235 | if no known chunk lies behind the range, a turn is refused if and only if the file of its chunk cannot be read, or there is none and the next known chunk has a file of the wrong length |
| CacheHit.UnreadableRefused | server/middleware/caching/internal.go:160-235 | a request is refused when the file of its first chunk cannot be read |
| CacheHit.SmallObjectHit | server/middleware/caching/internal.go:160-176 | an object of three bytes, cached, in blocks of four, is sent in full while the origin is down |
| OffsetWrap.RightIffFits | server/middleware/caching/internal.go:193-204 | bodies of responses are right for all files and origins if and only if the offset of the last requested chunk fits a uint32 |
| OffsetWrap.UnfitWrong | server/middleware/caching/internal.go:193-204 | for every request whose last offset does not fit there are an object and a cache that give a complete wrong body |
| OffsetWrap.FiveGigabytes | server/middleware/caching/internal.go:193-204 | byte 2^32 of an object in one-megabyte chunks is asked for as byte 0 |
| Serving.Caching.GetAvailableChunks | server/middleware/caching/internal.go:122-128 | the chunk numbers set in the bitmap, ascending |
| Serving.Caching.CheckChunkSize | server/middleware/caching/internal.go:256-281 | accepts exactly the expected length, with the uint32 comparison for the last chunk |
| Serving.Caching.GetContents | server/middleware/caching/internal.go:160-235 | the reader and the count are those of the plan: file, anchor with the gap before it, or the rest from the origin; the reader is a parts reader exactly for an anchor, and unreliable only if what was asked breaks off, for a chunk without a file; when it fails over an anchor, the chunk files the bitmap knows are gone and no others, and when the file cannot be read, none |
| Serving.Caching.CollectReaders | server/middleware/caching/caching.go:250-281 | the loop of lazilyRespond: the readers it collects deliver what the turns of the specification give, a copy of them sends what the specification says, and it ends |
| Serving.Caching.LazilyRespond | server/middleware/caching/caching.go:227-288 | the body built, read through, delivers the requested bytes of any object that files and origin agree on, or an error; it can fail only if a fetch breaks off that was made for a chunk without a file |
| Serving.Caching.Serve | server/server.go:273-312 | building and copying a response: when files and origin agree on an object the client gets a beginning of the requested bytes, and without an error all of them if and only if no turn is bare; an error only when a fetch breaks off that begins with a requested chunk without a file; and everything, without an error, when every requested chunk has its file, whatever the origin does |
| Blocks.CompleteIsCut | pkg/iobuf/savepart_reader.go:73-150 | numbered blocks that make up a byte sequence are the unique cutting of it at multiples of the block size |
| Savepart.SavepartReader.WriteBlock | pkg/iobuf/savepart_reader.go:132-150 | the buffered block goes to the callback under its number and position, or the error is kept |
| Savepart.SavepartReader.Flush | pkg/iobuf/savepart_reader.go:73-130 | saved blocks and buffer always make up the received suffix from the first boundary on, block k at byte k*blockSize; nothing stays buffered after io.EOF |
| Savepart.SavepartReader.Read | pkg/iobuf/savepart_reader.go:40-62 | saving does not change what the client reads |
| Savepart.SavepartReader.ReadAll | pkg/iobuf/savepart_reader.go:40-130 | for every way the body is split into reads, the client gets the body and the callback gets exactly its blocks |
| SavepartAsync.StepInv | pkg/iobuf/savepart_async_reader.go:48-167 | every step of reader, queue and writing goroutine keeps: handed over, queued and buffered bytes make up what was received, in order |
| SavepartAsync.AllHandedBeforeClose | pkg/iobuf/savepart_async_reader.go:48-103 | onClose runs once, after every callback, which got all blocks of the body in order |
| SavepartAsync.SameBlocks | pkg/iobuf/savepart_async_reader.go:104-167 | block sequences cut from the same bytes have the same blocks under the same numbers |
| SavepartAsync.SameAsSync | pkg/iobuf/savepart_async_reader.go:48-167 | an asynchronous saver that has ended and a synchronous one saved the same blocks under the same numbers for the same body, however each body was split into reads; only the eof flags can differ |
| SavepartAsync.NoDeadlock | pkg/iobuf/savepart_async_reader.go:144-167 | a blocked send or a pending close can always go on by a step of the writing goroutine, for every queue size |
| FillRange.PercentBounded | server/middleware/caching/caching_fillrange.go:191-205 | the fill percentage is at most 100 if and only if it came from the header or the default is; one from 1 to 100 is used as it is |
| FillRange.BadPercentOff | server/middleware/caching/caching_fillrange.go:137-205 | a header that gives no percentage from 1 to 100 switches filling off |
| FillRange.FilledWidens | server/middleware/caching/caching_fillrange.go:137-170 | the filled range contains the asked one and adds at most maxFillSize on each side |
| FillRange.FillRule | server/middleware/caching/caching_fillrange.go:137-170 | the rule without rounding: a side is filled if that adds at most the percentage of a chunk; nothing is filled when both sides add more than that inside one chunk, or the range is too short |
| FillRange.HalfFilled | server/middleware/caching/caching_fillrange.go:137-170 | at 50 percent of chunks of four bytes: both sides, one side, and none |
| FillRange.ClampHarmless | server/middleware/caching/caching_fillrange.go:97-105 | with the size known the clamp never touches the asked range, and moves the new end only for a fill from byte 0 |
| FillRange.FillRangeContext.Fill | server/middleware/caching/caching_fillrange.go:137-178 | the fields assigned step by step are the widened range of the specification |
| FillRange.FillRangeContext.PostRequest | server/middleware/caching/caching_fillrange.go:65-113 | an unflagged answer passes untouched; a flagged one has the status of the specification, and behind a 206 its body is the asked window and its headers describe it |
| FillRange.UnsatisfiableIff | server/middleware/caching/caching_fillrange.go:82-96 | a filled range without a byte of the object is answered 416 if and only if it does not start right behind the last byte |
| FillRange.StartBehindEnd | server/middleware/caching/caching_fillrange.go:82-112 | a request for which a 206 announces 1991 bytes and has none |
| FillRange.FillTransparent | server/middleware/caching/caching_fillrange.go:65-178 | with the size known, filling cannot be seen: the trimmed answer to the widened request is exactly the asked bytes |
| FillRange.HeadersExact | server/middleware/caching/caching_fillrange.go:97-112 | when the size was not known, Content-Length matches the body if and only if the asked end lies inside the object or the clamp applies to a fill from byte 0 |
| FillRange.HeadersWrong | server/middleware/caching/caching_fillrange.go:97-112 | a request for which 1991 bytes are announced and 40 come |
| CacheRun.FlushBuffer.WriterBuffer | server/middleware/caching/caching.go:517-577 | the file is replaced whatever is written; the bit is set exactly for a block that was written |
| CacheRun.WriteKeepsGood | server/middleware/caching/caching.go:517-577 | saving a block keeps the invariant that a file of the expected length holds its chunk |
| CacheRun.FileServesIffComplete | server/middleware/caching/caching.go:550-562 | the file left behind is served again if and only if the block was full or the last one |
| CacheRun.GoodFileLost | server/middleware/caching/caching.go:550-562 | an incomplete block empties a good file |
| CacheRun.StepInv | server/middleware/caching/caching.go:227-577 | every step of requests, fetches, flights and discards keeps the files, the savers and the parts of every request right |
| CacheRun.EveryResponseRight | server/middleware/caching/caching.go:227-352 | over any run the body of every response assembled to its end has at every moment delivered the origin's bytes of its range, or a part of them and an error, if its flights cover it |
| CacheRun.ResponseRightIffServed | server/middleware/caching/caching.go:227-352 | over any run, once a body ended without an error it was the requested bytes if and only if each part was served: its flight covers what it wanted or, before a cached last chunk, the surplus of that chunk is at least the gap and the bytes that move up are equal to the missing ones |
| CacheRun.SentRightIff | server/middleware/caching/caching.go:227-352 | over any run, once the copy of a response ended without an error it sent the requested bytes if and only if each part was served and none is a bare anchor |
| LateCaller.WrongResponse | server/middleware/caching/caching.go:290-352 | a run in which a complete response to bytes 4-7 of the object 1..8 is 5, 7, 8; that it is wrong follows from the exact condition |
| LateCaller.GapHidden | server/middleware/caching/caching.go:264-276 | an object of equal bytes for which a gap of one byte does not show |
| CacheRun.EveryFileRight | server/middleware/caching/caching.go:503-592 | over any run a chunk file of the expected length holds exactly its chunk |
| Filling.StaysUnlessSpoilt | server/middleware/caching/caching.go:503-592 | a chunk in the bucket stays there through a step if and only if the step does not discard it and is no failed or incomplete write of it |
| Filling.HandedByWrite | server/middleware/caching/caching.go:505-592 | every block a fetch has handed over was written by some step of the run, and ok if no write of the fetch failed |
| Filling.FetchFills | server/middleware/caching/caching.go:505-592 | over any run, a fetch that has closed with every write ok has written each chunk wholly inside what it received, cut at the end of the object, and the bucket has that chunk with its bytes as long as nothing takes it away after that |
| Filling.OneBlockFilled | server/middleware/caching/caching.go:505-592 | a reachable state in which a cache that was empty holds an object of one block |
| Requests.TurnIs | server/middleware/caching/internal.go:160-235 | the part of a request is the turn of the assembly loop for what upstream delivers |
| Requests.CoveredFetch | server/middleware/caching/caching.go:318-334 | what a flight's caller read is a fetch of the asked range if the flight covers it, and shorter if not |
| Requests.BodyCovers | server/middleware/caching/caching.go:227-288 | whatever its flights have delivered so far, a covered request delivered its bytes up to the position it reached, or a part and an error |
| Requests.MaskedTail | server/middleware/caching/internal.go:203-214 | too few bytes from a flight, then the cached last chunk, cut at the end of the range: they are the requested bytes if and only if there are enough and those that come are equal to those wanted |
| Requests.RightIffServed | server/middleware/caching/caching.go:227-352 | a request whose body ended without an error delivered its bytes if and only if every part was served |
| Requests.SentRightIffServed | server/middleware/caching/caching.go:227-352 | and its copy sent them if and only if, besides, no part is a bare anchor |
| FanOut.StepInv | server/middleware/caching/chunk_flight.go:158-191 | every read of the body, delivery to a pipe, failing write and close keeps: each pipe has exactly its share of the body |
| FanOut.PipeRight | server/middleware/caching/chunk_flight.go:158-191 | every reader has a prefix of the body at every moment, all of it when its pipe was closed with io.EOF; in the end all pipes are closed, with io.EOF unless the body broke off or a reader hung up |
| FanOut.CanStep | server/middleware/caching/chunk_flight.go:158-191 | the copying goroutine waits for nothing but a reader that does not read |
| ChunkFlight.HullCovers | server/middleware/caching/chunk_flight.go:109-122 | the union contains every range, and both its ends are ends of some range |
| ChunkFlight.ComputeUnion | server/middleware/caching/chunk_flight.go:109-122 | the loop computes that union |
| ChunkFlight.StepInv | server/middleware/caching/chunk_flight.go:61-197 | every step of every interleaving keeps the state of map, calls, callers and pipes consistent |
| ChunkFlight.OneOriginCall | server/middleware/caching/chunk_flight.go:61-197 | a call asks the origin once, for its union, after its key is gone; at most one call per key can be joined |
| ChunkFlight.EarlyInside | server/middleware/caching/chunk_flight.go:109-122 | every caller registered before the union is computed has its range inside it |
| ChunkFlight.EveryPipeClosed | server/middleware/caching/chunk_flight.go:158-191 | every caller registered before the key is deleted is in the snapshot, and its pipe is closed in the end |
| ChunkFlight.AnswerReaches | server/middleware/caching/chunk_flight.go:138-197 | over any run, what reaches the pipes of a call is a prefix of the body fn returned, all of it when closed with io.EOF, and a caller is refused only if fn failed |
| ChunkFlight.CoveredRight | server/middleware/caching/chunk_flight.go:93-197 | a covered caller reads a prefix of exactly its bytes at every moment, and ends without error only with all of them |
| ChunkFlight.ServedIffCovered | server/middleware/caching/chunk_flight.go:122-136 | a caller whose pipe was closed with io.EOF read its range if and only if the union covers it |
| ChunkFlight.FetchIffCovered | server/middleware/caching/chunk_flight.go:93-197 | a reader that ended without an error was a fetch of its range if and only if the union covers it |
| ChunkFlight.EndedOverlap | server/middleware/caching/chunk_flight.go:93-197 | a reader that ended without an error gave exactly what its range and the union have in common |
| ChunkFlight.ReadOutComplete | pkg/iobuf/range_reader.go:37-66 | a reader whose pipe gave the whole union, or io.EOF, has delivered all it will without an error |
| ChunkFlight.LateCallerCutShort | server/middleware/caching/chunk_flight.go:122-136 | a run in which a late caller for two bytes reads one and a plain io.EOF |
| ChunkFlight.NoDeadlock | server/middleware/caching/chunk_flight.go:61-197 | a call is stuck before its pipes are closed on nothing but a reader that does not read |
| Waiting.RunWired | server/middleware/caching/caching.go:249-334 | over any run no two parts hold one pipe, and a request holds pipes of older flights before those of newer ones |
| Waiting.MovesOnIffNotStuck | server/middleware/caching/chunk_flight.go:128-191 | the first flight that has not ended can go on, by its own step or one of the request it writes to, if and only if that request does not still read another pipe of the same flight |
| Waiting.NoFlightStuck | server/middleware/caching/chunk_flight.go:128-191 | so it can always go on when no request holds two pipes of one flight |
| Waiting.StuckForever | server/middleware/caching/chunk_flight.go:164-191 | however the run goes on, a stuck flight stays stuck until the request closes the pipe |
| TwoPipes.StuckRun | server/middleware/caching/chunk_flight.go:122-136 | a run that gets stuck: a request joins a flight for its first chunk and, after wg.Done and before the key is deleted, again for its last |
| ObjectFlight.StepInv | server/middleware/caching/object_flight.go:51-150 | every step of every interleaving keeps the state consistent |
| ObjectFlight.OneCallEach | server/middleware/caching/object_flight.go:51-110 | one live call per key; fn runs once and waiters are released once on every path, panic included |
| ObjectFlight.OneBody | server/middleware/caching/object_flight.go:112-150 | every caller has a prefix of the one body, all of it when its pipe was closed with io.EOF, and every pipe is closed in the end |
| ObjectFlight.AnswerReaches | server/middleware/caching/object_flight.go:94-150 | over any run, what reaches the pipes of a call is a prefix of the body fn returned, all of it when closed with io.EOF, and a caller that was answered is refused if and only if fn failed |
| ObjectFlight.HasAnswer | server/middleware/caching/object_flight.go:94-110 | a call that is past its fn has such an answer among the events of the run |
| ObjectFlight.AnswersAgree | server/middleware/caching/object_flight.go:51-110 | a caller is told of an error exactly when fn failed, and nothing reaches it before |
| ObjectFlight.NoDeadlock | server/middleware/caching/object_flight.go:51-150 | a call is stuck before its pipes are closed on nothing but a reader that does not read |
| Ring.Element.Next | contrib/container/list/list.go:31-36 | the element behind this one in the sequence, nil at the end |
| Ring.Element.Prev | contrib/container/list/list.go:39-44 | the element before this one, nil at the front |
| Ring.List.constructor | contrib/container/list/list.go:54-62 | an empty ring |
| Ring.List.Init | contrib/container/list/list.go:54-59 | a list in use becomes the empty sequence |
| Ring.List.Front | contrib/container/list/list.go:69-74 | the first element, nil if there is none |
| Ring.List.Back | contrib/container/list/list.go:77-82 | the last element, nil if there is none |
| Ring.List.Insert | contrib/container/list/list.go:92-100 | the pointer assignments put the element into the sequence right behind `at`, and the ring stays a ring |
| Ring.List.Unlink | contrib/container/list/list.go:108-115 | the element leaves the sequence, and its pointers are cleared |
| Ring.List.Move | contrib/container/list/list.go:118-129 | the element goes right behind `at`; the others keep their order |
| Ring.List.Remove | contrib/container/list/list.go:134-141 | removes an element of this list, ignores one of another |
| Ring.List.PushFront | contrib/container/list/list.go:144-147 | a new element in front of the sequence |
| Ring.List.PushBack | contrib/container/list/list.go:150-153 | a new element behind the sequence |
| Ring.List.InsertBefore | contrib/container/list/list.go:158-164 | a new element right before the mark; nothing for a mark of another list |
| Ring.List.InsertAfter | contrib/container/list/list.go:169-175 | a new element right behind the mark; nothing for a mark of another list |
| Ring.List.MoveToFront | contrib/container/list/list.go:180-186 | the element becomes the first |
| Ring.List.MoveToBack | contrib/container/list/list.go:191-197 | the element becomes the last |
| Ladder.RaiseOk | pkg/algorithm/lru/lru.go:225-265 | an increment, with the new bucket entered before the old one is left, refines frequency plus one and the latest arrival |
| Ladder.EnterOk | pkg/algorithm/lru/lru.go:225-265 | a new key refines frequency 1 and the latest arrival |
| Ladder.TakeOk | pkg/algorithm/lru/lru.go:267-273 | removing an entry, and its bucket when empty, refines removing the key |
| Ladder.FrontIsLowest | pkg/algorithm/lru/lru.go:192-223 | the front entry of the front bucket is the lowest in (frequency, arrival) |
| Ladder.TopsFall | pkg/algorithm/lru/lru.go:140-162 | TopK's order lists every key once, strictly falling in (frequency, arrival) |
| Ladder.NewcomerGoesIff | pkg/algorithm/lru/lru.go:83-105 | when one entry must go for a new key, it is the new key if and only if every other key was used more than once |
| Lfu.Cache.constructor | pkg/algorithm/lru/lru.go:39-48 | an empty cache with its bounds |
| Lfu.Cache.Has | pkg/algorithm/lru/lru.go:51-56 | true exactly for the keys of the map, without a use |
| Lfu.Cache.Get | pkg/algorithm/lru/lru.go:60-68 | the mark of the key; counts as a use of that key and of no other |
| Lfu.Cache.Peek | pkg/algorithm/lru/lru.go:72-79 | the mark of the key, without a use |
| Lfu.Cache.Set | pkg/algorithm/lru/lru.go:83-105 | the key has the mark and one use more, every other mark stays; nothing goes while the key was there or there was room; otherwise exactly lowerBound entries are left and those that go are the lowest in (frequency, arrival); at most upperBound entries stay so |
| Lfu.BoundsKept | pkg/algorithm/lru/lru.go:83-105 | what the two bounds mean for the entries that go, without the arithmetic of the code |
| Lfu.SetAll | pkg/algorithm/lru/lru.go:39-105 | a new cache after any calls of Set holds at most its capacity: all keys while they fit, and it is full once they do not |
| Lfu.NewcomerGone | pkg/algorithm/lru/lru.go:83-105 | a cache for one entry with a key used twice: the next new key is gone as soon as it is set |
| Lfu.Cache.Len | pkg/algorithm/lru/lru.go:108-112 | the number of keys |
| Lfu.Cache.GetFrequency | pkg/algorithm/lru/lru.go:115-123 | the frequency of the key, 0 for an unknown one |
| Lfu.Cache.TopK | pkg/algorithm/lru/lru.go:140-162 | the min(k, len) keys highest in (frequency, arrival), strictly falling; one key for k = 0 |
| Lfu.Cache.Remove | pkg/algorithm/lru/lru.go:165-175 | exactly this key goes; false for an unknown one |
| Lfu.Cache.Purge | pkg/algorithm/lru/lru.go:178-184 | nothing is left |
| Lfu.Cache.Evict | pkg/algorithm/lru/lru.go:186-223 | exactly the min(count, len) entries lowest in (frequency, arrival) go, the rest keep marks and ranks, and the loops end |
| Lfu.Cache.Climb | pkg/algorithm/lru/lru.go:225-265 | the list operations of increment: the entry joins the next bucket, made if missing, and leaves its own, dropped if empty |
| Lfu.Cache.RemEntry | pkg/algorithm/lru/lru.go:267-273 | the entry leaves its bucket and an empty bucket leaves the list |
| Lfu.Cache.MarksRanked | pkg/algorithm/lru/lru.go:39-48 | marks and ranks are of the same keys, so together they map key to (mark, frequency, arrival) |
| HashRing.ReturnsIff | storage/selector/hashring/consistent.go:173-210 | the loop of GetN ends if and only if it does not start at index 0 or at least n distinct owners exist |
| HashRing.EndlessWalk | storage/selector/hashring/consistent.go:173-210 | two members, one without a point, and a name for which GetN of 2 does not return |
| HashRing.WalkIsClockwise | storage/selector/hashring/consistent.go:161-210 | the walk meets the points in order of clockwise distance from the hash |
| HashRing.StartIsNearest | storage/selector/hashring/consistent.go:161-170 | the search gives the nearest point clockwise |
| HashRing.AddExact | storage/selector/hashring/consistent.go:75-85 | adding a member without collisions gives it exactly its points and takes none from the others |
| HashRing.ExactUnique | storage/selector/hashring/consistent.go:75-85 | without collisions the ring is a function of the set of members |
| HashRing.OrderOfAddingIrrelevant | storage/selector/hashring/consistent.go:75-85 | without collisions rings of the same members have the same points, sorted points and walks, in whatever order the members came |
| HashRing.OrderFreeIffApart | storage/selector/hashring/consistent.go:75-85 | two members can be added in either order if and only if they share no point |
| HashRing.MinimalMovement | storage/selector/hashring/consistent.go:75-85 | adding a member leaves each key with its owner or moves it to the new member, even with collisions |
| HashRing.Consistent.UpdateSortedHashes | storage/selector/hashring/consistent.go:234-245 | the points, ascending, each once |
| HashRing.Consistent.Add | storage/selector/hashring/consistent.go:75-85 | every point of the member, one for each replica and weight step, is owned by it, and every other hash keeps its owner or its absence; the sorted points follow |
| HashRing.PointsAre | storage/selector/hashring/consistent.go:75-85 | the points of a member are the hashes of its keys for every replica and every weight step, and no others |
| HashRing.LastCounts | storage/selector/hashring/consistent.go:109-135 | of several entries with one ID the last is used |
| HashRing.Consistent.Set | storage/selector/hashring/consistent.go:109-135 | a fresh ring has exactly the points of the last entry of each ID, in whatever order they are added |
| HashRing.Consistent.Get | storage/selector/hashring/consistent.go:149-159 | the owner of the nearest point clockwise of the hash |
| HashRing.Consistent.GetN | storage/selector/hashring/consistent.go:173-210 | the first n distinct members clockwise, so shorter answers are prefixes of longer ones |
| HashRing.EveryMemberMet | storage/selector/hashring/consistent.go:173-210 | when every member owns a point the walk meets every member once |
| HashRing.EveryRequestAnswered | storage/selector/hashring/consistent.go:173-210 | then every request for 1 to count members ends and is answered in full |
| HashRing.FreshRingComplete | storage/selector/hashring/consistent.go:45-53 | a fresh ring without collisions, of members with a positive weight, is such a ring |
| HashRing.Balancer.Select | storage/selector/hashring/hashring.go:43-60 | the nearest bucket clockwise that is allowed and healthy; none only if none is |
| KeyBound.KeyUpperBound | storage/sharedkv/nonekv.go:179-189 | a key lies between the prefix and this bound if and only if it has the prefix, 0xff bytes and the empty prefix included |
| KeyBound.DropExactIff | storage/sharedkv/nonekv.go:126-132 | DropPrefix deletes exactly the keys with the prefix if and only if it does not end in 0xff |
| KeyBound.NothingDropped | storage/sharedkv/nonekv.go:126-132 | DropPrefix of 0x61 0xff deletes no key |
| Disk.DiscardExact | storage/bucket/disk/disk.go:259-304 | for every index, cyclic vary keys included, an entry goes if and only if it is reachable from the discarded one through vary keys |
| Disk.KidsAre | storage/bucket/disk/disk.go:275-288 | the variants of a vary index are its virtual keys behind its path; an object that is none has no variants |
| Disk.VariantGoes | storage/bucket/disk/disk.go:259-304 | a vary index takes with it every stored variant of its path that it lists |
| Disk.VariantsDiffer | storage/bucket/disk/disk.go:346-387 | variants of one path are stored side by side exactly when their virtual keys differ |
| Disk.FollowsMeans | storage/bucket/disk/disk.go:289-304 | a chunk file goes if and only if its object is gone and the metadata knew the chunk; an entry of the inverted index if and only if its object is gone |
| Disk.DiskBucket.Store | storage/bucket/disk/disk.go:346-387 | the entry and its inverted index entry are there |
| Disk.DiskBucket.Discard | storage/bucket/disk/disk.go:222-304 | exactly what is reachable from the object through vary keys is gone, with its chunk files and inverted index entries, and nothing else; an unknown object changes nothing |
| Disk.DiskBucket.DiscardVariants | storage/bucket/disk/disk.go:275-288 | the loop over the vary keys, ending because the entry was deleted first |
| Purge.AlwaysInverted | storage/bucket/disk/disk.go:222-387 | after any sequence of stores, discards and migrations every object has its right inverted index entry |
| Purge.PurgeSafeIff | storage/migrator.go:278-301 | prefix scans of one bucket leave the inverted index of another right for all contents and URLs if and only if neither directory lies inside the other |
| Purge.NestedPurge | storage/migrator.go:278-301 | purging d/ in the bucket in /c drops the entry of an object of the bucket in /c/d |
| Purge.LeftMore | storage/migrator.go:280-300 | discarding one hit after another removes exactly what is reachable from the hits, in whatever order |
| Purge.LeftScanned | storage/migrator.go:278-301 | with a right inverted index what the prefix scan leaves is what a full scan leaves |
| Purge.Migrator.IteratePrefix | storage/sharedkv/nonekv.go:155-177 | the scan between the bounds visits exactly the keys with the prefix |
| Purge.Migrator.PurgeBucket | storage/migrator.go:278-301 | exactly what the entries under the directory lead to is gone, right or wrong; those entries are gone; 0 objects exactly when they lead to none; the chunk files of exactly what is gone are gone |
| Purge.Migrator.PurgeByIndex | storage/migrator.go:278-301 | the same for every bucket, and the inverted index stays right; the chunk files of exactly what is gone are gone |
| Purge.Migrator.Scan | storage/migrator.go:303-321 | no object under the URL is left in any bucket, only such objects and their variants go; 0 exactly when there was none; the chunk files of exactly what is gone are gone |
| Purge.Migrator.PurgeDir | storage/migrator.go:264-327 | with a right index no object under the URL is left; if the index leads to nothing the scan leaves none either; if it leads to something exactly that is gone; not found means there was none and nothing changed; the chunk files of exactly what is gone are gone |
| Migration.StepInv | storage/bucket/disk/disk.go:510-561 | every step of a migration, failing copies included, keeps the state of both buckets consistent |
| Migration.ServedIffNotTorn | storage/bucket/disk/disk.go:510-561 | at every step the bucket Select gives has the entry and all chunk files, if and only if no copy was torn over that very bucket |
| Migration.NeverLostIff | storage/migrator.go:169-252 | no run can make the object unreadable if and only if the target is not the bucket that serves it already, or it has no bytes |
| Migration.FirstHas | storage/migrator.go:169-176 | Select gives the first tier, hot before warm before cold, that has the object, and the warm one when none has |
| Migration.PromotionTears | storage/bucket/disk/disk.go:488-545 | a promotion over a hot copy breaks off, and every request gets the torn file |
| Migration.VariantsLostIff | storage/bucket/disk/disk.go:550-556 | a migrated object takes with it from the source exactly what it reaches through vary keys, and the target gets none of that |
| Migration.VariantIsLost | storage/bucket/disk/disk.go:550-556 | a vary index loses its one variant |
| Migration.MigratedExactly | storage/bucket/disk/disk.go:510-561 | when a migration is through, the source has lost the chunk files of exactly the objects it has lost, the target has got those of the object and no others, and no other tier has changed |
| Migration.Migrate | storage/bucket/disk/disk.go:510-561 | the whole call: entry and files in the target, the object with its files and inverted index entries gone from the source; a missing chunk file leaves indexes, source and inverted index as they were, and in the target exactly the chunks copied until then |
| HeavyKeeper.TouchInv | pkg/algorithm/heavykeeper/heavykeeper.go:47-83 | whatever the random decay, a cell's count never exceeds the adds of its fingerprint that hit it |
| HeavyKeeper.NewcomerTakesOver | pkg/algorithm/heavykeeper/heavykeeper.go:47-83 | adds of another key that decay wear a count down one by one, and the last of them takes the cell over; adds that do not decay change nothing |
| HeavyKeeper.NextColumn | pkg/algorithm/heavykeeper/heavykeeper.go:47-58 | from one row to the next the column of a key moves on by its second hash |
| HeavyKeeper.HeavyKeeper.Add | pkg/algorithm/heavykeeper/heavykeeper.go:47-83 | every cell stays below its adds, and exact where nothing else hit it |
| HeavyKeeper.HeavyKeeper.Query | pkg/algorithm/heavykeeper/heavykeeper.go:86-106 | never more than the adds sharing the fingerprint; at least the adds that hit the cell of a row where nothing else did; so exactly all of them when in some row all did |
| HeavyKeeper.HeavyKeeper.Clear | pkg/algorithm/heavykeeper/heavykeeper.go:109-119 | the sketch starts again |

## Left out

- HTTP server, proxy client, plugins, logging, metrics, configuration: plumbing around the core.
- Pebble, NutsDB and the file system are maps and byte sequences whose operations succeed, except for the failures named above; hashes are taken as injective, FNV as any function.
- Wall-clock time: sleeps and timers are only scheduling.
- CacheRun.FlushBuffer.WriterBuffer: modelled for a known object size; bodies of unknown size (chunked encoding) are left out.
- 64-bit overflow: `FillRange.InRange` names the inputs of `Fill` on which Go's arithmetic does not wrap; other sizes are unbounded naturals.
- Locks: the two flight groups are state machines over their critical sections, not classes with mutexes; the union loop is the only sequential piece and is a method.
- Readers.PartsReader.Read: closing a part always succeeds; an error of closing, which ends the response, is left out.
- Readers.PartsReader.WriteTo: closing a part always succeeds, as in Read.
- RangeHeader.Parse: starts where the header is split at commas and dashes; a piece is empty, no number, or a number with or without a plus sign.
- RangeHeader.ResolveMatchesRfc: for objects whose size fits an int64.
- Serving.Caching.GetContents: upstream readers are those without collapsed forwarding, which can be read again after io.EOF; requests that read through flights are in `Requests` and `CacheRun`.
- Serving.Caching.LazilyRespond: for objects that are not empty; for an empty one, given the range 0-0, the size minus one wraps around.
- Serving.Caching.Serve: for a range inside the object, as the parser gives it (`RangeHeader.SingleInside`); which fetch broke off is stated for requests whose chunk offsets fit a uint32.
- CacheHit.AsksOnlyMissing: when known chunks lie behind the range the search can miss the next one (`Search.BetweenMisses`), and more is asked for.
- Filling.FetchFills: of a fetch that closed before the end of its body, the last full block is kept back until a byte comes behind it.
- FillRange.FillRangeContext.PostRequest: the answer is a 206 whose Content-Range could be parsed and starts inside the object; a parse error, which returns the response unchanged, is left out.
- Readers.RangeReader.constructor: requires newStart <= rawEnd; a window wholly before the body is modelled in `ChunkFlight.Reading`, where io.Copy ignores the negative count.
- ChunkFlight.Reading: a flight reader with a negative count under a skip or limit reader is taken as io.Copy takes it, as an empty part.
- ChunkFlight.NoDeadlock: looks at one flight and takes its readers to read; what requests do is in `Waiting.MovesOnIffNotStuck`.
- ObjectFlight.NoDeadlock: takes the readers of the call to read.
- Waiting.MovesOnIffNotStuck: for the flights of one object and the first of them that has not ended, later ones may wait for it; clients take their responses, and the origin answers or fails.
- CacheRun.EveryResponseRight: the origin's object does not change during the run, and all its chunk offsets fit a uint32 (`CacheRun.SmallEnough`, exact by `OffsetWrap.RightIffFits`).
- The branch of lazilyRespond for a count of -1 is left out: getContents never returns it.
- The comparator that sorts available chunks never returns a negative number; chunks come ascending from the bitmap already.
- Lfu.Cache.Get: returns the mark by value, not a pointer into the entry.
- Lfu.Cache.Evict: the eviction channel is left out; its sends are dropped when it is full.
- Lfu.Cache.TopK: a negative k, for which the source panics, is not a value of the parameter.
- MoveBefore, MoveAfter, PushBackList, PushFrontList of the list add nothing new.
- HashRing.Consistent.GetN: requires a count that is not negative, for which the source panics, and that the loop ends (`HashRing.ReturnsIff` says exactly when).
- HashRing.Balancer.Select: requires a ring on which every member owns a point (`HashRing.FreshRingComplete` says which rings do); otherwise GetN may not return.
- HashRing.Consistent.Set: on an empty ring; Set and Remove on a ring in use remove points for weight 1 only.
- Disk.DiskBucket.Store: the frequency cache entry, the domain counter and the removed headers are left out.
- Purge.Migrator.PurgeDir: the exact result for a wrong inverted index is stated for bucket directories that are apart; iteration is over a snapshot of store and index.
- Migration.NeverLostIff: one migration at a time, a fixed bucket for each tier, no other writer; the memory bucket is left out.
- Migration.Migrate: the one-call form fails only on a missing chunk file; a copy that breaks off is in the state machine.
- HeavyKeeper.HeavyKeeper.Query: exactness is stated for a row whose cell all adds of the fingerprint hit; keys that share a fingerprint can fall into different columns.
- HEAD requests, vary header text, path tries, Cache-Control parsing, multipart bodies, the proxy's single flight, block groups and the reload of the frequency cache at start.
