/** Moving an object between tiers, storage/bucket/disk/disk.go and storage/migrator.go: the steps
    of Migrate, between any two of which another request may call Select. */
module Migration {
  import opened Streams
  import opened Disk

  datatype Content = Content(index: Index, files: Files)

  /** What the selector of a tier gives for the object: no bucket, or one. Tier 0 is hot, 1 warm,
      2 cold. */
  datatype Slot = Nil | Bucket(c: Content)

  type Tiers = seq<Slot>

  const WARM := 1

  /** Migrate has copied all chunks but `todo`, then stored the metadata in the target, then
      removed the entry from the source, i of its variants, and all chunk files but `todo`. Or it has
      given up, and the copy of chunk x may have been left torn. */
  datatype Phase =
    | Copying(todo: set<nat>)
    | Stored
    | Dropping(i: nat)
    | Removing(todo: set<nat>)
    | Aborted
    | Torn(x: nat, partial: seq<byte>)

  datatype Job = Job(src: nat, dest: nat, k: Text, md: Metadata)

  datatype State = State(tiers: Tiers, phase: Phase)

  datatype Event =
    | Copy(x: nat)
    | GiveUp                                  // a file cannot be opened, or the metadata not stored
    | CopyFails(x: nat, partial: seq<byte>)   // closing the writer still puts the partial file in place
    | StoreTarget
    | DropEntry
    | DropVariant
    | DropFiles
    | RemoveFile(x: nat)

  ghost predicate ValidJob(j: Job, ts: Tiers) {
    && |ts| == 3 && j.src < 3 && j.dest < 3 && j.src != j.dest && ts[WARM].Bucket?
    && ts[j.src].Bucket? && ts[j.dest].Bucket? && Key(j.md) == j.k
  }

  ghost predicate Enabled(j: Job, s: State, e: Event)
    requires ValidJob(j, s.tiers)
  {
    var src, dest, p := s.tiers[j.src].c, s.tiers[j.dest].c, s.phase;
    match e
    case Copy(x) => p.Copying? && x in p.todo && (j.k, x) in src.files
    case GiveUp => p.Copying?
    case CopyFails(x, partial) => p.Copying? && x in p.todo && (j.k, x) in src.files && partial <= src.files[(j.k, x)]
    case StoreTarget => p.Copying? && p.todo == {}
    case DropEntry => p.Stored?
    case DropVariant => p.Dropping? && p.i < |Kids(j.md)|
    case DropFiles => p.Dropping? && p.i == |Kids(j.md)|
    case RemoveFile(x) => p.Removing? && x in p.todo
  }

  function DropKid(c: Content, self: Text, kid: Text): Content {
    if kid == self then c
    else
      var now := Discarded(c.index, kid);
      Content(now, c.files - FileSet(c.index, now))
  }

  ghost function Apply(j: Job, s: State, e: Event): State
    requires ValidJob(j, s.tiers) && Enabled(j, s, e)
  {
    var src, dest, ts := s.tiers[j.src].c, s.tiers[j.dest].c, s.tiers;
    match e
    case Copy(x) =>
      State(ts[j.dest := Bucket(dest.(files := dest.files[(j.k, x) := src.files[(j.k, x)]]))],
          Copying(s.phase.todo - {x}))
    case GiveUp => State(ts, Aborted)
    case CopyFails(x, partial) =>
      State(ts[j.dest := Bucket(dest.(files := dest.files[(j.k, x) := partial]))], Torn(x, partial))
    case StoreTarget =>
      State(ts[j.dest := Bucket(dest.(index := dest.index[j.k := j.md]))], Stored)
    case DropEntry =>
      State(ts[j.src := Bucket(src.(index := src.index - {j.k}))], Dropping(0))
    case DropVariant =>
      State(ts[j.src := Bucket(DropKid(src, j.k, Kids(j.md)[s.phase.i]))], Dropping(s.phase.i + 1))
    case DropFiles =>
      State(ts, Removing(j.md.chunks))
    case RemoveFile(x) =>
      State(ts[j.src := Bucket(src.(files := src.files - {(j.k, x)}))], Removing(s.phase.todo - {x}))
  }

  /** The tier Select takes: hot, warm, cold, the first that has the object; warm if none has. */
  function First(ts: Tiers, k: Text): nat
    requires |ts| == 3
  {
    if Has(ts[0], k) then 0
    else if Has(ts[1], k) then 1
    else if Has(ts[2], k) then 2
    else WARM
  }

  /** No tier before it has the object, it has it if any tier does, and is the warm one if none does. */
  lemma FirstHas(ts: Tiers, k: Text, t: nat)
    requires |ts| == 3 && t < 3
    ensures First(ts, k) < 3 && Select(ts, k) == ts[First(ts, k)]
    ensures Has(ts[t], k) ==> Has(Select(ts, k), k) && First(ts, k) <= t
    ensures !Has(ts[0], k) && !Has(ts[1], k) && !Has(ts[2], k) ==> Select(ts, k) == ts[1]
  {
  }

  function Select(ts: Tiers, k: Text): Slot
    requires |ts| == 3
  {
    ts[First(ts, k)]
  }

  predicate Has(s: Slot, k: Text) {
    s.Bucket? && k in s.c.index
  }

  /** The bucket has the entry and all its chunk files, with the object's bytes. */
  ghost predicate Holds(c: Content, k: Text, md: Metadata, data: nat -> seq<byte>) {
    && k in c.index && c.index[k] == md
    && forall x :: x in md.chunks ==> (k, x) in c.files && c.files[(k, x)] == data(x)
  }

  ghost predicate Intact(s: Slot, k: Text, md: Metadata, data: nat -> seq<byte>) {
    Has(s, k) ==> Holds(s.c, k, md, data)
  }

  /** Before: the source has the object, and every tier that has it has it whole. */
  ghost predicate Start(j: Job, ts: Tiers, data: nat -> seq<byte>) {
    && ValidJob(j, ts) && Holds(ts[j.src].c, j.k, j.md, data)
    && forall t :: 0 <= t < 3 ==> Intact(ts[t], j.k, j.md, data)
  }

  ghost predicate Inv(j: Job, ts: Tiers, s: State, data: nat -> seq<byte>)
    requires |ts| == 3
  {
    && ValidJob(j, s.tiers)
    && (forall t :: 0 <= t < 3 && (s.phase.Torn? ==> t != j.dest) ==> Intact(s.tiers[t], j.k, j.md, data))
    && var src, dest := s.tiers[j.src].c, s.tiers[j.dest].c;
       && (s.phase.Copying? || s.phase.Torn? || s.phase.Aborted? ==> forall t :: 0 <= t < 3 ==>
           Has(s.tiers[t], j.k) == Has(ts[t], j.k))
       && match s.phase
          case Copying(todo) =>
            && todo <= j.md.chunks && Holds(src, j.k, j.md, data)
            && forall x :: x in j.md.chunks && x !in todo ==> (j.k, x) in dest.files && dest.files[(j.k, x)] == data(x)
          case Stored => Holds(src, j.k, j.md, data) && Holds(dest, j.k, j.md, data)
          case Dropping(i) => i <= |Kids(j.md)| && j.k !in src.index && Holds(dest, j.k, j.md, data)
          case Removing(_) => j.k !in src.index && Holds(dest, j.k, j.md, data)
          case Aborted => Holds(src, j.k, j.md, data)
          case Torn(x, partial) =>
            && Holds(src, j.k, j.md, data) && x in j.md.chunks && (j.k, x) in dest.files &&
                dest.files[(j.k, x)] == partial
            && (Has(ts[j.dest], j.k) ==> j.k in dest.index && dest.index[j.k] == j.md)
            && (Has(ts[j.dest], j.k) ==> forall y :: y in j.md.chunks && y != x ==>
                (j.k, y) in dest.files && dest.files[(j.k, y)] == data(y))
  }

  lemma KidInv(c: Content, k: Text, kid: Text)
    requires k !in c.index
    ensures k !in DropKid(c, k, kid).index
  {
    if kid != k {
      DiscardCloses(c.index, kid);
    }
  }

  lemma StepInv(j: Job, ts: Tiers, s: State, e: Event, data: nat -> seq<byte>)
    requires |ts| == 3 && Inv(j, ts, s, data) && Enabled(j, s, e)
    ensures Inv(j, ts, Apply(j, s, e), data)
  {
    if e.DropVariant? {
      KidInv(s.tiers[j.src].c, j.k, Kids(j.md)[s.phase.i]);
    }
  }

  ghost predicate Run(j: Job, ts: Tiers, events: seq<Event>, s: State) {
    if events == [] then s == State(ts, Copying(j.md.chunks))
    else
      var n := |events| - 1;
      exists t: State ::
        && Run(j, ts, events[..n], t) && ValidJob(j, t.tiers) && Enabled(j, t, events[n])
        && s == Apply(j, t, events[n])
  }

  lemma {:induction false} RunInv(j: Job, ts: Tiers, events: seq<Event>, s: State, data: nat -> seq<byte>)
    requires Start(j, ts, data) && Run(j, ts, events, s)
    ensures Inv(j, ts, s, data)
  {
    if events != [] {
      var n := |events| - 1;
      var t: State :|
        && Run(j, ts, events[..n], t) && ValidJob(j, t.tiers) && Enabled(j, t, events[n])
        && s == Apply(j, t, events[n]);
      RunInv(j, ts, events[..n], t, data);
      StepInv(j, ts, t, events[n], data);
    }
  }

  /** A copy broke off over the bucket that Select gives, and left less than the chunk there. */
  ghost predicate TornInUse(j: Job, ts: Tiers, s: State, data: nat -> seq<byte>)
    requires |ts| == 3
  {
    s.phase.Torn? && s.phase.partial != data(s.phase.x) && First(ts, j.k) == j.dest
  }

  /** The bucket Select gives has the object's entry and all its chunk files. */
  ghost predicate Served(j: Job, s: State, data: nat -> seq<byte>) {
    |s.tiers| == 3 && Select(s.tiers, j.k).Bucket? && Holds(Select(s.tiers, j.k).c, j.k, j.md, data)
  }

  /** At every intermediate step, for every pair of tiers and every chunk set, the object is served,
      unless a copy broke off over the very bucket that serves it; and then it is not. */
  lemma ServedIffNotTorn(j: Job, ts: Tiers, events: seq<Event>, s: State, data: nat -> seq<byte>)
    requires Start(j, ts, data) && Run(j, ts, events, s)
    ensures Served(j, s, data) <==> !TornInUse(j, ts, s, data)
  {
    RunInv(j, ts, events, s, data);
  }

  /** The target is not the bucket that serves the object already, or there is not a byte to lose. */
  ghost predicate Safe(j: Job, ts: Tiers, data: nat -> seq<byte>)
    requires |ts| == 3
  {
    First(ts, j.k) != j.dest || forall x :: x in j.md.chunks ==> data(x) == []
  }

  lemma ServedWhenSafe(j: Job, ts: Tiers, events: seq<Event>, s: State, data: nat -> seq<byte>)
    requires Start(j, ts, data) && Run(j, ts, events, s) && Safe(j, ts, data)
    ensures Served(j, s, data)
  {
    ServedIffNotTorn(j, ts, events, s, data);
    if s.phase.Torn? {
      TornPrefix(j, ts, events, s, data);
    }
  }

  /** That is exactly when no run of a migration can make the object unreadable. */
  lemma NeverLostIff(j: Job, ts: Tiers, data: nat -> seq<byte>)
    requires Start(j, ts, data)
    ensures Safe(j, ts, data) <==> forall events, s: State :: Run(j, ts, events, s) ==> Served(j, s, data)
  {
    if Safe(j, ts, data) {
      forall events, s: State | Run(j, ts, events, s) ensures Served(j, s, data) {
        ServedWhenSafe(j, ts, events, s, data);
      }
    } else {
      var x :| x in j.md.chunks && data(x) != [];
      var events, s := TearsChunk(j, ts, data, x);
      ServedIffNotTorn(j, ts, events, s, data);
      assert !(Run(j, ts, events, s) ==> Served(j, s, data));
    }
  }

  /** What a broken copy leaves is the beginning of the chunk. */
  lemma TornPrefix(j: Job, ts: Tiers, events: seq<Event>, s: State, data: nat -> seq<byte>)
    requires Start(j, ts, data) && Run(j, ts, events, s) && s.phase.Torn?
    ensures s.phase.x in j.md.chunks && s.phase.partial <= data(s.phase.x)
  {
    var n := |events| - 1;
    var t: State :|
      && Run(j, ts, events[..n], t) && ValidJob(j, t.tiers) && Enabled(j, t, events[n])
      && s == Apply(j, t, events[n]);
    RunInv(j, ts, events[..n], t, data);
  }

  lemma TearsChunk(j: Job, ts: Tiers, data: nat -> seq<byte>, x: nat) returns (events: seq<Event>, s: State)
    requires Start(j, ts, data) && First(ts, j.k) == j.dest && x in j.md.chunks && data(x) != []
    ensures Run(j, ts, events, s) && TornInUse(j, ts, s, data)
  {
    var s0, e := State(ts, Copying(j.md.chunks)), CopyFails(x, []);
    assert Run(j, ts, [], s0);
    events, s := [e], Apply(j, s0, e);
    assert events[..0] == [];
  }

  /** Hot and warm both hold an object of one chunk, and a promotion breaks off after one byte: every
      request now gets the hot bucket, whose chunk file is torn. */
  lemma PromotionTears(k: Text, md: Metadata)
    requires md == Metadata(k, [], false, [], {0})
    ensures var c := Content(map[k := md], map[(k, 0) := [1, 2]]);
            var j, ts, s := Job(1, 0, k, md), [Bucket(c), Bucket(c), Nil],
                            State([Bucket(c.(files := map[(k, 0) := [1]])), Bucket(c), Nil], Torn(0, [1]));
            && Start(j, ts, _ => [1, 2]) && Run(j, ts, [CopyFails(0, [1])], s)
            && Select(s.tiers, k).Bucket? && Select(s.tiers, k).c.files[(k, 0)] == [1]
  {
    var c: Content := Content(map[k := md], map[(k, 0) := [1, 2]]);
    var j, ts := Job(1, 0, k, md), [Bucket(c), Bucket(c), Nil];
    var s0 := State(ts, Copying({0}));
    assert k + [] == k;
    assert Run(j, ts, [], s0);
    var e := CopyFails(0, [1]);
    assert [e][..0] == [];
    assert c.files[(k, 0) := [1]] == map[(k, 0) := [1]];
    assert Apply(j, s0, e).tiers == [Bucket(c.(files := map[(k, 0) := [1]])), Bucket(c), Nil];
  }

  // ---- What else the source loses ----

  /** The source's index, as the phase demands; nothing but the object enters the target's. */
  ghost predicate Exact(j: Job, ts: Tiers, s: State)
    requires ValidJob(j, ts)
  {
    && ValidJob(j, s.tiers)
    && var was, now, into, held := ts[j.src].c.index, s.tiers[j.src].c.index, ts[j.dest].c.index,
        s.tiers[j.dest].c.index;
       match s.phase
       case Copying(_) => now == was && held == into
       case Aborted => now == was && held == into
       case Torn(_, _) => now == was && held == into
       case Stored => now == was && held == into[j.k := j.md]
       case Dropping(i) =>
         i <= |Kids(j.md)| && now == FirstVariants(was - {j.k}, j.k, Kids(j.md), i) && held == into[j.k := j.md]
       case Removing(_) => now == Discarded(was, j.k) && held == into[j.k := j.md]
  }

  lemma StepExact(j: Job, ts: Tiers, s: State, e: Event)
    requires ValidJob(j, ts) && Exact(j, ts, s) && Enabled(j, s, e) && Has(ts[j.src], j.k)
    requires ts[j.src].c.index[j.k] == j.md
    ensures Exact(j, ts, Apply(j, s, e))
  {
    var was, now, kids := ts[j.src].c.index, s.tiers[j.src].c.index, Kids(j.md);
    if e.DropVariant? {
      VariantsStep(was - {j.k}, j.k, kids, s.phase.i);
    } else if e.DropEntry? {
      NoVariantsYet(was - {j.k}, j.k, kids);
    } else if e.DropFiles? {
      AllVariants(was, j.k, kids);
    }
  }

  lemma NoVariantsYet(index: Index, self: Text, kids: seq<Text>)
    ensures FirstVariants(index, self, kids, 0) == index
  {
  }

  lemma AllVariants(index: Index, k: Text, kids: seq<Text>)
    requires k in index && kids == Kids(index[k])
    ensures FirstVariants(index - {k}, k, kids, |kids|) == Discarded(index, k)
  {
    assert kids[..|kids|] == kids;
  }

  lemma {:induction false} RunExact(j: Job, ts: Tiers, events: seq<Event>, s: State)
    requires ValidJob(j, ts) && Has(ts[j.src], j.k) && ts[j.src].c.index[j.k] == j.md && Run(j, ts, events, s)
    ensures Exact(j, ts, s)
  {
    if events != [] {
      var n := |events| - 1;
      var t: State :|
        && Run(j, ts, events[..n], t) && ValidJob(j, t.tiers) && Enabled(j, t, events[n])
        && s == Apply(j, t, events[n]);
      RunExact(j, ts, events[..n], t);
      StepExact(j, ts, t, events[n]);
    }
  }

  /** Migrating an object takes with it from the source exactly what is reachable from it through
      vary keys; the target gets none of that. A variant stays where it is if and only if it is
      not reachable. */
  lemma VariantsLostIff(j: Job, ts: Tiers, events: seq<Event>, s: State, x: Text)
    requires ValidJob(j, ts) && Has(ts[j.src], j.k) && ts[j.src].c.index[j.k] == j.md && Run(j, ts, events, s)
    requires s.phase.Removing? && x in ts[j.src].c.index
    ensures ValidJob(j, s.tiers)
    ensures x !in s.tiers[j.src].c.index <==> Reaches(ts[j.src].c.index, j.k, x)
    ensures x != j.k ==> (x in s.tiers[j.dest].c.index <==> x in ts[j.dest].c.index)
  {
    RunExact(j, ts, events, s);
    DiscardExact(ts[j.src].c.index, j.k, x);
  }

  // ---- The chunk files ----

  /** The source has the files of all but what was dropped so far, and the target those of the chunks copied
      so far besides its own. */
  ghost predicate FilesExact(j: Job, ts: Tiers, s: State)
    requires ValidJob(j, ts) && Exact(j, ts, s)
  {
    var src, dest := ts[j.src].c, ts[j.dest].c;
    var now, have, got := s.tiers[j.src].c.index, s.tiers[j.src].c.files, s.tiers[j.dest].c.files;
    && (forall t :: 0 <= t < 3 && t != j.src && t != j.dest ==> s.tiers[t] == ts[t])
    && (forall x: Text, c: nat :: x != j.k ==> ((x, c) in got <==> (x, c) in dest.files))
    && (forall x: Text, c: nat :: x != j.k && (x, c) in got ==> got[(x, c)] == dest.files[(x, c)])
    && match s.phase
       case Copying(todo) =>
         && have == src.files && todo <= j.md.chunks && HasAll(src.files, j.k, j.md.chunks - todo)
         && got == Copied(dest.files, src.files, j.k, j.md.chunks - todo)
       case Stored => have == src.files && AllCopied(j, src.files, dest.files, got)
       case Dropping(_) =>
         have == src.files - FileSet(src.index - {j.k}, now) && AllCopied(j, src.files, dest.files, got)
       case Removing(todo) =>
         && todo <= j.md.chunks && AllCopied(j, src.files, dest.files, got)
         && have == src.files - FileSet(src.index - {j.k}, now) - OwnFiles(j.k, j.md.chunks - todo)
       case _ => have == src.files
  }

  ghost predicate HasAll(files: Files, k: Text, chunks: set<nat>) {
    forall x :: x in chunks ==> (k, x) in files
  }

  ghost predicate AllCopied(j: Job, from: Files, into: Files, got: Files) {
    HasAll(from, j.k, j.md.chunks) && got == Copied(into, from, j.k, j.md.chunks)
  }

  lemma CopyExact(j: Job, ts: Tiers, s: State, x: nat)
    requires ValidJob(j, ts) && Exact(j, ts, s) && FilesExact(j, ts, s) && Enabled(j, s, Copy(x))
    requires Exact(j, ts, Apply(j, s, Copy(x)))
    ensures FilesExact(j, ts, Apply(j, s, Copy(x)))
  {
    var done := j.md.chunks - s.phase.todo;
    CopiedMore(ts[j.dest].c.files, ts[j.src].c.files, j.k, done, x);
    assert j.md.chunks - (s.phase.todo - {x}) == done + {x};
  }

  lemma LessBoth(f: Files, a: set<(Text, nat)>, b: set<(Text, nat)>)
    ensures f - a - b == f - (a + b)
  {
  }

  /** Dropping a variant takes its files along. */
  lemma DropKidFiles(c: Content, f: Files, rest: Index, self: Text, kid: Text)
    requires c.files == f - FileSet(rest, c.index) && Sub(c.index, rest)
    ensures var d := DropKid(c, self, kid); d.files == f - FileSet(rest, d.index)
  {
    if kid != self {
      var now := Discarded(c.index, kid);
      DiscardCloses(c.index, kid);
      GoneTwice(rest, c.index, now, []);
      LessBoth(f, FileSet(rest, c.index), FileSet(c.index, now));
    }
  }

  lemma DropExact(j: Job, ts: Tiers, s: State)
    requires ValidJob(j, ts) && Exact(j, ts, s) && FilesExact(j, ts, s) && Enabled(j, s, DropVariant)
    requires Exact(j, ts, Apply(j, s, DropVariant))
    ensures FilesExact(j, ts, Apply(j, s, DropVariant))
  {
    var rest, kids, i := ts[j.src].c.index - {j.k}, Kids(j.md), s.phase.i;
    VariantsClose(rest, j.k, kids[..i]);
    DropKidFiles(s.tiers[j.src].c, ts[j.src].c.files, rest, j.k, kids[i]);
  }

  lemma RemoveOne(f: Files, k: Text, chunks: set<nat>, todo: set<nat>, x: nat)
    requires x in todo && todo <= chunks
    ensures f - OwnFiles(k, chunks - todo) - {(k, x)} == f - OwnFiles(k, chunks - (todo - {x}))
  {
    var done := chunks - todo;
    assert chunks - (todo - {x}) == done + {x};
    assert OwnFiles(k, done + {x}) == OwnFiles(k, done) + {(k, x)};
    LessBoth(f, OwnFiles(k, done), {(k, x)});
  }

  lemma RemoveExact(j: Job, ts: Tiers, s: State, x: nat)
    requires ValidJob(j, ts) && Exact(j, ts, s) && FilesExact(j, ts, s) && Enabled(j, s, RemoveFile(x))
    requires Exact(j, ts, Apply(j, s, RemoveFile(x)))
    ensures FilesExact(j, ts, Apply(j, s, RemoveFile(x)))
  {
    var left := ts[j.src].c.files - FileSet(ts[j.src].c.index - {j.k}, s.tiers[j.src].c.index);
    RemoveOne(left, j.k, j.md.chunks, s.phase.todo, x);
  }

  lemma LessNone(f: Files, index: Index, k: Text, chunks: set<nat>)
    ensures f - FileSet(index, index) == f && f - OwnFiles(k, chunks - chunks) == f
  {
    assert FileSet(index, index) == {} && OwnFiles(k, chunks - chunks) == {};
  }

  /** The steps between the loops. */
  lemma PhaseExact(j: Job, ts: Tiers, s: State, e: Event)
    requires ValidJob(j, ts) && Exact(j, ts, s) && FilesExact(j, ts, s) && Enabled(j, s, e)
    requires e.StoreTarget? || e.DropEntry? || e.DropFiles?
    requires Exact(j, ts, Apply(j, s, e))
    ensures FilesExact(j, ts, Apply(j, s, e))
  {
    if e.StoreTarget? {
      assert j.md.chunks - s.phase.todo == j.md.chunks;
    } else {
      LessNone(s.tiers[j.src].c.files, ts[j.src].c.index - {j.k}, j.k, j.md.chunks);
    }
  }

  lemma StepFiles(j: Job, ts: Tiers, s: State, e: Event)
    requires ValidJob(j, ts) && Exact(j, ts, s) && FilesExact(j, ts, s) && Enabled(j, s, e)
    requires Exact(j, ts, Apply(j, s, e))
    ensures FilesExact(j, ts, Apply(j, s, e))
  {
    match e
    case Copy(x) => CopyExact(j, ts, s, x);
    case DropVariant => DropExact(j, ts, s);
    case RemoveFile(x) => RemoveExact(j, ts, s, x);
    case GiveUp =>
    case CopyFails(_, _) =>
    case _ => PhaseExact(j, ts, s, e);
  }

  lemma {:induction false} RunFiles(j: Job, ts: Tiers, events: seq<Event>, s: State)
    requires ValidJob(j, ts) && Has(ts[j.src], j.k) && ts[j.src].c.index[j.k] == j.md && Run(j, ts, events, s)
    ensures Exact(j, ts, s) && FilesExact(j, ts, s)
  {
    RunExact(j, ts, events, s);
    if events == [] {
      assert j.md.chunks - j.md.chunks == {};
    } else {
      var n := |events| - 1;
      var t: State :|
        && Run(j, ts, events[..n], t) && ValidJob(j, t.tiers) && Enabled(j, t, events[n])
        && s == Apply(j, t, events[n]);
      RunFiles(j, ts, events[..n], t);
      StepFiles(j, ts, t, events[n]);
    }
  }

  /** What is left of the source's files, by then. */
  lemma SourceFiles(was: Index, k: Text, f: Files, x: Text, c: nat)
    requires k in was
    ensures var left := f - FileSet(was - {k}, Discarded(was, k)) - OwnFiles(k, was[k].chunks);
            && ((x, c) in left <==> (x, c) in f && !(x in was && Reaches(was, k, x) && c in was[x].chunks))
            && ((x, c) in left ==> left[(x, c)] == f[(x, c)])
  {
    DiscardCloses(was, k);
    if x in was {
      DiscardExact(was, k, x);
    }
    var now, rest := Discarded(was, k), was - {k};
    assert (x, c) in FileSet(rest, now) <==> x in rest && x !in now && c in rest[x].chunks;
    assert (x, c) in OwnFiles(k, was[k].chunks) <==> x == k && c in was[k].chunks;
  }

  lemma CopiedAt(into: Files, from: Files, k: Text, chunks: set<nat>, x: Text, c: nat)
    requires HasAll(from, k, chunks)
    ensures var got := Copied(into, from, k, chunks);
            if x == k && c in chunks then (x, c) in from && (x, c) in got && got[(x, c)] == from[(x, c)]
            else ((x, c) in got <==> (x, c) in into) && ((x, c) in got ==> got[(x, c)] == into[(x, c)])
  {
    var copies := map y | y in chunks :: (k, y) := from[(k, y)];
    assert (x, c) in copies <==> x == k && c in chunks;
  }

  lemma ThroughFiles(j: Job, ts: Tiers, events: seq<Event>, s: State)
    requires ValidJob(j, ts) && Has(ts[j.src], j.k) && ts[j.src].c.index[j.k] == j.md && Run(j, ts, events, s)
    requires s.phase == Removing({})
    ensures ValidJob(j, s.tiers) && forall t :: 0 <= t < 3 && t != j.src && t != j.dest ==> s.tiers[t] == ts[t]
    ensures var was := ts[j.src].c;
            s.tiers[j.src].c.files ==
            was.files - FileSet(was.index - {j.k}, Discarded(was.index, j.k)) - OwnFiles(j.k, j.md.chunks)
    ensures AllCopied(j, ts[j.src].c.files, ts[j.dest].c.files, s.tiers[j.dest].c.files)
  {
    RunFiles(j, ts, events, s);
    assert j.md.chunks - {} == j.md.chunks;
  }

  /** When it is through, the source has lost the chunk files of exactly the objects it has lost, the target
      has got those of the object and no others, and no other tier has changed. */
  lemma MigratedExactly(j: Job, ts: Tiers, events: seq<Event>, s: State, x: Text, c: nat)
    requires ValidJob(j, ts) && Has(ts[j.src], j.k) && ts[j.src].c.index[j.k] == j.md && Run(j, ts, events, s)
    requires s.phase == Removing({})
    ensures ValidJob(j, s.tiers) && forall t :: 0 <= t < 3 && t != j.src && t != j.dest ==> s.tiers[t] == ts[t]
    ensures var was, now := ts[j.src].c, s.tiers[j.src].c;
            && ((x, c) in now.files <==>
                (x, c) in was.files && !(x in was.index && Reaches(was.index, j.k, x) && c in was.index[x].chunks))
            && ((x, c) in now.files ==> now.files[(x, c)] == was.files[(x, c)])
    ensures var was, now, from := ts[j.dest].c.files, s.tiers[j.dest].c.files, ts[j.src].c.files;
            if x == j.k && c in j.md.chunks then (x, c) in from && (x, c) in now && now[(x, c)] == from[(x, c)]
            else ((x, c) in now <==> (x, c) in was) && ((x, c) in now ==> now[(x, c)] == was[(x, c)])
  {
    ThroughFiles(j, ts, events, s);
    SourceFiles(ts[j.src].c.index, j.k, ts[j.src].c.files, x, c);
    CopiedAt(ts[j.dest].c.files, ts[j.src].c.files, j.k, j.md.chunks, x, c);
  }

  /** It does happen: a vary index takes its one variant with it. */
  lemma VariantIsLost(p: Text, v: Text)
    requires v != []
    ensures var index: Index := map[p := Metadata(p, [], true, [v], {}), p + v := Metadata(p, v, false, [], {})];
            IndexOk(index) && Discarded(index, p) == map[]
  {
    var pv := p + v;
    var index: Index := map[p := Metadata(p, [], true, [v], {}), pv := Metadata(p, v, false, [], {})];
    assert p + [] == p && |pv| != |p|;
    assert Kids(index[p]) == [pv];
    assert Edge(index, p, pv);
    assert Path(index, [p, pv], p, pv) && Path(index, [p], p, p);
    DiscardExact(index, p, p);
    DiscardExact(index, p, pv);
  }

  /** Migrate as one call: the chunk files and the entry are in the target, the source has
      discarded the object, with its files and its entries of the inverted index. A missing chunk file
      stops it with indexes and source as they were, and the chunks copied until then in the target. */
  method Migrate(src: DiskBucket, dest: DiskBucket, k: Text) returns (ok: bool, ghost done: set<nat>)
    requires src != dest && src.sharedkv == dest.sharedkv && IndexOk(src.index)
    modifies src, dest, src.sharedkv
    ensures ok <==> k in old(src.index) && forall x :: x in old(src.index)[k].chunks ==> (k, x) in old(src.files)
    ensures done <= (if k in old(src.index) then old(src.index)[k].chunks else {})
    ensures (forall x :: x in done ==> (k, x) in old(src.files)) && (ok ==> done == old(src.index)[k].chunks)
    ensures dest.files == Copied(old(dest.files), old(src.files), k, done)
    ensures !ok ==> src.index == old(src.index) && src.files == old(src.files) && dest.index == old(dest.index)
    ensures !ok ==> src.sharedkv.pairs == old(src.sharedkv.pairs)
    ensures ok ==>
              && src.index == Discarded(old(src.index), k)
              && dest.index == old(dest.index)[k := old(src.index)[k]]
              && Follows(src.id, old(src.index), src.index, old(src.files), src.files,
                         old(src.sharedkv.pairs)[IxKey(dest.id, k) := k], src.sharedkv.pairs)
  {
    if k !in src.index {
      return false, {};
    }
    var md := src.index[k];
    ok, done := CopyChunks(src, dest, k, md.chunks);
    if ok {
      dest.Store(md);
      src.DiscardMetadata(md);
    }
  }

  ghost function Copied(into: Files, from: Files, k: Text, chunks: set<nat>): Files
    requires forall x :: x in chunks ==> (k, x) in from
  {
    into + map x | x in chunks :: (k, x) := from[(k, x)]
  }

  method CopyChunks(src: DiskBucket, dest: DiskBucket, k: Text, chunks: set<nat>)
    returns (ok: bool, ghost done: set<nat>)
    requires src != dest
    modifies dest`files
    ensures ok <==> forall x :: x in chunks ==> (k, x) in src.files
    ensures done <= chunks && (forall x :: x in done ==> (k, x) in src.files) && (ok ==> done == chunks)
    ensures dest.files == Copied(old(dest.files), src.files, k, done)
  {
    var todo := chunks;
    done := {};
    while todo != {}
      invariant done + todo == chunks && forall x :: x in done ==> (k, x) in src.files
      invariant dest.files == Copied(old(dest.files), src.files, k, done)
      decreases |todo|
    {
      var x :| x in todo;
      if (k, x) !in src.files {
        return false, done;
      }
      CopiedMore(old(dest.files), src.files, k, done, x);
      dest.files := dest.files[(k, x) := src.files[(k, x)]];
      todo, done := todo - {x}, done + {x};
    }
    return true, done;
  }

  lemma CopiedMore(into: Files, from: Files, k: Text, done: set<nat>, x: nat)
    requires (k, x) in from && forall y :: y in done ==> (k, y) in from
    ensures Copied(into, from, k, done)[(k, x) := from[(k, x)]] == Copied(into, from, k, done + {x})
  {
  }
}
