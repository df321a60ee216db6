/** A disk bucket, storage/bucket/disk/disk.go: storing an object's metadata and discarding an
    object with all its vary variants. The index maps the hash of an object ID to its metadata;
    the hash is taken as injective, so that keys stand for hashes. */
module Disk {
  import opened Streams

  /** A Go string. */
  type Text = seq<byte>

  const IX: Text := [105, 120, 47]   // "ix/"
  const SLASH: Text := [47]

  /** What of object.Metadata matters here; `chunks` is the bitmap of stored chunks. */
  datatype Metadata = Metadata(path: Text, ext: Text, vary: bool, virtualKeys: seq<Text>, chunks: set<nat>)

  type Index = map<Text, Metadata>
  type Files = map<(Text, nat), seq<byte>>
  type Pairs = map<Text, Text>

  function Key(md: Metadata): Text {
    md.path + md.ext
  }

  /** The variants of one path lie side by side. */
  lemma VariantsDiffer(a: Metadata, b: Metadata)
    requires a.path == b.path
    ensures Key(a) == Key(b) <==> a.ext == b.ext
  {
    assert Key(a)[|a.path|..] == a.ext && Key(b)[|b.path|..] == b.ext;
  }

  /** Every entry is stored under its own key. */
  ghost predicate IndexOk(index: Index) {
    forall k :: k in index ==> Key(index[k]) == k
  }

  /** The keys of the variants of a vary index; those equal to its own are skipped. */
  function Kids(md: Metadata): seq<Text> {
    if md.vary then seq(|md.virtualKeys|, j requires 0 <= j < |md.virtualKeys| => md.path + md.virtualKeys[j]) else []
  }

  /** Each virtual key of a vary index, behind the path, is the key of a variant; an object that is no vary
      index has none. */
  lemma KidsAre(md: Metadata, x: Text)
    ensures x in Kids(md) <==> md.vary && exists v :: v in md.virtualKeys && x == md.path + v
  {
    if md.vary {
      if x in Kids(md) {
        var j :| 0 <= j < |md.virtualKeys| && Kids(md)[j] == x;
        assert md.virtualKeys[j] in md.virtualKeys;
      }
      if exists v :: v in md.virtualKeys && x == md.path + v {
        var v :| v in md.virtualKeys && x == md.path + v;
        var j :| 0 <= j < |md.virtualKeys| && md.virtualKeys[j] == v;
        assert Kids(md)[j] == x;
      }
    }
  }

  /** discard: the entry goes first, then its variants one by one. */
  function Discarded(index: Index, k: Text): (r: Index)
    ensures r.Keys <= index.Keys && |r| <= |index|
    decreases |index|, 0, 0
  {
    if k !in index then index
    else
      Shrinks(index, k);
      Variants(index - {k}, k, Kids(index[k]))
  }

  /** The loop over the virtual keys. */
  function Variants(index: Index, self: Text, kids: seq<Text>): (r: Index)
    ensures r.Keys <= index.Keys && |r| <= |index|
    decreases |index|, 1, |kids|
  {
    if kids == [] then index
    else
      var n := |kids| - 1;
      var before := Variants(index, self, kids[..n]);
      if kids[n] == self then before else Discarded(before, kids[n])
  }

  lemma Shrinks(index: Index, k: Text)
    requires k in index
    ensures |index - {k}| < |index|
  {
    assert (index - {k}).Keys == index.Keys - {k};
    assert |(index - {k}).Keys| == |index.Keys| - 1;
  }

  /** After i turns of that loop. */
  function FirstVariants(index: Index, self: Text, kids: seq<Text>, i: nat): Index
    requires i <= |kids|
  {
    Variants(index, self, kids[..i])
  }

  lemma VariantsStep(index: Index, self: Text, kids: seq<Text>, i: nat)
    requires i < |kids|
    ensures var before := FirstVariants(index, self, kids, i);
            FirstVariants(index, self, kids, i + 1) == if kids[i] == self then before else Discarded(before, kids[i])
  {
    assert kids[..i + 1][..i] == kids[..i];
  }

  // ---- What is removed: everything reachable through vary keys ----

  ghost predicate Edge(index: Index, a: Text, b: Text) {
    a in index && b != a && b in Kids(index[a])
  }

  ghost predicate Path(index: Index, p: seq<Text>, k: Text, x: Text) {
    && p != [] && p[0] == k && p[|p| - 1] == x
    && (forall i :: 0 <= i < |p| ==> p[i] in index)
    && forall i :: 0 <= i < |p| - 1 ==> Edge(index, p[i], p[i + 1])
  }

  ghost predicate Reaches(index: Index, k: Text, x: Text) {
    exists p :: Path(index, p, k, x)
  }

  ghost predicate Sub(r: Index, index: Index) {
    forall k :: k in r ==> k in index && r[k] == index[k]
  }

  /** Whatever a removed entry points to is removed too. */
  ghost predicate Closed(index: Index, r: Index) {
    forall a, b :: a in index && a !in r && b in index && Edge(index, a, b) ==> b !in r
  }

  lemma ClosedTwice(index: Index, mid: Index, r: Index)
    requires Sub(mid, index) && Sub(r, mid) && Closed(index, mid) && Closed(mid, r)
    ensures Sub(r, index) && Closed(index, r)
  {
    forall a, b | a in index && a !in r && b in index && Edge(index, a, b) ensures b !in r {
      if a in mid && b in mid {
        assert Edge(mid, a, b);
      }
    }
  }

  lemma {:induction false} DiscardCloses(index: Index, k: Text)
    ensures var r := Discarded(index, k); Sub(r, index) && Closed(index, r) && k !in r
    decreases |index|, 0, 0
  {
    if k in index {
      var rest, r := index - {k}, Discarded(index, k);
      Shrinks(index, k);
      VariantsClose(rest, k, Kids(index[k]));
      forall a, b | a in index && a !in r && b in index && Edge(index, a, b) ensures b !in r {
        if a != k && b != k {
          assert Edge(rest, a, b);
        }
      }
    }
  }

  /** All variants are gone, and so is what they point to. */
  ghost predicate KidsGone(kids: seq<Text>, self: Text, r: Index) {
    forall c :: c in kids && c != self ==> c !in r
  }

  lemma KidsMore(kids: seq<Text>, self: Text, before: Index, r: Index)
    requires kids != [] && Sub(r, before) && KidsGone(kids[..|kids| - 1], self, before)
    requires kids[|kids| - 1] == self || kids[|kids| - 1] !in r
    ensures KidsGone(kids, self, r)
  {
    assert kids == kids[..|kids| - 1] + [kids[|kids| - 1]];
  }

  lemma {:induction false} VariantsClose(index: Index, self: Text, kids: seq<Text>)
    ensures var r := Variants(index, self, kids); Sub(r, index) && Closed(index, r) && KidsGone(kids, self, r)
    decreases |index|, 1, |kids|
  {
    if kids != [] {
      var n := |kids| - 1;
      var before, r := Variants(index, self, kids[..n]), Variants(index, self, kids);
      VariantsClose(index, self, kids[..n]);
      if kids[n] != self {
        DiscardCloses(before, kids[n]);
        ClosedTwice(index, before, r);
      }
      KidsMore(kids, self, before, r);
    }
  }

  lemma {:induction false} PathLost(index: Index, r: Index, p: seq<Text>, k: Text, x: Text, i: nat)
    requires Closed(index, r) && k !in r && Path(index, p, k, x) && i < |p|
    ensures p[i] !in r
  {
    if 0 < i {
      PathLost(index, r, p, k, x, i - 1);
      assert Edge(index, p[i - 1], p[i - 1 + 1]);
    }
  }

  lemma PathInside(index: Index, rest: Index, p: seq<Text>, k: Text, x: Text)
    requires Sub(rest, index) && Path(rest, p, k, x)
    ensures Path(index, p, k, x)
  {
    forall i | 0 <= i < |p| - 1 ensures Edge(index, p[i], p[i + 1]) {
      assert Edge(rest, p[i], p[i + 1]);
    }
  }

  lemma ReachesInside(index: Index, rest: Index, k: Text, x: Text)
    requires Sub(rest, index) && Reaches(rest, k, x)
    ensures Reaches(index, k, x)
  {
    var p :| Path(rest, p, k, x);
    PathInside(index, rest, p, k, x);
  }

  lemma ReachesBehind(index: Index, k: Text, c: Text, x: Text)
    requires Edge(index, k, c) && Reaches(index, c, x)
    ensures Reaches(index, k, x)
  {
    var p :| Path(index, p, c, x);
    var q := [k] + p;
    forall i | 0 <= i < |q| - 1 ensures Edge(index, q[i], q[i + 1]) {
      assert 0 < i ==> Edge(index, p[i - 1], p[i - 1 + 1]);
    }
    assert Path(index, q, k, x);
  }

  /** Only reachable entries are removed. */
  lemma {:induction false} DiscardReaches(index: Index, k: Text, x: Text)
    requires x in index && x !in Discarded(index, k)
    ensures Reaches(index, k, x)
    decreases |index|, 0, 0
  {
    if x == k {
      assert Path(index, [k], k, k);
    } else {
      var rest := index - {k};
      Shrinks(index, k);
      var c := VariantsReach(rest, k, Kids(index[k]), x);
      ReachesInside(index, rest, c, x);
      ReachesBehind(index, k, c, x);
    }
  }

  lemma {:induction false} VariantsReach(index: Index, self: Text, kids: seq<Text>, x: Text) returns (c: Text)
    requires x in index && x !in Variants(index, self, kids)
    ensures c in kids && c != self && Reaches(index, c, x)
    decreases |index|, 1, |kids|
  {
    var n := |kids| - 1;
    var before := Variants(index, self, kids[..n]);
    VariantsClose(index, self, kids[..n]);
    if x in before {
      c := kids[n];
      DiscardReaches(before, c, x);
      ReachesInside(index, before, c, x);
    } else {
      c := VariantsReach(index, self, kids[..n], x);
    }
  }

  /** For every index, cyclic vary keys included: an entry is removed if and only if it is
      reachable from the discarded one through vary keys of present entries. */
  lemma DiscardExact(index: Index, k: Text, x: Text)
    requires x in index
    ensures x !in Discarded(index, k) <==> Reaches(index, k, x)
    ensures x in Discarded(index, k) ==> Discarded(index, k)[x] == index[x]
  {
    var r := Discarded(index, k);
    DiscardCloses(index, k);
    if x !in r {
      DiscardReaches(index, k, x);
    } else if p :| Path(index, p, k, x) {
      PathLost(index, r, p, k, x, |p| - 1);
    }
  }

  /** A vary index takes with it every variant it lists. */
  lemma VariantGoes(index: Index, a: Text, b: Text)
    requires IndexOk(index) && a in index && b in index && index[a].vary
    requires index[b].path == index[a].path && index[b].ext in index[a].virtualKeys
    ensures b !in Discarded(index, a)
  {
    KidsAre(index[a], b);
    DiscardCloses(index, a);
    assert b != a ==> Edge(index, a, b);
  }

  // ---- Chunk files and inverted index ----

  /** The key of the inverted index for directory purges. */
  function IxKey(bucket: Text, key: Text): Text {
    IX + bucket + SLASH + key
  }

  /** The chunk files and the inverted index entries of the entries that are gone. */
  function FileSet(was: Index, now: Index): set<(Text, nat)> {
    set k, c | k in was && k !in now && c in was[k].chunks :: (k, c)
  }

  function IxSet(bucket: Text, was: Index, now: Index): set<Text> {
    set k | k in was && k !in now :: IxKey(bucket, k)
  }

  /** From one index to the other exactly the chunk files and inverted index entries of the
      entries that are gone were removed. */
  ghost predicate Follows(bucket: Text, was: Index, now: Index, files: Files, after: Files, kv: Pairs, kv': Pairs) {
    after == files - FileSet(was, now) && kv' == kv - IxSet(bucket, was, now)
  }

  /** Chunk c of object x is removed if and only if x is gone and its metadata knows the chunk, and the entry y
      of the inverted index if and only if it is that of an object that is gone. */
  lemma FollowsMeans(bucket: Text, was: Index, now: Index, f0: Files, f1: Files, kv0: Pairs, kv1: Pairs)
    requires Follows(bucket, was, now, f0, f1, kv0, kv1)
    ensures forall x: Text, c: nat :: (x, c) in f0 ==>
              ((x, c) !in f1 <==> x in was && x !in now && c in was[x].chunks)
    ensures forall f :: f in f1 ==> f in f0 && f1[f] == f0[f]
    ensures forall y :: y in kv0 ==> (y !in kv1 <==> exists k :: k in was && k !in now && y == IxKey(bucket, k))
    ensures forall y :: y in kv1 ==> y in kv0 && kv1[y] == kv0[y]
  {
  }

  lemma FollowsTwice(bucket: Text, was: Index, mid: Index, now: Index,
                     f0: Files, f1: Files, f2: Files, kv0: Pairs, kv1: Pairs, kv2: Pairs)
    requires Sub(mid, was) && Sub(now, mid)
    requires Follows(bucket, was, mid, f0, f1, kv0, kv1) && Follows(bucket, mid, now, f1, f2, kv1, kv2)
    ensures Follows(bucket, was, now, f0, f2, kv0, kv2)
  {
    GoneTwice(was, mid, now, bucket);
  }

  lemma GoneTwice(was: Index, mid: Index, now: Index, bucket: Text)
    requires Sub(mid, was) && Sub(now, mid)
    ensures FileSet(was, now) == FileSet(was, mid) + FileSet(mid, now)
    ensures IxSet(bucket, was, now) == IxSet(bucket, was, mid) + IxSet(bucket, mid, now)
  {
  }

  /** The entry itself goes first from the index and last from the rest. */
  lemma FollowsSelf(bucket: Text, was: Index, k: Text, now: Index, f0: Files, f1: Files, kv0: Pairs, kv1: Pairs)
    requires k in was && Sub(now, was - {k}) && Follows(bucket, was - {k}, now, f0, f1, kv0, kv1)
    ensures Follows(bucket, was, now, f0, f1 - OwnFiles(k, was[k].chunks), kv0, kv1 - {IxKey(bucket, k)})
  {
    GoneTwice(was, was - {k}, now, bucket);
    assert FileSet(was, was - {k}) == OwnFiles(k, was[k].chunks);
    assert IxSet(bucket, was, was - {k}) == {IxKey(bucket, k)};
  }

  function OwnFiles(k: Text, chunks: set<nat>): set<(Text, nat)> {
    set c | c in chunks :: (k, c)
  }

  lemma FollowsNone(bucket: Text, was: Index, files: Files, kv: Pairs)
    ensures Follows(bucket, was, was, files, files, kv, kv)
  {
    assert FileSet(was, was) == {} && IxSet(bucket, was, was) == {};
  }

  lemma DiscardMeans(bucket: Text, was: Index, k: Text, f0: Files, f1: Files, kv0: Pairs, kv1: Pairs)
    requires Follows(bucket, was, Discarded(was, k), f0, f1, kv0, kv1)
    ensures forall x :: x in was ==> (x in Discarded(was, k) <==> !Reaches(was, k, x))
    ensures forall x: Text, c: nat :: (x, c) in f0 ==>
              ((x, c) in f1 <==> !(x in was && Reaches(was, k, x) && c in was[x].chunks))
  {
    forall x | x in was ensures x in Discarded(was, k) <==> !Reaches(was, k, x) {
      DiscardExact(was, k, x);
    }
    FollowsMeans(bucket, was, Discarded(was, k), f0, f1, kv0, kv1);
  }

  class SharedKV {
    var pairs: Pairs

    constructor ()
      ensures pairs == map[]
    {
      pairs := map[];
    }
  }

  class DiskBucket {
    const id: Text
    const sharedkv: SharedKV
    var index: Index
    var files: Files

    constructor (id: Text, sharedkv: SharedKV)
      ensures this.id == id && this.sharedkv == sharedkv && index == map[] && files == map[]
    {
      this.id, this.sharedkv, index, files := id, sharedkv, map[], map[];
    }

    method Store(md: Metadata)
      modifies this, sharedkv
      ensures index == old(index)[Key(md) := md] && files == old(files)
      ensures sharedkv.pairs == old(sharedkv.pairs)[IxKey(id, Key(md)) := Key(md)]
    {
      index := index[Key(md) := md];
      sharedkv.pairs := sharedkv.pairs[IxKey(id, Key(md)) := Key(md)];
    }

    /** Discard and DiscardWithHash: what is reachable from the object through vary keys is gone, with its
        chunk files, and everything else is as it was. An unknown object is an error and changes nothing. */
    method Discard(k: Text) returns (ok: bool)
      requires IndexOk(index)
      modifies this, sharedkv
      ensures ok <==> k in old(index)
      ensures index == Discarded(old(index), k)
      ensures Follows(id, old(index), index, old(files), files, old(sharedkv.pairs), sharedkv.pairs)
      ensures forall x :: x in old(index) ==> (x in index <==> !Reaches(old(index), k, x))
      ensures forall x: Text, c: nat :: (x, c) in old(files) ==>
                ((x, c) in files <==> !(x in old(index) && Reaches(old(index), k, x) && c in old(index)[x].chunks))
      decreases |index|, 2
    {
      ghost var was, f0, kv0 := index, files, sharedkv.pairs;
      ok := k in index;
      if ok {
        DiscardMetadata(index[k]);
      } else {
        FollowsNone(id, index, files, sharedkv.pairs);
      }
      DiscardMeans(id, was, k, f0, files, kv0, sharedkv.pairs);
    }

    method DiscardMetadata(md: Metadata)
      requires IndexOk(index) && Key(md) in index && index[Key(md)] == md
      modifies this, sharedkv
      ensures index == Discarded(old(index), Key(md))
      ensures Follows(id, old(index), index, old(files), files, old(sharedkv.pairs), sharedkv.pairs)
      decreases |index|, 1
    {
      var k := Key(md);
      ghost var was := index;
      Shrinks(was, k);
      VariantsClose(was - {k}, k, Kids(md));
      index := index - {k};
      DiscardVariants(md, k);
      FollowsSelf(id, was, k, index, old(files), files, old(sharedkv.pairs), sharedkv.pairs);
      RemoveFiles(k, md.chunks);
      sharedkv.pairs := sharedkv.pairs - {IxKey(id, k)};
    }

    method DiscardVariants(md: Metadata, k: Text)
      requires IndexOk(index) && k == Key(md)
      modifies this, sharedkv
      ensures index == Variants(old(index), k, Kids(md))
      ensures Follows(id, old(index), index, old(files), files, old(sharedkv.pairs), sharedkv.pairs)
      decreases |index|, 4
    {
      ghost var was, kids := index, Kids(md);
      FollowsNone(id, was, files, sharedkv.pairs);
      var i := 0;
      while md.vary && i < |md.virtualKeys|
        invariant i <= |md.virtualKeys| && (!md.vary ==> i == 0)
        invariant |index| <= |was| && Sub(index, was) && index == FirstVariants(was, k, kids, i)
        invariant Follows(id, was, index, old(files), files, old(sharedkv.pairs), sharedkv.pairs)
      {
        VariantsStep(was, k, kids, i);
        DiscardVariant(md.path + md.virtualKeys[i], k, was, old(files), old(sharedkv.pairs));
        i := i + 1;
      }
      assert kids[..i] == kids;
    }

    /** One turn of the loop over the virtual keys. */
    method DiscardVariant(oid: Text, self: Text, ghost was: Index, ghost f0: Files, ghost kv0: Pairs)
      requires Sub(index, was) && IndexOk(was) && Follows(id, was, index, f0, files, kv0, sharedkv.pairs)
      modifies this, sharedkv
      ensures index == if oid == self then old(index) else Discarded(old(index), oid)
      ensures Sub(index, was) && |index| <= |old(index)|
      ensures Follows(id, was, index, f0, files, kv0, sharedkv.pairs)
      decreases |index|, 3
    {
      if oid == self {
        return;
      }
      ghost var mid, f1, kv1 := index, files, sharedkv.pairs;
      DiscardCloses(mid, oid);
      var _ := Discard(oid);
      FollowsTwice(id, was, mid, index, f0, f1, files, kv0, kv1, sharedkv.pairs);
    }

    method RemoveFiles(k: Text, chunks: set<nat>)
      modifies this`files
      ensures files == old(files) - OwnFiles(k, chunks)
    {
      var todo := chunks;
      while todo != {}
        invariant todo <= chunks && files == old(files) - OwnFiles(k, chunks - todo)
      {
        var x :| x in todo;
        files := files - {(k, x)};
        todo := todo - {x};
      }
    }
  }
}
