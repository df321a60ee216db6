/** Directory purge through the inverted index, storage/migrator.go. Buckets share one key-value
    store; the entry of object k in bucket b lies under "ix/b/k" and holds k. */
module Purge {
  import opened Disk
  import opened Hidden
  import KeyBound

  // ---- The inverted index ----

  /** Every object of the bucket is found through the index, and what is found is right. */
  ghost predicate Inverted(id: Text, index: Index, pairs: Pairs) {
    && (forall k :: k in index ==> IxKey(id, k) in pairs)
    && (forall k :: IxKey(id, k) in pairs ==> pairs[IxKey(id, k)] == k)
  }

  /** Neither bucket's directory lies inside the other's. */
  predicate Apart(a: Text, b: Text) {
    !(a + SLASH <= b + SLASH) && !(b + SLASH <= a + SLASH)
  }

  lemma IxPrefix(id: Text, x: Text, y: Text)
    ensures IxKey(id, x) <= IxKey(id, y) <==> x <= y
    ensures IxKey(id, x) == IxKey(id, y) ==> x == y
  {
    var p := IX + id + SLASH;
    assert IxKey(id, x) == p + x && IxKey(id, y) == p + y;
    assert (p + x)[|p|..] == x && (p + y)[|p|..] == y;
    if x <= y {
      assert (p + y)[..|p + x|] == p + x;
    }
    if p + x <= p + y {
      assert y[..|x|] == (p + y)[|p|..|p + x|] == x;
    }
  }

  lemma {:induction false} PrefixesCompare(a: Text, b: Text, s: Text)
    requires a <= s && b <= s
    ensures a <= b || b <= a
  {
    if |a| <= |b| {
      assert b[..|a|] == s[..|a|];
    } else {
      assert a[..|b|] == s[..|b|];
    }
  }

  lemma ApartKeys(a: Text, b: Text, x: Text, y: Text)
    requires Apart(a, b)
    ensures !(IxKey(a, x) <= IxKey(b, y)) && IxKey(a, x) != IxKey(b, y)
  {
    if IxKey(a, x) <= IxKey(b, y) {
      var p, q, s := IX + (a + SLASH), IX + (b + SLASH), IxKey(b, y);
      assert IxKey(a, x) == p + x && s == q + y;
      PrefixesCompare(p, q, s);
      CutPrefix(IX, a + SLASH, b + SLASH);
      CutPrefix(IX, b + SLASH, a + SLASH);
    }
  }

  lemma CutPrefix(p: Text, x: Text, y: Text)
    ensures p + x <= p + y <==> x <= y
  {
    if x <= y {
      assert (p + y)[..|p + x|] == p + x;
    }
    if p + x <= p + y {
      assert y[..|x|] == (p + y)[|p|..|p + x|] == x;
    }
  }

  /** A purge of bucket a can hit index entries of bucket b exactly when a directory lies inside
      the other. */
  lemma HitsForeignIff(a: Text, b: Text)
    ensures (exists url, k :: IxKey(a, url) <= IxKey(b, k)) <==> !Apart(a, b)
  {
    if Apart(a, b) {
      forall url, k ensures !(IxKey(a, url) <= IxKey(b, k)) {
        ApartKeys(a, b, url, k);
      }
    } else if a + SLASH <= b + SLASH {
      var rest := (b + SLASH)[|a| + 1..];
      assert a + SLASH + rest == b + SLASH;
      assert IxKey(a, rest) == IX + (a + SLASH + rest) == IxKey(b, []);
    } else {
      var rest := (a + SLASH)[|b| + 1..];
      assert b + SLASH + rest == a + SLASH;
      assert IxKey(b, rest) == IX + (b + SLASH + rest) == IxKey(a, []);
    }
  }

  /** The entries of the inverted index under a directory of a bucket. */
  function KeysUnder(id: Text, url: Text, pairs: Pairs): set<Text> {
    set x | x in pairs && IxKey(id, url) <= x
  }

  ghost predicate SafeFor(a: Text, b: Text, url: Text, index: Index, pairs: Pairs) {
    Inverted(b, index, pairs) ==> Inverted(b, index, pairs - KeysUnder(a, url, pairs))
  }

  /** So purges of bucket a leave the inverted index of another bucket right, for all contents and
      URLs, if and only if neither directory lies inside the other. With nested directories there
      is a purge that drops the entry of an object that stays in the cache. */
  lemma PurgeSafeIff(a: Text, b: Text)
    ensures (forall url, index, pairs :: SafeFor(a, b, url, index, pairs)) <==> Apart(a, b)
  {
    if Apart(a, b) {
      forall url, index, pairs ensures SafeFor(a, b, url, index, pairs) {
        forall k | k in index ensures IxKey(b, k) !in KeysUnder(a, url, pairs) {
          ApartKeys(a, b, url, k);
        }
      }
    } else {
      HitsForeignIff(a, b);
      var url, k :| IxKey(a, url) <= IxKey(b, k);
      var index: Index, pairs: Pairs := map[k := Metadata(k, [], false, [], {})], map[IxKey(b, k) := k];
      forall x | IxKey(b, x) in pairs ensures pairs[IxKey(b, x)] == x {
        IxPrefix(b, x, k);
      }
      assert Inverted(b, index, pairs);
      assert IxKey(b, k) in KeysUnder(a, url, pairs);
      assert !SafeFor(a, b, url, index, pairs);
    }
  }

  /** The bucket in /c/d loses the entry of its object "x" when "d/" is purged in the bucket in /c. */
  lemma NestedPurge()
    ensures var a, b, url, k: Text := [0x2f, 0x63], [0x2f, 0x63, 0x2f, 0x64], [0x64, 0x2f], [0x78];
            var index: Index, pairs: Pairs := map[k := Metadata(k, [], false, [], {})], map[IxKey(b, k) := k];
            && Inverted(b, index, pairs) && IxKey(b, k) in KeysUnder(a, url, pairs)
            && !Inverted(b, index, pairs - KeysUnder(a, url, pairs))
  {
    var a: Text, b: Text, url: Text, k: Text := [0x2f, 0x63], [0x2f, 0x63, 0x2f, 0x64], [0x64, 0x2f], [0x78];
    var index: Index, pairs: Pairs := map[k := Metadata(k, [], false, [], {})], map[IxKey(b, k) := k];
    forall x | IxKey(b, x) in pairs ensures pairs[IxKey(b, x)] == x {
      IxPrefix(b, x, k);
    }
    assert a + SLASH + url == b + SLASH;
    assert IxKey(a, url) == IX + (a + SLASH + url) && IxKey(b, k) == IX + (b + SLASH) + k;
    assert k in index;
  }

  lemma StoreKeeps(id: Text, index: Index, pairs: Pairs, md: Metadata)
    requires Inverted(id, index, pairs)
    ensures Inverted(id, index[Key(md) := md], pairs[IxKey(id, Key(md)) := Key(md)])
  {
    forall k | IxKey(id, k) == IxKey(id, Key(md)) ensures k == Key(md) {
      IxPrefix(id, k, Key(md));
    }
  }

  lemma StoreKeepsOther(a: Text, b: Text, index: Index, pairs: Pairs, k: Text)
    requires Apart(a, b) && Inverted(b, index, pairs)
    ensures Inverted(b, index, pairs[IxKey(a, k) := k])
  {
    forall x ensures IxKey(b, x) != IxKey(a, k) {
      ApartKeys(a, b, k, x);
    }
  }

  lemma DiscardKeeps(id: Text, index: Index, now: Index, pairs: Pairs)
    requires Inverted(id, index, pairs) && Sub(now, index)
    ensures Inverted(id, now, pairs - IxSet(id, index, now))
  {
    forall k | k in now ensures IxKey(id, k) !in IxSet(id, index, now) {
      forall x | x in index && x !in now ensures IxKey(id, x) != IxKey(id, k) {
        IxPrefix(id, x, k);
      }
    }
  }

  lemma DiscardKeepsOther(a: Text, b: Text, was: Index, now: Index, index: Index, pairs: Pairs)
    requires Apart(a, b) && Inverted(b, index, pairs)
    ensures Inverted(b, index, pairs - IxSet(a, was, now))
  {
    forall x, k ensures IxKey(b, x) != IxKey(a, k) {
      ApartKeys(a, b, k, x);
    }
  }

  // ---- Any sequence of stores, discards and migrations ----

  datatype State = State(indexes: map<Text, Index>, pairs: Pairs)

  datatype Event =
    | Put(bucket: Text, md: Metadata)
    | Drop(bucket: Text, k: Text)
    | Move(src: Text, dest: Text, k: Text)   // the metadata is stored in dest, then discarded in src

  predicate Enabled(s: State, e: Event) {
    match e
    case Put(b, _) => b in s.indexes
    case Drop(b, _) => b in s.indexes
    case Move(src, dest, k) => src in s.indexes && dest in s.indexes && src != dest && k in s.indexes[src]
  }

  function AfterPut(s: State, b: Text, md: Metadata): State
    requires b in s.indexes
  {
    State(s.indexes[b := s.indexes[b][Key(md) := md]], s.pairs[IxKey(b, Key(md)) := Key(md)])
  }

  function AfterDrop(s: State, b: Text, k: Text): State
    requires b in s.indexes
  {
    var now := Discarded(s.indexes[b], k);
    State(s.indexes[b := now], s.pairs - IxSet(b, s.indexes[b], now))
  }

  function Apply(s: State, e: Event): State
    requires Enabled(s, e)
  {
    match e
    case Put(b, md) => AfterPut(s, b, md)
    case Drop(b, k) => AfterDrop(s, b, k)
    case Move(src, dest, k) => AfterDrop(AfterPut(s, dest, s.indexes[src][k]), src, k)
  }

  ghost predicate AllApart(ids: set<Text>) {
    forall a, b :: a in ids && b in ids && a != b ==> Apart(a, b)
  }

  ghost predicate Inv(s: State) {
    forall b :: b in s.indexes ==> Inverted(b, s.indexes[b], s.pairs)
  }

  lemma PutInv(s: State, b: Text, md: Metadata)
    requires Inv(s) && AllApart(s.indexes.Keys) && b in s.indexes
    ensures Inv(AfterPut(s, b, md))
  {
    var t := AfterPut(s, b, md);
    forall c | c in t.indexes ensures Inverted(c, t.indexes[c], t.pairs) {
      if c == b {
        StoreKeeps(b, s.indexes[b], s.pairs, md);
      } else {
        StoreKeepsOther(b, c, s.indexes[c], s.pairs, Key(md));
      }
    }
  }

  lemma DropInv(s: State, b: Text, k: Text)
    requires Inv(s) && AllApart(s.indexes.Keys) && b in s.indexes
    ensures Inv(AfterDrop(s, b, k))
  {
    var t := AfterDrop(s, b, k);
    DiscardCloses(s.indexes[b], k);
    forall c | c in t.indexes ensures Inverted(c, t.indexes[c], t.pairs) {
      if c == b {
        DiscardKeeps(b, s.indexes[b], t.indexes[b], s.pairs);
      } else {
        DiscardKeepsOther(b, c, s.indexes[b], t.indexes[b], s.indexes[c], s.pairs);
      }
    }
  }

  lemma StepInv(s: State, e: Event)
    requires Inv(s) && AllApart(s.indexes.Keys) && Enabled(s, e)
    ensures Inv(Apply(s, e)) && Apply(s, e).indexes.Keys == s.indexes.Keys
  {
    match e
    case Put(b, md) => PutInv(s, b, md);
    case Drop(b, k) => DropInv(s, b, k);
    case Move(src, dest, k) =>
      PutInv(s, dest, s.indexes[src][k]);
      DropInv(AfterPut(s, dest, s.indexes[src][k]), src, k);
  }

  ghost predicate Run(ids: set<Text>, events: seq<Event>, s: State) {
    if events == [] then s == State(map b | b in ids :: map[], map[])
    else
      var n := |events| - 1;
      exists t: State :: Run(ids, events[..n], t) && Enabled(t, events[n]) && s == Apply(t, events[n])
  }

  /** After any sequence of stores, discards and migrations every object of every bucket has its
      entry in the inverted index. */
  lemma {:induction false} AlwaysInverted(ids: set<Text>, events: seq<Event>, s: State)
    requires AllApart(ids) && Run(ids, events, s)
    ensures s.indexes.Keys == ids && Inv(s)
  {
    if events != [] {
      var n := |events| - 1;
      var t: State :| Run(ids, events[..n], t) && Enabled(t, events[n]) && s == Apply(t, events[n]);
      AlwaysInverted(ids, events[..n], t);
      StepInv(t, events[n]);
    }
  }

  // ---- What a prefix scan removes ----

  /** The object is reachable from one of the hits. */
  ghost predicate Hit(was: Index, hits: set<Text>, x: Text) {
    exists h :: h in hits && Reaches(was, h, x)
  }

  /** Of the index exactly what is reachable from the hits is gone. */
  ghost predicate Left(was: Index, now: Index, hits: set<Text>) {
    Sub(now, was) && forall x :: x in was ==> (x in now <==> !Hit(was, hits, x))
  }

  lemma LeftNone(was: Index)
    ensures Left(was, was, {})
  {
  }

  lemma ReachesThrough(index: Index, a: Text, y: Text, x: Text)
    requires Reaches(index, a, y) && Reaches(index, y, x)
    ensures Reaches(index, a, x)
  {
    var p :| Path(index, p, a, y);
    var q :| Path(index, q, y, x);
    var n := |p|;
    var r := p + q[1..];
    forall i | 0 <= i < |r| - 1 ensures Edge(index, r[i], r[i + 1]) {
      if i < n - 1 {
        assert Edge(index, p[i], p[i + 1]);
      } else {
        assert Edge(index, q[i - n + 1], q[i - n + 1 + 1]);
      }
    }
    assert Path(index, r, a, x);
  }

  /** A path to an object that is left runs through objects that are left. */
  lemma PathLeft(was: Index, mid: Index, hits: set<Text>, p: seq<Text>, h: Text, x: Text)
    requires Left(was, mid, hits) && Path(was, p, h, x) && x in mid
    ensures Path(mid, p, h, x)
  {
    forall i | 0 <= i < |p| ensures p[i] in mid {
      if p[i] !in mid {
        var g :| g in hits && Reaches(was, g, p[i]);
        PathRest(was, p, h, x, i);
        ReachesThrough(was, g, p[i], x);
      }
    }
    forall i | 0 <= i < |p| - 1 ensures Edge(mid, p[i], p[i + 1]) {
      assert Edge(was, p[i], p[i + 1]);
    }
  }

  lemma PathRest(index: Index, p: seq<Text>, h: Text, x: Text, i: nat)
    requires Path(index, p, h, x) && i < |p|
    ensures Reaches(index, p[i], x)
  {
    var q := p[i..];
    forall j | 0 <= j < |q| - 1 ensures Edge(index, q[j], q[j + 1]) {
      assert Edge(index, p[i + j], p[i + j + 1]);
    }
    assert Path(index, q, p[i], x);
  }

  /** Discarding one more hit, from what the others left. */
  lemma LeftMore(was: Index, mid: Index, hits: set<Text>, h: Text)
    requires Left(was, mid, hits)
    ensures Left(was, Discarded(mid, h), hits + {h})
  {
    var now := Discarded(mid, h);
    DiscardCloses(mid, h);
    forall x | x in was ensures x in now <==> !Hit(was, hits + {h}, x) {
      if x in mid {
        DiscardExact(mid, h, x);
        if Reaches(mid, h, x) {
          ReachesInside(was, mid, h, x);
          assert h in hits + {h} && Reaches(was, h, x);
        } else if g :| g in hits + {h} && Reaches(was, g, x) {
          assert g !in hits;
          var p :| Path(was, p, h, x);
          PathLeft(was, mid, hits, p, h, x);
        }
      } else {
        var g :| g in hits && Reaches(was, g, x);
        assert g in hits + {h};
      }
    }
  }

  lemma ReachesFrom(was: Index, h: Text, x: Text)
    requires Reaches(was, h, x)
    ensures h in was
  {
    var p :| Path(was, p, h, x);
  }

  lemma NoHitStays(was: Index, now: Index, hits: set<Text>)
    requires Left(was, now, hits) && NoHit(was, hits)
    ensures now == was
  {
    forall x | x in was ensures !Hit(was, hits, x) {
      forall h | h in hits && Reaches(was, h, x) ensures false {
        ReachesFrom(was, h, x);
      }
    }
  }

  /** None of the hits is an object of the bucket. */
  ghost predicate NoHit(index: Index, hits: set<Text>) {
    forall h :: h in hits ==> h !in index
  }

  // ---- PURGE of a directory ----

  /** The objects that entries name. */
  function Named(keys: set<Text>, pairs: Pairs): set<Text> {
    set x | x in keys && x in pairs :: pairs[x]
  }

  function HitsOf(id: Text, url: Text, pairs: Pairs): set<Text> {
    Named(KeysUnder(id, url, pairs), pairs)
  }

  lemma LessTwice(pairs: Pairs, done: set<Text>, own: set<Text>, more: set<Text>, x: Text)
    ensures pairs - done - own - more - {x} == pairs - (done + {x}) - (own + more)
  {
  }

  lemma NamedMore(keys: set<Text>, pairs: Pairs, x: Text)
    requires x in pairs
    ensures Named(keys + {x}, pairs) == Named(keys, pairs) + {pairs[x]}
  {
  }

  lemma IxSuffix(id: Text, url: Text, x: Text) returns (k: Text)
    requires IxKey(id, url) <= x
    ensures x == IxKey(id, k) && url <= k
  {
    var p := IX + id + SLASH;
    k := x[|p|..];
    assert IxKey(id, url) == p + url && IxKey(id, k) == p + k;
    assert x == p + k by {
      assert x[..|p|] == (p + url)[..|p|] == p;
    }
    IxPrefix(id, url, k);
  }

  /** No object under the directory is left. */
  ghost predicate NonePathUnder(index: Index, url: Text) {
    forall k :: k in index ==> !(url <= index[k].path)
  }

  /** Nothing else is removed than objects under the directory and their variants. */
  ghost predicate OnlyUnder(was: Index, now: Index, url: Text) {
    forall x :: x in was && x !in now ==> exists k :: url <= k && Reaches(was, k, x)
  }

  /** What a complete purge leaves of an index. */
  ghost predicate Scanned(was: Index, now: Index, url: Text) {
    NonePathUnder(now, url) && OnlyUnder(was, now, url)
  }

  lemma PrefixOfLonger(url: Text, path: Text, ext: Text)
    ensures url <= path ==> url <= path + ext
  {
  }

  lemma SubOk(now: Index, was: Index)
    requires IndexOk(was) && Sub(now, was)
    ensures IndexOk(now)
  {
  }

  /** With a right inverted index the hits are the objects under the directory, so none is left. */
  lemma LeftScanned(id: Text, url: Text, was: Index, now: Index, pairs: Pairs)
    requires Inverted(id, was, pairs) && IndexOk(was) && Left(was, now, HitsOf(id, url, pairs))
    ensures Scanned(was, now, url)
  {
    forall k | k in now ensures !(url <= now[k].path) {
      if url <= now[k].path {
        PrefixOfLonger(url, now[k].path, now[k].ext);
        IxPrefix(id, url, k);
        assert IxKey(id, k) in KeysUnder(id, url, pairs);
        assert Path(was, [k], k, k);
        assert k in HitsOf(id, url, pairs) && Reaches(was, k, k);
      }
    }
    forall x | x in was && x !in now ensures exists k :: url <= k && Reaches(was, k, x) {
      var h :| h in HitsOf(id, url, pairs) && Reaches(was, h, x);
      var y :| y in KeysUnder(id, url, pairs) && pairs[y] == h;
      var k := IxSuffix(id, url, y);
      assert url <= h && Reaches(was, h, x);
    }
  }

  /** And it stays right for what is left. */
  lemma LeftInverted(id: Text, url: Text, was: Index, now: Index, pairs: Pairs)
    requires Inverted(id, was, pairs) && Left(was, now, HitsOf(id, url, pairs))
    ensures Inverted(id, now, pairs - KeysUnder(id, url, pairs) - IxSet(id, was, now))
  {
    DiscardKeeps(id, was, now, pairs);
    forall k | k in now ensures IxKey(id, k) !in KeysUnder(id, url, pairs) {
      if IxKey(id, k) in KeysUnder(id, url, pairs) {
        assert Path(was, [k], k, k);
        assert k in HitsOf(id, url, pairs) && Reaches(was, k, k);
      }
    }
  }

  /** Only entries of bucket a were taken out of the inverted index. */
  ghost predicate Shrunk(a: Text, pairs: Pairs, after: Pairs) {
    && (forall x :: x in after ==> x in pairs && after[x] == pairs[x])
    && (forall x :: x in pairs && x !in after ==> IxKey(a, []) <= x)
  }

  lemma PurgeShrinks(a: Text, url: Text, was: Index, now: Index, pairs: Pairs, gone: set<Text>)
    requires gone <= IxSet(a, was, now)
    ensures Shrunk(a, pairs, pairs - KeysUnder(a, url, pairs) - gone)
  {
    forall x | x in gone || IxKey(a, url) <= x ensures IxKey(a, []) <= x {
      if x in gone {
        var k :| k in was && k !in now && x == IxKey(a, k);
        IxPrefix(a, [], k);
      } else {
        IxPrefix(a, [], url);
      }
    }
  }

  /** That does not matter to a bucket whose directory is apart. */
  lemma ShrunkApart(a: Text, b: Text, url: Text, index: Index, pairs: Pairs, after: Pairs)
    requires Apart(a, b) && Shrunk(a, pairs, after)
    ensures HitsOf(b, url, after) == HitsOf(b, url, pairs)
    ensures Inverted(b, index, pairs) ==> Inverted(b, index, after)
  {
    forall k ensures !(IxKey(a, []) <= IxKey(b, k)) {
      ApartKeys(a, b, [], k);
    }
    forall x | x in pairs && IxKey(b, url) <= x ensures x in after {
      var k := IxSuffix(b, url, x);
    }
    assert KeysUnder(b, url, after) == KeysUnder(b, url, pairs);
  }

  // ---- All buckets ----

  ghost predicate NoneIn(indexes: seq<Index>, n: nat, url: Text) {
    n <= |indexes| && forall i :: 0 <= i < n ==> NonePathUnder(indexes[i], url)
  }

  ghost predicate AllScanned(was: seq<Index>, now: seq<Index>, n: nat, url: Text) {
    n <= |was| == |now| && forall i :: 0 <= i < |was| ==>
        if i < n then Scanned(was[i], now[i], url) else now[i] == was[i]
  }

  lemma AllScannedMore(was: seq<Index>, now: seq<Index>, n: nat, index: Index, url: Text)
    requires AllScanned(was, now, n, url) && n < |was| && Scanned(was[n], index, url)
    ensures AllScanned(was, now[n := index], n + 1, url)
  {
  }

  lemma NoneInMore(indexes: seq<Index>, n: nat, url: Text)
    requires n < |indexes|
    ensures NoneIn(indexes, n + 1, url) <==> NoneIn(indexes, n, url) && NonePathUnder(indexes[n], url)
  {
  }

  /** The first n buckets have lost exactly what their entries lead to, the others nothing. */
  ghost predicate AllLeft(was: seq<Index>, now: seq<Index>, hits: seq<set<Text>>, n: nat) {
    && n <= |was| == |now| == |hits|
    && forall i :: 0 <= i < |was| ==> if i < n then Left(was[i], now[i], hits[i]) else now[i] == was[i]
  }

  ghost predicate NoHits(was: seq<Index>, hits: seq<set<Text>>, n: nat) {
    n <= |was| == |hits| && forall i :: 0 <= i < n ==> NoHit(was[i], hits[i])
  }

  lemma AllLeftMore(was: seq<Index>, now: seq<Index>, hits: seq<set<Text>>, n: nat, index: Index)
    requires AllLeft(was, now, hits, n) && n < |was| && Left(was[n], index, hits[n])
    ensures AllLeft(was, now[n := index], hits, n + 1)
    ensures NoHits(was, hits, n + 1) <==> NoHits(was, hits, n) && NoHit(was[n], hits[n])
  {
  }

  /** The chunk files of what is gone from an index are gone too, and no others. */
  ghost predicate FilesGone(was: Index, now: Index, f0: Files, f1: Files) {
    f1 == f0 - FileSet(was, now)
  }

  lemma FilesGoneNone(index: Index, f: Files)
    ensures FilesGone(index, index, f, f)
  {
    assert FileSet(index, index) == {};
  }

  lemma FilesGoneMore(was: Index, mid: Index, k: Text, f0: Files, f1: Files, f2: Files)
    requires Sub(mid, was) && FilesGone(was, mid, f0, f1) && FilesGone(mid, Discarded(mid, k), f1, f2)
    ensures FilesGone(was, Discarded(mid, k), f0, f2)
  {
    DiscardCloses(mid, k);
    GoneTwice(was, mid, Discarded(mid, k), []);
  }

  /** In every bucket. */
  ghost predicate AllFilesGone(was: seq<Index>, now: seq<Index>, f0: seq<Files>, f1: seq<Files>) {
    |was| == |now| == |f0| == |f1| && forall i :: 0 <= i < |was| ==> FilesGone(was[i], now[i], f0[i], f1[i])
  }

  lemma AllFilesGoneNone(indexes: seq<Index>, f: seq<Files>)
    requires |indexes| == |f|
    ensures AllFilesGone(indexes, indexes, f, f)
  {
    forall i | 0 <= i < |f| ensures FilesGone(indexes[i], indexes[i], f[i], f[i]) {
      FilesGoneNone(indexes[i], f[i]);
    }
  }

  /** So far for the first n buckets, while the others have lost nothing; as a fact behind a name. */
  ghost predicate FilesDone(was: seq<Index>, now: seq<Index>, f0: seq<Files>, f1: seq<Files>, n: nat) {
    forall t {:trigger Shown(t)} :: Shown(t) ==>
      AllFilesGone(was, now, f0, f1) && forall i :: n <= i < |was| ==> now[i] == was[i] && f1[i] == f0[i]
  }

  ghost function Done(was: seq<Index>, now: seq<Index>, f0: seq<Files>, f1: seq<Files>, n: nat): Option<nat> {
    if FilesDone(was, now, f0, f1, n) then Some(n) else None
  }

  lemma DoneNone(indexes: seq<Index>, f: seq<Files>)
    requires |indexes| == |f|
    ensures Done(indexes, indexes, f, f, 0).Some?
  {
    AllFilesGoneNone(indexes, f);
  }

  lemma DoneMore(was: seq<Index>, now: seq<Index>, f0: seq<Files>, f1: seq<Files>, n: nat, index: Index, f: Files)
    requires Done(was, now, f0, f1, n).Some? && n < |now| == |f1| && FilesGone(now[n], index, f1[n], f)
    ensures Done(was, now[n := index], f0, f1[n := f], n + 1).Some?
  {
    assert Shown(0);
  }

  lemma DoneAll(was: seq<Index>, now: seq<Index>, f0: seq<Files>, f1: seq<Files>, n: nat)
    requires Done(was, now, f0, f1, n).Some?
    ensures AllFilesGone(was, now, f0, f1)
  {
    assert Shown(0);
  }

  lemma AllFilesStay(indexes: seq<Index>, f0: seq<Files>, f1: seq<Files>)
    requires AllFilesGone(indexes, indexes, f0, f1)
    ensures f1 == f0
  {
    forall i | 0 <= i < |f0| ensures f1[i] == f0[i] {
      assert FilesGone(indexes[i], indexes[i], f0[i], f1[i]);
      assert FileSet(indexes[i], indexes[i]) == {};
    }
  }

  /** PURGE works on the store of the migrator; the buckets keep the one they were opened with,
      which is another one when a directory for the store is configured. */
  class Migrator {
    const buckets: seq<DiskBucket>
    const sharedkv: SharedKV
    const store: SharedKV

    constructor (buckets: seq<DiskBucket>, sharedkv: SharedKV, store: SharedKV)
      ensures this.buckets == buckets && this.sharedkv == sharedkv && this.store == store
    {
      this.buckets, this.sharedkv, this.store := buckets, sharedkv, store;
    }

    /** IteratePrefix: the keys from the prefix up to its upper bound. */
    method IteratePrefix(prefix: Text) returns (keys: set<Text>)
      ensures keys == set x | x in sharedkv.pairs && prefix <= x
    {
      var bound := KeyBound.KeyUpperBound(prefix);
      keys := set x | x in sharedkv.pairs && KeyBound.InRange(prefix, bound, x);
    }

    /** DiscardWithHash, seen from the migrator's store. */
    method DiscardHit(b: DiskBucket, h: Text) returns (ok: bool)
      requires b.sharedkv == store && IndexOk(b.index)
      modifies b, store
      ensures ok <==> h in old(b.index)
      ensures b.index == Discarded(old(b.index), h) && FilesGone(old(b.index), b.index, old(b.files), b.files)
      ensures sharedkv.pairs == old(sharedkv.pairs) - Own(b.id, old(b.index), b.index)
    {
      ok := b.Discard(h);
      if sharedkv != store {
        assert sharedkv.pairs == old(sharedkv.pairs);
      }
    }

    /** One hit of the prefix scan: the object is discarded and its index entry removed. */
    method PurgeEntry(b: DiskBucket, x: Text, h: Text) returns (ok: bool)
      requires b.sharedkv == store && IndexOk(b.index)
      modifies b, sharedkv, store
      ensures ok <==> h in old(b.index)
      ensures b.index == Discarded(old(b.index), h) && FilesGone(old(b.index), b.index, old(b.files), b.files)
      ensures sharedkv.pairs == old(sharedkv.pairs) - Own(b.id, old(b.index), b.index) - {x}
    {
      ghost var was := sharedkv.pairs;
      ok := DiscardHit(b, h);
      assert sharedkv.pairs == was - Own(b.id, old(b.index), b.index);
      sharedkv.pairs := sharedkv.pairs - {x};
    }

    /** What discarding takes out of the migrator's store: nothing if the buckets have another. */
    ghost function Own(id: Text, was: Index, now: Index): set<Text> {
      if sharedkv == store then IxSet(id, was, now) else {}
    }

    lemma OwnTwice(id: Text, was: Index, mid: Index, now: Index)
      requires Sub(mid, was) && Sub(now, mid)
      ensures Own(id, was, now) == Own(id, was, mid) + Own(id, mid, now) && Own(id, was, was) == {}
    {
      GoneTwice(was, mid, now, id);
      assert IxSet(id, was, was) == {};
    }

    /** Where the prefix scan of a bucket stands when the entries `done` have been visited. */
    ghost predicate HasDone(id: Text, was: Index, now: Index, snapshot: Pairs, pairs: Pairs, done: set<Text>,
                            processed: nat) {
      forall t {:trigger Shown(t)} :: Shown(t) ==>
        && Left(was, now, Named(done, snapshot)) && IndexOk(now)
        && pairs == snapshot - done - Own(id, was, now)
        && (processed == 0 <==> NoHit(was, Named(done, snapshot)))
    }

    ghost function Progress(id: Text, was: Index, now: Index, snapshot: Pairs, pairs: Pairs, done: set<Text>,
                            processed: nat): Option<Index> {
      if HasDone(id, was, now, snapshot, pairs, done, processed) then Some(now) else None
    }

    lemma ProgressNone(id: Text, was: Index, snapshot: Pairs)
      requires IndexOk(was)
      ensures Progress(id, was, was, snapshot, snapshot, {}, 0).Some?
    {
      LeftNone(was);
      OwnTwice(id, was, was, was);
      assert Named({}, snapshot) == {};
    }

    lemma ProgressMore(id: Text, was: Index, mid: Index, now: Index, snapshot: Pairs, pairs: Pairs, done: set<Text>,
                       n: nat, x: Text, ok: bool)
      requires Progress(id, was, mid, snapshot, pairs, done, n).Some? && x in snapshot
      requires now == Discarded(mid, snapshot[x]) && (ok <==> snapshot[x] in mid)
      ensures Progress(id, was, now, snapshot, pairs - Own(id, mid, now) - {x}, done + {x}, if ok
                then n + 1 else n).Some?
    {
      assert Shown(0);
      EntryStep(was, mid, done, snapshot, x);
      OwnTwice(id, was, mid, now);
      LessTwice(snapshot, done, Own(id, was, mid), Own(id, mid, now), x);
      SubOk(now, mid);
    }

    lemma ProgressOk(id: Text, was: Index, now: Index, snapshot: Pairs, pairs: Pairs, done: set<Text>, n: nat)
      requires Progress(id, was, now, snapshot, pairs, done, n).Some?
      ensures IndexOk(now) && Sub(now, was)
    {
      assert Shown(0);
    }

    lemma EntryStep(was: Index, mid: Index, done: set<Text>, pairs: Pairs, x: Text)
      requires Left(was, mid, Named(done, pairs)) && x in pairs
      ensures Left(was, Discarded(mid, pairs[x]), Named(done + {x}, pairs)) && Sub(Discarded(mid, pairs[x]), mid)
      ensures NoHit(was, Named(done + {x}, pairs)) <==> NoHit(was, Named(done, pairs)) && pairs[x] !in mid
    {
      NamedMore(done, pairs, x);
      LeftMore(was, mid, Named(done, pairs), pairs[x]);
      DiscardCloses(mid, pairs[x]);
      if NoHit(was, Named(done, pairs)) {
        NoHitStays(was, mid, Named(done, pairs));
      }
    }

    /** The callback of the prefix scan, for all entries it visits. */
    method PurgeKeys(b: DiskBucket, keys: set<Text>, snapshot: Pairs) returns (processed: nat)
      requires b.sharedkv == store && IndexOk(b.index) && keys <= snapshot.Keys && sharedkv.pairs == snapshot
      modifies b, sharedkv, store
      ensures Progress(b.id, old(b.index), b.index, snapshot, sharedkv.pairs, keys, processed).Some?
      ensures FilesGone(old(b.index), b.index, old(b.files), b.files)
    {
      ghost var was, done := b.index, {};
      FilesGoneNone(was, b.files);
      var todo := keys;
      processed := 0;
      ProgressNone(b.id, was, snapshot);
      while todo != {}
        invariant done <= keys && todo == keys - done
        invariant Progress(b.id, was, b.index, snapshot, sharedkv.pairs, done, processed).Some?
        invariant FilesGone(was, b.index, old(b.files), b.files)
        decreases |todo|
      {
        var x :| x in todo;
        ghost var mid, pairs, f1 := b.index, sharedkv.pairs, b.files;
        ProgressOk(b.id, was, mid, snapshot, pairs, done, processed);
        var ok := PurgeEntry(b, x, snapshot[x]);
        FilesGoneMore(was, mid, snapshot[x], old(b.files), f1, b.files);
        ProgressMore(b.id, was, mid, b.index, snapshot, pairs, done, processed, x, ok);
        processed := if ok then processed + 1 else processed;
        todo, done := todo - {x}, done + {x};
      }
      assert done == keys;
    }

    /** What a prefix scan makes of a bucket and the store: exactly what the entries under the
        directory lead to is gone from the bucket, whether or not they are right; those entries are
        gone, and the number of objects discarded is 0 exactly when they lead to none. */
    ghost predicate IsPurged(id: Text, url: Text, was: Index, now: Index, pairs: Pairs, after: Pairs, n: nat) {
      forall t {:trigger Shown(t)} :: Shown(t) ==>
        && Left(was, now, HitsOf(id, url, pairs)) && IndexOk(now)
        && after == pairs - KeysUnder(id, url, pairs) - Own(id, was, now)
        && (n == 0 <==> NoHit(was, HitsOf(id, url, pairs)))
    }

    ghost function Purged(id: Text, url: Text, was: Index, now: Index, pairs: Pairs, after: Pairs,
                          n: nat): Option<Index> {
      if IsPurged(id, url, was, now, pairs, after, n) then Some(now) else None
    }

    lemma ProgressPurged(id: Text, url: Text, was: Index, now: Index, pairs: Pairs, after: Pairs, n: nat)
      requires Progress(id, was, now, pairs, after, KeysUnder(id, url, pairs), n).Some?
      ensures Purged(id, url, was, now, pairs, after, n).Some?
    {
      assert Shown(0);
    }

    lemma PurgedOk(id: Text, url: Text, was: Index, now: Index, pairs: Pairs, after: Pairs, n: nat)
      requires Purged(id, url, was, now, pairs, after, n).Some?
      ensures IndexOk(now) && (n == 0 ==> now == was)
    {
      assert Shown(0);
      if n == 0 {
        NoHitStays(was, now, HitsOf(id, url, pairs));
      }
    }

    /** The prefix scan for one bucket, over a snapshot of the store. */
    method PurgeBucket(b: DiskBucket, url: Text) returns (processed: nat)
      requires b.sharedkv == store && IndexOk(b.index)
      modifies b, sharedkv, store
      ensures Purged(b.id, url, old(b.index), b.index, old(sharedkv.pairs), sharedkv.pairs, processed).Some?
      ensures FilesGone(old(b.index), b.index, old(b.files), b.files)
    {
      ghost var was, pairs := b.index, sharedkv.pairs;
      var keys := IteratePrefix(IxKey(b.id, url));
      assert keys == KeysUnder(b.id, url, pairs);
      processed := PurgeKeys(b, keys, sharedkv.pairs);
      ProgressPurged(b.id, url, was, b.index, pairs, sharedkv.pairs, processed);
    }

    /** The full scan of one bucket, over a snapshot of its index. */
    method ScanBucket(b: DiskBucket, url: Text) returns (processed: nat)
      requires b.sharedkv == store && IndexOk(b.index)
      modifies b, store
      ensures Sub(b.index, old(b.index)) && Scanned(old(b.index), b.index, url)
      ensures FilesGone(old(b.index), b.index, old(b.files), b.files)
      ensures processed == 0 <==> NonePathUnder(old(b.index), url)
      ensures processed == 0 ==> b.index == old(b.index) && store.pairs == old(store.pairs)
    {
      ghost var was := b.index;
      var snapshot, todo := b.index, b.index.Keys;
      processed := 0;
      FilesGoneNone(was, b.files);
      while todo != {}
        invariant todo <= snapshot.Keys && Sub(b.index, was) && OnlyUnder(was, b.index, url)
        invariant FilesGone(was, b.index, old(b.files), b.files)
        invariant forall k :: k in b.index && k !in todo ==> !(url <= b.index[k].path)
        invariant processed == 0 ==> b.index == was && store.pairs == old(store.pairs)
        invariant processed == 0 ==> forall k :: k in was && k !in todo ==> !(url <= was[k].path)
        invariant processed > 0 ==> !NonePathUnder(was, url)
        decreases |todo|
      {
        var k :| k in todo;
        todo := todo - {k};
        if url <= snapshot[k].path {
          ScanEntry(b, k, url, was, old(b.files));
          processed := processed + 1;
        }
      }
    }

    method ScanEntry(b: DiskBucket, k: Text, url: Text, ghost was: Index, ghost f0: Files)
      requires b.sharedkv == store && IndexOk(was) && k in was && url <= was[k].path
      requires Sub(b.index, was) && OnlyUnder(was, b.index, url) && FilesGone(was, b.index, f0, b.files)
      modifies b, store
      ensures FilesGone(was, b.index, f0, b.files)
      ensures k !in b.index && Sub(b.index, old(b.index)) && Sub(b.index, was) && OnlyUnder(was, b.index, url)
    {
      ghost var mid, f1 := b.index, b.files;
      PrefixOfLonger(url, was[k].path, was[k].ext);
      SubOk(b.index, was);
      var _ := b.Discard(k);
      FilesGoneMore(was, mid, k, f0, f1, b.files);
      DiscardCloses(mid, k);
      OnlyUnderMore(was, mid, b.index, url, k);
    }

    // ---- All buckets ----

    ghost predicate Valid()
      reads buckets
    {
      && (forall i :: 0 <= i < |buckets| ==> buckets[i].sharedkv == store && IndexOk(buckets[i].index))
      && (forall i, j :: 0 <= i < j < |buckets| ==> buckets[i] != buckets[j])
    }

    /** No bucket's directory lies inside another's. */
    ghost predicate AllApart() {
      forall i, j :: 0 <= i < |buckets| && 0 <= j < |buckets| && i != j ==> Apart(buckets[i].id, buckets[j].id)
    }

    /** The buckets use the migrator's store, and what it says is right for every bucket. */
    ghost predicate AllInverted()
      reads buckets, sharedkv
    {
      && sharedkv == store && AllApart()
      && forall i :: 0 <= i < |buckets| ==> Inverted(buckets[i].id, buckets[i].index, sharedkv.pairs)
    }

    ghost function Indexes(): (s: seq<Index>)
      reads buckets
      ensures |s| == |buckets| && forall i :: 0 <= i < |buckets| ==> s[i] == buckets[i].index
    {
      seq(|buckets|, i requires 0 <= i < |buckets| reads buckets => buckets[i].index)
    }

    ghost function AllFiles(): (s: seq<Files>)
      reads buckets
      ensures |s| == |buckets| && forall i :: 0 <= i < |buckets| ==> s[i] == buckets[i].files
    {
      seq(|buckets|, i requires 0 <= i < |buckets| reads buckets => buckets[i].files)
    }

    /** The objects the entries under the directory name, for every bucket. */
    ghost function Hits(url: Text, pairs: Pairs): (s: seq<set<Text>>)
      ensures |s| == |buckets| && forall i :: 0 <= i < |buckets| ==> s[i] == HitsOf(buckets[i].id, url, pairs)
    {
      seq(|buckets|, i requires 0 <= i < |buckets| => HitsOf(buckets[i].id, url, pairs))
    }

    /** The entries of the buckets from i on name what they named before. */
    ghost predicate SameHits(url: Text, hits: seq<set<Text>>, pairs: Pairs, i: nat)
      requires |hits| == |buckets|
    {
      forall j :: i <= j < |buckets| ==> HitsOf(buckets[j].id, url, pairs) == hits[j]
    }

    ghost predicate InvertedFor(indexes: seq<Index>, pairs: Pairs)
      requires |indexes| == |buckets|
    {
      forall j :: 0 <= j < |buckets| ==> Inverted(buckets[j].id, indexes[j], pairs)
    }

    lemma PurgedStep(i: nat, url: Text, now: seq<Index>, index: Index, pairs: Pairs, after: Pairs,
                     hits: seq<set<Text>>, n: nat)
      requires |now| == |hits| == |buckets| && i < |buckets| && AllApart() && SameHits(url, hits, pairs, i)
      requires Purged(buckets[i].id, url, now[i], index, pairs, after, n).Some?
      ensures Left(now[i], index, hits[i]) && (n == 0 <==> NoHit(now[i], hits[i]))
      ensures SameHits(url, hits, after, i + 1)
      ensures sharedkv == store && InvertedFor(now, pairs) ==> InvertedFor(now[i := index], after)
    {
      assert Shown(0);
      assert HitsOf(buckets[i].id, url, pairs) == hits[i];
      PurgeShrinks(buckets[i].id, url, now[i], index, pairs, Own(buckets[i].id, now[i], index));
      forall j | 0 <= j < |buckets| && j != i
        ensures HitsOf(buckets[j].id, url, after) == HitsOf(buckets[j].id, url, pairs)
        ensures Inverted(buckets[j].id, now[j], pairs) ==> Inverted(buckets[j].id, now[j], after)
      {
        ShrunkApart(buckets[i].id, buckets[j].id, url, now[j], pairs, after);
      }
      if sharedkv == store && InvertedFor(now, pairs) {
        assert Inverted(buckets[i].id, now[i], pairs);
        LeftInverted(buckets[i].id, url, now[i], index, pairs);
      }
    }

    method PurgeAt(i: nat, url: Text) returns (processed: nat)
      requires Valid() && i < |buckets|
      modifies buckets[i], sharedkv, store
      ensures Valid() && Indexes() == old(Indexes())[i := Indexes()[i]]
      ensures Purged(buckets[i].id, url, old(Indexes())[i], Indexes()[i], old(sharedkv.pairs), sharedkv.pairs,
                processed).Some?
      ensures processed == 0 ==> Indexes() == old(Indexes())
      ensures AllFiles() == old(AllFiles())[i := AllFiles()[i]]
      ensures FilesGone(old(Indexes())[i], Indexes()[i], old(AllFiles())[i], AllFiles()[i])
    {
      ghost var was, pairs := buckets[i].index, sharedkv.pairs;
      processed := PurgeBucket(buckets[i], url);
      PurgedOk(buckets[i].id, url, was, buckets[i].index, pairs, sharedkv.pairs, processed);
    }

    /** Where the prefix scans stand before bucket i, as a fact behind a name. */
    ghost predicate StandsAt(i: nat, url: Text, was: seq<Index>, now: seq<Index>, hits: seq<set<Text>>, pairs: Pairs,
                             n: nat, right: bool)
      requires |now| == |hits| == |buckets|
    {
      forall t {:trigger Shown(t)} :: Shown(t) ==>
        && (n == 0 ==> now == was)
        && (AllApart() ==>
            && AllLeft(was, now, hits, i) && SameHits(url, hits, pairs, i) && (n == 0 <==> NoHits(was, hits, i)))
        && (right ==> sharedkv == store && AllApart() && InvertedFor(now, pairs))
    }

    ghost function Standing(i: nat, url: Text, was: seq<Index>, now: seq<Index>, hits: seq<set<Text>>, pairs: Pairs,
                            n: nat, right: bool): Option<nat>
      requires |now| == |hits| == |buckets|
    {
      if StandsAt(i, url, was, now, hits, pairs, n, right) then Some(n) else None
    }

    lemma InvertedIs()
      ensures AllInverted() <==> sharedkv == store && AllApart() && InvertedFor(Indexes(), sharedkv.pairs)
    {
    }

    lemma StandingFirst(url: Text, was: seq<Index>, hits: seq<set<Text>>, pairs: Pairs, right: bool)
      requires |was| == |buckets| && hits == Hits(url, pairs)
      requires right ==> sharedkv == store && AllApart() && InvertedFor(was, pairs)
      ensures Standing(0, url, was, was, hits, pairs, 0, right).Some?
    {
    }

    lemma StandingNext(i: nat, url: Text, was: seq<Index>, now: seq<Index>, hits: seq<set<Text>>, pairs: Pairs, n: nat,
                       right: bool, index: Index, after: Pairs, more: nat)
      requires |was| == |now| == |hits| == |buckets| && i < |buckets|
      requires Standing(i, url, was, now, hits, pairs, n, right).Some?
      requires Purged(buckets[i].id, url, now[i], index, pairs, after, more).Some? && (more == 0 ==> index == now[i])
      ensures Standing(i + 1, url, was, now[i := index], hits, after, n + more, right).Some?
    {
      assert Shown(0);
      if AllApart() {
        PurgedStep(i, url, now, index, pairs, after, hits, more);
        AllLeftMore(was, now, hits, i, index);
      }
    }

    lemma StandingLast(url: Text, was: seq<Index>, now: seq<Index>, hits: seq<set<Text>>, pairs: Pairs, n: nat,
                       right: bool)
      requires |now| == |hits| == |buckets| && Standing(|buckets|, url, was, now, hits, pairs, n, right).Some?
      ensures n == 0 ==> now == was
      ensures AllApart() ==> AllLeft(was, now, hits, |buckets|) && (n == 0 <==> NoHits(was, hits, |buckets|))
      ensures right ==> sharedkv == store && AllApart() && InvertedFor(now, pairs)
    {
      assert Shown(0);
    }

    /** The prefix scans of all buckets. When no directory lies inside another, every bucket loses
        exactly what the entries under its directory lead to, and the result is 0 exactly when they
        lead to nothing. */
    method PurgeByIndex(url: Text) returns (processed: nat)
      requires Valid()
      modifies buckets, sharedkv, store
      ensures Valid() && (processed == 0 ==> Indexes() == old(Indexes()))
      ensures AllApart() ==>
                && AllLeft(old(Indexes()), Indexes(), Hits(url, old(sharedkv.pairs)), |buckets|)
                && (processed == 0 <==> NoHits(old(Indexes()), Hits(url, old(sharedkv.pairs)), |buckets|))
      ensures old(AllInverted()) ==> AllInverted()
      ensures AllFilesGone(old(Indexes()), Indexes(), old(AllFiles()), AllFiles())
    {
      ghost var was, f0, hits, right := Indexes(), AllFiles(), Hits(url, sharedkv.pairs), AllInverted();
      InvertedIs();
      DoneNone(was, f0);
      StandingFirst(url, was, hits, sharedkv.pairs, right);
      processed := 0;
      for i := 0 to |buckets|
        invariant Valid() && Done(was, Indexes(), f0, AllFiles(), i).Some?
        invariant Standing(i, url, was, Indexes(), hits, sharedkv.pairs, processed, right).Some?
      {
        processed := PurgeNext(i, url, processed, was, f0, hits, right);
      }
      StandingLast(url, was, Indexes(), hits, sharedkv.pairs, processed, right);
      InvertedIs();
      DoneAll(was, Indexes(), f0, AllFiles(), |buckets|);
    }

    /** One turn of that loop. */
    method PurgeNext(i: nat, url: Text, processed: nat, ghost was: seq<Index>, ghost f0: seq<Files>,
                     ghost hits: seq<set<Text>>, ghost right: bool)
      returns (sum: nat)
      requires Valid() && i < |buckets| == |was| == |hits| && Done(was, Indexes(), f0, AllFiles(), i).Some?
      requires Standing(i, url, was, Indexes(), hits, sharedkv.pairs, processed, right).Some?
      modifies buckets, sharedkv, store
      ensures Valid() && Done(was, Indexes(), f0, AllFiles(), i + 1).Some?
      ensures Standing(i + 1, url, was, Indexes(), hits, sharedkv.pairs, sum, right).Some?
    {
      ghost var now, f, pairs := Indexes(), AllFiles(), sharedkv.pairs;
      var n := PurgeAt(i, url);
      StandingNext(i, url, was, now, hits, pairs, processed, right, Indexes()[i], sharedkv.pairs, n);
      DoneMore(was, now, f0, f, i, Indexes()[i], AllFiles()[i]);
      sum := processed + n;
    }

    method ScanAt(i: nat, url: Text) returns (processed: nat)
      requires Valid() && i < |buckets|
      modifies buckets[i], store
      ensures Valid() && Indexes() == old(Indexes())[i := Indexes()[i]]
      ensures Scanned(old(Indexes())[i], Indexes()[i], url)
      ensures processed == 0 <==> NonePathUnder(old(Indexes())[i], url)
      ensures processed == 0 ==> Indexes() == old(Indexes()) && store.pairs == old(store.pairs)
      ensures AllFiles() == old(AllFiles())[i := AllFiles()[i]]
      ensures FilesGone(old(Indexes())[i], Indexes()[i], old(AllFiles())[i], AllFiles()[i])
    {
      processed := ScanBucket(buckets[i], url);
      SubOk(buckets[i].index, old(buckets[i].index));
    }

    /** Where the full scan stands before bucket i, as a fact behind a name. */
    ghost predicate ScansAt(i: nat, url: Text, was: seq<Index>, now: seq<Index>, kv0: Pairs, kv: Pairs, n: nat) {
      forall t {:trigger Shown(t)} :: Shown(t) ==>
        && AllScanned(was, now, i, url) && (n == 0 <==> NoneIn(was, i, url))
        && (n == 0 ==> now == was && kv == kv0)
    }

    ghost function Scanning(i: nat, url: Text, was: seq<Index>, now: seq<Index>, kv0: Pairs, kv: Pairs,
                            n: nat): Option<nat> {
      if ScansAt(i, url, was, now, kv0, kv, n) then Some(n) else None
    }

    lemma ScanningFirst(url: Text, was: seq<Index>, kv: Pairs)
      ensures Scanning(0, url, was, was, kv, kv, 0).Some?
    {
    }

    lemma ScanningNext(i: nat, url: Text, was: seq<Index>, now: seq<Index>, kv0: Pairs, kv: Pairs, n: nat,
                       index: Index, after: Pairs, more: nat)
      requires Scanning(i, url, was, now, kv0, kv, n).Some? && i < |now| == |was| && Scanned(now[i], index, url)
      requires more == 0 <==> NonePathUnder(now[i], url)
      requires more == 0 ==> index == now[i] && after == kv
      ensures Scanning(i + 1, url, was, now[i := index], kv0, after, n + more).Some?
    {
      assert Shown(0);
      NoneInMore(was, i, url);
      AllScannedMore(was, now, i, index, url);
    }

    lemma ScanningLast(i: nat, url: Text, was: seq<Index>, now: seq<Index>, kv0: Pairs, kv: Pairs, n: nat)
      requires Scanning(i, url, was, now, kv0, kv, n).Some?
      ensures AllScanned(was, now, i, url) && (n == 0 <==> NoneIn(was, i, url)) && (n == 0 ==> now == was && kv == kv0)
    {
      assert Shown(0);
    }

    /** The fallback: a scan of all buckets leaves no object under the directory, whatever the
        inverted index says. */
    method Scan(url: Text) returns (processed: nat)
      requires Valid()
      modifies buckets, store
      ensures Valid()
      ensures processed == 0 <==> NoneIn(old(Indexes()), |buckets|, url)
      ensures processed == 0 ==> Indexes() == old(Indexes()) && store.pairs == old(store.pairs)
      ensures AllScanned(old(Indexes()), Indexes(), |buckets|, url)
      ensures AllFilesGone(old(Indexes()), Indexes(), old(AllFiles()), AllFiles())
    {
      ghost var was, f0, kv0 := Indexes(), AllFiles(), store.pairs;
      DoneNone(was, f0);
      ScanningFirst(url, was, kv0);
      processed := 0;
      for i := 0 to |buckets|
        invariant Valid() && Done(was, Indexes(), f0, AllFiles(), i).Some?
        invariant Scanning(i, url, was, Indexes(), kv0, store.pairs, processed).Some?
      {
        processed := ScanNext(i, url, processed, was, f0, kv0);
      }
      ScanningLast(|buckets|, url, was, Indexes(), kv0, store.pairs, processed);
      DoneAll(was, Indexes(), f0, AllFiles(), |buckets|);
    }

    /** One turn of that loop. */
    method ScanNext(i: nat, url: Text, processed: nat, ghost was: seq<Index>, ghost f0: seq<Files>, ghost kv0: Pairs)
      returns (sum: nat)
      requires Valid() && i < |buckets| == |was| && Done(was, Indexes(), f0, AllFiles(), i).Some?
      requires Scanning(i, url, was, Indexes(), kv0, store.pairs, processed).Some?
      modifies buckets, store
      ensures Valid() && Done(was, Indexes(), f0, AllFiles(), i + 1).Some?
      ensures Scanning(i + 1, url, was, Indexes(), kv0, store.pairs, sum).Some?
    {
      ghost var now, f, kv := Indexes(), AllFiles(), store.pairs;
      var n := ScanAt(i, url);
      ScanningNext(i, url, was, now, kv0, kv, processed, Indexes()[i], store.pairs, n);
      DoneMore(was, now, f0, f, i, Indexes()[i], AllFiles()[i]);
      sum := processed + n;
    }

    /** With a right inverted index, what the prefix scans leave is what a full scan would. */
    lemma RightIndexScans(was: seq<Index>, now: seq<Index>, pairs: Pairs, url: Text)
      requires |was| == |now| == |buckets| && AllLeft(was, now, Hits(url, pairs), |buckets|)
      requires InvertedFor(was, pairs) && forall i :: 0 <= i < |buckets| ==> IndexOk(was[i])
      ensures AllScanned(was, now, |buckets|, url) && NoneIn(now, |buckets|, url)
    {
      forall i | 0 <= i < |buckets| ensures Scanned(was[i], now[i], url) {
        LeftScanned(buckets[i].id, url, was[i], now[i], pairs);
      }
    }

    /** A hard purge of a directory. With a right inverted index no object whose path begins with
        the URL is left in any bucket, and the index stays right. Whatever the index: if its entries
        lead to no object, the scan leaves no object under the URL either; if they lead to any, no
        scan is made, and exactly what they lead to is gone. ErrKeyNotFound means that there was no
        object, and nothing is changed. A purge that should only mark objects as expired does nothing
        and reports success. */
    method PurgeDir(url: Text, markExpired: bool) returns (found: bool, ghost byIndex: nat)
      requires Valid()
      modifies buckets, sharedkv, store
      ensures Valid()
      ensures markExpired ==> found && Indexes() == old(Indexes()) && sharedkv.pairs == old(sharedkv.pairs)
      ensures !found ==> Indexes() == old(Indexes()) && NoneIn(Indexes(), |buckets|, url)
      ensures !markExpired && byIndex == 0 ==>
                AllScanned(old(Indexes()), Indexes(), |buckets|, url) && (found <==>
                    !NoneIn(old(Indexes()), |buckets|, url))
      ensures !markExpired && byIndex > 0 ==> found
      ensures !markExpired && AllApart() ==>
                && (byIndex == 0 <==> NoHits(old(Indexes()), Hits(url, old(sharedkv.pairs)), |buckets|))
                && (byIndex > 0 ==> AllLeft(old(Indexes()), Indexes(), Hits(url, old(sharedkv.pairs)), |buckets|))
      ensures !markExpired && old(AllInverted()) ==>
                AllInverted() && AllScanned(old(Indexes()), Indexes(), |buckets|, url)
      ensures AllFilesGone(old(Indexes()), Indexes(), old(AllFiles()), AllFiles())
    {
      byIndex := 0;
      AllFilesGoneNone(Indexes(), AllFiles());
      if markExpired {
        return true, 0;
      }
      ghost var was, pairs := Indexes(), sharedkv.pairs;
      var processed := PurgeByIndex(url);
      byIndex := processed;
      if old(AllInverted()) {
        RightIndexScans(was, Indexes(), pairs, url);
      }
      if processed == 0 {
        AllFilesStay(was, old(AllFiles()), AllFiles());
        processed := Scan(url);
      }
      found := processed > 0;
    }
  }

  lemma OnlyUnderMore(was: Index, mid: Index, now: Index, url: Text, k: Text)
    requires Sub(mid, was) && OnlyUnder(was, mid, url) && now == Discarded(mid, k) && url <= k
    ensures Sub(now, was) && OnlyUnder(was, now, url)
  {
    DiscardCloses(mid, k);
    forall x | x in was && x !in now ensures exists k :: url <= k && Reaches(was, k, x) {
      if x in mid {
        DiscardReaches(mid, k, x);
        ReachesInside(was, mid, k, x);
      }
    }
  }
}
