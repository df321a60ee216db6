/** The hit sketch of pkg/algorithm/heavykeeper. The two hash functions are parameters and every
    random decision may go either way. */
module HeavyKeeper {
  import opened Streams
  import opened Arith

  const TWO32: nat := 0x1_0000_0000
  const TWO64: nat := 0x1_0000_0000_0000_0000

  type Key = seq<byte>

  datatype Bucket = Bucket(fingerprint: nat, count: nat)

  const Empty := Bucket(0, 0)

  datatype Hashing = Hashing(hash: Key -> nat, hash2: Key -> nat, width: nat)

  /** The column of a key in row i, in wrapping 64-bit arithmetic. */
  function Column(h: Hashing, key: Key, i: nat): (j: nat)
    requires 0 < h.width
    ensures j < h.width
  {
    (h.hash(key) + i * h.hash2(key)) % TWO64 % h.width
  }

  /** From one row to the next the column moves on by the second hash, until 64 bits are full. */
  lemma NextColumn(h: Hashing, key: Key, i: nat)
    requires 0 < h.width && h.hash(key) + (i + 1) * h.hash2(key) < TWO64
    ensures Column(h, key, i + 1) == (Column(h, key, i) + h.hash2(key)) % h.width
  {
    assert (i + 1) * h.hash2(key) == i * h.hash2(key) + h.hash2(key);
    NextCell(h.hash(key) + i * h.hash2(key), h.hash2(key), h.width);
  }

  lemma NextCell(x: nat, y: nat, w: nat)
    requires 0 < w && x + y < TWO64
    ensures (x + y) % TWO64 % w == (x % TWO64 % w + y) % w
  {
    Small(x);
    Small(x + y);
    AddBefore(x, y, w);
  }

  lemma Small(x: nat)
    requires x < TWO64
    ensures x % TWO64 == x
  {
  }

  lemma AddBefore(x: nat, y: nat, w: nat)
    requires 0 < w
    ensures (x + y) % w == (x % w + y) % w
  {
    var q: nat, r: nat := x / w, x % w;
    var d: nat, e: nat := (r + y) / w, (r + y) % w;
    SumRemainder(x, y, w, q, r, d, e);
  }

  lemma SumRemainder(x: nat, y: nat, w: nat, q: nat, r: nat, d: nat, e: nat)
    requires x == q * w + r && r + y == d * w + e && e < w
    ensures (x + y) % w == e
  {
    assert (q + d) * w == q * w + d * w;
    DivUnique(x + y, q + d, w);
  }

  function Occurrences(fs: seq<nat>, f: nat): nat {
    if fs == [] then 0 else Occurrences(fs[..|fs| - 1], f) + if fs[|fs| - 1] == f then 1 else 0
  }

  /** The fingerprints that hit cell (i, j), in order. */
  function Hits(h: Hashing, log: seq<Key>, i: nat, j: nat): seq<nat>
    requires 0 < h.width
  {
    if log == [] then []
    else
      var n := |log| - 1;
      var fs := Hits(h, log[..n], i, j);
      if Column(h, log[n], i) == j then fs + [h.hash(log[n])] else fs
  }

  /** How many adds had this fingerprint. */
  function Adds(h: Hashing, log: seq<Key>, f: nat): nat {
    if log == [] then 0 else Adds(h, log[..|log| - 1], f) + if h.hash(log[|log| - 1]) == f then 1 else 0
  }

  ghost predicate Only(fs: seq<nat>, f: nat) {
    forall k :: 0 <= k < |fs| ==> fs[k] == f
  }

  /** What a cell says about the fingerprints that hit it: it never counts its fingerprint more
      often than it came, it is empty only if nothing came, and if nothing else came it is exact. */
  ghost predicate CellInv(b: Bucket, fs: seq<nat>) {
    && b.count <= Occurrences(fs, b.fingerprint)
    && (b.count == 0 <==> fs == [])
    && forall f :: fs != [] && Only(fs, f) ==> b == Bucket(f, |fs|)
  }

  /** One add to one cell. */
  function Touch(b: Bucket, f: nat, decays: bool): Bucket {
    if b.count == 0 then Bucket(f, 1)
    else if b.fingerprint == f then b.(count := (b.count + 1) % TWO32)
    else if !decays then b
    else if b.count == 1 then Bucket(f, 1)
    else b.(count := b.count - 1)
  }

  /** The cell after n adds of f, each of which decays. */
  function Decayed(b: Bucket, f: nat, n: nat): Bucket {
    if n == 0 then b else Touch(Decayed(b, f, n - 1), f, true)
  }

  /** A newcomer whose adds all decay wears the count down one by one, and takes over the cell with the last
      of them; adds that do not decay change nothing. */
  lemma {:induction false} NewcomerTakesOver(b: Bucket, f: nat, n: nat)
    requires f != b.fingerprint && 0 < b.count && n <= b.count
    ensures Decayed(b, f, n) == if n < b.count then b.(count := b.count - n) else Bucket(f, 1)
    ensures Touch(b, f, false) == b
  {
    if n != 0 {
      NewcomerTakesOver(b, f, n - 1);
    }
  }

  lemma {:induction false} OccurrencesBound(fs: seq<nat>, f: nat)
    ensures Occurrences(fs, f) <= |fs|
  {
    if fs != [] {
      OccurrencesBound(fs[..|fs| - 1], f);
    }
  }

  lemma OccurrencesMore(fs: seq<nat>, f: nat, g: nat)
    ensures Occurrences(fs + [f], g) == Occurrences(fs, g) + if f == g then 1 else 0
  {
    assert (fs + [f])[..|fs|] == fs;
  }

  lemma TouchInv(b: Bucket, fs: seq<nat>, f: nat, decays: bool)
    requires CellInv(b, fs) && |fs| + 1 < TWO32
    ensures CellInv(Touch(b, f, decays), fs + [f])
  {
    var all, b' := fs + [f], Touch(b, f, decays);
    OccurrencesBound(fs, b.fingerprint);
    OccurrencesMore(fs, f, b'.fingerprint);
    forall g | Only(all, g) ensures b' == Bucket(g, |all|) {
      assert all[|fs|] == g;
      assert forall k :: 0 <= k < |fs| ==> fs[k] == all[k];
      assert Only(fs, g);
    }
  }

  lemma HitsMore(h: Hashing, log: seq<Key>, key: Key, i: nat, j: nat)
    requires 0 < h.width
    ensures var fs := Hits(h, log, i, j);
            Hits(h, log + [key], i, j) == if Column(h, key, i) == j then fs + [h.hash(key)] else fs
  {
    assert (log + [key])[..|log|] == log;
  }

  lemma {:induction false} HitsBound(h: Hashing, log: seq<Key>, i: nat, j: nat, f: nat)
    requires 0 < h.width
    ensures |Hits(h, log, i, j)| <= |log| && Occurrences(Hits(h, log, i, j), f) <= Adds(h, log, f)
  {
    if log != [] {
      var n := |log| - 1;
      HitsBound(h, log[..n], i, j, f);
      OccurrencesMore(Hits(h, log[..n], i, j), h.hash(log[n]), f);
    }
  }

  /** In row i only this fingerprint ever hit the cell of the key, and always there. */
  ghost predicate Alone(h: Hashing, log: seq<Key>, key: Key, i: nat)
    requires 0 < h.width
  {
    forall k :: 0 <= k < |log| ==> (Column(h, log[k], i) == Column(h, key, i) <==> h.hash(log[k]) == h.hash(key))
  }

  lemma {:induction false} AloneHits(h: Hashing, log: seq<Key>, key: Key, i: nat)
    requires 0 < h.width && Alone(h, log, key, i)
    ensures var fs := Hits(h, log, i, Column(h, key, i)); Only(fs, h.hash(key)) && |fs| == Adds(h, log, h.hash(key))
  {
    if log != [] {
      var n := |log| - 1;
      assert forall k :: 0 <= k < n ==> log[..n][k] == log[k];
      AloneHits(h, log[..n], key, i);
    }
  }

  class HeavyKeeper {
    const h: Hashing
    const depth: nat
    const buckets: array2<Bucket>
    ghost var log: seq<Key>   // the keys added since the last Clear

    /** Row i agrees with the adds so far. */
    ghost predicate RowInv(i: nat, log: seq<Key>)
      requires i < buckets.Length0 && 0 < h.width == buckets.Length1
      reads buckets
    {
      forall j :: 0 <= j < h.width ==> CellInv(buckets[i, j], Hits(h, log, i, j))
    }

    ghost predicate Valid()
      reads this, buckets
    {
      && 0 < h.width == buckets.Length1 && depth == buckets.Length0 && |log| < TWO32
      && forall i :: 0 <= i < depth ==> RowInv(i, log)
    }

    constructor (h: Hashing, depth: nat)
      requires 0 < h.width
      ensures Valid() && log == [] && this.h == h && this.depth == depth && fresh(buckets)
    {
      this.h, this.depth, log := h, depth, [];
      buckets := new Bucket[depth, h.width]((i, j) => Empty);
    }

    method Add(key: Key)
      requires Valid() && |log| + 1 < TWO32
      modifies this`log, buckets
      ensures Valid() && log == old(log) + [key]
    {
      var fingerprint := h.hash(key);
      ghost var before, after := log, log + [key];
      for i := 0 to depth
        invariant log == before
        invariant forall r :: 0 <= r < i ==> RowInv(r, after)
        invariant forall r :: i <= r < depth ==> RowInv(r, before)
      {
        AddToRow(key, fingerprint, i, after);
      }
      log := after;
    }

    method AddToRow(key: Key, fingerprint: nat, i: nat, ghost after: seq<Key>)
      requires i < buckets.Length0 && 0 < h.width == buckets.Length1 && fingerprint == h.hash(key)
      requires RowInv(i, log) && |log| + 1 < TWO32 && after == log + [key]
      modifies buckets
      ensures RowInv(i, after)
      ensures forall r :: 0 <= r < buckets.Length0 && r != i && old(RowInv(r, log)) ==> RowInv(r, log)
      ensures forall r :: 0 <= r < buckets.Length0 && r != i && old(RowInv(r, after)) ==> RowInv(r, after)
    {
      var idx := Column(h, key, i);
      var decays: bool := *;
      HitsBound(h, log, i, idx, 0);
      TouchInv(buckets[i, idx], Hits(h, log, i, idx), fingerprint, decays);
      AddToCell(i, idx, fingerprint, decays);
      forall j | 0 <= j < h.width ensures CellInv(buckets[i, j], Hits(h, after, i, j)) {
        HitsMore(h, log, key, i, j);
        assert CellInv(old(buckets[i, j]), Hits(h, log, i, j));
      }
    }

    method AddToCell(i: nat, idx: nat, fingerprint: nat, decays: bool)
      requires i < buckets.Length0 && idx < buckets.Length1
      modifies buckets
      ensures buckets[i, idx] == Touch(old(buckets[i, idx]), fingerprint, decays)
      ensures forall r, j :: 0 <= r < buckets.Length0 && 0 <= j < buckets.Length1 && (r != i || j != idx) ==>
                buckets[r, j] == old(buckets[r, j])
    {
      var b := buckets[i, idx];
      if b.count == 0 {
        buckets[i, idx] := Bucket(fingerprint, 1);
      } else if b.fingerprint == fingerprint {
        buckets[i, idx] := b.(count := (b.count + 1) % TWO32);
      } else if decays {
        b := b.(count := b.count - 1);
        if b.count == 0 {
          b := Bucket(fingerprint, 1);
        }
        buckets[i, idx] := b;
      }
    }

    /** Query never reports more than the adds that share the key's fingerprint, never less than
        those that hit its cell in a row where no other fingerprint did, and so exactly all of them
        when in some row all of them did and nothing else. */
    method Query(key: Key) returns (maxCount: nat)
      requires Valid()
      ensures maxCount <= Adds(h, log, h.hash(key))
      ensures forall i :: 0 <= i < depth && Only(CellHits(key, i), h.hash(key)) ==> |CellHits(key, i)| <= maxCount
      ensures (exists i :: 0 <= i < depth && Alone(h, log, key, i)) ==> maxCount == Adds(h, log, h.hash(key))
    {
      var fingerprint := h.hash(key);
      maxCount := 0;
      for i := 0 to depth
        invariant maxCount <= Adds(h, log, fingerprint)
        invariant forall r :: 0 <= r < i && Only(CellHits(key, r), fingerprint) ==> |CellHits(key, r)| <= maxCount
      {
        var idx := Column(h, key, i);
        var b := buckets[i, idx];
        assert RowInv(i, log);
        HitsBound(h, log, i, idx, fingerprint);
        if b.fingerprint == fingerprint {
          if b.count > maxCount {
            maxCount := b.count;
          }
        }
      }
      forall i | 0 <= i < depth && Alone(h, log, key, i) ensures maxCount == Adds(h, log, fingerprint) {
        AloneHits(h, log, key, i);
        assert Only(CellHits(key, i), fingerprint);
      }
    }

    /** The fingerprints that hit the key's cell in row i. */
    ghost function CellHits(key: Key, i: nat): seq<nat>
      requires 0 < h.width
      reads this
    {
      Hits(h, log, i, Column(h, key, i))
    }

    method Clear()
      requires Valid()
      modifies this`log, buckets
      ensures Valid() && log == []
    {
      for i := 0 to depth
        invariant forall r, j :: 0 <= r < i && 0 <= j < h.width ==> buckets[r, j] == Empty
      {
        for j := 0 to h.width
          invariant forall r, c :: 0 <= r < i && 0 <= c < h.width ==> buckets[r, c] == Empty
          invariant forall c :: 0 <= c < j ==> buckets[i, c] == Empty
        {
          buckets[i, j] := Empty;
        }
      }
      log := [];
    }
  }
}
