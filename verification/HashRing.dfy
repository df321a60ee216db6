/** The consistent hash ring of storage/selector/hashring. The hash functions are parameters:
    `point(id, i, j)` stands for the hash of the element key of replica i, weight step j. */
module HashRing {
  import opened Hidden
  import opened Search

  const TWO32: nat := 0x1_0000_0000
  type Hash = x: nat | x < TWO32

  datatype Node = Node(id: string, weight: nat)

  type Circle = map<Hash, Node>
  type PointOf = (string, nat, nat) -> Hash

  // ---- The walk around the ring ----

  predicate ContainsMember(set_: seq<Node>, member: Node) {
    exists k :: 0 <= k < |set_| && set_[k].id == member.id
  }

  /** The distinct members of a walk, in the order of their first appearance. */
  function Distinct(walk: seq<Node>): (d: seq<Node>)
    ensures |d| <= |walk|
  {
    if walk == [] then []
    else
      var d, last := Distinct(walk[..|walk| - 1]), walk[|walk| - 1];
      if ContainsMember(d, last) then d else d + [last]
  }

  function Ids(ns: seq<Node>): set<string> {
    set k | 0 <= k < |ns| :: ns[k].id
  }

  predicate NoRepeats(ns: seq<Node>) {
    forall j, k :: 0 <= j < k < |ns| ==> ns[j].id != ns[k].id
  }

  lemma {:induction false} DistinctStep(walk: seq<Node>, k: nat)
    requires k < |walk|
    ensures var d := Distinct(walk[..k]);
            Distinct(walk[..k + 1]) == if ContainsMember(d, walk[k]) then d else d + [walk[k]]
  {
    assert walk[..k + 1][..k] == walk[..k];
  }

  /** What a longer walk finds begins with what a shorter one found. */
  lemma {:induction false} DistinctGrows(walk: seq<Node>, k: nat)
    requires k <= |walk|
    ensures Distinct(walk[..k]) <= Distinct(walk)
    decreases |walk| - k
  {
    if k < |walk| {
      DistinctStep(walk, k);
      DistinctGrows(walk, k + 1);
    } else {
      assert walk[..k] == walk;
    }
  }

  /** It finds each member on the walk, once. */
  lemma {:induction false} DistinctRight(walk: seq<Node>)
    ensures NoRepeats(Distinct(walk)) && Ids(Distinct(walk)) == Ids(walk)
    ensures |Distinct(walk)| == |Ids(walk)|
  {
    DistinctIds(walk);
    IdsCount(Distinct(walk));
  }

  lemma {:induction false} DistinctIds(walk: seq<Node>)
    ensures NoRepeats(Distinct(walk)) && Ids(Distinct(walk)) == Ids(walk)
  {
    if walk != [] {
      var n := |walk| - 1;
      var d := Distinct(walk[..n]);
      DistinctIds(walk[..n]);
      IdsAppend(walk[..n], walk[n]);
      IdsAppend(d, walk[n]);
      assert walk[..n] + [walk[n]] == walk;
    }
  }

  lemma IdsAppend(ns: seq<Node>, n: Node)
    ensures Ids(ns + [n]) == Ids(ns) + {n.id}
    ensures ContainsMember(ns, n) <==> n.id in Ids(ns)
  {
    var all := ns + [n];
    forall x | x in Ids(ns) ensures x in Ids(all) {
      var k :| 0 <= k < |ns| && ns[k].id == x;
      assert all[k].id == x;
    }
    assert all[|ns|].id == n.id;
  }

  lemma {:induction false} IdsCount(ns: seq<Node>)
    requires NoRepeats(ns)
    ensures |Ids(ns)| == |ns|
  {
    if ns != [] {
      var n := |ns| - 1;
      IdsCount(ns[..n]);
      IdsAppend(ns[..n], ns[n]);
      assert ns[..n] + [ns[n]] == ns;
    }
  }

  /** All owners on the way once around the ring from index `start`. */
  function Around(owners: seq<Node>, start: nat): seq<Node>
    requires start < |owners|
  {
    owners[start..] + owners[..start]
  }

  // ---- The loop of GetN ----

  datatype Loop = Loop(i: nat, res: seq<Node>)

  /** The body of the loop of GetN, up to and including i++. */
  function Body(owners: seq<Node>, s: Loop): Loop
    requires 0 < |owners|
  {
    var i := if s.i >= |owners| then 0 else s.i;
    Loop(i + 1, if ContainsMember(s.res, owners[i]) then s.res else s.res + [owners[i]])
  }

  /** The state before turn k, if the loop has not ended by then. */
  function Before(owners: seq<Node>, start: nat, k: nat): Loop
    requires start < |owners|
  {
    if k == 0 then Loop(start + 1, [owners[start]]) else Body(owners, Before(owners, start, k - 1))
  }

  /** The loop ends in turn k: its condition fails, or the break is taken. */
  predicate EndsIn(owners: seq<Node>, start: nat, n: int, k: nat)
    requires start < |owners|
  {
    Before(owners, start, k).i == start || |Before(owners, start, k + 1).res| == n
  }

  /** GetN answers at once or its loop ends in some turn. */
  ghost predicate Returns(owners: seq<Node>, start: nat, n: int)
    requires start < |owners|
  {
    n == 1 || exists k: nat :: EndsIn(owners, start, n, k)
  }

  lemma AroundAt(owners: seq<Node>, start: nat, k: nat)
    requires start < |owners| && k < |owners|
    ensures Around(owners, start)[k] == owners[if start + k < |owners| then start + k else start + k - |owners|]
  {
  }

  /** Where the loop stands before turn k of its first turn around the ring. */
  function Head(l: nat, start: nat, k: nat): nat
    requires start < l && k < l
  {
    if start + k < l then start + k + 1 else start + k + 1 - l
  }

  lemma {:induction false} FirstTurn(owners: seq<Node>, start: nat, k: nat)
    requires start < |owners| && k < |owners|
    ensures Before(owners, start, k) == Loop(Head(|owners|, start, k), Distinct(Around(owners, start)[..k + 1]))
  {
    var walk := Around(owners, start);
    if k == 0 {
      assert walk[..1] == [owners[start]];
      assert Distinct([owners[start]][..0]) == [];
    } else {
      FirstTurn(owners, start, k - 1);
      BodyStep(owners, start, walk, k, Before(owners, start, k - 1));
    }
  }

  lemma BodyStep(owners: seq<Node>, start: nat, walk: seq<Node>, k: nat, s: Loop)
    requires start < |owners| && 0 < k < |owners| && walk == Around(owners, start)
    requires s == Loop(Head(|owners|, start, k - 1), Distinct(walk[..k]))
    ensures Body(owners, s) == Loop(Head(|owners|, start, k), Distinct(walk[..k + 1]))
  {
    AroundAt(owners, start, k);
    DistinctStep(walk, k);
  }

  /** From start 0: index 0 is never met at the head of the loop, and after one turn around the
      ring nothing new is found. */
  lemma {:induction false} FromZero(owners: seq<Node>, k: nat)
    requires 0 < |owners|
    ensures var s := Before(owners, 0, k);
            && 0 < s.i <= |owners| && 0 < |s.res| <= |Distinct(owners)|
            && (|owners| - 1 <= k ==> s.res == Distinct(owners))
  {
    assert Around(owners, 0) == owners && owners[..|owners|] == owners;
    if k < |owners| {
      FirstTurn(owners, 0, k);
      DistinctGrows(owners, k + 1);
      DistinctNonempty(owners[..k + 1]);
    } else {
      FromZero(owners, k - 1);
      NothingNew(owners, Before(owners, 0, k - 1));
    }
  }

  lemma NothingNew(owners: seq<Node>, s: Loop)
    requires 0 < |owners| && s.res == Distinct(owners)
    ensures Body(owners, s).res == s.res
  {
    var i := if s.i >= |owners| then 0 else s.i;
    DistinctIds(owners);
    IdsAppend(Distinct(owners), owners[i]);
    assert owners[i].id in Ids(owners);
  }

  lemma {:induction false} DistinctNonempty(walk: seq<Node>)
    requires walk != []
    ensures Distinct(walk) != []
  {
    DistinctGrows(walk, 1);
    assert walk[..1] == [walk[0]] && walk[..1][..0] == [];
  }

  lemma AroundSame(owners: seq<Node>, start: nat)
    requires start < |owners|
    ensures Ids(Around(owners, start)) == Ids(owners)
  {
    var w := Around(owners, start);
    forall x | x in Ids(owners) ensures x in Ids(w) {
      var k :| 0 <= k < |owners| && owners[k].id == x;
      assert w[if k < start then |owners| - start + k else k - start].id == x;
    }
    forall x | x in Ids(w) ensures x in Ids(owners) {
      var k :| 0 <= k < |w| && w[k].id == x;
      assert owners[if k < |owners| - start then start + k else k - (|owners| - start)].id == x;
    }
  }

  /** The loop guard alone does not end GetN when the search starts at index 0. Exactly then it
      matters that n distinct owners exist. */
  lemma ReturnsIff(owners: seq<Node>, start: nat, n: int)
    requires start < |owners| && 0 <= n
    ensures Returns(owners, start, n) <==> start != 0 || 1 <= n <= |Ids(owners)|
  {
    var l := |owners|;
    DistinctRight(owners);
    if start != 0 {
      FirstTurn(owners, start, l - 1);
      assert EndsIn(owners, start, n, l - 1);
    } else if 2 <= n <= |Ids(owners)| {
      assert owners[..l] == owners;
      var k := FindTurn(owners, n, l - 1);
      assert EndsIn(owners, 0, n, k);
    } else if n != 1 {
      NeverEnds(owners, n);
    } else {
      DistinctNonempty(owners);
    }
  }

  lemma NeverEnds(owners: seq<Node>, n: int)
    requires 0 < |owners| && (n < 1 || |Ids(owners)| < n)
    ensures forall k: nat :: !EndsIn(owners, 0, n, k)
  {
    DistinctRight(owners);
    forall k: nat ensures !EndsIn(owners, 0, n, k) {
      FromZero(owners, k);
      FromZero(owners, k + 1);
    }
  }

  /** The turn in which the n-th distinct owner is found. */
  lemma {:induction false} FindTurn(owners: seq<Node>, n: int, k: nat) returns (t: nat)
    requires 0 < |owners| && k < |owners| && 2 <= n <= |Distinct(owners[..k + 1])|
    ensures |Before(owners, 0, t + 1).res| == n
  {
    assert Around(owners, 0) == owners;
    FirstTurn(owners, 0, k);
    DistinctStep(owners, k);
    if n == |Distinct(owners[..k + 1])| {
      t := k - 1;
    } else {
      t := FindTurn(owners, n, k - 1);
    }
  }

  // ---- The nearest point clockwise ----

  /** How far point h lies clockwise behind `key`; the point at key itself comes last. */
  function Distance(key: Hash, h: Hash): nat {
    if h > key then h - key - 1 else h + TWO32 - key - 1
  }

  ghost predicate Nearest(c: Circle, key: Hash, h: Hash) {
    h in c && forall g :: g in c ==> Distance(key, h) <= Distance(key, g)
  }

  function Above(key: Hash): nat -> bool {
    x => x > key
  }

  /** Consistent.search. */
  function Start(sorted: seq<Hash>, key: Hash): nat {
    var i := BinarySearch(sorted, Above(key), 0, |sorted|);
    if i >= |sorted| then 0 else i
  }

  ghost predicate Sorted(sorted: seq<Hash>, c: Circle) {
    Ascending(sorted) && (forall h :: h in c ==> h in sorted) && forall k :: 0 <= k < |sorted| ==> sorted[k] in c
  }

  function Owners(sorted: seq<Hash>, c: Circle): seq<Node>
    requires forall k :: 0 <= k < |sorted| ==> sorted[k] in c
  {
    seq(|sorted|, k requires 0 <= k < |sorted| => c[sorted[k]])
  }

  lemma SearchSplits(sorted: seq<Hash>, key: Hash)
    requires Ascending(sorted) && sorted != []
    ensures Splits(sorted, key, Start(sorted, key))
  {
    var i := BinarySearch(sorted, Above(key), 0, |sorted|);
    assert 0 < i ==> !Above(key)(sorted[i - 1]);
    assert i < |sorted| ==> Above(key)(sorted[i]);
  }

  /** The points from index i on lie above the key and those before do not; or all lie below. */
  predicate Splits(sorted: seq<Hash>, key: Hash, i: nat) {
    && i < |sorted| && (forall k :: 0 <= k < i ==> sorted[k] <= key)
    && (sorted[i] > key ==> forall k :: i <= k < |sorted| ==> sorted[k] > key)
    && (sorted[i] <= key ==> i == 0 && forall k :: 0 <= k < |sorted| ==> sorted[k] <= key)
  }

  /** The walk from there visits the points of the ring clockwise. */
  lemma WalkIsClockwise(sorted: seq<Hash>, key: Hash, j: nat, k: nat)
    requires Ascending(sorted) && j < k < |sorted|
    ensures var i := Start(sorted, key);
            i < |sorted| && var w := sorted[i..] + sorted[..i]; Distance(key, w[j]) < Distance(key, w[k])
  {
    SearchSplits(sorted, key);
    var i, l := Start(sorted, key), |sorted|;
    var w := sorted[i..] + sorted[..i];
    var x, y := if i + j < l then i + j else i + j - l, if i + k < l then i + k else i + k - l;
    assert w[j] == sorted[x] && w[k] == sorted[y];
    ClockwisePair(sorted, key, i, x, y);
  }

  lemma ClockwisePair(sorted: seq<Hash>, key: Hash, i: nat, x: nat, y: nat)
    requires Ascending(sorted) && Splits(sorted, key, i) && x < |sorted| && y < |sorted|
    requires if (x < i) == (y < i) then x < y else y < x
    ensures Distance(key, sorted[x]) < Distance(key, sorted[y])
  {
    assert x < y ==> sorted[x] < sorted[y];
  }

  /** The first point of the walk is the nearest one clockwise. */
  lemma StartIsNearest(sorted: seq<Hash>, c: Circle, key: Hash)
    requires Sorted(sorted, c) && sorted != []
    ensures Start(sorted, key) < |sorted| && Nearest(c, key, sorted[Start(sorted, key)])
  {
    SearchSplits(sorted, key);
    var i := Start(sorted, key);
    forall g | g in c ensures Distance(key, sorted[i]) <= Distance(key, g) {
      var k :| 0 <= k < |sorted| && sorted[k] == g;
    }
  }

  lemma NearestUnique(c: Circle, key: Hash, g: Hash, h: Hash)
    requires Nearest(c, key, g) && Nearest(c, key, h)
    ensures g == h
  {
  }

  // ---- Adding members ----

  function Row(point: PointOf, id: string, i: nat, weight: nat): set<Hash> {
    if weight == 0 then {} else Row(point, id, i, weight - 1) + {point(id, i, weight - 1)}
  }

  function Points(point: PointOf, n: Node, replicas: nat): set<Hash> {
    if replicas == 0 then {} else Points(point, n, replicas - 1) + Row(point, n.id, replicas - 1, n.weight)
  }

  /** h is the hash of the key of some replica and weight step of n. */
  ghost predicate IsPoint(point: PointOf, n: Node, replicas: nat, h: Hash) {
    exists i: nat, j: nat :: i < replicas && j < n.weight && point(n.id, i, j) == h
  }

  lemma {:induction false} RowIs(point: PointOf, id: string, i: nat, weight: nat, h: Hash)
    ensures h in Row(point, id, i, weight) <==> exists j: nat :: j < weight && point(id, i, j) == h
  {
    if weight != 0 {
      RowIs(point, id, i, weight - 1, h);
    }
  }

  /** The points of a member are one for every replica and weight step. */
  lemma {:induction false} PointsAre(point: PointOf, n: Node, replicas: nat, h: Hash)
    ensures h in Points(point, n, replicas) <==> IsPoint(point, n, replicas, h)
  {
    if replicas != 0 {
      PointsAre(point, n, replicas - 1, h);
      RowIs(point, n.id, replicas - 1, n.weight, h);
      if IsPoint(point, n, replicas, h) {
        var i: nat, j: nat :| i < replicas && j < n.weight && point(n.id, i, j) == h;
        assert i < replicas - 1 ==> IsPoint(point, n, replicas - 1, h);
      }
    }
  }

  /** The circle with n as the owner of the points ps. */
  function Over(c: Circle, ps: set<Hash>, n: Node): Circle {
    map h | h in c.Keys + ps :: if h in ps then n else c[h]
  }

  ghost predicate Owns(c: Circle, n: Node, ps: set<Hash>) {
    forall h :: h in ps ==> h in c && c[h] == n
  }

  ghost predicate Belongs(c: Circle, h: Hash, ns: set<Node>, point: PointOf, r: nat)
    requires h in c
  {
    c[h] in ns && h in Points(point, c[h], r)
  }

  /** The circle holds the points of exactly these members. */
  ghost predicate Exact(c: Circle, ns: set<Node>, point: PointOf, r: nat) {
    && (forall h :: h in c ==> Belongs(c, h, ns, point, r))
    && (forall n :: n in ns ==> Owns(c, n, Points(point, n, r)))
  }

  ghost predicate Apart(n: Node, ns: set<Node>, point: PointOf, r: nat) {
    forall m :: m in ns && m != n ==> Points(point, m, r) !! Points(point, n, r)
  }

  ghost predicate NoCollision(ns: set<Node>, point: PointOf, r: nat) {
    forall n :: n in ns ==> Apart(n, ns, point, r)
  }

  lemma OwnsStill(c: Circle, m: Node, qs: set<Hash>, ps: set<Hash>, n: Node)
    requires Owns(c, m, qs) && (m == n || qs !! ps)
    ensures Owns(Over(c, ps, n), m, qs)
  {
  }

  lemma AddExact(c: Circle, ns: set<Node>, n: Node, point: PointOf, r: nat)
    requires Exact(c, ns, point, r) && Apart(n, ns, point, r)
    ensures Exact(Over(c, Points(point, n, r), n), ns + {n}, point, r)
  {
    var ps := Points(point, n, r);
    var d := Over(c, ps, n);
    forall m | m in ns + {n} ensures Owns(d, m, Points(point, m, r)) {
      if m != n {
        OwnsStill(c, m, Points(point, m, r), ps, n);
      }
    }
    forall h | h in d ensures Belongs(d, h, ns + {n}, point, r) {
      assert h !in ps ==> Belongs(c, h, ns, point, r);
    }
  }

  /** Without collisions the ring is a function of the set of members. */
  lemma ExactUnique(c: Circle, d: Circle, ns: set<Node>, point: PointOf, r: nat)
    requires Exact(c, ns, point, r) && Exact(d, ns, point, r)
    ensures c == d
  {
    assert forall h :: h in c ==> Belongs(c, h, ns, point, r) && Owns(d, c[h], Points(point, c[h], r));
    assert forall h :: h in d ==> Belongs(d, h, ns, point, r) && Owns(c, d[h], Points(point, d[h], r));
  }

  lemma {:induction false} SortedUnique(s: seq<Hash>, t: seq<Hash>, c: Circle)
    requires Sorted(s, c) && Sorted(t, c)
    ensures s == t
  {
    EmptyIff(s, c);
    EmptyIff(t, c);
    if c != map[] {
      LastIsMost(s, t, c);
      LastIsMost(t, s, c);
      SortedInit(s, c);
      SortedInit(t, c);
      var x, s', t' := s[|s| - 1], s[..|s| - 1], t[..|t| - 1];
      SortedUnique(s', t', c - {x});
      assert s == s' + [x] && t == t' + [x];
    }
  }

  lemma LastIsMost(s: seq<Hash>, t: seq<Hash>, c: Circle)
    requires Sorted(s, c) && Sorted(t, c) && s != [] && t != []
    ensures s[|s| - 1] <= t[|t| - 1]
  {
    var k :| 0 <= k < |t| && t[k] == s[|s| - 1];
  }

  lemma SortedInit(s: seq<Hash>, c: Circle)
    requires Sorted(s, c) && s != []
    ensures Sorted(s[..|s| - 1], c - {s[|s| - 1]})
  {
  }

  /** Two members can be added in either order exactly when they share no point. */
  lemma OrderFreeIffApart(c: Circle, a: Node, b: Node, point: PointOf, r: nat)
    requires a != b
    ensures var ps, qs := Points(point, a, r), Points(point, b, r);
            Over(Over(c, ps, a), qs, b) == Over(Over(c, qs, b), ps, a) <==> ps !! qs
  {
    var ps, qs := Points(point, a, r), Points(point, b, r);
    var x, y := Over(Over(c, ps, a), qs, b), Over(Over(c, qs, b), ps, a);
    if h :| h in ps && h in qs {
      assert x[h] == b && y[h] == a;
    } else {
      assert forall h :: h in x <==> h in y;
      assert forall h :: h in x ==> x[h] == y[h];
    }
  }

  /** Adding a member leaves each key with its old owner or moves it to the new member, even when
      points collide; it moves exactly the keys whose nearest point is now one of the new ones. */
  lemma MinimalMovement(c: Circle, n: Node, point: PointOf, r: nat, key: Hash, before: Hash, after: Hash)
    requires Nearest(c, key, before) && Nearest(Over(c, Points(point, n, r), n), key, after)
    ensures var d := Over(c, Points(point, n, r), n);
            if after in Points(point, n, r) then d[after] == n else after == before && d[after] == c[before]
  {
    var d := Over(c, Points(point, n, r), n);
    if after !in Points(point, n, r) {
      assert before in d;
      NearestUnique(c, key, before, after);
    }
  }

  // ---- The class ----

  datatype Answer = Ok(nodes: seq<Node>) | ErrEmptyCircle

  class Consistent {
    const point: PointOf
    const hashKey: string -> Hash
    const replicas: nat
    var circles: Circle
    var members: set<string>
    var sortedHashes: seq<Hash>
    var count: nat

    ghost predicate Valid()
      reads this
    {
      Sorted(sortedHashes, circles)
    }

    constructor (point: PointOf, hashKey: string -> Hash, replicas: nat)
      ensures Valid() && circles == map[] && members == {} && count == 0
      ensures this.point == point && this.hashKey == hashKey && this.replicas == replicas
    {
      this.point, this.hashKey, this.replicas := point, hashKey, replicas;
      circles, members, sortedHashes, count := map[], {}, [], 0;
    }

    method UpdateSortedHashes()
      modifies this`sortedHashes
      ensures Valid()
    {
      var keys, hashes := circles.Keys, [];
      while keys != {}
        invariant keys <= circles.Keys && Ascending(hashes)
        invariant forall h :: h in circles.Keys - keys <==> h in hashes
      {
        var k :| k in keys;
        hashes := Insert(hashes, k);
        keys := keys - {k};
      }
      assert forall k :: 0 <= k < |hashes| ==> hashes[k] in hashes;
      sortedHashes := hashes;
    }

    method AddPoints(n: Node)
      modifies this`circles
      ensures circles == Over(old(circles), Points(point, n, replicas), n)
    {
      assert circles == Over(circles, {}, n);
      for i := 0 to replicas
        invariant circles == Over(old(circles), Points(point, n, i), n)
      {
        assert Points(point, n, i) + Row(point, n.id, i, 0) == Points(point, n, i);
        for j := 0 to n.weight
          invariant circles == Over(old(circles), Points(point, n, i) + Row(point, n.id, i, j), n)
        {
          circles := circles[point(n.id, i, j) := n];
          OverOne(old(circles), Points(point, n, i), Row(point, n.id, i, j), point(n.id, i, j), n);
        }
      }
    }

    method Add(n: Node)
      modifies this
      ensures Valid() && circles == Over(old(circles), Points(point, n, replicas), n)
      ensures forall h :: IsPoint(point, n, replicas, h) ==> h in circles && circles[h] == n
      ensures forall h :: !IsPoint(point, n, replicas, h) ==> (h in circles <==> h in old(circles))
      ensures forall h :: !IsPoint(point, n, replicas, h) && h in circles ==> circles[h] == old(circles)[h]
      ensures members == old(members) + {n.id} && count == old(count) + 1
    {
      forall h ensures h in Points(point, n, replicas) <==> IsPoint(point, n, replicas, h) {
        PointsAre(point, n, replicas, h);
      }
      AddPoints(n);
      members := members + {n.id};
      UpdateSortedHashes();
      count := count + 1;
    }

    /** NewConsistent: Set on an empty ring, the members in no particular order. */
    method Set(caches: seq<Node>)
      requires circles == map[] && members == {} && count == 0 && Valid()
      modifies this
      ensures Valid() && members == Ids(caches) && count == |members|
      ensures var ns := LastById(caches).Values;
              NoCollision(ns, point, replicas) ==> Exact(circles, ns, point, replicas)
    {
      var elts: map<string, Node> := map[];
      for k := 0 to |caches|
        invariant elts == LastById(caches[..k])
      {
        assert caches[..k + 1][..k] == caches[..k];
        elts := elts[caches[k].id := caches[k]];
      }
      assert caches[..|caches|] == caches;
      ById(caches);
      AddAll(elts);
    }

    method AddAll(elts: map<string, Node>)
      requires circles == map[] && members == {} && count == 0 && Valid()
      requires forall id :: id in elts ==> elts[id].id == id
      modifies this
      ensures Valid() && members == elts.Keys && count == |members|
      ensures NoCollision(elts.Values, point, replicas) ==> Exact(circles, elts.Values, point, replicas)
    {
      var keys := elts.Keys;
      var todo := keys;
      NonePicked(elts, point, replicas);
      while todo != {}
        invariant Valid() && members <= keys && todo == keys - members && count == |members|
        invariant ExactFor(elts, members, circles, point, replicas).Some?
        decreases |todo|
      {
        var id :| id in todo;
        todo := todo - {id};
        if id !in members {
          AddNext(elts, id);
        }
      }
      AllPicked(elts, members, circles, point, replicas);
    }

    method AddNext(elts: map<string, Node>, id: string)
      requires id in elts && elts[id].id == id && ExactFor(elts, members, circles, point, replicas).Some?
      modifies this
      ensures Valid() && members == old(members) + {id} && count == old(count) + 1
      ensures ExactFor(elts, members, circles, point, replicas).Some?
    {
      assert Shown(0);
      PickedExact(elts, members, id, circles, point, replicas);
      Add(elts[id]);
    }

    method SearchKey(key: Hash) returns (i: nat)
      ensures i == Start(sortedHashes, key)
    {
      i := SortSearch(sortedHashes, Above(key));
      if i >= |sortedHashes| {
        i := 0;
      }
    }

    /** The owner of the nearest point clockwise of the hash of the name. */
    method Get(name: string) returns (r: Answer)
      requires Valid()
      ensures r.ErrEmptyCircle? <==> circles == map[]
      ensures r.Ok? ==> |r.nodes| == 1 && forall h :: Nearest(circles, hashKey(name), h) ==> r.nodes[0] == circles[h]
    {
      if |circles| == 0 {
        return ErrEmptyCircle;
      }
      EmptyIff(sortedHashes, circles);
      var i := SearchKey(hashKey(name));
      StartIsNearest(sortedHashes, circles, hashKey(name));
      forall h | Nearest(circles, hashKey(name), h) ensures h == sortedHashes[i] {
        NearestUnique(circles, hashKey(name), h, sortedHashes[i]);
      }
      r := Ok([circles[sortedHashes[i]]]);
    }

    /** Where the walk for a name starts. */
    ghost function At(name: string): (i: nat)
      requires Valid() && circles != map[]
      reads this
      ensures i < |sortedHashes|
    {
      EmptyIff(sortedHashes, circles);
      SearchSplits(sortedHashes, hashKey(name));
      Start(sortedHashes, hashKey(name))
    }

    /** The owners met on the walk once around the ring. */
    ghost function Walk(name: string): seq<Node>
      requires Valid() && circles != map[]
      reads this
    {
      Around(Owners(sortedHashes, circles), At(name))
    }

    /** At most `count` members can be asked for. */
    function Capped(n: int): int
      reads this
    {
      if count < n then count else n
    }

    ghost predicate Answers(name: string, n: int)
      requires Valid() && circles != map[]
      reads this
    {
      Returns(Owners(sortedHashes, circles), At(name), Capped(n))
    }

    /** The first n distinct members clockwise. For a negative n the source panics; otherwise the
        requires is exactly that the loop ends. */
    method GetN(name: string, n: int) returns (r: Answer)
      requires Valid() && 0 <= n && (circles != map[] ==> Answers(name, n))
      ensures r.ErrEmptyCircle? <==> circles == map[]
      ensures r.Ok? ==>
                var m, all := Capped(n), Distinct(Walk(name)); r.nodes == if 1 <= m <= |all| then all[..m] else all
    {
      if |circles| == 0 {
        return ErrEmptyCircle;
      }
      var m := Capped(n);
      var start := SearchKey(hashKey(name));
      assert start == At(name);
      var res := Turn(Owners(sortedHashes, circles), start, m);
      r := Ok(res);
    }
  }

  /** What GetN promises on the owners of the sorted points. */
  function Found(owners: seq<Node>, start: nat, n: int): seq<Node>
    requires start < |owners|
  {
    var all := Distinct(Around(owners, start));
    if 1 <= n <= |all| then all[..n] else all
  }

  lemma FoundAtEnd(owners: seq<Node>, start: nat, n: int, k: nat, s: Loop)
    requires start < |owners| && k < |owners| && s == Before(owners, start, k)
    requires |s.res| == n || (s.i == start && (1 <= n ==> |s.res| < n))
    ensures s.res == Found(owners, start, n)
  {
    var walk := Around(owners, start);
    FirstTurn(owners, start, k);
    DistinctGrows(walk, k + 1);
    DistinctNonempty(walk[..k + 1]);
    if s.i == start {
      assert walk[..k + 1] == walk;
    }
  }

  /** While nothing ends it, the loop is still in its first turn around the ring. */
  lemma StillFirstTurn(owners: seq<Node>, start: nat, n: int, k: nat, s: Loop)
    requires start < |owners| && k < |owners| && s == Before(owners, start, k) && Returns(owners, start, n)
    requires s.i != start && 0 <= n && n != 1 && (1 <= n ==> |s.res| < n)
    ensures k + 1 < |owners|
  {
    ReturnsIff(owners, start, n);
    FirstTurn(owners, start, k);
    if k + 1 == |owners| {
      var walk := Around(owners, start);
      assert walk[..k + 1] == walk;
      DistinctRight(walk);
      AroundSame(owners, start);
    }
  }

  /** One turn of the loop: the step to the next point, around the end of the ring. */
  method Visit(owners: seq<Node>, i: nat, res: seq<Node>) returns (next: nat, found: seq<Node>)
    requires 0 < |owners|
    ensures Loop(next, found) == Body(owners, Loop(i, res))
  {
    next, found := i, res;
    if next >= |owners| {
      next := 0;
    }
    var elem := owners[next];
    if !ContainsMember(found, elem) {
      found := found + [elem];
    }
    next := next + 1;
  }

  /** GetN behind the search. */
  method Turn(owners: seq<Node>, start: nat, n: int) returns (res: seq<Node>)
    requires start < |owners| && 0 <= n && Returns(owners, start, n)
    ensures res == Found(owners, start, n)
  {
    ghost var k := 0;
    res := [owners[start]];
    if |res| == n {
      FoundAtEnd(owners, start, n, 0, Before(owners, start, 0));
      return;
    }
    var i: nat := start + 1;
    while i != start
      invariant k < |owners| && Loop(i, res) == Before(owners, start, k) && (1 <= n ==> |res| < n)
      decreases |owners| - k
    {
      StillFirstTurn(owners, start, n, k, Loop(i, res));
      i, res := Visit(owners, i, res);
      k := k + 1;
      if |res| == n {
        break;
      }
    }
    FoundAtEnd(owners, start, n, k, Loop(i, res));
  }

  /** The members in the order of the walk for a name. */
  ghost function Order(c: Consistent, name: string): seq<Node>
    requires c.Valid()
    reads c
  {
    if c.circles == map[] then [] else Distinct(c.Walk(name))
  }

  /** IDs are distinct and every member owns a point. */
  ghost predicate Complete(c: Consistent)
    reads c
  {
    c.Valid() && c.count == |c.members| && c.members == Ids(Owners(c.sortedHashes, c.circles))
  }

  /** Then the walk meets every member, once. */
  lemma EveryMemberMet(c: Consistent, name: string)
    requires Complete(c)
    ensures |Order(c, name)| == c.count && NoRepeats(Order(c, name)) && Ids(Order(c, name)) == c.members
  {
    var owners := Owners(c.sortedHashes, c.circles);
    EmptyIff(c.sortedHashes, c.circles);
    if c.circles != map[] {
      AroundSame(owners, c.At(name));
      DistinctRight(c.Walk(name));
    }
  }

  /** And every request for up to `count` members is answered, in full. */
  lemma EveryRequestAnswered(c: Consistent, name: string, n: int)
    requires Complete(c) && 1 <= n <= c.count
    ensures c.circles != map[] && c.Answers(name, n) && n <= |Order(c, name)|
  {
    EveryMemberMet(c, name);
    ReturnsIff(Owners(c.sortedHashes, c.circles), c.At(name), n);
  }

  lemma {:induction false} PointsNonempty(point: PointOf, n: Node, r: nat)
    requires 0 < r && 0 < n.weight
    ensures Points(point, n, r) != {}
  {
    assert point(n.id, r - 1, n.weight - 1) in Row(point, n.id, r - 1, n.weight);
  }

  /** A node with a point of its own is an owner. */
  lemma OwnsPoint(sorted: seq<Hash>, c: Circle, n: Node, h: Hash)
    requires Sorted(sorted, c) && h in c && c[h] == n
    ensures n.id in Ids(Owners(sorted, c))
  {
    var k :| 0 <= k < |sorted| && sorted[k] == h;
    assert Owners(sorted, c)[k].id == n.id;
  }

  lemma MemberOwns(c: Circle, sorted: seq<Hash>, nodes: set<Node>, point: PointOf, r: nat, n: Node)
    requires Sorted(sorted, c) && Exact(c, nodes, point, r) && n in nodes && 0 < r && 0 < n.weight
    ensures n.id in Ids(Owners(sorted, c))
  {
    PointsNonempty(point, n, r);
    var h :| h in Points(point, n, r);
    assert Owns(c, n, Points(point, n, r));
    OwnsPoint(sorted, c, n, h);
  }

  lemma OwnerIsMember(c: Circle, sorted: seq<Hash>, nodes: set<Node>, point: PointOf, r: nat, id: string)
    requires Sorted(sorted, c) && Exact(c, nodes, point, r) && id in Ids(Owners(sorted, c))
    ensures exists n :: n in nodes && n.id == id
  {
    var owners := Owners(sorted, c);
    var k :| 0 <= k < |owners| && owners[k].id == id;
    assert Belongs(c, sorted[k], nodes, point, r);
  }

  /** In whatever order the same members were added: without collisions two rings have the same points,
      and walk the same way for every name. */
  lemma OrderOfAddingIrrelevant(c: Consistent, d: Consistent, ns: set<Node>, name: string, n: int)
    requires c.Valid() && d.Valid() && c.point == d.point && c.hashKey == d.hashKey && c.replicas == d.replicas
    requires Exact(c.circles, ns, c.point, c.replicas) && Exact(d.circles, ns, d.point, d.replicas)
    ensures c.circles == d.circles && c.sortedHashes == d.sortedHashes && Order(c, name) == Order(d, name)
    ensures c.circles != map[] && c.count == d.count ==> (c.Answers(name, n) <==> d.Answers(name, n))
  {
    ExactUnique(c.circles, d.circles, ns, c.point, c.replicas);
    SortedUnique(c.sortedHashes, d.sortedHashes, c.circles);
  }

  /** A ring of two members, one of them without a point: asked for both of them, for a name whose walk
      starts at the only point, GetN does not return. */
  method EndlessWalk() returns (c: Consistent)
    ensures c.Valid() && c.members == {"a", "b"} && c.count == 2 && c.circles == map[7 := Node("a", 1)]
    ensures c.circles != map[] && !c.Answers("name", 2)
  {
    c := new Consistent((id: string, i: nat, j: nat) => 7, (name: string) => 5, 1);
    var a, b := Node("a", 1), Node("b", 0);
    OnePoint(c.point, a);
    OnePoint(c.point, b);
    c.Add(a);
    c.Add(b);
    OverOnce(a, b);
    Endless(c, a, "name");
  }

  lemma OverOnce(a: Node, b: Node)
    ensures Over(Over(map[], {7}, a), {}, b) == map[7 := a]
  {
  }

  lemma Endless(c: Consistent, a: Node, name: string)
    requires c.Valid() && c.circles == map[7 := a] && c.count == 2
    ensures 7 in c.circles && !c.Answers(name, 2)
  {
    assert 7 in c.circles;
    SortedUnique(c.sortedHashes, [7], c.circles);
    OneOwner(a);
    ReturnsIff([a], c.At(name), 2);
  }

  lemma OneOwner(n: Node)
    ensures Owners([7], map[7 := n]) == [n] && Ids([n]) == {n.id} && |Ids([n])| == 1
  {
    assert [n][0].id in Ids([n]);
  }

  lemma OnePoint(point: PointOf, n: Node)
    ensures Points(point, n, 1) == Row(point, n.id, 0, n.weight)
    ensures Row(point, n.id, 0, 0) == {} && Row(point, n.id, 0, 1) == {point(n.id, 0, 0)}
  {
    assert Points(point, n, 0) == {};
  }

  /** A fresh ring without collisions, of members with at least one point each, is complete. */
  lemma FreshRingComplete(c: Consistent, caches: seq<Node>)
    requires c.Valid() && c.members == Ids(caches) && c.count == |c.members|
    requires Exact(c.circles, LastById(caches).Values, c.point, c.replicas)
    requires 0 < c.replicas && forall n :: n in LastById(caches).Values ==> 0 < n.weight
    ensures Complete(c)
  {
    ById(caches);
    var elts, owners := LastById(caches), Owners(c.sortedHashes, c.circles);
    forall id | id in c.members ensures id in Ids(owners) {
      assert elts[id] in elts.Values && elts[id].id == id;
      MemberOwns(c.circles, c.sortedHashes, elts.Values, c.point, c.replicas, elts[id]);
    }
    forall id | id in Ids(owners) ensures id in c.members {
      OwnerIsMember(c.circles, c.sortedHashes, elts.Values, c.point, c.replicas, id);
    }
  }

  // ---- hashring.go ----

  predicate Fit(b: Node, useAllow: Node -> bool, hasBad: Node -> bool) {
    useAllow(b) && !hasBad(b)
  }

  predicate NoneFit(bs: seq<Node>, n: nat, useAllow: Node -> bool, hasBad: Node -> bool) {
    n <= |bs| && forall k :: 0 <= k < n ==> !Fit(bs[k], useAllow, hasBad)
  }

  lemma NoneFitMore(bs: seq<Node>, n: nat, useAllow: Node -> bool, hasBad: Node -> bool)
    requires 0 < n <= |bs| && NoneFit(bs, n - 1, useAllow, hasBad) && !Fit(bs[n - 1], useAllow, hasBad)
    ensures NoneFit(bs, n, useAllow, hasBad)
  {
  }

  class Balancer {
    const buckets: seq<Node>
    const hashring: Consistent

    constructor (buckets: seq<Node>, hashring: Consistent)
      ensures this.buckets == buckets && this.hashring == hashring
    {
      this.buckets, this.hashring := buckets, hashring;
    }

    ghost predicate Valid()
      reads hashring
    {
      Complete(hashring) && hashring.count == |buckets|
    }

    /** The members in the order of the walk for a name, as a fact behind a name. */
    ghost predicate IsRoute(id: string, all: seq<Node>)
      reads hashring
    {
      forall t {:trigger Shown(t)} :: Shown(t) ==> Valid() && all == Order(hashring, id)
    }

    ghost function Route(id: string, all: seq<Node>): Option<seq<Node>>
      reads hashring
    {
      if IsRoute(id, all) then Some(all) else None
    }

    method Nth(id: string, i: nat, ghost all: seq<Node>) returns (bucket: Node)
      requires Route(id, all).Some? && 1 <= i <= |buckets|
      ensures Route(id, all).Some? && i <= |all| && bucket == all[i - 1]
    {
      assert Shown(0);
      EveryRequestAnswered(hashring, id, i);
      var groups := hashring.GetN(id, i);
      bucket := groups.nodes[i - 1];
    }

    /** One turn of the loop: is the i-th bucket fit? */
    method Try(id: string, i: nat, useAllow: Node -> bool, hasBad: Node -> bool, ghost all: seq<Node>)
      returns (fit: bool, bucket: Node)
      requires Route(id, all).Some? && 1 <= i <= |buckets| && NoneFit(all, i - 1, useAllow, hasBad)
      ensures Route(id, all).Some? && i <= |all| && bucket == all[i - 1]
      ensures if fit then Fit(bucket, useAllow, hasBad) else NoneFit(all, i, useAllow, hasBad)
    {
      bucket := Nth(id, i, all);
      fit := useAllow(bucket) && !hasBad(bucket);
      if !fit {
        NoneFitMore(all, i, useAllow, hasBad);
      }
    }

    /** The nearest bucket clockwise that is below its high-water mark and has no bad disk; none
        only if every bucket is unfit. */
    method Select(id: string, useAllow: Node -> bool, hasBad: Node -> bool)
      returns (found: bool, bucket: Node, ghost k: nat)
      requires Valid()
      ensures NoneFit(Order(hashring, id), k, useAllow, hasBad)
      ensures found ==>
                k < |Order(hashring, id)| && bucket == Order(hashring, id)[k] && Fit(bucket, useAllow, hasBad)
      ensures !found ==> k == |Order(hashring, id)|
    {
      EveryMemberMet(hashring, id);
      found, bucket, k := Choose(id, useAllow, hasBad, Order(hashring, id));
    }

    method Choose(id: string, useAllow: Node -> bool, hasBad: Node -> bool, ghost all: seq<Node>)
      returns (found: bool, bucket: Node, ghost k: nat)
      requires Route(id, all).Some? && |all| == |buckets|
      ensures NoneFit(all, k, useAllow, hasBad)
      ensures if found then k < |all| && bucket == all[k] && Fit(bucket, useAllow, hasBad) else k == |all|
    {
      var i := 1;
      while i <= |buckets|
        invariant 1 <= i <= |buckets| + 1 && Route(id, all).Some? && NoneFit(all, i - 1, useAllow, hasBad)
      {
        found, bucket := Try(id, i, useAllow, hasBad, all);
        if found {
          return true, bucket, i - 1;
        }
        i := i + 1;
      }
      found, bucket, k := false, Node("", 0), |buckets|;
    }
  }

  // ---- Helpers of the class ----

  function LastById(caches: seq<Node>): map<string, Node> {
    if caches == [] then map[]
    else LastById(caches[..|caches| - 1])[caches[|caches| - 1].id := caches[|caches| - 1]]
  }

  /** Of several nodes with one ID the last counts. */
  lemma {:induction false} LastCounts(caches: seq<Node>, k: nat)
    requires k < |caches| && forall j :: k < j < |caches| ==> caches[j].id != caches[k].id
    ensures caches[k].id in LastById(caches) && LastById(caches)[caches[k].id] == caches[k]
  {
    var n := |caches| - 1;
    if k < n {
      LastCounts(caches[..n], k);
    }
  }

  lemma {:induction false} ById(caches: seq<Node>)
    ensures LastById(caches).Keys == Ids(caches)
    ensures forall id :: id in LastById(caches) ==> LastById(caches)[id].id == id
  {
    if caches != [] {
      var n := |caches| - 1;
      ById(caches[..n]);
      IdsAppend(caches[..n], caches[n]);
      assert caches[..n] + [caches[n]] == caches;
    }
  }

  function Picked(elts: map<string, Node>, ids: set<string>): set<Node> {
    set id | id in ids && id in elts :: elts[id]
  }

  lemma PickMore(elts: map<string, Node>, ids: set<string>, id: string)
    requires id in elts
    ensures Picked(elts, ids + {id}) == Picked(elts, ids) + {elts[id]}
  {
  }

  /** The ring so far holds exactly the points of the members picked, if no two points collide. */
  ghost predicate IsExactFor(elts: map<string, Node>, ids: set<string>, c: Circle, point: PointOf, r: nat) {
    forall t {:trigger Shown(t)} :: Shown(t) ==> NoCollision(elts.Values, point, r) ==>
        Exact(c, Picked(elts, ids), point, r)
  }

  ghost function ExactFor(elts: map<string, Node>, ids: set<string>, c: Circle, point: PointOf,
                          r: nat): Option<Circle> {
    if IsExactFor(elts, ids, c, point, r) then Some(c) else None
  }

  lemma NonePicked(elts: map<string, Node>, point: PointOf, r: nat)
    ensures ExactFor(elts, {}, map[], point, r).Some?
  {
    assert Picked(elts, {}) == {};
  }

  lemma AllPicked(elts: map<string, Node>, ids: set<string>, c: Circle, point: PointOf, r: nat)
    requires ids == elts.Keys && ExactFor(elts, ids, c, point, r).Some?
    ensures NoCollision(elts.Values, point, r) ==> Exact(c, elts.Values, point, r)
  {
    assert Shown(0);
    assert Picked(elts, elts.Keys) == elts.Values;
  }

  lemma PickedApart(elts: map<string, Node>, ids: set<string>, id: string, point: PointOf, r: nat)
    requires NoCollision(elts.Values, point, r) && id in elts
    ensures Apart(elts[id], Picked(elts, ids), point, r)
  {
    assert elts[id] in elts.Values;
    assert forall n :: n in Picked(elts, ids) ==> n in elts.Values;
    assert Apart(elts[id], elts.Values, point, r);
  }

  lemma PickedExact(elts: map<string, Node>, ids: set<string>, id: string, c: Circle, point: PointOf, r: nat)
    requires id in elts
    ensures NoCollision(elts.Values, point, r) && Exact(c, Picked(elts, ids), point, r) ==>
              Exact(Over(c, Points(point, elts[id], r), elts[id]), Picked(elts, ids + {id}), point, r)
  {
    if NoCollision(elts.Values, point, r) && Exact(c, Picked(elts, ids), point, r) {
      PickMore(elts, ids, id);
      PickedApart(elts, ids, id, point, r);
      AddExact(c, Picked(elts, ids), elts[id], point, r);
    }
  }

  lemma OverOne(c: Circle, ps: set<Hash>, qs: set<Hash>, h: Hash, n: Node)
    ensures Over(c, ps + qs, n)[h := n] == Over(c, ps + (qs + {h}), n)
  {
  }

  lemma EmptyIff(sorted: seq<Hash>, c: Circle)
    requires Sorted(sorted, c)
    ensures sorted == [] <==> c == map[]
  {
    assert sorted != [] ==> sorted[0] in c;
    if h :| h in c {
      assert h in sorted;
    }
  }

  /** Inserting a new value keeps a sequence sorted; sort.Sort is modelled by repeated insertion. */
  method Insert(s: seq<Hash>, k: Hash) returns (t: seq<Hash>)
    requires Ascending(s) && k !in s
    ensures Ascending(t) && forall h :: h in t <==> h in s || h == k
  {
    var i := SortSearch(s, Above(k));
    GapAt(s, k, i);
    InsertAscending(s, k, i);
    InsertMembers(s, k, i);
    t := s[..i] + [k] + s[i..];
  }

  lemma InsertMembers(s: seq<Hash>, k: Hash, i: nat)
    requires i <= |s|
    ensures forall h :: h in s[..i] + [k] + s[i..] <==> h in s || h == k
  {
    assert s == s[..i] + s[i..];
  }

  predicate Gap(s: seq<Hash>, k: Hash, i: nat) {
    i <= |s| && (0 < i ==> s[i - 1] < k) && (i < |s| ==> k < s[i])
  }

  lemma GapAt(s: seq<Hash>, k: Hash, i: nat)
    requires k !in s && i == BinarySearch(s, Above(k), 0, |s|)
    ensures Gap(s, k, i)
  {
    assert 0 < i ==> !Above(k)(s[i - 1]);
    assert i < |s| ==> Above(k)(s[i]);
  }

  lemma InsertAscending(s: seq<Hash>, k: Hash, i: nat)
    requires Ascending(s) && Gap(s, k, i)
    ensures Ascending(s[..i] + [k] + s[i..])
  {
    var t := s[..i] + [k] + s[i..];
    forall x, y | 0 <= x < y < |t| ensures t[x] < t[y] {
      InsertPair(s, k, i, x, y);
    }
  }

  lemma InsertPair(s: seq<Hash>, k: Hash, i: nat, x: nat, y: nat)
    requires Ascending(s) && Gap(s, k, i) && x < y <= |s|
    ensures var t := s[..i] + [k] + s[i..]; t[x] < t[y]
  {
    assert x < i - 1 ==> s[x] < s[i - 1];
    assert i < y - 1 ==> s[i] < s[y - 1];
  }
}
