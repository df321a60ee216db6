/** The cache of pkg/algorithm/lru without its pointers: keys on rungs of increasing frequency,
    and the ranked map this refines. */
module Ladder {
  import opened Ring

  type Key = string

  datatype Rung = Rung(freq: nat, keys: seq<Key>)

  /** What the cache is for: each key has a frequency and came to it at some time. */
  datatype Rank = Rank(freq: nat, stamp: nat)

  type Ranks = map<Key, Rank>

  predicate Below(a: Rank, b: Rank) {
    a.freq < b.freq || (a.freq == b.freq && a.stamp < b.stamp)
  }

  /** A rung holds keys of its frequency, the earliest first. */
  ghost predicate RungOk(r: Rung, rm: Ranks) {
    && (forall j :: 0 <= j < |r.keys| ==> r.keys[j] in rm && rm[r.keys[j]].freq == r.freq)
    && (forall j, h :: 0 <= j < h < |r.keys| ==> rm[r.keys[j]].stamp < rm[r.keys[h]].stamp)
  }

  ghost predicate RungsOk(l: seq<Rung>, rm: Ranks) {
    forall i :: 0 <= i < |l| ==> RungOk(l[i], rm) && l[i].keys != [] && 0 < l[i].freq
  }

  ghost predicate Rising(l: seq<Rung>) {
    forall i, j :: 0 <= i < j < |l| ==> l[i].freq < l[j].freq
  }

  ghost predicate OnLadder(l: seq<Rung>, k: Key) {
    exists i :: 0 <= i < |l| && k in l[i].keys
  }

  ghost predicate AllOn(l: seq<Rung>, rm: Ranks) {
    forall k :: k in rm ==> OnLadder(l, k)
  }

  ghost predicate Stamped(rm: Ranks, clock: nat) {
    forall k :: k in rm ==> rm[k].stamp < clock
  }

  /** The ladder refines the ranked map: no rung is empty, frequencies start at 1 and strictly
      increase, every key is on the rung of its frequency, in order of arrival. */
  ghost predicate Refines(l: seq<Rung>, rm: Ranks, clock: nat) {
    RungsOk(l, rm) && Rising(l) && AllOn(l, rm) && Stamped(rm, clock)
  }

  // ---- One rung ----

  lemma RungKeeps(r: Rung, rm: Ranks, rm': Ranks, k: Key)
    requires RungOk(r, rm) && k !in r.keys && forall x :: x in rm && x != k ==> x in rm' && rm'[x] == rm[x]
    ensures RungOk(r, rm')
  {
  }

  lemma RungAppend(r: Rung, rm: Ranks, k: Key)
    requires RungOk(r, rm) && k in rm && rm[k].freq == r.freq
    requires forall j :: 0 <= j < |r.keys| ==> rm[r.keys[j]].stamp < rm[k].stamp
    ensures RungOk(Rung(r.freq, r.keys + [k]), rm)
  {
  }

  lemma RungWithout(r: Rung, rm: Ranks, rm': Ranks, j: nat)
    requires RungOk(r, rm) && j < |r.keys|
    requires rm' == rm - {r.keys[j]}
    ensures RungOk(Rung(r.freq, Without(r.keys, j)), rm')
  {
    var less := Without(r.keys, j);
    forall x | 0 <= x < |less| ensures less[x] in rm' && less[x] == r.keys[if x < j then x else x + 1] {
      assert rm[r.keys[if x < j then x else x + 1]].stamp != rm[r.keys[j]].stamp;
    }
  }

  /** A key is on the rung of its frequency and on no other. */
  lemma ElsewhereNot(l: seq<Rung>, rm: Ranks, i: nat, x: nat, k: Key)
    requires RungsOk(l, rm) && Rising(l) && i < |l| && x < |l| && i != x && k in l[i].keys
    ensures k !in l[x].keys
  {
    assert RungOk(l[i], rm) && RungOk(l[x], rm);
  }

  // ---- The operations ----

  /** remEntry: the j-th key leaves rung i, and an empty rung goes. */
  function Taken(l: seq<Rung>, i: nat, j: nat): seq<Rung>
    requires i < |l| && j < |l[i].keys|
  {
    if |l[i].keys| == 1 then Without(l, i) else l[i := Rung(l[i].freq, Without(l[i].keys, j))]
  }

  lemma TakenRungs(l: seq<Rung>, rm: Ranks, i: nat, j: nat)
    requires RungsOk(l, rm) && Rising(l) && i < |l| && j < |l[i].keys|
    ensures RungsOk(Taken(l, i, j), rm - {l[i].keys[j]}) && Rising(Taken(l, i, j))
  {
    var k, t := l[i].keys[j], Taken(l, i, j);
    var rm' := rm - {k};
    RungWithout(l[i], rm, rm', j);
    forall x | 0 <= x < |t| ensures RungOk(t[x], rm') && t[x].keys != [] && 0 < t[x].freq {
      var y := if |l[i].keys| == 1 && i <= x then x + 1 else x;
      if y != i {
        ElsewhereNot(l, rm, i, y, k);
        RungKeeps(l[y], rm, rm', k);
      }
    }
  }

  lemma TakeOk(l: seq<Rung>, rm: Ranks, clock: nat, i: nat, j: nat)
    requires Refines(l, rm, clock) && i < |l| && j < |l[i].keys|
    ensures Refines(Taken(l, i, j), rm - {l[i].keys[j]}, clock)
  {
    TakenRungs(l, rm, i, j);
    forall y | y in rm - {l[i].keys[j]} ensures OnLadder(Taken(l, i, j), y) {
      var x :| 0 <= x < |l| && y in l[x].keys;
      TakenOn(l, i, j, x, y);
    }
  }

  lemma TakenOn(l: seq<Rung>, i: nat, j: nat, x: nat, y: Key)
    requires i < |l| && j < |l[i].keys| && x < |l| && y in l[x].keys && y != l[i].keys[j]
    ensures OnLadder(Taken(l, i, j), y)
  {
    var t := Taken(l, i, j);
    if |l[i].keys| == 1 {
      assert x != i;
      assert y in t[if x < i then x else x - 1].keys;
    } else if x == i {
      var h :| 0 <= h < |l[i].keys| && l[i].keys[h] == y;
      assert Without(l[i].keys, j)[if h < j then h else h - 1] == y;
      assert y in t[i].keys;
    } else {
      assert y in t[x].keys;
    }
  }

  /** A key enters the rung with index i. */
  function Added(l: seq<Rung>, i: nat, k: Key): seq<Rung>
    requires i < |l|
  {
    l[i := Rung(l[i].freq, l[i].keys + [k])]
  }

  /** A key joins the rung of frequency f at index p, which is made if it is missing. */
  function Joined(l: seq<Rung>, p: nat, f: nat, k: Key): seq<Rung>
    requires p <= |l|
  {
    Added(Widened(l, p, f), p, k)
  }

  function Widened(l: seq<Rung>, p: nat, f: nat): (w: seq<Rung>)
    requires p <= |l|
    ensures p < |w|
  {
    if p < |l| && l[p].freq == f then l else With(l, p, Rung(f, []))
  }

  /** Index p is where the rung of frequency f belongs. */
  ghost predicate Belongs(l: seq<Rung>, p: nat, f: nat) {
    p <= |l| && 0 < f && (forall x :: 0 <= x < p ==> l[x].freq < f) && (forall x :: p <= x < |l| ==> f <= l[x].freq)
  }

  lemma JoinOk(l: seq<Rung>, rm: Ranks, clock: nat, p: nat, f: nat, k: Key)
    requires Refines(l, rm, clock) && k !in rm && Belongs(l, p, f)
    ensures Refines(Joined(l, p, f, k), rm[k := Rank(f, clock)], clock + 1)
  {
    JoinedRungs(l, rm, clock, p, f, k);
    JoinedRises(l, p, f, k);
    forall y | y in rm[k := Rank(f, clock)] ensures OnLadder(Joined(l, p, f, k), y) {
      JoinedOn(l, rm, p, f, k, y);
    }
  }

  /** The rungs of the result but the one joined are those of the ladder. */
  lemma JoinedAt(l: seq<Rung>, p: nat, f: nat, k: Key, x: nat)
    requires p <= |l| && x < |Joined(l, p, f, k)|
    ensures var w, t := Widened(l, p, f), Joined(l, p, f, k);
            t[x] == if x == p then Rung(f, w[p].keys + [k]) else l[if |w| == |l| || x < p then x else x - 1]
  {
  }

  lemma JoinedRises(l: seq<Rung>, p: nat, f: nat, k: Key)
    requires Rising(l) && Belongs(l, p, f)
    ensures Rising(Joined(l, p, f, k))
  {
    var t := Joined(l, p, f, k);
    forall x, y | 0 <= x < y < |t| ensures t[x].freq < t[y].freq {
      JoinedAt(l, p, f, k, x);
      JoinedAt(l, p, f, k, y);
    }
  }

  lemma JoinedRungs(l: seq<Rung>, rm: Ranks, clock: nat, p: nat, f: nat, k: Key)
    requires RungsOk(l, rm) && Stamped(rm, clock) && k !in rm && Belongs(l, p, f)
    ensures RungsOk(Joined(l, p, f, k), rm[k := Rank(f, clock)])
  {
    var rm', w, t := rm[k := Rank(f, clock)], Widened(l, p, f), Joined(l, p, f, k);
    forall x | 0 <= x < |l| ensures RungOk(l[x], rm') && k !in l[x].keys {
      assert RungOk(l[x], rm);
      RungKeeps(l[x], rm, rm', k);
    }
    RungAppend(w[p], rm', k);
    forall x | 0 <= x < |t| ensures RungOk(t[x], rm') && t[x].keys != [] && 0 < t[x].freq {
      JoinedAt(l, p, f, k, x);
    }
  }

  lemma JoinedOn(l: seq<Rung>, rm: Ranks, p: nat, f: nat, k: Key, y: Key)
    requires AllOn(l, rm) && p <= |l| && (y == k || y in rm)
    ensures OnLadder(Joined(l, p, f, k), y)
  {
    var w, t := Widened(l, p, f), Joined(l, p, f, k);
    if y == k {
      assert t[p].keys[|w[p].keys|] == k;
    } else {
      var x :| 0 <= x < |l| && y in l[x].keys;
      var z := if |w| == |l| || x < p then x else x + 1;
      assert w[z] == l[x];
      assert y in t[z].keys;
    }
  }

  /** increment of a new entry. */
  function Entered(l: seq<Rung>, k: Key): seq<Rung> {
    Joined(l, 0, 1, k)
  }

  /** increment of an entry: it joins the next rung and then leaves its own. */
  function Raised(l: seq<Rung>, i: nat, j: nat): seq<Rung>
    requires i < |l| && j < |l[i].keys|
  {
    Taken(Joined(l, i + 1, l[i].freq + 1, l[i].keys[j]), i, j)
  }

  lemma RaisedIs(l: seq<Rung>, i: nat, j: nat, wide: seq<Rung>)
    requires i < |l| && j < |l[i].keys| && wide == Joined(l, i + 1, l[i].freq + 1, l[i].keys[j])
    ensures i < |wide| && j < |wide[i].keys| && Taken(wide, i, j) == Raised(l, i, j)
  {
  }

  lemma EnterOk(l: seq<Rung>, rm: Ranks, clock: nat, k: Key)
    requires Refines(l, rm, clock) && k !in rm
    ensures Refines(Entered(l, k), rm[k := Rank(1, clock)], clock + 1)
  {
    JoinOk(l, rm, clock, 0, 1, k);
  }

  /** Leaving the old rung first comes to the same. */
  lemma RaisedSame(l: seq<Rung>, i: nat, j: nat)
    requires i < |l| && j < |l[i].keys|
    ensures Raised(l, i, j) == Joined(Taken(l, i, j), Beside(l, i), l[i].freq + 1, l[i].keys[j])
  {
    var f, k := l[i].freq + 1, l[i].keys[j];
    var w, t := Widened(l, i + 1, f), Taken(l, i, j);
    if |l[i].keys| == 1 {
      assert Without(w, i) == Widened(t, i, f);
      assert Without(Added(w, i + 1, k), i) == Added(Without(w, i), i, k);
    } else {
      assert Taken(w, i, j) == Widened(t, i + 1, f);
    }
  }

  /** Where the next rung begins once the entry has left rung i. */
  function Beside(l: seq<Rung>, i: nat): nat
    requires i < |l|
  {
    if |l[i].keys| == 1 then i else i + 1
  }

  lemma NextBelongs(l: seq<Rung>, i: nat, j: nat)
    requires Rising(l) && i < |l| && j < |l[i].keys|
    ensures Belongs(Taken(l, i, j), Beside(l, i), l[i].freq + 1)
  {
    var t := Taken(l, i, j);
    forall x | 0 <= x < |t| ensures t[x].freq == l[if |l[i].keys| == 1 && i <= x then x + 1 else x].freq {
    }
  }

  lemma RejoinOk(l: seq<Rung>, rm: Ranks, clock: nat, p: nat, f: nat, k: Key)
    requires Refines(l, rm - {k}, clock) && Belongs(l, p, f)
    ensures Refines(Joined(l, p, f, k), rm[k := Rank(f, clock)], clock + 1)
  {
    JoinOk(l, rm - {k}, clock, p, f, k);
    assert (rm - {k})[k := Rank(f, clock)] == rm[k := Rank(f, clock)];
  }

  lemma OnItsRung(l: seq<Rung>, rm: Ranks, i: nat, j: nat)
    requires RungsOk(l, rm) && i < |l| && j < |l[i].keys|
    ensures l[i].keys[j] in rm && rm[l[i].keys[j]].freq == l[i].freq
  {
    assert RungOk(l[i], rm);
  }

  lemma RaiseOk(l: seq<Rung>, rm: Ranks, clock: nat, i: nat, j: nat)
    requires Refines(l, rm, clock) && i < |l| && j < |l[i].keys|
    ensures Refines(Raised(l, i, j), rm[l[i].keys[j] := Rank(l[i].freq + 1, clock)], clock + 1)
  {
    TakeOk(l, rm, clock, i, j);
    NextBelongs(l, i, j);
    RejoinOk(Taken(l, i, j), rm, clock, Beside(l, i), l[i].freq + 1, l[i].keys[j]);
    RaisedSame(l, i, j);
  }

  // ---- Eviction ----

  /** Further along the ladder is higher in rank. */
  lemma LaterIsHigher(l: seq<Rung>, rm: Ranks, i: nat, j: nat, x: nat, y: nat)
    requires RungsOk(l, rm) && Rising(l) && i <= x < |l| && j < |l[i].keys| && y < |l[x].keys| && (i == x ==> j < y)
    ensures l[i].keys[j] in rm && l[x].keys[y] in rm && Below(rm[l[i].keys[j]], rm[l[x].keys[y]])
  {
    assert RungOk(l[i], rm) && RungOk(l[x], rm);
  }

  lemma Find(l: seq<Rung>, k: Key) returns (i: nat, j: nat)
    requires OnLadder(l, k)
    ensures i < |l| && j < |l[i].keys| && l[i].keys[j] == k
  {
    i :| 0 <= i < |l| && k in l[i].keys;
    j :| 0 <= j < |l[i].keys| && l[i].keys[j] == k;
  }

  lemma FirstIsLowest(l: seq<Rung>, rm: Ranks, y: Key)
    requires RungsOk(l, rm) && Rising(l) && OnLadder(l, y) && y != l[0].keys[0]
    ensures l[0].keys[0] in rm && y in rm && Below(rm[l[0].keys[0]], rm[y])
  {
    var i, j := Find(l, y);
    LaterIsHigher(l, rm, 0, 0, i, j);
  }

  /** Everything in `gone` ranks below everything that stays. */
  ghost predicate Lowest(rm: Ranks, gone: set<Key>) {
    gone <= rm.Keys && forall x, y :: x in gone && y in rm && y !in gone ==> Below(rm[x], rm[y])
  }

  lemma EmptyLadder(l: seq<Rung>, rm: Ranks, clock: nat)
    requires Refines(l, rm, clock)
    ensures l == [] <==> rm == map[]
  {
    if l != [] {
      assert RungOk(l[0], rm) && l[0].keys[0] in rm;
    }
  }

  /** The front of the ladder ranks lowest of all. */
  lemma FrontIsLowest(l: seq<Rung>, rm: Ranks, clock: nat)
    requires Refines(l, rm, clock) && l != []
    ensures l[0].keys[0] in rm && Lowest(rm, {l[0].keys[0]})
  {
    OnItsRung(l, rm, 0, 0);
    forall y | y in rm && y != l[0].keys[0] ensures Below(rm[l[0].keys[0]], rm[y]) {
      FirstIsLowest(l, rm, y);
    }
  }

  /** Removing the lowest again and again removes the lowest entries. */
  lemma LowestNext(rm: Ranks, gone: set<Key>, k: Key)
    requires Lowest(rm, gone) && k in rm - gone && Lowest(rm - gone, {k})
    ensures Lowest(rm, gone + {k}) && |gone + {k}| == |gone| + 1 && rm - gone - {k} == rm - (gone + {k})
  {
    forall x, y | x in gone + {k} && y in rm && y !in gone + {k} ensures Below(rm[x], rm[y]) {
      assert x == k ==> x in rm - gone && y in rm - gone;
    }
  }

  /** When one entry must go for a new key, it is the new key itself exactly when every other key
      has been used more than once. */
  lemma NewcomerGoesIff(rm: Ranks, clock: nat, k: Key, gone: set<Key>)
    requires k !in rm && Stamped(rm, clock) && forall x :: x in rm ==> 1 <= rm[x].freq
    requires Lowest(rm[k := Rank(1, clock)], gone) && |gone| == 1
    ensures k in gone <==> forall x :: x in rm ==> 1 < rm[x].freq
  {
    var more := rm[k := Rank(1, clock)];
    var g :| g in gone;
    assert |gone - {g}| == 0;
    assert gone == {g} && g in more;
    if g != k {
      assert Below(more[g], more[k]);
    } else {
      assert forall x :: x in rm ==> x in more && x !in gone && Below(more[k], more[x]);
    }
  }

  // ---- TopK ----

  /** There are j keys on rung i from its front, or j is 0 and i is past the last rung. */
  ghost predicate Spot(l: seq<Rung>, i: nat, j: nat) {
    if i < |l| then j <= |l[i].keys| else i == |l| && j == 0
  }

  /** The keys in front of a spot, the nearest first: the order in which TopK meets them. */
  ghost function Tops(l: seq<Rung>, i: nat, j: nat): seq<Key>
    requires Spot(l, i, j)
    decreases i, j
  {
    if 0 < j then [l[i].keys[j - 1]] + Tops(l, i, j - 1)
    else if 0 < i then Tops(l, i - 1, |l[i - 1].keys|)
    else []
  }

  ghost function All(l: seq<Rung>): seq<Key> {
    Tops(l, |l|, 0)
  }

  /** The y-th key of rung x is at the spot or behind it. */
  ghost predicate Past(l: seq<Rung>, i: nat, j: nat, x: nat, y: nat) {
    x < |l| && y < |l[x].keys| && (i < x || (i == x && j <= y))
  }

  ghost predicate InFront(l: seq<Rung>, i: nat, j: nat, x: nat, y: nat) {
    x < |l| && y < |l[x].keys| && (x < i || (i == x && y < j))
  }

  /** All keys are ranked, the higher ones first. */
  ghost predicate Falling(ks: seq<Key>, rm: Ranks) {
    && (forall t :: 0 <= t < |ks| ==> ks[t] in rm)
    && (forall s, t :: 0 <= s < t < |ks| ==> Below(rm[ks[t]], rm[ks[s]]))
  }

  ghost predicate AllBelow(ks: seq<Key>, rm: Ranks, k: Key) {
    k in rm && forall t :: 0 <= t < |ks| ==> ks[t] in rm && Below(rm[ks[t]], rm[k])
  }

  lemma FallingMore(ks: seq<Key>, rm: Ranks, k: Key)
    requires Falling(ks, rm) && AllBelow(ks, rm, k)
    ensures Falling([k] + ks, rm)
  {
    var all := [k] + ks;
    assert forall t :: 0 < t < |all| ==> all[t] == ks[t - 1];
  }

  lemma BelowMore(ks: seq<Key>, rm: Ranks, k: Key, top: Key)
    requires AllBelow(ks, rm, top) && k in rm && Below(rm[k], rm[top])
    ensures AllBelow([k] + ks, rm, top)
  {
  }

  lemma {:induction false} TopsBelow(l: seq<Rung>, rm: Ranks, i: nat, j: nat, x: nat, y: nat)
    requires RungsOk(l, rm) && Rising(l) && Spot(l, i, j) && Past(l, i, j, x, y)
    ensures AllBelow(Tops(l, i, j), rm, l[x].keys[y])
    decreases i, j
  {
    OnItsRung(l, rm, x, y);
    if 0 < j {
      TopsBelow(l, rm, i, j - 1, x, y);
      LaterIsHigher(l, rm, i, j - 1, x, y);
      BelowMore(Tops(l, i, j - 1), rm, l[i].keys[j - 1], l[x].keys[y]);
    } else if 0 < i {
      TopsBelow(l, rm, i - 1, |l[i - 1].keys|, x, y);
    }
  }

  lemma {:induction false} TopsFalling(l: seq<Rung>, rm: Ranks, i: nat, j: nat)
    requires RungsOk(l, rm) && Rising(l) && Spot(l, i, j)
    ensures Falling(Tops(l, i, j), rm)
    decreases i, j
  {
    if 0 < j {
      TopsFalling(l, rm, i, j - 1);
      TopsBelow(l, rm, i, j - 1, i, j - 1);
      FallingMore(Tops(l, i, j - 1), rm, l[i].keys[j - 1]);
    } else if 0 < i {
      TopsFalling(l, rm, i - 1, |l[i - 1].keys|);
    }
  }

  lemma {:induction false} TopsCover(l: seq<Rung>, i: nat, j: nat, x: nat, y: nat)
    requires Spot(l, i, j) && InFront(l, i, j, x, y)
    ensures l[x].keys[y] in Tops(l, i, j)
    decreases i, j
  {
    if 0 < j {
      if x != i || y != j - 1 {
        TopsCover(l, i, j - 1, x, y);
      }
    } else {
      TopsCover(l, i - 1, |l[i - 1].keys|, x, y);
    }
  }

  lemma {:induction false} DistinctSize(ks: seq<Key>, s: set<Key>)
    requires Distinct(ks) && forall k :: k in s <==> k in ks
    ensures |ks| == |s|
  {
    if ks != [] {
      var rest := ks[1..];
      forall k ensures k in s - {ks[0]} <==> k in rest {
        assert k in ks <==> k == ks[0] || k in rest;
        assert ks[0] !in rest;
      }
      DistinctSize(rest, s - {ks[0]});
    } else {
      assert s == {};
    }
  }

  /** TopK's order: every key of the map once, strictly falling in rank. */
  lemma TopsFall(l: seq<Rung>, rm: Ranks, clock: nat)
    requires Refines(l, rm, clock)
    ensures Falling(All(l), rm) && |All(l)| == |rm| && forall k :: k in rm <==> k in All(l)
  {
    TopsFalling(l, rm, |l|, 0);
    forall k | k in rm ensures k in All(l) {
      var x, y := Find(l, k);
      TopsCover(l, |l|, 0, x, y);
    }
    forall s, t | 0 <= s < t < |All(l)| ensures All(l)[s] != All(l)[t] {
      assert Below(rm[All(l)[t]], rm[All(l)[s]]);
    }
    DistinctSize(All(l), rm.Keys);
    assert |rm| == |rm.Keys|;
  }
}
