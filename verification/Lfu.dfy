/** The cache of pkg/algorithm/lru: a list of frequency buckets, each a list of entries, and a map
    of all entries, linked back and forth. */
module Lfu {
  import opened Hidden
  import opened Ladder
  import opened Ring

  datatype Mark = Mark(lastAccess: int, refs: int)

  class CacheEntry {
    const key: Key
    var value: Mark
    var freqNode: Element?<ListEntry>
    var entryNode: Element?<CacheEntry>

    constructor (key: Key, value: Mark)
      ensures this.key == key && this.value == value && freqNode == null && entryNode == null
    {
      this.key, this.value, freqNode, entryNode := key, value, null, null;
    }
  }

  class ListEntry {
    const entries: List<CacheEntry>
    const freq: nat

    constructor (freq: nat)
      ensures this.freq == freq && fresh(entries) && entries.Valid() && entries.elems == [] && fresh(entries.nodes)
    {
      this.freq := freq;
      entries := new List();
    }
  }

  /** The objects a cache has made: nodes of the frequency list, bucket lists, their nodes. */
  datatype Region = Region(fn: set<Element<ListEntry>>, rl: set<List<CacheEntry>>, rn: set<Element<CacheEntry>>)

  /** The region grew by new objects only. */
  twostate predicate Grown(g: Region, new g': Region) {
    && (forall x :: x in g'.fn ==> x in g.fn || fresh(x))
    && (forall x :: x in g'.rl ==> x in g.rl || fresh(x))
    && (forall x :: x in g'.rn ==> x in g.rn || fresh(x))
  }

  ghost function Joint(g: Region, fn: set<Element<ListEntry>>, rl: set<List<CacheEntry>>,
                       rn: set<Element<CacheEntry>>): Region {
    Region(g.fn + fn, g.rl + rl, g.rn + rn)
  }

  type Place = Element<ListEntry>
  type Place? = Element?<ListEntry>
  type Cell = Element<CacheEntry>
  type Cell? = Element?<CacheEntry>

  /** The elements of the frequency list, and of each bucket's list. */
  datatype Shape = Shape(ps: seq<Place>, rows: map<Place, seq<Cell>>)

  ghost predicate Full(cs: seq<Cell>) {
    forall j :: 0 <= j < |cs| ==> cs[j].value.Some?
  }

  /** Every place holds a bucket, and each bucket has its own list. */
  ghost predicate Shaped(sh: Shape) {
    && Distinct(sh.ps) && (forall i :: 0 <= i < |sh.ps| ==> sh.ps[i] in sh.rows)
    && (forall p :: p in sh.rows ==> p.value.Some? && Full(sh.rows[p]))
    && (forall p, q :: p in sh.rows && q in sh.rows && p != q ==> p.value.value.entries != q.value.value.entries)
  }

  // ---- The ladder a shape stands for ----

  ghost function KeyOf(c: Cell): Key {
    if c.value.Some? then c.value.value.key else ""
  }

  ghost function KeysOf(cs: seq<Cell>): (ks: seq<Key>)
    ensures |ks| == |cs| && forall j :: 0 <= j < |cs| ==> ks[j] == KeyOf(cs[j])
  {
    seq(|cs|, j requires 0 <= j < |cs| => KeyOf(cs[j]))
  }

  ghost function Held(sh: Shape, p: Place): seq<Cell> {
    if p in sh.rows then sh.rows[p] else []
  }

  ghost function RungOf(sh: Shape, p: Place): Rung {
    Rung(if p.value.Some? then p.value.value.freq else 0, KeysOf(Held(sh, p)))
  }

  ghost function Rungs(sh: Shape): (l: seq<Rung>)
    ensures |l| == |sh.ps| && forall i :: 0 <= i < |l| ==> l[i] == RungOf(sh, sh.ps[i])
  {
    seq(|sh.ps|, i requires 0 <= i < |sh.ps| => RungOf(sh, sh.ps[i]))
  }

  ghost function AddBucket(sh: Shape, i: nat, p: Place): Shape
    requires i <= |sh.ps|
  {
    Shape(With(sh.ps, i, p), sh.rows[p := []])
  }

  ghost function AddCell(sh: Shape, p: Place, x: Cell): Shape {
    sh.(rows := sh.rows[p := Held(sh, p) + [x]])
  }

  ghost function CutCell(sh: Shape, p: Place, j: nat): Shape
    requires j < |Held(sh, p)|
  {
    sh.(rows := sh.rows[p := Without(Held(sh, p), j)])
  }

  ghost function CutBucket(sh: Shape, i: nat): Shape
    requires i < |sh.ps|
  {
    Shape(Without(sh.ps, i), sh.rows - {sh.ps[i]})
  }

  ghost function Cut(sh: Shape, i: nat, j: nat): Shape
    requires i < |sh.ps| && j < |Held(sh, sh.ps[i])|
  {
    var less := CutCell(sh, sh.ps[i], j);
    if |Held(sh, sh.ps[i])| == 1 then CutBucket(less, i) else less
  }

  /** Whatever cell is in a bucket now is the new one, or was in that bucket before. */
  ghost predicate Follows(sh: Shape, sh': Shape, next: Place, x: Cell) {
    forall p, c :: p in sh'.rows && c in sh'.rows[p] ==> (p == next && c == x) || (p in sh.rows && c in sh.rows[p])
  }

  lemma AddCellFollows(sh: Shape, wide: Shape, next: Place, x: Cell)
    requires wide.rows == sh.rows || wide.rows == sh.rows[next := []]
    ensures Follows(sh, AddCell(wide, next, x), next, x)
  {
  }

  lemma WithAt<T>(s: seq<T>, i: nat, x: T, k: nat)
    requires i <= |s| && k <= |s|
    ensures |With(s, i, x)| == |s| + 1 && With(s, i, x)[k] == if k < i then s[k] else if k == i then x else s[k - 1]
  {
  }

  lemma ElementsBeside(ps: seq<Place>, i: nat, p: Place)
    requires i <= |ps|
    ensures ElementAt(With(ps, i, p), i) == p && ElementAt(With(ps, i, p), i - 1) == ElementAt(ps, i - 1)
  {
    WithAt(ps, i, p, i);
    if 0 < i {
      WithAt(ps, i, p, i - 1);
    }
  }

  lemma WithoutAt<T>(s: seq<T>, i: nat, k: nat)
    requires i < |s| && k < |s| - 1
    ensures |Without(s, i)| == |s| - 1 && Without(s, i)[k] == s[if k < i then k else k + 1]
  {
  }

  lemma SameSeq<T>(a: seq<T>, b: seq<T>)
    requires |a| == |b| && forall k :: 0 <= k < |a| ==> a[k] == b[k]
    ensures a == b
  {
  }

  lemma CutFollows(sh: Shape, more: Shape, next: Place, x: Cell, i: nat, j: nat)
    requires Follows(sh, more, next, x) && i < |more.ps| && j < |Held(more, more.ps[i])|
    ensures Follows(sh, Cut(more, i, j), next, x)
    ensures forall c :: c in Held(Cut(more, i, j), more.ps[i]) ==> c in Without(Held(more, more.ps[i]), j)
  {
    var row, less := Held(more, more.ps[i]), Without(Held(more, more.ps[i]), j);
    forall c | c in less ensures c in row {
      var k :| 0 <= k < |less| && less[k] == c;
      WithoutAt(row, j, k);
    }
  }

  // ---- What list operations do to the ladder, each as one locked fact ----

  ghost predicate IsWidened(sh: Shape, sh': Shape, i: nat, f: nat) {
    forall t {:trigger Shown(t)} :: Shown(t) ==> i <= |sh.ps| && Rungs(sh') == Widened(Rungs(sh), i, f)
  }

  ghost function Widens(sh: Shape, sh': Shape, i: nat, f: nat): Option<Shape> {
    if IsWidened(sh, sh', i, f) then Some(sh') else None
  }

  ghost predicate IsJoined(sh: Shape, sh': Shape, i: nat, f: nat, k: Key) {
    forall t {:trigger Shown(t)} :: Shown(t) ==> i <= |sh.ps| && Rungs(sh') == Joined(Rungs(sh), i, f, k)
  }

  ghost function Joins(sh: Shape, sh': Shape, i: nat, f: nat, k: Key): Option<Shape> {
    if IsJoined(sh, sh', i, f, k) then Some(sh') else None
  }

  ghost predicate IsCut(sh: Shape, sh': Shape, i: nat, j: nat) {
    forall t {:trigger Shown(t)} :: Shown(t) ==> Rungs(sh') == Shrunk(Rungs(sh), i, j)
  }

  ghost function Cuts(sh: Shape, sh': Shape, i: nat, j: nat): Option<Shape> {
    if IsCut(sh, sh', i, j) then Some(sh') else None
  }

  ghost predicate IsReplaced(sh: Shape, sh': Shape, i: nat, j: nat, f: nat, k: Key) {
    forall t {:trigger Shown(t)} :: Shown(t) ==> Rungs(sh') == Replaced(Rungs(sh), i, j, f, k)
  }

  ghost function Replaces(sh: Shape, sh': Shape, i: nat, j: nat, f: nat, k: Key): Option<Shape> {
    if IsReplaced(sh, sh', i, j, f, k) then Some(sh') else None
  }

  lemma NewWidens(sh: Shape, i: nat, p: Place, f: nat)
    requires Shaped(sh) && i <= |sh.ps| && p.value.Some? && p.value.value.freq == f && p !in sh.rows
    requires ElementAt(sh.ps, i) != null ==> Rungs(sh)[i].freq != f
    ensures Widens(sh, AddBucket(sh, i, p), i, f).Some?
  {
    AddBucketRungs(sh, i, p);
  }

  lemma OldWidens(sh: Shape, i: nat, f: nat)
    requires i < |sh.ps| && Rungs(sh)[i].freq == f
    ensures Widens(sh, sh, i, f).Some?
  {
  }

  lemma PushJoins(sh: Shape, wide: Shape, i: nat, f: nat, place: Place, x: Cell)
    requires Shaped(wide) && ElementAt(wide.ps, i) == place && x.value.Some? && Widens(sh, wide, i, f).Some?
    ensures Joins(sh, AddCell(wide, place, x), i, f, x.value.value.key).Some?
  {
    assert Shown(0);
    AddCellOk(wide, i, x);
  }

  /** At most the bucket `next` is new, and `place` is the one in front of it. */
  ghost predicate IsFronted(sh: Shape, wide: Shape, i: nat, place: Place?, next: Place) {
    forall t {:trigger Shown(t)} :: Shown(t) ==>
      && ElementAt(wide.ps, i - 1) == place && (place != null ==> place != next)
      && (wide.rows == sh.rows || (next !in sh.rows && wide.rows == sh.rows[next := []]))
  }

  ghost function Fronted(sh: Shape, wide: Shape, i: nat, place: Place?, next: Place): Option<Shape> {
    if IsFronted(sh, wide, i, place, next) then Some(wide) else None
  }

  lemma JoinedShape(sh: Shape, wide: Shape, i: nat, f: nat, place: Place?, next: Place, x: Cell)
    requires Shaped(wide) && ElementAt(wide.ps, i) == next && x.value.Some? && Widens(sh, wide, i, f).Some?
    requires Fronted(sh, wide, i, place, next).Some?
    ensures var more := AddCell(wide, next, x);
            && Joins(sh, more, i, f, x.value.value.key).Some? && Follows(sh, more, next, x)
            && (place != null ==> ElementAt(more.ps, i - 1) == place && Held(more, place) == Held(sh, place))
  {
    PushJoins(sh, wide, i, f, next, x);
    assert Shown(0);
    AddCellFollows(sh, wide, next, x);
  }

  lemma CutReplaces(sh: Shape, more: Shape, less: Shape, i: nat, j: nat, f: nat, k: Key)
    requires i < |sh.ps| && i < |more.ps| && j < |Rungs(more)[i].keys|
    requires Joins(sh, more, i + 1, f, k).Some? && Cuts(more, less, i, j).Some?
    ensures Replaces(sh, less, i, j, f, k).Some?
  {
    assert Shown(0);
  }

  /** The j-th cell of bucket i, `cell` of `place`, gave way to x in bucket `next`. */
  ghost predicate HasMoved(sh: Shape, sh': Shape, i: nat, j: nat, f: nat, k: Key, place: Place, cell: Cell,
                           next: Place, x: Cell) {
    forall t {:trigger Shown(t)} :: Shown(t) ==>
      Replaces(sh, sh', i, j, f, k).Some? && Follows(sh, sh', next, x) && cell !in Held(sh', place)
  }

  ghost function Moved(sh: Shape, sh': Shape, i: nat, j: nat, f: nat, k: Key, place: Place, cell: Cell, next: Place,
                       x: Cell): Option<Shape> {
    if HasMoved(sh, sh', i, j, f, k, place, cell, next, x) then Some(sh') else None
  }

  lemma MovedIs(sh: Shape, sh': Shape, i: nat, j: nat, f: nat, k: Key, place: Place, cell: Cell, next: Place, x: Cell)
    requires Moved(sh, sh', i, j, f, k, place, cell, next, x).Some?
    ensures Replaces(sh, sh', i, j, f, k).Some? && Follows(sh, sh', next, x) && cell !in Held(sh', place)
  {
    assert Shown(0);
  }

  lemma ClimbedShape(sh: Shape, more: Shape, i: nat, j: nat, f: nat, k: Key, place: Place, cell: Cell, next: Place,
                     x: Cell)
    requires ElementAt(sh.ps, i) == place && ElementAt(more.ps, i) == place && Held(more, place) == Held(sh, place)
    requires ElementAt(Held(sh, place), j) == cell && cell !in Without(Held(sh, place), j)
    requires Joins(sh, more, i + 1, f, k).Some? && Cuts(more, Cut(more, i, j), i, j).Some? && Follows(sh, more, next, x)
    ensures Moved(sh, Cut(more, i, j), i, j, f, k, place, cell, next, x).Some?
  {
    CutFollows(sh, more, next, x, i, j);
    CutReplaces(sh, more, Cut(more, i, j), i, j, f, k);
  }

  lemma JoinsEnters(sh: Shape, sh': Shape, k: Key, rm: Ranks, c: nat)
    requires Joins(sh, sh', 0, 1, k).Some? && Enters(sh, k, rm, c).Some?
    ensures Stands(sh', rm, c).Some?
  {
    assert Shown(0);
  }

  /** The ladder with the entry moved up refines the ranks rm. */
  ghost predicate Liftable(sh: Shape, i: nat, j: nat, f: nat, k: Key, rm: Ranks, c: nat) {
    forall t {:trigger Shown(t)} :: Shown(t) ==> Refines(Replaced(Rungs(sh), i, j, f, k), rm, c)
  }

  ghost function Lifts(sh: Shape, i: nat, j: nat, f: nat, k: Key, rm: Ranks, c: nat): Option<Key> {
    if Liftable(sh, i, j, f, k, rm, c) then Some(k) else None
  }

  lemma MovedLifts(sh: Shape, sh': Shape, i: nat, j: nat, f: nat, k: Key, place: Place, cell: Cell, next: Place,
                   x: Cell, rm: Ranks, c: nat)
    requires Moved(sh, sh', i, j, f, k, place, cell, next, x).Some? && Lifts(sh, i, j, f, k, rm, c).Some?
    ensures Stands(sh', rm, c).Some?
  {
    MovedIs(sh, sh', i, j, f, k, place, cell, next, x);
    ReplacesLifts(sh, sh', i, j, f, k, rm, c);
  }

  lemma ReplacesLifts(sh: Shape, sh': Shape, i: nat, j: nat, f: nat, k: Key, rm: Ranks, c: nat)
    requires Replaces(sh, sh', i, j, f, k).Some? && Lifts(sh, i, j, f, k, rm, c).Some?
    ensures Stands(sh', rm, c).Some?
  {
    assert Shown(0);
  }

  /** The ladder with the entry taken out refines the ranks rm. */
  ghost predicate Loosable(sh: Shape, i: nat, j: nat, rm: Ranks, c: nat) {
    forall t {:trigger Shown(t)} :: Shown(t) ==> Refines(Shrunk(Rungs(sh), i, j), rm, c)
  }

  ghost function Loses(sh: Shape, i: nat, j: nat, rm: Ranks, c: nat): Option<Ranks> {
    if Loosable(sh, i, j, rm, c) then Some(rm) else None
  }

  lemma CutsLoses(sh: Shape, sh': Shape, i: nat, j: nat, rm: Ranks, c: nat)
    requires Cuts(sh, sh', i, j).Some? && Loses(sh, i, j, rm, c).Some?
    ensures Stands(sh', rm, c).Some?
  {
    assert Shown(0);
  }

  /** A key joins the rung behind i; then the j-th key of rung i leaves. */
  ghost function Replaced(l: seq<Rung>, i: nat, j: nat, f: nat, k: Key): seq<Rung> {
    var wide := if i + 1 <= |l| then Joined(l, i + 1, f, k) else l;
    if i < |wide| && j < |wide[i].keys| then Taken(wide, i, j) else l
  }

  lemma AddBucketShaped(sh: Shape, i: nat, p: Place)
    requires Shaped(sh) && i <= |sh.ps| && p.value.Some? && p !in sh.rows
    requires forall q :: q in sh.rows ==> q.value.value.entries != p.value.value.entries
    ensures Shaped(AddBucket(sh, i, p))
  {
    var more := AddBucket(sh, i, p);
    forall x | 0 <= x < |more.ps| ensures more.ps[x] in more.rows {
      WithAt(sh.ps, i, p, x);
    }
    forall x, y | 0 <= x < y < |more.ps| ensures more.ps[x] != more.ps[y] {
      WithAt(sh.ps, i, p, x);
      WithAt(sh.ps, i, p, y);
    }
  }

  /** A place with the same cells gives the same rung. */
  lemma SameRung(sh: Shape, sh': Shape, p: Place)
    requires p in sh.rows && p in sh'.rows && sh.rows[p] == sh'.rows[p]
    ensures RungOf(sh, p) == RungOf(sh', p)
  {
  }

  lemma EmptyRung(sh: Shape, p: Place)
    requires p.value.Some? && Held(sh, p) == []
    ensures RungOf(sh, p) == Rung(p.value.value.freq, [])
  {
    assert KeysOf([]) == [];
  }

  lemma AddBucketRungs(sh: Shape, i: nat, p: Place)
    requires Shaped(sh) && i <= |sh.ps| && p.value.Some? && p !in sh.rows
    ensures Rungs(AddBucket(sh, i, p)) == With(Rungs(sh), i, Rung(p.value.value.freq, []))
  {
    var more, r := AddBucket(sh, i, p), Rung(p.value.value.freq, []);
    EmptyRung(more, p);
    forall x | 0 <= x < |more.ps| ensures Rungs(more)[x] == With(Rungs(sh), i, r)[x] {
      WithAt(sh.ps, i, p, x);
      WithAt(Rungs(sh), i, r, x);
      if x != i {
        SameRung(sh, more, more.ps[x]);
      }
    }
    SameSeq(Rungs(more), With(Rungs(sh), i, r));
  }

  lemma AddCellOk(sh: Shape, i: nat, x: Cell)
    requires Shaped(sh) && i < |sh.ps| && x.value.Some?
    ensures Shaped(AddCell(sh, sh.ps[i], x))
    ensures Rungs(AddCell(sh, sh.ps[i], x)) == Added(Rungs(sh), i, x.value.value.key)
  {
    var cs := sh.rows[sh.ps[i]];
    assert KeysOf(cs + [x]) == KeysOf(cs) + [x.value.value.key];
  }

  lemma CutCellOk(sh: Shape, i: nat, j: nat)
    requires Shaped(sh) && i < |sh.ps| && j < |Held(sh, sh.ps[i])|
    ensures Shaped(CutCell(sh, sh.ps[i], j))
    ensures var l := Rungs(sh); Rungs(CutCell(sh, sh.ps[i], j)) == l[i := Rung(l[i].freq, Without(l[i].keys, j))]
  {
    var cs := sh.rows[sh.ps[i]];
    assert KeysOf(Without(cs, j)) == Without(KeysOf(cs), j);
  }

  lemma CutBucketShaped(sh: Shape, i: nat)
    requires Shaped(sh) && i < |sh.ps|
    ensures Shaped(CutBucket(sh, i))
  {
    var less := CutBucket(sh, i);
    forall x | 0 <= x < |less.ps| ensures less.ps[x] in less.rows {
      WithoutAt(sh.ps, i, x);
    }
    forall x, y | 0 <= x < y < |less.ps| ensures less.ps[x] != less.ps[y] {
      WithoutAt(sh.ps, i, x);
      WithoutAt(sh.ps, i, y);
    }
  }

  lemma CutBucketOk(sh: Shape, i: nat)
    requires Shaped(sh) && i < |sh.ps|
    ensures Shaped(CutBucket(sh, i)) && Rungs(CutBucket(sh, i)) == Without(Rungs(sh), i)
  {
    CutBucketShaped(sh, i);
    var less := CutBucket(sh, i);
    forall x | 0 <= x < |less.ps| ensures Rungs(less)[x] == Without(Rungs(sh), i)[x] {
      WithoutAt(sh.ps, i, x);
      WithoutAt(Rungs(sh), i, x);
      SameRung(sh, less, less.ps[x]);
    }
    SameSeq(Rungs(less), Without(Rungs(sh), i));
  }

  lemma CutOk(sh: Shape, i: nat, j: nat)
    requires Shaped(sh) && i < |sh.ps| && j < |Held(sh, sh.ps[i])|
    ensures Shaped(Cut(sh, i, j)) && Rungs(Cut(sh, i, j)) == Taken(Rungs(sh), i, j)
  {
    CutCellOk(sh, i, j);
    if |Held(sh, sh.ps[i])| == 1 {
      CutBucketOk(CutCell(sh, sh.ps[i], j), i);
    }
  }

  /** What the cache stands for: the ranked map, and how its objects make it up. */
  datatype Abstract = Abstract(sh: Shape, g: Region, en: set<CacheEntry>, ranks: Ranks, clock: nat)

  // ---- The lists in the heap ----

  /** The elements of the list of a bucket, if it is a ring inside the region. */
  ghost function Row(p: Place, g: Region): Option<seq<Cell>>
    reads g.rl, g.rn
  {
    if p.value.Some? then RowList(p.value.value.entries, g) else None
  }

  ghost function RowList(l: List<CacheEntry>, g: Region): Option<seq<Cell>>
    reads g.rl, g.rn
  {
    if l in g.rl && l.nodes <= g.rn && l.Valid() then Some(l.elems) else None
  }

  ghost predicate Ranked(sh: Shape, rm: Ranks, clock: nat) {
    forall t {:trigger Shown(t)} :: Shown(t) ==> Refines(Rungs(sh), rm, clock)
  }

  /** The ranked map, if the ladder refines it. */
  ghost function Stands(sh: Shape, rm: Ranks, clock: nat): Option<Ranks> {
    if Ranked(sh, rm, clock) then Some(rm) else None
  }

  ghost predicate SameKeys(values: map<Key, CacheEntry>, len: int, rm: Ranks) {
    forall t {:trigger Shown(t)} :: Shown(t) ==> values.Keys == rm.Keys && len == |values|
  }

  /** The number of entries, if the map has exactly the ranked keys. */
  ghost function Counted(values: map<Key, CacheEntry>, len: int, rm: Ranks): Option<int> {
    if SameKeys(values, len, rm) then Some(len) else None
  }

  /** The ranks after an increment of k. */
  ghost function Higher(rm: Ranks, k: Key, clock: nat): Ranks {
    if k in rm then rm[k := Rank(rm[k].freq + 1, clock)] else rm
  }

  lemma HigherCounted(values: map<Key, CacheEntry>, len: int, rm: Ranks, k: Key, clock: nat)
    requires Counted(values, len, rm).Some?
    ensures Counted(values, len, Higher(rm, k, clock)).Some?
  {
    assert Shown(0);
    assert Higher(rm, k, clock).Keys == rm.Keys;
  }

  lemma RaiseLifts(sh: Shape, rm: Ranks, clock: nat, i: nat, j: nat, f: nat, k: Key)
    requires Stands(sh, rm, clock).Some? && i < |sh.ps| && j < |Rungs(sh)[i].keys| && Rungs(sh)[i].keys[j] == k
    requires f == Rungs(sh)[i].freq + 1
    ensures k in rm && Lifts(sh, i, j, f, k, Higher(rm, k, clock), clock + 1).Some?
  {
    assert Shown(0);
    ReplacedRefines(Rungs(sh), rm, clock, i, j);
  }

  lemma ReplacedRefines(l: seq<Rung>, rm: Ranks, clock: nat, i: nat, j: nat)
    requires Refines(l, rm, clock) && i < |l| && j < |l[i].keys|
    ensures var k := l[i].keys[j];
            k in rm && Refines(Replaced(l, i, j, l[i].freq + 1, k), Higher(rm, k, clock), clock + 1)
  {
    OnItsRung(l, rm, i, j);
    RaiseOk(l, rm, clock, i, j);
    ReplacedIs(l, i, j);
  }

  lemma ReplacedIs(l: seq<Rung>, i: nat, j: nat)
    requires i < |l| && j < |l[i].keys|
    ensures Replaced(l, i, j, l[i].freq + 1, l[i].keys[j]) == Raised(l, i, j)
  {
    RaisedIs(l, i, j, Joined(l, i + 1, l[i].freq + 1, l[i].keys[j]));
  }

  /** The marks of the entries of a map. */
  ghost function MarksOf(values: map<Key, CacheEntry>, en: set<CacheEntry>): map<Key, Mark>
    reads en`value
  {
    map k | k in values && values[k] in en :: values[k].value
  }

  /** The marks of these entries, as a value. */
  ghost predicate Snap(en: set<CacheEntry>, vs: map<CacheEntry, Mark>)
    reads en`value
  {
    forall x :: x in en ==> x in vs && x.value == vs[x]
  }

  ghost function Marking(values: map<Key, CacheEntry>, en: set<CacheEntry>, vs: map<CacheEntry, Mark>): map<Key, Mark> {
    map k | k in values && values[k] in en && values[k] in vs :: vs[values[k]]
  }

  lemma Snapped(values: map<Key, CacheEntry>, en: set<CacheEntry>, vs: map<CacheEntry, Mark>)
    requires Snap(en, vs)
    ensures MarksOf(values, en) == Marking(values, en, vs)
  {
  }

  class Cache {
    const upperBound: int
    const lowerBound: int
    const freqs: List<ListEntry>
    var values: map<Key, CacheEntry>
    var len: int
    ghost var a: Abstract

    /** New: a capacity of 0 or less means no bound. */
    constructor (cap: int)
      ensures Valid() && values == map[] && a.ranks == map[]
      ensures upperBound == lowerBound == if cap > 0 then cap else 0
      ensures fresh(freqs) && fresh(a.g.fn) && a.g.rl == {} && a.g.rn == {} && a.en == {}
    {
      upperBound, lowerBound := if cap > 0 then cap else 0, if cap > 0 then cap else 0;
      freqs := new List();
      values, len := map[], 0;
      new;
      a := Abstract(Shape([], map[]), Region(freqs.nodes, {}, {}), {}, map[], 0);
    }

    /** The entry of a cell points back to the cell and its bucket, and is the one in the map. */
    ghost predicate EntryOk(p: Place, c: Cell, en: set<CacheEntry>)
      reads this`values, en`freqNode, en`entryNode
    {
      && c.value.Some? && c.value.value in en && c.value.value.key in values &&
          values[c.value.value.key] == c.value.value
      && c.value.value.freqNode == p && c.value.value.entryNode == c
    }

    ghost predicate Linked(sh: Shape, en: set<CacheEntry>)
      reads this`values, en`freqNode, en`entryNode
    {
      forall t {:trigger Shown(t)} :: Shown(t) ==> forall p, c :: p in sh.rows && c in sh.rows[p] ==> EntryOk(p, c, en)
    }

    /** The shape, if the back pointers agree with it. */
    ghost function Links(sh: Shape, en: set<CacheEntry>): Option<Shape>
      reads this`values, en`freqNode, en`entryNode
    {
      if Linked(sh, en) then Some(sh) else None
    }

    /** What the map says: the mark of each key. */
    ghost function Marks(): map<Key, Mark>
      reads this`values, this`a, a.en`value
    {
      MarksOf(values, a.en)
    }

    /** The lists, the back pointers and the map agree, and refine the ranked map. */
    ghost predicate Valid()
      reads this, freqs, a.g.fn, a.g.rl, a.g.rn, a.en`freqNode, a.en`entryNode
    {
      && Is(a.sh, a.g).Some? && Links(a.sh, a.en).Some? && Stands(a.sh, a.ranks, a.clock).Some?
      && Counted(values, len, a.ranks).Some?
    }

    /** All lists are rings inside the region and have this shape. The definition is used only
        where Shown is mentioned. */
    ghost predicate Lists(sh: Shape, g: Region)
      reads freqs, g.fn, g.rl, g.rn
    {
      forall t {:trigger Shown(t)} :: Shown(t) ==>
        && freqs.nodes <= g.fn && freqs.Valid() && freqs.elems == sh.ps && Shaped(sh)
        && forall p :: p in sh.rows ==> Row(p, g) == Some(sh.rows[p])
    }

    /** The shape, if it is that of the lists. */
    ghost function Is(sh: Shape, g: Region): Option<Shape>
      reads freqs, g.fn, g.rl, g.rn
    {
      if Lists(sh, g) then Some(sh) else None
    }

    /** The lists of the buckets are rings inside the region. */
    ghost predicate Rows(sh: Shape, g: Region)
      reads g.rl, g.rn
    {
      forall p :: p in sh.rows ==> Row(p, g) == Some(sh.rows[p])
    }

    lemma RowsGrow(sh: Shape, g: Region, h: Region)
      requires Rows(sh, g) && g.rl <= h.rl && g.rn <= h.rn
      ensures Rows(sh, h)
    {
    }

    lemma RowsAdd(sh: Shape, i: nat, p: Place, h: Region)
      requires Rows(sh, h) && i <= |sh.ps| && Row(p, h) == Some([])
      ensures Rows(AddBucket(sh, i, p), h)
    {
    }

    lemma MakeIs(sh: Shape, g: Region)
      requires freqs.nodes <= g.fn && freqs.Valid() && freqs.elems == sh.ps && Shaped(sh) && Rows(sh, g)
      ensures Is(sh, g).Some?
    {
    }

    lemma IsOpen(sh: Shape, g: Region)
      requires Is(sh, g).Some?
      ensures freqs.nodes <= g.fn && freqs.Valid() && freqs.elems == sh.ps && Shaped(sh) && Rows(sh, g)
    {
      assert Shown(0);
    }

    /** A new bucket with an empty list, in a larger region. */
    method NewBucket(freq: nat, ghost sh: Shape, ghost g: Region) returns (li: ListEntry, ghost h: Region)
      requires Rows(sh, g)
      ensures fresh(li) && fresh(li.entries) && li.freq == freq && RowList(li.entries, h) == Some([]) && Rows(sh, h)
      ensures h.fn == g.fn && Grown(g, h) && g.rl <= h.rl && g.rn <= h.rn
    {
      li := new ListEntry(freq);
      h := Joint(g, {}, {li.entries}, li.entries.nodes);
      RowsGrow(sh, g, h);
    }

    /** The bucket enters the frequency list behind `place`; the lists of the buckets stay. */
    method InsertBucket(li: ListEntry, place: Place?, ghost i: nat, ghost sh: Shape,
                        ghost h: Region) returns (next: Place)
      requires freqs.Valid() && freqs.nodes <= h.fn && i <= |freqs.elems| && place == ElementAt(freqs.elems, i - 1)
      requires Rows(sh, h)
      modifies freqs, h.fn
      ensures freqs.Valid() && fresh(next) && next.value == Some(li) && freqs.nodes == old(freqs.nodes) + {next}
      ensures freqs.elems == With(old(freqs.elems), i, next)
      ensures Rows(sh, h) && RowList(li.entries, h) == old(RowList(li.entries, h))
    {
      if place == null {
        next := freqs.PushFront(li);
      } else {
        next := freqs.InsertAfter(li, place);
      }
    }

    /** A new, empty bucket behind `place`, or in front of all. */
    method Widen(place: Place?, freq: nat, ghost i: nat, ghost sh: Shape, ghost g: Region)
      returns (next: Place, ghost g': Region)
      requires Is(sh, g).Some? && i <= |sh.ps| && place == ElementAt(sh.ps, i - 1)
      modifies freqs, g.fn
      ensures Is(AddBucket(sh, i, next), g').Some? && Grown(g, g')
      ensures next.value.Some? && next.value.value.freq == freq && next !in sh.rows
    {
      IsOpen(sh, g);
      var li;
      ghost var h;
      li, h := NewBucket(freq, sh, g);
      assert forall q :: q in sh.rows ==> q.value.value.entries != li.entries;
      next := InsertBucket(li, place, i, sh, h);
      g' := Joint(h, {next}, {}, {});
      NewIs(sh, i, next, h, g');
    }

    lemma NewIs(sh: Shape, i: nat, next: Place, h: Region, g': Region)
      requires Shaped(sh) && Rows(sh, h) && i <= |sh.ps| && next !in sh.rows && Row(next, h) == Some([])
      requires forall q :: q in sh.rows ==> q.value.value.entries != next.value.value.entries
      requires freqs.nodes <= g'.fn && freqs.Valid() && freqs.elems == With(sh.ps, i, next)
      requires g'.rl == h.rl && g'.rn == h.rn
      ensures Is(AddBucket(sh, i, next), g').Some?
    {
      AddBucketShaped(sh, i, next);
      RowsAdd(sh, i, next, h);
      RowsGrow(AddBucket(sh, i, next), h, g');
      MakeIs(AddBucket(sh, i, next), g');
    }

    /** The entry goes to the back of one list; the others stay. */
    method PushCell(place: Place, e: CacheEntry, ghost sh: Shape, ghost g: Region) returns (x: Cell, ghost g': Region)
      requires freqs.Valid() && freqs.nodes <= g.fn && Shaped(sh) && Rows(sh, g) && place in sh.rows
      modifies g.rl, g.rn
      ensures fresh(x) && x.value == Some(e) && g' == Joint(g, {}, {}, {x})
      ensures Rows(AddCell(sh, place, x), g') && freqs.Valid() && freqs.elems == old(freqs.elems)
      ensures freqs.nodes == old(freqs.nodes)
    {
      assert Row(place, g) == Some(sh.rows[place]);
      x := place.value.value.entries.PushBack(e);
      g' := Joint(g, {}, {}, {x});
    }

    /** The entry joins the bucket at index i, at the back. */
    method PushEntry(place: Place, e: CacheEntry, ghost i: nat, ghost sh: Shape, ghost g: Region)
      returns (x: Cell, ghost g': Region)
      requires Is(sh, g).Some? && ElementAt(sh.ps, i) == place
      modifies g.rl, g.rn
      ensures Is(AddCell(sh, place, x), g').Some? && Shaped(sh) && fresh(x) && x.value == Some(e)
      ensures g' == Joint(g, {}, {}, {x})
    {
      IsOpen(sh, g);
      x, g' := PushCell(place, e, sh, g);
      AddCellOk(sh, i, x);
      MakeIs(AddCell(sh, place, x), g');
    }

    /** The j-th entry leaves the list of a bucket; the other lists stay. */
    method RemoveCell(place: Place, x: Cell, ghost j: nat, ghost sh: Shape, ghost g: Region)
      requires freqs.Valid() && freqs.nodes <= g.fn && Shaped(sh) && Rows(sh, g) && place in sh.rows
      requires j < |Held(sh, place)| && Held(sh, place)[j] == x
      modifies g.rl, g.rn
      ensures Rows(CutCell(sh, place, j), g)
      ensures freqs.Valid() && freqs.elems == old(freqs.elems) && freqs.nodes == old(freqs.nodes)
    {
      assert Row(place, g) == Some(sh.rows[place]);
      place.value.value.entries.Remove(x);
    }

    /** The j-th entry leaves the bucket at index i. */
    method RemoveEntry(place: Place, x: Cell, ghost i: nat, ghost j: nat, ghost sh: Shape, ghost g: Region)
      requires Is(sh, g).Some? && ElementAt(sh.ps, i) == place && j < |Held(sh, place)| && Held(sh, place)[j] == x
      modifies g.rl, g.rn
      ensures Is(CutCell(sh, place, j), g).Some?
    {
      IsOpen(sh, g);
      RemoveCell(place, x, j, sh, g);
      CutCellOk(sh, i, j);
      MakeIs(CutCell(sh, place, j), g);
    }

    /** An empty bucket goes. */
    method DropBucket(place: Place, ghost i: nat, ghost sh: Shape, ghost g: Region)
      requires Is(sh, g).Some? && ElementAt(sh.ps, i) == place
      modifies freqs, g.fn
      ensures Is(CutBucket(sh, i), g).Some?
    {
      IsOpen(sh, g);
      freqs.Remove(place);
      CutBucketOk(sh, i);
      MakeIs(CutBucket(sh, i), g);
    }

    /** How many entries a bucket has. */
    function Size(place: Place, ghost sh: Shape, ghost g: Region): (n: nat)
      requires Is(sh, g).Some? && place in sh.rows
      reads freqs, g.fn, g.rl, g.rn
      ensures n == |sh.rows[place]|
    {
      IsOpen(sh, g);
      assert Row(place, g) == Some(sh.rows[place]);
      place.value.value.entries.len
    }

    /** remEntry: the entry leaves its bucket, and an empty bucket goes. */
    method RemEntry(place: Place, x: Cell, ghost i: nat, ghost j: nat, ghost sh: Shape, ghost g: Region)
      requires Is(sh, g).Some? && ElementAt(sh.ps, i) == place && ElementAt(Held(sh, place), j) == x
      modifies freqs, g.fn, g.rl, g.rn
      ensures Is(Cut(sh, i, j), g).Some? && Cuts(sh, Cut(sh, i, j), i, j).Some?
    {
      IsOpen(sh, g);
      CutOk(sh, i, j);
      RemoveEntry(place, x, i, j, sh, g);
      ghost var less := CutCell(sh, place, j);
      if Size(place, less, g) == 0 {
        DropBucket(place, i, less, g);
      }
    }

    /** The bucket of frequency f at index i, made if it is missing. */
    method NextBucket(place: Place?, at: Place?, f: nat, ghost i: nat, ghost sh: Shape, ghost g: Region)
      returns (next: Place, ghost sh': Shape, ghost g': Region)
      requires Is(sh, g).Some? && i <= |sh.ps| && place == ElementAt(sh.ps, i - 1) && at == ElementAt(sh.ps, i)
      modifies freqs, g.fn
      ensures Is(sh', g').Some? && Widens(sh, sh', i, f).Some? && Grown(g, g')
      ensures ElementAt(sh'.ps, i) == next && Fronted(sh, sh', i, place, next).Some?
    {
      IsOpen(sh, g);
      if at == null || at.value.value.freq != f {
        next, g' := Widen(place, f, i, sh, g);
        sh' := AddBucket(sh, i, next);
        ElementsBeside(sh.ps, i, next);
        NewWidens(sh, i, next, f);
      } else {
        next, sh', g' := at, sh, g;
        OldWidens(sh, i, f);
      }
      Apart(sh', g', i);
    }

    /** A bucket is not the one in front of it. */
    lemma Apart(sh: Shape, g: Region, i: nat)
      requires Is(sh, g).Some?
      ensures ElementAt(sh.ps, i - 1) != null ==> ElementAt(sh.ps, i - 1) != ElementAt(sh.ps, i)
    {
      IsOpen(sh, g);
    }

    /** The entry joins that bucket, at the back. */
    method Join(e: CacheEntry, place: Place?, at: Place?, f: nat, ghost i: nat, ghost sh: Shape, ghost g: Region)
      returns (next: Place, x: Cell, ghost sh': Shape, ghost g': Region)
      requires Is(sh, g).Some? && i <= |sh.ps| && place == ElementAt(sh.ps, i - 1) && at == ElementAt(sh.ps, i)
      modifies freqs, g.fn, g.rl, g.rn
      ensures Is(sh', g').Some? && Joins(sh, sh', i, f, e.key).Some? && Grown(g, g')
      ensures x.value == Some(e) && Follows(sh, sh', next, x)
      ensures place != null ==> ElementAt(sh'.ps, i - 1) == place && Held(sh', place) == Held(sh, place)
    {
      ghost var wide, h;
      next, wide, h := NextBucket(place, at, f, i, sh, g);
      x, g' := PushEntry(next, e, i, wide, h);
      sh' := AddCell(wide, next, x);
      JoinedShape(sh, wide, i, f, place, next, x);
    }

    /** And leaves its own bucket. */
    method Leave(place: Place, cell: Cell, ghost i: nat, ghost j: nat, ghost f: nat, ghost k: Key, ghost next: Place,
                 ghost x: Cell, ghost sh: Shape, ghost more: Shape, ghost g: Region)
      requires Is(more, g).Some? && ElementAt(sh.ps, i) == place && ElementAt(more.ps, i) == place
      requires Held(more, place) == Held(sh, place)
      requires ElementAt(Held(sh, place), j) == cell && cell !in Without(Held(sh, place), j)
      requires Joins(sh, more, i + 1, f, k).Some? && Follows(sh, more, next, x)
      modifies freqs, g.fn, g.rl, g.rn
      ensures Is(Cut(more, i, j), g).Some? && Moved(sh, Cut(more, i, j), i, j, f, k, place, cell, next, x).Some?
    {
      RemEntry(place, cell, i, j, more, g);
      ClimbedShape(sh, more, i, j, f, k, place, cell, next, x);
    }

    /** increment of the j-th entry of bucket i: it joins the next bucket and leaves its own. */
    method Climb(e: CacheEntry, place: Place, cell: Cell, at: Place?, f: nat, ghost i: nat, ghost j: nat,
                 ghost sh: Shape, ghost g: Region)
      returns (next: Place, x: Cell, ghost sh': Shape, ghost g': Region)
      requires Is(sh, g).Some? && ElementAt(sh.ps, i) == place && at == ElementAt(sh.ps, i + 1)
      requires ElementAt(Held(sh, place), j) == cell && cell !in Without(Held(sh, place), j)
      modifies freqs, g.fn, g.rl, g.rn
      ensures Is(sh', g').Some? && Moved(sh, sh', i, j, f, e.key, place, cell, next, x).Some? && Grown(g, g')
      ensures x.value == Some(e)
    {
      ghost var more;
      next, x, more, g' := Join(e, place, at, f, i + 1, sh, g);
      sh' := Cut(more, i, j);
      Leave(place, cell, i, j, f, e.key, next, x, sh, more, g');
    }

    /** Where an entry of the map stands. */
    lemma Locate(k: Key) returns (i: nat, j: nat)
      requires Valid() && k in values
      ensures i < |Rungs(a.sh)| && j < |Rungs(a.sh)[i].keys| && Rungs(a.sh)[i].keys[j] == k
      ensures var e := values[k];
              && e in a.en && e.freqNode != null && e.entryNode != null && e.key == k && e.entryNode.value == Some(e)
              && ElementAt(a.sh.ps, i) == e.freqNode && e.freqNode.value.Some?
              && Rungs(a.sh)[i].freq == e.freqNode.value.value.freq
              && ElementAt(Held(a.sh, e.freqNode), j) == e.entryNode &&
                  e.entryNode !in Without(Held(a.sh, e.freqNode), j)
    {
      assert Shown(0);
      i, j := Find(Rungs(a.sh), k);
      var p := a.sh.ps[i];
      var c := a.sh.rows[p][j];
      assert c in a.sh.rows[p] && EntryOk(p, c, a.en);
      assert Row(p, a.g) == Some(a.sh.rows[p]);
      OnlyOnce(a.sh.rows[p], j);
    }

    /** The bucket behind the one at index i. */
    function Behind(place: Place, ghost i: nat, ghost sh: Shape, ghost g: Region): (at: Place?)
      requires Is(sh, g).Some? && ElementAt(sh.ps, i) == place
      reads freqs, g.fn, g.rl, g.rn
      ensures at == ElementAt(sh.ps, i + 1)
    {
      assert Shown(0);
      place.Next()
    }

    method SetNodes(e: CacheEntry, next: Place, x: Cell, ghost sh: Shape, ghost g: Region)
      modifies e`freqNode, e`entryNode
      ensures Is(sh, g) == old(Is(sh, g)) && e.freqNode == next && e.entryNode == x
    {
      e.freqNode := next;
      e.entryNode := x;
    }

    /** An entry that has moved is linked to its new cell; the others still are to theirs. */
    method Relink(e: CacheEntry, place: Place, cell: Cell, next: Place, x: Cell, ghost sh: Shape, ghost sh': Shape,
                  ghost g': Region, ghost en: set<CacheEntry>)
      requires Is(sh', g').Some? && Links(sh, en).Some? && e in en && e.key in values && values[e.key] == e
      requires e.freqNode == place && e.entryNode == cell
      requires Follows(sh, sh', next, x) && cell !in Held(sh', place) && x.value == Some(e)
      modifies e`freqNode, e`entryNode
      ensures Is(sh', g').Some? && Links(sh', en).Some?
    {
      assert Shown(0);
      SetNodes(e, next, x, sh', g');
      forall p, c | p in sh'.rows && c in sh'.rows[p] ensures EntryOk(p, c, en) {
        assert p in sh.rows && c in sh.rows[p] ==> old(EntryOk(p, c, en));
      }
    }

    /** Entry e is the j-th of bucket i and may move up from there. */
    ghost predicate Movable(e: CacheEntry, i: nat, j: nat, rm: Ranks, c: nat)
      reads this`a, e
    {
      forall t {:trigger Shown(t)} :: Shown(t) ==>
        && e in a.en && e.freqNode != null && e.entryNode != null && e.freqNode.value.Some?
        && ElementAt(a.sh.ps, i) == e.freqNode && ElementAt(Held(a.sh, e.freqNode), j) == e.entryNode
        && e.entryNode !in Without(Held(a.sh, e.freqNode), j)
        && Lifts(a.sh, i, j, e.freqNode.value.value.freq + 1, e.key, rm, c).Some?
    }

    ghost function Moves(e: CacheEntry, i: nat, j: nat, rm: Ranks, c: nat): Option<CacheEntry>
      reads this`a, e
    {
      if Movable(e, i, j, rm, c) then Some(e) else None
    }

    /** The facts behind Movable, spelled out. */
    ghost predicate Placed(e: CacheEntry, i: nat, j: nat)
      reads this`a, e
    {
      && e in a.en && e.freqNode != null && e.entryNode != null && e.freqNode.value.Some?
      && ElementAt(a.sh.ps, i) == e.freqNode && ElementAt(Held(a.sh, e.freqNode), j) == e.entryNode
      && e.entryNode !in Without(Held(a.sh, e.freqNode), j)
    }

    lemma LocateUp(k: Key, e: CacheEntry, rm: Ranks, c: nat) returns (i: nat, j: nat)
      requires Valid() && k in values && e == values[k] && rm == Higher(a.ranks, k, a.clock) && c == a.clock + 1
      ensures e.key == k && k in a.ranks && Placed(e, i, j)
      ensures Lifts(a.sh, i, j, e.freqNode.value.value.freq + 1, k, rm, c).Some?
    {
      i, j := Locate(k);
      RaiseLifts(a.sh, a.ranks, a.clock, i, j, e.freqNode.value.value.freq + 1, k);
    }

    lemma MakeMovable(e: CacheEntry, i: nat, j: nat, rm: Ranks, c: nat)
      requires Placed(e, i, j)
      requires Lifts(a.sh, i, j, e.freqNode.value.value.freq + 1, e.key, rm, c).Some?
      ensures Moves(e, i, j, rm, c).Some?
    {
    }

    lemma Ready(k: Key, e: CacheEntry, rm: Ranks, c: nat) returns (i: nat, j: nat)
      requires Valid() && k in values && e == values[k] && rm == Higher(a.ranks, k, a.clock) && c == a.clock + 1
      ensures e.key == k && k in a.ranks && Moves(e, i, j, rm, c).Some?
    {
      i, j := LocateUp(k, e, rm, c);
      MakeMovable(e, i, j, rm, c);
    }

    /** What increment of an entry of the map does to the lists and ranks. */
    method RaiseLists(e: CacheEntry, place: Place, cell: Cell, at: Place?, f: nat, ghost i: nat, ghost j: nat,
                      ghost sh: Shape, ghost g: Region, ghost rm: Ranks, ghost c: nat, ghost en: set<CacheEntry>)
      returns (next: Place, x: Cell, ghost sh': Shape, ghost g': Region)
      requires Is(sh, g).Some? && ElementAt(sh.ps, i) == place && at == ElementAt(sh.ps, i + 1)
      requires ElementAt(Held(sh, place), j) == cell && cell !in Without(Held(sh, place), j)
      requires Lifts(sh, i, j, f, e.key, rm, c).Some? && Links(sh, en).Some?
      modifies freqs, g.fn, g.rl, g.rn
      ensures Is(sh', g').Some? && Grown(g, g') && Stands(sh', rm, c).Some? && Links(sh, en).Some?
      ensures x.value == Some(e) && Moved(sh, sh', i, j, f, e.key, place, cell, next, x).Some?
    {
      next, x, sh', g' := Climb(e, place, cell, at, f, i, j, sh, g);
      MovedLifts(sh, sh', i, j, f, e.key, place, cell, next, x, rm, c);
    }

    /** The lists and back pointers in an increment of an entry of the map. */
    method RaiseLinks(e: CacheEntry, place: Place, cell: Cell, at: Place?, f: nat, ghost i: nat, ghost j: nat,
                      ghost sh: Shape, ghost g: Region, ghost rm: Ranks, ghost c: nat, ghost en: set<CacheEntry>)
      returns (ghost sh': Shape, ghost g': Region)
      requires Is(sh, g).Some? && ElementAt(sh.ps, i) == place && at == ElementAt(sh.ps, i + 1)
      requires ElementAt(Held(sh, place), j) == cell && cell !in Without(Held(sh, place), j)
      requires Lifts(sh, i, j, f, e.key, rm, c).Some?
      requires Links(sh, en).Some? && e in en && e.key in values && values[e.key] == e && e.freqNode == place
      requires e.entryNode == cell
      modifies e`freqNode, e`entryNode
      modifies freqs, g.fn, g.rl, g.rn
      ensures Is(sh', g').Some? && Grown(g, g') && Stands(sh', rm, c).Some? && Links(sh', en).Some?
    {
      var next, x;
      next, x, sh', g' := RaiseLists(e, place, cell, at, f, i, j, sh, g, rm, c, en);
      MovedIs(sh, sh', i, j, f, e.key, place, cell, next, x);
      Relink(e, place, cell, next, x, sh, sh', g', en);
    }

    /** A new abstract state that the objects agree with becomes the current one. */
    ghost method Commit(b: Abstract)
      requires Is(b.sh, b.g).Some? && Links(b.sh, b.en).Some? && Stands(b.sh, b.ranks, b.clock).Some?
      requires Counted(values, len, b.ranks).Some?
      modifies this`a
      ensures Valid() && a == b
    {
      a := b;
    }

    method RaiseAt(e: CacheEntry, ghost i: nat, ghost j: nat, ghost rm: Ranks,
                   ghost c: nat) returns (ghost sh': Shape, ghost g': Region)
      requires Is(a.sh, a.g).Some? && Links(a.sh, a.en).Some? && Moves(e, i, j, rm, c).Some?
      requires e.key in values && values[e.key] == e
      modifies e`freqNode, e`entryNode
      modifies freqs, a.g.fn, a.g.rl, a.g.rn
      ensures Is(sh', g').Some? && Grown(a.g, g') && Stands(sh', rm, c).Some? && Links(sh', a.en).Some?
    {
      assert Shown(0);
      var at, f := Behind(e.freqNode, i, a.sh, a.g), e.freqNode.value.value.freq + 1;
      sh', g' := RaiseLinks(e, e.freqNode, e.entryNode, at, f, i, j, a.sh, a.g, rm, c, a.en);
    }

    /** increment of an entry of the map: it is one up in frequency, and the latest there. */
    method Raise(e: CacheEntry, k: Key)
      requires Valid() && k in values && values[k] == e
      modifies this`a, e`freqNode, e`entryNode
      modifies freqs, a.g.fn, a.g.rl, a.g.rn
      ensures Valid() && Grown(old(a.g), a.g) && a.en == old(a.en) && k in old(a.ranks)
      ensures a.ranks == Higher(old(a.ranks), k, old(a.clock)) && a.clock == old(a.clock) + 1
    {
      ghost var rm, c := Higher(a.ranks, k, a.clock), a.clock + 1;
      ghost var i, j := Ready(k, e, rm, c);
      HigherCounted(values, len, a.ranks, k, a.clock);
      ghost var sh', g' := RaiseAt(e, i, j, rm, c);
      Commit(Abstract(sh', g', a.en, rm, c));
    }

    // ---- A new entry ----

    function FrontBucket(ghost sh: Shape, ghost g: Region): (at: Place?)
      requires Is(sh, g).Some?
      reads freqs, g.fn, g.rl, g.rn
      ensures at == ElementAt(sh.ps, 0)
    {
      assert Shown(0);
      freqs.Front()
    }

    /** The entry in the map; the back pointers of the others are as they were. */
    method PutValue(k: Key, e: CacheEntry, ghost sh: Shape, ghost g: Region, ghost en: set<CacheEntry>)
      requires Is(sh, g).Some? && Links(sh, en).Some? && k !in values
      modifies this`values
      ensures values == old(values)[k := e] && Is(sh, g).Some? && Links(sh, en).Some?
    {
      assert Shown(0);
      values := values[k := e];
      forall p, c | p in sh.rows && c in sh.rows[p] ensures EntryOk(p, c, en) {
        assert old(EntryOk(p, c, en));
      }
    }

    method EnterLists(e: CacheEntry, at: Place?, ghost sh: Shape, ghost g: Region, ghost rm: Ranks, ghost c: nat,
                      ghost en: set<CacheEntry>)
      returns (next: Place, x: Cell, ghost sh': Shape, ghost g': Region)
      requires Is(sh, g).Some? && Links(sh, en).Some? && at == ElementAt(sh.ps, 0)
      requires Enters(sh, e.key, rm, c).Some?
      modifies freqs, g.fn, g.rl, g.rn
      ensures Is(sh', g').Some? && Grown(g, g') && Stands(sh', rm, c).Some? && Links(sh, en).Some?
      ensures x.value == Some(e) && Follows(sh, sh', next, x)
    {
      next, x, sh', g' := Join(e, null, at, 1, 0, sh, g);
      JoinsEnters(sh, sh', e.key, rm, c);
    }

    method LinkNew(e: CacheEntry, next: Place, x: Cell, ghost sh: Shape, ghost sh': Shape, ghost g': Region,
                   ghost en: set<CacheEntry>)
      requires Is(sh', g').Some? && Links(sh, en).Some? && e !in en && e.key in values && values[e.key] == e
      requires Follows(sh, sh', next, x) && x.value == Some(e)
      modifies e`freqNode, e`entryNode
      ensures Is(sh', g').Some? && Links(sh', en + {e}).Some?
    {
      assert Shown(0);
      SetNodes(e, next, x, sh', g');
      forall p, c | p in sh'.rows && c in sh'.rows[p] ensures EntryOk(p, c, en + {e}) {
        assert p in sh.rows && c in sh.rows[p] ==> old(EntryOk(p, c, en));
      }
    }

    /** increment of a new entry that is in the map already. */
    method EnterAt(e: CacheEntry, ghost rm: Ranks, ghost c: nat) returns (ghost sh': Shape, ghost g': Region)
      requires Is(a.sh, a.g).Some? && Links(a.sh, a.en).Some? && Enters(a.sh, e.key, rm, c).Some?
      requires e !in a.en && e.key in values && values[e.key] == e
      modifies e`freqNode, e`entryNode
      modifies freqs, a.g.fn, a.g.rl, a.g.rn
      ensures Is(sh', g').Some? && Grown(a.g, g') && Stands(sh', rm, c).Some? && Links(sh', a.en + {e}).Some?
      ensures values == old(values) && len == old(len) && a == old(a)
    {
      var at := FrontBucket(a.sh, a.g);
      var next, x;
      next, x, sh', g' := EnterLists(e, at, a.sh, a.g, rm, c, a.en);
      LinkNew(e, next, x, a.sh, sh', g', a.en);
    }

    /** The part of Set for a new key, before the bounds are looked at. */
    method Insert(k: Key, value: Mark) returns (e: CacheEntry)
      requires Valid() && k !in values
      modifies this`a, this`values, this`len
      modifies freqs, a.g.fn, a.g.rl, a.g.rn
      ensures Valid() && Grown(old(a.g), a.g) && Marks() == old(Marks())[k := value]
      ensures k !in old(a.ranks) && a.ranks == old(a.ranks)[k := Rank(1, old(a.clock))] && a.clock == old(a.clock) + 1
      ensures a.en == old(a.en) + {e} && fresh(e)
    {
      ghost var rm, c := a.ranks[k := Rank(1, a.clock)], a.clock + 1;
      ghost var m := Marks()[k := value];
      EnterReady(a.sh, a.ranks, a.clock, values, len, k);
      ghost var vs;
      e, vs := Prepare(k, value, rm, m);
      EnterKeeping(e, rm, c, vs);
      Snapped(values, a.en, vs);
    }

    /** That, and no mark changes. */
    method EnterKeeping(e: CacheEntry, ghost rm: Ranks, ghost c: nat, ghost vs: map<CacheEntry, Mark>)
      requires Is(a.sh, a.g).Some? && Links(a.sh, a.en).Some? && Enters(a.sh, e.key, rm, c).Some?
      requires e !in a.en && e.key in values && values[e.key] == e && Counted(values, len + 1, rm).Some?
      requires Snap(a.en + {e}, vs)
      modifies this`a, this`len, e`freqNode, e`entryNode
      modifies freqs, a.g.fn, a.g.rl, a.g.rn
      ensures Valid() && Grown(old(a.g), a.g) && a == Abstract(a.sh, a.g, old(a.en) + {e}, rm, c)
      ensures Snap(a.en, vs)
    {
      Enter(e, rm, c);
    }

    /** increment of a new entry, and the count of entries. */
    method Enter(e: CacheEntry, ghost rm: Ranks, ghost c: nat)
      requires Is(a.sh, a.g).Some? && Links(a.sh, a.en).Some? && Enters(a.sh, e.key, rm, c).Some?
      requires e !in a.en && e.key in values && values[e.key] == e && Counted(values, len + 1, rm).Some?
      modifies this`a, this`len, e`freqNode, e`entryNode
      modifies freqs, a.g.fn, a.g.rl, a.g.rn
      ensures Valid() && Grown(old(a.g), a.g) && a == Abstract(a.sh, a.g, old(a.en) + {e}, rm, c)
    {
      ghost var en := a.en + {e};
      ghost var sh', g' := EnterAt(e, rm, c);
      Finish(Abstract(sh', g', en, rm, c));
    }

    /** The new entry, in the map. */
    method Prepare(k: Key, value: Mark, ghost rm: Ranks, ghost m: map<Key, Mark>)
      returns (e: CacheEntry, ghost vs: map<CacheEntry, Mark>)
      requires Valid() && k !in values && rm == a.ranks[k := Rank(1, a.clock)] && m == Marks()[k := value]
      modifies this`values
      ensures fresh(e) && e.key == k && e !in a.en && k in values && values[k] == e
      ensures Snap(a.en + {e}, vs) && Marking(values, a.en + {e}, vs) == m
      ensures Is(a.sh, a.g).Some? && Links(a.sh, a.en).Some? && Counted(values, len + 1, rm).Some?
    {
      e := NewEntry(k, value);
      EnterCounted(values, len, a.ranks, k, e, Rank(1, a.clock));
      OwnEntries();
      vs := TakeMarks(k, e, values, a.en);
      PutValue(k, e, a.sh, a.g, a.en);
    }

    method NewEntry(k: Key, value: Mark) returns (e: CacheEntry)
      requires Valid()
      ensures fresh(e) && e.key == k && e.value == value && e !in a.en && Valid()
    {
      e := new CacheEntry(k, value);
    }

    method Finish(ghost b: Abstract)
      requires Is(b.sh, b.g).Some? && Links(b.sh, b.en).Some? && Stands(b.sh, b.ranks, b.clock).Some?
      requires Counted(values, len + 1, b.ranks).Some?
      modifies this`a, this`len
      ensures Valid() && a == b && len == old(len) + 1
    {
      BumpLen(b);
      Commit(b);
    }

    method BumpLen(ghost b: Abstract)
      requires Is(b.sh, b.g).Some? && Links(b.sh, b.en).Some?
      modifies this`len
      ensures Is(b.sh, b.g).Some? && Links(b.sh, b.en).Some? && len == old(len) + 1
    {
      len := len + 1;
    }

    // ---- Removal ----

    /** Entry e is the j-th of bucket i, and the ranks without it are rm. */
    ghost predicate Removable(e: CacheEntry, i: nat, j: nat, rm: Ranks, c: nat)
      reads this`a, e
    {
      forall t {:trigger Shown(t)} :: Shown(t) ==> Placed(e, i, j) && Loses(a.sh, i, j, rm, c).Some?
    }

    ghost function Removes(e: CacheEntry, i: nat, j: nat, rm: Ranks, c: nat): Option<CacheEntry>
      reads this`a, e
    {
      if Removable(e, i, j, rm, c) then Some(e) else None
    }

    lemma MakeRemovable(e: CacheEntry, i: nat, j: nat, rm: Ranks, c: nat)
      requires Placed(e, i, j) && Loses(a.sh, i, j, rm, c).Some?
      ensures Removes(e, i, j, rm, c).Some?
    {
    }

    lemma RemovesPlaced(e: CacheEntry, i: nat, j: nat, rm: Ranks, c: nat)
      requires Removes(e, i, j, rm, c).Some?
      ensures Placed(e, i, j) && Loses(a.sh, i, j, rm, c).Some?
    {
      assert Shown(0);
    }

    lemma RemoveReady(k: Key, e: CacheEntry, rm: Ranks) returns (i: nat, j: nat)
      requires Valid() && k in values && e == values[k] && rm == a.ranks - {k}
      ensures e.key == k && k in a.ranks && Removes(e, i, j, rm, a.clock).Some?
    {
      i, j := Locate(k);
      TakeLoses(a.sh, a.ranks, a.clock, i, j, k);
      MakeRemovable(e, i, j, rm, a.clock);
    }

    /** The lists in a removal. */
    method RemoveLists(place: Place, cell: Cell, ghost i: nat, ghost j: nat, ghost sh: Shape, ghost g: Region,
                       ghost rm: Ranks, ghost c: nat, ghost en: set<CacheEntry>) returns (ghost sh': Shape)
      requires Is(sh, g).Some? && Links(sh, en).Some? && Loses(sh, i, j, rm, c).Some?
      requires ElementAt(sh.ps, i) == place && ElementAt(Held(sh, place), j) == cell
      requires cell !in Without(Held(sh, place), j)
      modifies freqs, g.fn, g.rl, g.rn
      ensures Is(sh', g).Some? && Links(sh, en).Some? && Stands(sh', rm, c).Some?
      ensures sh' == CutAt(sh, i, j) && Fewer(sh, sh') && cell !in Held(sh', place)
    {
      sh' := CutAt(sh, i, j);
      CutLeaves(sh, i, j, place, cell);
      RemEntry(place, cell, i, j, sh, g);
      CutsLoses(sh, sh', i, j, rm, c);
    }

    /** The entry leaves the map; the back pointers of the others are as they were. */
    method DropValue(k: Key, e: CacheEntry, place: Place, cell: Cell, ghost sh: Shape, ghost sh': Shape,
                     ghost g: Region, ghost en: set<CacheEntry>)
      requires Is(sh', g).Some? && Links(sh, en).Some? && k in values && values[k] == e && e.freqNode == place
      requires e.entryNode == cell
      requires Fewer(sh, sh') && cell !in Held(sh', place)
      modifies this`values
      ensures values == old(values) - {k} && Is(sh', g).Some? && Links(sh', en).Some?
    {
      assert Shown(0);
      values := values - {k};
      forall p, c | p in sh'.rows && c in sh'.rows[p] ensures EntryOk(p, c, en) {
        assert old(EntryOk(p, c, en));
      }
    }

    method RemoveAt(k: Key, e: CacheEntry, ghost i: nat, ghost j: nat, ghost rm: Ranks) returns (ghost sh': Shape)
      requires Is(a.sh, a.g).Some? && Links(a.sh, a.en).Some? && Removes(e, i, j, rm, a.clock).Some? && k in values
      requires values[k] == e
      modifies this`values
      modifies freqs, a.g.fn, a.g.rl, a.g.rn
      ensures Is(sh', a.g).Some? && Links(sh', a.en).Some? && Stands(sh', rm, a.clock).Some?
      ensures sh' == CutAt(a.sh, i, j) && values == old(values) - {k} && len == old(len) && a == old(a)
    {
      RemovesPlaced(e, i, j, rm, a.clock);
      var place, cell := e.freqNode, e.entryNode;
      sh' := RemoveLists(place, cell, i, j, a.sh, a.g, rm, a.clock, a.en);
      DropValue(k, e, place, cell, a.sh, sh', a.g, a.en);
    }

    method DropLen(ghost b: Abstract)
      requires Is(b.sh, b.g).Some? && Links(b.sh, b.en).Some? && Stands(b.sh, b.ranks, b.clock).Some?
      requires Counted(values, len - 1, b.ranks).Some?
      modifies this`a, this`len
      ensures Valid() && a == b && len == old(len) - 1
    {
      LowerLen(b);
      Commit(b);
    }

    method LowerLen(ghost b: Abstract)
      requires Is(b.sh, b.g).Some? && Links(b.sh, b.en).Some?
      modifies this`len
      ensures Is(b.sh, b.g).Some? && Links(b.sh, b.en).Some? && len == old(len) - 1
    {
      len := len - 1;
    }

    /** The j-th entry of bucket i leaves the cache. */
    method DiscardAt(k: Key, ghost i: nat, ghost j: nat)
      requires Valid() && k in values && Removes(values[k], i, j, a.ranks - {k}, a.clock).Some?
      modifies this`a, this`values, this`len
      modifies freqs, a.g.fn, a.g.rl, a.g.rn
      ensures Valid() && values == old(values) - {k}
      ensures a == old(a).(sh := CutAt(old(a.sh), i, j), ranks := old(a.ranks) - {k})
    {
      ghost var rm := a.ranks - {k};
      TakeCounted(values, len, a.ranks, k);
      ghost var sh' := RemoveAt(k, values[k], i, j, rm);
      DropLen(a.(sh := sh', ranks := rm));
    }

    /** An entry leaves the cache, and no mark changes. */
    method DiscardKeeping(k: Key, ghost vs: map<CacheEntry, Mark>)
      requires Valid() && k in values && Snap(a.en, vs)
      modifies this`a, this`values, this`len
      modifies freqs, a.g.fn, a.g.rl, a.g.rn
      ensures Valid() && values == old(values) - {k} && Snap(a.en, vs) && k in old(a.ranks)
      ensures a == old(a).(sh := a.sh, ranks := old(a.ranks) - {k})
    {
      ghost var i, j := RemoveReady(k, values[k], a.ranks - {k});
      DiscardAt(k, i, j);
    }

    /** Remove: false for a key that is not there. */
    method Remove(k: Key) returns (found: bool)
      requires Valid()
      modifies this`a, this`values, this`len
      modifies freqs, a.g.fn, a.g.rl, a.g.rn
      ensures Valid() && a.g == old(a.g) && a.en == old(a.en) && a.clock == old(a.clock)
      ensures found <==> k in old(a.ranks)
      ensures a.ranks == old(a.ranks) - {k} && Marks() == old(Marks()) - {k}
    {
      found := k in values;
      if found {
        ghost var vs := map x | x in a.en :: x.value;
        Snapped(values, a.en, vs);
        DiscardKeeping(k, vs);
        Snapped(values, a.en, vs);
        MarkingLess(old(values), a.en, vs, {k});
      } else {
        KeyUnknown(values, len, a.ranks, k);
      }
    }

    // ---- The interface ----

    /** The entry of a key is one of the cache's own. */
    lemma EntryKnown(k: Key)
      requires Valid() && k in values
      ensures values[k] in a.en && values[k].key == k && k in a.ranks
    {
      var i, j := Locate(k);
      assert Shown(0);
    }

    /** Get counts as a use of the key. */
    method Get(k: Key) returns (r: Option<Mark>)
      requires Valid()
      modifies this`a, a.en`freqNode, a.en`entryNode
      modifies freqs, a.g.fn, a.g.rl, a.g.rn
      ensures Valid() && Grown(old(a.g), a.g) && a.en == old(a.en)
      ensures Marks() == old(Marks()) && r == if k in Marks() then Some(Marks()[k]) else None
      ensures a.ranks == Higher(old(a.ranks), k, old(a.clock)) && (k !in old(Marks()) ==> a == old(a))
    {
      if k !in values {
        KeyUnknown(values, len, a.ranks, k);
        return None;
      }
      EntryKnown(k);
      Raise(values[k], k);
      r := Some(values[k].value);
    }

    method GetFrequency(k: Key) returns (f: nat)
      requires Valid()
      ensures f == if k in a.ranks then a.ranks[k].freq else 0
    {
      if k in values {
        EntryFrequency(k);
        f := values[k].freqNode.value.value.freq;
      } else {
        KeyUnknown(values, len, a.ranks, k);
        f := 0;
      }
    }

    lemma EntryFrequency(k: Key)
      requires Valid() && k in values
      ensures k in a.ranks && values[k].freqNode != null && values[k].freqNode.value.Some?
      ensures values[k].freqNode.value.value.freq == a.ranks[k].freq
    {
      var i, j := Locate(k);
      assert Shown(0);
      OnItsRung(Rungs(a.sh), a.ranks, i, j);
    }

    // ---- Eviction ----

    function FrontCell(place: Place, ghost sh: Shape, ghost g: Region): (c: Cell?)
      requires Is(sh, g).Some? && place in sh.rows
      reads freqs, g.fn, g.rl, g.rn
      ensures c == ElementAt(Held(sh, place), 0)
    {
      assert Shown(0);
      assert Row(place, g) == Some(sh.rows[place]);
      place.value.value.entries.Front()
    }

    function NextCell(place: Place, cell: Cell, ghost j: nat, ghost sh: Shape, ghost g: Region): (c: Cell?)
      requires Is(sh, g).Some? && place in sh.rows && ElementAt(Held(sh, place), j) == cell
      reads freqs, g.fn, g.rl, g.rn
      ensures c == ElementAt(Held(sh, place), j + 1)
    {
      assert Shown(0);
      assert Row(place, g) == Some(sh.rows[place]);
      cell.Next()
    }

    /** The first entry of the first bucket is the lowest in rank, and may be removed. */
    lemma FrontReady(place: Place, cell: Cell)
      requires Valid() && ElementAt(a.sh.ps, 0) == place && ElementAt(Held(a.sh, place), 0) == cell
      ensures cell.value.Some? && cell.value.value.key in values && values[cell.value.value.key] == cell.value.value
      ensures var k := cell.value.value.key;
              && k in a.ranks && Lowest(a.ranks, {k}) && Removes(values[k], 0, 0, a.ranks - {k}, a.clock).Some?
    {
      var k := FrontEntry(place, cell);
      FrontRank(a.sh, a.ranks, a.clock, k);
      TakeLoses(a.sh, a.ranks, a.clock, 0, 0, k);
      MakeRemovable(values[k], 0, 0, a.ranks - {k}, a.clock);
    }

    lemma FrontEntry(place: Place, cell: Cell) returns (k: Key)
      requires Valid() && ElementAt(a.sh.ps, 0) == place && ElementAt(Held(a.sh, place), 0) == cell
      ensures cell.value.Some? && k == cell.value.value.key && k in values && values[k] == cell.value.value
      ensures 0 < |Rungs(a.sh)| && 0 < |Rungs(a.sh)[0].keys| && Rungs(a.sh)[0].keys[0] == k && Placed(values[k], 0, 0)
    {
      assert Shown(0);
      assert Row(place, a.g) == Some(a.sh.rows[place]);
      assert cell in a.sh.rows[place] && EntryOk(place, cell, a.en);
      OnlyOnce(a.sh.rows[place], 0);
      k := cell.value.value.key;
    }

    /** A bucket is never empty. */
    lemma FrontFull(place: Place)
      requires Valid() && ElementAt(a.sh.ps, 0) == place
      ensures place in a.sh.rows && ElementAt(Held(a.sh, place), 0) != null
    {
      assert Shown(0);
      assert Rungs(a.sh)[0].keys != [];
    }

    /** Without a first bucket the cache is empty. */
    lemma NoFront()
      requires Valid() && ElementAt(a.sh.ps, 0) == null
      ensures a.ranks == map[]
    {
      assert Shown(0);
      EmptyLadder(Rungs(a.sh), a.ranks, a.clock);
    }

    /** One turn of the inner loop of evict. */
    method EvictFront(place: Place, cell: Cell) returns (next: Cell?, ghost k: Key)
      requires Valid() && ElementAt(a.sh.ps, 0) == place && ElementAt(Held(a.sh, place), 0) == cell
      modifies this`a, this`values, this`len
      modifies freqs, a.g.fn, a.g.rl, a.g.rn
      ensures Valid() && values == old(values) - {k} && a == old(a).(sh := a.sh, ranks := old(a.ranks) - {k})
      ensures k in old(a.ranks) && Lowest(old(a.ranks), {k})
      ensures next == ElementAt(Held(a.sh, place), 0) && (next != null ==> ElementAt(a.sh.ps, 0) == place)
    {
      FrontReady(place, cell);
      FrontFull(place);
      next := NextCell(place, cell, 0, a.sh, a.g);
      CutFront(a.sh, place);
      k := cell.value.value.key;
      DiscardAt(cell.value.value.key, 0, 0);
    }

    /** The inner loop of evict, on the first bucket. */
    method EvictBucket(place: Place, count: int, done: nat, ghost from: Contents, ghost before: set<Key>)
      returns (evicted: nat, ghost gone: set<Key>)
      requires Valid() && ElementAt(a.sh.ps, 0) == place && done < count && Gone(from, before, done, a.ranks, values)
      modifies this`a, this`values, this`len
      modifies freqs, a.g.fn, a.g.rl, a.g.rn
      ensures Valid() && a == old(a).(sh := a.sh, ranks := a.ranks) && Gone(from, gone, evicted, a.ranks, values)
      ensures done < evicted <= count
    {
      evicted, gone := done, before;
      FrontFull(place);
      var entryNode := FrontCell(place, a.sh, a.g);
      while entryNode != null && evicted < count
        invariant Valid() && a == old(a).(sh := a.sh, ranks := a.ranks) && Gone(from, gone, evicted, a.ranks, values)
        invariant entryNode == ElementAt(Held(a.sh, place), 0) && (entryNode != null ==> ElementAt(a.sh.ps, 0) == place)
        invariant done <= evicted <= count && (entryNode == null ==> done < evicted)
        decreases count - evicted
      {
        ghost var k, rm, vs := "", a.ranks, values;
        entryNode, k := EvictFront(place, entryNode);
        GoneMore(from, gone, evicted, rm, vs, k);
        evicted, gone := evicted + 1, gone + {k};
      }
    }

    /** Evict removes exactly the min(count, len) entries that are lowest in (frequency, arrival). */
    method Evict(count: int) returns (evicted: nat, ghost gone: set<Key>)
      requires Valid()
      modifies this`a, this`values, this`len
      modifies freqs, a.g.fn, a.g.rl, a.g.rn
      ensures Valid() && a == old(a).(sh := a.sh, ranks := a.ranks)
      ensures a.ranks == old(a.ranks) - gone && Marks() == old(Marks()) - gone && Lowest(old(a.ranks), gone)
      ensures evicted == |gone| == Least(count, |old(a.ranks)|)
    {
      ghost var vs := map x | x in a.en :: x.value;
      Snapped(values, a.en, vs);
      evicted, gone := EvictKeeping(count, vs);
      Snapped(values, a.en, vs);
      MarkingLess(old(values), a.en, vs, gone);
    }

    /** evict, and no mark changes. */
    method EvictKeeping(count: int, ghost vs: map<CacheEntry, Mark>) returns (evicted: nat, ghost gone: set<Key>)
      requires Valid() && Snap(a.en, vs)
      modifies this`a, this`values, this`len
      modifies freqs, a.g.fn, a.g.rl, a.g.rn
      ensures Valid() && a == old(a).(sh := a.sh, ranks := a.ranks) && Snap(a.en, vs)
      ensures a.ranks == old(a.ranks) - gone && values == old(values) - gone && Lowest(old(a.ranks), gone)
      ensures evicted == |gone| == Least(count, |old(a.ranks)|)
    {
      evicted, gone := EvictLowest(count);
    }

    /** evict. */
    method EvictLowest(count: int) returns (evicted: nat, ghost gone: set<Key>)
      requires Valid()
      modifies this`a, this`values, this`len
      modifies freqs, a.g.fn, a.g.rl, a.g.rn
      ensures Valid() && a == old(a).(sh := a.sh, ranks := a.ranks)
      ensures a.ranks == old(a.ranks) - gone && values == old(values) - gone && Lowest(old(a.ranks), gone)
      ensures evicted == |gone| == Least(count, |old(a.ranks)|)
    {
      ghost var from := Contents(a.ranks, values);
      evicted, gone := 0, {};
      GoneNone(from);
      var place := FrontBucket(a.sh, a.g);
      while place != null && evicted < count
        invariant Valid() && a == old(a).(sh := a.sh, ranks := a.ranks) && Gone(from, gone, evicted, a.ranks, values)
        invariant place == ElementAt(a.sh.ps, 0) && (evicted == 0 || evicted <= count)
        decreases count - evicted
      {
        evicted, gone := EvictBucket(place, count, evicted, from, gone);
        place := FrontBucket(a.sh, a.g);
      }
      if place == null {
        NoFront();
      }
      GoneAll(from, gone, evicted, a.ranks, values, count);
    }

    /** Set: the key has the value and is used once more, or for the first time; the other keys keep
        their marks. A new key may push the cache over its upper bound; then it is brought down to
        the lower one, and the new key itself can be among those that go. */
    method Set(k: Key, value: Mark) returns (ghost gone: set<Key>)
      requires Valid()
      modifies this`a, this`values, this`len, a.en`value, a.en`freqNode, a.en`entryNode
      modifies freqs, a.g.fn, a.g.rl, a.g.rn
      ensures Valid() && Grown(old(a.g), a.g) && forall e :: e in a.en ==> e in old(a.en) || fresh(e)
      ensures Marks() == old(Marks())[k := value] - gone
      ensures a.ranks == Used(old(a.ranks), k, old(a.clock)) - gone && Lowest(Used(old(a.ranks), k, old(a.clock)), gone)
      ensures |gone| == Over(|Used(old(a.ranks), k, old(a.clock))|, |old(a.ranks)|, upperBound, lowerBound)
      ensures k in old(a.ranks) || |old(a.ranks)| < upperBound || upperBound <= 0 || lowerBound <= 0 ==> gone == {}
      ensures 0 < lowerBound <= upperBound && k !in old(a.ranks) && upperBound <= |old(a.ranks)| ==>
                |a.ranks| == lowerBound
      ensures 0 < lowerBound <= upperBound && |old(a.ranks)| <= upperBound ==> |a.ranks| <= upperBound
    {
      ghost var rm, clock := a.ranks, a.clock;
      gone := SetWithin(k, value);
      BoundsKept(rm, k, clock, gone, upperBound, lowerBound);
    }

    method SetWithin(k: Key, value: Mark) returns (ghost gone: set<Key>)
      requires Valid()
      modifies this`a, this`values, this`len, a.en`value, a.en`freqNode, a.en`entryNode
      modifies freqs, a.g.fn, a.g.rl, a.g.rn
      ensures Valid() && Grown(old(a.g), a.g) && forall e :: e in a.en ==> e in old(a.en) || fresh(e)
      ensures Marks() == old(Marks())[k := value] - gone
      ensures a.ranks == Used(old(a.ranks), k, old(a.clock)) - gone && Lowest(Used(old(a.ranks), k, old(a.clock)), gone)
      ensures |gone| == Over(|Used(old(a.ranks), k, old(a.clock))|, |old(a.ranks)|, upperBound, lowerBound)
    {
      UsedSize(a.ranks, k, a.clock);
      if k in values {
        Overwrite(k, value);
        gone := {};
      } else {
        var e;
        e, gone := SetNew(k, value);
      }
    }

    /** The part of Set for a new key. */
    method SetNew(k: Key, value: Mark) returns (e: CacheEntry, ghost gone: set<Key>)
      requires Valid() && k !in values
      modifies this`a, this`values, this`len
      modifies freqs, a.g.fn, a.g.rl, a.g.rn
      ensures Valid() && Grown(old(a.g), a.g) && a.en == old(a.en) + {e} && fresh(e)
      ensures Marks() == old(Marks())[k := value] - gone && k !in old(a.ranks)
      ensures a.ranks == old(a.ranks)[k := Rank(1, old(a.clock))] - gone
      ensures Lowest(old(a.ranks)[k := Rank(1, old(a.clock))], gone)
      ensures |gone| == Over(|old(a.ranks)[k := Rank(1, old(a.clock))]|, 0, upperBound, lowerBound)
    {
      e := Insert(k, value);
      gone := Bound();
    }

    /** The part of Set for a key that is there. */
    method Overwrite(k: Key, value: Mark)
      requires Valid() && k in values
      modifies this`a, a.en`value, a.en`freqNode, a.en`entryNode
      modifies freqs, a.g.fn, a.g.rl, a.g.rn
      ensures Valid() && Grown(old(a.g), a.g) && a.en == old(a.en) && k in old(a.ranks)
      ensures Marks() == old(Marks())[k := value]
      ensures a.ranks == Higher(old(a.ranks), k, old(a.clock))
    {
      EntryKnown(k);
      OwnEntries();
      SetValue(values[k], value);
      Raise(values[k], k);
    }

    /** Every key has an entry of its own. */
    lemma OwnEntries()
      requires Valid()
      ensures forall j :: j in values ==> values[j] in a.en && values[j].key == j
    {
      forall j | j in values ensures values[j] in a.en && values[j].key == j {
        EntryKnown(j);
      }
    }

    /** The value of one entry changes; what Valid speaks of does not. */
    method SetValue(e: CacheEntry, value: Mark)
      requires Valid() && e in a.en
      modifies e`value
      ensures Valid() && e.value == value
    {
      PutMark(e, value, a.sh, a.g, a.en);
    }

    method PutMark(e: CacheEntry, value: Mark, ghost sh: Shape, ghost g: Region, ghost en: set<CacheEntry>)
      modifies e`value
      ensures Is(sh, g) == old(Is(sh, g)) && Links(sh, en) == old(Links(sh, en)) && e.value == value
    {
      e.value := value;
    }

    /** The bounds of Set. */
    method Bound() returns (ghost gone: set<Key>)
      requires Valid()
      modifies this`a, this`values, this`len
      modifies freqs, a.g.fn, a.g.rl, a.g.rn
      ensures Valid() && a == old(a).(sh := a.sh, ranks := a.ranks) && Marks() == old(Marks()) - gone
      ensures a.ranks == old(a.ranks) - gone && Lowest(old(a.ranks), gone)
      ensures |gone| == Over(|old(a.ranks)|, 0, upperBound, lowerBound)
    {
      gone := {};
      LenIsSize(values, len, a.ranks);
      if upperBound > 0 && lowerBound > 0 && len > upperBound {
        var evicted;
        evicted, gone := Evict(len - lowerBound);
      } else {
        GoneNone(Contents(a.ranks, values));
      }
    }

    /** Has, Peek and Len do not count as a use. */
    method Has(k: Key) returns (has: bool)
      requires Valid()
      ensures has <==> k in a.ranks
    {
      has := k in values;
      if has {
        EntryKnown(k);
      } else {
        KeyUnknown(values, len, a.ranks, k);
      }
    }

    method Peek(k: Key) returns (r: Option<Mark>)
      requires Valid()
      ensures r == if k in Marks() then Some(Marks()[k]) else None
    {
      if k !in values {
        return None;
      }
      EntryKnown(k);
      r := Some(values[k].value);
    }

    method Len() returns (n: int)
      requires Valid()
      ensures n == |a.ranks|
    {
      LenIsSize(values, len, a.ranks);
      n := len;
    }

    /** The marks are of exactly the ranked keys. */
    lemma MarksRanked()
      requires Valid()
      ensures Marks().Keys == a.ranks.Keys
    {
      forall k ensures k in Marks() <==> k in a.ranks {
        if k in values {
          EntryKnown(k);
        } else {
          KeyUnknown(values, len, a.ranks, k);
        }
      }
    }

    /** Purge leaves nothing. */
    method Purge()
      requires Valid()
      modifies this`a, this`values, this`len, freqs, a.g.fn`next, a.g.fn`prev
      ensures Valid() && a.ranks == map[] && Marks() == map[] && a.g == old(a.g)
    {
      ClearLists(a.g);
      ClearValues(a.g, a.en);
      NothingStands(a.clock);
      Commit(a.(sh := Shape([], map[]), ranks := map[]));
    }

    method ClearValues(ghost g: Region, ghost en: set<CacheEntry>)
      requires Is(Shape([], map[]), g).Some?
      modifies this`values, this`len
      ensures Is(Shape([], map[]), g).Some? && Links(Shape([], map[]), en).Some? && values == map[] && len == 0
    {
      values := map[];
      len := 0;
    }

    method ClearLists(ghost g: Region)
      requires Is(a.sh, g).Some?
      modifies freqs, g.fn`next, g.fn`prev
      ensures Is(Shape([], map[]), g).Some?
    {
      IsOpen(a.sh, g);
      freqs.Init();
      MakeIs(Shape([], map[]), g);
    }

    // ---- TopK ----

    function BackBucket(ghost sh: Shape, ghost g: Region): (at: Place?)
      requires Is(sh, g).Some?
      reads freqs, g.fn, g.rl, g.rn
      ensures at == ElementAt(sh.ps, |sh.ps| - 1)
    {
      IsOpen(sh, g);
      freqs.Back()
    }

    function Before(place: Place, ghost i: nat, ghost sh: Shape, ghost g: Region): (at: Place?)
      requires Is(sh, g).Some? && ElementAt(sh.ps, i) == place
      reads freqs, g.fn, g.rl, g.rn
      ensures at == ElementAt(sh.ps, i - 1)
    {
      IsOpen(sh, g);
      place.Prev()
    }

    function BackCell(place: Place, ghost sh: Shape, ghost g: Region): (c: Cell?)
      requires Is(sh, g).Some? && place in sh.rows
      reads freqs, g.fn, g.rl, g.rn
      ensures c == ElementAt(Held(sh, place), |Held(sh, place)| - 1)
    {
      IsOpen(sh, g);
      assert Row(place, g) == Some(sh.rows[place]);
      place.value.value.entries.Back()
    }

    function PrevCell(place: Place, cell: Cell, ghost j: nat, ghost sh: Shape, ghost g: Region): (c: Cell?)
      requires Is(sh, g).Some? && place in sh.rows && ElementAt(Held(sh, place), j) == cell
      reads freqs, g.fn, g.rl, g.rn
      ensures c == ElementAt(Held(sh, place), j - 1)
    {
      IsOpen(sh, g);
      assert Row(place, g) == Some(sh.rows[place]);
      cell.Prev()
    }

    /** The j-th cell of bucket i carries the j-th key of rung i. */
    lemma CellKey(sh: Shape, g: Region, i: nat, j: nat, place: Place, cell: Cell)
      requires Is(sh, g).Some? && ElementAt(sh.ps, i) == place && ElementAt(Held(sh, place), j) == cell
      ensures j < |Rungs(sh)[i].keys| && cell.value.Some? && cell.value.value.key == Rungs(sh)[i].keys[j]
    {
      IsOpen(sh, g);
    }

    lemma RungSize(sh: Shape, g: Region, i: nat, place: Place)
      requires Is(sh, g).Some? && ElementAt(sh.ps, i) == place
      ensures place in sh.rows && |Held(sh, place)| == |Rungs(sh)[i].keys|
    {
      IsOpen(sh, g);
    }

    /** One turn of the inner loop of TopK. */
    method TopEntry(place: Place, cell: Cell, sofar: seq<Key>, ghost i: nat, ghost j: nat, ghost sh: Shape,
                    ghost g: Region)
      returns (keys: seq<Key>)
      requires Is(sh, g).Some? && ElementAt(sh.ps, i) == place && ElementAt(Held(sh, place), j) == cell
      requires Met(sh, sofar, i, j + 1).Some?
      ensures Met(sh, keys, i, j).Some? && Leading(sh, keys).Some? && |keys| == |sofar| + 1
    {
      CellKey(sh, g, i, j, place, cell);
      NextKey(sh, sofar, i, j + 1);
      keys := sofar + [cell.value.value.key];
    }

    /** The inner loop of TopK, on bucket i. */
    method TopBucket(place: Place, k: nat, sofar: seq<Key>, ghost i: nat, ghost sh: Shape, ghost g: Region)
      returns (keys: seq<Key>, full: bool)
      requires Is(sh, g).Some? && ElementAt(sh.ps, i) == place && Progress(sh, sofar, i + 1, k, false).Some?
      ensures Progress(sh, keys, i, k, full).Some?
    {
      keys := sofar;
      RungSize(sh, g, i, place);
      NextRung(sh, keys, i, k);
      ghost var j := |Held(sh, place)|;
      var entryNode := BackCell(place, sh, g);
      while entryNode != null
        invariant Is(sh, g).Some? && 0 <= j && entryNode == ElementAt(Held(sh, place), j - 1)
        invariant Met(sh, keys, i, j).Some? && |keys| < Most(k) && j <= |Held(sh, place)|
        decreases j
      {
        keys := TopEntry(place, entryNode, keys, i, j - 1, sh, g);
        if |keys| >= k {
          MakeFull(sh, keys, i, k);
          return keys, true;
        }
        j := j - 1;
        entryNode := PrevCell(place, entryNode, j, sh, g);
      }
      full := false;
      MakePartial(sh, keys, i, k);
    }

    /** TopK lists the keys highest in rank, the highest first: k of them, or all there are. Asked
        for none it still gives one. */
    method TopK(k: nat) returns (keys: seq<Key>)
      requires Valid()
      ensures |keys| == Least(Most(k), |a.ranks|) && Falling(keys, a.ranks) && Highest(keys, a.ranks)
    {
      ghost var i;
      var full;
      keys, full, i := TopBuckets(k, a.sh, a.g);
      TopsRight(a.sh, a.ranks, a.clock, keys, i, k, full);
    }

    /** The outer loop of TopK. */
    method TopBuckets(k: nat, ghost sh: Shape, ghost g: Region) returns (keys: seq<Key>, full: bool, ghost i: nat)
      requires Is(sh, g).Some?
      ensures Progress(sh, keys, i, k, full).Some? && (full || i == 0)
    {
      keys, full, i := [], false, |sh.ps|;
      NothingMet(sh, k);
      var freqNode := BackBucket(sh, g);
      while freqNode != null && !full
        invariant Is(sh, g).Some? && i <= |sh.ps| && freqNode == ElementAt(sh.ps, i - 1)
        invariant Progress(sh, keys, i, k, full).Some?
        decreases i
      {
        i := i - 1;
        keys, full := TopBucket(freqNode, k, keys, i, sh, g);
        freqNode := Before(freqNode, i, sh, g);
      }
    }
  }

  /** What TopK has met is everything from the spot on. */
  ghost predicate HasMet(sh: Shape, keys: seq<Key>, i: nat, j: nat) {
    forall t {:trigger Shown(t)} :: Shown(t) ==> Spot(Rungs(sh), i, j) && keys + Tops(Rungs(sh), i, j) == All(Rungs(sh))
  }

  ghost function Met(sh: Shape, keys: seq<Key>, i: nat, j: nat): Option<Shape> {
    if HasMet(sh, keys, i, j) then Some(sh) else None
  }

  /** The keys are the first ones in TopK's order. */
  ghost predicate Leads(sh: Shape, keys: seq<Key>) {
    forall t {:trigger Shown(t)} :: Shown(t) ==> keys <= All(Rungs(sh))
  }

  ghost function Leading(sh: Shape, keys: seq<Key>): Option<Shape> {
    if Leads(sh, keys) then Some(sh) else None
  }

  /** Every other key ranks below these. */
  ghost predicate Highest(keys: seq<Key>, rm: Ranks) {
    forall x, y :: x in keys && y in rm && y !in keys ==> x in rm && Below(rm[y], rm[x])
  }

  /** TopK looks at the length only after it has taken a key. */
  function Most(k: nat): nat {
    if k == 0 then 1 else k
  }

  /** TopK has k keys, or it has met everything behind rung i and wants more. */
  ghost predicate Progresses(sh: Shape, keys: seq<Key>, i: nat, k: nat, full: bool) {
    forall t {:trigger Shown(t)} :: Shown(t) ==>
      if full then |keys| == Most(k) && Leading(sh, keys).Some? else |keys| < Most(k) && Met(sh, keys, i, 0).Some?
  }

  ghost function Progress(sh: Shape, keys: seq<Key>, i: nat, k: nat, full: bool): Option<Shape> {
    if Progresses(sh, keys, i, k, full) then Some(sh) else None
  }

  lemma MakeFull(sh: Shape, keys: seq<Key>, i: nat, k: nat)
    requires |keys| == Most(k) && Leading(sh, keys).Some?
    ensures Progress(sh, keys, i, k, true).Some?
  {
  }

  lemma MakePartial(sh: Shape, keys: seq<Key>, i: nat, k: nat)
    requires |keys| < Most(k) && Met(sh, keys, i, 0).Some?
    ensures Progress(sh, keys, i, k, false).Some?
  {
  }

  lemma NothingMet(sh: Shape, k: nat)
    ensures Progress(sh, [], |sh.ps|, k, false).Some?
  {
    assert [] + All(Rungs(sh)) == All(Rungs(sh));
  }

  lemma NextKey(sh: Shape, keys: seq<Key>, i: nat, j: nat)
    requires Met(sh, keys, i, j).Some? && i < |sh.ps| && 0 < j <= |Rungs(sh)[i].keys|
    ensures var more := keys + [Rungs(sh)[i].keys[j - 1]]; Met(sh, more, i, j - 1).Some? && Leading(sh, more).Some?
  {
    assert Shown(0);
    var k, rest := Rungs(sh)[i].keys[j - 1], Tops(Rungs(sh), i, j - 1);
    assert keys + ([k] + rest) == keys + [k] + rest;
  }

  lemma NextRung(sh: Shape, keys: seq<Key>, i: nat, k: nat)
    requires Progress(sh, keys, i + 1, k, false).Some? && i < |sh.ps|
    ensures |keys| < Most(k) && Met(sh, keys, i, |Rungs(sh)[i].keys|).Some?
  {
    assert Shown(0);
  }

  lemma AllMet(sh: Shape, keys: seq<Key>)
    requires Met(sh, keys, 0, 0).Some?
    ensures keys == All(Rungs(sh))
  {
    assert Shown(0);
    assert keys + [] == keys;
  }

  /** What leads in TopK's order is the highest in rank. */
  lemma TopsRight(sh: Shape, rm: Ranks, clock: nat, keys: seq<Key>, i: nat, k: nat, full: bool)
    requires Stands(sh, rm, clock).Some? && Progress(sh, keys, i, k, full).Some? && (full || i == 0)
    ensures Falling(keys, rm) && Highest(keys, rm) && |keys| == Least(Most(k), |rm|)
  {
    assert Shown(0);
    if !full {
      AllMet(sh, keys);
    }
    TopsFall(Rungs(sh), rm, clock);
    FirstAreHighest(All(Rungs(sh)), keys, rm);
  }

  lemma FirstAreHighest(all: seq<Key>, keys: seq<Key>, rm: Ranks)
    requires Falling(all, rm) && keys <= all && forall k :: k in rm <==> k in all
    ensures Falling(keys, rm) && Highest(keys, rm)
  {
    assert forall s :: 0 <= s < |keys| ==> keys[s] == all[s];
    forall x, y | x in keys && y in rm && y !in keys ensures x in rm && Below(rm[y], rm[x]) {
      var s :| 0 <= s < |keys| && keys[s] == x;
      var t :| 0 <= t < |all| && all[t] == y;
      assert s < t;
    }
  }

  lemma NothingStands(clock: nat)
    ensures Stands(Shape([], map[]), map[], clock).Some? && Counted(map[], 0, map[]).Some?
  {
  }

  /** The marks of the entries of a map and of a new one, as a value. */
  lemma TakeMarks(k: Key, e: CacheEntry, values: map<Key, CacheEntry>,
                  en: set<CacheEntry>) returns (vs: map<CacheEntry, Mark>)
    requires k !in values && e !in en && forall j :: j in values ==> values[j] in en
    ensures Snap(en + {e}, vs) && Marking(values[k := e], en + {e}, vs) == MarksOf(values, en)[k := e.value]
  {
    vs := map x | x in en + {e} :: x.value;
  }

  lemma MarkingLess(values: map<Key, CacheEntry>, en: set<CacheEntry>, vs: map<CacheEntry, Mark>, gone: set<Key>)
    ensures Marking(values - gone, en, vs) == Marking(values, en, vs) - gone
  {
  }

  /** The ranks after a use of k, which may be new. */
  ghost function Used(rm: Ranks, k: Key, clock: nat): Ranks {
    if k in rm then Higher(rm, k, clock) else rm[k := Rank(1, clock)]
  }

  /** How many of n entries have to go, when there were `before`: none if nothing came in. */
  function Over(n: nat, before: nat, upper: int, lower: int): nat {
    if n > before && upper > 0 && lower > 0 && n > upper then Least(n - lower, n) else 0
  }

  lemma UsedSize(rm: Ranks, k: Key, clock: nat)
    ensures |Used(rm, k, clock)| == if k in rm then |rm| else |rm| + 1
  {
    var more := Used(rm, k, clock);
    assert more.Keys == rm.Keys + {k} && |more| == |more.Keys| && |rm| == |rm.Keys|;
  }

  lemma LessSize(rm: Ranks, gone: set<Key>)
    requires gone <= rm.Keys
    ensures |rm - gone| == |rm| - |gone|
  {
    assert (rm - gone).Keys == rm.Keys - gone && |rm| == |rm.Keys| && |rm - gone| == |(rm - gone).Keys|;
  }

  /** What the bounds mean: nothing goes while there is room; when there is none, exactly `lower` entries are
      left; and so never more than `upper`. */
  lemma BoundsKept(rm: Ranks, k: Key, clock: nat, gone: set<Key>, upper: int, lower: int)
    requires gone <= Used(rm, k, clock).Keys && |gone| == Over(|Used(rm, k, clock)|, |rm|, upper, lower)
    ensures k in rm || |rm| < upper || upper <= 0 || lower <= 0 ==> gone == {}
    ensures 0 < lower <= upper && k !in rm && upper <= |rm| ==> |Used(rm, k, clock) - gone| == lower
    ensures 0 < lower <= upper && |rm| <= upper ==> |Used(rm, k, clock) - gone| <= upper
  {
    UsedSize(rm, k, clock);
    LessSize(Used(rm, k, clock), gone);
  }

  lemma LenIsSize(values: map<Key, CacheEntry>, len: int, rm: Ranks)
    requires Counted(values, len, rm).Some?
    ensures len == |rm|
  {
    assert Shown(0);
    assert |values| == |values.Keys| && |rm| == |rm.Keys|;
  }

  /** What the cache held before an eviction. */
  datatype Contents = Contents(ranks: Ranks, values: map<Key, CacheEntry>)

  function Least(count: int, n: nat): nat {
    if count <= 0 then 0 else if count <= n then count else n
  }

  /** Of what was there, the n entries `gone` are gone, and they were the lowest. */
  ghost predicate Gone(from: Contents, gone: set<Key>, n: nat, rm: Ranks, values: map<Key, CacheEntry>) {
    Lowest(from.ranks, gone) && rm == from.ranks - gone && values == from.values - gone && |gone| == n
  }

  lemma GoneNone(from: Contents)
    ensures Gone(from, {}, 0, from.ranks, from.values)
  {
  }

  lemma GoneMore(from: Contents, gone: set<Key>, n: nat, rm: Ranks, values: map<Key, CacheEntry>, k: Key)
    requires Gone(from, gone, n, rm, values) && k in rm && Lowest(rm, {k})
    ensures Gone(from, gone + {k}, n + 1, rm - {k}, values - {k})
  {
    LowestNext(from.ranks, gone, k);
    assert values - {k} == from.values - (gone + {k});
  }

  lemma GoneAll(from: Contents, gone: set<Key>, n: nat, rm: Ranks, values: map<Key, CacheEntry>, count: int)
    requires Gone(from, gone, n, rm, values) && (n == 0 || n <= count) && (rm == map[] || count <= n)
    ensures n == Least(count, |from.ranks|)
  {
    assert gone <= from.ranks.Keys;
    SubsetSize(gone, from.ranks.Keys);
    if rm == map[] {
      assert forall k :: k in from.ranks && k !in gone ==> k in rm;
      assert gone == from.ranks.Keys;
    }
  }

  lemma {:induction false} SubsetSize(s: set<Key>, t: set<Key>)
    requires s <= t
    ensures |s| <= |t|
  {
    if s != {} {
      var x :| x in s;
      SubsetSize(s - {x}, t - {x});
    }
  }

  lemma CutFront(sh: Shape, place: Place)
    requires ElementAt(sh.ps, 0) == place && ElementAt(Held(sh, place), 0) != null
    ensures var less := CutAt(sh, 0, 0);
            && ElementAt(Held(less, place), 0) == ElementAt(Held(sh, place), 1)
            && (ElementAt(Held(sh, place), 1) != null ==> ElementAt(less.ps, 0) == place)
  {
  }

  lemma FrontRank(sh: Shape, rm: Ranks, clock: nat, k: Key)
    requires Stands(sh, rm, clock).Some? && 0 < |sh.ps| && 0 < |Rungs(sh)[0].keys| && Rungs(sh)[0].keys[0] == k
    ensures k in rm && Lowest(rm, {k})
  {
    assert Shown(0);
    FrontIsLowest(Rungs(sh), rm, clock);
  }

  lemma KeyUnknown(values: map<Key, CacheEntry>, len: int, rm: Ranks, k: Key)
    requires Counted(values, len, rm).Some? && k !in values
    ensures k !in rm && rm - {k} == rm && values - {k} == values
  {
    assert Shown(0);
  }

  ghost function CutAt(sh: Shape, i: nat, j: nat): Shape {
    if i < |sh.ps| && j < |Held(sh, sh.ps[i])| then Cut(sh, i, j) else sh
  }

  ghost function Shrunk(l: seq<Rung>, i: nat, j: nat): seq<Rung> {
    if i < |l| && j < |l[i].keys| then Taken(l, i, j) else l
  }

  /** Whatever cell is in a bucket was there before. */
  ghost predicate Fewer(sh: Shape, sh': Shape) {
    forall p, c :: p in sh'.rows && c in sh'.rows[p] ==> p in sh.rows && c in sh.rows[p]
  }

  lemma CutFewer(sh: Shape, i: nat, j: nat)
    requires i < |sh.ps| && j < |Held(sh, sh.ps[i])|
    ensures Fewer(sh, Cut(sh, i, j))
    ensures forall c :: c in Held(Cut(sh, i, j), sh.ps[i]) ==> c in Without(Held(sh, sh.ps[i]), j)
  {
    var row, less := Held(sh, sh.ps[i]), Without(Held(sh, sh.ps[i]), j);
    forall c | c in less ensures c in row {
      var k :| 0 <= k < |less| && less[k] == c;
      WithoutAt(row, j, k);
    }
  }

  lemma CutLeaves(sh: Shape, i: nat, j: nat, place: Place, cell: Cell)
    requires ElementAt(sh.ps, i) == place && ElementAt(Held(sh, place), j) == cell
    requires cell !in Without(Held(sh, place), j)
    ensures CutAt(sh, i, j) == Cut(sh, i, j) && Fewer(sh, CutAt(sh, i, j)) && cell !in Held(CutAt(sh, i, j), place)
    ensures Shrunk(Rungs(sh), i, j) == Taken(Rungs(sh), i, j)
  {
    CutFewer(sh, i, j);
  }

  lemma TakeLoses(sh: Shape, rm: Ranks, clock: nat, i: nat, j: nat, k: Key)
    requires Stands(sh, rm, clock).Some? && i < |sh.ps| && j < |Rungs(sh)[i].keys| && Rungs(sh)[i].keys[j] == k
    ensures k in rm && Loses(sh, i, j, rm - {k}, clock).Some?
  {
    assert Shown(0);
    OnItsRung(Rungs(sh), rm, i, j);
    TakeOk(Rungs(sh), rm, clock, i, j);
  }

  lemma TakeCounted(values: map<Key, CacheEntry>, len: int, rm: Ranks, k: Key)
    requires Counted(values, len, rm).Some? && k in values
    ensures Counted(values - {k}, len - 1, rm - {k}).Some?
  {
    assert Shown(0);
    assert (values - {k}).Keys == values.Keys - {k} && (rm - {k}).Keys == rm.Keys - {k};
    assert |(values - {k}).Keys| == |values.Keys| - 1;
  }

  /** A new key may enter, and the ranks with it are rm. */
  ghost predicate Enterable(sh: Shape, k: Key, rm: Ranks, c: nat) {
    forall t {:trigger Shown(t)} :: Shown(t) ==> Refines(Entered(Rungs(sh), k), rm, c)
  }

  ghost function Enters(sh: Shape, k: Key, rm: Ranks, c: nat): Option<Key> {
    if Enterable(sh, k, rm, c) then Some(k) else None
  }

  lemma EnterReady(sh: Shape, rm: Ranks, clock: nat, values: map<Key, CacheEntry>, len: int, k: Key)
    requires Stands(sh, rm, clock).Some? && Counted(values, len, rm).Some? && k !in values
    ensures k !in rm && Enters(sh, k, rm[k := Rank(1, clock)], clock + 1).Some?
  {
    KeyUnknown(values, len, rm, k);
    assert Shown(0);
    EnterOk(Rungs(sh), rm, clock, k);
  }

  lemma EnterCounted(values: map<Key, CacheEntry>, len: int, rm: Ranks, k: Key, e: CacheEntry, r: Rank)
    requires Counted(values, len, rm).Some? && k !in values
    ensures Counted(values[k := e], len + 1, rm[k := r]).Some?
  {
    assert Shown(0);
    assert values[k := e].Keys == values.Keys + {k} && rm[k := r].Keys == rm.Keys + {k};
    assert |values[k := e].Keys| == |values.Keys| + 1;
  }

  lemma OnlyOnce<T>(s: seq<T>, j: nat)
    requires j < |s| && Distinct(s)
    ensures s[j] !in Without(s, j)
  {
    forall k | 0 <= k < |s| - 1 ensures Without(s, j)[k] != s[j] {
      WithoutAt(s, j, k);
    }
  }

  lemma StandsStamped(sh: Shape, rm: Ranks, clock: nat)
    requires Stands(sh, rm, clock).Some?
    ensures Stamped(rm, clock)
  {
    assert Shown(0);
  }

  lemma NoneGone(rm: Ranks, gone: set<Key>)
    requires |gone| == 0
    ensures rm - gone == rm
  {
    assert gone == {};
  }

  lemma NewestGoes(rm: Ranks, clock: nat, gone: set<Key>)
    requires OnlyKey(rm, "a", 2) && Stamped(rm, clock)
    requires Lowest(Used(rm, "b", clock), gone) && |gone| == Over(|Used(rm, "b", clock)|, |rm|, 1, 1)
    ensures "b" in gone
  {
    UsedSize(rm, "b", clock);
    assert |rm.Keys| == 1;
    NewcomerGoesIff(rm, clock, "b", gone);
  }

  /** The only key of a ranked map, and how often it was used. */
  ghost predicate OnlyKey(rm: Ranks, k: Key, freq: nat) {
    rm.Keys == {k} && rm[k].freq == freq
  }

  lemma OnlyUsed(rm: Ranks, clock: nat, gone: set<Key>)
    requires rm == map[] || OnlyKey(rm, "a", 1)
    requires |gone| == Over(|Used(rm, "a", clock)|, |rm|, 1, 1)
    ensures OnlyKey(Used(rm, "a", clock) - gone, "a", if rm == map[] then 1 else 2)
  {
    UsedSize(rm, "a", clock);
    if rm != map[] {
      assert |rm.Keys| == 1;
    }
    NoneGone(Used(rm, "a", clock), gone);
  }

  /** One use of the key "a" in a cache for one entry. */
  method UseOnly(c: Cache)
    requires c.Valid() && c.upperBound == c.lowerBound == 1 && (c.a.ranks == map[] || OnlyKey(c.a.ranks, "a", 1))
    modifies c, c.a.en, c.freqs, c.a.g.fn, c.a.g.rl, c.a.g.rn
    ensures c.Valid() && Grown(old(c.a.g), c.a.g) && forall e :: e in c.a.en ==> e in old(c.a.en) || fresh(e)
    ensures OnlyKey(c.a.ranks, "a", if old(c.a.ranks) == map[] then 1 else 2)
  {
    ghost var rm, clock := c.a.ranks, c.a.clock;
    ghost var gone := c.Set("a", Mark(1, 1));
    OnlyUsed(rm, clock, gone);
  }

  /** A cache for one entry, and a key used twice. */
  method UsedTwice() returns (c: Cache)
    ensures fresh(c) && fresh(c.freqs) && fresh(c.a.g.fn) && fresh(c.a.g.rl) && fresh(c.a.g.rn) && fresh(c.a.en)
    ensures c.Valid() && c.upperBound == c.lowerBound == 1 && OnlyKey(c.a.ranks, "a", 2)
  {
    c := new Cache(1);
    UseOnly(c);
    UseOnly(c);
  }

  /** The new key "b" is gone as soon as it is set. */
  method NewcomerGone() returns (c: Cache)
    ensures c.Valid() && c.upperBound == 1 && "b" !in c.Marks()
  {
    c := UsedTwice();
    ghost var rm, clock := c.a.ranks, c.a.clock;
    StandsStamped(c.a.sh, rm, clock);
    ghost var gone := c.Set("b", Mark(3, 1));
    NewestGoes(rm, clock, gone);
  }

  // ---- Any number of keys ----

  /** The keys of these calls of Set. */
  ghost function KeysIn(ops: seq<(Key, Mark)>): set<Key> {
    set x | x in ops :: x.0
  }

  /** After Sets of the keys `seen`, a cache for cap entries has all of them while they fit, and is full once
      they do not. */
  ghost predicate Holding(rm: Ranks, seen: set<Key>, cap: nat) {
    if |seen| <= cap then rm.Keys == seen else |rm| == cap
  }

  lemma HoldsMore(rm: Ranks, seen: set<Key>, k: Key, clock: nat, gone: set<Key>, cap: nat)
    requires 0 < cap && Holding(rm, seen, cap) && gone <= Used(rm, k, clock).Keys
    requires |gone| == Over(|Used(rm, k, clock)|, |rm|, cap, cap)
    ensures Holding(Used(rm, k, clock) - gone, seen + {k}, cap)
  {
    BoundsKept(rm, k, clock, gone, cap, cap);
    UsedSize(rm, k, clock);
    LessSize(Used(rm, k, clock), gone);
    assert |rm| == |rm.Keys| && Used(rm, k, clock).Keys == rm.Keys + {k};
    assert |seen + {k}| == if k in seen then |seen| else |seen| + 1 by {
      assert k in seen ==> seen + {k} == seen;
    }
  }

  method SetNext(c: Cache, k: Key, value: Mark, ghost seen: set<Key>, cap: nat)
    requires c.Valid() && 0 < cap == c.upperBound == c.lowerBound && Holding(c.a.ranks, seen, cap)
    modifies c, c.a.en, c.freqs, c.a.g.fn, c.a.g.rl, c.a.g.rn
    ensures c.Valid() && Grown(old(c.a.g), c.a.g) && forall e :: e in c.a.en ==> e in old(c.a.en) || fresh(e)
    ensures Holding(c.a.ranks, seen + {k}, cap)
  {
    ghost var rm, clock := c.a.ranks, c.a.clock;
    ghost var gone := c.Set(k, value);
    HoldsMore(rm, seen, k, clock, gone, cap);
  }

  /** A new cache after any calls of Set: it holds at most `cap` entries, and as many as there were keys or as
      it has room for. */
  method SetAll(cap: nat, ops: seq<(Key, Mark)>) returns (c: Cache)
    requires 0 < cap
    ensures c.Valid() && |c.a.ranks| <= cap && Holding(c.a.ranks, KeysIn(ops), cap)
  {
    c := new Cache(cap);
    assert KeysIn([]) == {};
    for i := 0 to |ops|
      invariant c.Valid() && c.upperBound == c.lowerBound == cap && Holding(c.a.ranks, KeysIn(ops[..i]), cap)
      invariant fresh(c) && fresh(c.freqs) && fresh(c.a.en)
      invariant fresh(c.a.g.fn) && fresh(c.a.g.rl) && fresh(c.a.g.rn)
    {
      SetNext(c, ops[i].0, ops[i].1, KeysIn(ops[..i]), cap);
      KeysMore(ops, i);
    }
    assert ops[..|ops|] == ops;
    assert |c.a.ranks| == |c.a.ranks.Keys|;
  }

  lemma KeysMore(ops: seq<(Key, Mark)>, i: nat)
    requires i < |ops|
    ensures KeysIn(ops[..i + 1]) == KeysIn(ops[..i]) + {ops[i].0}
  {
    assert ops[..i + 1] == ops[..i] + [ops[i]];
    forall k ensures k in KeysIn(ops[..i + 1]) <==> k in KeysIn(ops[..i]) + {ops[i].0} {
      if k in KeysIn(ops[..i + 1]) {
        var x :| x in ops[..i + 1] && x.0 == k;
        assert x in ops[..i] || x == ops[i];
      }
      if k in KeysIn(ops[..i]) {
        var x :| x in ops[..i] && x.0 == k;
        assert x in ops[..i + 1];
      }
      assert ops[i] in ops[..i + 1];
    }
  }
}
