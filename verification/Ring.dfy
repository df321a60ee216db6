/** The doubly linked list of contrib/container/list: a ring through a sentinel element. Its
    elements, in order, are the sequence `elems`. */
module Ring {
  import opened Hidden

  class Element<V> {
    var next: Element?<V>
    var prev: Element?<V>
    var list: List?<V>
    const value: Option<V>
    ghost var home: List?<V>   // the list it was made for

    constructor (value: Option<V>, ghost home: List?<V>)
      ensures this.value == value && list == null && this.home == home
    {
      this.value, next, prev, list, this.home := value, null, null, null, home;
    }

    /** The element behind this one, or null at the end of its list. */
    function Next(): (r: Element?<V>)
      requires list != null ==> list.Valid() && this in list.elems
      reads this, list, if list == null then {} else list.nodes
      ensures list == null ==> r == null
      ensures list != null ==>
                forall i :: 0 <= i < |list.elems| && list.elems[i] == this ==> r == ElementAt(list.elems, i + 1)
    {
      if list == null then null
      else
        list.Neighbours(this);
        if next == list.root then null else next
    }

    function Prev(): (r: Element?<V>)
      requires list != null ==> list.Valid() && this in list.elems
      reads this, list, if list == null then {} else list.nodes
      ensures list == null ==> r == null
      ensures list != null ==>
                forall i :: 0 <= i < |list.elems| && list.elems[i] == this ==> r == ElementAt(list.elems, i - 1)
    {
      if list == null then null
      else
        list.Neighbours(this);
        if prev == list.root then null else prev
    }
  }

  function ElementAt<V>(s: seq<Element<V>>, i: int): Element?<V> {
    if 0 <= i < |s| then s[i] else null
  }

  /** The ring as a sequence: the sentinel at both ends and the elements between. */
  ghost function Node<V>(root: Element<V>, elems: seq<Element<V>>, i: int): Element<V>
    requires 0 <= i <= |elems| + 1
  {
    if i == 0 || i == |elems| + 1 then root else elems[i - 1]
  }

  ghost predicate Linked<V>(a: Element<V>, b: Element<V>)
    reads a, b
  {
    a.next == b && b.prev == a
  }

  ghost predicate Distinct<T>(s: seq<T>) {
    forall i, j :: 0 <= i < j < |s| ==> s[i] != s[j]
  }

  lemma NodesDiffer<V>(root: Element<V>, elems: seq<Element<V>>, i: nat, j: nat)
    requires i <= |elems| && j <= |elems| && i != j && Distinct(elems)
    requires forall k :: 0 <= k < |elems| ==> elems[k] != root
    ensures Node(root, elems, i) != Node(root, elems, j)
  {
  }

  /** Where the nodes of a ring with one more element come from. */
  lemma InsertNodes<V>(root: Element<V>, elems: seq<Element<V>>, p: nat, e: Element<V>, i: nat)
    requires p <= |elems| && i <= |elems| + 1
    ensures var more := elems[..p] + [e] + elems[p..];
            && Node(root, more, i) == (if i <= p then Node(root, elems, i) else if i == p + 1
                then e else Node(root, elems, i - 1))
            && Node(root, more, i + 1) == (if i < p then Node(root, elems, i + 1) else if i == p
                then e else Node(root, elems, i))
  {
  }

  lemma RemoveNodes<V>(root: Element<V>, elems: seq<Element<V>>, p: nat, i: nat)
    requires p < |elems| && i < |elems|
    ensures var less := elems[..p] + elems[p + 1..];
            && Node(root, less, i) == (if i <= p then Node(root, elems, i) else Node(root, elems, i + 1))
            && Node(root, less, i + 1) == (if i < p then Node(root, elems, i + 1) else Node(root, elems, i + 2))
  {
  }

  /** The element at index p is taken out, or put in. */
  function Without<T>(s: seq<T>, p: nat): seq<T>
    requires p < |s|
  {
    s[..p] + s[p + 1..]
  }

  function With<T>(s: seq<T>, p: nat, x: T): seq<T>
    requires p <= |s|
  {
    s[..p] + [x] + s[p..]
  }

  class List<V> {
    const root: Element<V>
    var len: nat
    ghost var elems: seq<Element<V>>
    ghost var nodes: set<Element<V>>   // the sentinel and every element ever inserted

    /** The pointers form a ring through the elements. */
    ghost predicate RingOk()
      reads this, nodes
    {
      && root in nodes && Distinct(elems) && (forall x :: x in nodes ==> x.home == this)
      && (forall i :: 0 <= i < |elems| ==> elems[i] in nodes && elems[i] != root)
      && (forall i :: 0 <= i <= |elems| ==> Linked(Node(root, elems, i), Node(root, elems, i + 1)))
    }

    ghost predicate Valid()
      reads this, nodes
    {
      RingOk() && len == |elems| && forall i :: 0 <= i < |elems| ==> elems[i].list == this
    }

    /** New: an empty ring. */
    constructor ()
      ensures Valid() && elems == [] && fresh(nodes)
    {
      root := new Element(None, null);
      len, elems := 0, [];
      new;
      root.next, root.prev, root.home := root, root, this;
      nodes := {root};
    }

    /** Init on a list in use: the ring is empty, its former elements keep their pointers. */
    method Init()
      requires Valid()
      modifies this, root`next, root`prev
      ensures Valid() && elems == [] && nodes == old(nodes)
    {
      root.next, root.prev := root, root;
      len, elems := 0, [];
    }

    /** The four pointer assignments that put `e` behind position p of the ring, where `at` is. */
    method LinkIn(e: Element<V>, at: Element<V>, ghost p: nat)
      requires RingOk() && p <= |elems| && at == Node(root, elems, p) && e != root && e !in elems && e.home == this
      modifies this, nodes`next, nodes`prev, nodes`list, e`next, e`prev, e`list
      ensures RingOk() && elems == With(old(elems), p, e) && nodes == old(nodes) + {e} && len == old(len)
      ensures forall x :: x in old(elems) + [e] ==> x.list == old(x.list)
    {
      ghost var was := elems;
      assert Linked(Node(root, was, p), Node(root, was, p + 1));
      e.prev := at;
      e.next := at.next;
      e.prev.next := e;
      e.next.prev := e;
      elems, nodes := With(was, p, e), nodes + {e};
      forall i | 0 <= i <= |elems| ensures Linked(Node(root, elems, i), Node(root, elems, i + 1)) {
        InsertNodes(root, was, p, e, i);
        if i < p || p + 1 < i {
          var k := if i < p then i else i - 1;
          assert old(Linked(Node(root, was, k), Node(root, was, k + 1)));
          NodesDiffer(root, was, k, p);
          NodesDiffer(root, was, if k == |was| then 0 else k + 1, if p == |was| then 0 else p + 1);
        }
      }
    }

    /** The two assignments that take the element at index p out of the ring. */
    method LinkOut(e: Element<V>, ghost p: nat)
      requires RingOk() && p < |elems| && e == elems[p]
      modifies this, nodes`next, nodes`prev, nodes`list
      ensures RingOk() && elems == Without(old(elems), p) && nodes == old(nodes) && len == old(len) && e !in elems
      ensures forall x :: x in old(elems) ==> x.list == old(x.list)
    {
      ghost var was := elems;
      assert Linked(Node(root, was, p), Node(root, was, p + 1)) &&
          Linked(Node(root, was, p + 1), Node(root, was, p + 2));
      e.prev.next := e.next;
      e.next.prev := e.prev;
      elems := Without(was, p);
      forall i | 0 <= i <= |elems| ensures Linked(Node(root, elems, i), Node(root, elems, i + 1)) {
        RemoveNodes(root, was, p, i);
        if i != p {
          var k := if i < p then i else i + 1;
          assert old(Linked(Node(root, was, k), Node(root, was, k + 1)));
          NodesDiffer(root, was, k, p);
          NodesDiffer(root, was, if k == |was| then 0 else k + 1, if p + 1 == |was| then 0 else p + 2);
        }
      }
    }

    method Insert(e: Element<V>, at: Element<V>, ghost p: nat)
      requires Valid() && p <= |elems| && at == Node(root, elems, p) && e !in nodes && e.home == this
      modifies this, nodes`next, nodes`prev, nodes`list, e`next, e`prev, e`list
      ensures Valid() && elems == With(old(elems), p, e) && nodes == old(nodes) + {e}
    {
      LinkIn(e, at, p);
      e.list := this;
      len := len + 1;
    }

    /** remove. */
    method Unlink(e: Element<V>, ghost p: nat)
      requires Valid() && p < |elems| && e == elems[p]
      modifies this, nodes`next, nodes`prev, nodes`list
      ensures Valid() && elems == Without(old(elems), p) && nodes == old(nodes) && e.list == null
    {
      LinkOut(e, p);
      e.next := null;
      e.prev := null;
      e.list := null;
      len := len - 1;
    }
  
    /** move: `e` goes to right behind `at`, which is another node of the ring. */
    method Move(e: Element<V>, at: Element<V>, ghost p: nat, ghost q: nat)
      requires Valid() && p < |elems| && e == elems[p]
      requires if e == at then q == p else q < |elems| && at == Node(root, Without(elems, p), q)
      modifies this, nodes`next, nodes`prev, nodes`list
      ensures Valid() && elems == With(Without(old(elems), p), q, e) && nodes == old(nodes)
    {
      if e == at {
        return;
      }
      LinkOut(e, p);
      LinkIn(e, at, q);
    }

    /** The pointers of an element lead to its neighbours, or to the sentinel. */
    lemma Neighbours(e: Element<V>)
      requires Valid() && e in elems
      ensures forall i :: 0 <= i < |elems| && elems[i] == e ==>
                && (if e.next == root then null else e.next) == ElementAt(elems, i + 1)
                && (if e.prev == root then null else e.prev) == ElementAt(elems, i - 1)
    {
      forall i | 0 <= i < |elems| && elems[i] == e
        ensures (if e.next == root then null else e.next) == ElementAt(elems, i + 1)
        ensures (if e.prev == root then null else e.prev) == ElementAt(elems, i - 1)
      {
        assert Linked(Node(root, elems, i), Node(root, elems, i + 1));
        assert Linked(Node(root, elems, i + 1), Node(root, elems, i + 1 + 1));
      }
    }

    function Front(): (r: Element?<V>)
      requires Valid()
      reads this, nodes
      ensures r == ElementAt(elems, 0)
    {
      assert Linked(Node(root, elems, 0), Node(root, elems, 0 + 1));
      if len == 0 then null else root.next
    }

    function Back(): (r: Element?<V>)
      requires Valid()
      reads this, nodes
      ensures r == ElementAt(elems, |elems| - 1)
    {
      assert Linked(Node(root, elems, |elems|), Node(root, elems, |elems| + 1));
      if len == 0 then null else root.prev
    }

    /** Remove does nothing to an element of another list. */
    method Remove(e: Element<V>)
      requires Valid() && (e.list == this ==> e in elems)
      modifies this, nodes`next, nodes`prev, nodes`list
      ensures Valid() && nodes == old(nodes)
      ensures old(e.list) != this ==> elems == old(elems)
      ensures forall p :: 0 <= p < |old(elems)| && old(elems)[p] == e ==>
                elems == Without(old(elems), p) && e.list == null
    {
      if e.list == this {
        ghost var p :| 0 <= p < |elems| && elems[p] == e;
        Unlink(e, p);
      }
    }

    method PushFront(v: V) returns (e: Element<V>)
      requires Valid()
      modifies this, nodes`next, nodes`prev, nodes`list
      ensures Valid() && fresh(e) && e.value == Some(v) && elems == [e] + old(elems) && nodes == old(nodes) + {e}
    {
      e := new Element(Some(v), this);
      Insert(e, root, 0);
    }

    method PushBack(v: V) returns (e: Element<V>)
      requires Valid()
      modifies this, nodes`next, nodes`prev, nodes`list
      ensures Valid() && fresh(e) && e.value == Some(v) && elems == old(elems) + [e] && nodes == old(nodes) + {e}
    {
      e := new Element(Some(v), this);
      assert Linked(Node(root, elems, |elems|), Node(root, elems, |elems| + 1));
      Insert(e, root.prev, |elems|);
    }

    /** InsertAfter; a mark of another list inserts nothing. */
    method InsertAfter(v: V, mark: Element<V>) returns (e: Element?<V>)
      requires Valid() && (mark.list == this ==> mark in elems)
      modifies this, nodes`next, nodes`prev, nodes`list
      ensures Valid()
      ensures old(mark.list) != this ==> e == null && elems == old(elems) && nodes == old(nodes)
      ensures old(mark.list) == this ==> e != null && fresh(e) && e.value == Some(v) && nodes == old(nodes) + {e}
      ensures forall p :: 0 <= p < |old(elems)| && old(elems)[p] == mark ==>
                e != null && elems == With(old(elems), p + 1, e)
    {
      if mark.list != this {
        return null;
      }
      ghost var p :| 0 <= p < |elems| && elems[p] == mark;
      e := new Element(Some(v), this);
      Insert(e, mark, p + 1);
    }

    method InsertBefore(v: V, mark: Element<V>) returns (e: Element?<V>)
      requires Valid() && (mark.list == this ==> mark in elems)
      modifies this, nodes`next, nodes`prev, nodes`list
      ensures Valid()
      ensures old(mark.list) != this ==> e == null && elems == old(elems) && nodes == old(nodes)
      ensures old(mark.list) == this ==> e != null && fresh(e) && e.value == Some(v) && nodes == old(nodes) + {e}
      ensures forall p :: 0 <= p < |old(elems)| && old(elems)[p] == mark ==>
                e != null && elems == With(old(elems), p, e)
    {
      if mark.list != this {
        return null;
      }
      ghost var p :| 0 <= p < |elems| && elems[p] == mark;
      assert Linked(Node(root, elems, p), Node(root, elems, p + 1));
      e := new Element(Some(v), this);
      Insert(e, mark.prev, p);
    }

    method MoveToFront(e: Element<V>)
      requires Valid() && (e.list == this ==> e in elems)
      modifies this, nodes`next, nodes`prev, nodes`list
      ensures Valid() && nodes == old(nodes) && (old(e.list) != this ==> elems == old(elems))
      ensures forall p :: 0 <= p < |old(elems)| && old(elems)[p] == e ==> elems == [e] + Without(old(elems), p)
    {
      if e.list != this || root.next == e {
        assert Linked(Node(root, elems, 0), Node(root, elems, 1));
        return;
      }
      ghost var p :| 0 <= p < |elems| && elems[p] == e;
      Move(e, root, p, 0);
    }

    method MoveToBack(e: Element<V>)
      requires Valid() && (e.list == this ==> e in elems)
      modifies this, nodes`next, nodes`prev, nodes`list
      ensures Valid() && nodes == old(nodes) && (old(e.list) != this ==> elems == old(elems))
      ensures forall p :: 0 <= p < |old(elems)| && old(elems)[p] == e ==> elems == Without(old(elems), p) + [e]
    {
      assert Linked(Node(root, elems, |elems|), Node(root, elems, |elems| + 1));
      if e.list != this || root.prev == e {
        return;
      }
      ghost var p :| 0 <= p < |elems| && elems[p] == e;
      Move(e, root.prev, p, |elems| - 1);
    }
  }
}
