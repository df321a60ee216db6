/** Prefix scans of the shared key-value store, storage/sharedkv/nonekv.go: keys are byte strings
    in lexicographic order, and a scan visits the keys from a lower bound up to an upper one. */
module KeyBound {
  import opened Streams

  type Key = seq<byte>

  datatype Bound = Unbounded | Below(key: Key)

  predicate Less(a: Key, b: Key) {
    b != [] && (a == [] || a[0] < b[0] || (a[0] == b[0] && Less(a[1..], b[1..])))
  }

  predicate InRange(low: Key, high: Bound, k: Key) {
    !Less(k, low) && (high.Below? ==> Less(k, high.key))
  }

  predicate MaxFrom(b: Key, i: nat) {
    forall j :: i <= j < |b| ==> b[j] == 255
  }

  /** A range holds exactly the keys with the prefix it starts at. */
  ghost predicate ExactlyPrefixed(b: Key, high: Bound) {
    forall k :: InRange(b, high, k) <==> b <= k
  }

  lemma PrefixByHead(b: Key, k: Key)
    requires b != [] && k != []
    ensures b <= k <==> b[0] == k[0] && b[1..] <= k[1..]
  {
    assert k == [k[0]] + k[1..] && b == [b[0]] + b[1..];
  }

  /** Nothing lies above a string of 0xff bytes but its own extensions. */
  lemma {:induction false} AboveMax(b: Key, k: Key)
    requires MaxFrom(b, 0)
    ensures !Less(k, b) <==> b <= k
  {
    if b != [] && k != [] {
      AboveMax(b[1..], k[1..]);
      PrefixByHead(b, k);
    }
  }

  /** The prefix up to its last byte below 0xff, with that byte incremented. */
  function Successor(b: Key, i: nat): Key
    requires i < |b| && b[i] < 255
  {
    b[..i] + [b[i] + 1]
  }

  lemma {:induction false} SuccessorBounds(b: Key, i: nat, k: Key)
    requires i < |b| && b[i] < 255 && MaxFrom(b, i + 1)
    ensures InRange(b, Below(Successor(b, i)), k) <==> b <= k
  {
    var u := Successor(b, i);
    if k != [] {
      PrefixByHead(b, k);
      if i == 0 {
        AboveMax(b[1..], k[1..]);
        assert u[0] == b[0] + 1 && u[1..] == [];
        assert !Less(k[1..], u[1..]);
      } else {
        assert u[0] == b[0] && u[1..] == Successor(b[1..], i - 1);
        SuccessorBounds(b[1..], i - 1, k[1..]);
      }
    }
  }

  lemma SuccessorExact(b: Key, i: nat)
    requires i < |b| && b[i] < 255 && MaxFrom(b, i + 1)
    ensures ExactlyPrefixed(b, Below(Successor(b, i)))
  {
    forall k ensures InRange(b, Below(Successor(b, i)), k) <==> b <= k {
      SuccessorBounds(b, i, k);
    }
  }

  lemma UnboundedExact(b: Key)
    requires MaxFrom(b, 0)
    ensures ExactlyPrefixed(b, Unbounded)
  {
    forall k ensures InRange(b, Unbounded, k) <==> b <= k {
      AboveMax(b, k);
    }
  }

  function Increment(x: byte): byte {
    if x == 255 then 0 else x + 1
  }

  /** keyUpperBound: from the prefix up to this bound lie exactly the keys that have the prefix. */
  method KeyUpperBound(b: Key) returns (r: Bound)
    ensures ExactlyPrefixed(b, r)
  {
    var end := new byte[|b|](j requires 0 <= j < |b| => b[j]);
    var i := |b| - 1;
    while i >= 0
      invariant -1 <= i < |b|
      invariant forall j :: 0 <= j <= i ==> end[j] == b[j]
      invariant MaxFrom(b, i + 1)
    {
      end[i] := Increment(end[i]);
      if end[i] != 0 {
        SuccessorExact(b, i);
        assert end[..i + 1] == Successor(b, i);
        return Below(end[..i + 1]);
      }
      i := i - 1;
    }
    UnboundedExact(b);
    r := Unbounded;
  }

  /** DropPrefix only increments the last byte. The range it deletes. */
  function Dropped(b: Key): Bound
    requires b != []
  {
    Below(b[..|b| - 1] + [Increment(b[|b| - 1])])
  }

  lemma {:induction false} BelowItself(b: Key, u: Key, i: nat)
    requires |u| == |b| && i < |b| && u[..i] == b[..i] && u[i] < b[i]
    ensures Less(u, b) && !Less(b, u)
  {
    if 0 < i {
      assert u[0] == u[..i][0] == b[..i][0] == b[0];
      assert u[1..][..i - 1] == u[..i][1..] && b[1..][..i - 1] == b[..i][1..];
      BelowItself(b[1..], u[1..], i - 1);
    }
  }

  /** So it deletes exactly the keys with the prefix if and only if that byte is not 0xff; with
      0xff the range is empty and not even the prefix itself is deleted. */
  lemma DropExactIff(b: Key)
    requires b != []
    ensures ExactlyPrefixed(b, Dropped(b)) <==> b[|b| - 1] != 255
  {
    var n := |b| - 1;
    if b[n] != 255 {
      SuccessorExact(b, n);
    } else {
      BelowItself(b, Dropped(b).key, n);
      assert !InRange(b, Dropped(b), b) && b <= b;
    }
  }

  /** DropPrefix of the prefix 0x61 0xff deletes nothing: the range ends before it begins. */
  lemma NothingDropped(k: Key)
    ensures Dropped([0x61, 0xff]) == Below([0x61, 0]) && !InRange([0x61, 0xff], Dropped([0x61, 0xff]), k)
  {
    var b: Key, u: Key := [0x61, 0xff], [0x61, 0];
    assert Dropped(b).key == u;
    assert b[1..] == [0xff] && u[1..] == [0];
    if Less(k, u) && k != [] && k[0] == 0x61 {
      var t := k[1..];
      assert Less(t, u[1..]) && !(t != [] && Less(t[1..], u[1..][1..]));
      assert t == [] && Less(t, b[1..]);
    }
  }
}
