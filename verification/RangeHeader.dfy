/** The Range header parser of pkg/x/http/range.go, from the point where a header is split into
    its parts and their two sides. */
module RangeHeader {

  datatype Option<+T> = None | Some(value: T)

  datatype Range = Range(start: int, end: int)

  const MAX_INT64 := 0x7FFF_FFFF_FFFF_FFFF

  /** One side of a "first-last" part: empty, not a number, or a number, possibly with a plus sign
      (never negative: a minus sign is the separator). */
  datatype Side = Empty | Junk | Num(n: nat, signed: bool)

  /** A part of the list; NoDash has no separator at all. `more` is set when there is a second
      separator: what is behind it is not looked at. */
  datatype Part = NoDash | Bounds(first: Side, last: Side, more: bool)

  datatype Header = Absent | Foreign | Bytes(parts: seq<Part>)

  datatype Parsed<T> = Ok(value: T) | NotFound | Invalid

  /** strconv.ParseInt of one side. */
  function Value(side: Side): Option<nat> {
    if side.Num? && side.n <= MAX_INT64 then Some(side.n) else None
  }

  /** One turn of the loop of Parse: the range a part stands for, if it is kept. */
  function Resolve(part: Part, size: nat): Option<Range> {
    match part
    case NoDash => None
    case Bounds(first, last, _) =>
      var a, b := Value(first), Value(last);
      if a.None? && b.None? then None
      else
        var start := if a.Some? then a.value else size - b.value;
        var end := if a.None? || b.None? then size - 1 else b.value;
        var end' := if end >= size then size - 1 else end;
        if start > end' || start < 0 then None else Some(Range(start, end'))
  }

  function Kept(parts: seq<Part>, size: nat): seq<Range> {
    if parts == [] then []
    else (match Resolve(parts[0], size) case None => [] case Some(r) => [r]) + Kept(parts[1..], size)
  }

  lemma {:induction false} KeptAppend(parts: seq<Part>, part: Part, size: nat)
    ensures Kept(parts + [part], size) ==
            Kept(parts, size) + (match Resolve(part, size) case None => [] case Some(r) => [r])
  {
    if parts != [] {
      assert (parts + [part])[1..] == parts[1..] + [part];
      KeptAppend(parts[1..], part, size);
    }
  }

  lemma {:induction false} KeptInside(parts: seq<Part>, size: nat)
    ensures forall r <- Kept(parts, size) :: 0 <= r.start <= r.end < size
  {
    if parts != [] {
      KeptInside(parts[1..], size);
    }
  }

  /** Parse: every range it accepts lies inside the object, and it fails when it accepts none. */
  method Parse(header: Header, size: nat) returns (r: Parsed<seq<Range>>)
    ensures header.Absent? <==> r.NotFound?
    ensures r.Ok? <==> header.Bytes? && Kept(header.parts, size) != []
    ensures r.Ok? ==> r.value == Kept(header.parts, size) && forall x <- r.value :: 0 <= x.start <= x.end < size
  {
    match header
    case Absent => return NotFound;
    case Foreign => return Invalid;
    case Bytes(parts) =>
      var ranges: seq<Range> := [];
      for i := 0 to |parts|
        invariant ranges == Kept(parts[..i], size)
      {
        assert parts[..i + 1] == parts[..i] + [parts[i]];
        KeptAppend(parts[..i], parts[i], size);
        match Resolve(parts[i], size)
        case None =>
        case Some(x) => ranges := ranges + [x];
      }
      assert parts[..|parts|] == parts;
      KeptInside(parts, size);
      return if ranges == [] then Invalid else Ok(ranges);
  }

  function Single(header: Header, size: nat): Parsed<Range> {
    match header
    case Absent => Ok(if size == 0 then Range(0, 0) else Range(0, size - 1))
    case Foreign => Invalid
    case Bytes(parts) => if Kept(parts, size) == [] then Invalid else Ok(Kept(parts, size)[0])
  }

  method SingleParse(header: Header, size: nat) returns (r: Parsed<Range>)
    ensures r == Single(header, size)
  {
    var rngs := Parse(header, size);
    if rngs.NotFound? {
      return Ok(if size == 0 then Range(0, 0) else Range(0, size - 1));
    }
    if rngs.Ok? {
      return Ok(rngs.value[0]);
    }
    return Invalid;
  }

  lemma {:induction false} KeptFirst(parts: seq<Part>, size: nat, i: nat)
    requires i <= |parts| && forall h :: 0 <= h < i ==> Resolve(parts[h], size).None?
    ensures Kept(parts, size) == Kept(parts[i..], size)
  {
    if i == 0 {
      assert parts[0..] == parts;
    } else {
      KeptFirst(parts[1..], size, i - 1);
      assert parts[1..][i - 1..] == parts[i..];
    }
  }

  /** The range used is that of the first part that stands for one; without such a part there is none. */
  lemma FirstCounts(parts: seq<Part>, size: nat, i: nat)
    requires i <= |parts| && forall h :: 0 <= h < i ==> Resolve(parts[h], size).None?
    ensures i == |parts| ==> Single(Bytes(parts), size) == Invalid
    ensures i < |parts| && Resolve(parts[i], size).Some? ==>
              Single(Bytes(parts), size) == Ok(Resolve(parts[i], size).value)
  {
    KeptFirst(parts, size, i);
    if i == |parts| {
      assert parts[i..] == [];
    }
  }

  /** A range accepted for a response lies inside the object exactly when the object is not empty
      or a Range header was sent: without one, an empty object is given the range 0-0. */
  lemma SingleInside(header: Header, size: nat)
    requires Single(header, size).Ok?
    ensures var r := Single(header, size).value;
            0 <= r.start <= r.end && (r.end < size <==> size > 0 || !header.Absent?)
  {
    if header.Bytes? {
      KeptInside(header.parts, size);
    }
  }

  /** Neither digits nor nothing. */
  predicate Malformed(side: Side) {
    side.Junk? || (side.Num? && side.signed)
  }

  /** Section 14.1.2 of RFC 9110: which bytes a part selects, None when it is not a valid byte
      range or not satisfiable. A suffix longer than the object selects all of it. */
  function Rfc9110(part: Part, size: nat): Option<Range> {
    if part.NoDash? || part.more || Malformed(part.first) || Malformed(part.last) then None
    else
      match (part.first, part.last)
      case (Num(a, _), Num(b, _)) =>
        if a > b || a >= size then None else Some(Range(a, if b < size then b else size - 1))
      case (Num(a, _), Empty) => if a >= size then None else Some(Range(a, size - 1))
      case (Empty, Num(n, _)) =>
        if n == 0 || size == 0 then None else Some(Range(if n < size then size - n else 0, size - 1))
      case _ => None
  }

  /** Where the parser and the RFC part. Malformed text is accepted when what is read of it can be:
      further pieces are ignored, a sign is read over, and text that is no number counts as an empty
      side. A suffix longer than the object is dropped instead of meaning all of it. And a first byte
      that does not fit an int64 makes the last one a suffix. */
  predicate Deviates(part: Part, size: nat) {
    match part
    case NoDash => false
    case Bounds(first, last, more) =>
      if more || Malformed(first) || Malformed(last) then
        match (Value(first), Value(last))
        case (Some(a), Some(b)) => a <= b && a < size
        case (Some(a), None) => a < size
        case (None, Some(n)) => 0 < n <= size
        case _ => false
      else if first.Empty? then last.Num? && 0 < size < last.n
      else first.n > MAX_INT64 && last.Num? && 0 < last.n <= size
  }

  lemma ResolveMatchesRfc(part: Part, size: nat)
    requires size <= MAX_INT64
    ensures Resolve(part, size) == Rfc9110(part, size) <==> !Deviates(part, size)
  {
  }

  lemma OnePart(part: Part, size: nat)
    ensures Single(Bytes([part]), size) ==
            match Resolve(part, size) case None => Invalid case Some(r) => Ok(r)
  {
    assert Kept([part], size) == (match Resolve(part, size) case None => [] case Some(r) => [r]) + Kept([], size);
  }

  /** "bytes=-1000" on an object of 500 bytes is refused, where the RFC asks for the whole. */
  lemma LongSuffixRefused()
    ensures var part := Bounds(Empty, Num(1000, false), false);
            Single(Bytes([part]), 500) == Invalid && Rfc9110(part, 500) == Some(Range(0, 499))
  {
    OnePart(Bounds(Empty, Num(1000, false), false), 500);
  }

  /** "bytes=1-2-3", "bytes=1--5" and "bytes=+1-2" are no byte ranges, and are answered with bytes 1 to 2,
      1 to the end, and 1 to 2. */
  lemma MalformedAccepted()
    ensures var part := Bounds(Num(1, false), Num(2, false), true);
            Single(Bytes([part]), 500) == Ok(Range(1, 2)) && Rfc9110(part, 500) == None
    ensures var part := Bounds(Num(1, false), Empty, true);
            Single(Bytes([part]), 500) == Ok(Range(1, 499)) && Rfc9110(part, 500) == None
    ensures var part := Bounds(Num(1, true), Num(2, false), false);
            Single(Bytes([part]), 500) == Ok(Range(1, 2)) && Rfc9110(part, 500) == None
  {
    OnePart(Bounds(Num(1, false), Num(2, false), true), 500);
    OnePart(Bounds(Num(1, false), Empty, true), 500);
    OnePart(Bounds(Num(1, true), Num(2, false), false), 500);
  }

  /** "bytes=9223372036854775808-5" lies behind the end, and is answered with the last five bytes. */
  lemma HugeFirstIsSuffix()
    ensures var part := Bounds(Num(MAX_INT64 + 1, false), Num(5, false), false);
            Single(Bytes([part]), 500) == Ok(Range(495, 499)) && Rfc9110(part, 500) == None
  {
    OnePart(Bounds(Num(MAX_INT64 + 1, false), Num(5, false), false), 500);
  }
}
