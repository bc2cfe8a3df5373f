/** A tuple nested as one column of a binary COPY stream, and the iterator that reads its fields. */
module CopyTuple {
  import opened Common

  /** A field value; None is SQL NULL. */
  type Field = Option<seq<int>>

  const NULL_SIZE := 0xFFFF_FFFF
  const COUNT_SIZE := 2
  const SIZE_SIZE := 4

  /** Network byte order. */
  function Be32(n: nat): (s: seq<int>)
    ensures |s| == SIZE_SIZE
  {
    [n / 0x100_0000 % 256, n / 0x1_0000 % 256, n / 0x100 % 256, n % 256]
  }

  function Be16(n: nat): (s: seq<int>)
    ensures |s| == COUNT_SIZE
  {
    [n / 0x100 % 256, n % 256]
  }

  function Read32(s: seq<int>, at: nat): int
    requires at + SIZE_SIZE <= |s|
  {
    ((s[at] * 256 + s[at + 1]) * 256 + s[at + 2]) * 256 + s[at + 3]
  }

  function Read16(s: seq<int>, at: nat): int
    requires at + COUNT_SIZE <= |s|
  {
    s[at] * 256 + s[at + 1]
  }

  function FieldBytes(f: Field): seq<int> {
    match f
    case None => Be32(NULL_SIZE)
    case Some(value) => Be32(|value|) + value
  }

  function FieldsBytes(fs: seq<Field>): seq<int> {
    if fs == [] then [] else FieldBytes(fs[0]) + FieldsBytes(fs[1..])
  }

  /** What follows the size: the number of fields and the fields. */
  function Body(fs: seq<Field>): seq<int> {
    Be16(|fs|) + FieldsBytes(fs)
  }

  // ---- push_tuple_as_next_column ----

  function SizeOf(f: Field): nat {
    match f
    case None => SIZE_SIZE
    case Some(value) => SIZE_SIZE + |value|
  }

  function SizesOf(fs: seq<Field>): nat {
    if fs == [] then 0 else SizeOf(fs[0]) + SizesOf(fs[1..])
  }

  lemma {:induction false} SizesAppend(fs: seq<Field>, f: Field)
    ensures SizesOf(fs + [f]) == SizesOf(fs) + SizeOf(f)
    ensures FieldsBytes(fs + [f]) == FieldsBytes(fs) + FieldBytes(f)
  {
    if fs == [] {
      assert fs + [f] == [f];
    } else {
      assert (fs + [f])[1..] == fs[1..] + [f];
      SizesAppend(fs[1..], f);
      assert FieldBytes(fs[0]) + (FieldsBytes(fs[1..]) + FieldBytes(f))
          == FieldBytes(fs[0]) + FieldsBytes(fs[1..]) + FieldBytes(f);
    }
  }

  lemma {:induction false} SizesExact(fs: seq<Field>)
    ensures |FieldsBytes(fs)| == SizesOf(fs)
  {
    if fs != [] { SizesExact(fs[1..]); }
  }

  /** The announced size, in 32-bit arithmetic. */
  method TupleSize(fs: seq<Field>) returns (size: nat)
    ensures size == (COUNT_SIZE + SizesOf(fs)) % 0x1_0000_0000
  {
    size := COUNT_SIZE;
    for i := 0 to |fs|
      invariant size == (COUNT_SIZE + SizesOf(fs[..i])) % 0x1_0000_0000
    {
      assert fs[..i + 1] == fs[..i] + [fs[i]];
      SizesAppend(fs[..i], fs[i]);
      WrapAdd(COUNT_SIZE + SizesOf(fs[..i]), SizeOf(fs[i]));
      match fs[i] {
        case None => size := (size + SIZE_SIZE) % 0x1_0000_0000;
        case Some(value) => size := (size + (SIZE_SIZE + |value|)) % 0x1_0000_0000;
      }
    }
    assert fs[..|fs|] == fs;
  }

  lemma WrapAdd(m: nat, n: nat)
    ensures (m % 0x1_0000_0000 + n) % 0x1_0000_0000 == (m + n) % 0x1_0000_0000
  {
  }

  method PushFields(out: seq<int>, fs: seq<Field>) returns (out': seq<int>)
    ensures out' == out + FieldsBytes(fs)
  {
    hide Be32;
    out' := out;
    assert out + FieldsBytes(fs[..0]) == out;
    for i := 0 to |fs|
      invariant out' == out + FieldsBytes(fs[..i])
    {
      assert fs[..i + 1] == fs[..i] + [fs[i]];
      SizesAppend(fs[..i], fs[i]);
      ghost var before := out';
      match fs[i] {
        case None => out' := out' + Be32(NULL_SIZE);
        case Some(value) =>
          out' := out' + Be32(|value|);
          out' := out' + value;
      }
      assert out' == before + FieldBytes(fs[i]);
      assert out + FieldsBytes(fs[..i]) + FieldBytes(fs[i]) == out + (FieldsBytes(fs[..i]) + FieldBytes(fs[i]));
    }
    assert fs[..|fs|] == fs;
  }

  /** The size pushed first is the number of body bytes that follow, whenever that fits 32 bits. */
  method PushTuple(out: seq<int>, fs: seq<Field>) returns (out': seq<int>)
    ensures |Body(fs)| < 0x1_0000_0000 ==> out' == out + Be32(|Body(fs)|) + Body(fs)
    ensures out' == out + Be32(|Body(fs)| % 0x1_0000_0000) + Body(fs)
  {
    hide Be32, Be16, FieldsBytes;
    var size := TupleSize(fs);
    SizesExact(fs);
    out' := out + Be32(size);
    out' := out' + Be16(|fs|);
    out' := PushFields(out', fs);
    assert out + Be32(size) + Be16(|fs|) + FieldsBytes(fs) == out + Be32(size) + (Be16(|fs|) + FieldsBytes(fs));
  }

  // ---- TuplesFieldIterator ----

  /** What the iterator answers; Overrun is where the source would read past the tuple. */
  datatype Next = End | Malformed | Overrun | Value(field: Field)

  function NextOf(bytes: seq<int>, count: int, current: nat, number: nat): Next {
    if number == count then End
    else if current >= |bytes| then Malformed
    else if current + SIZE_SIZE > |bytes| then Overrun
    else
      var size := Read32(bytes, current);
      if size == NULL_SIZE then Value(None)
      else if size < 0 || current + SIZE_SIZE + size > |bytes| then Overrun
      else Value(Some(bytes[current + SIZE_SIZE..current + SIZE_SIZE + size]))
  }

  /** All fields until the end, or None where the iteration does not get there. */
  function Fields(bytes: seq<int>, count: int, current: nat, number: nat): Option<seq<Field>>
    decreases count - number
  {
    match NextOf(bytes, count, current, number)
    case End => Some([])
    case Value(f) =>
      if number >= count then None
      else
        (match Fields(bytes, count, current + SizeOf(f), number + 1)
         case None => None
         case Some(fs) => Some([f] + fs))
    case _ => None
  }

  class TuplesFieldIterator {
    const bytes: seq<int>
    const count: int
    var current: nat
    var number: nat

    constructor (body: seq<int>)
      requires |body| >= COUNT_SIZE
      ensures bytes == body && count == Read16(body, 0) && current == COUNT_SIZE && number == 0
    {
      bytes, count, current, number := body, Read16(body, 0), COUNT_SIZE, 0;
    }

    method GetNext() returns (r: Next)
      modifies this
      ensures r == NextOf(bytes, count, old(current), old(number))
      ensures r.Value? ==> current == old(current) + SizeOf(r.field) && number == old(number) + 1
      ensures !r.Value? ==> current == old(current) && number == old(number)
    {
      hide Read32;
      if number == count { return End; }
      if current >= |bytes| { return Malformed; }
      if current + SIZE_SIZE > |bytes| { return Overrun; }
      var size := Read32(bytes, current);
      var f: Field := None;
      if size != NULL_SIZE {
        if size < 0 || current + SIZE_SIZE + size > |bytes| { return Overrun; }
        f := Some(bytes[current + SIZE_SIZE..current + SIZE_SIZE + size]);
        current := current + SIZE_SIZE + size;
      } else {
        current := current + SIZE_SIZE;
      }
      number := number + 1;
      return Value(f);
    }
  }

  /** A body too short to hold the count is refused. */
  method OpenTuple(body: seq<int>) returns (it: Option<TuplesFieldIterator>)
    ensures it.None? <==> |body| < COUNT_SIZE
    ensures it.Some? ==> fresh(it.value) && it.value.bytes == body && it.value.count == Read16(body, 0)
    ensures it.Some? ==> it.value.current == COUNT_SIZE && it.value.number == 0
  {
    if |body| < COUNT_SIZE {
      return None;
    }
    var opened' := new TuplesFieldIterator(body);
    return Some(opened');
  }

  // ---- The wire format ----

  /** The number whose bytes, most significant first, are s. */
  function Number(s: seq<int>): int {
    if s == [] then 0 else Number(s[..|s| - 1]) * 256 + s[|s| - 1]
  }

  predicate AreBytes(s: seq<int>) {
    forall i | 0 <= i < |s| :: 0 <= s[i] < 256
  }

  /** Sizes and the count are sent most significant byte first; NULL is the size with every bit set. */
  lemma NetworkOrder(n: nat)
    requires n < 0x1_0000_0000
    ensures AreBytes(Be32(n)) && Number(Be32(n)) == n
    ensures n < 0x1_0000 ==> AreBytes(Be16(n)) && Number(Be16(n)) == n
    ensures FieldBytes(None) == [255, 255, 255, 255]
  {
    var b := Be32(n);
    Quarters(n);
    FourBytes(b[0], b[1], b[2], b[3]);
    TwoBytes(n / 0x100 % 256, n % 256);
  }

  lemma TwoBytes(a: int, b: int)
    ensures Number([a, b]) == a * 256 + b
  {
    assert [a, b][..1] == [a] && [a][..0] == [];
    assert Number([a]) == a;
  }

  lemma FourBytes(a: int, b: int, c: int, d: int)
    ensures Number([a, b, c, d]) == ((a * 256 + b) * 256 + c) * 256 + d
  {
    assert [a, b, c, d][..3] == [a, b, c] && [a, b, c][..2] == [a, b];
    TwoBytes(a, b);
    assert Number([a, b, c]) == Number([a, b]) * 256 + c;
  }

  // ---- Reading back ----

  lemma ReadsBack32(n: nat, s: seq<int>, at: nat)
    requires n < 0x1_0000_0000 && at + SIZE_SIZE <= |s| && s[at..at + SIZE_SIZE] == Be32(n)
    ensures Read32(s, at) == n
  {
    var b := s[at..at + SIZE_SIZE];
    assert s[at] == b[0] && s[at + 1] == b[1] && s[at + 2] == b[2] && s[at + 3] == b[3];
    Quarters(n);
  }

  lemma Quarters(n: nat)
    requires n < 0x1_0000_0000
    ensures n / 0x100_0000 % 256 == n / 0x100_0000
    ensures n / 0x100_0000 * 256 + n / 0x1_0000 % 256 == n / 0x1_0000
    ensures n / 0x1_0000 * 256 + n / 0x100 % 256 == n / 0x100
    ensures n / 0x100 * 256 + n % 256 == n
  {
    assert n / 0x1_0000 / 256 == n / 0x100_0000;
    assert n / 0x100 / 256 == n / 0x1_0000;
  }

  lemma ReadsField(bytes: seq<int>, count: int, current: nat, number: nat, f: Field, rest: seq<int>)
    requires current <= |bytes| && bytes[current..] == FieldBytes(f) + rest && number < count
    requires f.Some? ==> |f.value| < NULL_SIZE
    ensures NextOf(bytes, count, current, number) == Value(f)
    ensures current + SizeOf(f) <= |bytes| && bytes[current + SizeOf(f)..] == rest
  {
    hide Read32, Be32;
    var tail := bytes[current..];
    var n := if f.None? then NULL_SIZE else |f.value|;
    assert bytes[current..current + SIZE_SIZE] == tail[..SIZE_SIZE] == Be32(n);
    ReadsBack32(n, bytes, current);
    assert bytes[current + SizeOf(f)..] == tail[SizeOf(f)..] == rest;
    if f.Some? {
      assert bytes[current + SIZE_SIZE..current + SIZE_SIZE + n] == tail[SIZE_SIZE..SIZE_SIZE + n] == f.value;
    }
  }

  lemma {:induction false} ReadsFields(
    bytes: seq<int>, current: nat, number: nat, fs: seq<Field>, rest: seq<int>)
    requires current <= |bytes| && bytes[current..] == FieldsBytes(fs) + rest
    requires forall i | 0 <= i < |fs| && fs[i].Some? :: |fs[i].value| < NULL_SIZE
    ensures Fields(bytes, number + |fs|, current, number) == Some(fs)
    decreases |fs|
  {
    hide NextOf, FieldBytes;
    if fs == [] {
      AtEnd(bytes, current, number);
    } else {
      assert FieldsBytes(fs) + rest == FieldBytes(fs[0]) + (FieldsBytes(fs[1..]) + rest);
      ReadsField(bytes, number + |fs|, current, number, fs[0], FieldsBytes(fs[1..]) + rest);
      ReadsFields(bytes, current + SizeOf(fs[0]), number + 1, fs[1..], rest);
      assert [fs[0]] + fs[1..] == fs;
    }
  }

  lemma AtEnd(bytes: seq<int>, current: nat, number: nat)
    ensures NextOf(bytes, number, current, number) == End
  {
  }

  /** Four bytes are the size that is read from them. */
  lemma SizeIsSent(bytes: seq<int>, at: nat)
    requires AreBytes(bytes) && at + SIZE_SIZE <= |bytes|
    ensures 0 <= Read32(bytes, at) < 0x1_0000_0000 && bytes[at..at + SIZE_SIZE] == Be32(Read32(bytes, at))
  {
    var a, b, c, d := bytes[at], bytes[at + 1], bytes[at + 2], bytes[at + 3];
    var n := Read32(bytes, at);
    var x, y := a * 256 + b, (a * 256 + b) * 256 + c;
    assert n == y * 256 + d && n / 256 == y && y / 256 == x && x / 256 == a;
    assert n / 0x1_0000 == n / 256 / 256 && n / 0x100_0000 == n / 256 / 256 / 256;
  }

  lemma FieldIsSent(bytes: seq<int>, count: int, current: nat, number: nat)
    requires AreBytes(bytes) && NextOf(bytes, count, current, number).Value?
    ensures var f := NextOf(bytes, count, current, number).field;
            && current + SizeOf(f) <= |bytes| && bytes[current..current + SizeOf(f)] == FieldBytes(f)
            && (f.Some? ==> |f.value| < NULL_SIZE)
  {
    hide Read32, Be32;
    SizeIsSent(bytes, current);
    var f := NextOf(bytes, count, current, number).field;
    if f.Some? {
      var end := current + SIZE_SIZE + |f.value|;
      assert bytes[current..end] == bytes[current..current + SIZE_SIZE] + bytes[current + SIZE_SIZE..end];
    }
  }

  /** Whatever bytes it is given, the iterator finds fields only where they were written. */
  lemma {:induction false} OnlyWrittenFields(bytes: seq<int>, count: int, current: nat, number: nat)
    requires AreBytes(bytes) && current <= |bytes| && number <= count && Fields(bytes, count, current, number).Some?
    ensures var fs := Fields(bytes, count, current, number).value;
            && |fs| == count - number && FieldsBytes(fs) <= bytes[current..]
            && forall i | 0 <= i < |fs| && fs[i].Some? :: |fs[i].value| < NULL_SIZE
    decreases count - number
  {
    hide NextOf, FieldBytes;
    var next := NextOf(bytes, count, current, number);
    if next.Value? {
      var f, after := next.field, current + SizeOf(next.field);
      FieldIsSent(bytes, count, current, number);
      OnlyWrittenFields(bytes, count, after, number + 1);
      assert bytes[current..] == bytes[current..after] + bytes[after..];
    } else {
      EndsAtCount(bytes, count, current, number);
    }
  }

  lemma EndsAtCount(bytes: seq<int>, count: int, current: nat, number: nat)
    ensures NextOf(bytes, count, current, number) == End <==> number == count
  {
  }

  /** A tuple that announces more fields than it holds is malformed where they run out. */
  lemma RunsOut(fs: seq<Field>, count: int, number: nat)
    requires number != count
    ensures NextOf(Body(fs), count, |Body(fs)|, number) == Malformed
  {
  }

  /** The iteration succeeds exactly on the announced number of written fields, whatever follows them. */
  lemma FieldsIff(bytes: seq<int>, count: nat, fs: seq<Field>)
    requires AreBytes(bytes)
    ensures Fields(bytes, count, 0, 0) == Some(fs)
       <==> |fs| == count && FieldsBytes(fs) <= bytes
            && forall i | 0 <= i < |fs| && fs[i].Some? :: |fs[i].value| < NULL_SIZE
  {
    hide Fields, FieldsBytes;
    assert bytes[0..] == bytes;
    if Fields(bytes, count, 0, 0) == Some(fs) {
      OnlyWrittenFields(bytes, count, 0, 0);
    }
    if |fs| == count && FieldsBytes(fs) <= bytes
       && forall i | 0 <= i < |fs| && fs[i].Some? :: |fs[i].value| < NULL_SIZE {
      ReadsFields(bytes, 0, 0, fs, bytes[|FieldsBytes(fs)|..]);
    }
  }

  /** Iterating a pushed body gives exactly the fields, NULLs and empty values included, then the end. */
  lemma RoundTrip(fs: seq<Field>)
    requires |fs| < 0x1_0000 && forall i | 0 <= i < |fs| && fs[i].Some? :: |fs[i].value| < NULL_SIZE
    ensures var body := Body(fs); Fields(body, Read16(body, 0), COUNT_SIZE, 0) == Some(fs)
  {
    hide Fields, FieldsBytes;
    var body := Body(fs);
    assert body[0] == Be16(|fs|)[0] && body[1] == Be16(|fs|)[1];
    assert Read16(body, 0) == |fs|;
    assert body[COUNT_SIZE..] == FieldsBytes(fs);
    assert FieldsBytes(fs) + [] == FieldsBytes(fs);
    ReadsFields(body, COUNT_SIZE, 0, fs, []);
  }
}
