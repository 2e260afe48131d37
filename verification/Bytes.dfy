/** Byte buffers: 32-bit little-endian numbers, memcpy to and from an offset, and
    rows of fields laid out without overlap. */
module Bytes {

  type byte = x: int | 0 <= x < 256

  const WORD := 0x1_0000_0000

  /** The four bytes of a 32-bit number, least significant first. */
  function Le32(v: int): (b: seq<byte>)
    ensures |b| == 4
  {
    var u := v % WORD;
    [u % 0x100, u / 0x100 % 0x100, u / 0x1_0000 % 0x100, u / 0x100_0000 % 0x100]
  }

  function Unsigned(b: seq<byte>): (u: int)
    requires |b| == 4
    ensures 0 <= u < WORD
  {
    var b0: int, b1: int, b2: int, b3: int := b[0], b[1], b[2], b[3];
    b0 + 0x100 * b1 + 0x1_0000 * b2 + 0x100_0000 * b3
  }

  function Signed(b: seq<byte>): int
    requires |b| == 4
  {
    if Unsigned(b) < WORD / 2 then Unsigned(b) else Unsigned(b) - WORD
  }

  lemma UnsignedOfLe(v: int)
    ensures Unsigned(Le32(v)) == v % WORD
  {
    var u := v % WORD;
    var q1, q2, q3 := u / 0x100, u / 0x1_0000, u / 0x100_0000;
    assert u == 0x100 * q1 + u % 0x100;
    assert q1 == 0x100 * q2 + q1 % 0x100;
    assert q2 == 0x100 * q3 + q2 % 0x100;
    assert q3 < 0x100;
  }

  lemma Digits(b0: int, b1: int, b2: int, b3: int)
    requires 0 <= b0 < 256 && 0 <= b1 < 256 && 0 <= b2 < 256 && 0 <= b3 < 256
    ensures var u := b0 + 0x100 * b1 + 0x1_0000 * b2 + 0x100_0000 * b3;
            && u % 0x100 == b0 && u / 0x100 % 0x100 == b1
            && u / 0x1_0000 % 0x100 == b2 && u / 0x100_0000 % 0x100 == b3
  {
    var u := b0 + 0x100 * b1 + 0x1_0000 * b2 + 0x100_0000 * b3;
    assert u / 0x100 == b1 + 0x100 * b2 + 0x1_0000 * b3;
    assert u / 0x1_0000 == b2 + 0x100 * b3;
    assert u / 0x100_0000 == b3;
  }

  lemma WordsWrap(u: int)
    requires 0 <= u < WORD
    ensures u % WORD == u && (u - WORD) % WORD == u
  {
  }

  lemma LeBytes(v: int, b: seq<byte>)
    requires |b| == 4 && v % WORD == Unsigned(b)
    ensures Le32(v) == b
  {
    Digits(b[0], b[1], b[2], b[3]);
  }

  lemma LeOfUnsigned(b: seq<byte>)
    requires |b| == 4
    ensures Le32(Unsigned(b)) == b && Le32(Signed(b)) == b
  {
    WordsWrap(Unsigned(b));
    LeBytes(Unsigned(b), b);
    LeBytes(Signed(b), b);
  }

  /** The bytes read by a memcpy of `n` bytes from offset `at`. */
  function Get(buf: seq<byte>, at: nat, n: nat): (r: seq<byte>)
    requires at + n <= |buf|
    ensures |r| == n
  {
    buf[at..at + n]
  }

  /** The buffer after a memcpy of `bytes` to offset `at`. */
  function Put(buf: seq<byte>, at: nat, bytes: seq<byte>): (r: seq<byte>)
    requires at + |bytes| <= |buf|
    ensures |r| == |buf|
    ensures forall i :: 0 <= i < |r| ==> r[i] == if at <= i < at + |bytes| then bytes[i - at] else buf[i]
  {
    buf[..at] + bytes + buf[at + |bytes|..]
  }

  method Memcpy(buf: array<byte>, at: nat, bytes: seq<byte>)
    requires at + |bytes| <= buf.Length
    modifies buf
    ensures buf[..] == Put(old(buf[..]), at, bytes)
  {
    var i := 0;
    while i < |bytes|
      invariant 0 <= i <= |bytes|
      invariant forall k :: 0 <= k < buf.Length ==> buf[k] == if at <= k < at + i then bytes[k - at] else old(buf[k])
    {
      buf[at + i] := bytes[i];
      i := i + 1;
    }
  }

  /** A field: where it is and the bytes it holds. */
  datatype Part = Part(at: nat, bytes: seq<byte>)

  /** Fields in ascending order that do not overlap and fit a buffer of `n` bytes. */
  predicate LaidOut(parts: seq<Part>, n: nat) {
    && (forall i :: 0 <= i < |parts| ==> parts[i].at + |parts[i].bytes| <= n)
    && (forall i, j :: 0 <= i < j < |parts| ==> parts[i].at + |parts[i].bytes| <= parts[j].at)
  }

  predicate Covered(parts: seq<Part>, i: int) {
    exists k :: 0 <= k < |parts| && Inside(parts[k], i)
  }

  /** The buffer after the fields have been copied in one after the other. */
  function PutAll(buf: seq<byte>, parts: seq<Part>): (r: seq<byte>)
    requires LaidOut(parts, |buf|)
    ensures |r| == |buf|
  {
    if parts == [] then buf
    else
      var last := parts[|parts| - 1];
      Put(PutAll(buf, parts[..|parts| - 1]), last.at, last.bytes)
  }

  predicate Inside(p: Part, i: int) {
    p.at <= i < p.at + |p.bytes|
  }

  /** A byte outside all fields is left alone. */
  lemma {:induction false} PutAllOutside(buf: seq<byte>, parts: seq<Part>, i: nat)
    requires LaidOut(parts, |buf|) && i < |buf| && !Covered(parts, i)
    ensures PutAll(buf, parts)[i] == buf[i]
  {
    if parts != [] {
      var init, last := parts[..|parts| - 1], parts[|parts| - 1];
      assert !Inside(last, i);
      assert forall k :: 0 <= k < |init| ==> init[k] == parts[k];
      PutAllOutside(buf, init, i);
    }
  }

  /** A byte of a field comes from that field. */
  lemma {:induction false} PutAllInside(buf: seq<byte>, parts: seq<Part>, k: nat, i: nat)
    requires LaidOut(parts, |buf|) && k < |parts| && i < |buf| && Inside(parts[k], i)
    ensures PutAll(buf, parts)[i] == parts[k].bytes[i - parts[k].at]
  {
    var init, last := parts[..|parts| - 1], parts[|parts| - 1];
    if k < |parts| - 1 {
      assert !Inside(last, i);
      PutAllInside(buf, init, k, i);
    }
  }

  /** Any byte after all fields have been copied in; `k` is its field, if any. */
  lemma PutAllByte(buf: seq<byte>, parts: seq<Part>, i: nat) returns (k: nat)
    requires LaidOut(parts, |buf|) && i < |buf|
    ensures Covered(parts, i) ==>
              k < |parts| && Inside(parts[k], i) && PutAll(buf, parts)[i] == parts[k].bytes[i - parts[k].at]
    ensures !Covered(parts, i) ==> PutAll(buf, parts)[i] == buf[i]
  {
    if Covered(parts, i) {
      k :| 0 <= k < |parts| && Inside(parts[k], i);
      PutAllInside(buf, parts, k, i);
    } else {
      k := 0;
      PutAllOutside(buf, parts, i);
    }
  }

  /** What was put into a field can be got back from it. */
  lemma GetPutAll(buf: seq<byte>, parts: seq<Part>, k: nat)
    requires LaidOut(parts, |buf|) && k < |parts|
    ensures Get(PutAll(buf, parts), parts[k].at, |parts[k].bytes|) == parts[k].bytes
  {
  }
}
