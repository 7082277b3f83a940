/**
 The bitfield of a peer: one bit per piece, packed eight to a byte with bit 0 in
 the high position. It refines a sequence of booleans.
 */
module Bitfields {
  import opened Octets
  import opened Options

  type Byte = bv8

  /** `INDEX_ZERO >> byte_offset(index)`. */
  function Mask(offset: nat): Byte
    requires offset < 8
  {
    0x80 >> offset
  }

  function BitOf(b: Byte, offset: nat): bool
    requires offset < 8
  {
    b & Mask(offset) != 0
  }

  function WithBit(b: Byte, offset: nat, value: bool): Byte
    requires offset < 8
  {
    if value then b | Mask(offset) else b & !Mask(offset)
  }

  /** The masks, spelled out. */
  lemma {:induction false} Masks()
    ensures Mask(0) == 0x80 && Mask(1) == 0x40 && Mask(2) == 0x20 && Mask(3) == 0x10
    ensures Mask(4) == 0x08 && Mask(5) == 0x04 && Mask(6) == 0x02 && Mask(7) == 0x01
  {
  }

  lemma {:induction false} MasksDisjoint(i: nat, j: nat)
    requires i < 8 && j < 8
    ensures Mask(i) != 0
    ensures i != j ==> Mask(i) & Mask(j) == 0
  {
    Masks();
  }

  lemma {:induction false} BitsApart(b: Byte, m: Byte, n: Byte)
    ensures m & n == 0 ==> (b | m) & n == b & n && (b & !m) & n == b & n
    ensures (b | m) & m == m && (b & !m) & m == 0
  {
  }

  /** Writing one bit of a byte changes that bit and no other. */
  lemma {:induction false} WithBitExact(b: Byte, i: nat, value: bool, j: nat)
    requires i < 8 && j < 8
    ensures BitOf(WithBit(b, i, value), j) == if i == j then value else BitOf(b, j)
  {
    MasksDisjoint(i, j);
    BitsApart(b, Mask(i), Mask(j));
  }

  // ----- Packed storage -----

  function BitsOf(storage: seq<Byte>): (r: seq<bool>)
    ensures |r| == 8 * |storage|
  {
    seq(8 * |storage|, k requires 0 <= k < 8 * |storage| => BitOf(storage[k / 8], k % 8))
  }

  function SetBit(storage: seq<Byte>, index: nat, value: bool): (r: seq<Byte>)
    requires index < 8 * |storage|
    ensures |r| == |storage|
  {
    storage[index / 8 := WithBit(storage[index / 8], index % 8, value)]
  }

  lemma {:induction false} SetBitExact(storage: seq<Byte>, index: nat, value: bool)
    requires index < 8 * |storage|
    ensures BitsOf(SetBit(storage, index, value)) == BitsOf(storage)[index := value]
  {
    var r := SetBit(storage, index, value);
    forall k | 0 <= k < 8 * |storage|
      ensures BitsOf(r)[k] == BitsOf(storage)[index := value][k]
    {
      if k / 8 == index / 8 {
        WithBitExact(storage[k / 8], index % 8, value, k % 8);
        assert k == index <==> k % 8 == index % 8;
      }
    }
  }

  datatype Op = Op(index: nat, value: bool)

  predicate InRange(ops: seq<Op>, len: nat) {
    forall k | 0 <= k < |ops| :: ops[k].index < len
  }

  function RunPacked(storage: seq<Byte>, ops: seq<Op>): (r: seq<Byte>)
    requires InRange(ops, 8 * |storage|)
    ensures |r| == |storage|
    decreases |ops|
  {
    if ops == [] then storage else RunPacked(SetBit(storage, ops[0].index, ops[0].value), ops[1..])
  }

  function RunBits(bits: seq<bool>, ops: seq<Op>): (r: seq<bool>)
    requires InRange(ops, |bits|)
    ensures |r| == |bits|
    decreases |ops|
  {
    if ops == [] then bits else RunBits(bits[ops[0].index := ops[0].value], ops[1..])
  }

  /** Any run of writes on the packed bytes is the same run on the booleans. */
  lemma {:induction false} RunRefines(storage: seq<Byte>, ops: seq<Op>)
    requires InRange(ops, 8 * |storage|)
    ensures BitsOf(RunPacked(storage, ops)) == RunBits(BitsOf(storage), ops)
    decreases |ops|
  {
    if ops != [] {
      SetBitExact(storage, ops[0].index, ops[0].value);
      RunRefines(SetBit(storage, ops[0].index, ops[0].value), ops[1..]);
    }
  }

  /** Writes below `len` leave the spare bits behind `len` alone. */
  lemma {:induction false} SpareBitsKept(bits: seq<bool>, ops: seq<Op>, len: nat, k: nat)
    requires len <= k < |bits| && InRange(ops, len)
    ensures RunBits(bits, ops)[k] == bits[k]
    decreases |ops|
  {
    if ops != [] {
      SpareBitsKept(bits[ops[0].index := ops[0].value], ops[1..], len, k);
    }
  }

  // ----- Bytes from the wire -----

  /** What bit `offset` is worth in the value of a byte. */
  function Weight(offset: nat): nat
    requires offset < 8
  {
    if offset == 0 then 128 else if offset == 1 then 64 else if offset == 2 then 32 else if offset == 3 then 16
    else if offset == 4 then 8 else if offset == 5 then 4 else if offset == 6 then 2 else 1
  }

  /** What is left of an octet after the flags before `offset` have been taken out. */
  function Left(o: Octet, offset: nat): nat
    requires offset <= 8
    decreases offset, 0
  {
    if offset == 0 then o
    else if Flag(o, offset - 1) then Left(o, offset - 1) - Weight(offset - 1)
    else Left(o, offset - 1)
  }

  /** The binary digits of an octet, the highest first. */
  predicate Flag(o: Octet, offset: nat)
    requires offset < 8
    decreases offset, 1
  {
    Left(o, offset) >= Weight(offset)
  }

  function If(b: bool, byte: Byte): Byte {
    if b then byte else 0
  }

  function Pack(a: bool, b: bool, c: bool, d: bool, e: bool, f: bool, g: bool, h: bool): Byte {
    If(a, 0x80) | If(b, 0x40) | If(c, 0x20) | If(d, 0x10) | If(e, 0x08) | If(f, 0x04) | If(g, 0x02) | If(h, 0x01)
  }

  /** The flags of an octet, in order. */
  function FlagsOf(o: Octet): (f: seq<bool>)
    ensures |f| == 8 && forall k | 0 <= k < 8 :: f[k] == Flag(o, k)
  {
    seq(8, k requires 0 <= k < 8 => Flag(o, k))
  }

  function PackAll(f: seq<bool>): Byte
    requires |f| == 8
  {
    Pack(f[0], f[1], f[2], f[3], f[4], f[5], f[6], f[7])
  }

  /** The byte with the bits of an octet. */
  function ToByte(o: Octet): Byte {
    PackAll(FlagsOf(o))
  }

  lemma {:induction false} PackHigh(a: bool, b: bool, c: bool, d: bool, e: bool, f: bool, g: bool, h: bool)
    ensures var p := Pack(a, b, c, d, e, f, g, h);
      (p & 0x80 != 0) == a && (p & 0x40 != 0) == b && (p & 0x20 != 0) == c && (p & 0x10 != 0) == d
  {
  }

  lemma {:induction false} PackLow(a: bool, b: bool, c: bool, d: bool, e: bool, f: bool, g: bool, h: bool)
    ensures var p := Pack(a, b, c, d, e, f, g, h);
      (p & 0x08 != 0) == e && (p & 0x04 != 0) == f && (p & 0x02 != 0) == g && (p & 0x01 != 0) == h
  {
  }

  lemma {:induction false} PackedBits(f: seq<bool>, i: nat)
    requires |f| == 8 && i < 8
    ensures BitOf(PackAll(f), i) == f[i]
  {
    Masks();
    PackHigh(f[0], f[1], f[2], f[3], f[4], f[5], f[6], f[7]);
    PackLow(f[0], f[1], f[2], f[3], f[4], f[5], f[6], f[7]);
  }

  /** Bit `i` of the byte is bit `i` of the octet's value. */
  lemma {:induction false} ByteBits(o: Octet, i: nat)
    requires i < 8
    ensures BitOf(ToByte(o), i) == Flag(o, i)
  {
    PackedBits(FlagsOf(o), i);
  }

  /** The weights of those of the first `k` flags that are set. */
  function Worth(o: Octet, k: nat): nat
    requires k <= 8
  {
    if k == 0 then 0 else Worth(o, k - 1) + if Flag(o, k - 1) then Weight(k - 1) else 0
  }

  lemma {:induction false} WorthSoFar(o: Octet, k: nat)
    requires k <= 8
    ensures Worth(o, k) + Left(o, k) == o
  {
    if k > 0 {
      WorthSoFar(o, k - 1);
    }
  }

  lemma {:induction false} LeftIsLess(o: Octet, k: nat)
    requires k < 8
    ensures Left(o, k) < 2 * Weight(k)
  {
    if k > 0 {
      LeftIsLess(o, k - 1);
    }
  }

  /** An octet is the sum of the weights of its flags: they are its binary digits, the highest first. */
  lemma {:induction false} FlagsAreDigits(o: Octet)
    ensures Worth(o, 8) == o
    ensures Flag(o, 0) <==> o >= 128
  {
    WorthSoFar(o, 8);
    LeftIsLess(o, 7);
  }

  /** A message whose first byte is 0x80 offers piece 0 and none of the seven after it. */
  lemma {:induction false} FirstPieceFirst(bytes: seq<Octet>, k: nat)
    requires bytes != [] && bytes[0] == 0x80 && k < 8
    ensures BitsOf(FromWire(bytes))[k] <==> k == 0
  {
    WireBits(bytes, k);
    FirstByteOf(k);
    TopFlag(k);
  }

  lemma {:induction false} FirstByteOf(k: nat)
    requires k < 8
    ensures k / 8 == 0 && k % 8 == k
  {
  }

  lemma {:induction false} TopFlag(k: nat)
    requires k < 8
    ensures Flag(0x80, k) <==> k == 0
    ensures k > 0 ==> Left(0x80, k) == 0
  {
    if k > 0 {
      TopFlag(k - 1);
    }
  }

  /** The packed storage that a bitfield message brings. */
  function FromWire(bytes: seq<Octet>): (r: seq<Byte>)
    ensures |r| == |bytes|
  {
    seq(|bytes|, k requires 0 <= k < |bytes| => ToByte(bytes[k]))
  }

  /** The bits of a message: the high bit of its first byte is piece 0. */
  lemma {:induction false} WireBits(bytes: seq<Octet>, k: nat)
    requires k < 8 * |bytes|
    ensures BitsOf(FromWire(bytes))[k] == Flag(bytes[k / 8], k % 8)
  {
    ByteBits(bytes[k / 8], k % 8);
  }

  // ----- The class -----

  /** What an access does: it is refused, falls on the storage, or falls outside it. */
  datatype Access = Throws | Within | Stray

  function Reach(len: int, size: nat, index: int): Access {
    if !(0 <= index < len) then Throws else if index < 8 * size then Within else Stray
  }

  class Bitfield {
    const len: int
    const storage: array<Byte>

    constructor Zeroed(len: nat)
      ensures this.len == len && fresh(storage)
      ensures 8 * storage.Length - 8 < len <= 8 * storage.Length
      ensures forall k | 0 <= k < storage.Length :: storage[k] == 0
    {
      this.len := len;
      this.storage := new Byte[(len + 7) / 8](_ => 0);
    }

    constructor FromBytes(bytes: seq<Byte>, len: int)
      ensures this.len == len && fresh(storage) && storage[..] == bytes
    {
      this.len := len;
      this.storage := new Byte[|bytes|](k requires 0 <= k < |bytes| => bytes[k]);
      new;
      assert storage[..] == bytes;
    }

    /** The bitfield that a message brings. */
    constructor FromMessage(bytes: seq<Octet>, len: int)
      ensures this.len == len && fresh(storage) && storage.Length == |bytes|
      ensures forall k: nat | k < 8 * |bytes| :: BitsOf(storage[..])[k] == Flag(bytes[k / 8], k % 8)
    {
      this.len := len;
      this.storage := new Byte[|bytes|](k requires 0 <= k < |bytes| => ToByte(bytes[k]));
      new;
      assert storage[..] == FromWire(bytes);
      forall k: nat | k < 8 * |bytes|
        ensures BitsOf(storage[..])[k] == Flag(bytes[k / 8], k % 8)
      {
        WireBits(bytes, k);
      }
    }

    /** The constructor from a length, which refuses a negative one by throwing. */
    static method Create(len: int) returns (r: Option<Bitfield>)
      ensures r.None? <==> len < 0
      ensures r.Some? ==> r.value.len == len && r.value.storage.Length == (len + 7) / 8
      ensures r.Some? ==> BitsOf(r.value.storage[..]) == seq(8 * r.value.storage.Length, _ => false)
    {
      if len < 0 {
        return None;
      }
      var b := new Bitfield.Zeroed(len);
      return Some(b);
    }

    /**
     `set(index, value)`: throws unless the index is within bounds. A storage taken
     from a message may be too short for the index; the access is then outside it.
     */
    method Set(index: int, value: bool) returns (a: Access)
      modifies storage
      ensures a == Reach(len, storage.Length, index)
      ensures a == Throws <==> index < 0 || index >= len
      ensures a == Stray <==> 8 * storage.Length <= index < len
      ensures a != Within ==> storage[..] == old(storage[..])
      ensures a == Within ==> storage[..] == SetBit(old(storage[..]), index, value)
      ensures a == Within ==> BitsOf(storage[..]) == BitsOf(old(storage[..]))[index := value]
    {
      a := Reach(len, storage.Length, index);
      if a == Within {
        SetInBounds(index, value);
        SetBitExact(old(storage[..]), index, value);
      }
    }

    method SetInBounds(index: nat, value: bool)
      requires index < 8 * storage.Length
      modifies storage
      ensures storage[..] == SetBit(old(storage[..]), index, value)
    {
      var i, mask := index / 8, Mask(index % 8);
      if value {
        storage[i] := storage[i] | mask;
      } else {
        storage[i] := storage[i] & !mask;
      }
    }

    /** `get(index)`: throws unless the index is within bounds. */
    method Get(index: int) returns (a: Access, bit: bool)
      ensures a == Reach(len, storage.Length, index)
      ensures a == Throws <==> index < 0 || index >= len
      ensures a == Stray <==> 8 * storage.Length <= index < len
      ensures a == Within ==> bit == BitsOf(storage[..])[index]
    {
      a := Reach(len, storage.Length, index);
      bit := a == Within && storage[index / 8] & Mask(index % 8) != 0;
    }
  }
}
