/** Bytes and big-endian integers, as `encoding/binary` spells them in the WebSocket length fields. */
module Bytes {
  type byte = bv8

  /** The largest value of Go's `int64`, and of `int` on the 64-bit platforms the program is built for. */
  const MAX_INT64: int := 0x7FFF_FFFF_FFFF_FFFF

  /** The unsigned integer whose big-endian digits are `bs`. */
  function Value(bs: seq<byte>): nat {
    if |bs| == 0 then 0 else Value(bs[..|bs| - 1]) * 256 + (bs[|bs| - 1] as int)
  }

  /** The byte with a given value, counted up from zero. */
  function ByteOf(k: nat): byte
    requires k < 256
  {
    if k == 0 then 0 else ByteOf(k - 1) + 1
  }

  /** Go's `byte(n)` conversion of a non-negative integer: the low eight bits. */
  function Low(n: nat): byte {
    ByteOf(n % 256)
  }

  function BigEndian(n: nat, width: nat): (bs: seq<byte>)
    ensures |bs| == width
  {
    if width == 0 then [] else BigEndian(n / 256, width - 1) + [Low(n)]
  }

  function Capacity(width: nat): nat {
    if width == 0 then 1 else 256 * Capacity(width - 1)
  }

  lemma {:induction false} ValueOfBigEndian(n: nat, width: nat)
    requires n < Capacity(width)
    ensures Value(BigEndian(n, width)) == n
  {
    if width == 0 {
    } else {
      var bs := BigEndian(n, width);
      assert bs[..|bs| - 1] == BigEndian(n / 256, width - 1);
      assert n / 256 < Capacity(width - 1) by { QuotientFits(n, Capacity(width - 1)); }
      ValueOfBigEndian(n / 256, width - 1);
      LowIsRemainder(n);
    }
  }

  lemma QuotientFits(n: nat, c: nat)
    requires n < 256 * c
    ensures n / 256 < c
  {
  }

  lemma LowIsRemainder(n: nat)
    ensures Low(n) as int == n % 256
    ensures n / 256 * 256 + Low(n) as int == n
  {
    IntOfByteOf(n % 256);
  }

  lemma LowOfByte(b: byte)
    ensures Low(b as int) == b
  {
    IntOfByte(b);
    SmallRemainder(b as int);
    IntOfByteOf(b as int);
    SameInt(b, ByteOf(b as int));
  }

  lemma IntOfByte(b: byte)
    ensures 0 <= b as int < 256
  {
  }

  lemma SameInt(a: byte, b: byte)
    requires a as int == b as int
    ensures a == b
  {
  }

  lemma Increment(b: byte)
    requires b < 255
    ensures (b + 1) as int == b as int + 1
  {
  }

  lemma {:induction false} IntOfByteOf(k: nat)
    requires k < 256
    ensures ByteOf(k) as int == k
  {
    if k == 0 {
    } else {
      IntOfByteOf(k - 1);
      Increment(ByteOf(k - 1));
    }
  }

  lemma SmallRemainder(n: nat)
    requires n < 256
    ensures n % 256 == n
  {
  }

  lemma LastDigit(v: int, digit: int)
    requires 0 <= digit < 256
    ensures (v * 256 + digit) / 256 == v && (v * 256 + digit) % 256 == digit
  {
  }

  /** Taking the last digit off a number and off its spelling is the same. */
  lemma ValueSplits(bs: seq<byte>)
    requires |bs| > 0
    ensures Value(bs) / 256 == Value(bs[..|bs| - 1])
    ensures Low(Value(bs)) == bs[|bs| - 1]
  {
    var last := bs[|bs| - 1];
    IntOfByte(last);
    LastDigit(Value(bs[..|bs| - 1]), last as int);
    IntOfByteOf(last as int);
    SameInt(last, ByteOf(last as int));
  }

  lemma {:induction false} ValueIsBelowCapacity(bs: seq<byte>)
    ensures Value(bs) < Capacity(|bs|)
  {
    if |bs| == 0 {
    } else {
      ValueIsBelowCapacity(bs[..|bs| - 1]);
      IntOfByte(bs[|bs| - 1]);
    }
  }

  lemma {:induction false} BigEndianOfValue(bs: seq<byte>)
    ensures Value(bs) < Capacity(|bs|)
    ensures BigEndian(Value(bs), |bs|) == bs
  {
    ValueIsBelowCapacity(bs);
    if |bs| == 0 {
    } else {
      var front, last := bs[..|bs| - 1], bs[|bs| - 1];
      BigEndianOfValue(front);
      ValueSplits(bs);
      BigEndianStep(Value(bs), |bs|);
      assert bs == front + [last];
    }
  }

  lemma BigEndianStep(n: nat, width: nat)
    requires width > 0
    ensures BigEndian(n, width) == BigEndian(n / 256, width - 1) + [Low(n)]
  {
  }

  /** The three widths that occur: none, sixteen bits and sixty-four bits. */
  lemma Capacities()
    ensures Capacity(2) == 0x1_0000
    ensures Capacity(8) == 0x1_0000_0000_0000_0000
  {
    assert Capacity(4) == 0x1_0000_0000;
  }

  lemma BigEndianPair(n: nat)
    requires n < 0x1_0000
    ensures BigEndian(n, 2) == [Low(n / 256), Low(n)]
  {
    assert BigEndian(n / 256, 1) == BigEndian(n / 256 / 256, 0) + [Low(n / 256)];
  }
}
