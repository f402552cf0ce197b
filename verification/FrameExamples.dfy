/** The examples of section 5.7 of RFC 6455, byte for byte. */
module FrameExamples {
  import opened Bytes
  import opened Frames

  const HELLO: seq<byte> := [0x48, 0x65, 0x6C, 0x6C, 0x6F]
  const MASK: Mask := [0x37, 0xFA, 0x21, 0x3D]
  const MASKED_HELLO: seq<byte> := [0x7F, 0x9F, 0x4D, 0x51, 0x58]

  lemma ShortLengths()
    ensures LengthField(Short, 5, 0) == [0x05] && LengthField(Short, 5, 0x80) == [0x85]
    ensures LengthField(Short, 3, 0) == [0x03] && LengthField(Short, 2, 0) == [0x02]
  {
    assert ByteOf(2) == 2 && ByteOf(3) == 3;
    assert ByteOf(5) == ByteOf(4) + 1 == ByteOf(3) + 2;
  }

  lemma HelloIsMasked()
    ensures Masked(HELLO, MASK) == MASKED_HELLO
  {
    assert HELLO[0] ^ MASK[0] == 0x7F && HELLO[1] ^ MASK[1] == 0x9F && HELLO[2] ^ MASK[2] == 0x4D;
    assert HELLO[3] ^ MASK[3] == 0x51 && HELLO[4] ^ MASK[0] == 0x58;
  }

  /** A single text frame, unmasked and masked; a text in two fragments; a ping and the masked pong. */
  lemma SmallExamples()
    ensures Encode(Spelling(Frame(true, TEXT, HELLO), Short)) == [0x81, 0x05] + HELLO
    ensures EncodeMasked(TEXT, HELLO, MASK) == [0x81, 0x85] + MASK + MASKED_HELLO
    ensures Encode(Spelling(Frame(false, TEXT, HELLO[..3]), Short)) == [0x01, 0x03] + HELLO[..3]
    ensures Encode(Spelling(Frame(true, CONTINUATION, HELLO[3..]), Short)) == [0x80, 0x02] + HELLO[3..]
    ensures Encode(Spelling(Frame(true, PING, HELLO), Short)) == [0x89, 0x05] + HELLO
    ensures EncodeMasked(PONG, HELLO, MASK) == [0x8A, 0x85] + MASK + MASKED_HELLO
  {
    ShortLengths();
    HelloIsMasked();
  }

  lemma LongLengths()
    ensures BigEndian(256, 2) == [0x01, 0x00]
    ensures BigEndian(65536, 8) == [0, 0, 0, 0, 0, 1, 0, 0]
  {
    BigEndianPair(256);
    BigEndianOfNothing(5);
    assert BigEndian(1, 6) == BigEndian(0, 5) + [Low(1)];
    assert BigEndian(256, 7) == BigEndian(1, 6) + [Low(256)];
    assert BigEndian(65536, 8) == BigEndian(256, 7) + [Low(65536)];
  }

  lemma {:induction false} BigEndianOfNothing(width: nat)
    ensures BigEndian(0, width) == seq(width, _ => 0)
  {
    if width > 0 {
      BigEndianOfNothing(width - 1);
      assert BigEndian(0, width) == BigEndian(0, width - 1) + [Low(0)];
    }
  }

  /** 256 bytes and 64 KiB of binary data in a single frame. */
  lemma LargeExamples(payload: seq<byte>)
    ensures |payload| == 256 ==>
      Encode(Spelling(Frame(true, BINARY, payload), Medium)) == [0x82, 0x7E, 0x01, 0x00] + payload
    ensures |payload| == 65536 ==>
      Encode(Spelling(Frame(true, BINARY, payload), Long)) == [0x82, 0x7F, 0, 0, 0, 0, 0, 1, 0, 0] + payload
    ensures Shortest(256) == Medium && Shortest(65536) == Long
  {
    LongLengths();
  }
}
