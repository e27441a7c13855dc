/** The driver-owned watermark in the 25-byte opaque tail of DPI report 0x04.
    Layout: magic X3ID, format version 1, a 128-bit token, and the big-endian
    CRC-32 of the preceding 21 bytes. */
module Watermark {

  type Byte = bv8

  /** A physical token: exactly 16 bytes. */
  type Token = t: seq<Byte> | |t| == 16 witness seq(16, _ => 0)

  const WATERMARK_LENGTH := 25
  const MAGIC: seq<Byte> := [0x58, 0x33, 0x49, 0x44]
  const VERSION: Byte := 1
  const CRC_START := 21

  /** The all-zero token is never assignable to a mouse. */
  predicate IsReserved(t: Token) {
    t == seq(16, _ => 0)
  }

  datatype Decoded =
    | Absent
    | Malformed
    | UnsupportedVersion(version: Byte)
    | Valid(token: Token)

  function Iterate<T>(f: T -> T, x: T, n: nat): T
    decreases n
  {
    if n == 0 then x else Iterate(f, f(x), n - 1)
  }

  function Fold<T, B>(mix: (T, B) -> T, x: T, s: seq<B>): T
    decreases |s|
  {
    if s == [] then x else Fold(mix, mix(x, s[0]), s[1..])
  }

  /** One reflected CRC-32 (IEEE) bit step. */
  function BitStep(crc: bv32): bv32 {
    if crc & 1 == 1 then (crc >> 1) ^ 0xEDB8_8320 else crc >> 1
  }

  function Xor(crc: bv32, b: Byte): bv32 {
    crc ^ (b as bv32)
  }

  /** A byte is mixed in and followed by eight bit steps. */
  function Mix(crc: bv32, b: Byte): bv32 {
    Iterate(BitStep, Xor(crc, b), 8)
  }

  function Crc32(bytes: seq<Byte>): bv32 {
    Fold(Mix, 0xFFFF_FFFF, bytes) ^ 0xFFFF_FFFF
  }

  function ToBigEndian(x: bv32): (r: seq<Byte>)
    ensures |r| == 4
  {
    [(x >> 24) as bv8, ((x >> 16) & 0xFF) as bv8, ((x >> 8) & 0xFF) as bv8, (x & 0xFF) as bv8]
  }

  function FromBigEndian(b0: Byte, b1: Byte, b2: Byte, b3: Byte): bv32 {
    ((b0 as bv32) << 24) | ((b1 as bv32) << 16) | ((b2 as bv32) << 8) | (b3 as bv32)
  }

  /** The 25-byte watermark image of a token. */
  function Encode(t: Token): (tail: seq<Byte>)
    ensures |tail| == WATERMARK_LENGTH
  {
    var head := MAGIC + [VERSION] + t;
    head + ToBigEndian(Crc32(head))
  }

  /** Strict decoding: every tail has exactly one status. */
  function Decode(tail: seq<Byte>): Decoded {
    if |tail| != WATERMARK_LENGTH then Absent
    else if tail[..4] != MAGIC then Absent
    else if tail[4] != VERSION then UnsupportedVersion(tail[4])
    else if FromBigEndian(tail[21], tail[22], tail[23], tail[24]) != Crc32(tail[..CRC_START]) then Malformed
    else Valid(tail[5..CRC_START])
  }

  lemma BigEndianInverts(x: bv32)
    ensures var b := ToBigEndian(x); FromBigEndian(b[0], b[1], b[2], b[3]) == x
  {}

  lemma BigEndianInjective(b0: Byte, b1: Byte, b2: Byte, b3: Byte)
    ensures ToBigEndian(FromBigEndian(b0, b1, b2, b3)) == [b0, b1, b2, b3]
  {}

  /** A tail yields a token exactly when it is that token's own image, so no
      damaged or foreign tail ever yields identity bytes. */
  lemma ValidIffEncoded(tail: seq<Byte>, t: Token)
    ensures Decode(tail) == Valid(t) <==> tail == Encode(t)
  {
    var head := MAGIC + [VERSION] + t;
    if tail == Encode(t) {
      assert tail[..CRC_START] == head;
      assert tail[..4] == MAGIC && tail[5..CRC_START] == t;
      BigEndianInverts(Crc32(head));
      var b := ToBigEndian(Crc32(head));
      assert tail[21] == b[0] && tail[22] == b[1] && tail[23] == b[2] && tail[24] == b[3];
    }
    if Decode(tail) == Valid(t) {
      assert tail[..CRC_START] == tail[..4] + [tail[4]] + tail[5..CRC_START] == head;
      BigEndianInjective(tail[21], tail[22], tail[23], tail[24]);
      assert tail == tail[..CRC_START] + [tail[21], tail[22], tail[23], tail[24]];
    }
  }

  /** The image byte by byte, and the byte order of the checksum. */
  lemma EncodedLayout(t: Token)
    ensures Encode(t)[..5] == [0x58, 0x33, 0x49, 0x44, 1] && Encode(t)[5..21] == t
    ensures Encode(t)[21..25] == ToBigEndian(Crc32([0x58, 0x33, 0x49, 0x44, 1] + t))
    ensures ToBigEndian(0xCBF4_3926) == [0xCB, 0xF4, 0x39, 0x26]
  {
    assert MAGIC + [VERSION] == [0x58, 0x33, 0x49, 0x44, 1];
  }

  /** Two tokens never share an image. */
  lemma EncodeInjective(t: Token, u: Token)
    requires Encode(t) == Encode(u)
    ensures t == u
  {
    ValidIffEncoded(Encode(t), t);
    ValidIffEncoded(Encode(t), u);
  }

  // ----- what the checksum catches ------------------------------------------------

  lemma {:induction false} IterateOneToOne<T(!new)>(f: T -> T, x: T, y: T, n: nat)
    requires forall u, v | f(u) == f(v) :: u == v
    requires Iterate(f, x, n) == Iterate(f, y, n)
    ensures x == y
    decreases n
  {
    if n > 0 { IterateOneToOne(f, f(x), f(y), n - 1); }
  }

  lemma {:induction false} FoldOneToOne<T(!new), B(!new)>(mix: (T, B) -> T, x: T, y: T, s: seq<B>)
    requires forall u, v, b | mix(u, b) == mix(v, b) :: u == v
    requires Fold(mix, x, s) == Fold(mix, y, s)
    ensures x == y
    decreases |s|
  {
    if s != [] { FoldOneToOne(mix, mix(x, s[0]), mix(y, s[0]), s[1..]); }
  }

  /** If mixing loses neither the state nor the byte, one changed byte always
      changes the outcome. */
  lemma {:induction false} FoldSeesOneByte<T(!new), B(!new)>(mix: (T, B) -> T, x: T, s: seq<B>, i: nat, b: B)
    requires forall u, v, c | mix(u, c) == mix(v, c) :: u == v
    requires forall u, c, d | mix(u, c) == mix(u, d) :: c == d
    requires i < |s| && b != s[i]
    ensures Fold(mix, x, s[i := b]) != Fold(mix, x, s)
    decreases |s|
  {
    var other := s[i := b];
    if i == 0 {
      assert other[1..] == s[1..];
      if Fold(mix, x, other) == Fold(mix, x, s) { FoldOneToOne(mix, mix(x, b), mix(x, s[0]), s[1..]); }
    } else {
      assert other[1..] == s[1..][i - 1 := b];
      FoldSeesOneByte(mix, mix(x, s[0]), s[1..], i - 1, b);
    }
  }

  lemma MixSteps(x: bv32, b: Byte, x0: bv32, x1: bv32, x2: bv32, x3: bv32, x4: bv32, x5: bv32, x6: bv32, x7: bv32,
      x8: bv32)
    requires Xor(x, b) == x0 && BitStep(x0) == x1 && BitStep(x1) == x2 && BitStep(x2) == x3 && BitStep(x3) == x4
    requires BitStep(x4) == x5 && BitStep(x5) == x6 && BitStep(x6) == x7 && BitStep(x7) == x8
    ensures Mix(x, b) == x8
  {
    assert Iterate(BitStep, x8, 0) == x8;
    assert Iterate(BitStep, x7, 1) == x8;
    assert Iterate(BitStep, x6, 2) == x8;
    assert Iterate(BitStep, x5, 3) == x8;
    assert Iterate(BitStep, x4, 4) == x8;
    assert Iterate(BitStep, x3, 5) == x8;
    assert Iterate(BitStep, x2, 6) == x8;
    assert Iterate(BitStep, x1, 7) == x8;
  }

  lemma FoldOne(x: bv32, b: Byte, rest: seq<Byte>, y: bv32)
    requires Mix(x, b) == y
    ensures Fold(Mix, x, [b] + rest) == Fold(Mix, y, rest)
  {
    assert ([b] + rest)[1..] == rest;
  }

  lemma CrcOf123(rest: seq<Byte>)
    ensures Fold(Mix, 0xFFFF_FFFF, [0x31, 0x32, 0x33] + rest) == Fold(Mix, 0x77B7_9C2D, rest)
  {
    MixSteps(0xFFFF_FFFF, 0x31, 0xFFFF_FFCE, 0x7FFF_FFE7, 0xD247_7CD3, 0x849B_3D49, 0xAFF5_1D84, 0x57FA_8EC2,
        0x2BFD_4761, 0xF846_2090, 0x7C23_1048);
    MixSteps(0x7C23_1048, 0x32, 0x7C23_107A, 0x3E11_883D, 0xF2B0_473E, 0x7958_239F, 0xD114_92EF, 0x8532_CA57,
        0xAF21_E60B, 0xBA28_7025, 0xB0AC_BB32);
    MixSteps(0xB0AC_BB32, 0x33, 0xB0AC_BB01, 0xB5EE_DEA0, 0x5AF7_6F50, 0x2D7B_B7A8, 0x16BD_DBD4, 0x0B5E_EDEA,
        0x05AF_76F5, 0xEF6F_385A, 0x77B7_9C2D);
    FoldOne(0xFFFF_FFFF, 0x31, [0x32, 0x33] + rest, 0x7C23_1048);
    FoldOne(0x7C23_1048, 0x32, [0x33] + rest, 0xB0AC_BB32);
    FoldOne(0xB0AC_BB32, 0x33, rest, 0x77B7_9C2D);
    assert [0x31] + ([0x32, 0x33] + rest) == [0x31, 0x32, 0x33] + rest;
    assert [0x32] + ([0x33] + rest) == [0x32, 0x33] + rest;
  }

  lemma CrcOf456(rest: seq<Byte>)
    ensures Fold(Mix, 0x77B7_9C2D, [0x34, 0x35, 0x36] + rest) == Fold(Mix, 0xF68D_2C9E, rest)
  {
    MixSteps(0x77B7_9C2D, 0x34, 0x77B7_9C19, 0xD663_4D2C, 0x6B31_A696, 0x3598_D34B, 0xF774_EA85, 0x9602_F662,
        0x4B01_7B31, 0xC838_3EB8, 0x641C_1F5C);
    MixSteps(0x641C_1F5C, 0x35, 0x641C_1F69, 0xDFB6_8C94, 0x6FDB_464A, 0x37ED_A325, 0xF64E_52B2, 0x7B27_2959,
        0xD02B_178C, 0x6815_8BC6, 0x340A_C5E3);
    MixSteps(0x340A_C5E3, 0x36, 0x340A_C5D5, 0xF7BD_E1CA, 0x7BDE_F0E5, 0xD057_FB52, 0x682B_FDA9, 0xD9AD_7DF4,
        0x6CD6_BEFA, 0x366B_5F7D, 0xF68D_2C9E);
    FoldOne(0x77B7_9C2D, 0x34, [0x35, 0x36] + rest, 0x641C_1F5C);
    FoldOne(0x641C_1F5C, 0x35, [0x36] + rest, 0x340A_C5E3);
    FoldOne(0x340A_C5E3, 0x36, rest, 0xF68D_2C9E);
    assert [0x34] + ([0x35, 0x36] + rest) == [0x34, 0x35, 0x36] + rest;
    assert [0x35] + ([0x36] + rest) == [0x35, 0x36] + rest;
  }

  lemma CrcOf789(rest: seq<Byte>)
    ensures Fold(Mix, 0xF68D_2C9E, [0x37, 0x38, 0x39] + rest) == Fold(Mix, 0x340B_C6D9, rest)
  {
    MixSteps(0xF68D_2C9E, 0x37, 0xF68D_2CA9, 0x96FE_1574, 0x4B7F_0ABA, 0x25BF_855D, 0xFF67_418E, 0x7FB3_A0C7,
        0xD261_5343, 0x8488_2A81, 0xAFFC_9660);
    MixSteps(0xAFFC_9660, 0x38, 0xAFFC_9658, 0x57FE_4B2C, 0x2BFF_2596, 0x15FF_92CB, 0xE747_4A45, 0x9E1B_2602,
        0x4F0D_9301, 0xCA3E_4AA0, 0x651F_2550);
    MixSteps(0x651F_2550, 0x39, 0x651F_2569, 0xDF37_1194, 0x6F9B_88CA, 0x37CD_C465, 0xF65E_6112, 0x7B2F_3089,
        0xD02F_1B64, 0x6817_8DB2, 0x340B_C6D9);
    FoldOne(0xF68D_2C9E, 0x37, [0x38, 0x39] + rest, 0xAFFC_9660);
    FoldOne(0xAFFC_9660, 0x38, [0x39] + rest, 0x651F_2550);
    FoldOne(0x651F_2550, 0x39, rest, 0x340B_C6D9);
    assert [0x37] + ([0x38, 0x39] + rest) == [0x37, 0x38, 0x39] + rest;
    assert [0x38] + ([0x39] + rest) == [0x38, 0x39] + rest;
  }

  /** The published check value of CRC-32, over the digits 1 to 9. */
  lemma CrcCheckValue()
    ensures Crc32([0x31, 0x32, 0x33, 0x34, 0x35, 0x36, 0x37, 0x38, 0x39]) == 0xCBF4_3926
  {
    CrcOf123([0x34, 0x35, 0x36, 0x37, 0x38, 0x39]);
    CrcOf456([0x37, 0x38, 0x39]);
    CrcOf789([]);
    assert [0x31, 0x32, 0x33] + [0x34, 0x35, 0x36, 0x37, 0x38, 0x39] ==
        [0x31, 0x32, 0x33, 0x34, 0x35, 0x36, 0x37, 0x38, 0x39];
    assert [0x34, 0x35, 0x36] + [0x37, 0x38, 0x39] == [0x34, 0x35, 0x36, 0x37, 0x38, 0x39];
    assert [0x37, 0x38, 0x39] + [] == [0x37, 0x38, 0x39];
  }

  lemma BitStepOneToOne(x: bv32, y: bv32)
    requires BitStep(x) == BitStep(y)
    ensures x == y
  {}

  lemma XorKeepsDifferent(x: bv32, y: bv32, z: bv32)
    requires x != y
    ensures x ^ z != y ^ z
  {}

  lemma XorSeesState(x: bv32, y: bv32, b: Byte)
    requires Xor(x, b) == Xor(y, b)
    ensures x == y
  {}

  lemma XorSeesByte(x: bv32, a: Byte, b: Byte)
    requires Xor(x, a) == Xor(x, b)
    ensures a == b
  {}

  /** Undoing the eight steps of a mix. */
  lemma MixUndone(u: bv32, v: bv32)
    requires Iterate(BitStep, u, 8) == Iterate(BitStep, v, 8)
    ensures u == v
  {
    forall x, y | BitStep(x) == BitStep(y) ensures x == y { BitStepOneToOne(x, y); }
    IterateOneToOne(BitStep, u, v, 8);
  }

  lemma MixOneToOne(x: bv32, y: bv32, b: Byte)
    requires Mix(x, b) == Mix(y, b)
    ensures x == y
  {
    MixUndone(Xor(x, b), Xor(y, b));
    XorSeesState(x, y, b);
  }

  lemma MixSeesByte(x: bv32, a: Byte, b: Byte)
    requires Mix(x, a) == Mix(x, b)
    ensures a == b
  {
    MixUndone(Xor(x, a), Xor(x, b));
    XorSeesByte(x, a, b);
  }

  lemma CrcSeesOneByte(bytes: seq<Byte>, i: nat, b: Byte)
    requires i < |bytes| && b != bytes[i]
    ensures Crc32(bytes[i := b]) != Crc32(bytes)
  {
    forall x, y, c | Mix(x, c) == Mix(y, c) ensures x == y { MixOneToOne(x, y, c); }
    forall x, c, d | Mix(x, c) == Mix(x, d) ensures c == d { MixSeesByte(x, c, d); }
    FoldSeesOneByte(Mix, 0xFFFF_FFFF, bytes, i, b);
    XorKeepsDifferent(Fold(Mix, 0xFFFF_FFFF, bytes[i := b]), Fold(Mix, 0xFFFF_FFFF, bytes), 0xFFFF_FFFF);
  }

  /** A watermark with any one byte damaged is never an identity, not even
      another one: damage to the magic hides it, damage to the version makes it
      a marker from the future, anything else makes it malformed. */
  lemma DamagedByteIsNoIdentity(t: Token, i: nat, b: Byte)
    requires i < WATERMARK_LENGTH && b != Encode(t)[i]
    ensures Decode(Encode(t)[i := b]) == if i < 4 then Absent else if i == 4 then UnsupportedVersion(b) else Malformed
  {
    var tail := Encode(t)[i := b];
    ByteInMagic(t, i, b);
    if Decode(tail).Valid? {
      var u := Decode(tail).token;
      ValidIffEncoded(tail, u);
      var head, other := MAGIC + [VERSION] + t, MAGIC + [VERSION] + u;
      assert Encode(t)[..CRC_START] == head && tail[..CRC_START] == other;
      if i < CRC_START {
        assert other == head[i := b];
        CrcSeesOneByte(head, i, b);
        SameCrcTail(Encode(t), tail, Crc32(head), Crc32(other));
      } else {
        assert false;
      }
    }
  }

  lemma ByteInMagic(t: Token, i: nat, b: Byte)
    requires i < WATERMARK_LENGTH && b != Encode(t)[i]
    ensures var tail := Encode(t)[i := b]; (tail[..4] == MAGIC <==> i >= 4) && (tail[4] == VERSION <==> i != 4)
  {
    var tail := Encode(t)[i := b];
    assert Encode(t)[..4] == MAGIC && Encode(t)[4] == VERSION;
    if i < 4 { assert tail[..4][i] == b; } else { assert tail[..4] == MAGIC; }
  }

  lemma SameCrcTail(a: seq<Byte>, b: seq<Byte>, x: bv32, y: bv32)
    requires |a| == |b| == WATERMARK_LENGTH && a[CRC_START..] == b[CRC_START..]
    requires a[CRC_START..] == ToBigEndian(x) && b[CRC_START..] == ToBigEndian(y)
    ensures x == y
  {
    BigEndianInverts(x);
    BigEndianInverts(y);
  }

  /** A tail seen through its status, raw bytes kept wherever no token is
      present.  The rest of the model works on tails in this form. */
  datatype Tail =
    | Unmarked(raw: seq<Byte>)
    | Damaged(raw: seq<Byte>)
    | Future(version: Byte, raw: seq<Byte>)
    | Marked(token: Token)

  function View(tail: seq<Byte>): Tail {
    match Decode(tail)
    case Absent => Unmarked(tail)
    case Malformed => Damaged(tail)
    case UnsupportedVersion(v) => Future(v, tail)
    case Valid(t) => Marked(t)
  }

  /** What strict decoding makes of a tail in that form. */
  function Status(tail: Tail): Decoded {
    match tail
    case Unmarked(_) => Absent
    case Damaged(_) => Malformed
    case Future(v, _) => UnsupportedVersion(v)
    case Marked(t) => Valid(t)
  }

  /** The view loses nothing: it agrees with decoding, separates any two
      different tails, and shows a token exactly for that token's image. */
  lemma ViewFaithful(a: seq<Byte>, b: seq<Byte>, t: Token)
    ensures Status(View(a)) == Decode(a)
    ensures View(a) == View(b) <==> a == b
    ensures View(a) == Marked(t) <==> a == Encode(t)
  {
    ValidIffEncoded(a, t);
    if Decode(a).Valid? {
      ValidIffEncoded(a, Decode(a).token);
      ValidIffEncoded(b, Decode(a).token);
    }
  }
}
