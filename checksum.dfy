/**
 * The ICMP checksum of scan_network.py (`icmp_checksum`) and the Internet
 * checksum of RFC 1071 it is meant to compute.
 *
 * `icmp_checksum` adds the bytes with every odd-index byte shifted left by 8
 * (so it sums little-endian 16-bit words), masks the sum to 32 bits, folds the
 * carries twice, complements, and packs the result little-endian. Section 2(B)
 * of RFC 1071 (byte-order independence) is why that gives the same two bytes
 * as summing big-endian words and packing big-endian; ChecksumIsRfc1071
 * proves it for every input short enough that the 32-bit mask drops nothing.
 */
module Checksum {

  type Byte = b: int | 0 <= b < 0x100
  type Word16 = w: int | 0 <= w < 0x1_0000

  /** Longest input for which the little-endian word sum stays below 2^32. */
  const MaxUnmasked: nat := 131074

  /** What byte `b` at index `i` adds to the sum: odd indices count as high bytes. */
  function Weighted(i: nat, b: Byte): nat
  {
    if i % 2 == 1 then b * 0x100 else b
  }

  /** The generator sum of icmp_checksum, over the bytes from index `i` on. */
  function EnumeratedSum(data: seq<Byte>, i: nat): nat
    decreases |data| - i
  {
    if i >= |data| then 0 else Weighted(i, data[i]) + EnumeratedSum(data, i + 1)
  }

  /** One fold: the high 16 bits added back into the low 16 bits. */
  function Fold(x: nat): nat
  {
    x / 0x1_0000 + x % 0x1_0000
  }

  /** `struct.pack('<H', w)`: low byte first. */
  function LittleEndian16(w: Word16): seq<Byte>
  {
    [w % 0x100, w / 0x100]
  }

  /** `x & 0xFFFFFFFF` for x >= 0. */
  function Mask32(x: nat): nat
  {
    x % 0x1_0000_0000
  }

  /** `~y & 0xFFFF` for y >= 0: Python's ~y is -y-1. */
  function Complement16(y: nat): Word16
  {
    0xFFFF - y % 0x1_0000
  }

  /** The 16-bit value icmp_checksum packs: the complement of the twice-folded masked sum. */
  function ChecksumValue(data: seq<Byte>): Word16
  {
    Complement16(Fold(Fold(Mask32(EnumeratedSum(data, 0)))))
  }

  /** icmp_checksum: ChecksumValue packed little-endian. */
  function IcmpChecksum(data: seq<Byte>): (r: seq<Byte>)
    ensures |r| == 2
  {
    LittleEndian16(ChecksumValue(data))
  }

  // ---------------------------------------------------------------------------
  // The reference: RFC 1071 over network-order words
  // ---------------------------------------------------------------------------

  /** The data as big-endian 16-bit words; an odd trailing byte is padded with zero. */
  function NetworkWords(data: seq<Byte>): seq<Word16>
  {
    if |data| == 0 then []
    else if |data| == 1 then [data[0] as int * 0x100]
    else [data[0] as int * 0x100 + data[1] as int] + NetworkWords(data[2..])
  }

  /** One's-complement addition: the carry out of bit 15 is added back in. */
  function OnesAdd(a: Word16, b: Word16): Word16
  {
    if a + b > 0xFFFF then a + b - 0xFFFF else a + b
  }

  function OnesSum(ws: seq<Word16>): Word16
  {
    if |ws| == 0 then 0 else OnesAdd(ws[0], OnesSum(ws[1..]))
  }

  /** RFC 1071 section 1: the one's complement of the one's-complement sum of the words. */
  function InternetChecksum(data: seq<Byte>): Word16
  {
    0xFFFF - OnesSum(NetworkWords(data))
  }

  // ---------------------------------------------------------------------------
  // Proof vocabulary
  // ---------------------------------------------------------------------------

  /** Sum of the little-endian 16-bit words of `data`. */
  ghost function LittleSum(data: seq<Byte>): nat
  {
    if |data| == 0 then 0
    else if |data| == 1 then data[0]
    else data[0] as int + data[1] as int * 0x100 + LittleSum(data[2..])
  }

  /** Plain integer sum of words. */
  ghost function WordSum(ws: seq<Word16>): nat
  {
    if |ws| == 0 then 0 else ws[0] + WordSum(ws[1..])
  }

  /** Sum of the bytes at even indices. */
  ghost function EvenBytes(data: seq<Byte>): nat
  {
    if |data| == 0 then 0
    else if |data| == 1 then data[0]
    else data[0] + EvenBytes(data[2..])
  }

  /** How many end-around carries OnesSum performs. */
  ghost function Carries(ws: seq<Word16>): nat
  {
    if |ws| == 0 then 0
    else (if ws[0] + OnesSum(ws[1..]) > 0xFFFF then 1 else 0) + Carries(ws[1..])
  }

  lemma {:induction false} EnumeratedIsLittle(data: seq<Byte>, i: nat)
    requires i % 2 == 0 && i <= |data|
    ensures EnumeratedSum(data, i) == LittleSum(data[i..])
    decreases |data| - i
  {
    if i == |data| {
      assert data[i..] == [];
    } else if i + 1 == |data| {
      assert data[i..] == [data[i]];
    } else {
      assert (i + 1) % 2 == 1;
      EnumeratedIsLittle(data, i + 2);
      assert data[i..][2..] == data[i + 2..];
    }
  }

  lemma {:induction false} LittleBound(data: seq<Byte>)
    ensures LittleSum(data) <= 0xFFFF * ((|data| + 1) / 2)
  {
    if |data| >= 2 {
      LittleBound(data[2..]);
    }
  }

  /** 256 * (big-endian sum) and the little-endian sum differ by a multiple of 0xFFFF. */
  lemma {:induction false} SwapIdentity(data: seq<Byte>)
    ensures 0x100 * WordSum(NetworkWords(data)) == LittleSum(data) + 0xFFFF * EvenBytes(data)
  {
    if |data| >= 2 {
      SwapIdentity(data[2..]);
    }
  }

  lemma {:induction false} ZeroSums(data: seq<Byte>)
    ensures LittleSum(data) == 0 <==> WordSum(NetworkWords(data)) == 0
  {
    if |data| >= 2 {
      ZeroSums(data[2..]);
    }
  }

  lemma {:induction false} OnesSumCongruent(ws: seq<Word16>)
    ensures WordSum(ws) == OnesSum(ws) + 0xFFFF * Carries(ws)
    ensures OnesSum(ws) == 0 <==> WordSum(ws) == 0
  {
    if |ws| > 0 {
      OnesSumCongruent(ws[1..]);
    }
  }

  /** A fold loses only a multiple of 0xFFFF and keeps zero-ness. */
  lemma FoldOnce(x: nat)
    ensures x == Fold(x) + 0xFFFF * (x / 0x1_0000)
    ensures Fold(x) == 0 <==> x == 0
  {
  }

  /** Two folds of a 32-bit value fit in 16 bits. */
  lemma FoldTwiceFits(x: nat)
    requires x < 0x1_0000_0000
    ensures Fold(Fold(x)) <= 0xFFFF
  {
    var y := Fold(x);
    assert y <= 0xFFFF + 0xFFFF;
    if y >= 0x1_0000 {
      assert y / 0x1_0000 == 1 && y % 0x1_0000 == y - 0x1_0000;
    } else {
      assert y / 0x1_0000 == 0 && y % 0x1_0000 == y;
    }
  }

  /** Two folds of a 32-bit value fit in 16 bits, lose only multiples of 0xFFFF, and keep zero-ness. */
  lemma FoldTwice(x: nat)
    requires x < 0x1_0000_0000
    ensures Fold(Fold(x)) <= 0xFFFF
    ensures x == Fold(Fold(x)) + 0xFFFF * (x / 0x1_0000 + Fold(x) / 0x1_0000)
    ensures Fold(Fold(x)) == 0 <==> x == 0
  {
    FoldTwiceFits(x);
    FoldOnce(x);
    FoldOnce(Fold(x));
  }

  /** For inputs of at most MaxUnmasked bytes the mask is the identity. */
  lemma Unmasked(data: seq<Byte>)
    requires |data| <= MaxUnmasked
    ensures LittleSum(data) < 0x1_0000_0000
    ensures Mask32(EnumeratedSum(data, 0)) == LittleSum(data)
  {
    EnumeratedIsLittle(data, 0);
    assert data[0..] == data;
    LittleBound(data);
  }

  lemma SplitWord(h: int, l: int)
    requires 0 <= h < 0x100 && 0 <= l < 0x100
    ensures (0x100 * h + l) / 0x100 == h && (0x100 * h + l) % 0x100 == l
  {
  }

  /** For short inputs icmp_checksum is the complement of the two folds of the little-endian sum. */
  lemma ChecksumWord(data: seq<Byte>)
    requires |data| <= MaxUnmasked
    ensures Fold(Fold(LittleSum(data))) <= 0xFFFF
    ensures ChecksumValue(data) == 0xFFFF - Fold(Fold(LittleSum(data)))
  {
    Unmasked(data);
    FoldTwiceFits(LittleSum(data));
    SmallComplement(Fold(Fold(LittleSum(data))));
  }

  lemma SmallComplement(y: nat)
    requires y <= 0xFFFF
    ensures Complement16(y) == 0xFFFF - y
  {
  }

  /** A byte-swapped word is congruent to 256 times the word, modulo 0xFFFF. */
  lemma ByteSwapOfFold(F: int, O: int, t: int)
    requires 0 <= F <= 0xFFFF && 0 <= O <= 0xFFFF
    requires 0x100 * O - F == 0xFFFF * t
    requires F == 0 <==> O == 0
    ensures F == 0x100 * (O % 0x100) + O / 0x100
  {
    var a, b := O % 0x100, O / 0x100;
    var S := 0x100 * a + b;
    assert O == 0x100 * b + a;
    assert S - F == 0xFFFF * (t - b);
    assert S == 0 <==> O == 0;
  }

  /** Complementing a byte-swapped word swaps the bytes of the complement. */
  lemma ComplementSwap(a: int, b: int)
    requires 0 <= a < 0x100 && 0 <= b < 0x100
    ensures var c := 0xFFFF - (0x100 * a + b);
            var R := 0xFFFF - (0x100 * b + a);
            c % 0x100 == R / 0x100 && c / 0x100 == R % 0x100
  {
    SplitWord(0xFF - a, 0xFF - b);
    SplitWord(0xFF - b, 0xFF - a);
  }

  // ---------------------------------------------------------------------------
  // Properties of icmp_checksum
  // ---------------------------------------------------------------------------

  /** After the two folds the value already fits in 16 bits: `& 0xFFFF` drops nothing. */
  lemma FoldedFitsSixteenBits(data: seq<Byte>)
    ensures var y := Fold(Fold(Mask32(EnumeratedSum(data, 0))));
            y <= 0xFFFF && y % 0x1_0000 == y
  {
    FoldTwiceFits(Mask32(EnumeratedSum(data, 0)));
  }

  /**
   * RFC 1071 agreement: the two bytes icmp_checksum returns are the Internet
   * checksum of the data in network byte order.
   */
  lemma ChecksumIsRfc1071(data: seq<Byte>)
    requires |data| <= MaxUnmasked
    ensures IcmpChecksum(data) == [InternetChecksum(data) / 0x100, InternetChecksum(data) % 0x100]
  {
    var L := LittleSum(data);
    ChecksumWord(data);
    Unmasked(data);
    FoldTwice(L);
    var F := Fold(Fold(L));
    var ws := NetworkWords(data);
    var O: int := OnesSum(ws);
    OnesSumCongruent(ws);
    SwapIdentity(data);
    ZeroSums(data);
    var t := L / 0x1_0000 + Fold(L) / 0x1_0000 + EvenBytes(data) - 0x100 * Carries(ws);
    assert 0x100 * O - F == 0xFFFF * t;
    ByteSwapOfFold(F, O, t);
    ComplementSwap(O % 0x100, O / 0x100);
  }

  /** Reading the two packed bytes back little-endian gives the word. */
  lemma LittleEndianValue(w: Word16)
    ensures LittleEndian16(w)[0] as int + LittleEndian16(w)[1] as int * 0x100 == w
  {
  }

  /** Little-endian sum of a message whose first two words are given. */
  lemma LittleSumOfHeader(a: seq<Byte>, b: seq<Byte>, rest: seq<Byte>)
    requires |a| == 2 && |b| == 2
    ensures LittleSum(a + b + rest) == a[0] as int + a[1] as int * 0x100 + b[0] as int + b[1] as int * 0x100 + LittleSum(rest)
  {
    var m := a + b + rest;
    assert m[2..] == b + rest;
    assert (b + rest)[2..] == rest;
  }

  /** Writing a checksum into bytes 2-3 adds its value to the little-endian sum. */
  lemma CompletedMessageSum(head: seq<Byte>, rest: seq<Byte>, w: Word16)
    requires |head| == 2
    ensures LittleSum(head + LittleEndian16(w) + rest) == LittleSum(head + [0, 0] + rest) + w
  {
    LittleSumOfHeader(head, LittleEndian16(w), rest);
    LittleEndianValue(w);
    LittleSumOfHeader(head, [0, 0], rest);
  }

  /** The arithmetic of the verification property: a sum that is a positive multiple of 0xFFFF folds to 0xFFFF. */
  lemma CompletedSumFolds(L0: int, F0: int, q0: int, L1: int, F1: int, q1: int)
    requires L0 == F0 + 0xFFFF * q0 && 0 <= F0 <= 0xFFFF && L0 >= 0
    requires F0 == 0 <==> L0 == 0
    requires L1 == L0 + 0xFFFF - F0
    requires L1 == F1 + 0xFFFF * q1 && 0 <= F1 <= 0xFFFF
    requires F1 == 0 <==> L1 == 0
    ensures F1 == 0xFFFF
  {
    assert q0 >= 0;
    assert L1 == 0xFFFF * (1 + q0);
    assert F1 == 0xFFFF * (1 + q0 - q1);
  }

  /** Two folds of a 32-bit value, with the multiple of 0xFFFF they drop as a witness. */
  lemma FoldTwiceWitness(x: nat) returns (q: int)
    requires x < 0x1_0000_0000
    ensures Fold(Fold(x)) <= 0xFFFF
    ensures x == Fold(Fold(x)) + 0xFFFF * q
    ensures Fold(Fold(x)) == 0 <==> x == 0
  {
    FoldTwice(x);
    q := x / 0x1_0000 + Fold(x) / 0x1_0000;
  }

  /**
   * RFC 1071 section 1, verification: once the checksum computed with a zero
   * checksum field is written into bytes 2-3, re-running the checksum over the
   * whole message gives zero.
   */
  lemma ChecksumOfCompletedMessage(head: seq<Byte>, rest: seq<Byte>)
    requires |head| == 2 && |rest| <= MaxUnmasked - 4
    ensures IcmpChecksum(head + IcmpChecksum(head + [0, 0] + rest) + rest) == [0, 0]
  {
    var m0 := head + [0, 0] + rest;
    var w0 := ChecksumValue(m0);
    var m1 := head + LittleEndian16(w0) + rest;
    CompletedMessageSum(head, rest, w0);
    var L0, L1 := LittleSum(m0), LittleSum(m1);
    ChecksumWord(m0);
    ChecksumWord(m1);
    Unmasked(m0);
    Unmasked(m1);
    var q0 := FoldTwiceWitness(L0);
    var q1 := FoldTwiceWitness(L1);
    CompletedSumFolds(L0, Fold(Fold(L0)), q0, L1, Fold(Fold(L1)), q1);
    assert LittleEndian16(0) == [0, 0];
  }
}
