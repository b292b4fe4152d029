/**
 * Modbus data packing used by the field PLC (plc/plc.go):
 * packed bits (Read Discrete Inputs, Write Multiple Coils) put bit i in byte i / 8
 * under mask 1 << (i % 8), least-significant bit first; holding registers are
 * big-endian 16-bit words (Modbus Application Protocol Specification V1.1b3,
 * sections 6.2, 6.3 and 6.11).
 */
module Codec {

  /** The mask selecting bit i inside its byte. */
  function BitMask(i: nat): (mask: bv8)
    ensures mask != 0
  {
    1 << ((i % 8) as bv8)
  }

  /** Bit i of a packed field, i.e. `bytes[i / 8] & (1 << (i % 8)) != 0`. */
  function UnpackBits(bytes: seq<bv8>, size: nat): (bools: seq<bool>)
    requires size <= 8 * |bytes|
    ensures |bools| == size
  {
    seq(size, i requires 0 <= i < size => bytes[i / 8] & BitMask(i) != 0)
  }

  /** The contribution of bit i to its byte: 1 when it is present and set. */
  function BitValue(bools: seq<bool>, i: int): (b: bv8)
    ensures b == 0 || b == 1
  {
    if 0 <= i < |bools| && bools[i] then 1 else 0
  }

  /** Byte j of the packed form: bits 8j .. 8j+7, missing bits zero. */
  function PackByte(bools: seq<bool>, j: int): bv8 {
    BitValue(bools, 8 * j)
    | (BitValue(bools, 8 * j + 1) << 1)
    | (BitValue(bools, 8 * j + 2) << 2)
    | (BitValue(bools, 8 * j + 3) << 3)
    | (BitValue(bools, 8 * j + 4) << 4)
    | (BitValue(bools, 8 * j + 5) << 5)
    | (BitValue(bools, 8 * j + 6) << 6)
    | (BitValue(bools, 8 * j + 7) << 7)
  }

  /** Packed form of a bool sequence: (n + 7) / 8 bytes. */
  function PackBits(bools: seq<bool>): (bytes: seq<bv8>)
    ensures |bytes| == (|bools| + 7) / 8
  {
    seq((|bools| + 7) / 8, j requires 0 <= j < (|bools| + 7) / 8 => PackByte(bools, j))
  }

  /** One big-endian word: the high byte shifted left by eight plus the low byte. */
  function Word(hi: bv8, lo: bv8): bv16 {
    ((hi as bv16) << 8) + (lo as bv16)
  }

  /** Word i is made of bytes 2i (high) and 2i+1 (low). */
  function DecodeWords(bytes: seq<bv8>, size: nat): (words: seq<bv16>)
    requires 2 * size <= |bytes|
    ensures |words| == size
  {
    seq(size, i requires 0 <= i < size => Word(bytes[2 * i], bytes[2 * i + 1]))
  }

  /** The high (first transmitted) byte of a word. */
  function HighByte(w: bv16): bv8 {
    (w >> 8) as bv8
  }

  /** The low (second transmitted) byte of a word. */
  function LowByte(w: bv16): bv8 {
    (w & 0xFF) as bv8
  }

  /** The big-endian encoding of words, the inverse of DecodeWords. */
  function EncodeWords(words: seq<bv16>): (bytes: seq<bv8>)
    ensures |bytes| == 2 * |words|
  {
    seq(2 * |words|, k requires 0 <= k < 2 * |words| =>
      if k % 2 == 0 then HighByte(words[k / 2]) else LowByte(words[k / 2]))
  }

  // ---------------------------------------------------------------------------
  // Properties of the packing

  /** Reading bit k of a packed byte gives back the bool that was packed there. */
  lemma PackByteBit(bools: seq<bool>, j: int, k: nat)
    requires k < 8
    ensures (PackByte(bools, j) & BitMask(k) != 0) == (0 <= 8 * j + k < |bools| && bools[8 * j + k])
  {
    var b0, b1, b2, b3 := BitValue(bools, 8 * j), BitValue(bools, 8 * j + 1), BitValue(bools, 8 * j + 2), BitValue(bools, 8 * j + 3);
    var b4, b5, b6, b7 := BitValue(bools, 8 * j + 4), BitValue(bools, 8 * j + 5), BitValue(bools, 8 * j + 6), BitValue(bools, 8 * j + 7);
    var x := b0 | (b1 << 1) | (b2 << 2) | (b3 << 3) | (b4 << 4) | (b5 << 5) | (b6 << 6) | (b7 << 7);
    assert PackByte(bools, j) == x;
    if k == 0 { assert x & 1 != 0 <==> b0 == 1; }
    else if k == 1 { assert x & 2 != 0 <==> b1 == 1; }
    else if k == 2 { assert x & 4 != 0 <==> b2 == 1; }
    else if k == 3 { assert x & 8 != 0 <==> b3 == 1; }
    else if k == 4 { assert x & 16 != 0 <==> b4 == 1; }
    else if k == 5 { assert x & 32 != 0 <==> b5 == 1; }
    else if k == 6 { assert x & 64 != 0 <==> b6 == 1; }
    else { assert x & 128 != 0 <==> b7 == 1; }
  }

  /** Packing then unpacking the same number of bits is the identity, for every length. */
  lemma PackUnpackRoundTrip(bools: seq<bool>)
    ensures 8 * |PackBits(bools)| >= |bools|
    ensures UnpackBits(PackBits(bools), |bools|) == bools
  {
    var bytes := PackBits(bools);
    forall i | 0 <= i < |bools|
      ensures UnpackBits(bytes, |bools|)[i] == bools[i]
    {
      PackByteBit(bools, i / 8, i % 8);
    }
  }

  /** The padding bits of the last byte are zero. */
  lemma PackBitsPadding(bools: seq<bool>, i: nat)
    requires |bools| <= i < 8 * |PackBits(bools)|
    ensures PackBits(bools)[i / 8] & BitMask(i) == 0
  {
    PackByteBit(bools, i / 8, i % 8);
  }

  /** A byte whose eight bits agree with the bools at 8j .. 8j+7 (absent ones clear) is their packing. */
  lemma BitsDetermineByte(x: bv8, bools: seq<bool>, j: int)
    requires forall k: nat :: k < 8 ==> (x & BitMask(k) != 0) == (0 <= 8 * j + k < |bools| && bools[8 * j + k])
    ensures PackByte(bools, j) == x
  {
    assert BitMask(0) == 1 && BitMask(1) == 2 && BitMask(2) == 4 && BitMask(3) == 8;
    assert BitMask(4) == 16 && BitMask(5) == 32 && BitMask(6) == 64 && BitMask(7) == 128;
    var b0, b1, b2, b3 := BitValue(bools, 8 * j), BitValue(bools, 8 * j + 1), BitValue(bools, 8 * j + 2), BitValue(bools, 8 * j + 3);
    var b4, b5, b6, b7 := BitValue(bools, 8 * j + 4), BitValue(bools, 8 * j + 5), BitValue(bools, 8 * j + 6), BitValue(bools, 8 * j + 7);
    assert b0 == (if x & 1 != 0 then 1 else 0) && b1 == (if x & 2 != 0 then 1 else 0);
    assert b2 == (if x & 4 != 0 then 1 else 0) && b3 == (if x & 8 != 0 then 1 else 0);
    assert b4 == (if x & 16 != 0 then 1 else 0) && b5 == (if x & 32 != 0 then 1 else 0);
    assert b6 == (if x & 64 != 0 then 1 else 0) && b7 == (if x & 128 != 0 then 1 else 0);
  }

  /** Unpacking whole bytes and packing again gives back the bytes. */
  lemma UnpackPackRoundTrip(bytes: seq<bv8>)
    ensures PackBits(UnpackBits(bytes, 8 * |bytes|)) == bytes
  {
    var bools := UnpackBits(bytes, 8 * |bytes|);
    forall j | 0 <= j < |bytes|
      ensures PackBits(bools)[j] == bytes[j]
    {
      forall k: nat | k < 8 ensures (bytes[j] & BitMask(k) != 0) == (0 <= 8 * j + k < |bools| && bools[8 * j + k]) {
        assert (8 * j + k) / 8 == j && (8 * j + k) % 8 == k;
      }
      BitsDetermineByte(bytes[j], bools, j);
    }
  }

  /** A 16-bit value is 256 times its high byte plus its low byte. */
  lemma WordSplit(w: bv16)
    ensures w as int == 256 * ((w >> 8) as int) + (w & 0xFF) as int
  {
  }

  /** Widening a byte to 16 bits keeps its value. */
  lemma WidenByte(b: bv8)
    ensures (b as bv16) as int == b as int
  {
  }

  /** A word's value is its high byte times 256 plus its low byte. */
  lemma WordValue(hi: bv8, lo: bv8)
    ensures Word(hi, lo) as int == 256 * (hi as int) + lo as int
  {
    var w := Word(hi, lo);
    assert w >> 8 == hi as bv16 && w & 0xFF == lo as bv16;
    WordSplit(w);
    WidenByte(hi);
    WidenByte(lo);
  }

  /** Bytes [0x12, 0x34] decode to the single word 0x1234. */
  lemma DecodeWordsExample()
    ensures DecodeWords([0x12, 0x34], 1) == [0x1234]
  {
  }

  /** Encoding words and decoding them again is the identity. */
  lemma EncodeDecodeRoundTrip(words: seq<bv16>)
    ensures DecodeWords(EncodeWords(words), |words|) == words
  {
    var bytes := EncodeWords(words);
    forall i | 0 <= i < |words|
      ensures DecodeWords(bytes, |words|)[i] == words[i]
    {
      assert (2 * i) / 2 == i && (2 * i + 1) / 2 == i && (2 * i) % 2 == 0 && (2 * i + 1) % 2 == 1;
      var w := words[i];
      assert Word(HighByte(w), LowByte(w)) == w;
    }
  }

  /** Decoding an even number of bytes and encoding again gives back the bytes. */
  lemma DecodeEncodeRoundTrip(bytes: seq<bv8>)
    requires |bytes| % 2 == 0
    ensures EncodeWords(DecodeWords(bytes, |bytes| / 2)) == bytes
  {
    var words := DecodeWords(bytes, |bytes| / 2);
    forall k | 0 <= k < |bytes|
      ensures EncodeWords(words)[k] == bytes[k]
    {
      var i := k / 2;
      var hi, lo := bytes[2 * i], bytes[2 * i + 1];
      assert HighByte(Word(hi, lo)) == hi;
      assert LowByte(Word(hi, lo)) == lo;
    }
  }

  // ---------------------------------------------------------------------------
  // The source's loops (byteToBool, byteToUint, boolToByte)

  /** byteToBool: fills a fresh slice of `size` bools from packed bytes. */
  method ByteToBool(bytes: seq<bv8>, size: nat) returns (bools: seq<bool>)
    requires size <= 8 * |bytes|
    ensures bools == UnpackBits(bytes, size)
  {
    var out := new bool[size];
    var i := 0;
    while i < size
      invariant 0 <= i <= size
      invariant forall k :: 0 <= k < i ==> out[k] == (bytes[k / 8] & BitMask(k) != 0)
    {
      var byteIndex := i / 8;
      var bitMask: bv8 := 1 << ((i % 8) as bv8);
      out[i] := bytes[byteIndex] & bitMask != 0;
      i := i + 1;
    }
    bools := out[..];
  }

  /** byteToUint: fills a fresh slice of `size` big-endian words. */
  method ByteToUint(bytes: seq<bv8>, size: nat) returns (words: seq<bv16>)
    requires 2 * size <= |bytes|
    ensures words == DecodeWords(bytes, size)
  {
    var out := new bv16[size];
    var i := 0;
    while i < size
      invariant 0 <= i <= size
      invariant forall k :: 0 <= k < i ==> out[k] == Word(bytes[2 * k], bytes[2 * k + 1])
    {
      out[i] := ((bytes[2 * i] as bv16) << 8) + (bytes[2 * i + 1] as bv16);
      i := i + 1;
    }
    words := out[..];
  }

  /** Setting the mask of bit m changes bit m % 8 of a byte and no other bit. */
  lemma SetBitMask(x: bv8, m: nat, k: nat)
    ensures ((x | BitMask(m)) & BitMask(k) != 0) == ((x & BitMask(k) != 0) || k % 8 == m % 8)
  {
  }

  /** Bit k of byte j of `bytes` is bool 8j+k for the first n bools, and clear beyond them. */
  ghost predicate HoldsPrefix(bytes: seq<bv8>, bools: seq<bool>, n: int) {
    && 0 <= n <= |bools|
    && forall j, k: nat :: 0 <= j < |bytes| && k < 8 ==>
      (bytes[j] & BitMask(k) != 0) == (8 * j + k < n && bools[8 * j + k])
  }

  /** One step of boolToByte: OR-ing in the mask of bool i when it is set extends the prefix by one. */
  lemma HoldsPrefixStep(bytes: seq<bv8>, bools: seq<bool>, i: nat)
    requires i < |bools| && i / 8 < |bytes| && HoldsPrefix(bytes, bools, i)
    ensures HoldsPrefix(if bools[i] then bytes[i / 8 := bytes[i / 8] | BitMask(i)] else bytes, bools, i + 1)
  {
    var after := if bools[i] then bytes[i / 8 := bytes[i / 8] | BitMask(i)] else bytes;
    forall j, k: nat | 0 <= j < |after| && k < 8
      ensures (after[j] & BitMask(k) != 0) == (8 * j + k < i + 1 && bools[8 * j + k])
    {
      var here := j == i / 8 && k == i % 8;
      assert here <==> 8 * j + k == i;
      if bools[i] && j == i / 8 {
        SetBitMask(bytes[j], i, k);
      }
    }
  }

  /** boolToByte: ORs each set bool's mask into a fresh zeroed byte slice. */
  method BoolToByte(bools: seq<bool>) returns (bytes: seq<bv8>)
    ensures bytes == PackBits(bools)
  {
    var out := new bv8[(|bools| + 7) / 8](_ => 0);
    var i := 0;
    while i < |bools|
      invariant 0 <= i <= |bools|
      invariant HoldsPrefix(out[..], bools, i)
    {
      HoldsPrefixStep(out[..], bools, i);
      if bools[i] {
        out[i / 8] := out[i / 8] | (1 << ((i % 8) as bv8));
      }
      i := i + 1;
    }
    forall j | 0 <= j < out.Length ensures out[j] == PackByte(bools, j) {
      BitsDetermineByte(out[j], bools, j);
    }
    bytes := out[..];
  }
}
