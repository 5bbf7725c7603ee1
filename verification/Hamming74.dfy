// Model of src/Utilities/DataPresentation/hamming74.cpp: the Hamming(7,4) code that
// turns every byte into two codewords, and the string encoder and decoder built on it.

module Hamming74 {
  import opened Bytes
  import opened Sequences

  function GetBit(val: Byte, i: nat): bool
    requires i < 8
  {
    (val >> i) & 1 == 1
  }

  function SetBit(val: Byte, i: nat, bit: bool): Byte
    requires i < 8
  {
    (val & !((1 as Byte) << i)) | ((if bit then 1 as Byte else 0) << i)
  }

  /** A codeword uses seven bits, and each of the three parity groups
      (bits 1,3,5,7 / 2,3,6,7 / 4,5,6,7, counting from one) has an even number of ones. */
  predicate IsCodeword(c: Byte) {
    && c & 0x80 == 0
    && (c ^ (c >> 2) ^ (c >> 4) ^ (c >> 6)) & 1 == 0
    && ((c >> 1) ^ (c >> 2) ^ (c >> 5) ^ (c >> 6)) & 1 == 0
    && ((c >> 3) ^ (c >> 4) ^ (c >> 5) ^ (c >> 6)) & 1 == 0
  }

  /** The four data bits of a word: its bits 3, 5, 6 and 7. */
  function DataOf(c: Byte): Byte {
    ((c >> 2) & 1) | ((c >> 3) & 0x0E)
  }

  /** The codeword that carries the low four bits of d; CodewordUnique says it is the only one. */
  function Codeword(d: Byte): Byte {
    var d1, d2, d3, d4 := d & 1, (d >> 1) & 1, (d >> 2) & 1, (d >> 3) & 1;
    (d1 ^ d2 ^ d4) | ((d1 ^ d3 ^ d4) << 1) | (d1 << 2) | ((d2 ^ d3 ^ d4) << 3)
    | (d2 << 4) | (d3 << 5) | (d4 << 6)
  }

  /** An error pattern flips at most one of the low seven bits; bit 7 is not part of the code. */
  predicate AtMostOneFlip(e: Byte) {
    var low := e & 0x7F;
    low == 0 || low == 1 || low == 2 || low == 4 || low == 8 || low == 16 || low == 32 || low == 64
  }

  lemma CodewordUnique(c: Byte, d: Byte)
    ensures IsCodeword(c) && DataOf(c) == d & 0x0F <==> c == Codeword(d)
  {
    assert Codeword(DataOf(c)) == c <==> IsCodeword(c);
    assert Codeword(d) == Codeword(d & 0x0F);
  }

  /** The seven-bit word nearest to w that is a codeword: the syndrome names the bit to flip. */
  function Corrected(w: Byte): Byte {
    var s1 := (w ^ (w >> 2) ^ (w >> 4) ^ (w >> 6)) & 1;
    var s2 := ((w >> 1) ^ (w >> 2) ^ (w >> 5) ^ (w >> 6)) & 1;
    var s3 := ((w >> 3) ^ (w >> 4) ^ (w >> 5) ^ (w >> 6)) & 1;
    var syndrome := (s3 << 2) | (s2 << 1) | s1;
    (if syndrome == 0 then w else w ^ ((1 as Byte) << (syndrome - 1))) & 0x7F
  }

  /** Hamming(7,4) is perfect: every word is within one flip of exactly one codeword, and
      correction finds it. */
  lemma PerfectCode(w: Byte, c: Byte)
    ensures IsCodeword(c) && AtMostOneFlip(c ^ w) <==> c == Corrected(w)
  {
    assert IsCodeword(Corrected(w)) && AtMostOneFlip(Corrected(w) ^ w);
    assert IsCodeword(c) && AtMostOneFlip(c ^ w) ==> c == Corrected(w);
  }

  method EncodeNibble(data4: Byte) returns (codeword: Byte)
    ensures IsCodeword(codeword)
    ensures DataOf(codeword) == data4 & 0x0F
  {
    var d1, d2 := GetBit(data4, 0), GetBit(data4, 1);
    var d3, d4 := GetBit(data4, 2), GetBit(data4, 3);
    var p1 := (d1 != d2) != d4;
    var p2 := (d1 != d3) != d4;
    var p3 := (d2 != d3) != d4;
    codeword := 0;
    codeword := SetBit(codeword, 0, p1);
    codeword := SetBit(codeword, 1, p2);
    codeword := SetBit(codeword, 2, d1);
    codeword := SetBit(codeword, 3, p3);
    codeword := SetBit(codeword, 4, d2);
    codeword := SetBit(codeword, 5, d3);
    codeword := SetBit(codeword, 6, d4);
  }

  method DecodeNibble(word: Byte) returns (decoded: Byte, corrected: bool)
    ensures decoded == DataOf(Corrected(word))
    ensures corrected <==> word & 0x7F != Corrected(word)
    ensures forall c :: IsCodeword(c) && AtMostOneFlip(c ^ word) ==> decoded == DataOf(c)
  {
    var codeword := word;
    var p1, p2, d1, p3 := GetBit(word, 0), GetBit(word, 1), GetBit(word, 2), GetBit(word, 3);
    var d2, d3, d4 := GetBit(word, 4), GetBit(word, 5), GetBit(word, 6);
    var s1 := ((p1 != d1) != d2) != d4;
    var s2 := ((p2 != d1) != d3) != d4;
    var s3 := ((p3 != d2) != d3) != d4;
    var syndrome := (if s3 then 4 else 0) + (if s2 then 2 else 0) + (if s1 then 1 else 0);
    corrected := false;
    if syndrome != 0 && syndrome <= 7 {
      codeword := codeword ^ ((1 as Byte) << (syndrome - 1));
      corrected := true;
    }
    decoded := 0;
    decoded := SetBit(decoded, 0, GetBit(codeword, 2));
    decoded := SetBit(decoded, 1, GetBit(codeword, 4));
    decoded := SetBit(decoded, 2, GetBit(codeword, 5));
    decoded := SetBit(decoded, 3, GetBit(codeword, 6));
    forall c | IsCodeword(c) && AtMostOneFlip(c ^ word) ensures c == Corrected(word) {
      PerfectCode(word, c);
    }
  }

  // ----- strings

  function LowWord(b: Byte): Byte { Codeword(b & 0x0F) }

  function HighWord(b: Byte): Byte { Codeword(b >> 4) }

  function Nibble(word: Byte): Byte { DataOf(Corrected(word)) }

  predicate NeedsCorrection(word: Byte) { word & 0x7F != Corrected(word) }

  function JoinedByte(low: Byte, high: Byte): Byte { (low & 0x0F) | ((high & 0x0F) << 4) }

  function LoneNibble(low: Byte): Byte { low & 0x0F }

  function Flip(word: Byte, noise: Byte): Byte { word ^ noise }

  /** Two codewords a byte: first its low nibble, then its high nibble. */
  function Encoded(data: seq<Byte>): seq<Byte> {
    Spread(LowWord, HighWord, data)
  }

  /** Pairs of nibbles joined into bytes, low nibble first; a last odd nibble stands alone. */
  function Decoded(words: seq<Byte>): seq<Byte> {
    Pair(JoinedByte, LoneNibble, Map(Nibble, words))
  }

  /** Which words of the string are not codewords as they stand. */
  function Flagged(words: seq<Byte>): seq<bool> {
    Map(NeedsCorrection, words)
  }

  /** What line noise turns `words` into. */
  function Disturbed(words: seq<Byte>, noise: seq<Byte>): seq<Byte>
    requires |noise| == |words|
  {
    Zip(Flip, words, noise)
  }

  method Encode(data: seq<Byte>) returns (result: seq<Byte>)
    ensures result == Encoded(data)
  {
    result := [];
    for n := 0 to |data|
      invariant result == Encoded(data[..n])
    {
      var low, high := EncodeByte(data[n]);
      SpreadSnoc(LowWord, HighWord, data[..n], data[n]);
      assert data[..n + 1] == data[..n] + [data[n]];
      result := result + [low];
      result := result + [high];
    }
    assert data[..|data|] == data;
  }

  method EncodeByte(byte: Byte) returns (low: Byte, high: Byte)
    ensures low == LowWord(byte) && high == HighWord(byte)
  {
    var lsb := byte & 0x0F;
    var msb := byte >> 4;
    low := EncodeNibble(lsb);
    high := EncodeNibble(msb);
    CodewordUnique(low, lsb);
    CodewordUnique(high, msb);
  }

  method Decode(codewords: seq<Byte>) returns (merged: seq<Byte>, corrected: seq<bool>)
    ensures merged == Decoded(codewords)
    ensures corrected == Flagged(codewords)
  {
    var result: seq<Byte> := [];
    corrected := [];
    for n := 0 to |codewords|
      invariant |result| == |corrected| == n
      invariant forall i :: 0 <= i < n ==> result[i] == Nibble(codewords[i])
      invariant forall i :: 0 <= i < n ==> corrected[i] == NeedsCorrection(codewords[i])
    {
      var decoded, isCorrected := DecodeNibble(codewords[n]);
      result := result + [decoded];
      corrected := corrected + [isCorrected];
    }
    assert result == Map(Nibble, codewords);
    merged := Merge(result);
  }

  method Merge(result: seq<Byte>) returns (merged: seq<Byte>)
    ensures merged == Pair(JoinedByte, LoneNibble, result)
  {
    merged := [];
    var i := 0;
    while i < |result|
      invariant i <= |result| + 1
      invariant i <= |result| ==>
        merged + Pair(JoinedByte, LoneNibble, result[i..]) == Pair(JoinedByte, LoneNibble, result)
      invariant i > |result| ==> merged == Pair(JoinedByte, LoneNibble, result)
    {
      PairStep(JoinedByte, LoneNibble, result, i, merged);
      if i + 1 < |result| {
        merged := merged + [JoinedByte(result[i], result[i + 1])];
      } else {
        merged := merged + [LoneNibble(result[i])];
      }
      i := i + 2;
    }
  }

  // ----- theorems

  lemma FlipIsCorrected(d: Byte, e: Byte)
    requires AtMostOneFlip(e)
    ensures Corrected(Codeword(d) ^ e) == Codeword(d)
    ensures NeedsCorrection(Codeword(d) ^ e) <==> e & 0x7F != 0
  {
    CodewordUnique(Codeword(d), d);
    assert Codeword(d) ^ (Codeword(d) ^ e) == e;
    PerfectCode(Codeword(d) ^ e, Codeword(d));
  }

  lemma LowCorrection(b: Byte, e: Byte)
    requires AtMostOneFlip(e)
    ensures Nibble(Flip(LowWord(b), e)) == b & 0x0F
    ensures NeedsCorrection(Flip(LowWord(b), e)) <==> e & 0x7F != 0
  {
    FlipIsCorrected(b & 0x0F, e);
  }

  lemma HighCorrection(b: Byte, e: Byte)
    requires AtMostOneFlip(e)
    ensures Nibble(Flip(HighWord(b), e)) == b >> 4
    ensures NeedsCorrection(Flip(HighWord(b), e)) <==> e & 0x7F != 0
  {
    FlipIsCorrected(b >> 4, e);
  }

  lemma NibblesJoin(b: Byte)
    ensures JoinedByte(b & 0x0F, b >> 4) == b
  {
  }

  lemma ByteCorrection(b: Byte, e0: Byte, e1: Byte)
    requires AtMostOneFlip(e0) && AtMostOneFlip(e1)
    ensures JoinedByte(Nibble(Flip(LowWord(b), e0)), Nibble(Flip(HighWord(b), e1))) == b
  {
    LowCorrection(b, e0);
    HighCorrection(b, e1);
    NibblesJoin(b);
  }

  /** Every string survives any noise of at most one flipped bit in the low seven of each codeword,
      whatever happens to bit 7, and the words reported as corrected are exactly those hit. */
  lemma SingleErrorCorrection(data: seq<Byte>, noise: seq<Byte>)
    requires |noise| == 2 * |data|
    requires forall i :: 0 <= i < |noise| ==> AtMostOneFlip(noise[i])
    ensures Decoded(Disturbed(Encoded(data), noise)) == data
    ensures forall i :: 0 <= i < |noise| ==>
      (Flagged(Disturbed(Encoded(data), noise))[i] <==> noise[i] & 0x7F != 0)
  {
    var received := Disturbed(Encoded(data), noise);
    forall k | 0 <= k < |data| ensures Decoded(received)[k] == data[k] {
      ByteCorrection(data[k], noise[2 * k], noise[2 * k + 1]);
    }
    forall i | 0 <= i < |noise| ensures Flagged(received)[i] <==> noise[i] & 0x7F != 0 {
      WordFlagged(data, noise, i);
    }
  }

  lemma WordFlagged(data: seq<Byte>, noise: seq<Byte>, i: nat)
    requires i < |noise| == 2 * |data| && AtMostOneFlip(noise[i])
    ensures Flagged(Disturbed(Encoded(data), noise))[i] <==> noise[i] & 0x7F != 0
  {
    var b := data[i / 2];
    if i % 2 == 0 {
      LowCorrection(b, noise[i]);
      assert i == 2 * (i / 2);
    } else {
      HighCorrection(b, noise[i]);
      assert i == 2 * (i / 2) + 1;
    }
  }

  lemma ByteRoundTrip(b: Byte)
    ensures JoinedByte(Nibble(LowWord(b)), Nibble(HighWord(b))) == b
  {
    ByteCorrection(b, 0, 0);
    assert Flip(LowWord(b), 0) == LowWord(b);
    assert Flip(HighWord(b), 0) == HighWord(b);
  }

  /** Without noise the string comes back. */
  lemma RoundTrip(data: seq<Byte>)
    ensures Decoded(Encoded(data)) == data
  {
    forall k | 0 <= k < |data| ensures Decoded(Encoded(data))[k] == data[k] {
      ByteRoundTrip(data[k]);
    }
  }

  lemma EncodedAreCodewords(data: seq<Byte>)
    ensures forall i :: 0 <= i < 2 * |data| ==> IsCodeword(Encoded(data)[i])
  {
    forall i | 0 <= i < 2 * |data| ensures IsCodeword(Encoded(data)[i]) {
      var b := data[i / 2];
      CodewordUnique(LowWord(b), b & 0x0F);
      CodewordUnique(HighWord(b), b >> 4);
    }
  }

  lemma NibbleIsCarried(b: Byte)
    ensures IsCodeword(LowWord(b)) && DataOf(LowWord(b)) == b & 0x0F
    ensures IsCodeword(HighWord(b)) && DataOf(HighWord(b)) == b >> 4
  {
    CodewordUnique(LowWord(b), b & 0x0F);
    CodewordUnique(HighWord(b), b >> 4);
  }

  /** Byte k goes into words 2k and 2k + 1: the codeword of its low nibble, then that of its high nibble. */
  lemma EncodedIs(data: seq<Byte>, k: nat)
    requires k < |data|
    ensures |Encoded(data)| == 2 * |data|
    ensures IsCodeword(Encoded(data)[2 * k]) && DataOf(Encoded(data)[2 * k]) == data[k] & 0x0F
    ensures IsCodeword(Encoded(data)[2 * k + 1]) && DataOf(Encoded(data)[2 * k + 1]) == data[k] >> 4
  {
    NibbleIsCarried(data[k]);
  }

  lemma NibbleIsShort(word: Byte)
    ensures Nibble(word) & 0x0F == Nibble(word) && Nibble(word) >> 4 == 0
  {
  }

  lemma JoinedParts(low: Byte, high: Byte)
    requires low & 0x0F == low && high & 0x0F == high
    ensures JoinedByte(low, high) & 0x0F == low && JoinedByte(low, high) >> 4 == high
    ensures LoneNibble(low) == low
  {
  }

  /** Any words decode to half as many bytes, each joined from two nibbles, the first low; a last odd word
      gives a byte of its own, with nothing in the high nibble. */
  lemma DecodedIs(words: seq<Byte>, k: nat)
    requires k < (|words| + 1) / 2
    ensures |Decoded(words)| == (|words| + 1) / 2
    ensures Decoded(words)[k] & 0x0F == Nibble(words[2 * k])
    ensures Decoded(words)[k] >> 4 == if 2 * k + 1 < |words| then Nibble(words[2 * k + 1]) else 0
  {
    var nibbles := Map(Nibble, words);
    NibbleIsShort(words[2 * k]);
    if 2 * k + 1 < |words| {
      NibbleIsShort(words[2 * k + 1]);
      JoinedParts(nibbles[2 * k], nibbles[2 * k + 1]);
    } else {
      PairLast(JoinedByte, LoneNibble, nibbles);
      JoinedParts(nibbles[2 * k], 0);
    }
  }

  lemma EncodedConcat(a: seq<Byte>, b: seq<Byte>)
    ensures Encoded(a + b) == Encoded(a) + Encoded(b)
  {
    SpreadConcat(LowWord, HighWord, a, b);
  }

  lemma JoinedNibblesSplit(low: Byte, high: Byte)
    requires IsCodeword(low) && IsCodeword(high)
    ensures LowWord(JoinedByte(Nibble(low), Nibble(high))) == low
    ensures HighWord(JoinedByte(Nibble(low), Nibble(high))) == high
  {
    assert low ^ low == 0 && high ^ high == 0;
    PerfectCode(low, low);
    PerfectCode(high, high);
    var b := JoinedByte(DataOf(low), DataOf(high));
    CodewordUnique(low, b & 0x0F);
    CodewordUnique(high, b >> 4);
  }

  /** Decoding is a right inverse too: the encoder's range is all even-length codeword strings. */
  lemma EncodeOfDecode(words: seq<Byte>)
    requires |words| % 2 == 0
    requires forall i :: 0 <= i < |words| ==> IsCodeword(words[i])
    ensures Encoded(Decoded(words)) == words
  {
    var nibbles := Map(Nibble, words);
    forall k | 0 <= k < |words| / 2
      ensures Respreads(LowWord, HighWord, JoinedByte, nibbles, words, k)
    {
      JoinedNibblesSplit(words[2 * k], words[2 * k + 1]);
    }
    SpreadOfPair(LowWord, HighWord, JoinedByte, LoneNibble, nibbles, words);
  }
}
