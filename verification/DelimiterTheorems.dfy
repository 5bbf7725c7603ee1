// Which delimiters are safe under Hamming coding, on a line without noise and on one whose noise the code
// can correct.

module DelimiterTheorems {
  import opened Bytes
  import opened Framing
  import opened SerialHandler
  import opened Sequences
  import Hamming74

  lemma BodyOfCodewords(params: Params, payload: seq<Byte>)
    requires params.useHammingEC
    ensures All(Hamming74.IsCodeword, Body(params, payload))
  {
    Hamming74.EncodedAreCodewords(Message(params, payload));
  }

  /** Any codewords in pairs are the end of some payload's body. */
  lemma BodyEndingIn(params: Params, words: seq<Byte>) returns (payload: seq<Byte>, front: seq<Byte>)
    requires params.useHammingEC && |words| % 2 == 0 && All(Hamming74.IsCodeword, words)
    ensures Body(params, payload) == front + words && All(Hamming74.IsCodeword, front)
  {
    payload := Hamming74.Decoded(words);
    Hamming74.EncodeOfDecode(words);
    if params.useCRC {
      var header := params.crc(payload);
      front := Hamming74.Encoded([header.low, header.high]);
      Hamming74.EncodedConcat([header.low, header.high], payload);
      Hamming74.EncodedAreCodewords([header.low, header.high]);
    } else {
      front := [];
      assert front + words == words;
    }
  }

  // ----- a line without noise

  /** Under Hamming coding the delimiter alone decides: every payload with a non-empty body is framable
      if and only if some byte of the delimiter is not a codeword. */
  lemma HammingDelimiterExact(params: Params)
    requires params.useHammingEC && params.delimiter != []
    ensures (forall payload :: Body(params, payload) != [] ==> Framable(params.delimiter, Body(params, payload)))
      <==> !All(Hamming74.IsCodeword, params.delimiter)
  {
    var delim := params.delimiter;
    if All(Hamming74.IsCodeword, delim) {
      var payload, front := BodyEndingIn(params, Intruder(delim));
      IntruderSpoils(delim, front);
      assert !Framable(delim, Body(params, payload)) && Body(params, payload) != [];
    } else {
      forall payload | Body(params, payload) != [] ensures Framable(delim, Body(params, payload)) {
        BodyOfCodewords(params, payload);
        OutsiderDelimits(Hamming74.IsCodeword, delim, Body(params, payload));
      }
    }
  }

  /** So with Hamming coding on and a delimiter that is not made of codewords, any payloads get through
      whose bodies are not empty, which under CRC are all. */
  lemma HammingRoundTrip(params: Params, payloads: seq<seq<Byte>>)
    requires params.useHammingEC && params.delimiter != [] && !All(Hamming74.IsCodeword, params.delimiter)
    requires forall k :: 0 <= k < |payloads| ==> Body(params, payloads[k]) != []
    ensures ArrivesAs(params, SentWire(params, payloads), payloads)
  {
    HammingDelimiterExact(params);
    SerialRoundTrip(params, payloads);
  }

  /** The default delimiter "*-*" consists of codewords, so with Hamming coding on some payload is cut
      short by it. */
  lemma DefaultDelimiterIsUnsafe(params: Params)
    requires params.useHammingEC && params.delimiter == [0x2A, 0x2D, 0x2A]
    ensures exists payload :: Body(params, payload) != [] && !Framable(params.delimiter, Body(params, payload))
  {
    assert All(Hamming74.IsCodeword, params.delimiter);
    HammingDelimiterExact(params);
  }

  // ----- a line with noise on the bodies

  predicate SevenBit(b: Byte) {
    b & 0x80 == 0
  }

  /** Noise the code can correct: at most one of the low seven bits of each word is flipped. */
  ghost predicate Correctable(params: Params, payload: seq<Byte>, noise: seq<Byte>) {
    |noise| == |Body(params, payload)| && All(Hamming74.AtMostOneFlip, noise)
  }

  /** What arrives of a payload's body. */
  ghost function Noisy(params: Params, payload: seq<Byte>, noise: seq<Byte>): seq<Byte>
    requires Correctable(params, payload, noise)
  {
    Hamming74.Disturbed(Body(params, payload), noise)
  }

  ghost predicate AllCorrectable(params: Params, payloads: seq<seq<Byte>>, noises: seq<seq<Byte>>) {
    |noises| == |payloads| && forall k :: 0 <= k < |payloads| ==> Correctable(params, payloads[k], noises[k])
  }

  ghost function AllNoisy(params: Params, payloads: seq<seq<Byte>>, noises: seq<seq<Byte>>): (r: seq<seq<Byte>>)
    requires AllCorrectable(params, payloads, noises)
    ensures |r| == |payloads| && forall k :: 0 <= k < |r| ==> r[k] == Noisy(params, payloads[k], noises[k])
  {
    seq(|payloads|, k requires 0 <= k < |payloads| => Noisy(params, payloads[k], noises[k]))
  }

  /** Correctable noise does no harm to payloads whose disturbed bodies are framable: they all arrive. */
  lemma NoisyBodiesArrive(params: Params, payloads: seq<seq<Byte>>, noises: seq<seq<Byte>>)
    requires params.useHammingEC && params.delimiter != [] && AllCorrectable(params, payloads, noises)
    requires forall k :: 0 <= k < |payloads| ==>
      Framable(params.delimiter, Noisy(params, payloads[k], noises[k]))
    ensures ArrivesAs(params, Wire(params.delimiter, AllNoisy(params, payloads, noises)), payloads)
  {
    var texts := AllNoisy(params, payloads, noises);
    forall k, r | 0 <= k < |payloads|
      ensures Handled(params, r, texts[k]) == Intact(r, |texts[k]|, [payloads[k]])
    {
      NoisyBodyIsHandled(params, r, payloads[k], noises[k]);
    }
    TextsArrive(params, texts, payloads);
  }

  lemma FlipKeepsSevenBits(word: Byte, noise: Byte)
    requires Hamming74.IsCodeword(word) && SevenBit(noise)
    ensures SevenBit(Hamming74.Flip(word, noise))
  {
  }

  lemma NoisyStaysSevenBit(params: Params, payload: seq<Byte>, noise: seq<Byte>)
    requires params.useHammingEC && Correctable(params, payload, noise) && All(SevenBit, noise)
    ensures All(SevenBit, Noisy(params, payload, noise))
  {
    var body := Body(params, payload);
    BodyOfCodewords(params, payload);
    forall j | 0 <= j < |body| ensures SevenBit(Noisy(params, payload, noise)[j]) {
      FlipKeepsSevenBits(body[j], noise[j]);
    }
  }

  /** Noise that leaves bit 7 alone never makes a delimiter with bit 7 set. */
  lemma NoisyFramable(params: Params, payload: seq<Byte>, noise: seq<Byte>)
    requires params.useHammingEC && params.delimiter != [] && !All(SevenBit, params.delimiter)
    requires Correctable(params, payload, noise) && All(SevenBit, noise) && noise != []
    ensures Framable(params.delimiter, Noisy(params, payload, noise))
  {
    NoisyStaysSevenBit(params, payload, noise);
    OutsiderDelimits(SevenBit, params.delimiter, Noisy(params, payload, noise));
  }

  /** Every word is one correctable pattern away from its correction. */
  lemma NoiseToward(word: Byte)
    ensures Hamming74.IsCodeword(Hamming74.Corrected(word))
    ensures Hamming74.AtMostOneFlip(Hamming74.Flip(Hamming74.Corrected(word), word))
  {
    Hamming74.PerfectCode(word, Hamming74.Corrected(word));
  }

  lemma CodewordIsCorrect(word: Byte)
    requires Hamming74.IsCodeword(word)
    ensures word == Hamming74.Corrected(word) && SevenBit(word)
  {
    assert word ^ word == 0;
    Hamming74.PerfectCode(word, word);
  }

  function Corrections(words: seq<Byte>): seq<Byte> {
    Map(Hamming74.Corrected, words)
  }

  lemma CorrectionsAreCodewords(words: seq<Byte>)
    ensures All(Hamming74.IsCodeword, Corrections(words))
  {
    forall j | 0 <= j < |words| ensures Hamming74.IsCodeword(Corrections(words)[j]) {
      NoiseToward(words[j]);
    }
  }

  lemma CodewordsStay(front: seq<Byte>, words: seq<Byte>)
    requires All(Hamming74.IsCodeword, front)
    ensures Corrections(front + words) == front + Corrections(words)
    ensures All(SevenBit, words) ==> All(SevenBit, front + words)
  {
    forall j | 0 <= j < |front| ensures front[j] == Hamming74.Corrected(front[j]) && SevenBit(front[j]) {
      CodewordIsCorrect(front[j]);
    }
  }

  lemma FlipLeads(from: Byte, to: Byte)
    ensures Hamming74.Flip(from, Hamming74.Flip(from, to)) == to
    ensures SevenBit(from) && SevenBit(to) ==> SevenBit(Hamming74.Flip(from, to))
  {
  }

  /** Correctable noise that turns the correction of `target` into `target`. */
  lemma NoiseInto(target: seq<Byte>) returns (noise: seq<Byte>)
    ensures |noise| == |target| && All(Hamming74.AtMostOneFlip, noise)
    ensures Hamming74.Disturbed(Corrections(target), noise) == target
    ensures All(SevenBit, target) ==> All(SevenBit, noise)
  {
    var body := Corrections(target);
    noise := Zip(Hamming74.Flip, body, target);
    forall j | 0 <= j < |body|
      ensures Hamming74.AtMostOneFlip(noise[j]) && Hamming74.Flip(body[j], noise[j]) == target[j]
      ensures SevenBit(target[j]) ==> SevenBit(noise[j])
    {
      NoiseToward(target[j]);
      FlipLeads(body[j], target[j]);
    }
    ZipLeads(Hamming74.Flip, body, target);
  }

  /** A payload and correctable noise that bring the delimiter into the body; the noise leaves bit 7 alone
      where the delimiter does. */
  lemma NoisyIntruder(params: Params) returns (payload: seq<Byte>, noise: seq<Byte>)
    requires params.useHammingEC && params.delimiter != []
    ensures Correctable(params, payload, noise) && noise != []
    ensures !Framable(params.delimiter, Noisy(params, payload, noise))
    ensures All(SevenBit, params.delimiter) ==> All(SevenBit, noise)
  {
    var words := Intruder(params.delimiter);
    CorrectionsAreCodewords(words);
    var front;
    payload, front := BodyEndingIn(params, Corrections(words));
    CodewordsStay(front, words);
    noise := NoiseInto(front + words);
    IntruderSpoils(params.delimiter, front);
  }

  /** Against correctable noise that leaves bit 7 alone the delimiter alone decides again: everything with a
      non-empty body stays framable if and only if some byte of the delimiter has bit 7 set. */
  lemma NoisyDelimiterExact(params: Params)
    requires params.useHammingEC && params.delimiter != []
    ensures (forall payload, noise ::
        Correctable(params, payload, noise) && All(SevenBit, noise) && noise != []
        ==> Framable(params.delimiter, Noisy(params, payload, noise)))
      <==> !All(SevenBit, params.delimiter)
  {
    if All(SevenBit, params.delimiter) {
      var payload, noise := NoisyIntruder(params);
      assert Correctable(params, payload, noise) && All(SevenBit, noise);
    } else {
      forall payload, noise | Correctable(params, payload, noise) && All(SevenBit, noise) && noise != []
        ensures Framable(params.delimiter, Noisy(params, payload, noise))
      {
        NoisyFramable(params, payload, noise);
      }
    }
  }

  /** So with such a delimiter all payloads with a body get through, whatever low bit of whichever word is
      hit. */
  lemma NoisyRoundTrip(params: Params, payloads: seq<seq<Byte>>, noises: seq<seq<Byte>>)
    requires params.useHammingEC && params.delimiter != [] && !All(SevenBit, params.delimiter)
    requires AllCorrectable(params, payloads, noises)
    requires forall k :: 0 <= k < |payloads| ==> Body(params, payloads[k]) != [] && All(SevenBit, noises[k])
    ensures ArrivesAs(params, Wire(params.delimiter, AllNoisy(params, payloads, noises)), payloads)
  {
    forall k | 0 <= k < |payloads| ensures Framable(params.delimiter, Noisy(params, payloads[k], noises[k])) {
      NoisyFramable(params, payloads[k], noises[k]);
    }
    NoisyBodiesArrive(params, payloads, noises);
  }

  /** Bit 7 carries no data, so decoding does not mind its being hit as well; but if it can be, no delimiter
      at all is safe. */
  lemma NoDelimiterIsSafe(params: Params)
    requires params.useHammingEC && params.delimiter != []
    ensures exists payload, noise ::
      && Correctable(params, payload, noise) && noise != []
      && !Framable(params.delimiter, Noisy(params, payload, noise))
  {
    var payload, noise := NoisyIntruder(params);
    assert Correctable(params, payload, noise);
  }
}
