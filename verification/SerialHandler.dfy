// Model of src/Utilities/IDC/NetworkLayer/Serial/SerialHandler.cpp: packets over a serial line, with
// an optional CRC header, optional Hamming coding and a delimiter string.

module SerialHandler {
  import opened Bytes
  import opened Framing
  import opened Options
  import opened Sequences
  import Hamming74
  import Serialization

  /** A uint16_t as it lies in memory. */
  datatype Word16 = Word16(low: Byte, high: Byte)

  datatype Direction = BOTH | SEND | RECEIVE

  /** `crc` stands for the CRC-CCITT of boost, about which nothing is assumed. */
  datatype Params = Params(
    delimiter: seq<Byte>, useCRC: bool, useHammingEC: bool, direction: Direction, crc: seq<Byte> -> Word16)

  datatype Stats = Stats(
    packetsReceived: nat, packetsCorrupted: nat, dataReceived: nat, dataCorrupted: nat,
    packetsSent: nat, dataSent: nat)

  // ----- packets

  function AddHeader(header: Word16, packet: seq<Byte>): seq<Byte> {
    [header.low, header.high] + packet
  }

  /** dp::extract<NetworkHeader>: an empty packet gives a zero header; a lone byte is read together with
      the string's terminating zero, and then nothing is consumed. */
  function ExtractHeader(packet: seq<Byte>): (Word16, seq<Byte>) {
    if |packet| == 0 then (Word16(0, 0), packet)
    else if |packet| == 1 then (Word16(packet[0], 0), packet)
    else (Word16(packet[0], packet[1]), packet[2..])
  }

  /** What goes into the Hamming code. */
  function Message(params: Params, payload: seq<Byte>): seq<Byte> {
    if params.useCRC then AddHeader(params.crc(payload), payload) else payload
  }

  /** What stands in front of the delimiter. */
  function Body(params: Params, payload: seq<Byte>): seq<Byte> {
    var message := Message(params, payload);
    if params.useHammingEC then Hamming74.Encoded(message) else message
  }

  /** What the upper layers see of the line. */
  datatype Reception = Reception(stats: Stats, delivered: seq<seq<Byte>>)

  /** What the check makes of a packet: the payload it lets through, if it does. */
  function Checked(params: Params, packet: seq<Byte>): Option<seq<Byte>> {
    if !params.useCRC then Some(packet)
    else
      var (header, rest) := ExtractHeader(packet);
      if header != params.crc(rest) then None else Some(rest)
  }

  /** A decoded packet of that many bytes on the line: delivered, or counted as corrupted. */
  function Judged(params: Params, r: Reception, packet: seq<Byte>, size: nat): Reception {
    match Checked(params, packet)
    case None => r.(stats := r.stats.(dataCorrupted := r.stats.dataCorrupted + size,
                                      packetsCorrupted := r.stats.packetsCorrupted + 1))
    case Some(payload) => r.(delivered := r.delivered + [payload])
  }

  /** A packet string cut out of the stream: counted, decoded and judged. */
  function Handled(params: Params, r: Reception, text: seq<Byte>): Reception {
    var packet := if params.useHammingEC then Hamming74.Decoded(text) else text;
    var stats := r.stats.(dataReceived := r.stats.dataReceived + |text|,
                          packetsReceived := r.stats.packetsReceived + 1);
    Judged(params, r.(stats := stats), packet, |text|)
  }

  function HandledAll(params: Params, r: Reception, texts: seq<seq<Byte>>): Reception {
    if texts == [] then r
    else Handled(params, HandledAll(params, r, texts[..|texts| - 1]), texts[|texts| - 1])
  }

  lemma HandledSnoc(params: Params, r: Reception, texts: seq<seq<Byte>>, text: seq<Byte>)
    ensures HandledAll(params, r, texts + [text]) == Handled(params, HandledAll(params, r, texts), text)
  {
    assert (texts + [text])[..|texts|] == texts;
  }

  lemma HandledOne(params: Params, r: Reception, text: seq<Byte>)
    ensures HandledAll(params, r, [text]) == Handled(params, r, text)
  {
    HandledSnoc(params, r, [], text);
    assert [] + [text] == [text];
  }

  // ----- std::string

  /** std::string::substr, whose count is clipped to what is there. */
  function Substr(s: seq<Byte>, pos: nat, count: nat): seq<Byte>
    requires pos <= |s|
  {
    if pos + count <= |s| then s[pos..pos + count] else s[pos..]
  }

  /** std::string::erase, clipped in the same way. */
  function Erase(s: seq<Byte>, pos: nat, count: nat): seq<Byte>
    requires pos <= |s|
  {
    if pos + count <= |s| then s[..pos] + s[pos + count..] else s[..pos]
  }

  // ----- the class

  class SerialHandler {
    const params: Params
    const delim: Byte
    const delimString: seq<Byte>
    var packetBuffer: seq<Byte>
    var inBuffer: seq<Byte>
    var stats: Stats
    var wire: seq<Byte>
    var delivered: seq<seq<Byte>>
    ghost var frames: seq<seq<Byte>>

    ghost predicate Valid() {
      delimString == params.delimiter != [] && delim == delimString[|delimString| - 1]
    }

    /** The deframer with everything in the input buffer still to be read. */
    ghost function Unread(): Deframer<Byte>
      reads this
    {
      Deframer([], packetBuffer, frames)
    }

    ghost function Received(): Reception
      reads this
    {
      Reception(stats, delivered)
    }

    constructor (params: Params)
      requires params.delimiter != []
      ensures Valid() && this.params == params && inBuffer == []
      ensures Unread() == Deframer([], [], []) && wire == []
      ensures Received() == Reception(Stats(0, 0, 0, 0, 0, 0), [])
    {
      this.params := params;
      delim := params.delimiter[|params.delimiter| - 1];
      delimString := params.delimiter;
      packetBuffer, inBuffer, wire := [], [], [];
      stats := Stats(0, 0, 0, 0, 0, 0);
      delivered, frames := [], [];
    }

    method SendPacket(packet: seq<Byte>) returns (sent: bool)
      requires Valid()
      modifies `wire, `stats
      ensures sent <==> params.direction != RECEIVE
      ensures !sent ==> wire == old(wire) && stats == old(stats)
      ensures sent ==>
        var message := Body(params, packet) + delimString;
        && wire == old(wire) + message
        && stats == old(stats).(dataSent := old(stats).dataSent + |message|,
                                packetsSent := old(stats).packetsSent + 1)
    {
      if params.direction == RECEIVE {
        return false;
      }
      var message := packet;
      if params.useCRC {
        var header := params.crc(packet);
        message := AddHeader(header, message);
      }
      if params.useHammingEC {
        message := Hamming74.Encode(message);
      }
      message := message + delimString;
      stats := stats.(dataSent := stats.dataSent + |message|);
      stats := stats.(packetsSent := stats.packetsSent + 1);
      wire := wire + message;
      return true;
    }

    /** The end of `receive`: the check, and the signal to the upper layers. */
    method JudgePacket(decoded: seq<Byte>, size: nat)
      modifies `stats, `delivered
      ensures Received() == Judged(params, old(Received()), decoded, size)
    {
      var packet := decoded;
      if params.useCRC {
        var (header, rest) := ExtractHeader(packet);
        packet := rest;
        var crc := params.crc(packet);
        if header != crc {
          stats := stats.(dataCorrupted := stats.dataCorrupted + size);
          stats := stats.(packetsCorrupted := stats.packetsCorrupted + 1);
          return;
        }
      }
      delivered := delivered + [packet];
    }

    /** The tail of `receive`, once a packet string is complete. */
    method HandlePacket(packetString: seq<Byte>)
      requires Valid()
      modifies `stats, `delivered, `frames
      ensures frames == old(frames) + [packetString]
      ensures Received() == Handled(params, old(Received()), packetString)
    {
      frames := frames + [packetString];
      var packet := packetString;
      if params.useHammingEC {
        var corrected;
        packet, corrected := Hamming74.Decode(packet);
      }
      stats := stats.(dataReceived := stats.dataReceived + |packetString|);
      stats := stats.(packetsReceived := stats.packetsReceived + 1);
      JudgePacket(packet, |packetString|);
    }

    /** `receive`, with `line` what std::getline took from the input buffer up to the delimiter
        character. */
    method Receive(line: seq<Byte>)
      requires Valid()
      modifies `packetBuffer, `stats, `delivered, `frames
      ensures Unread() == Cut(delimString, old(Unread()), line)
      ensures old(frames) <= frames
      ensures Received() == HandledAll(params, old(Received()), frames[|old(frames)|..])
    {
      var delimSize := |delimString|;
      var packetString: seq<Byte> := [];
      if delimSize == 1 {
        packetString := line;
      } else {
        packetBuffer := packetBuffer + line + [delim];
        packetString := packetBuffer;
        TailComparison(packetString, delimString);
        if |packetString| >= |delimString|
          && delimString == Substr(packetString, |packetString| - delimSize, |packetString| - 1)
        {
          packetString := Erase(packetString, |packetString| - delimSize, |packetString| - 1);
          packetBuffer := [];
        } else {
          return;
        }
      }
      HandlePacket(packetString);
      assert frames[|old(frames)|..] == [packetString];
      HandledOne(params, old(Received()), packetString);
    }

    /** What `receive` takes from the input buffer on one call: std::getline up to `i`. */
    method ReadLine(i: nat)
      requires Valid() && i < |inBuffer| && inBuffer[i] == delim && delim !in inBuffer[..i]
      modifies `inBuffer, `packetBuffer, `stats, `delivered, `frames
      ensures |inBuffer| < |old(inBuffer)|
      ensures Feed(delimString, Unread(), inBuffer) == old(Feed(delimString, Unread(), inBuffer))
      ensures old(frames) <= frames
      ensures Received() == HandledAll(params, old(Received()), frames[|old(frames)|..])
    {
      var line := inBuffer[..i];
      LineRead(delimString, Unread(), line, inBuffer[i + 1..]);
      assert inBuffer == line + [delim] + inBuffer[i + 1..];
      inBuffer := inBuffer[i + 1..];
      Receive(line);
    }

    /** The packets handled since the frames were `seen` and the upper layers had received `r`. */
    ghost predicate HandledSince(seen: seq<seq<Byte>>, r: Reception)
      reads this
    {
      seen <= frames && Received() == HandledAll(params, r, frames[|seen|..])
    }

    lemma SinceBoth(a: seq<seq<Byte>>, ra: Reception, b: seq<seq<Byte>>, rb: Reception)
      requires a <= b && rb == HandledAll(params, ra, b[|a|..]) && HandledSince(b, rb)
      ensures HandledSince(a, ra)
    {
      HandledConcat(params, ra, b[|a|..], frames[|b|..]);
      assert b[|a|..] + frames[|b|..] == frames[|a|..];
    }

    /** Bytes arriving in any portions: the handler runs once for every delimiter character. */
    method Arrive(bytes: seq<Byte>)
      requires Valid() && delim !in inBuffer
      modifies `inBuffer, `packetBuffer, `stats, `delivered, `frames
      ensures delim !in inBuffer
      ensures Deframer(inBuffer, packetBuffer, frames)
           == Feed(delimString, old(Deframer(inBuffer, packetBuffer, frames)), bytes)
      ensures HandledSince(old(frames), old(Received()))
    {
      ghost var whole := Feed(delimString, Deframer(inBuffer, packetBuffer, frames), bytes);
      QuietLine(delimString, Unread(), inBuffer);
      FeedConcat(delimString, Unread(), inBuffer, bytes);
      inBuffer := inBuffer + bytes;
      var i := Find(inBuffer, delim);
      while i < |inBuffer|
        invariant 0 <= i <= |inBuffer| && delim !in inBuffer[..i]
        invariant i < |inBuffer| ==> inBuffer[i] == delim
        invariant Feed(delimString, Unread(), inBuffer) == whole
        invariant HandledSince(old(frames), old(Received()))
        decreases |inBuffer|
      {
        ghost var seen, received := frames, Received();
        ReadLine(i);
        SinceBoth(old(frames), old(Received()), seen, received);
        i := Find(inBuffer, delim);
      }
      assert inBuffer[..i] == inBuffer;
      QuietLine(delimString, Unread(), inBuffer);
    }
  }

  method Find(s: seq<Byte>, b: Byte) returns (i: nat)
    ensures i <= |s| && b !in s[..i]
    ensures i < |s| ==> s[i] == b
  {
    i := 0;
    while i < |s| && s[i] != b
      invariant i <= |s| && b !in s[..i]
    {
      i := i + 1;
    }
  }

  /** The clipped comparison of `receive` is the end-of-packet test: it fails on the bare delimiter,
      where it looks at one character too few. */
  lemma TailComparison(text: seq<Byte>, delim: seq<Byte>)
    requires |delim| > 1 && |text| > 0
    ensures |text| >= |delim| ==>
      (delim == Substr(text, |text| - |delim|, |text| - 1) <==> EndOfPacket(delim, text))
    ensures EndOfPacket(delim, text) ==>
      Erase(text, |text| - |delim|, |text| - 1) == text[..|text| - |delim|]
  {
    if |text| > |delim| {
      assert text[|text| - |delim|..] == Substr(text, |text| - |delim|, |text| - 1);
      assert Erase(text, |text| - |delim|, |text| - 1) == text[..|text| - |delim|];
    }
  }

  lemma {:induction false} HandledConcat(params: Params, r: Reception, a: seq<seq<Byte>>, b: seq<seq<Byte>>)
    ensures HandledAll(params, r, a + b) == HandledAll(params, HandledAll(params, r, a), b)
    decreases b
  {
    if b == [] {
      assert a + b == a;
    } else {
      HandledConcat(params, r, a, b[..|b| - 1]);
      assert (a + b)[..|a + b| - 1] == a + b[..|b| - 1];
    }
  }

  // ----- theorems

  lemma HeaderRoundTrip(header: Word16, packet: seq<Byte>)
    ensures ExtractHeader(AddHeader(header, packet)) == (header, packet)
  {
    assert AddHeader(header, packet)[2..] == packet;
  }

  /** The header as a value for the archives: a plain structure of two bytes. */
  function HeaderValue(header: Word16): Serialization.Value {
    Serialization.Pod([ValueOf(header.low), ValueOf(header.high)])
  }

  /** Adding the header is what serializing it before the packet does. */
  lemma HeaderIsSerialized(header: Word16, packet: seq<Byte>)
    ensures Map(ValueOf, AddHeader(header, packet))
         == Serialization.WithHeader(Map(ValueOf, packet), HeaderValue(header))
  {
    MapPair(ValueOf, header.low, header.high, packet);
  }

  lemma TwoLoaded(a: Octet, b: Octet, rest: seq<Octet>)
    ensures Serialization.Load(Serialization.PodType(2), [a, b] + rest) == Some((Serialization.Pod([a, b]), rest))
  {
    Serialization.Takes([a, b], rest);
  }

  lemma HeaderPutBack(packet: seq<Byte>)
    requires |packet| >= 2
    ensures AddHeader(ExtractHeader(packet).0, ExtractHeader(packet).1) == packet
  {
  }

  lemma TooShortToLoad(s: seq<Octet>)
    requires |s| < 2
    ensures Serialization.Load(Serialization.PodType(2), s) == None
  {
  }

  lemma HeaderLoaded(header: Word16, packet: seq<Byte>)
    ensures Serialization.Load(Serialization.PodType(2), Map(ValueOf, AddHeader(header, packet)))
         == Some((HeaderValue(header), Map(ValueOf, packet)))
  {
    MapPair(ValueOf, header.low, header.high, packet);
    TwoLoaded(ValueOf(header.low), ValueOf(header.high), Map(ValueOf, packet));
  }

  /** Extracting it is loading it back; with fewer than two bytes the archive runs out of input. */
  lemma HeaderIsExtracted(packet: seq<Byte>)
    ensures Serialization.Load(Serialization.PodType(2), Map(ValueOf, packet)) ==
      if |packet| < 2 then None
      else Some((HeaderValue(ExtractHeader(packet).0), Map(ValueOf, ExtractHeader(packet).1)))
  {
    if |packet| < 2 {
      TooShortToLoad(Map(ValueOf, packet));
    } else {
      HeaderLoaded(ExtractHeader(packet).0, ExtractHeader(packet).1);
      HeaderPutBack(packet);
    }
  }

  /** What the upper layers hold after intact packets of `size` bytes in all. */
  function Intact(r: Reception, size: nat, payloads: seq<seq<Byte>>): Reception {
    Reception(r.stats.(dataReceived := r.stats.dataReceived + size,
                       packetsReceived := r.stats.packetsReceived + |payloads|),
              r.delivered + payloads)
  }

  /** An intact body is delivered as the payload it was made of, and counted as received. */
  lemma BodyIsHandled(params: Params, r: Reception, payload: seq<Byte>)
    ensures Handled(params, r, Body(params, payload)) == Intact(r, |Body(params, payload)|, [payload])
  {
    var header := params.crc(payload);
    HeaderRoundTrip(header, payload);
    Hamming74.RoundTrip(payload);
    Hamming74.RoundTrip(AddHeader(header, payload));
  }

  /** With Hamming coding on, so is a body in which the line has flipped at most one of the low seven bits
      of each codeword. */
  lemma NoisyBodyIsHandled(params: Params, r: Reception, payload: seq<Byte>, noise: seq<Byte>)
    requires params.useHammingEC
    ensures |noise| == |Body(params, payload)| && All(Hamming74.AtMostOneFlip, noise) ==>
      Handled(params, r, Hamming74.Disturbed(Body(params, payload), noise)) == Intact(r, |noise|, [payload])
  {
    if |noise| == |Body(params, payload)| && All(Hamming74.AtMostOneFlip, noise) {
      var header := params.crc(payload);
      HeaderRoundTrip(header, payload);
      Hamming74.SingleErrorCorrection(Message(params, payload), noise);
    }
  }

  function Bodies(params: Params, payloads: seq<seq<Byte>>): (r: seq<seq<Byte>>)
    ensures |r| == |payloads|
    ensures forall k :: 0 <= k < |r| ==> r[k] == Body(params, payloads[k])
  {
    if payloads == [] then [] else [Body(params, payloads[0])] + Bodies(params, payloads[1..])
  }

  function TotalSize(texts: seq<seq<Byte>>): nat {
    if texts == [] then 0 else |texts[0]| + TotalSize(texts[1..])
  }

  lemma IntactConcat(r: Reception, m: nat, a: seq<seq<Byte>>, n: nat, b: seq<seq<Byte>>)
    ensures Intact(Intact(r, m, a), n, b) == Intact(r, m + n, a + b)
  {
    assert r.delivered + a + b == r.delivered + (a + b);
  }

  /** Whatever has been received before, this packet string is taken for this payload. */
  ghost predicate Carries(params: Params, text: seq<Byte>, payload: seq<Byte>) {
    forall r :: Handled(params, r, text) == Intact(r, |text|, [payload])
  }

  ghost predicate Carry(params: Params, texts: seq<seq<Byte>>, payloads: seq<seq<Byte>>) {
    |texts| == |payloads| && forall k :: 0 <= k < |texts| ==> Carries(params, texts[k], payloads[k])
  }

  lemma {:induction false} TextsAreHandled(params: Params, r: Reception, texts: seq<seq<Byte>>,
                                           payloads: seq<seq<Byte>>)
    requires Carry(params, texts, payloads)
    ensures HandledAll(params, r, texts) == Intact(r, TotalSize(texts), payloads)
    decreases texts
  {
    if texts == [] {
      assert r.delivered + [] == r.delivered;
    } else {
      var first, rest := texts[0], texts[1..];
      assert [first] + rest == texts && [payloads[0]] + payloads[1..] == payloads;
      HandledConcat(params, r, [first], rest);
      HandledOne(params, r, first);
      assert Carries(params, first, payloads[0]);
      TextsAreHandled(params, Intact(r, |first|, [payloads[0]]), rest, payloads[1..]);
      IntactConcat(r, |first|, [payloads[0]], TotalSize(rest), payloads[1..]);
    }
  }

  /** What a sender puts on the wire for a list of payloads, as SendPacket does one by one. */
  function SentWire(params: Params, payloads: seq<seq<Byte>>): seq<Byte> {
    Wire(params.delimiter, Bodies(params, payloads))
  }

  lemma {:induction false} SentWireSnoc(params: Params, payloads: seq<seq<Byte>>, payload: seq<Byte>)
    ensures SentWire(params, payloads + [payload])
         == SentWire(params, payloads) + (Body(params, payload) + params.delimiter)
  {
    if payloads == [] {
      assert Bodies(params, [payload])[1..] == [];
    } else {
      SentWireSnoc(params, payloads[1..], payload);
      assert (payloads + [payload])[1..] == payloads[1..] + [payload];
      var first := Body(params, payloads[0]) + params.delimiter;
      assert first + (SentWire(params, payloads[1..]) + (Body(params, payload) + params.delimiter))
          == first + SentWire(params, payloads[1..]) + (Body(params, payload) + params.delimiter);
    }
  }

  lemma {:induction false} WireSize(delim: seq<Byte>, bodies: seq<seq<Byte>>)
    ensures |Wire(delim, bodies)| == TotalSize(bodies) + |bodies| * |delim|
  {
    if bodies == [] {
    } else {
      WireSize(delim, bodies[1..]);
    }
  }

  /** A fresh receiver makes these payloads out of what is on the wire: they are delivered in order, both
      buffers are empty again, nothing is counted as corrupted, every packet is counted as received, and
      the bytes received are the bytes of the wire less one delimiter each. */
  ghost predicate ArrivesAs(params: Params, wire: seq<Byte>, payloads: seq<seq<Byte>>)
    requires params.delimiter != []
  {
    var d := Feed(params.delimiter, Deframer([], [], []), wire);
    var r := HandledAll(params, Reception(Stats(0, 0, 0, 0, 0, 0), []), d.frames);
    && d.pending == [] && d.packet == []
    && r.delivered == payloads
    && r.stats.packetsCorrupted == r.stats.dataCorrupted == 0
    && r.stats.packetsReceived == |payloads|
    && |wire| == r.stats.dataReceived + |payloads| * |params.delimiter|
  }

  lemma TextsArrive(params: Params, texts: seq<seq<Byte>>, payloads: seq<seq<Byte>>)
    requires params.delimiter != [] && Carry(params, texts, payloads)
    requires forall k :: 0 <= k < |texts| ==> Framable(params.delimiter, texts[k])
    ensures ArrivesAs(params, Wire(params.delimiter, texts), payloads)
  {
    FramableBodiesArrive(params.delimiter, Deframer([], [], []), texts);
    assert [] + texts == texts;
    TextsAreHandled(params, Reception(Stats(0, 0, 0, 0, 0, 0), []), texts, payloads);
    WireSize(params.delimiter, texts);
  }

  /** End to end: with any delimiter and any setting of CRC and Hamming, payloads whose bodies are framable
      all arrive. */
  lemma SerialRoundTrip(params: Params, payloads: seq<seq<Byte>>)
    requires params.delimiter != []
    requires forall k :: 0 <= k < |payloads| ==> Framable(params.delimiter, Body(params, payloads[k]))
    ensures ArrivesAs(params, SentWire(params, payloads), payloads)
  {
    var bodies := Bodies(params, payloads);
    forall k, r | 0 <= k < |payloads|
      ensures Handled(params, r, bodies[k]) == Intact(r, |bodies[k]|, [payloads[k]])
    {
      BodyIsHandled(params, r, payloads[k]);
    }
    TextsArrive(params, bodies, payloads);
  }

  method SendAll(handler: SerialHandler, payloads: seq<seq<Byte>>)
    requires handler.Valid() && handler.params.direction != RECEIVE
    modifies handler`wire, handler`stats
    ensures var sent := SentWire(handler.params, payloads);
      && handler.wire == old(handler.wire) + sent
      && handler.stats == old(handler.stats).(packetsSent := old(handler.stats).packetsSent + |payloads|,
                                              dataSent := old(handler.stats).dataSent + |sent|)
  {
    for k := 0 to |payloads|
      invariant var sent := SentWire(handler.params, payloads[..k]);
        && handler.wire == old(handler.wire) + sent
        && handler.stats == old(handler.stats).(packetsSent := old(handler.stats).packetsSent + k,
                                                dataSent := old(handler.stats).dataSent + |sent|)
    {
      SentWireSnoc(handler.params, payloads[..k], payloads[k]);
      assert payloads[..k + 1] == payloads[..k] + [payloads[k]];
      var _ := handler.SendPacket(payloads[k]);
    }
    assert payloads[..|payloads|] == payloads;
  }

  /** The line hands the bytes over in portions of the sizes given, and the rest at the end. */
  method DeliverAll(handler: SerialHandler, bytes: seq<Byte>, portions: seq<nat>)
    requires handler.Valid() && handler.inBuffer == [] && handler.packetBuffer == [] && handler.frames == []
    modifies handler`inBuffer, handler`packetBuffer, handler`stats, handler`delivered, handler`frames
    ensures var d := Feed(handler.delimString, Deframer([], [], []), bytes);
      && Deframer(handler.inBuffer, handler.packetBuffer, handler.frames) == d
      && handler.Received() == HandledAll(handler.params, old(handler.Received()), d.frames)
  {
    var at := 0;
    for k := 0 to |portions| + 1
      invariant 0 <= at <= |bytes| && handler.delim !in handler.inBuffer
      invariant k > |portions| ==> at == |bytes|
      invariant Deframer(handler.inBuffer, handler.packetBuffer, handler.frames)
             == Feed(handler.delimString, Deframer([], [], []), bytes[..at])
      invariant handler.HandledSince([], old(handler.Received()))
    {
      var to := if k < |portions| && at + portions[k] <= |bytes| then at + portions[k] else |bytes|;
      FeedConcat(handler.delimString, Deframer([], [], []), bytes[..at], bytes[at..to]);
      assert bytes[..at] + bytes[at..to] == bytes[..to];
      ghost var seen, received := handler.frames, handler.Received();
      handler.Arrive(bytes[at..to]);
      handler.SinceBoth([], old(handler.Received()), seen, received);
      at := to;
    }
    assert bytes[..at] == bytes && handler.frames[0..] == handler.frames;
  }

  /** Two handlers with the same settings and a line between them that hands over what it gets in any
      portions: every framable payload arrives, in order, and the two sides' statistics agree. */
  method Link(params: Params, payloads: seq<seq<Byte>>, portions: seq<nat>)
    returns (sender: SerialHandler, receiver: SerialHandler)
    requires params.delimiter != [] && params.direction == BOTH
    requires forall k :: 0 <= k < |payloads| ==> Framable(params.delimiter, Body(params, payloads[k]))
    ensures fresh(sender) && fresh(receiver)
    ensures receiver.delivered == payloads
    ensures receiver.stats.packetsCorrupted == receiver.stats.dataCorrupted == 0
    ensures receiver.stats.packetsReceived == sender.stats.packetsSent == |payloads|
    ensures sender.stats.dataSent == receiver.stats.dataReceived + |payloads| * |params.delimiter|
  {
    sender := new SerialHandler(params);
    receiver := new SerialHandler(params);
    SendAll(sender, payloads);
    ghost var sent := SentWire(params, payloads);
    assert sender.wire == [] + sent == sent;
    DeliverAll(receiver, sender.wire, portions);
    SerialRoundTrip(params, payloads);
  }
}
