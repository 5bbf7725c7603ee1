// What a receiver makes of any byte stream: which packets it delivers and which it counts as corrupted.

module ReceptionTheorems {
  import opened Bytes
  import opened Framing
  import opened SerialHandler
  import Hamming74

  // ----- one packet

  /** A packet string once it has been decoded. */
  function Content(params: Params, text: seq<Byte>): seq<Byte> {
    if params.useHammingEC then Hamming74.Decoded(text) else text
  }

  /** The packet string is genuine and carries this payload. Without CRC every one is. With it the content
      is the payload behind its own CRC; a content of less than two bytes is taken for a payload without
      any header and compared with what the missing header reads as. */
  predicate Genuine(params: Params, text: seq<Byte>, payload: seq<Byte>) {
    var d := Content(params, text);
    var crc := params.crc(payload);
    if !params.useCRC then d == payload
    else if |d| >= 2 then d == [crc.low, crc.high] + payload
    else d == payload && crc == Word16(if d == [] then 0 else d[0], 0)
  }

  ghost predicate Corrupted(params: Params, text: seq<Byte>) {
    forall payload :: !Genuine(params, text, payload)
  }

  lemma HeaderSplits(d: seq<Byte>, header: Word16, payload: seq<Byte>)
    ensures d == [header.low, header.high] + payload ==>
      |d| >= 2 && d[0] == header.low && d[1] == header.high && d[2..] == payload
  {
  }

  lemma Unchecked(params: Params, text: seq<Byte>)
    ensures !params.useCRC ==> Genuine(params, text, Content(params, text))
  {
  }

  /** A packet string of two bytes or more whose header is not the CRC of the rest is corrupted. */
  lemma WrongCrc(params: Params, text: seq<Byte>)
    requires params.useCRC && |Content(params, text)| >= 2
    requires var d := Content(params, text); Word16(d[0], d[1]) != params.crc(d[2..])
    ensures Corrupted(params, text)
  {
    var d := Content(params, text);
    forall payload ensures !Genuine(params, text, payload) {
      HeaderSplits(d, params.crc(payload), payload);
    }
  }

  /** A genuine packet is delivered and counted as received. */
  lemma GenuineIsDelivered(params: Params, r: Reception, text: seq<Byte>, payload: seq<Byte>)
    requires Genuine(params, text, payload)
    ensures Handled(params, r, text) == Intact(r, |text|, [payload])
  {
    var d := Content(params, text);
    HeaderSplits(d, params.crc(payload), payload);
  }

  /** What the upper layers hold after a corrupted packet: nothing more, but it has been counted. */
  function Rejected(r: Reception, size: nat): Reception {
    r.(stats := r.stats.(
         dataReceived := r.stats.dataReceived + size, packetsReceived := r.stats.packetsReceived + 1,
         dataCorrupted := r.stats.dataCorrupted + size, packetsCorrupted := r.stats.packetsCorrupted + 1))
  }

  /** A corrupted packet is not delivered, and it is counted as corrupted with all its bytes. */
  lemma CorruptedIsRejected(params: Params, r: Reception, text: seq<Byte>)
    requires Corrupted(params, text)
    ensures Handled(params, r, text) == Rejected(r, |text|)
  {
    var d := Content(params, text);
    Unchecked(params, text);
    if |d| >= 2 {
      assert d == [d[0], d[1]] + d[2..];
      assert !Genuine(params, text, d[2..]);
    } else {
      assert !Genuine(params, text, d);
    }
  }

  // ----- all packets of a stream

  predicate Ascending(which: seq<nat>, n: nat) {
    && (forall k :: 0 <= k < |which| ==> which[k] < n)
    && forall j, k :: 0 <= j < k < |which| ==> which[j] < which[k]
  }

  function Sizes(texts: seq<seq<Byte>>, which: seq<nat>): nat
    requires Ascending(which, |texts|)
  {
    if which == [] then 0
    else |texts[which[|which| - 1]]| + Sizes(texts, which[..|which| - 1])
  }

  lemma {:induction false} SizesKeep(texts: seq<seq<Byte>>, text: seq<Byte>, which: seq<nat>)
    requires Ascending(which, |texts|)
    ensures Ascending(which, |texts + [text]|) && Sizes(texts + [text], which) == Sizes(texts, which)
  {
    if which == [] {
    } else {
      SizesKeep(texts, text, which[..|which| - 1]);
    }
  }

  lemma {:induction false} TotalSizeSnoc(texts: seq<seq<Byte>>, text: seq<Byte>)
    ensures TotalSize(texts + [text]) == TotalSize(texts) + |text|
  {
    if texts == [] {
    } else {
      TotalSizeSnoc(texts[1..], text);
      assert (texts + [text])[1..] == texts[1..] + [text];
    }
  }

  /** The payloads are those of the packet strings with the numbers `which`, in order; all others are
      corrupted. */
  ghost predicate Picked(params: Params, texts: seq<seq<Byte>>, payloads: seq<seq<Byte>>, which: seq<nat>) {
    && Ascending(which, |texts|) && |which| == |payloads|
    && (forall k :: 0 <= k < |which| ==> Genuine(params, texts[which[k]], payloads[k]))
    && (forall f :: 0 <= f < |texts| && f !in which ==> Corrupted(params, texts[f]))
  }

  /** Everything is counted as received, and what is not picked as corrupted, with its bytes. */
  predicate Counted(texts: seq<seq<Byte>>, stats: Stats, which: seq<nat>) {
    && Ascending(which, |texts|)
    && stats.packetsReceived == |texts| == |which| + stats.packetsCorrupted
    && stats.dataReceived == TotalSize(texts) == Sizes(texts, which) + stats.dataCorrupted
  }

  /** What a fresh receiver holds after these packet strings. */
  ghost predicate SortedOut(params: Params, texts: seq<seq<Byte>>, r: Reception, which: seq<nat>) {
    Picked(params, texts, r.delivered, which) && Counted(texts, r.stats, which)
  }

  lemma OneMorePicked(params: Params, texts: seq<seq<Byte>>, payloads: seq<seq<Byte>>, which: seq<nat>,
                      text: seq<Byte>, payload: seq<Byte>)
    requires Picked(params, texts, payloads, which) && Genuine(params, text, payload)
    ensures Picked(params, texts + [text], payloads + [payload], which + [|texts|])
  {
    var all, more := texts + [text], which + [|texts|];
    forall k | 0 <= k < |more| ensures Genuine(params, all[more[k]], (payloads + [payload])[k]) {
      assert k < |which| ==> all[more[k]] == texts[which[k]];
    }
    forall f | 0 <= f < |all| && f !in more ensures Corrupted(params, all[f]) {
      assert more[|which|] == |texts|;
      assert f !in which;
    }
  }

  lemma OneMoreCounted(texts: seq<seq<Byte>>, stats: Stats, which: seq<nat>, text: seq<Byte>)
    requires Counted(texts, stats, which)
    ensures var r := Intact(Reception(stats, []), |text|, [[]]);
      Counted(texts + [text], r.stats, which + [|texts|])
  {
    TotalSizeSnoc(texts, text);
    SizesKeep(texts, text, which);
    var more := which + [|texts|];
    assert more[..|more| - 1] == which;
  }

  lemma OneMoreCorrupted(params: Params, texts: seq<seq<Byte>>, r: Reception, which: seq<nat>, text: seq<Byte>)
    requires SortedOut(params, texts, r, which) && Corrupted(params, text)
    ensures SortedOut(params, texts + [text], Rejected(r, |text|), which)
  {
    TotalSizeSnoc(texts, text);
    SizesKeep(texts, text, which);
  }

  lemma OneMore(params: Params, texts: seq<seq<Byte>>, r: Reception, which: seq<nat>, text: seq<Byte>)
    returns (more: seq<nat>)
    requires SortedOut(params, texts, r, which)
    ensures SortedOut(params, texts + [text], Handled(params, r, text), more)
  {
    if payload :| Genuine(params, text, payload) {
      GenuineIsDelivered(params, r, text, payload);
      OneMorePicked(params, texts, r.delivered, which, text, payload);
      OneMoreCounted(texts, r.stats, which, text);
      more := which + [|texts|];
    } else {
      CorruptedIsRejected(params, r, text);
      OneMoreCorrupted(params, texts, r, which, text);
      more := which;
    }
  }

  const NOTHING := Reception(Stats(0, 0, 0, 0, 0, 0), [])

  lemma {:induction false} TextsAreSortedOut(params: Params, texts: seq<seq<Byte>>) returns (which: seq<nat>)
    ensures SortedOut(params, texts, HandledAll(params, NOTHING, texts), which)
  {
    if texts == [] {
      which := [];
    } else {
      var before, text := texts[..|texts| - 1], texts[|texts| - 1];
      which := TextsAreSortedOut(params, before);
      which := OneMore(params, before, HandledAll(params, NOTHING, before), which, text);
      assert texts == before + [text];
    }
  }

  /** Whatever arrives on the line, a fresh receiver delivers exactly the payloads of the genuine packets
      among those cut out of it, in order, and counts exactly the others as corrupted. */
  lemma StreamIsSortedOut(params: Params, bytes: seq<Byte>) returns (which: seq<nat>)
    requires params.delimiter != []
    ensures var frames := Feed(params.delimiter, Deframer([], [], []), bytes).frames;
      SortedOut(params, frames, HandledAll(params, NOTHING, frames), which)
  {
    which := TextsAreSortedOut(params, Feed(params.delimiter, Deframer([], [], []), bytes).frames);
  }

  /** The same of the object: one that has just been made, after bytes in any portions. */
  method ReceiveStream(params: Params, bytes: seq<Byte>, portions: seq<nat>)
    returns (receiver: SerialHandler, ghost which: seq<nat>)
    requires params.delimiter != []
    ensures fresh(receiver)
    ensures SortedOut(params, receiver.frames, receiver.Received(), which)
    ensures receiver.frames == Feed(params.delimiter, Deframer([], [], []), bytes).frames
  {
    receiver := new SerialHandler(params);
    DeliverAll(receiver, bytes, portions);
    which := StreamIsSortedOut(params, bytes);
  }
}
