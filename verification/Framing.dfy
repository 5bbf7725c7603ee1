// The delimiter framing inside src/Utilities/IDC/NetworkLayer/Serial/SerialHandler.cpp, as a machine
// fed one byte at a time, and the exact condition under which a message comes out as it went in.

module Framing {
  /** `pending` is what the input buffer holds since the last delimiter character, `packet` is the
      packet buffer, `frames` are the packet strings cut out so far. */
  datatype Deframer<T> = Deframer(pending: seq<T>, packet: seq<T>, frames: seq<seq<T>>)

  predicate EndsWith<T(==)>(s: seq<T>, t: seq<T>) {
    |s| >= |t| && s[|s| - |t|..] == t
  }

  /** The end-of-packet test on the accumulated text: it never accepts the bare delimiter. */
  predicate EndOfPacket<T(==)>(delim: seq<T>, text: seq<T>) {
    |text| > |delim| && EndsWith(text, delim)
  }

  /** What one delimiter character does after `line` has been read up to it. */
  function Cut<T(==)>(delim: seq<T>, d: Deframer<T>, line: seq<T>): Deframer<T>
    requires delim != []
  {
    if |delim| == 1 then d.(frames := d.frames + [line])
    else
      var text := d.packet + line + [delim[|delim| - 1]];
      if EndOfPacket(delim, text)
      then Deframer(d.pending, [], d.frames + [text[..|text| - |delim|]])
      else d.(packet := text)
  }

  function FeedByte<T(==)>(delim: seq<T>, d: Deframer<T>, b: T): Deframer<T>
    requires delim != []
  {
    if b == delim[|delim| - 1] then Cut(delim, d.(pending := []), d.pending)
    else d.(pending := d.pending + [b])
  }

  function Feed<T(==)>(delim: seq<T>, d: Deframer<T>, bytes: seq<T>): Deframer<T>
    requires delim != []
  {
    if bytes == [] then d else FeedByte(delim, Feed(delim, d, bytes[..|bytes| - 1]), bytes[|bytes| - 1])
  }

  /** How the stream is split on arrival does not matter. */
  lemma {:induction false} FeedConcat<T>(delim: seq<T>, d: Deframer<T>, a: seq<T>, b: seq<T>)
    requires delim != []
    ensures Feed(delim, d, a + b) == Feed(delim, Feed(delim, d, a), b)
    decreases b
  {
    if b == [] {
      assert a + b == a;
    } else {
      FeedConcat(delim, d, a, b[..|b| - 1]);
      assert (a + b)[..|a + b| - 1] == a + b[..|b| - 1];
    }
  }

  lemma FeedOne<T>(delim: seq<T>, d: Deframer<T>, a: seq<T>, b: T)
    requires delim != []
    ensures Feed(delim, d, a + [b]) == FeedByte(delim, Feed(delim, d, a), b)
  {
    assert (a + [b])[..|a|] == a;
  }

  /** Without the delimiter's last character nothing is cut. */
  lemma {:induction false} QuietLine<T>(delim: seq<T>, d: Deframer<T>, line: seq<T>)
    requires delim != [] && d.pending == [] && delim[|delim| - 1] !in line
    ensures Feed(delim, d, line) == d.(pending := line)
  {
    var n := 0;
    while n < |line|
      invariant n <= |line| && Feed(delim, d, line[..n]) == d.(pending := line[..n])
    {
      FeedOne(delim, d, line[..n], line[n]);
      assert line[..n + 1] == line[..n] + [line[n]];
      n := n + 1;
    }
    assert line[..n] == line;
  }

  lemma LineRead<T>(delim: seq<T>, d: Deframer<T>, line: seq<T>, rest: seq<T>)
    requires delim != [] && d.pending == [] && delim[|delim| - 1] !in line
    ensures Feed(delim, d, line + [delim[|delim| - 1]] + rest) == Feed(delim, Cut(delim, d, line), rest)
  {
    var last := delim[|delim| - 1];
    QuietLine(delim, d, line);
    FeedOne(delim, d, line, last);
    FeedConcat(delim, d, line + [last], rest);
  }

  lemma {:induction false} FramesGrow<T>(delim: seq<T>, d: Deframer<T>, bytes: seq<T>)
    requires delim != []
    ensures d.frames <= Feed(delim, d, bytes).frames
    decreases bytes
  {
    if bytes == [] {
    } else {
      FramesGrow(delim, d, bytes[..|bytes| - 1]);
    }
  }

  // ----- where a frame ends

  /** Reading from a clean start, the text read so far completes a frame. */
  predicate Complete<T(==)>(delim: seq<T>, text: seq<T>)
    requires delim != []
  {
    if |delim| == 1 then EndsWith(text, delim) else EndOfPacket(delim, text)
  }

  predicate Clean<T(==)>(d: Deframer<T>) {
    d.pending == [] && d.packet == []
  }

  lemma LastOfSuffix<T>(text: seq<T>, delim: seq<T>)
    requires delim != [] && EndsWith(text, delim)
    ensures text[|text| - 1] == delim[|delim| - 1]
  {
    assert text[|text| - |delim|..][|delim| - 1] == text[|text| - 1];
  }

  /** No prefix of the text up to length n completes a frame. */
  ghost predicate Silent<T>(delim: seq<T>, text: seq<T>, n: nat)
    requires delim != [] && n <= |text|
  {
    forall m :: 1 <= m <= n ==> !Complete(delim, text[..m])
  }

  lemma SilentPrefix<T>(delim: seq<T>, text: seq<T>, front: seq<T>, n: nat)
    requires delim != [] && n <= |front| && front <= text
    ensures Silent(delim, front, n) <==> Silent(delim, text, n)
  {
    assert forall m :: 1 <= m <= n ==> front[..m] == text[..m];
  }

  /** The deframer has read `text` and only kept it. */
  ghost predicate Held<T>(delim: seq<T>, r: Deframer<T>, text: seq<T>, frames: seq<seq<T>>) {
    r.packet + r.pending == text && r.frames == frames && (|delim| == 1 ==> r.packet == [])
  }

  /** Until something completes, the deframer has put nothing out and holds all it has read. */
  lemma {:induction false} Holds<T>(delim: seq<T>, d: Deframer<T>, text: seq<T>)
    requires delim != [] && Clean(d) && Silent(delim, text, |text|)
    ensures Held(delim, Feed(delim, d, text), text, d.frames)
    decreases text
  {
    if text == [] {
    } else {
      SilentSplit(delim, text);
      Holds(delim, d, text[..|text| - 1]);
      NextByteIsHeld(delim, Feed(delim, d, text[..|text| - 1]), text, d.frames);
    }
  }

  lemma SilentSplit<T>(delim: seq<T>, text: seq<T>)
    requires delim != [] && text != [] && Silent(delim, text, |text|)
    ensures var front := text[..|text| - 1]; Silent(delim, front, |front|)
    ensures !Complete(delim, text)
  {
    SilentPrefix(delim, text, text[..|text| - 1], |text| - 1);
    assert text[..|text|] == text;
  }

  lemma NextByteIsHeld<T>(delim: seq<T>, r: Deframer<T>, text: seq<T>, frames: seq<seq<T>>)
    requires delim != [] && text != [] && Held(delim, r, text[..|text| - 1], frames)
    requires !Complete(delim, text)
    ensures Held(delim, FeedByte(delim, r, text[|text| - 1]), text, frames)
  {
    assert r.packet + r.pending + [text[|text| - 1]] == text;
    assert r.packet + (r.pending + [text[|text| - 1]]) == text;
    if |delim| == 1 {
      OneCharacter(delim, text, |text|);
      assert text[..|text|] == text;
    }
  }

  /** The first completion puts out exactly the text before the delimiter and leaves no trace. */
  lemma FirstCompletion<T>(delim: seq<T>, d: Deframer<T>, text: seq<T>)
    requires delim != [] && Clean(d) && text != []
    requires Silent(delim, text, |text| - 1) && Complete(delim, text)
    ensures Feed(delim, d, text) == Deframer([], [], d.frames + [text[..|text| - |delim|]])
  {
    SilentPrefix(delim, text, text[..|text| - 1], |text| - 1);
    Holds(delim, d, text[..|text| - 1]);
    LastOfSuffix(text, delim);
    CompletingByte(delim, Feed(delim, d, text[..|text| - 1]), text, d.frames);
  }

  lemma CompletingByte<T>(delim: seq<T>, r: Deframer<T>, text: seq<T>, frames: seq<seq<T>>)
    requires delim != [] && text != [] && Held(delim, r, text[..|text| - 1], frames)
    requires text[|text| - 1] == delim[|delim| - 1] && Complete(delim, text)
    ensures FeedByte(delim, r, text[|text| - 1]) == Deframer([], [], frames + [text[..|text| - |delim|]])
  {
    assert r.packet + r.pending + [text[|text| - 1]] == text;
    if |delim| == 1 {
      assert r.pending == text[..|text| - 1];
    }
  }

  lemma OneCharacter<T>(delim: seq<T>, text: seq<T>, m: nat)
    requires |delim| == 1 && 1 <= m <= |text|
    ensures EndsWith(text[..m], delim) <==> text[m - 1] == delim[0]
  {
    assert text[..m][m - 1..] == [text[m - 1]];
    assert delim == [delim[0]];
  }

  // ----- the exact framing condition

  /** What a body must satisfy to be framed: with a one-character delimiter not to contain it; with a
      longer one not to be empty and not to let the delimiter occur before the end, other than as
      the very beginning of the message. */
  predicate Framable<T(==)>(delim: seq<T>, body: seq<T>)
    requires delim != []
  {
    if |delim| == 1 then delim[0] !in body
    else body != [] && forall i :: 0 < i < |body| ==> !OccursAt(delim, body + delim, i)
  }

  predicate OccursAt<T(==)>(delim: seq<T>, text: seq<T>, i: nat) {
    i + |delim| <= |text| && text[i..i + |delim|] == delim
  }

  lemma CompleteIsOccurrence<T>(delim: seq<T>, text: seq<T>, m: nat)
    requires delim != [] && |delim| <= m <= |text|
    ensures EndsWith(text[..m], delim) <==> OccursAt(delim, text, m - |delim|)
  {
    assert text[..m][m - |delim|..] == text[m - |delim|..m];
  }

  /** Framable says that the message completes a frame, and no proper prefix of it does. */
  lemma FramableIsFirstCompletion<T>(delim: seq<T>, body: seq<T>)
    requires delim != []
    ensures var text := body + delim;
      Framable(delim, body) <==> Complete(delim, text) && Silent(delim, text, |text| - 1)
  {
    var text := body + delim;
    assert text[|body|..] == delim;
    if |delim| == 1 {
      FramableOne(delim, body);
    } else if body != [] {
      FramableLong(delim, body);
    }
  }

  lemma FramableOne<T>(delim: seq<T>, body: seq<T>)
    requires |delim| == 1
    ensures delim[0] !in body <==> Silent(delim, body + delim, |body|)
  {
    var text := body + delim;
    forall m | 1 <= m <= |body|
      ensures Complete(delim, text[..m]) <==> body[m - 1] == delim[0]
    {
      OneCharacter(delim, text, m);
    }
    if i :| 0 <= i < |body| && body[i] == delim[0] {
      assert Complete(delim, text[..i + 1]);
    }
  }

  lemma FramableLong<T>(delim: seq<T>, body: seq<T>)
    requires |delim| > 1 && body != []
    ensures (forall i :: 0 < i < |body| ==> !OccursAt(delim, body + delim, i))
      <==> Silent(delim, body + delim, |body + delim| - 1)
  {
    var text := body + delim;
    forall m | |delim| < m < |text|
      ensures Complete(delim, text[..m]) <==> OccursAt(delim, text, m - |delim|)
    {
      CompleteIsOccurrence(delim, text, m);
    }
    if i :| 0 < i < |body| && OccursAt(delim, text, i) {
      assert Complete(delim, text[..i + |delim|]);
    }
  }

  /** The wire for a list of bodies. */
  function Wire<T(==)>(delim: seq<T>, bodies: seq<seq<T>>): seq<T> {
    if bodies == [] then [] else bodies[0] + delim + Wire(delim, bodies[1..])
  }

  /** The first completion in a text. */
  lemma {:induction false} LeastCompletion<T>(delim: seq<T>, text: seq<T>, m: nat) returns (k: nat)
    requires delim != [] && 1 <= m <= |text| && Complete(delim, text[..m])
    ensures 1 <= k <= m && Complete(delim, text[..k]) && Silent(delim, text, k - 1)
    decreases m
  {
    if j :| 1 <= j < m && Complete(delim, text[..j]) {
      k := LeastCompletion(delim, text, j);
    } else {
      k := m;
    }
  }

  lemma FirstFrame<T>(delim: seq<T>, d: Deframer<T>, text: seq<T>, k: nat)
    requires delim != [] && Clean(d) && 1 <= k <= |text|
    requires Complete(delim, text[..k]) && Silent(delim, text, k - 1)
    ensures |delim| <= k
    ensures d.frames + [text[..k - |delim|]] <= Feed(delim, d, text).frames
  {
    var first, rest := text[..k], text[k..];
    SilentPrefix(delim, text, first, k - 1);
    FirstCompletion(delim, d, first);
    assert first[..k - |delim|] == text[..k - |delim|];
    assert first + rest == text;
    FeedConcat(delim, d, first, rest);
    FramesGrow(delim, Feed(delim, d, first), rest);
  }

  /** A body that is not framable makes the first frame of any wire it starts something else. */
  lemma UnframableSpoils<T>(delim: seq<T>, d: Deframer<T>, body: seq<T>, rest: seq<T>)
    requires delim != [] && Clean(d) && !Framable(delim, body)
    ensures var r := Feed(delim, d, body + delim + rest);
      |r.frames| > |d.frames| ==> r.frames[|d.frames|] != body
  {
    var text := body + delim + rest;
    if Silent(delim, text, |text|) {
      Holds(delim, d, text);
    } else {
      var m :| 1 <= m <= |text| && Complete(delim, text[..m]);
      var k := LeastCompletion(delim, text, m);
      FirstFrame(delim, d, text, k);
      if text[..k - |delim|] == body {
        CompletesAtItsOwnEnd(delim, body, rest, k);
      }
    }
  }

  lemma CompletesAtItsOwnEnd<T>(delim: seq<T>, body: seq<T>, rest: seq<T>, k: nat)
    requires delim != []
    requires var text := body + delim + rest;
      && |delim| <= k <= |text| && k - |delim| == |body|
      && Complete(delim, text[..k]) && Silent(delim, text, k - 1)
    ensures Framable(delim, body)
  {
    var text := body + delim + rest;
    assert text[..k] == body + delim;
    SilentPrefix(delim, text, body + delim, k - 1);
    FramableIsFirstCompletion(delim, body);
  }

  lemma FramableSplits<T>(delim: seq<T>, d: Deframer<T>, body: seq<T>, rest: seq<T>)
    requires delim != [] && Clean(d) && Framable(delim, body)
    ensures Feed(delim, d, body + delim + rest)
         == Feed(delim, Deframer([], [], d.frames + [body]), rest)
  {
    FramableIsFirstCompletion(delim, body);
    FirstCompletion(delim, d, body + delim);
    assert (body + delim)[..|body|] == body;
    FeedConcat(delim, d, body + delim, rest);
  }

  /** The exact condition: a list of bodies crosses the wire unchanged if and only if each of them is
      framable. */
  lemma {:induction false} FramingExact<T>(delim: seq<T>, d: Deframer<T>, bodies: seq<seq<T>>)
    requires delim != [] && Clean(d)
    ensures Feed(delim, d, Wire(delim, bodies)).frames == d.frames + bodies
      <==> forall k :: 0 <= k < |bodies| ==> Framable(delim, bodies[k])
    decreases bodies
  {
    if bodies == [] {
    } else {
      var b, rest := bodies[0], bodies[1..];
      if Framable(delim, b) {
        FramableSplits(delim, d, b, Wire(delim, rest));
        FramingExact(delim, Deframer([], [], d.frames + [b]), rest);
        assert d.frames + [b] + rest == d.frames + bodies;
        assert (forall k :: 0 <= k < |rest| ==> Framable(delim, rest[k]))
            ==> forall k :: 0 <= k < |bodies| ==> Framable(delim, ([b] + rest)[k]);
        assert bodies == [b] + rest;
      } else {
        UnframableSpoils(delim, d, b, Wire(delim, rest));
        assert (d.frames + bodies)[|d.frames|] == b;
      }
    }
  }

  /** And then nothing is left behind in the buffers. */
  lemma {:induction false} FramableBodiesArrive<T>(delim: seq<T>, d: Deframer<T>, bodies: seq<seq<T>>)
    requires delim != [] && Clean(d)
    requires forall k :: 0 <= k < |bodies| ==> Framable(delim, bodies[k])
    ensures Feed(delim, d, Wire(delim, bodies)) == Deframer([], [], d.frames + bodies)
    decreases bodies
  {
    if bodies == [] {
      assert d.frames + bodies == d.frames;
    } else {
      var first, rest := bodies[0], bodies[1..];
      var e := Deframer([], [], d.frames + [first]);
      FramableSplits(delim, d, first, Wire(delim, rest));
      FramableBodiesArrive(delim, e, rest);
      assert e.frames + rest == d.frames + bodies by {
        assert [first] + rest == bodies;
      }
    }
  }

  // ----- delimiters from outside an alphabet

  predicate All<T>(inside: T -> bool, s: seq<T>) {
    forall j :: 0 <= j < |s| ==> inside(s[j])
  }

  lemma FirstOutsider<T>(inside: T -> bool, delim: seq<T>) returns (j: nat)
    requires !All(inside, delim)
    ensures j < |delim| && !inside(delim[j]) && All(inside, delim[..j])
  {
    j := 0;
    while inside(delim[j])
      invariant j < |delim| && All(inside, delim[..j])
      decreases |delim| - j
    {
      assert All(inside, delim[..j + 1]);
      assert delim[..|delim|] == delim;
      j := j + 1;
    }
  }

  lemma OccurrenceElement<T>(delim: seq<T>, text: seq<T>, i: nat, j: nat)
    requires OccursAt(delim, text, i) && j < |delim|
    ensures text[i + j] == delim[j]
  {
    assert text[i..i + |delim|][j] == text[i + j];
  }

  /** Shifted by less than the body, the delimiter's first element from outside falls on one from inside:
      one of the body, or an earlier one of the delimiter itself. */
  lemma ShiftedMismatch<T>(inside: T -> bool, delim: seq<T>, body: seq<T>, i: nat, j: nat)
    requires j < |delim| && !inside(delim[j]) && All(inside, delim[..j])
    requires All(inside, body) && i < |body|
    ensures !OccursAt(delim, body + delim, i)
  {
    var text := body + delim;
    if OccursAt(delim, text, i) {
      OccurrenceElement(delim, text, i, j);
    }
    assert inside(text[i + j]) by {
      if i + j >= |body| {
        assert text[i + j] == delim[..j][i + j - |body|];
      }
    }
  }

  /** A delimiter with an element from outside frames every non-empty body from inside. */
  lemma OutsiderDelimits<T>(inside: T -> bool, delim: seq<T>, body: seq<T>)
    requires !All(inside, delim) && All(inside, body) && body != []
    ensures Framable(delim, body)
  {
    var j := FirstOutsider(inside, delim);
    if |delim| > 1 {
      forall i | 0 < i < |body| ensures !OccursAt(delim, body + delim, i) {
        ShiftedMismatch(inside, delim, body, i, j);
      }
    } else {
      assert delim[0] !in body;
    }
  }

  /** A text of even length that brings the delimiter into a body, past its beginning. */
  function Intruder<T>(delim: seq<T>): (text: seq<T>)
    requires delim != []
    ensures |text| % 2 == 0
    ensures forall i :: 0 <= i < |text| ==> text[i] in delim
  {
    var front := [delim[0], delim[0]] + delim;
    if |delim| % 2 == 0 then front else front + [delim[0]]
  }

  lemma IntruderSpoils<T>(delim: seq<T>, front: seq<T>)
    requires delim != []
    ensures !Framable(delim, front + Intruder(delim))
  {
    var text := Intruder(delim);
    var body := front + text;
    assert text[2..2 + |delim|] == delim;
    if |delim| == 1 {
      assert text[0] == delim[0] && body[|front|] == delim[0];
    } else {
      var i := |front| + 2;
      assert (body + delim)[i..i + |delim|] == text[2..2 + |delim|];
      assert OccursAt(delim, body + delim, i);
    }
  }
}
