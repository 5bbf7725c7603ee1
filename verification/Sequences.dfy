/** Maps over sequences, kept apart from any particular element type or bit arithmetic. */
module Sequences {

  function Map<A, B>(f: A -> B, s: seq<A>): (r: seq<B>)
    ensures |r| == |s|
    ensures forall i :: 0 <= i < |s| ==> r[i] == f(s[i])
  {
    if s == [] then [] else [f(s[0])] + Map(f, s[1..])
  }

  function Zip<A, B, C>(f: (A, B) -> C, s: seq<A>, t: seq<B>): (r: seq<C>)
    requires |s| == |t|
    ensures |r| == |s|
    ensures forall i :: 0 <= i < |s| ==> r[i] == f(s[i], t[i])
  {
    if s == [] then [] else [f(s[0], t[0])] + Zip(f, s[1..], t[1..])
  }

  /** What leads from `s` to `t` does lead there. */
  lemma ZipLeads<A>(f: (A, A) -> A, s: seq<A>, t: seq<A>)
    requires |s| == |t| && forall i :: 0 <= i < |s| ==> f(s[i], f(s[i], t[i])) == t[i]
    ensures Zip(f, s, Zip(f, s, t)) == t
  {
  }

  /** Two results for each element, side by side. */
  function Spread<A, B>(low: A -> B, high: A -> B, s: seq<A>): (r: seq<B>)
    ensures |r| == 2 * |s|
    ensures forall k {:trigger s[k]} :: 0 <= k < |s| ==> r[2 * k] == low(s[k]) && r[2 * k + 1] == high(s[k])
  {
    if s == [] then [] else [low(s[0]), high(s[0])] + Spread(low, high, s[1..])
  }

  /** Neighbours joined two by two; a last odd element goes through `single`. */
  function Pair<A, B>(join: (A, A) -> B, single: A -> B, s: seq<A>): (r: seq<B>)
    ensures |r| == (|s| + 1) / 2
    ensures forall k {:trigger r[k]} :: 0 <= k < |s| / 2 ==> r[k] == join(s[2 * k], s[2 * k + 1])
  {
    if |s| == 0 then []
    else if |s| == 1 then [single(s[0])]
    else [join(s[0], s[1])] + Pair(join, single, s[2..])
  }

  lemma PairStep<A, B>(join: (A, A) -> B, single: A -> B, s: seq<A>, i: nat, done: seq<B>)
    requires i < |s|
    ensures var all := done + Pair(join, single, s[i..]);
      && (i + 1 < |s| ==> all == done + [join(s[i], s[i + 1])] + Pair(join, single, s[i + 2..]))
      && (i + 1 == |s| ==> all == done + [single(s[i])])
  {
    if i + 1 < |s| {
      assert s[i..][2..] == s[i + 2..];
      assert Pair(join, single, s[i..]) == [join(s[i], s[i + 1])] + Pair(join, single, s[i + 2..]);
    }
  }

  /** A last odd element. */
  lemma PairLast<A, B>(join: (A, A) -> B, single: A -> B, s: seq<A>)
    requires |s| % 2 == 1
    ensures Pair(join, single, s)[|s| / 2] == single(s[|s| - 1])
  {
    if |s| == 1 {
    } else {
      var rest := s[2..];
      PairLast(join, single, rest);
      assert |s| / 2 == |rest| / 2 + 1;
      assert Pair(join, single, s) == [join(s[0], s[1])] + Pair(join, single, rest);
    }
  }

  lemma SpreadConcat<A, B>(low: A -> B, high: A -> B, s: seq<A>, t: seq<A>)
    ensures Spread(low, high, s + t) == Spread(low, high, s) + Spread(low, high, t)
  {
    if s == [] {
      assert s + t == t;
    } else {
      SpreadConcat(low, high, s[1..], t);
      assert (s + t)[1..] == s[1..] + t && (s + t)[0] == s[0];
      var first := [low(s[0]), high(s[0])];
      assert first + (Spread(low, high, s[1..]) + Spread(low, high, t))
          == first + Spread(low, high, s[1..]) + Spread(low, high, t);
    }
  }

  lemma SpreadSnoc<A, B>(low: A -> B, high: A -> B, s: seq<A>, x: A)
    ensures Spread(low, high, s + [x]) == Spread(low, high, s) + [low(x), high(x)]
  {
    if s == [] {
    } else {
      SpreadSnoc(low, high, s[1..], x);
      assert (s + [x])[1..] == s[1..] + [x];
    }
  }

  /** Spreading the k-th joined pair gives back the k-th pair of words. */
  predicate Respreads<A, B(==), C>(low: A -> B, high: A -> B, join: (C, C) -> A, parts: seq<C>, words: seq<B>, k: nat)
    requires 2 * k + 1 < |parts| == |words|
  {
    var whole := join(parts[2 * k], parts[2 * k + 1]);
    low(whole) == words[2 * k] && high(whole) == words[2 * k + 1]
  }

  lemma SpreadAt<A, B>(low: A -> B, high: A -> B, s: seq<A>, i: nat)
    requires i < 2 * |s|
    ensures Spread(low, high, s)[i] == if i % 2 == 0 then low(s[i / 2]) else high(s[i / 2])
  {
    var k := i / 2;
    assert s[k] == s[i / 2] && (i == 2 * k || i == 2 * k + 1);
  }

  predicate Halves<A, B(==)>(low: A -> B, high: A -> B, s: seq<A>, words: seq<B>, k: nat)
    requires k < |s| && |words| == 2 * |s|
  {
    low(s[k]) == words[2 * k] && high(s[k]) == words[2 * k + 1]
  }

  lemma SpreadIs<A, B>(low: A -> B, high: A -> B, s: seq<A>, words: seq<B>)
    requires |words| == 2 * |s|
    requires forall k :: 0 <= k < |s| ==> Halves(low, high, s, words, k)
    ensures Spread(low, high, s) == words
  {
    var r := Spread(low, high, s);
    forall i | 0 <= i < |words| ensures r[i] == words[i] {
      SpreadAt(low, high, s, i);
      assert Halves(low, high, s, words, i / 2);
      assert i == 2 * (i / 2) || i == 2 * (i / 2) + 1;
    }
  }

  lemma SpreadOfPair<A, B, C>(low: A -> B, high: A -> B, join: (C, C) -> A, single: C -> A,
                              parts: seq<C>, words: seq<B>)
    requires |parts| == |words| && |words| % 2 == 0
    requires forall k :: 0 <= k < |words| / 2 ==> Respreads(low, high, join, parts, words, k)
    ensures Spread(low, high, Pair(join, single, parts)) == words
  {
    var whole := Pair(join, single, parts);
    forall k | 0 <= k < |whole| ensures Halves(low, high, whole, words, k) {
      assert Respreads(low, high, join, parts, words, k);
    }
    SpreadIs(low, high, whole, words);
  }

  lemma MapPair<A, B>(f: A -> B, a: A, b: A, s: seq<A>)
    ensures Map(f, [a, b] + s) == [f(a), f(b)] + Map(f, s)
  {
    var r := Map(f, [a, b] + s);
    assert forall i :: 0 <= i < |r| ==> r[i] == f(([a, b] + s)[i]);
  }
}
