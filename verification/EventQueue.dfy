// The std::multimap keyed by time that both schedulers use as their event queue. Equal keys keep
// their insertion order, as std::multimap promises, so insertion goes after every equal key.

module EventQueue {
  import opened Options

  /** One element of the queue. `order` counts insertions; the schedulers never read it, it only lets
      "first come, first served" be stated. */
  datatype Entry = Entry(time: int, order: nat, body: nat)

  /** std::multimap::insert: in front of the first strictly later key. */
  function Insert(q: seq<Entry>, e: Entry): (r: seq<Entry>)
    ensures |r| == |q| + 1
  {
    if q == [] || e.time < q[0].time then [e] + q else [q[0]] + Insert(q[1..], e)
  }

  /** Every entry refers to one of the first n bodies. */
  predicate BodiesBelow(q: seq<Entry>, n: nat) {
    forall i :: 0 <= i < |q| ==> q[i].body < n
  }

  lemma {:induction false} InsertBelow(q: seq<Entry>, e: Entry, n: nat)
    requires BodiesBelow(q, n) && e.body < n
    ensures BodiesBelow(Insert(q, e), n)
  {
    if q == [] {
    } else {
      InsertBelow(q[1..], e, n);
    }
  }

  /** Earlier, or at the same time and inserted earlier. */
  predicate Before(a: Entry, b: Entry) {
    a.time < b.time || (a.time == b.time && a.order < b.order)
  }

  predicate Sorted(q: seq<Entry>) {
    forall i, j :: 0 <= i < j < |q| ==> Before(q[i], q[j])
  }

  lemma {:induction false} InsertMembers(q: seq<Entry>, e: Entry)
    ensures forall x :: x in Insert(q, e) <==> x in q || x == e
  {
    if q == [] || e.time < q[0].time {
    } else {
      InsertMembers(q[1..], e);
      assert forall x :: x in q <==> x == q[0] || x in q[1..];
    }
  }

  /** Inserting with a fresh insertion number keeps the queue sorted by (time, order). */
  lemma {:induction false} InsertSorted(q: seq<Entry>, e: Entry)
    requires Sorted(q)
    requires forall x :: x in q ==> x.order < e.order
    ensures Sorted(Insert(q, e))
  {
    if q == [] {
    } else if e.time < q[0].time {
      forall x | x in q ensures Before(e, x) {
        assert x == q[0] || Before(q[0], x);
      }
    } else {
      InsertSorted(q[1..], e);
      InsertMembers(q[1..], e);
      forall x | x in Insert(q[1..], e) ensures Before(q[0], x) {
        assert x in q[1..] || x == e;
      }
    }
  }

  /** The head survives an insertion exactly when the new key is not earlier. */
  lemma InsertHead(q: seq<Entry>, e: Entry)
    requires q != []
    ensures q[0].time <= e.time ==> Insert(q, e) == [q[0]] + Insert(q[1..], e)
    ensures e.time < q[0].time ==> Insert(q, e)[0] == e
  {
  }

  /** The times of the entries of one body, in order: of a queue its pending runs, of a trace its calls. */
  function TimesOf(q: seq<Entry>, body: nat): seq<int> {
    if q == [] then []
    else if q[0].body == body then [q[0].time] + TimesOf(q[1..], body)
    else TimesOf(q[1..], body)
  }

  lemma {:induction false} InsertTimes(q: seq<Entry>, e: Entry, body: nat)
    ensures e.body != body ==> TimesOf(Insert(q, e), body) == TimesOf(q, body)
    ensures e.body == body && TimesOf(q, body) == [] ==> TimesOf(Insert(q, e), body) == [e.time]
  {
    if q == [] || e.time < q[0].time {
    } else {
      InsertTimes(q[1..], e, body);
    }
  }

  lemma {:induction false} TimesNotBeforeHead(q: seq<Entry>, t: int, body: nat)
    requires forall i :: 0 <= i < |q| ==> t <= q[i].time
    ensures forall k :: 0 <= k < |TimesOf(q, body)| ==> t <= TimesOf(q, body)[k]
  {
    if q == [] {
    } else {
      TimesNotBeforeHead(q[1..], t, body);
    }
  }

  /** A body's second entry, not due before its first, goes behind it. */
  lemma {:induction false} InsertSecondTime(q: seq<Entry>, e: Entry)
    requires Sorted(q) && |TimesOf(q, e.body)| == 1 && TimesOf(q, e.body)[0] <= e.time
    ensures TimesOf(Insert(q, e), e.body) == TimesOf(q, e.body) + [e.time]
  {
    if e.time < q[0].time {
      TimesNotBeforeHead(q, q[0].time, e.body) by {
        forall i | 0 <= i < |q| ensures q[0].time <= q[i].time {
          assert i == 0 || Before(q[0], q[i]);
        }
      }
      assert false;
    } else if q[0].body == e.body {
      InsertTimes(q[1..], e, e.body);
    } else {
      InsertSecondTime(q[1..], e);
    }
  }

  lemma {:induction false} TimesSnoc(trace: seq<Entry>, e: Entry, body: nat)
    ensures TimesOf(trace + [e], body)
         == TimesOf(trace, body) + (if e.body == body then [e.time] else [])
  {
    if trace == [] {
    } else {
      TimesSnoc(trace[1..], e, body);
      assert (trace + [e])[1..] == trace[1..] + [e];
    }
  }

  /** How many of the instants t, t + p, t + 2p, ... are no later than `end`. */
  function Ticks(t: int, p: int, end: int): nat
    requires p >= 1
  {
    if t > end then 0 else (end - t) / p + 1
  }

  lemma QuotientIs(x: int, p: int, q: int, r: int)
    requires p >= 1 && 0 <= r < p && x == q * p + r
    ensures x / p == q
  {
    var d := q - x / p;
    assert d * p == x % p - r by {
      assert x == (x / p) * p + x % p;
    }
    assert d >= 1 ==> d * p >= p;
    assert d <= -1 ==> d * p <= -p;
  }

  lemma OneTick(t: int, p: int, end: int)
    requires p >= 1 && t <= end
    ensures Ticks(t, p, end) == 1 + Ticks(t + p, p, end)
  {
    var x := end - t;
    QuotientIs(x - p, p, x / p - 1, x % p);
    if x < p {
      QuotientIs(x, p, 0, x);
    }
  }

  /** How often an entry and what becomes of it will be handled up to `end`, when a body with a positive
      period is put back and any other is not. */
  function Rounds(e: Entry, periods: seq<Option<int>>, end: int): nat {
    if e.body < |periods| && periods[e.body].Some? && periods[e.body].value >= 1
    then Ticks(e.time, periods[e.body].value, end)
    else (if e.time <= end then 1 else 0)
  }

  function Work(q: seq<Entry>, periods: seq<Option<int>>, end: int): nat {
    if q == [] then 0 else Rounds(q[0], periods, end) + Work(q[1..], periods, end)
  }

  lemma {:induction false} InsertWork(q: seq<Entry>, e: Entry, periods: seq<Option<int>>, end: int)
    ensures Work(Insert(q, e), periods, end) == Work(q, periods, end) + Rounds(e, periods, end)
  {
    if q == [] || e.time < q[0].time {
    } else {
      InsertWork(q[1..], e, periods, end);
    }
  }

  lemma OneRound(head: Entry, e: Entry, periods: seq<Option<int>>, end: int)
    requires head.time <= end && e.body == head.body < |periods|
    requires periods[e.body].Some? && periods[e.body].value >= 1
    requires e.time == head.time + periods[e.body].value
    ensures Rounds(head, periods, end) == Rounds(e, periods, end) + 1
  {
    OneTick(head.time, periods[e.body].value, end);
  }

  lemma AtLeastOneRound(head: Entry, periods: seq<Option<int>>, end: int)
    requires head.time <= end
    ensures Rounds(head, periods, end) >= 1
  {
  }

  /** Putting the head back one period later and erasing it takes one round off the queue. */
  lemma RoundTaken(q: seq<Entry>, e: Entry, periods: seq<Option<int>>, end: int)
    requires q != [] && q[0].time <= end && e.body == q[0].body < |periods|
    requires periods[e.body].Some? && periods[e.body].value >= 1
    requires e.time == q[0].time + periods[e.body].value
    ensures Insert(q, e)[0] == q[0]
    ensures Work(Insert(q, e)[1..], periods, end) + 1 == Work(q, periods, end)
  {
    OneRound(q[0], e, periods, end);
    InsertWork(q, e, periods, end);
    InsertHead(q, e);
  }
}
