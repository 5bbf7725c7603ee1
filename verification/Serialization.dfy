// Model of include/cpsCore/Utilities/DataPresentation/detail/BasicSerializationImpl.hpp, of the binary
// archives it writes to and reads from, and of the headers DataPresentation.h puts before a packet.

module Serialization {
  import opened Bytes
  import opened Options

  /** The types that can be serialized, built up as the templates dispatch on them. */
  datatype Type =
    | PodType(size: nat)
    | EnumType
    | StringType
    | VectorType(element: Type)
    | OptionalType(content: Type)
    | PairType(first: Type, second: Type)
    | ArrayType(length: nat, element: Type)
    | MapType(key: Type, mapped: Type)

  /** Their values. A map is its associations in the order in which the container iterates over them. */
  datatype Value =
    | Pod(memory: seq<Octet>)
    | Enum(code: int)
    | Str(text: seq<Octet>)
    | Vector(elements: seq<Value>)
    | Optional(content: Option<Value>)
    | Pair(first: Value, second: Value)
    | Array(elements: seq<Value>)
    | Map(associations: seq<Association>)

  datatype Association = Association(key: Value, mapped: Value)

  predicate DistinctKeys(m: seq<Association>) {
    forall i, j :: 0 <= i < j < |m| ==> m[i].key != m[j].key
  }

  /** v is a value of type t. */
  predicate HasType(v: Value, t: Type)
    decreases t
  {
    match (v, t)
    case (Pod(memory), PodType(size)) => |memory| == size > 0
    case (Enum(_), EnumType) => true
    case (Str(_), StringType) => true
    case (Vector(vs), VectorType(e)) => forall i :: 0 <= i < |vs| ==> HasType(vs[i], e)
    case (Optional(c), OptionalType(e)) => c.Some? ==> HasType(c.value, e)
    case (Pair(a, b), PairType(ta, tb)) => HasType(a, ta) && HasType(b, tb)
    case (Array(vs), ArrayType(n, e)) => |vs| == n && forall i :: 0 <= i < |vs| ==> HasType(vs[i], e)
    case (Map(m), MapType(tk, tv)) =>
      DistinctKeys(m) && forall i :: 0 <= i < |m| ==> HasType(m[i].key, tk) && HasType(m[i].mapped, tv)
    case _ => false
  }

  /** v is within what the length prefixes and the enum byte can express. */
  predicate Fits(v: Value, t: Type)
    requires HasType(v, t)
    decreases t
  {
    match (v, t)
    case (Pod(_), _) => true
    case (Enum(code), _) => 0 <= code < 0x100
    case (Str(text), _) => |text| < 0x1_0000
    case (Vector(vs), VectorType(e)) => |vs| < 0x1_0000 && forall i :: 0 <= i < |vs| ==> Fits(vs[i], e)
    case (Optional(c), OptionalType(e)) => c.Some? ==> Fits(c.value, e)
    case (Pair(a, b), PairType(ta, tb)) => Fits(a, ta) && Fits(b, tb)
    case (Array(vs), ArrayType(_, e)) => forall i :: 0 <= i < |vs| ==> Fits(vs[i], e)
    case (Map(m), MapType(tk, tv)) =>
      |m| < 0x100 && forall i :: 0 <= i < |m| ==> Fits(m[i].key, tk) && Fits(m[i].mapped, tv)
  }

  // ----- storing

  /** static_cast<uint8_t>. */
  function U8(n: int): seq<Octet> {
    [n % 0x100]
  }

  /** static_cast<uint16_t>, low byte first. */
  function U16(n: int): seq<Octet> {
    [n % 0x100, n / 0x100 % 0x100]
  }

  function Stored(v: Value): seq<Octet>
    decreases v
  {
    match v
    case Pod(memory) => memory
    case Enum(code) => U8(code)
    case Str(text) => U16(|text|) + text
    case Vector(vs) => U16(|vs|) + StoredAll(vs)
    case Optional(None) => [0]
    case Optional(Some(c)) => [1] + Stored(c)
    case Pair(a, b) => Stored(a) + Stored(b)
    case Array(vs) => StoredAll(vs)
    case Map(m) => U8(|m|) + StoredMap(m)
  }

  function StoredAll(vs: seq<Value>): seq<Octet>
    decreases vs
  {
    if vs == [] then [] else Stored(vs[0]) + StoredAll(vs[1..])
  }

  function StoredMap(m: seq<Association>): seq<Octet>
    decreases m
  {
    if m == [] then [] else StoredAssociation(m[0]) + StoredMap(m[1..])
  }

  function StoredAssociation(a: Association): seq<Octet>
    decreases a
  {
    Stored(a.key) + Stored(a.mapped)
  }

  /** The number in the first two bytes. */
  function TwoBytes(s: seq<Octet>): int
    requires |s| >= 2
  {
    s[0] as int + 0x100 * s[1] as int
  }

  /** The length prefixes, from the bytes: strings and vectors begin with the number of their elements in two
      bytes, low byte first, maps and enumerators with a single byte; what follows are the elements. The first
      byte of an optional says whether there is a content. */
  lemma LengthPrefix(v: Value, t: Type)
    requires HasType(v, t) && Fits(v, t)
    ensures v.Str? ==> TwoBytes(Stored(v)) == |v.text| && Stored(v)[2..] == v.text
    ensures v.Vector? ==> TwoBytes(Stored(v)) == |v.elements| && Stored(v)[2..] == Stored(Array(v.elements))
    ensures v.Map? ==> Stored(v)[0] == |v.associations| && Stored(v)[1..] == StoredMap(v.associations)
    ensures v.Enum? ==> Stored(v) == [v.code]
    ensures v.Optional? ==> (Stored(v)[0] == 0 <==> v.content == None)
  {
    match v
    case Str(text) => LengthBytes(|text|, text);
    case Vector(vs) => LengthBytes(|vs|, StoredAll(vs));
    case _ =>
  }

  lemma LengthBytes(n: nat, rest: seq<Octet>)
    requires n < 0x1_0000
    ensures TwoBytes(U16(n) + rest) == n && (U16(n) + rest)[2..] == rest
  {
    assert n == n % 0x100 + 0x100 * (n / 0x100);
  }

  // ----- loading

  /** What a load yields: the value and what is left of the input, or None where the archive runs out
      of input (there the original throws ArchiveError or reads past the end). */
  type Loaded<T> = Option<(T, seq<Octet>)>

  function Take(n: nat, s: seq<Octet>): (r: Loaded<seq<Octet>>) {
    if |s| < n then None else Some((s[..n], s[n..]))
  }

  function TakeU8(s: seq<Octet>): (r: Loaded<int>) {
    if |s| < 1 then None else Some((s[0] as int, s[1..]))
  }

  function TakeU16(s: seq<Octet>): (r: Loaded<int>) {
    if |s| < 2 then None else Some((s[0] as int + 0x100 * s[1] as int, s[2..]))
  }

  predicate HasKey(m: seq<Association>, key: Value) {
    exists i :: 0 <= i < |m| && m[i].key == key
  }

  /** map::insert, which leaves an existing key as it is. */
  function Inserted(m: seq<Association>, key: Value, mapped: Value): seq<Association> {
    if HasKey(m, key) then m else m + [Association(key, mapped)]
  }

  /** Loading into a fresh variable. */
  function Load(t: Type, s: seq<Octet>): Loaded<Value>
    decreases t, 2, 0
  {
    match t
    case PodType(size) =>
      if size == 0 then None
      else
        var (memory, rest) :- Take(size, s);
        Some((Pod(memory), rest))
    case EnumType =>
      var (code, rest) :- TakeU8(s);
      Some((Enum(code), rest))
    case StringType =>
      var (n, rest) :- TakeU16(s);
      var (text, rest') :- Take(n, rest);
      Some((Str(text), rest'))
    case VectorType(e) =>
      var (n, rest) :- TakeU16(s);
      var (vs, rest') :- LoadAll(e, n, rest);
      Some((Vector(vs), rest'))
    case OptionalType(e) =>
      var (has, rest) :- TakeU8(s);
      if has == 0 then Some((Optional(None), rest))
      else
        var (c, rest') :- Load(e, rest);
        Some((Optional(Some(c)), rest'))
    case PairType(ta, tb) =>
      var (a, rest) :- Load(ta, s);
      var (b, rest') :- Load(tb, rest);
      Some((Pair(a, b), rest'))
    case ArrayType(n, e) =>
      var (vs, rest) :- LoadAll(e, n, s);
      Some((Array(vs), rest))
    case MapType(_, _) =>
      var (n, rest) :- TakeU8(s);
      var (m, rest') :- LoadMap(t, n, rest, []);
      Some((Map(m), rest'))
  }

  function LoadAll(t: Type, n: nat, s: seq<Octet>): Loaded<seq<Value>>
    decreases t, 3, n
  {
    if n == 0 then Some(([], s))
    else
      var (v, rest) :- Load(t, s);
      var (vs, rest') :- LoadAll(t, n - 1, rest);
      Some(([v] + vs, rest'))
  }

  function LoadMap(t: Type, n: nat, s: seq<Octet>, m: seq<Association>): Loaded<seq<Association>>
    requires t.MapType?
    decreases t, 1, n
  {
    if n == 0 then Some((m, s))
    else
      var (key, rest) :- Load(t.key, s);
      var (mapped, rest') :- Load(t.mapped, rest);
      LoadMap(t, n - 1, rest', Inserted(m, key, mapped))
  }

  // ----- round trip

  lemma TakesU8(n: nat, s: seq<Octet>)
    requires n < 0x100
    ensures TakeU8(U8(n) + s) == Some((n, s))
  {
    assert (U8(n) + s)[1..] == s;
  }

  lemma TakesU16(n: nat, s: seq<Octet>)
    requires n < 0x1_0000
    ensures TakeU16(U16(n) + s) == Some((n, s))
  {
    assert (U16(n) + s)[2..] == s;
    assert n == n % 0x100 + 0x100 * (n / 0x100);
  }

  lemma Takes(t: seq<Octet>, s: seq<Octet>)
    ensures Take(|t|, t + s) == Some((t, s))
  {
    assert (t + s)[..|t|] == t && (t + s)[|t|..] == s;
  }

  lemma StringLoads(text: seq<Octet>, s: seq<Octet>)
    requires |text| < 0x1_0000
    ensures Load(StringType, U16(|text|) + text + s) == Some((Str(text), s))
  {
    assert U16(|text|) + text + s == U16(|text|) + (text + s);
    TakesU16(|text|, text + s);
    Takes(text, s);
  }

  lemma VectorLoads(t: Type, vs: seq<Value>, body: seq<Octet>, s: seq<Octet>)
    requires t.VectorType? && |vs| < 0x1_0000
    requires LoadAll(t.element, |vs|, body + s) == Some((vs, s))
    ensures Load(t, U16(|vs|) + body + s) == Some((Vector(vs), s))
  {
    assert U16(|vs|) + body + s == U16(|vs|) + (body + s);
    TakesU16(|vs|, body + s);
  }

  lemma OptionalLoads(t: Type, c: Value, body: seq<Octet>, s: seq<Octet>)
    requires t.OptionalType? && Load(t.content, body + s) == Some((c, s))
    ensures Load(t, [1] + body + s) == Some((Optional(Some(c)), s))
  {
    assert [1] + body + s == U8(1) + (body + s);
    TakesU8(1, body + s);
  }

  lemma PairLoads(t: Type, a: Value, first: seq<Octet>, b: Value, second: seq<Octet>, s: seq<Octet>)
    requires t.PairType? && Load(t.first, first + (second + s)) == Some((a, second + s))
    requires Load(t.second, second + s) == Some((b, s))
    ensures Load(t, first + second + s) == Some((Pair(a, b), s))
  {
    assert first + second + s == first + (second + s);
  }

  lemma MapLoads(t: Type, m: seq<Association>, body: seq<Octet>, s: seq<Octet>)
    requires t.MapType? && |m| < 0x100
    requires LoadMap(t, |m|, body + s, []) == Some((m, s))
    ensures Load(t, U8(|m|) + body + s) == Some((Map(m), s))
  {
    assert U8(|m|) + body + s == U8(|m|) + (body + s);
    TakesU8(|m|, body + s);
  }

  lemma ElementLoads(t: Type, v: Value, first: seq<Octet>, vs: seq<Value>, body: seq<Octet>, s: seq<Octet>)
    requires Load(t, first + (body + s)) == Some((v, body + s))
    requires LoadAll(t, |vs|, body + s) == Some((vs, s))
    ensures LoadAll(t, |vs| + 1, first + body + s) == Some(([v] + vs, s))
  {
    assert first + body + s == first + (body + s);
  }

  lemma AssociationLoads(t: Type, a: Association, key: seq<Octet>, mapped: seq<Octet>, n: nat,
                         rest: seq<Octet>, m: seq<Association>)
    requires t.MapType? && Load(t.key, key + (mapped + rest)) == Some((a.key, mapped + rest))
    requires Load(t.mapped, mapped + rest) == Some((a.mapped, rest))
    ensures LoadMap(t, n + 1, key + (mapped + rest), m) == LoadMap(t, n, rest, Inserted(m, a.key, a.mapped))
  {
  }

  /** Whatever follows it in the archive, a value within the bounds is loaded as it was stored and
      exactly its own bytes are consumed. */
  lemma {:induction false} RoundTrip(v: Value, t: Type, s: seq<Octet>)
    requires HasType(v, t) && Fits(v, t)
    ensures Load(t, Stored(v) + s) == Some((v, s))
    decreases t, 2, 0
  {
    match v
    case Pod(memory) => Takes(memory, s);
    case Enum(code) => TakesU8(code, s);
    case Str(text) => StringLoads(text, s);
    case Vector(vs) =>
      RoundTripAll(vs, t.element, s);
      VectorLoads(t, vs, StoredAll(vs), s);
    case Optional(None) => TakesU8(0, s);
    case Optional(Some(c)) =>
      RoundTrip(c, t.content, s);
      OptionalLoads(t, c, Stored(c), s);
    case Pair(a, b) =>
      RoundTrip(a, t.first, Stored(b) + s);
      RoundTrip(b, t.second, s);
      PairLoads(t, a, Stored(a), b, Stored(b), s);
    case Array(vs) => RoundTripAll(vs, t.element, s);
    case Map(m) =>
      RoundTripMap(m, t, 0, s);
      assert m[0..] == m && m[..0] == [];
      MapLoads(t, m, StoredMap(m), s);
  }

  lemma {:induction false} RoundTripAll(vs: seq<Value>, t: Type, s: seq<Octet>)
    requires forall i :: 0 <= i < |vs| ==> HasType(vs[i], t) && Fits(vs[i], t)
    ensures LoadAll(t, |vs|, StoredAll(vs) + s) == Some((vs, s))
    decreases t, 3, |vs|
  {
    if vs == [] {
      assert StoredAll(vs) + s == s;
    } else {
      RoundTrip(vs[0], t, StoredAll(vs[1..]) + s);
      RoundTripAll(vs[1..], t, s);
      ElementLoads(t, vs[0], Stored(vs[0]), vs[1..], StoredAll(vs[1..]), s);
      assert [vs[0]] + vs[1..] == vs;
    }
  }

  lemma MapBytes(m: seq<Association>, s: seq<Octet>)
    requires m != []
    ensures StoredMap(m) + s == Stored(m[0].key) + (Stored(m[0].mapped) + (StoredMap(m[1..]) + s))
  {
    var a := m[0];
    assert StoredMap(m) == Stored(a.key) + Stored(a.mapped) + StoredMap(m[1..]);
  }

  lemma NextAssociationLoads(m: seq<Association>, t: Type, k: nat, s: seq<Octet>)
    requires t.MapType? && k < |m| && DistinctKeys(m)
    requires var rest := StoredMap(m[k + 1..]) + s;
      && Load(t.key, Stored(m[k].key) + (Stored(m[k].mapped) + rest)) == Some((m[k].key, Stored(m[k].mapped) + rest))
      && Load(t.mapped, Stored(m[k].mapped) + rest) == Some((m[k].mapped, rest))
    ensures LoadMap(t, |m| - k, StoredMap(m[k..]) + s, m[..k])
         == LoadMap(t, |m| - (k + 1), StoredMap(m[k + 1..]) + s, m[..k + 1])
  {
    var rest := StoredMap(m[k + 1..]) + s;
    assert m[k..][1..] == m[k + 1..];
    MapBytes(m[k..], s);
    AssociationLoads(t, m[k], Stored(m[k].key), Stored(m[k].mapped), |m| - k - 1, rest, m[..k]);
    assert Inserted(m[..k], m[k].key, m[k].mapped) == m[..k + 1];
  }

  /** The associations from the k-th on, loaded after the first k. */
  lemma {:induction false} RoundTripMap(m: seq<Association>, t: Type, k: nat, s: seq<Octet>)
    requires t.MapType? && k <= |m| && DistinctKeys(m)
    requires forall i :: 0 <= i < |m| ==> HasType(m[i].key, t.key) && HasType(m[i].mapped, t.mapped)
    requires forall i :: 0 <= i < |m| ==> Fits(m[i].key, t.key) && Fits(m[i].mapped, t.mapped)
    ensures LoadMap(t, |m| - k, StoredMap(m[k..]) + s, m[..k]) == Some((m, s))
    decreases t, 1, |m| - k
  {
    if k == |m| {
      assert StoredMap(m[k..]) + s == s && m[..k] == m;
    } else {
      var rest := StoredMap(m[k + 1..]) + s;
      RoundTrip(m[k].key, t.key, Stored(m[k].mapped) + rest);
      RoundTrip(m[k].mapped, t.mapped, rest);
      NextAssociationLoads(m, t, k, s);
      RoundTripMap(m, t, k + 1, s);
    }
  }

  lemma Regrouped(a: seq<Octet>, b: seq<Octet>, c: seq<Octet>)
    ensures (a + b) + c == a + (b + c)
  {
  }

  /** The parts of a value lie in order: whoever reads only the first part of a pair, the first element of an
      array or the first key of a map gets it, and finds the rest next. */
  lemma PairInOrder(a: Value, b: Value, t: Type, s: seq<Octet>)
    requires HasType(Pair(a, b), t) && Fits(Pair(a, b), t)
    ensures Load(t.first, Stored(Pair(a, b)) + s) == Some((a, Stored(b) + s))
  {
    RoundTrip(a, t.first, Stored(b) + s);
    Regrouped(Stored(a), Stored(b), s);
  }

  lemma ArrayInOrder(vs: seq<Value>, t: Type, s: seq<Octet>)
    requires HasType(Array(vs), t) && Fits(Array(vs), t) && vs != []
    ensures Load(t.element, Stored(Array(vs)) + s) == Some((vs[0], Stored(Array(vs[1..])) + s))
  {
    RoundTrip(vs[0], t.element, StoredAll(vs[1..]) + s);
    Regrouped(Stored(vs[0]), StoredAll(vs[1..]), s);
  }

  lemma MapInOrder(m: seq<Association>, t: Type, s: seq<Octet>)
    requires HasType(Map(m), t) && Fits(Map(m), t) && m != []
    ensures Load(t.key, StoredMap(m) + s) == Some((m[0].key, Stored(m[0].mapped) + (StoredMap(m[1..]) + s)))
  {
    var rest := Stored(m[0].mapped) + (StoredMap(m[1..]) + s);
    RoundTrip(m[0].key, t.key, rest);
    MapBytes(m, s);
  }

  // ----- the exact condition

  /** Whatever is loaded is a value of the type asked for, and within the bounds. */
  lemma {:induction false} LoadedFits(t: Type, s: seq<Octet>)
    requires Load(t, s).Some?
    ensures HasType(Load(t, s).value.0, t) && Fits(Load(t, s).value.0, t)
    decreases t, 2, 0
  {
    match t
    case VectorType(e) => LoadedAllFit(e, TakeU16(s).value.0, TakeU16(s).value.1);
    case OptionalType(e) =>
      if TakeU8(s).value.0 != 0 {
        LoadedFits(e, TakeU8(s).value.1);
      }
    case PairType(ta, tb) =>
      LoadedFits(ta, s);
      LoadedFits(tb, Load(ta, s).value.1);
    case ArrayType(n, e) => LoadedAllFit(e, n, s);
    case MapType(_, _) => LoadedMapFits(t, TakeU8(s).value.0, TakeU8(s).value.1, []);
    case _ =>
  }

  lemma {:induction false} LoadedAllFit(t: Type, n: nat, s: seq<Octet>)
    requires LoadAll(t, n, s).Some?
    ensures var vs := LoadAll(t, n, s).value.0;
      |vs| == n && forall i :: 0 <= i < n ==> HasType(vs[i], t) && Fits(vs[i], t)
    decreases t, 3, n
  {
    if n == 0 {
    } else {
      LoadedFits(t, s);
      LoadedAllFit(t, n - 1, Load(t, s).value.1);
    }
  }

  /** A map within the bounds, but for its size. */
  predicate GoodMap(m: seq<Association>, t: Type)
    requires t.MapType?
  {
    && DistinctKeys(m)
    && (forall i :: 0 <= i < |m| ==> HasType(m[i].key, t.key) && HasType(m[i].mapped, t.mapped))
    && (forall i :: 0 <= i < |m| ==> Fits(m[i].key, t.key) && Fits(m[i].mapped, t.mapped))
  }

  lemma InsertedIsGood(m: seq<Association>, key: Value, mapped: Value, t: Type)
    requires t.MapType? && GoodMap(m, t)
    requires HasType(key, t.key) && Fits(key, t.key) && HasType(mapped, t.mapped) && Fits(mapped, t.mapped)
    ensures GoodMap(Inserted(m, key, mapped), t)
  {
  }

  lemma {:induction false} LoadedMapFits(t: Type, n: nat, s: seq<Octet>, m: seq<Association>)
    requires t.MapType? && LoadMap(t, n, s, m).Some? && GoodMap(m, t)
    ensures var r := LoadMap(t, n, s, m).value.0;
      |r| <= |m| + n && GoodMap(r, t)
    decreases t, 1, n
  {
    if n == 0 {
    } else {
      LoadedFits(t.key, s);
      var (key, rest) := Load(t.key, s).value;
      LoadedFits(t.mapped, rest);
      var (mapped, rest') := Load(t.mapped, rest).value;
      InsertedIsGood(m, key, mapped, t);
      LoadedMapFits(t, n - 1, rest', Inserted(m, key, mapped));
    }
  }

  /** In every archive, a value comes back intact and leaves exactly what followed it if and only if its
      lengths and enumerators are within the bounds: 65535 for strings and vectors, 255 for maps
      and enumerators. */
  lemma RoundTripExact(v: Value, t: Type, s: seq<Octet>)
    requires HasType(v, t)
    ensures Load(t, Stored(v) + s) == Some((v, s)) <==> Fits(v, t)
  {
    if Fits(v, t) {
      RoundTrip(v, t, s);
    } else if Load(t, Stored(v) + s) == Some((v, s)) {
      LoadedFits(t, Stored(v) + s);
    }
  }

  /** Two values of a type that agree on an archive, whatever follows them, are the same value: no
      encoding is a prefix of another. */
  lemma PrefixFree(v: Value, w: Value, t: Type, a: seq<Octet>, b: seq<Octet>)
    requires HasType(v, t) && Fits(v, t) && HasType(w, t) && Fits(w, t)
    requires Stored(v) + a == Stored(w) + b
    ensures v == w && a == b
  {
    RoundTrip(v, t, a);
    RoundTrip(w, t, b);
  }

  // ----- headers

  /** DataPresentation::addHeader. */
  function WithHeader(packet: seq<Octet>, header: Value): seq<Octet> {
    Stored(header) + packet
  }

  /** Headers put before a packet one after the other; the last one stands first. */
  function WithHeaders(packet: seq<Octet>, headers: seq<Value>): seq<Octet> {
    if headers == [] then packet
    else WithHeader(WithHeaders(packet, headers[..|headers| - 1]), headers[|headers| - 1])
  }

  /** Headers taken off again, the type list naming the one that stands first last. */
  function TakeHeaders(packet: seq<Octet>, types: seq<Type>): Loaded<seq<Value>>
    decreases types
  {
    if types == [] then Some(([], packet))
    else
      var (last, rest) :- Load(types[|types| - 1], packet);
      var (others, rest') :- TakeHeaders(rest, types[..|types| - 1]);
      Some((others + [last], rest'))
  }

  /** Headers come off in the reverse of the order in which they were put on, and what is left is the
      original packet. */
  lemma {:induction false} HeadersPopInReverse(packet: seq<Octet>, headers: seq<Value>, types: seq<Type>)
    requires |headers| == |types|
    requires forall i :: 0 <= i < |types| ==> HasType(headers[i], types[i]) && Fits(headers[i], types[i])
    ensures TakeHeaders(WithHeaders(packet, headers), types) == Some((headers, packet))
    decreases headers
  {
    if headers == [] {
    } else {
      var n := |headers| - 1;
      RoundTrip(headers[n], types[n], WithHeaders(packet, headers[..n]));
      HeadersPopInReverse(packet, headers[..n], types[..n]);
      assert headers[..n] + [headers[n]] == headers;
    }
  }

  /** Variadic `serialize` and `extract`: several values one after the other, each of its own type. */
  function LoadEach(types: seq<Type>, s: seq<Octet>): Loaded<seq<Value>>
    decreases types
  {
    if types == [] then Some(([], s))
    else
      var (v, rest) :- Load(types[0], s);
      var (vs, rest') :- LoadEach(types[1..], rest);
      Some(([v] + vs, rest'))
  }

  lemma {:induction false} EachRoundTrip(vs: seq<Value>, types: seq<Type>, s: seq<Octet>)
    requires |vs| == |types|
    requires forall i :: 0 <= i < |vs| ==> HasType(vs[i], types[i]) && Fits(vs[i], types[i])
    ensures LoadEach(types, StoredAll(vs) + s) == Some((vs, s))
  {
    if vs == [] {
      assert StoredAll(vs) + s == s;
    } else {
      assert StoredAll(vs) + s == Stored(vs[0]) + (StoredAll(vs[1..]) + s);
      RoundTrip(vs[0], types[0], StoredAll(vs[1..]) + s);
      EachRoundTrip(vs[1..], types[1..], s);
      assert [vs[0]] + vs[1..] == vs;
    }
  }
}
