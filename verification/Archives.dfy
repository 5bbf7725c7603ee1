// The classes around serialization: the binary archives
// (src/Utilities/DataPresentation/detail/Binary), the packet (src/Utilities/Packet.cpp) and the
// operations of DataPresentation.h that change a packet in place.

module Archives {
  import opened Bytes
  import opened Options
  import opened Serialization

  /** A std::string, shared by reference between a packet and the archives that work on it. */
  class String {
    var text: seq<Octet>

    constructor (text: seq<Octet>)
      ensures this.text == text
    {
      this.text := text;
    }
  }

  class BinaryToArchive {
    const target: String

    constructor (target: String)
      ensures this.target == target
    {
      this.target := target;
    }

    method Append(bytes: seq<Octet>)
      modifies target
      ensures target.text == old(target.text) + bytes
    {
      target.text := target.text + bytes;
    }

    /** `archive << v`. */
    method Store(v: Value)
      modifies target
      ensures target.text == old(target.text) + Stored(v)
      decreases v, 1
    {
      match v {
        case Pod(memory) => Append(memory);
        case Enum(code) => Append(U8(code));
        case Str(text) => StoreSized(U16(|text|), text);
        case Vector(vs) => StoreVector(vs);
        case Optional(c) => StoreOptional(c);
        case Pair(a, b) => StoreBoth(a, b);
        case Array(vs) => StoreElements(vs);
        case Map(m) => StoreMap(m);
      }
    }

    method StoreVector(vs: seq<Value>)
      modifies target
      ensures target.text == old(target.text) + (U16(|vs|) + StoredAll(vs))
      decreases vs, 1
    {
      Append(U16(|vs|));
      StoreElements(vs);
    }

    method StoreMap(m: seq<Association>)
      modifies target
      ensures target.text == old(target.text) + (U8(|m|) + Serialization.StoredMap(m))
      decreases m, 1
    {
      Append(U8(|m|));
      StoreAssociations(m);
    }

    method StoreSized(size: seq<Octet>, text: seq<Octet>)
      modifies target
      ensures target.text == old(target.text) + (size + text)
    {
      Append(size);
      Append(text);
    }

    method StoreOptional(c: Option<Value>)
      modifies target
      ensures target.text == old(target.text) + Stored(Optional(c))
      decreases c
    {
      Append(U8(if c.Some? then 1 else 0));
      if c.Some? {
        Store(c.value);
      }
    }

    method StoreBoth(a: Value, b: Value)
      modifies target
      ensures target.text == old(target.text) + (Stored(a) + Stored(b))
      decreases Pair(a, b), 0
    {
      Store(a);
      Store(b);
    }

    method StoreElements(vs: seq<Value>)
      modifies target
      ensures target.text == old(target.text) + StoredAll(vs)
      decreases vs, 0
    {
      var n := 0;
      while n < |vs|
        invariant n <= |vs|
        invariant target.text + StoredAll(vs[n..]) == old(target.text) + StoredAll(vs)
      {
        Store(vs[n]);
        assert vs[n..][1..] == vs[n + 1..];
        n := n + 1;
      }
    }

    method StoreAssociation(a: Association)
      modifies target
      ensures target.text == old(target.text) + StoredAssociation(a)
      decreases a
    {
      Store(a.key);
      Store(a.mapped);
    }

    method StoreAssociations(m: seq<Association>)
      modifies target
      ensures target.text == old(target.text) + StoredMap(m)
      decreases m, 0
    {
      var n := 0;
      while n < |m|
        invariant n <= |m|
        invariant target.text + StoredMap(m[n..]) == old(target.text) + StoredMap(m)
      {
        StoreAssociation(m[n]);
        assert m[n..][1..] == m[n + 1..];
        n := n + 1;
      }
    }
  }

  // ----- loading into a variable that already holds something

  /** A default-constructed variable. */
  function Fresh(t: Type): Value {
    match t
    case PodType(size) => Pod(seq(size, _ => 0))
    case EnumType => Enum(0)
    case StringType => Str([])
    case VectorType(_) => Vector([])
    case OptionalType(_) => Optional(None)
    case PairType(ta, tb) => Pair(Fresh(ta), Fresh(tb))
    case ArrayType(n, e) => Array([])
    case MapType(_, _) => Map([])
  }

  /** What a variable holds after a value has been loaded into it: a vector grows by the loaded elements,
      an optional keeps its content when none was stored, everything else is replaced. */
  function Placed(into: Value, loaded: Value): Value {
    match (into, loaded)
    case (Vector(a), Vector(b)) => Vector(a + b)
    case (Optional(_), Optional(None)) => into
    case (Pair(a, b), Pair(c, d)) => Pair(Placed(a, c), Placed(b, d))
    case _ => loaded
  }

  /** Into a fresh variable, what is loaded is what is held. */
  lemma {:induction false} FreshTakesAll(t: Type, v: Value)
    requires HasType(v, t)
    ensures Placed(Fresh(t), v) == v
    decreases t
  {
    match t
    case PairType(ta, tb) =>
      FreshTakesAll(ta, v.first);
      FreshTakesAll(tb, v.second);
    case _ =>
  }

  /** `into` has the constructors of type t, as any variable of that type does. */
  predicate Shaped(into: Value, t: Type) {
    match t
    case VectorType(_) => into.Vector?
    case OptionalType(_) => into.Optional?
    case PairType(ta, tb) => into.Pair? && Shaped(into.first, ta) && Shaped(into.second, tb)
    case _ => true
  }

  lemma FreshIsShaped(t: Type)
    ensures Shaped(Fresh(t), t)
  {
  }

  /** How a load into `into` must end, given what the input holds. */
  predicate Delivers(into: Value, expected: Loaded<Value>, r: Option<Value>, remaining: seq<Octet>) {
    match expected
    case None => r == None
    case Some((v, rest)) => r == Some(Placed(into, v)) && remaining == rest
  }

  /** Loading on top of what a variable holds, from the bytes of a stored value: the elements of a vector come
      behind those it has, and an absent content leaves an optional as it was; a map, a string and all else
      is replaced. In every case exactly the bytes of the value are used up. */
  lemma VectorGrows(a: seq<Value>, b: seq<Value>, t: Type, s: seq<Octet>, r: Option<Value>, remaining: seq<Octet>)
    requires t.VectorType? && HasType(Vector(b), t) && Fits(Vector(b), t)
    requires Delivers(Vector(a), Serialization.Load(t, Stored(Vector(b)) + s), r, remaining)
    ensures r == Some(Vector(a + b)) && remaining == s
  {
    RoundTrip(Vector(b), t, s);
  }

  lemma AbsentKeeps(c: Option<Value>, t: Type, s: seq<Octet>, r: Option<Value>, remaining: seq<Octet>)
    requires t.OptionalType?
    requires Delivers(Optional(c), Serialization.Load(t, [0] + s), r, remaining)
    ensures r == Some(Optional(c)) && remaining == s
  {
    RoundTrip(Optional(None), t, s);
  }

  lemma PairPlacesBoth(into: Value, v: Value, w: Value, t: Type, s: seq<Octet>, r: Option<Value>,
                       remaining: seq<Octet>, a: Value, b: Value)
    requires t.PairType? && into.Pair? && HasType(Pair(v, w), t) && Fits(Pair(v, w), t)
    requires Delivers(into, Serialization.Load(t, Stored(Pair(v, w)) + s), r, remaining)
    requires Delivers(into.first, Serialization.Load(t.first, Stored(v) + (Stored(w) + s)), Some(a), Stored(w) + s)
    requires Delivers(into.second, Serialization.Load(t.second, Stored(w) + s), Some(b), s)
    ensures r == Some(Pair(a, b)) && remaining == s
  {
    RoundTrip(Pair(v, w), t, s);
    RoundTrip(v, t.first, Stored(w) + s);
    RoundTrip(w, t.second, s);
  }

  lemma PresentReplaces(into: Value, v: Value, t: Type, s: seq<Octet>, r: Option<Value>, remaining: seq<Octet>)
    requires HasType(v, t) && Fits(v, t) && Shaped(into, t)
    requires !t.VectorType? && !t.PairType? && v != Optional(None)
    requires Delivers(into, Serialization.Load(t, Stored(v) + s), r, remaining)
    ensures r == Some(v) && remaining == s
  {
    RoundTrip(v, t, s);
  }

  /** The same for a plain read. */
  predicate Reads<T(==)>(expected: Loaded<T>, r: Option<T>, remaining: seq<Octet>) {
    match expected
    case None => r == None
    case Some((v, rest)) => r == Some(v) && remaining == rest
  }

  /** A sequence of loads after `vs` have been loaded already. */
  function After(vs: seq<Value>, more: Loaded<seq<Value>>): Loaded<seq<Value>> {
    match more
    case None => None
    case Some((ws, rest)) => Some((vs + ws, rest))
  }

  class BinaryFromArchive {
    const source: String
    var idx: nat

    ghost predicate Valid()
      reads this, source
    {
      idx <= |source.text|
    }

    ghost function Remaining(): seq<Octet>
      requires Valid()
      reads this, source
    {
      source.text[idx..]
    }

    constructor (source: String)
      ensures this.source == source && Valid() && idx == 0
    {
      this.source := source;
      idx := 0;
    }

    /** The cursor may be moved past the end; `begin` is what notices. */
    method Consume(bytes: nat)
      modifies `idx
      ensures idx == old(idx) + bytes
    {
      idx := idx + bytes;
    }

    /** `begin` throws at the end of the input; the bounds are checked before it is called. */
    method Read(bytes: nat) returns (r: Option<seq<Octet>>)
      requires Valid()
      modifies `idx
      ensures Valid() && Reads(Take(bytes, old(Remaining())), r, Remaining())
    {
      if idx + bytes > |source.text| {
        return None;
      }
      assert source.text[idx..][..bytes] == source.text[idx..idx + bytes];
      assert source.text[idx..][bytes..] == source.text[idx + bytes..];
      r := Some(source.text[idx..idx + bytes]);
      Consume(bytes);
    }

    method ReadU8() returns (r: Option<int>)
      requires Valid()
      modifies `idx
      ensures Valid() && Reads(TakeU8(old(Remaining())), r, Remaining())
      ensures r.Some? ==> 0 <= r.value < 0x100
    {
      var s := Read(1);
      if s == None {
        return None;
      }
      return Some(s.value[0]);
    }

    method ReadU16() returns (r: Option<int>)
      requires Valid()
      modifies `idx
      ensures Valid() && Reads(TakeU16(old(Remaining())), r, Remaining())
      ensures r.Some? ==> 0 <= r.value < 0x1_0000
    {
      var s := Read(2);
      if s == None {
        return None;
      }
      return Some(s.value[0] as int + 0x100 * s.value[1] as int);
    }

    /** `archive >> into`. */
    method Load(t: Type, into: Value) returns (r: Option<Value>)
      requires Valid() && Shaped(into, t)
      modifies `idx
      ensures Valid() && Delivers(into, Serialization.Load(t, old(Remaining())), r, Remaining())
      decreases t, 3, 0
    {
      match t {
        case PodType(_) => r := LoadPod(t, into);
        case EnumType => r := LoadEnum(into);
        case StringType => r := LoadString(into);
        case VectorType(_) => r := LoadVector(t, into);
        case OptionalType(_) => r := LoadOptional(t, into);
        case PairType(_, _) => r := LoadPair(t, into);
        case ArrayType(_, _) => r := LoadArray(t, into);
        case MapType(_, _) => r := LoadMap(t, into);
      }
    }

    method LoadPod(t: Type, ghost into: Value) returns (r: Option<Value>)
      requires Valid() && t.PodType?
      modifies `idx
      ensures Valid() && Delivers(into, Serialization.Load(t, old(Remaining())), r, Remaining())
    {
      if t.size == 0 {
        return None;
      }
      var memory := Read(t.size);
      if memory == None {
        return None;
      }
      return Some(Pod(memory.value));
    }

    method LoadEnum(ghost into: Value) returns (r: Option<Value>)
      requires Valid()
      modifies `idx
      ensures Valid() && Delivers(into, Serialization.Load(EnumType, old(Remaining())), r, Remaining())
    {
      var code := ReadU8();
      if code == None {
        return None;
      }
      return Some(Enum(code.value));
    }

    method LoadString(ghost into: Value) returns (r: Option<Value>)
      requires Valid()
      modifies `idx
      ensures Valid() && Delivers(into, Serialization.Load(StringType, old(Remaining())), r, Remaining())
    {
      var size := ReadU16();
      if size == None {
        return None;
      }
      var text := Read(size.value);
      if text == None {
        return None;
      }
      return Some(Str(text.value));
    }

    /** push_back of each element: the vector is not cleared first. */
    method LoadVector(t: Type, into: Value) returns (r: Option<Value>)
      requires Valid() && t.VectorType? && into.Vector?
      modifies `idx
      ensures Valid() && Delivers(into, Serialization.Load(t, old(Remaining())), r, Remaining())
      decreases t, 2, 0
    {
      var size := ReadU16();
      if size == None {
        return None;
      }
      var vs := LoadElements(t.element, size.value);
      if vs == None {
        return None;
      }
      return Some(Vector(into.elements + vs.value));
    }

    method LoadOptional(t: Type, into: Value) returns (r: Option<Value>)
      requires Valid() && t.OptionalType? && into.Optional?
      modifies `idx
      ensures Valid() && Delivers(into, Serialization.Load(t, old(Remaining())), r, Remaining())
      decreases t, 2, 0
    {
      var init := ReadU8();
      if init == None {
        return None;
      }
      if init.value == 0 {
        return Some(into);
      }
      var temp := LoadFresh(t.content);
      if temp == None {
        return None;
      }
      return Some(Optional(Some(temp.value)));
    }

    method LoadPair(t: Type, into: Value) returns (r: Option<Value>)
      requires Valid() && t.PairType? && Shaped(into, t)
      modifies `idx
      ensures Valid() && Delivers(into, Serialization.Load(t, old(Remaining())), r, Remaining())
      decreases t, 2, 0
    {
      var a := Load(t.first, into.first);
      if a == None {
        return None;
      }
      var b := Load(t.second, into.second);
      if b == None {
        return None;
      }
      return Some(Pair(a.value, b.value));
    }

    method LoadArray(t: Type, ghost into: Value) returns (r: Option<Value>)
      requires Valid() && t.ArrayType?
      modifies `idx
      ensures Valid() && Delivers(into, Serialization.Load(t, old(Remaining())), r, Remaining())
      decreases t, 2, 0
    {
      var vs := LoadElements(t.element, t.length);
      if vs == None {
        return None;
      }
      return Some(Array(vs.value));
    }

    method LoadMap(t: Type, ghost into: Value) returns (r: Option<Value>)
      requires Valid() && t.MapType?
      modifies `idx
      ensures Valid() && Delivers(into, Serialization.Load(t, old(Remaining())), r, Remaining())
      decreases t, 2, 0
    {
      var size := ReadU8();
      if size == None {
        return None;
      }
      var m := LoadAssociations(t, size.value);
      if m == None {
        return None;
      }
      return Some(Map(m.value));
    }

    method LoadAssociations(t: Type, size: nat) returns (r: Option<seq<Association>>)
      requires Valid() && t.MapType?
      modifies `idx
      ensures Valid() && Reads(Serialization.LoadMap(t, size, old(Remaining()), []), r, Remaining())
      decreases t, 1, 0
    {
      var m: seq<Association> := [];
      ghost var whole := Serialization.LoadMap(t, size, Remaining(), []);
      var i := 0;
      while i < size
        invariant 0 <= i <= size && Valid()
        invariant Serialization.LoadMap(t, size - i, Remaining(), m) == whole
      {
        var key := LoadFresh(t.key);
        if key == None {
          return None;
        }
        var mapped := LoadFresh(t.mapped);
        if mapped == None {
          return None;
        }
        m := Inserted(m, key.value, mapped.value);
        i := i + 1;
      }
      return Some(m);
    }

    /** `Type tmp; archive >> tmp;`. */
    method LoadFresh(t: Type) returns (r: Option<Value>)
      requires Valid()
      modifies `idx
      ensures Valid() && Reads(Serialization.Load(t, old(Remaining())), r, Remaining())
      decreases t, 4, 0
    {
      FreshIsShaped(t);
      ghost var expected := Serialization.Load(t, Remaining());
      if expected.Some? {
        LoadedFits(t, Remaining());
        FreshTakesAll(t, expected.value.0);
      }
      r := Load(t, Fresh(t));
    }

    method LoadElements(t: Type, n: nat) returns (r: Option<seq<Value>>)
      requires Valid()
      modifies `idx
      ensures Valid() && Reads(LoadAll(t, n, old(Remaining())), r, Remaining())
      decreases t, 5, 0
    {
      var vs: seq<Value> := [];
      ghost var whole := LoadAll(t, n, Remaining());
      AfterNothing(whole);
      var i := 0;
      while i < n
        invariant i <= n && Valid()
        invariant After(vs, LoadAll(t, n - i, Remaining())) == whole
      {
        var tmp := LoadFresh(t);
        if tmp == None {
          return None;
        }
        AfterOneMore(vs, tmp.value, LoadAll(t, n - i - 1, Remaining()));
        vs := vs + [tmp.value];
        i := i + 1;
      }
      assert vs + [] == vs;
      return Some(vs);
    }
  }

  lemma AfterNothing(more: Loaded<seq<Value>>)
    ensures After([], more) == more
  {
    if more.Some? {
      assert [] + more.value.0 == more.value.0;
    }
  }

  lemma AfterOneMore(vs: seq<Value>, v: Value, more: Loaded<seq<Value>>)
    ensures After(vs + [v], more) == After(vs, After([v], more))
  {
    if more.Some? {
      assert vs + [v] + more.value.0 == vs + ([v] + more.value.0);
    }
  }

  // ----- packets and their headers

  class Packet {
    const buffer: String

    constructor (text: seq<Octet>)
      ensures fresh(buffer) && buffer.text == text
    {
      buffer := new String(text);
    }

    method Prepend(str: seq<Octet>)
      modifies buffer
      ensures buffer.text == str + old(buffer.text)
    {
      buffer.text := str + buffer.text;
    }

    method Consume(length: nat)
      modifies buffer
      ensures buffer.text == if length > |old(buffer.text)| then old(buffer.text) else old(buffer.text)[length..]
    {
      if length > |buffer.text| {
        return;
      }
      buffer.text := buffer.text[length..];
    }
  }

  method AddHeader(packet: Packet, header: Value)
    modifies packet.buffer
    ensures packet.buffer.text == WithHeader(old(packet.buffer.text), header)
  {
    var headerStr := new String([]);
    var archive := new BinaryToArchive(headerStr);
    archive.Store(header);
    packet.Prepend(headerStr.text);
  }

  /** The archive reads the packet's own buffer, which is shortened by what was consumed. */
  method ExtractHeader(packet: Packet, t: Type) returns (r: Option<Value>)
    modifies packet.buffer
    ensures Reads(Serialization.Load(t, old(packet.buffer.text)), r, packet.buffer.text)
    ensures r == None ==> packet.buffer.text == old(packet.buffer.text)
  {
    var archive := new BinaryFromArchive(packet.buffer);
    r := archive.LoadFresh(t);
    if r == None {
      return;
    }
    packet.Consume(archive.idx);
  }

  /** Serializing into an existing packet appends to its buffer. */
  method SerializeInto(packet: Packet, vals: seq<Value>)
    modifies packet.buffer
    ensures packet.buffer.text == old(packet.buffer.text) + StoredAll(vals)
  {
    var archive := new BinaryToArchive(packet.buffer);
    archive.StoreElements(vals);
  }
}
