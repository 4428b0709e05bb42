/** Cypher property values: the conversion between the wire form and Go values, both ways. */
module CypherValue {
  import opened Options
  import opened Int64
  import Encoding

  type Bytes = Encoding.Bytes

  /** Floats are their bits. Go's conversion of a float32 to a float64 is any function. */
  type Float32 = bv32
  type Float64 = bv64
  type Widening = Float32 -> Float64

  /** A wire value: Nil is the nil pointer, Unset a oneof that carries nothing; NilList and NilMap carry a nil list or
      map message; a Blob of None is a nil byte slice. */
  datatype Value =
    | Nil
    | Unset
    | Null(flag: bool)
    | Bool(bool)
    | Int(int64)
    | Double(Float64)
    | Text(string)
    | Blob(Option<Bytes>)
    | List(values: seq<Value>)
    | NilList
    | Map(entries: map<string, Value>)
    | NilMap

  datatype Width = W8 | W16 | W32 | W64 | Native

  datatype Integer = Integer(signed: bool, width: Width, value: int)

  function Span(w: Width): int {
    match w
    case W8 => 0x100
    case W16 => 0x1_0000
    case W32 => 0x1_0000_0000
    case _ => TWO64
  }

  predicate Fits(i: Integer) {
    if i.signed then -Span(i.width) <= 2 * i.value < Span(i.width) else 0 <= i.value < Span(i.width)
  }

  /** A value of one of Go's ten integer types. */
  type GoInteger = i: Integer | Fits(i) witness Integer(true, W64, 0)

  /** A Go value held in an `any`; Other is a value of any type the conversion does not list, []int64 among them;
      GoNilSlice and GoNilMap are the nil []any and map[string]any. */
  datatype GoValue =
    | GoNil
    | GoBool(bool)
    | GoInt(GoInteger)
    | GoFloat32(Float32)
    | GoFloat64(Float64)
    | GoString(string)
    | GoBytes(Option<Bytes>)
    | GoSlice(items: seq<GoValue>)
    | GoNilSlice
    | GoMap(fields: map<string, GoValue>)
    | GoNilMap
    | Other(typeName: string)

  function Signed64(x: int64): GoValue {
    GoInt(Integer(true, W64, x))
  }

  /** The int64 an integer is sent as: itself, except that an unsigned value past the int64 range wraps negative. */
  function Stored(i: GoInteger): (w: int64)
    ensures w == i.value <==> i.value <= MAX64
    ensures i.value > MAX64 ==> !i.signed && w == i.value - TWO64
  {
    Wrap(i.value)
  }

  function ValueToGo(v: Value): GoValue {
    match v
    case Bool(b) => GoBool(b)
    case Int(i) => Signed64(i)
    case Double(d) => GoFloat64(d)
    case Text(s) => GoString(s)
    case Blob(b) => GoBytes(b)
    case NilList => GoSlice([])
    case List(values) => GoSlice(seq(|values|, i requires 0 <= i < |values| => ValueToGo(values[i])))
    case NilMap => GoMap(map[])
    case Map(entries) => GoMap(map k | k in entries :: ValueToGo(entries[k]))
    case _ => GoNil
  }

  /** None: a nested value has an unsupported type. */
  function GoToValue(widen: Widening, g: GoValue): Option<Value> {
    match g
    case GoNil => Some(Null(true))
    case GoBool(b) => Some(Bool(b))
    case GoInt(i) => Some(Int(Stored(i)))
    case GoFloat32(d) => Some(Double(widen(d)))
    case GoFloat64(d) => Some(Double(d))
    case GoString(s) => Some(Text(s))
    case GoBytes(b) => Some(Blob(b))
    case GoSlice(items) =>
      if exists i | 0 <= i < |items| :: GoToValue(widen, items[i]).None? then None
      else Some(List(seq(|items|, i requires 0 <= i < |items| => GoToValue(widen, items[i]).value)))
    case GoNilSlice => Some(List([]))
    case GoNilMap => Some(Map(map[]))
    case GoMap(fields) =>
      if exists k | k in fields :: GoToValue(widen, fields[k]).None? then None
      else Some(Map(map k | k in fields :: GoToValue(widen, fields[k]).value))
    case Other(_) => None
  }

  // ----- what the conversions forget -----

  /** Unset, nil and every null become Null(true); an absent list or map becomes an empty one. */
  function Canon(v: Value): Value {
    match v
    case Nil => Null(true)
    case Unset => Null(true)
    case Null(_) => Null(true)
    case List(values) => List(seq(|values|, i requires 0 <= i < |values| => Canon(values[i])))
    case NilList => List([])
    case Map(entries) => Map(map k | k in entries :: Canon(entries[k]))
    case NilMap => Map(map[])
    case _ => v
  }

  /** Every integer as an int64, every float32 as a float64, every nil slice or map as an empty one. */
  function Widen(widen: Widening, g: GoValue): GoValue {
    match g
    case GoInt(i) => GoInt(Integer(true, W64, if i.value <= MAX64 then i.value else i.value - TWO64))
    case GoFloat32(d) => GoFloat64(widen(d))
    case GoSlice(items) => GoSlice(seq(|items|, i requires 0 <= i < |items| => Widen(widen, items[i])))
    case GoNilSlice => GoSlice([])
    case GoMap(fields) => GoMap(map k | k in fields :: Widen(widen, fields[k]))
    case GoNilMap => GoMap(map[])
    case _ => g
  }

  // ----- nested places -----

  datatype Place = Index(i: nat) | Key(k: string)

  /** The value reached from g through a path of slice indices and map keys. */
  function At(g: GoValue, path: seq<Place>): Option<GoValue> {
    if path == [] then Some(g)
    else match (g, path[0]) {
      case (GoSlice(items), Index(i)) => if i < |items| then At(items[i], path[1..]) else None
      case (GoMap(fields), Key(k)) => if k in fields then At(fields[k], path[1..]) else None
      case _ => None
    }
  }

  predicate Unsupported(g: GoValue, path: seq<Place>) {
    At(g, path).Some? && At(g, path).value.Other?
  }

  lemma {:induction false} UnsupportedFails(widen: Widening, g: GoValue, path: seq<Place>)
    requires Unsupported(g, path)
    ensures GoToValue(widen, g).None?
    decreases |path|
  {
    if path != [] {
      match g
      case GoSlice(items) =>
        UnsupportedFails(widen, items[path[0].i], path[1..]);
      case GoMap(fields) =>
        UnsupportedFails(widen, fields[path[0].k], path[1..]);
    }
  }

  lemma {:induction false} FailureHasPlace(widen: Widening, g: GoValue) returns (path: seq<Place>)
    requires GoToValue(widen, g).None?
    ensures Unsupported(g, path)
  {
    match g
    case Other(_) =>
      path := [];
    case GoSlice(items) =>
      var i :| 0 <= i < |items| && GoToValue(widen, items[i]).None?;
      var rest := FailureHasPlace(widen, items[i]);
      path := [Index(i)] + rest;
    case GoMap(fields) =>
      var k :| k in fields && GoToValue(widen, fields[k]).None?;
      var rest := FailureHasPlace(widen, fields[k]);
      path := [Key(k)] + rest;
  }

  /** A Go value is refused exactly when a value of an unsupported type sits somewhere inside it, however deep. */
  lemma FailsExactly(widen: Widening, g: GoValue)
    ensures GoToValue(widen, g).None? <==> exists path :: Unsupported(g, path)
  {
    if GoToValue(widen, g).None? {
      var path := FailureHasPlace(widen, g);
    } else if path :| Unsupported(g, path) {
      UnsupportedFails(widen, g, path);
    }
  }

  // ----- place by place -----

  /** The wire value reached from v through a path of list indices and map keys. */
  function WireAt(v: Value, path: seq<Place>): Option<Value> {
    if path == [] then Some(v)
    else match (v, path[0]) {
      case (List(values), Index(i)) => if i < |values| then WireAt(values[i], path[1..]) else None
      case (Map(entries), Key(k)) => if k in entries then WireAt(entries[k], path[1..]) else None
      case _ => None
    }
  }

  /** The Go value that stands for a wire value: its type and, but for the contents of a container, its value. */
  predicate StandsFor(g: GoValue, v: Value) {
    match v
    case Nil => g == GoNil
    case Unset => g == GoNil
    case Null(_) => g == GoNil
    case Bool(b) => g == GoBool(b)
    case Int(i) => g == GoInt(Integer(true, W64, i))
    case Double(d) => g == GoFloat64(d)
    case Text(s) => g == GoString(s)
    case Blob(b) => g == GoBytes(b)
    case List(values) => g.GoSlice? && |g.items| == |values|
    case NilList => g == GoSlice([])
    case Map(entries) => g.GoMap? && g.fields.Keys == entries.Keys
    case NilMap => g == GoMap(map[])
  }

  /** The conversion to Go has the same places, and at each of them the value that stands for the wire value there. */
  lemma {:induction false} ToGoByPlace(v: Value, path: seq<Place>)
    ensures At(ValueToGo(v), path).Some? <==> WireAt(v, path).Some?
    ensures WireAt(v, path).Some? ==> StandsFor(At(ValueToGo(v), path).value, WireAt(v, path).value)
    decreases |path|
  {
    if path != [] {
      match (v, path[0]) {
        case (List(values), Index(i)) =>
          if i < |values| {
            ToGoByPlace(values[i], path[1..]);
          }
        case (Map(entries), Key(k)) =>
          if k in entries {
            ToGoByPlace(entries[k], path[1..]);
          }
        case _ =>
      }
    }
  }

  /** The wire value an accepted Go value is sent as: an integer past the int64 range comes out less 2^64. */
  predicate SentAs(widen: Widening, g: GoValue, v: Value) {
    match g
    case GoNil => v == Null(true)
    case GoBool(b) => v == Bool(b)
    case GoInt(i) =>
      if i.value <= 0x7fff_ffff_ffff_ffff then v == Int(i.value) else v == Int(i.value - 0x1_0000_0000_0000_0000)
    case GoFloat32(d) => v == Double(widen(d))
    case GoFloat64(d) => v == Double(d)
    case GoString(s) => v == Text(s)
    case GoBytes(b) => v == Blob(b)
    case GoSlice(items) => v.List? && |v.values| == |items|
    case GoNilSlice => v == List([])
    case GoMap(fields) => v.Map? && v.entries.Keys == fields.Keys
    case GoNilMap => v == Map(map[])
    case Other(_) => false
  }

  /** The conversion to the wire has the same places, and at each of them what the Go value there is sent as. */
  lemma {:induction false} ToWireByPlace(widen: Widening, g: GoValue, path: seq<Place>)
    requires GoToValue(widen, g).Some?
    ensures var v := GoToValue(widen, g).value;
            && (WireAt(v, path).Some? <==> At(g, path).Some?)
            && (At(g, path).Some? ==> SentAs(widen, At(g, path).value, WireAt(v, path).value))
    decreases |path|
  {
    if path != [] {
      match (g, path[0]) {
        case (GoSlice(items), Index(i)) =>
          if i < |items| {
            ToWireByPlace(widen, items[i], path[1..]);
          }
        case (GoMap(fields), Key(k)) =>
          if k in fields {
            ToWireByPlace(widen, fields[k], path[1..]);
          }
        case _ =>
      }
    }
  }

  // ----- round trips -----

  lemma {:induction false} WireRoundTrip(widen: Widening, v: Value)
    ensures GoToValue(widen, ValueToGo(v)) == Some(Canon(v))
  {
    match v
    case List(values) =>
      forall i | 0 <= i < |values| ensures GoToValue(widen, ValueToGo(values[i])) == Some(Canon(values[i])) {
        WireRoundTrip(widen, values[i]);
      }
      assert GoToValue(widen, ValueToGo(v)).value.values == Canon(v).values;
    case Map(entries) =>
      forall k | k in entries ensures GoToValue(widen, ValueToGo(entries[k])) == Some(Canon(entries[k])) {
        WireRoundTrip(widen, entries[k]);
      }
      assert GoToValue(widen, ValueToGo(v)).value.entries == Canon(v).entries;
    case NilList =>
      assert GoToValue(widen, ValueToGo(v)).value.values == [];
    case NilMap =>
      assert GoToValue(widen, ValueToGo(v)).value.entries == map[];
    case _ =>
  }

  lemma {:induction false} GoRoundTrip(widen: Widening, g: GoValue)
    requires GoToValue(widen, g).Some?
    ensures ValueToGo(GoToValue(widen, g).value) == Widen(widen, g)
  {
    match g
    case GoSlice(items) =>
      forall i | 0 <= i < |items| ensures ValueToGo(GoToValue(widen, items[i]).value) == Widen(widen, items[i]) {
        GoRoundTrip(widen, items[i]);
      }
      SliceReturns(widen, items);
    case GoMap(fields) =>
      forall k | k in fields ensures ValueToGo(GoToValue(widen, fields[k]).value) == Widen(widen, fields[k]) {
        GoRoundTrip(widen, fields[k]);
      }
      MapReturns(widen, fields);
    case GoNilSlice =>
      assert ValueToGo(List([])).items == [];
    case GoNilMap =>
      assert ValueToGo(Map(map[])).fields == map[];
    case _ =>
  }

  lemma SliceReturns(widen: Widening, items: seq<GoValue>)
    requires GoToValue(widen, GoSlice(items)).Some?
    requires forall i | 0 <= i < |items| :: ValueToGo(GoToValue(widen, items[i]).value) == Widen(widen, items[i])
    ensures ValueToGo(GoToValue(widen, GoSlice(items)).value) == Widen(widen, GoSlice(items))
  {
    var back := ValueToGo(GoToValue(widen, GoSlice(items)).value);
    assert forall i | 0 <= i < |items| :: back.items[i] == Widen(widen, items[i]);
    assert back.items == Widen(widen, GoSlice(items)).items;
  }

  lemma MapReturns(widen: Widening, fields: map<string, GoValue>)
    requires GoToValue(widen, GoMap(fields)).Some?
    requires forall k | k in fields :: ValueToGo(GoToValue(widen, fields[k]).value) == Widen(widen, fields[k])
    ensures ValueToGo(GoToValue(widen, GoMap(fields)).value) == Widen(widen, GoMap(fields))
  {
    var back := ValueToGo(GoToValue(widen, GoMap(fields)).value);
    assert back.fields == Widen(widen, GoMap(fields)).fields;
  }

  /** What the conversion to the wire produces is canonical already. */
  lemma {:induction false} SentIsCanonical(widen: Widening, g: GoValue)
    requires GoToValue(widen, g).Some?
    ensures Canon(GoToValue(widen, g).value) == GoToValue(widen, g).value
  {
    match g
    case GoSlice(items) =>
      forall i | 0 <= i < |items| ensures Canon(GoToValue(widen, items[i]).value) == GoToValue(widen, items[i]).value {
        SentIsCanonical(widen, items[i]);
      }
    case GoMap(fields) =>
      forall k | k in fields ensures Canon(GoToValue(widen, fields[k]).value) == GoToValue(widen, fields[k]).value {
        SentIsCanonical(widen, fields[k]);
      }
    case _ =>
  }

  /** The wire values that survive the round trip unchanged are exactly those the conversion to the wire can produce. */
  lemma RoundTripExact(widen: Widening, v: Value)
    ensures GoToValue(widen, ValueToGo(v)) == Some(v) <==> exists g :: GoToValue(widen, g) == Some(v)
  {
    WireRoundTrip(widen, v);
    if g :| GoToValue(widen, g) == Some(v) {
      SentIsCanonical(widen, g);
    }
  }

  /** Two Go values are sent alike exactly when they agree once widened. */
  lemma SentAlike(widen: Widening, g: GoValue, h: GoValue)
    requires GoToValue(widen, g).Some? && GoToValue(widen, h).Some?
    ensures GoToValue(widen, g) == GoToValue(widen, h) <==> Widen(widen, g) == Widen(widen, h)
  {
    GoRoundTrip(widen, g);
    GoRoundTrip(widen, h);
    SentIsCanonical(widen, g);
    SentIsCanonical(widen, h);
    WireRoundTrip(widen, GoToValue(widen, g).value);
    WireRoundTrip(widen, GoToValue(widen, h).value);
  }
}
