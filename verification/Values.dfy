/** The values that flow from a read to the store: internal/opcua/value_convert.go
    normalises them, internal/store/value_encoding.go gives them their tagged form
    on disk and back. */
module Values {
  import opened Wrappers

  /** A float, with the rounding of its text left out: finite ones are reals. */
  datatype Float = Finite(r: real) | NaN | PosInf | NegInf

  datatype IntKind = Int8 | Int16 | Int32 | Int64 | Uint8 | Uint16 | Uint32 | Uint64

  /** The dynamic values a variant can hold. Slice is any typed slice but []byte,
      Array is []interface{}. The wrappers carry the text their String, Name, Text
      or Error yields. A decoded extension object's payload is opaque. */
  datatype Value =
    | Nil
    | Bool(b: bool)
    | Int(kind: IntKind, n: int)
    | Float32(f: Float)
    | Float64(f: Float)
    | Str(s: string)
    | Time(nanos: nat)
    | Bytes(bytes: seq<nat>)
    | Array(elems: seq<Value>)
    | Slice(elems: seq<Value>)
    | NodeIDValue(text: string)
    | ExpandedNodeID(text: string)
    | GUID(text: string)
    | QualifiedName(name: string)
    | LocalizedText(text: string)
    | StatusCode(text: string)
    | NilExtensionObject
    | ExtensionObject(payload: Option<nat>, description: string)
    | Opaque(id: nat)

  function Low(k: IntKind): int {
    match k
    case Int8 => -0x80 case Int16 => -0x8000 case Int32 => -0x8000_0000 case Int64 => -0x8000_0000_0000_0000
    case _ => 0
  }

  function High(k: IntKind): int {
    match k
    case Int8 => 0x7F case Int16 => 0x7FFF case Int32 => 0x7FFF_FFFF case Int64 => 0x7FFF_FFFF_FFFF_FFFF
    case Uint8 => 0xFF case Uint16 => 0xFFFF case Uint32 => 0xFFFF_FFFF case Uint64 => 0xFFFF_FFFF_FFFF_FFFF
  }

  // ---- Normalising ------------------------------------------------------------

  function NormalizeFloat(f: Float): Value {
    match f
    case NaN => Str("NaN")
    case PosInf => Str("+Inf")
    case NegInf => Str("-Inf")
    case Finite(_) => Float64(f)
  }

  function NormalizeExtensionObject(v: Value): Value
    requires v.NilExtensionObject? || v.ExtensionObject?
  {
    if v.NilExtensionObject? then Nil
    else if v.payload.Some? then Opaque(v.payload.value)
    else Str(v.description)
  }

  /** NormalizeReadValue. */
  function Normalize(v: Value): Value {
    match v
    case Float32(f) => NormalizeFloat(f)
    case Float64(f) => NormalizeFloat(f)
    case NodeIDValue(text) => Str(text)
    case ExpandedNodeID(text) => Str(text)
    case GUID(text) => Str(text)
    case QualifiedName(name) => Str(name)
    case LocalizedText(text) => Str(text)
    case StatusCode(text) => Str(text)
    case NilExtensionObject => NormalizeExtensionObject(v)
    case ExtensionObject(_, _) => NormalizeExtensionObject(v)
    case Array(elems) => Array(NormalizeSlice(elems))
    case Slice(elems) => Array(NormalizeSlice(elems))
    case _ => v
  }

  function NormalizeSlice(elems: seq<Value>): (out: seq<Value>)
    ensures |out| == |elems| && forall i | 0 <= i < |elems| :: out[i] == Normalize(elems[i])
  {
    if elems == [] then [] else [Normalize(elems[0])] + NormalizeSlice(elems[1..])
  }

  /** Nothing in v, at any depth, is left to normalise. */
  predicate IsNormal(v: Value) {
    match v
    case Nil => true
    case Bool(_) => true
    case Int(_, _) => true
    case Float64(f) => f.Finite?
    case Str(_) => true
    case Time(_) => true
    case Bytes(_) => true
    case Opaque(_) => true
    case Array(elems) => forall e | e in elems :: IsNormal(e)
    case _ => false
  }

  lemma {:induction false} NormalizeIsNormal(v: Value)
    ensures IsNormal(Normalize(v))
  {
    if v.Array? || v.Slice? {
      forall i | 0 <= i < |v.elems| ensures IsNormal(NormalizeSlice(v.elems)[i]) {
        NormalizeIsNormal(v.elems[i]);
      }
    }
  }

  lemma {:induction false} NormalValuesAreKept(v: Value)
    requires IsNormal(v)
    ensures Normalize(v) == v
  {
    if v.Array? {
      forall i | 0 <= i < |v.elems| ensures Normalize(v.elems[i]) == v.elems[i] {
        NormalValuesAreKept(v.elems[i]);
      }
    }
  }

  /** Normalising twice is normalising once; no non-finite float is left. */
  lemma NormalizeIsIdempotent(v: Value)
    ensures Normalize(Normalize(v)) == Normalize(v) && IsNormal(Normalize(v))
  {
    NormalizeIsNormal(v);
    NormalValuesAreKept(Normalize(v));
  }

  /** v says the same as the value raw that came from the server: numbers as numbers,
      floats as float64 or, not being finite, by name; wrappers by their text; arrays
      element by element. */
  predicate Renders(raw: Value, v: Value) {
    match raw
    case Float32(f) => RendersFloat(f, v)
    case Float64(f) => RendersFloat(f, v)
    case NodeIDValue(text) => v == Str(text)
    case ExpandedNodeID(text) => v == Str(text)
    case GUID(text) => v == Str(text)
    case QualifiedName(name) => v == Str(name)
    case LocalizedText(text) => v == Str(text)
    case StatusCode(text) => v == Str(text)
    case NilExtensionObject => v == Nil
    case ExtensionObject(payload, description) =>
      (payload.Some? ==> v == Opaque(payload.value)) && (payload.None? ==> v == Str(description))
    case Array(elems) => RendersEach(elems, v)
    case Slice(elems) => RendersEach(elems, v)
    case Nil => v == raw
    case Bool(_) => v == raw
    case Int(_, _) => v == raw
    case Str(_) => v == raw
    case Time(_) => v == raw
    case Bytes(_) => v == raw
    case Opaque(_) => v == raw
  }

  predicate RendersFloat(f: Float, v: Value) {
    && (f.Finite? ==> v.Float64? && v.f == f)
    && (f.NaN? ==> v.Str? && v.s == "NaN")
    && (f.PosInf? ==> v.Str? && v.s == "+Inf")
    && (f.NegInf? ==> v.Str? && v.s == "-Inf")
  }

  predicate RendersEach(elems: seq<Value>, v: Value) {
    && v.Array? && |v.elems| == |elems|
    && forall i | 0 <= i < |elems| :: Renders(elems[i], v.elems[i])
  }

  /** That is what normalising makes of a value, and nothing else is. */
  lemma {:induction false} NormalizeRendersIff(raw: Value, v: Value)
    ensures Normalize(raw) == v <==> Renders(raw, v)
  {
    if raw.Array? || raw.Slice? {
      forall i | 0 <= i < |raw.elems| && v.Array? && |v.elems| == |raw.elems|
        ensures Normalize(raw.elems[i]) == v.elems[i] <==> Renders(raw.elems[i], v.elems[i])
      {
        NormalizeRendersIff(raw.elems[i], v.elems[i]);
      }
    }
  }

  /** Arrays and typed slices alike become arrays of as many elements, each the
      normalised element in its place. */
  lemma ElementsKeepTheirPlaces(v: Value)
    requires v.Array? || v.Slice?
    ensures Normalize(v).Array? && |Normalize(v).elems| == |v.elems|
    ensures forall i | 0 <= i < |v.elems| :: Normalize(v).elems[i] == Normalize(v.elems[i])
  {
  }

  /** Exactly the normal values pass unchanged. */
  lemma {:induction false} PassesUnchangedIff(v: Value)
    ensures Normalize(v) == v <==> IsNormal(v)
  {
    NormalizeIsNormal(v);
    if IsNormal(v) { NormalValuesAreKept(v); }
  }

  /** The values documented to pass unchanged. */
  predicate DocumentedSafe(v: Value) {
    match v
    case Bool(_) => true
    case Int(_, _) => true
    case Float32(f) => f.Finite?
    case Float64(f) => f.Finite?
    case Str(_) => true
    case Time(_) => true
    case Bytes(_) => true
    case ExtensionObject(payload, _) => payload.Some?
    case _ => false
  }

  /** They do, except a finite float32, which becomes a float64, and a decoded
      extension object, which becomes its payload. */
  lemma SafeValuesPassIff(v: Value)
    requires DocumentedSafe(v)
    ensures Normalize(v) == v <==> !v.Float32? && !v.ExtensionObject?
  {
    PassesUnchangedIff(v);
  }

  lemma Float32Changes(r: real)
    ensures DocumentedSafe(Float32(Finite(r)))
    ensures Normalize(Float32(Finite(r))) == Float64(Finite(r)) != Float32(Finite(r))
  {
  }

  /** Only a null becomes a null: nothing else is discarded. */
  lemma NullsComeFromNulls(v: Value)
    ensures Normalize(v).Nil? <==> v.Nil? || v.NilExtensionObject?
  {
  }

  // ---- Decimal integers as JSON text ------------------------------------------

  function Digit(d: nat): char
    requires d < 10
  {
    ['0', '1', '2', '3', '4', '5', '6', '7', '8', '9'][d]
  }

  predicate IsDigit(c: char) { '0' <= c <= '9' }

  function PrintNat(n: nat): string {
    if n < 10 then [Digit(n)] else PrintNat(n / 10) + [Digit(n % 10)]
  }

  function ParseNat(s: string): Option<nat> {
    if s == [] || !IsDigit(s[|s| - 1]) then None
    else
      var d := (s[|s| - 1] as int) - ('0' as int);
      if |s| == 1 then Some(d)
      else
        var rest := ParseNat(s[..|s| - 1]);
        if rest.None? then None else Some(rest.value * 10 + d)
  }

  function PrintInt(n: int): string { if n < 0 then "-" + PrintNat(-n) else PrintNat(n) }

  function ParseInt(s: string): Option<int> {
    if s != [] && s[0] == '-' then
      var n: Option<int> := ParseNat(s[1..]);
      if n.None? then None else Some(-n.value)
    else
      ParseNat(s)
  }

  lemma {:induction false} ParsePrintNat(n: nat)
    ensures ParseNat(PrintNat(n)) == Some(n)
    ensures PrintNat(n) != [] && IsDigit(PrintNat(n)[0])
  {
    if n >= 10 {
      ParsePrintNat(n / 10);
      var s := PrintNat(n);
      assert s[..|s| - 1] == PrintNat(n / 10);
    }
  }

  lemma ParseSigned(s: string, n: int)
    requires ParseNat(s).Some? && ParseNat(s).value == n && s != [] && IsDigit(s[0])
    ensures ParseInt(s) == Some(n) && ParseInt("-" + s).Some? && ParseInt("-" + s).value == -n
  {
    assert ("-" + s)[1..] == s;
  }

  lemma ParsePrintInt(n: int)
    ensures ParseInt(PrintInt(n)) == Some(n)
  {
    var m := if n < 0 then -n else n;
    ParsePrintNat(m);
    ParseSigned(PrintNat(m), m);
  }

  // ---- The tagged form --------------------------------------------------------

  datatype Kind = KBool | KInt(kind: IntKind) | KFloat32 | KFloat64 | KString | KTime | KBytes | KArray

  /** The JSON of a scalar: integers and booleans as their text, the others as what
      their text stands for. */
  datatype Raw =
    | NoRaw
    | Text(text: string)
    | FloatRaw(r: real)
    | StringRaw(s: string)
    | TimeRaw(nanos: nat)
    | BytesRaw(bytes: seq<nat>)

  datatype Encoded = Encoded(kind: Kind, raw: Raw, elems: seq<Encoded>)

  function EncodeFloat(kind: Kind, f: Float): Option<Encoded> {
    if f.Finite? then Some(Encoded(kind, FloatRaw(f.r), [])) else None
  }

  /** None where the code returns an error. */
  function Encode(v: Value): Option<Encoded> {
    match v
    case Bool(b) => Some(Encoded(KBool, Text(if b then "true" else "false"), []))
    case Int(kind, n) => Some(Encoded(KInt(kind), Text(PrintInt(n)), []))
    case Float32(f) => EncodeFloat(KFloat32, f)
    case Float64(f) => EncodeFloat(KFloat64, f)
    case Str(s) => Some(Encoded(KString, StringRaw(s), []))
    case Time(t) => Some(Encoded(KTime, TimeRaw(t), []))
    case Bytes(bytes) => Some(Encoded(KBytes, BytesRaw(bytes), []))
    case Array(elems) =>
      var out := EncodeAll(elems);
      if out.None? then None else Some(Encoded(KArray, NoRaw, out.value))
    case _ => None
  }

  function EncodeAll(elems: seq<Value>): Option<seq<Encoded>> {
    if elems == [] then Some([])
    else
      var head := Encode(elems[0]);
      if head.None? then None
      else
        var tail := EncodeAll(elems[1..]);
        if tail.None? then None else Some([head.value] + tail.value)
  }

  function DecodeScalar(kind: Kind, raw: Raw): Option<Value> {
    match (kind, raw)
    case (KBool, Text(text)) =>
      if text == "true" then Some(Bool(true)) else if text == "false" then Some(Bool(false)) else None
    case (KInt(k), Text(text)) =>
      var n := ParseInt(text);
      if n.Some? && Low(k) <= n.value <= High(k) then Some(Int(k, n.value)) else None
    case (KFloat32, FloatRaw(r)) => Some(Float32(Finite(r)))
    case (KFloat64, FloatRaw(r)) => Some(Float64(Finite(r)))
    case (KString, StringRaw(s)) => Some(Str(s))
    case (KTime, TimeRaw(t)) => Some(Time(t))
    case (KBytes, BytesRaw(bytes)) => Some(Bytes(bytes))
    case _ => None
  }

  function Decode(e: Encoded): Option<Value> {
    if e.kind.KArray? then
      var out := DecodeAll(e.elems);
      if out.None? then None else Some(Array(out.value))
    else DecodeScalar(e.kind, e.raw)
  }

  function DecodeAll(elems: seq<Encoded>): Option<seq<Value>> {
    if elems == [] then Some([])
    else
      var head := Decode(elems[0]);
      if head.None? then None
      else
        var tail := DecodeAll(elems[1..]);
        if tail.None? then None else Some([head.value] + tail.value)
  }

  /** Go's integers fit their type. */
  predicate Typed(v: Value) {
    match v
    case Int(kind, n) => Low(kind) <= n <= High(kind)
    case Array(elems) => forall e | e in elems :: Typed(e)
    case Slice(elems) => forall e | e in elems :: Typed(e)
    case _ => true
  }

  /** No null and no opaque leaf, at any depth. */
  predicate Storable(v: Value) {
    match v
    case Nil => false
    case Opaque(_) => false
    case Array(elems) => forall e | e in elems :: Storable(e)
    case _ => true
  }

  lemma {:induction false} NormalizeKeepsTypes(v: Value)
    requires Typed(v)
    ensures Typed(Normalize(v))
  {
    if v.Array? || v.Slice? {
      forall i | 0 <= i < |v.elems| ensures Typed(NormalizeSlice(v.elems)[i]) {
        NormalizeKeepsTypes(v.elems[i]);
      }
    }
  }

  /** A normalised value can be stored exactly when it has no null or opaque leaf. */
  lemma {:induction false} EncodesIff(v: Value)
    requires IsNormal(v)
    ensures Encode(v).Some? <==> Storable(v)
  {
    if v.Array? {
      EncodesAllIff(v.elems);
    }
  }

  lemma {:induction false} EncodesAllIff(elems: seq<Value>)
    requires forall e | e in elems :: IsNormal(e)
    ensures EncodeAll(elems).Some? <==> forall e | e in elems :: Storable(e)
  {
    if elems != [] {
      EncodesIff(elems[0]);
      EncodesAllIff(elems[1..]);
      assert forall e :: e in elems <==> e == elems[0] || e in elems[1..];
    }
  }

  /** What was encoded is decoded to the same value, of the same kinds. */
  lemma {:induction false} RoundTrip(v: Value)
    requires Typed(v) && Encode(v).Some?
    ensures Decode(Encode(v).value) == Some(v)
  {
    match v
    case Int(_, n) => ParsePrintInt(n);
    case Array(elems) => RoundTripAll(elems);
    case _ =>
  }

  lemma {:induction false} RoundTripAll(elems: seq<Value>)
    requires (forall e | e in elems :: Typed(e)) && EncodeAll(elems).Some?
    ensures DecodeAll(EncodeAll(elems).value) == Some(elems)
  {
    if elems != [] {
      RoundTrip(elems[0]);
      RoundTripAll(elems[1..]);
      var out := EncodeAll(elems).value;
      assert out[0] == Encode(elems[0]).value && out[1..] == EncodeAll(elems[1..]).value;
      assert elems == [elems[0]] + elems[1..];
    }
  }

  /** Whatever is on disk, what is decoded of it fits its types. */
  lemma {:induction false} DecodedIsTyped(e: Encoded)
    ensures Decode(e).Some? ==> Typed(Decode(e).value)
  {
    if e.kind.KArray? && Decode(e).Some? { DecodedAreTyped(e.elems); }
  }

  lemma {:induction false} DecodedAreTyped(elems: seq<Encoded>)
    ensures DecodeAll(elems).Some? ==> forall v | v in DecodeAll(elems).value :: Typed(v)
  {
    if elems != [] {
      DecodedIsTyped(elems[0]);
      DecodedAreTyped(elems[1..]);
    }
  }

  /** A value read from the server comes back from the store as it was normalised. */
  lemma StoredReadsComeBack(v: Value)
    requires Typed(v)
    ensures Encode(Normalize(v)).Some? <==> Storable(Normalize(v))
    ensures Encode(Normalize(v)).Some? ==> Decode(Encode(Normalize(v)).value) == Some(Normalize(v))
  {
    NormalizeIsNormal(v);
    EncodesIff(Normalize(v));
    NormalizeKeepsTypes(v);
    if Encode(Normalize(v)).Some? { RoundTrip(Normalize(v)); }
  }
}
