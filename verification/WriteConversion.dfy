/** Writing a value, internal/opcua/client.go: a Go value is validated against the
    node's data type and converted to the type the wire wants. Go's fixed widths,
    the wrap-around of its integer conversions, and its silence about floats that
    do not fit are written out. */
module WriteConversion {
  import opened Wrappers
  import opened Values

  datatype GoKind = GoInt | GoInt8 | GoInt16 | GoInt32 | GoInt64 | GoUint | GoUint8 | GoUint16 | GoUint32 | GoUint64

  /** A value handed to Write. A string comes with what strconv makes of it. */
  datatype GoValue =
    | GInt(kind: GoKind, n: int)
    | GFloat32(f: Float)
    | GFloat64(f: Float)
    | GString(asInt: Option<int>, asUint: Option<int>, asBool: Option<bool>)
    | GBool(b: bool)
    | GOther

  datatype DataType =
    | Boolean | SByte | Byte | Int16 | UInt16 | Int32 | UInt32 | Int64 | UInt64
    | Float | Double | String | DateTime | Guid | ByteString | Unlisted

  const MIN_INT64 := -0x8000_0000_0000_0000
  const MAX_INT64 := 0x7FFF_FFFF_FFFF_FFFF
  const TWO_64 := 0x1_0000_0000_0000_0000

  /** What this machine yields where Go leaves it open: a float converted to an
      integer type it does not fit; and the conversions to types other than
      integers and booleans, whose results are opaque here. */
  datatype Machine = Machine(int64Of: int, uint64Of: int, others: (DataType, GoValue) -> Option<nat>)

  predicate ValidMachine(m: Machine) { MIN_INT64 <= m.int64Of <= MAX_INT64 && 0 <= m.uint64Of < TWO_64 }

  predicate Signed(k: GoKind) { k.GoInt? || k.GoInt8? || k.GoInt16? || k.GoInt32? || k.GoInt64? }

  predicate Fits(k: GoKind, n: int) {
    match k
    case GoInt8 => -0x80 <= n <= 0x7F
    case GoInt16 => -0x8000 <= n <= 0x7FFF
    case GoInt32 => -0x8000_0000 <= n <= 0x7FFF_FFFF
    case GoInt => MIN_INT64 <= n <= MAX_INT64
    case GoInt64 => MIN_INT64 <= n <= MAX_INT64
    case GoUint8 => 0 <= n <= 0xFF
    case GoUint16 => 0 <= n <= 0xFFFF
    case GoUint32 => 0 <= n <= 0xFFFF_FFFF
    case GoUint => 0 <= n < TWO_64
    case GoUint64 => 0 <= n < TWO_64
  }

  predicate WellTyped(v: GoValue) {
    match v
    case GInt(k, n) => Fits(k, n)
    case GString(i, u, _) => (i.Some? ==> MIN_INT64 <= i.value <= MAX_INT64) && (u.Some? ==> 0 <= u.value < TWO_64)
    case _ => true
  }

  // ---- Go's conversions -------------------------------------------------------

  /** int64(v) of an integer: two's complement. */
  function Wrap64(n: int): int { if n > MAX_INT64 then n - TWO_64 else n }

  function Trunc(r: real): int { if r >= 0.0 then r.Floor else -(-r).Floor }

  /** A float whose truncation is an int64. */
  predicate InInt64(f: Float) { f.Finite? && MIN_INT64 <= Trunc(f.r) <= MAX_INT64 }

  predicate InUint64(f: Float) { f.Finite? && f.r >= 0.0 && Trunc(f.r) < TWO_64 }

  function FloatToInt64(f: Float, m: Machine): int { if InInt64(f) then Trunc(f.r) else m.int64Of }

  function FloatToUint64(f: Float, m: Machine): int { if InUint64(f) then Trunc(f.r) else m.uint64Of }

  /** f < 0 and f >= 0; NaN is neither. */
  predicate Negative(f: Float) { f.NegInf? || (f.Finite? && f.r < 0.0) }

  predicate NonNegative(f: Float) { f.PosInf? || (f.Finite? && f.r >= 0.0) }

  // ---- Integer types ----------------------------------------------------------

  predicate IsInteger(t: DataType) {
    t.SByte? || t.Byte? || t.Int16? || t.UInt16? || t.Int32? || t.UInt32? || t.Int64? || t.UInt64?
  }

  function Lowest(t: DataType): int {
    match t
    case SByte => -0x80 case Int16 => -0x8000 case Int32 => -0x8000_0000 case Int64 => MIN_INT64
    case _ => 0
  }

  function Highest(t: DataType): int {
    match t
    case SByte => 0x7F case Int16 => 0x7FFF case Int32 => 0x7FFF_FFFF case Int64 => MAX_INT64
    case Byte => 0xFF case UInt16 => 0xFFFF case UInt32 => 0xFFFF_FFFF case UInt64 => TWO_64 - 1
    case _ => 0
  }

  /** The Go kind convertTo* returns for t, and passes through unchanged. */
  function Native(t: DataType): GoKind
    requires IsInteger(t)
  {
    match t
    case SByte => GoInt8 case Byte => GoUint8 case Int16 => GoInt16 case UInt16 => GoUint16
    case Int32 => GoInt32 case UInt32 => GoUint32 case Int64 => GoInt64 case UInt64 => GoUint64
  }

  function Checked(t: DataType, n: int): Option<int> {
    if Lowest(t) <= n <= Highest(t) then Some(n) else None
  }

  /** convertToSByte to convertToUInt64; None is an error. */
  function ConvertInteger(t: DataType, v: GoValue, m: Machine): Option<int>
    requires IsInteger(t)
  {
    match v
    case GInt(k, n) =>
      if k == Native(t) then Some(n)
      else if Signed(k) then
        if t.Int64? then Some(n) else if t.UInt64? then (if n < 0 then None else Some(n)) else Checked(t, n)
      else if n > Highest(t) then None else Some(n)
    case GFloat32(f) => ConvertFloat(t, f, m)
    case GFloat64(f) => ConvertFloat(t, f, m)
    case GString(asInt, asUint, _) =>
      if t.UInt64? then asUint else if asInt.None? then None else Checked(t, asInt.value)
    case _ => None
  }

  function ConvertFloat(t: DataType, f: Float, m: Machine): Option<int>
    requires IsInteger(t)
  {
    if t.UInt64? then (if Negative(f) then None else Some(FloatToUint64(f, m)))
    else if t.Int64? then Some(FloatToInt64(f, m))
    else Checked(t, FloatToInt64(f, m))
  }

  predicate IsIntegerType(v: GoValue) { v.GInt? || v.GFloat64? }

  /** isInRange, with its cast to int64. */
  predicate IsInRange(t: DataType, v: GoValue, m: Machine) {
    match v
    case GInt(_, n) => Lowest(t) <= Wrap64(n) <= Highest(t)
    case GFloat64(f) => Lowest(t) <= FloatToInt64(f, m) <= Highest(t)
    case _ => false
  }

  predicate IsNonNegative(v: GoValue) {
    match v
    case GInt(k, n) => Signed(k) ==> n >= 0
    case GFloat64(f) => NonNegative(f)
    case _ => false
  }

  /** validateScalarValue for an integer data type. */
  predicate ValidateInteger(t: DataType, v: GoValue, m: Machine) {
    && IsIntegerType(v)
    && (if t.Int64? then true else if t.UInt64? then IsNonNegative(v) else IsInRange(t, v, m))
  }

  // ---- What integer writes amount to ------------------------------------------

  /** A conversion that succeeds lands in the target's range, on any machine. */
  lemma ConversionsLandInRange(t: DataType, v: GoValue, m: Machine)
    requires IsInteger(t) && WellTyped(v) && ValidMachine(m) && ConvertInteger(t, v, m).Some?
    ensures Lowest(t) <= ConvertInteger(t, v, m).value <= Highest(t)
  {
  }

  /** A conversion of a Go integer succeeds exactly when it fits, and keeps it. */
  lemma IntegersConvertIff(t: DataType, v: GoValue, m: Machine)
    requires IsInteger(t) && v.GInt? && WellTyped(v)
    ensures ConvertInteger(t, v, m) == if Lowest(t) <= v.n <= Highest(t) then Some(v.n) else None
  {
  }

  /** A float inside the int64 range (for UInt64: not negative, below 2^64)
      converts exactly when its truncation fits, and to that. */
  lemma FloatsConvertIff(t: DataType, f: Float, m: Machine)
    requires IsInteger(t) && if t.UInt64? then InUint64(f) else InInt64(f)
    ensures ConvertFloat(t, f, m) == if Lowest(t) <= Trunc(f.r) <= Highest(t) then Some(Trunc(f.r)) else None
  {
  }

  /** Of the values validation takes for integers, exactly two kinds divide it from
      conversion: integers so far beyond int64 that the cast in isInRange, or for
      Int64 the lack of a check, lets them through as negative ones of the target's
      range; and NaN as a UInt64, which is not at least zero and not below it. */
  lemma ValidateAgreesWithConvert(t: DataType, v: GoValue, m: Machine)
    requires IsInteger(t) && WellTyped(v) && IsIntegerType(v)
    ensures (ValidateInteger(t, v, m) <==> ConvertInteger(t, v, m).Some?)
            <==> if v.GInt? then v.n < TWO_64 + Lowest(t) else !(t.UInt64? && v.f.NaN?)
  {
  }

  /** Values of any other kind validation refuses, whether or not they convert. */
  lemma OthersAreRefused(t: DataType, v: GoValue, m: Machine)
    requires IsInteger(t) && !IsIntegerType(v)
    ensures !ValidateInteger(t, v, m) && WriteInteger(t, v, m).None?
    ensures v.GBool? || v.GOther? ==> ConvertInteger(t, v, m).None?
  {
  }

  /** Floats of either width are converted alike. */
  lemma BothFloatsConvertIff(t: DataType, f: Float, m: Machine)
    requires IsInteger(t) && if t.UInt64? then InUint64(f) else InInt64(f)
    ensures ConvertInteger(t, GFloat32(f), m) == ConvertInteger(t, GFloat64(f), m)
            == if Lowest(t) <= Trunc(f.r) <= Highest(t) then Some(Trunc(f.r)) else None
  {
    FloatsConvertIff(t, f, m);
  }

  /** A string converts exactly when it reads as a number in range, to that; for
      UInt64 as an unsigned one. */
  lemma StringsConvertIff(t: DataType, v: GoValue, m: Machine)
    requires IsInteger(t) && v.GString? && WellTyped(v)
    ensures var n := if t.UInt64? then v.asUint else v.asInt;
            ConvertInteger(t, v, m) == if n.Some? && Lowest(t) <= n.value <= Highest(t) then n else None
  {
  }

  /** Both passes of Write. */
  function WriteInteger(t: DataType, v: GoValue, m: Machine): Option<int>
    requires IsInteger(t)
  {
    if ValidateInteger(t, v, m) then ConvertInteger(t, v, m) else None
  }

  /** A Go integer is written exactly when it is in the target's range. Beyond
      int64 the cast in isInRange wraps, so validation lets numbers through, and
      the conversion refuses them. */
  lemma IntegersAreWrittenIff(t: DataType, v: GoValue, m: Machine)
    requires IsInteger(t) && v.GInt? && WellTyped(v)
    ensures WriteInteger(t, v, m) == if Lowest(t) <= v.n <= Highest(t) then Some(v.n) else None
    ensures v.n > MAX_INT64 && !t.UInt64? ==> ConvertInteger(t, v, m).None?
  {
  }

  /** Validation alone is not enough: the largest uint64 passes it as -1. */
  lemma ValidationWraps(m: Machine)
    ensures var v := GInt(GoUint64, TWO_64 - 1);
            WellTyped(v) && ValidateInteger(DataType.Int32, v, m) && WriteInteger(DataType.Int32, v, m).None?
  {
  }

  /** Whether a float is ever written as anything but its truncation depends on the
      machine, unless the float is inside the int64 range: those, and only those,
      are safe on every machine. For UInt64 it is those below 2^64, and those that
      validation refuses for not being at least zero. */
  lemma FloatsAreFaithfulIff(t: DataType, f: Float)
    requires IsInteger(t)
    ensures (forall m: Machine | ValidMachine(m) :: FloatFaithful(t, f, m))
            <==> if t.UInt64? then InUint64(f) || !NonNegative(f) else InInt64(f)
  {
    if t.UInt64? {
      UnsignedFloats(f);
    } else if !InInt64(f) {
      var zero := Machine(0, 0, (d: DataType, v: GoValue) => None);
      assert ValidMachine(zero) && FloatToInt64(f, zero) == 0;
      assert WriteInteger(t, GFloat64(f), zero) == Some(0);
      assert !FloatFaithful(t, f, zero);
    } else {
      forall m: Machine | ValidMachine(m) ensures FloatFaithful(t, f, m) {
        FloatsConvertIff(t, f, m);
      }
    }
  }

  lemma UnsignedFloats(f: Float)
    ensures (forall m: Machine | ValidMachine(m) :: FloatFaithful(UInt64, f, m)) <==> InUint64(f) || !NonNegative(f)
  {
    if !InUint64(f) && NonNegative(f) {
      var zero := Machine(0, 0, (d: DataType, v: GoValue) => None);
      assert ValidMachine(zero) && WriteInteger(UInt64, GFloat64(f), zero) == Some(0);
      assert !FloatFaithful(UInt64, f, zero);
    } else {
      forall m: Machine | ValidMachine(m) ensures FloatFaithful(UInt64, f, m) {
        if InUint64(f) { FloatsConvertIff(UInt64, f, m); }
      }
    }
  }

  predicate FloatFaithful(t: DataType, f: Float, m: Machine)
    requires IsInteger(t)
  {
    var w := WriteInteger(t, GFloat64(f), m);
    w.Some? ==> f.Finite? && w.value == Trunc(f.r)
  }

  // ---- Scalars and arrays of any builtin type ---------------------------------

  /** The Go types the wire wants, as builtinScalarGoType names them. */
  datatype GoType = GoBool | GoNumber(kind: GoKind) | GoFloat32 | GoFloat64 | GoString | GoTime | GoGUID | GoBytes

  function BuiltinScalarGoType(t: DataType): Option<GoType> {
    match t
    case Boolean => Some(GoBool)
    case Float => Some(GoFloat32)
    case Double => Some(GoFloat64)
    case String => Some(GoString)
    case DateTime => Some(GoTime)
    case Guid => Some(GoGUID)
    case ByteString => Some(GoBytes)
    case Unlisted => None
    case _ => Some(GoNumber(Native(t)))
  }

  /** A converted element, with its Go type. */
  datatype Wire =
    | WireBool(b: bool)
    | WireInt(kind: GoKind, n: int)
    | WireOther(goType: GoType, payload: nat)
    | WireAsIs(v: GoValue)

  function TypeOf(w: Wire): Option<GoType> {
    match w
    case WireBool(_) => Some(GoBool)
    case WireInt(k, _) => Some(GoNumber(k))
    case WireOther(goType, _) => Some(goType)
    case WireAsIs(_) => None
  }

  predicate IsFloatType(v: GoValue) { v.GInt? || v.GFloat32? || v.GFloat64? }

  predicate IsDateTimeType(v: GoValue) { v.GString? || v.GFloat64? || (v.GInt? && (v.kind.GoInt? || v.kind.GoInt64?)) }

  /** validateScalarValue. */
  predicate ValidateScalar(namespace: nat, t: DataType, v: GoValue, m: Machine) {
    && namespace == 0
    && match t
       case Boolean => v.GBool?
       case Float => IsFloatType(v)
       case Double => IsFloatType(v)
       case String => v.GString?
       case DateTime => IsDateTimeType(v)
       case Guid => v.GString?
       case ByteString => v.GString?
       case Unlisted => true
       case _ => ValidateInteger(t, v, m)
  }

  function ConvertToBoolean(v: GoValue): Option<bool> {
    match v
    case GBool(b) => Some(b)
    case GString(_, _, asBool) => asBool
    case GInt(_, n) => Some(Wrap64(n) != 0)
    case GFloat32(f) => Some(f != Finite(0.0))
    case GFloat64(f) => Some(f != Finite(0.0))
    case GOther => None
  }

  /** What validation takes for the types that are neither integers nor booleans. */
  lemma OtherTypesValidateIff(namespace: nat, t: DataType, v: GoValue, m: Machine)
    requires !IsInteger(t) && !t.Boolean?
    ensures ValidateScalar(namespace, t, v, m)
            <==> namespace == 0
                 && (t.Unlisted?
                     || ((t.Float? || t.Double?) && (v.GInt? || v.GFloat32? || v.GFloat64?))
                     || ((t.String? || t.Guid? || t.ByteString?) && v.GString?)
                     || (t.DateTime? && (v.GString? || v.GFloat64? || (v.GInt? && v.kind in {GoInt, GoInt64}))))
  {
  }

  /** The Go kinds integers go out as. */
  lemma NativeKinds()
    ensures Native(SByte) == GoInt8 && Native(DataType.Int16) == GoInt16
    ensures Native(DataType.Int32) == GoInt32 && Native(DataType.Int64) == GoInt64
    ensures Native(Byte) == GoUint8 && Native(UInt16) == GoUint16
    ensures Native(UInt32) == GoUint32 && Native(UInt64) == GoUint64
    ensures forall t: DataType, n: int | IsInteger(t) :: Fits(Native(t), n) <==> Lowest(t) <= n <= Highest(t)
  {
  }

  /** A boolean node is written exactly what a Go bool says, and nothing else is
      written to it. */
  lemma BooleansAreWrittenIff(namespace: nat, v: GoValue, m: Machine, b: bool)
    ensures ValidateScalar(namespace, Boolean, v, m) && ConvertScalar(namespace, Boolean, v, m) == Some(WireBool(b))
            <==> namespace == 0 && v == GBool(b)
    ensures ValidateScalar(namespace, Boolean, v, m) ==> ConvertScalar(namespace, Boolean, v, m).Some?
  {
  }

  /** Without validation: numbers are true unless zero, strings as they read. */
  lemma BooleansConvertIff(v: GoValue)
    requires WellTyped(v)
    ensures ConvertToBoolean(v) == Some(true)
            <==> v == GBool(true) || (v.GString? && v.asBool == Some(true)) || (v.GInt? && v.n != 0)
                 || ((v.GFloat32? || v.GFloat64?) && v.f != Finite(0.0))
    ensures ConvertToBoolean(v).None? <==> v.GOther? || (v.GString? && v.asBool.None?)
  {
  }

  /** convertScalarValue. */
  function ConvertScalar(namespace: nat, t: DataType, v: GoValue, m: Machine): Option<Wire> {
    if namespace != 0 then None
    else if t.Unlisted? then Some(WireAsIs(v))
    else if t.Boolean? then
      var b := ConvertToBoolean(v);
      if b.None? then None else Some(WireBool(b.value))
    else if IsInteger(t) then
      var n := ConvertInteger(t, v, m);
      if n.None? then None else Some(WireInt(Native(t), n.value))
    else
      var o := m.others(t, v);
      if o.None? then None else Some(WireOther(BuiltinScalarGoType(t).value, o.value))
  }

  /** The element at position i of a converted array: of the one Go type named for
      the data type, and the conversion of the element given. */
  predicate ElementOk(namespace: nat, t: DataType, v: GoValue, m: Machine, w: Wire) {
    ConvertScalar(namespace, t, v, m) == Some(w) && TypeOf(w) == BuiltinScalarGoType(t) && BuiltinScalarGoType(t).Some?
  }

  /** convertArrayValue: None on the first element that does not convert. */
  method ConvertArray(namespace: nat, t: DataType, values: seq<GoValue>, m: Machine)
    returns (converted: Option<seq<Wire>>)
    ensures converted.Some?
            <==> namespace == 0 && !t.Unlisted?
                 && forall i | 0 <= i < |values| :: ConvertScalar(namespace, t, values[i], m).Some?
    ensures converted.Some? ==> |converted.value| == |values|
                                && forall i | 0 <= i < |values| ::
                                   ElementOk(namespace, t, values[i], m, converted.value[i])
  {
    if namespace != 0 {
      return None;
    }
    var elemType := BuiltinScalarGoType(t);
    if elemType.None? {
      return None;
    }
    var out := [];
    for i := 0 to |values|
      invariant |out| == i && forall k | 0 <= k < i :: ElementOk(namespace, t, values[k], m, out[k])
    {
      var element := ConvertScalar(namespace, t, values[i], m);
      if element.None? {
        return None;
      }
      out := out + [element.value];
    }
    return Some(out);
  }

  /** validateArrayValue: dimension is the node's first ArrayDimension, if any; 0
      leaves the length free. */
  method ValidateArray(namespace: nat, t: DataType, dimension: Option<nat>, values: seq<GoValue>, m: Machine)
    returns (ok: bool)
    ensures ok <==> (dimension.None? || dimension.value == 0 || dimension.value == |values|)
                    && forall i | 0 <= i < |values| :: ValidateScalar(namespace, t, values[i], m)
  {
    if dimension.Some? && dimension.value != 0 && |values| != dimension.value {
      return false;
    }
    for i := 0 to |values|
      invariant forall k | 0 <= k < i :: ValidateScalar(namespace, t, values[k], m)
    {
      if !ValidateScalar(namespace, t, values[i], m) {
        return false;
      }
    }
    return true;
  }

  /** An array of integers goes out exactly when its length is right and every
      element fits, and then it is the same numbers in the same order. */
  method WriteIntegerArray(t: DataType, dimension: Option<nat>, values: seq<GoValue>, m: Machine)
    returns (written: Option<seq<Wire>>)
    requires IsInteger(t) && forall v | v in values :: v.GInt? && WellTyped(v)
    ensures written.Some? <==> (dimension.None? || dimension.value == 0 || dimension.value == |values|)
                               && forall i | 0 <= i < |values| :: Lowest(t) <= values[i].n <= Highest(t)
    ensures written.Some? ==> |written.value| == |values|
                              && forall i | 0 <= i < |values| :: written.value[i] == WireInt(Native(t), values[i].n)
  {
    forall i | 0 <= i < |values|
      ensures WriteInteger(t, values[i], m)
              == if Lowest(t) <= values[i].n <= Highest(t) then Some(values[i].n) else None
    {
      IntegersAreWrittenIff(t, values[i], m);
    }
    var ok := ValidateArray(0, t, dimension, values, m);
    if !ok {
      return None;
    }
    written := ConvertArray(0, t, values, m);
  }
}
