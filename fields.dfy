/** The column types and the SQL type each declares (field.go, and the
    Declare methods of dialects/postgres/array.go, hstore.go and uuid.go).
    A declaration reads at most the `size` property. */
module FieldTypes {
  import opened Strings
  import opened Tags

  /** The Go types whose Declare method the model covers. `Numeric` has no
      Declare of its own in field.go (a defined type does not inherit the
      methods of `Decimal`), so it is not a case here. */
  datatype FieldType =
    | SmallInteger | Integer | BigInteger | Decimal | Real | Double
    | SmallSerial | Serial | BigSerial
    | Varchar | Char | Text | Bit | Bitvar | Bytea
    | TimeStamp | Date | Time | Interval | Boolean | Enum | Uuid
    // dialects/postgres
    | StringArray | IntegerArray | SmallIntegerArray | BigIntegerArray
    | RealArray | DoubleArray | BoolArray | Hstore | PgUuid

  /** The types whose declaration carries a size. */
  predicate Sized(ft: FieldType)
  {
    ft.Varchar? || ft.Char? || ft.Bit? || ft.Bitvar? || ft.StringArray?
  }

  /** The size used when `size` is absent or does not parse. */
  function DefaultSize(ft: FieldType): nat
  {
    if ft.Bit? || ft.Bitvar? then 1 else 32
  }

  /** The declaration of each type; fixed types ignore `props`. */
  function Declare(ft: FieldType, props: PropertySet): string
  {
    match ft
    case SmallInteger => "smallint"
    case Integer => "integer"
    case BigInteger => "bigint"
    case Decimal => "decimal"
    case Real => "real"
    case Double => "double"
    case SmallSerial => "smallserial"
    case Serial => "serial"
    case BigSerial => "bigserial"
    case Varchar => "character varying(" + NatToString(GetUInt(props, "size", [32]).0) + ")"
    case Char => "character(" + NatToString(GetUInt(props, "size", [32]).0) + ")"
    case Text => "text"
    case Bit => "bit(" + NatToString(GetUInt(props, "size", [1]).0) + ")"
    case Bitvar => "bit varying(" + NatToString(GetUInt(props, "size", [1]).0) + ")"
    case Bytea => "bytea"
    case TimeStamp => "timestamp"
    case Date => "date"
    case Time => "time"
    case Interval => "interval"
    case Boolean => "boolean"
    case Enum => "boolean"
    case Uuid => "uuid"
    case StringArray => "varchar(" + IntToString(GetInt(props, "size", [32]).0) + ")[]"
    case IntegerArray => "integer[]"
    case SmallIntegerArray => "smallint[]"
    case BigIntegerArray => "bigint[]"
    case RealArray => "real[]"
    case DoubleArray => "double[]"
    case BoolArray => "bool[]"
    case Hstore => "hstore"
    case PgUuid => "uuid"
  }

  /** The size a sized declaration uses: the `size` property when it is a
      32-bit unsigned decimal (a signed one for StringArray), else the
      default. */
  function SizeOf(ft: FieldType, props: PropertySet): int
  {
    if ft.StringArray? then
      (if "size" in props && ParseInt32(props["size"]).Some? then ParseInt32(props["size"]).value else DefaultSize(ft))
    else
      (if "size" in props && ParseUint32(props["size"]).Some? then ParseUint32(props["size"]).value else DefaultSize(ft))
  }

  /** The four character and bit types wrap the size in their own keyword;
      an absent or unparsable size falls back to 32 for characters and to
      1 for bits. */
  lemma SizedDeclarations(props: PropertySet)
    ensures Declare(Varchar, props) == "character varying(" + NatToString(SizeOf(Varchar, props)) + ")"
    ensures Declare(Char, props) == "character(" + NatToString(SizeOf(Char, props)) + ")"
    ensures Declare(Bit, props) == "bit(" + NatToString(SizeOf(Bit, props)) + ")"
    ensures Declare(Bitvar, props) == "bit varying(" + NatToString(SizeOf(Bitvar, props)) + ")"
    ensures Declare(StringArray, props) == "varchar(" + IntToString(SizeOf(StringArray, props)) + ")[]"
    ensures ("size" !in props || ParseUint32(props["size"]).None?) ==>
      SizeOf(Varchar, props) == 32 && SizeOf(Char, props) == 32 && SizeOf(Bit, props) == 1 && SizeOf(Bitvar, props) == 1
  {
    var u32 := GetUInt(props, "size", [32]).0;
    var u1 := GetUInt(props, "size", [1]).0;
    var i32 := GetInt(props, "size", [32]).0;
    assert SizeOf(Varchar, props) == u32 && SizeOf(Char, props) == u32;
    assert SizeOf(Bit, props) == u1 && SizeOf(Bitvar, props) == u1;
    assert SizeOf(StringArray, props) == i32;
  }

  /** A size written in decimal comes back in the declaration. */
  lemma DeclaredSizeRoundTrip(n: nat)
    requires n < TwoTo31
    ensures Declare(Varchar, map["size" := NatToString(n)]) == "character varying(" + NatToString(n) + ")"
    ensures Declare(Bit, map["size" := NatToString(n)]) == "bit(" + NatToString(n) + ")"
    ensures Declare(StringArray, map["size" := NatToString(n)]) == "varchar(" + NatToString(n) + ")[]"
  {
    var props := map["size" := NatToString(n)];
    assert "size" in props && props["size"] == NatToString(n) == IntToString(n);
    ParseUint32OfPrinted(n);
    ParseInt32OfPrinted(n);
    assert GetUInt(props, "size", [32]).0 == n;
    assert GetUInt(props, "size", [1]).0 == n;
    assert GetInt(props, "size", [32]).0 == n;
  }

  /** Every other type declares a constant: two property sets give the
      same text. */
  lemma FixedIgnoreProps(ft: FieldType, p: PropertySet, q: PropertySet)
    requires !Sized(ft)
    ensures Declare(ft, p) == Declare(ft, q)
  {
  }

  /** Enum declares "boolean", like Boolean. */
  lemma EnumIsBoolean(props: PropertySet)
    ensures Declare(Enum, props) == Declare(Boolean, map[])
  {
  }
}
