/**
 * `SchemaUtils.ToDbType`: the mapping from a CLR type to the `DbType`
 * used for a column, and the alter-column command the interpreters render.  CLR types are modelled by a datatype that keeps the
 * distinctions the mapping looks at: the types of its lookup table, enum
 * types, `Nullable<U>`, and everything else.
 */
module SchemaUtils {
  import opened Common

  /** `System.Data.DbType`. */
  datatype DbType =
    | AnsiString | Binary | Byte | Boolean | Currency | Date | DateTime | Decimal | Double
    | Guid | Int16 | Int32 | Int64 | Object | SByte | Single | String | Time | UInt16
    | UInt32 | UInt64 | VarNumeric | AnsiStringFixedLength | StringFixedLength | Xml
    | DateTime2 | DateTimeOffset

  /** A CLR type, as far as `ToDbType` can tell types apart. */
  datatype ClrType =
    | ObjectType | ByteArrayType | StringType | CharType | BoolType | SByteType | ShortType
    | UShortType | IntType | UIntType | LongType | ULongType | FloatType | DoubleType
    | DecimalType | DateTimeType | DateTimeOffsetType | GuidType
    | Nullable(underlying: ClrType)     // Nullable<U>
    | EnumType(name: string)            // any enum
    | OtherType(name: string)           // any other type (byte, TimeSpan, classes, ...)

  /** The value types that have a `Nullable<U>` entry of their own in the table. */
  predicate HasNullableEntry(u: ClrType) {
    u in {CharType, BoolType, SByteType, ShortType, UShortType, IntType, UIntType, LongType,
          ULongType, FloatType, DoubleType, DecimalType, DateTimeType, DateTimeOffsetType}
  }

  /** The non-nullable entries of the `DbTypes` dictionary. */
  function PlainEntry(t: ClrType): Option<DbType> {
    match t
    case ObjectType => Some(Binary)
    case ByteArrayType => Some(Binary)
    case StringType => Some(String)
    case CharType => Some(String)
    case BoolType => Some(Boolean)
    case SByteType => Some(SByte)
    case ShortType => Some(Int16)
    case UShortType => Some(UInt16)
    case IntType => Some(Int32)
    case UIntType => Some(UInt32)
    case LongType => Some(Int64)
    case ULongType => Some(UInt64)
    case FloatType => Some(Single)
    case DoubleType => Some(Double)
    case DecimalType => Some(Decimal)
    case DateTimeType => Some(DateTime)
    case DateTimeOffsetType => Some(DateTime)
    case GuidType => Some(String)
    case _ => None
  }

  /** `DbTypes.TryGetValue`: the whole dictionary, nullable entries included. */
  function TableLookup(t: ClrType): Option<DbType> {
    match t
    case Nullable(u) => if HasNullableEntry(u) then PlainEntry(u) else None
    case _ => PlainEntry(t)
  }

  /** `SchemaUtils.ToDbType(Type)`. */
  function ToDbType(t: ClrType): DbType
    decreases t
  {
    match TableLookup(t)
    case Some(d) => d
    case None =>
      if t.EnumType? then Int32
      else if t.Nullable? then ToDbType(t.underlying)
      else Object
  }

  /** `t` without any `Nullable<...>` wrappers. */
  function StripNullable(t: ClrType): (r: ClrType)
    ensures !r.Nullable?
  {
    if t.Nullable? then StripNullable(t.underlying) else t
  }

  /** `IAlterColumnCommand`: table, column, new CLR type, length, precision, scale and default. */
  datatype AlterColumnCommand = AlterColumnCommand(
    name: string, columnName: string, dbType: ClrType,
    length: Option<int>, precision: int, scale: int, default: Option<Value>)

  /** `Length > 0 || Precision > 0 || Scale > 0`, where a missing length compares false. */
  predicate AsksForSize(c: AlterColumnCommand) {
    (c.length.Some? && c.length.value > 0) || c.precision > 0 || c.scale > 0
  }

  /** The message of the exception raised for a resize without a type. */
  const ResizeWithoutTypeMessage: string :=
    "Error while executing data migration: you need to specify the field's type in order to change its properties"

  /** A few entries of the table, and the table's precedence over the enum and Nullable rules. */
  lemma TableEntries()
    ensures ToDbType(StringType) == String && ToDbType(GuidType) == String
    ensures ToDbType(DateTimeOffsetType) == DateTime && ToDbType(ObjectType) == Binary
    ensures ToDbType(ByteArrayType) == Binary && ToDbType(Nullable(IntType)) == Int32
    ensures forall t :: TableLookup(t).Some? ==> ToDbType(t) == TableLookup(t).value
  {
  }

  /** Enums outside the table are stored as 32-bit integers; unlisted types as `Object`. */
  lemma Fallbacks(name: string)
    ensures ToDbType(EnumType(name)) == Int32
    ensures ToDbType(OtherType(name)) == Object
    ensures ToDbType(Nullable(EnumType(name))) == Int32
    ensures ToDbType(Nullable(GuidType)) == String
  {
  }

  /**
   * Wrapping a type in `Nullable<...>` never changes its column type: the
   * nullable table entries agree with the entries of their underlying types,
   * and the recursive rule covers the rest.
   */
  lemma {:induction false} NullableIsTransparent(t: ClrType)
    ensures ToDbType(Nullable(t)) == ToDbType(t)
  {
    if HasNullableEntry(t) {
      assert TableLookup(Nullable(t)) == PlainEntry(t) == TableLookup(t);
    } else {
      assert TableLookup(Nullable(t)).None?;
    }
  }

  /** Hence the column type only depends on the type with all its `Nullable` wrappers removed. */
  lemma {:induction false} OnlyInnermostTypeMatters(t: ClrType)
    ensures ToDbType(t) == ToDbType(StripNullable(t))
    decreases t
  {
    if t.Nullable? {
      NullableIsTransparent(t.underlying);
      OnlyInnermostTypeMatters(t.underlying);
    }
  }
}
