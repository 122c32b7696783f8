/** The two fixed tables that translate a CLR type's full name into the
    Access world: the SQL keyword used in CREATE TABLE and the DbType a
    command parameter is bound with (Access.cs, GetAccessDatatype and
    GetDBType). */
module TypeMapping {
  import opened Failures
  import opened Text

  /** The members of System.Data.DbType that GetDBType can return. */
  datatype DbType =
    | Boolean | Int16 | Int32 | Int64 | UInt16 | UInt32 | UInt64
    | Decimal | Double | String | Binary

  /** The CLR type names GetAccessDatatype accepts. */
  const SchemaTypeNames: set<string> :=
    {"System.Int16", "System.Int32", "System.Int64", "System.UInt16", "System.UInt32",
     "System.UInt64", "System.Decimal", "System.Double", "System.String", "System.Byte[]"}

  /** The CLR type names GetDBType accepts. */
  const ParameterTypeNames: set<string> := SchemaTypeNames + {"System.Boolean"}

  /** The four SQL keywords GetAccessDatatype can produce. */
  const SqlKeywords: set<string> := {"INTEGER", "DOUBLE", "TEXT", "IMAGE"}

  function GetAccessDatatype(typeName: string): (r: Result<string>)
    ensures r.Ok? <==> typeName in SchemaTypeNames
    ensures r.Ok? ==> r.value in SqlKeywords
    ensures r.Err? ==> r.error == TypeNotSupported
  {
    match typeName
    case "System.Int16" => Ok("INTEGER")
    case "System.Int32" => Ok("INTEGER")
    case "System.Int64" => Ok("INTEGER")
    case "System.UInt16" => Ok("INTEGER")
    case "System.UInt32" => Ok("INTEGER")
    case "System.UInt64" => Ok("INTEGER")
    case "System.Decimal" => Ok("DOUBLE")
    case "System.Double" => Ok("DOUBLE")
    case "System.String" => Ok("TEXT")
    case "System.Byte[]" => Ok("IMAGE")
    case _ => Err(TypeNotSupported)
  }

  /** No keyword starts with 'A' or ends with 'L'. */
  lemma KeywordEnds(keyword: string)
    requires keyword in SqlKeywords
    ensures 4 <= |keyword| && keyword[0] != 'A' && keyword[|keyword| - 1] != 'L'
  {
  }

  /** Every keyword is a capitalised word. */
  lemma KeywordWords(keyword: string)
    requires keyword in SqlKeywords
    ensures UpperWords(keyword)
  {
  }

  function GetDBType(typeName: string): (r: Result<DbType>)
    ensures r.Ok? <==> typeName in ParameterTypeNames
    ensures r.Err? ==> r.error == TypeNotSupported
  {
    match typeName
    case "System.Boolean" => Ok(Boolean)
    case "System.Int16" => Ok(Int16)
    case "System.Int32" => Ok(Int32)
    case "System.Int64" => Ok(Int64)
    case "System.UInt16" => Ok(UInt16)
    case "System.UInt32" => Ok(UInt32)
    case "System.UInt64" => Ok(UInt64)
    case "System.Decimal" => Ok(Decimal)
    case "System.Double" => Ok(Double)
    case "System.String" => Ok(String)
    case "System.Byte[]" => Ok(Binary)
    case _ => Err(TypeNotSupported)
  }

  /** The CLR type whose values a DbType stands for: the inverse of GetDBType. */
  function ClrTypeName(d: DbType): string
  {
    match d
    case Boolean => "System.Boolean"
    case Int16 => "System.Int16"
    case Int32 => "System.Int32"
    case Int64 => "System.Int64"
    case UInt16 => "System.UInt16"
    case UInt32 => "System.UInt32"
    case UInt64 => "System.UInt64"
    case Decimal => "System.Decimal"
    case Double => "System.Double"
    case String => "System.String"
    case Binary => "System.Byte[]"
  }

  /** GetDBType is a bijection between the ParameterTypeNames and the DbType
      members, with ClrTypeName as its inverse. */
  lemma DbTypeRoundTrip(d: DbType, typeName: string)
    ensures GetDBType(ClrTypeName(d)) == Ok(d)
    ensures GetDBType(typeName) == Ok(d) ==> typeName == ClrTypeName(d)
  {
  }

  /** The column keyword a parameter kind calls for, by the family it belongs
      to: every integer width is INTEGER, both inexact and decimal numbers are
      DOUBLE; Boolean has none. */
  function KeywordFamily(d: DbType): (r: Result<string>)
  {
    match d
    case Int16 | Int32 | Int64 | UInt16 | UInt32 | UInt64 => Ok("INTEGER")
    case Decimal | Double => Ok("DOUBLE")
    case String => Ok("TEXT")
    case Binary => Ok("IMAGE")
    case Boolean => Err(TypeNotSupported)
  }

  /** The two tables agree: a type name has a column keyword exactly when it
      has a DbType other than Boolean, and the keyword is the one of that
      DbType's family. */
  lemma MappingsAgree(typeName: string)
    ensures GetAccessDatatype(typeName) ==
      match GetDBType(typeName)
      case Ok(d) => KeywordFamily(d)
      case Err(e) => Err(e)
  {
  }

  /** System.Boolean can be bound as a parameter but has no column keyword. */
  lemma BooleanAsymmetry()
    ensures GetDBType("System.Boolean") == Ok(Boolean)
    ensures GetAccessDatatype("System.Boolean") == Err(TypeNotSupported)
    ensures ParameterTypeNames - SchemaTypeNames == {"System.Boolean"}
  {
  }
}
