// Shared declarations of the driver: the constants, flag bits and enums of
// php_pdo_oledb_int.h, the plain records the driver keeps per column and per
// parameter, and the reference counting helpers behind SAFE_ADDREF and
// SAFE_RELEASE.  Values that the header only imports (DBTYPE_*, DBSTATUS_*,
// DBCOLUMNFLAGS_*, HRESULT codes, PDO attribute numbers) are the documented
// values of the OLE DB, Win32 and PHP 5 PDO headers for a 32-bit Windows build.

module OleDbInt {

  datatype Option<T> = None | Some(value: T)

  /** A DWORD flag word, a DBTYPE word. */
  type Dword = bv32
  type DbType = bv16

  /** One byte of a buffer; one UTF-16 code unit of a BSTR. */
  newtype Byte = x: int | 0 <= x < 256
  newtype Wchar = x: int | 0 <= x < 0x1_0000

  /** 32-bit unsigned arithmetic (ULONG, UINT, DBLENGTH, DBCOUNTITEM). */
  const TWO_32: int := 0x1_0000_0000
  type U32 = x: int | 0 <= x < 0x1_0000_0000

  function Wrap32(x: int): (r: U32)
    ensures 0 <= x < TWO_32 ==> r == x
    ensures (r - x) % TWO_32 == 0
  {
    x % TWO_32
  }

  /** Reading a 32-bit unsigned value as a C `int` / `long` (two's complement). */
  function Signed32(x: U32): (r: int)
    ensures -0x8000_0000 <= r < 0x8000_0000
    ensures Wrap32(r) == x
  {
    if x < 0x8000_0000 then x else x - TWO_32
  }

  /** A C int stored in 32 bits reads back as itself. */
  lemma SignedWrap(x: int)
    requires -0x8000_0000 <= x < 0x8000_0000
    ensures Signed32(Wrap32(x)) == x
  {
    if x < 0 {
      assert Wrap32(x) == x + TWO_32;
    }
  }

  // ---------------------------------------------------------------- HRESULT

  type HResult = int

  const S_OK: HResult := 0
  const S_FALSE: HResult := 1
  const E_FAIL: HResult := -0x7FFF_BFFB          // 0x80004005
  const E_NOTIMPL: HResult := -0x7FFF_BFFF       // 0x80004001
  const E_NOINTERFACE: HResult := -0x7FFF_BFFE   // 0x80004002
  const E_UNEXPECTED: HResult := -0x7FFF_0001    // 0x8000FFFF
  const DB_S_ERRORSOCCURRED: HResult := 0x0004_0EDA
  /** A Win32 error number returned as if it were an HRESULT; it is positive,
      so SUCCEEDED() accepts it. */
  const ERROR_INVALID_PARAMETER: HResult := 87

  predicate Succeeded(hr: HResult) { hr >= 0 }

  // ------------------------------------------------------ converter directions

  const CONVERT_FROM_INPUT_TO_UNICODE: nat := 0
  const CONVERT_FROM_UNICODE_TO_OUTPUT: nat := 1
  const CONVERT_FROM_INPUT_TO_QUERY: nat := 2
  const CONVERT_FROM_INPUT_TO_VARCHAR: nat := 3
  const CONVERT_FROM_VARCHAR_TO_OUTPUT: nat := 4
  const CONVERTER_COUNT: nat := 5

  /** A converter slot index; -1 ("no conversion") is kept apart as None. */
  type Direction = d: nat | d < 5

  // ------------------------------------------------------------- code pages

  const CP_UTF8: int := 65001
  const CP_UTF16: int := 1200

  // ------------------------------------------------------------- flag bits

  const STRING_AS_UNICODE: Dword := 0x1
  const STRING_AS_LOB: Dword := 0x2
  const STRING_AS_BYTES: Dword := 0x4
  const VARIABLE_LENGTH: Dword := 0x8
  /** ALIESED_COLUMN and TRUNCATE_STRING are the same bit: a column flag word
      and a statement/parameter flag word give it different meanings. */
  const ALIESED_COLUMN: Dword := 0x10
  const TRUNCATE_STRING: Dword := 0x10

  const MULTIPLE_RESULTS: Dword := 0x80

  const SECURE_CONNECTION: Dword := 0x100
  const CONNECTION_POOLING: Dword := 0x200
  const ENCRYPTION: Dword := 0x400
  const AUTOTRANSLATE: Dword := 0x800

  const UNIQUE_ROWS: Dword := 0x10000
  const ADD_TABLE_NAME: Dword := 0x20000
  const ADD_CATALOG_NAME: Dword := 0x40000
  const CONVERT_DATE_TIME: Dword := 0x80000
  const SCROLLABLE_CURSOR: Dword := 0x100000
  const SERVER_SIDE_CURSOR: Dword := 0x200000

  predicate Has(flags: Dword, bit: Dword) { flags & bit != 0 }

  lemma BitSet(flags: Dword, bit: Dword)
    requires bit != 0
    ensures Has(flags | bit, bit)
  {
  }

  lemma BitCleared(flags: Dword, bit: Dword)
    ensures !Has(flags & !bit, bit)
  {
  }

  // ------------------------------------------------------------ attributes

  const PDO_ATTR_TIMEOUT: int := 2
  const PDO_ATTR_SERVER_VERSION: int := 4
  const PDO_ATTR_CLIENT_VERSION: int := 5
  const PDO_ATTR_CURSOR: int := 10
  const PDO_ATTR_FETCH_TABLE_NAMES: int := 14
  const PDO_ATTR_FETCH_CATALOG_NAMES: int := 15
  const PDO_ATTR_DRIVER_SPECIFIC: int := 1000

  const PDO_OLEDB_ATTR_USE_ENCRYPTION: int := PDO_ATTR_DRIVER_SPECIFIC
  const PDO_OLEDB_ATTR_USE_INTEGRATED_AUTHENTICATION: int := PDO_ATTR_DRIVER_SPECIFIC + 1
  const PDO_OLEDB_ATTR_USE_CONNECTION_POOLING: int := PDO_ATTR_DRIVER_SPECIFIC + 2
  const PDO_OLEDB_ATTR_GET_EXTENDED_METADATA: int := PDO_ATTR_DRIVER_SPECIFIC + 3
  const PDO_OLEDB_ATTR_CONVERT_DATATIME: int := PDO_ATTR_DRIVER_SPECIFIC + 4
  const PDO_OLEDB_ATTR_APPLICATION_NAME: int := PDO_ATTR_DRIVER_SPECIFIC + 5
  const PDO_OLEDB_ATTR_UNICODE: int := PDO_ATTR_DRIVER_SPECIFIC + 6
  const PDO_OLEDB_ATTR_ENCODING: int := PDO_ATTR_DRIVER_SPECIFIC + 7
  const PDO_OLEDB_ATTR_QUERY_ENCODING: int := PDO_ATTR_DRIVER_SPECIFIC + 8
  const PDO_OLEDB_ATTR_CHAR_ENCODING: int := PDO_ATTR_DRIVER_SPECIFIC + 9
  const PDO_OLEDB_ATTR_AUTOTRANSLATE: int := PDO_ATTR_DRIVER_SPECIFIC + 10
  const PDO_OLEDB_ATTR_TRUNCATE_STRING: int := PDO_ATTR_DRIVER_SPECIFIC + 11

  const PDO_OLEDB_CURSOR_SERVER_SIDE: Dword := 0x8000_0000
  const PDO_CURSOR_SCROLL: Dword := 1

  // ------------------------------------------------------- PDO parameter types

  const PDO_PARAM_NULL: int := 0
  const PDO_PARAM_INT: int := 1
  const PDO_PARAM_STR: int := 2
  const PDO_PARAM_LOB: int := 3
  const PDO_PARAM_BOOL: int := 5
  const PDO_PARAM_INPUT_OUTPUT: Dword := 0x8000_0000

  /** PDO_PARAM_TYPE(x): the parameter type without the direction bit. */
  function PdoParamType(paramType: Dword): Dword { paramType & !PDO_PARAM_INPUT_OUTPUT }

  // ------------------------------------------------------------ OLE DB types

  const DBTYPE_EMPTY: DbType := 0
  const DBTYPE_I2: DbType := 2
  const DBTYPE_I4: DbType := 3
  const DBTYPE_R4: DbType := 4
  const DBTYPE_R8: DbType := 5
  const DBTYPE_CY: DbType := 6
  const DBTYPE_DATE: DbType := 7
  const DBTYPE_BSTR: DbType := 8
  const DBTYPE_BOOL: DbType := 11
  const DBTYPE_VARIANT: DbType := 12
  const DBTYPE_IUNKNOWN: DbType := 13
  const DBTYPE_DECIMAL: DbType := 14
  const DBTYPE_I1: DbType := 16
  const DBTYPE_UI1: DbType := 17
  const DBTYPE_UI2: DbType := 18
  const DBTYPE_UI4: DbType := 19
  const DBTYPE_I8: DbType := 20
  const DBTYPE_UI8: DbType := 21
  const DBTYPE_GUID: DbType := 72
  const DBTYPE_BYTES: DbType := 128
  const DBTYPE_STR: DbType := 129
  const DBTYPE_WSTR: DbType := 130
  const DBTYPE_NUMERIC: DbType := 131
  const DBTYPE_DBDATE: DbType := 133
  const DBTYPE_DBTIME: DbType := 134
  const DBTYPE_DBTIMESTAMP: DbType := 135
  const DBTYPE_VARNUMERIC: DbType := 139
  const DBTYPE_BYREF: DbType := 0x4000
  /** Defined by the driver itself (oledb_stmt.c). */
  const DBTYPE_XML: int := 0xFFFF

  const DBCOLUMNFLAGS_ISFIXEDLENGTH: Dword := 0x10
  const DBCOLUMNFLAGS_ISLONG: Dword := 0x80

  const DBPARAMFLAGS_ISINPUT: Dword := 0x1
  const DBPARAMFLAGS_ISOUTPUT: Dword := 0x2
  const DBPARAMFLAGS_ISLONG: Dword := 0x80

  const DBPARAMIO_INPUT: Dword := 0x1
  const DBPARAMIO_OUTPUT: Dword := 0x2

  const DBSTATUS_S_OK: nat := 0
  const DBSTATUS_S_ISNULL: nat := 3
  const DBSTATUS_S_TRUNCATED: nat := 4

  // ------------------------------------------------- Win32 sizes (32-bit build)

  const SIZEOF_DWORD: nat := 4
  /** DBLENGTH is a ULONG: a length slot is as wide as a status slot. */
  const SIZEOF_DBLENGTH: nat := 4
  const SIZEOF_POINTER: nat := 4
  const SIZEOF_IUNKNOWN: nat := 4
  const SIZEOF_INT: nat := 4
  const SIZEOF_DOUBLE: nat := 8
  const SIZEOF_VARIANT: nat := 16
  const SIZEOF_DBTIMESTAMP: nat := 16
  const SIZEOF_GUID: nat := 16
  const SIZEOF_WCHAR: nat := 2

  // ------------------------------------------------------------- records

  /** Column metadata gathered from the columns rowset (names already converted
      to the output encoding). */
  datatype ColumnMetaData = ColumnMetaData(
    columnName: Option<seq<char>>,
    tableName: Option<seq<char>>,
    catalogName: Option<seq<char>>)

  /** pdo_oledb_column without its conversion-context pointer, which the
      statement keeps beside it. */
  datatype Column = Column(
    flags: Dword,
    name: seq<char>,
    nameLen: int,
    precision: int,
    maxLen: U32,
    columnFlags: Dword,
    ordinal: nat,
    columnType: DbType,
    retrievalType: DbType,
    pdoType: int,
    columnLength: int,
    byteOffset: nat,
    byteCount: U32,
    hAccessorColumn: nat,
    metadata: Option<ColumnMetaData>)

  // ------------------------------------------------- SAFE_ADDREF / SAFE_RELEASE

  /** Reference counts of COM objects the driver does not own (MLang converters,
      provider interfaces), indexed by an object identity.  An identity never
      seen has count 0. */
  class ComLedger {
    var refs: map<nat, int>
    var next: nat

    function Count(id: nat): int
      reads this
    {
      if id in refs then refs[id] else 0
    }

    constructor ()
      ensures refs == map[] && next == 0
    {
      refs := map[];
      next := 0;
    }

    /** A new object whose only reference belongs to the caller. */
    method Create() returns (id: nat)
      modifies this
      ensures id == old(next) && next == id + 1
      ensures refs == old(refs)[id := 1]
    {
      id := next;
      refs := refs[id := 1];
      next := next + 1;
    }

    /** SAFE_ADDREF: nothing on a null pointer. */
    method SafeAddRef(p: Option<nat>)
      modifies this
      ensures next == old(next)
      ensures p.None? ==> refs == old(refs)
      ensures p.Some? ==> refs == old(refs)[p.value := old(Count(p.value)) + 1]
    {
      if p.Some? {
        refs := refs[p.value := Count(p.value) + 1];
      }
    }

    /** SAFE_RELEASE: nothing on a null pointer. */
    method SafeRelease(p: Option<nat>)
      modifies this
      ensures next == old(next)
      ensures p.None? ==> refs == old(refs)
      ensures p.Some? ==> refs == old(refs)[p.value := old(Count(p.value)) - 1]
    {
      if p.Some? {
        refs := refs[p.value := Count(p.value) - 1];
      }
    }
  }
}
