// Result-set columns (oledb_stmt.c): how a provider column is bound into the
// row buffer (oledb_stmt_bind_column), how its display name is built
// (oledb_stmt_build_column_name), the native type names reported by
// getColumnMeta, the variable-width test used by parameter truncation, and
// how get_col reads a bound slot back out of the row buffer.

module Columns {
  import opened OleDbInt
  import opened Layout

  function BaseType(t: DbType): DbType { t & !DBTYPE_BYREF }

  // ------------------------------------------------------------ bind_column

  /** What CreateAccessor reported for a long column's own accessor: the
      status and the handle it wrote. */
  datatype AccessorResult = AccessorResult(hr: HResult, handle: nat)

  datatype BindOutcome = BindOutcome(hr: HResult, column: Column)

  /** The choice made by the type switch for a column that is not long. */
  datatype Retrieval = Retrieval(pdoType: int, retrievalType: DbType, byteCount: U32, forceVariable: bool)

  /** `!S->flags & CONVERT_DATE_TIME` as the C operators group it: the logical
      negation of the whole flag word, masked with bit 19.  It is 0 for every
      flag word, so the DBTIMESTAMP branch is never taken. */
  function NativeDateTimeSelector(stmtFlags: Dword): Dword
  {
    (if stmtFlags == 0 then 1 else 0) & CONVERT_DATE_TIME
  }

  /** The switch of oledb_stmt_bind_column on the column type without BYREF. */
  function TypePolicy(c: Column, stmtFlags: Dword): Retrieval
  {
    var t := BaseType(c.columnType);
    if t == DBTYPE_WSTR then Retrieval(PDO_PARAM_STR, c.columnType, Wrap32((c.maxLen + 1) * SIZEOF_WCHAR), true)
    else if t == DBTYPE_BYTES || t == DBTYPE_GUID || t == DBTYPE_STR then Retrieval(PDO_PARAM_STR, c.columnType, Wrap32(c.maxLen + 1), true)
    else if t == DBTYPE_BOOL then Retrieval(PDO_PARAM_BOOL, DBTYPE_UI1, 1, false)
    else if t == DBTYPE_UI1 || t == DBTYPE_I1 || t == DBTYPE_UI2 || t == DBTYPE_I2 || t == DBTYPE_I4 then
      Retrieval(PDO_PARAM_INT, DBTYPE_I4, SIZEOF_DWORD, false)
    else if t == DBTYPE_R4 || t == DBTYPE_R8 || t == DBTYPE_CY || t == DBTYPE_NUMERIC then
      Retrieval(PDO_PARAM_STR, DBTYPE_R8, SIZEOF_DOUBLE, false)
    else if t == DBTYPE_UI4 then Retrieval(PDO_PARAM_STR, c.columnType, SIZEOF_DWORD, false)
    else if t == DBTYPE_DATE || t == DBTYPE_DBTIMESTAMP then
      if NativeDateTimeSelector(stmtFlags) != 0 then Retrieval(PDO_PARAM_STR, DBTYPE_DBTIMESTAMP, SIZEOF_DBTIMESTAMP, false)
      else Retrieval(PDO_PARAM_STR, DBTYPE_STR, Wrap32(c.precision + 1), false)
    else if t == DBTYPE_VARIANT then Retrieval(PDO_PARAM_STR, c.columnType, SIZEOF_VARIANT, false)
    else
      var m := if c.precision > Signed32(c.maxLen) then c.precision else Signed32(c.maxLen);
      Retrieval(PDO_PARAM_STR, DBTYPE_STR, Wrap32(m + 1), true)
  }

  /** oledb_stmt_bind_column.  A long column gets its own IUNKNOWN accessor
      (the provider's CreateAccessor is the `blob` oracle) and no room in the
      row buffer; any other column is given a retrieval type and a byte count.
      Two tests are reproduced as written: VARIABLE_LENGTH is cleared when the
      column TYPE has the bit of DBCOLUMNFLAGS_ISFIXEDLENGTH, and a column is
      fetched by reference when its column FLAGS have the bit of DBTYPE_BYREF. */
  function BindColumn(c: Column, stmtFlags: Dword, blob: AccessorResult): (r: BindOutcome)
    ensures !Has(c.columnFlags, DBCOLUMNFLAGS_ISLONG) ==> r.hr == S_OK
    ensures r.column.name == c.name && r.column.nameLen == c.nameLen && r.column.ordinal == c.ordinal
    ensures r.column.columnType == c.columnType && r.column.maxLen == c.maxLen && r.column.precision == c.precision
    ensures r.column.byteOffset == c.byteOffset && r.column.metadata == c.metadata
  {
    if Has(c.columnFlags, DBCOLUMNFLAGS_ISLONG) then
      var c1 := c.(hAccessorColumn := blob.handle);
      if !Succeeded(blob.hr) then BindOutcome(blob.hr, c1)
      else
        var t := BaseType(c.columnType);
        var pdoType := if t == DBTYPE_WSTR || t == DBTYPE_STR || t == DBTYPE_BSTR then PDO_PARAM_STR else PDO_PARAM_LOB;
        BindOutcome(blob.hr, c1.(pdoType := pdoType, retrievalType := DBTYPE_IUNKNOWN, flags := c.flags | VARIABLE_LENGTH))
    else
      var p := TypePolicy(c, stmtFlags);
      // oledb_stmt.c:148 tests the column TYPE against a column-flag constant.
      var fixedByType := c.columnType as Dword & DBCOLUMNFLAGS_ISFIXEDLENGTH != 0;
      var flags := if p.forceVariable || !fixedByType then c.flags | VARIABLE_LENGTH else c.flags & !VARIABLE_LENGTH;
      // oledb_stmt.c:224 tests the column FLAGS against a type constant.
      var byRef := c.columnFlags & DBTYPE_BYREF as Dword != 0;
      BindOutcome(S_OK, c.(
        pdoType := p.pdoType,
        retrievalType := if byRef then c.columnType else p.retrievalType,
        byteCount := if byRef then SIZEOF_POINTER else p.byteCount,
        flags := flags))
  }

  /** The row-buffer entry a bound column asks for. */
  function ColumnSlot(c: Column): Slot
  {
    Slot(c.byteCount > 0, Has(c.flags, VARIABLE_LENGTH), c.byteCount)
  }

  // ---------------------------------------------- properties of bind_column

  /** A long column: on success it is read through a stream of its own
      accessor, as a string for the character types and as a LOB otherwise,
      and keeps the byte count it had (0 for a fresh column), so it takes no
      room in the row buffer.  On failure only the handle field changes. */
  lemma BindLongColumn(c: Column, stmtFlags: Dword, blob: AccessorResult)
    requires Has(c.columnFlags, DBCOLUMNFLAGS_ISLONG)
    ensures var r := BindColumn(c, stmtFlags, blob);
      && r.hr == blob.hr
      && r.column.hAccessorColumn == blob.handle
      && r.column.byteCount == c.byteCount
      && (c.byteCount == 0 ==> !ColumnSlot(r.column).bound)
      && (!Succeeded(blob.hr) ==> r.column == c.(hAccessorColumn := blob.handle))
      && (Succeeded(blob.hr) ==>
            && r.column.retrievalType == DBTYPE_IUNKNOWN
            && Has(r.column.flags, VARIABLE_LENGTH)
            && (r.column.pdoType == PDO_PARAM_STR <==> BaseType(c.columnType) in {DBTYPE_WSTR, DBTYPE_STR, DBTYPE_BSTR})
            && (r.column.pdoType != PDO_PARAM_STR ==> r.column.pdoType == PDO_PARAM_LOB))
  {
  }

  /** The type table for columns that are neither long nor flagged by the
      BYREF test. */
  lemma BindShortColumn(c: Column, stmtFlags: Dword, blob: AccessorResult)
    requires !Has(c.columnFlags, DBCOLUMNFLAGS_ISLONG) && c.columnFlags & DBTYPE_BYREF as Dword == 0
    ensures var r := BindColumn(c, stmtFlags, blob).column; var t := BaseType(c.columnType);
      && (t == DBTYPE_BOOL ==> r.pdoType == PDO_PARAM_BOOL && r.retrievalType == DBTYPE_UI1 && r.byteCount == 1)
      && (t in {DBTYPE_UI1, DBTYPE_I1, DBTYPE_UI2, DBTYPE_I2, DBTYPE_I4} ==>
            r.pdoType == PDO_PARAM_INT && r.retrievalType == DBTYPE_I4 && r.byteCount == 4)
      && (t in {DBTYPE_R4, DBTYPE_R8, DBTYPE_CY, DBTYPE_NUMERIC} ==>
            r.pdoType == PDO_PARAM_STR && r.retrievalType == DBTYPE_R8 && r.byteCount == 8)
      && (t == DBTYPE_WSTR ==> r.byteCount == Wrap32((c.maxLen + 1) * 2) && Has(r.flags, VARIABLE_LENGTH))
      && (t in {DBTYPE_BYTES, DBTYPE_GUID, DBTYPE_STR} ==> r.byteCount == Wrap32(c.maxLen + 1) && Has(r.flags, VARIABLE_LENGTH))
      && (t in {DBTYPE_WSTR, DBTYPE_BYTES, DBTYPE_GUID, DBTYPE_STR, DBTYPE_UI4, DBTYPE_VARIANT} ==> r.retrievalType == c.columnType)
      && (t == DBTYPE_UI4 ==> r.byteCount == 4)
      && (t == DBTYPE_VARIANT ==> r.byteCount == 16)
      && (t !in {DBTYPE_WSTR, DBTYPE_BYTES, DBTYPE_GUID, DBTYPE_STR, DBTYPE_BOOL, DBTYPE_UI1, DBTYPE_I1, DBTYPE_UI2,
                 DBTYPE_I2, DBTYPE_I4, DBTYPE_R4, DBTYPE_R8, DBTYPE_CY, DBTYPE_NUMERIC, DBTYPE_UI4, DBTYPE_DATE,
                 DBTYPE_DBTIMESTAMP, DBTYPE_VARIANT} ==>
            && r.pdoType == PDO_PARAM_STR && r.retrievalType == DBTYPE_STR && Has(r.flags, VARIABLE_LENGTH)
            && r.byteCount == Wrap32((if c.precision > Signed32(c.maxLen) then c.precision else Signed32(c.maxLen)) + 1))
  {
  }

  /** Date and time columns are always fetched as provider-formatted strings
      of precision + 1 bytes, whatever the statement flags say (the selector
      is 0 for every flag word). */
  lemma DateTimeAlwaysString(c: Column, stmtFlags: Dword, blob: AccessorResult)
    requires !Has(c.columnFlags, DBCOLUMNFLAGS_ISLONG) && c.columnFlags & DBTYPE_BYREF as Dword == 0
    requires BaseType(c.columnType) in {DBTYPE_DATE, DBTYPE_DBTIMESTAMP}
    ensures var r := BindColumn(c, stmtFlags, blob).column;
      r.retrievalType == DBTYPE_STR && r.byteCount == Wrap32(c.precision + 1) && r.pdoType == PDO_PARAM_STR
  {
    assert NativeDateTimeSelector(stmtFlags) == 0;
  }

  /** The statement flags play no part in binding a column at all. */
  lemma BindIgnoresStatementFlags(c: Column, f1: Dword, f2: Dword, blob: AccessorResult)
    ensures BindColumn(c, f1, blob) == BindColumn(c, f2, blob)
  {
    assert NativeDateTimeSelector(f1) == 0 && NativeDateTimeSelector(f2) == 0;
  }

  /** Whether a short column's slot has a length field is decided by the type
      code, never by the provider's ISFIXEDLENGTH column flag. */
  lemma LengthFieldIgnoresFixedLengthFlag(c: Column, stmtFlags: Dword, blob: AccessorResult)
    requires !Has(c.columnFlags, DBCOLUMNFLAGS_ISLONG)
    ensures var c2 := c.(columnFlags := c.columnFlags ^ DBCOLUMNFLAGS_ISFIXEDLENGTH);
      Has(BindColumn(c, stmtFlags, blob).column.flags, VARIABLE_LENGTH)
        == Has(BindColumn(c2, stmtFlags, blob).column.flags, VARIABLE_LENGTH)
  {
    var c2 := c.(columnFlags := c.columnFlags ^ DBCOLUMNFLAGS_ISFIXEDLENGTH);
    assert !Has(c2.columnFlags, DBCOLUMNFLAGS_ISLONG) by {
      assert c2.columnFlags & DBCOLUMNFLAGS_ISLONG == c.columnFlags & DBCOLUMNFLAGS_ISLONG;
    }
    assert TypePolicy(c2, stmtFlags) == TypePolicy(c, stmtFlags);
    ShortColumnFlags(c, stmtFlags, blob);
    ShortColumnFlags(c2, stmtFlags, blob);
  }

  /** Whether a short column is bound with a length field. */
  lemma ShortColumnFlags(c: Column, stmtFlags: Dword, blob: AccessorResult)
    requires !Has(c.columnFlags, DBCOLUMNFLAGS_ISLONG)
    ensures Has(BindColumn(c, stmtFlags, blob).column.flags, VARIABLE_LENGTH)
      <==> TypePolicy(c, stmtFlags).forceVariable || c.columnType as Dword & DBCOLUMNFLAGS_ISFIXEDLENGTH == 0
  {
    var flags := BindColumn(c, stmtFlags, blob).column.flags;
    if TypePolicy(c, stmtFlags).forceVariable || c.columnType as Dword & DBCOLUMNFLAGS_ISFIXEDLENGTH == 0 {
      assert flags == c.flags | VARIABLE_LENGTH;
      BitSet(c.flags, VARIABLE_LENGTH);
    } else {
      assert flags == c.flags & !VARIABLE_LENGTH;
      BitCleared(c.flags, VARIABLE_LENGTH);
    }
  }

  /** The integer types whose codes carry bit 0x10 (tinyint and the unsigned
      and 8-byte integers) lose their length field; an `int` column keeps it. */
  lemma LengthFieldByTypeCode(c: Column, stmtFlags: Dword, blob: AccessorResult)
    requires !Has(c.columnFlags, DBCOLUMNFLAGS_ISLONG)
    ensures c.columnType in {DBTYPE_I1, DBTYPE_UI1, DBTYPE_UI2, DBTYPE_UI4} ==>
      !Has(BindColumn(c, stmtFlags, blob).column.flags, VARIABLE_LENGTH)
    ensures c.columnType in {DBTYPE_I2, DBTYPE_I4, DBTYPE_BOOL, DBTYPE_R8} ==>
      Has(BindColumn(c, stmtFlags, blob).column.flags, VARIABLE_LENGTH)
  {
  }

  /** A column whose flags carry the bit of DBTYPE_BYREF is fetched as a
      pointer of its own type, whatever that type is. */
  lemma ByRefFlagFetchesPointer(c: Column, stmtFlags: Dword, blob: AccessorResult)
    requires !Has(c.columnFlags, DBCOLUMNFLAGS_ISLONG) && c.columnFlags & DBTYPE_BYREF as Dword != 0
    ensures var r := BindColumn(c, stmtFlags, blob).column;
      r.retrievalType == c.columnType && r.byteCount == SIZEOF_POINTER && ColumnSlot(r).bound
  {
  }

  /** A date or time column is never retrieved as a string by reference, so
      get_col's strlen of a timestamp string always reads the row buffer. */
  lemma DateTimeStringNotByRef(c: Column, stmtFlags: Dword, blob: AccessorResult)
    requires BaseType(c.columnType) in {DBTYPE_DATE, DBTYPE_DBTIMESTAMP}
    requires c.retrievalType == DBTYPE_EMPTY
    ensures var r := BindColumn(c, stmtFlags, blob).column;
      BaseType(r.retrievalType) == DBTYPE_STR ==> r.retrievalType & DBTYPE_BYREF == 0
  {
    var r := BindColumn(c, stmtFlags, blob).column;
    if !Has(c.columnFlags, DBCOLUMNFLAGS_ISLONG) && c.columnFlags & DBTYPE_BYREF as Dword == 0 {
      DateTimeAlwaysString(c, stmtFlags, blob);
    } else if !Has(c.columnFlags, DBCOLUMNFLAGS_ISLONG) {
      assert r.retrievalType == c.columnType;
      assert BaseType(r.retrievalType) == BaseType(c.columnType);
    }
  }

  // ------------------------------------------------------ build_column_name

  /** The parts of a dotted name: catalog and table when asked for and
      present, then the column. */
  function NameParts(stmtFlags: Dword, m: ColumnMetaData): (r: seq<seq<char>>)
    ensures |r| <= 3
  {
    (if Has(stmtFlags, ADD_CATALOG_NAME) && m.catalogName.Some? then [m.catalogName.value] else [])
    + (if Has(stmtFlags, ADD_TABLE_NAME) && m.tableName.Some? then [m.tableName.value] else [])
    + (if m.columnName.Some? then [m.columnName.value] else [])
  }

  /** The parts joined by single dots. */
  function Join(parts: seq<seq<char>>): seq<char>
    decreases |parts|
  {
    if parts == [] then [] else if |parts| == 1 then parts[0] else parts[0] + ['.'] + Join(parts[1..])
  }

  /** Every part followed by a dot: what the copy loop writes before the last
      dot is overwritten with the terminator. */
  function Dotted(parts: seq<seq<char>>): (r: seq<char>)
    decreases |parts|
  {
    if parts == [] then [] else Dotted(parts[..|parts| - 1]) + parts[|parts| - 1] + ['.']
  }

  /** Σ (length + 1): the allocation size, terminator included. */
  function Total(parts: seq<seq<char>>): nat
    decreases |parts|
  {
    if parts == [] then 0 else Total(parts[..|parts| - 1]) + |parts[|parts| - 1]| + 1
  }

  lemma {:induction false} DottedIsJoinPlusDot(parts: seq<seq<char>>)
    requires parts != []
    ensures Dotted(parts) == Join(parts) + ['.']
    decreases |parts|
  {
    if |parts| > 1 {
      var init := parts[..|parts| - 1];
      DottedIsJoinPlusDot(init);
      JoinSnoc(init, parts[|parts| - 1]);
      assert init + [parts[|parts| - 1]] == parts;
    } else {
      assert parts[..0] == [];
    }
  }

  lemma {:induction false} JoinSnoc(parts: seq<seq<char>>, p: seq<char>)
    requires parts != []
    ensures Join(parts + [p]) == Join(parts) + ['.'] + p
    decreases |parts|
  {
    if |parts| == 1 {
      assert (parts + [p])[1..] == [p];
    } else {
      assert (parts + [p])[1..] == parts[1..] + [p];
      JoinSnoc(parts[1..], p);
    }
  }

  lemma {:induction false} TotalIsDottedLength(parts: seq<seq<char>>)
    ensures Total(parts) == |Dotted(parts)|
    decreases |parts|
  {
    if parts != [] {
      TotalIsDottedLength(parts[..|parts| - 1]);
    }
  }

  /** oledb_stmt_build_column_name.  It succeeds only when table or catalog
      names were requested, the column is not aliased, its metadata is known
      and at least one part is present; the name is then the parts joined by
      dots and nameLen counts every part plus one byte each, which is the
      name's length plus its terminator. */
  method BuildColumnName(stmtFlags: Dword, c: Column) returns (ok: bool, name: seq<char>, nameLen: int)
    ensures ok <==> && stmtFlags & (ADD_TABLE_NAME | ADD_CATALOG_NAME) != 0
                    && !Has(c.flags, ALIESED_COLUMN)
                    && c.metadata.Some?
                    && NameParts(stmtFlags, c.metadata.value) != []
    ensures ok ==> name == Join(NameParts(stmtFlags, c.metadata.value)) && nameLen == |name| + 1
    ensures !ok ==> name == c.name && nameLen == c.nameLen
  {
    name, nameLen := c.name, c.nameLen;
    ok := false;
    if stmtFlags & (ADD_TABLE_NAME | ADD_CATALOG_NAME) != 0 && !Has(c.flags, ALIESED_COLUMN) && c.metadata.Some? {
      var parts := NameParts(stmtFlags, c.metadata.value);
      if |parts| > 0 {
        var total := PartsTotal(parts);
        var p := PartsDotted(parts);
        DottedIsJoinPlusDot(parts);
        TotalIsDottedLength(parts);
        name := p[..|p| - 1];
        nameLen := total;
        ok := true;
      }
    }
  }

  /** The first loop of build_column_name: the allocation size. */
  method PartsTotal(parts: seq<seq<char>>) returns (total: nat)
    ensures total == Total(parts)
  {
    total := 0;
    var i := 0;
    while i < |parts|
      invariant 0 <= i <= |parts|
      invariant total == Total(parts[..i])
    {
      assert parts[..i + 1][..i] == parts[..i];
      total := total + |parts[i]| + 1;
      i := i + 1;
    }
    assert parts[..|parts|] == parts;
  }

  /** The second loop of build_column_name: each part copied, then a dot. */
  method PartsDotted(parts: seq<seq<char>>) returns (p: seq<char>)
    ensures p == Dotted(parts)
  {
    p := [];
    var i := 0;
    while i < |parts|
      invariant 0 <= i <= |parts|
      invariant p == Dotted(parts[..i])
    {
      assert parts[..i + 1][..i] == parts[..i];
      p := p + parts[i] + ['.'];
      i := i + 1;
    }
    assert parts[..|parts|] == parts;
  }

  /** Splitting a name at its dots. */
  function SplitDots(s: seq<char>): (r: seq<seq<char>>)
    ensures r != []
    decreases |s|
  {
    if s == [] then [[]]
    else if s[0] == '.' then [[]] + SplitDots(s[1..])
    else var rest := SplitDots(s[1..]); [[s[0]] + rest[0]] + rest[1..]
  }

  lemma {:induction false} SplitDotsPrefix(p: seq<char>, t: seq<char>)
    requires '.' !in p
    ensures SplitDots(p + ['.'] + t) == [p] + SplitDots(t)
    ensures SplitDots(p) == [p]
    decreases |p|
  {
    if p == [] {
      assert p + ['.'] + t == ['.'] + t;
      assert (['.'] + t)[1..] == t;
    } else {
      SplitDotsPrefix(p[1..], t);
      assert (p + ['.'] + t)[1..] == p[1..] + ['.'] + t;
      assert [p[0]] + p[1..] == p;
    }
  }

  /** The dotted name can be taken apart again: when no part itself contains a
      dot, splitting at the dots gives back exactly the parts. */
  lemma {:induction false} SplitJoin(parts: seq<seq<char>>)
    requires parts != []
    requires forall k :: 0 <= k < |parts| ==> '.' !in parts[k]
    ensures SplitDots(Join(parts)) == parts
    decreases |parts|
  {
    if |parts| == 1 {
      SplitDotsPrefix(parts[0], []);
    } else {
      SplitJoin(parts[1..]);
      SplitDotsPrefix(parts[0], Join(parts[1..]));
    }
  }

  // ---------------------------------------------------- type_to_name_native

  /** Native type name by type code; for the character and binary types the
      long flag wins over the fixed-length flag. */
  function TypeToNameNative(t: DbType, columnFlags: Dword): (r: Option<string>)
  {
    if t == DBTYPE_I2 then Some("smallint")
    else if t == DBTYPE_I4 then Some("int")
    else if t == DBTYPE_I8 then Some("bigint")
    else if t == DBTYPE_UI1 then Some("tinyint")
    else if t == DBTYPE_I1 || t == DBTYPE_NUMERIC then Some("numeric")
    else if t == DBTYPE_R4 then Some("float")
    else if t == DBTYPE_R8 then Some("real")
    else if t == DBTYPE_DECIMAL then Some("decimal")
    else if t == DBTYPE_CY then Some("money")
    else if t == DBTYPE_WSTR || t == DBTYPE_BSTR then
      Some(if Has(columnFlags, DBCOLUMNFLAGS_ISLONG) then "ntext" else if Has(columnFlags, DBCOLUMNFLAGS_ISFIXEDLENGTH) then "nchar" else "nvarchar")
    else if t == DBTYPE_BOOL then Some("bit")
    else if t == DBTYPE_VARIANT then Some("variant")
    else if t == DBTYPE_GUID then Some("uniqueidentifier")
    else if t == DBTYPE_BYTES then
      Some(if Has(columnFlags, DBCOLUMNFLAGS_ISLONG) then "image" else if Has(columnFlags, DBCOLUMNFLAGS_ISFIXEDLENGTH) then "binary" else "varbinary")
    else if t == DBTYPE_STR then
      Some(if Has(columnFlags, DBCOLUMNFLAGS_ISLONG) then "text" else if Has(columnFlags, DBCOLUMNFLAGS_ISFIXEDLENGTH) then "char" else "varchar")
    else if t == DBTYPE_DATE || t == DBTYPE_DBDATE || t == DBTYPE_DBTIME || t == DBTYPE_DBTIMESTAMP then Some("datetime")
    else if t as int == DBTYPE_XML then Some("xml")
    else None
  }

  /** The type codes that have a native name. */
  const NamedTypes: set<DbType> := {
    DBTYPE_I2, DBTYPE_I4, DBTYPE_I8, DBTYPE_UI1, DBTYPE_I1, DBTYPE_NUMERIC, DBTYPE_R4, DBTYPE_R8, DBTYPE_DECIMAL,
    DBTYPE_CY, DBTYPE_WSTR, DBTYPE_BSTR, DBTYPE_BOOL, DBTYPE_VARIANT, DBTYPE_GUID, DBTYPE_BYTES, DBTYPE_STR,
    DBTYPE_DATE, DBTYPE_DBDATE, DBTYPE_DBTIME, DBTYPE_DBTIMESTAMP, 0xFFFF }

  /** A name is reported exactly for the listed codes, and for those the
      flags never decide whether there is one. */
  lemma TypeNameDefinedExactly(t: DbType, columnFlags: Dword)
    ensures TypeToNameNative(t, columnFlags).Some? <==> t in NamedTypes
  {
  }

  /** For the string and binary families the variable-width name is given
      only when the column is neither long nor fixed-length. */
  lemma VariableTypeNames(t: DbType, columnFlags: Dword)
    requires t in {DBTYPE_STR, DBTYPE_WSTR, DBTYPE_BYTES}
    ensures var n := TypeToNameNative(t, columnFlags).value;
      (n in {"varchar", "nvarchar", "varbinary"}) <==>
        !Has(columnFlags, DBCOLUMNFLAGS_ISLONG) && !Has(columnFlags, DBCOLUMNFLAGS_ISFIXEDLENGTH)
  {
  }

  // --------------------------------------------- is_variable_width_column

  predicate IsVariableWidth(t: DbType)
  {
    t == DBTYPE_STR || t == DBTYPE_WSTR || t == DBTYPE_BYTES || t == DBTYPE_VARNUMERIC
  }

  // ------------------------------------------------------ get_col decoding

  /** Where get_col's value pointer ends up: in the row buffer, or at a
      provider-owned address read from the buffer (by-reference retrieval). */
  datatype Location = InBuffer(offset: nat) | AtAddress(address: U32)

  /** What get_col hands to PDO for a column read from the row buffer. */
  datatype ColValue =
    | NullValue                                  // status neither OK nor TRUNCATED
    | Direct(loc: Location, len: nat)            // BYTES, UI1, I4: the buffer itself
    | ViaConvertString(loc: Location, len: nat)  // STR: through oledb_convert_string
    | ViaConvertBstr(loc: Location, lenW: nat)   // WSTR: through oledb_convert_bstr
    | ViaVariant(loc: Location)                  // VARIANT: formatted as a string
    | ViaTimestamp(loc: Location)                // DBTIMESTAMP: formatted as a string
    | NoPointer                                  // a retrieval type the switch has no case for

  /** strlen of the bytes starting at `from`, bounded by the buffer. */
  function CStrLen(buf: seq<Byte>, from: nat): (r: nat)
    requires from <= |buf|
    ensures from + r <= |buf|
    ensures forall k :: from <= k < from + r ==> buf[k] != 0
    ensures from + r < |buf| ==> buf[from + r] == 0
    decreases |buf| - from
  {
    if from == |buf| || buf[from] == 0 then 0 else 1 + CStrLen(buf, from + 1)
  }

  /** The slot of a bound column lies inside the row buffer. */
  predicate SlotInside(buf: seq<Byte>, c: Column)
  {
    c.byteOffset + HeaderSize(Has(c.flags, VARIABLE_LENGTH)) + c.byteCount <= |buf|
  }

  /** The row-buffer branch of oledb_stmt_get_col. */
  function DecodeSlot(buf: seq<Byte>, c: Column): (r: ColValue)
    requires SlotInside(buf, c)
  {
    var p := c.byteOffset;
    var status := ReadLE32(buf, p);
    if status != DBSTATUS_S_OK && status != DBSTATUS_S_TRUNCATED then NullValue
    else
      var variable := Has(c.flags, VARIABLE_LENGTH);
      var length := if variable then ReadLE32(buf, p + SIZEOF_DWORD) else 0;
      var valueAt := ValueOffset(p, variable);
      var loc := if c.retrievalType & DBTYPE_BYREF != 0 && valueAt + 4 <= |buf|
                 then AtAddress(ReadLE32(buf, valueAt) as U32) else InBuffer(valueAt);
      var t := BaseType(c.retrievalType);
      if t == DBTYPE_BYTES then Direct(loc, if variable then length else c.maxLen)
      else if t == DBTYPE_STR then
        var n := if c.columnType == DBTYPE_DBTIMESTAMP || c.columnType == DBTYPE_DATE then CStrLen(buf, valueAt)
                 else if variable then length else c.maxLen;
        ViaConvertString(loc, n)
      else if t == DBTYPE_WSTR then ViaConvertBstr(loc, length / 2)
      else if t == DBTYPE_VARIANT then ViaVariant(loc)
      else if t == DBTYPE_DBTIMESTAMP then ViaTimestamp(loc)
      else if t == DBTYPE_UI1 then Direct(loc, 1)
      else if t == DBTYPE_I4 then Direct(loc, 4)
      else NoPointer
  }

  /** The bytes a provider writes for one entry: status, length if variable,
      then the value. */
  function SlotImage(status: nat, length: nat, variable: bool, value: seq<Byte>): (r: seq<Byte>)
    ensures |r| == HeaderSize(variable) + |value|
  {
    LE32(status) + (if variable then LE32(length) else []) + value
  }

  /** Reading back what the provider wrote: a column whose slot holds an OK
      image with a given length yields the value's place in the buffer with
      that length (binary and string columns), or half of it in characters
      (wide strings); a NULL status yields no value. */
  lemma DecodeSlotImage(buf: seq<Byte>, c: Column, status: nat, length: nat, value: seq<Byte>)
    requires status < TWO_32 && length < TWO_32
    requires Has(c.flags, VARIABLE_LENGTH) && c.retrievalType & DBTYPE_BYREF == 0
    requires |value| == c.byteCount
    requires SlotInside(buf, c)
    requires buf[c.byteOffset..c.byteOffset + 8 + c.byteCount] == SlotImage(status, length, true, value)
    ensures var r := DecodeSlot(buf, c); var at := InBuffer(c.byteOffset + 8);
      && (status !in {DBSTATUS_S_OK, DBSTATUS_S_TRUNCATED} ==> r == NullValue)
      && (status in {DBSTATUS_S_OK, DBSTATUS_S_TRUNCATED} ==>
            && (c.retrievalType == DBTYPE_BYTES ==> r == Direct(at, length))
            && (c.retrievalType == DBTYPE_STR && c.columnType !in {DBTYPE_DATE, DBTYPE_DBTIMESTAMP} ==> r == ViaConvertString(at, length))
            && (c.retrievalType == DBTYPE_WSTR ==> r == ViaConvertBstr(at, length / 2)))
  {
    var p := c.byteOffset;
    var img := SlotImage(status, length, true, value);
    assert img == LE32(status) + (LE32(length) + value);
    assert img[0..4] == LE32(status);
    assert img[4..8] == (LE32(length) + value)[0..4] == LE32(length);
    assert buf[p..p + 4] == img[0..4];
    assert buf[p + 4..p + 8] == img[4..8];
    ReadLE32OfLE32(status, buf, p);
    ReadLE32OfLE32(length, buf, p + 4);
  }
}
