// Driver options of oledb_driver.c and oledb_stmt.c: the attribute to
// internal-flag mapping (oledb_driver.c:244-258), setting and reading a flag
// (oledb_driver.c:561-618), the `set_driver_option` dispatch shared by the
// connection, the statement, bound parameters and columns, the connection's
// options with their default encoding, the version string join and its
// `get_attr`.  The initialisation properties are in InitProperties.

module DriverOptions {
  import opened OleDbInt
  import opened Conversion

  // ------------------------------------------------------------ PHP values

  /** The host values an option can carry. */
  datatype Zval = Null | Bool(b: bool) | Long(n: int) | Str(s: string)

  /** convert_to_boolean. */
  function ToBoolean(v: Zval): (b: bool)
    ensures v.Null? ==> !b
    ensures v.Long? ==> (b <==> v.n != 0)
    ensures v.Str? ==> (b <==> v.s != "" && v.s != "0")
  {
    match v
    case Null => false
    case Bool(b) => b
    case Long(n) => n != 0
    case Str(s) => s != "" && s != "0"
  }

  function DigitChar(d: nat): (c: char)
    requires d < 10
    ensures '0' <= c <= '9'
  {
    ['0', '1', '2', '3', '4', '5', '6', '7', '8', '9'][d]
  }

  function Digits(n: nat): (s: string)
    ensures |s| > 0
  {
    if n < 10 then [DigitChar(n)] else Digits(n / 10) + [DigitChar(n % 10)]
  }

  /** convert_to_string. */
  function ToText(v: Zval): (s: string)
    ensures v.Str? ==> s == v.s
    ensures v.Null? ==> s == ""
  {
    match v
    case Null => ""
    case Bool(b) => if b then "1" else ""
    case Long(n) => if n < 0 then "-" + Digits(-n) else Digits(n)
    case Str(s) => s
  }

  /** What oledb_set_conversion_option makes of a value: nothing for a
      null, else its string form. */
  function AsName(v: Zval): (n: Option<string>)
    ensures n.None? <==> v.Null?
  {
    if v.Null? then None else Some(ToText(v))
  }

  // ------------------------------------------------------ attribute -> flag

  /** The attributes that name an internal flag. */
  const FLAG_ATTRIBUTES: set<int> := {
    PDO_ATTR_FETCH_TABLE_NAMES, PDO_ATTR_FETCH_CATALOG_NAMES, PDO_OLEDB_ATTR_UNICODE,
    PDO_OLEDB_ATTR_GET_EXTENDED_METADATA, PDO_OLEDB_ATTR_CONVERT_DATATIME,
    PDO_OLEDB_ATTR_USE_INTEGRATED_AUTHENTICATION, PDO_OLEDB_ATTR_USE_CONNECTION_POOLING,
    PDO_OLEDB_ATTR_USE_ENCRYPTION, PDO_OLEDB_ATTR_AUTOTRANSLATE, PDO_OLEDB_ATTR_TRUNCATE_STRING}

  /** The encodings, handled by the conversion context. */
  const ENCODING_ATTRIBUTES: set<int> := {
    PDO_OLEDB_ATTR_ENCODING, PDO_OLEDB_ATTR_QUERY_ENCODING, PDO_OLEDB_ATTR_CHAR_ENCODING}

  /** constant_to_internal_flag: the flag an attribute governs, 0 for none. */
  function ConstantToInternalFlag(attr: int): (f: Dword)
    ensures f != 0 <==> attr in FLAG_ATTRIBUTES
  {
    if attr == PDO_ATTR_FETCH_TABLE_NAMES then ADD_TABLE_NAME
    else if attr == PDO_ATTR_FETCH_CATALOG_NAMES then ADD_CATALOG_NAME
    else if attr == PDO_OLEDB_ATTR_UNICODE then STRING_AS_UNICODE
    else if attr == PDO_OLEDB_ATTR_GET_EXTENDED_METADATA then UNIQUE_ROWS
    else if attr == PDO_OLEDB_ATTR_CONVERT_DATATIME then CONVERT_DATE_TIME
    else if attr == PDO_OLEDB_ATTR_USE_INTEGRATED_AUTHENTICATION then SECURE_CONNECTION
    else if attr == PDO_OLEDB_ATTR_USE_CONNECTION_POOLING then CONNECTION_POOLING
    else if attr == PDO_OLEDB_ATTR_USE_ENCRYPTION then ENCRYPTION
    else if attr == PDO_OLEDB_ATTR_AUTOTRANSLATE then AUTOTRANSLATE
    else if attr == PDO_OLEDB_ATTR_TRUNCATE_STRING then TRUNCATE_STRING
    else 0
  }

  /** Distinct attributes govern disjoint flags. */
  lemma FlagsDistinct(a: int, b: int)
    requires a in FLAG_ATTRIBUTES && a != b
    ensures b in FLAG_ATTRIBUTES ==> ConstantToInternalFlag(b) & ConstantToInternalFlag(a) == 0
  {
  }

  /** No attribute governs STRING_AS_LOB, MULTIPLE_RESULTS or a cursor
      bit; the flag of TRUNCATE_STRING is also the ALIESED_COLUMN bit. */
  lemma FlagNotCursor(a: int)
    requires a in FLAG_ATTRIBUTES
    ensures ConstantToInternalFlag(a) & (STRING_AS_LOB | MULTIPLE_RESULTS | SCROLLABLE_CURSOR | SERVER_SIDE_CURSOR) == 0
    ensures ConstantToInternalFlag(a) & SCROLLABLE_CURSOR == 0 && ConstantToInternalFlag(a) & SERVER_SIDE_CURSOR == 0
    ensures ConstantToInternalFlag(PDO_OLEDB_ATTR_TRUNCATE_STRING) == ALIESED_COLUMN
  {
  }

  // ---------------------------------------------------------------- masks

  /** The flags a connection accepts (oledb_driver.c:810). */
  const CONNECTION_MASK: Dword := SECURE_CONNECTION | CONNECTION_POOLING | ENCRYPTION | AUTOTRANSLATE
    | STRING_AS_UNICODE | STRING_AS_LOB | TRUNCATE_STRING | UNIQUE_ROWS | ADD_TABLE_NAME | ADD_CATALOG_NAME
    | CONVERT_DATE_TIME | SCROLLABLE_CURSOR | SERVER_SIDE_CURSOR

  /** The flags a statement accepts (oledb_stmt.c:1699). */
  const STATEMENT_MASK: Dword := UNIQUE_ROWS | SCROLLABLE_CURSOR | SERVER_SIDE_CURSOR | STRING_AS_UNICODE
    | STRING_AS_LOB | TRUNCATE_STRING | ADD_TABLE_NAME | ADD_CATALOG_NAME | CONVERT_DATE_TIME

  /** The flags a bound parameter or column accepts (oledb_stmt.c:1172, 1210). */
  const BOUND_MASK: Dword := STRING_AS_UNICODE | STRING_AS_LOB | TRUNCATE_STRING | CONVERT_DATE_TIME

  // ------------------------------------------------------ set / get a flag

  const ILLEGAL_OPERATION: Automation := ("Illegal operation", "58004")

  /** `*pFlags |= bit` or `*pFlags &= ~bit`. */
  function Update(flags: Dword, bit: Dword, on: bool): Dword
  {
    if on then flags | bit else flags & !bit
  }

  lemma UpdateSets(flags: Dword, bit: Dword)
    requires bit != 0
    ensures Has(Update(flags, bit, true), bit)
  {
  }

  lemma UpdateClears(flags: Dword, bit: Dword)
    ensures !Has(Update(flags, bit, false), bit)
  {
  }

  lemma UpdateElsewhere(flags: Dword, bit: Dword, on: bool)
    ensures Update(flags, bit, on) & !bit == flags & !bit
  {
  }

  /** The bit takes the value asked for and no other bit changes. */
  lemma UpdateBits(flags: Dword, bit: Dword, on: bool)
    requires bit != 0
    ensures Has(Update(flags, bit, on), bit) == on
    ensures Update(flags, bit, on) & !bit == flags & !bit
  {
    if on {
      UpdateSets(flags, bit);
    } else {
      UpdateClears(flags, bit);
    }
    UpdateElsewhere(flags, bit, on);
  }

  /** Bits outside a changed bit keep their values. */
  lemma Elsewhere(x: Dword, y: Dword, f: Dword, g: Dword)
    requires x & !f == y & !f && g & f == 0
    ensures x & g == y & g
  {
  }

  /** Changing two bits in turn keeps the bits outside both. */
  lemma TwoBits(x2: Dword, x1: Dword, x0: Dword, f: Dword, g: Dword)
    requires x2 & !f == x1 & !f && x1 & !g == x0 & !g
    ensures x2 & !(g | f) == x0 & !(g | f)
  {
  }

  /** `Z_LVAL_P(val) & PDO_OLEDB_CURSOR_SERVER_SIDE` and
      `(Z_LVAL_P(val) & 0x0FFFFFFF) == PDO_CURSOR_SCROLL` on a long that
      convert_to_boolean has made 0 or 1. */
  lemma BooleanLong(lval: Dword)
    requires lval == 0 || lval == 1
    ensures lval & PDO_OLEDB_CURSOR_SERVER_SIDE == 0
    ensures (lval & 0x0FFF_FFFF == PDO_CURSOR_SCROLL) == (lval == 1)
  {
  }

  /** The cursor bits oledb_set_internal_flag derives from the value as a
      long. */
  function CursorFlags(lval: Dword, flags: Dword): Dword
  {
    var f1 := Update(flags, SERVER_SIDE_CURSOR, lval & PDO_OLEDB_CURSOR_SERVER_SIDE != 0);
    Update(f1, SCROLLABLE_CURSOR, lval & 0x0FFF_FFFF == PDO_CURSOR_SCROLL)
  }

  /** Once the value is a boolean, the server-side bit is always cleared and
      the scrollable bit is the boolean. */
  lemma BooleanCursorFlags(lval: Dword, flags: Dword)
    requires lval == 0 || lval == 1
    ensures var r := CursorFlags(lval, flags);
      && !Has(r, SERVER_SIDE_CURSOR) && Has(r, SCROLLABLE_CURSOR) == (lval == 1)
      && r & !(SERVER_SIDE_CURSOR | SCROLLABLE_CURSOR) == flags & !(SERVER_SIDE_CURSOR | SCROLLABLE_CURSOR)
  {
    if lval == 0 {
      assert CursorFlags(lval, flags) == Update(Update(flags, SERVER_SIDE_CURSOR, false), SCROLLABLE_CURSOR, false);
    } else {
      assert CursorFlags(lval, flags) == Update(Update(flags, SERVER_SIDE_CURSOR, false), SCROLLABLE_CURSOR, true);
    }
  }

  /** What oledb_set_internal_flag answers and leaves in *pFlags, and the
      automation error it sets. */
  datatype FlagResult = FlagResult(hr: HResult, flags: Dword, error: Option<Automation>)

  /** The flag branch of oledb_set_internal_flag: refused outside the mask,
      else the bit is set or cleared. */
  function SetFlag(flag: Dword, on: bool, mask: Dword, flags: Dword): (r: FlagResult)
    ensures flag & mask == 0 ==> r == FlagResult(E_FAIL, flags, Some(ILLEGAL_OPERATION))
    ensures flag & mask != 0 ==> r.hr == S_OK && r.error.None? && r.flags == Update(flags, flag, on)
  {
    if flag & mask == 0 then FlagResult(E_FAIL, flags, Some(ILLEGAL_OPERATION))
    else FlagResult(S_OK, Update(flags, flag, on), None)
  }

  /** The PDO_ATTR_CURSOR branch, given the value as a boolean. */
  function SetCursorFlags(on: bool, mask: Dword, flags: Dword): (r: FlagResult)
    ensures mask & SERVER_SIDE_CURSOR == 0 ==> r == FlagResult(E_FAIL, flags, Some(ILLEGAL_OPERATION))
    ensures mask & SERVER_SIDE_CURSOR != 0 ==> r.hr == S_OK && r.error.None?
  {
    // convert_to_boolean(val) has already made Z_LVAL_P(val) 0 or 1
    var lval: Dword := if on then 1 else 0;
    if mask & SERVER_SIDE_CURSOR != 0 then FlagResult(S_OK, CursorFlags(lval, flags), None)
    else FlagResult(E_FAIL, flags, Some(ILLEGAL_OPERATION))
  }

  /** oledb_set_internal_flag.  For PDO_ATTR_CURSOR the value is turned into
      a boolean (0 or 1) before its PDO_OLEDB_CURSOR_SERVER_SIDE bit is
      tested, so that test never succeeds and a true value always reads as
      PDO_CURSOR_SCROLL (oledb_driver.c:579-581). */
  function SetInternalFlag(attr: int, val: Zval, mask: Dword, flags: Dword): (r: FlagResult)
    ensures r.hr in {S_OK, S_FALSE, E_FAIL}
    ensures r.hr == S_FALSE <==> attr !in FLAG_ATTRIBUTES && attr != PDO_ATTR_CURSOR
    ensures r.hr != S_OK ==> r.flags == flags
    ensures r.hr == E_FAIL <==> r.error.Some?
    ensures r.error.Some? ==> r.error.value == ILLEGAL_OPERATION
  {
    var flag := ConstantToInternalFlag(attr);
    if flag != 0 then SetFlag(flag, ToBoolean(val), mask, flags)
    else if attr == PDO_ATTR_CURSOR then SetCursorFlags(ToBoolean(val), mask, flags)
    else FlagResult(S_FALSE, flags, None)
  }

  /** The cursor type oledb_get_internal_flag reports: `cursor_type` is a C
      int, so PDO_OLEDB_CURSOR_SERVER_SIDE sets its sign bit. */
  function CursorType(flags: Dword): (t: int)
    ensures t < 0 <==> Has(flags, SERVER_SIDE_CURSOR)
    ensures t % 2 == 1 <==> Has(flags, SCROLLABLE_CURSOR)
    ensures -0x8000_0000 <= t < 0x8000_0000
  {
    (if flags & SERVER_SIDE_CURSOR != 0 then -0x8000_0000 else 0)
      + (if flags & SCROLLABLE_CURSOR != 0 then PDO_CURSOR_SCROLL as int else 0)
  }

  /** oledb_get_internal_flag: 1 and the flag as a boolean, 1 and the cursor
      type, or 0 and no value. */
  function GetInternalFlag(attr: int, flags: Dword): (r: (int, Option<Zval>))
    ensures r.0 == 1 <==> attr in FLAG_ATTRIBUTES || attr == PDO_ATTR_CURSOR
    ensures r.0 in {0, 1} && (r.1.Some? <==> r.0 == 1)
    ensures attr in FLAG_ATTRIBUTES ==> r.1 == Some(Bool(Has(flags, ConstantToInternalFlag(attr))))
    ensures attr == PDO_ATTR_CURSOR ==> r.1 == Some(Long(CursorType(flags)))
  {
    var flag := ConstantToInternalFlag(attr);
    if flag != 0 then (1, Some(Bool(flags & flag != 0)))
    else if attr == PDO_ATTR_CURSOR then (1, Some(Long(CursorType(flags))))
    else (0, None)
  }

  /** A flag inside the mask is accepted and its bit updated to the
      value's truth. */
  lemma SetFlagInsideMask(attr: int, val: Zval, mask: Dword, flags: Dword)
    requires attr in FLAG_ATTRIBUTES && Has(mask, ConstantToInternalFlag(attr))
    ensures SetInternalFlag(attr, val, mask, flags) ==
      FlagResult(S_OK, Update(flags, ConstantToInternalFlag(attr), ToBoolean(val)), None)
  {
  }

  /** A flag outside the mask is refused and nothing changes. */
  lemma SetFlagOutsideMask(attr: int, val: Zval, mask: Dword, flags: Dword)
    requires attr in FLAG_ATTRIBUTES && !Has(mask, ConstantToInternalFlag(attr))
    ensures SetInternalFlag(attr, val, mask, flags) == FlagResult(E_FAIL, flags, Some(ILLEGAL_OPERATION))
  {
  }

  /** Reading a flag back after setting it reports the value's truth. */
  lemma GetAfterSet(attr: int, val: Zval, mask: Dword, flags: Dword)
    requires attr in FLAG_ATTRIBUTES && Has(mask, ConstantToInternalFlag(attr))
    ensures GetInternalFlag(attr, SetInternalFlag(attr, val, mask, flags).flags) == (1, Some(Bool(ToBoolean(val))))
  {
    SetFlagInsideMask(attr, val, mask, flags);
    UpdateBits(flags, ConstantToInternalFlag(attr), ToBoolean(val));
  }

  /** Setting a flag either updates its bit or leaves the word alone. */
  lemma SetFlagUpdates(a: int, val: Zval, mask: Dword, flags: Dword)
    requires a in FLAG_ATTRIBUTES
    ensures var r := SetInternalFlag(a, val, mask, flags).flags;
      r == Update(flags, ConstantToInternalFlag(a), ToBoolean(val)) || r == flags
  {
    if Has(mask, ConstantToInternalFlag(a)) {
      SetFlagInsideMask(a, val, mask, flags);
    } else {
      SetFlagOutsideMask(a, val, mask, flags);
    }
  }

  /** Updating a bit, or not, keeps every other bit. */
  lemma UpdatedOrNot(r: Dword, flags: Dword, f: Dword, on: bool)
    requires r == Update(flags, f, on) || r == flags
    ensures r & !f == flags & !f
  {
    if r != flags {
      UpdateElsewhere(flags, f, on);
    }
  }

  /** Setting a flag changes no bit but its own. */
  lemma SetFlagKeepsOthers(a: int, val: Zval, mask: Dword, flags: Dword)
    requires a in FLAG_ATTRIBUTES
    ensures SetInternalFlag(a, val, mask, flags).flags & !ConstantToInternalFlag(a) == flags & !ConstantToInternalFlag(a)
  {
    SetFlagUpdates(a, val, mask, flags);
    UpdatedOrNot(SetInternalFlag(a, val, mask, flags).flags, flags, ConstantToInternalFlag(a), ToBoolean(val));
  }

  /** A bit outside the changed ones keeps its value. */
  lemma SameBit(x: Dword, y: Dword, f: Dword, g: Dword)
    requires x & !f == y & !f && g & f == 0
    ensures Has(x, g) == Has(y, g)
  {
    Elsewhere(x, y, f, g);
  }

  /** A flag attribute reads the same from two words that agree on its bit. */
  lemma ReadsFlag(b: int, x: Dword, y: Dword)
    requires b in FLAG_ATTRIBUTES && Has(x, ConstantToInternalFlag(b)) == Has(y, ConstantToInternalFlag(b))
    ensures GetInternalFlag(b, x) == GetInternalFlag(b, y)
  {
  }

  /** The cursor reads the same from two words that agree on both cursor
      bits. */
  lemma ReadsCursor(x: Dword, y: Dword)
    requires Has(x, SERVER_SIDE_CURSOR) == Has(y, SERVER_SIDE_CURSOR)
    requires Has(x, SCROLLABLE_CURSOR) == Has(y, SCROLLABLE_CURSOR)
    ensures GetInternalFlag(PDO_ATTR_CURSOR, x) == GetInternalFlag(PDO_ATTR_CURSOR, y)
  {
  }

  /** What an attribute reads depends only on its own bits: a word that
      differs from another only in bit `f` reads the same for every
      attribute whose bits are disjoint from `f`. */
  lemma GetReadsOwnBits(b: int, x: Dword, y: Dword, f: Dword)
    requires x & !f == y & !f
    requires b in FLAG_ATTRIBUTES ==> ConstantToInternalFlag(b) & f == 0
    requires f & SERVER_SIDE_CURSOR == 0 && f & SCROLLABLE_CURSOR == 0
    ensures GetInternalFlag(b, x) == GetInternalFlag(b, y)
  {
    if b in FLAG_ATTRIBUTES {
      SameBit(x, y, f, ConstantToInternalFlag(b));
      ReadsFlag(b, x, y);
    } else if b == PDO_ATTR_CURSOR {
      SameBit(x, y, f, SERVER_SIDE_CURSOR);
      SameBit(x, y, f, SCROLLABLE_CURSOR);
      ReadsCursor(x, y);
    }
  }

  /** Setting one attribute leaves what every other attribute reads. */
  lemma SetLeavesOthers(a: int, b: int, val: Zval, mask: Dword, flags: Dword)
    requires a in FLAG_ATTRIBUTES && a != b
    ensures GetInternalFlag(b, SetInternalFlag(a, val, mask, flags).flags) == GetInternalFlag(b, flags)
  {
    SetFlagKeepsOthers(a, val, mask, flags);
    FlagNotCursor(a);
    FlagsDistinct(a, b);
    GetReadsOwnBits(b, SetInternalFlag(a, val, mask, flags).flags, flags, ConstantToInternalFlag(a));
  }

  /** PDO_ATTR_CURSOR where the mask allows a cursor: the server-side bit
      is always cleared, the scrollable bit follows the value's truth, and
      no other bit changes. */
  lemma SetCursor(val: Zval, mask: Dword, flags: Dword)
    requires Has(mask, SERVER_SIDE_CURSOR)
    ensures var r := SetInternalFlag(PDO_ATTR_CURSOR, val, mask, flags);
      && r.hr == S_OK && r.error.None?
      && !Has(r.flags, SERVER_SIDE_CURSOR)
      && Has(r.flags, SCROLLABLE_CURSOR) == ToBoolean(val)
      && r.flags & !(SERVER_SIDE_CURSOR | SCROLLABLE_CURSOR) == flags & !(SERVER_SIDE_CURSOR | SCROLLABLE_CURSOR)
  {
    BooleanCursorFlags(if ToBoolean(val) then 1 else 0, flags);
  }

  /** Asking for a forward-only server-side cursor gives a scrollable
      client cursor, which reads back as PDO_CURSOR_SCROLL. */
  lemma ServerSideCursorLost(flags: Dword)
    ensures var r := SetInternalFlag(PDO_ATTR_CURSOR, Long(PDO_OLEDB_CURSOR_SERVER_SIDE as int), STATEMENT_MASK, flags);
      && r.hr == S_OK
      && !Has(r.flags, SERVER_SIDE_CURSOR) && Has(r.flags, SCROLLABLE_CURSOR)
      && GetInternalFlag(PDO_ATTR_CURSOR, r.flags) == (1, Some(Long(1)))
  {
    SetCursor(Long(PDO_OLEDB_CURSOR_SERVER_SIDE as int), STATEMENT_MASK, flags);
  }

  /** A statement, a parameter or a column refuses the connection-only
      flags. */
  lemma ConnectionFlagsRefused(attr: int, val: Zval, flags: Dword)
    requires attr in {PDO_OLEDB_ATTR_USE_INTEGRATED_AUTHENTICATION, PDO_OLEDB_ATTR_USE_CONNECTION_POOLING,
                      PDO_OLEDB_ATTR_USE_ENCRYPTION, PDO_OLEDB_ATTR_AUTOTRANSLATE}
    ensures SetInternalFlag(attr, val, STATEMENT_MASK, flags).hr == E_FAIL
    ensures SetInternalFlag(attr, val, BOUND_MASK, flags).hr == E_FAIL
    ensures SetInternalFlag(attr, val, CONNECTION_MASK, flags).hr == S_OK
  {
    MaskContents();
  }

  /** Which connection-only flags each mask holds. */
  lemma MaskContents()
    ensures SECURE_CONNECTION & STATEMENT_MASK == 0 && SECURE_CONNECTION & BOUND_MASK == 0
    ensures CONNECTION_POOLING & STATEMENT_MASK == 0 && CONNECTION_POOLING & BOUND_MASK == 0
    ensures ENCRYPTION & STATEMENT_MASK == 0 && ENCRYPTION & BOUND_MASK == 0
    ensures AUTOTRANSLATE & STATEMENT_MASK == 0 && AUTOTRANSLATE & BOUND_MASK == 0
    ensures SECURE_CONNECTION & CONNECTION_MASK != 0 && CONNECTION_POOLING & CONNECTION_MASK != 0
    ensures ENCRYPTION & CONNECTION_MASK != 0 && AUTOTRANSLATE & CONNECTION_MASK != 0
  {
  }

  // ------------------------------------------- the set_driver_option dispatch

  /** What a set_driver_option default branch produces: the status, the
      names and slots of the (split) context, the flag word and the
      automation errors set. */
  datatype OptionOutcome = OptionOutcome(hr: HResult, names: Names, heap: Heap, flags: Dword, errors: seq<Automation>)

  /** The default branch shared by the connection, the statement, bound
      parameters and columns: the conversion context takes the encodings,
      and an attribute it declines (S_FALSE) goes to the internal flags
      under the holder's mask. */
  function OptionOn(n: Names, h: Heap, flags: Dword, attr: int, val: Zval, mask: Dword, env: MLang): (r: OptionOutcome)
    requires |h.slots| == CONVERTER_COUNT
    ensures |r.heap.slots| == CONVERTER_COUNT
  {
    var (hr, n2, h2, errs) := SetOptionOn(n, h, attr, AsName(val), env);
    if hr == S_FALSE then
      var fr := SetInternalFlag(attr, val, mask, flags);
      OptionOutcome(fr.hr, n2, h2, fr.flags, errs + (if fr.error.Some? then [fr.error.value] else []))
    else OptionOutcome(hr, n2, h2, flags, errs)
  }

  /** An encoding is never declined: its status is S_OK or a failure, and
      the flags are not consulted. */
  lemma EncodingOptionKeepsFlags(n: Names, h: Heap, flags: Dword, attr: int, val: Zval, mask: Dword, env: MLang)
    requires |h.slots| == CONVERTER_COUNT && attr in ENCODING_ATTRIBUTES
    ensures var r := OptionOn(n, h, flags, attr, val, mask, env);
      r.flags == flags && (r.hr == S_OK || !Succeeded(r.hr))
  {
    EncodingNotDeclined(n, h, attr, AsName(val), env);
  }

  /** The conversion context answers an encoding with S_OK or a failure. */
  lemma EncodingNotDeclined(n: Names, h: Heap, attr: int, val: Option<string>, env: MLang)
    requires |h.slots| == CONVERTER_COUNT && attr in ENCODING_ATTRIBUTES
    ensures var hr := SetOptionOn(n, h, attr, val, env).0; hr == S_OK || !Succeeded(hr)
  {
  }

  /** Setting ENCODING stores the value's name whatever the status. */
  lemma EncodingOptionStoresName(n: Names, h: Heap, flags: Dword, val: Zval, mask: Dword, env: MLang)
    requires |h.slots| == CONVERTER_COUNT
    ensures OptionOn(n, h, flags, PDO_OLEDB_ATTR_ENCODING, val, mask, env).names.charset == NameFrom(AsName(val))
  {
  }

  /** Any other attribute leaves the context alone and is exactly
      oledb_set_internal_flag. */
  lemma FlagOptionOn(n: Names, h: Heap, flags: Dword, attr: int, val: Zval, mask: Dword, env: MLang)
    requires |h.slots| == CONVERTER_COUNT && attr !in ENCODING_ATTRIBUTES
    ensures var r := OptionOn(n, h, flags, attr, val, mask, env);
      var fr := SetInternalFlag(attr, val, mask, flags);
      && r.names == n && r.heap == h
      && r.hr == fr.hr && r.flags == fr.flags
      && r.errors == (if fr.error.Some? then [fr.error.value] else [])
  {
    SetOtherAttribute(n, h, attr, AsName(val), env);
  }

  /** The default branch on a holder's context and flag word.  The
      context is split first; the result is the context the holder now
      points at. */
  method SetOption(conv: Context, flags: Dword, attr: int, val: Zval, mask: Dword, maintainPersistence: bool,
                   env: MLang, ledger: ComLedger)
    returns (hr: HResult, result: Context, newFlags: Dword, errors: seq<Automation>)
    requires conv.Valid()
    modifies ledger, conv
    ensures result.Valid() && (result == conv || fresh(result))
    ensures old(conv.refcount) <= 1 ==> result == conv
    ensures old(conv.refcount) > 1 ==>
      && conv.refcount == old(conv.refcount) - 1 && conv.freed == old(conv.freed)
      && conv.names == old(conv.names) && conv.converters == old(conv.converters)
    ensures var h := Heap(old(conv.converters), old(ledger.refs), old(ledger.next));
      var split := if old(conv.refcount) <= 1 then h else h.(refs := Recount(h.refs, h.slots, 1));
      OptionOutcome(hr, result.names, Heap(result.converters, ledger.refs, ledger.next), newFlags, errors) ==
        OptionOn(old(conv.names), split, flags, attr, val, mask, env)
  {
    hr, result, errors := SetConversionOption(conv, attr, AsName(val), maintainPersistence, env, ledger);
    newFlags := flags;
    if hr == S_FALSE {
      var fr := SetInternalFlag(attr, val, mask, flags);
      hr, newFlags := fr.hr, fr.flags;
      if fr.error.Some? {
        errors := errors + [fr.error.value];
      }
    }
  }

  // ------------------------------------------------------------ the handle

  /** A key of the driver-options array: only integer keys are options. */
  datatype Key = IntKey(n: int) | StrKey(s: string)

  predicate HasIntKey(options: seq<(Key, Zval)>, k: int)
  {
    exists i :: 0 <= i < |options| && options[i].0 == IntKey(k)
  }

  /** The loop of oledb_stmt_set_param_driver_options and
      oledb_stmt_set_column_driver_options: the integer-keyed options in
      order through the default branch under the holder's mask, stopping at
      the first failure.  The status is the last option's, and the one
      given (S_FALSE) when there is none.  When the holder's context is
      shared, the first option splits it: its converters gain a
      reference. */
  function OptionsOn(options: seq<(Key, Zval)>, o: OptionOutcome, shared: bool, mask: Dword, env: MLang): (r: OptionOutcome)
    requires |o.heap.slots| == CONVERTER_COUNT
    ensures |r.heap.slots| == CONVERTER_COUNT
    ensures (forall i :: 0 <= i < |options| ==> options[i].0.StrKey?) ==> r == o
    decreases |options|
  {
    if options == [] then o
    else if options[0].0.StrKey? then OptionsOn(options[1..], o, shared, mask, env)
    else
      var h := if shared then o.heap.(refs := Recount(o.heap.refs, o.heap.slots, 1)) else o.heap;
      var step := OptionOn(o.names, h, o.flags, options[0].0.n, options[0].1, mask, env);
      var next := step.(errors := o.errors + step.errors);
      if !Succeeded(step.hr) then next else OptionsOn(options[1..], next, false, mask, env)
  }

  /** pdo_oledb_db_handle: the fields the options touch. */
  class DbHandle {
    var flags: Dword
    var timeout: int
    var appname: Option<string>
    var conv: Context
    const persistent: bool

    predicate Valid()
      reads this, conv
    {
      conv.Valid()
    }

    /** What both factories set up before the driver options are applied:
        CONVERT_DATE_TIME on, no application name and a new conversion
        context; the SQL Server factory also sets a 30-second timeout, the
        generic one leaves it 0. */
    constructor (persistent: bool, timeout: int)
      ensures Valid() && fresh(conv) && this.persistent == persistent
      ensures flags == CONVERT_DATE_TIME && this.timeout == timeout && appname.None?
      ensures conv.refcount == 1 && conv.persistent == persistent && conv.names == Names(None, None, None)
    {
      flags := CONVERT_DATE_TIME;
      this.timeout := timeout;
      appname := None;
      conv := new Context(persistent);
      this.persistent := persistent;
    }

    /** oledb_set_driver_option: the application name is stored as a
        string; every other attribute goes through the default branch
        under the connection mask, keeping the context persistent. */
    method SetDriverOption(attr: int, val: Zval, env: MLang, ledger: ComLedger)
      returns (hr: HResult, errors: seq<Automation>)
      requires Valid()
      modifies this`flags, this`appname, this`conv, ledger, conv
      ensures Valid() && (conv == old(conv) || fresh(conv))
      ensures attr == PDO_OLEDB_ATTR_APPLICATION_NAME ==>
        && hr == S_OK && errors == [] && appname == Some(ToText(val))
        && flags == old(flags) && conv == old(conv) && unchanged(ledger) && unchanged(conv)
      ensures attr != PDO_OLEDB_ATTR_APPLICATION_NAME ==>
        && appname == old(appname)
        && (old(conv.refcount) <= 1 ==> conv == old(conv))
        && (old(conv.refcount) > 1 ==> old(conv).refcount == old(conv.refcount) - 1 && old(conv).names == old(conv.names))
        && var h := Heap(old(conv.converters), old(ledger.refs), old(ledger.next));
           var split := if old(conv.refcount) <= 1 then h else h.(refs := Recount(h.refs, h.slots, 1));
           OptionOutcome(hr, conv.names, Heap(conv.converters, ledger.refs, ledger.next), flags, errors) ==
             OptionOn(old(conv.names), split, old(flags), attr, val, CONNECTION_MASK, env)
    {
      if attr == PDO_OLEDB_ATTR_APPLICATION_NAME {
        appname := Some(ToText(val));
        hr, errors := S_OK, [];
      } else {
        var result, newFlags;
        hr, result, newFlags, errors := SetOption(conv, flags, attr, val, CONNECTION_MASK, true, env, ledger);
        conv, flags := result, newFlags;
      }
    }

    /** oledb_set_driver_options: the integer-keyed options in order,
        stopping at the first failure; then, unless the array has an
        ENCODING key, the encoding "windows-1252", whose status replaces
        the previous one.  Without options the status is S_FALSE until the
        default is applied. */
    method SetDriverOptions(options: Option<seq<(Key, Zval)>>, env: MLang, ledger: ComLedger)
      returns (hr: HResult, errors: seq<Automation>, ghost defaulted: bool)
      requires Valid()
      modifies this`flags, this`appname, this`conv, ledger, conv
      ensures Valid() && (conv == old(conv) || fresh(conv))
      ensures defaulted ==> (options.None? || !HasIntKey(options.value, PDO_OLEDB_ATTR_ENCODING))
      ensures defaulted ==> conv.names.charset == Some("windows-1252")
      ensures !defaulted && (options.None? || !HasIntKey(options.value, PDO_OLEDB_ATTR_ENCODING)) ==> !Succeeded(hr)
      ensures options.None? ==> defaulted
    {
      hr, errors, defaulted := S_FALSE, [], false;
      if options.Some? {
        var opts := options.value;
        var i := 0;
        while i < |opts|
          invariant 0 <= i <= |opts|
          invariant Valid() && (conv == old(conv) || fresh(conv))
        {
          if opts[i].0.IntKey? {
            var e;
            hr, e := SetDriverOption(opts[i].0.n, opts[i].1, env, ledger);
            errors := errors + e;
            if !Succeeded(hr) {
              return;
            }
          }
          i := i + 1;
        }
      }
      if options.None? || !HasIntKey(options.value, PDO_OLEDB_ATTR_ENCODING) {
        var e;
        label Default:
        hr, e := SetDriverOption(PDO_OLEDB_ATTR_ENCODING, Str("windows-1252"), env, ledger);
        errors := errors + e;
        defaulted := true;
        ghost var h := Heap(old@Default(conv.converters), old@Default(ledger.refs), old@Default(ledger.next));
        ghost var split := if old@Default(conv.refcount) <= 1 then h else h.(refs := Recount(h.refs, h.slots, 1));
        EncodingOptionStoresName(old@Default(conv.names), split, old@Default(flags), Str("windows-1252"), CONNECTION_MASK, env);
      }
    }
  }

  // ------------------------------------------------------- version strings

  /** oledb_get_version_info: the name and the version joined by one
      space, or whichever of them the provider reported, or nothing. */
  function VersionInfo(name: Option<string>, version: Option<string>): (r: Option<string>)
    ensures r.None? <==> name.None? && version.None?
    ensures name.None? ==> r == version
    ensures version.None? ==> r == name
  {
    if name.Some? && version.Some? then Some(name.value + " " + version.value)
    else if name.Some? then name
    else version
  }

  /** The text before the first space, and the text after it if there is
      one. */
  function SplitAtSpace(s: string): (r: (string, Option<string>))
    ensures ' ' !in r.0
  {
    if s == [] then ([], None)
    else if s[0] == ' ' then ([], Some(s[1..]))
    else
      var (head, tail) := SplitAtSpace(s[1..]);
      ([s[0]] + head, tail)
  }

  /** A name without spaces is recovered, with the version, from the
      joined string. */
  lemma VersionInfoSplits(name: string, version: string)
    requires ' ' !in name
    ensures SplitAtSpace(VersionInfo(Some(name), Some(version)).value) == (name, Some(version))
  {
    SplitJoined(name, version);
  }

  lemma {:induction false} SplitJoined(name: string, rest: string)
    requires ' ' !in name
    ensures SplitAtSpace(name + " " + rest) == (name, Some(rest))
  {
    var s := name + " " + rest;
    if name == [] {
      assert s[1..] == rest;
    } else {
      assert s[0] == name[0] && s[1..] == name[1..] + " " + rest;
      SplitJoined(name[1..], rest);
      assert [name[0]] + name[1..] == name;
    }
  }

  // ----------------------------------------------------- reading attributes

  /** What a get_attr leaves in the host's value. */
  datatype AttrValue = Unwritten | Written(v: Zval)

  /** The outcome of oledb_handle_get_attr: the process crashes (ZVAL_STRING
      on a null application name), or the call reports success or failure
      with the value. */
  datatype GetOutcome = Crashed | Reported(ok: bool, value: AttrValue)

  /** The default branch of a get_attr: the conversion context writes an
      encoding and answers S_FALSE, then the internal flags answer 1 (a
      flag or the cursor, written) or 0 (nothing written); both succeed. */
  function DefaultGet(names: Names, flags: Dword, attr: int, prior: AttrValue): (bool, AttrValue)
  {
    var (hr, s) := GetConversionOption(names, attr);
    var v := if s.Some? then Written(Str(s.value)) else prior;
    if hr == S_FALSE then
      var (hr2, f) := GetInternalFlag(attr, flags);
      (Succeeded(hr2), if f.Some? then Written(f.value) else v)
    else (Succeeded(hr), v)
  }

  /** oledb_handle_get_attr as written.  The TIMEOUT case writes the
      timeout and falls through into APPLICATION_NAME, which overwrites it
      with the application name (or crashes when there is none), and both
      fall into the default branch.  A null version string leaves the
      status uninitialised: `uninit` is whatever was on the stack. */
  function HandleGetAttrAsWritten(flags: Dword, timeout: int, appname: Option<string>, names: Names, attr: int,
                                  serverVersion: Option<string>, clientVersion: Option<string>, uninit: HResult): GetOutcome
  {
    if attr == PDO_ATTR_SERVER_VERSION then
      if serverVersion.Some? then Reported(true, Written(Str(serverVersion.value))) else Reported(Succeeded(uninit), Unwritten)
    else if attr == PDO_ATTR_CLIENT_VERSION then
      if clientVersion.Some? then Reported(true, Written(Str(clientVersion.value))) else Reported(Succeeded(uninit), Unwritten)
    else if attr == PDO_ATTR_TIMEOUT || attr == PDO_OLEDB_ATTR_APPLICATION_NAME then
      if appname.None? then Crashed
      else
        var (ok, v) := DefaultGet(names, flags, attr, Written(Str(appname.value)));
        Reported(ok, v)
    else
      var (ok, v) := DefaultGet(names, flags, attr, Unwritten);
      Reported(ok, v)
  }

  /** oledb_handle_get_attr with a `break` after the TIMEOUT and
      APPLICATION_NAME cases. */
  function HandleGetAttr(flags: Dword, timeout: int, appname: Option<string>, names: Names, attr: int,
                         serverVersion: Option<string>, clientVersion: Option<string>, uninit: HResult): GetOutcome
  {
    if attr == PDO_ATTR_SERVER_VERSION then
      if serverVersion.Some? then Reported(true, Written(Str(serverVersion.value))) else Reported(Succeeded(uninit), Unwritten)
    else if attr == PDO_ATTR_CLIENT_VERSION then
      if clientVersion.Some? then Reported(true, Written(Str(clientVersion.value))) else Reported(Succeeded(uninit), Unwritten)
    else if attr == PDO_ATTR_TIMEOUT then Reported(true, Written(Long(timeout)))
    else if attr == PDO_OLEDB_ATTR_APPLICATION_NAME then
      if appname.None? then Crashed else Reported(true, Written(Str(appname.value)))
    else
      var (ok, v) := DefaultGet(names, flags, attr, Unwritten);
      Reported(ok, v)
  }

  /** As written, reading the timeout reports the application name, and
      crashes on a handle that has none, as every handle does until the
      APPLICATION_NAME option is set. */
  lemma TimeoutAsWrittenReportsAppName(flags: Dword, timeout: int, appname: Option<string>, names: Names,
                                       serverVersion: Option<string>, clientVersion: Option<string>, uninit: HResult)
    ensures var r := HandleGetAttrAsWritten(flags, timeout, appname, names, PDO_ATTR_TIMEOUT, serverVersion, clientVersion, uninit);
      r == if appname.None? then Crashed else Reported(true, Written(Str(appname.value)))
  {
  }

  /** Corrected, reading the timeout reports the timeout. */
  lemma TimeoutReportsTimeout(flags: Dword, timeout: int, appname: Option<string>, names: Names,
                              serverVersion: Option<string>, clientVersion: Option<string>, uninit: HResult)
    ensures HandleGetAttr(flags, timeout, appname, names, PDO_ATTR_TIMEOUT, serverVersion, clientVersion, uninit)
      == Reported(true, Written(Long(timeout)))
  {
  }

  /** The two agree on every attribute but the timeout. */
  lemma GetAttrAgreesElsewhere(flags: Dword, timeout: int, appname: Option<string>, names: Names, attr: int,
                               serverVersion: Option<string>, clientVersion: Option<string>, uninit: HResult)
    requires attr != PDO_ATTR_TIMEOUT
    ensures HandleGetAttrAsWritten(flags, timeout, appname, names, attr, serverVersion, clientVersion, uninit)
      == HandleGetAttr(flags, timeout, appname, names, attr, serverVersion, clientVersion, uninit)
  {
  }

  /** A version attribute reports the provider's string, or leaves the
      status to whatever the stack held when there is none; a flag
      attribute reads its bit, the cursor its type, an encoding its name
      with the fallbacks, and any other attribute succeeds without writing
      anything. */
  lemma GetAttrDefault(flags: Dword, timeout: int, appname: Option<string>, names: Names, attr: int,
                       serverVersion: Option<string>, clientVersion: Option<string>, uninit: HResult)
    requires attr !in {PDO_ATTR_TIMEOUT, PDO_OLEDB_ATTR_APPLICATION_NAME}
    ensures var r := HandleGetAttr(flags, timeout, appname, names, attr, serverVersion, clientVersion, uninit);
      var version := if attr == PDO_ATTR_SERVER_VERSION then serverVersion else clientVersion;
      && r.Reported?
      && (attr in {PDO_ATTR_SERVER_VERSION, PDO_ATTR_CLIENT_VERSION} ==>
            && (r.ok <==> version.Some? || Succeeded(uninit))
            && r.value == (if version.Some? then Written(Str(version.value)) else Unwritten))
      && (attr !in {PDO_ATTR_SERVER_VERSION, PDO_ATTR_CLIENT_VERSION} ==>
            && r.ok
            && (attr in FLAG_ATTRIBUTES ==> r.value == Written(Bool(Has(flags, ConstantToInternalFlag(attr)))))
            && (attr == PDO_ATTR_CURSOR ==> r.value == Written(Long(CursorType(flags))))
            && (attr in ENCODING_ATTRIBUTES ==> r.value == Written(Str(GetConversionOption(names, attr).1.value)))
            && (attr !in FLAG_ATTRIBUTES && attr != PDO_ATTR_CURSOR && attr !in ENCODING_ATTRIBUTES ==> r.value == Unwritten))
  {
  }

  /** Setting a connection flag and reading it back reports the value's
      truth. */
  lemma SetThenGetAttr(n: Names, h: Heap, flags: Dword, attr: int, val: Zval, env: MLang, timeout: int,
                       appname: Option<string>, serverVersion: Option<string>, clientVersion: Option<string>, uninit: HResult)
    requires |h.slots| == CONVERTER_COUNT
    requires attr in FLAG_ATTRIBUTES && Has(CONNECTION_MASK, ConstantToInternalFlag(attr))
    ensures var r := OptionOn(n, h, flags, attr, val, CONNECTION_MASK, env);
      HandleGetAttr(r.flags, timeout, appname, r.names, attr, serverVersion, clientVersion, uninit)
        == Reported(true, Written(Bool(ToBoolean(val))))
  {
    FlagOptionOn(n, h, flags, attr, val, CONNECTION_MASK, env);
    GetAfterSet(attr, val, CONNECTION_MASK, flags);
    GetAttrFlag(SetInternalFlag(attr, val, CONNECTION_MASK, flags).flags, timeout, appname, n, attr,
                serverVersion, clientVersion, uninit);
  }

  lemma GetAttrFlag(flags: Dword, timeout: int, appname: Option<string>, names: Names, attr: int,
                    serverVersion: Option<string>, clientVersion: Option<string>, uninit: HResult)
    requires attr in FLAG_ATTRIBUTES
    ensures HandleGetAttr(flags, timeout, appname, names, attr, serverVersion, clientVersion, uninit)
      == Reported(true, Written(GetInternalFlag(attr, flags).1.value))
  {
  }

  /** What oledb_stmt_get_attr reports and leaves in the statement's
      context. */
  datatype StmtGet = StmtGet(ok: bool, names: Names, heap: Heap, value: AttrValue, errors: seq<Automation>)

  /** oledb_stmt_get_attr as written: it calls oledb_set_conversion_option,
      not the get, with the host's return value, which is null; only an
      attribute that call declines is read from the flags. */
  function StmtGetAttrAsWritten(n: Names, h: Heap, flags: Dword, attr: int, env: MLang): StmtGet
    requires |h.slots| == CONVERTER_COUNT
  {
    var (hr, n2, h2, errs) := SetOptionOn(n, h, attr, AsName(Null), env);
    if hr == S_FALSE then
      var (hr2, f) := GetInternalFlag(attr, flags);
      StmtGet(Succeeded(hr2), n2, h2, if f.Some? then Written(f.value) else Unwritten, errs)
    else StmtGet(Succeeded(hr), n2, h2, Unwritten, errs)
  }

  /** oledb_stmt_get_attr corrected to call oledb_get_conversion_option, as
      the connection's get_attr does: the encodings are read from the
      context, anything else from the flags, and the context is left
      alone. */
  function StmtGetAttr(n: Names, h: Heap, flags: Dword, attr: int): (r: StmtGet)
    ensures r.names == n && r.heap == h && r.errors == []
  {
    var (ok, v) := DefaultGet(n, flags, attr, Unwritten);
    StmtGet(ok, n, h, v, [])
  }

  /** As written, asking a statement for its encoding clears it and
      reports nothing. */
  lemma StmtGetEncodingClears(n: Names, h: Heap, flags: Dword, env: MLang)
    requires |h.slots| == CONVERTER_COUNT
    ensures var r := StmtGetAttrAsWritten(n, h, flags, PDO_OLEDB_ATTR_ENCODING, env);
      r.names.charset.None? && r.value == Unwritten
  {
    EncodingNotDeclined(n, h, PDO_OLEDB_ATTR_ENCODING, None, env);
  }

  /** Any other attribute is read from the flags and the context is left
      alone. */
  lemma StmtGetReadsFlags(n: Names, h: Heap, flags: Dword, attr: int, env: MLang)
    requires |h.slots| == CONVERTER_COUNT && attr !in ENCODING_ATTRIBUTES
    ensures var r := StmtGetAttrAsWritten(n, h, flags, attr, env);
      var g := GetInternalFlag(attr, flags);
      && r.ok && r.names == n && r.heap == h && r.errors == []
      && r.value == (if g.1.Some? then Written(g.1.value) else Unwritten)
  {
    SetOtherAttribute(n, h, attr, None, env);
  }

  /** Corrected, asking a statement for its encoding reports the stored
      name, or "" when there is none, and keeps it. */
  lemma StmtGetEncodingReports(n: Names, h: Heap, flags: Dword)
    ensures var r := StmtGetAttr(n, h, flags, PDO_OLEDB_ATTR_ENCODING);
      && r.ok && r.names == n
      && r.value == Written(Str(if n.charset.Some? then n.charset.value else ""))
  {
    FlagNotEncoding(PDO_OLEDB_ATTR_ENCODING, flags);
  }

  /** Corrected, an encoding set on a statement is what a later get
      reports. */
  lemma StmtSetThenGetEncoding(n: Names, h: Heap, flags: Dword, attr: int, val: string, env: MLang)
    requires |h.slots| == CONVERTER_COUNT
    requires attr in ENCODING_ATTRIBUTES && |val| > 0
    ensures var (_, n2, h2, _) := SetOptionOn(n, h, attr, Some(val), env);
      StmtGetAttr(n2, h2, flags, attr).value == Written(Str(val))
  {
    SetThenGet(n, h, attr, Some(val), env);
    FlagNotEncoding(attr, flags);
  }

  /** The correction changes only the encoding attributes: on any other
      attribute both versions report the same and leave the context
      alone. */
  lemma StmtGetAgreesElsewhere(n: Names, h: Heap, flags: Dword, attr: int, env: MLang)
    requires |h.slots| == CONVERTER_COUNT && attr !in ENCODING_ATTRIBUTES
    ensures StmtGetAttrAsWritten(n, h, flags, attr, env) == StmtGetAttr(n, h, flags, attr)
  {
    SetOtherAttribute(n, h, attr, None, env);
  }

  /** No flag read writes a value for an encoding attribute. */
  lemma FlagNotEncoding(attr: int, flags: Dword)
    requires attr in ENCODING_ATTRIBUTES
    ensures GetInternalFlag(attr, flags) == (0, None)
  {
  }
}
