# pdo_oledb core model

A Dafny model of the core of pdo_oledb, the PHP Data Objects driver that
talks to databases through OLE DB providers. The model covers the bookkeeping
and marshalling that sits between the PHP host and the COM provider:

- **Buffer layout** (`Layout`, `InputBuffer`). The 4-byte `ADVANCE_OFFSET`
  layout of status/length/value entries in the row buffer, the parameter
  buffer and the metadata rowset. Also the fill of the parameter buffer at
  those offsets, proved byte by byte to read back as written whatever the
  reallocated buffer held before.
- **Columns** (`Columns`). The retrieval policy of `oledb_stmt_bind_column`,
  the dotted column names, the native type names and the decoding of a
  column slot by `get_col`.
- **Parameters** (`Params`). The direction, type and size decisions of
  `oledb_stmt_bind_param`, and the ordinal check of the parameter hook.
- **Statement** (`Statement`, `FetchPlans`). A class with the statement's
  fields. It covers clearing a rowset, the column binding loop, copying bound
  parameters, the fetch cursor, describe and next_rowset. Every provider
  call it makes is recorded in order.
- **Conversion contexts** (`Conversion`, `ConvertLoops`). The reference-counted,
  copy-on-write conversion context with its names and MLang converter slots,
  and the codepage name rules. Also the three string conversion loops, over
  an abstract converter step.
- **Driver options** (`DriverOptions`, `InitProperties`). The attribute to
  flag mapping, the default encoding, the version string join, `get_attr`,
  and the required-property check of initialisation.
- **Streams** (`Streams`). The in-memory `ISequentialStream` built from a
  PHP value, and the LOB stream adapter with its staging buffer and
  reference bookkeeping.
- **Errors** (`Errors`). The error-context update of `_pdo_oledb_error`
  (description join, SQLSTATE choice, fallbacks) and the automation error
  object.

Every provider call, MLang call and host call is an oracle. Its status and
outputs are parameters of the operation that makes the call. Examples are
GetNextRows, CreateAccessor, QueryInterface, DoConversion, php_stream reads,
FormatMessage and the static message table. `OleDbInt` holds the record
types, the flag bits and the constants of `php_pdo_oledb_int.h`, with 32-bit
words written out where the source relies on wrap-around.

## Model

| member | source | states |
|---|---|---|
| OleDbInt.Wrap32 | php_pdo_oledb_int.h:72 | reduction to an unsigned 32-bit word: identity on in-range values, congruent modulo 2^32 otherwise |
| OleDbInt.Signed32 | php_pdo_oledb_int.h:72 | reading a word as a signed 32-bit value lands in the signed range and wraps back to the same word |
| OleDbInt.SignedWrap | php_pdo_oledb_int.h:72 | every signed 32-bit value survives the trip through an unsigned word |
| OleDbInt.ComLedger.Create | oledb_driver.c:80-84 | a fresh COM object starts with one reference and nothing else changes |
| OleDbInt.ComLedger.SafeAddRef | php_pdo_oledb_int.h:223 | SAFE_ADDREF adds one reference to a non-null pointer and does nothing for null |
| OleDbInt.ComLedger.SafeRelease | php_pdo_oledb_int.h:224 | SAFE_RELEASE drops one reference from a non-null pointer and does nothing for null |
| Layout.AdvanceOffset | oledb_stmt.c:103 | ADVANCE_OFFSET yields a multiple of 4 that is at least i+a and less than i+a+4 |
| Layout.AdvanceOffsetIsLeast | oledb_stmt.c:103 | no smaller multiple of 4 reaches i+a, so the padding is minimal |
| Layout.AdvanceAligned | oledb_stmt.c:103 | from an aligned offset, ADVANCE_OFFSET adds the size rounded up to 4 |
| Layout.SlotSize | oledb_stmt.c:534-549 | a bound entry takes a 4-aligned amount of room covering status, optional length and value; an unbound one takes none |
| Layout.SumAligned | oledb_stmt.c:534-549 | the end of any sequence of packed entries stays 4-aligned |
| Layout.SumAppend | oledb_stmt.c:534-549 | appending an entry grows the buffer by exactly that entry's size |
| Layout.OffsetMonotone | oledb_stmt.c:534-549 | entry offsets never decrease along the buffer |
| Layout.EntryFits | oledb_stmt.c:534-549 | a bound entry's status, length and value end before the next entry starts, and later entries start strictly later |
| Layout.UnboundTakesNothing | oledb_stmt.c:527-533 | a column that is not bound leaves the next offset unchanged |
| Layout.Disjoint | oledb_stmt.c:534-549 | two distinct bound entries never overlap |
| Layout.EntryInsideTotal | oledb_stmt.c:534-549 | every bound entry lies inside the buffer whose size is the final offset |
| Layout.PlaceEntry | oledb_stmt.c:536-548 | from an aligned offset, the three ADVANCE_OFFSET steps of one entry add exactly that entry's size |
| Layout.LayoutStep | oledb_stmt.c:536-548 | one step of a layout loop moves the running offset from the sum of the earlier entries to the sum including this one |
| Layout.LayoutSkip | oledb_stmt.c:527-533 | skipping an unbound entry keeps the running sum |
| Layout.MetaSlots | oledb_stmt.c:280-318 | every column of the columns rowset is bound with status, length and value |
| Layout.MetaBindings | oledb_stmt.c:280-318 | the metadata binding loop gives each column its type, the buffer size its switch selects, and status/length/value offsets at its packed position; the returned size is the total |
| Layout.LE32 | oledb_stmt.c:910-911 | a 32-bit word is stored as four bytes |
| Layout.ReadLE | oledb_stmt.c:910-911 | reading n little-endian bytes gives a value below 256^n |
| Layout.ReadLE32 | oledb_stmt.c:910-911 | reading a stored word gives a value below 2^32 |
| Layout.ReadLE32OfLE32 | oledb_stmt.c:910-911 | reading back four stored bytes gives the word that was written, reduced to 32 bits |
| Columns.BindColumn | oledb_stmt.c:105-231 | binding never fails for a short column and never touches the column's name, ordinal, declared type, sizes, offset or metadata |
| Columns.BindLongColumn | oledb_stmt.c:111-145 | a long column reports the status of its own accessor and keeps its handle; on success it is fetched as an IUnknown with a length, as a string exactly for the character types and as a LOB otherwise; on failure nothing else changes |
| Columns.BindShortColumn | oledb_stmt.c:154-223 | the retrieval type, PDO type and buffer size the type switch selects for each family, including the string fallback of size max(precision, maxLen)+1 |
| Columns.DateTimeAlwaysString | oledb_stmt.c:198-208 | date and timestamp columns are always fetched as strings of precision+1 bytes, because `!S->flags & CONVERT_DATE_TIME` is always 0 |
| Columns.BindIgnoresStatementFlags | oledb_stmt.c:202 | for the same reason no statement flag influences how a column is bound |
| Columns.LengthFieldIgnoresFixedLengthFlag | oledb_stmt.c:148-152 | the column's own fixed-length flag has no say in whether a length is fetched, since the test is made on the type code |
| Columns.ShortColumnFlags | oledb_stmt.c:148-152 | a length is fetched exactly when the type switch forces one or the type code lacks the fixed-length bit |
| Columns.LengthFieldByTypeCode | oledb_stmt.c:148-152 | the consequence for concrete type codes: I1, UI1, UI2 and UI4 bind without a length, I2, I4, BOOL and R8 with one |
| Columns.ByRefFlagFetchesPointer | oledb_stmt.c:225-229 | a by-reference column is fetched under its declared type as a pointer-sized value and is bound |
| Columns.DateTimeStringNotByRef | oledb_stmt.c:198-208 | a date column fetched as a string is fetched by value |
| Columns.NameParts | oledb_stmt.c:411-425 | at most three name parts are collected |
| Columns.DottedIsJoinPlusDot | oledb_stmt.c:432-439 | writing every part followed by a dot, then dropping the last dot, gives the parts joined with dots |
| Columns.JoinSnoc | oledb_stmt.c:432-439 | joining one more part appends a dot and that part |
| Columns.TotalIsDottedLength | oledb_stmt.c:428-431 | the computed total is exactly the length of the dotted image |
| Columns.BuildColumnName | oledb_stmt.c:403-447 | a qualified name is built exactly when table or catalog names are requested, the column is not aliased, metadata exists and at least one part is present; it is then the parts joined with dots with a length one more than the visible name; otherwise the name is untouched |
| Columns.PartsTotal | oledb_stmt.c:428-431 | the length loop sums each part plus one |
| Columns.PartsDotted | oledb_stmt.c:432-437 | the copy loop writes each part followed by a dot |
| Columns.SplitDots | oledb_stmt.c:403-447 | splitting a name on dots always gives at least one part |
| Columns.SplitDotsPrefix | oledb_stmt.c:403-447 | a dot-free prefix followed by a dot splits off as one part |
| Columns.SplitJoin | oledb_stmt.c:403-447 | the qualified name determines its parts: splitting a join of dot-free parts gives them back |
| Columns.TypeNameDefinedExactly | oledb_stmt.c:1416-1465 | a native type name is reported for exactly the listed type codes, whatever the flags |
| Columns.VariableTypeNames | oledb_stmt.c:1428-1458 | the variable-width name of the string and binary families is chosen exactly when the column is neither long nor fixed-length |
| Columns.CStrLen | oledb_stmt.c:1644-1646 | strlen stops at the first zero byte or at the end of the buffer |
| Columns.SlotImage | oledb_stmt.c:1608-1627 | a provider-written entry is status, optional length, then value |
| Columns.DecodeSlotImage | oledb_stmt.c:1602-1681 | decoding an entry read from the row buffer: a status other than OK or truncated gives NULL; otherwise bytes are handed over directly with the stored length, strings go through convert_string with the stored length and wide strings through convert_bstr with half of it |
| Conversion.Occurrences | oledb_driver.c:639-641 | a converter can occupy at most every slot of a context |
| Conversion.RecountCounts | oledb_driver.c:639-641 | releasing (or adding a reference to) every slot of a context changes an object's count by the number of slots holding it |
| Conversion.AddRefThenRelease | oledb_driver.c:664-667 | adding a reference through every slot and releasing every slot again restores every count |
| Conversion.RecountStep | oledb_driver.c:639-641 | one iteration of the per-slot loop touches only the object in that slot |
| Conversion.RecountOne | oledb_driver.c:639-641 | the per-slot step for one slot |
| Conversion.Context.constructor | oledb_driver.c:620-625 | a new context has one holder, the requested persistence, no encoding names and no converters |
| Conversion.CopyConversionOptions | oledb_driver.c:627-631 | copying shares the same context and adds one holder |
| Conversion.ReleaseConversionOptions | oledb_driver.c:633-646 | releasing drops one holder; the last one frees the context and releases every converter once per slot |
| Conversion.SplitNamesAsWritten | oledb_driver.c:655-664 | the split copy keeps every encoding name that was set; the ones that were unset are left at whatever the fresh allocation held |
| Conversion.SplitAsWrittenReportsLeftover | oledb_driver.c:655-664 | a concrete split whose unset query encoding then reads back as leftover bytes instead of the shared encoding |
| Conversion.SplitConversionOptions | oledb_driver.c:648-675 | the split as written for reference counts, with the names corrected (see Findings): a context used by one holder is kept; a shared one is replaced by a fresh single-holder copy with the same names and converters, which reports the same value as the original for every attribute, persistent only if both the original and the caller want it; every converter gains one reference and the original keeps its count |
| Conversion.SplitDroppingOriginal | oledb_driver.c:648-675 | corrected split (see Findings): as SplitConversionOptions, and the holder that takes the copy also gives up its reference on the original, which a shared original survives |
| Conversion.SplitStrandsOriginal | oledb_driver.c:627-675 | as written: a context copied to a second holder, split for it and then released by the first holder ends with one count, no holder and is never freed |
| Conversion.SplitThenReleaseFrees | oledb_driver.c:627-675 | corrected: the same sequence leaves the original freed with no count, and the copy with its one holder |
| Conversion.AsciiLower | oledb_driver.c:39-42 | ASCII case folding as _stricmp applies it |
| Conversion.Lower | oledb_driver.c:39-42 | case folding keeps the length and folds every character |
| Conversion.LowerIdempotent | oledb_driver.c:39-42 | folding twice is folding once |
| Conversion.UnrecognizedMessage | oledb_driver.c:54-58 | the error message cuts the name at 64 characters and so fits the 256-character buffer |
| Conversion.GetCodePage | oledb_driver.c:34-69 | no name gives -1 with S_FALSE; no MLang gives E_FAIL; utf8/utf-8 and utf16/utf-16 give their code pages; a code page is reported exactly when the status succeeds |
| Conversion.CodePageIgnoresCase | oledb_driver.c:39-42 | the UTF names are recognised in any letter case |
| Conversion.CreateCharsetConverter | oledb_driver.c:71-86 | the slot's old converter is released and a new one created when the code pages differ and both are known, exactly as the value-level CreateOn describes |
| Conversion.ShareCharsetConverter | oledb_driver.c:88-97 | the slot's old converter is released and the other slot's converter is shared with one more reference; the status is always S_OK |
| Conversion.ShareOnSlot | oledb_driver.c:88-97 | sharing puts the other slot's converter into the slot and leaves every other slot alone; the shared converter gains one reference and the replaced one loses one |
| Conversion.CreateOnSlot | oledb_driver.c:71-86 | only the named slot changes; it holds a converter exactly when the code pages need one and MLang creates it, that converter is fresh with one reference, equal code pages give S_FALSE, and an automation error is set exactly when creation fails |
| Conversion.NameFrom | oledb_driver.c:689-694 | a name is stored exactly when the value is not null and not empty, and then it is the value itself |
| Conversion.Errors | oledb_driver.c:78-80 | one automation error at most per creation attempt |
| Conversion.GetConversionOption | oledb_driver.c:768-791 | the status is always S_FALSE, and a value is produced exactly for the three encoding attributes |
| Conversion.SetConversionOption | oledb_driver.c:677-766 | splits with the corrected SplitDroppingOriginal (see Findings): a shared context is copied and loses the caller's reference, keeping its names and converters; the resulting names, converters, reference counts, status and automation errors are those of the value-level SetOptionOn |
| Conversion.SetOnSplit | oledb_driver.c:684-766 | the attribute switch on the context the split left the holder: the new names, converter slots, reference counts, status and automation errors are those of the value-level SetOptionOn |
| Conversion.SetThenGet | oledb_driver.c:677-791 | setting an encoding attribute to a non-empty string and reading it back gives that string |
| Conversion.SetOtherAttribute | oledb_driver.c:677-766 | the switch answers any other attribute S_FALSE and leaves the names and converter slots as the split left them; with SetConversionOption's contract, the split is then the only effect: a shared context is copied and its converters gain one reference |
| Conversion.CreateOnCounts | oledb_driver.c:71-86 | creating a converter touches the count of no object other than the new one and the one released |
| Conversion.EncodingRebuilds | oledb_driver.c:684-716 | setting the output encoding with MLang present rebuilds the four converters, each present exactly when its two code pages differ and MLang creates it, and the query converter shares the input one, which then has two references |
| ConvertLoops.RoomMono | oledb_driver.c:203-204 | the room a buffer offers grows with the number of units it is sized for |
| ConvertLoops.NoProgressRoom | oledb_driver.c:203-209 | a converter that succeeds without consuming anything did so because the destination was too small for the input |
| ConvertLoops.StringLoop | oledb_driver.c:201-213 | the DoConversion loop never consumes more than its input, and when it ends with S_OK it has consumed all of it |
| ConvertLoops.StringLoopRound | oledb_driver.c:201-210 | one round grows the destination by the unconverted input length, converts from where the previous round stopped, and goes on exactly while the status is S_OK and input remains |
| ConvertLoops.ConvertString | oledb_driver.c:185-224 | without a converter the source is handed back unchanged with S_FALSE; with one the result is the loop's output and status, S_FALSE turned into E_FAIL |
| ConvertLoops.CopyConverter | oledb_driver.c:185-224 | a converter that copies bytes is well behaved |
| ConvertLoops.StringLoopCopy | oledb_driver.c:201-213 | the loop with a copying converter picks up from any point and completes the copy |
| ConvertLoops.ConvertStringCopy | oledb_driver.c:185-224 | converting with a copying converter gives back the source with S_OK |
| ConvertLoops.TerminatedLength | oledb_driver.c:108-110 | strlen/wcslen: the length of the prefix before the first terminator |
| ConvertLoops.BytesAsWide | oledb_driver.c:123-126 | reading bytes as wide characters gives half as many units |
| ConvertLoops.WideAsBytes | oledb_driver.c:171-174 | copying wide characters as bytes gives twice as many bytes |
| ConvertLoops.WideBytesRoundTrip | oledb_driver.c:123-126 | bytes read as wide characters and written back give the even-length prefix |
| ConvertLoops.BytesWideRoundTrip | oledb_driver.c:171-174 | wide characters written as bytes and read back are unchanged |
| ConvertLoops.CreateBstr | oledb_driver.c:99-138 | the length defaults to strlen; without a converter the bytes are copied as len/2 wide characters and the status stays E_UNEXPECTED; with one the result is the converter's output and status, never longer than the input |
| ConvertLoops.Resize | oledb_driver.c:155 | erealloc keeps the old contents of a grown buffer |
| ConvertLoops.Overwrite | oledb_driver.c:158 | writing into a buffer keeps its size |
| ConvertLoops.BstrLoop | oledb_driver.c:153-165 | the loop as evidently intended: the reported length is the buffer, and a succeeding loop has consumed all the input |
| ConvertLoops.ConvertBstr | oledb_driver.c:140-183 | the length defaults to wcslen; without a converter the wide characters are copied as bytes with status E_UNEXPECTED; with one the result is the status and buffer of the intended loop, corrected (see Findings) |
| ConvertLoops.BstrLoopStep | oledb_driver.c:153-165 | one round grows the buffer by the input length, converts from the first unconverted unit into the free part, stops on failure and goes on exactly while input remains |
| ConvertLoops.BstrRounds | oledb_driver.c:153-165 | the imperative loop computes the intended loop's status and buffer |
| ConvertLoops.MapAllAppend | oledb_driver.c:153-165 | converting unit by unit distributes over concatenation |
| ConvertLoops.Fit | oledb_driver.c:157-158 | a per-unit converter takes as many whole units as fit the room it is given |
| ConvertLoops.MapConverter | oledb_driver.c:157-158 | a converter built from a per-unit encoding behaves as that encoding's step |
| ConvertLoops.MapStepWellBehaved | oledb_driver.c:157-158 | such a converter is well behaved when each unit yields at most m bytes |
| ConvertLoops.Utf16Le | oledb_driver.c:171-174 | a wide character as two little-endian bytes |
| ConvertLoops.BstrLoopRound | oledb_driver.c:153-165 | a succeeding round either finishes with its output or continues from the units it consumed |
| ConvertLoops.PerUnitStep | oledb_driver.c:157-158 | one round of a per-unit converter produces the encoding of a prefix and leaves the rest for later rounds |
| ConvertLoops.Rebase | oledb_driver.c:159-162 | appending a round's output keeps the buffer a prefix of the full encoding |
| ConvertLoops.BstrLoopPerUnit | oledb_driver.c:153-165 | from any point, the intended loop over a per-unit converter completes the full encoding |
| ConvertLoops.ConvertBstrPerUnit | oledb_driver.c:140-183 | the intended loop over a per-unit converter returns exactly the encoding of the whole input with S_OK |
| ConvertLoops.Utf16LeOfA | oledb_driver.c:171-174 | concrete: "A" encodes as 41 00 |
| ConvertLoops.StepOnAB | oledb_driver.c:157 | concrete: with two bytes of room the first round on "AB" consumes one unit |
| ConvertLoops.StepOnA | oledb_driver.c:157 | concrete: the second round as written sees "A" again |
| ConvertLoops.BstrAsWrittenRepeatsInput | oledb_driver.c:158 | as written, converting "AB" to UTF-16LE gives 41 00 and then two bytes erealloc left undefined (0 in the model, which fills a resized buffer with zeros), instead of 41 00 42 00 |
| ConvertLoops.Utf16LeOfAB | oledb_driver.c:171-174 | concrete: "AB" encodes as 41 00 42 00 |
| ConvertLoops.BstrPerUnitOnAB | oledb_driver.c:153-165 | the intended loop converts "AB" to 41 00 42 00 |
| DriverOptions.ToBoolean | oledb_driver.c:570-571 | the truth value convert_to_boolean gives a null, a number or a string |
| DriverOptions.ToText | oledb_driver.c:799 | convert_to_string keeps a string and turns null into the empty string |
| DriverOptions.AsName | oledb_driver.c:689-691 | only a null value carries no name |
| DriverOptions.ConstantToInternalFlag | oledb_driver.c:244-259 | an attribute names a flag exactly when it is one of the ten listed attributes |
| DriverOptions.FlagsDistinct | oledb_driver.c:244-259 | distinct flag attributes govern disjoint bits |
| DriverOptions.FlagNotCursor | oledb_driver.c:244-259 | no flag attribute governs the LOB, multiple-results or cursor bits, and TRUNCATE_STRING governs the bit shared with ALIESED_COLUMN |
| DriverOptions.BooleanLong | oledb_driver.c:578-586 | after convert_to_boolean the value never carries the server-side cursor bit and equals PDO_CURSOR_SCROLL exactly when true |
| DriverOptions.BooleanCursorFlags | oledb_driver.c:578-589 | the cursor update therefore clears the server-side bit, sets the scrollable bit exactly for true and keeps every other bit |
| DriverOptions.SetFlag | oledb_driver.c:565-576 | a flag outside the mask is refused with E_FAIL and "Illegal operation", leaving the flags alone; inside it the bit is set or cleared and the status is S_OK |
| DriverOptions.SetCursorFlags | oledb_driver.c:577-595 | the cursor attribute is refused the same way unless the mask allows the server-side cursor |
| DriverOptions.SetInternalFlag | oledb_driver.c:561-598 | the status is S_OK, S_FALSE or E_FAIL; S_FALSE exactly for attributes that are neither a flag nor the cursor; the flags change only on S_OK; an automation error "Illegal operation" is raised exactly on E_FAIL |
| DriverOptions.GetInternalFlag | oledb_driver.c:600-618 | a value is written and 1 returned exactly for the flag attributes and the cursor: the flag's bit as a boolean, or the cursor type |
| DriverOptions.CursorType | oledb_driver.c:606-614 | the reported cursor type is negative exactly for a server-side cursor, odd exactly for a scrollable one, and fits a C int |
| DriverOptions.SetFlagInsideMask | oledb_driver.c:565-575 | a flag inside the mask succeeds and takes the boolean value of the option |
| DriverOptions.SetFlagOutsideMask | oledb_driver.c:566-568 | a flag outside the mask is refused without change |
| DriverOptions.GetAfterSet | oledb_driver.c:561-618 | reading a flag after setting it gives back the boolean value that was set |
| DriverOptions.SetFlagUpdates | oledb_driver.c:561-598 | setting a flag either applies the update or changes nothing |
| DriverOptions.SetFlagKeepsOthers | oledb_driver.c:561-598 | setting a flag never changes any other bit |
| DriverOptions.ReadsFlag | oledb_driver.c:602-605 | a flag is read from its own bit only |
| DriverOptions.ReadsCursor | oledb_driver.c:606-615 | the cursor type is read from the two cursor bits only |
| DriverOptions.GetReadsOwnBits | oledb_driver.c:600-618 | a read does not depend on bits that belong to neither the flag nor the cursor |
| DriverOptions.SetLeavesOthers | oledb_driver.c:561-618 | setting one flag attribute never changes what another attribute reads |
| DriverOptions.SetCursor | oledb_driver.c:577-590 | a permitted cursor set clears the server-side bit, sets the scrollable bit exactly for a true value and keeps the rest |
| DriverOptions.ServerSideCursorLost | oledb_driver.c:579-581 | asking a statement for a server-side cursor gives a scrollable client cursor, because the value is turned into a boolean before its bits are tested |
| DriverOptions.ConnectionFlagsRefused | oledb_stmt.c:1699 | the connection-only flags are refused by statements and by bound parameters and columns, and accepted on the connection |
| DriverOptions.MaskContents | oledb_driver.c:810 | which connection-only bits each mask holds |
| DriverOptions.EncodingOptionKeepsFlags | oledb_driver.c:806-812 | an encoding attribute never reaches the flags and ends in S_OK or a failure |
| DriverOptions.EncodingNotDeclined | oledb_driver.c:677-766 | setting an encoding never answers S_FALSE |
| DriverOptions.EncodingOptionStoresName | oledb_driver.c:681-694 | the encoding option stores the value's name, or none for null or empty |
| DriverOptions.FlagOptionOn | oledb_driver.c:806-812 | any other attribute leaves the context alone and is decided by set_internal_flag, whose automation error is reported |
| DriverOptions.SetOption | oledb_driver.c:806-812 | through the corrected split (see Findings); the default branch shared by connection and statement: the context is split when shared, and the status, names, converters, counts, flags and errors are those of the value-level OptionOn |
| DriverOptions.DbHandle.constructor | oledb_driver.c:1144-1148 | a new handle has CONVERT_DATE_TIME set, the factory's timeout, no application name and a fresh context |
| DriverOptions.DbHandle.SetDriverOption | oledb_driver.c:793-815 | through the corrected split (see Findings), which leaves a shared original one holder fewer; APPLICATION_NAME stores the value's string form with S_OK and touches nothing else; every other attribute behaves as SetOption under the connection mask with persistence kept |
| DriverOptions.DbHandle.SetDriverOptions | oledb_driver.c:817-848 | without an ENCODING key, or without options, the encoding "windows-1252" is applied unless an earlier option failed |
| DriverOptions.OptionsOn | oledb_stmt.c:1175-1196 | the option loop of a bound parameter or column: string keys are skipped, so an array without integer keys changes nothing and leaves the status S_FALSE; the holder always keeps its converter slots |
| DriverOptions.VersionInfo | oledb_driver.c:889-923 | a version string exists exactly when the name or the version does; with only one of them it is that one |
| DriverOptions.SplitAtSpace | oledb_driver.c:912-916 | the part before the first space holds no space |
| DriverOptions.VersionInfoSplits | oledb_driver.c:912-916 | a name without spaces, joined with a version, splits back into the two |
| DriverOptions.SplitJoined | oledb_driver.c:912-916 | splitting at the first space undoes the join |
| DriverOptions.TimeoutAsWrittenReportsAppName | oledb_driver.c:944-951 | as written, reading the timeout falls through and reports the application name, or crashes when none is set |
| DriverOptions.TimeoutReportsTimeout | oledb_driver.c:944-947 | corrected, reading the timeout reports the timeout |
| DriverOptions.GetAttrAgreesElsewhere | oledb_driver.c:925-961 | the correction changes nothing but the timeout |
| DriverOptions.GetAttrDefault | oledb_driver.c:930-957 | a version attribute reports the provider's version string when it gave a name or a version, and otherwise writes nothing and leaves the status uninitialised; every other attribute but the timeout and the application name succeeds: a flag or the cursor from the flags, an encoding from the context, anything else unwritten |
| DriverOptions.SetThenGetAttr | oledb_driver.c:793-961 | setting a connection flag and then reading it gives back its boolean value |
| DriverOptions.GetAttrFlag | oledb_driver.c:952-957 | reading a flag attribute reports get_internal_flag's value |
| DriverOptions.StmtGetEncodingClears | oledb_stmt.c:1736-1750 | as written, asking a statement for its encoding runs set_conversion_option with a null value, which clears the encoding and writes nothing |
| DriverOptions.StmtGetReadsFlags | oledb_stmt.c:1736-1750 | as written, any other attribute is read from the statement's flags and leaves the context alone |
| DriverOptions.StmtGetAttr | oledb_stmt.c:1736-1750 | corrected (see Findings), reading the context with get_conversion_option: the names, the slots and the errors are left as they were |
| DriverOptions.StmtGetEncodingReports | oledb_stmt.c:1736-1750 | corrected, asking a statement for its encoding succeeds and reports the stored name, or "" when none is stored, and keeps it |
| DriverOptions.StmtSetThenGetEncoding | oledb_stmt.c:1736-1750 | corrected, a non-empty encoding set on a statement is what a later get of that attribute reports |
| DriverOptions.StmtGetAgreesElsewhere | oledb_stmt.c:1736-1750 | on every attribute that is not an encoding, the statement's get_attr as written and corrected give the same result |
| Errors.KeepAsWrittenUnsafe | oledb_err.c:105-111 | as written, a description after a missing one is compared against a null pointer, and one after an appended description against the string line 111 already freed, where the intended rule keeps both |
| Errors.KeepAgrees | oledb_err.c:103-113 | where the as-written test reads a live description it decides exactly as the intended rule does; it reads a null pointer exactly after a missing description, and freed memory exactly after a description that was appended |
| Errors.PartsLength | oledb_err.c:96-101 | the space reserved for the kept parts is zero exactly when none is kept |
| Errors.JoinLength | oledb_err.c:103-113 | the joined text is one shorter than the sum of each part plus one |
| Errors.KeptFits | oledb_err.c:96-113 | the kept parts fit in the buffer sized from every description plus one |
| Errors.KeptEmpty | oledb_err.c:103-113 | nothing is kept exactly when no record has a description |
| Errors.KeptLast | oledb_err.c:103-113 | when every record has a description, the last one always ends the message |
| Errors.KeptNoRepeats | oledb_err.c:103-113 | when every record has a description, no part of the message repeats the one before it |
| Errors.KeptFromRecords | oledb_err.c:103-113 | every part of the message is one of the records' descriptions |
| Errors.KeptStep | oledb_err.c:103-113 | one iteration appends the record's description exactly when it is kept |
| Errors.AppendPart | oledb_err.c:106-110 | appending a part after an earlier one turns the earlier terminator into a space |
| Errors.JoinDescriptions | oledb_err.c:94-115 | with the corrected repeat test (see Findings): the join loop yields the kept descriptions separated by single spaces and an offset equal to the room they take, which never exceeds the buffer |
| Errors.FirstSqlRecord | oledb_err.c:117-128 | the first record whose GetSQLInfo succeeds, and none before it succeeds |
| Errors.FirstSqlState | oledb_err.c:117-128 | the search loop stops at the first record whose SQL info is obtained and yields its state |
| Errors.FirstUnique | oledb_err.c:117-128 | that first record is determined uniquely |
| Errors.Descriptions | oledb_err.c:84-91 | one description slot per record, holding that record's description |
| Errors.StateFrom | oledb_err.c:133-144 | after a failure the code is the converted state when it is at most five characters, stays as it was when longer, and is "58004" when there is none |
| Errors.FailureReportedAsNoneAsWritten | oledb_err.c:159-184 | as written, a failure without an error object after a success still reads "00000" |
| Errors.FailureWithoutObjectFlagged | oledb_err.c:159-184 | corrected, such a failure is reported as "58004", never as "00000" |
| Errors.NewMessage | oledb_err.c:58-61 | no message on success; after a failure the object's converted description, or without an object the table's text, then the system's |
| Errors.ErrorContext.constructor | oledb_err.c:34-193 | a fresh error record holds "00000", no code and no message |
| Errors.ReportError | oledb_err.c:34-193 | with the corrected repeat test and the corrected state of a failure without an error object (see Findings): no handle changes nothing; otherwise the statement's record (or the connection's) gets the file, line, code, new message and new state, the other record is left alone, and an exception is raised exactly for a failure before the handle has methods |
| Errors.ReadErrorObject | oledb_err.c:69-147 | with the corrected repeat test (see Findings): the state and message read from an error object are those StateFrom and ObjectDescription define |
| Errors.SuccessClears | oledb_err.c:190-192 | a success always clears the code to "00000" and the message |
| Errors.AutomationError.constructor | oledb_err.c:429-437 | the automation error keeps its message and SQL code and starts with no references |
| Errors.AutomationError.QueryInterface | oledb_err.c:206-222 | the IUnknown, IErrorInfo, IErrorRecords and ISQLErrorInfo interfaces are granted with one more reference; any other is refused with E_NOINTERFACE |
| Errors.AutomationError.AddRef | oledb_err.c:224-227 | AddRef returns the incremented count |
| Errors.AutomationError.Release | oledb_err.c:229-238 | Release returns the decremented count and frees the object when it reaches zero |
| Errors.AutomationError.GetRecordCount | oledb_err.c:373-378 | the object always has one record |
| Errors.AutomationError.GetSqlInfo | oledb_err.c:412-420 | the SQL info is the stored code with native error -1 and S_OK |
| Errors.AutomationError.View | oledb_err.c:373-420 | what the reporting code sees of the object: one record |
| Errors.SetAutomationError | oledb_err.c:429-442 | the object is registered with the thread holding the only reference |
| Errors.AutomationErrorReported | oledb_err.c:34-193 | a failure reported after set_automation_error carries the automation message and, when short enough, its SQL code |
| FetchPlans.FetchPlan | oledb_stmt.c:1315-1356 | the corrected plan (see Findings): LAST alone is refused; PRIOR fetches backwards and every other orientation one row forwards; FIRST goes to row 1, restarting whenever a row has been read; ABS goes to row offset+1, restarting when already past it; NEXT and PRIOR never restart; REL moves by the offset |
| FetchPlans.PlanTracksPosition | oledb_stmt.c:1297-1381 | with the corrected plan, a forward fetch from the recorded position reads the row the orientation asks for and records that row's number, so the recorded index keeps equal to the provider's position |
| FetchPlans.PlanCorrections | oledb_stmt.c:1315-1356 | the corrected plan differs from the switch as written only for FIRST after exactly one row, ABS without a restart, and REL |
| FetchPlans.FirstAfterOneRowAsWritten | oledb_stmt.c:1317 | as written, FIRST after one row reads row 2 and records 1 |
| FetchPlans.AbsWithoutRestartAsWritten | oledb_stmt.c:1335 | as written, ABS with offset 1 from row 1 rereads row 1 and records 2 |
| FetchPlans.RelAsWritten | oledb_stmt.c:1349-1352 | as written, REL with offset 1 from row 1 reads row 3 and records 2 |
| InitProperties.SecurityOf | oledb_driver.c:1059-1083 | the four connection flags the properties depend on are read from the handle's flag word |
| InitProperties.SetsFit | oledb_driver.c:1041-1097 | at most ten DBINIT and three SQL Server properties are added, so neither 16-entry array overflows, and at most two non-empty sets are passed |
| InitProperties.DbInitFits | oledb_driver.c:1047-1079 | the DBINIT set has at most ten properties |
| InitProperties.SqlServerFits | oledb_driver.c:1084-1097 | the SQL Server set has at most three properties |
| InitProperties.AllConcat | oledb_driver.c:1047-1079 | a property list built in pieces satisfies a condition exactly when every piece does |
| InitProperties.AllOptional | oledb_driver.c:1047-1079 | a conditionally added property satisfies a condition when it is not added or satisfies it |
| InitProperties.DbInitSetAll | oledb_driver.c:1047-1079 | a condition holds of the DBINIT set when it holds of each property that may be added |
| InitProperties.LocationMarked | oledb_driver.c:1050-1055 | the data source and catalog are marked REQUIRED |
| InitProperties.CredentialsAll | oledb_driver.c:1059-1075 | a condition holds of the credentials when it holds of SSPI, of the user name and of the password with its four flags |
| InitProperties.RequiredProperties | oledb_driver.c:1047-1097 | exactly the data source, catalog, SSPI, user name and password are REQUIRED; nothing in the SQL Server set is |
| InitProperties.SecureSendsNoPassword | oledb_driver.c:1059-1075 | a secure connection never sends the user name or password, and any other connection never asks for SSPI |
| InitProperties.LocationNoCredentials | oledb_driver.c:1050-1055 | the location properties carry no credentials |
| InitProperties.SetInitializationProperties | oledb_driver.c:1099-1123 | the status is the provider's when SetProperties was called and failed and some REQUIRED property was not set, and S_OK otherwise |
| InitProperties.FailsOnlyOnRequired | oledb_driver.c:1106-1120 | initialisation fails exactly when SetProperties was called and failed and a REQUIRED property was not set, and then with the provider's status |
| InitProperties.OptionalOnly | oledb_driver.c:1035-1123 | without host, database, user name and password every provider answer gives S_OK |
| InitProperties.NothingRequired | oledb_driver.c:1047-1097 | in that case no property is REQUIRED |
| InputBuffer.EntryOf | oledb_stmt.c:903-917 | the fill reads exactly four things of a parameter: the input direction bit, the variable-length flag, its byte count and data length, and whether its data pointer is set |
| InputBuffer.Entries | oledb_stmt.c:899-933 | the fill visits the bound parameters in order, one entry each |
| InputBuffer.EntrySlots | oledb_stmt.c:871-887 | every parameter gets a status slot, a length slot exactly when it is variable-length, and a value slot of its byte count |
| InputBuffer.EntryWrite | oledb_stmt.c:903-931 | what the fill writes over one entry never runs past the entry's status, length and value slots |
| InputBuffer.Splice | oledb_stmt.c:909-930 | a store into the buffer keeps its size and leaves the written bytes at the given offset |
| InputBuffer.SpliceAdjacent | oledb_stmt.c:909-918 | the status store followed by the length and value stores is one store of their concatenation |
| InputBuffer.SpliceElsewhere | oledb_stmt.c:899-933 | a store outside a region leaves that region as it was |
| InputBuffer.WriteBytes | oledb_stmt.c:918 | copying bytes into the array leaves it equal to the old contents with those bytes spliced in, nothing else changed |
| InputBuffer.FillPresent | oledb_stmt.c:908-919 | an input with bytes gets status OK, then the data length when variable, then the data bytes when the pointer is set, all spliced at the entry's offset |
| InputBuffer.FillEntry | oledb_stmt.c:899-931 | one iteration of the fill loop leaves the array equal to the old contents with exactly the entry's write spliced at its offset |
| InputBuffer.PresentEntryReads | oledb_stmt.c:908-919 | reading a written entry with data gives status OK, the data length for a variable entry, and the data-pointer bytes at the value offset |
| InputBuffer.AbsentEntryReads | oledb_stmt.c:925-930 | reading a written entry without data gives status ISNULL for an input with no bytes and zeros over the entire entry for a non-input parameter |
| InputBuffer.EntryReads | oledb_stmt.c:903-931 | whatever surrounds it, any written entry reads back as the status, length and value the fill stored for that parameter |
| InputBuffer.EntryBefore | oledb_stmt.c:859-891 | each parameter's entry ends at or before the start of every later entry and inside the total the layout loop computes |
| InputBuffer.Offsets | oledb_stmt.c:862 | each parameter's recorded byte offset is the layout offset of its entry |
| InputBuffer.Writes | oledb_stmt.c:899-933 | the fill's writes are, entry by entry, what the fill writes for that parameter |
| InputBuffer.LayoutOrdered | oledb_stmt.c:859-891 | the layout places the entries so that every write fits the buffer and each one ends before the next begins |
| InputBuffer.Written | oledb_stmt.c:899-933 | the buffer keeps its size through any number of fill steps |
| InputBuffer.WrittenKeeps | oledb_stmt.c:899-933 | a write, once made, survives every later write of the fill loop |
| InputBuffer.WrittenEntryHolds | oledb_stmt.c:899-933 | after all ordered writes each entry reads back as its own write |
| InputBuffer.Filled | oledb_stmt.c:897-933 | the filled buffer has the size the layout loop computed |
| InputBuffer.FilledEntryReads | oledb_stmt.c:897-933 | whatever the reallocated buffer held, entry k of the filled buffer lies inside it and the provider reads status OK with the data length and data bytes, status ISNULL, or all zeros, as the parameter demands |
| Params.SourceTypeName | oledb_stmt.c:651-800 | every provider data-source type name bind_param can hand over is a DBTYPE_ name |
| Params.NewParam | oledb_stmt.c:1262-1263 | a parameter allocated by the ALLOC event inherits the statement's flags and starts with no type, no direction, no bytes, no converted buffers and no stream |
| Params.ParamHookAlloc | oledb_stmt.c:1162-1293 | corrected (see Findings), with the record stored before the driver options run: the ALLOC event refuses exactly when the command lacks ICommandWithParameters or its accessor (SQLSTATE 58004) or the ordinal is negative or past the provider's parameter list (SQLSTATE HY093); otherwise it yields a fresh record, never a null one, which without integer-keyed options has the statement's flags, its context unchanged and the status S_FALSE |
| Params.ParamHookAllocAsWritten | oledb_stmt.c:1162-1266 | as written: the refusals are the same, and an accepted parameter with any integer-keyed driver option works on a null record |
| Params.ParamOptionReadsNullRecord | oledb_stmt.c:1162-1266 | one integer-keyed option on an accepted parameter: the code as written reads a null record, the corrected hook allocates one |
| Params.ParamHookAllocAgrees | oledb_stmt.c:1175-1266 | without integer-keyed options the code as written and the corrected hook give the same outcome |
| Params.AllocAppliesFlagOption | oledb_stmt.c:1162-1266 | a bound-value flag given as a driver option succeeds; the new record reads it back as the value's truth, the context keeps its names and slots, and its converters gain the split's reference |
| Params.EffectiveInfo | oledb_stmt.c:615-630 | the provider's description is used when the ordinal is in range, otherwise an empty-typed input at ordinal paramno+1; the output flag is set exactly when the PHP binding is INPUT_OUTPUT |
| Params.TypeFlags | oledb_stmt.c:632-642 | the parameter is sent as UTF-16 exactly when it already was or the provider type is WSTR or BSTR, and as raw bytes exactly when it already was or the provider type is BYTES |
| Params.ProperTruncatedLength | oledb_driver.c:226-242 | the length safe to truncate to never exceeds the limit and is the limit itself when the MLang probe gives no answer |
| Params.AsStream | oledb_stmt.c:650-656 | a long value travels as an IUnknown stream pointer of unbounded width, with the stream's length as its data length when the stream was created |
| Params.BindStringInput | oledb_stmt.c:647-709 | a string input becomes variable-length; as UTF-16 it carries the converted units, clipped to the declared size on TRUNCATE_STRING, at two bytes each; as narrow text or binary it carries the converted or raw bytes, clipped at a character boundary or at the declared size; long data goes through a stream |
| Params.Fixed | oledb_stmt.c:727-750 | an integer, boolean or double input is fixed-width, with the given retrieval type, slot size and data pointer |
| Params.BindResourceInput | oledb_stmt.c:710-726 | a resource input is always a variable-length stream, typed WLONGVARCHAR, VARBINARY or LONGVARCHAR by the parameter's flags |
| Params.BindInput | oledb_stmt.c:645-764 | each zval type of an input picks its branch: strings and resources as above, longs and booleans as a 4-byte I4, doubles as an 8-byte R8, null leaves the parameter untouched, and any other type fails with E_FAIL |
| Params.NewOutput | oledb_stmt.c:766-803 | an output parameter without a type is sized from max_value_len: STR as a string buffer, LOB or long STR as a stream, INT and BOOL as a 4-byte I4, and any other PDO type fails with E_FAIL |
| Params.GrowOutput | oledb_stmt.c:805-812 | an already typed string parameter grows its slot and width to hold max_value_len (signed compare for narrow, unsigned for UTF-16 byte counts) and nothing else changes |
| Params.BindOutput | oledb_stmt.c:765-816 | the output side types a parameter with no type yet and otherwise only grows it |
| Params.ClearParam | oledb_stmt.c:575-592 | clearing drops the converted buffers and the stream and leaves every other field of the parameter as it was |
| Params.ClearStreamReleases | oledb_stmt.c:581-586 | without a stream nothing is released; with one, one release, and a second exactly when the first leaves references; the stream is gone exactly when at most two references were held |
| Params.ClearFreesStream | oledb_stmt.c:581-586 | clearing frees a stream held only by the driver and possibly the provider; a stream a third party also holds loses one of that party's references when the provider has already released its own |
| Params.BindSides | oledb_stmt.c:615-817 | after both sides the ordinal is the provider's, the input direction is set exactly when it was already or the description says input, and the output direction exactly when it was already or the binding is INPUT_OUTPUT |
| Params.BindParam | oledb_stmt.c:605-838 | SetParameterInfo is called exactly when binding succeeded and the command takes parameters, with the chosen type name, width and the provider's flags and ordinal; a failed binding returns its error and a cleared parameter |
| Params.AllocatedUsesProviderInfo | oledb_stmt.c:1258-1262 | once ALLOC accepted an ordinal, bind_param uses the provider's own ordinal, type and size for it |
| Params.TruncatedStringFits | oledb_stmt.c:658-707 | with TRUNCATE_STRING on a variable-width declared type, the width sent never exceeds the declared size |
| Params.UnicodeInputBytes | oledb_stmt.c:658-669 | a UTF-16 input's byte count and data length are twice its width, which is at most the converted length |
| Params.GrownOutputFits | oledb_stmt.c:805-812 | a grown string parameter's slot and width hold max_value_len and never shrink |
| Params.RebindGrows | oledb_stmt.c:804-813 | rebinding a typed output-only parameter succeeds and only grows its slot |
| Params.UnsupportedValueFails | oledb_stmt.c:759-760 | binding an input of an unsupported zval type fails with E_FAIL, skips SetParameterInfo and leaves the parameter cleared |
| Params.NullInputSendsNoType | oledb_stmt.c:751-758 | a null input on a fresh parameter is described to the provider with no type name and size 0 |
| Params.IoFlagsAccumulate | oledb_stmt.c:763 | binding only adds direction flags, never removes one |
| Statement.ColumnAccessorReleasesExactly | oledb_stmt.c:44-48 | clearing releases a long-column accessor exactly when some column holds that non-zero handle, and makes only ReleaseAccessor calls, at most one per column |
| Statement.ReleaseColumnAccessors | oledb_stmt.c:44-48 | the loop over the columns makes exactly the column-accessor releases, in column order |
| Statement.ColumnSlots | oledb_stmt.c:522-548 | each column takes the layout slot its byte count and variable-length flag give |
| Statement.Binds | oledb_stmt.c:517-520 | the column loop hands every column, in order, to bind_column |
| Statement.PlaceAt | oledb_stmt.c:522-524 | a column with bytes records the current buffer offset; one without keeps its offset; the slot it takes does not change |
| Statement.Placed | oledb_stmt.c:517-552 | every column is placed at the layout offset of its slot |
| Statement.BindStatuses | oledb_stmt.c:519 | the loop sees bind_column's status for each column |
| Statement.FirstFailure | oledb_stmt.c:519-520 | the loop stops at the first column that failed to bind: every earlier one succeeded |
| Statement.FirstFailureAt | oledb_stmt.c:519-520 | the first failure is unique: any index before which everything succeeded and at which binding failed is it |
| Statement.PartlyBound | oledb_stmt.c:517-520 | a loop stopped early leaves as many columns as it started with |
| Statement.Realloc | oledb_stmt.c:561 | erealloc yields a buffer of the requested size that keeps the old contents as far as both reach |
| Statement.BindingStep | oledb_stmt.c:534-548 | the three ADVANCE_OFFSET steps of one column's status, length and value land exactly on the running sum of the layout slots |
| Statement.PrefixStep | oledb_stmt.c:517-552 | one more column extends the prefix of slots the loop has placed |
| Statement.AppendRowBinding | oledb_stmt.c:526-548 | the binding built for a column is its status, length and value offsets, type and ordinal, and the offset after it is the slot sum one column on |
| Statement.PlaceBound | oledb_stmt.c:521-551 | one successful iteration keeps the loop's invariant: placed columns, bindings and offset agree with the layout of the first i+1 columns |
| Statement.BindLoopComplete | oledb_stmt.c:517-553 | a loop that got through every column returns S_OK with all columns placed, the final offset and the bindings |
| Statement.BindLoopStopped | oledb_stmt.c:519-520 | a loop stopped at column i returns that column's failure with the earlier columns placed, column i as bind_column left it and the later ones untouched |
| Statement.BindColumnsLoop | oledb_stmt.c:516-553 | the column loop computes exactly the status, placed columns, row size and binding list of the loop specification |
| Statement.AppendParamBinding | oledb_stmt.c:862-887 | the binding built for a parameter has its ordinal, type, direction, ownership and status, length and value offsets, and the offset after it is the slot sum one parameter on |
| Statement.LayoutParams | oledb_stmt.c:856-891 | the parameter layout loop gives every parameter its binding at its layout offset, records those offsets, and ends at the total size of the layout |
| Statement.StreamAddRefsExactly | oledb_stmt.c:921-924 | the fill adds a reference to a parameter's stream exactly when it is an input with bytes that holds a stream, and to nothing else |
| Statement.ReallocArray | oledb_stmt.c:897 | the parameter buffer is reallocated to the requested size, keeping the old contents as far as both reach |
| Statement.FillParams | oledb_stmt.c:898-933 | the fill loop leaves the buffer as the filled-buffer specification over its previous contents and adds exactly the required stream references |
| Statement.AddRefsStep | oledb_stmt.c:921-924 | one more parameter adds its stream reference exactly when it is an input with bytes holding a stream |
| Statement.FillNext | oledb_stmt.c:899-932 | one iteration of the fill loop makes exactly the next write of the specification |
| Statement.PlacedEntryInside | oledb_stmt.c:522-548 | every bound column's status, length and value lie inside the row buffer |
| Statement.PlacedEntriesDisjoint | oledb_stmt.c:522-548 | bound columns' entries lie in column order and never overlap |
| Statement.RowBindingsFromColumns | oledb_stmt.c:522-551 | the row bindings are exactly those of the columns with bytes |
| Statement.RowBindingsOrdered | oledb_stmt.c:534-548 | each row binding's value ends before the next binding's status begins |
| Statement.BoundLayout | oledb_stmt.c:516-553 | after a successful column loop every bound column's entry fits the row size, the entries are disjoint and ordered, and the bindings match the placed columns without overlap |
| Statement.FetchReleasesHeldRowFirst | oledb_stmt.c:1309-1313 | a fetch only appends provider calls, releases the held row handle before anything else, and does nothing without a rowset |
| Statement.FetchLastRefused | oledb_stmt.c:1355-1358 | fetching the last row fails with E_NOTIMPL and the "Cursor does not support scrolling to the last row." / 42872 error, after releasing the held row |
| Statement.FetchRowIndex | oledb_stmt.c:1315-1367 | with the corrected plan (see Findings): a failed restart keeps the row index, a failed GetNextRows keeps it (or leaves 0 after a restart), and a successful one moves it to the planned index |
| Statement.FetchReturnsRow | oledb_stmt.c:1363-1376 | with the corrected plan (see Findings): fetch returns 1 exactly when there is a rowset, the orientation is not LAST, any restart and GetNextRows succeed with a row, and GetData succeeds when there is a row accessor; the row handle is then the new one |
| Statement.FetchKeepsRowBuffer | oledb_stmt.c:1369-1374 | GetData overwrites the row buffer in place: its presence and size, the accessor and the rowset do not change |
| Statement.FetchTracksPosition | oledb_stmt.c:1315-1367 | for FIRST, ABS, NEXT and REL the (corrected) fetch asks for the planned offset and leaves the row index at the row that was asked for |
| Statement.ReleasedRowReleasedAgain | oledb_stmt.c:1311-1312 | a fetch that retrieves no row keeps the old, already released handle, so the next fetch releases it a second time |
| Statement.Described | oledb_stmt.c:1404-1410 | describing a column copies its name, name length, PDO type, precision and maximum length |
| Statement.LobConversion | oledb_stmt.c:1584-1592 | a long WSTR column is read converting from UTF-16, a long STR column converting from the narrow charset, and any other column unconverted |
| Statement.GetColAfterBind | oledb_stmt.c:1556-1690 | after a successful bind, the row buffer is as large as the layout and every bound column's slot lies inside it; get_col decodes every such in-buffer column from any buffer of that size, reporting the string conversion's status for a narrow string and S_OK otherwise; an index past the last column returns 0 |
| Statement.LongColumnCallsAsWritten | oledb_stmt.c:1574-1606 | as written, a long column's calls start with its GetData, and an interface is released exactly when GetData failed and the uninitialised pUnknown field held that identity |
| Statement.FailedGetDataReleasesStaleAsWritten | oledb_stmt.c:1574-1606 | as written, a failed GetData with a non-null stale pointer adds a release of that identity to the corrected calls |
| Statement.GetColReleasesNothing | oledb_stmt.c:1574-1606 | corrected, get_col never releases an interface, and its long-column calls equal those as written whenever GetData succeeds or the stale pointer is null |
| Statement.GetColOn | oledb_stmt.c:1556-1690 | corrected (see Findings), with the long column's buffer starting out null: an index past the last column returns 0 and calls nothing; a long column makes its one GetData and releases nothing, returns 1 exactly when that succeeds with an OK status and a stream is made, reports the last call's status and yields a stream in the conversion its type asks for, copied for string columns; a buffered column returns 1 exactly when there is a row buffer and reports the string conversion's status for a narrow string, S_OK otherwise |
| Statement.Statement.constructor | oledb_driver.c:308-319 | a new statement has the handle's flags, no rowset, no columns, no buffers and has called nothing |
| Statement.Statement.ClearRowset | oledb_stmt.c:31-75 | clearing releases the held row, the row accessor, the column accessors and the rowset interface in that order, and resets columns, handles and row index |
| Statement.Statement.BindColumns | oledb_stmt.c:496-573 | bind_columns creates the columns, queries IAccessor, runs the column loop, creates the row accessor and sizes the row buffer, clearing the rowset on any failure |
| Statement.Statement.BindRowset | oledb_stmt.c:553-572 | after the column loop, the row accessor is created only when some column is bound, the buffer is sized to the layout on success, and the rowset is cleared on failure |
| Statement.Statement.CopyBoundParams | oledb_stmt.c:840-944 | every parameter gets its binding at its layout offset; a refused accessor leaves the buffer alone; otherwise the reallocated buffer holds the filled entries, DBPARAMS names it with one set, and the needed stream references are added |
| Statement.Statement.Fetch | oledb_stmt.c:1297-1381 | with the corrected plan (see Findings): a fetch changes the cursor's calls, row handle, row index and row buffer exactly as the fetch specification says |
| Statement.Statement.Describe | oledb_stmt.c:1383-1412 | describe returns 1 exactly when there are columns and colno is in range, fills every column's description on the first call, and leaves the array alone otherwise |
| Statement.Statement.NextRowset | oledb_stmt.c:1752-1775 | asking for the next rowset clears the current one and always returns 0, since multiple results are never requested at execute (line 1132) |
| Streams.ReadSlice | oledb_strm.c:282-289 | a read of a buffered stream returns min(cb, bytes left) bytes from the current offset and never runs past the end |
| Streams.ReadsConcatenate | oledb_strm.c:282-289 | two consecutive reads return what one read of their combined size would |
| Streams.ReadWhole | oledb_strm.c:282-285 | a read at least as large as the buffer returns all of it from the start, and nothing at the end |
| Streams.ZvalStream.constructor | oledb_strm.c:366-377 | a new stream holds its source, starts at offset 0 and has one reference, the one the final QueryInterface takes |
| Streams.ZvalStream.Read | oledb_strm.c:268-292 | a passthrough stream returns what the host stream read; a buffered one returns the next slice and advances its offset by its length; either answers S_OK with data and S_FALSE without; a stream with neither fails with E_FAIL |
| Streams.ZvalStream.Write | oledb_strm.c:294-301 | writing is not implemented |
| Streams.ZvalStream.AddRef | oledb_strm.c:249-253 | AddRef increments the count and returns the new value |
| Streams.ZvalStream.Release | oledb_strm.c:255-266 | Release decrements the count and returns it; at zero the object is freed, along with its bytes when it owns them |
| Streams.ZvalStream.QueryInterface | oledb_strm.c:234-247 | only IUnknown and ISequentialStream are granted, each with a new reference; any other interface answers E_NOINTERFACE and leaves the count alone |
| Streams.AddRefRelease | oledb_strm.c:249-266 | an AddRef followed by a Release leaves the object exactly as before |
| Streams.ResourceSource | oledb_strm.c:332-341 | a resource is read whole into an owned buffer exactly when stat fails or reports 0, conversion is asked for, or filters are attached; otherwise reads pass through and the stat size is kept |
| Streams.SourceFateAsWrittenDangles | oledb_strm.c:352-363 | as written, an owned buffer that no converter replaced is freed while the stream still reads from it, and a replaced one is never freed |
| Streams.SourceFateSound | oledb_strm.c:352-363 | corrected, the stream never reads a freed buffer, a replaced owned buffer is always freed and a borrowed one never is |
| Streams.NotAStreamAsWrittenSucceeds | oledb_strm.c:327-330 | as written, a resource that is not a stream is reported with a positive status, which counts as success, yet no stream is made |
| Streams.NotAStreamFails | oledb_strm.c:327-330 | corrected, that case is a failing HRESULT and no stream is made |
| Streams.CreateZvalStream | oledb_strm.c:311-385 | with the corrected status for a resource that is not a stream and the corrected freeing of the source (see Findings): a non-stream resource fails with "Expected a stream resource" (HY105); anything else yields a fresh stream with one reference at offset 0, a borrowed buffer for strings, passthrough exactly as the resource rule says, conversion only on buffered data, and the reported length being the stat size or the byte count; with a converter the stream carries the conversion loop's output, the owned source is freed and the reported status is the loop's, with S_FALSE mapped to E_FAIL; with none it keeps the source buffer |
| Streams.Initial | oledb_strm.c:321-341 | where the stream's bytes come from before conversion; there is always a buffer when conversion is asked for |
| Streams.RefillValid | oledb_strm.c:84-100 | with the corrected refill, a refill leaves the staging buffer coherent: offset within byte_count within the 1024-byte buffer |
| Streams.DrainValid | oledb_strm.c:75-82 | converting the leftover bytes keeps the staging buffer coherent |
| Streams.LeftoverInside | oledb_strm.c:72-73 | in a coherent staging buffer, the unsigned byte_count - offset is exactly the unconverted bytes and they lie inside the buffer |
| Streams.RefillAsWrittenOverruns | oledb_strm.c:84-96 | as written, one full read followed by an empty read leaves offset 100 with byte_count 0, so the next call converts 2^32 - 100 bytes from past the buffer's end |
| Streams.RefillEmptiesStaging | oledb_strm.c:84-96 | corrected, the same reads leave a coherent, empty staging buffer |
| Streams.LobStream.constructor | oledb_strm.c:179-209 | a new LOB stream holds the interfaces, converter, statement, length and staging buffer it was given, and is open |
| Streams.LobStream.Stat | oledb_strm.c:154-165 | stat reports the length exactly when no converter is attached and the length is non-zero |
| Streams.LobStream.Seek | oledb_strm.c:136-152 | seeking succeeds exactly when the object holds an IStream and its Seek succeeds; otherwise it answers -1 |
| Streams.LobStream.Write | oledb_strm.c:56-59 | writing always answers (size_t) -1 |
| Streams.LobStream.CloseStreamResources | oledb_strm.c:42-54 | closing drops one reference for each of the converter, the sequential stream, the IStream and the statement, and zeroes the record |
| Streams.LobStream.Close | oledb_strm.c:118-128 | close answers 0; with close_handle it releases the resources, otherwise it changes nothing |
| Streams.LobStream.ProviderRead | oledb_strm.c:85 | the provider's stream hands over its next answer, cut to the requested size, or S_FALSE with nothing at its end |
| Streams.LobStream.Read | oledb_strm.c:61-116 | with the corrected refill (see Findings): a read never returns more than asked and answers its byte count or -1; without a stream it answers -1; with a converter it keeps the staging buffer coherent and fills the request unless the provider runs dry or fails; without one it returns the provider's chunk cut to the request, answers -1 exactly when the provider failed, and at S_FALSE without an IStream drops every held reference |
| Streams.LobStream.ReadDirect | oledb_strm.c:102-112 | without a converter the provider's answer is returned as is; at the end of a stream that cannot seek back every held reference is dropped |
| Streams.LobStream.ReadConverting | oledb_strm.c:69-101 | with the corrected refill (see Findings): with a converter, the leftover bytes are converted first and the buffer is refilled until the request is full or the provider runs dry, producing at most the requested size |
| Streams.CreateLobStream | oledb_strm.c:179-219 | the stream holds IStream as its sequential stream with a second reference, else ISequentialStream, else nothing (E_NOINTERFACE); the caller's reference is dropped, the converter and the statement gain one each, and a failed allocation fails with E_FAIL and leaves the counts as if nothing was kept |
| Streams.DropHeldCounts | oledb_strm.c:42-54 | dropping the held references lowers each object's count by the number of times it is held |
| Streams.BumpLookup | oledb_strm.c:186-209 | an AddRef or Release changes only the count of the object it is applied to |
| Streams.HeldOccurrences | oledb_strm.c:42-54 | an object held in several of the four fields is counted once per field |
| Streams.CreateCounts | oledb_strm.c:186-209 | the references taken and dropped while creating a stream change each object's count by one for each field that holds it, less one for the object the caller passed in |

## Left out

- Module start-up and shutdown, COM initialisation, symbol resolution and the phpinfo table (`pdo_oledb.c`) are foreign calls and output.
- The connection factories are left out beyond the initial state they give a handle. `merge_settings`, begin/commit/rollback, `last_insert_id`, execute's provider calls and `sync_output_params` are left out too: they are thin wrappers over provider calls.
- Provider COM calls (Execute, CreateAccessor, GetNextRows, GetData, RestartPosition, SetProperties, GetColumnsRowset, GetParameterInfo, SetParameterInfo, QueryInterface) are oracles. Their statuses and outputs come in as parameters.
- `oledb_stmt_create_columns` and the metadata rowset read: they are provider calls. Their result (the column records) is an input of `BindColumns`.
- The MLang charset conversion is an abstract step function. A well-behaved step never reads past its input or writes past its room, and makes progress given enough room (`WellBehaved`, `FitsToUnicode`); the loops are proved only for such steps. The real encodings are not modelled beyond the per-unit converters of the concrete examples.
- ConvertLoops.CreateBstr: proved for one conversion round, under the assumption that a UTF-16 buffer of one unit per input byte always suffices. The repeat of its `do … while` loop is not modelled.
- Null source pointers passed to the conversion loops are not modelled; every caller in the core passes a buffer.
- FetchPlans.PlanTracksPosition: does not cover PRIOR, because where a backward fetch leaves the provider's position is provider-defined.
- Floating point is not modelled: R8 column values, double parameters (as `ZDouble`, without a value), the datetime `sprintf` formatting and VARIANT-to-string conversion.
- zval and HashTable details are not modelled. Option arrays are sequences of key/value pairs, bound parameters are sequences in hash order, and `SEPARATE_ZVAL` and exception objects are left out.
- The placeholder rewriter `_pdo_parse_params` is host code outside the driver.
- Allocator details (emalloc/pemalloc/BSTR allocation, freeing) are left out beyond ownership flags and aliasing of buffers. Reference counts are modelled for COM objects and for the connection's and statement's conversion contexts; the lines below name the counts left out.
- Params.NewParam: the record's conversion context is not a field of Param. ParamHookAlloc carries the context's names and converter slots, but the reference oledb_copy_conversion_options adds to the statement's context (oledb_stmt.c:1264) is not counted, and neither is its release on PDO_PARAM_EVT_FREE (oledb_stmt.c:1271).
- Params.ClearParam: does not count the stream's references. Params.ClearStreamReleases states the one or two releases (oledb_stmt.c:581-586) on the count separately.
- Statement.Statement.ClearRowset: does not release each column's conversion context (oledb_stmt.c:63), because the model's column records hold no context. The column names and metadata freed at oledb_stmt.c:52-62 are allocator detail.
- Layout.Sum and Layout.AdvanceOffset: offsets and sizes are unbounded naturals. The 32-bit DBLENGTH/ULONG width of row-buffer offsets, of the statement's nextOutputOffset and nextInputOffset and of the input buffer's offsets is not modelled, so a layout past 4 GiB is not shown to wrap.
- Conversion.SplitConversionOptions: copies the names as evidently intended. The code as written leaves unset names at whatever pemalloc returned (Conversion.SplitNamesAsWritten). Its reference counts are as written: the original keeps the splitting holder's reference.
- Conversion.SetConversionOption: splits with the corrected Conversion.SplitDroppingOriginal, not the code as written. The difference is the original's count, which the source leaves one too high, and the names unset in the original, which the source leaves undefined.
- ConvertLoops.ConvertBstr: runs the intended loop ConvertLoops.BstrLoop, which continues from the converted position and appends. The code as written (ConvertLoops.BstrLoopAsWritten) restarts every round at the start of the input and of the buffer (oledb_driver.c:156-158).
- DriverOptions.SetOption: inherits SetConversionOption's corrected split.
- DriverOptions.DbHandle.SetDriverOption: inherits SetConversionOption's corrected split.
- DriverOptions.OptionsOn: the bound parameter's or column's context is split as written for its count. The context is modelled by its names and slots only (see Params.NewParam).
- Params.ParamHookAlloc: stores the record in driver_data before the driver options run. As written (Params.ParamHookAllocAsWritten), the options run first (oledb_stmt.c:1264-1266), so an integer-keyed option works on a null record.
- Errors.JoinDescriptions: uses the corrected repeat test Errors.Keep. The code as written (Errors.KeepAsWritten) reads a null or a freed description and has no defined result there.
- Errors.ReportError: uses Errors.Keep and the corrected Errors.NewState. As written, a failure without an error object leaves the state as it was (Errors.StateWithoutObjectAsWritten).
- Errors.ReadErrorObject: uses the corrected repeat test Errors.Keep.
- FetchPlans.FetchPlan: is the corrected plan. FetchPlans.FetchPlanAsWritten is the switch as written, and FetchPlans.PlanCorrections names where the two differ.
- Statement.FetchRowIndex: uses the corrected plan.
- Statement.FetchReturnsRow: uses the corrected plan.
- Statement.Statement.Fetch: uses the corrected plan.
- Statement.GetColOn: the long column's buffer starts out null. As written (Statement.LongColumnCallsAsWritten) it is uninitialised, so a failed GetData releases whatever identity the stack held.
- DriverOptions.StmtGetReadsFlags and DriverOptions.StmtGetEncodingClears: these are the statement's get_attr as written. The corrected DriverOptions.StmtGetAttr reads the encodings with get_conversion_option. Nothing else in the model calls the statement's get_attr.
- Streams.CreateZvalStream: uses the corrected Streams.NotAStream and Streams.SourceFate. As written, a resource that is not a stream is reported with the succeeding status 87, and an owned source is freed when the conversion answered S_FALSE.
- Streams.LobStream.ReadConverting: uses the corrected Streams.Refill. As written (Streams.RefillAsWritten), an empty read leaves the offset past byte_count.
- The message table of `oledb_errmsg.c` and FormatMessage are lookups passed in as parameters (`tableText`, `systemText`).
- The property values of initialisation are not converted to strings or VARIANTs. Only their statuses and the required/optional choice are modelled.
- The non-string branch of `oledb_create_zval_stream` (a value converted to a string) is not modelled; values are strings or resources.
- Columns.IsVariableWidth and Columns.TypeToNameNative: decision tables without their own ensures. Their behaviour is stated by the lemmas in the table above.
- DriverOptions.DbHandle.SetDriverOptions: states only the default encoding and the failure path, not the effect of each option in the array. The effect of each option is stated by DbHandle.SetDriverOption.
- Streams.LobStream.ReadConverting: states the size bounds, the staging invariant and that the request is filled unless the provider runs dry or fails. It does not state the converted bytes, since DoConversion is an abstract step.
- Streams.LobStream.Read: with a converter, inherits the weaker ReadConverting contract and its corrected refill. Without a converter it states everything ReadDirect does.
- There is no concurrency in the core.

## Findings

| source | as written | input that shows it | evidently intended | confidence | as-written member | corrected member |
|---|---|---|---|---|---|---|
| oledb_err.c:105-111 | the repeat test compares a record's description with the previous one even when the previous has none (a null pointer), and even when line 111 has already freed the previous one because it was appended | descriptions [none, "x"]; descriptions ["x", "y"] | compare with the previous description only while it is live, and keep a description after a missing one | not executed | Errors.KeepAsWrittenUnsafe | Errors.KeptNoRepeats |
| oledb_err.c:159-184 | a failure without an error object never writes the SQLSTATE, so a code cleared by an earlier success stays "00000" | a failing HRESULT with no IErrorInfo after a success | report the failure with the fallback "58004" | not executed | Errors.FailureReportedAsNoneAsWritten | Errors.FailureWithoutObjectFlagged |
| oledb_driver.c:655-664 | the split context comes from pemalloc, so names that are null in the original keep whatever the memory held | a context with only its charset set, split over memory holding "x" | the new context's names equal the original's | not executed | Conversion.SplitAsWrittenReportsLeftover | Conversion.SplitConversionOptions |
| oledb_driver.c:648-675 | the split points the holder at the copy but never drops the holder's reference on the original | a connection context copied to a statement, split when the statement sets an option, then released by the connection: one count left, no holder, never freed | release the original once the holder has its copy | not executed | Conversion.SplitStrandsOriginal | Conversion.SplitDroppingOriginal |
| oledb_stmt.c:1574-1606 | the long column's local buffer is not initialised, and when GetData fails SAFE_RELEASE runs on its pUnknown field | a failed GetData on a long column while the stack slot holds a non-null pointer | initialise the buffer so that a failed GetData releases nothing | not executed | Statement.FailedGetDataReleasesStaleAsWritten | Statement.GetColReleasesNothing |
| oledb_stmt.c:1743 | get_attr calls oledb_set_conversion_option with the host's return value, not the get, so reading ENCODING sets it to null | getAttribute(PDO_OLEDB_ATTR_ENCODING) on a statement | read the encoding with oledb_get_conversion_option, as the connection does | not executed | DriverOptions.StmtGetEncodingClears | DriverOptions.StmtGetEncodingReports |
| oledb_stmt.c:1264-1266 | the ALLOC event runs the driver options before it stores the record in param->driver_data, and oledb_stmt_set_param_driver_option reads the record from there | binding a parameter with an integer-keyed driver option, such as an ENCODING option | store the record before the options run | not executed | Params.ParamHookAllocAsWritten | Params.ParamHookAlloc |
| oledb_driver.c:158 | every round of the UTF-16 to narrow loop converts from the start of the input into the start of the output again | "AB" through a UTF-16LE converter whose first round has room for one unit only: the result is 41 00 followed by two bytes that erealloc left undefined (0 in the model) | continue from the converted position and append | not executed | ConvertLoops.BstrAsWrittenRepeatsInput | ConvertLoops.ConvertBstrPerUnit |
| oledb_driver.c:944-951 | the TIMEOUT case falls through into APPLICATION_NAME, so the timeout reads as the application name or crashes without one | get_attr(PDO_ATTR_TIMEOUT) on a fresh handle | report the timeout | not executed | DriverOptions.TimeoutAsWrittenReportsAppName | DriverOptions.TimeoutReportsTimeout |
| oledb_stmt.c:1317 | FIRST restarts only when rowIndex > 1, so right after the first row it reads the second while recording row 1 | FIRST with rowIndex 1 | restart whenever a row has been read | not executed | FetchPlans.FirstAfterOneRowAsWritten | FetchPlans.PlanTracksPosition |
| oledb_stmt.c:1335 | ABS without a restart skips offset - rowIndex - 1 rows, one short | ABS offset 1 with rowIndex 1 | skip offset - rowIndex rows to reach row offset + 1 | not executed | FetchPlans.AbsWithoutRestartAsWritten | FetchPlans.PlanTracksPosition |
| oledb_stmt.c:1349-1352 | REL skips offset rows and then reads one, landing one past rowIndex + offset | REL offset 1 with rowIndex 1 | skip offset - 1 rows | not executed | FetchPlans.RelAsWritten | FetchPlans.PlanTracksPosition |
| oledb_strm.c:96 | after an empty read, offset is set to the previous round's len_src while byte_count becomes 0 | a 100-byte read all converted, then an empty read | leave nothing over (offset 0) after an empty read | not executed | Streams.RefillAsWrittenOverruns | Streams.RefillEmptiesStaging |
| oledb_strm.c:359-363 | an owned buffer is freed when the conversion answered S_FALSE, which is when the stream still reads it; a replaced one leaks | a stream resource bound for conversion while the context's converter slot is empty | free the owned source only when the conversion replaced it | not executed | Streams.SourceFateAsWrittenDangles | Streams.SourceFateSound |
| oledb_strm.c:327-329 | a resource that is not a stream returns ERROR_INVALID_PARAMETER (87), which SUCCEEDED accepts | binding a non-stream resource as a LOB | return a failing HRESULT | not executed | Streams.NotAStreamAsWrittenSucceeds | Streams.NotAStreamFails |
