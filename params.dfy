// Parameter binding of oledb_stmt.c: the ordinal check of the ALLOC event
// in oledb_stmt_param_hook, and oledb_stmt_bind_param, which decides from
// the provider's DBPARAMINFO, the parameter's flags and the PHP value how
// the parameter travels (as a narrow string, a UTF-16 string, a stream, an
// integer or a double), how many bytes its value slot takes and which
// direction flags it carries.
//
// The results of the helpers bind_param calls (oledb_create_bstr,
// oledb_convert_string, oledb_create_zval_stream, the MLang probe behind
// oledb_get_proper_truncated_length and SetParameterInfo) are inputs of the
// model, gathered in BindEnv; ConvertLoops and Streams model how they come
// about.

module Params {
  import opened OleDbInt
  import Columns
  import Conversion
  import DriverOptions

  /** A C `long` (32-bit on Windows). */
  type I32 = x: int | -0x8000_0000 <= x < 0x8000_0000

  const ALL_ONES: U32 := 0xFFFF_FFFF

  /** DBPARAMINFO as far as bind_param reads it. */
  datatype ParamInfo = ParamInfo(dwFlags: Dword, iOrdinal: int, ulParamSize: U32, wType: DbType)

  /** The PHP value bound to the parameter, by zval type.  Only the contents
      of strings and the integer of longs and booleans matter here. */
  datatype Zval =
    | ZString(bytes: seq<Byte>)
    | ZResource
    | ZLong(n: I32)
    | ZBool(b: bool)
    | ZDouble
    | ZNull
    | ZOther

  /** The provider type names bind_param hands to SetParameterInfo. */
  datatype SourceType =
    | TypeWLongVarChar | TypeWVarChar | TypeLongVarChar | TypeVarChar | TypeVarBinary | TypeBytes
    | TypeI4 | TypeBool | TypeR8

  function SourceTypeName(t: SourceType): (name: string)
    ensures |name| > 7 && name[..7] == "DBTYPE_"
  {
    match t
    case TypeWLongVarChar => "DBTYPE_WLONGVARCHAR"
    case TypeWVarChar => "DBTYPE_WVARCHAR"
    case TypeLongVarChar => "DBTYPE_LONGVARCHAR"
    case TypeVarChar => "DBTYPE_VARCHAR"
    case TypeVarBinary => "DBTYPE_VARBINARY"
    case TypeBytes => "DBTYPE_BYTES"
    case TypeI4 => "DBTYPE_I4"
    case TypeBool => "DBTYPE_BOOL"
    case TypeR8 => "DBTYPE_R8"
  }

  /** What P->dataPointer points at. */
  datatype DataPointer = NoPointer | ToStream | ToUnicode | ToNarrow(bytes: seq<Byte>) | ToInt | ToDouble

  /** pdo_oledb_param without its conversion-context pointer. */
  datatype Param = Param(
    flags: Dword,
    dataType: Option<SourceType>,
    dataTypeWidth: U32,
    ordinal: int,
    dataLength: U32,
    retrievalType: DbType,
    ioFlags: Dword,
    byteCount: U32,
    pointer: DataPointer,
    intValue: int,
    varcharValue: Option<seq<Byte>>,
    unicodeValue: Option<seq<Wchar>>,
    stream: bool)

  /** PHP's pdo_bound_param_data as bind_param reads it. */
  datatype BoundParam = BoundParam(paramno: int, paramType: Dword, maxValueLen: I32, value: Zval)

  /** The outcome of oledb_create_zval_stream: its status, whether it stored
      a stream in *pUnk, and the length it reported. */
  datatype StreamOutcome = StreamOutcome(hr: HResult, created: bool, length: U32)

  /** The results of the helpers bind_param calls.
      unicode: what oledb_create_bstr made of the string;
      narrowHr/narrow: the status and output of oledb_convert_string;
      probe: Some(n) when oledb_get_proper_truncated_length's MLang probe
      succeeds and says n bytes convert whole;
      setInfoHr: the status of SetParameterInfo. */
  datatype BindEnv = BindEnv(
    paramInfo: Option<seq<ParamInfo>>,
    hasCommandWithParameters: bool,
    unicode: seq<Wchar>,
    narrowHr: HResult,
    narrow: seq<Byte>,
    stream: StreamOutcome,
    probe: Option<U32>,
    setInfoHr: HResult)

  /** The parameter description passed to SetParameterInfo. */
  datatype BindInfo = BindInfo(dataSourceType: Option<SourceType>, paramSize: U32, dwFlags: Dword, ordinal: int)

  datatype BindResult = BindResult(hr: HResult, param: Param, setInfo: Option<BindInfo>)

  /** Sizes and counts the source keeps in 32-bit fields. */
  predicate EnvFits(env: BindEnv)
  {
    |env.unicode| < TWO_32 && |env.narrow| < TWO_32
  }

  predicate ValueFits(v: Zval)
  {
    v.ZString? ==> |v.bytes| < TWO_32
  }

  // ------------------------------------------------------ PDO_PARAM_EVT_ALLOC

  /** What the ALLOC event leaves: the SQLSTATE of a refusal, or the new
      record with the status the hook reports through pdo_oledb_error_stmt
      and the conversion context (names and converter slots) the record
      holds after the driver options; NullRecord when a driver option reads
      the record before the hook has stored it. */
  datatype AllocOutcome =
    | Rejected(sqlState: string)
    | Allocated(param: Param, hr: HResult, names: Conversion.Names, heap: Conversion.Heap,
                errors: seq<Conversion.Automation>)
    | NullRecord

  /** A fresh parameter record: all zero, with the statement's flags. */
  function NewParam(stmtFlags: Dword): (p: Param)
    ensures p.flags == stmtFlags && p.dataType.None? && p.ioFlags == 0 && p.byteCount == 0
    ensures p.varcharValue.None? && p.unicodeValue.None? && !p.stream
  {
    Param(stmtFlags, None, 0, 0, 0, DBTYPE_EMPTY, 0, 0, NoPointer, 0, None, None, false)
  }

  /** The checks the hook makes before it allocates the record. */
  predicate AllocRefused(hasCommandWithParameters: bool, hasAccessorCommand: bool,
                         paramInfo: Option<seq<ParamInfo>>, paramno: int)
  {
    !hasCommandWithParameters || !hasAccessorCommand || paramno < 0
    || (paramInfo.Some? && paramno >= |paramInfo.value|)
  }

  function AllocRefusal(hasCommandWithParameters: bool, hasAccessorCommand: bool): string
  {
    if !hasCommandWithParameters || !hasAccessorCommand then "58004" else "HY093"
  }

  /** oledb_stmt_param_hook on PDO_PARAM_EVT_ALLOC as written: the record
      is stored in param->driver_data only after
      oledb_stmt_set_param_driver_options has run, and
      oledb_stmt_set_param_driver_option takes the record from
      param->driver_data, so the first integer-keyed option works on a
      null record. */
  function ParamHookAllocAsWritten(hasCommandWithParameters: bool, hasAccessorCommand: bool,
                                   paramInfo: Option<seq<ParamInfo>>, paramno: int, stmtFlags: Dword,
                                   names: Conversion.Names, heap: Conversion.Heap,
                                   options: seq<(DriverOptions.Key, DriverOptions.Zval)>): (r: AllocOutcome)
    ensures r.Rejected? <==> AllocRefused(hasCommandWithParameters, hasAccessorCommand, paramInfo, paramno)
    ensures r.NullRecord? <==>
      !AllocRefused(hasCommandWithParameters, hasAccessorCommand, paramInfo, paramno)
      && exists i :: 0 <= i < |options| && options[i].0.IntKey?
  {
    if AllocRefused(hasCommandWithParameters, hasAccessorCommand, paramInfo, paramno) then
      Rejected(AllocRefusal(hasCommandWithParameters, hasAccessorCommand))
    else if exists i :: 0 <= i < |options| && options[i].0.IntKey? then NullRecord
    else Allocated(NewParam(stmtFlags), S_FALSE, names, heap, [])
  }

  /** The ALLOC event with the record stored before the driver options run:
      a zeroed record with the statement's flags and a copy of its
      conversion context (shared until the first option splits it), then
      the integer-keyed options under the bound-value mask; the status of
      the last option is what the hook reports. */
  function ParamHookAlloc(hasCommandWithParameters: bool, hasAccessorCommand: bool,
                          paramInfo: Option<seq<ParamInfo>>, paramno: int, stmtFlags: Dword,
                          names: Conversion.Names, heap: Conversion.Heap,
                          options: seq<(DriverOptions.Key, DriverOptions.Zval)>, env: Conversion.MLang): (r: AllocOutcome)
    requires |heap.slots| == CONVERTER_COUNT
    ensures !r.NullRecord?
    ensures r.Rejected? <==> AllocRefused(hasCommandWithParameters, hasAccessorCommand, paramInfo, paramno)
    ensures r.Rejected? && hasCommandWithParameters && hasAccessorCommand ==> r.sqlState == "HY093"
    ensures r.Rejected? && !(hasCommandWithParameters && hasAccessorCommand) ==> r.sqlState == "58004"
    ensures r.Allocated? ==> r.param == NewParam(r.param.flags) && |r.heap.slots| == CONVERTER_COUNT
    ensures r.Allocated? && (forall i :: 0 <= i < |options| ==> options[i].0.StrKey?) ==>
      r == Allocated(NewParam(stmtFlags), S_FALSE, names, heap, [])
  {
    if AllocRefused(hasCommandWithParameters, hasAccessorCommand, paramInfo, paramno) then
      Rejected(AllocRefusal(hasCommandWithParameters, hasAccessorCommand))
    else
      var o := DriverOptions.OptionsOn(options, DriverOptions.OptionOutcome(S_FALSE, names, heap, stmtFlags, []),
                                       true, DriverOptions.BOUND_MASK, env);
      Allocated(NewParam(o.flags), o.hr, o.names, o.heap, o.errors)
  }

  /** An accepted parameter with an integer-keyed driver option: the code
      as written dereferences the null record, the corrected hook applies
      the option. */
  lemma ParamOptionReadsNullRecord(paramInfo: Option<seq<ParamInfo>>, paramno: int, stmtFlags: Dword,
                                   names: Conversion.Names, heap: Conversion.Heap,
                                   attr: int, v: DriverOptions.Zval, env: Conversion.MLang)
    requires |heap.slots| == CONVERTER_COUNT
    requires !AllocRefused(true, true, paramInfo, paramno)
    ensures ParamHookAllocAsWritten(true, true, paramInfo, paramno, stmtFlags, names, heap,
                                    [(DriverOptions.IntKey(attr), v)]) == NullRecord
    ensures ParamHookAlloc(true, true, paramInfo, paramno, stmtFlags, names, heap,
                           [(DriverOptions.IntKey(attr), v)], env).Allocated?
  {
    var options := [(DriverOptions.IntKey(attr), v)];
    assert options[0].0.IntKey?;
  }

  /** Without integer-keyed options the two agree. */
  lemma ParamHookAllocAgrees(hasCommandWithParameters: bool, hasAccessorCommand: bool,
                             paramInfo: Option<seq<ParamInfo>>, paramno: int, stmtFlags: Dword,
                             names: Conversion.Names, heap: Conversion.Heap,
                             options: seq<(DriverOptions.Key, DriverOptions.Zval)>, env: Conversion.MLang)
    requires |heap.slots| == CONVERTER_COUNT
    requires forall i :: 0 <= i < |options| ==> options[i].0.StrKey?
    ensures ParamHookAllocAsWritten(hasCommandWithParameters, hasAccessorCommand, paramInfo, paramno, stmtFlags,
                                    names, heap, options) ==
            ParamHookAlloc(hasCommandWithParameters, hasAccessorCommand, paramInfo, paramno, stmtFlags,
                           names, heap, options, env)
  {
  }

  /** A bound-value flag given as a driver option is set in the new record
      to the value's truth; the context is split, so its converters gain a
      reference, and its names are unchanged. */
  lemma AllocAppliesFlagOption(paramInfo: Option<seq<ParamInfo>>, paramno: int, stmtFlags: Dword,
                               names: Conversion.Names, heap: Conversion.Heap,
                               attr: int, v: DriverOptions.Zval, env: Conversion.MLang)
    requires |heap.slots| == CONVERTER_COUNT
    requires !AllocRefused(true, true, paramInfo, paramno)
    requires attr in DriverOptions.FLAG_ATTRIBUTES
    requires Has(DriverOptions.BOUND_MASK, DriverOptions.ConstantToInternalFlag(attr))
    ensures var r := ParamHookAlloc(true, true, paramInfo, paramno, stmtFlags, names, heap,
                                    [(DriverOptions.IntKey(attr), v)], env);
      && r.Allocated? && r.hr == S_OK && r.names == names && r.errors == []
      && r.heap.slots == heap.slots && r.heap.refs == Conversion.Recount(heap.refs, heap.slots, 1)
      && DriverOptions.GetInternalFlag(attr, r.param.flags) == (1, Some(DriverOptions.Bool(DriverOptions.ToBoolean(v))))
  {
    var h := heap.(refs := Conversion.Recount(heap.refs, heap.slots, 1));
    DriverOptions.FlagOptionOn(names, h, stmtFlags, attr, v, DriverOptions.BOUND_MASK, env);
    DriverOptions.SetFlagInsideMask(attr, v, DriverOptions.BOUND_MASK, stmtFlags);
    DriverOptions.GetAfterSet(attr, v, DriverOptions.BOUND_MASK, stmtFlags);
  }

  // ------------------------------------------------------ the parameter info

  /** The DBPARAMINFO bind_param works with: the provider's entry when it
      has one for this parameter, else a guess (an input parameter at
      ordinal paramno + 1); ISOUTPUT is then set exactly for INPUT_OUTPUT
      parameters. */
  function EffectiveInfo(paramInfo: Option<seq<ParamInfo>>, paramno: int, paramType: Dword): (info: ParamInfo)
    ensures Has(info.dwFlags, DBPARAMFLAGS_ISOUTPUT) <==> Has(paramType, PDO_PARAM_INPUT_OUTPUT)
    ensures paramInfo.Some? && 0 <= paramno < |paramInfo.value| ==>
      var known := paramInfo.value[paramno];
      && info.wType == known.wType && info.ulParamSize == known.ulParamSize && info.iOrdinal == known.iOrdinal
      && info.dwFlags & !DBPARAMFLAGS_ISOUTPUT == known.dwFlags & !DBPARAMFLAGS_ISOUTPUT
    ensures !(paramInfo.Some? && 0 <= paramno < |paramInfo.value|) ==>
      && info.wType == DBTYPE_EMPTY && info.ulParamSize == 0 && info.iOrdinal == paramno + 1
      && info.dwFlags & !DBPARAMFLAGS_ISOUTPUT == DBPARAMFLAGS_ISINPUT
  {
    var base :=
      if paramInfo.Some? && 0 <= paramno < |paramInfo.value| then paramInfo.value[paramno]
      else ParamInfo(DBPARAMFLAGS_ISINPUT, paramno + 1, 0, DBTYPE_EMPTY);
    var dwFlags :=
      if Has(paramType, PDO_PARAM_INPUT_OUTPUT) then base.dwFlags | DBPARAMFLAGS_ISOUTPUT
      else base.dwFlags & !DBPARAMFLAGS_ISOUTPUT;
    base.(dwFlags := dwFlags)
  }

  /** The flags the provider's declared type adds: UTF-16 for WSTR and
      BSTR parameters, binary for BYTES parameters. */
  function TypeFlags(flags: Dword, wType: DbType): (r: Dword)
    ensures Has(r, STRING_AS_UNICODE) <==> Has(flags, STRING_AS_UNICODE) || wType == DBTYPE_WSTR || wType == DBTYPE_BSTR
    ensures Has(r, STRING_AS_LOB) <==> Has(flags, STRING_AS_LOB) || wType == DBTYPE_BYTES
  {
    flags | (if wType == DBTYPE_WSTR || wType == DBTYPE_BSTR then STRING_AS_UNICODE else 0)
          | (if wType == DBTYPE_BYTES then STRING_AS_LOB else 0)
  }

  /** oledb_get_proper_truncated_length: the number of bytes of the first
      `limit` that the MLang probe reports as converting whole, or `limit`
      itself when there is no probe result. */
  function ProperTruncatedLength(probe: Option<U32>, limit: U32): (r: U32)
    requires probe.Some? ==> probe.value <= limit
    ensures r <= limit
    ensures probe.None? ==> r == limit
  {
    if probe.Some? then probe.value else limit
  }

  /** The length clipped to the declared size, when the parameter asks for
      truncation and the declared type is variable-width. */
  predicate Clips(flags: Dword, info: ParamInfo, len: int)
  {
    Has(flags, TRUNCATE_STRING) && Columns.IsVariableWidth(info.wType) && info.ulParamSize < len
  }

  // ------------------------------------------------------------- input side

  /** A parameter that travels as a stream (IUnknown pointer in a 4-byte slot). */
  function AsStream(p: Param, dataType: SourceType, s: StreamOutcome): (q: Param)
    ensures q.retrievalType == DBTYPE_IUNKNOWN && q.byteCount == SIZEOF_IUNKNOWN && q.pointer == ToStream
    ensures q.dataTypeWidth == ALL_ONES && q.dataType == Some(dataType)
    ensures q.dataLength == (if s.created then s.length else p.dataLength)
    ensures q.stream == (p.stream || s.created)
  {
    p.(dataType := Some(dataType), dataTypeWidth := ALL_ONES, retrievalType := DBTYPE_IUNKNOWN,
       pointer := ToStream, byteCount := SIZEOF_IUNKNOWN,
       dataLength := if s.created then s.length else p.dataLength,
       stream := p.stream || s.created)
  }

  /** A string input value (the IS_STRING branch). */
  function BindStringInput(p: Param, info: ParamInfo, s: seq<Byte>, env: BindEnv): (q: Param)
    requires EnvFits(env) && |s| < TWO_32
    requires env.probe.Some? ==> env.probe.value <= info.ulParamSize
    ensures q.flags == p.flags | VARIABLE_LENGTH
    ensures q.ioFlags == p.ioFlags && q.ordinal == p.ordinal
    // UTF-16 in a buffer: the BSTR, clipped to the declared size on request
    ensures Has(p.flags, STRING_AS_UNICODE) && !Has(info.dwFlags, DBPARAMFLAGS_ISLONG) ==>
      var units := if Clips(p.flags, info, |env.unicode|) then info.ulParamSize else |env.unicode|;
      && q.retrievalType == DBTYPE_WSTR && q.pointer == ToUnicode && q.unicodeValue == Some(env.unicode)
      && q.dataTypeWidth == units && q.byteCount == q.dataLength == Wrap32(units * SIZEOF_WCHAR)
      && units <= |env.unicode|
    // narrow in a buffer: the bytes as given (binary) or converted (text)
    ensures !Has(p.flags, STRING_AS_UNICODE) && !Has(info.dwFlags, DBPARAMFLAGS_ISLONG) ==>
      var data := if Has(p.flags, STRING_AS_LOB) then s else env.narrow;
      var len := if !Clips(p.flags, info, |data|) then |data|
                 else if Has(p.flags, STRING_AS_LOB) then info.ulParamSize
                 else ProperTruncatedLength(env.probe, info.ulParamSize);
      && q.retrievalType == DBTYPE_STR && q.pointer == ToNarrow(data)
      && q.dataTypeWidth == q.byteCount == q.dataLength == len && len <= |data|
      && q.varcharValue == (if !Has(p.flags, STRING_AS_LOB) && env.narrowHr != S_FALSE then Some(env.narrow) else p.varcharValue)
    // long data goes through a stream
    ensures Has(info.dwFlags, DBPARAMFLAGS_ISLONG) ==>
      q.retrievalType == DBTYPE_IUNKNOWN && q.byteCount == SIZEOF_IUNKNOWN && q.pointer == ToStream
  {
    // VARIABLE_LENGTH (bit 3) leaves the bits tested below as they were
    var unicode := Has(p.flags, STRING_AS_UNICODE);
    var lob := Has(p.flags, STRING_AS_LOB);
    var long := Has(info.dwFlags, DBPARAMFLAGS_ISLONG);
    var p := p.(flags := p.flags | VARIABLE_LENGTH);
    if unicode then
      if long then AsStream(p, TypeWLongVarChar, env.stream)
      else
        var units: U32 := if Clips(p.flags, info, |env.unicode|) then info.ulParamSize else |env.unicode|;
        var bytes := Wrap32(units * SIZEOF_WCHAR);
        p.(unicodeValue := Some(env.unicode), dataType := Some(TypeWVarChar), dataTypeWidth := units,
           retrievalType := DBTYPE_WSTR, pointer := ToUnicode, byteCount := bytes, dataLength := bytes)
    else if long then
      AsStream(p, if lob then TypeVarBinary else TypeLongVarChar, env.stream)
    else
      var data := if lob then s else env.narrow;
      var varchar := if !lob && env.narrowHr != S_FALSE then Some(env.narrow) else p.varcharValue;
      var len: U32 := if !Clips(p.flags, info, |data|) then |data|
                      else if lob then info.ulParamSize
                      else ProperTruncatedLength(env.probe, info.ulParamSize);
      p.(dataType := Some(if lob then TypeBytes else TypeVarChar), varcharValue := varchar,
         dataTypeWidth := len, retrievalType := DBTYPE_STR, pointer := ToNarrow(data),
         byteCount := len, dataLength := len)
  }

  datatype Step = Step(hr: HResult, param: Param)

  /** A fixed-size input value: a 4-byte integer or an 8-byte double, with
      VARIABLE_LENGTH cleared. */
  function Fixed(p: Param, dataType: SourceType, retrievalType: DbType, intValue: int,
                 pointer: DataPointer, size: U32): (q: Param)
    ensures !Has(q.flags, VARIABLE_LENGTH)
    ensures q.retrievalType == retrievalType && q.byteCount == size && q.pointer == pointer
    ensures q.dataTypeWidth == size && q.dataType == Some(dataType)
  {
    p.(dataType := Some(dataType), dataTypeWidth := size, retrievalType := retrievalType, intValue := intValue,
       pointer := pointer, byteCount := size, flags := p.flags & !VARIABLE_LENGTH)
  }

  /** A resource input value: always a stream. */
  function BindResourceInput(p: Param, s: StreamOutcome): (q: Param)
    ensures q.flags == p.flags | VARIABLE_LENGTH
    ensures q.retrievalType == DBTYPE_IUNKNOWN && q.pointer == ToStream && q.byteCount == SIZEOF_IUNKNOWN
    ensures q.dataLength == (if s.created then s.length else p.dataLength)
    ensures q.dataType == Some(if Has(p.flags, STRING_AS_UNICODE) then TypeWLongVarChar
                               else if Has(p.flags, STRING_AS_LOB) then TypeVarBinary else TypeLongVarChar)
    ensures q.ioFlags == p.ioFlags && q.ordinal == p.ordinal
  {
    var dataType :=
      if Has(p.flags, STRING_AS_UNICODE) then TypeWLongVarChar
      else if Has(p.flags, STRING_AS_LOB) then TypeVarBinary else TypeLongVarChar;
    AsStream(p.(flags := p.flags | VARIABLE_LENGTH), dataType, s)
  }

  /** The ISINPUT branch of bind_param (DBPARAMIO_INPUT is added by the
      caller): the value's zval type picks the transport; any type the
      branch does not know fails with E_FAIL and changes nothing. */
  function BindInput(p: Param, info: ParamInfo, v: Zval, env: BindEnv): (r: Step)
    requires EnvFits(env) && ValueFits(v)
    requires env.probe.Some? ==> env.probe.value <= info.ulParamSize
    ensures v.ZString? ==> r == Step(S_OK, BindStringInput(p, info, v.bytes, env))
    ensures v.ZResource? ==> r == Step(env.stream.hr, BindResourceInput(p, env.stream))
    ensures v.ZLong? ==> r == Step(S_OK, Fixed(p, TypeI4, DBTYPE_I4, v.n, ToInt, SIZEOF_INT))
    ensures v.ZBool? ==> r == Step(S_OK, Fixed(p, TypeBool, DBTYPE_I4, if v.b then 1 else 0, ToInt, SIZEOF_INT))
    ensures v.ZDouble? ==> r == Step(S_OK, Fixed(p, TypeR8, DBTYPE_R8, p.intValue, ToDouble, SIZEOF_DOUBLE))
    ensures v.ZNull? ==> r == Step(S_OK, p)
    ensures v.ZOther? ==> r == Step(E_FAIL, p)
  {
    match v
    case ZString(s) => Step(S_OK, BindStringInput(p, info, s, env))
    case ZResource => Step(env.stream.hr, BindResourceInput(p, env.stream))
    case ZLong(n) => Step(S_OK, Fixed(p, TypeI4, DBTYPE_I4, n, ToInt, SIZEOF_INT))
    case ZBool(b) => Step(S_OK, Fixed(p, TypeBool, DBTYPE_I4, if b then 1 else 0, ToInt, SIZEOF_INT))
    case ZDouble => Step(S_OK, Fixed(p, TypeR8, DBTYPE_R8, p.intValue, ToDouble, SIZEOF_DOUBLE))
    // the `!ISINPUT` test of the IS_NULL branch is always false here, since
    // the branch sits inside the ISINPUT case: nothing is set
    case ZNull => Step(S_OK, p)
    case ZOther => Step(E_FAIL, p)
  }

  // ------------------------------------------------------------ output side

  /** The ISOUTPUT branch of bind_param when the input side chose no data
      type: the declared PDO type decides (STR, LOB, INT, BOOL); anything
      else fails. */
  function NewOutput(p: Param, info: ParamInfo, paramType: Dword, maxValueLen: I32, hr: HResult): (r: Step)
    ensures r.hr == (if PdoParamType(paramType) in {PDO_PARAM_STR as Dword, PDO_PARAM_LOB as Dword,
                                                    PDO_PARAM_INT as Dword, PDO_PARAM_BOOL as Dword}
                     then hr else E_FAIL)
    ensures PdoParamType(paramType) == PDO_PARAM_STR as Dword && !Has(info.dwFlags, DBPARAMFLAGS_ISLONG) ==>
      && r.param.retrievalType == (if Has(p.flags, STRING_AS_UNICODE) then DBTYPE_WSTR else DBTYPE_STR)
      && r.param.byteCount == Wrap32(if Has(p.flags, STRING_AS_UNICODE) then maxValueLen * SIZEOF_WCHAR else maxValueLen)
      && r.param.dataTypeWidth == Wrap32(maxValueLen)
    ensures (PdoParamType(paramType) == PDO_PARAM_LOB as Dword
             || (PdoParamType(paramType) == PDO_PARAM_STR as Dword && Has(info.dwFlags, DBPARAMFLAGS_ISLONG))) ==>
      r.param.retrievalType == DBTYPE_IUNKNOWN && r.param.byteCount == SIZEOF_IUNKNOWN
    ensures PdoParamType(paramType) in {PDO_PARAM_INT as Dword, PDO_PARAM_BOOL as Dword} ==>
      r.param.retrievalType == DBTYPE_I4 && r.param.byteCount == SIZEOF_INT
    ensures r.param.ioFlags == p.ioFlags && r.param.ordinal == p.ordinal
  {
    var unicode := Has(p.flags, STRING_AS_UNICODE);
    var pt := PdoParamType(paramType);
    if pt == PDO_PARAM_STR as Dword then
      var p := p.(flags := p.flags | VARIABLE_LENGTH);
      if Has(info.dwFlags, DBPARAMFLAGS_ISLONG) then
        Step(hr, p.(dataType := Some(if unicode then TypeWLongVarChar else TypeLongVarChar),
                    dataTypeWidth := ALL_ONES, retrievalType := DBTYPE_IUNKNOWN, byteCount := SIZEOF_IUNKNOWN))
      else
        Step(hr, p.(dataType := Some(if unicode then TypeWVarChar else TypeVarChar),
                    dataTypeWidth := Wrap32(maxValueLen),
                    retrievalType := if unicode then DBTYPE_WSTR else DBTYPE_STR,
                    byteCount := Wrap32(if unicode then maxValueLen * SIZEOF_WCHAR else maxValueLen)))
    else if pt == PDO_PARAM_LOB as Dword then
      Step(hr, p.(flags := p.flags | VARIABLE_LENGTH,
                  dataType := Some(if unicode then TypeWLongVarChar else TypeLongVarChar),
                  dataTypeWidth := ALL_ONES, retrievalType := DBTYPE_IUNKNOWN, byteCount := SIZEOF_POINTER))
    else if pt == PDO_PARAM_INT as Dword then
      Step(hr, p.(dataType := Some(TypeI4), dataTypeWidth := 4, retrievalType := DBTYPE_I4, byteCount := SIZEOF_INT))
    else if pt == PDO_PARAM_BOOL as Dword then
      Step(hr, p.(dataType := Some(TypeBool), dataTypeWidth := 4, retrievalType := DBTYPE_I4, byteCount := SIZEOF_INT))
    else Step(E_FAIL, p)
  }

  /** max() of two C ints. */
  function MaxInt(a: int, b: int): (r: int)
    ensures r >= a && r >= b && (r == a || r == b)
  {
    if a < b then b else a
  }

  /** The ISOUTPUT branch of bind_param after the input side chose a type:
      a string buffer is widened so that max_value_len output fits.  For
      STR the comparison is between C ints, byteCount read as signed. */
  function GrowOutput(p: Param, maxValueLen: I32): (q: Param)
    ensures p.retrievalType == DBTYPE_STR ==>
      && q.byteCount == Wrap32(MaxInt(Signed32(p.byteCount), maxValueLen))
      && q.dataTypeWidth == Wrap32(MaxInt(Signed32(p.dataTypeWidth), maxValueLen))
    ensures p.retrievalType == DBTYPE_WSTR ==>
      && q.byteCount == MaxInt(p.byteCount, Wrap32(maxValueLen * SIZEOF_WCHAR))
      && q.dataTypeWidth == Wrap32(MaxInt(Signed32(p.dataTypeWidth), maxValueLen))
    ensures p.retrievalType != DBTYPE_STR && p.retrievalType != DBTYPE_WSTR ==> q == p
    ensures q.(byteCount := p.byteCount, dataTypeWidth := p.dataTypeWidth) == p
  {
    if p.retrievalType == DBTYPE_STR then
      p.(byteCount := Wrap32(MaxInt(Signed32(p.byteCount), maxValueLen)),
         dataTypeWidth := Wrap32(MaxInt(Signed32(p.dataTypeWidth), maxValueLen)))
    else if p.retrievalType == DBTYPE_WSTR then
      p.(byteCount := MaxInt(p.byteCount, Wrap32(maxValueLen * SIZEOF_WCHAR)),
         dataTypeWidth := Wrap32(MaxInt(Signed32(p.dataTypeWidth), maxValueLen)))
    else p
  }

  /** The ISOUTPUT branch of bind_param (DBPARAMIO_OUTPUT is added by the
      caller). */
  function BindOutput(p: Param, info: ParamInfo, paramType: Dword, maxValueLen: I32, hr: HResult): (r: Step)
    ensures p.dataType.None? ==> r == NewOutput(p, info, paramType, maxValueLen, hr)
    ensures p.dataType.Some? ==> r == Step(hr, GrowOutput(p, maxValueLen))
  {
    if p.dataType.None? then NewOutput(p, info, paramType, maxValueLen, hr)
    else Step(hr, GrowOutput(p, maxValueLen))
  }

  // ------------------------------------------------------------ bind_param

  /** oledb_stmt_clear_param: the converted buffers and the stream go. */
  function ClearParam(p: Param): (q: Param)
    ensures q.varcharValue.None? && q.unicodeValue.None? && !q.stream
    ensures q.(varcharValue := p.varcharValue, unicodeValue := p.unicodeValue, stream := p.stream) == p
  {
    p.(varcharValue := None, unicodeValue := None, stream := false)
  }

  /** The stream releases of oledb_stmt_clear_param, given the stream's
      reference count before them: one release, and a second when that one
      leaves references, for the provider may not have released its own.
      The result is the number of releases and the count left. */
  function ClearStreamReleases(p: Param, refs: nat): (r: (nat, nat))
    requires p.stream ==> refs >= 1
    ensures !p.stream ==> r == (0, refs)
    ensures p.stream ==> 1 <= r.0 <= 2 && r.1 + r.0 == refs
    ensures p.stream ==> (r.1 == 0 <==> refs <= 2)
  {
    if !p.stream then (0, refs)
    else if refs - 1 > 0 then (2, refs - 2)
    else (1, 0)
  }

  /** Whether the provider still holds the stream or not, clearing frees
      it; a stream held by a third party loses a reference it did not give
      the driver. */
  lemma ClearFreesStream(p: Param, providerHolds: bool, others: nat)
    requires p.stream
    ensures var refs := 1 + (if providerHolds then 1 else 0) + others;
      var r := ClearStreamReleases(p, refs);
      && (others == 0 ==> r.1 == 0)
      && (providerHolds ==> r.1 == others)
      && (!providerHolds && others > 0 ==> r.1 == others - 1)
  {
  }

  /** Both sides of oledb_stmt_bind_param: the input side runs for ISINPUT
      parameters, the output side for ISOUTPUT ones, and the ordinal comes
      from the parameter info. */
  function BindSides(p: Param, bp: BoundParam, env: BindEnv): (r: Step)
    requires EnvFits(env) && ValueFits(bp.value)
    requires env.probe.Some? ==> env.probe.value <= EffectiveInfo(env.paramInfo, bp.paramno, bp.paramType).ulParamSize
    ensures var info := EffectiveInfo(env.paramInfo, bp.paramno, bp.paramType);
      && r.param.ordinal == info.iOrdinal
      && (Has(r.param.ioFlags, DBPARAMIO_INPUT) <==> Has(p.ioFlags, DBPARAMIO_INPUT) || Has(info.dwFlags, DBPARAMFLAGS_ISINPUT))
      && (Has(r.param.ioFlags, DBPARAMIO_OUTPUT) <==> Has(p.ioFlags, DBPARAMIO_OUTPUT) || Has(bp.paramType, PDO_PARAM_INPUT_OUTPUT))
  {
    var info := EffectiveInfo(env.paramInfo, bp.paramno, bp.paramType);
    var p := p.(flags := TypeFlags(p.flags, info.wType));
    var isIn := Has(info.dwFlags, DBPARAMFLAGS_ISINPUT);
    var isOut := Has(info.dwFlags, DBPARAMFLAGS_ISOUTPUT);
    var afterIn: Step := if isIn then BindInput(p, info, bp.value, env) else Step(S_OK, p);
    var afterOut: Step :=
      if isOut then BindOutput(afterIn.param, info, bp.paramType, bp.maxValueLen, afterIn.hr) else afterIn;
    var io := p.ioFlags | (if isIn then DBPARAMIO_INPUT else 0) | (if isOut then DBPARAMIO_OUTPUT else 0);
    Step(afterOut.hr, afterOut.param.(ioFlags := io, ordinal := info.iOrdinal))
  }

  /** oledb_stmt_bind_param.  On success the description goes to
      SetParameterInfo when the command takes one, and that call's status is
      the result; on failure the parameter is cleared and nothing is sent. */
  function BindParam(p: Param, bp: BoundParam, env: BindEnv): (r: BindResult)
    requires EnvFits(env) && ValueFits(bp.value)
    requires env.probe.Some? ==> env.probe.value <= EffectiveInfo(env.paramInfo, bp.paramno, bp.paramType).ulParamSize
    ensures var st := BindSides(p, bp, env);
      var info := EffectiveInfo(env.paramInfo, bp.paramno, bp.paramType);
      && (r.setInfo.Some? <==> Succeeded(st.hr) && env.hasCommandWithParameters)
      && (r.setInfo.Some? ==>
            && r.hr == env.setInfoHr && r.param == st.param
            && r.setInfo.value == BindInfo(st.param.dataType, st.param.dataTypeWidth, info.dwFlags, info.iOrdinal))
      && (r.setInfo.None? ==> r.hr == st.hr)
      && (Succeeded(st.hr) ==> r.param == st.param)
      && (!Succeeded(st.hr) ==> r.param == ClearParam(st.param))
  {
    var info := EffectiveInfo(env.paramInfo, bp.paramno, bp.paramType);
    var st := BindSides(p, bp, env);
    if Succeeded(st.hr) then
      if env.hasCommandWithParameters then
        BindResult(env.setInfoHr, st.param, Some(BindInfo(st.param.dataType, st.param.dataTypeWidth, info.dwFlags, info.iOrdinal)))
      else BindResult(st.hr, st.param, None)
    else BindResult(st.hr, ClearParam(st.param), None)
  }

  // ------------------------------------------------------------ properties

  /** A parameter the ALLOC event accepted is bound with the provider's
      description of it, whenever the provider gave one. */
  lemma AllocatedUsesProviderInfo(hasCommandWithParameters: bool, hasAccessorCommand: bool,
                                  paramInfo: Option<seq<ParamInfo>>, paramno: int, stmtFlags: Dword, paramType: Dword,
                                  names: Conversion.Names, heap: Conversion.Heap,
                                  options: seq<(DriverOptions.Key, DriverOptions.Zval)>, env: Conversion.MLang)
    requires |heap.slots| == CONVERTER_COUNT
    requires ParamHookAlloc(hasCommandWithParameters, hasAccessorCommand, paramInfo, paramno, stmtFlags,
                            names, heap, options, env).Allocated?
    requires paramInfo.Some?
    ensures var info := EffectiveInfo(paramInfo, paramno, paramType);
      && info.iOrdinal == paramInfo.value[paramno].iOrdinal
      && info.wType == paramInfo.value[paramno].wType
      && info.ulParamSize == paramInfo.value[paramno].ulParamSize
  {
  }

  /** With truncation on and a variable-width declared type, a string bound
      into a buffer never exceeds the declared size: in characters for UTF-16,
      in bytes otherwise. */
  lemma TruncatedStringFits(p: Param, info: ParamInfo, s: seq<Byte>, env: BindEnv)
    requires EnvFits(env) && |s| < TWO_32
    requires env.probe.Some? ==> env.probe.value <= info.ulParamSize
    requires Has(p.flags, TRUNCATE_STRING) && Columns.IsVariableWidth(info.wType)
    requires !Has(info.dwFlags, DBPARAMFLAGS_ISLONG)
    ensures BindStringInput(p, info, s, env).dataTypeWidth <= info.ulParamSize
  {
  }

  /** A UTF-16 string of fewer than 2^31 characters takes two bytes per
      character bound, in both the slot and the reported length. */
  lemma UnicodeInputBytes(p: Param, info: ParamInfo, s: seq<Byte>, env: BindEnv)
    requires EnvFits(env) && |s| < TWO_32 && |env.unicode| < 0x8000_0000
    requires env.probe.Some? ==> env.probe.value <= info.ulParamSize
    requires Has(p.flags, STRING_AS_UNICODE) && !Has(info.dwFlags, DBPARAMFLAGS_ISLONG)
    ensures var q := BindStringInput(p, info, s, env);
      q.byteCount == q.dataLength == 2 * q.dataTypeWidth <= 2 * |env.unicode|
  {
  }

  /** The output side leaves room for max_value_len: for a narrow string the
      slot, read as a C int, is at least max_value_len; for a UTF-16 string it
      holds at least max_value_len characters. */
  lemma GrownOutputFits(p: Param, maxValueLen: I32)
    requires p.retrievalType == DBTYPE_STR || p.retrievalType == DBTYPE_WSTR
    requires 0 <= maxValueLen
    ensures var q := GrowOutput(p, maxValueLen);
      && (p.retrievalType == DBTYPE_STR ==> Signed32(q.byteCount) >= maxValueLen && Signed32(q.byteCount) >= Signed32(p.byteCount))
      && (p.retrievalType == DBTYPE_WSTR ==> q.byteCount >= 2 * maxValueLen && q.byteCount >= p.byteCount)
      && Signed32(q.dataTypeWidth) >= maxValueLen
  {
    var q := GrowOutput(p, maxValueLen);
    SignedWrap(MaxInt(Signed32(p.dataTypeWidth), maxValueLen));
    if p.retrievalType == DBTYPE_STR {
      SignedWrap(MaxInt(Signed32(p.byteCount), maxValueLen));
    }
  }

  /** P->dataType survives a rebind (clear_param does not reset it): binding
      an output parameter a second time widens the first binding instead of
      starting from the declared PDO type. */
  lemma RebindGrows(p: Param, bp: BoundParam, env: BindEnv)
    requires EnvFits(env) && ValueFits(bp.value)
    requires env.probe.Some? ==> env.probe.value <= EffectiveInfo(env.paramInfo, bp.paramno, bp.paramType).ulParamSize
    requires p.dataType.Some? && Has(bp.paramType, PDO_PARAM_INPUT_OUTPUT)
    requires !Has(EffectiveInfo(env.paramInfo, bp.paramno, bp.paramType).dwFlags, DBPARAMFLAGS_ISINPUT)
    ensures var info := EffectiveInfo(env.paramInfo, bp.paramno, bp.paramType);
      var grown := GrowOutput(p.(flags := TypeFlags(p.flags, info.wType)), bp.maxValueLen);
      BindSides(p, bp, env).param.retrievalType == grown.retrievalType
      && BindSides(p, bp, env).param.byteCount == grown.byteCount
      && BindSides(p, bp, env).hr == S_OK
  {
  }

  /** A value of a type the input side does not know makes bind_param fail
      with E_FAIL whatever the output side does: the record is cleared and
      the provider is not told about the parameter. */
  lemma UnsupportedValueFails(p: Param, bp: BoundParam, env: BindEnv)
    requires EnvFits(env) && bp.value.ZOther?
    requires env.probe.Some? ==> env.probe.value <= EffectiveInfo(env.paramInfo, bp.paramno, bp.paramType).ulParamSize
    requires Has(EffectiveInfo(env.paramInfo, bp.paramno, bp.paramType).dwFlags, DBPARAMFLAGS_ISINPUT)
    ensures var r := BindParam(p, bp, env);
      r.hr == E_FAIL && r.setInfo.None? && r.param.varcharValue.None? && r.param.unicodeValue.None? && !r.param.stream
  {
    var info := EffectiveInfo(env.paramInfo, bp.paramno, bp.paramType);
    var p' := p.(flags := TypeFlags(p.flags, info.wType));
    var afterIn := BindInput(p', info, bp.value, env);
    assert afterIn.hr == E_FAIL;
    if Has(info.dwFlags, DBPARAMFLAGS_ISOUTPUT) {
      assert BindOutput(afterIn.param, info, bp.paramType, bp.maxValueLen, afterIn.hr).hr == E_FAIL;
    }
    assert BindSides(p, bp, env).hr == E_FAIL;
  }

  /** The IS_NULL input branch is dead: a fresh, input-only parameter bound
      to NULL gets no data type, so SetParameterInfo is handed a null type
      name and a zero size. */
  lemma NullInputSendsNoType(stmtFlags: Dword, bp: BoundParam, env: BindEnv)
    requires EnvFits(env) && bp.value.ZNull? && env.hasCommandWithParameters
    requires env.probe.Some? ==> env.probe.value <= EffectiveInfo(env.paramInfo, bp.paramno, bp.paramType).ulParamSize
    requires !Has(bp.paramType, PDO_PARAM_INPUT_OUTPUT)
    ensures var r := BindParam(NewParam(stmtFlags), bp, env);
      r.setInfo.Some? && r.setInfo.value.dataSourceType.None? && r.setInfo.value.paramSize == 0
  {
    var info := EffectiveInfo(env.paramInfo, bp.paramno, bp.paramType);
    assert !Has(info.dwFlags, DBPARAMFLAGS_ISOUTPUT);
    assert BindSides(NewParam(stmtFlags), bp, env).hr == S_OK;
  }

  /** Direction flags only accumulate: bind_param never clears a DBPARAMIO
      bit an earlier bind set. */
  lemma IoFlagsAccumulate(p: Param, bp: BoundParam, env: BindEnv)
    requires EnvFits(env) && ValueFits(bp.value)
    requires env.probe.Some? ==> env.probe.value <= EffectiveInfo(env.paramInfo, bp.paramno, bp.paramType).ulParamSize
    ensures BindSides(p, bp, env).param.ioFlags & p.ioFlags == p.ioFlags
  {
  }
}
