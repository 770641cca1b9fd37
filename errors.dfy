// Error reporting (oledb_err.c): how a failed HRESULT is turned into the
// SQLSTATE, error number and message of the statement or the connection,
// and the driver's own error object whose description and SQLSTATE
// oledb_set_automation_error hands to COM.  The provider's error objects
// are values (their records' descriptions and GetSQLInfo answers); the
// static HRESULT text table and FormatMessage are parameters; the
// Unicode-to-output conversion of BSTRs is a parameter function.

module Errors {
  import opened OleDbInt

  const PDO_ERR_NONE: string := "00000"
  /** The SQLSTATE used when no error record supplied one. */
  const UNKNOWN_STATE: string := "58004"
  /** The longest SQLSTATE copied into the error code. */
  const STATE_CAPACITY: nat := 5

  // ------------------------------------------ joining record descriptions

  /** Record i's description goes into the message: it exists and is not
      the same text as the record just before it (a missing one never
      counts as the same). */
  predicate Keep(d: seq<Option<string>>, i: nat)
    requires i < |d|
  {
    d[i].Some? && (i == 0 || d[i - 1].None? || d[i - 1] != d[i])
  }

  /** What the repeat test of oledb_err.c:105 does with record i: it
      decides, or it compares against a null pointer, or against a
      description that was already freed. */
  datatype RepeatTest = Decided(keep: bool) | NullCompare | FreedCompare

  /** As written (oledb_err.c:103-111): the comparison with the previous
      record runs whenever this one has a description.  It reads a null
      pointer when the previous record has none, and freed memory when the
      previous description was appended, because line 111 frees every
      description it appends; only a previous description skipped as a
      repeat is still alive. */
  function KeepAsWritten(d: seq<Option<string>>, i: nat): RepeatTest
    requires i < |d|
  {
    if d[i].None? then Decided(false)
    else if i == 0 then Decided(true)
    else if d[i - 1].None? then NullCompare
    else if Keep(d, i - 1) then FreedCompare
    else Decided(d[i - 1] != d[i])
  }

  /** A description after a missing one is compared against a null
      pointer, and one after an appended description against freed memory,
      where the intended rule keeps both. */
  lemma KeepAsWrittenUnsafe(x: string, y: string)
    ensures KeepAsWritten([None, Some(x)], 1) == NullCompare && Keep([None, Some(x)], 1)
    ensures x != y ==> KeepAsWritten([Some(x), Some(y)], 1) == FreedCompare && Keep([Some(x), Some(y)], 1)
  {
  }

  /** Where the as-written test reads a live description it decides as Keep
      does; it reads a null pointer exactly after a missing description, and
      freed memory exactly after a description that was appended. */
  lemma KeepAgrees(d: seq<Option<string>>, i: nat)
    requires i < |d|
    ensures KeepAsWritten(d, i).Decided? ==> KeepAsWritten(d, i).keep == Keep(d, i)
    ensures KeepAsWritten(d, i).NullCompare? <==> i > 0 && d[i].Some? && d[i - 1].None?
    ensures KeepAsWritten(d, i).FreedCompare? <==> i > 0 && d[i].Some? && Keep(d, i - 1)
  {
  }

  /** The descriptions that make up the message, in record order. */
  function Kept(d: seq<Option<string>>): seq<string>
    decreases |d|
  {
    if d == [] then []
    else
      var n := |d| - 1;
      Kept(d[..n]) + (if Keep(d, n) then [d[n].value] else [])
  }

  /** Parts separated by single spaces. */
  function JoinWithSpaces(parts: seq<string>): string
    decreases |parts|
  {
    if parts == [] then ""
    else if |parts| == 1 then parts[0]
    else JoinWithSpaces(parts[..|parts| - 1]) + " " + parts[|parts| - 1]
  }

  /** The room a part takes in the buffer: its characters and the slot
      after it (the terminator, later the space). */
  function PartsLength(parts: seq<string>): (n: nat)
    ensures n == 0 <==> parts == []
    decreases |parts|
  {
    if parts == [] then 0 else PartsLength(parts[..|parts| - 1]) + |parts[|parts| - 1]| + 1
  }

  /** total_len: the room for every description that exists. */
  function TotalLength(d: seq<Option<string>>): nat
    decreases |d|
  {
    if d == [] then 0
    else
      var n := |d| - 1;
      TotalLength(d[..n]) + (if d[n].Some? then |d[n].value| + 1 else 0)
  }

  /** The joined text is one character shorter than the room its parts
      take: it fits the buffer with its terminator. */
  lemma {:induction false} JoinLength(parts: seq<string>)
    requires parts != []
    ensures |JoinWithSpaces(parts)| + 1 == PartsLength(parts)
    decreases |parts|
  {
    if |parts| > 1 {
      JoinLength(parts[..|parts| - 1]);
    }
  }

  /** The kept parts never need more room than total_len provides. */
  lemma {:induction false} KeptFits(d: seq<Option<string>>)
    ensures PartsLength(Kept(d)) <= TotalLength(d)
    decreases |d|
  {
    if d != [] {
      var n := |d| - 1;
      KeptFits(d[..n]);
      var k := Kept(d[..n]);
      if Keep(d, n) {
        assert Kept(d) == k + [d[n].value];
        assert (k + [d[n].value])[..|k|] == k;
      } else {
        assert Kept(d) == k;
      }
    }
  }

  /** Nothing is kept exactly when no record has a description. */
  lemma {:induction false} KeptEmpty(d: seq<Option<string>>)
    ensures Kept(d) == [] <==> forall i :: 0 <= i < |d| ==> d[i].None?
    decreases |d|
  {
    if d != [] {
      var n := |d| - 1;
      var p := d[..n];
      KeptEmpty(p);
      KeptStep(d, n);
      assert d[..n + 1] == d;
      assert forall i :: 0 <= i < n ==> p[i] == d[i];
      if Kept(p) == [] {
        assert forall i :: 0 <= i < n ==> d[i].None?;
        assert Kept(d) == [] <==> d[n].None? by {
          if d[n].Some? {
            assert Keep(d, n);
          }
        }
      } else {
        assert Kept(d) != [];
        assert exists i :: 0 <= i < n && p[i].Some?;
      }
    }
  }

  /** When every record has a description, the last part is the last
      record's. */
  lemma {:induction false} KeptLast(d: seq<Option<string>>)
    requires d != [] && forall i :: 0 <= i < |d| ==> d[i].Some?
    ensures Kept(d) != [] && Kept(d)[|Kept(d)| - 1] == d[|d| - 1].value
    decreases |d|
  {
    var n := |d| - 1;
    if !Keep(d, n) {
      assert n > 0 && d[n - 1] == d[n];
      assert forall i :: 0 <= i < n ==> d[..n][i] == d[i];
      KeptLast(d[..n]);
    }
  }

  /** ... and no two neighbouring parts are the same text: a run of equal
      descriptions is reported once. */
  lemma {:induction false} KeptNoRepeats(d: seq<Option<string>>)
    requires forall i :: 0 <= i < |d| ==> d[i].Some?
    ensures forall k :: 0 < k < |Kept(d)| ==> Kept(d)[k - 1] != Kept(d)[k]
    decreases |d|
  {
    if d != [] {
      var n := |d| - 1;
      assert forall i :: 0 <= i < n ==> d[..n][i] == d[i];
      KeptNoRepeats(d[..n]);
      var k := Kept(d[..n]);
      if Keep(d, n) && k != [] {
        KeptLast(d[..n]);
        assert k[|k| - 1] == d[n - 1].value;
        assert Kept(d) == k + [d[n].value];
      }
    }
  }

  /** Every part is the description of some record. */
  lemma {:induction false} KeptFromRecords(d: seq<Option<string>>)
    ensures forall k :: 0 <= k < |Kept(d)| ==> exists i :: 0 <= i < |d| && d[i] == Some(Kept(d)[k])
    decreases |d|
  {
    if d != [] {
      var n := |d| - 1;
      KeptFromRecords(d[..n]);
      var k := Kept(d[..n]);
      assert k + [] == k;
      assert Kept(d) == if Keep(d, n) then k + [d[n].value] else k;
      forall j | 0 <= j < |Kept(d)|
        ensures exists i :: 0 <= i < |d| && d[i] == Some(Kept(d)[j])
      {
        if j < |k| {
          assert Kept(d)[j] == k[j];
          var i :| 0 <= i < n && d[..n][i] == Some(k[j]);
          assert d[i] == Some(Kept(d)[j]);
        } else {
          assert d[n] == Some(Kept(d)[j]);
        }
      }
    } else {
      assert Kept(d) == [];
    }
  }

  /** One more record extends the parts by its description when it is
      kept. */
  lemma KeptStep(d: seq<Option<string>>, i: nat)
    requires i < |d|
    ensures Kept(d[..i + 1]) == if Keep(d, i) then Kept(d[..i]) + [d[i].value] else Kept(d[..i])
  {
    assert d[..i + 1][..i] == d[..i];
    assert Kept(d[..i]) + [] == Kept(d[..i]);
  }

  /** Appending a part adds a space and the part, and its room. */
  lemma AppendPart(parts: seq<string>, p: string)
    ensures JoinWithSpaces(parts + [p]) == if parts == [] then p else JoinWithSpaces(parts) + " " + p
    ensures PartsLength(parts + [p]) == PartsLength(parts) + |p| + 1
  {
    assert (parts + [p])[..|parts|] == parts;
  }

  /** The description loop of oledb_err.c:96-113: each kept description is
      copied at `offset`, and a space replaces the terminator before it
      when something was copied already. */
  method JoinDescriptions(d: seq<Option<string>>) returns (joined: string, offset: nat)
    ensures joined == JoinWithSpaces(Kept(d))
    ensures offset == PartsLength(Kept(d)) <= TotalLength(d)
    ensures Kept(d) != [] ==> |joined| < offset
  {
    joined, offset := "", 0;
    var i := 0;
    while i < |d|
      invariant 0 <= i <= |d|
      invariant joined == JoinWithSpaces(Kept(d[..i]))
      invariant offset == PartsLength(Kept(d[..i]))
    {
      KeptStep(d, i);
      if d[i].Some? && (i == 0 || d[i - 1].None? || d[i] != d[i - 1]) {
        AppendPart(Kept(d[..i]), d[i].value);
        joined := (if offset != 0 then joined + " " else joined) + d[i].value;
        offset := offset + |d[i].value| + 1;
      }
      i := i + 1;
    }
    assert d[..|d|] == d;
    KeptFits(d);
    if Kept(d) != [] {
      JoinLength(Kept(d));
    }
  }

  // --------------------------------------------------- choosing the SQLSTATE

  /** A GetSQLInfo answer. */
  datatype SqlInfo = SqlInfo(hr: HResult, state: Option<string>)

  /** One error record: its description (None when GetErrorInfo or
      GetDescription gave nothing) and the answer of its ISQLErrorInfo
      (None when the record has none). */
  datatype Record = Record(description: Option<string>, sqlInfo: Option<SqlInfo>)

  predicate SqlSucceeds(r: Record)
  {
    r.sqlInfo.Some? && Succeeded(r.sqlInfo.value.hr)
  }

  /** The first record whose GetSQLInfo succeeded. */
  function FirstSqlRecord(rs: seq<Record>): (r: Option<nat>)
    ensures r.Some? ==> r.value < |rs| && SqlSucceeds(rs[r.value])
    ensures r.Some? ==> forall j :: 0 <= j < r.value ==> !SqlSucceeds(rs[j])
    ensures r.None? ==> forall j :: 0 <= j < |rs| ==> !SqlSucceeds(rs[j])
    decreases |rs|
  {
    if rs == [] then None
    else if SqlSucceeds(rs[0]) then Some(0)
    else
      match FirstSqlRecord(rs[1..])
      case None => None
      case Some(k) => Some(k + 1)
  }

  /** The SQLSTATE loop of oledb_err.c:117-127: it stops at the first
      record whose GetSQLInfo succeeded and keeps that state. */
  method FirstSqlState(rs: seq<Record>) returns (found: Option<nat>, state: Option<string>)
    ensures found == FirstSqlRecord(rs)
    ensures state == if found.Some? then rs[found.value].sqlInfo.value.state else None
  {
    var i := 0;
    while i < |rs|
      invariant 0 <= i <= |rs|
      invariant forall j :: 0 <= j < i ==> !SqlSucceeds(rs[j])
    {
      if rs[i].sqlInfo.Some? && Succeeded(rs[i].sqlInfo.value.hr) {
        FirstUnique(rs, i);
        return Some(i), rs[i].sqlInfo.value.state;
      }
      i := i + 1;
    }
    FirstUnique(rs, |rs|);
    found, state := None, None;
  }

  /** The first success is unique: an index with a success and none
      before it (or none at all) is what FirstSqlRecord names. */
  lemma FirstUnique(rs: seq<Record>, i: nat)
    requires i <= |rs| && forall j :: 0 <= j < i ==> !SqlSucceeds(rs[j])
    requires i < |rs| ==> SqlSucceeds(rs[i])
    ensures FirstSqlRecord(rs) == if i < |rs| then Some(i) else None
  {
    var f := FirstSqlRecord(rs);
    if f.Some? {
      assert !(f.value < i) && !(i < f.value && i < |rs|);
    }
  }

  // ------------------------------------------------------ the error update

  /** The error object COM hands back: the records behind IErrorRecords
      (None when the object has no such interface) and the object's own
      description. */
  datatype ErrorObject = ErrorObject(records: Option<seq<Record>>, description: Option<string>)

  function Descriptions(rs: seq<Record>): (d: seq<Option<string>>)
    ensures |d| == |rs| && forall i :: 0 <= i < |rs| ==> d[i] == rs[i].description
  {
    seq(|rs|, i requires 0 <= i < |rs| => rs[i].description)
  }

  /** The description the object yields: the joined record descriptions,
      or the object's own. */
  function ObjectDescription(obj: ErrorObject): Option<string>
  {
    if obj.records.Some? then Some(JoinWithSpaces(Kept(Descriptions(obj.records.value)))) else obj.description
  }

  /** The SQLSTATE the object yields, if any. */
  function ObjectState(obj: ErrorObject): Option<string>
  {
    if obj.records.None? then None
    else
      var rs := obj.records.value;
      var f := FirstSqlRecord(rs);
      if f.Some? then rs[f.value].sqlInfo.value.state else None
  }

  /** The error code after a failure (oledb_err.c:129-140): a converted
      state of at most five characters, the previous code when the state
      is longer, "58004" when there is none. */
  function StateFrom(previous: string, state: Option<string>, toOutput: string -> string): (r: string)
    ensures state.None? ==> r == UNKNOWN_STATE
    ensures state.Some? && |toOutput(state.value)| <= STATE_CAPACITY ==> r == toOutput(state.value)
    ensures state.Some? && |toOutput(state.value)| > STATE_CAPACITY ==> r == previous
  {
    match state
    case None => UNKNOWN_STATE
    case Some(s) => if |toOutput(s)| <= STATE_CAPACITY then toOutput(s) else previous
  }

  /** As written, a failure without an error object leaves the code
      untouched (oledb_err.c:159-184 never writes it). */
  function StateWithoutObjectAsWritten(previous: string): string
  {
    previous
  }

  /** Corrected: such a failure is reported with "58004" too. */
  function StateWithoutObject(previous: string): string
  {
    UNKNOWN_STATE
  }

  /** As written, a failure reported after the code was cleared carries
      the success code "00000". */
  lemma FailureReportedAsNoneAsWritten()
    ensures StateWithoutObjectAsWritten(PDO_ERR_NONE) == PDO_ERR_NONE
  {
  }

  /** Corrected, a failure without an error object is reported with
      "58004", never with the success code. */
  lemma FailureWithoutObjectFlagged(previous: string, result: HResult, toOutput: string -> string)
    requires !Succeeded(result)
    ensures NewState(previous, result, None, toOutput) == UNKNOWN_STATE != PDO_ERR_NONE
  {
  }

  /** The error code after reporting `result`. */
  function NewState(previous: string, result: HResult, obj: Option<ErrorObject>, toOutput: string -> string): string
  {
    if Succeeded(result) then PDO_ERR_NONE
    else if obj.Some? then StateFrom(previous, ObjectState(obj.value), toOutput)
    else StateWithoutObject(previous)
  }

  /** The message after reporting `result`: the object's converted
      description; without an object the text table's entry, else the
      system's message text; nothing on success. */
  function NewMessage(result: HResult, obj: Option<ErrorObject>, tableText: Option<string>, systemText: Option<string>,
                      toOutput: string -> string): (m: Option<string>)
    ensures Succeeded(result) ==> m.None?
    ensures !Succeeded(result) && obj.None? ==> m == if tableText.Some? then tableText else systemText
    ensures !Succeeded(result) && obj.Some? ==>
      (m.Some? <==> ObjectDescription(obj.value).Some?) && (m.Some? ==> m.value == toOutput(ObjectDescription(obj.value).value))
  {
    if Succeeded(result) then None
    else if obj.Some? then
      match ObjectDescription(obj.value)
      case None => None
      case Some(text) => Some(toOutput(text))
    else if tableText.Some? then tableText
    else systemText
  }

  /** The exception raised while connecting. */
  datatype Exception = Exception(state: string, code: HResult, message: Option<string>)

  /** pdo_oledb_error_info together with the error code buffer it goes with:
      those of the statement, or those of the connection. */
  class ErrorContext {
    var state: string
    var errcode: HResult
    var errmsg: Option<string>
    var file: string
    var line: int

    constructor ()
      ensures state == PDO_ERR_NONE && errcode == S_OK && errmsg.None? && file == "" && line == 0
    {
      state := PDO_ERR_NONE;
      errcode := S_OK;
      errmsg := None;
      file := "";
      line := 0;
    }
  }

  /** _pdo_oledb_error.  Nothing happens without a driver handle.  The
      statement's context takes the error when there is a statement, the
      connection's otherwise; the error number, file and line are always
      overwritten and the old message dropped.  `errorObject` is what
      GetErrorInfo handed over; `hasMethods` is false only while the
      connection is being made, when a failure also raises an
      exception. */
  method ReportError(hasHandle: bool, dbh: ErrorContext, stmt: ErrorContext?, result: HResult, file: string, line: int,
                     errorObject: Option<ErrorObject>, tableText: Option<string>, systemText: Option<string>,
                     toOutput: string -> string, hasMethods: bool)
    returns (raised: Option<Exception>)
    requires stmt != dbh
    modifies dbh, stmt
    ensures !hasHandle ==> raised.None? && unchanged(dbh) && (stmt != null ==> unchanged(stmt))
    ensures hasHandle && stmt != null ==> unchanged(dbh)
    ensures hasHandle ==>
      var t := if stmt != null then stmt else dbh;
      && t.errcode == result && t.file == file && t.line == line
      && t.errmsg == NewMessage(result, errorObject, tableText, systemText, toOutput)
      && t.state == NewState(old(t.state), result, errorObject, toOutput)
      && raised == if !Succeeded(result) && !hasMethods then Some(Exception(t.state, result, t.errmsg)) else None
  {
    if !hasHandle {
      return None;
    }
    var t := if stmt != null then stmt else dbh;
    t.file, t.line, t.errcode := file, line, result;
    if !Succeeded(result) {
      if errorObject.Some? {
        t.state, t.errmsg := ReadErrorObject(t.state, errorObject.value, toOutput);
      } else {
        t.state := StateWithoutObject(t.state);
        t.errmsg := if tableText.Some? then tableText else systemText;
      }
      raised := if !hasMethods then Some(Exception(t.state, t.errcode, t.errmsg)) else None;
    } else {
      t.state, t.errmsg := PDO_ERR_NONE, None;
      raised := None;
    }
  }

  /** The part of oledb_err.c:68-157 that reads the error object: the
      joined record descriptions (or the object's own) and the SQLSTATE of
      the first record that gives one, as they end up in the error code and
      message. */
  method ReadErrorObject(previous: string, obj: ErrorObject, toOutput: string -> string)
    returns (state: string, message: Option<string>)
    ensures state == StateFrom(previous, ObjectState(obj), toOutput)
    ensures message == if ObjectDescription(obj).Some? then Some(toOutput(ObjectDescription(obj).value)) else None
  {
    var description: Option<string>;
    var sqlState: Option<string> := None;
    if obj.records.Some? {
      var joined, _ := JoinDescriptions(Descriptions(obj.records.value));
      description := Some(joined);
      var _, s := FirstSqlState(obj.records.value);
      sqlState := s;
    } else {
      description := obj.description;
    }
    state := previous;
    if sqlState.Some? {
      var converted := toOutput(sqlState.value);
      if |converted| <= STATE_CAPACITY {
        state := converted;
      }
    } else {
      state := UNKNOWN_STATE;
    }
    message := None;
    if description.Some? {
      message := Some(toOutput(description.value));
    }
  }

  /** A success clears the code and the message. */
  lemma SuccessClears(previous: string, result: HResult, obj: Option<ErrorObject>, tableText: Option<string>,
                      systemText: Option<string>, toOutput: string -> string)
    requires Succeeded(result)
    ensures NewState(previous, result, obj, toOutput) == PDO_ERR_NONE
    ensures NewMessage(result, obj, tableText, systemText, toOutput).None?
  {
  }

  // ------------------------------------------------ the driver's error object

  /** The interfaces of the driver's error object. */
  datatype ErrorIid = IidUnknown | IidErrorInfo | IidErrorRecords | IidSqlErrorInfo | IidOtherError

  /** oledb_error_info: one record with the description and SQLSTATE it was
      made with.  `freed` records that the last Release freed it. */
  class AutomationError {
    const description: string
    const sqlcode: string
    var refcount: nat
    var freed: bool

    constructor (description: string, sqlcode: string)
      ensures this.description == description && this.sqlcode == sqlcode && refcount == 0 && !freed
    {
      this.description := description;
      this.sqlcode := sqlcode;
      refcount := 0;
      freed := false;
    }

    /** oledb_error_info_QueryInterface: all three interfaces (and
        IUnknown) are the object itself, with a new reference. */
    method QueryInterface(iid: ErrorIid) returns (hr: HResult, granted: bool)
      modifies this`refcount
      ensures granted <==> iid != IidOtherError
      ensures granted ==> hr == S_OK && refcount == old(refcount) + 1
      ensures !granted ==> hr == E_NOINTERFACE && refcount == old(refcount)
    {
      if iid == IidOtherError {
        return E_NOINTERFACE, false;
      }
      var _ := AddRef();
      hr, granted := S_OK, true;
    }

    method AddRef() returns (count: nat)
      modifies this`refcount
      ensures refcount == old(refcount) + 1 && count == refcount
    {
      refcount := refcount + 1;
      count := refcount;
    }

    /** The last reference frees the object with its strings. */
    method Release() returns (count: nat)
      requires refcount > 0 && !freed
      modifies this`refcount, this`freed
      ensures refcount == old(refcount) - 1 && count == refcount
      ensures freed <==> count == 0
    {
      refcount := refcount - 1;
      count := refcount;
      freed := refcount == 0;
    }

    /** IErrorRecords_GetRecordCount: always one record. */
    function GetRecordCount(): (n: nat)
      ensures n == 1
    {
      1
    }

    /** ISQLErrorInfo_GetSQLInfo: the SQLSTATE, native error -1, S_OK. */
    function GetSqlInfo(): (r: (HResult, string, int))
      reads this
      ensures r == (S_OK, sqlcode, -1)
    {
      (S_OK, sqlcode, -1)
    }

    /** What _pdo_oledb_error finds behind the object: IErrorRecords with
        GetRecordCount records, each record's IErrorInfo giving this
        description and its ISQLErrorInfo this SQLSTATE. */
    function View(): (obj: ErrorObject)
      reads this
      ensures obj.records.Some? && |obj.records.value| == GetRecordCount()
    {
      var info := GetSqlInfo();
      ErrorObject(Some([Record(Some(description), Some(SqlInfo(info.0, Some(info.1))))]), Some(description))
    }
  }

  /** oledb_set_automation_error: the object is created with no reference,
      queried for IErrorInfo, given to SetErrorInfo (which takes its own
      reference) and the query's reference is dropped, so the thread's
      error slot holds the only one. */
  method SetAutomationError(message: string, sqlcode: string) returns (obj: AutomationError)
    ensures fresh(obj) && obj.description == message && obj.sqlcode == sqlcode
    ensures obj.refcount == 1 && !obj.freed
  {
    obj := new AutomationError(message, sqlcode);
    var _, _ := obj.QueryInterface(IidErrorInfo);
    var _ := obj.AddRef();
    var _ := obj.Release();
  }

  /** A failure reported right after oledb_set_automation_error carries
      that description as its message and that SQLSTATE as its code (when
      it fits five characters). */
  lemma AutomationErrorReported(message: string, sqlcode: string, previous: string, result: HResult,
                                tableText: Option<string>, systemText: Option<string>, toOutput: string -> string)
    requires !Succeeded(result)
    ensures var obj := ErrorObject(Some([Record(Some(message), Some(SqlInfo(S_OK, Some(sqlcode))))]), Some(message));
      && NewMessage(result, Some(obj), tableText, systemText, toOutput) == Some(toOutput(message))
      && (|toOutput(sqlcode)| <= STATE_CAPACITY ==> NewState(previous, result, Some(obj), toOutput) == toOutput(sqlcode))
  {
    var rs := [Record(Some(message), Some(SqlInfo(S_OK, Some(sqlcode))))];
    assert Descriptions(rs) == [Some(message)];
    assert Kept([Some(message)]) == [message] by {
      assert [Some(message)][..0] == [];
    }
    assert FirstSqlRecord(rs) == Some(0);
  }
}
