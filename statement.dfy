// The statement's rowset and parameter bookkeeping (oledb_stmt.c): clearing
// a rowset, binding its columns into the row buffer, copying bound
// parameters into the parameter buffer, moving the cursor, describing
// columns and reading a column value.
//
// Every provider call the statement makes is recorded, in order, in
// `calls`; what the provider answers comes in as parameters of the method
// that makes the call.

module Statement {
  import opened OleDbInt
  import opened Layout
  import opened Columns
  import Params
  import InputBuffer
  import FetchPlans

  /** The accessor binding built for a bound result column. */
  datatype RowBinding = RowBinding(
    ordinal: nat, wType: DbType, providerOwned: bool,
    obStatus: nat, obLength: Option<nat>, obValue: nat, cbMaxLen: nat)

  /** The provider calls the model follows. */
  datatype Call =
    | ReleaseRows(hRow: nat)
    | ReleaseAccessor(handle: nat)
    | ReleaseInterface(id: nat)
    | CreateRowAccessor(rowBindings: seq<RowBinding>)
    | CreateParamAccessor(paramBindings: seq<InputBuffer.ParamBinding>, size: nat)
    | AddRefStream(param: nat)
    | RestartPosition
    | GetNextRows(rowOffset: int, rowsToFetch: int)
    | GetData(row: nat, accessor: nat)

  /** What oledb_stmt_create_columns reports: its status and the column
      records it made (names built, provider metadata copied in). */
  datatype CreatedColumns = CreatedColumns(hr: HResult, columns: seq<Column>)

  /** What QueryInterface answers: its status and the interface, if any. */
  datatype Interface = Interface(hr: HResult, iface: Option<nat>)

  /** The DBPARAMS handed to Execute. */
  datatype DbParams = DbParams(pData: array<Byte>, cParamSets: nat, hAccessor: nat)

  // ------------------------------------------------------ clear_rowset

  /** The ReleaseAccessor calls for the columns' own (long-column) accessors,
      in column order. */
  function ColumnAccessorReleases(cols: seq<Column>): (r: seq<Call>)
    decreases |cols|
  {
    if cols == [] then []
    else
      var c := cols[|cols| - 1];
      ColumnAccessorReleases(cols[..|cols| - 1]) + (if c.hAccessorColumn != 0 then [ReleaseAccessor(c.hAccessorColumn)] else [])
  }

  /** Every column accessor handle is released, and nothing else is. */
  lemma {:induction false} ColumnAccessorReleasesExactly(cols: seq<Column>, h: nat)
    ensures ReleaseAccessor(h) in ColumnAccessorReleases(cols) <==>
      h != 0 && exists i :: 0 <= i < |cols| && cols[i].hAccessorColumn == h
    ensures forall call <- ColumnAccessorReleases(cols) :: call.ReleaseAccessor?
    ensures |ColumnAccessorReleases(cols)| <= |cols|
    decreases |cols|
  {
    if cols != [] {
      var init := cols[..|cols| - 1];
      ColumnAccessorReleasesExactly(init, h);
      if h != 0 && exists i :: 0 <= i < |cols| && cols[i].hAccessorColumn == h {
        var i :| 0 <= i < |cols| && cols[i].hAccessorColumn == h;
        if i < |cols| - 1 {
          assert init[i].hAccessorColumn == h;
        }
      }
      if h != 0 && exists i :: 0 <= i < |init| && init[i].hAccessorColumn == h {
        var i :| 0 <= i < |init| && init[i].hAccessorColumn == h;
        assert cols[i].hAccessorColumn == h;
      }
    }
  }

  /** The loop of oledb_stmt_clear_rowset over the columns' accessors. */
  method ReleaseColumnAccessors(cols: seq<Column>) returns (released: seq<Call>)
    ensures released == ColumnAccessorReleases(cols)
  {
    released := [];
    var i := 0;
    while i < |cols|
      invariant 0 <= i <= |cols|
      invariant released == ColumnAccessorReleases(cols[..i])
    {
      assert cols[..i + 1][..i] == cols[..i];
      if cols[i].hAccessorColumn != 0 {
        released := released + [ReleaseAccessor(cols[i].hAccessorColumn)];
      }
      i := i + 1;
    }
    assert cols[..i] == cols;
  }

  /** The provider calls of oledb_stmt_clear_rowset, given those of the
      column loop: the current row, then the row accessor, the column
      accessors and the accessor interface when there is one, then the
      rowset. */
  function ReleaseCalls(hRow: nat, rowset: Option<nat>, accessor: Option<nat>, hAccessorRowset: nat, perColumn: seq<Call>): seq<Call>
  {
    (if hRow != 0 then [ReleaseRows(hRow)] else [])
    + (if accessor.Some? then
         (if hAccessorRowset != 0 then [ReleaseAccessor(hAccessorRowset)] else [])
         + perColumn + [ReleaseInterface(accessor.value)]
       else [])
    + (if rowset.Some? then [ReleaseInterface(rowset.value)] else [])
  }

  function ClearCalls(hRow: nat, rowset: Option<nat>, accessor: Option<nat>, hAccessorRowset: nat, cols: seq<Column>): seq<Call>
  {
    ReleaseCalls(hRow, rowset, accessor, hAccessorRowset, ColumnAccessorReleases(cols))
  }

  // ------------------------------------------------------ bind_columns

  function ColumnSlots(cs: seq<Column>): (r: seq<Slot>)
    ensures |r| == |cs|
    ensures forall k :: 0 <= k < |cs| ==> r[k] == ColumnSlot(cs[k])
  {
    seq(|cs|, k requires 0 <= k < |cs| => ColumnSlot(cs[k]))
  }

  /** A column bind: the column as created and its blob accessor's outcome
      to the bind's status and the column it leaves. */
  type Binder = (Column, AccessorResult) -> BindOutcome

  /** oledb_stmt_bind_column under the statement's flags. */
  function BindUnder(stmtFlags: Dword): Binder
  {
    (c: Column, blob: AccessorResult) => BindColumn(c, stmtFlags, blob)
  }

  /** Each column after its bind, `blobs` being what the provider answered
      for the long columns' own accessors. */
  function Binds(cols: seq<Column>, blobs: seq<AccessorResult>, bind: Binder): (r: seq<Column>)
    requires |blobs| == |cols|
    ensures |r| == |cols|
    ensures forall k :: 0 <= k < |cols| ==> r[k] == bind(cols[k], blobs[k]).column
  {
    seq(|cols|, k requires 0 <= k < |cols| => bind(cols[k], blobs[k]).column)
  }

  /** A column with bytes remembers where its entry starts. */
  function PlaceAt(c: Column, at: nat): (r: Column)
    ensures r.byteOffset == (if c.byteCount > 0 then at else c.byteOffset)
    ensures ColumnSlot(r) == ColumnSlot(c)
  {
    if c.byteCount > 0 then c.(byteOffset := at) else c
  }

  /** The bound columns placed at their layout offsets. */
  function Placed(bs: seq<Column>): (r: seq<Column>)
    ensures |r| == |bs|
    ensures forall k :: 0 <= k < |bs| ==> r[k] == PlaceAt(bs[k], OffsetOf(ColumnSlots(bs), k))
  {
    seq(|bs|, k requires 0 <= k < |bs| => PlaceAt(bs[k], OffsetOf(ColumnSlots(bs), k)))
  }

  /** The binding of a placed column: status at its offset, the length next
      when variable, then the value; owned by the provider when fetched by
      reference. */
  function RowBindingOf(c: Column): RowBinding
  {
    var variable := Has(c.flags, VARIABLE_LENGTH);
    RowBinding(c.ordinal, c.retrievalType, c.retrievalType & DBTYPE_BYREF != 0,
      c.byteOffset, if variable then Some(c.byteOffset + SIZEOF_DWORD) else None,
      ValueOffset(c.byteOffset, variable), c.byteCount)
  }

  /** The bindings of the columns with bytes, in column order. */
  function RowBindings(cs: seq<Column>): (r: seq<RowBinding>)
    decreases |cs|
  {
    if cs == [] then []
    else
      var c := cs[|cs| - 1];
      RowBindings(cs[..|cs| - 1]) + (if c.byteCount > 0 then [RowBindingOf(c)] else [])
  }

  /** The status of each column's bind. */
  function BindStatuses(cols: seq<Column>, blobs: seq<AccessorResult>, bind: Binder): (r: seq<HResult>)
    requires |blobs| == |cols|
    ensures |r| == |cols|
    ensures forall k :: 0 <= k < |cols| ==> r[k] == bind(cols[k], blobs[k]).hr
  {
    seq(|cols|, k requires 0 <= k < |cols| => bind(cols[k], blobs[k]).hr)
  }

  /** The first failed status, or |hrs| when none failed. */
  function FirstFailure(hrs: seq<HResult>): (k: nat)
    ensures k <= |hrs|
    ensures forall j :: 0 <= j < k ==> Succeeded(hrs[j])
    ensures k < |hrs| ==> !Succeeded(hrs[k])
  {
    if hrs == [] || !Succeeded(hrs[0]) then 0 else 1 + FirstFailure(hrs[1..])
  }

  lemma FirstFailureAt(hrs: seq<HResult>, i: nat)
    requires i <= |hrs| && forall j :: 0 <= j < i ==> Succeeded(hrs[j])
    requires i < |hrs| ==> !Succeeded(hrs[i])
    ensures FirstFailure(hrs) == i
  {
  }

  /** The columns when the bind of column k fails: those before it bound and
      placed, column k as the failed bind left it, the rest as created. */
  function PartlyBound(cols: seq<Column>, blobs: seq<AccessorResult>, bind: Binder, k: nat): (r: seq<Column>)
    requires |blobs| == |cols| && k < |cols|
    ensures |r| == |cols|
  {
    var bs := Binds(cols, blobs, bind);
    Placed(bs)[..k] + [bs[k]] + cols[k + 1..]
  }

  /** erealloc of the row buffer to n bytes: what it held is kept up to n.
      The bytes it adds are modelled as zeros; the provider overwrites every
      bound entry on each fetch. */
  function Realloc(buf: Option<seq<Byte>>, n: nat): (r: seq<Byte>)
    ensures |r| == n
    ensures buf.Some? && n <= |buf.value| ==> r == buf.value[..n]
    ensures buf.Some? && |buf.value| <= n ==> r[..|buf.value|] == buf.value
  {
    var before := if buf.Some? then buf.value else [];
    if n <= |before| then before[..n] else before + InputBuffer.Zeros(n - |before|)
  }

  /** One bound column of the loop: the ADVANCE_OFFSET steps from entry i's
      offset put the status there, the length 4 bytes on when variable, the
      value after them, and end at entry i + 1. */
  lemma BindingStep(slots: seq<Slot>, i: nat, c: Column, next: nat)
    requires i < |slots| && slots[i] == ColumnSlot(c) && c.byteCount > 0 && next == Sum(slots[..i])
    ensures AdvanceOffset(next, SIZEOF_DWORD) == next + SIZEOF_DWORD
    ensures AdvanceOffset(next + SIZEOF_DWORD, SIZEOF_DBLENGTH) == next + SIZEOF_DWORD + SIZEOF_DBLENGTH
    ensures AdvanceOffset(ValueOffset(next, Has(c.flags, VARIABLE_LENGTH)), c.byteCount) == Sum(slots[..i + 1])
  {
    LayoutStep(slots, i);
  }



  /** Extending a prefix by the next element. */
  lemma PrefixStep<T>(s: seq<T>, i: nat, c: T)
    requires i < |s| && s[i] == c
    ensures s[..i] + [c] == s[..i + 1]
    ensures s[..i + 1][..i] == s[..i]
  {
  }

  /** One column's binding in oledb_stmt_bind_columns: the status at the
      current offset, the length after it when variable, then the value,
      advancing past each; the offset ends where the next entry starts. */
  method AppendRowBinding(ghost slots: seq<Slot>, ghost i: nat, c: Column, start: nat) returns (b: RowBinding, next: nat)
    requires i < |slots| && slots[i] == ColumnSlot(c) && c.byteCount > 0
    requires start == Sum(slots[..i]) && c.byteOffset == start
    ensures b == RowBindingOf(c)
    ensures next == Sum(slots[..i + 1])
  {
    BindingStep(slots, i, c, start);
    next := start;
    var obStatus := next;
    next := AdvanceOffset(next, SIZEOF_DWORD);
    var obLength: Option<nat> := None;
    if Has(c.flags, VARIABLE_LENGTH) {
      obLength := Some(next);
      next := AdvanceOffset(next, SIZEOF_DBLENGTH);
    }
    var obValue := next;
    assert obValue == ValueOffset(obStatus, Has(c.flags, VARIABLE_LENGTH));
    next := AdvanceOffset(next, c.byteCount);
    b := RowBinding(c.ordinal, c.retrievalType, c.retrievalType & DBTYPE_BYREF != 0,
                    obStatus, obLength, obValue, c.byteCount);
  }

  /** What the column loop leaves: the bind status, the columns, the row
      size reached and the bindings built. */
  function BindLoop(cols: seq<Column>, blobs: seq<AccessorResult>, bind: Binder): (HResult, seq<Column>, nat, seq<RowBinding>)
    requires |blobs| == |cols|
  {
    var bs := Binds(cols, blobs, bind);
    var k := FirstFailure(BindStatuses(cols, blobs, bind));
    if k == |cols| then (S_OK, Placed(bs), Sum(ColumnSlots(bs)), RowBindings(Placed(bs)))
    else (BindStatuses(cols, blobs, bind)[k], PartlyBound(cols, blobs, bind, k),
          Sum(ColumnSlots(bs)[..k]), RowBindings(Placed(bs)[..k]))
  }

  /** The column loop after its first i rounds: all i binds succeeded, the
      row offset is past their entries, and the columns and bindings built so
      far are those of the first i placed columns. */
  ghost predicate BindProgress(bs: seq<Column>, hrs: seq<HResult>, i: nat, next: nat, done: seq<Column>, bindings: seq<RowBinding>)
  {
    && i <= |bs| == |hrs|
    && (forall j :: 0 <= j < i ==> Succeeded(hrs[j]))
    && next == Sum(ColumnSlots(bs)[..i])
    && done == Placed(bs)[..i]
    && bindings == RowBindings(Placed(bs)[..i])
  }

  /** One successful round of the column loop: place the bound column and,
      when it has bytes, build its binding. */
  method PlaceBound(ghost bs: seq<Column>, ghost hrs: seq<HResult>, ghost i: nat, b: Column,
                    next: nat, done: seq<Column>, bindings: seq<RowBinding>)
    returns (next': nat, done': seq<Column>, bindings': seq<RowBinding>)
    requires BindProgress(bs, hrs, i, next, done, bindings)
    requires i < |bs| && bs[i] == b && Succeeded(hrs[i])
    ensures BindProgress(bs, hrs, i + 1, next', done', bindings')
  {
    ghost var slots := ColumnSlots(bs);
    ghost var placed := Placed(bs);
    var c := PlaceAt(b, next);
    assert c == placed[i] && slots[i] == ColumnSlot(c);
    if c.byteCount > 0 {
      var rb;
      rb, next' := AppendRowBinding(slots, i, c, next);
      bindings' := bindings + [rb];
    } else {
      LayoutSkip(slots, i);
      next', bindings' := next, bindings;
    }
    PrefixStep(placed, i, c);
    done' := done + [c];
  }

  /** The loop's result once every column is bound. */
  lemma BindLoopComplete(cols: seq<Column>, blobs: seq<AccessorResult>, bind: Binder,
                         next: nat, done: seq<Column>, bindings: seq<RowBinding>)
    requires |blobs| == |cols|
    requires BindProgress(Binds(cols, blobs, bind), BindStatuses(cols, blobs, bind), |cols|, next, done, bindings)
    ensures BindLoop(cols, blobs, bind) == (S_OK, done, next, bindings)
  {
    var bs := Binds(cols, blobs, bind);
    FirstFailureAt(BindStatuses(cols, blobs, bind), |cols|);
    assert ColumnSlots(bs)[..|cols|] == ColumnSlots(bs) && Placed(bs)[..|cols|] == Placed(bs);
  }

  /** The loop's result when the bind of column i fails. */
  lemma BindLoopStopped(cols: seq<Column>, blobs: seq<AccessorResult>, bind: Binder, i: nat,
                        next: nat, done: seq<Column>, bindings: seq<RowBinding>)
    requires |blobs| == |cols| && i < |cols|
    requires BindProgress(Binds(cols, blobs, bind), BindStatuses(cols, blobs, bind), i, next, done, bindings)
    requires !Succeeded(bind(cols[i], blobs[i]).hr)
    ensures BindLoop(cols, blobs, bind)
      == (bind(cols[i], blobs[i]).hr, done + [bind(cols[i], blobs[i]).column] + cols[i + 1..], next, bindings)
  {
    FirstFailureAt(BindStatuses(cols, blobs, bind), i);
  }

  /** The column loop of oledb_stmt_bind_columns: binds each column in turn
      and, for each column with bytes, records its offset and builds its
      binding while advancing the row offset; it stops at the first column
      whose bind fails. */
  method BindColumnsLoop(cols: seq<Column>, blobs: seq<AccessorResult>, bind: Binder)
    returns (hr: HResult, bound: seq<Column>, next: nat, bindings: seq<RowBinding>)
    requires |blobs| == |cols|
    ensures (hr, bound, next, bindings) == BindLoop(cols, blobs, bind)
  {
    ghost var bs := Binds(cols, blobs, bind);
    ghost var hrs := BindStatuses(cols, blobs, bind);
    next := 0;
    var done: seq<Column> := [];
    bindings := [];
    var i := 0;
    while i < |cols|
      invariant BindProgress(bs, hrs, i, next, done, bindings)
    {
      var out := bind(cols[i], blobs[i]);
      if !Succeeded(out.hr) {
        BindLoopStopped(cols, blobs, bind, i, next, done, bindings);
        hr, bound := out.hr, done + [out.column] + cols[i + 1..];
        return;
      }
      assert out.column == bs[i] && out.hr == hrs[i];
      next, done, bindings := PlaceBound(bs, hrs, i, out.column, next, done, bindings);
      i := i + 1;
    }
    assert i == |cols|;
    BindLoopComplete(cols, blobs, bind, next, done, bindings);
    hr, bound := S_OK, done;
  }

  // ------------------------------------------------- copy_bound_params

  /** One parameter's binding in the first loop of
      oledb_stmt_copy_bound_params: the status at the current offset, the
      length after it when variable, then the value when there are bytes or
      a length; the offset ends where the next entry starts. */
  method AppendParamBinding(ghost slots: seq<Slot>, ghost i: nat, p: Params.Param, start: nat)
    returns (b: InputBuffer.ParamBinding, next: nat)
    requires i < |slots| && slots[i] == InputBuffer.EntrySlot(InputBuffer.EntryOf(p))
    requires start == Sum(slots[..i])
    ensures InputBuffer.BindingAt(b, p, start)
    ensures next == Sum(slots[..i + 1])
  {
    LayoutStep(slots, i);
    SumAligned(slots[..i]);
    var variable := Has(p.flags, VARIABLE_LENGTH);
    next := start;
    var obStatus := next;
    next := AdvanceOffset(next, SIZEOF_DWORD);
    var obLength: Option<nat> := None;
    var cbMaxLen: nat := 0;
    if variable {
      obLength, cbMaxLen := Some(next), p.byteCount;
      next := AdvanceOffset(next, SIZEOF_DBLENGTH);
    }
    var obValue: Option<nat> := None;
    if p.byteCount > 0 || variable {
      obValue := Some(next);
      next := AdvanceOffset(next, p.byteCount);
    } else {
      assert next == ValueOffset(start, variable);
    }
    b := InputBuffer.ParamBinding(p.ordinal, p.retrievalType, p.ioFlags, p.retrievalType & DBTYPE_BYREF != 0,
                                  obStatus, obLength, cbMaxLen, obValue);
  }

  /** The first loop of oledb_stmt_copy_bound_params: every parameter, in
      order, gets its entry offset (P->byteOffset) and a binding at that
      offset, and the offset ends at the buffer size. */
  method LayoutParams(ps: seq<Params.Param>) returns (bindings: seq<InputBuffer.ParamBinding>, offsets: seq<nat>, size: nat)
    ensures |bindings| == |ps|
    ensures forall k :: 0 <= k < |ps| ==> InputBuffer.BindingAt(bindings[k], ps[k], OffsetOf(InputBuffer.EntrySlots(InputBuffer.Entries(ps)), k))
    ensures offsets == InputBuffer.Offsets(InputBuffer.Entries(ps))
    ensures size == Sum(InputBuffer.EntrySlots(InputBuffer.Entries(ps)))
  {
    ghost var slots := InputBuffer.EntrySlots(InputBuffer.Entries(ps));
    ghost var offs := InputBuffer.Offsets(InputBuffer.Entries(ps));
    bindings, offsets, size := [], [], 0;
    var i := 0;
    while i < |ps|
      invariant 0 <= i <= |ps|
      invariant LaidOut(ps, i, bindings, offsets, size)
    {
      bindings, offsets, size := LayoutNext(ps, i, bindings, offsets, size);
      i := i + 1;
    }
    assert offsets == offs;
    assert slots[..|ps|] == slots;
  }

  /** The first loop's invariant after i parameters. */
  ghost predicate LaidOut(ps: seq<Params.Param>, i: nat, bindings: seq<InputBuffer.ParamBinding>, offsets: seq<nat>, size: nat)
    requires i <= |ps|
  {
    var offs := InputBuffer.Offsets(InputBuffer.Entries(ps));
    && |bindings| == i && offsets == offs[..i]
    && (forall k :: 0 <= k < i ==> InputBuffer.BindingAt(bindings[k], ps[k], offs[k]))
    && size == Sum(InputBuffer.EntrySlots(InputBuffer.Entries(ps))[..i])
  }

  /** One round of the first loop: parameter i's offset and binding. */
  method LayoutNext(ps: seq<Params.Param>, i: nat, bindings: seq<InputBuffer.ParamBinding>, offsets: seq<nat>, size: nat)
    returns (bindings': seq<InputBuffer.ParamBinding>, offsets': seq<nat>, size': nat)
    requires i < |ps| && LaidOut(ps, i, bindings, offsets, size)
    ensures LaidOut(ps, i + 1, bindings', offsets', size')
  {
    ghost var slots := InputBuffer.EntrySlots(InputBuffer.Entries(ps));
    ghost var offs := InputBuffer.Offsets(InputBuffer.Entries(ps));
    assert slots[i] == InputBuffer.EntrySlot(InputBuffer.EntryOf(ps[i]));
    assert offs[i] == size;
    offsets' := offsets + [size];
    var b;
    b, size' := AppendParamBinding(slots, i, ps[i], size);
    bindings' := bindings + [b];
    assert offsets' == offs[..i + 1];
  }

  /** The streams the fill loop takes a reference on: those of the input
      parameters with bytes, by position. */
  function StreamAddRefs(ps: seq<Params.Param>): (r: seq<Call>)
    decreases |ps|
  {
    if ps == [] then []
    else
      var n := |ps| - 1;
      StreamAddRefs(ps[..n])
        + (if InputBuffer.Present(InputBuffer.EntryOf(ps[n])) && ps[n].stream then [AddRefStream(n)] else [])
  }

  /** A stream is referenced exactly when its parameter is an input with
      bytes that travels as a stream, and at most once. */
  lemma {:induction false} StreamAddRefsExactly(ps: seq<Params.Param>, k: nat)
    ensures AddRefStream(k) in StreamAddRefs(ps) <==>
      k < |ps| && InputBuffer.Present(InputBuffer.EntryOf(ps[k])) && ps[k].stream
    ensures forall j :: 0 <= j < |StreamAddRefs(ps)| ==> StreamAddRefs(ps)[j].AddRefStream? && StreamAddRefs(ps)[j].param < |ps|
    decreases |ps|
  {
    if ps != [] {
      var n := |ps| - 1;
      StreamAddRefsExactly(ps[..n], k);
      if k < n {
        assert ps[..n][k] == ps[k];
      }
    }
  }

  /** erealloc of the parameter buffer: a fresh array of n bytes holding
      what the old one held, up to n. */
  method ReallocArray(a: array?<Byte>, n: nat) returns (b: array<Byte>)
    ensures fresh(b) && b[..] == Realloc(if a == null then None else Some(a[..]), n)
  {
    ghost var want := Realloc(if a == null then None else Some(a[..]), n);
    b := new Byte[n];
    var k := 0;
    while k < n
      invariant 0 <= k <= n && b.Length == n
      invariant forall j :: 0 <= j < k ==> b[j] == want[j]
    {
      b[k] := if a != null && k < a.Length then a[k] else 0;
      k := k + 1;
    }
  }

  /** The second loop of oledb_stmt_copy_bound_params: each parameter's
      entry written at its offset, and a reference taken on each stream an
      input parameter with bytes carries.  `mems` holds, for each parameter,
      the byteCount bytes at its data pointer. */
  method FillParams(buf: array<Byte>, ps: seq<Params.Param>, mems: seq<seq<Byte>>, offsets: seq<nat>)
    returns (addRefs: seq<Call>)
    requires InputBuffer.MemFits(InputBuffer.Entries(ps), mems)
    requires offsets == InputBuffer.Offsets(InputBuffer.Entries(ps))
    requires buf.Length == Sum(InputBuffer.EntrySlots(InputBuffer.Entries(ps)))
    modifies buf
    ensures buf[..] == InputBuffer.Filled(old(buf[..]), InputBuffer.Entries(ps), mems)
    ensures addRefs == StreamAddRefs(ps)
  {
    ghost var es := InputBuffer.Entries(ps);
    ghost var init := buf[..];
    ghost var ws := InputBuffer.Writes(es, mems);
    InputBuffer.LayoutOrdered(es, mems);
    assert |es| == |ws| == |offsets| == |ps|;
    addRefs := [];
    var i := 0;
    while i < |ps|
      invariant 0 <= i <= |ps| && buf.Length == |init|
      invariant buf[..] == InputBuffer.Written(init, offsets, ws, i)
      invariant addRefs == StreamAddRefs(ps[..i])
    {
      addRefs := FillRound(buf, ps, mems, offsets, i, init, ws, addRefs);
      i := i + 1;
    }
    assert ps[..i] == ps;
    assert InputBuffer.Filled(init, es, mems) == InputBuffer.Written(init, offsets, ws, i);
  }

  /** One round of the second loop: entry i written, and its stream's
      reference taken when it has one. */
  method FillRound(buf: array<Byte>, ps: seq<Params.Param>, mems: seq<seq<Byte>>, offsets: seq<nat>, i: nat,
                   ghost init: seq<Byte>, ghost ws: seq<seq<Byte>>, addRefs: seq<Call>)
    returns (addRefs': seq<Call>)
    requires InputBuffer.MemFits(InputBuffer.Entries(ps), mems)
    requires offsets == InputBuffer.Offsets(InputBuffer.Entries(ps))
    requires buf.Length == Sum(InputBuffer.EntrySlots(InputBuffer.Entries(ps))) == |init|
    requires ws == InputBuffer.Writes(InputBuffer.Entries(ps), mems)
    requires InputBuffer.Ordered(offsets, ws, |init|)
    requires i < |ps| && buf[..] == InputBuffer.Written(init, offsets, ws, i)
    requires addRefs == StreamAddRefs(ps[..i])
    modifies buf
    ensures buf[..] == InputBuffer.Written(init, offsets, ws, i + 1)
    ensures addRefs' == StreamAddRefs(ps[..i + 1])
  {
    FillNext(buf, ps, mems, offsets, i, init, ws);
    AddRefsStep(ps, i);
    addRefs' := addRefs;
    if InputBuffer.Present(InputBuffer.EntryOf(ps[i])) && ps[i].stream {
      addRefs' := addRefs + [AddRefStream(i)];
    }
  }

  /** One round of the fill takes the reference of parameter i's stream,
      if any. */
  lemma AddRefsStep(ps: seq<Params.Param>, i: nat)
    requires i < |ps|
    ensures StreamAddRefs(ps[..i + 1]) ==
      if InputBuffer.Present(InputBuffer.EntryOf(ps[i])) && ps[i].stream then StreamAddRefs(ps[..i]) + [AddRefStream(i)]
      else StreamAddRefs(ps[..i])
  {
    assert ps[..i + 1][..i] == ps[..i];
    assert StreamAddRefs(ps[..i]) + [] == StreamAddRefs(ps[..i]);
  }

  /** One round of the fill: entry i written at its offset. */
  method FillNext(buf: array<Byte>, ps: seq<Params.Param>, mems: seq<seq<Byte>>, offsets: seq<nat>, i: nat,
                  ghost init: seq<Byte>, ghost ws: seq<seq<Byte>>)
    requires InputBuffer.MemFits(InputBuffer.Entries(ps), mems)
    requires offsets == InputBuffer.Offsets(InputBuffer.Entries(ps))
    requires buf.Length == Sum(InputBuffer.EntrySlots(InputBuffer.Entries(ps))) == |init|
    requires ws == InputBuffer.Writes(InputBuffer.Entries(ps), mems)
    requires InputBuffer.Ordered(offsets, ws, |init|)
    requires i < |ps| && buf[..] == InputBuffer.Written(init, offsets, ws, i)
    modifies buf
    ensures buf[..] == InputBuffer.Written(init, offsets, ws, i + 1)
  {
    InputBuffer.EntryBefore(InputBuffer.Entries(ps), i, |ps|);
    InputBuffer.FillEntry(buf, offsets[i], InputBuffer.EntryOf(ps[i]), mems[i]);
  }

  // ------------------------------------------------------ rowset state

  /** The statement fields the rowset operations change, with the provider
      calls made so far. */
  datatype Rowset = Rowset(
    hasColumns: bool, columns: seq<Column>,
    rowset: Option<nat>, accessorRowset: Option<nat>, hAccessorRowset: nat,
    hRow: nat, rowIndex: int,
    nextOutputOffset: nat, outputBuffer: Option<seq<Byte>>,
    calls: seq<Call>)

  /** No columns, no rowset, no accessor, no row, row index 0. */
  predicate IsCleared(r: Rowset)
  {
    && !r.hasColumns && r.columns == []
    && r.rowset.None? && r.accessorRowset.None? && r.hAccessorRowset == 0
    && r.hRow == 0 && r.rowIndex == 0
  }

  /** What oledb_stmt_clear_rowset leaves: the rowset fields reset, the row
      buffer and its size kept, and the release calls appended. */
  function Cleared(r: Rowset): Rowset
  {
    r.(hasColumns := false, columns := [], rowset := None, accessorRowset := None,
       hAccessorRowset := 0, hRow := 0, rowIndex := 0,
       calls := r.calls + ClearCalls(r.hRow, r.rowset, r.accessorRowset, r.hAccessorRowset, r.columns))
  }

  /** oledb_stmt_bind_columns on the rowset state, with the provider's
      answers: the created columns, the IAccessor query, each long column's
      own accessor and the row accessor.  Every failure clears the rowset;
      a query that fails without an interface does too, as does one that
      ... */
  function BindColumnsOn(r: Rowset, stmtFlags: Dword, created: CreatedColumns, qi: Interface,
                         blobs: seq<AccessorResult>, accessor: AccessorResult): (HResult, Rowset)
    requires Succeeded(created.hr) ==> |blobs| == |created.columns|
  {
    if !Succeeded(created.hr) then (created.hr, Cleared(r))
    else
      var r1 := r.(hasColumns := true, columns := created.columns, accessorRowset := qi.iface);
      if qi.iface.None? then (qi.hr, if Succeeded(qi.hr) then r1 else Cleared(r1))
      else BindRowsetOn(r1, BindLoop(created.columns, blobs, BindUnder(stmtFlags)), accessor)
  }

  /** The rest of oledb_stmt_bind_columns once the columns exist and the
      accessor interface is held: the column loop, then the row accessor
      and the row buffer when some column has bytes. */
  function BindRowsetOn(r: Rowset, loop: (HResult, seq<Column>, nat, seq<RowBinding>), accessor: AccessorResult): (HResult, Rowset)
  {
    var (bindHr, bound, size, bindings) := (loop.0, loop.1, loop.2, loop.3);
    var r2 := r.(columns := bound, nextOutputOffset := size);
    if !Succeeded(bindHr) then (bindHr, Cleared(r2))
    else if bindings == [] then (S_OK, r2)
    else
      var r3 := r2.(calls := r2.calls + [CreateRowAccessor(bindings)], hAccessorRowset := accessor.handle);
      if !Succeeded(accessor.hr) then (accessor.hr, Cleared(r3))
      else (accessor.hr, r3.(outputBuffer := Some(Realloc(r3.outputBuffer, size))))
  }

  // ------------------------------------------- properties of the bind

  /** The entry of a placed column with bytes: status, then length when
      variable, then value. */
  function EntryEnd(c: Column): nat
  {
    c.byteOffset + HeaderSize(Has(c.flags, VARIABLE_LENGTH)) + c.byteCount
  }

  /** Every placed column with bytes has its entry inside the row buffer,
      whose size is where the layout ends. */
  lemma PlacedEntryInside(bs: seq<Column>, k: nat)
    requires k < |bs| && bs[k].byteCount > 0
    ensures EntryEnd(Placed(bs)[k]) <= Sum(ColumnSlots(bs))
  {
    EntryInsideTotal(ColumnSlots(bs), k);
  }

  /** Placed entries follow each other in column order without overlapping,
      so their offsets strictly increase. */
  lemma PlacedEntriesDisjoint(bs: seq<Column>, j: nat, k: nat)
    requires j < k < |bs| && bs[j].byteCount > 0 && bs[k].byteCount > 0
    ensures EntryEnd(Placed(bs)[j]) <= Placed(bs)[k].byteOffset
    ensures Placed(bs)[j].byteOffset < Placed(bs)[k].byteOffset
  {
    Disjoint(ColumnSlots(bs), j, k);
  }

  /** The bindings are exactly those of the columns with bytes. */
  lemma {:induction false} RowBindingsFromColumns(cs: seq<Column>)
    ensures forall b <- RowBindings(cs) :: exists j :: 0 <= j < |cs| && cs[j].byteCount > 0 && b == RowBindingOf(cs[j])
    ensures forall j :: 0 <= j < |cs| && cs[j].byteCount > 0 ==> RowBindingOf(cs[j]) in RowBindings(cs)
    decreases |cs|
  {
    if cs != [] {
      var n := |cs| - 1;
      var init := cs[..n];
      RowBindingsFromColumns(init);
      assert RowBindings(cs) == RowBindings(init) + (if cs[n].byteCount > 0 then [RowBindingOf(cs[n])] else []);
      forall b <- RowBindings(cs)
        ensures exists j :: 0 <= j < |cs| && cs[j].byteCount > 0 && b == RowBindingOf(cs[j])
      {
        if b in RowBindings(init) {
          var j :| 0 <= j < |init| && init[j].byteCount > 0 && b == RowBindingOf(init[j]);
          assert cs[j] == init[j];
        }
      }
      forall j | 0 <= j < |cs| && cs[j].byteCount > 0
        ensures RowBindingOf(cs[j]) in RowBindings(cs)
      {
        if j < n {
          assert cs[j] == init[j];
        }
      }
    }
  }

  /** The bindings of columns laid out one after another are themselves laid
      out one after another: each binding's value ends before the next
      binding's status starts. */
  lemma {:induction false} RowBindingsOrdered(cs: seq<Column>)
    requires forall j, k :: 0 <= j < k < |cs| && cs[j].byteCount > 0 && cs[k].byteCount > 0 ==> EntryEnd(cs[j]) <= cs[k].byteOffset
    ensures forall a, b :: 0 <= a < b < |RowBindings(cs)| ==>
      RowBindings(cs)[a].obValue + RowBindings(cs)[a].cbMaxLen <= RowBindings(cs)[b].obStatus
    decreases |cs|
  {
    if cs != [] {
      var n := |cs| - 1;
      var init := cs[..n];
      var rb := RowBindings(cs);
      var ib := RowBindings(init);
      RowBindingsOrdered(init);
      RowBindingsFromColumns(init);
      if cs[n].byteCount > 0 {
        forall a, b | 0 <= a < b < |rb|
          ensures rb[a].obValue + rb[a].cbMaxLen <= rb[b].obStatus
        {
          if b == |ib| {
            assert rb[a] in ib;
            var j :| 0 <= j < |init| && init[j].byteCount > 0 && rb[a] == RowBindingOf(init[j]);
            assert cs[j] == init[j];
          } else {
            assert rb[a] == ib[a] && rb[b] == ib[b];
          }
        }
      }
    }
  }

  /** After a successful bind, all of the properties above hold for the
      statement's columns and the bindings given to the row accessor. */
  lemma {:induction false} BoundLayout(cols: seq<Column>, blobs: seq<AccessorResult>, bind: Binder)
    requires |blobs| == |cols|
    requires Succeeded(BindLoop(cols, blobs, bind).0)
    ensures var (_, bound, size, bindings) := BindLoop(cols, blobs, bind);
      && |bound| == |cols|
      && (forall k :: 0 <= k < |bound| && bound[k].byteCount > 0 ==> EntryEnd(bound[k]) <= size)
      && (forall j, k :: 0 <= j < k < |bound| && bound[j].byteCount > 0 && bound[k].byteCount > 0 ==>
            EntryEnd(bound[j]) <= bound[k].byteOffset)
      && bindings == RowBindings(bound)
      && (forall a, b :: 0 <= a < b < |bindings| ==> bindings[a].obValue + bindings[a].cbMaxLen <= bindings[b].obStatus)
  {
    var bs := Binds(cols, blobs, bind);
    var hrs := BindStatuses(cols, blobs, bind);
    var k := FirstFailure(hrs);
    if k < |cols| {
      assert false;
    } else {
      var bound := Placed(bs);
      forall i | 0 <= i < |bound| && bound[i].byteCount > 0
        ensures EntryEnd(bound[i]) <= Sum(ColumnSlots(bs))
      {
        PlacedEntryInside(bs, i);
      }
      forall j, i | 0 <= j < i < |bound| && bound[j].byteCount > 0 && bound[i].byteCount > 0
        ensures EntryEnd(bound[j]) <= bound[i].byteOffset
      {
        PlacedEntriesDisjoint(bs, j, i);
      }
      RowBindingsOrdered(bound);
    }
  }

  // ------------------------------------------------------ fetch

  /** What GetNextRows answers: its status, how many rows it returned and
      the handle it wrote into hRow when it returned one. */
  datatype NextRows = NextRows(hr: HResult, retrieved: nat, hRow: nat)

  /** The provider's answers to one fetch: RestartPosition, GetNextRows and
      GetData with the row bytes GetData writes into the row buffer.
      `unset` is the value the uninitialised status variable happens to
      hold when the statement has no rowset. */
  datatype FetchAnswers = FetchAnswers(unset: HResult, restartHr: HResult, rows: NextRows,
                                       dataHr: HResult, rowBytes: seq<Byte>)

  /** The statement fields a fetch reads and changes, with the provider
      calls made so far. */
  datatype Cursor = Cursor(
    rowset: Option<nat>, hAccessorRowset: nat, hRow: nat, rowIndex: int,
    outputBuffer: Option<seq<Byte>>, calls: seq<Call>)

  /** The fetch's return value, the status it reports, the new rowset
      state, and the automation error (description and SQLSTATE) it sets. */
  datatype FetchOutcome = FetchOutcome(ret: int, hr: HResult, state: Cursor,
                                       automationError: Option<(string, string)>)

  const LAST_ROW_MESSAGE: string := "Cursor does not support scrolling to the last row."
  const LAST_ROW_STATE: string := "42872"

  /** oledb_stmt_fetch on the rowset state, with the corrected cursor plan.
      The row handle held from the last fetch is released but not reset;
      the row index moves to 0 once a restart succeeds and to the plan's
      index once GetNextRows succeeds; row data is fetched only when a row
      came back and a row accessor exists. */
  function FetchOn(r: Cursor, ori: FetchPlans.Orientation, offset: int, ans: FetchAnswers): (o: FetchOutcome)
  {
    if r.rowset.None? then FetchOutcome(0, ans.unset, r, None)
    else
      var r1 := if r.hRow != 0 then r.(calls := r.calls + [ReleaseRows(r.hRow)]) else r;
      var p := FetchPlans.FetchPlan(ori, r.rowIndex, offset);
      if p.NotImplemented? then FetchOutcome(0, E_NOTIMPL, r1, Some((LAST_ROW_MESSAGE, LAST_ROW_STATE)))
      else CursorOn(r1, p, ans)
  }

  /** The fetch once the plan is known: the restart, if the plan asks for
      one, then GetNextRows. */
  function CursorOn(r: Cursor, p: FetchPlans.Plan, ans: FetchAnswers): (o: FetchOutcome)
    requires p.Plan?
  {
    var r1 := if p.restart then r.(calls := r.calls + [RestartPosition]) else r;
    if p.restart && !Succeeded(ans.restartHr) then FetchOutcome(0, ans.restartHr, r1, None)
    else
      var r2 := if p.restart then r1.(rowIndex := 0) else r1;
      RowsOn(r2.(calls := r2.calls + [GetNextRows(p.rowOffset, p.rowsToFetch)]), p.newIndex, ans)
  }

  /** The fetch once GetNextRows has answered. */
  function RowsOn(r: Cursor, newIndex: int, ans: FetchAnswers): (o: FetchOutcome)
  {
    if !Succeeded(ans.rows.hr) then FetchOutcome(0, ans.rows.hr, r, None)
    else if ans.rows.retrieved == 0 then FetchOutcome(0, ans.rows.hr, r.(rowIndex := newIndex), None)
    else DataOn(r.(rowIndex := newIndex, hRow := ans.rows.hRow), ans)
  }

  /** The fetch once a row has come back: its data, when there is a row
      accessor. */
  function DataOn(r: Cursor, ans: FetchAnswers): (o: FetchOutcome)
  {
    if r.hAccessorRowset == 0 then FetchOutcome(1, ans.rows.hr, r, None)
    else
      var r1 := r.(calls := r.calls + [GetData(r.hRow, r.hAccessorRowset)]);
      if !Succeeded(ans.dataHr) then FetchOutcome(0, ans.dataHr, r1, None)
      else FetchOutcome(1, ans.dataHr, r1.(outputBuffer := if r1.outputBuffer.Some? then Some(ans.rowBytes) else None), None)
  }

  /** A fetch on a statement holding a row handle releases it before any
      other provider call; a fetch without a rowset changes nothing. */
  lemma FetchReleasesHeldRowFirst(r: Cursor, ori: FetchPlans.Orientation, offset: int, ans: FetchAnswers)
    ensures var o := FetchOn(r, ori, offset, ans);
      && |r.calls| <= |o.state.calls| && o.state.calls[..|r.calls|] == r.calls
      && (r.rowset.Some? && r.hRow != 0 ==>
            |o.state.calls| > |r.calls| && o.state.calls[|r.calls|] == ReleaseRows(r.hRow))
      && (r.rowset.None? ==> o == FetchOutcome(0, ans.unset, r, None))
  {
  }

  /** LAST is refused with E_NOTIMPL and the automation error 42872, before
      any cursor call: the row index and row handle stay as they were and
      the only call is the release of the held row. */
  lemma FetchLastRefused(r: Cursor, offset: int, ans: FetchAnswers)
    requires r.rowset.Some?
    ensures var o := FetchOn(r, FetchPlans.Last, offset, ans);
      && o.ret == 0 && o.hr == E_NOTIMPL
      && o.automationError == Some((LAST_ROW_MESSAGE, LAST_ROW_STATE))
      && o.state == r.(calls := r.calls + (if r.hRow != 0 then [ReleaseRows(r.hRow)] else []))
  {
  }

  /** The row index changes only through a restart that succeeded (to 0)
      and a GetNextRows that succeeded (to the plan's index). */
  lemma FetchRowIndex(r: Cursor, ori: FetchPlans.Orientation, offset: int, ans: FetchAnswers)
    requires r.rowset.Some? && ori != FetchPlans.Last
    ensures var o := FetchOn(r, ori, offset, ans); var p := FetchPlans.FetchPlan(ori, r.rowIndex, offset);
      && (p.restart && !Succeeded(ans.restartHr) ==> o.state.rowIndex == r.rowIndex && o.hr == ans.restartHr)
      && ((p.restart ==> Succeeded(ans.restartHr)) && !Succeeded(ans.rows.hr) ==>
            o.state.rowIndex == (if p.restart then 0 else r.rowIndex) && o.hr == ans.rows.hr)
      && ((p.restart ==> Succeeded(ans.restartHr)) && Succeeded(ans.rows.hr) ==> o.state.rowIndex == p.newIndex)
      && o.automationError.None?
  {
  }

  /** The fetch returns 1 exactly when GetNextRows (and the restart before
      it, if any) succeeded, returned a row, and the row data, if asked
      for, came back; otherwise it returns 0. */
  lemma FetchReturnsRow(r: Cursor, ori: FetchPlans.Orientation, offset: int, ans: FetchAnswers)
    ensures var o := FetchOn(r, ori, offset, ans); var p := FetchPlans.FetchPlan(ori, r.rowIndex, offset);
      && (o.ret == 0 || o.ret == 1)
      && (o.ret == 1 <==>
            && r.rowset.Some? && ori != FetchPlans.Last
            && (p.restart ==> Succeeded(ans.restartHr))
            && Succeeded(ans.rows.hr) && ans.rows.retrieved > 0
            && (r.hAccessorRowset != 0 ==> Succeeded(ans.dataHr)))
      && (o.ret == 1 ==> o.state.hRow == ans.rows.hRow && Succeeded(o.hr))
  {
  }

  /** The row buffer keeps its size across a fetch when GetData writes no
      more than the buffer holds. */
  lemma FetchKeepsRowBuffer(r: Cursor, ori: FetchPlans.Orientation, offset: int, ans: FetchAnswers)
    requires r.outputBuffer.Some? ==> |ans.rowBytes| == |r.outputBuffer.value|
    ensures var o := FetchOn(r, ori, offset, ans);
      && o.state.outputBuffer.Some? == r.outputBuffer.Some?
      && (r.outputBuffer.Some? ==> |o.state.outputBuffer.value| == |r.outputBuffer.value|)
      && o.state.hAccessorRowset == r.hAccessorRowset && o.state.rowset == r.rowset
  {
  }

  /** With the corrected plan, a forward fetch that succeeds from a row
      index equal to the provider's position asks for the requested row
      and leaves the row index equal to the new position. */
  lemma FetchTracksPosition(r: Cursor, ori: FetchPlans.Orientation, offset: int, ans: FetchAnswers)
    requires r.rowset.Some? && r.rowIndex >= 0
    requires ori in {FetchPlans.First, FetchPlans.Abs, FetchPlans.Next, FetchPlans.Rel}
    requires ori == FetchPlans.Next ==> offset == 0
    requires FetchPlans.FetchPlan(ori, r.rowIndex, offset).restart ==> Succeeded(ans.restartHr)
    requires Succeeded(ans.rows.hr)
    ensures var o := FetchOn(r, ori, offset, ans); var p := FetchPlans.FetchPlan(ori, r.rowIndex, offset);
      && GetNextRows(p.rowOffset, 1) in o.state.calls[|r.calls|..]
      && o.state.rowIndex == FetchPlans.Target(r.rowIndex, p) == FetchPlans.Requested(ori, r.rowIndex, offset)
  {
    var p := FetchPlans.FetchPlan(ori, r.rowIndex, offset);
    FetchPlans.PlanTracksPosition(ori, r.rowIndex, offset);
    var r1 := if r.hRow != 0 then r.(calls := r.calls + [ReleaseRows(r.hRow)]) else r;
    assert FetchOn(r, ori, offset, ans) == CursorOn(r1, p, ans);
    CursorOnAsksRows(r1, p, ans);
    var o := CursorOn(r1, p, ans);
    var i := |r1.calls| + (if p.restart then 1 else 0);
    assert o.state.calls[|r.calls|..][i - |r.calls|] == o.state.calls[i];
  }

  /** Once the plan is known and any restart succeeded, GetNextRows is the
      call after the restart, and a successful one sets the row index to
      the plan's new index. */
  lemma CursorOnAsksRows(r: Cursor, p: FetchPlans.Plan, ans: FetchAnswers)
    requires p.Plan? && (p.restart ==> Succeeded(ans.restartHr))
    ensures var o := CursorOn(r, p, ans); var i := |r.calls| + (if p.restart then 1 else 0);
      && i < |o.state.calls| && o.state.calls[i] == GetNextRows(p.rowOffset, p.rowsToFetch)
      && (Succeeded(ans.rows.hr) ==> o.state.rowIndex == p.newIndex)
  {
    var r1 := if p.restart then r.(calls := r.calls + [RestartPosition]) else r;
    var r2 := if p.restart then r1.(rowIndex := 0) else r1;
    var c := r2.calls + [GetNextRows(p.rowOffset, p.rowsToFetch)];
    RowsOnKeepsCalls(r2.(calls := c), p.newIndex, ans);
    var o := RowsOn(r2.(calls := c), p.newIndex, ans);
    assert o.state.calls[|c| - 1] == o.state.calls[..|c|][|c| - 1];
  }

  /** RowsOn only appends to the provider calls. */
  lemma RowsOnKeepsCalls(r: Cursor, newIndex: int, ans: FetchAnswers)
    ensures var o := RowsOn(r, newIndex, ans);
      |r.calls| <= |o.state.calls| && o.state.calls[..|r.calls|] == r.calls
  {
  }

  /** The row handle is not reset after its release: a fetch past the last
      row leaves the released handle in place, and the next fetch releases
      it a second time. */
  lemma ReleasedRowReleasedAgain(r: Cursor, ori: FetchPlans.Orientation, offset: int, ans: FetchAnswers,
                                 ori2: FetchPlans.Orientation, offset2: int, ans2: FetchAnswers)
    requires r.rowset.Some? && r.hRow != 0 && ori != FetchPlans.Last
    requires FetchPlans.FetchPlan(ori, r.rowIndex, offset).restart ==> Succeeded(ans.restartHr)
    requires Succeeded(ans.rows.hr) && ans.rows.retrieved == 0
    ensures var o := FetchOn(r, ori, offset, ans); var o2 := FetchOn(o.state, ori2, offset2, ans2);
      && o.state.hRow == r.hRow
      && |r.calls| < |o.state.calls| < |o2.state.calls|
      && o2.state.calls[|r.calls|] == ReleaseRows(r.hRow)
      && o2.state.calls[|o.state.calls|] == ReleaseRows(r.hRow)
  {
    var o := FetchOn(r, ori, offset, ans);
    FetchReleasesHeldRowFirst(r, ori, offset, ans);
    FetchReleasesHeldRowFirst(o.state, ori2, offset2, ans2);
    var o2 := FetchOn(o.state, ori2, offset2, ans2);
    assert o2.state.calls[..|o.state.calls|] == o.state.calls;
    assert o2.state.calls[|r.calls|] == o.state.calls[|r.calls|];
  }

  // ------------------------------------------------------ describe and get_col

  /** The fields describe copies into PDO's column records. */
  datatype ColumnData = ColumnData(precision: int, maxLen: U32, nameLen: int,
                                   name: Option<seq<char>>, paramType: int)

  /** The record describe fills in for a column. */
  function Described(c: Column): (d: ColumnData)
    ensures d.name == Some(c.name) && d.nameLen == c.nameLen && d.paramType == c.pdoType
    ensures d.precision == c.precision && d.maxLen == c.maxLen
  {
    ColumnData(c.precision, c.maxLen, c.nameLen, Some(c.name), c.pdoType)
  }

  /** What get_col is answered: for a long column, its own GetData and then
      a LOB stream in the output direction the column type asks for; for a
      narrow string read from the row buffer, the status of
      oledb_convert_string.  `unset` is what the uninitialised pUnknown
      field of the long column's local buffer holds when GetData fails
      without writing it (None for a null pointer). */
  datatype ColAnswers = ColAnswers(dataHr: HResult, status: nat, length: nat, streamHr: HResult, streamMade: bool,
                                   convertHr: HResult, unset: Option<nat>)

  /** What get_col hands to PDO. */
  datatype ColResult =
    | NoColumn                                    // column index out of range
    | NoBuffer                                    // no row buffer to read from
    | NoStream                                    // long column without a stream
    | Stream(conversion: int, length: nat, copied: bool)
    | Value(v: ColValue)
    | OutsideBuffer                               // a slot that does not fit in the buffer

  /** The output conversion a long column's stream uses: from Unicode for
      wide strings, from the varchar charset for narrow ones, none (-1)
      otherwise. */
  function LobConversion(c: Column): (k: int)
    ensures c.columnType == DBTYPE_WSTR ==> k == CONVERT_FROM_UNICODE_TO_OUTPUT
    ensures c.columnType == DBTYPE_STR ==> k == CONVERT_FROM_VARCHAR_TO_OUTPUT
    ensures c.columnType !in {DBTYPE_WSTR, DBTYPE_STR} ==> k == -1
  {
    if c.columnType == DBTYPE_WSTR then CONVERT_FROM_UNICODE_TO_OUTPUT as int
    else if c.columnType == DBTYPE_STR then CONVERT_FROM_VARCHAR_TO_OUTPUT as int
    else -1
  }

  /** oledb_stmt_get_col on the rowset state: the return value, the status
      it reports, the value and the GetData call a long column makes.  A
      long column yields a value only when its GetData succeeds with an OK
      status and a stream is made, and the status is the last call's; a
      column read from the row buffer always yields one, and its status is
      that of the string conversion when it goes through
      oledb_convert_string. */
  function GetColOn(r: Rowset, colno: nat, blob: ColAnswers): (o: (int, HResult, ColResult, seq<Call>))
    ensures o.0 in {0, 1}
    ensures colno >= |r.columns| ==> o.0 == 0 && o.2 == NoColumn && o.3 == []
    ensures colno < |r.columns| && r.columns[colno].hAccessorColumn != 0 ==>
      var c := r.columns[colno];
      var fetched := Succeeded(blob.dataHr) && blob.status == DBSTATUS_S_OK;
      && o.3 == [GetData(r.hRow, c.hAccessorColumn)]
      && (o.0 == 1 <==> fetched && blob.streamMade)
      && o.1 == (if fetched then blob.streamHr else blob.dataHr)
      && (o.0 == 1 ==> o.2 == Stream(LobConversion(c), blob.length, c.pdoType == PDO_PARAM_STR))
      && (o.0 == 0 ==> o.2 == NoStream)
    ensures colno < |r.columns| && r.columns[colno].hAccessorColumn == 0 ==>
      && o.3 == []
      && (o.0 == 1 <==> r.outputBuffer.Some?)
      && (o.2.Value? ==> o.1 == (if o.2.v.ViaConvertString? then blob.convertHr else S_OK))
      && (o.2 != OutsideBuffer ==> (o.2.Value? <==> r.outputBuffer.Some?))
  {
    if colno >= |r.columns| then (0, S_OK, NoColumn, [])
    else
      var c := r.columns[colno];
      if c.hAccessorColumn != 0 then
        var call := [GetData(r.hRow, c.hAccessorColumn)];
        if !Succeeded(blob.dataHr) || blob.status != DBSTATUS_S_OK then (0, blob.dataHr, NoStream, call)
        else if !blob.streamMade then (0, blob.streamHr, NoStream, call)
        else (1, blob.streamHr, Stream(LobConversion(c), blob.length, c.pdoType == PDO_PARAM_STR), call)
      else if r.outputBuffer.None? then (0, S_OK, NoBuffer, [])
      else if !SlotInside(r.outputBuffer.value, c) then (1, S_OK, OutsideBuffer, [])
      else
        var v := DecodeSlot(r.outputBuffer.value, c);
        (1, if v.ViaConvertString? then blob.convertHr else S_OK, Value(v), [])
  }

  /** As written (oledb_stmt.c:1574-1606): the long column's buffer is a
      local that nothing initialises, and a failed GetData is followed by
      SAFE_RELEASE of its pUnknown field, so whatever identity that field
      held is released although nobody handed it over. */
  function LongColumnCallsAsWritten(hRow: nat, hAccessor: nat, blob: ColAnswers): (calls: seq<Call>)
    ensures |calls| >= 1 && calls[0] == GetData(hRow, hAccessor)
    ensures forall x: nat :: ReleaseInterface(x) in calls <==> !Succeeded(blob.dataHr) && blob.unset == Some(x)
  {
    [GetData(hRow, hAccessor)]
      + (if !Succeeded(blob.dataHr) && blob.unset.Some? then [ReleaseInterface(blob.unset.value)] else [])
  }

  /** As written, a failed GetData on a long column releases the stale
      identity, where the corrected get_col makes its GetData only. */
  lemma FailedGetDataReleasesStaleAsWritten(r: Rowset, colno: nat, blob: ColAnswers)
    requires colno < |r.columns| && r.columns[colno].hAccessorColumn != 0
    requires !Succeeded(blob.dataHr) && blob.unset.Some?
    ensures LongColumnCallsAsWritten(r.hRow, r.columns[colno].hAccessorColumn, blob)
      == GetColOn(r, colno, blob).3 + [ReleaseInterface(blob.unset.value)]
  {
  }

  /** Corrected (the buffer starts out null): get_col never releases an
      interface, whatever the stack held, and otherwise it makes the same
      calls as the code as written. */
  lemma GetColReleasesNothing(r: Rowset, colno: nat, blob: ColAnswers)
    ensures forall x: nat :: ReleaseInterface(x) !in GetColOn(r, colno, blob).3
    ensures colno < |r.columns| && r.columns[colno].hAccessorColumn != 0
            && (Succeeded(blob.dataHr) || blob.unset.None?) ==>
      GetColOn(r, colno, blob).3 == LongColumnCallsAsWritten(r.hRow, r.columns[colno].hAccessorColumn, blob)
  {
  }

  /** After the column loop and the row accessor succeed with some bound
      column, the row buffer is exactly as large as the layout, every
      column with bytes has its slot inside it, and so get_col decodes
      every such column from any buffer of that size (a fetch keeps it
      so); an index past the last column yields 0. */
  lemma GetColAfterBind(r: Rowset, cols: seq<Column>, blobs: seq<AccessorResult>, bind: Binder,
                        loop: (HResult, seq<Column>, nat, seq<RowBinding>),
                        accessor: AccessorResult, hr: HResult, s: Rowset,
                        buf: seq<Byte>, colno: nat, blob: ColAnswers)
    requires |blobs| == |cols| && loop == BindLoop(cols, blobs, bind)
    requires Succeeded(loop.0) && loop.3 != []
    requires (hr, s) == BindRowsetOn(r, loop, accessor) && Succeeded(hr)
    requires |buf| == s.nextOutputOffset
    ensures s.outputBuffer.Some? && |s.outputBuffer.value| == s.nextOutputOffset
    ensures |s.columns| == |cols|
    ensures colno < |s.columns| && s.columns[colno].byteCount > 0 ==> SlotInside(buf, s.columns[colno])
    ensures colno < |s.columns| && s.columns[colno].byteCount > 0 && s.columns[colno].hAccessorColumn == 0 ==>
      var v := DecodeSlot(buf, s.columns[colno]);
      GetColOn(s.(outputBuffer := Some(buf)), colno, blob) == (1, if v.ViaConvertString? then blob.convertHr else S_OK, Value(v), [])
    ensures colno >= |s.columns| ==> GetColOn(s.(outputBuffer := Some(buf)), colno, blob) == (0, S_OK, NoColumn, [])
  {
    BoundLayout(cols, blobs, bind);
    if colno < |loop.1| && loop.1[colno].byteCount > 0 {
      assert EntryEnd(loop.1[colno]) <= loop.2;
    }
  }

  // ------------------------------------------------------ the statement

  class Statement {
    var flags: Dword
    /** pIRowset, pIAccessorRowset and pIMultipleResults, by object identity. */
    var rowset: Option<nat>
    var accessorRowset: Option<nat>
    var multipleResults: Option<nat>
    var hAccessorRowset: nat
    var hRow: nat
    var rowIndex: int
    /** Whether S->columns points at an array, and that array. */
    var hasColumns: bool
    var columns: seq<Column>
    var nextOutputOffset: nat
    var outputBuffer: Option<seq<Byte>>
    var inputBuffer: array?<Byte>
    var nextInputOffset: nat
    var hAccessorCommand: nat
    var calls: seq<Call>

    /** Execute never asks for multiple results, so no statement holds an
        IMultipleResults interface. */
    predicate Valid()
      reads this
    {
      multipleResults.None?
    }

    /** A statement as prepare leaves it. */
    constructor (stmtFlags: Dword)
      ensures Valid() && flags == stmtFlags && calls == []
      ensures RowsetCleared() && outputBuffer.None? && inputBuffer == null
    {
      flags := stmtFlags;
      rowset, accessorRowset, multipleResults := None, None, None;
      hAccessorRowset, hRow, rowIndex := 0, 0, 0;
      hasColumns, columns := false, [];
      nextOutputOffset, outputBuffer := 0, None;
      inputBuffer, nextInputOffset, hAccessorCommand := null, 0, 0;
      calls := [];
    }

    function State(): Rowset
      reads this
    {
      Rowset(hasColumns, columns, rowset, accessorRowset, hAccessorRowset, hRow, rowIndex,
             nextOutputOffset, outputBuffer, calls)
    }

    /** The state oledb_stmt_clear_rowset leaves: no columns, no rowset, no
        accessor, no row, row index 0. */
    predicate RowsetCleared()
      reads this
    {
      && !hasColumns && columns == []
      && rowset.None? && accessorRowset.None? && hAccessorRowset == 0
      && hRow == 0 && rowIndex == 0
    }

    /** oledb_stmt_clear_rowset. */
    method ClearRowset()
      modifies this`calls, this`hasColumns, this`columns, this`rowset, this`accessorRowset
      modifies this`hAccessorRowset, this`hRow, this`rowIndex
      ensures State() == Cleared(old(State()))
    {
      var h, r, a, ha, cs := hRow, rowset, accessorRowset, hAccessorRowset, columns;
      // The column loop runs only when there is an accessor interface; its
      // result is used only then.
      var perColumn := ReleaseColumnAccessors(cs);
      var released := ReleaseCalls(h, r, a, ha, perColumn);
      assert released == ClearCalls(h, r, a, ha, cs);
      hasColumns, columns := false, [];
      rowset, accessorRowset := None, None;
      hAccessorRowset, hRow, rowIndex := 0, 0, 0;
      calls := calls + released;
    }

    /** oledb_stmt_bind_columns.  The provider's answers come in as
        `created` (oledb_stmt_create_columns), `qi` (the IAccessor query),
        `blobs` (each long column's own accessor) and `accessor` (the row
        accessor).  Every failure clears the rowset. */
    method BindColumns(created: CreatedColumns, qi: Interface, blobs: seq<AccessorResult>, accessor: AccessorResult)
      returns (hr: HResult)
      requires Succeeded(created.hr) ==> |blobs| == |created.columns|
      modifies this`calls, this`hasColumns, this`columns, this`rowset, this`accessorRowset
      modifies this`hAccessorRowset, this`hRow, this`rowIndex, this`nextOutputOffset, this`outputBuffer
      ensures (hr, State()) == BindColumnsOn(old(State()), flags, created, qi, blobs, accessor)
    {
      hr := created.hr;
      if !Succeeded(hr) {
        ClearRowset();
        return;
      }
      hasColumns, columns := true, created.columns;
      hr, accessorRowset := qi.hr, qi.iface;
      if accessorRowset.None? {
        if !Succeeded(hr) {
          ClearRowset();
        }
        return;
      }
      var loopHr, bound, next, bindings := BindColumnsLoop(columns, blobs, BindUnder(flags));
      hr := BindRowset((loopHr, bound, next, bindings), accessor);
    }

    /** What oledb_stmt_bind_columns does after the column loop: keep the
        bound columns and the row size, then create the row accessor and
        size the row buffer when some column has bytes. */
    method BindRowset(loop: (HResult, seq<Column>, nat, seq<RowBinding>), accessor: AccessorResult) returns (hr: HResult)
      modifies this`calls, this`hasColumns, this`columns, this`rowset, this`accessorRowset
      modifies this`hAccessorRowset, this`hRow, this`rowIndex, this`nextOutputOffset, this`outputBuffer
      ensures (hr, State()) == BindRowsetOn(old(State()), loop, accessor)
    {
      var bindings;
      hr, columns, nextOutputOffset, bindings := loop.0, loop.1, loop.2, loop.3;
      if !Succeeded(hr) {
        ClearRowset();
        return;
      }
      if bindings != [] {
        calls := calls + [CreateRowAccessor(bindings)];
        hr, hAccessorRowset := accessor.hr, accessor.handle;
        if !Succeeded(hr) {
          ClearRowset();
          return;
        }
        outputBuffer := Some(Realloc(outputBuffer, nextOutputOffset));
      } else {
        hr := S_OK;
      }
    }

    /** oledb_stmt_copy_bound_params over the bound parameters `ps`, in the
        order the host hands them over.  `accessor` is what CreateAccessor
        answers; on failure nothing is allocated or filled, and the
        DBPARAMS is left untouched.  The handle of an earlier execution's
        accessor is overwritten and never released. */
    method CopyBoundParams(ps: seq<Params.Param>, mems: seq<seq<Byte>>, accessor: AccessorResult)
      returns (hr: HResult, dbParams: Option<DbParams>, bindings: seq<InputBuffer.ParamBinding>, offsets: seq<nat>)
      requires InputBuffer.MemFits(InputBuffer.Entries(ps), mems)
      modifies this`inputBuffer, this`nextInputOffset, this`hAccessorCommand, this`calls
      ensures var es := InputBuffer.Entries(ps); var size := Sum(InputBuffer.EntrySlots(es));
        && |bindings| == |ps|
        && (forall k :: 0 <= k < |ps| ==> InputBuffer.BindingAt(bindings[k], ps[k], OffsetOf(InputBuffer.EntrySlots(es), k)))
        && offsets == InputBuffer.Offsets(es)
        && nextInputOffset == size
        && hr == accessor.hr && hAccessorCommand == accessor.handle
        && (!Succeeded(hr) ==>
              && dbParams.None? && inputBuffer == old(inputBuffer)
              && calls == old(calls) + [CreateParamAccessor(bindings, size)])
        && (Succeeded(hr) ==>
              && inputBuffer != null && fresh(inputBuffer)
              && dbParams == Some(DbParams(inputBuffer, 1, accessor.handle))
              && inputBuffer[..] == InputBuffer.Filled(
                   Realloc(if old(inputBuffer) == null then None else Some(old(inputBuffer[..])), size), es, mems)
              && calls == old(calls) + [CreateParamAccessor(bindings, size)] + StreamAddRefs(ps))
    {
      var size;
      bindings, offsets, size := LayoutParams(ps);
      nextInputOffset := size;
      calls := calls + [CreateParamAccessor(bindings, size)];
      hr, hAccessorCommand := accessor.hr, accessor.handle;
      if !Succeeded(hr) {
        dbParams := None;
        return;
      }
      var buf := ReallocArray(inputBuffer, size);
      inputBuffer := buf;
      var addRefs := FillParams(buf, ps, mems, offsets);
      calls := calls + addRefs;
      dbParams := Some(DbParams(buf, 1, hAccessorCommand));
    }

    /** The fields a fetch reads and changes. */
    function CursorState(): Cursor
      reads this
    {
      Cursor(rowset, hAccessorRowset, hRow, rowIndex, outputBuffer, calls)
    }

    /** oledb_stmt_fetch, with the corrected cursor plan.  `ans` holds the
        provider's answers; the method returns the fetch's result, the
        status it reports and the automation error it sets. */
    method Fetch(ori: FetchPlans.Orientation, offset: int, ans: FetchAnswers)
      returns (ret: int, hr: HResult, automationError: Option<(string, string)>)
      modifies this`calls, this`hRow, this`rowIndex, this`outputBuffer
      ensures FetchOutcome(ret, hr, CursorState(), automationError) == FetchOn(old(CursorState()), ori, offset, ans)
    {
      ret, automationError := 0, None;
      if rowset.None? {
        hr := ans.unset;
        return;
      }
      if hRow != 0 {
        calls := calls + [ReleaseRows(hRow)];
      }
      var p := FetchPlans.FetchPlan(ori, rowIndex, offset);
      if p.NotImplemented? {
        automationError := Some((LAST_ROW_MESSAGE, LAST_ROW_STATE));
        hr := E_NOTIMPL;
        return;
      }
      if p.restart {
        calls := calls + [RestartPosition];
        hr := ans.restartHr;
        if !Succeeded(hr) {
          return;
        }
        rowIndex := 0;
      }
      calls := calls + [GetNextRows(p.rowOffset, p.rowsToFetch)];
      hr := ans.rows.hr;
      if !Succeeded(hr) {
        return;
      }
      rowIndex := p.newIndex;
      if ans.rows.retrieved > 0 {
        hRow := ans.rows.hRow;
        if hAccessorRowset != 0 {
          calls := calls + [GetData(hRow, hAccessorRowset)];
          hr := ans.dataHr;
          if !Succeeded(hr) {
            return;
          }
          if outputBuffer.Some? {
            outputBuffer := Some(ans.rowBytes);
          }
        }
        ret := 1;
      }
    }

    /** oledb_stmt_describe: PDO's column records `cols` (one per column)
        are filled in from the statement's columns on the first call, and
        left alone once the first record has a name. */
    method Describe(cols: array<ColumnData>, colno: int) returns (ret: int)
      requires 0 <= colno && cols.Length == |columns|
      modifies cols
      ensures ret == (if hasColumns && colno < |columns| then 1 else 0)
      ensures ret == 0 || old(cols[0].name).Some? ==> cols[..] == old(cols[..])
      ensures ret == 1 && old(cols[0].name).None? ==>
        forall i :: 0 <= i < cols.Length ==> cols[i] == Described(columns[i])
      ensures ret == 1 ==> cols[0].name.Some?
    {
      if !hasColumns || colno >= |columns| {
        return 0;
      }
      if cols[0].name.Some? {
        return 1;
      }
      var i := 0;
      while i < cols.Length
        invariant 0 <= i <= cols.Length
        invariant forall k :: 0 <= k < i ==> cols[k] == Described(columns[k])
      {
        cols[i] := Described(columns[i]);
        i := i + 1;
      }
      ret := 1;
    }

    /** oledb_stmt_next_rowset: the rowset is cleared, and since no
        statement holds an IMultipleResults interface there is never a next
        rowset; the status reported is the uninitialised `unset`. */
    method NextRowset(unset: HResult) returns (ret: int, hr: HResult)
      requires Valid()
      modifies this`calls, this`hasColumns, this`columns, this`rowset, this`accessorRowset
      modifies this`hAccessorRowset, this`hRow, this`rowIndex
      ensures ret == 0 && hr == unset && State() == Cleared(old(State())) && Valid()
    {
      ClearRowset();
      ret, hr := 0, unset;
    }
  }
}