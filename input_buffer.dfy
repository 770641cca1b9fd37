// The parameter data buffer of oledb_stmt_copy_bound_params: every bound
// parameter takes a status slot, a length slot when it is variable-length
// and a value slot when it has bytes or is variable-length, laid out as in
// Layout; the fill then writes each parameter's entry at its offset.  The
// buffer comes from erealloc, so the bytes the fill does not write are
// whatever was there before; every fact below holds for any such contents.
// The module works on Entry, the part of a parameter the fill reads, so that
// its proofs carry none of the flag words.

module InputBuffer {
  import opened OleDbInt
  import opened Layout
  import Params

  function Zeros(n: nat): (r: seq<Byte>)
    ensures |r| == n
    ensures forall k :: 0 <= k < n ==> r[k] == 0
  {
    seq(n, _ => 0)
  }

  /** What the fill loop reads of a parameter. */
  datatype Entry = Entry(input: bool, variable: bool, byteCount: nat, dataLength: U32, copy: bool)

  /** input: DBPARAMIO_INPUT is set; variable: VARIABLE_LENGTH is set; copy:
      the data pointer is not null. */
  function EntryOf(p: Params.Param): (e: Entry)
    ensures e.input == Has(p.ioFlags, DBPARAMIO_INPUT)
    ensures e.variable == Has(p.flags, VARIABLE_LENGTH)
    ensures e.byteCount == p.byteCount && e.dataLength == p.dataLength
    ensures e.copy == (p.pointer != Params.NoPointer)
  {
    Entry(Has(p.ioFlags, DBPARAMIO_INPUT), Has(p.flags, VARIABLE_LENGTH), p.byteCount, p.dataLength,
          p.pointer != Params.NoPointer)
  }

  function Entries(ps: seq<Params.Param>): (r: seq<Entry>)
    ensures |r| == |ps|
    ensures forall k :: 0 <= k < |ps| ==> r[k] == EntryOf(ps[k])
  {
    seq(|ps|, k requires 0 <= k < |ps| => EntryOf(ps[k]))
  }

  /** The layout entry of a parameter: always bound.  A value slot of
      byteCount bytes follows whenever there are bytes or a length, and
      ADVANCE_OFFSET by 0 from an aligned offset takes no room, so the slot
      size is the same whether the source advances for the value or not. */
  function EntrySlot(e: Entry): Slot
  {
    Slot(true, e.variable, e.byteCount)
  }

  function EntrySlots(es: seq<Entry>): (r: seq<Slot>)
    ensures |r| == |es|
    ensures forall k :: 0 <= k < |es| ==> r[k] == EntrySlot(es[k])
  {
    seq(|es|, k requires 0 <= k < |es| => EntrySlot(es[k]))
  }

  /** Bytes of an entry: status, the length when variable, then the value. */
  function EntrySize(e: Entry): nat
  {
    HeaderSize(e.variable) + e.byteCount
  }

  /** The DBBINDING built for a parameter. */
  datatype ParamBinding = ParamBinding(
    ordinal: int, wType: DbType, ioFlags: Dword, providerOwned: bool,
    obStatus: nat, obLength: Option<nat>, cbMaxLen: nat, obValue: Option<nat>)

  /** The binding of parameter p, whose entry starts at `start`.  cbMaxLen is
      only filled in for variable-length parameters (the array is
      zero-filled). */
  predicate BindingAt(b: ParamBinding, p: Params.Param, start: nat)
  {
    var variable := Has(p.flags, VARIABLE_LENGTH);
    && b.ordinal == p.ordinal && b.wType == p.retrievalType && b.ioFlags == p.ioFlags
    && b.providerOwned == (p.retrievalType & DBTYPE_BYREF != 0)
    && b.obStatus == start
    && b.obLength == (if variable then Some(start + SIZEOF_DWORD) else None)
    && b.cbMaxLen == (if variable then p.byteCount else 0)
    && b.obValue == (if p.byteCount > 0 || variable then Some(ValueOffset(start, variable)) else None)
  }

  /** Whether the fill writes the entry as present data. */
  predicate Present(e: Entry)
  {
    e.input && e.byteCount > 0
  }

  /** The bytes the fill writes from the start of an entry, given `mem`, the
      byteCount bytes at its data pointer:
      an input with bytes: status OK, the data length when variable, then
      the value when the data pointer is not null;
      an input without bytes: status ISNULL;
      any other parameter: zeros over status, length and value. */
  function EntryWrite(e: Entry, mem: seq<Byte>): (r: seq<Byte>)
    requires |mem| == e.byteCount
    ensures |r| <= EntrySize(e)
  {
    if e.input then
      if e.byteCount > 0 then
        LE32(DBSTATUS_S_OK) + (if e.variable then LE32(e.dataLength) else [])
          + (if e.copy then mem else [])
      else LE32(DBSTATUS_S_ISNULL)
    else Zeros(EntrySize(e))
  }

  predicate MemFits(es: seq<Entry>, mems: seq<seq<Byte>>)
  {
    |mems| == |es| && forall k :: 0 <= k < |es| ==> |mems[k]| == es[k].byteCount
  }

  // ------------------------------------------------------------ byte writes

  /** `bytes` written over `s` at `at`. */
  function Splice(s: seq<Byte>, at: nat, bytes: seq<Byte>): (r: seq<Byte>)
    requires at + |bytes| <= |s|
    ensures |r| == |s|
    ensures r[at..at + |bytes|] == bytes
  {
    seq(|s|, j requires 0 <= j < |s| => if at <= j < at + |bytes| then bytes[j - at] else s[j])
  }

  /** Two adjacent writes are one write of both. */
  lemma SpliceAdjacent(s: seq<Byte>, at: nat, x: seq<Byte>, y: seq<Byte>)
    requires at + |x| + |y| <= |s|
    ensures Splice(Splice(s, at, x), at + |x|, y) == Splice(s, at, x + y)
  {
  }

  /** A write outside [lo, hi) leaves [lo, hi) as it was. */
  lemma SpliceElsewhere(s: seq<Byte>, at: nat, bytes: seq<Byte>, lo: nat, hi: nat)
    requires at + |bytes| <= |s| && lo <= hi <= |s|
    requires at + |bytes| <= lo || hi <= at
    ensures Splice(s, at, bytes)[lo..hi] == s[lo..hi]
  {
  }

  /** ZeroMemory / an assignment / memcpy into the buffer. */
  method WriteBytes(a: array<Byte>, at: nat, bytes: seq<Byte>)
    requires at + |bytes| <= a.Length
    modifies a
    ensures a[..] == Splice(old(a[..]), at, bytes)
  {
    var k := 0;
    while k < |bytes|
      invariant 0 <= k <= |bytes|
      invariant a.Length == |old(a[..])|
      invariant a[..] == Splice(old(a[..]), at, bytes[..k])
    {
      a[at + k] := bytes[k];
      k := k + 1;
    }
    assert bytes[..k] == bytes;
  }

  /** An input parameter with bytes: status OK, the length when variable,
      then the bytes at the data pointer unless it is null. */
  method FillPresent(a: array<Byte>, at: nat, length: seq<Byte>, copy: bool, mem: seq<Byte>)
    requires at + SIZEOF_DWORD + |length| + |mem| <= a.Length
    modifies a
    ensures a[..] == Splice(old(a[..]), at, LE32(DBSTATUS_S_OK) + length + (if copy then mem else []))
  {
    ghost var s := a[..];
    var status := LE32(DBSTATUS_S_OK);
    WriteBytes(a, at, status);
    WriteBytes(a, at + SIZEOF_DWORD, length);
    SpliceAdjacent(s, at, status, length);
    if copy {
      WriteBytes(a, at + |status + length|, mem);
      SpliceAdjacent(s, at, status + length, mem);
    } else {
      assert status + length + [] == status + length;
    }
  }

  /** The fill of one parameter's entry: the body of the second loop of
      copy_bound_params. */
  method FillEntry(a: array<Byte>, at: nat, e: Entry, mem: seq<Byte>)
    requires |mem| == e.byteCount && at + EntrySize(e) <= a.Length
    modifies a
    ensures a[..] == Splice(old(a[..]), at, EntryWrite(e, mem))
  {
    if e.input {
      if e.byteCount > 0 {
        var length: seq<Byte> := if e.variable then LE32(e.dataLength) else [];
        FillPresent(a, at, length, e.copy, mem);
      } else {
        WriteBytes(a, at, LE32(DBSTATUS_S_ISNULL));
      }
    } else {
      WriteBytes(a, at, Zeros(EntrySize(e)));
    }
  }

  // ------------------------------------------------------------ one entry

  /** Cutting a region built from three consecutive pieces gives each piece back. */
  lemma PartsAt(img: seq<Byte>, at: nat, a: seq<Byte>, b: seq<Byte>, c: seq<Byte>)
    requires at + |a| + |b| + |c| <= |img|
    requires img[at..at + |a| + |b| + |c|] == a + b + c
    ensures img[at..at + |a|] == a
    ensures img[at + |a|..at + |a| + |b|] == b
    ensures img[at + |a| + |b|..at + |a| + |b| + |c|] == c
  {
    var slice := img[at..at + |a| + |b| + |c|];
    forall i | 0 <= i < |a| ensures img[at + i] == a[i] {
      assert img[at + i] == slice[i];
    }
    forall i | 0 <= i < |b| ensures img[at + |a| + i] == b[i] {
      assert img[at + |a| + i] == slice[|a| + i];
    }
    forall i | 0 <= i < |c| ensures img[at + |a| + |b| + i] == c[i] {
      assert img[at + |a| + |b| + i] == slice[|a| + |b| + i];
    }
  }

  /** The reads of an entry with data, wherever it was written. */
  lemma PresentEntryReads(img: seq<Byte>, at: nat, e: Entry, mem: seq<Byte>)
    requires |mem| == e.byteCount && Present(e)
    requires at + EntrySize(e) <= |img|
    requires img[at..at + |EntryWrite(e, mem)|] == EntryWrite(e, mem)
    ensures ReadLE32(img, at) == DBSTATUS_S_OK
    ensures e.variable ==> ReadLE32(img, at + SIZEOF_DWORD) == e.dataLength
    ensures var valueAt := ValueOffset(at, e.variable);
      e.copy ==> img[valueAt..valueAt + e.byteCount] == mem
  {
    var length: seq<Byte> := if e.variable then LE32(e.dataLength) else [];
    var rest := if e.copy then mem else [];
    assert LE32(DBSTATUS_S_OK) + length + rest == EntryWrite(e, mem);
    PartsAt(img, at, LE32(DBSTATUS_S_OK), length, rest);
    ReadLE32OfLE32(DBSTATUS_S_OK, img, at);
    if e.variable {
      ReadLE32OfLE32(e.dataLength, img, at + SIZEOF_DWORD);
    }
  }

  /** The reads of an entry without data. */
  lemma AbsentEntryReads(img: seq<Byte>, at: nat, e: Entry, mem: seq<Byte>)
    requires |mem| == e.byteCount && !Present(e)
    requires at + EntrySize(e) <= |img|
    requires img[at..at + |EntryWrite(e, mem)|] == EntryWrite(e, mem)
    ensures ReadLE32(img, at) == (if e.input then DBSTATUS_S_ISNULL else 0)
    ensures !e.input ==> img[at..at + EntrySize(e)] == Zeros(EntrySize(e))
  {
    var w := EntryWrite(e, mem);
    assert img[at..at + 4] == w[..4];
    if e.input {
      assert w[..4] == LE32(DBSTATUS_S_ISNULL);
      ReadLE32OfLE32(DBSTATUS_S_ISNULL, img, at);
    } else {
      assert w[..4] == [0, 0, 0, 0] == LE32(0);
      ReadLE32OfLE32(0, img, at);
    }
  }

  /** What a reader finds at an entry the fill has written: the status,
      the data length of a variable entry with data, the bytes at the data
      pointer, and all zeros for a parameter that is not an input. */
  predicate EntryHolds(img: seq<Byte>, at: nat, e: Entry, mem: seq<Byte>)
    requires |mem| == e.byteCount && at + EntrySize(e) <= |img|
  {
    var valueAt := ValueOffset(at, e.variable);
    && ReadLE32(img, at) == (if Present(e) then DBSTATUS_S_OK else if e.input then DBSTATUS_S_ISNULL else 0)
    && (Present(e) && e.variable ==> ReadLE32(img, at + SIZEOF_DWORD) == e.dataLength)
    && (Present(e) && e.copy ==> img[valueAt..valueAt + e.byteCount] == mem)
    && (!e.input ==> img[at..at + EntrySize(e)] == Zeros(EntrySize(e)))
  }

  /** Whatever surrounds it, an entry written as the fill writes it reads back as such. */
  lemma EntryReads(img: seq<Byte>, at: nat, e: Entry, mem: seq<Byte>, w: seq<Byte>)
    requires |mem| == e.byteCount && w == EntryWrite(e, mem)
    requires at + EntrySize(e) <= |img|
    requires img[at..at + |w|] == w
    ensures EntryHolds(img, at, e, mem)
  {
    if Present(e) {
      PresentEntryReads(img, at, e, mem);
    } else {
      AbsentEntryReads(img, at, e, mem);
    }
  }

  // ------------------------------------------------------------ the whole buffer

  /** Entry k lies inside the buffer, before every later entry. */
  lemma EntryBefore(es: seq<Entry>, k: nat, m: nat)
    requires k < m <= |es|
    ensures OffsetOf(EntrySlots(es), k) + EntrySize(es[k]) <= OffsetOf(EntrySlots(es), m)
    ensures OffsetOf(EntrySlots(es), m) <= Sum(EntrySlots(es))
  {
    var slots := EntrySlots(es);
    EntryFits(slots, k, m);
    OffsetMonotone(slots, m, |es|);
    assert slots[..|es|] == slots;
  }

  /** Entry offsets of the layout. */
  function Offsets(es: seq<Entry>): (r: seq<nat>)
    ensures |r| == |es|
    ensures forall k :: 0 <= k < |es| ==> r[k] == OffsetOf(EntrySlots(es), k)
  {
    seq(|es|, k requires 0 <= k < |es| => OffsetOf(EntrySlots(es), k))
  }

  /** What the fill writes for each entry. */
  function Writes(es: seq<Entry>, mems: seq<seq<Byte>>): (r: seq<seq<Byte>>)
    requires MemFits(es, mems)
    ensures |r| == |es|
    ensures forall k :: 0 <= k < |es| ==> r[k] == EntryWrite(es[k], mems[k])
  {
    seq(|es|, k requires 0 <= k < |es| => EntryWrite(es[k], mems[k]))
  }

  /** Writes ws[j] at ats[j] that fit in `total` bytes, each one ending
      before the next begins. */
  predicate Ordered(ats: seq<nat>, ws: seq<seq<Byte>>, total: nat)
  {
    && |ats| == |ws|
    && (forall j :: 0 <= j < |ws| ==> ats[j] + |ws[j]| <= total)
    && (forall k, j :: 0 <= k < j < |ws| ==> ats[k] + |ws[k]| <= ats[j])
  }

  /** The fill writes what the layout places, in order. */
  lemma LayoutOrdered(es: seq<Entry>, mems: seq<seq<Byte>>)
    requires MemFits(es, mems)
    ensures Ordered(Offsets(es), Writes(es, mems), Sum(EntrySlots(es)))
  {
    var ats := Offsets(es);
    var ws := Writes(es, mems);
    forall j | 0 <= j < |ws| ensures ats[j] + |ws[j]| <= Sum(EntrySlots(es)) {
      EntryBefore(es, j, |es|);
    }
    forall k, j | 0 <= k < j < |ws| ensures ats[k] + |ws[k]| <= ats[j] {
      EntryBefore(es, k, j);
    }
  }

  /** The buffer once writes 0 .. i-1 have been made over `init`. */
  function Written(init: seq<Byte>, ats: seq<nat>, ws: seq<seq<Byte>>, i: nat): (r: seq<Byte>)
    requires Ordered(ats, ws, |init|) && i <= |ws|
    ensures |r| == |init|
    decreases i
  {
    if i == 0 then init else Splice(Written(init, ats, ws, i - 1), ats[i - 1], ws[i - 1])
  }

  /** Once made, write k stays as made: the later ones lie after it. */
  lemma {:induction false} WrittenKeeps(init: seq<Byte>, ats: seq<nat>, ws: seq<seq<Byte>>, i: nat, k: nat)
    requires Ordered(ats, ws, |init|) && k < i <= |ws|
    ensures Written(init, ats, ws, i)[ats[k]..ats[k] + |ws[k]|] == ws[k]
    decreases i
  {
    if k < i - 1 {
      WrittenKeeps(init, ats, ws, i - 1, k);
      SpliceElsewhere(Written(init, ats, ws, i - 1), ats[i - 1], ws[i - 1], ats[k], ats[k] + |ws[k]|);
    }
  }

  /** An entry among ordered writes reads back as written once all are made. */
  lemma {:induction false} WrittenEntryHolds(init: seq<Byte>, ats: seq<nat>, ws: seq<seq<Byte>>, k: nat, e: Entry, mem: seq<Byte>)
    requires Ordered(ats, ws, |init|) && k < |ws|
    requires |mem| == e.byteCount && ws[k] == EntryWrite(e, mem) && ats[k] + EntrySize(e) <= |init|
    ensures EntryHolds(Written(init, ats, ws, |ws|), ats[k], e, mem)
  {
    WrittenKeeps(init, ats, ws, |ws|, k);
    EntryReads(Written(init, ats, ws, |ws|), ats[k], e, mem, ws[k]);
  }

  /** The buffer after the fill loop of copy_bound_params, over the contents
      `init` the reallocation left. */
  function Filled(init: seq<Byte>, es: seq<Entry>, mems: seq<seq<Byte>>): (r: seq<Byte>)
    requires MemFits(es, mems) && |init| == Sum(EntrySlots(es))
    ensures |r| == |init|
  {
    LayoutOrdered(es, mems);
    Written(init, Offsets(es), Writes(es, mems), |es|)
  }

  /** What the provider reads back for entry k of the filled buffer, whatever
      the buffer held before: status OK with the data length and the bytes
      at the data pointer for an input with bytes, status ISNULL for an
      input without bytes, and zeros over the whole entry of any other
      parameter. */
  lemma {:induction false} FilledEntryReads(init: seq<Byte>, es: seq<Entry>, mems: seq<seq<Byte>>, k: nat)
    requires MemFits(es, mems) && k < |es| && |init| == Sum(EntrySlots(es))
    ensures OffsetOf(EntrySlots(es), k) + EntrySize(es[k]) <= |init|
    ensures EntryHolds(Filled(init, es, mems), OffsetOf(EntrySlots(es), k), es[k], mems[k])
  {
    LayoutOrdered(es, mems);
    EntryBefore(es, k, |es|);
    var ats := Offsets(es);
    var ws := Writes(es, mems);
    assert ats[k] == OffsetOf(EntrySlots(es), k);
    assert ws[k] == EntryWrite(es[k], mems[k]);
    WrittenEntryHolds(init, ats, ws, k, es[k], mems[k]);
  }
}
