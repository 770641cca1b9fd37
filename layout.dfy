// The packed record-buffer layout shared by the output (row) buffer, the
// parameter input buffer and the metadata rowset buffer (oledb_stmt.c).
// Every bound entry occupies a status slot, an optional length slot and a
// value slot, each started on a 4-byte boundary by ADVANCE_OFFSET.
//
// The layout loops themselves live with their owners (Statement.BindColumns,
// Statement.CopyBoundParams, MetaBindings below); this module gives the
// closed form they are proved against: entry k starts at the sum of the
// rounded sizes of the bound entries before it.

module Layout {
  import opened OleDbInt

  /** ADVANCE_OFFSET(i, a): add a, then round up to a multiple of 4. */
  function AdvanceOffset(i: nat, a: nat): (r: nat)
    ensures r % 4 == 0
    ensures i + a <= r < i + a + 4
  {
    var j := i + a;
    if j % 4 != 0 then (j + 3) - (j + 3) % 4 else j
  }

  /** ADVANCE_OFFSET gives the least multiple of 4 that is at least i + a. */
  lemma AdvanceOffsetIsLeast(i: nat, a: nat, m: nat)
    requires m % 4 == 0 && i + a <= m
    ensures AdvanceOffset(i, a) <= m
  {
  }

  /** From an aligned offset, ADVANCE_OFFSET adds the size rounded up. */
  lemma AdvanceAligned(i: nat, a: nat)
    requires i % 4 == 0
    ensures AdvanceOffset(i, a) == i + RoundUp4(a)
  {
  }

  function RoundUp4(n: nat): (r: nat)
    ensures r % 4 == 0 && n <= r < n + 4
  {
    AdvanceOffset(0, n)
  }

  /** What one entry asks of the buffer.  An entry that is not bound takes no
      room at all. */
  datatype Slot = Slot(bound: bool, variable: bool, byteCount: nat)

  /** Bytes before the value: a status DWORD, then a DBLENGTH when variable. */
  function HeaderSize(variable: bool): nat
  {
    SIZEOF_DWORD + (if variable then SIZEOF_DBLENGTH else 0)
  }

  function SlotSize(s: Slot): (r: nat)
    ensures r % 4 == 0
    ensures s.bound ==> HeaderSize(s.variable) + s.byteCount <= r
    ensures !s.bound ==> r == 0
  {
    if s.bound then HeaderSize(s.variable) + RoundUp4(s.byteCount) else 0
  }

  /** Bytes taken by a sequence of entries laid out one after another. */
  function Sum(slots: seq<Slot>): (r: nat)
    decreases |slots|
  {
    if slots == [] then 0 else Sum(slots[..|slots| - 1]) + SlotSize(slots[|slots| - 1])
  }

  /** Start of entry k: everything bound before it. */
  function OffsetOf(slots: seq<Slot>, k: nat): nat
    requires k <= |slots|
  {
    Sum(slots[..k])
  }

  /** Position of the value of an entry that starts at `start`. */
  function ValueOffset(start: nat, variable: bool): nat
  {
    start + HeaderSize(variable)
  }

  // --------------------------------------------------------------- lemmas

  lemma {:induction false} SumAligned(slots: seq<Slot>)
    ensures Sum(slots) % 4 == 0
    decreases |slots|
  {
    if slots != [] {
      var init := slots[..|slots| - 1];
      SumAligned(init);
      var a, b := Sum(init), SlotSize(slots[|slots| - 1]);
      assert a == 4 * (a / 4) && b == 4 * (b / 4);
      assert Sum(slots) == 4 * (a / 4 + b / 4);
    }
  }

  lemma SumAppend(slots: seq<Slot>, s: Slot)
    ensures Sum(slots + [s]) == Sum(slots) + SlotSize(s)
  {
    assert (slots + [s])[..|slots|] == slots;
  }

  /** Offsets never decrease along the entries. */
  lemma {:induction false} OffsetMonotone(slots: seq<Slot>, j: nat, k: nat)
    requires j <= k <= |slots|
    ensures OffsetOf(slots, j) <= OffsetOf(slots, k)
    decreases k - j
  {
    if j < k {
      OffsetMonotone(slots, j, k - 1);
      assert slots[..k] == slots[..k - 1] + [slots[k - 1]];
      SumAppend(slots[..k - 1], slots[k - 1]);
    }
  }

  /** A bound entry's status, length and value fit before the next entry
      starts, and every later entry starts after it: entries never overlap
      and bound entries have strictly increasing offsets. */
  lemma EntryFits(slots: seq<Slot>, k: nat, m: nat)
    requires k < m <= |slots| && slots[k].bound
    ensures OffsetOf(slots, k) + HeaderSize(slots[k].variable) + slots[k].byteCount <= OffsetOf(slots, k + 1)
    ensures OffsetOf(slots, k) < OffsetOf(slots, k + 1) <= OffsetOf(slots, m)
  {
    assert slots[..k + 1] == slots[..k] + [slots[k]];
    SumAppend(slots[..k], slots[k]);
    OffsetMonotone(slots, k + 1, m);
  }

  /** An unbound entry does not move the offset. */
  lemma UnboundTakesNothing(slots: seq<Slot>, k: nat)
    requires k < |slots| && !slots[k].bound
    ensures OffsetOf(slots, k + 1) == OffsetOf(slots, k)
  {
    assert slots[..k + 1] == slots[..k] + [slots[k]];
    SumAppend(slots[..k], slots[k]);
  }

  /** Two distinct bound entries occupy disjoint byte ranges. */
  lemma Disjoint(slots: seq<Slot>, j: nat, k: nat)
    requires j < k < |slots| && slots[j].bound && slots[k].bound
    ensures OffsetOf(slots, j) + HeaderSize(slots[j].variable) + slots[j].byteCount <= OffsetOf(slots, k)
  {
    EntryFits(slots, j, k);
  }

  /** Every entry lies inside the total. */
  lemma EntryInsideTotal(slots: seq<Slot>, k: nat)
    requires k < |slots| && slots[k].bound
    ensures OffsetOf(slots, k) + HeaderSize(slots[k].variable) + slots[k].byteCount <= Sum(slots)
  {
    EntryFits(slots, k, |slots|);
    assert slots[..|slots|] == slots;
  }

  /** The ADVANCE_OFFSET steps of one bound entry, from an aligned offset,
      move the offset by exactly SlotSize, and the length and value fields sit
      at +4 and +4/+8.  This is the step every layout loop repeats. */
  lemma PlaceEntry(next: nat, s: Slot)
    requires next % 4 == 0 && s.bound
    ensures AdvanceOffset(next, SIZEOF_DWORD) == next + SIZEOF_DWORD
    ensures AdvanceOffset(next + SIZEOF_DWORD, SIZEOF_DBLENGTH) == next + SIZEOF_DWORD + SIZEOF_DBLENGTH
    ensures AdvanceOffset(ValueOffset(next, s.variable), s.byteCount) == next + SlotSize(s)
  {
    AdvanceAligned(ValueOffset(next, s.variable), s.byteCount);
  }

  /** One iteration of a layout loop at entry i: the ADVANCE_OFFSET steps
      from the offset reached so far land on the offset of entry i + 1. */
  lemma LayoutStep(slots: seq<Slot>, i: nat)
    requires i < |slots| && slots[i].bound
    ensures var n := Sum(slots[..i]);
      && AdvanceOffset(n, SIZEOF_DWORD) == n + SIZEOF_DWORD
      && AdvanceOffset(n + SIZEOF_DWORD, SIZEOF_DBLENGTH) == n + SIZEOF_DWORD + SIZEOF_DBLENGTH
      && AdvanceOffset(ValueOffset(n, slots[i].variable), slots[i].byteCount) == Sum(slots[..i + 1])
  {
    SumAligned(slots[..i]);
    PlaceEntry(Sum(slots[..i]), slots[i]);
    assert slots[..i + 1] == slots[..i] + [slots[i]];
    SumAppend(slots[..i], slots[i]);
  }

  /** An unbound entry leaves the running offset where it was. */
  lemma LayoutSkip(slots: seq<Slot>, i: nat)
    requires i < |slots| && !slots[i].bound
    ensures Sum(slots[..i + 1]) == Sum(slots[..i])
  {
    UnboundTakesNothing(slots, i);
  }

  // -------------------------------------------------- metadata rowset layout

  /** One column of the columns rowset as the provider describes it. */
  datatype MetaColumnInfo = MetaColumnInfo(wType: DbType, columnSize: U32)

  /** The binding the driver builds for it (oledb_stmt.c, metadata rowset). */
  datatype MetaBinding = MetaBinding(
    wType: DbType, cbMaxLen: nat, obStatus: nat, obLength: nat, obValue: nat)

  /** Value size reserved for a metadata column; 0 for the types the switch
      does not list (the bindings array is zero-filled). */
  function MetaMaxLen(m: MetaColumnInfo): nat
  {
    if m.wType & DBTYPE_BYREF != 0 then SIZEOF_POINTER
    else if m.wType == DBTYPE_WSTR then Wrap32((m.columnSize + 1) * SIZEOF_WCHAR)
    else if m.wType == DBTYPE_UI2 || m.wType == DBTYPE_BOOL || m.wType == DBTYPE_I4 || m.wType == DBTYPE_UI4 then SIZEOF_DWORD
    else if m.wType == DBTYPE_I8 || m.wType == DBTYPE_UI8 then SIZEOF_DWORD * 2
    else if m.wType == DBTYPE_VARIANT then SIZEOF_VARIANT
    else if m.wType == DBTYPE_GUID then SIZEOF_GUID
    else if m.wType == DBTYPE_IUNKNOWN then SIZEOF_POINTER
    else 0
  }

  /** Every metadata column is bound with status, length and value. */
  function MetaSlot(m: MetaColumnInfo): Slot
  {
    Slot(true, true, MetaMaxLen(m))
  }

  function MetaSlots(infos: seq<MetaColumnInfo>): (r: seq<Slot>)
    ensures |r| == |infos|
    ensures forall k :: 0 <= k < |infos| ==> r[k] == MetaSlot(infos[k])
  {
    seq(|infos|, k requires 0 <= k < |infos| => MetaSlot(infos[k]))
  }

  /** Binding k carries the column's type and size and sits at entry k of
      the layout: status, then length, then value. */
  predicate MetaBindingAt(b: MetaBinding, m: MetaColumnInfo, start: nat)
  {
    && b.wType == m.wType
    && b.cbMaxLen == MetaMaxLen(m)
    && b.obStatus == start
    && b.obLength == start + SIZEOF_DWORD
    && b.obValue == start + SIZEOF_DWORD + SIZEOF_DBLENGTH
  }

  /** The binding loop of the metadata reader: returns the bindings and the
      size of the buffer to allocate. */
  method MetaBindings(infos: seq<MetaColumnInfo>) returns (bindings: seq<MetaBinding>, size: nat)
    ensures |bindings| == |infos|
    ensures size == Sum(MetaSlots(infos))
    ensures forall k :: 0 <= k < |infos| ==> MetaBindingAt(bindings[k], infos[k], OffsetOf(MetaSlots(infos), k))
  {
    ghost var slots := MetaSlots(infos);
    var nextOffset: nat := 0;
    bindings := [];
    var i := 0;
    while i < |infos|
      invariant 0 <= i <= |infos|
      invariant |bindings| == i
      invariant nextOffset == Sum(slots[..i])
      invariant forall k :: 0 <= k < i ==> MetaBindingAt(bindings[k], infos[k], OffsetOf(slots, k))
    {
      var cbMaxLen := MetaMaxLen(infos[i]);
      LayoutStep(slots, i);
      var obStatus := nextOffset;
      nextOffset := AdvanceOffset(nextOffset, SIZEOF_DWORD);
      var obLength := nextOffset;
      nextOffset := AdvanceOffset(nextOffset, SIZEOF_DBLENGTH);
      var obValue := nextOffset;
      nextOffset := AdvanceOffset(nextOffset, cbMaxLen);
      var b := MetaBinding(infos[i].wType, cbMaxLen, obStatus, obLength, obValue);
      assert MetaBindingAt(b, infos[i], OffsetOf(slots, i));
      bindings := bindings + [b];
      i := i + 1;
    }
    assert slots[..|infos|] == slots;
    size := nextOffset;
  }

  // ------------------------------------------------ 32-bit little-endian words

  /** The n low bytes of w, low byte first. */
  function LowBytes(w: nat, n: nat): (r: seq<Byte>)
    ensures |r| == n
    decreases n
  {
    if n == 0 then [] else [(w % 256) as Byte] + LowBytes(w / 256, n - 1)
  }

  /** The four bytes of a DWORD as an x86 stores them, low byte first. */
  function LE32(x: int): (r: seq<Byte>)
    ensures |r| == 4
  {
    LowBytes(Wrap32(x), 4)
  }

  /** 256 to the power n. */
  function Pow256(n: nat): (r: nat)
    ensures r >= 1
  {
    if n == 0 then 1 else 256 * Pow256(n - 1)
  }

  /** The unsigned value of the n bytes at off, low byte first. */
  function ReadLE(s: seq<Byte>, off: nat, n: nat): (r: nat)
    requires off + n <= |s|
    ensures r < Pow256(n)
    decreases n
  {
    if n == 0 then 0 else s[off] as nat + 256 * ReadLE(s, off + 1, n - 1)
  }

  /** The DWORD stored at off, as an x86 reads it. */
  function ReadLE32(s: seq<Byte>, off: nat): (r: nat)
    requires off + 4 <= |s|
    ensures r < TWO_32
  {
    assert Pow256(4) == TWO_32;
    ReadLE(s, off, 4)
  }

  /** Reading back a stored DWORD yields the value modulo 2^32. */
  lemma ReadLE32OfLE32(x: int, s: seq<Byte>, off: nat)
    requires off + 4 <= |s| && s[off..off + 4] == LE32(x)
    ensures ReadLE32(s, off) == Wrap32(x)
  {
    var w := Wrap32(x);
    var r1 := w / 256;
    var r2 := r1 / 256;
    var r3 := r2 / 256;
    assert r3 < 256;
    assert LE32(x) == [(w % 256) as Byte] + LowBytes(r1, 3);
    assert LowBytes(r1, 3) == [(r1 % 256) as Byte] + LowBytes(r2, 2);
    assert LowBytes(r2, 2) == [(r2 % 256) as Byte] + LowBytes(r3, 1);
    assert LowBytes(r3, 1) == [(r3 % 256) as Byte] + LowBytes(r3 / 256, 0);
    assert s[off] == LE32(x)[0] && s[off + 1] == LE32(x)[1];
    assert s[off + 2] == LE32(x)[2] && s[off + 3] == LE32(x)[3];
    assert ReadLE(s, off, 4) == s[off] as nat + 256 * ReadLE(s, off + 1, 3);
    assert ReadLE(s, off + 1, 3) == s[off + 1] as nat + 256 * ReadLE(s, off + 2, 2);
    assert ReadLE(s, off + 2, 2) == s[off + 2] as nat + 256 * ReadLE(s, off + 3, 1);
    assert ReadLE(s, off + 3, 1) == s[off + 3] as nat + 256 * ReadLE(s, off + 4, 0);
    assert w == w % 256 + 256 * r1;
    assert r1 == r1 % 256 + 256 * r2;
    assert r2 == r2 % 256 + 256 * (r2 / 256);
  }
}
