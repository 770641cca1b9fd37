// The cursor arithmetic of oledb_stmt_fetch (oledb_stmt.c:1315-1356): for
// each fetch orientation, whether the rowset is restarted, the row offset
// and row count handed to GetNextRows, and the row index recorded after a
// successful fetch.
//
// The statement's rowIndex counts the rows the provider has moved past: it
// is meant to equal the provider's next-fetch position, which is also the
// 1-based number of the row the last fetch returned.  GetNextRows(skip, 1)
// from position p moves past `skip` rows, reads row p + skip + 1 and leaves
// the position there; RestartPosition moves back to 0.  The plan as written
// loses track of the position for FIRST after one row, for ABS without a
// restart and for REL; FetchPlan is the corrected plan, which the statement
// uses, and PlanTracksPosition proves it keeps rowIndex equal to the
// position.

module FetchPlans {
  /** PDO's fetch orientations. */
  datatype Orientation = Next | Prior | First | Last | Abs | Rel

  /** What the switch of oledb_stmt_fetch decides.  LAST is refused. */
  datatype Plan =
    | NotImplemented
    | Plan(restart: bool, rowOffset: int, rowsToFetch: int, newIndex: int)

  /** The switch as written (oledb_stmt.c:1315-1356). */
  function FetchPlanAsWritten(ori: Orientation, rowIndex: int, offset: int): Plan
  {
    match ori
    case First => Plan(rowIndex > 1, 0, 1, 1)
    case Abs =>
      if rowIndex > offset then Plan(true, offset, 1, offset + 1)
      else Plan(false, offset - rowIndex - 1, 1, offset + 1)
    case Prior => Plan(false, offset, -1, rowIndex)
    case Next => Plan(false, offset, 1, rowIndex + 1)
    case Rel => Plan(false, offset, 1, rowIndex + offset)
    case Last => NotImplemented
  }

  /** The switch with the three offsets corrected: FIRST restarts whenever a
      row has been read, ABS without a restart skips the rows between the
      position and the requested row, and REL skips one row fewer than its
      offset, since moving by the offset from the current row means reading
      the row `offset` on. */
  function FetchPlan(ori: Orientation, rowIndex: int, offset: int): (p: Plan)
    ensures ori == Last <==> p.NotImplemented?
    ensures ori != Last ==> p.rowsToFetch == (if ori == Prior then -1 else 1)
    ensures ori == First ==> p.newIndex == 1 && p.rowOffset == 0 && (p.restart <==> rowIndex > 0)
    ensures ori == Abs ==> p.newIndex == offset + 1 && (p.restart <==> rowIndex > offset)
    ensures ori == Next ==> !p.restart && p.newIndex == rowIndex + 1 && p.rowOffset == offset
    ensures ori == Rel ==> !p.restart && p.newIndex == rowIndex + offset
    ensures ori == Prior ==> !p.restart && p.newIndex == rowIndex
  {
    match ori
    case First => Plan(rowIndex > 0, 0, 1, 1)
    case Abs =>
      if rowIndex > offset then Plan(true, offset, 1, offset + 1)
      else Plan(false, offset - rowIndex, 1, offset + 1)
    case Prior => Plan(false, offset, -1, rowIndex)
    case Next => Plan(false, offset, 1, rowIndex + 1)
    case Rel => Plan(false, offset - 1, 1, rowIndex + offset)
    case Last => NotImplemented
  }

  /** The 1-based number of the row a forward fetch one row long reads from
      provider position `position`, which is also the position after it. */
  function Target(position: int, p: Plan): int
    requires p.Plan?
  {
    (if p.restart then 0 else position) + p.rowOffset + 1
  }

  /** The row each orientation asks for, from the row last read: the first
      row, row offset + 1 (ABS numbers rows from 0), the next row, and the
      row `offset` rows on. */
  function Requested(ori: Orientation, rowIndex: int, offset: int): int
    requires ori in {First, Abs, Next, Rel}
  {
    match ori
    case First => 1
    case Abs => offset + 1
    case Next => rowIndex + 1
    case Rel => rowIndex + offset
  }

  /** With the corrected plan, when rowIndex equals the provider position, a
      forward fetch reads the requested row and records its number, so
      rowIndex goes on equalling the position.  (NEXT skips `offset` rows
      before reading, so it keeps track only for the offset 0 PDO passes.) */
  lemma PlanTracksPosition(ori: Orientation, rowIndex: nat, offset: int)
    requires ori in {First, Abs, Next, Rel}
    requires ori == Next ==> offset == 0
    ensures var p := FetchPlan(ori, rowIndex, offset);
      && Target(rowIndex, p) == Requested(ori, rowIndex, offset)
      && p.newIndex == Target(rowIndex, p)
  {
  }

  /** The corrected plan differs from the written one only in the three
      places named above. */
  lemma PlanCorrections(ori: Orientation, rowIndex: int, offset: int)
    ensures ori in {Prior, Next, Last} ==> FetchPlan(ori, rowIndex, offset) == FetchPlanAsWritten(ori, rowIndex, offset)
    ensures ori == First && rowIndex != 1 ==> FetchPlan(ori, rowIndex, offset) == FetchPlanAsWritten(ori, rowIndex, offset)
    ensures ori == Abs && rowIndex > offset ==> FetchPlan(ori, rowIndex, offset) == FetchPlanAsWritten(ori, rowIndex, offset)
  {
  }

  /** oledb_stmt.c:1317: after one row has been read, FIRST does not restart
      and reads the second row, while recording row 1. */
  lemma FirstAfterOneRowAsWritten()
    ensures var p := FetchPlanAsWritten(First, 1, 0);
      && Target(1, p) == 2 && p.newIndex == 1 && Requested(First, 1, 0) == 1
  {
  }

  /** oledb_stmt.c:1335: ABS to row offset + 1 = 2 after reading row 1 skips
      -1 rows, reads row 1 again and records row 2. */
  lemma AbsWithoutRestartAsWritten()
    ensures var p := FetchPlanAsWritten(Abs, 1, 1);
      && Target(1, p) == 1 && p.newIndex == 2 && Requested(Abs, 1, 1) == 2
  {
  }

  /** oledb_stmt.c:1349-1352: REL by 1 after reading row 1 skips one row,
      reads row 3 and records row 2. */
  lemma RelAsWritten()
    ensures var p := FetchPlanAsWritten(Rel, 1, 1);
      && Target(1, p) == 3 && p.newIndex == 2 && Requested(Rel, 1, 1) == 2
  {
  }
}
