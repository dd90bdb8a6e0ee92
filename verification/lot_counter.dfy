/** `update_lots_current` of api/lot_helper.py: a vehicle entering or leaving moves one lot's
    `current` by one, guarded so that it never exceeds the capacity nor drops below zero.
    (It lives apart from the rest of lot_helper.py because it uses the table of lot_database.py,
    which itself uses the records of lot_helper.py.) */
module LotCounter {
  import opened Wrappers
  import opened Seqs
  import opened LotDatabase

  /** What a call does. The source prints a message and returns on a rejected event, and raises
      an AttributeError (`None` has no `total_capacity`) when the lot does not exist. */
  datatype UpdateOutcome =
    | Updated
    | CapacityExceeded   // entering a full lot
    | BelowZero          // leaving an empty lot
    | LotMissing         // fetch_lot_by_id returned None

  /** The guard of update_lots_current on a lot with `current` cars and room for `capacity`. */
  function Guard(current: int, capacity: int, isEntering: bool): (o: UpdateOutcome)
    ensures o != LotMissing
    ensures o == CapacityExceeded <==> isEntering && current + 1 > capacity
    ensures o == BelowZero <==> !isEntering && current - 1 < 0
  {
    if isEntering && current + 1 > capacity then CapacityExceeded
    else if !isEntering && current - 1 < 0 then BelowZero
    else Updated
  }

  /** The occupancy after an accepted event: one more on entry, one fewer on exit. */
  function Moved(current: int, isEntering: bool): int
  {
    if isEntering then current + 1 else current - 1
  }

  /** The outcome and the table after one event, as a function of the table before it. */
  function ApplyEvent(rows: seq<LotRow>, isEntering: bool, lotId: int): (res: (UpdateOutcome, seq<LotRow>))
    ensures |res.1| == |rows|
  {
    match FirstIndex(rows, (row: LotRow) => row.0 == lotId)
    case None => (LotMissing, rows)
    case Some(k) =>
      var row := rows[k];
      var o := Guard(row.3, row.2, isEntering);
      if o == Updated then (o, rows[k := (row.0, row.1, row.2, Moved(row.3, isEntering), row.4, row.5)])
      else (o, rows)
  }

  /** Rejections and a missing lot leave the table as it was; an accepted event changes the
      `current` of the target lot by exactly one in the event's direction and nothing else. */
  lemma ApplyEventEffect(rows: seq<LotRow>, isEntering: bool, lotId: int)
    requires IdsAscending(rows)
    ensures var (o, out) := ApplyEvent(rows, isEntering, lotId);
      && (o == LotMissing <==> forall i :: 0 <= i < |rows| ==> rows[i].0 != lotId)
      && (o != Updated ==> out == rows)
      && forall i :: 0 <= i < |rows| ==>
           && out[i].0 == rows[i].0 && out[i].1 == rows[i].1 && out[i].2 == rows[i].2
           && out[i].4 == rows[i].4 && out[i].5 == rows[i].5
           && (rows[i].0 != lotId ==> out[i] == rows[i])
           && (rows[i].0 == lotId ==>
                 && o == Guard(rows[i].3, rows[i].2, isEntering)
                 && out[i].3 == if o == Updated then Moved(rows[i].3, isEntering) else rows[i].3)
  {
  }

  /** Starting from a table where every lot has 0 <= current <= total_capacity, no event can
      break that. */
  lemma ApplyEventKeepsBounds(rows: seq<LotRow>, isEntering: bool, lotId: int)
    requires IdsAscending(rows) && OccupancyInBounds(rows)
    ensures OccupancyInBounds(ApplyEvent(rows, isEntering, lotId).1)
  {
    ApplyEventEffect(rows, isEntering, lotId);
  }

  /** In a table within bounds, an exit undoes an accepted entry and an entry undoes an
      accepted exit. */
  lemma {:induction false} EnterThenExit(rows: seq<LotRow>, lotId: int, isEntering: bool)
    requires IdsAscending(rows) && OccupancyInBounds(rows)
    requires ApplyEvent(rows, isEntering, lotId).0 == Updated
    ensures ApplyEvent(ApplyEvent(rows, isEntering, lotId).1, !isEntering, lotId) == (Updated, rows)
  {
    var out := ApplyEvent(rows, isEntering, lotId).1;
    ApplyEventEffect(rows, isEntering, lotId);
    assert forall i :: 0 <= i < |rows| ==> out[i].0 == rows[i].0;
    assert IdsAscending(out);
    ApplyEventEffect(out, !isEntering, lotId);
    var i :| 0 <= i < |rows| && rows[i].0 == lotId;
    assert Guard(out[i].3, out[i].2, !isEntering) == Updated;
    var back := ApplyEvent(out, !isEntering, lotId).1;
    assert forall j :: 0 <= j < |rows| ==> back[j] == rows[j];
    assert back == rows;
  }

  /** `update_lots_current(is_entering, lot_id)` against the lots table `db`. */
  method UpdateLotsCurrent(db: LotsTable, isEntering: bool, lotId: int) returns (outcome: UpdateOutcome)
    requires db.Valid()
    modifies db
    ensures db.Valid()
    ensures (outcome, db.rows) == ApplyEvent(old(db.rows), isEntering, lotId)
    ensures OccupancyInBounds(old(db.rows)) ==> OccupancyInBounds(db.rows)
  {
    ghost var before := db.rows;
    ApplyEventEffect(before, isEntering, lotId);
    var found := db.FetchLotById(lotId);
    if found.None? {
      return LotMissing;
    }
    var lot := found.value;
    outcome := Guard(lot.current, lot.totalCapacity, isEntering);
    if outcome != Updated {
      return;
    }
    var k :| 0 <= k < |db.rows| && db.rows[k].0 == lotId;
    var row := db.rows[k];
    db.rows := db.rows[k := (row.0, row.1, row.2, Moved(row.3, isEntering), row.4, row.5)];
  }
}
