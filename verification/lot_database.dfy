/** api/lot_database.py: the `lots` table, its row -> `Lot` mapping, the lookups by id and by
    name, and the randomisation of capacities and occupancies.

    The table is a class holding its rows. `lot_id` is taken to be the table's primary key (the
    schema is not part of this model), and the rows are kept in that key's order, so the rows of
    `SELECT * FROM lots ORDER BY lot_id` are the stored rows in stored order, and the unordered
    `SELECT * FROM lots` of `randomize_Lot_Data` is taken to return that same order. Each call of
    `random()` is replaced by the next number of a `draws` sequence in [0, 1). */
module LotDatabase {
  import opened Wrappers
  import opened Seqs
  import opened LotModel

  /** A row of the `lots` table by position: (lot_id, lot_name, total_capacity, current, type, hours). */
  type LotRow = (int, string, int, int, string, string)

  /** The positional mapping used by `fetch_all_lots`, `fetch_lot_by_id` and `fetch_lot_by_name`. */
  function RowToLot(row: LotRow): (l: Lot)
    ensures LotToRow(l) == row
  {
    Lot(row.0, row.1, row.2, row.3, row.4, row.5)
  }

  /** The column order of the table, the inverse of RowToLot. */
  function LotToRow(l: Lot): (row: LotRow)
  {
    (l.lotId, l.lotName, l.totalCapacity, l.current, l.lotType, l.hours)
  }

  /** Positions 0..5 land in lot_id, lot_name, total_capacity, current, type and hours, and
      nothing is lost in either direction. */
  lemma RowLotRoundTrip(row: LotRow, l: Lot)
    ensures LotToRow(RowToLot(row)) == row
    ensures RowToLot(LotToRow(l)) == l
    ensures RowToLot(row).lotId == row.0 && RowToLot(row).lotName == row.1
    ensures RowToLot(row).totalCapacity == row.2 && RowToLot(row).current == row.3
    ensures RowToLot(row).lotType == row.4 && RowToLot(row).hours == row.5
  {
  }

  /** The assumed primary key: ids strictly ascending in stored order (hence unique). */
  ghost predicate IdsAscending(rows: seq<LotRow>)
  {
    forall i, j :: 0 <= i < j < |rows| ==> rows[i].0 < rows[j].0
  }

  /** Every lot's occupancy lies between 0 and its capacity. */
  ghost predicate OccupancyInBounds(rows: seq<LotRow>)
  {
    forall i :: 0 <= i < |rows| ==> 0 <= rows[i].3 <= rows[i].2
  }

  /** Python's `int(x)` on a float: truncation toward zero. */
  function Trunc(x: real): (n: int)
    ensures 0.0 <= x ==> n as real <= x < n as real + 1.0
    ensures x < 0.0 ==> n as real - 1.0 < x <= n as real
  {
    if x >= 0.0 then x.Floor else -((-x).Floor)
  }

  /** `rand_capacity()` for the draw `r` of `random()`: `int(r * 500) + 50`. */
  function RandCapacity(r: real): (c: int)
    requires 0.0 <= r < 1.0
    ensures 50 <= c <= 549
  {
    Trunc(r * 500.0) + 50
  }

  /** `rand_current(capacity)` for the draw `r` of `random()`: `int(r * capacity)`. */
  function RandCurrent(capacity: int, r: real): (c: int)
    requires 0.0 <= r < 1.0
    ensures capacity >= 1 ==> 0 <= c <= capacity - 1
    ensures capacity == 0 ==> c == 0
    ensures capacity < 0 ==> capacity < c <= 0
  {
    var x := Scaled(r, capacity);
    TruncBelow(x, capacity);
    Trunc(x)
  }

  /** `random() * k`: a draw in [0, 1) scales `k` to a value between 0 (included) and `k`
      (excluded). */
  function Scaled(r: real, k: int): (x: real)
    requires 0.0 <= r < 1.0
    ensures k > 0 ==> 0.0 <= x < k as real
    ensures k < 0 ==> k as real < x <= 0.0
    ensures k == 0 ==> x == 0.0
  {
    var kr := k as real;
    assert kr - r * kr == (1.0 - r) * kr;
    if k > 0 then
      assert 0.0 <= r * kr && 0.0 < (1.0 - r) * kr;
      r * kr
    else if k < 0 then
      assert r * kr <= 0.0 && (1.0 - r) * kr < 0.0;
      r * kr
    else r * kr
  }

  /** Truncating a value strictly between 0 and `k` (either way round) gives an integer from 0
      toward `k`, never `k` itself. */
  lemma TruncBelow(x: real, k: int)
    requires k > 0 ==> 0.0 <= x < k as real
    requires k < 0 ==> k as real < x <= 0.0
    requires k == 0 ==> x == 0.0
    ensures k >= 1 ==> 0 <= Trunc(x) <= k - 1
    ensures k == 0 ==> Trunc(x) == 0
    ensures k < 0 ==> k < Trunc(x) <= 0
  {
  }

  /** The row after `UPDATE lots SET total_capacity = .., current = ..` with the two draws. */
  function RandomizedRow(row: LotRow, rCapacity: real, rCurrent: real): (out: LotRow)
    requires 0.0 <= rCapacity < 1.0 && 0.0 <= rCurrent < 1.0
    ensures out.0 == row.0 && out.1 == row.1 && out.4 == row.4 && out.5 == row.5
    ensures 50 <= out.2 <= 549 && 0 <= out.3 < out.2
  {
    var capacity := RandCapacity(rCapacity);
    (row.0, row.1, capacity, RandCurrent(capacity, rCurrent), row.4, row.5)
  }

  predicate DrawsValid(draws: seq<real>)
  {
    forall i :: 0 <= i < |draws| ==> 0.0 <= draws[i] < 1.0
  }

  /** The table after `randomize_Lot_Data(lot_id, all_lots)`: with `all_lots` row i consumes the
      draws 2i and 2i+1; otherwise only the rows with `lot_id` change, using draws 0 and 1 (which
      are drawn even when no row has that id). */
  function Randomized(rows: seq<LotRow>, lotId: int, allLots: bool, draws: seq<real>): (out: seq<LotRow>)
    requires DrawsValid(draws)
    requires |draws| >= if allLots then 2 * |rows| else 2
    ensures |out| == |rows|
  {
    if allLots then
      seq(|rows|, i requires 0 <= i < |rows| => RandomizedRow(rows[i], draws[2 * i], draws[2 * i + 1]))
    else
      seq(|rows|, i requires 0 <= i < |rows| =>
        if rows[i].0 == lotId then RandomizedRow(rows[i], draws[0], draws[1]) else rows[i])
  }

  /** Randomising never touches ids, names, types or hours; with `all_lots` every lot ends up
      with a capacity in [50, 549] and an occupancy below it; otherwise only rows with the given
      id change, and they end up in those same bounds. */
  lemma RandomizedProperties(rows: seq<LotRow>, lotId: int, allLots: bool, draws: seq<real>)
    requires DrawsValid(draws)
    requires |draws| >= if allLots then 2 * |rows| else 2
    ensures var out := Randomized(rows, lotId, allLots, draws);
      && (forall i :: 0 <= i < |rows| ==>
            out[i].0 == rows[i].0 && out[i].1 == rows[i].1 && out[i].4 == rows[i].4 && out[i].5 == rows[i].5)
      && (forall i :: 0 <= i < |rows| && (allLots || rows[i].0 == lotId) ==>
            50 <= out[i].2 <= 549 && 0 <= out[i].3 < out[i].2)
      && (!allLots ==> forall i :: 0 <= i < |rows| && rows[i].0 != lotId ==> out[i] == rows[i])
  {
  }

  /** Randomising every lot leaves the whole table within capacity. */
  lemma RandomizedAllInBounds(rows: seq<LotRow>, draws: seq<real>)
    requires DrawsValid(draws) && |draws| >= 2 * |rows|
    ensures OccupancyInBounds(Randomized(rows, 0, true, draws))
  {
    RandomizedProperties(rows, 0, true, draws);
  }

  /** The `lots` table. */
  class LotsTable {
    var rows: seq<LotRow>

    ghost predicate Valid()
      reads this
    {
      IdsAscending(rows)
    }

    constructor (initial: seq<LotRow>)
      requires IdsAscending(initial)
      ensures Valid() && rows == initial
    {
      rows := initial;
    }

    /** `fetch_all_lots()`: one `Lot` per row, by position, in ascending `lot_id` order. */
    method FetchAllLots() returns (lots: seq<Lot>)
      requires Valid()
      ensures |lots| == |rows|
      ensures forall i :: 0 <= i < |rows| ==> LotToRow(lots[i]) == rows[i]
      ensures forall i, j :: 0 <= i < j < |lots| ==> lots[i].lotId < lots[j].lotId
    {
      lots := [];
      for i := 0 to |rows|
        invariant |lots| == i
        invariant forall k :: 0 <= k < i ==> LotToRow(lots[k]) == rows[k]
      {
        lots := lots + [RowToLot(rows[i])];
      }
    }

    /** `fetch_lot_by_id(lot_id)`: the lot of the row with that id, or None when no row has it. */
    function FetchLotById(lotId: int): (r: Option<Lot>)
      reads this
      ensures r.None? <==> forall i :: 0 <= i < |rows| ==> rows[i].0 != lotId
      ensures r.Some? ==> r.value.lotId == lotId && LotToRow(r.value) in rows
      ensures Valid() ==> forall i :: 0 <= i < |rows| && rows[i].0 == lotId ==> r == Some(RowToLot(rows[i]))
    {
      match FirstIndex(rows, (row: LotRow) => row.0 == lotId)
      case None => None
      case Some(k) => Some(RowToLot(rows[k]))
    }

    /** `fetch_lot_by_name(lot_name)`: the lot of the first row with that name (names are not a
        key), or None when no row has it. */
    function FetchLotByName(lotName: string): (r: Option<Lot>)
      reads this
      ensures r.None? <==> forall i :: 0 <= i < |rows| ==> rows[i].1 != lotName
      ensures r.Some? ==> exists k :: 0 <= k < |rows| && r.value == RowToLot(rows[k]) &&
                                      r.value.lotName == lotName &&
                                      forall j :: 0 <= j < k ==> rows[j].1 != lotName
    {
      match FirstIndex(rows, (row: LotRow) => row.1 == lotName)
      case None => None
      case Some(k) => Some(RowToLot(rows[k]))
    }

    /** `randomize_Lot_Data(lot_id, all_lots = False)`, with the draws of `random()` it uses. */
    method RandomizeLotData(lotId: int, draws: seq<real>, allLots: bool := false)
      requires Valid() && DrawsValid(draws)
      requires |draws| >= if allLots then 2 * |rows| else 2
      modifies this
      ensures Valid()
      ensures rows == Randomized(old(rows), lotId, allLots, draws)
    {
      ghost var before := rows;
      if allLots {
        for i := 0 to |rows|
          invariant |rows| == |before|
          invariant forall k :: 0 <= k < i ==> rows[k] == RandomizedRow(before[k], draws[2 * k], draws[2 * k + 1])
          invariant forall k :: i <= k < |rows| ==> rows[k] == before[k]
        {
          var capacity := RandCapacity(draws[2 * i]);
          var current := RandCurrent(capacity, draws[2 * i + 1]);
          rows := rows[i := (rows[i].0, rows[i].1, capacity, current, rows[i].4, rows[i].5)];
        }
      } else {
        var capacity := RandCapacity(draws[0]);
        var current := RandCurrent(capacity, draws[1]);
        match FirstIndex(rows, (row: LotRow) => row.0 == lotId)
        case None =>
        case Some(k) =>
          rows := rows[k := (rows[k].0, rows[k].1, capacity, current, rows[k].4, rows[k].5)];
      }
      assert forall k :: 0 <= k < |rows| ==> rows[k].0 == before[k].0;
    }
  }
}
