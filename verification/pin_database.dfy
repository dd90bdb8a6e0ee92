/** api/pin_database.py: user-dropped pins on a lot, kept in the `pins` table. Inserts are
    checked against the known lot ids and pins expire 30 minutes after they were created.

    The table is a class holding its pins in insertion order. Timestamps are whole seconds, and
    the clock (`datetime.now()` / `NOW()`) is a parameter `now`. */
module PinDatabase {
  import opened Seqs
  import opened LotModel

  /** The `pin` record; `time_alive` defaults to the moment the pin is created. */
  datatype Pin = Pin(lotId: int, locX: real, locY: real, timeAlive: int)

  /** A column value of a fetched row. */
  datatype Cell = IntCell(i: int) | RealCell(r: real) | TimeCell(t: int)

  /** How long a pin lives, in seconds: `INTERVAL '30 minutes'`. */
  const Lifetime: int := 30 * 60

  /** `create_pin_object(lot_id=-1, loc_x=0.0, loc_y=0.0)`, stamped with the clock reading `now`. */
  function CreatePinObject(now: int, lotId: int := -1, locX: real := 0.0, locY: real := 0.0): (p: Pin)
    ensures p.lotId == lotId && p.locX == locX && p.locY == locY && p.timeAlive == now
  {
    Pin(lotId, locX, locY, now)
  }

  /** `insert_pin` accepts a pin only when its lot id is a key of `lot_dict()`. */
  predicate Accepted(p: Pin)
  {
    p.lotId in LotDict()
  }

  /** The pins after `insert_pin(p)`. */
  function Inserted(pins: seq<Pin>, p: Pin): seq<Pin>
  {
    if Accepted(p) then pins + [p] else pins
  }

  /** An accepted insert adds exactly that pin, once, at the end; a rejected one changes nothing. */
  lemma InsertEffect(pins: seq<Pin>, p: Pin)
    ensures Accepted(p) <==> 0 <= p.lotId < 12
    ensures Accepted(p) ==> |Inserted(pins, p)| == |pins| + 1 && Inserted(pins, p)[|pins|] == p &&
                            Inserted(pins, p)[..|pins|] == pins
    ensures !Accepted(p) ==> Inserted(pins, p) == pins
    ensures multiset(Inserted(pins, p)) == multiset(pins) + (if Accepted(p) then multiset{p} else multiset{})
  {
  }

  /** A pin made with the default arguments names lot -1, which no insert accepts. */
  lemma DefaultPinRejected(pins: seq<Pin>, now: int)
    ensures CreatePinObject(now) == Pin(-1, 0.0, 0.0, now)
    ensures Inserted(pins, CreatePinObject(now)) == pins
  {
  }

  /** `WHERE time_alive < NOW() - INTERVAL '30 minutes'`. */
  predicate Expired(p: Pin, now: int)
  {
    p.timeAlive < now - Lifetime
  }

  function Live(now: int): Pin -> bool
  {
    (p: Pin) => !Expired(p, now)
  }

  /** The pins that survive `delete_old_pins()` at time `now`. */
  function Unexpired(pins: seq<Pin>, now: int): seq<Pin>
  {
    Filter(pins, Live(now))
  }

  /** A pin survives exactly when it was stored and is at most 30 minutes old; survivors keep
      their multiplicity. */
  lemma UnexpiredMembership(pins: seq<Pin>, now: int, p: Pin)
    ensures p in Unexpired(pins, now) <==> p in pins && p.timeAlive >= now - Lifetime
    ensures multiset(Unexpired(pins, now))[p] == if Expired(p, now) then 0 else multiset(pins)[p]
  {
    FilterMembership(pins, Live(now), p);
    FilterMultiset(pins, Live(now), p);
  }

  /** Deleting twice at the same moment removes nothing more; deleting at `now` and later at
      `later` is the same as deleting once at `later`. */
  lemma ExpiryComposes(pins: seq<Pin>, now: int, later: int)
    requires now <= later
    ensures Unexpired(Unexpired(pins, now), now) == Unexpired(pins, now)
    ensures Unexpired(Unexpired(pins, now), later) == Unexpired(pins, later)
  {
    FilterIdempotent(pins, Live(now));
    FilterStronger(pins, Live(now), Live(later));
  }

  /** A row of `SELECT * FROM pins`: (lot_id, loc_x, loc_y, time) by position. */
  function PinRow(p: Pin): (row: seq<Cell>)
    ensures |row| == 4
  {
    [IntCell(p.lotId), RealCell(p.locX), RealCell(p.locY), TimeCell(p.timeAlive)]
  }

  /** `data_type` of `fetch_all_pins`. */
  const DataType: seq<string> := ["lot_id", "loc_x", "loc_y", "time_alive"]

  /** The dict built from the first `x` columns of `row`. */
  function PartialRecord(row: seq<Cell>, x: nat): map<string, Cell>
    requires x <= |DataType| && x <= |row|
  {
    if x == 0 then map[] else PartialRecord(row, x - 1)[DataType[x - 1] := row[x - 1]]
  }

  /** The dict `fetch_all_pins` builds from a row. */
  function PinRecord(row: seq<Cell>): map<string, Cell>
    requires |row| == 4
  {
    PartialRecord(row, 4)
  }

  /** A fetched record has exactly the keys lot_id, loc_x, loc_y and time_alive, holding the
      row's positions 0 to 3, so the pin can be read back from it unchanged. */
  lemma PinRecordFields(p: Pin)
    ensures var r := PinRecord(PinRow(p));
      && r.Keys == {"lot_id", "loc_x", "loc_y", "time_alive"}
      && r["lot_id"] == IntCell(p.lotId) && r["loc_x"] == RealCell(p.locX)
      && r["loc_y"] == RealCell(p.locY) && r["time_alive"] == TimeCell(p.timeAlive)
      && Pin(r["lot_id"].i, r["loc_x"].r, r["loc_y"].r, r["time_alive"].t) == p
  {
    var row := PinRow(p);
    assert PartialRecord(row, 1) == map["lot_id" := row[0]];
    assert PartialRecord(row, 2) == map["lot_id" := row[0], "loc_x" := row[1]];
    assert PartialRecord(row, 3) == map["lot_id" := row[0], "loc_x" := row[1], "loc_y" := row[2]];
    assert PartialRecord(row, 4) == map["lot_id" := row[0], "loc_x" := row[1], "loc_y" := row[2], "time_alive" := row[3]];
  }

  /** The `pins` table. */
  class PinTable {
    var pins: seq<Pin>

    /** Every stored pin names a known lot. */
    ghost predicate Valid()
      reads this
    {
      forall p :: p in pins ==> Accepted(p)
    }

    constructor ()
      ensures Valid() && pins == []
    {
      pins := [];
    }

    /** `insert_pin(pin)`; `inserted` is false where the source prints its error and returns. */
    method InsertPin(p: Pin) returns (inserted: bool)
      requires Valid()
      modifies this
      ensures Valid()
      ensures inserted == Accepted(p)
      ensures pins == Inserted(old(pins), p)
    {
      if p.lotId !in LotDict() {
        return false;
      }
      pins := pins + [p];
      return true;
    }

    /** `delete_old_pins()` at time `now`. */
    method DeleteOldPins(now: int)
      requires Valid()
      modifies this
      ensures Valid()
      ensures pins == Unexpired(old(pins), now)
    {
      var kept: seq<Pin> := [];
      for i := 0 to |pins|
        invariant kept == Unexpired(pins[..i], now)
      {
        assert pins[..i + 1][..i] == pins[..i];
        if !(pins[i].timeAlive < now - Lifetime) {
          kept := kept + [pins[i]];
        }
      }
      assert pins[..|pins|] == pins;
      forall q | q in kept
        ensures q in pins
      {
        FilterMembership(pins, Live(now), q);
      }
      pins := kept;
    }

    /** `fetch_all_pins()`: one dict per row, in table order. */
    method FetchAllPins() returns (joined: seq<map<string, Cell>>)
      ensures |joined| == |pins|
      ensures forall i :: 0 <= i < |pins| ==> joined[i] == PinRecord(PinRow(pins[i]))
    {
      joined := [];
      for n := 0 to |pins|
        invariant |joined| == n
        invariant forall i :: 0 <= i < n ==> joined[i] == PinRecord(PinRow(pins[i]))
      {
        var tups := PinRow(pins[n]);
        var temp: map<string, Cell> := map[];
        for x := 0 to |DataType|
          invariant temp == PartialRecord(tups, x)
        {
          temp := temp[DataType[x] := tups[x]];
        }
        joined := joined + [temp];
      }
    }
  }
}
