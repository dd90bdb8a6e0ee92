/** The records of api/lot_helper.py (`Lot`, `LotSummary`) and its id -> name table `lot_dict`. */
module LotModel {

  /** One parking lot as stored in the `lots` table. `type` is a Dafny keyword, hence `lotType`. */
  datatype Lot = Lot(
    lotId: int,
    lotName: string,
    totalCapacity: int,
    current: int,
    lotType: string,
    hours: string)

  /** The crowd level reported to clients (the `Literal` of `LotSummary.state`). */
  datatype CrowdState = EMPTY | LIGHT | MEDIUM | HEAVY | FULL

  /** A lot as returned by the HTTP API: the stored fields plus the computed occupancy. */
  datatype LotSummary = LotSummary(
    lotId: int,
    lotName: string,
    totalCapacity: int,
    current: int,
    percentFull: int,
    state: CrowdState,
    lotType: string,
    hours: string)

  /** The known lots by id, as listed by `lot_dict()`: ids 0 to 11, in that order, name the
      lots P1, P2, P3, P5, P6, P9, P10, P11, P13, P15, P20 and P27. */
  function LotDict(): (d: map<int, string>)
    ensures forall id :: id in d <==> 0 <= id < 12
  {
    map[0 := "P1", 1 := "P2", 2 := "P3", 3 := "P5", 4 := "P6", 5 := "P9",
        6 := "P10", 7 := "P11", 8 := "P13", 9 := "P15", 10 := "P20", 11 := "P27"]
  }

  /** Listed by ascending id, the table's names are the campus lot names in increasing lot number. */
  lemma LotDictNames()
    ensures forall id :: 0 <= id < 12 ==>
      LotDict()[id] == ["P1", "P2", "P3", "P5", "P6", "P9", "P10", "P11", "P13", "P15", "P20", "P27"][id]
  {
  }

  /** The table has exactly twelve entries. */
  lemma LotDictSize()
    ensures |LotDict()| == 12
  {
    LotDictKeys();
    TwelveIds();
  }

  lemma LotDictKeys()
    ensures LotDict().Keys == {0, 1, 2, 3, 4, 5, 6, 7, 8, 9, 10, 11}
  {
  }

  lemma TwelveIds()
    ensures |{0, 1, 2, 3, 4, 5, 6, 7, 8, 9, 10, 11}| == 12
  {
  }
}
