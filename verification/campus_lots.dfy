/** frontend/src/ui/data/campusLots.ts: the catalog of lots drawn on the campus map, each a
    rectangle in coordinates normalised to the map image ([0, 1] on both axes). */
module CampusLots {
  import opened Wrappers
  import opened Seqs
  import opened LotModel

  /** `LotBlock`; `lngLat` is the optional [longitude, latitude] anchor. */
  datatype LotBlock = LotBlock(id: int, name: string, x: real, y: real, w: real, h: real,
                               lngLat: Option<(real, real)>)

  /** `LOTS`, in source order. Lots 6 (P10) and 8 (P13) have no block. */
  const LOTS: seq<LotBlock> := [
    LotBlock(0, "P1", 0.5590, 0.7047, 0.1622, 0.0719, None),
    LotBlock(1, "P2", 0.6590, 0.6150, 0.0630, 0.0890, None),
    LotBlock(2, "P3", 0.7300, 0.6500, 0.0300, 0.1350, None),
    LotBlock(3, "P5", 0.6550, 0.4900, 0.0700, 0.1200, None),
    LotBlock(4, "P6", 0.6550, 0.3120, 0.0700, 0.1700, None),
    LotBlock(5, "P9", 0.8750, 0.2200, 0.0556, 0.0583, None),
    LotBlock(7, "P11", 0.7680, 0.1400, 0.0800, 0.0550, None),
    LotBlock(9, "P15", 0.5250, 0.2100, 0.0230, 0.1320, None),
    LotBlock(10, "P20", 0.1770, 0.0800, 0.1130, 0.1150, Some((-119.75020300964873, 36.816691633439675))),
    LotBlock(11, "P27", 0.0599, 0.6000, 0.0700, 0.1000, None)
  ]

  /** A non-empty rectangle inside the unit square. */
  predicate ValidRect(b: LotBlock)
  {
    0.0 <= b.x && 0.0 <= b.y && b.w > 0.0 && b.h > 0.0 && b.x + b.w <= 1.0 && b.y + b.h <= 1.0
  }

  /** The catalog's ids are strictly ascending (so unique), every block is a valid rectangle,
      every (id, name) pair is the backend's `lot_dict` entry, and only lot 10 (P20) has a map
      anchor. */
  lemma CatalogInvariants()
    ensures |LOTS| == 10
    ensures forall i, j :: 0 <= i < j < |LOTS| ==> LOTS[i].id < LOTS[j].id
    ensures forall i :: 0 <= i < |LOTS| ==> ValidRect(LOTS[i])
    ensures forall i :: 0 <= i < |LOTS| ==> LOTS[i].id in LotDict() && LotDict()[LOTS[i].id] == LOTS[i].name
    ensures forall i :: 0 <= i < |LOTS| ==> (LOTS[i].lngLat.Some? <==> LOTS[i].id == 10)
  {
    LotDictNames();
  }

  function HasId(id: int): LotBlock -> bool
  {
    (b: LotBlock) => b.id == id
  }

  /** `LOTS.find(l => l.id === lotId)`, as the lot details screen looks a lot up. */
  function FindLot(lotId: int): (r: Option<LotBlock>)
    ensures r.Some? ==> r.value in LOTS && r.value.id == lotId
    ensures r.None? <==> forall i :: 0 <= i < |LOTS| ==> LOTS[i].id != lotId
  {
    match FirstIndex(LOTS, HasId(lotId))
    case None => None
    case Some(k) => Some(LOTS[k])
  }

  /** Exactly the ten catalog ids are found, each with the backend's name for it; 6 and 8 give
      the details screen's "Lot not found". */
  lemma FindLotCatalog(lotId: int)
    ensures FindLot(lotId).Some? <==> lotId in {0, 1, 2, 3, 4, 5, 7, 9, 10, 11}
    ensures FindLot(lotId).Some? ==> lotId in LotDict() && FindLot(lotId).value.name == LotDict()[lotId]
  {
    CatalogInvariants();
    if FindLot(lotId).None? {
      assert forall i :: 0 <= i < |LOTS| ==> LOTS[i].id != lotId;
    } else {
      var k :| 0 <= k < |LOTS| && LOTS[k] == FindLot(lotId).value;
    }
  }
}
