/** `list_lots` of api/main.py (GET /lots): keep the lots that pass the category and search
    filters, sort them by percent-full or by name, and summarise each one. The lots come in as
    a parameter (the result of `fetch_all_lots`); FastAPI's routing is not modelled. */
module ParkingApi {
  import opened Wrappers
  import opened Seqs
  import opened PyText
  import opened LotModel
  import opened Occupancy
  import opened LotSort

  /** The exceptions that escape `list_lots` (FastAPI turns each into a 500 response): a
      ZeroDivisionError from a zero capacity, and the ValueError `int(search_query)` raises on a
      digit string longer than Python's limit. */
  datatype ApiError = ZeroDivisionError | ValueError

  /** Python truthiness of an `Optional[str]` query parameter: present and non-empty. */
  predicate Given(o: Option<string>)
  {
    o.Some? && |o.value| > 0
  }

  predicate CategoryPasses(lot: Lot, lotCategory: Option<string>)
  {
    !Given(lotCategory) || Lower(lot.lotType) == Lower(lotCategory.value)
  }

  /** An all-digit search naming the lot's id. */
  predicate IdMatches(lot: Lot, query: string)
  {
    IsDigitString(query) && DigitsValue(query) == lot.lotId
  }

  /** An all-digit search that `int()` refuses to convert. */
  predicate TooManyDigits(query: string)
  {
    IsDigitString(query) && |query| > MaxStrDigits
  }

  /** A search that occurs in the lot's name, ignoring case. */
  predicate NameMatches(lot: Lot, query: string)
  {
    IsSubstring(Lower(query), Lower(lot.lotName))
  }

  /** `lot_matches(lot)`: the category (if given) must agree ignoring case, and the search (if
      given) must either be the lot's id in digits or occur in its name ignoring case. A lot
      that passes the category reaches `int(search_query)`, which raises for too many digits. */
  function LotMatches(lot: Lot, searchQuery: Option<string>, lotCategory: Option<string>): (r: Result<bool, ApiError>)
    ensures r.Failure? <==> CategoryPasses(lot, lotCategory) && Given(searchQuery) && TooManyDigits(searchQuery.value)
    ensures r.Failure? ==> r.error == ValueError
    ensures r.Success? ==>
      (r.value <==> CategoryPasses(lot, lotCategory) &&
                    (!Given(searchQuery) || IdMatches(lot, searchQuery.value) || NameMatches(lot, searchQuery.value)))
  {
    if Given(lotCategory) && Lower(lot.lotType) != Lower(lotCategory.value) then Success(false)
    else if Given(searchQuery) then
      var q := searchQuery.value;
      if IsDigitString(q) && |q| > MaxStrDigits then Failure(ValueError)
      else if IsDigitString(q) && DigitsValue(q) == lot.lotId then Success(true)
      else if !IsSubstring(Lower(q), Lower(lot.lotName)) then Success(false)
      else Success(true)
    else Success(true)
  }

  /** The lots the filter keeps (when no lot raises). */
  function Matcher(searchQuery: Option<string>, lotCategory: Option<string>): Lot -> bool
  {
    (l: Lot) => LotMatches(l, searchQuery, lotCategory) == Success(true)
  }

  /** The filter loop raises ValueError: the search has too many digits and some lot passes the
      category, so `lot_matches` reaches `int(search_query)`. */
  predicate SearchRaises(lots: seq<Lot>, searchQuery: Option<string>, lotCategory: Option<string>)
  {
    Given(searchQuery) && TooManyDigits(searchQuery.value) &&
    exists i :: 0 <= i < |lots| && CategoryPasses(lots[i], lotCategory)
  }

  /** `matching_lots` after the filter loop. */
  function Matching(lots: seq<Lot>, searchQuery: Option<string>, lotCategory: Option<string>): seq<Lot>
  {
    Filter(lots, Matcher(searchQuery, lotCategory))
  }

  lemma MatchingStep(lots: seq<Lot>, i: int, searchQuery: Option<string>, lotCategory: Option<string>)
    requires 0 <= i < |lots|
    ensures Matching(lots[..i + 1], searchQuery, lotCategory) ==
            Matching(lots[..i], searchQuery, lotCategory) +
            (if LotMatches(lots[i], searchQuery, lotCategory) == Success(true) then [lots[i]] else [])
  {
    assert lots[..i + 1][..i] == lots[..i];
  }

  /** Without a category and without a search every lot is listed. */
  lemma NoFilterKeepsAll(lots: seq<Lot>, searchQuery: Option<string>, lotCategory: Option<string>)
    requires !Given(searchQuery) && !Given(lotCategory)
    ensures Matching(lots, searchQuery, lotCategory) == lots
  {
    FilterAll(lots, Matcher(searchQuery, lotCategory));
  }

  /** The lot's id written in decimal finds that lot whatever its name (given the category
      passes), unless the id has more digits than `int()` converts. */
  lemma SearchByIdFindsLot(lot: Lot, lotCategory: Option<string>)
    requires lot.lotId >= 0 && CategoryPasses(lot, lotCategory)
    ensures |NatToDigits(lot.lotId)| <= MaxStrDigits ==>
              LotMatches(lot, Some(NatToDigits(lot.lotId)), lotCategory) == Success(true)
    ensures |NatToDigits(lot.lotId)| > MaxStrDigits ==>
              LotMatches(lot, Some(NatToDigits(lot.lotId)), lotCategory) == Failure(ValueError)
  {
    DigitsRoundTrip(lot.lotId);
  }

  /** A search that is not the lot's id matches exactly when it occurs in the name, ignoring case;
      a category mismatch rejects the lot even when the search names its id. */
  lemma SearchByName(lot: Lot, query: string, lotCategory: Option<string>)
    requires |query| > 0
    ensures !IdMatches(lot, query) && !TooManyDigits(query) ==>
      (LotMatches(lot, Some(query), lotCategory) == Success(true) <==>
       CategoryPasses(lot, lotCategory) && NameMatches(lot, query))
    ensures !CategoryPasses(lot, lotCategory) ==> LotMatches(lot, Some(query), lotCategory) == Success(false)
  {
  }

  /** `sort_field`: every leading '-' removed. */
  function SortField(sortOption: string): (f: string)
    ensures !StartsWith(f, '-')
    ensures |f| <= |sortOption| && sortOption == sortOption[..|sortOption| - |f|] + f
    ensures forall i :: 0 <= i < |sortOption| - |f| ==> sortOption[i] == '-'
  {
    var f := LStrip(sortOption, '-');
    assert sortOption == sortOption[..|sortOption| - |f|] + sortOption[|sortOption| - |f|..];
    f
  }

  /** `descending_order`: the option starts with '-', that is, stripping removed something. */
  function Descending(sortOption: string): (d: bool)
    ensures d <==> |SortField(sortOption)| < |sortOption|
  {
    StartsWith(sortOption, '-')
  }

  /** The four documented options, and a doubled '-', which `lstrip` removes as well. */
  lemma SortOptions()
    ensures ByPercent("percent_full") && !Descending("percent_full")
    ensures ByPercent("-percent_full") && Descending("-percent_full")
    ensures !ByPercent("lot_name") && !Descending("lot_name")
    ensures !ByPercent("-lot_name") && Descending("-lot_name")
    ensures ByPercent("--percent_full") && Descending("--percent_full")
  {
    assert SortField("-percent_full") == SortField("percent_full");
    assert SortField("--percent_full") == SortField("-percent_full");
    assert SortField("-lot_name") == SortField("lot_name");
  }

  /** Only "percent_full" (after stripping) sorts by percentage; any other field sorts by name. */
  function ByPercent(sortOption: string): bool
  {
    SortField(sortOption) == "percent_full"
  }

  function Summaries(s: seq<RatedLot>): (r: seq<LotSummary>)
    ensures |r| == |s| && forall i :: 0 <= i < |s| ==> r[i] == ToSummary(s[i])
  {
    seq(|s|, i requires 0 <= i < |s| => ToSummary(s[i]))
  }

  predicate HasZeroCapacity(lots: seq<Lot>)
  {
    exists i :: 0 <= i < |lots| && lots[i].totalCapacity == 0
  }

  /** The response of `list_lots`, as a function of the lots and the query parameters. The
      filter loop runs before the sort and the summaries, so its ValueError comes first. */
  function ListLotsSpec(lots: seq<Lot>, searchQuery: Option<string>, lotCategory: Option<string>,
                        sortOption: string): Result<seq<LotSummary>, ApiError>
  {
    var m := Matching(lots, searchQuery, lotCategory);
    if SearchRaises(lots, searchQuery, lotCategory) then Failure(ValueError)
    else if HasZeroCapacity(m) then Failure(ZeroDivisionError)
    else
      var rated: seq<RatedLot> := m;
      Success(Summaries(SortLots(rated, ByPercent(sortOption), Descending(sortOption))))
  }

  /** The key a summary was sorted by, read off the summary itself. */
  function SummaryKey(s: LotSummary, byPercent: bool): SortKey
  {
    if byPercent then PercentKey(s.percentFull) else NameKey(Lower(s.lotName))
  }

  /** No summary is followed by one whose key should come strictly before it. */
  ghost predicate SummariesOrdered(r: seq<LotSummary>, byPercent: bool, descending: bool)
  {
    forall i, j :: 0 <= i < j < |r| ==>
      var ki, kj := SummaryKey(r[i], byPercent), SummaryKey(r[j], byPercent);
      !(if descending then KeyLess(ki, kj) else KeyLess(kj, ki))
  }

  /** The stored fields of each summary, in order. */
  function Lots(r: seq<LotSummary>): (s: seq<Lot>)
    ensures |s| == |r|
  {
    seq(|r|, i requires 0 <= i < |r| => SummaryLot(r[i]))
  }

  lemma {:induction false} LotsOfSummaries(s: seq<RatedLot>)
    ensures Lots(Summaries(s)) == s
  {
    assert forall i :: 0 <= i < |s| ==> Lots(Summaries(s))[i] == s[i];
  }

  /** A successful response is the sorted matching lots, summarised one by one. */
  lemma {:induction false} ListLotsSorts(lots: seq<Lot>, searchQuery: Option<string>,
                                         lotCategory: Option<string>, sortOption: string)
    requires !SearchRaises(lots, searchQuery, lotCategory)
    requires !HasZeroCapacity(Matching(lots, searchQuery, lotCategory))
    ensures var m: seq<RatedLot> := Matching(lots, searchQuery, lotCategory);
            var r := ListLotsSpec(lots, searchQuery, lotCategory, sortOption);
      r.Success? && Lots(r.value) == SortLots(m, ByPercent(sortOption), Descending(sortOption))
  {
    var m: seq<RatedLot> := Matching(lots, searchQuery, lotCategory);
    LotsOfSummaries(SortLots(m, ByPercent(sortOption), Descending(sortOption)));
  }

  /** `list_lots` raises ValueError exactly when the search is more digits than `int()` converts
      and some lot passes the category; otherwise it raises ZeroDivisionError exactly when a
      matching lot has capacity 0; otherwise it answers. */
  lemma ListLotsErrors(lots: seq<Lot>, searchQuery: Option<string>,
                       lotCategory: Option<string>, sortOption: string)
    ensures var m := Matching(lots, searchQuery, lotCategory);
            var r := ListLotsSpec(lots, searchQuery, lotCategory, sortOption);
      && (r == Failure(ValueError) <==>
            Given(searchQuery) && TooManyDigits(searchQuery.value) &&
            exists i :: 0 <= i < |lots| && CategoryPasses(lots[i], lotCategory))
      && (r == Failure(ZeroDivisionError) <==> !SearchRaises(lots, searchQuery, lotCategory) && HasZeroCapacity(m))
      && (r.Success? <==> !SearchRaises(lots, searchQuery, lotCategory) && !HasZeroCapacity(m))
  {
  }

  /** A successful `list_lots` answers one summary per matching lot (a permutation of them,
      nothing else), each carrying its percent-full and the crowd state of that percentage. */
  lemma {:induction false} ListLotsContents(lots: seq<Lot>, searchQuery: Option<string>,
                                            lotCategory: Option<string>, sortOption: string)
    ensures var m := Matching(lots, searchQuery, lotCategory);
            var r := ListLotsSpec(lots, searchQuery, lotCategory, sortOption);
      (r.Success? ==>
            && |r.value| == |m|
            && multiset(Lots(r.value)) == multiset(m)
            && (forall i :: 0 <= i < |r.value| ==> LotMatches(Lots(r.value)[i], searchQuery, lotCategory) == Success(true))
            && (forall i :: 0 <= i < |r.value| ==>
                  r.value[i].totalCapacity != 0 &&
                  r.value[i].percentFull == PercentFull(r.value[i].current, r.value[i].totalCapacity) &&
                  r.value[i].state == FullType(r.value[i].percentFull as real)))
  {
    var m := Matching(lots, searchQuery, lotCategory);
    var r := ListLotsSpec(lots, searchQuery, lotCategory, sortOption);
    if !SearchRaises(lots, searchQuery, lotCategory) && !HasZeroCapacity(m) {
      var rated: seq<RatedLot> := m;
      var sorted := SortLots(rated, ByPercent(sortOption), Descending(sortOption));
      ListLotsSorts(lots, searchQuery, lotCategory, sortOption);
      SortLotsPermutation(rated, ByPercent(sortOption), Descending(sortOption));
      assert |sorted| == |multiset(sorted)| == |multiset(m)| == |m|;
      forall i | 0 <= i < |r.value|
        ensures LotMatches(Lots(r.value)[i], searchQuery, lotCategory) == Success(true)
      {
        assert sorted[i] in multiset(m);
        FilterMembership(lots, Matcher(searchQuery, lotCategory), sorted[i]);
      }
    }
  }

  /** A successful response is ordered by percent-full, or by lower-cased name for any other
      field, descending when the option starts with '-'. */
  lemma {:induction false} ListLotsOrdered(lots: seq<Lot>, searchQuery: Option<string>,
                                           lotCategory: Option<string>, sortOption: string)
    ensures var r := ListLotsSpec(lots, searchQuery, lotCategory, sortOption);
      r.Success? ==> SummariesOrdered(r.value, ByPercent(sortOption), Descending(sortOption))
  {
    var m := Matching(lots, searchQuery, lotCategory);
    var r := ListLotsSpec(lots, searchQuery, lotCategory, sortOption);
    if !SearchRaises(lots, searchQuery, lotCategory) && !HasZeroCapacity(m) {
      var rated: seq<RatedLot> := m;
      var bp, desc := ByPercent(sortOption), Descending(sortOption);
      var sorted := SortLots(rated, bp, desc);
      SortLotsSorted(rated, bp, desc);
      assert r.value == Summaries(sorted);
      forall i, j | 0 <= i < j < |r.value|
        ensures var ki, kj := SummaryKey(r.value[i], bp), SummaryKey(r.value[j], bp);
                !(if desc then KeyLess(ki, kj) else KeyLess(kj, ki))
      {
        assert SummaryKey(r.value[i], bp) == SortKeyOf(sorted[i], bp);
        assert SummaryKey(r.value[j], bp) == SortKeyOf(sorted[j], bp);
        assert !Before(sorted[j], sorted[i], bp, desc);
      }
    }
  }

  /** Lots with equal sort keys are listed in table order. */
  lemma {:induction false} ListLotsStable(lots: seq<Lot>, searchQuery: Option<string>,
                                          lotCategory: Option<string>, sortOption: string, k: SortKey)
    requires !SearchRaises(lots, searchQuery, lotCategory)
    requires !HasZeroCapacity(Matching(lots, searchQuery, lotCategory))
    ensures var m: seq<RatedLot> := Matching(lots, searchQuery, lotCategory);
            var r := ListLotsSpec(lots, searchQuery, lotCategory, sortOption);
      && r.Success?
      && WithKey(Lots(r.value), ByPercent(sortOption), k) == WithKey(m, ByPercent(sortOption), k)
  {
    var m: seq<RatedLot> := Matching(lots, searchQuery, lotCategory);
    var bp, desc := ByPercent(sortOption), Descending(sortOption);
    SortLotsStable(m, bp, desc, k);
    LotsOfSummaries(SortLots(m, bp, desc));
  }

  /** `list_lots(search_query, lot_category, sort_option)` over the fetched `parkingLots`, with
      the endpoint's defaults: no search, no category, and "percent_full". */
  method ListLots(parkingLots: seq<Lot>, searchQuery: Option<string> := None, lotCategory: Option<string> := None,
                  sortOption: string := "percent_full") returns (r: Result<seq<LotSummary>, ApiError>)
    ensures r == ListLotsSpec(parkingLots, searchQuery, lotCategory, sortOption)
  {
    var matched := MatchingLots(parkingLots, searchQuery, lotCategory);
    if matched.Failure? {
      return Failure(ValueError);
    }
    var matchingLots := matched.value;
    var zero := AnyZeroCapacity(matchingLots);
    if zero {
      return Failure(ZeroDivisionError);
    }
    var rated: seq<RatedLot> := matchingLots;
    var sortedLots := SortLots(rated, ByPercent(sortOption), Descending(sortOption));
    var summarizedLots := SummarizeLots(sortedLots);
    return Success(summarizedLots);
  }

  /** The filter loop of `list_lots`; the first lot whose `lot_matches` raises ends it. */
  method MatchingLots(parkingLots: seq<Lot>, searchQuery: Option<string>, lotCategory: Option<string>)
    returns (r: Result<seq<Lot>, ApiError>)
    ensures SearchRaises(parkingLots, searchQuery, lotCategory) ==> r == Failure(ValueError)
    ensures !SearchRaises(parkingLots, searchQuery, lotCategory) ==>
              r == Success(Matching(parkingLots, searchQuery, lotCategory))
  {
    var matchingLots := [];
    for i := 0 to |parkingLots|
      invariant matchingLots == Matching(parkingLots[..i], searchQuery, lotCategory)
      invariant forall k :: 0 <= k < i ==> !CategoryPasses(parkingLots[k], lotCategory) ||
                                           !Given(searchQuery) || !TooManyDigits(searchQuery.value)
    {
      MatchingStep(parkingLots, i, searchQuery, lotCategory);
      var matches := LotMatches(parkingLots[i], searchQuery, lotCategory);
      if matches.Failure? {
        return Failure(ValueError);
      }
      if matches.value {
        matchingLots := matchingLots + [parkingLots[i]];
      }
    }
    assert parkingLots[..|parkingLots|] == parkingLots;
    return Success(matchingLots);
  }

  /** Whether the sort key or `to_summary` would divide by a zero capacity. */
  method AnyZeroCapacity(lots: seq<Lot>) returns (zero: bool)
    ensures zero == HasZeroCapacity(lots)
  {
    var j := 0;
    while j < |lots|
      invariant 0 <= j <= |lots|
      invariant forall k :: 0 <= k < j ==> lots[k].totalCapacity != 0
    {
      if lots[j].totalCapacity == 0 {
        return true;
      }
      j := j + 1;
    }
    return false;
  }

  /** The summary loop of `list_lots`. */
  method SummarizeLots(sortedLots: seq<RatedLot>) returns (summarizedLots: seq<LotSummary>)
    ensures summarizedLots == Summaries(sortedLots)
  {
    summarizedLots := [];
    for i := 0 to |sortedLots|
      invariant summarizedLots == Summaries(sortedLots[..i])
    {
      summarizedLots := summarizedLots + [ToSummary(sortedLots[i])];
    }
    assert sortedLots[..|sortedLots|] == sortedLots;
  }
}
