/** The sort step of `list_lots` in api/main.py: `matching_lots.sort(key=sort_key_function,
    reverse=descending_order)`. Python's sort is stable (also with `reverse=True`), so its result
    is the unique permutation that is ordered by key and keeps lots with equal keys in their
    original order. It is modelled here by a stable insertion sort with those three properties
    proved. */
module LotSort {
  import opened PyText
  import opened Occupancy

  /** The value `sort_key_function` returns: the percent-full for "percent_full", otherwise the
      lower-cased name. */
  datatype SortKey = PercentKey(percent: int) | NameKey(name: string)

  /** Python's `<` on the keys of one sort (both are of the same kind). */
  predicate KeyLess(a: SortKey, b: SortKey)
  {
    match (a, b)
    case (PercentKey(p), PercentKey(q)) => p < q
    case (NameKey(m), NameKey(n)) => LexLess(m, n)
    case (PercentKey(_), NameKey(_)) => true
    case (NameKey(_), PercentKey(_)) => false
  }

  lemma KeyLessIrreflexive(a: SortKey)
    ensures !KeyLess(a, a)
  {
    if a.NameKey? { LexLessIrreflexive(a.name); }
  }

  lemma KeyLessTransitive(a: SortKey, b: SortKey, c: SortKey)
    requires KeyLess(a, b) && KeyLess(b, c)
    ensures KeyLess(a, c)
  {
    if a.NameKey? && b.NameKey? && c.NameKey? { LexLessTransitive(a.name, b.name, c.name); }
  }

  lemma KeyLessTotal(a: SortKey, b: SortKey)
    requires a != b
    ensures KeyLess(a, b) || KeyLess(b, a)
  {
    if a.NameKey? && b.NameKey? { LexLessTotal(a.name, b.name); }
  }

  /** `sort_key_function(lot)`. */
  function SortKeyOf(l: RatedLot, byPercent: bool): (k: SortKey)
    ensures k.PercentKey? <==> byPercent
    ensures byPercent ==> k.percent == PercentFull(l.current, l.totalCapacity)
    ensures !byPercent ==> k.name == Lower(l.lotName)
  {
    if byPercent then PercentKey(PercentFull(l.current, l.totalCapacity)) else NameKey(Lower(l.lotName))
  }

  /** `a` must come strictly before `b` in the sorted list. */
  predicate Before(a: RatedLot, b: RatedLot, byPercent: bool, descending: bool)
  {
    var ka, kb := SortKeyOf(a, byPercent), SortKeyOf(b, byPercent);
    if descending then KeyLess(kb, ka) else KeyLess(ka, kb)
  }

  lemma BeforeIrreflexive(a: RatedLot, byPercent: bool, descending: bool)
    ensures !Before(a, a, byPercent, descending)
  {
    KeyLessIrreflexive(SortKeyOf(a, byPercent));
  }

  lemma BeforeTransitive(a: RatedLot, b: RatedLot, c: RatedLot, byPercent: bool, descending: bool)
    requires Before(a, b, byPercent, descending) && Before(b, c, byPercent, descending)
    ensures Before(a, c, byPercent, descending)
  {
    var ka, kb, kc := SortKeyOf(a, byPercent), SortKeyOf(b, byPercent), SortKeyOf(c, byPercent);
    if descending { KeyLessTransitive(kc, kb, ka); } else { KeyLessTransitive(ka, kb, kc); }
  }

  /** Lots with different keys are ordered one way or the other. */
  lemma BeforeTotal(a: RatedLot, b: RatedLot, byPercent: bool, descending: bool)
    requires SortKeyOf(a, byPercent) != SortKeyOf(b, byPercent)
    ensures Before(a, b, byPercent, descending) || Before(b, a, byPercent, descending)
  {
    KeyLessTotal(SortKeyOf(a, byPercent), SortKeyOf(b, byPercent));
  }

  /** No lot is followed by one that should come strictly before it. */
  ghost predicate SortedBy(s: seq<RatedLot>, byPercent: bool, descending: bool)
  {
    forall i, j :: 0 <= i < j < |s| ==> !Before(s[j], s[i], byPercent, descending)
  }

  /** Inserts `x` after every lot that need not come after it. */
  function Insert(x: RatedLot, s: seq<RatedLot>, byPercent: bool, descending: bool): (r: seq<RatedLot>)
    ensures |r| == |s| + 1 && multiset(r) == multiset(s) + multiset{x}
    decreases |s|
  {
    if |s| == 0 then [x]
    else if Before(x, s[0], byPercent, descending) then [x] + s
    else
      assert s == [s[0]] + s[1..];
      [s[0]] + Insert(x, s[1..], byPercent, descending)
  }

  /** The model of `list.sort(key=..., reverse=...)`: each lot in turn is inserted into the
      sorted list of the lots before it. */
  function SortLots(s: seq<RatedLot>, byPercent: bool, descending: bool): (r: seq<RatedLot>)
    ensures |r| == |s|
    decreases |s|
  {
    if |s| == 0 then []
    else Insert(s[|s| - 1], SortLots(s[..|s| - 1], byPercent, descending), byPercent, descending)
  }

  lemma {:induction false} InsertSorted(x: RatedLot, s: seq<RatedLot>, byPercent: bool, descending: bool)
    requires SortedBy(s, byPercent, descending)
    ensures SortedBy(Insert(x, s, byPercent, descending), byPercent, descending)
    decreases |s|
  {
    if |s| > 0 {
      if Before(x, s[0], byPercent, descending) {
        AheadOfSorted(x, s, byPercent, descending);
        ConsSorted(x, s, byPercent, descending);
      } else {
        var t := Insert(x, s[1..], byPercent, descending);
        assert SortedBy(s[1..], byPercent, descending);
        InsertSorted(x, s[1..], byPercent, descending);
        BehindHead(x, s, t, byPercent, descending);
        ConsSorted(s[0], t, byPercent, descending);
      }
    }
  }

  lemma ConsSorted(h: RatedLot, t: seq<RatedLot>, byPercent: bool, descending: bool)
    requires SortedBy(t, byPercent, descending)
    requires forall j :: 0 <= j < |t| ==> !Before(t[j], h, byPercent, descending)
    ensures SortedBy([h] + t, byPercent, descending)
  {
    var r := [h] + t;
    forall i, j | 0 <= i < j < |r|
      ensures !Before(r[j], r[i], byPercent, descending)
    {
      if i > 0 {
        assert r[i] == t[i - 1] && r[j] == t[j - 1];
      }
    }
  }

  /** A lot that must precede the head of a sorted list need not follow any of its lots. */
  lemma AheadOfSorted(x: RatedLot, s: seq<RatedLot>, byPercent: bool, descending: bool)
    requires SortedBy(s, byPercent, descending) && |s| > 0 && Before(x, s[0], byPercent, descending)
    ensures forall j :: 0 <= j < |s| ==> !Before(s[j], x, byPercent, descending)
  {
    forall j | 0 <= j < |s|
      ensures !Before(s[j], x, byPercent, descending)
    {
      if Before(s[j], x, byPercent, descending) {
        BeforeTransitive(s[j], x, s[0], byPercent, descending);
        BeforeIrreflexive(s[0], byPercent, descending);
      }
    }
  }

  /** Inserting behind the head of a sorted list puts nothing ahead of the head. */
  lemma BehindHead(x: RatedLot, s: seq<RatedLot>, t: seq<RatedLot>, byPercent: bool, descending: bool)
    requires SortedBy(s, byPercent, descending) && |s| > 0 && !Before(x, s[0], byPercent, descending)
    requires t == Insert(x, s[1..], byPercent, descending)
    ensures forall j :: 0 <= j < |t| ==> !Before(t[j], s[0], byPercent, descending)
  {
    forall j | 0 <= j < |t|
      ensures !Before(t[j], s[0], byPercent, descending)
    {
      assert t[j] in multiset(t);
      assert t[j] in multiset(s[1..]) || t[j] == x;
      if t[j] != x {
        var k :| 0 <= k < |s[1..]| && s[1..][k] == t[j];
        assert s[k + 1] == t[j];
      }
    }
  }

  /** Sorting yields a list ordered by key (descending when asked). */
  lemma {:induction false} SortLotsSorted(s: seq<RatedLot>, byPercent: bool, descending: bool)
    ensures SortedBy(SortLots(s, byPercent, descending), byPercent, descending)
    decreases |s|
  {
    if |s| > 0 {
      SortLotsSorted(s[..|s| - 1], byPercent, descending);
      InsertSorted(s[|s| - 1], SortLots(s[..|s| - 1], byPercent, descending), byPercent, descending);
    }
  }

  /** Sorting rearranges the lots and does nothing else: same lots, same multiplicities. */
  lemma {:induction false} SortLotsPermutation(s: seq<RatedLot>, byPercent: bool, descending: bool)
    ensures multiset(SortLots(s, byPercent, descending)) == multiset(s)
    decreases |s|
  {
    if |s| > 0 {
      SortLotsPermutation(s[..|s| - 1], byPercent, descending);
      assert s == s[..|s| - 1] + [s[|s| - 1]];
    }
  }

  /** The lots whose key is `k`. */
  predicate HasKey(l: RatedLot, byPercent: bool, k: SortKey)
  {
    SortKeyOf(l, byPercent) == k
  }

  /** In a sorted list, everything after a lot that `x` must precede must also follow `x`. */
  lemma {:induction false} BeforeHead(x: RatedLot, s: seq<RatedLot>, byPercent: bool, descending: bool)
    requires SortedBy(s, byPercent, descending) && |s| > 0 && Before(x, s[0], byPercent, descending)
    ensures forall j :: 0 <= j < |s| ==> Before(x, s[j], byPercent, descending)
  {
    forall j | 0 <= j < |s|
      ensures Before(x, s[j], byPercent, descending)
    {
      if SortKeyOf(s[j], byPercent) == SortKeyOf(s[0], byPercent) {
      } else {
        BeforeTotal(s[0], s[j], byPercent, descending);
        if j > 0 { BeforeTransitive(x, s[0], s[j], byPercent, descending); }
      }
    }
  }

  /** The lots of `s` whose key is `k`, in their order in `s`. */
  function WithKey(s: seq<RatedLot>, byPercent: bool, k: SortKey): (r: seq<RatedLot>)
    decreases |s|
  {
    if |s| == 0 then []
    else WithKey(s[..|s| - 1], byPercent, k) + (if HasKey(s[|s| - 1], byPercent, k) then [s[|s| - 1]] else [])
  }

  lemma {:induction false} WithKeyAppend(a: seq<RatedLot>, b: seq<RatedLot>, byPercent: bool, k: SortKey)
    ensures WithKey(a + b, byPercent, k) == WithKey(a, byPercent, k) + WithKey(b, byPercent, k)
    decreases |b|
  {
    if |b| == 0 {
      assert a + b == a;
    } else {
      var b' := b[..|b| - 1];
      assert (a + b)[..|a + b| - 1] == a + b';
      assert (a + b)[|a + b| - 1] == b[|b| - 1];
      WithKeyAppend(a, b', byPercent, k);
    }
  }

  lemma {:induction false} WithKeyNone(s: seq<RatedLot>, byPercent: bool, k: SortKey)
    requires forall i :: 0 <= i < |s| ==> !HasKey(s[i], byPercent, k)
    ensures WithKey(s, byPercent, k) == []
    decreases |s|
  {
    if |s| > 0 { WithKeyNone(s[..|s| - 1], byPercent, k); }
  }

  lemma {:induction false} InsertStable(x: RatedLot, s: seq<RatedLot>, byPercent: bool, descending: bool, k: SortKey)
    requires SortedBy(s, byPercent, descending)
    ensures WithKey(Insert(x, s, byPercent, descending), byPercent, k)
         == WithKey(s, byPercent, k) + WithKey([x], byPercent, k)
    decreases |s|
  {
    if |s| == 0 {
      assert Insert(x, s, byPercent, descending) == [x];
      assert WithKey([], byPercent, k) == [];
    } else if Before(x, s[0], byPercent, descending) {
      InsertStableFront(x, s, byPercent, descending, k);
    } else {
      SortedTail(s, byPercent, descending);
      InsertStable(x, s[1..], byPercent, descending, k);
      InsertStableBehind(x, s, byPercent, descending, k);
    }
  }

  lemma SortedTail(s: seq<RatedLot>, byPercent: bool, descending: bool)
    requires SortedBy(s, byPercent, descending) && |s| > 0
    ensures SortedBy(s[1..], byPercent, descending)
  {
    forall i, j | 0 <= i < j < |s| - 1
      ensures !Before(s[1..][j], s[1..][i], byPercent, descending)
    {
      assert s[1..][j] == s[j + 1] && s[1..][i] == s[i + 1];
    }
  }

  lemma InsertStableBehind(x: RatedLot, s: seq<RatedLot>, byPercent: bool, descending: bool, k: SortKey)
    requires |s| > 0 && !Before(x, s[0], byPercent, descending)
    requires WithKey(Insert(x, s[1..], byPercent, descending), byPercent, k)
          == WithKey(s[1..], byPercent, k) + WithKey([x], byPercent, k)
    ensures WithKey(Insert(x, s, byPercent, descending), byPercent, k)
         == WithKey(s, byPercent, k) + WithKey([x], byPercent, k)
  {
    var t := Insert(x, s[1..], byPercent, descending);
    InsertBehind(x, s, byPercent, descending);
    WithKeyAppend([s[0]], t, byPercent, k);
    WithKeyCons(s, byPercent, k);
  }

  lemma InsertBehind(x: RatedLot, s: seq<RatedLot>, byPercent: bool, descending: bool)
    requires |s| > 0 && !Before(x, s[0], byPercent, descending)
    ensures Insert(x, s, byPercent, descending) == [s[0]] + Insert(x, s[1..], byPercent, descending)
  {
  }

  lemma WithKeyCons(s: seq<RatedLot>, byPercent: bool, k: SortKey)
    requires |s| > 0
    ensures WithKey(s, byPercent, k) == WithKey([s[0]], byPercent, k) + WithKey(s[1..], byPercent, k)
  {
    assert s == [s[0]] + s[1..];
    WithKeyAppend([s[0]], s[1..], byPercent, k);
  }

  lemma InsertStableFront(x: RatedLot, s: seq<RatedLot>, byPercent: bool, descending: bool, k: SortKey)
    requires SortedBy(s, byPercent, descending) && |s| > 0 && Before(x, s[0], byPercent, descending)
    ensures WithKey([x] + s, byPercent, k) == WithKey(s, byPercent, k) + WithKey([x], byPercent, k)
  {
    WithKeyAppend([x], s, byPercent, k);
    assert WithKey([x], byPercent, k) == WithKey([], byPercent, k) + (if HasKey(x, byPercent, k) then [x] else []);
    if HasKey(x, byPercent, k) {
      BeforeHead(x, s, byPercent, descending);
      forall j | 0 <= j < |s| ensures !HasKey(s[j], byPercent, k) {
        KeyLessIrreflexive(k);
      }
      WithKeyNone(s, byPercent, k);
    }
  }

  /** Sorting is stable: the lots sharing any one key appear in the same order before and after. */
  lemma {:induction false} SortLotsStable(s: seq<RatedLot>, byPercent: bool, descending: bool, k: SortKey)
    ensures WithKey(SortLots(s, byPercent, descending), byPercent, k) == WithKey(s, byPercent, k)
    decreases |s|
  {
    if |s| > 0 {
      var prefix := s[..|s| - 1];
      SortLotsStable(prefix, byPercent, descending, k);
      SortLotsSorted(prefix, byPercent, descending);
      InsertStable(s[|s| - 1], SortLots(prefix, byPercent, descending), byPercent, descending, k);
      assert WithKey([s[|s| - 1]], byPercent, k) == WithKey([], byPercent, k) + (if HasKey(s[|s| - 1], byPercent, k) then [s[|s| - 1]] else []);
    }
  }
}
