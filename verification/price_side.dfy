/** One side of a local order book (cpp/include/order_book_manager.hpp, struct Side).

    The program keeps the known price levels of a side in a vector sorted from
    the worst price to the best. `Known` is the meaning of that vector: a finite
    map from price to quantity, cut at a horizon beyond which nothing is known.
    Class `Side` is the vector itself; each of its methods is proved to refine
    the corresponding operation on `Known`.
  */
module PriceSide {
  datatype Level = Level(price: int, qty: int)

  /** Bids are better when higher, asks when lower. */
  predicate Better(isBid: bool, a: int, b: int) {
    if isBid then a > b else a < b
  }

  // ---------------------------------------------------------------- price maps

  ghost predicate IsWorst(isBid: bool, m: map<int, int>, w: int) {
    w in m && forall p :: p in m && p != w ==> Better(isBid, p, w)
  }

  lemma SomeKey<T>(m: map<T, int>) returns (x: T)
    requires |m| > 0
    ensures x in m
  {
    x :| x in m;
  }

  lemma {:induction false} WorstExists(isBid: bool, m: map<int, int>)
    requires |m| > 0
    ensures exists w :: IsWorst(isBid, m, w)
    decreases |m|
  {
    var x := SomeKey(m);
    var rest := m - {x};
    if |rest| == 0 {
      assert forall p :: p in m ==> p == x || p in rest;
      assert IsWorst(isBid, m, x);
    } else {
      WorstExists(isBid, rest);
      var w :| IsWorst(isBid, rest, w);
      assert forall p :: p in m ==> p == x || p in rest;
      assert IsWorst(isBid, m, if Better(isBid, x, w) then w else x);
    }
  }

  ghost function Worst(isBid: bool, m: map<int, int>): (w: int)
    requires |m| > 0
    ensures w in m
  {
    WorstExists(isBid, m);
    var w :| IsWorst(isBid, m, w);
    w
  }

  lemma WorstIsWorst(isBid: bool, m: map<int, int>)
    requires |m| > 0
    ensures IsWorst(isBid, m, Worst(isBid, m))
  {
    WorstExists(isBid, m);
  }

  lemma WorstIs(isBid: bool, m: map<int, int>, w: int)
    requires IsWorst(isBid, m, w)
    ensures |m| > 0 && Worst(isBid, m) == w
  {
    assert |m.Keys| == |m|;
    WorstIsWorst(isBid, m);
  }

  ghost function Best(isBid: bool, m: map<int, int>): (b: int)
    requires |m| > 0
    ensures b in m
  {
    Worst(!isBid, m)
  }

  /** The n best prices of m. */
  ghost function BestN(isBid: bool, m: map<int, int>, n: nat): (r: map<int, int>)
    ensures |r| == if |m| <= n then |m| else n
    decreases |m|
  {
    if |m| <= n then m else BestN(isBid, m - {Worst(isBid, m)}, n)
  }

  lemma {:induction false} BestNIsBest(isBid: bool, m: map<int, int>, n: nat)
    ensures forall p :: p in BestN(isBid, m, n) ==> p in m && BestN(isBid, m, n)[p] == m[p]
    ensures forall p, q :: p in BestN(isBid, m, n) && q in m && q !in BestN(isBid, m, n) ==> Better(isBid, p, q)
    decreases |m|
  {
    if |m| > n {
      WorstIsWorst(isBid, m);
      BestNIsBest(isBid, m - {Worst(isBid, m)}, n);
    }
  }

  /** The n best levels of m, best first, padded with empty levels. */
  ghost function TopN(isBid: bool, m: map<int, int>, n: nat): (r: seq<Level>)
    ensures |r| == n
    decreases n
  {
    if n == 0 then []
    else if |m| == 0 then [Level(0, 0)] + TopN(isBid, m, n - 1)
    else
      var b := Best(isBid, m);
      [Level(b, m[b])] + TopN(isBid, m - {b}, n - 1)
  }

  // ---------------------------------------------------------------- the meaning of a side

  datatype Known = Known(levels: map<int, int>, bounded: bool, horizon: int)

  ghost const NOTHING_KNOWN := Known(map[], false, 0)

  /** The exchange may have an n-th level that is not known here. */
  ghost predicate Below(k: Known, n: nat) {
    k.bounded && |k.levels| < n
  }

  ghost predicate InHorizon(isBid: bool, k: Known, price: int) {
    !k.bounded || !Better(isBid, k.horizon, price)
  }

  ghost function Trim(isBid: bool, k: Known, maxLevels: nat): Known
    requires maxLevels >= 1
  {
    if |k.levels| <= maxLevels then k
    else
      var kept := BestN(isBid, k.levels, maxLevels);
      Known(kept, true, Worst(isBid, kept))
  }

  ghost function Update(isBid: bool, k: Known, u: Level, maxLevels: nat): Known
    requires maxLevels >= 1
  {
    if u.qty == 0 then k.(levels := k.levels - {u.price})
    else if u.price in k.levels then k.(levels := k.levels[u.price := u.qty])
    else if !InHorizon(isBid, k, u.price) then k
    else Trim(isBid, k.(levels := k.levels[u.price := u.qty]), maxLevels)
  }

  ghost function UpdateAll(isBid: bool, k: Known, us: seq<Level>, maxLevels: nat): Known
    requires maxLevels >= 1
    decreases |us|
  {
    if us == [] then k
    else Update(isBid, UpdateAll(isBid, k, us[..|us| - 1], maxLevels), us[|us| - 1], maxLevels)
  }

  /** A snapshot with snapshotLimit levels was cut by the exchange, so its worst
      price is the horizon. */
  ghost function Load(isBid: bool, snapshot: seq<Level>, snapshotLimit: nat, maxLevels: nat): Known
    requires maxLevels >= 1 && DistinctPrices(snapshot)
  {
    var m := MapOf(Positive(snapshot));
    var bounded := |snapshot| >= snapshotLimit && |m| > 0;
    Trim(isBid, Known(m, bounded, if bounded then Worst(isBid, m) else 0), maxLevels)
  }

  // ---------------------------------------------------------------- level vectors

  ghost predicate DistinctPrices(s: seq<Level>) {
    forall i, j :: 0 <= i < j < |s| ==> s[i].price != s[j].price
  }

  ghost predicate WorstToBest(isBid: bool, s: seq<Level>) {
    forall i, j :: 0 <= i < j < |s| ==> Better(isBid, s[j].price, s[i].price)
  }

  ghost function MapOf(s: seq<Level>): map<int, int> {
    if s == [] then map[]
    else MapOf(s[..|s| - 1])[s[|s| - 1].price := s[|s| - 1].qty]
  }

  /** The levels with a positive quantity, in their order. */
  ghost function Positive(s: seq<Level>): seq<Level> {
    if s == [] then []
    else Positive(s[..|s| - 1]) + if s[|s| - 1].qty > 0 then [s[|s| - 1]] else []
  }

  lemma {:induction false} PositiveIsDistinct(s: seq<Level>)
    requires DistinctPrices(s)
    ensures DistinctPrices(Positive(s))
    ensures forall l :: l in Positive(s) ==> l in s
  {
    if s != [] {
      var front := s[..|s| - 1];
      assert forall i :: 0 <= i < |front| ==> front[i] == s[i];
      PositiveIsDistinct(front);
      var r := Positive(front);
      assert forall i :: 0 <= i < |r| ==> r[i] in front;
    }
  }

  lemma {:induction false} MapFacts(s: seq<Level>)
    requires DistinctPrices(s)
    ensures |MapOf(s)| == |s|
    ensures forall i :: 0 <= i < |s| ==> s[i].price in MapOf(s) && MapOf(s)[s[i].price] == s[i].qty
  {
    if s != [] {
      var front, l := s[..|s| - 1], s[|s| - 1];
      MapFacts(front);
      assert forall i :: 0 <= i < |front| ==> front[i] == s[i];
      if l.price in MapOf(front) {
        var i := IndexOf(front, l.price);
      }
    }
  }

  lemma {:induction false} IndexOf(s: seq<Level>, price: int) returns (i: nat)
    requires price in MapOf(s)
    ensures i < |s| && s[i].price == price
  {
    if price == s[|s| - 1].price {
      i := |s| - 1;
    } else {
      i := IndexOf(s[..|s| - 1], price);
    }
  }

  /** A vector that lists every entry of m once means m. */
  lemma SameMap(s: seq<Level>, m: map<int, int>)
    requires DistinctPrices(s)
    requires |m| == |s|
    requires forall i :: 0 <= i < |s| ==> s[i].price in m && m[s[i].price] == s[i].qty
    ensures MapOf(s) == m
  {
    MapFacts(s);
    var t := MapOf(s);
    forall p | p in t ensures p in m && m[p] == t[p] {
      var i := IndexOf(s, p);
    }
    SubsetOfSameSize(t.Keys, m.Keys);
  }

  lemma SubsetOfSameSize(a: set<int>, b: set<int>)
    requires a <= b && |a| == |b|
    ensures a == b
  {
    assert |b - a| == |b| - |a|;
  }

  lemma DropFront(isBid: bool, s: seq<Level>)
    requires WorstToBest(isBid, s) && s != []
    ensures WorstToBest(isBid, s[1..])
    ensures MapOf(s) - {s[0].price} == MapOf(s[1..])
  {
    var m := MapOf(s) - {s[0].price};
    MapFacts(s);
    forall i | 0 <= i < |s[1..]| ensures s[1..][i].price in m && m[s[1..][i].price] == s[1..][i].qty {
      assert s[1..][i] == s[i + 1];
    }
    SameMap(s[1..], m);
  }

  lemma DropBack(isBid: bool, s: seq<Level>)
    requires WorstToBest(isBid, s) && s != []
    ensures WorstToBest(isBid, s[..|s| - 1])
    ensures MapOf(s) - {s[|s| - 1].price} == MapOf(s[..|s| - 1])
  {
    var front := s[..|s| - 1];
    var m := MapOf(s) - {s[|s| - 1].price};
    MapFacts(s);
    forall i | 0 <= i < |front| ensures front[i].price in m && m[front[i].price] == front[i].qty {
      assert front[i] == s[i];
    }
    SameMap(front, m);
  }

  /** The front of a sorted vector is its worst price, the back its best. */
  lemma SortedEnds(isBid: bool, s: seq<Level>)
    requires WorstToBest(isBid, s) && s != []
    ensures |MapOf(s)| == |s|
    ensures Worst(isBid, MapOf(s)) == s[0].price
    ensures Best(isBid, MapOf(s)) == s[|s| - 1].price
    ensures MapOf(s)[s[|s| - 1].price] == s[|s| - 1].qty
  {
    MapFacts(s);
    var m := MapOf(s);
    forall p | p in m && p != s[0].price ensures Better(isBid, p, s[0].price) {
      var i := IndexOf(s, p);
    }
    forall p | p in m && p != s[|s| - 1].price ensures Better(isBid, s[|s| - 1].price, p) {
      var i := IndexOf(s, p);
    }
    WorstIs(isBid, m, s[0].price);
    WorstIs(!isBid, m, s[|s| - 1].price);
  }

  lemma {:induction false} SortedSuffixIsBestN(isBid: bool, s: seq<Level>, n: nat)
    requires WorstToBest(isBid, s) && |s| >= n
    ensures MapOf(s[|s| - n..]) == BestN(isBid, MapOf(s), n)
    decreases |s|
  {
    MapFacts(s);
    if |s| == n {
      assert s[0..] == s;
    } else {
      DropWorst(isBid, s, n);
      SortedSuffixIsBestN(isBid, s[1..], n);
      assert s[|s| - n..] == s[1..][|s[1..]| - n..];
    }
  }

  lemma DropWorst(isBid: bool, s: seq<Level>, n: nat)
    requires WorstToBest(isBid, s) && |s| > n
    ensures WorstToBest(isBid, s[1..])
    ensures BestN(isBid, MapOf(s), n) == BestN(isBid, MapOf(s[1..]), n)
  {
    SortedEnds(isBid, s);
    DropFront(isBid, s);
  }

  lemma TrimIsSuffix(isBid: bool, s: seq<Level>, bounded: bool, horizon: int, maxLevels: nat)
    requires WorstToBest(isBid, s) && maxLevels >= 1
    ensures var k := Known(MapOf(s), bounded, horizon);
      Trim(isBid, k, maxLevels) ==
      if |s| <= maxLevels then k
      else Known(MapOf(s[|s| - maxLevels..]), true, s[|s| - maxLevels].price)
  {
    MapFacts(s);
    if |s| > maxLevels {
      SortedSuffixIsBestN(isBid, s, maxLevels);
      SortedEnds(isBid, s[|s| - maxLevels..]);
    }
  }

  lemma {:induction false} TopNOfNothing(isBid: bool, n: nat, i: nat)
    requires i < n
    ensures TopN(isBid, map[], n)[i] == Level(0, 0)
  {
    if i > 0 { TopNOfNothing(isBid, n - 1, i - 1); }
  }

  lemma {:induction false} SortedBackIsTopN(isBid: bool, s: seq<Level>, n: nat, i: nat)
    requires WorstToBest(isBid, s) && i < n
    ensures TopN(isBid, MapOf(s), n)[i] == if i < |s| then s[|s| - 1 - i] else Level(0, 0)
    decreases n
  {
    if s == [] {
      TopNOfNothing(isBid, n, i);
    } else {
      TakeBest(isBid, s, n);
      if i > 0 {
        SortedBackIsTopN(isBid, s[..|s| - 1], n - 1, i - 1);
      }
    }
  }

  lemma TakeBest(isBid: bool, s: seq<Level>, n: nat)
    requires WorstToBest(isBid, s) && s != [] && n > 0
    ensures WorstToBest(isBid, s[..|s| - 1])
    ensures TopN(isBid, MapOf(s), n) == [s[|s| - 1]] + TopN(isBid, MapOf(s[..|s| - 1]), n - 1)
  {
    SortedEnds(isBid, s);
    DropBack(isBid, s);
  }

  lemma EraseAt(isBid: bool, s: seq<Level>, k: nat)
    requires WorstToBest(isBid, s) && k < |s|
    ensures WorstToBest(isBid, s[..k] + s[k + 1..])
    ensures MapOf(s[..k] + s[k + 1..]) == MapOf(s) - {s[k].price}
  {
    var t := s[..k] + s[k + 1..];
    var m := MapOf(s) - {s[k].price};
    MapFacts(s);
    forall i | 0 <= i < |t| ensures t[i].price in m && m[t[i].price] == t[i].qty {
      var j := if i < k then i else i + 1;
      assert t[i] == s[j];
    }
    SameMap(t, m);
  }

  lemma InsertKeepsOrder(isBid: bool, s: seq<Level>, k: nat, u: Level)
    requires WorstToBest(isBid, s) && k <= |s|
    requires forall i :: 0 <= i < k ==> Better(isBid, u.price, s[i].price)
    requires forall i :: k <= i < |s| ==> Better(isBid, s[i].price, u.price)
    ensures WorstToBest(isBid, s[..k] + [u] + s[k..])
  {
    var t := s[..k] + [u] + s[k..];
    forall i, j | 0 <= i < j < |t| ensures Better(isBid, t[j].price, t[i].price) {
      assert i != k ==> t[i] == s[if i < k then i else i - 1];
      assert j != k ==> t[j] == s[if j < k then j else j - 1];
    }
  }

  lemma InsertAt(isBid: bool, s: seq<Level>, k: nat, u: Level)
    requires WorstToBest(isBid, s) && k <= |s|
    requires u.price !in MapOf(s)
    requires WorstToBest(isBid, s[..k] + [u] + s[k..])
    ensures MapOf(s[..k] + [u] + s[k..]) == MapOf(s)[u.price := u.qty]
  {
    var t := s[..k] + [u] + s[k..];
    var m := MapOf(s)[u.price := u.qty];
    MapFacts(s);
    forall i | 0 <= i < |t| ensures t[i].price in m && m[t[i].price] == t[i].qty {
      if i != k {
        var j := if i < k then i else i - 1;
        assert t[i] == s[j];
        assert s[j].price in MapOf(s);
      }
    }
    SameMap(t, m);
  }

  lemma ReplaceAt(isBid: bool, s: seq<Level>, k: nat, u: Level)
    requires WorstToBest(isBid, s) && k < |s| && s[k].price == u.price
    ensures WorstToBest(isBid, s[k := u])
    ensures MapOf(s[k := u]) == MapOf(s)[u.price := u.qty]
  {
    MapFacts(s);
    SameMap(s[k := u], MapOf(s)[u.price := u.qty]);
  }

  // ---------------------------------------------------------------- the vector, updated in place

  class Side {
    const isBid: bool
    var levels: seq<Level>
    var bounded: bool
    var horizon: int

    ghost predicate Valid()
      reads this
    {
      WorstToBest(isBid, levels)
    }

    ghost function View(): Known
      requires Valid()
      reads this
    {
      Known(MapOf(levels), bounded, horizon)
    }

    constructor (isBid: bool)
      ensures Valid() && this.isBid == isBid && View() == NOTHING_KNOWN
    {
      this.isBid := isBid;
      levels, bounded, horizon := [], false, 0;
    }

    method Clear()
      modifies this
      ensures Valid() && View() == NOTHING_KNOWN
    {
      levels, bounded, horizon := [], false, 0;
    }

    /** Take over the contents of another side. */
    method TakeFrom(other: Side)
      requires other.Valid() && other.isBid == isBid
      modifies this
      ensures Valid() && View() == old(other.View())
    {
      levels, bounded, horizon := other.levels, other.bounded, other.horizon;
    }

    method IsBelow(n: nat) returns (below: bool)
      requires Valid()
      ensures below == Below(View(), n)
    {
      MapFacts(levels);
      below := bounded && |levels| < n;
    }

    method TrimTo(maxLevels: nat)
      requires Valid() && maxLevels >= 1
      modifies this
      ensures Valid() && View() == Trim(isBid, old(View()), maxLevels)
    {
      TrimIsSuffix(isBid, levels, bounded, horizon, maxLevels);
      if |levels| <= maxLevels { return; }
      levels := levels[|levels| - maxLevels..];
      bounded := true;
      horizon := levels[0].price;
    }

    /** Binary search: the first level that is not worse than `price`. */
    method LowerBound(price: int) returns (k: nat)
      requires Valid()
      ensures k <= |levels|
      ensures forall i :: 0 <= i < k ==> Better(isBid, price, levels[i].price)
      ensures forall i :: k <= i < |levels| ==> !Better(isBid, price, levels[i].price)
    {
      k := 0;
      var hi := |levels|;
      while k < hi
        invariant 0 <= k <= hi <= |levels|
        invariant forall i :: 0 <= i < k ==> Better(isBid, price, levels[i].price)
        invariant forall i :: hi <= i < |levels| ==> !Better(isBid, price, levels[i].price)
      {
        var mid := (k + hi) / 2;
        if Better(isBid, price, levels[mid].price) {
          k := mid + 1;
        } else {
          hi := mid;
        }
      }
    }

    /** Quantities are absolute; quantity 0 removes the level. */
    method Apply(u: Level, maxLevels: nat)
      requires Valid() && maxLevels >= 1
      modifies this
      ensures Valid() && View() == Update(isBid, old(View()), u, maxLevels)
    {
      var k := LowerBound(u.price);
      var found := k < |levels| && levels[k].price == u.price;
      MapFacts(levels);
      if u.price in MapOf(levels) {
        ghost var i := IndexOf(levels, u.price);
      }
      assert found <==> u.price in MapOf(levels);
      if u.qty == 0 {
        if found {
          EraseAt(isBid, levels, k);
          levels := levels[..k] + levels[k + 1..];
        }
        return;
      }
      if found {
        ReplaceAt(isBid, levels, k, u);
        levels := levels[k := u];
        return;
      }
      if bounded && Better(isBid, horizon, u.price) { return; }
      InsertKeepsOrder(isBid, levels, k, u);
      InsertAt(isBid, levels, k, u);
      levels := levels[..k] + [u] + levels[k..];
      TrimTo(maxLevels);
    }

    method ApplyAll(us: seq<Level>, maxLevels: nat)
      requires Valid() && maxLevels >= 1
      modifies this
      ensures Valid() && View() == UpdateAll(isBid, old(View()), us, maxLevels)
    {
      for i := 0 to |us|
        invariant Valid()
        invariant View() == UpdateAll(isBid, old(View()), us[..i], maxLevels)
      {
        assert us[..i + 1][..i] == us[..i];
        Apply(us[i], maxLevels);
      }
      assert us[..|us|] == us;
    }

    method LoadSnapshot(snapshot: seq<Level>, snapshotLimit: nat, maxLevels: nat)
      requires Valid() && maxLevels >= 1 && DistinctPrices(snapshot)
      modifies this
      ensures Valid() && View() == Load(isBid, snapshot, snapshotLimit, maxLevels)
    {
      var kept := KeepPositive(snapshot);
      PositiveIsDistinct(snapshot);
      levels := SortWorstToBest(isBid, kept);
      MapFacts(levels);
      bounded := |snapshot| >= snapshotLimit;
      horizon := if bounded && levels != [] then levels[0].price else 0;
      if levels == [] {
        bounded := false;
      } else {
        SortedEnds(isBid, levels);
      }
      assert View().levels == MapOf(Positive(snapshot));
      TrimTo(maxLevels);
    }
  }

  method KeepPositive(s: seq<Level>) returns (r: seq<Level>)
    ensures r == Positive(s)
  {
    r := [];
    for i := 0 to |s|
      invariant r == Positive(s[..i])
    {
      assert s[..i + 1][..i] == s[..i];
      if s[i].qty > 0 {
        r := r + [s[i]];
      }
    }
    assert s[..|s|] == s;
  }

  /** The library sort, by repeated insertion. */
  method SortWorstToBest(isBid: bool, s: seq<Level>) returns (r: seq<Level>)
    requires DistinctPrices(s)
    ensures WorstToBest(isBid, r) && MapOf(r) == MapOf(s)
  {
    r := [];
    for i := 0 to |s|
      invariant WorstToBest(isBid, r)
      invariant MapOf(r) == MapOf(s[..i])
    {
      var k := |r|;
      while k > 0 && Better(isBid, r[k - 1].price, s[i].price)
        invariant 0 <= k <= |r|
        invariant forall j :: k <= j < |r| ==> Better(isBid, r[j].price, s[i].price)
      {
        k := k - 1;
      }
      assert s[..i + 1][..i] == s[..i];
      MapFacts(r);
      if s[i].price in MapOf(r) {
        ghost var j := IndexOf(s[..i], s[i].price);
      }
      InsertKeepsOrder(isBid, r, k, s[i]);
      InsertAt(isBid, r, k, s[i]);
      r := r[..k] + [s[i]] + r[k..];
    }
    assert s[..|s|] == s;
  }
}
