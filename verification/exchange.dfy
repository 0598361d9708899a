/** The exchange's side of the story: the full book it keeps and the program
    never sees, and what it means for a partial local side to agree with it.
  */
module Exchange {
  import opened PriceSide

  /** The quantity resting at every price of one side; 0 where there is none. */
  type Depth = int -> int

  datatype Market = Market(bid: Depth, ask: Depth)

  /** The market after every update id. */
  type History = int -> Market

  // ---------------------------------------------------------------- agreement

  ghost function QtyAt(m: map<int, int>, price: int): int {
    if price in m then m[price] else 0
  }

  /** Inside its horizon the side knows the market exactly; beyond it, it stores
      nothing. */
  ghost predicate Agrees(isBid: bool, k: Known, t: Depth) {
    && (forall p :: p in k.levels ==> k.levels[p] > 0 && InHorizon(isBid, k, p))
    && (forall p :: InHorizon(isBid, k, p) ==> QtyAt(k.levels, p) == t(p))
  }

  lemma AgreesPointwise(isBid: bool, k: Known, t: Depth, t': Depth)
    requires Agrees(isBid, k, t)
    requires forall p :: t(p) == t'(p)
    ensures Agrees(isBid, k, t')
  {
  }

  /** The horizon of k' is at or nearer to the touch than that of k. */
  ghost predicate HorizonMovesIn(isBid: bool, k: Known, k': Known) {
    k.bounded ==> k'.bounded && !Better(isBid, k.horizon, k'.horizon)
  }

  // ---------------------------------------------------------------- updates

  ghost function Put(t: Depth, u: Level): Depth {
    (p: int) => if p == u.price then u.qty else t(p)
  }

  ghost function PutAll(t: Depth, us: seq<Level>): Depth
    decreases |us|
  {
    if us == [] then t else Put(PutAll(t, us[..|us| - 1]), us[|us| - 1])
  }

  /** One of the first n levels is at this price. */
  ghost predicate Lists(s: seq<Level>, n: nat, price: int)
    requires n <= |s|
  {
    exists i :: 0 <= i < n && s[i].price == price
  }

  lemma {:induction false} PutAllAt(t: Depth, us: seq<Level>, p: int, qty: int)
    requires forall i :: 0 <= i < |us| && us[i].price == p ==> us[i].qty == qty
    requires !Lists(us, |us|, p) ==> t(p) == qty
    ensures PutAll(t, us)(p) == qty
    decreases |us|
  {
    if us != [] && us[|us| - 1].price != p {
      var front := us[..|us| - 1];
      assert forall i :: 0 <= i < |front| ==> front[i] == us[i];
      if Lists(us, |us|, p) {
        var i :| 0 <= i < |us| && us[i].price == p;
        assert front[i].price == p;
      }
      PutAllAt(t, front, p, qty);
    }
  }

  lemma TrimAgrees(isBid: bool, k: Known, t: Depth, maxLevels: nat)
    requires maxLevels >= 1 && Agrees(isBid, k, t)
    ensures Agrees(isBid, Trim(isBid, k, maxLevels), t)
    ensures |Trim(isBid, k, maxLevels).levels| <= maxLevels
    ensures HorizonMovesIn(isBid, k, Trim(isBid, k, maxLevels))
  {
    if |k.levels| > maxLevels {
      var kept := BestN(isBid, k.levels, maxLevels);
      BestNIsBest(isBid, k.levels, maxLevels);
      WorstIsWorst(isBid, kept);
      var k' := Trim(isBid, k, maxLevels);
      assert kept[k'.horizon] == k.levels[k'.horizon];
      forall p | InHorizon(isBid, k', p) ensures QtyAt(kept, p) == t(p) {
        assert InHorizon(isBid, k, p);
      }
    }
  }

  lemma UpdateAgrees(isBid: bool, k: Known, t: Depth, u: Level, maxLevels: nat)
    requires maxLevels >= 1 && Agrees(isBid, k, t) && u.qty >= 0
    requires |k.levels| <= maxLevels
    ensures Agrees(isBid, Update(isBid, k, u, maxLevels), Put(t, u))
    ensures |Update(isBid, k, u, maxLevels).levels| <= maxLevels
    ensures HorizonMovesIn(isBid, k, Update(isBid, k, u, maxLevels))
  {
    if u.qty == 0 {
    } else if u.price in k.levels {
      assert k.levels[u.price := u.qty].Keys == k.levels.Keys;
    } else if InHorizon(isBid, k, u.price) {
      TrimAgrees(isBid, k.(levels := k.levels[u.price := u.qty]), Put(t, u), maxLevels);
    }
  }

  lemma {:induction false} UpdateAllAgrees(isBid: bool, k: Known, t: Depth, us: seq<Level>, maxLevels: nat)
    requires maxLevels >= 1 && Agrees(isBid, k, t) && |k.levels| <= maxLevels
    requires forall i :: 0 <= i < |us| ==> us[i].qty >= 0
    ensures Agrees(isBid, UpdateAll(isBid, k, us, maxLevels), PutAll(t, us))
    ensures |UpdateAll(isBid, k, us, maxLevels).levels| <= maxLevels
    ensures HorizonMovesIn(isBid, k, UpdateAll(isBid, k, us, maxLevels))
    decreases |us|
  {
    if us != [] {
      var front := us[..|us| - 1];
      UpdateAllAgrees(isBid, k, t, front, maxLevels);
      UpdateAgrees(isBid, UpdateAll(isBid, k, front, maxLevels), PutAll(t, front), us[|us| - 1], maxLevels);
    }
  }

  /** The levels of an event that takes one side of the market from t to t': each
      mentioned price carries its new quantity and no other price changed. */
  ghost predicate FaithfulChange(t: Depth, us: seq<Level>, t': Depth) {
    && (forall i :: 0 <= i < |us| ==> us[i].qty >= 0 && us[i].qty == t'(us[i].price))
    && (forall p :: !Lists(us, |us|, p) ==> t(p) == t'(p))
  }

  lemma ChangeAgrees(isBid: bool, k: Known, t: Depth, us: seq<Level>, t': Depth, maxLevels: nat)
    requires maxLevels >= 1 && Agrees(isBid, k, t) && |k.levels| <= maxLevels
    requires FaithfulChange(t, us, t')
    ensures Agrees(isBid, UpdateAll(isBid, k, us, maxLevels), t')
    ensures |UpdateAll(isBid, k, us, maxLevels).levels| <= maxLevels
    ensures HorizonMovesIn(isBid, k, UpdateAll(isBid, k, us, maxLevels))
  {
    UpdateAllAgrees(isBid, k, t, us, maxLevels);
    forall p ensures PutAll(t, us)(p) == t'(p) {
      PutAllAt(t, us, p, t'(p));
    }
    AgreesPointwise(isBid, UpdateAll(isBid, k, us, maxLevels), PutAll(t, us), t');
  }

  // ---------------------------------------------------------------- snapshots

  /** A snapshot side: the market's levels, cut to the best `limit` of them. */
  ghost predicate FaithfulSide(isBid: bool, t: Depth, s: seq<Level>, limit: nat) {
    && DistinctPrices(s)
    && (forall i :: 0 <= i < |s| ==> s[i].qty > 0 && s[i].qty == t(s[i].price))
    && (forall p :: t(p) >= 0)
    && (forall p :: t(p) > 0 && !Lists(s, |s|, p) ==>
          |s| >= limit && forall i :: 0 <= i < |s| ==> Better(isBid, s[i].price, p))
  }

  lemma {:induction false} PositiveIsAll(s: seq<Level>)
    requires forall i :: 0 <= i < |s| ==> s[i].qty > 0
    ensures Positive(s) == s
  {
    if s != [] {
      PositiveIsAll(s[..|s| - 1]);
      assert s == s[..|s| - 1] + [s[|s| - 1]];
    }
  }

  /** A loaded snapshot before the cap on stored levels. */
  ghost function Loaded(isBid: bool, s: seq<Level>, limit: nat): Known {
    var m := MapOf(s);
    var bounded := |s| >= limit && |m| > 0;
    Known(m, bounded, if bounded then Worst(isBid, m) else 0)
  }

  lemma LoadedAgrees(isBid: bool, t: Depth, s: seq<Level>, limit: nat)
    requires limit >= 1 && FaithfulSide(isBid, t, s, limit)
    ensures Agrees(isBid, Loaded(isBid, s, limit), t)
  {
    MapFacts(s);
    var k := Loaded(isBid, s, limit);
    var m := k.levels;
    if k.bounded { WorstIsWorst(isBid, m); }
    forall p | p in m ensures m[p] > 0 && InHorizon(isBid, k, p) && m[p] == t(p) {
      var i := IndexOf(s, p);
    }
    forall p | InHorizon(isBid, k, p) && p !in m ensures t(p) == 0 {
      assert !Lists(s, |s|, p);
      if k.bounded && t(p) > 0 {
        var i := IndexOf(s, k.horizon);
      }
    }
  }

  lemma LoadAgrees(isBid: bool, t: Depth, s: seq<Level>, limit: nat, maxLevels: nat)
    requires maxLevels >= 1 && limit >= 1 && FaithfulSide(isBid, t, s, limit)
    ensures Agrees(isBid, Load(isBid, s, limit, maxLevels), t)
    ensures |Load(isBid, s, limit, maxLevels).levels| <= maxLevels
  {
    PositiveIsAll(s);
    LoadedAgrees(isBid, t, s, limit);
    TrimAgrees(isBid, Loaded(isBid, s, limit), t, maxLevels);
  }

  // ---------------------------------------------------------------- the top of the market

  /** The first n rows are exactly the best n levels of t, best first; the rest
      are empty, and only because the market has no further level. */
  ghost predicate ShowsTop(isBid: bool, t: Depth, rows: seq<Level>, n: nat) {
    && n <= |rows|
    && (forall i :: 0 <= i < n ==> rows[i].qty > 0 && rows[i].qty == t(rows[i].price))
    && (forall i, j :: 0 <= i < j < n ==> Better(isBid, rows[i].price, rows[j].price))
    && (forall i :: n <= i < |rows| ==> rows[i] == Level(0, 0))
    && (forall p :: t(p) > 0 && !Lists(rows, n, p) ==>
          n == |rows| && forall i :: 0 <= i < n ==> Better(isBid, rows[i].price, p))
  }

  ghost predicate IsTop(isBid: bool, t: Depth, rows: seq<Level>) {
    exists n :: ShowsTop(isBid, t, rows, n)
  }

  /** There is only one correct answer of a given length. */
  lemma {:induction false} TopIsUnique(isBid: bool, t: Depth, a: seq<Level>, b: seq<Level>, n: nat, n': nat, i: nat)
    requires |a| == |b| && ShowsTop(isBid, t, a, n) && ShowsTop(isBid, t, b, n')
    requires i < |a|
    ensures a[i] == b[i]
  {
    forall j | 0 <= j < i ensures a[j] == b[j] {
      TopIsUnique(isBid, t, a, b, n, n', j);
    }
    if i < n { TopRowMatches(isBid, t, a, b, n, n', i); }
    if i < n' { TopRowMatches(isBid, t, b, a, n', n, i); }
  }

  /** If two answers agree before row i, row i of the one appears in the other at
      or after i, or is beaten by everything the other shows. */
  lemma TopRowMatches(isBid: bool, t: Depth, a: seq<Level>, b: seq<Level>, n: nat, n': nat, i: nat)
    requires |a| == |b| && ShowsTop(isBid, t, a, n) && ShowsTop(isBid, t, b, n')
    requires i < n
    requires forall j :: 0 <= j < i ==> a[j] == b[j]
    ensures i < n'
    ensures !Better(isBid, a[i].price, b[i].price)
  {
    var p := a[i].price;
    if Lists(b, n', p) {
      var j :| 0 <= j < n' && b[j].price == p;
      assert i <= j;
    }
  }

  /** The same statement about a finite price map. */
  ghost predicate ListsTop(isBid: bool, m: map<int, int>, rows: seq<Level>, n: nat) {
    && n <= |rows|
    && (forall i :: 0 <= i < n ==> rows[i].price in m && rows[i].qty == m[rows[i].price])
    && (forall i, j :: 0 <= i < j < n ==> Better(isBid, rows[i].price, rows[j].price))
    && (forall i :: n <= i < |rows| ==> rows[i] == Level(0, 0))
    && (forall p :: p in m && !Lists(rows, n, p) ==>
          n == |rows| && forall i :: 0 <= i < n ==> Better(isBid, rows[i].price, p))
  }

  lemma NothingToList(isBid: bool, m: map<int, int>, n: nat)
    requires |m| == 0 || n == 0
    ensures ListsTop(isBid, m, TopN(isBid, m, n), 0)
  {
    if |m| == 0 {
      assert m.Keys == {};
      assert m == map[];
      forall i | 0 <= i < n ensures TopN(isBid, m, n)[i] == Level(0, 0) {
        TopNOfNothing(isBid, n, i);
      }
    }
  }

  lemma TopNUnfolds(isBid: bool, m: map<int, int>, n: nat) returns (b: int)
    requires |m| > 0 && n > 0
    ensures IsWorst(!isBid, m, b)
    ensures TopN(isBid, m, n) == [Level(b, m[b])] + TopN(isBid, m - {b}, n - 1)
    ensures |m - {b}| == |m| - 1
  {
    b := Best(isBid, m);
    WorstIsWorst(!isBid, m);
    assert (m - {b}).Keys == m.Keys - {b};
  }

  lemma {:induction false} TopNListsTop(isBid: bool, m: map<int, int>, n: nat, k: nat)
    requires k == if |m| < n then |m| else n
    ensures ListsTop(isBid, m, TopN(isBid, m, n), k)
    decreases k
  {
    if k == 0 {
      NothingToList(isBid, m, n);
    } else {
      var b := TopNUnfolds(isBid, m, n);
      TopNListsTop(isBid, m - {b}, n - 1, k - 1);
      TopNStep(isBid, m, b, m - {b}, TopN(isBid, m - {b}, n - 1), k - 1);
    }
  }

  lemma TopNStep(isBid: bool, m: map<int, int>, b: int, rest: map<int, int>, tail: seq<Level>, k: nat)
    requires IsWorst(!isBid, m, b) && rest == m - {b}
    requires ListsTop(isBid, rest, tail, k)
    ensures ListsTop(isBid, m, [Level(b, m[b])] + tail, k + 1)
  {
    var rows := [Level(b, m[b])] + tail;
    forall i | 0 <= i < k + 1 ensures rows[i].price in m && rows[i].qty == m[rows[i].price] {
      if i > 0 { assert rows[i] == tail[i - 1]; }
    }
    forall i, j | 0 <= i < j < k + 1 ensures Better(isBid, rows[i].price, rows[j].price) {
      assert rows[j] == tail[j - 1];
      if i > 0 { assert rows[i] == tail[i - 1]; }
    }
    forall p | p in m && !Lists(rows, k + 1, p)
      ensures k == |tail| && forall i :: 0 <= i < k + 1 ==> Better(isBid, rows[i].price, p)
    {
      TailLists(b, m[b], tail, k, p);
      forall i | 0 <= i < k + 1 ensures Better(isBid, rows[i].price, p) {
        if i > 0 { assert rows[i] == tail[i - 1]; }
      }
    }
  }

  lemma TailLists(b: int, q: int, tail: seq<Level>, k: nat, p: int)
    requires k <= |tail|
    requires !Lists([Level(b, q)] + tail, k + 1, p)
    ensures p != b && !Lists(tail, k, p)
  {
    var rows := [Level(b, q)] + tail;
    assert rows[0].price == b;
    assert forall i :: 0 <= i < k ==> rows[i + 1] == tail[i];
  }

  /** The reason a partial book can publish an exact quote: a side with at least
      `depth` known levels, or with no horizon, contains the market's top. */
  lemma KnownTopIsTop(isBid: bool, k: Known, t: Depth, depth: nat)
    requires Agrees(isBid, k, t) && !Below(k, depth)
    requires forall p :: t(p) >= 0
    ensures IsTop(isBid, t, TopN(isBid, k.levels, depth))
  {
    var rows := TopN(isBid, k.levels, depth);
    var n := if |k.levels| < depth then |k.levels| else depth;
    TopNListsTop(isBid, k.levels, depth, n);
    forall p | t(p) > 0 && !Lists(rows, n, p)
      ensures n == |rows| && forall i :: 0 <= i < n ==> Better(isBid, rows[i].price, p)
    {
      if p !in k.levels { assert !InHorizon(isBid, k, p); }
    }
    assert ShowsTop(isBid, t, rows, n);
  }
}
