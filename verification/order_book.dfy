/**
 * The level-2 order book of src/indicators/order_book.rs: each side is a list
 * of price levels kept sorted by price, an update replaces or deletes one
 * level, and the strong level of a side is the first level at which the
 * cumulative quantity reaches a threshold.
 */
module OrderBook {
  datatype Side = Bid | Offer

  /** One level-2 update; `eventTime` is an opaque timestamp carried along. */
  datatype L2Data = L2Data(side: Side, eventTime: int, priceLevel: real, newQuantity: real)

  datatype Book = Book(bids: seq<L2Data>, asks: seq<L2Data>)

  /** `OrderBook::new`: both sides empty, so sorted, with strong level 0 at any threshold. */
  function New(): (b: Book)
    ensures StrictlySorted(b.bids) && StrictlySorted(b.asks)
    ensures forall t :: IsStrongLevel(b.bids, t, 0.0) && IsStrongLevel(b.asks, t, 0.0)
  {
    Book([], [])
  }

  /** Ascending by price level. */
  predicate Sorted(s: seq<L2Data>) {
    forall i, j :: 0 <= i < j < |s| ==> s[i].priceLevel <= s[j].priceLevel
  }

  /** Strictly ascending by price level, so every level appears once. */
  predicate StrictlySorted(s: seq<L2Data>) {
    forall i, j :: 0 <= i < j < |s| ==> s[i].priceLevel < s[j].priceLevel
  }

  /** `Vec::retain`: the entries at any other price level, in order. */
  function Retain(s: seq<L2Data>, level: real): (r: seq<L2Data>)
    ensures |r| <= |s|
    decreases |s|
  {
    if |s| == 0 then []
    else
      var r := Retain(s[..|s| - 1], level);
      if s[|s| - 1].priceLevel != level then r + [s[|s| - 1]] else r
  }

  /** Retaining keeps exactly the entries at other levels. */
  lemma {:induction false} RetainMembers(s: seq<L2Data>, level: real)
    ensures forall e :: e in Retain(s, level) <==> e in s && e.priceLevel != level
    decreases |s|
  {
    if |s| > 0 {
      var pre := s[..|s| - 1];
      RetainMembers(pre, level);
      assert s == pre + [s[|s| - 1]];
    }
  }

  /** Retaining keeps a strictly ascending side strictly ascending. */
  lemma {:induction false} RetainStrict(s: seq<L2Data>, level: real)
    requires StrictlySorted(s)
    ensures StrictlySorted(Retain(s, level))
    decreases |s|
  {
    if |s| > 0 {
      var pre := s[..|s| - 1];
      var last := s[|s| - 1];
      RetainStrict(pre, level);
      RetainMembers(pre, level);
      var r := Retain(pre, level);
      if last.priceLevel != level {
        forall i | 0 <= i < |r|
          ensures r[i].priceLevel < last.priceLevel
        {
          assert r[i] in pre;
        }
      }
    }
  }

  /** The position after every entry at or below `level`. */
  function InsertionPoint(s: seq<L2Data>, level: real): (k: nat)
    ensures k <= |s|
    ensures forall i :: 0 <= i < k ==> s[i].priceLevel <= level
    ensures k < |s| ==> s[k].priceLevel > level
    decreases |s|
  {
    if |s| == 0 || s[0].priceLevel > level then 0 else 1 + InsertionPoint(s[1..], level)
  }

  /** Places `x` after every entry at or below its price level, so equal levels keep their order. */
  function Insert(s: seq<L2Data>, x: L2Data): (r: seq<L2Data>)
    ensures |r| == |s| + 1
  {
    var k := InsertionPoint(s, x.priceLevel);
    s[..k] + [x] + s[k..]
  }

  /** Inserting into a sorted side keeps it sorted and adds exactly `x`. */
  lemma InsertSorted(s: seq<L2Data>, x: L2Data)
    requires Sorted(s)
    ensures Sorted(Insert(s, x))
    ensures multiset(Insert(s, x)) == multiset(s) + multiset{x}
  {
    var k := InsertionPoint(s, x.priceLevel);
    var r := Insert(s, x);
    InsertShape(s, x);
    forall i, j | 0 <= i < j < |r|
      ensures r[i].priceLevel <= r[j].priceLevel
    {
      if j < k {
        assert r[i] == s[i] && r[j] == s[j];
      } else if j == k {
        assert r[i] == s[i];
      } else if i < k {
        assert r[i] == s[i] && r[j] == s[j - 1];
      } else if i > k {
        assert r[i] == s[i - 1] && r[j] == s[j - 1];
      }
    }
    calc {
      multiset(r);
      multiset(s[..k]) + multiset{x} + multiset(s[k..]);
      { assert s == s[..k] + s[k..]; }
      multiset(s) + multiset{x};
    }
  }

  /** Where each entry of `Insert(s, x)` comes from. */
  lemma InsertShape(s: seq<L2Data>, x: L2Data)
    requires Sorted(s)
    ensures var k := InsertionPoint(s, x.priceLevel);
            var r := Insert(s, x);
            && r == s[..k] + [x] + s[k..]
            && r[k] == x
            && (forall i :: 0 <= i < k ==> r[i] == s[i] && s[i].priceLevel <= x.priceLevel)
            && (forall i :: k < i < |r| ==> r[i] == s[i - 1] && s[i - 1].priceLevel > x.priceLevel)
  {
  }

  /** `sort_by` on price level, as an insertion sort. */
  function Sort(s: seq<L2Data>): (r: seq<L2Data>)
    ensures Sorted(r) && multiset(r) == multiset(s)
    decreases |s|
  {
    if |s| == 0 then []
    else
      var pre := s[..|s| - 1];
      assert s == pre + [s[|s| - 1]];
      InsertSorted(Sort(pre), s[|s| - 1]);
      Insert(Sort(pre), s[|s| - 1])
  }

  /** The side that `side` names. */
  function SideOf(b: Book, side: Side): seq<L2Data> {
    if side == Bid then b.bids else b.asks
  }

  /** One side after an update: the level removed, re-added when its quantity is positive, then sorted. */
  function UpdateSide(s: seq<L2Data>, u: L2Data): (r: seq<L2Data>)
    ensures Sorted(r)
    ensures multiset(r) == multiset(Retain(s, u.priceLevel)) + (if u.newQuantity > 0.0 then multiset{u} else multiset{})
  {
    Sort(Retain(s, u.priceLevel) + (if u.newQuantity > 0.0 then [u] else []))
  }

  /** `OrderBook::process_side_update`. */
  function ProcessSideUpdate(b: Book, u: L2Data): (b': Book)
    ensures u.side == Bid ==> b'.asks == b.asks && b'.bids == UpdateSide(b.bids, u)
    ensures u.side == Offer ==> b'.bids == b.bids && b'.asks == UpdateSide(b.asks, u)
  {
    match u.side
    case Bid => b.(bids := UpdateSide(b.bids, u))
    case Offer => b.(asks := UpdateSide(b.asks, u))
  }

  /** An already sorted side sorts to itself. */
  lemma {:induction false} SortSorted(s: seq<L2Data>)
    requires Sorted(s)
    ensures Sort(s) == s
    decreases |s|
  {
    if |s| > 0 {
      var pre := s[..|s| - 1];
      var last := s[|s| - 1];
      SortSorted(pre);
      InsertAtEnd(pre, last);
      assert s == pre + [last];
    }
  }

  /** An entry at or above every level of a sorted side goes at its end. */
  lemma InsertAtEnd(s: seq<L2Data>, x: L2Data)
    requires Sorted(s) && forall i :: 0 <= i < |s| ==> s[i].priceLevel <= x.priceLevel
    ensures Insert(s, x) == s + [x]
  {
    assert InsertionPoint(s, x.priceLevel) == |s|;
  }

  /** Inserting an entry at a new level into a strictly ascending side keeps it strictly ascending. */
  lemma InsertStrict(s: seq<L2Data>, x: L2Data)
    requires StrictlySorted(s) && forall e :: e in s ==> e.priceLevel != x.priceLevel
    ensures StrictlySorted(Insert(s, x))
    ensures forall e :: e in Insert(s, x) <==> e in s || e == x
  {
    InsertStrictOrder(s, x);
    InsertMembers(s, x);
  }

  /** The ordering half of `InsertStrict`. */
  lemma InsertStrictOrder(s: seq<L2Data>, x: L2Data)
    requires StrictlySorted(s) && forall e :: e in s ==> e.priceLevel != x.priceLevel
    ensures StrictlySorted(Insert(s, x))
  {
    var k := InsertionPoint(s, x.priceLevel);
    var r := Insert(s, x);
    InsertShape(s, x);
    forall i | 0 <= i < k
      ensures s[i].priceLevel < x.priceLevel
    {
      assert s[i] in s;
    }
    forall i, j | 0 <= i < j < |r|
      ensures r[i].priceLevel < r[j].priceLevel
    {
      if j < k {
        assert r[i] == s[i] && r[j] == s[j];
      } else if j == k {
        assert r[i] == s[i];
      } else if i < k {
        assert r[i] == s[i] && r[j] == s[j - 1];
      } else if i > k {
        assert r[i] == s[i - 1] && r[j] == s[j - 1];
      }
    }
  }

  /** Inserting into a sorted side adds exactly the new entry. */
  lemma InsertMembers(s: seq<L2Data>, x: L2Data)
    requires Sorted(s)
    ensures forall e :: e in Insert(s, x) <==> e in s || e == x
  {
    var r := Insert(s, x);
    InsertSorted(s, x);
    forall e
      ensures e in r <==> e in s || e == x
    {
      calc {
        e in r;
        e in multiset(r);
        e in multiset(s) + multiset{x};
        e in s || e == x;
      }
    }
  }

  /**
   * On a side whose levels are strictly ascending, an update keeps them
   * strictly ascending; afterwards the entries are those at other levels,
   * untouched, plus the update itself exactly when its quantity is positive.
   */
  lemma UpdateKeepsLevels(s: seq<L2Data>, u: L2Data)
    requires StrictlySorted(s)
    ensures var r := UpdateSide(s, u);
            && StrictlySorted(r)
            && (forall e :: e in r <==> (e in s && e.priceLevel != u.priceLevel) || (u.newQuantity > 0.0 && e == u))
            && (u.newQuantity > 0.0 <==> exists i :: 0 <= i < |r| && r[i].priceLevel == u.priceLevel)
  {
    var kept := Retain(s, u.priceLevel);
    RetainMembers(s, u.priceLevel);
    RetainStrict(s, u.priceLevel);
    SortSorted(kept);
    var r := UpdateSide(s, u);
    if u.newQuantity > 0.0 {
      assert (kept + [u])[..|kept|] == kept;
      assert r == Insert(kept, u);
      InsertStrict(kept, u);
      assert u in r;
    } else {
      assert kept + [] == kept;
      assert r == kept;
    }
  }

  /** The cumulative quantity of the first `n` entries. */
  function Cumulative(s: seq<L2Data>, n: nat): real
    requires n <= |s|
    decreases n
  {
    if n == 0 then 0.0 else Cumulative(s, n - 1) + s[n - 1].newQuantity
  }

  /** The cumulative quantity up to and including entry `k` reaches `threshold`. */
  predicate Reaches(s: seq<L2Data>, k: nat, threshold: real)
    requires k < |s|
  {
    Cumulative(s, k + 1) >= threshold
  }

  /**
   * `level` is the price of the first entry whose cumulative quantity
   * reaches `threshold`, or 0 when none does.
   */
  predicate IsStrongLevel(s: seq<L2Data>, threshold: real, level: real) {
    || (exists k: nat :: k < |s| && Reaches(s, k, threshold)
          && (forall j: nat :: j < k ==> !Reaches(s, j, threshold))
          && level == s[k].priceLevel)
    || ((forall k: nat :: k < |s| ==> !Reaches(s, k, threshold)) && level == 0.0)
  }

  /** `OrderBook::get_strong_level`. */
  method GetStrongLevel(s: seq<L2Data>, threshold: real) returns (level: real)
    ensures IsStrongLevel(s, threshold, level)
  {
    var cumulative := 0.0;
    var i := 0;
    while i < |s|
      invariant 0 <= i <= |s|
      invariant cumulative == Cumulative(s, i)
      invariant forall j: nat :: j < i ==> !Reaches(s, j, threshold)
    {
      cumulative := cumulative + s[i].newQuantity;
      if cumulative >= threshold {
        assert Reaches(s, i, threshold);
        return s[i].priceLevel;
      }
      i := i + 1;
    }
    return 0.0;
  }

  /** `OrderBook::identify_support_and_resistance`: the strong level of the bids and of the asks. */
  method IdentifySupportAndResistance(b: Book, threshold: real) returns (support: real, resistance: real)
    ensures IsStrongLevel(b.bids, threshold, support)
    ensures IsStrongLevel(b.asks, threshold, resistance)
  {
    support := GetStrongLevel(b.bids, threshold);
    resistance := GetStrongLevel(b.asks, threshold);
  }
}
