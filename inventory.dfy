/**
 * The player's inventory (Inventory.java): a map from tile kind to a strictly
 * positive count, where a missing kind counts as zero.
 */
module Inventories {

  import opened TileCatalog

  /** `counts.getOrDefault(t, 0)`. */
  function Count(m: map<TileType, int>, t: TileType): int {
    if t in m then m[t] else 0
  }

  /** Every stored count is strictly positive. */
  ghost predicate Positive(m: map<TileType, int>) {
    forall t :: t in m ==> m[t] > 0
  }

  /** The constructor's stock: 25 DIRT and 12 PLANKS. */
  const Start: map<TileType, int> := map[Dirt := 25, Planks := 12]

  /** The map after `add(t, amount)`. */
  function Added(m: map<TileType, int>, t: TileType, amount: int): (m': map<TileType, int>)
    ensures amount <= 0 ==> m' == m
    ensures forall k :: Count(m', k) == Count(m, k) + (if k == t && amount > 0 then amount else 0)
    ensures Positive(m) ==> Positive(m')
  {
    if amount <= 0 then m else m[t := Count(m, t) + amount]
  }

  /** The outcome and the map after `take(t, amount)`. */
  function Taken(m: map<TileType, int>, t: TileType, amount: int): (r: (bool, map<TileType, int>))
    ensures r.0 <==> amount <= Count(m, t)
    ensures !r.0 ==> r.1 == m
    ensures r.0 ==> forall k :: Count(r.1, k) == Count(m, k) - (if k == t then amount else 0)
    ensures r.0 && amount == Count(m, t) ==> t !in r.1
    ensures Positive(m) ==> Positive(r.1)
  {
    var have := Count(m, t);
    if have < amount then (false, m)
    else
      var left := have - amount;
      if left == 0 then (true, m - {t}) else (true, m[t := left])
  }

  /** The entries of m in declaration order of the kinds listed in ks. */
  function ListFrom(m: map<TileType, int>, ks: seq<TileType>): seq<(TileType, int)> {
    if ks == [] then []
    else (if ks[0] in m then [(ks[0], m[ks[0]])] else []) + ListFrom(m, ks[1..])
  }

  /** What iterating `snapshot().entrySet()` visits: the entries of m in ordinal order. */
  function Listing(m: map<TileType, int>): seq<(TileType, int)> {
    ListFrom(m, AllKinds)
  }

  /** `add` applied to each entry in turn, as a load does. */
  function AddAll(m: map<TileType, int>, es: seq<(TileType, int)>): map<TileType, int>
    decreases |es|
  {
    if es == [] then m else AddAll(Added(m, es[0].0, es[0].1), es[1..])
  }

  class Inventory {
    var counts: map<TileType, int>

    ghost predicate Valid()
      reads this
    {
      Positive(counts)
    }

    /** `new Inventory()`: exactly 25 DIRT and 12 PLANKS. */
    constructor ()
      ensures Valid() && counts == Start
    {
      counts := map[];
      new;
      Add(Dirt, 25);
      Add(Planks, 12);
    }

    /** `get(t)`: the count, or 0 for a kind with no entry. */
    function Get(t: TileType): (n: int)
      reads this
      ensures t !in counts ==> n == 0
      ensures t in counts ==> n == counts[t]
      ensures Valid() ==> n >= 0 && (n > 0 <==> t in counts)
    {
      Count(counts, t)
    }

    /** `add(t, amount)`: nothing for amount <= 0, else the count of t grows by amount. */
    method Add(t: TileType, amount: int)
      modifies this
      ensures counts == Added(old(counts), t, amount)
      ensures old(Valid()) ==> Valid()
    {
      if amount <= 0 {
        return;
      }
      counts := counts[t := Get(t) + amount];
    }

    /**
     * `take(t, amount)`: false and no change when fewer than amount are held; otherwise
     * the count drops by amount and the entry goes when it reaches 0.
     */
    method Take(t: TileType, amount: int) returns (ok: bool)
      modifies this
      ensures (ok, counts) == Taken(old(counts), t, amount)
      ensures old(Valid()) ==> Valid()
    {
      var have := Get(t);
      if have < amount {
        return false;
      }
      var left := have - amount;
      if left == 0 {
        counts := counts - {t};
      } else {
        counts := counts[t := left];
      }
      return true;
    }

    /** `snapshot()`, as the sequence of entries its iteration visits. */
    function Snapshot(): (r: seq<(TileType, int)>)
      reads this
      ensures forall i :: 0 <= i < |r| ==> r[i].0 in counts && r[i].1 == counts[r[i].0]
      ensures forall t :: t in counts ==> (t, counts[t]) in r
    {
      ListFromEntries(counts, AllKinds);
      assert forall t :: t in AllKinds by {
        forall t
          ensures t in AllKinds
        {
          CatalogueIsComplete(t);
        }
      }
      Listing(counts)
    }
  }

  /** The stock a new inventory holds, kind by kind. */
  lemma StartStock(t: TileType)
    ensures Positive(Start)
    ensures Count(Start, t) == if t == Dirt then 25 else if t == Planks then 12 else 0
  {
  }

  /** `take(t, a)` followed by `add(t, a)` restores the map exactly, for 0 < a <= get(t). */
  lemma TakeThenAddRestores(m: map<TileType, int>, t: TileType, a: int)
    requires 0 < a <= Count(m, t)
    ensures Taken(m, t, a).0
    ensures Added(Taken(m, t, a).1, t, a) == m
  {
    var m' := Added(Taken(m, t, a).1, t, a);
    assert m'.Keys == m.Keys;
  }

  /** `add(t, a)` followed by `take(t, a)` succeeds and restores a positive map exactly, for a > 0. */
  lemma AddThenTakeRestores(m: map<TileType, int>, t: TileType, a: int)
    requires Positive(m) && a > 0
    ensures Taken(Added(m, t, a), t, a) == (true, m)
  {
    var m1 := Added(m, t, a);
    if t in m {
      assert m1 == m[t := m[t] + a];
      assert Taken(m1, t, a).1 == m1[t := m[t]] == m;
    } else {
      assert m1 == m[t := a];
      assert Taken(m1, t, a).1 == m1 - {t} == m;
    }
  }

  /** `take(t, get(t) + 1)` always fails. */
  lemma TakeMoreThanHeldFails(m: map<TileType, int>, t: TileType)
    ensures Taken(m, t, Count(m, t) + 1) == (false, m)
  {
  }

  /** Iterating a listing visits each stored entry once, with its count, in ordinal order. */
  lemma {:induction false} ListFromEntries(m: map<TileType, int>, ks: seq<TileType>)
    ensures forall i :: 0 <= i < |ListFrom(m, ks)| ==>
              ListFrom(m, ks)[i].0 in m && ListFrom(m, ks)[i].0 in ks &&
              ListFrom(m, ks)[i].1 == m[ListFrom(m, ks)[i].0]
    ensures forall k :: k in m && k in ks ==> (k, m[k]) in ListFrom(m, ks)
  {
    if ks != [] {
      ListFromEntries(m, ks[1..]);
      var head := if ks[0] in m then [(ks[0], m[ks[0]])] else [];
      assert ListFrom(m, ks) == head + ListFrom(m, ks[1..]);
      forall k | k in m && k in ks
        ensures (k, m[k]) in ListFrom(m, ks)
      {
        if k != ks[0] {
          assert k in ks[1..];
          assert (k, m[k]) in ListFrom(m, ks[1..]);
        }
      }
    }
  }

  /**
   * Adding every entry of a positive map's listing to m adds that map to m kind by kind,
   * provided the kinds listed are distinct.
   */
  lemma {:induction false} AddAllListFrom(m: map<TileType, int>, c: map<TileType, int>, ks: seq<TileType>, k: TileType)
    requires Positive(c)
    requires forall i, j :: 0 <= i < j < |ks| ==> ks[i] != ks[j]
    ensures Count(AddAll(m, ListFrom(c, ks)), k) == Count(m, k) + (if k in ks then Count(c, k) else 0)
    decreases |ks|
  {
    if ks != [] {
      var head := if ks[0] in c then [(ks[0], c[ks[0]])] else [];
      var l := ListFrom(c, ks);
      assert l == head + ListFrom(c, ks[1..]);
      var m1 := if ks[0] in c then Added(m, ks[0], c[ks[0]]) else m;
      if ks[0] in c {
        assert l[0] == (ks[0], c[ks[0]]) && l[1..] == ListFrom(c, ks[1..]);
      } else {
        assert l == ListFrom(c, ks[1..]);
      }
      assert AddAll(m, l) == AddAll(m1, ListFrom(c, ks[1..]));
      AddAllListFrom(m1, c, ks[1..], k);
      assert k in ks <==> k == ks[0] || k in ks[1..];
      assert ks[0] !in ks[1..] by {
        forall j | 0 <= j < |ks[1..]| ensures ks[1..][j] != ks[0] {
          assert ks[1..][j] == ks[j + 1];
        }
      }
    }
  }

  /** A load adds the saved counts on top of the stock: each kind ends at stock + saved. */
  lemma AddAllListing(m: map<TileType, int>, c: map<TileType, int>, k: TileType)
    requires Positive(c)
    ensures Count(AddAll(m, Listing(c)), k) == Count(m, k) + Count(c, k)
  {
    AddAllListFrom(m, c, AllKinds, k);
    assert k in AllKinds by { CatalogueIsComplete(k); }
  }

  /** Adding entries to a positive map keeps it positive, whatever the entries. */
  lemma {:induction false} AddAllPositive(m: map<TileType, int>, es: seq<(TileType, int)>)
    requires Positive(m)
    ensures Positive(AddAll(m, es))
    decreases |es|
  {
    if es != [] {
      AddAllPositive(Added(m, es[0].0, es[0].1), es[1..]);
    }
  }

  /** Two positive maps that agree on every kind's count are the same map. */
  lemma SameCounts(a: map<TileType, int>, b: map<TileType, int>)
    requires Positive(a) && Positive(b)
    requires forall k :: Count(a, k) == Count(b, k)
    ensures a == b
  {
    forall k
      ensures k in a <==> k in b
    {
      assert Count(a, k) == Count(b, k);
    }
    assert a.Keys == b.Keys;
    forall k | k in a
      ensures a[k] == b[k]
    {
      assert Count(a, k) == Count(b, k);
    }
  }

  /** Adding a positive map's listing to nothing gives that map back. */
  lemma AddAllListingRestores(c: map<TileType, int>)
    requires Positive(c)
    ensures AddAll(map[], Listing(c)) == c
  {
    forall k
      ensures Count(AddAll(map[], Listing(c)), k) == Count(c, k)
    {
      AddAllListing(map[], c, k);
    }
    AddAllPositive(map[], Listing(c));
    SameCounts(AddAll(map[], Listing(c)), c);
  }
}
