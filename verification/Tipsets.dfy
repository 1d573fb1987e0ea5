/** Tipsets, the store that holds them, and the chain below a tipset.

A tipset is reduced to its key, its height and its parent key.  The store is
a map from keys to tipsets in which every parent link of a tipset above height
0 can be followed to a strictly lower tipset.  A height that no tipset of a
chain has is a null round.  A tipset at height 0 is a genesis: its parent key
is not in the store, so loading it fails.  A store may hold several chains with
different geneses.
*/
module Tipsets {
  import opened Wrappers

  type Key = nat

  datatype TipSet = TipSet(key: Key, height: nat, parent: Key)

  predicate Has(s: map<Key, TipSet>, t: TipSet) {
    t.key in s && s[t.key] == t
  }

  predicate Linked(s: map<Key, TipSet>, t: TipSet) {
    if t.height == 0 then t.parent !in s
    else t.parent in s && s[t.parent].height < t.height
  }

  ghost predicate ValidStore(s: map<Key, TipSet>) {
    && (forall k | k in s :: s[k].key == k)
    && (forall t: TipSet :: Has(s, t) ==> Linked(s, t))
  }

  type Store = s: map<Key, TipSet> | ValidStore(s) witness map[]

  function GetTipSet(s: Store, k: Key): (r: Option<TipSet>)
    ensures r.Some? ==> Has(s, r.value) && r.value.key == k
    ensures r.None? <==> k !in s
  {
    if k in s then Some(s[k]) else None
  }

  function Parent(s: Store, t: TipSet): (p: TipSet)
    requires Has(s, t) && t.height > 0
    ensures Has(s, p) && p.key == t.parent && p.height < t.height
  {
    assert Linked(s, t);
    s[t.parent]
  }

  // ---------------------------------------------------------------------
  // The chain of a tipset: the tipset itself, its parent, ..., its genesis.

  function Chain(s: Store, t: TipSet): (c: seq<TipSet>)
    requires Has(s, t)
    ensures |c| > 0 && c[0] == t
    ensures forall i | 0 <= i < |c| :: Has(s, c[i])
    decreases t.height
  {
    if t.height == 0 then [t] else [t] + Chain(s, Parent(s, t))
  }

  ghost function Genesis(s: Store, t: TipSet): (g: TipSet)
    requires Has(s, t)
    ensures Has(s, g) && g.height == 0
    decreases t.height
  {
    if t.height == 0 then t else Genesis(s, Parent(s, t))
  }

  ghost predicate OnChain(s: Store, x: TipSet, t: TipSet)
    requires Has(s, t)
  {
    x in Chain(s, t)
  }

  // The tail of a chain from any of its members is that member's own chain.
  lemma {:induction false} ChainTail(s: Store, t: TipSet, i: nat)
    requires Has(s, t) && i < |Chain(s, t)|
    ensures Chain(s, t)[i..] == Chain(s, Chain(s, t)[i])
    decreases t.height
  {
    if i > 0 {
      ChainTail(s, Parent(s, t), i - 1);
      assert Chain(s, t)[i..] == Chain(s, Parent(s, t))[i - 1..];
    }
  }

  // Heights fall strictly along a chain.
  lemma {:induction false} ChainDescends(s: Store, t: TipSet, i: nat, j: nat)
    requires Has(s, t) && i < j < |Chain(s, t)|
    ensures Chain(s, t)[i].height > Chain(s, t)[j].height
    decreases t.height
  {
    var p := Parent(s, t);
    if i > 0 {
      ChainDescends(s, p, i - 1, j - 1);
    } else if j > 1 {
      ChainDescends(s, p, 0, j - 1);
    }
  }

  // A member of a chain other than its head is strictly below the head.
  lemma ChainBelow(s: Store, x: TipSet, t: TipSet)
    requires Has(s, t) && OnChain(s, x, t)
    ensures Has(s, x)
    ensures x == t || x.height < t.height
  {
    var i :| 0 <= i < |Chain(s, t)| && Chain(s, t)[i] == x;
    if i > 0 { ChainDescends(s, t, 0, i); }
  }

  lemma ChainIncludes(s: Store, x: TipSet, y: TipSet, t: TipSet)
    requires Has(s, t) && OnChain(s, y, t) && Has(s, y) && OnChain(s, x, y)
    ensures OnChain(s, x, t)
  {
    var i :| 0 <= i < |Chain(s, t)| && Chain(s, t)[i] == y;
    ChainTail(s, t, i);
    assert x in Chain(s, t)[i..];
  }

  // Two members of one chain: the lower one is on the chain of the higher one.
  lemma ChainOrdered(s: Store, x: TipSet, y: TipSet, t: TipSet)
    requires Has(s, t) && OnChain(s, x, t) && OnChain(s, y, t) && x.height <= y.height
    ensures Has(s, y) && OnChain(s, x, y)
  {
    var c := Chain(s, t);
    var i :| 0 <= i < |c| && c[i] == x;
    var j :| 0 <= j < |c| && c[j] == y;
    if i < j { ChainDescends(s, t, i, j); }
    ChainTail(s, t, j);
    assert c[i] == c[j..][i - j];
  }

  lemma {:induction false} GenesisOnChain(s: Store, t: TipSet)
    requires Has(s, t)
    ensures Chain(s, t)[|Chain(s, t)| - 1] == Genesis(s, t)
    decreases t.height
  {
    if t.height > 0 { GenesisOnChain(s, Parent(s, t)); }
  }

  lemma SameGenesis(s: Store, x: TipSet, t: TipSet)
    requires Has(s, t) && OnChain(s, x, t)
    ensures Has(s, x) && Genesis(s, x) == Genesis(s, t)
  {
    var i :| 0 <= i < |Chain(s, t)| && Chain(s, t)[i] == x;
    ChainTail(s, t, i);
    GenesisOnChain(s, t);
    GenesisOnChain(s, x);
  }

  // ---------------------------------------------------------------------
  // The lowest member of a chain at or above a height, and the highest one at
  // or below it.

  ghost predicate IsLowestAtOrAbove(s: Store, t: TipSet, h: nat, r: TipSet)
    requires Has(s, t)
  {
    && OnChain(s, r, t)
    && r.height >= h
    && forall x | OnChain(s, x, t) && x.height >= h :: r.height <= x.height
  }

  ghost predicate IsHighestAtOrBelow(s: Store, t: TipSet, h: nat, r: TipSet)
    requires Has(s, t)
  {
    && OnChain(s, r, t)
    && r.height <= h
    && forall x | OnChain(s, x, t) && x.height <= h :: x.height <= r.height
  }

  // The link that tells the lowest tipset at or above a height from its own data.
  predicate Straddles(s: Store, t: TipSet, h: nat)
    requires Has(s, t)
  {
    t.height >= h && (t.height > 0 ==> Parent(s, t).height < h)
  }

  lemma StraddlesIsLowest(s: Store, t: TipSet, h: nat, r: TipSet)
    requires Has(s, t) && OnChain(s, r, t) && Has(s, r)
    ensures Straddles(s, r, h) ==> IsLowestAtOrAbove(s, t, h, r)
    ensures Straddles(s, r, h + 1) && r.height > 0 ==> IsHighestAtOrBelow(s, t, h, Parent(s, r))
  {
    forall x | OnChain(s, x, t) && x.height < r.height
      ensures r.height > 0 && x.height <= Parent(s, r).height
    {
      ChainOrdered(s, x, r, t);
      ChainBelow(s, x, Parent(s, r));
    }
    if r.height > 0 {
      assert OnChain(s, Parent(s, r), r) by { assert Chain(s, r)[1] == Parent(s, r); }
      ChainIncludes(s, Parent(s, r), r, t);
    }
    forall x | OnChain(s, x, t) && x.height > h && Straddles(s, r, h + 1)
      ensures x.height >= r.height
    {
      if x.height < r.height { ChainOrdered(s, x, r, t); }
    }
  }

  // At most one member of a chain is the lowest at or above a height.
  lemma LowestUnique(s: Store, t: TipSet, h: nat, r: TipSet, q: TipSet)
    requires Has(s, t) && IsLowestAtOrAbove(s, t, h, r) && IsLowestAtOrAbove(s, t, h, q)
    ensures r == q
  {
    ChainOrdered(s, r, q, t);
    ChainBelow(s, r, q);
  }

  // Reference answer to "which tipset is at height h, or above it after null
  // rounds": follow parents while the parent is still at or above h.
  function AtOrAbove(s: Store, t: TipSet, h: nat): (r: TipSet)
    requires Has(s, t) && h <= t.height
    ensures Has(s, r) && Straddles(s, r, h) && r.height <= t.height
    decreases t.height
  {
    if t.height == 0 || Parent(s, t).height < h then t else AtOrAbove(s, Parent(s, t), h)
  }

  lemma {:induction false} AtOrAboveIsLowest(s: Store, t: TipSet, h: nat)
    requires Has(s, t) && h <= t.height
    ensures IsLowestAtOrAbove(s, t, h, AtOrAbove(s, t, h))
  {
    AtOrAboveOnChain(s, t, h);
    StraddlesIsLowest(s, t, h, AtOrAbove(s, t, h));
  }

  lemma {:induction false} AtOrAboveOnChain(s: Store, t: TipSet, h: nat)
    requires Has(s, t) && h <= t.height
    ensures OnChain(s, AtOrAbove(s, t, h), t)
    decreases t.height
  {
    if t.height > 0 && Parent(s, t).height >= h {
      AtOrAboveOnChain(s, Parent(s, t), h);
    }
  }

  // Looking further back from a member of the chain that is still at or above
  // h gives the same answer.
  lemma AtOrAboveFrom(s: Store, t: TipSet, m: TipSet, h: nat)
    requires Has(s, t) && OnChain(s, m, t) && Has(s, m) && h <= m.height
    ensures h <= t.height && AtOrAbove(s, m, h) == AtOrAbove(s, t, h)
  {
    ChainBelow(s, m, t);
    AtOrAboveIsLowest(s, t, h);
    AtOrAboveOnChain(s, m, h);
    ChainIncludes(s, AtOrAbove(s, m, h), m, t);
    StraddlesIsLowest(s, t, h, AtOrAbove(s, m, h));
    LowestUnique(s, t, h, AtOrAbove(s, m, h), AtOrAbove(s, t, h));
  }
}
