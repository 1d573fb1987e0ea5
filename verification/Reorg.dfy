/** The reorg between two heads, computed by two different walks: ReorgOps,
which moves one side at a time, and CollectTipsToCommonAncestor, which first
finds the common ancestor and then walks again by height.
*/
module Reorg {
  import opened Wrappers
  import opened Tipsets
  import opened Sequences

  // ---------------------------------------------------------------------
  // Reference definition.  The tipsets a switch from a to b drops are those of
  // a's chain that b's chain does not have, highest first.

  ghost function Without<T(!new)>(xs: seq<T>, gone: set<T>): (r: seq<T>)
    ensures forall x :: x in r <==> x in xs && x !in gone
  {
    if xs == [] then []
    else (if xs[0] in gone then [] else [xs[0]]) + Without(xs[1..], gone)
  }

  ghost function Members(s: Store, t: TipSet): (m: set<TipSet>)
    requires Has(s, t)
    ensures forall x :: x in m <==> OnChain(s, x, t)
  {
    set x | x in Chain(s, t)
  }

  ghost function Dropped(s: Store, a: TipSet, b: TipSet): (d: seq<TipSet>)
    requires Has(s, a) && Has(s, b)
    ensures forall x :: x in d <==> OnChain(s, x, a) && !OnChain(s, x, b)
  {
    Without(Chain(s, a), Members(s, b))
  }

  ghost predicate SameRoot(s: Store, a: TipSet, b: TipSet)
    requires Has(s, a) && Has(s, b)
  {
    Genesis(s, a) == Genesis(s, b)
  }

  lemma {:induction false} WithoutConcat<T(!new)>(xs: seq<T>, ys: seq<T>, gone: set<T>)
    ensures Without(xs + ys, gone) == Without(xs, gone) + Without(ys, gone)
  {
    if xs == [] {
      assert xs + ys == ys;
    } else {
      assert (xs + ys)[1..] == xs[1..] + ys;
      WithoutConcat(xs[1..], ys, gone);
    }
  }

  lemma {:induction false} WithoutAll<T(!new)>(xs: seq<T>, gone: set<T>)
    requires forall x | x in xs :: x in gone
    ensures Without(xs, gone) == []
  {
    if xs != [] { WithoutAll(xs[1..], gone); }
  }

  lemma {:induction false} WithoutNone<T(!new)>(xs: seq<T>, gone: set<T>)
    requires forall x | x in xs :: x !in gone
    ensures Without(xs, gone) == xs
  {
    if xs != [] { WithoutNone(xs[1..], gone); }
  }

  lemma {:induction false} WithoutSame<T(!new)>(xs: seq<T>, a: set<T>, b: set<T>)
    requires forall x | x in xs :: x in a <==> x in b
    ensures Without(xs, a) == Without(xs, b)
  {
    if xs != [] { WithoutSame(xs[1..], a, b); }
  }

  // A split of a's chain at a member of b's chain, with nothing of b's chain
  // above it, is the reference diff.
  lemma SplitIsDropped(s: Store, a: TipSet, b: TipSet, above: seq<TipSet>, c: TipSet)
    requires Has(s, a) && Has(s, b) && Has(s, c) && OnChain(s, c, b)
    requires Chain(s, a) == above + Chain(s, c)
    requires forall x | x in above :: !OnChain(s, x, b)
    ensures Dropped(s, a, b) == above
  {
    forall x | x in Chain(s, c) ensures x in Members(s, b) { ChainIncludes(s, x, c, b); }
    WithoutConcat(above, Chain(s, c), Members(s, b));
    WithoutAll(Chain(s, c), Members(s, b));
    WithoutNone(above, Members(s, b));
  }

  // ---------------------------------------------------------------------
  // A walk down a's chain that has passed `seen` and stands at v, having met
  // nothing of b's chain on the way.

  function Next(s: Store, t: TipSet): (v: Option<TipSet>)
    requires Has(s, t)
    ensures v.Some? ==> Has(s, v.value) && v.value.height < t.height
  {
    if t.height == 0 then None else Some(Parent(s, t))
  }

  ghost function Rest(s: Store, v: Option<TipSet>): seq<TipSet>
    requires v.Some? ==> Has(s, v.value)
  {
    if v.None? then [] else Chain(s, v.value)
  }

  ghost predicate Walked(s: Store, a: TipSet, b: TipSet, seen: seq<TipSet>, v: Option<TipSet>)
    requires Has(s, a) && Has(s, b)
  {
    && (v.Some? ==> Has(s, v.value))
    && seen + Rest(s, v) == Chain(s, a)
    && forall x | x in seen :: !OnChain(s, x, b)
  }

  // The walk that is not lower than the other one may take a step.
  lemma WalkStep(s: Store, a: TipSet, b: TipSet, ls: seq<TipSet>, left: TipSet, rs: seq<TipSet>, right: TipSet)
    requires Has(s, a) && Has(s, b)
    requires Walked(s, a, b, ls, Some(left)) && Walked(s, b, a, rs, Some(right))
    requires left != right && left.height >= right.height
    ensures Walked(s, a, b, ls + [left], Next(s, left))
  {
    forall x | x in Chain(s, right) ensures x != left { ChainBelow(s, x, right); }
    assert OnChain(s, left, a) by { assert left in ls + Chain(s, left); }
    assert !OnChain(s, left, b) by { assert left !in rs + Chain(s, right); }
    if left.height > 0 { OnStep(s, left); }
    ConcatAssociates(ls, [left], Rest(s, Next(s, left)));
  }

  lemma WalksMeet(s: Store, a: TipSet, b: TipSet, ls: seq<TipSet>, rs: seq<TipSet>, c: TipSet)
    requires Has(s, a) && Has(s, b)
    requires Walked(s, a, b, ls, Some(c)) && Walked(s, b, a, rs, Some(c))
    ensures SameRoot(s, a, b)
    ensures Dropped(s, a, b) == ls && Dropped(s, b, a) == rs
    ensures OnChain(s, c, a) && OnChain(s, c, b)
  {
    assert c in ls + Chain(s, c) && c in rs + Chain(s, c);
    SplitIsDropped(s, a, b, ls, c);
    SplitIsDropped(s, b, a, rs, c);
    SameGenesis(s, c, a);
    SameGenesis(s, c, b);
  }

  // If one chain is used up without meeting the other, the geneses differ.
  lemma WalksMiss(s: Store, a: TipSet, b: TipSet, seen: seq<TipSet>)
    requires Has(s, a) && Has(s, b) && Walked(s, a, b, seen, None)
    ensures !SameRoot(s, a, b)
  {
    GenesisOnChain(s, a);
    GenesisOnChain(s, b);
    assert OnChain(s, Genesis(s, a), a) && OnChain(s, Genesis(s, b), b);
    assert seen == Chain(s, a);
  }

  // ---------------------------------------------------------------------
  // ReorgOps

  method ReorgOps(s: Store, a: TipSet, b: TipSet) returns (r: Result<(seq<TipSet>, seq<TipSet>)>)
    requires Has(s, a) && Has(s, b)
    ensures r.Ok? <==> SameRoot(s, a, b)
    ensures r.Ok? ==> r.value == (Dropped(s, a, b), Dropped(s, b, a))
  {
    var left, right := a, b;
    var leftChain, rightChain: seq<TipSet> := [], [];
    while left != right
      invariant Walked(s, a, b, leftChain, Some(left)) && Walked(s, b, a, rightChain, Some(right))
      decreases left.height + right.height
    {
      assert Linked(s, left) && Linked(s, right);
      if left.height > right.height {
        WalkStep(s, a, b, leftChain, left, rightChain, right);
        leftChain := leftChain + [left];
        var par := GetTipSet(s, left.parent);
        left := par.value;
      } else {
        WalkStep(s, b, a, rightChain, right, leftChain, left);
        rightChain := rightChain + [right];
        var par := GetTipSet(s, right.parent);
        if par.None? {
          WalksMiss(s, b, a, rightChain);
          return Err;
        }
        right := par.value;
      }
    }
    WalksMeet(s, a, b, leftChain, rightChain, left);
    return Ok((leftChain, rightChain));
  }

  // ---------------------------------------------------------------------
  // The ancestor iterator and the walks over it

  class TipsetIterator {
    const store: Store
    var value: Option<TipSet>

    ghost predicate Valid()
      reads this
    {
      value.Some? ==> Has(store, value.value)
    }

    constructor (store: Store, start: TipSet)
      requires Has(store, start)
      ensures Valid() && this.store == store && value == Some(start)
    {
      this.store := store;
      value := Some(start);
    }

    predicate Complete()
      reads this
    {
      value.None?
    }

    method Advance()
      requires Valid() && !Complete()
      modifies this
      ensures Valid() && value == Next(store, old(value).value)
    {
      assert Linked(store, value.value);
      if value.value.height == 0 {
        value := None;
      } else {
        value := GetTipSet(store, value.value.parent);
      }
    }
  }

  // Both iterators move at equal heights, otherwise the higher one does.
  method FindCommonAncestor(leftIter: TipsetIterator, rightIter: TipsetIterator) returns (r: Result<TipSet>)
    requires leftIter != rightIter && leftIter.store == rightIter.store
    requires leftIter.Valid() && !leftIter.Complete() && rightIter.Valid() && !rightIter.Complete()
    modifies leftIter, rightIter
    ensures var s, a, b := leftIter.store, old(leftIter.value).value, old(rightIter.value).value;
            && (r.Ok? <==> SameRoot(s, a, b))
            && (r.Ok? ==>
                  && Has(s, r.value)
                  && Chain(s, a) == Dropped(s, a, b) + Chain(s, r.value)
                  && Chain(s, b) == Dropped(s, b, a) + Chain(s, r.value))
  {
    ghost var s, a, b := leftIter.store, leftIter.value.value, rightIter.value.value;
    ghost var ls: seq<TipSet>, rs: seq<TipSet> := [], [];
    while !rightIter.Complete() && !leftIter.Complete()
      invariant Walked(s, a, b, ls, leftIter.value) && Walked(s, b, a, rs, rightIter.value)
      decreases if leftIter.value.Some? then leftIter.value.value.height + 1 else 0,
                if rightIter.value.Some? then rightIter.value.value.height + 1 else 0
    {
      var left, right := leftIter.value.value, rightIter.value.value;
      if left == right {
        WalksMeet(s, a, b, ls, rs, left);
        return Ok(left);
      }
      ghost var ls', rs' := ls, rs;
      if right.height >= left.height {
        WalkStep(s, b, a, rs, right, ls, left);
        rightIter.Advance();
        rs' := rs + [right];
      }
      if left.height >= right.height {
        WalkStep(s, a, b, ls, left, rs, right);
        leftIter.Advance();
        ls' := ls + [left];
      }
      ls, rs := ls', rs';
    }
    if leftIter.Complete() { WalksMiss(s, a, b, ls); } else { WalksMiss(s, b, a, rs); }
    return Err;
  }

  method CollectTipSetsOfHeightAtLeast(iter: TipsetIterator, minHeight: nat) returns (ret: seq<TipSet>)
    requires iter.Valid() && !iter.Complete()
    modifies iter
    ensures ret <= Chain(iter.store, old(iter.value).value)
    ensures forall x | x in ret :: x.height >= minHeight
    ensures forall x | OnChain(iter.store, x, old(iter.value).value) && x.height >= minHeight :: x in ret
  {
    ghost var s, start := iter.store, iter.value.value;
    ret := [];
    while !iter.Complete()
      invariant iter.Valid()
      invariant ret + Rest(s, iter.value) == Chain(s, start)
      invariant forall x | x in ret :: x.height >= minHeight
      decreases if iter.value.Some? then iter.value.value.height + 1 else 0
    {
      var h := iter.value.value.height;
      if h < minHeight {
        forall x | x in Chain(s, iter.value.value) ensures x.height < minHeight {
          ChainBelow(s, x, iter.value.value);
        }
        return;
      }
      ret := ret + [iter.value.value];
      iter.Advance();
    }
  }

  lemma PrefixOfSplit(s: Store, a: TipSet, above: seq<TipSet>, c: TipSet, ret: seq<TipSet>)
    requires Has(s, a) && Has(s, c) && Chain(s, a) == above + Chain(s, c)
    requires ret <= Chain(s, a)
    requires forall x | x in ret :: x.height > c.height
    requires forall x | OnChain(s, x, a) && x.height > c.height :: x in ret
    ensures ret == above
  {
    var chain := Chain(s, a);
    assert chain[|above|] == c;
    assert |ret| <= |above| by { assert c in chain[..|above| + 1]; }
    if |ret| < |above| {
      var x := chain[|ret|];
      ChainDescends(s, a, |ret|, |above|);
      var j :| 0 <= j < |ret| && ret[j] == x;
      ChainDescends(s, a, j, |ret|);
    }
  }

  method CollectTipsToCommonAncestor(s: Store, oldHead: TipSet, newHead: TipSet)
      returns (r: Result<(seq<TipSet>, seq<TipSet>)>)
    requires Has(s, oldHead) && Has(s, newHead)
    ensures r.Ok? <==> SameRoot(s, oldHead, newHead)
    ensures r.Ok? ==> r.value == (Dropped(s, oldHead, newHead), Dropped(s, newHead, oldHead))
  {
    var oldIter := new TipsetIterator(s, oldHead);
    var newIter := new TipsetIterator(s, newHead);
    var found := FindCommonAncestor(oldIter, newIter);
    if found.Err? { return Err; }
    var commonHeight := found.value.height;
    oldIter := new TipsetIterator(s, oldHead);
    newIter := new TipsetIterator(s, newHead);
    var oldTips := CollectTipSetsOfHeightAtLeast(oldIter, commonHeight + 1);
    PrefixOfSplit(s, oldHead, Dropped(s, oldHead, newHead), found.value, oldTips);
    var newTips := CollectTipSetsOfHeightAtLeast(newIter, commonHeight + 1);
    PrefixOfSplit(s, newHead, Dropped(s, newHead, oldHead), found.value, newTips);
    return Ok((oldTips, newTips));
  }

  // The highest tipset that both chains have.
  ghost predicate Forks(s: Store, a: TipSet, b: TipSet, c: TipSet)
    requires Has(s, a) && Has(s, b)
  {
    && Has(s, c) && OnChain(s, c, a) && OnChain(s, c, b)
    && Chain(s, a) == Dropped(s, a, b) + Chain(s, c)
    && Chain(s, b) == Dropped(s, b, a) + Chain(s, c)
    && forall x | OnChain(s, x, a) && OnChain(s, x, b) :: x.height <= c.height
  }

  // Every pair of heads with a common genesis forks at one tipset.
  lemma {:induction false} ForkPoint(s: Store, a: TipSet, b: TipSet) returns (c: TipSet)
    requires Has(s, a) && Has(s, b) && SameRoot(s, a, b)
    ensures Forks(s, a, b, c)
    decreases a.height + b.height
  {
    if a == b {
      c := a;
      SplitIsDropped(s, a, a, [], a);
      forall x | OnChain(s, x, a) ensures x.height <= c.height { ChainBelow(s, x, a); }
    } else if a.height > b.height {
      c := ForkPoint(s, Parent(s, a), b);
      ForkStep(s, a, b, c);
    } else {
      c := ForkPoint(s, a, Parent(s, b));
      ForkStep(s, b, a, c);
    }
  }

  lemma ForkStep(s: Store, a: TipSet, b: TipSet, c: TipSet)
    requires Has(s, a) && Has(s, b) && a != b && a.height >= b.height && a.height > 0 && Forks(s, Parent(s, a), b, c)
    ensures Forks(s, a, b, c)
  {
    var p := Parent(s, a);
    assert !OnChain(s, a, b) by { forall x | OnChain(s, x, b) ensures x != a { ChainBelow(s, x, b); } }
    DroppedByStep(s, a, b);
    OnStep(s, a);
    ConcatAssociates([a], Dropped(s, p, b), Chain(s, c));
  }

  lemma OnStep(s: Store, a: TipSet)
    requires Has(s, a) && a.height > 0
    ensures Chain(s, a) == [a] + Chain(s, Parent(s, a))
    ensures forall x :: OnChain(s, x, a) <==> x == a || OnChain(s, x, Parent(s, a))
  {
    assert Chain(s, a) == [a] + Chain(s, Parent(s, a));
  }

  // A tipset off the other chain is dropped, and the other chain drops what it
  // would against its parent.
  lemma DroppedByStep(s: Store, a: TipSet, b: TipSet)
    requires Has(s, a) && Has(s, b) && a.height > 0 && !OnChain(s, a, b)
    ensures Dropped(s, a, b) == [a] + Dropped(s, Parent(s, a), b)
    ensures Dropped(s, b, a) == Dropped(s, b, Parent(s, a))
  {
    var p := Parent(s, a);
    assert Chain(s, a) == [a] + Chain(s, p);
    WithoutConcat([a], Chain(s, p), Members(s, b));
    WithoutNone([a], Members(s, b));
    WithoutSame(Chain(s, b), Members(s, a), Members(s, p));
  }
}
