/** The skip-list index that answers "which tipset is at height h below this
one", its lazily filled cache shared by concurrent readers, and the store
lookup built on it.
*/
module ChainIndex {
  import opened Wrappers
  import opened Tipsets

  const SKIP_LENGTH: nat := 20

  datatype Entry = Entry(targetHeight: nat, target: Key)

  function RoundHeight(h: nat): nat {
    (h / SKIP_LENGTH) * SKIP_LENGTH
  }

  // The height a skip from height h aims at.
  function SkipHeight(h: nat): nat {
    if RoundHeight(h) < SKIP_LENGTH then 0 else RoundHeight(h) - SKIP_LENGTH
  }

  // The tipset that the cache entry of t has to point to.
  ghost function SkipTarget(s: Store, t: TipSet): (r: TipSet)
    requires Has(s, t)
    ensures Has(s, r)
  {
    if t.height == 0 then t
    else if Parent(s, t).height < SkipHeight(t.height) then Parent(s, t)
    else AtOrAbove(s, Parent(s, t), SkipHeight(t.height))
  }

  // A skip goes down the chain, and no lookup that it leaves below itself
  // changes its answer.
  lemma SkipKeepsAnswer(s: Store, t: TipSet, to: nat)
    requires Has(s, t)
    ensures OnChain(s, SkipTarget(s, t), t)
    ensures t.height > 0 ==> SkipTarget(s, t).height < t.height
    ensures to <= SkipTarget(s, t).height ==>
              to <= t.height && AtOrAbove(s, t, to) == AtOrAbove(s, SkipTarget(s, t), to)
    ensures to == SkipTarget(s, t).height ==>
              to <= t.height && AtOrAbove(s, t, to) == SkipTarget(s, t)
  {
    var r := SkipTarget(s, t);
    if t.height > 0 {
      var p := Parent(s, t);
      assert Chain(s, t)[1] == p;
      if p.height >= SkipHeight(t.height) {
        AtOrAboveOnChain(s, p, SkipHeight(t.height));
        ChainIncludes(s, r, p, t);
      }
    }
    if to <= r.height { AtOrAboveFrom(s, t, r, to); }
  }

  // No tipset of the same skip window lies just below t.
  ghost predicate Aligned(s: Store, t: TipSet)
    requires Has(s, t)
  {
    t.height > 0 ==> Parent(s, t).height < RoundHeight(t.height)
  }

  // Upper bound on the index lookups still needed at t to reach height `to`.
  ghost function LookupsLeft(s: Store, t: TipSet, to: nat): int
    requires Has(s, t)
  {
    t.height / SKIP_LENGTH - to / SKIP_LENGTH + if Aligned(s, t) then 1 else 2
  }

  lemma SkipSpendsLookup(s: Store, t: TipSet, to: nat)
    requires Has(s, t) && to < SkipTarget(s, t).height
    ensures LookupsLeft(s, SkipTarget(s, t), to) < LookupsLeft(s, t, to)
  {
    SkipKeepsAnswer(s, t, to);
    var r := SkipTarget(s, t);
    var q, q' := t.height / SKIP_LENGTH, r.height / SKIP_LENGTH;
    assert q' <= q;
    assert Straddles(s, r, SkipHeight(t.height)) || r.height < SkipHeight(t.height);
    if Parent(s, t).height < SkipHeight(t.height) {
      assert q' <= q - 2;
    } else {
      assert Aligned(s, r);
      if Aligned(s, t) { assert r.height <= Parent(s, t).height < RoundHeight(t.height); }
    }
  }

  method WalkBack(s: Store, from: TipSet, to: int) returns (r: Result<TipSet>)
    requires Has(s, from)
    ensures r.Ok? <==> 0 <= to <= from.height
    ensures r.Ok? ==> r.value == AtOrAbove(s, from, to)
    ensures r.Ok? ==> IsLowestAtOrAbove(s, from, to, r.value)
  {
    if to > from.height { return Err; }
    if to == from.height {
      AtOrAboveIsLowest(s, from, to);
      return Ok(from);
    }
    var ts := from;
    while true
      invariant Has(s, ts) && OnChain(s, ts, from) && to < ts.height
      invariant 0 <= to ==> AtOrAbove(s, ts, to) == AtOrAbove(s, from, to)
      decreases ts.height
    {
      var pts := GetTipSet(s, ts.parent);
      assert Linked(s, ts);
      if pts.None? { return Err; }
      if to >= 0 { AtOrAboveIsLowest(s, from, to); }
      if to > pts.value.height { return Ok(ts); }
      if to == pts.value.height { return Ok(pts.value); }
      assert OnChain(s, pts.value, ts) by { assert ts.height > 0 ==> Chain(s, ts)[1] == pts.value; }
      ChainIncludes(s, pts.value, ts, from);
      ts := pts.value;
    }
  }

  /** The index.  Readers share the cache and run concurrently: between any two
  of a reader's own cache operations other readers may fill entries. */
  class ChainIndex {
    const store: Store
    var cache: map<Key, Entry>

    // Every cached entry is the one that filling it again would give.
    ghost predicate Valid()
      reads this
    {
      forall k | k in cache ::
        && k in store
        && Has(store, store[k])
        && var target := SkipTarget(store, store[k]);
           cache[k] == Entry(target.height, target.key)
    }

    constructor (store: Store)
      ensures Valid() && this.store == store && cache == map[]
    {
      this.store := store;
      cache := map[];
    }

    method FillCache(k: Key) returns (r: Result<Entry>)
      ensures r.Ok? <==> k in store
      ensures r.Ok? ==>
                && Has(store, store[k])
                && var target := SkipTarget(store, store[k]);
                   r.value == Entry(target.height, target.key)
    {
      var loaded := GetTipSet(store, k);
      if loaded.None? { return Err; }
      var ts := loaded.value;
      if ts.height == 0 { return Ok(Entry(0, k)); }
      var rheight: int := RoundHeight(ts.height);
      assert Linked(store, ts);
      var parent := GetTipSet(store, ts.parent);
      rheight := rheight - SKIP_LENGTH;
      if rheight < 0 { rheight := 0; }
      var skipTarget := parent.value;
      if parent.value.height >= rheight {
        var w := WalkBack(store, parent.value, rheight);
        skipTarget := w.value;
      }
      return Ok(Entry(skipTarget.height, skipTarget.key));
    }

    // What other readers may do in between: fill any number of entries.
    method OtherReaders()
      requires Valid()
      modifies this
      ensures Valid()
    {
      var fills: nat := *;
      while fills > 0
        invariant Valid()
      {
        var k: Key := *;
        var fc := FillCache(k);
        if fc.Ok? { cache := cache[k := fc.value]; }
        fills := fills - 1;
      }
    }

    method RoundDown(ts: TipSet) returns (r: TipSet)
      requires Has(store, ts)
      ensures Has(store, r) && OnChain(store, r, ts)
      ensures r.height / SKIP_LENGTH == ts.height / SKIP_LENGTH && Aligned(store, r)
    {
      var w := WalkBack(store, ts, RoundHeight(ts.height));
      r := w.value;
      ChainBelow(store, r, ts);
      assert RoundHeight(r.height) == RoundHeight(ts.height);
    }

    /** The lookup agrees with walking back, in every state the cache can be in
    and whatever the other readers do meanwhile, and it stops after at most one
    index lookup per skip window. */
    method GetTipSetByHeight(from: TipSet, to: nat) returns (r: Result<TipSet>, lookups: nat)
      requires Valid() && Has(store, from)
      modifies this
      ensures Valid()
      ensures r.Ok? <==> to <= from.height
      ensures r.Ok? ==> r.value == AtOrAbove(store, from, to)
      ensures r.Ok? ==> IsLowestAtOrAbove(store, from, to, r.value)
      ensures r.Ok? ==> lookups <= from.height / SKIP_LENGTH - to / SKIP_LENGTH + 1
    {
      lookups := 0;
      if from.height - to <= SKIP_LENGTH {
        r := WalkBack(store, from, to);
        return;
      }
      AtOrAboveIsLowest(store, from, to);
      var cur := RoundDown(from);
      assert to <= cur.height by { assert RoundHeight(from.height) <= cur.height; }
      AtOrAboveFrom(store, from, cur, to);
      while true
        invariant Valid() && Has(store, cur) && to <= cur.height
        invariant AtOrAbove(store, cur, to) == AtOrAbove(store, from, to)
        invariant lookups + LookupsLeft(store, cur, to) <= from.height / SKIP_LENGTH - to / SKIP_LENGTH + 1
        decreases cur.height
      {
        OtherReaders();
        lookups := lookups + 1;
        var lbe: Entry;
        if cur.key in cache {
          lbe := cache[cur.key];
        } else {
          OtherReaders();
          if cur.key in cache {
            lbe := cache[cur.key];
          } else {
            var fc := FillCache(cur.key);
            lbe := fc.value;
            cache := cache[cur.key := lbe];
          }
        }
        OtherReaders();
        ghost var target := SkipTarget(store, cur);
        SkipKeepsAnswer(store, cur, to);
        if to == lbe.targetHeight {
          return Ok(GetTipSet(store, lbe.target).value), lookups;
        }
        if to > lbe.targetHeight {
          r := WalkBack(store, GetTipSet(store, cur.key).value, to);
          return;
        }
        SkipSpendsLookup(store, cur, to);
        cur := GetTipSet(store, lbe.target).value;
      }
    }

    /** The store's lookup: the tipset at height h, or when h is a null round
    the one after it (prev false) or before it (prev true). */
    method StoreGetTipSetByHeight(ts: Option<TipSet>, head: TipSet, h: int, prev: bool) returns (r: Result<TipSet>)
      requires Valid() && Has(store, head) && (ts.Some? ==> Has(store, ts.value))
      modifies this
      ensures Valid()
      ensures var from := if ts.Some? then ts.value else head;
              && (r.Ok? <==> 0 <= h <= from.height)
              && (r.Ok? && !prev ==> IsLowestAtOrAbove(store, from, h, r.value))
              && (r.Ok? && prev ==> IsHighestAtOrBelow(store, from, h, r.value))
    {
      if h < 0 { return Err; }
      var from := if ts.Some? then ts.value else head;
      if h > from.height { return Err; }
      if h == from.height {
        AtOrAboveIsLowest(store, from, h);
        forall x | OnChain(store, x, from) ensures x.height <= h { ChainBelow(store, x, from); }
        return Ok(from);
      }
      var lb, _ := GetTipSetByHeight(from, h);
      var lbts := lb.value;
      // The fallback to the uncached walk is for an index answer below h.
      assert lbts.height >= h;
      if lbts.height == h || !prev { return Ok(lbts); }
      assert Linked(store, lbts);
      StraddlesIsLowest(store, from, h, lbts);
      return Ok(GetTipSet(store, lbts.parent).value);
    }
  }
}
