/** The head of the chain store: forming the heaviest tipset from the blocks
seen at a height, refreshing the head within the fork-length and checkpoint
limits, and publishing every switch as a head change.
*/
module ForkChoice {
  import opened Wrappers
  import opened Tipsets
  import opened Sequences
  import opened Reorg
  import opened HeadChanges
  import opened Ties

  // Chain finality, in tipsets of the chain that is left.
  const FORK_LENGTH_THRESHOLD: nat := 900

  datatype Block = Block(cid: nat, miner: nat, parents: Key)

  // The blocks of a height whose miner made no second block there.
  ghost function Honest(bs: seq<Block>): set<Block> {
    set b | b in bs && forall c | c in bs && c.miner == b.miner :: c == b
  }

  // The honest blocks of a height that can form one tipset: same parents.
  ghost function Group(bs: seq<Block>, parents: Key): (g: set<Block>) {
    set b | b in Honest(bs) && b.parents == parents
  }

  // A set of blocks that makes a tipset: all blocks with these parents whose miners
  // made no other block at the height, and no others.
  ghost predicate IsFormable(bs: seq<Block>, parents: Key, g: set<Block>) {
    && g != {} && (forall b | b in g :: b in bs && b.parents == parents)
    && (forall b, c | b in g && c in bs && c != b :: c.miner != b.miner)
    && (forall b | b in bs && b.parents == parents && b !in g :: exists c :: c in bs && c != b && c.miner == b.miner)
  }

  lemma GroupsAreFormable(bs: seq<Block>, parents: Key, g: set<Block>)
    ensures IsFormable(bs, parents, g) <==> g == Group(bs, parents) && g != {}
  {
    if IsFormable(bs, parents, g) {
      forall b ensures b in g <==> b in Group(bs, parents) {}
    }
  }

  // ---------------------------------------------------------------------
  // The fork-length limit

  // A switch from a to b that the limits allow: it drops fewer tipsets than
  // the threshold, and not the checkpoint.
  ghost predicate WithinLimits(s: Store, a: TipSet, b: TipSet, checkPoint: Key)
    requires Has(s, a) && Has(s, b)
  {
    && SameRoot(s, a, b)
    && |Dropped(s, a, b)| < FORK_LENGTH_THRESHOLD
    && forall x | x in Dropped(s, a, b) :: x.key != checkPoint
  }

  lemma DroppedAtLeast(s: Store, a: TipSet, b: TipSet, seen: seq<TipSet>, v: Option<TipSet>)
    requires Has(s, a) && Has(s, b) && Walked(s, a, b, seen, v)
    ensures |Dropped(s, a, b)| >= |seen|
    ensures forall x | x in seen :: x in Dropped(s, a, b)
  {
    WithoutConcat(seen, Rest(s, v), Members(s, b));
    WithoutNone(seen, Members(s, b));
  }

  method ExceedsForkLength(s: Store, synced0: Option<TipSet>, external0: Option<TipSet>, checkPoint: Key)
      returns (exceeds: bool)
    requires (synced0.Some? ==> Has(s, synced0.value)) && (external0.Some? ==> Has(s, external0.value))
    ensures synced0.None? || external0.None? ==> !exceeds
    ensures synced0.Some? && external0.Some? ==>
              (exceeds <==> !WithinLimits(s, synced0.value, external0.value, checkPoint))
  {
    if synced0.None? || external0.None? { return false; }
    ghost var a, b := synced0.value, external0.value;
    var synced, external := synced0.value, external0.value;
    ghost var left: seq<TipSet>, right: seq<TipSet> := [], [];
    for forkLength := 0 to FORK_LENGTH_THRESHOLD
      invariant |left| == forkLength
      invariant Walked(s, a, b, left, Some(synced)) && Walked(s, b, a, right, Some(external))
      invariant forall x | x in left :: x.key != checkPoint
    {
      external, right := WalkExternal(s, a, b, left, synced, right, external);
      if synced == external {
        WalksMeet(s, a, b, left, right, synced);
        return false;
      }
      WalkStep(s, a, b, left, synced, right, external);
      left := left + [synced];
      if synced.key == checkPoint {
        DroppedAtLeast(s, a, b, left, Next(s, synced));
        assert synced in left;
        return true;
      }
      if synced.height == 0 {
        WalksMiss(s, a, b, left);
        return true;
      }
      assert Linked(s, synced);
      synced := GetTipSet(s, synced.parent).value;
    }
    DroppedAtLeast(s, a, b, left, Some(synced));
    return true;
  }

  // Walks the external chain back to the synced side's height.
  method WalkExternal(s: Store, ghost a: TipSet, ghost b: TipSet, ghost left: seq<TipSet>, synced: TipSet,
                      ghost right0: seq<TipSet>, external0: TipSet)
      returns (external: TipSet, ghost right: seq<TipSet>)
    requires Has(s, a) && Has(s, b)
    requires Walked(s, a, b, left, Some(synced)) && Walked(s, b, a, right0, Some(external0))
    ensures Walked(s, b, a, right, Some(external)) && external.height <= synced.height
  {
    external, right := external0, right0;
    while external.height > synced.height
      invariant Walked(s, b, a, right, Some(external))
      decreases external.height
    {
      WalkStep(s, b, a, right, external, left, synced);
      right := right + [external];
      assert Linked(s, external);
      external := GetTipSet(s, external.parent).value;
    }
  }

  // ---------------------------------------------------------------------
  // Runs of safe switches

  ghost predicate SafeSwitch(s: Store, weight: TipSet -> nat, checkPoint: Key, a: TipSet, b: TipSet)
    requires Has(s, a) && Has(s, b)
  {
    a == b || (weight(a) <= weight(b) && WithinLimits(s, a, b, checkPoint))
  }

  ghost predicate SafeAt(s: Store, weight: TipSet -> nat, checkPoint: Key, heads: seq<TipSet>, k: nat)
    requires k < |heads| - 1
  {
    Has(s, heads[k]) && Has(s, heads[k + 1]) && SafeSwitch(s, weight, checkPoint, heads[k], heads[k + 1])
  }

  // All switches from the head with this number on are safe.
  ghost predicate SafeFrom(s: Store, weight: TipSet -> nat, checkPoint: Key, heads: seq<TipSet>, mark: nat) {
    forall k: nat | mark <= k < |heads| - 1 :: SafeAt(s, weight, checkPoint, heads, k)
  }

  lemma SafeExtends(s: Store, weight: TipSet -> nat, checkPoint: Key, heads: seq<TipSet>, mark: nat, next: TipSet)
    requires SafeFrom(s, weight, checkPoint, heads, mark) && mark < |heads| && Has(s, Last(heads)) && Has(s, next)
    requires SafeSwitch(s, weight, checkPoint, Last(heads), next)
    ensures SafeFrom(s, weight, checkPoint, heads + [next], mark)
  {
    forall k: nat | mark <= k < |heads| ensures SafeAt(s, weight, checkPoint, heads + [next], k) {
      assert k < |heads| - 1 ==> SafeAt(s, weight, checkPoint, heads, k);
    }
  }

  // What a run of safe switches guarantees between two of its heads.
  ghost predicate Guarded(s: Store, weight: TipSet -> nat, checkPoint: Key, a: TipSet, b: TipSet)
    requires Has(s, a) && Has(s, b)
  {
    weight(a) <= weight(b) && forall c: TipSet | c.key == checkPoint && OnChain(s, c, a) :: OnChain(s, c, b)
  }

  // Over any run of safe switches the head's weight never falls, and a
  // checkpoint that is on the head's chain stays on it.
  lemma {:induction false} SafeRun(s: Store, weight: TipSet -> nat, checkPoint: Key, heads: seq<TipSet>, mark: nat,
                                   i: nat, j: nat)
    requires SafeFrom(s, weight, checkPoint, heads, mark) && mark <= i <= j < |heads| && Has(s, heads[i])
    ensures Has(s, heads[j]) && Guarded(s, weight, checkPoint, heads[i], heads[j])
    decreases j - i
  {
    if i < j {
      SafeRun(s, weight, checkPoint, heads, mark, i, j - 1);
      assert SafeAt(s, weight, checkPoint, heads, j - 1);
      var a, b := heads[j - 1], heads[j];
      assert a == b || forall x | x in Dropped(s, a, b) :: x.key != checkPoint;
    }
  }

  // What a store remembers of its heads: the change published for the first one has
  // no predecessor, after it the published changes are the minimal changes between
  // consecutive heads, and from the head numbered mark on all switches were safe.
  ghost predicate IsRecord(s: Store, weight: TipSet -> nat, checkPoint: Key, head: Option<TipSet>,
                           heads: seq<TipSet>, published: seq<Change>, mark: nat)
  {
    && (head.None? <==> heads == []) && |published| == |heads|
    && (head.Some? ==> head.value == Last(heads) && Feed(s, heads, published[1..]) && mark < |heads|)
    && SafeFrom(s, weight, checkPoint, heads, mark)
  }

  lemma RecordStarts(s: Store, weight: TipSet -> nat, checkPoint: Key, next: TipSet)
    requires Has(s, next)
    ensures IsRecord(s, weight, checkPoint, Some(next), [next], [Change([], [next])], 0)
  {
  }

  lemma RecordExtends(s: Store, weight: TipSet -> nat, checkPoint: Key, head: TipSet, heads: seq<TipSet>,
                      published: seq<Change>, mark: nat, next: TipSet)
    requires IsRecord(s, weight, checkPoint, Some(head), heads, published, mark)
    requires Has(s, head) && Has(s, next) && SameRoot(s, head, next)
    ensures IsRecord(s, weight, checkPoint, Some(next), heads + [next], published + [Diff(s, head, next)],
                     if SafeSwitch(s, weight, checkPoint, head, next) then mark else |heads|)
  {
    FeedExtends(s, heads, published[1..], next);
    TailOfConcat(published, [Diff(s, head, next)]);
    if SafeSwitch(s, weight, checkPoint, head, next) {
      SafeExtends(s, weight, checkPoint, heads, mark, next);
    }
  }

  // A safe run keeps the weight, the checkpoint and the fork limit.
  ghost predicate SafeHeads(s: Store, weight: TipSet -> nat, checkPoint: Key, heads: seq<TipSet>, from: nat) {
    && (forall k | from <= k < |heads| :: Has(s, heads[k]))
    && (forall i, j | from <= i <= j < |heads| :: Guarded(s, weight, checkPoint, heads[i], heads[j]))
    && (forall k | from < k < |heads| :: |Dropped(s, heads[k - 1], heads[k])| < FORK_LENGTH_THRESHOLD)
  }

  lemma RunIsSafe(s: Store, weight: TipSet -> nat, checkPoint: Key, heads: seq<TipSet>, mark: nat, from: nat)
    requires SafeFrom(s, weight, checkPoint, heads, mark) && mark <= from < |heads| && Has(s, heads[from])
    ensures SafeHeads(s, weight, checkPoint, heads, from)
  {
    forall k: nat | from <= k < |heads| ensures Has(s, heads[k]) {
      SafeRun(s, weight, checkPoint, heads, mark, from, k);
    }
    forall i: nat, j: nat | from <= i <= j < |heads| ensures Guarded(s, weight, checkPoint, heads[i], heads[j]) {
      SafeRun(s, weight, checkPoint, heads, mark, i, j);
    }
    forall k: nat | from < k < |heads| ensures |Dropped(s, heads[k - 1], heads[k])| < FORK_LENGTH_THRESHOLD {
      assert SafeAt(s, weight, checkPoint, heads, k - 1);
      var dropped := Dropped(s, heads[k - 1], heads[k]);
      assert |dropped| > 0 ==> dropped[0] in dropped;
    }
  }

  // What drives a store: a block is seen, or the head is refreshed for a height.
  datatype Step = See(height: int, block: Block) | Refresh(height: int)

  // ---------------------------------------------------------------------
  // The store

  class ChainStore {
    const store: Store
    // The weight of a tipset, the tickets of its blocks, and the tipset that a set of
    // blocks makes.
    const weight: TipSet -> nat
    const tickets: TipSet -> seq<nat>
    const form: set<Block> -> TipSet

    var head: Option<TipSet>
    var checkPoint: Key
    var tracked: map<int, seq<Block>>
    // Every published head change, oldest first.
    var published: seq<Change>
    // Every head there has been, oldest first, and the number of the one from which
    // on all switches were safe.
    ghost var heads: seq<TipSet>
    ghost var mark: nat

    ghost function At(h: int): seq<Block>
      reads this`tracked
    {
      if h in tracked then tracked[h] else []
    }

    ghost predicate Candidate(h: int, t: TipSet)
      reads this`tracked
    {
      exists p: Key :: Group(At(h), p) != {} && t == form(Group(At(h), p))
    }

    // What is tracked at a height forms stored tipsets of that height.
    ghost predicate Tracks()
      reads this`tracked
    {
      && (forall h | h in tracked :: Distinct(tracked[h]))
      && (forall h, t | Candidate(h, t) :: Has(store, t) && t.height == h)
    }

    ghost predicate Valid()
      reads this
    {
      && (forall t :: weight(t) > 0)
      && Tracks() && IsRecord(store, weight, checkPoint, head, heads, published, mark)
      && (head.Some? ==> Has(store, head.value))
    }

    constructor (store: Store, weight: TipSet -> nat, tickets: TipSet -> seq<nat>,
                 form: set<Block> -> TipSet, checkPoint: Key)
      requires forall t :: weight(t) > 0
      ensures Valid() && head.None? && tracked == map[] && published == [] && heads == [] && mark == 0
      ensures this.store == store && this.weight == weight && this.tickets == tickets && this.form == form
      ensures this.checkPoint == checkPoint
    {
      this.store, this.weight, this.tickets, this.form := store, weight, tickets, form;
      this.checkPoint := checkPoint;
      head, tracked, published, heads, mark := None, map[], [], [], 0;
    }

    // A new checkpoint guards the switches from now on.
    method SetCheckPoint(k: Key)
      requires Valid()
      modifies this`checkPoint, this`mark
      ensures Valid() && checkPoint == k && mark == if heads == [] then 0 else |heads| - 1
    {
      checkPoint := k;
      mark := if heads == [] then 0 else |heads| - 1;
    }

    method SetHead(newTS: TipSet) returns (ok: bool)
      requires Valid() && Has(store, newTS)
      modifies this`head, this`published, this`heads, this`mark
      ensures Valid()
      ensures ok <==> old(head).None? || SameRoot(store, old(head).value, newTS)
      ensures !ok ==> unchanged(this)
      ensures ok ==> head == Some(newTS)
      ensures ok && old(head) == Some(newTS) ==> unchanged(this)
      ensures ok && old(head) != Some(newTS) ==> heads == old(heads) + [newTS]
      ensures ok && old(head).Some? && SafeSwitch(store, weight, checkPoint, old(head).value, newTS) ==>
              mark == old(mark)
      ensures ok && old(head).Some? && old(head).value != newTS ==>
                published == old(published) + [Diff(store, old(head).value, newTS)]
      ensures ok && old(head).None? ==> published == [Change([], [newTS])]
    {
      if head == Some(newTS) { return true; }
      if head.Some? {
        var collected := CollectTipsToCommonAncestor(store, head.value, newTS);
        if collected.Err? { return false; }
        RecordExtends(store, weight, checkPoint, head.value, heads, published, mark, newTS);
        mark := if SafeSwitch(store, weight, checkPoint, head.value, newTS) then mark else |heads|;
        published := published + [Change(collected.value.0, Reverse(collected.value.1))];
      } else {
        RecordStarts(store, weight, checkPoint, newTS);
        mark := 0;
        published := [Change([], [newTS])];
      }
      heads := heads + [newTS];
      head := Some(newTS);
      assert IsRecord(store, weight, checkPoint, head, heads, published, mark);
      return true;
    }

    // Records a block; one arbitrary height below finality may be forgotten.
    method AddToTipSetTracker(height: int, b: Block)
      requires Valid()
      requires Forms(height, At(height) + [b])
      modifies this`tracked
      ensures Valid()
      ensures At(height) == if b in old(At(height)) then old(At(height)) else old(At(height)) + [b]
      ensures forall h | h != height && h in tracked :: h in old(tracked) && tracked[h] == old(tracked)[h]
      ensures forall h | h in old(tracked) && h !in tracked :: h < height - FORK_LENGTH_THRESHOLD
    {
      var tss := if height in tracked then tracked[height] else [];
      if b in tss { return; }
      if h :| h in tracked {
        if h < height - FORK_LENGTH_THRESHOLD { tracked := tracked - {h}; }
      }
      tracked := tracked[height := tss + [b]];
      assert Distinct(tss + [b]) by { assert forall i | 0 <= i < |tss| :: tss[i] in tss; }
      forall h, t | Candidate(h, t) ensures Has(store, t) && t.height == h {
        var p: Key :| Group(At(h), p) != {} && t == form(Group(At(h), p));
        assert Group([], p) == {};
        if h != height {
          assert At(h) == old(At(h));
          assert old(Candidate(h, t));
        } else {
          assert At(h) == old(At(h)) + [b];
        }
      }
    }

    ghost predicate IsBest(h: int, ts: Option<TipSet>, w: nat)
      reads this`tracked
    {
      && (ts.None? ==> w == 0 && Honest(At(h)) == {})
      && (ts.Some? ==> w == weight(ts.value) && Candidate(h, ts.value))
      && forall t | Candidate(h, t) :: weight(t) <= w
    }

    // The tipset wins against all others that can be formed at the height.
    ghost predicate Preferred(h: int, c: TipSet)
      reads this`tracked
    {
      Candidate(h, c) && forall d | Candidate(h, d) && d != c :: Wins(weight, tickets, c, d)
    }

    method FormHeaviestTipSetForHeight(h: int) returns (maxTS: Option<TipSet>, maxWeight: nat)
      requires Valid()
      ensures IsBest(h, maxTS, maxWeight)
      ensures forall c | Preferred(h, c) :: maxTS == Some(c)
    {
      maxTS, maxWeight := None, 0;
      if h !in tracked { return; }
      var formable := GroupByParents(tracked[h]);
      ghost var parents: Key;
      maxTS, maxWeight, parents := Heaviest(formable);
      forall b | b in Honest(At(h)) ensures b.parents in formable { assert b in Group(At(h), b.parents); }
      if maxTS.Some? {
        assert Candidate(h, maxTS.value) by { assert Group(At(h), parents) != {}; }
      }
      forall c | Preferred(h, c) ensures maxTS == Some(c) {
        var p: Key :| Group(At(h), p) != {} && c == form(Group(At(h), p));
        forall q | q in formable && form(formable[q]) != c ensures Wins(weight, tickets, c, form(formable[q])) {
          assert Candidate(h, form(formable[q]));
        }
        assert WinsFormed(formable, p);
      }
    }

    ghost predicate WinsFormed(formable: map<Key, set<Block>>, p: Key) {
      && p in formable
      && var c := form(formable[p]);
      forall q | q in formable && form(formable[q]) != c :: Wins(weight, tickets, c, form(formable[q]))
    }

    // The heaviest of the formable tipsets, taken in any order.
    method Heaviest(formable: map<Key, set<Block>>)
        returns (maxTS: Option<TipSet>, maxWeight: nat, ghost parents: Key)
      requires forall t :: weight(t) > 0
      ensures maxTS.None? ==> maxWeight == 0 && formable == map[]
      ensures maxTS.Some? ==>
                parents in formable && maxTS.value == form(formable[parents]) && maxWeight == weight(maxTS.value)
      ensures forall p | p in formable :: weight(form(formable[p])) <= maxWeight
      ensures forall p | WinsFormed(formable, p) :: maxTS == Some(form(formable[p]))
    {
      maxTS, maxWeight, parents := None, 0, 0;
      var rest := formable.Keys;
      while rest != {}
        invariant rest <= formable.Keys
        invariant maxTS.None? ==> maxWeight == 0 && rest == formable.Keys
        invariant maxTS.Some? ==>
                    parents in formable && maxTS.value == form(formable[parents]) && maxWeight == weight(maxTS.value)
        invariant forall p | p in formable && p !in rest :: weight(form(formable[p])) <= maxWeight
        invariant forall p | WinsFormed(formable, p) && p !in rest :: maxTS == Some(form(formable[p]))
        decreases |rest|
      {
        var p :| p in rest;
        var ts := form(formable[p]);
        var heavier := weight(ts) > maxWeight;
        if weight(ts) == maxWeight { heavier := BreakWeightTie(tickets(ts), tickets(maxTS.value)); }
        if heavier { maxWeight, maxTS, parents := weight(ts), Some(ts), p; }
        rest := rest - {p};
      }
    }

    // The honest blocks of a height, by their parents.
    static method GroupByParents(bs: seq<Block>) returns (formable: map<Key, set<Block>>)
      requires Distinct(bs)
      ensures forall p :: p in formable <==> Group(bs, p) != {}
      ensures forall p | p in formable :: formable[p] == Group(bs, p)
    {
      var bad, blocks := BadMiners(bs);
      formable := map[];
      for i := 0 to |blocks|
        invariant forall p | p in formable ::
                    formable[p] == (set b | b in blocks[..i] && b.miner !in bad && b.parents == p) && formable[p] != {}
        invariant forall b | b in blocks[..i] && b.miner !in bad :: b.parents in formable
      {
        var h := blocks[i];
        assert blocks[..i + 1] == blocks[..i] + [h];
        if h.miner !in bad {
          var so := if h.parents in formable then formable[h.parents] else {};
          formable := formable[h.parents := so + {h}];
        }
      }
      assert blocks[..|blocks|] == blocks;
      forall p | Group(bs, p) != {} ensures p in formable { var b :| b in Group(bs, p); }
      forall p | p in formable ensures formable[p] == Group(bs, p) {}
    }

    // The miners with two blocks, and the first block of every miner.
    static method BadMiners(bs: seq<Block>) returns (bad: set<nat>, blocks: seq<Block>)
      requires Distinct(bs)
      ensures forall b :: b in Honest(bs) <==> b in blocks && b.miner !in bad
    {
      var seen: set<nat> := {};
      bad, blocks := {}, [];
      for i := 0 to |bs|
        invariant forall m :: m in seen <==> exists b :: b in bs[..i] && b.miner == m
        invariant forall m | m in bad :: TwoBlocks(bs[..i], m)
        invariant forall b | b in bs[..i] && b.miner !in bad :: b in blocks && b in Honest(bs[..i])
        invariant forall b | b in blocks :: b in bs[..i]
      {
        var h := bs[i];
        assert bs[..i + 1] == bs[..i] + [h];
        assert h !in bs[..i];
        if h.miner in seen {
          bad := bad + {h.miner};
          assert TwoBlocks(bs[..i + 1], h.miner);
        } else {
          seen := seen + {h.miner};
          blocks := blocks + [h];
        }
      }
      assert bs[..|bs|] == bs;
    }

    static ghost predicate TwoBlocks(bs: seq<Block>, m: nat) {
      exists b, c :: b in bs && c in bs && b != c && b.miner == c.miner == m
    }

    // Re-forming the head's own height gives less than the head's weight.
    ghost predicate Shrank()
      requires head.Some?
      reads this`tracked, this`head
    {
      forall t | Candidate(head.value.height, t) :: weight(t) < weight(head.value)
    }

    // Some tipset can be formed within ten heights around a height; none of those
    // outweighs w; a tipset can be formed at some height.
    ghost predicate SomeNear(h: int) reads this`tracked { exists t :: Near(h, t) }
    ghost predicate NoneHeavier(h: int, w: nat) reads this`tracked { forall t | Near(h, t) :: weight(t) <= w }
    ghost predicate Formable(t: TipSet) reads this`tracked { exists i :: Candidate(i, t) }

    lemma Outweighs(h: int, w: nat, i: int, t: TipSet)
      requires NoneHeavier(h, w) && w <= weight(t) && Candidate(i, t)
      ensures NoneHeavier(h, weight(t)) && Formable(t)
    {
    }

    // What a refresh without equivocation does.
    ghost predicate Refreshed(was: TipSet, h: int)
      requires head.Some? && Has(store, was) && Has(store, head.value)
      reads this`head, this`tracked, this`checkPoint
    {
      && SafeSwitch(store, weight, checkPoint, was, head.value)
      && ((forall t | Candidate(h, t) || Candidate(was.height, t) :: weight(t) <= weight(head.value))
          || (head.value == was && exists t | Candidate(h, t) || Candidate(was.height, t) ::
                weight(t) >= weight(was) && Has(store, t) && !WithinLimits(store, was, t, checkPoint)))
    }

    // What it does after equivocation: it takes a tipset that nothing formed nearby
    // outweighs, whatever the limits; if nothing can be formed nearby it moves
    // within the limits or not at all.
    ghost predicate Recovered(was: TipSet)
      requires head.Some? && Has(store, was) && Has(store, head.value)
      reads this`head, this`tracked, this`checkPoint
    {
      if SomeNear(was.height) then NoneHeavier(was.height, weight(head.value)) && Formable(head.value)
      else head.value == was || WithinLimits(store, was, head.value, checkPoint)
    }

    // The tipset a refresh for a height decides on, when the head's own height and that
    // height both have one that wins against their others: best and next.
    ghost predicate Decides(was: TipSet, h: int, best: TipSet, next: TipSet)
      reads this`tracked
    {
      && Preferred(was.height, best) && weight(best) >= weight(was)
      && if h == was.height || forall t :: !Candidate(h, t) then next == best
         else exists c :: Preferred(h, c) && next == if Replaces(weight, tickets, c, best) then c else best
    }

    ghost predicate Settles(was: TipSet, h: int, r: TipSet)
      reads this`tracked
    {
      forall best, next | Decides(was, h, best, next) :: r == next
    }

    lemma DecidedIs(was: TipSet, h: int, formed: TipSet, r: TipSet)
      requires Tracks() && (forall c | Preferred(was.height, c) :: formed == c)
      requires h == formed.height ==> r == formed
      requires (forall t :: !Candidate(h, t)) ==> r == formed
      requires h != formed.height ==>
                 forall c | Preferred(h, c) :: r == if Replaces(weight, tickets, c, formed) then c else formed
      ensures Settles(was, h, r)
    {
    }

    // A tipset at least as heavy as the head and as all that can be formed here.
    ghost predicate Rises(was: TipSet, h: int, next: TipSet)
      reads this`tracked
    {
      && weight(was) <= weight(next) && (Candidate(h, next) || Candidate(was.height, next))
      && forall t | Candidate(h, t) || Candidate(was.height, t) :: weight(t) <= weight(next)
    }

    ghost predicate Tops(h: int, t: TipSet)
      reads this`tracked
    {
      NoneHeavier(h, weight(t)) && Formable(t)
    }

    // Finds the tipset for a refresh to switch to; after equivocation the head has
    // been replaced before.
    method FindHeaviest(h: int) returns (ok: bool, next: TipSet)
      requires Valid() && head.Some?
      modifies this`head, this`published, this`heads, this`mark
      ensures Valid() && head.Some? && Has(store, next) && old(heads) <= heads
      ensures !old(Shrank()) ==> ok && unchanged(this) && Rises(old(head).value, h, next)
      ensures old(Shrank()) && ok ==>
                var at := old(head).value.height;
                if SomeNear(at) then Tops(at, head.value) && Tops(at, next) else head == old(head)
      ensures Settles(old(head).value, h, next)
    {
      var heaviest := head.value;
      var best, bestWeight;
      var formed, formedWeight := FormHeaviestTipSetForHeight(heaviest.height);
      if formed.None? || formedWeight < weight(heaviest) {
        ok, best, bestWeight := TakeAround(formed, formedWeight);
        next := best;
        if !ok { return; }
      } else {
        best, bestWeight := formed.value, formedWeight;
      }
      ok := true;
      next := HeavierAt(h, best, bestWeight);
      if !old(Shrank()) { DecidedIs(heaviest, h, best, next); }
      if old(Shrank()) && next != best { Outweighs(heaviest.height, bestWeight, h, next); }
    }

    /** Refreshes the head after blocks were seen at newTSHeight.  Unless the
    head's own tipset has shrunk through equivocation, the head only moves to a
    tipset that is at least as heavy and within the fork limits, and it stays
    below a heavier candidate only if the limits forbid the switch.  Where the tickets
    decide every tie the new head is determined. */
    method RefreshHeaviestTipSet(newTSHeight: int) returns (ok: bool)
      requires Valid() && head.Some?
      modifies this`head, this`published, this`heads, this`mark
      ensures Valid() && head.Some? && Has(store, old(head).value) && Has(store, head.value) && old(heads) <= heads
      ensures !old(Shrank()) ==> ok && Refreshed(old(head).value, newTSHeight) && mark == old(mark)
      ensures old(Shrank()) && ok ==> Recovered(old(head).value)
      ensures forall best, next | Decides(old(head).value, newTSHeight, best, next) ::
                head == Some(if Has(store, next) && WithinLimits(store, old(head).value, next, checkPoint)
                             then next else old(head).value)
    {
      var heaviest := head.value;
      var newHeaviest;
      ok, newHeaviest := FindHeaviest(newTSHeight);
      if !ok { return; }
      ok := SwitchWithin(heaviest, newHeaviest);
    }

    // Switches to a tipset if it is within the fork limits of the former head.
    method SwitchWithin(heaviest: TipSet, newHeaviest: TipSet) returns (ok: bool)
      requires Valid() && head.Some? && Has(store, heaviest) && Has(store, newHeaviest)
      modifies this`head, this`published, this`heads, this`mark
      ensures Valid() && old(heads) <= heads
      ensures head == if ok && newHeaviest != heaviest && WithinLimits(store, heaviest, newHeaviest, checkPoint)
                      then Some(newHeaviest) else old(head)
      ensures old(head) == Some(heaviest) ==> ok
      ensures old(head) == Some(heaviest) && weight(heaviest) <= weight(newHeaviest) ==> mark == old(mark)
    {
      if newHeaviest == heaviest { return true; }
      var exceeds := ExceedsForkLength(store, Some(heaviest), Some(newHeaviest), checkPoint);
      if exceeds { return true; }
      ok := SetHead(newHeaviest);
    }

    // After equivocation the head becomes the heaviest tipset of ten heights around it.
    method TakeAround(formed: Option<TipSet>, w: nat) returns (ok: bool, best: TipSet, bestWeight: nat)
      requires Valid() && head.Some? && IsBest(head.value.height, formed, w)
      modifies this`head, this`published, this`heads, this`mark
      ensures Valid() && head.Some? && old(heads) <= heads && Has(store, best)
      ensures ok ==> head.value == best
      ensures if SomeNear(old(head).value.height) then Formable(best) && bestWeight == weight(best)
              else best == old(head).value && ok
      ensures NoneHeavier(old(head).value.height, bestWeight)
    {
      var around, aroundWeight := HeaviestAround(head.value.height, formed, w);
      if around.None? { return true, head.value, aroundWeight; }
      best, bestWeight := around.value, aroundWeight;
      ok := SetHead(best);
    }

    // The heaviest candidate at a height if it beats ts, otherwise ts.
    method HeavierAt(h: int, ts: TipSet, w: nat) returns (r: TipSet)
      requires Valid() && Has(store, ts)
      ensures r == ts || (Candidate(h, r) && weight(r) >= w)
      ensures h != ts.height ==> forall t | Candidate(h, t) :: weight(t) <= weight(r) || weight(t) <= w
      ensures h == ts.height ==> r == ts
      ensures (forall t :: !Candidate(h, t)) ==> r == ts
      ensures w == weight(ts) && h != ts.height ==>
                forall c | Preferred(h, c) :: r == if Replaces(weight, tickets, c, ts) then c else ts
    {
      r := ts;
      if h != ts.height {
        var bestTS, bestTSWeight := FormHeaviestTipSetForHeight(h);
        var heavier := bestTSWeight > w;
        if bestTSWeight == w && bestTS.Some? { heavier := BreakWeightTie(tickets(bestTS.value), tickets(ts)); }
        if heavier { r := bestTS.value; }
      }
    }

    ghost predicate Near(h: int, t: TipSet)
      reads this`tracked
    {
      exists i :: h - 5 < i <= h + 5 && Candidate(i, t)
    }

    // After equivocation: the heaviest tipset of ten heights around the head's.
    method HeaviestAround(h: int, formed: Option<TipSet>, w: nat) returns (best: Option<TipSet>, bestWeight: nat)
      requires Valid() && IsBest(h, formed, w)
      ensures if SomeNear(h) then best.Some? && Near(h, best.value) && bestWeight == weight(best.value) else best.None?
      ensures NoneHeavier(h, bestWeight)
    {
      best, bestWeight := formed, w;
      var i := h + 5;
      while i > h - 5
        invariant h - 5 <= i <= h + 5
        invariant best.Some? ==> Near(h, best.value) && bestWeight == weight(best.value)
        invariant best.None? ==> formed.None? && bestWeight == w
        invariant bestWeight >= w
        invariant forall k, t | i < k <= h + 5 && Candidate(k, t) :: weight(t) <= bestWeight
      {
        var ts, tw := FormHeaviestTipSetForHeight(i);
        if tw > bestWeight {
          assert Candidate(i, ts.value);
          best, bestWeight := ts, tw;
        }
        i := i - 1;
      }
    }

    // The tipsets that the blocks of a height form are stored and have that height.
    ghost predicate Forms(height: int, bs: seq<Block>) {
      forall p: Key | Group(bs, p) != {} :: Has(store, form(Group(bs, p))) && form(Group(bs, p)).height == height
    }

    // A valid block makes valid tipsets with all others of its height.
    ghost predicate Joins(step: Step) {
      step.See? ==> forall bs | Forms(step.height, bs) :: Forms(step.height, bs + [step.block])
    }

    // Re-forms the head's own height.
    method HasShrunk() returns (shrank: bool)
      requires Valid() && head.Some?
      ensures shrank <==> Shrank()
    {
      var formed, w := FormHeaviestTipSetForHeight(head.value.height);
      shrank := formed.None? || w < weight(head.value);
    }

    /** Any interleaving of seen blocks and refreshes, up to the first refresh that
    meets equivocation: the head's weight never falls, a checkpoint on its chain
    stays on it, and no switch drops more tipsets than the limit allows. */
    method Drive(steps: seq<Step>) returns (n: nat)
      requires Valid() && head.Some? && forall k | 0 <= k < |steps| :: Joins(steps[k])
      modifies this`tracked, this`head, this`published, this`heads, this`mark
      ensures Valid() && head.Some? && old(heads) <= heads
      ensures n <= |steps| && (n < |steps| ==> steps[n].Refresh? && Shrank())
      ensures SafeHeads(store, weight, checkPoint, heads, |old(heads)| - 1)
    {
      n := 0;
      while n < |steps|
        invariant Valid() && head.Some? && old(heads) <= heads && n <= |steps| && mark == old(mark)
      {
        if steps[n].See? {
          var height, b := steps[n].height, steps[n].block;
          CandidatesForm(height);
          assert Joins(steps[n]);
          AddToTipSetTracker(height, b);
        } else {
          var shrank := HasShrunk();
          if shrank { break; }
          var _ := RefreshHeaviestTipSet(steps[n].height);
        }
        n := n + 1;
      }
      RunIsSafe(store, weight, checkPoint, heads, mark, |old(heads)| - 1);
    }

    lemma CandidatesForm(height: int)
      requires Tracks()
      ensures Forms(height, At(height))
    {
      forall p: Key | Group(At(height), p) != {}
        ensures Has(store, form(Group(At(height), p))) && form(Group(At(height), p)).height == height
      {
        assert Candidate(height, form(Group(At(height), p)));
      }
    }
  }
}
