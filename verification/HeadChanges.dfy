/** Head changes: the reverts (highest first) and applies (lowest first) that
take a follower of the chain from one head to another, and feeds of them.
*/
module HeadChanges {
  import opened Tipsets
  import opened Reorg

  datatype Change = Change(revert: seq<TipSet>, apply: seq<TipSet>)

  function Reverse<T>(xs: seq<T>): (r: seq<T>)
    ensures |r| == |xs|
    ensures forall i | 0 <= i < |xs| :: r[i] == xs[|xs| - 1 - i]
  {
    if xs == [] then [] else Reverse(xs[1..]) + [xs[0]]
  }

  lemma ReverseMembers<T>(xs: seq<T>)
    ensures forall x | x in xs :: x in Reverse(xs)
    ensures forall x | x in Reverse(xs) :: x in xs
  {
    forall x | x in xs ensures x in Reverse(xs) {
      var i :| 0 <= i < |xs| && xs[i] == x;
      assert Reverse(xs)[|xs| - 1 - i] == x;
    }
  }

  lemma {:induction false} ReverseConcat<T>(xs: seq<T>, ys: seq<T>)
    ensures Reverse(xs + ys) == Reverse(ys) + Reverse(xs)
  {
  }

  // The minimal change from head a to head b.
  ghost function Diff(s: Store, a: TipSet, b: TipSet): Change
    requires Has(s, a) && Has(s, b)
  {
    Change(Dropped(s, a, b), Reverse(Dropped(s, b, a)))
  }

  // All of these tipsets are stored.
  ghost predicate Stored(s: Store, xs: seq<TipSet>) {
    forall x | x in xs :: Has(s, x)
  }

  // Each change of the feed is the minimal change between two consecutive heads.
  ghost predicate Feed(s: Store, heads: seq<TipSet>, feed: seq<Change>) {
    && |heads| == |feed| + 1
    && (forall i | 0 <= i < |heads| :: Has(s, heads[i]))
    && (forall i | 0 <= i < |heads| :: SameRoot(s, heads[0], heads[i]))
    && (forall i | 0 <= i < |feed| :: Leads(s, heads, feed, i))
  }

  ghost predicate Leads(s: Store, heads: seq<TipSet>, feed: seq<Change>, i: nat)
    requires i < |feed| == |heads| - 1 && Has(s, heads[i]) && Has(s, heads[i + 1])
  {
    feed[i] == Diff(s, heads[i], heads[i + 1])
  }

  lemma FeedExtends(s: Store, heads: seq<TipSet>, feed: seq<Change>, next: TipSet)
    requires Feed(s, heads, feed) && Has(s, next) && SameRoot(s, Last(heads), next)
    ensures Feed(s, heads + [next], feed + [Diff(s, Last(heads), next)])
  {
    var heads', feed' := heads + [next], feed + [Diff(s, Last(heads), next)];
    forall i | 0 <= i < |feed'| ensures Leads(s, heads', feed', i) {
      assert i < |feed| ==> Leads(s, heads, feed, i);
    }
  }

  ghost function Last<T>(xs: seq<T>): T
    requires |xs| > 0
  {
    xs[|xs| - 1]
  }
}
