/** Choosing among the tipsets of one height: the heaviest is taken, and of two that
weigh the same the one that has a smaller ticket somewhere.  They are visited in the
order of a map, which is any order.
*/
module Ties {
  import opened Wrappers
  import opened Sequences
  import opened Tipsets

  // The tickets of a tipset's blocks, which are sorted by them.
  type Tickets = TipSet -> seq<nat>

  type Weight = TipSet -> nat

  // The first one has a smaller ticket in some place that both have.
  ghost predicate BreaksTie(a: seq<nat>, b: seq<nat>) {
    exists i :: 0 <= i < |a| && i < |b| && a[i] < b[i]
  }

  method BreakWeightTie(a: seq<nat>, b: seq<nat>) returns (first: bool)
    ensures first <==> BreaksTie(a, b)
  {
    var s := if |a| > |b| then |b| else |a|;
    for i := 0 to s
      invariant forall k | 0 <= k < i :: a[k] >= b[k]
    {
      if a[i] < b[i] { return true; }
    }
    return false;
  }

  /** The tie-break is no order: it may prefer each of two tipsets to the other. */
  lemma BothBreak()
    ensures BreaksTie([1, 5], [2, 3]) && BreaksTie([2, 3], [1, 5])
  {
    assert [1, 5][0] < [2, 3][0] && [2, 3][1] < [1, 5][1];
  }

  // Whichever of the two is visited first, a is chosen.
  ghost predicate Wins(weight: Weight, tickets: Tickets, a: TipSet, b: TipSet) {
    weight(b) < weight(a)
    || (weight(b) == weight(a) && BreaksTie(tickets(a), tickets(b)) && !BreaksTie(tickets(b), tickets(a)))
  }

  /** Between two tipsets of which one has a single block a tie is always broken one
  way, unless their first tickets are the same. */
  lemma OneBlockDecides(weight: Weight, tickets: Tickets, a: TipSet, b: TipSet)
    requires tickets(a) != [] && tickets(b) != [] && (|tickets(a)| == 1 || |tickets(b)| == 1)
    ensures Wins(weight, tickets, a, b) || Wins(weight, tickets, b, a)
            <==> weight(a) != weight(b) || tickets(a)[0] != tickets(b)[0]
  {
  }

  // The tipset that the loop ends with when it visits them in this order.
  ghost function Pick(weight: Weight, tickets: Tickets, ts: seq<TipSet>): Option<TipSet> {
    if ts == [] then None
    else
      var best, t := Pick(weight, tickets, ts[..|ts| - 1]), ts[|ts| - 1];
      if best.None? || Replaces(weight, tickets, t, best.value) then Some(t) else best
  }

  ghost predicate Replaces(weight: Weight, tickets: Tickets, t: TipSet, best: TipSet) {
    weight(t) > weight(best) || (weight(t) == weight(best) && BreaksTie(tickets(t), tickets(best)))
  }

  lemma PickNext(weight: Weight, tickets: Tickets, ts: seq<TipSet>, t: TipSet)
    ensures var best := Pick(weight, tickets, ts);
            Pick(weight, tickets, ts + [t])
            == if best.None? || Replaces(weight, tickets, t, best.value) then Some(t) else best
  {
    assert (ts + [t])[..|ts|] == ts;
  }

  lemma {:induction false} PickHeaviest(weight: Weight, tickets: Tickets, ts: seq<TipSet>)
    requires ts != []
    ensures var best := Pick(weight, tickets, ts);
            best.Some? && best.value in ts && forall t | t in ts :: weight(t) <= weight(best.value)
  {
    var n := |ts| - 1;
    if n > 0 {
      PickHeaviest(weight, tickets, ts[..n]);
      assert ts == ts[..n] + [ts[n]];
    }
  }

  // What has been passed over is not chosen later.
  lemma {:induction false} PickStays(weight: Weight, tickets: Tickets, ts: seq<TipSet>, more: seq<TipSet>)
    requires ts != []
    ensures Pick(weight, tickets, ts + more).Some?
    ensures Pick(weight, tickets, ts + more).value in more
            || Pick(weight, tickets, ts + more) == Pick(weight, tickets, ts)
  {
    if more == [] {
      PickHeaviest(weight, tickets, ts);
      assert ts + more == ts;
    } else {
      var n := |more| - 1;
      PickStays(weight, tickets, ts, more[..n]);
      assert ts + more == (ts + more[..n]) + [more[n]];
      PickNext(weight, tickets, ts + more[..n], more[n]);
    }
  }

  ghost predicate IsOrder(ts: seq<TipSet>, all: set<TipSet>) {
    Distinct(ts) && forall t :: t in ts <==> t in all
  }

  // One of the tipsets wins against every other.
  ghost predicate WinsAll(weight: Weight, tickets: Tickets, all: set<TipSet>, c: TipSet) {
    c in all && forall d | d in all && d != c :: Wins(weight, tickets, c, d)
  }

  lemma {:induction false} WinnerPicked(weight: Weight, tickets: Tickets, all: set<TipSet>, c: TipSet, ts: seq<TipSet>)
    requires WinsAll(weight, tickets, all, c) && c in ts && forall t | t in ts :: t in all
    ensures Pick(weight, tickets, ts) == Some(c)
  {
    var n := |ts| - 1;
    assert ts == ts[..n] + [ts[n]];
    if c in ts[..n] {
      WinnerPicked(weight, tickets, all, c, ts[..n]);
      assert ts[n] != c ==> Wins(weight, tickets, c, ts[n]);
    } else if n > 0 {
      PickHeaviest(weight, tickets, ts[..n]);
      assert Wins(weight, tickets, c, Pick(weight, tickets, ts[..n]).value);
    }
  }

  lemma {:induction false} SomeOrder(all: set<TipSet>) returns (ts: seq<TipSet>)
    ensures IsOrder(ts, all)
    decreases |all|
  {
    ts := [];
    if t :| t in all {
      var rest := SomeOrder(all - {t});
      ts := [t] + rest;
      assert forall k | 0 <= k < |rest| :: rest[k] in rest;
    }
  }

  // Two of them can be visited first, in either order.
  lemma OrderFrom(all: set<TipSet>, a: TipSet, b: TipSet) returns (ts: seq<TipSet>, rest: seq<TipSet>)
    requires a in all && b in all && a != b
    ensures IsOrder(ts, all) && ts == [a, b] + rest && a !in rest && b !in rest
  {
    rest := SomeOrder(all - {a, b});
    ts := [a, b] + rest;
    assert forall k | 0 <= k < |rest| :: rest[k] in rest;
  }

  // If c does not win against d some order does not end with c.
  lemma LosesSomehow(weight: Weight, tickets: Tickets, all: set<TipSet>, c: TipSet, d: TipSet)
      returns (ts: seq<TipSet>)
    requires c in all && d in all && c != d && !Wins(weight, tickets, c, d)
    ensures IsOrder(ts, all) && Pick(weight, tickets, ts) != Some(c)
  {
    var rest;
    if Replaces(weight, tickets, d, c) {
      ts, rest := OrderFrom(all, c, d);
      PickNext(weight, tickets, [c], d);
      assert [c] + [d] == [c, d];
    } else {
      ts, rest := OrderFrom(all, d, c);
      PickNext(weight, tickets, [d], c);
      assert [d] + [c] == [d, c];
    }
    assert Pick(weight, tickets, [c]) == Some(c) && Pick(weight, tickets, [d]) == Some(d);
    PickStays(weight, tickets, ts[..2], rest);
    assert ts == ts[..2] + rest;
  }

  // Whatever the order, the same tipset is chosen.
  ghost predicate OrderIndependent(weight: Weight, tickets: Tickets, all: set<TipSet>) {
    forall ts, ts' | IsOrder(ts, all) && IsOrder(ts', all) :: Pick(weight, tickets, ts) == Pick(weight, tickets, ts')
  }

  /** The choice does not depend on the order of the map exactly if one of the tipsets
  is heavier than each other one or wins the tie with it both ways round. */
  lemma OrderIndependence(weight: Weight, tickets: Tickets, all: set<TipSet>)
    requires all != {}
    ensures OrderIndependent(weight, tickets, all) <==> exists c :: WinsAll(weight, tickets, all, c)
  {
    if c :| WinsAll(weight, tickets, all, c) {
      forall ts | IsOrder(ts, all) ensures Pick(weight, tickets, ts) == Some(c) {
        WinnerPicked(weight, tickets, all, c, ts);
      }
    } else {
      var ts := SomeOrder(all);
      var x :| x in all;
      assert x in ts;
      PickHeaviest(weight, tickets, ts);
      var c := Pick(weight, tickets, ts).value;
      assert !WinsAll(weight, tickets, all, c);
      var d :| d in all && d != c && !Wins(weight, tickets, c, d);
      var ts' := LosesSomehow(weight, tickets, all, c, d);
      assert IsOrder(ts, all) && IsOrder(ts', all);
    }
  }
}
