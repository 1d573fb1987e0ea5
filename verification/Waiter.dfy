/** Waiting for a message: a search back through the chain runs beside a loop
over head changes, and the message is returned once it is deep enough.
*/
module Waiter {
  import opened Wrappers
  import opened Tipsets

  // A message found on chain: the tipset whose parent holds it.
  datatype ChainMessage = ChainMessage(ts: TipSet, receipt: nat)

  // What looking for the message in one tipset gives.
  datatype Lookup = NotFound | Found(msg: ChainMessage) | LookupError

  ghost predicate Honest(lookup: TipSet -> Lookup) {
    forall t :: lookup(t).Found? ==> lookup(t).msg.ts == t
  }

  // ---------------------------------------------------------------------
  // The search back through the chain

  // The sender's nonce grows along the chain, and the message is found in a
  // tipset only if the nonce passes the message's there.
  ghost predicate NoncesAgree(s: Store, lookup: TipSet -> Lookup, nonceAt: TipSet -> Option<nat>, nonce: nat,
                              from: TipSet)
    requires Has(s, from)
  {
    forall x | OnChain(s, x, from) && Has(s, x) && x.height > 0 ::
      var p := Parent(s, x);
      && (nonceAt(p).Some? ==> nonceAt(x).Some? && nonceAt(p).value <= nonceAt(x).value)
      && lookup(x) != LookupError
      && (lookup(x).Found? ==>
            nonceAt(x).Some? && nonceAt(x).value > nonce && (nonceAt(p).Some? ==> nonceAt(p).value <= nonce))
  }

  // A tipset above the search limit in which the message is found.
  ghost predicate Hit(s: Store, lookup: TipSet -> Lookup, from: TipSet, limit: Option<int>, x: TipSet)
    requires Has(s, from)
  {
    OnChain(s, x, from) && x.height > 0 && (limit.Some? ==> x.height > limit.value) && lookup(x).Found?
  }

  // The search goes on below this tipset.
  ghost predicate Passable(nonceAt: TipSet -> Option<nat>, nonce: nat, limit: Option<int>, x: TipSet) {
    && x.height > 0 && (limit.Some? ==> x.height > limit.value)
    && nonceAt(x).Some? && nonceAt(x).value > 0 && nonceAt(x).value >= nonce
  }

  // The search gets to this tipset, and the sender's nonce passes the message's there.
  ghost predicate Crosses(s: Store, nonceAt: TipSet -> Option<nat>, nonce: nat, from: TipSet, limit: Option<int>,
                          x: TipSet)
    requires Has(s, from)
  {
    && OnChain(s, x, from) && Has(s, x)
    && (forall y | OnChain(s, y, from) && y.height >= x.height :: Passable(nonceAt, nonce, limit, y))
    && Passable(nonceAt, nonce, limit, x)
    && var before := nonceAt(Parent(s, x));
    before.None? || (nonceAt(x).value > nonce && before.value <= nonce)
  }

  // The answer of the highest such tipset that has one, be it an error.
  ghost predicate HighestAnswer(s: Store, lookup: TipSet -> Lookup, nonceAt: TipSet -> Option<nat>, nonce: nat,
                                from: TipSet, limit: Option<int>, r: Lookup)
    requires Has(s, from)
  {
    if r.NotFound? then forall x | Crosses(s, nonceAt, nonce, from, limit, x) :: lookup(x).NotFound?
    else exists x :: AnswersFirst(s, lookup, nonceAt, nonce, from, limit, x) && lookup(x) == r
  }

  ghost predicate AnswersFirst(s: Store, lookup: TipSet -> Lookup, nonceAt: TipSet -> Option<nat>, nonce: nat,
                               from: TipSet, limit: Option<int>, x: TipSet)
    requires Has(s, from)
  {
    && Crosses(s, nonceAt, nonce, from, limit, x) && !lookup(x).NotFound?
    && forall y | Crosses(s, nonceAt, nonce, from, limit, y) && y.height > x.height :: lookup(y).NotFound?
  }

  method FindMessage(s: Store, lookup: TipSet -> Lookup, nonceAt: TipSet -> Option<nat>, nonce: nat,
                     from: TipSet, limit: Option<int>) returns (r: Lookup)
    requires Has(s, from) && Honest(lookup)
    ensures nonceAt(from).None? ==> r == LookupError
    ensures nonceAt(from).Some? ==> HighestAnswer(s, lookup, nonceAt, nonce, from, limit, r)
    ensures r.Found? ==> Hit(s, lookup, from, limit, r.msg.ts) && lookup(r.msg.ts) == r
    ensures nonceAt(from).Some? && NoncesAgree(s, lookup, nonceAt, nonce, from) ==>
              (r.Found? <==> exists x :: Hit(s, lookup, from, limit, x))
  {
    var cur, curActor := from, nonceAt(from);
    if curActor.None? { return LookupError; }
    forall x | OnChain(s, x, from) ensures x.height <= from.height { ChainBelow(s, x, from); }
    while true
      invariant Has(s, cur) && OnChain(s, cur, from) && curActor == nonceAt(cur)
      invariant NoncesAgree(s, lookup, nonceAt, nonce, from) ==>
                  forall x | Hit(s, lookup, from, limit, x) :: x.height <= cur.height
      invariant forall y | OnChain(s, y, from) && y.height > cur.height :: Passable(nonceAt, nonce, limit, y)
      invariant forall y | Crosses(s, nonceAt, nonce, from, limit, y) && y.height > cur.height :: lookup(y).NotFound?
      decreases cur.height
    {
      if cur.height == 0 || (limit.Some? && cur.height <= limit.value) { return NotFound; }
      if curActor.None? || curActor.value == 0 || curActor.value < nonce {
        NoLowerHit(s, lookup, nonceAt, nonce, from, limit, cur);
        return NotFound;
      }
      assert Linked(s, cur);
      var pts := GetTipSet(s, cur.parent).value;
      var act := nonceAt(pts);
      forall y | OnChain(s, y, from) && y.height >= cur.height ensures Passable(nonceAt, nonce, limit, y) {
        if y.height == cur.height { ChainOrdered(s, y, cur, from); ChainBelow(s, y, cur); }
      }
      if act.None? || (curActor.value > nonce && act.value <= nonce) {
        r := lookup(cur);
        assert r.Found? ==> Hit(s, lookup, from, limit, cur);
        if !r.NotFound? {
          assert AnswersFirst(s, lookup, nonceAt, nonce, from, limit, cur);
          return;
        }
      }
      assert Chain(s, cur)[1] == pts;
      ChainIncludes(s, pts, cur, from);
      forall x | OnChain(s, x, from) && x.height <= cur.height ensures x == cur || x.height <= pts.height {
        ChainOrdered(s, x, cur, from);
        if x != cur { ChainBelow(s, x, pts); }
      }
      cur, curActor := pts, act;
    }
  }

  // Below a tipset where the nonce is not past the message's there is no hit.
  lemma NoLowerHit(s: Store, lookup: TipSet -> Lookup, nonceAt: TipSet -> Option<nat>, nonce: nat,
                   from: TipSet, limit: Option<int>, cur: TipSet)
    requires Has(s, from) && Has(s, cur) && OnChain(s, cur, from)
    requires nonceAt(cur).None? || nonceAt(cur).value <= nonce
    ensures NoncesAgree(s, lookup, nonceAt, nonce, from) ==>
              forall x | Hit(s, lookup, from, limit, x) :: x.height > cur.height
  {
    if NoncesAgree(s, lookup, nonceAt, nonce, from) {
      forall x | Hit(s, lookup, from, limit, x) && x.height <= cur.height ensures false {
        ChainOrdered(s, x, cur, from);
        NonceBelow(s, lookup, nonceAt, nonce, from, cur, x);
      }
    }
  }

  lemma {:induction false} NonceBelow(s: Store, lookup: TipSet -> Lookup, nonceAt: TipSet -> Option<nat>, nonce: nat,
                                      from: TipSet, cur: TipSet, x: TipSet)
    requires Has(s, from) && Has(s, cur) && OnChain(s, cur, from) && NoncesAgree(s, lookup, nonceAt, nonce, from)
    requires nonceAt(cur).None? || nonceAt(cur).value <= nonce
    requires OnChain(s, x, cur)
    ensures Has(s, x) && (nonceAt(x).None? || nonceAt(x).value <= nonce)
    decreases cur.height
  {
    if x != cur {
      var p := Parent(s, cur);
      assert Chain(s, cur) == [cur] + Chain(s, p);
      assert OnChain(s, p, cur);
      ChainIncludes(s, p, cur, from);
      NonceBelow(s, lookup, nonceAt, nonce, from, p, x);
    }
  }

  // ---------------------------------------------------------------------
  // The loop over head changes

  // What the loop receives: reverted and applied tipsets, and the end of the
  // search.  A search may end between any two tipsets.
  datatype Input = Reverted(ts: TipSet) | Applied(ts: TipSet) | SearchDone

  datatype Waiting = Waiting(candidate: Option<ChainMessage>, heightOfHead: nat, reverts: set<Key>, searching: bool)

  datatype Verdict = Going(w: Waiting) | Done(msg: ChainMessage) | Failed

  // One input; `back` is what the search found.
  function Receive(lookup: TipSet -> Lookup, confidence: nat, back: Option<ChainMessage>, w: Waiting,
                   i: Input): Verdict
  {
    match i
    case Reverted(ts) =>
      var c := if w.candidate.Some? && w.candidate.value.ts == ts then None else w.candidate;
      Going(w.(candidate := c, reverts := if w.searching then w.reverts + {ts.key} else w.reverts))
    case Applied(ts) =>
      if w.candidate.Some? && ts.height >= w.candidate.value.ts.height + confidence then Done(w.candidate.value)
      else
        (match lookup(ts)
         case LookupError => Failed
         case NotFound => Going(w.(heightOfHead := ts.height))
         case Found(m) =>
           if confidence == 0 then Done(m) else Going(w.(candidate := Some(m), heightOfHead := ts.height)))
    case SearchDone =>
      if !w.searching then Going(w)
      else if back.Some? && back.value.ts.key !in w.reverts then
        if w.heightOfHead >= back.value.ts.height + confidence then Done(back.value)
        else Going(w.(candidate := back, reverts := {}, searching := false))
      else Going(w.(reverts := {}, searching := false))
  }

  // Head changes follow one chain, link by link; this is the head after k inputs.
  ghost predicate FollowsChain(s: Store, current: TipSet, inputs: seq<Input>, heads: seq<TipSet>) {
    && |heads| == |inputs| + 1 && heads[0] == current
    && (forall k | 0 <= k < |heads| :: Has(s, heads[k]))
    && forall k | 0 <= k < |inputs| ::
         match inputs[k]
         case Reverted(ts) => ts == heads[k] && ts.height > 0 && heads[k + 1] == Parent(s, ts)
         case Applied(ts) => ts == heads[k + 1] && ts.height > 0 && heads[k] == Parent(s, ts)
         case SearchDone => heads[k + 1] == heads[k]
  }

  // A candidate is on the chain, and so is everything below the first head
  // that has not been reverted while the search is on.
  ghost predicate Tracks(s: Store, lookup: TipSet -> Lookup, current: TipSet, head: TipSet, w: Waiting)
    requires Has(s, current) && Has(s, head)
  {
    && (w.candidate.Some? ==>
          OnChain(s, w.candidate.value.ts, head) && lookup(w.candidate.value.ts) == Found(w.candidate.value))
    && (w.searching ==> forall x | OnChain(s, x, current) && x.key !in w.reverts :: OnChain(s, x, head))
    && head.height <= w.heightOfHead
  }

  // What the search may have found.
  ghost predicate Plausible(s: Store, lookup: TipSet -> Lookup, current: TipSet, back: Option<ChainMessage>)
    requires Has(s, current)
  {
    back.Some? ==> OnChain(s, back.value.ts, current) && lookup(back.value.ts) == Found(back.value)
  }

  lemma ReceiveTracks(s: Store, lookup: TipSet -> Lookup, confidence: nat, back: Option<ChainMessage>,
                      current: TipSet, head: TipSet, head': TipSet, w: Waiting, i: Input)
    requires Has(s, current) && Has(s, head) && Has(s, head') && Honest(lookup)
    requires Tracks(s, lookup, current, head, w) && Plausible(s, lookup, current, back)
    requires FollowsChain(s, head, [i], [head, head'])
    ensures match Receive(lookup, confidence, back, w, i)
            case Going(w') => Tracks(s, lookup, current, head', w')
            case Done(m) =>
              && OnChain(s, m.ts, head') && lookup(m.ts) == Found(m)
              && (i.Applied? ==> m.ts.height + confidence <= head'.height)
              && (i.SearchDone? ==> m.ts.height + confidence <= w.heightOfHead)
            case Failed => true
  {
    assert i == [i][0] && head == [head, head'][0] && head' == [head, head'][0 + 1];
    match i
    case Reverted(ts) =>
      assert Chain(s, ts) == [ts] + Chain(s, head');
      assert w.searching ==> forall x | OnChain(s, x, current) && x.key !in w.reverts + {ts.key} ::
        x != ts && OnChain(s, x, head);
    case Applied(ts) =>
      assert Chain(s, ts) == [ts] + Chain(s, head);
    case SearchDone =>
  }

  // The state after k inputs that have not ended the wait.
  ghost predicate IsRun(lookup: TipSet -> Lookup, confidence: nat, back: Option<ChainMessage>,
                        inputs: seq<Input>, states: seq<Waiting>) {
    && |states| > 0 && |states| <= |inputs| + 1
    && forall k | 0 <= k < |states| - 1 ::
         Receive(lookup, confidence, back, states[k], inputs[k]) == Going(states[k + 1])
  }

  function Start(current: TipSet): Waiting {
    Waiting(None, current.height, {}, true)
  }

  lemma {:induction false} RunTracks(s: Store, lookup: TipSet -> Lookup, confidence: nat, back: Option<ChainMessage>,
                                     current: TipSet, inputs: seq<Input>, heads: seq<TipSet>, states: seq<Waiting>,
                                     k: nat)
    requires Honest(lookup) && FollowsChain(s, current, inputs, heads) && Plausible(s, lookup, current, back)
    requires IsRun(lookup, confidence, back, inputs, states) && states[0] == Start(current) && k < |states|
    ensures Tracks(s, lookup, current, heads[k], states[k])
  {
    if k > 0 {
      RunTracks(s, lookup, confidence, back, current, inputs, heads, states, k - 1);
      assert Receive(lookup, confidence, back, states[k - 1], inputs[k - 1]) == Going(states[k - 1 + 1]);
      OneLink(s, current, inputs, heads, k - 1);
      ReceiveTracks(s, lookup, confidence, back, current, heads[k - 1], heads[k], states[k - 1], inputs[k - 1]);
    }
  }

  lemma OneLink(s: Store, current: TipSet, inputs: seq<Input>, heads: seq<TipSet>, k: nat)
    requires FollowsChain(s, current, inputs, heads) && k < |inputs|
    ensures FollowsChain(s, heads[k], [inputs[k]], [heads[k], heads[k + 1]])
  {
  }

  // The last head change among the first k inputs was a revert.
  ghost predicate AfterRevert(inputs: seq<Input>, k: nat)
    requires k <= |inputs|
  {
    k > 0 && (inputs[k - 1].Reverted? || (inputs[k - 1].SearchDone? && AfterRevert(inputs, k - 1)))
  }

  /** The height the loop remembers is the head's exactly when the last head change
  was not a revert. */
  lemma {:induction false} RememberedHeight(s: Store, lookup: TipSet -> Lookup, confidence: nat,
                                            back: Option<ChainMessage>, current: TipSet, inputs: seq<Input>,
                                            heads: seq<TipSet>, states: seq<Waiting>, k: nat)
    requires FollowsChain(s, current, inputs, heads)
    requires IsRun(lookup, confidence, back, inputs, states) && states[0] == Start(current) && k < |states|
    ensures states[k].heightOfHead >= heads[k].height
    ensures states[k].heightOfHead == heads[k].height <==> !AfterRevert(inputs, k)
  {
    if k > 0 {
      RememberedHeight(s, lookup, confidence, back, current, inputs, heads, states, k - 1);
      assert Receive(lookup, confidence, back, states[k - 1], inputs[k - 1]) == Going(states[k - 1 + 1]);
      OneLink(s, current, inputs, heads, k - 1);
    }
  }

  // While the search is on, the loop knows every tipset that was reverted.
  lemma {:induction false} RevertsKnown(lookup: TipSet -> Lookup, confidence: nat, back: Option<ChainMessage>,
                                        current: TipSet, inputs: seq<Input>, states: seq<Waiting>, k: nat)
    requires IsRun(lookup, confidence, back, inputs, states) && states[0] == Start(current) && k < |states|
    requires forall i | 0 <= i < k :: !inputs[i].SearchDone?
    ensures states[k].searching
    ensures forall key :: key in states[k].reverts <==>
                          exists i :: 0 <= i < k && inputs[i].Reverted? && inputs[i].ts.key == key
  {
    if k > 0 {
      RevertsKnown(lookup, confidence, back, current, inputs, states, k - 1);
      assert Receive(lookup, confidence, back, states[k - 1], inputs[k - 1]) == Going(states[k - 1 + 1]);
    }
  }

  /** Whatever the stream of head changes and whenever the search ends, a
  message that the loop returns is in a tipset of the chain at that moment.  One
  returned on an apply is at least `confidence` below the applied tipset, and one
  returned when the search ends at least that below the head, unless the last head
  change was a revert. */
  lemma ReturnedIsOnChain(s: Store, lookup: TipSet -> Lookup, confidence: nat, back: Option<ChainMessage>,
                          current: TipSet, inputs: seq<Input>, heads: seq<TipSet>, states: seq<Waiting>,
                          msg: ChainMessage)
    requires Honest(lookup) && FollowsChain(s, current, inputs, heads) && Plausible(s, lookup, current, back)
    requires IsRun(lookup, confidence, back, inputs, states) && states[0] == Start(current) && |states| <= |inputs|
    requires Receive(lookup, confidence, back, states[|states| - 1], inputs[|states| - 1]) == Done(msg)
    ensures var k := |states|;
            && OnChain(s, msg.ts, heads[k]) && lookup(msg.ts) == Found(msg)
            && (inputs[k - 1].Applied? ==> msg.ts.height + confidence <= heads[k].height)
            && (inputs[k - 1].SearchDone? && !AfterRevert(inputs, k - 1) ==>
                  msg.ts.height + confidence <= heads[k].height)
  {
    var k := |states|;
    RememberedHeight(s, lookup, confidence, back, current, inputs, heads, states, k - 1);
    RunTracks(s, lookup, confidence, back, current, inputs, heads, states, k - 1);
    OneLink(s, current, inputs, heads, k - 1);
    ReceiveTracks(s, lookup, confidence, back, current, heads[k - 1], heads[k], states[k - 1], inputs[k - 1]);
  }

  /** After any stream of head changes that has not reverted what the search found, the
  loop returns it only if it is deep enough at the head, whatever the confidence,
  exactly when the last head change was not a revert. */
  lemma SearchReturnIsDeep(s: Store, lookup: TipSet -> Lookup, confidence: nat, back: ChainMessage, current: TipSet,
                           inputs: seq<Input>, heads: seq<TipSet>, states: seq<Waiting>)
    requires Honest(lookup) && FollowsChain(s, current, inputs, heads) && Plausible(s, lookup, current, Some(back))
    requires IsRun(lookup, confidence, Some(back), inputs, states) && states[0] == Start(current)
    requires |states| == |inputs| + 1
    requires forall i | 0 <= i < |inputs| ::
               !inputs[i].SearchDone? && (inputs[i].Reverted? ==> inputs[i].ts.key != back.ts.key)
    ensures (forall wanted: nat ::
               Receive(lookup, wanted, Some(back), states[|inputs|], SearchDone) == Done(back) ==>
                 back.ts.height + wanted <= heads[|inputs|].height)
            <==> !AfterRevert(inputs, |inputs|)
  {
    var k := |inputs|;
    RunTracks(s, lookup, confidence, Some(back), current, inputs, heads, states, k);
    RememberedHeight(s, lookup, confidence, Some(back), current, inputs, heads, states, k);
    RevertsKnown(lookup, confidence, Some(back), current, inputs, states, k);
    ChainBelow(s, back.ts, heads[k]);
    var wanted: nat := states[k].heightOfHead - back.ts.height;
    assert Receive(lookup, wanted, Some(back), states[k], SearchDone) == Done(back);
  }

  /** A run in which it is returned too early: the loop remembers the height of the
  last applied tipset and does not lower it on a revert. */
  lemma SearchReturnMayBeShallow()
    ensures exists s: Store, lookup: TipSet -> Lookup, confidence: nat, back: Option<ChainMessage>, current: TipSet,
                   inputs: seq<Input>, heads: seq<TipSet>, states: seq<Waiting>, msg: ChainMessage ::
              && Honest(lookup) && FollowsChain(s, current, inputs, heads) && Plausible(s, lookup, current, back)
              && IsRun(lookup, confidence, back, inputs, states) && states[0] == Start(current)
              && |states| == |inputs| > 0
              && Receive(lookup, confidence, back, states[|states| - 1], inputs[|states| - 1]) == Done(msg)
              && heads[|states|].height < msg.ts.height + confidence
  {
    var g, a, b := TipSet(0, 0, 9), TipSet(1, 1, 0), TipSet(2, 2, 1);
    var s: map<Key, TipSet> := map[0 := g, 1 := a, 2 := b];
    assert forall t: TipSet :: Has(s, t) ==> t == g || t == a || t == b;
    var m := ChainMessage(a, 0);
    var lookup := (t: TipSet) => if t == a then Found(m) else NotFound;
    var inputs := [Reverted(b), SearchDone];
    var heads := [b, a, a];
    var states := [Start(b), Waiting(None, 2, {2}, true)];
    assert Chain(s, b) == [b] + Chain(s, a);
    assert Receive(lookup, 1, Some(m), states[0], inputs[0]) == Going(states[0 + 1]);
    assert FollowsChain(s, b, inputs, heads) && Plausible(s, lookup, b, Some(m));
    assert IsRun(lookup, 1, Some(m), inputs, states);
  }

  // ---------------------------------------------------------------------
  // What has been found is returned

  // The run has gone through all inputs or ended at one of them.
  ghost predicate IsWholeRun(lookup: TipSet -> Lookup, confidence: nat, back: Option<ChainMessage>,
                             inputs: seq<Input>, states: seq<Waiting>)
  {
    && IsRun(lookup, confidence, back, inputs, states)
    && (|states| <= |inputs| ==> !Receive(lookup, confidence, back, states[|states| - 1], inputs[|states| - 1]).Going?)
  }

  ghost predicate ReturnsBy(lookup: TipSet -> Lookup, confidence: nat, back: Option<ChainMessage>,
                            inputs: seq<Input>, states: seq<Waiting>, j: nat)
  {
    && 0 < |states| <= j + 1 && |states| <= |inputs|
    && Receive(lookup, confidence, back, states[|states| - 1], inputs[|states| - 1]).Done?
  }

  // Between these inputs x is not reverted and no tipset has an answer.
  ghost predicate NothingNew(lookup: TipSet -> Lookup, inputs: seq<Input>, x: TipSet, from: nat, upto: nat) {
    forall k | from <= k < upto && k < |inputs| ::
      (inputs[k].Reverted? ==> inputs[k].ts != x) && (inputs[k].Applied? ==> lookup(inputs[k].ts).NotFound?)
  }

  ghost predicate NoErrors(lookup: TipSet -> Lookup, inputs: seq<Input>, upto: nat) {
    forall k | 0 <= k < upto && k < |inputs| && inputs[k].Applied? :: !lookup(inputs[k].ts).LookupError?
  }

  // The loop has a candidate no higher than x, which is on the chain, and the search
  // can only bring a lower one.
  ghost predicate Holds(s: Store, back: Option<ChainMessage>, x: TipSet, head: TipSet, w: Waiting)
    requires Has(s, head)
  {
    && w.candidate.Some? && w.candidate.value.ts.height <= x.height && OnChain(s, x, head)
    && (w.searching && back.Some? && back.value.ts.key !in w.reverts ==> back.value.ts.height <= x.height)
  }

  lemma HoldsOn(s: Store, lookup: TipSet -> Lookup, confidence: nat, back: Option<ChainMessage>, current: TipSet,
                x: TipSet, head: TipSet, head': TipSet, w: Waiting, i: Input)
    requires Has(s, current) && Has(s, head) && Has(s, head') && FollowsChain(s, head, [i], [head, head'])
    requires Tracks(s, lookup, current, head, w) && Holds(s, back, x, head, w)
    requires (i.Reverted? ==> i.ts != x) && (i.Applied? ==> lookup(i.ts).NotFound?)
    ensures match Receive(lookup, confidence, back, w, i)
            case Going(w') => Holds(s, back, x, head', w')
            case Done(_) => true
            case Failed => false
  {
    assert i == [i][0] && head == [head, head'][0] && head' == [head, head'][0 + 1];
    ChainBelow(s, x, head);
    match i
    case Reverted(ts) => assert Chain(s, ts) == [ts] + Chain(s, head');
    case Applied(ts) => assert Chain(s, ts) == [ts] + Chain(s, head);
    case SearchDone =>
  }

  lemma {:induction false} StillHolds(s: Store, lookup: TipSet -> Lookup, confidence: nat, back: Option<ChainMessage>,
                                      current: TipSet, inputs: seq<Input>, heads: seq<TipSet>, states: seq<Waiting>,
                                      x: TipSet, a: nat, k: nat)
    requires Honest(lookup) && FollowsChain(s, current, inputs, heads) && Plausible(s, lookup, current, back)
    requires IsRun(lookup, confidence, back, inputs, states) && states[0] == Start(current) && a <= k < |states|
    requires Holds(s, back, x, heads[a], states[a]) && NothingNew(lookup, inputs, x, a, k)
    ensures Holds(s, back, x, heads[k], states[k])
  {
    if k > a {
      StillHolds(s, lookup, confidence, back, current, inputs, heads, states, x, a, k - 1);
      RunTracks(s, lookup, confidence, back, current, inputs, heads, states, k - 1);
      OneLink(s, current, inputs, heads, k - 1);
      assert Receive(lookup, confidence, back, states[k - 1], inputs[k - 1]) == Going(states[k - 1 + 1]);
      HoldsOn(s, lookup, confidence, back, current, x, heads[k - 1], heads[k], states[k - 1], inputs[k - 1]);
    }
  }

  // A loop that holds a candidate returns once a tipset is applied that is deep enough above x.
  lemma HeldIsReturned(s: Store, lookup: TipSet -> Lookup, confidence: nat, back: Option<ChainMessage>,
                       current: TipSet, inputs: seq<Input>, heads: seq<TipSet>, states: seq<Waiting>,
                       x: TipSet, a: nat, j: nat)
    requires Honest(lookup) && FollowsChain(s, current, inputs, heads) && Plausible(s, lookup, current, back)
    requires IsWholeRun(lookup, confidence, back, inputs, states) && states[0] == Start(current)
    requires a < |states| && a <= j < |inputs| && Holds(s, back, x, heads[a], states[a])
    requires NothingNew(lookup, inputs, x, a, j) && inputs[j].Applied? && inputs[j].ts.height >= x.height + confidence
    ensures ReturnsBy(lookup, confidence, back, inputs, states, j)
  {
    var k := if |states| - 1 < j then |states| - 1 else j;
    assert j < |states| - 1 ==> Receive(lookup, confidence, back, states[j], inputs[j]) == Going(states[j + 1]);
    StillHolds(s, lookup, confidence, back, current, inputs, heads, states, x, a, k);
    if k < j {
      RunTracks(s, lookup, confidence, back, current, inputs, heads, states, k);
      OneLink(s, current, inputs, heads, k);
      HoldsOn(s, lookup, confidence, back, current, x, heads[k], heads[k + 1], states[k], inputs[k]);
    }
  }

  // Without lookup errors a run that has ended has returned something.
  lemma EndedReturns(lookup: TipSet -> Lookup, confidence: nat, back: Option<ChainMessage>, inputs: seq<Input>,
                     states: seq<Waiting>, j: nat)
    requires IsWholeRun(lookup, confidence, back, inputs, states) && |states| <= j + 1 && j < |inputs|
    requires NoErrors(lookup, inputs, j + 1)
    ensures ReturnsBy(lookup, confidence, back, inputs, states, j)
  {
  }

  /** A message that an applied tipset brings is returned.  If the tipset is not
  reverted, no later one has an answer and one is applied that is at least
  `confidence` above it, or it is itself if the confidence is 0, the wait has ended
  with a message by then. */
  lemma FoundIsReturned(s: Store, lookup: TipSet -> Lookup, confidence: nat, back: Option<ChainMessage>,
                        current: TipSet, inputs: seq<Input>, heads: seq<TipSet>, states: seq<Waiting>, i: nat, j: nat)
    requires Honest(lookup) && FollowsChain(s, current, inputs, heads) && Plausible(s, lookup, current, back)
    requires IsWholeRun(lookup, confidence, back, inputs, states) && states[0] == Start(current)
    requires i <= j < |inputs| && inputs[i].Applied? && lookup(inputs[i].ts).Found? && inputs[j].Applied?
    requires inputs[j].ts.height >= inputs[i].ts.height + confidence
    requires NothingNew(lookup, inputs, inputs[i].ts, i + 1, j) && NoErrors(lookup, inputs, i)
    ensures ReturnsBy(lookup, confidence, back, inputs, states, j)
  {
    if |states| > i + 1 {
      FoundIsHeld(s, lookup, confidence, back, current, inputs, heads, states, i);
      assert confidence > 0 by {
        assert Receive(lookup, confidence, back, states[i], inputs[i]) == Going(states[i + 1]);
      }
      HeldIsReturned(s, lookup, confidence, back, current, inputs, heads, states, inputs[i].ts, i + 1, j);
    } else {
      assert NoErrors(lookup, inputs, i + 1);
      EndedReturns(lookup, confidence, back, inputs, states, i);
    }
  }

  lemma FoundIsHeld(s: Store, lookup: TipSet -> Lookup, confidence: nat, back: Option<ChainMessage>, current: TipSet,
                    inputs: seq<Input>, heads: seq<TipSet>, states: seq<Waiting>, i: nat)
    requires Honest(lookup) && FollowsChain(s, current, inputs, heads) && Plausible(s, lookup, current, back)
    requires IsRun(lookup, confidence, back, inputs, states) && states[0] == Start(current)
    requires i < |inputs| && i + 1 < |states| && inputs[i].Applied? && lookup(inputs[i].ts).Found?
    ensures Holds(s, back, inputs[i].ts, heads[i + 1], states[i + 1])
  {
    RunTracks(s, lookup, confidence, back, current, inputs, heads, states, i);
    OneLink(s, current, inputs, heads, i);
    assert Receive(lookup, confidence, back, states[i], inputs[i]) == Going(states[i + 1]);
    var x := inputs[i].ts;
    assert x == heads[i + 1] && Chain(s, x) == [x] + Chain(s, heads[i]);
    if states[i].searching && back.Some? && back.value.ts.key !in states[i].reverts {
      ChainBelow(s, back.value.ts, heads[i]);
    }
  }

  /** So is what the search found, if it was not reverted before the search ended nor
  after. */
  lemma SearchedIsReturned(s: Store, lookup: TipSet -> Lookup, confidence: nat, back: ChainMessage, current: TipSet,
                           inputs: seq<Input>, heads: seq<TipSet>, states: seq<Waiting>, i: nat, j: nat)
    requires Honest(lookup) && FollowsChain(s, current, inputs, heads) && Plausible(s, lookup, current, Some(back))
    requires IsWholeRun(lookup, confidence, Some(back), inputs, states) && states[0] == Start(current)
    requires i < j < |inputs| && inputs[i].SearchDone? && inputs[j].Applied?
    requires inputs[j].ts.height >= back.ts.height + confidence
    requires forall k | 0 <= k < i ::
               !inputs[k].SearchDone? && (inputs[k].Reverted? ==> inputs[k].ts.key != back.ts.key)
    requires NothingNew(lookup, inputs, back.ts, i + 1, j) && NoErrors(lookup, inputs, i)
    ensures ReturnsBy(lookup, confidence, Some(back), inputs, states, j)
  {
    if |states| > i + 1 {
      RunTracks(s, lookup, confidence, Some(back), current, inputs, heads, states, i);
      RevertsKnown(lookup, confidence, Some(back), current, inputs, states, i);
      assert Receive(lookup, confidence, Some(back), states[i], inputs[i]) == Going(states[i + 1]);
      OneLink(s, current, inputs, heads, i);
      HeldIsReturned(s, lookup, confidence, Some(back), current, inputs, heads, states, back.ts, i + 1, j);
    } else {
      assert NoErrors(lookup, inputs, i + 1);
      EndedReturns(lookup, confidence, Some(back), inputs, states, i);
    }
  }

  method WaitForMessage(lookup: TipSet -> Lookup, current: TipSet, confidence: nat, back: Option<ChainMessage>,
                        inputs: seq<Input>)
      returns (r: Lookup, ghost states: seq<Waiting>)
    ensures lookup(current).Found? ==> r == lookup(current) && states == []
    ensures lookup(current).LookupError? ==> r.LookupError?
    ensures lookup(current).NotFound? ==>
              && IsRun(lookup, confidence, back, inputs, states) && states[0] == Start(current)
              && (r.Found? ==>
                    && |states| <= |inputs|
                    && Receive(lookup, confidence, back, states[|states| - 1], inputs[|states| - 1]) == Done(r.msg))
              && (r.LookupError? ==>
                    && |states| <= |inputs|
                    && Receive(lookup, confidence, back, states[|states| - 1], inputs[|states| - 1]) == Failed)
              && (r.NotFound? ==> |states| == |inputs| + 1)
  {
    states := [];
    r := lookup(current);
    if !r.NotFound? { return; }
    var candidate: Option<ChainMessage> := None;
    var heightOfHead := current.height;
    var reverts: set<Key> := {};
    var searching := true;
    states := [Start(current)];
    for k := 0 to |inputs|
      invariant |states| == k + 1 && IsRun(lookup, confidence, back, inputs, states) && states[0] == Start(current)
      invariant states[k] == Waiting(candidate, heightOfHead, reverts, searching)
    {
      match inputs[k] {
        case Reverted(ts) =>
          if candidate.Some? && candidate.value.ts == ts { candidate := None; }
          if searching { reverts := reverts + {ts.key}; }
        case Applied(ts) =>
          if candidate.Some? && ts.height >= candidate.value.ts.height + confidence {
            return Found(candidate.value), states;
          }
          var found := lookup(ts);
          if found.LookupError? { return LookupError, states; }
          if found.Found? {
            if confidence == 0 { return found, states; }
            candidate := Some(found.msg);
          }
          heightOfHead := ts.height;
        case SearchDone =>
          if searching {
            if back.Some? && back.value.ts.key !in reverts {
              if heightOfHead >= back.value.ts.height + confidence { return Found(back.value), states; }
              candidate := back;
            }
            reverts := {};
            searching := false;
          }
      }
      states := states + [Waiting(candidate, heightOfHead, reverts, searching)];
    }
    r := NotFound;
  }
}
