/** The head-change coalescer: incoming changes are merged into one pending
change by cancelling reverts against applies, and the pending change is
dispatched when a timer says so.
*/
module Coalescer {
  import opened Wrappers
  import opened Tipsets
  import opened Sequences
  import opened Reorg
  import opened HeadChanges

  // ---------------------------------------------------------------------
  // What merging computes, on keys

  ghost function Keys(xs: seq<TipSet>): set<Key> {
    set x | x in xs :: x.key
  }

  ghost function WithoutKeys(xs: seq<TipSet>, ks: set<Key>): seq<TipSet> {
    if xs == [] then []
    else (if xs[0].key in ks then [] else [xs[0]]) + WithoutKeys(xs[1..], ks)
  }

  ghost function Merged(pending: Change, incoming: Change): Change {
    Change(WithoutKeys(pending.revert, Keys(incoming.apply)) + WithoutKeys(incoming.revert, Keys(pending.apply)),
           WithoutKeys(pending.apply, Keys(incoming.revert)) + WithoutKeys(incoming.apply, Keys(pending.revert)))
  }

  lemma {:induction false} WithoutKeysExtend(xs: seq<TipSet>, x: TipSet, ks: set<Key>)
    ensures WithoutKeys(xs + [x], ks) == WithoutKeys(xs, ks) + if x.key in ks then [] else [x]
  {
    if xs == [] {
      assert xs + [x] == [x];
    } else {
      TailOfConcat(xs, [x]);
      WithoutKeysExtend(xs[1..], x, ks);
      ConcatAssociates(if xs[0].key in ks then [] else [xs[0]], WithoutKeys(xs[1..], ks),
                       if x.key in ks then [] else [x]);
    }
  }

  // ---------------------------------------------------------------------
  // Merging is exact composition

  // Among stored tipsets cancelling by key is cancelling by identity.
  lemma {:induction false} KeysIdentify(s: Store, xs: seq<TipSet>, ys: seq<TipSet>)
    requires Stored(s, xs) && Stored(s, ys)
    ensures WithoutKeys(xs, Keys(ys)) == Without(xs, set y | y in ys)
  {
    if xs != [] {
      KeysIdentify(s, xs[1..], ys);
      if xs[0].key in Keys(ys) {
        var y :| y in ys && y.key == xs[0].key;
        assert Has(s, y) && Has(s, xs[0]);
      }
    }
  }

  lemma CancelCompose<T(!new)>(a: seq<T>, b: seq<T>, shared: seq<T>, l: set<T>, m: set<T>, n: set<T>)
    requires forall x | x in a :: x !in m
    requires forall x | x in b :: x in m && x !in l
    requires forall x | x in shared :: x in l
    ensures Without(a, n - m) + Without(Without(b + shared, n), m - l) == Without(a + shared, n)
  {
    var bn, sn := Without(b, n), Without(shared, n);
    assert Without(b + shared, n) == bn + sn by { WithoutConcat(b, shared, n); }
    assert Without(bn + sn, m - l) == sn by { CancelFirst(bn, sn, m - l); }
    assert Without(a, n - m) == Without(a, n) by { WithoutSame(a, n, n - m); }
    WithoutConcat(a, shared, n);
  }

  lemma CancelFirst<T(!new)>(xs: seq<T>, ys: seq<T>, gone: set<T>)
    requires forall x | x in xs :: x in gone
    requires forall y | y in ys :: y !in gone
    ensures Without(xs + ys, gone) == ys
  {
    WithoutConcat(xs, ys, gone);
    WithoutAll(xs, gone);
    WithoutNone(ys, gone);
  }

  // Cancelling the drops of two consecutive switches gives the drops of the
  // direct switch, in order.
  lemma DropsCompose(s: Store, l: TipSet, m: TipSet, n: TipSet)
    requires Has(s, l) && Has(s, m) && Has(s, n) && SameRoot(s, l, m)
    ensures Without(Dropped(s, l, m), Members(s, n) - Members(s, m))
            + Without(Dropped(s, m, n), Members(s, m) - Members(s, l))
            == Dropped(s, l, n)
  {
    var c := ForkPoint(s, l, m);
    forall x | x in Chain(s, c) ensures x in Members(s, l) { ChainIncludes(s, x, c, l); }
    CancelCompose(Dropped(s, l, m), Dropped(s, m, l), Chain(s, c), Members(s, l), Members(s, m), Members(s, n));
  }

  lemma {:induction false} ReverseWithout<T(!new)>(xs: seq<T>, gone: set<T>)
    ensures Reverse(Without(xs, gone)) == Without(Reverse(xs), gone)
  {
    if xs != [] {
      assert xs == [xs[0]] + xs[1..];
      WithoutConcat([xs[0]], xs[1..], gone);
      ReverseConcat(Without([xs[0]], gone), Without(xs[1..], gone));
      ReverseWithout(xs[1..], gone);
      WithoutConcat(Reverse(xs[1..]), [xs[0]], gone);
    }
  }

  // Cancelling by key what one change applies from what another reverts.
  lemma RevertsCancel(s: Store, l: TipSet, m: TipSet, n: TipSet)
    requires Has(s, l) && Has(s, m) && Has(s, n)
    ensures WithoutKeys(Diff(s, l, m).revert, Keys(Diff(s, m, n).apply))
            == Without(Dropped(s, l, m), Members(s, n) - Members(s, m))
    ensures WithoutKeys(Diff(s, m, n).revert, Keys(Diff(s, l, m).apply))
            == Without(Dropped(s, m, n), Members(s, m) - Members(s, l))
  {
    var p, q := Diff(s, l, m), Diff(s, m, n);
    DiffStored(s, l, m);
    DiffStored(s, m, n);
    assert (set x | x in p.apply) == Members(s, m) - Members(s, l);
    assert (set x | x in q.apply) == Members(s, n) - Members(s, m);
    KeysIdentify(s, p.revert, q.apply);
    KeysIdentify(s, q.revert, p.apply);
  }

  lemma AppliesCancel(s: Store, l: TipSet, m: TipSet, n: TipSet)
    requires Has(s, l) && Has(s, m) && Has(s, n)
    ensures WithoutKeys(Diff(s, l, m).apply, Keys(Diff(s, m, n).revert))
            == Reverse(Without(Dropped(s, m, l), Members(s, m) - Members(s, n)))
    ensures WithoutKeys(Diff(s, m, n).apply, Keys(Diff(s, l, m).revert))
            == Reverse(Without(Dropped(s, n, m), Members(s, l) - Members(s, m)))
  {
    var p, q := Diff(s, l, m), Diff(s, m, n);
    DiffStored(s, l, m);
    DiffStored(s, m, n);
    assert (set x | x in p.revert) == Members(s, l) - Members(s, m);
    assert (set x | x in q.revert) == Members(s, m) - Members(s, n);
    KeysIdentify(s, p.apply, q.revert);
    KeysIdentify(s, q.apply, p.revert);
    ReverseWithout(Dropped(s, m, l), Members(s, m) - Members(s, n));
    ReverseWithout(Dropped(s, n, m), Members(s, l) - Members(s, m));
  }

  lemma MergeIsComposition(s: Store, l: TipSet, m: TipSet, n: TipSet)
    requires Has(s, l) && Has(s, m) && Has(s, n) && SameRoot(s, l, m) && SameRoot(s, m, n)
    ensures Merged(Diff(s, l, m), Diff(s, m, n)) == Diff(s, l, n)
  {
    RevertsCancel(s, l, m, n);
    DropsCompose(s, l, m, n);
    AppliesCancel(s, l, m, n);
    ReverseConcat(Without(Dropped(s, n, m), Members(s, l) - Members(s, m)),
                  Without(Dropped(s, m, l), Members(s, m) - Members(s, n)));
    DropsCompose(s, n, m, l);
  }

  lemma DiffStored(s: Store, a: TipSet, b: TipSet)
    requires Has(s, a) && Has(s, b)
    ensures Stored(s, Diff(s, a, b).revert) && Stored(s, Diff(s, a, b).apply)
    ensures forall x :: x in Diff(s, a, b).apply <==> OnChain(s, x, b) && !OnChain(s, x, a)
  {
    ReverseMembers(Dropped(s, b, a));
  }

  lemma NoChange(s: Store, a: TipSet)
    requires Has(s, a)
    ensures Diff(s, a, a) == Change([], [])
  {
    WithoutAll(Chain(s, a), Members(s, a));
  }

  // ---------------------------------------------------------------------
  // The coalescer

  method KeySet(xs: seq<TipSet>) returns (ks: set<Key>)
    ensures ks == Keys(xs)
  {
    ks := {};
    for i := 0 to |xs|
      invariant ks == Keys(xs[..i])
    {
      assert xs[..i + 1] == xs[..i] + [xs[i]];
      ks := ks + {xs[i].key};
    }
    assert xs[..|xs|] == xs;
  }

  method Uncancelled(xs: seq<TipSet>, cancel: set<Key>) returns (r: seq<TipSet>)
    ensures r == WithoutKeys(xs, cancel)
  {
    r := [];
    for i := 0 to |xs|
      invariant r == WithoutKeys(xs[..i], cancel)
    {
      assert xs[..i + 1] == xs[..i] + [xs[i]];
      WithoutKeysExtend(xs[..i], xs[i], cancel);
      if xs[i].key !in cancel { r := r + [xs[i]]; }
    }
    assert xs[..|xs|] == xs;
  }

  // ---------------------------------------------------------------------
  // The times of the background loop

  datatype Delays = Delays(minDelay: nat, maxDelay: nat, mergeInterval: nat)

  // When the first and the last pending change came in, and when the timer is due.
  datatype Clock = Clock(first: Option<int>, last: int, timer: Option<int>)

  // What the loop wakes up for: a head change, or the timer.
  datatype Wake = Arrival(now: int) | Timer(now: int)

  // Whether the timer, going off now, is set again for more changes.
  predicate WaitsOn(d: Delays, c: Clock, now: int) {
    c.first.Some? && now - c.last < d.mergeInterval && now - c.first.value < d.maxDelay
  }

  function Woken(d: Delays, c: Clock, w: Wake): Clock {
    match w
    case Arrival(now) =>
      Clock(if c.first.None? then Some(now) else c.first, now,
            if c.timer.None? then Some(now + d.minDelay) else c.timer)
    case Timer(now) =>
      if WaitsOn(d, c, now) then
        var maxWait := d.maxDelay - (now - c.first.value);
        c.(timer := Some(now + if maxWait < d.minDelay then maxWait else d.minDelay))
      else Clock(None, 0, None)
  }

  // The clock after any number of wakes; the timer goes off when it is due or later.
  ghost predicate IsClockRun(d: Delays, clocks: seq<Clock>, wakes: seq<Wake>) {
    && |clocks| == |wakes| + 1 && clocks[0] == Clock(None, 0, None)
    && forall k | 0 <= k < |wakes| :: IsWake(d, clocks, wakes, k)
  }

  ghost predicate IsWake(d: Delays, clocks: seq<Clock>, wakes: seq<Wake>, k: nat)
    requires k < |wakes| == |clocks| - 1
  {
    && (wakes[k].Timer? ==> clocks[k].timer.Some? && clocks[k].timer.value <= wakes[k].now)
    && clocks[k + 1] == Woken(d, clocks[k], wakes[k])
  }

  // The timer is set while something is pending, due after the minimal delay and
  // within the larger one.
  ghost predicate ClockOk(d: Delays, c: Clock) {
    && (c.first.Some? <==> c.timer.Some?)
    && (c.timer.Some? ==> c.timer.value >= c.first.value + d.minDelay)
    && (c.timer.Some? ==> c.timer.value <= c.first.value + if d.minDelay <= d.maxDelay then d.maxDelay else d.minDelay)
  }

  lemma {:induction false} ClockRunOk(d: Delays, clocks: seq<Clock>, wakes: seq<Wake>, k: nat)
    requires IsClockRun(d, clocks, wakes) && k < |clocks|
    ensures ClockOk(d, clocks[k])
  {
    if k > 0 {
      ClockRunOk(d, clocks, wakes, k - 1);
      assert IsWake(d, clocks, wakes, k - 1);
    }
  }

  // At k the changes that came with wakes i to j are pending, i being the first of
  // them and j the last.
  ghost predicate PendingSince(clocks: seq<Clock>, wakes: seq<Wake>, k: nat, i: nat, j: nat)
    requires |clocks| == |wakes| + 1 && i <= j < k < |clocks|
  {
    && wakes[i].Arrival? && wakes[j].Arrival? && clocks[i].first.None?
    && (forall n | i < n <= k :: clocks[n].first.Some?) && forall n | j < n < k :: wakes[n].Timer?
  }

  lemma {:induction false} PendingTimes(d: Delays, clocks: seq<Clock>, wakes: seq<Wake>, k: nat)
      returns (i: nat, j: nat)
    requires IsClockRun(d, clocks, wakes) && k < |clocks| && clocks[k].first.Some?
    ensures i <= j < k && PendingSince(clocks, wakes, k, i, j)
    ensures clocks[k].first == Some(wakes[i].now) && clocks[k].last == wakes[j].now
  {
    assert IsWake(d, clocks, wakes, k - 1);
    if clocks[k - 1].first.Some? {
      i, j := PendingTimes(d, clocks, wakes, k - 1);
      if wakes[k - 1].Arrival? { j := k - 1; }
    } else {
      i, j := k - 1, k - 1;
    }
  }

  /** When the timer goes off, in any run, the loop waits for more changes exactly if the
  last pending one came less than the merge interval ago and the first one less than
  the maximal delay; it then waits for the minimal delay, but not past the maximal
  one.  Otherwise everything pending is handed on, the first change having waited at
  least for the minimal delay. */
  lemma TimerDecides(d: Delays, clocks: seq<Clock>, wakes: seq<Wake>, k: nat) returns (i: nat, j: nat)
    requires IsClockRun(d, clocks, wakes) && k < |wakes| && wakes[k].Timer?
    ensures i <= j < k && PendingSince(clocks, wakes, k, i, j)
    ensures var now, first := wakes[k].now, wakes[i].now;
            && now >= first + d.minDelay
            && (clocks[k + 1].first.Some? <==> now - wakes[j].now < d.mergeInterval && now - first < d.maxDelay)
            && (clocks[k + 1].first.Some? ==>
                  var due := if first + d.maxDelay < now + d.minDelay then first + d.maxDelay else now + d.minDelay;
                  clocks[k + 1].timer == Some(due))
  {
    ClockRunOk(d, clocks, wakes, k);
    assert IsWake(d, clocks, wakes, k);
    i, j := PendingTimes(d, clocks, wakes, k);
  }

  ghost predicate DueInTime(d: Delays, c: Clock) {
    c.timer.Some? ==> c.first.Some? && c.timer.value <= c.first.value + d.maxDelay
  }

  // The promise: no change is held back for longer than the maximal delay.
  ghost predicate KeepsMaxDelay(d: Delays) {
    forall clocks: seq<Clock>, wakes: seq<Wake>, k: nat | IsClockRun(d, clocks, wakes) && k < |clocks| ::
      DueInTime(d, clocks[k])
  }

  /** The timer is never due later than the maximal delay after the first pending
  change, in any run, exactly when the minimal delay is not the larger one. */
  lemma MaxDelayKept(d: Delays)
    ensures KeepsMaxDelay(d) <==> d.minDelay <= d.maxDelay
  {
    if d.minDelay <= d.maxDelay {
      forall clocks: seq<Clock>, wakes: seq<Wake>, k: nat | IsClockRun(d, clocks, wakes) && k < |clocks|
        ensures DueInTime(d, clocks[k])
      {
        ClockRunOk(d, clocks, wakes, k);
      }
    } else {
      FirstChangeWaits(d, 0);
      var clocks: seq<Clock>, wakes: seq<Wake> :| IsClockRun(d, clocks, wakes) && |clocks| == 2
                                                   && clocks[1] == Clock(Some(0), 0, Some(d.minDelay));
      assert !DueInTime(d, clocks[1]);
    }
  }

  /** A run that exceeds it: a single change waits for the minimal delay. */
  lemma FirstChangeWaits(d: Delays, now: int)
    ensures exists clocks, wakes :: IsClockRun(d, clocks, wakes) && |clocks| == 2
                                    && clocks[1] == Clock(Some(now), now, Some(now + d.minDelay))
  {
    var clocks, wakes := [Clock(None, 0, None), Clock(Some(now), now, Some(now + d.minDelay))], [Arrival(now)];
    assert forall k | 0 <= k < |wakes| :: IsWake(d, clocks, wakes, k);
    assert IsClockRun(d, clocks, wakes);
  }

  class HeadChangeCoalescer {
    const delays: Delays

    // What the notifee has been given, oldest first.
    var notified: seq<Change>
    // The pending change, if there is one.
    var pending: Option<Change>
    var clock: Clock

    ghost const store: Store
    // The heads between which the notified changes lead.
    ghost var heads: seq<TipSet>
    // The head reached by the incoming changes.
    ghost var current: TipSet

    ghost predicate Valid()
      reads this
    {
      && Feed(store, heads, notified)
      && Has(store, current) && SameRoot(store, heads[0], current)
      && (pending.Some? <==> clock.first.Some?) && ClockOk(delays, clock)
      && (pending.Some? ==> pending.value == Diff(store, Last(heads), current))
      && (pending.None? ==> current == Last(heads))
    }

    constructor (delays: Delays, ghost store: Store, ghost head: TipSet)
      requires Has(store, head)
      ensures Valid() && this.delays == delays && this.store == store && clock == Clock(None, 0, None)
      ensures notified == [] && pending.None? && heads == [head] && current == head
    {
      this.delays, this.store := delays, store;
      notified, pending, clock := [], None, Clock(None, 0, None);
      heads, current := [head], head;
    }

    method Coalesce(revert: seq<TipSet>, apply: seq<TipSet>)
      modifies this`pending
      ensures var before := if old(pending).Some? then old(pending).value else Change([], []);
              pending == Some(Merged(before, Change(revert, apply)))
    {
      var before := if pending.Some? then pending.value else Change([], []);
      var pendRevert := KeySet(before.revert);
      var pendApply := KeySet(before.apply);
      var reverting := KeySet(revert);
      var applying := KeySet(apply);
      var newRevert := Uncancelled(before.revert, applying);
      var moreRevert := Uncancelled(revert, pendApply);
      var newApply := Uncancelled(before.apply, reverting);
      var moreApply := Uncancelled(apply, pendRevert);
      pending := Some(Change(newRevert + moreRevert, newApply + moreApply));
    }

    // Hands the pending change to the notifee: it is the minimal change from
    // the head of the previous dispatch to the current head.
    method Dispatch()
      requires Valid() && pending.Some?
      modifies this
      ensures Valid() && pending.None? && current == old(current)
      ensures heads == old(heads) + [current] && clock == Clock(None, 0, None)
      ensures notified == old(notified) + [Diff(store, Last(old(heads)), current)]
    {
      FeedExtends(store, heads, notified, current);
      notified := notified + [pending.value];
      pending := None;
      clock := Clock(None, 0, None);
      heads := heads + [current];
    }

    // The background loop receives a head change.
    method OnHeadChange(revert: seq<TipSet>, apply: seq<TipSet>, now: int, ghost next: TipSet)
      requires Valid() && Has(store, next) && SameRoot(store, current, next)
      requires Change(revert, apply) == Diff(store, current, next)
      modifies this
      ensures Valid() && current == next && pending.Some?
      ensures heads == old(heads) && notified == old(notified) && clock == Woken(delays, old(clock), Arrival(now))
    {
      NoChange(store, current);
      MergeIsComposition(store, Last(heads), current, next);
      Coalesce(revert, apply);
      current := next;
      clock := clock.(last := now);
      if clock.first.None? { clock := clock.(first := Some(now)); }
      if clock.timer.None? { clock := clock.(timer := Some(now + delays.minDelay)); }
    }

    // The background loop's timer fires.
    method OnTimer(now: int)
      requires Valid() && clock.timer.Some? && clock.timer.value <= now
      modifies this
      ensures Valid() && current == old(current) && clock == Woken(delays, old(clock), Timer(now))
      ensures if WaitsOn(delays, old(clock), now) then
                notified == old(notified) && pending == old(pending) && heads == old(heads)
              else
                && notified == old(notified) + [Diff(store, Last(old(heads)), current)] && pending.None?
                && heads == old(heads) + [current]
    {
      var sinceFirst := now - clock.first.value;
      var sinceLast := now - clock.last;
      if sinceLast < delays.mergeInterval && sinceFirst < delays.maxDelay {
        var maxWait := delays.maxDelay - sinceFirst;
        var wait: int := delays.minDelay;
        if maxWait < wait { wait := maxWait; }
        clock := clock.(timer := Some(now + wait));
      } else {
        Dispatch();
      }
    }

    // The coalescer is closed.
    method OnDone()
      requires Valid()
      modifies this
      ensures Valid() && pending.None? && current == old(current) && Last(heads) == current
      ensures if old(pending).None? then notified == old(notified) && heads == old(heads)
              else notified == old(notified) + [old(pending).value] && heads == old(heads) + [current]
    {
      if pending.Some? { Dispatch(); }
    }
  }
}
