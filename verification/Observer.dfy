/** The chain observer: it replays head changes tipset by tipset to the
observers registered with it, while observers come and go concurrently.
*/
module Observer {
  import opened Wrappers
  import opened Sequences
  import opened Tipsets
  import opened Reorg
  import opened HeadChanges

  datatype Note = RevertNote(from: TipSet, to: TipSet) | ApplyNote(from: TipSet, to: TipSet)

  // A single notification moves along one parent link; a revert is only known to
  // if the reverted tipsets were linked.
  ghost predicate OneLink(s: Store, linked: bool, n: Note) {
    && Has(s, n.from) && Has(s, n.to)
    && match n
       case RevertNote(from, to) => linked ==> from.height > 0 && to == Parent(s, from)
       case ApplyNote(from, to) => to.height > 0 && from == Parent(s, to)
  }

  // The notifications walk from a to b without a gap, along such links.
  ghost predicate Path(s: Store, linked: bool, a: TipSet, notes: seq<Note>, b: TipSet) {
    if notes == [] then a == b
    else
      var n := Last(notes);
      n.to == b && OneLink(s, linked, n) && Path(s, linked, a, notes[..|notes| - 1], n.from)
  }

  lemma PathExtends(s: Store, linked: bool, a: TipSet, notes: seq<Note>, n: Note)
    requires Path(s, linked, a, notes, n.from) && OneLink(s, linked, n)
    ensures Path(s, linked, a, notes + [n], n.to)
  {
    assert (notes + [n])[..|notes|] == notes;
  }

  lemma {:induction false} PathUnlinks(s: Store, linked: bool, a: TipSet, notes: seq<Note>, b: TipSet)
    requires Path(s, linked, a, notes, b)
    ensures Path(s, false, a, notes, b)
  {
    if notes != [] { PathUnlinks(s, linked, a, notes[..|notes| - 1], Last(notes).from); }
  }

  // ---------------------------------------------------------------------
  // When a change can be replayed on a head, and where it leads

  ghost predicate LinkedDown(s: Store, rev: seq<TipSet>)
    requires Stored(s, rev)
  {
    forall i | 0 <= i < |rev| - 1 :: LinkedAt(s, rev, i)
  }

  ghost predicate LinkedAt(s: Store, rev: seq<TipSet>, i: nat)
    requires i < |rev| - 1 && Has(s, rev[i])
  {
    rev[i].height > 0 && rev[i + 1] == Parent(s, rev[i])
  }

  // The head after the reverts; none if they do not start at the head or go
  // below a genesis.
  ghost function Base(s: Store, head: TipSet, rev: seq<TipSet>): (b: Option<TipSet>)
    requires Has(s, head) && Stored(s, rev)
    ensures b.Some? ==> Has(s, b.value)
  {
    if rev == [] then Some(head)
    else if rev[0] != head then None
    else Next(s, Last(rev))
  }

  ghost function Under(base: TipSet, app: seq<TipSet>, i: nat): TipSet
    requires i <= |app|
  {
    if i == 0 then base else app[i - 1]
  }

  ghost predicate Stacks(base: TipSet, app: seq<TipSet>) {
    forall i | 0 <= i < |app| :: app[i].parent == Under(base, app, i).key
  }

  ghost predicate Replayable(s: Store, head: TipSet, c: Change)
    requires Has(s, head) && Stored(s, c.revert)
  {
    Base(s, head, c.revert).Some? && Stacks(Base(s, head, c.revert).value, c.apply)
  }

  ghost function Reached(s: Store, head: TipSet, c: Change): TipSet
    requires Has(s, head) && Stored(s, c.revert) && Replayable(s, head, c)
  {
    if c.apply == [] then Base(s, head, c.revert).value else Last(c.apply)
  }

  // Replaying the minimal change between two heads always succeeds and leads
  // from the one to the other.
  lemma DiffReplays(s: Store, a: TipSet, b: TipSet)
    requires Has(s, a) && Has(s, b) && SameRoot(s, a, b)
    ensures Stored(s, Diff(s, a, b).revert) && LinkedDown(s, Diff(s, a, b).revert) && Stored(s, Diff(s, a, b).apply)
    ensures Replayable(s, a, Diff(s, a, b)) && Reached(s, a, Diff(s, a, b)) == b
  {
    var c := ForkPoint(s, a, b);
    RevertsReach(s, a, Dropped(s, a, b), c);
    AppliesStack(s, b, Dropped(s, b, a), c);
    var up := Dropped(s, b, a);
    assert Chain(s, b)[0] == b;
    if up != [] { assert Last(Reverse(up)) == up[0] == b; }
  }

  lemma RevertsReach(s: Store, a: TipSet, rev: seq<TipSet>, c: TipSet)
    requires Has(s, a) && Has(s, c) && Chain(s, a) == rev + Chain(s, c)
    ensures Stored(s, rev) && LinkedDown(s, rev) && Base(s, a, rev) == Some(c)
  {
    ChainLinks(s, a);
    var chain := Chain(s, a);
    assert forall i | 0 <= i < |rev| :: chain[i] == rev[i];
    assert chain[|rev|] == c;
    if rev != [] { assert chain[|rev| - 1] == Last(rev); }
  }

  lemma AppliesStack(s: Store, b: TipSet, up: seq<TipSet>, c: TipSet)
    requires Has(s, b) && Has(s, c) && Chain(s, b) == up + Chain(s, c)
    ensures Stacks(c, Reverse(up))
    ensures Stored(s, Reverse(up))
  {
    ChainLinks(s, b);
    var app, chain := Reverse(up), Chain(s, b);
    assert chain[|up|] == c;
    forall i | 0 <= i < |app| ensures Has(s, app[i]) && app[i].parent == Under(c, app, i).key {
      var j := |up| - 1 - i;
      assert app[i] == chain[j] && chain[j + 1] == Parent(s, chain[j]);
      if i > 0 { assert app[i - 1] == up[j + 1]; }
    }
  }

  lemma {:induction false} ChainLinks(s: Store, t: TipSet)
    requires Has(s, t)
    ensures forall i | 0 <= i < |Chain(s, t)| - 1 ::
              Chain(s, t)[i].height > 0 && Chain(s, t)[i + 1] == Parent(s, Chain(s, t)[i])
    decreases t.height
  {
    if t.height > 0 { ChainLinks(s, Parent(s, t)); }
  }

  // ---------------------------------------------------------------------
  // The observer

  // What an observer was told since it registered.
  datatype Log = Log(since: TipSet, notes: seq<Note>)

  function Told(l: Log, n: Note): Log {
    l.(notes := l.notes + [n])
  }

  // What was told before is still there, and what came later was added to it.
  ghost predicate Kept(before: map<nat, Log>, after: map<nat, Log>) {
    forall id | id in before :: KeptLog(before, after, id)
  }

  ghost predicate KeptLog(before: map<nat, Log>, after: map<nat, Log>, id: nat)
    requires id in before
  {
    id in after && before[id].since == after[id].since && before[id].notes <= after[id].notes
  }

  // Those of these observers that have not left were told exactly these notes.
  ghost predicate Delivered(observers: seq<nat>, left: set<nat>, before: map<nat, Log>, after: map<nat, Log>,
                            notes: seq<Note>)
  {
    forall id | id in observers && id !in left :: DeliveredTo(before, after, id, notes)
  }

  ghost predicate DeliveredTo(before: map<nat, Log>, after: map<nat, Log>, id: nat, notes: seq<Note>) {
    id in before && id in after && after[id] == Log(before[id].since, before[id].notes + notes)
  }

  // Everyone registered at first is still registered or has left.
  ghost predicate Accounted(first: seq<nat>, observers: seq<nat>, left: set<nat>) {
    forall id | id in first && id !in left :: id in observers
  }

  lemma NothingDelivered(observers: seq<nat>, left: set<nat>, logs: map<nat, Log>)
    requires forall id | id in observers :: id in logs
    ensures Kept(logs, logs) && Delivered(observers, left, logs, logs, [])
  {
    forall id | id in observers && id !in left ensures DeliveredTo(logs, logs, id, []) {
      assert logs[id].notes + [] == logs[id].notes;
    }
  }

  lemma DeliveredBoth(first: seq<nat>, observers: seq<nat>, left: set<nat>, left': set<nat>,
                      a: map<nat, Log>, b: map<nat, Log>, c: map<nat, Log>, x: seq<Note>, y: seq<Note>)
    requires Kept(a, b) && Kept(b, c) && left <= left' && Accounted(first, observers, left)
    requires Delivered(first, left, a, b, x) && Delivered(observers, left', b, c, y)
    ensures Kept(a, c) && Delivered(first, left', a, c, x + y)
  {
    forall id | id in a ensures KeptLog(a, c, id) { assert KeptLog(a, b, id) && KeptLog(b, c, id); }
    forall id | id in first && id !in left' ensures DeliveredTo(a, c, id, x + y) {
      assert DeliveredTo(a, b, id, x) && DeliveredTo(b, c, id, y);
      ConcatAssociates(a[id].notes, x, y);
    }
  }

  // The notes of reverting the first i tipsets, and of applying the first i on a base.
  ghost function RevertNotes(s: Store, rev: seq<TipSet>, i: nat): seq<Note>
    requires Stored(s, rev) && i <= |rev|
  {
    if i == 0 then []
    else
      var below := Next(s, rev[i - 1]);
      RevertNotes(s, rev, i - 1)
      + [RevertNote(rev[i - 1], if i < |rev| then rev[i] else if below.Some? then below.value else rev[i - 1])]
  }

  ghost function ApplyNotes(base: TipSet, app: seq<TipSet>, i: nat): seq<Note>
    requires i <= |app|
  {
    if i == 0 then [] else ApplyNotes(base, app, i - 1) + [ApplyNote(Under(base, app, i - 1), app[i - 1])]
  }

  ghost function ChangeNotes(s: Store, head: TipSet, c: Change): seq<Note>
    requires Has(s, head) && Stored(s, c.revert) && Replayable(s, head, c)
  {
    RevertNotes(s, c.revert, |c.revert|) + ApplyNotes(Base(s, head, c.revert).value, c.apply, |c.apply|)
  }

  // The notes of switching from one head to another.
  ghost function SwitchNotes(s: Store, a: TipSet, b: TipSet): seq<Note>
    requires Has(s, a) && Has(s, b) && SameRoot(s, a, b)
  {
    DiffReplays(s, a, b);
    ChangeNotes(s, a, Diff(s, a, b))
  }

  // The notes of the first i switches along these heads.
  ghost function FeedNotes(s: Store, heads: seq<TipSet>, feed: seq<Change>, i: nat): seq<Note>
    requires Feed(s, heads, feed) && i <= |feed|
  {
    if i == 0 then [] else FeedNotes(s, heads, feed, i - 1) + SwitchNotes(s, heads[i - 1], heads[i])
  }

  ghost function Elems(xs: seq<nat>): set<nat> {
    set x | x in xs
  }

  lemma DistinctTail(xs: seq<nat>, i: nat)
    requires Distinct(xs) && i < |xs|
    ensures Elems(xs[i..]) - {xs[i]} == Elems(xs[i + 1..])
    ensures xs[i] in xs[i..]
  {
    assert xs[i..] == [xs[i]] + xs[i + 1..];
  }

  class ChainObserver {
    const store: Store
    var head: TipSet
    var maxHeight: nat
    var observers: seq<nat>
    // The logs of all observers ever registered.
    var logs: map<nat, Log>
    var ids: nat
    // Whether all reverted tipsets were linked so far.
    ghost var linked: bool
    // The observers that have been unregistered.
    ghost var left: set<nat>

    // Every registered observer has been led to the head; those in `behind`
    // only as far as `from`.
    ghost predicate Synced(behind: set<nat>, from: TipSet)
      reads this
    {
      && Has(store, head)
      && (forall id | id in logs :: id < ids)
      && (forall id | id in observers :: id in logs)
      && (forall id | id in logs && id !in left :: id in observers)
      && Distinct(observers)
      && forall id | id in observers ::
           Path(store, linked, logs[id].since, logs[id].notes, if id in behind then from else head)
    }

    ghost predicate Valid()
      reads this
    {
      Synced({}, head)
    }

    constructor (store: Store, head: TipSet)
      requires Has(store, head)
      ensures Valid() && this.store == store && this.head == head && observers == [] && maxHeight == 0 && linked
      ensures logs == map[] && left == {}
    {
      this.store, this.head, maxHeight := store, head, 0;
      observers, logs, ids, linked, left := [], map[], 0, true, {};
    }

    method Observe(ghost behind: set<nat>, ghost from: TipSet) returns (id: nat, at: TipSet)
      requires Synced(behind, from) && forall b | b in behind :: b < ids
      modifies this`observers, this`logs, this`ids
      ensures Synced(behind, from) && ids > old(ids)
      ensures observers == old(observers) + [id] && id == old(ids) && at == head
      ensures logs == old(logs)[id := Log(at, [])]
    {
      id, at := ids, head;
      assert forall i | 0 <= i < |observers| :: observers[i] in observers;
      observers, logs, ids := observers + [id], logs[id := Log(head, [])], ids + 1;
    }

    method Unregister(id: nat, ghost behind: set<nat>, ghost from: TipSet) returns (found: bool)
      requires Synced(behind, from)
      modifies this`observers, this`left
      ensures Synced(behind, from) && left == if found then old(left) + {id} else old(left)
      ensures found <==> id in old(observers)
      ensures id !in observers
      ensures forall o :: o in observers <==> o in old(observers) && o != id
    {
      var kept: seq<nat> := [];
      found := false;
      for i := 0 to |observers|
        invariant forall o :: o in kept <==> o in observers[..i] && o != id
        invariant Distinct(kept)
        invariant found <==> id in observers[..i]
      {
        assert observers[..i + 1] == observers[..i] + [observers[i]];
        assert observers[i] !in observers[..i];
        if observers[i] == id {
          found := true;
        } else {
          kept := kept + [observers[i]];
        }
      }
      assert observers[..|observers|] == observers;
      observers := kept;
      if found { left := left + {id}; }
    }

    // What other goroutines may do whenever the lock is free.
    method OthersRegister(ghost behind: set<nat>, ghost from: TipSet)
      requires Synced(behind, from) && forall b | b in behind :: b < ids
      modifies this`observers, this`logs, this`ids, this`left
      ensures Synced(behind, from) && ids >= old(ids) && old(left) <= left
      ensures forall id | id in old(logs) :: id in logs && logs[id] == old(logs)[id]
    {
      var ops: nat := *;
      while ops > 0
        invariant Synced(behind, from) && ids >= old(ids) && old(left) <= left
        invariant forall id | id in old(logs) :: id in logs && logs[id] == old(logs)[id]
      {
        var register: bool, id: nat := *, *;
        if register {
          var _, _ := Observe(behind, from);
        } else {
          var _ := Unregister(id, behind, from);
        }
        ops := ops - 1;
      }
    }

    // Sets the head and tells the observers registered at that moment.
    method Notify(n: Note)
      requires Valid() && n.from == head && OneLink(store, linked, n)
      modifies this`head, this`observers, this`logs, this`ids, this`left
      ensures Valid() && head == n.to && old(left) <= left
      ensures forall id | id in old(logs) && id !in old(observers) :: id in logs && logs[id] == old(logs)[id]
      ensures Delivered(old(observers), {}, old(logs), logs, [n])
    {
      var snapshot := observers;
      head := n.to;
      ghost var behind := Elems(snapshot);
      for i := 0 to |snapshot|
        invariant behind == Elems(snapshot[i..])
        invariant Synced(behind, n.from) && head == n.to && ids >= old(ids) && old(left) <= left
        invariant forall id | id in old(logs) :: id in logs
        invariant forall id | id in old(logs) && (id !in snapshot || id in behind) :: logs[id] == old(logs)[id]
        invariant forall id | id in snapshot && id !in behind :: logs[id] == Told(old(logs)[id], n)
      {
        OthersRegister(behind, n.from);
        DistinctTail(snapshot, i);
        Tell(snapshot[i], n, behind);
        behind := behind - {snapshot[i]};
      }
      OthersRegister(behind, n.from);
    }

    method Tell(id: nat, n: Note, ghost behind: set<nat>)
      requires Synced(behind, n.from) && OneLink(store, linked, n) && head == n.to && id in behind && id in logs
      modifies this`logs
      ensures Synced(behind - {id}, n.from)
      ensures logs == old(logs)[id := Told(old(logs)[id], n)]
    {
      if id in observers { PathExtends(store, linked, logs[id].since, logs[id].notes, n); }
      logs := logs[id := Told(logs[id], n)];
    }

    // One more note for those who have been told the notes before it.
    method TellAll(ghost first: seq<nat>, ghost start: map<nat, Log>, ghost notes: seq<Note>, n: Note)
      requires Valid() && n.from == head && OneLink(store, linked, n)
      requires Kept(start, logs) && Delivered(first, left, start, logs, notes)
      modifies this`head, this`observers, this`logs, this`ids, this`left
      ensures Valid() && head == n.to && old(left) <= left
      ensures Kept(start, logs) && Delivered(first, left, start, logs, notes + [n])
    {
      ghost var observers0, logs0, left0 := observers, logs, left;
      assert Accounted(first, observers, left) by {
        assert forall id | id in first && id !in left :: DeliveredTo(start, logs, id, notes);
      }
      Notify(n);
      assert Kept(logs0, logs) by {
        forall id | id in logs0 ensures KeptLog(logs0, logs, id) {
          if id in observers0 { assert DeliveredTo(logs0, logs, id, [n]); }
        }
      }
      DeliveredBoth(first, observers0, left0, left, start, logs0, logs, notes, [n]);
    }

    // Links are no longer known.
    ghost method Unlink()
      requires Valid()
      modifies this`linked
      ensures Valid() && !linked
    {
      forall id | id in observers ensures Path(store, false, logs[id].since, logs[id].notes, head) {
        PathUnlinks(store, linked, logs[id].since, logs[id].notes, head);
      }
      linked := false;
    }

    // Takes back tipsets, the first of which must be the head.
    method RevertAll(rev: seq<TipSet>) returns (ok: bool)
      requires Valid() && Stored(store, rev)
      modifies this
      ensures Valid() && linked == (old(linked) && LinkedDown(store, rev)) && maxHeight == old(maxHeight)
      ensures ok <==> Base(store, old(head), rev).Some?
      ensures ok ==> head == Base(store, old(head), rev).value
      ensures Kept(old(logs), logs) && old(left) <= left
      ensures ok ==> Delivered(old(observers), left, old(logs), logs, RevertNotes(store, rev, |rev|))
    {
      NothingDelivered(observers, left, logs);
      if !LinkedDown(store, rev) { Unlink(); }
      for i := 0 to |rev|
        invariant Valid() && maxHeight == old(maxHeight) && linked == (old(linked) && LinkedDown(store, rev))
        invariant Some(head) == if i == 0 then Some(old(head)) else if i < |rev| then Some(rev[i])
                                else Next(store, rev[i - 1])
        invariant i > 0 ==> rev[0] == old(head)
        invariant Kept(old(logs), logs) && old(left) <= left
        invariant Delivered(old(observers), left, old(logs), logs, RevertNotes(store, rev, i))
      {
        var from := rev[i];
        if from != head { return false; }
        var to: TipSet;
        if i + 1 < |rev| {
          assert linked ==> LinkedAt(store, rev, i);
          to := rev[i + 1];
        } else {
          assert Linked(store, from);
          var joint := GetTipSet(store, from.parent);
          if joint.None? { return false; }
          to := joint.value;
        }
        TellAll(old(observers), old(logs), RevertNotes(store, rev, i), RevertNote(from, to));
      }
      return true;
    }

    // Applies tipsets, each of which must be on top of the one before.
    method ApplyAll(app: seq<TipSet>, ghost first: seq<nat>, ghost start: map<nat, Log>, ghost notes: seq<Note>)
        returns (ok: bool)
      requires Valid() && Stored(store, app)
      requires Kept(start, logs) && Delivered(first, left, start, logs, notes)
      modifies this`head, this`maxHeight, this`observers, this`logs, this`ids, this`left
      ensures Valid() && old(left) <= left && Kept(start, logs)
      ensures ok <==> Stacks(old(head), app)
      ensures ok ==> head == Under(old(head), app, |app|)
      ensures ok ==> Delivered(first, left, start, logs, notes + ApplyNotes(old(head), app, |app|))
      ensures maxHeight >= old(maxHeight) && (ok ==> forall x | x in app :: maxHeight >= x.height)
    {
      ghost var base := head;
      assert notes + [] == notes;
      for i := 0 to |app|
        invariant Valid() && head == Under(base, app, i)
        invariant forall j | 0 <= j < i :: app[j].parent == Under(base, app, j).key
        invariant maxHeight >= old(maxHeight) && forall j | 0 <= j < i :: maxHeight >= app[j].height
        invariant Kept(start, logs) && old(left) <= left
        invariant Delivered(first, left, start, logs, notes + ApplyNotes(base, app, i))
      {
        var to := app[i];
        if to.parent != head.key { return false; }
        assert Linked(store, to);
        ConcatAssociates(notes, ApplyNotes(base, app, i), [ApplyNote(head, to)]);
        TellAll(first, start, notes + ApplyNotes(base, app, i), ApplyNote(head, to));
        if to.height > maxHeight { maxHeight := to.height; }
      }
      return true;
    }

    /** Replays a change.  It fails exactly when the change does not fit on the
    head; whether or not it fails, what each observer has seen is kept and is a walk
    without gaps that ends at the head, along parent links if all changes were
    linked.  If it does not fail, every observer that does not leave meanwhile is
    told exactly the steps of the change, once and in order. */
    method HeadChange(rev: seq<TipSet>, app: seq<TipSet>) returns (ok: bool)
      requires Valid() && Stored(store, rev) && Stored(store, app)
      modifies this
      ensures Valid() && linked == (old(linked) && LinkedDown(store, rev))
      ensures ok <==> Replayable(store, old(head), Change(rev, app))
      ensures ok ==> head == Reached(store, old(head), Change(rev, app))
      ensures maxHeight >= old(maxHeight) && (ok ==> forall x | x in app :: maxHeight >= x.height)
      ensures Kept(old(logs), logs) && old(left) <= left
      ensures ok ==> Delivered(old(observers), left, old(logs), logs, ChangeNotes(store, old(head), Change(rev, app)))
    {
      ok := RevertAll(rev);
      if !ok { return; }
      ok := ApplyAll(app, old(observers), old(logs), RevertNotes(store, rev, |rev|));
    }

    /** Catching up with the current head of the chain cannot fail when the two
    heads have a common genesis. */
    method CatchUp(curHead: TipSet) returns (ok: bool)
      requires Valid() && Has(store, curHead)
      modifies this
      ensures Valid() && linked == old(linked)
      ensures ok <==> SameRoot(store, old(head), curHead)
      ensures ok ==> head == curHead
      ensures !ok ==> head == old(head)
      ensures Kept(old(logs), logs) && old(left) <= left
      ensures ok ==> Delivered(old(observers), left, old(logs), logs, SwitchNotes(store, old(head), curHead))
    {
      NothingDelivered(observers, left, logs);
      var ops := ReorgOps(store, head, curHead);
      if ops.Err? { return false; }
      DiffReplays(store, head, curHead);
      ok := HeadChange(ops.value.0, Reverse(ops.value.1));
    }

    /** Replaying a feed of consecutive minimal changes, in order, never fails and ends
    at the last head; every observer that does not leave meanwhile is told exactly the
    steps from head to head, once and in order. */
    method Follow(feed: seq<Change>, ghost heads: seq<TipSet>) returns (ok: bool)
      requires Valid() && Feed(store, heads, feed) && head == heads[0]
      modifies this
      ensures Valid() && linked == old(linked) && ok && head == Last(heads)
      ensures Kept(old(logs), logs) && old(left) <= left
      ensures Delivered(old(observers), left, old(logs), logs, FeedNotes(store, heads, feed, |feed|))
    {
      NothingDelivered(observers, left, logs);
      ok := true;
      for i := 0 to |feed|
        invariant Valid() && linked == old(linked) && ok && head == heads[i]
        invariant Kept(old(logs), logs) && old(left) <= left
        invariant Delivered(old(observers), left, old(logs), logs, FeedNotes(store, heads, feed, i))
      {
        assert Leads(store, heads, feed, i);
        ok := FollowOne(feed[i], heads[i + 1], old(observers), old(logs), FeedNotes(store, heads, feed, i));
      }
    }

    method FollowOne(c: Change, ghost next: TipSet, ghost first: seq<nat>, ghost start: map<nat, Log>,
                     ghost notes: seq<Note>) returns (ok: bool)
      requires Valid() && Has(store, next) && SameRoot(store, head, next) && c == Diff(store, head, next)
      requires Kept(start, logs) && Delivered(first, left, start, logs, notes)
      modifies this
      ensures Valid() && linked == old(linked) && ok && head == next && old(left) <= left
      ensures Kept(start, logs)
      ensures Delivered(first, left, start, logs, notes + SwitchNotes(store, old(head), next))
    {
      ghost var head0, observers0, logs0, left0 := head, observers, logs, left;
      assert Accounted(first, observers, left) by {
        assert forall id | id in first && id !in left :: DeliveredTo(start, logs, id, notes);
      }
      DiffReplays(store, head, next);
      ok := HeadChange(c.revert, c.apply);
      DeliveredBoth(first, observers0, left0, left, start, logs0, logs, notes, SwitchNotes(store, head0, next));
    }
  }
}
