/** The head of the store, followed from its published changes: by an observer that
replays them directly, and by one behind a coalescer.
*/
module Following {
  import opened Wrappers
  import opened Tipsets
  import opened Reorg
  import opened HeadChanges
  import opened Coalescer
  import opened ForkChoice
  import opened Observer

  /** An observer that starts at the store's first head and replays what the store
  has published since ends at the store's head; its observers that do not leave
  meanwhile are told exactly the steps from head to head, once and in order. */
  method FollowStore(chain: ChainStore, observer: ChainObserver) returns (ok: bool)
    requires chain.Valid() && chain.head.Some?
    requires observer.Valid() && observer.store == chain.store && observer.head == chain.heads[0]
    modifies observer
    ensures observer.Valid() && ok && Some(observer.head) == chain.head
    ensures Kept(old(observer.logs), observer.logs) && old(observer.left) <= observer.left
    ensures Delivered(old(observer.observers), observer.left, old(observer.logs), observer.logs,
                      FeedNotes(chain.store, chain.heads, chain.published[1..], |chain.published| - 1))
  {
    ok := observer.Follow(chain.published[1..], chain.heads);
  }

  // The coalescer's loop runs for a while before the next change arrives.
  method Idle(coalescer: HeadChangeCoalescer)
    requires coalescer.Valid()
    modifies coalescer
    ensures coalescer.Valid() && coalescer.current == old(coalescer.current)
    ensures coalescer.heads[0] == old(coalescer.heads[0])
  {
    var wakes: nat := *;
    while wakes > 0 && coalescer.clock.timer.Some?
      invariant coalescer.Valid() && coalescer.current == old(coalescer.current)
      invariant coalescer.heads[0] == old(coalescer.heads[0])
    {
      var now: int := *;
      if now < coalescer.clock.timer.value { now := coalescer.clock.timer.value; }
      coalescer.OnTimer(now);
      wakes := wakes - 1;
    }
  }

  // The coalescer is given everything the store has published, and closed.
  method Coalesced(chain: ChainStore, coalescer: HeadChangeCoalescer)
    requires chain.Valid() && chain.head.Some?
    requires coalescer.Valid() && coalescer.store == chain.store && coalescer.current == chain.heads[0]
    modifies coalescer
    ensures coalescer.Valid() && Some(Last(coalescer.heads)) == chain.head
    ensures coalescer.heads[0] == old(coalescer.heads[0])
  {
    var feed := chain.published[1..];
    for i := 0 to |feed|
      invariant coalescer.Valid() && coalescer.current == chain.heads[i]
      invariant coalescer.heads[0] == old(coalescer.heads[0])
    {
      Idle(coalescer);
      var now: int := *;
      assert Leads(chain.store, chain.heads, feed, i);
      coalescer.OnHeadChange(feed[i].revert, feed[i].apply, now, chain.heads[i + 1]);
    }
    Idle(coalescer);
    coalescer.OnDone();
  }

  /** With a coalescer in between, whenever the changes arrive and the timer fires,
  the merged changes still lead the observer to the store's head once the
  coalescer is closed; its observers are told the steps between the heads at which
  the coalescer handed on, once and in order. */
  method FollowCoalesced(chain: ChainStore, coalescer: HeadChangeCoalescer, observer: ChainObserver)
      returns (ok: bool)
    requires chain.Valid() && chain.head.Some?
    requires coalescer.Valid() && coalescer.store == chain.store
    requires coalescer.heads == [chain.heads[0]] && coalescer.current == chain.heads[0]
    requires observer.Valid() && observer.store == chain.store && observer.head == chain.heads[0]
    modifies coalescer, observer
    ensures coalescer.Valid() && observer.Valid() && ok && Some(observer.head) == chain.head
    ensures Kept(old(observer.logs), observer.logs) && old(observer.left) <= observer.left
    ensures coalescer.heads[0] == chain.heads[0] && Some(Last(coalescer.heads)) == chain.head
    ensures Delivered(old(observer.observers), observer.left, old(observer.logs), observer.logs,
                      FeedNotes(chain.store, coalescer.heads, coalescer.notified, |coalescer.notified|))
  {
    Coalesced(chain, coalescer);
    ok := observer.Follow(coalescer.notified, coalescer.heads);
  }
}
