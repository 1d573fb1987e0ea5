/** Events that wait for confidence: when a tipset matches a trigger an event is
queued, the trigger's handler is called once the chain is `confidence` epochs
above the tipset, and the handler's revert is called if the tipset is reverted
after that.
*/
module CalledEvents {
  import opened Wrappers
  import opened Sequences
  import opened Tipsets

  type Id = nat

  datatype Trigger = Trigger(confidence: nat, timeoutAt: Option<nat>, disabled: bool)

  datatype Event = Event(trigger: Id, data: nat, prevTipset: Option<TipSet>, tipset: TipSet, called: bool)

  // What has happened to a queued event: the chain head at each successful
  // call of the handler, the calls of the handler in all, the calls of its
  // revert, and whether the event's tipset has been reverted.
  datatype History = History(triggerAt: nat, handled: seq<TipSet>, attempts: nat, reverts: nat, gone: bool)

  // A match that the checks found in an applied tipset.
  datatype Match = Match(trigger: Id, data: nat, prevTipset: Option<TipSet>)

  type Queues = map<nat, map<nat, seq<Id>>>

  // Everything the observer keeps; events are known by identity.
  datatype Book = Book(triggers: map<Id, Trigger>, confQueue: Queues, revertQueue: map<nat, seq<nat>>,
                       timeouts: map<nat, map<Id, nat>>, events: map<Id, Event>, allocs: Id,
                       history: map<Id, History>)

  function Queue(q: Queues, th: nat, m: nat): seq<Id> {
    if th in q && m in q[th] then q[th][m] else []
  }

  function Reverts(r: map<nat, seq<nat>>, m: nat): seq<nat> {
    if m in r then r[m] else []
  }

  // ---------------------------------------------------------------------
  // Invariant

  // What may have happened to an event, given the chain head: the handler
  // succeeded at most once, and only under a head at or above the event's
  // trigger height with the event's tipset on its chain; the revert was called
  // exactly once if the tipset is gone and the handler had succeeded before,
  // and never otherwise.
  ghost predicate Lawful(s: Store, head: TipSet, e: Event, h: History)
    requires Has(s, head)
  {
    && Has(s, e.tipset)
    && |h.handled| <= 1 && (e.called <==> |h.handled| == 1) && |h.handled| <= h.attempts
    && (forall at | at in h.handled :: Has(s, at) && at.height >= h.triggerAt && OnChain(s, e.tipset, at))
    && (!h.gone ==> OnChain(s, e.tipset, head) && h.reverts == 0)
    && (h.gone ==> h.reverts == |h.handled|)
  }

  // A handled event keeps its trigger from timing out.
  ghost predicate Counted(b: Book, t: Id)
    requires t in b.triggers
  {
    b.triggers[t].timeoutAt.Some? ==>
      var at := b.triggers[t].timeoutAt.value;
      at in b.timeouts && t in b.timeouts[at] && b.timeouts[at][t] > 0
  }

  ghost predicate EventOk(s: Store, head: TipSet, b: Book, i: Id)
    requires Has(s, head) && i in b.events && i in b.history
  {
    var e, h := b.events[i], b.history[i];
    && Lawful(s, head, e, h)
    && e.trigger in b.triggers && h.triggerAt == e.tipset.height + b.triggers[e.trigger].confidence
    && (!h.gone <==> i in Queue(b.confQueue, h.triggerAt, e.tipset.height))
    && (e.called ==> Counted(b, e.trigger))
  }

  ghost predicate QueueOk(b: Book, th: nat, m: nat) {
    var q := Queue(b.confQueue, th, m);
    && Distinct(q)
    && (q != [] ==> th in Reverts(b.revertQueue, m))
    && forall i | i in q ::
         i in b.events && i in b.history && b.events[i].tipset.height == m && b.history[i].triggerAt == th
  }

  ghost predicate TriggersOk(b: Book) {
    && (forall t | t in b.triggers :: TriggerOk(b, t))
    && (forall at, t | at in b.timeouts && t in b.timeouts[at] :: TimeoutOk(b, at, t))
  }

  ghost predicate TriggerOk(b: Book, t: Id)
    requires t in b.triggers
  {
    b.triggers[t].timeoutAt.Some? ==>
      b.triggers[t].timeoutAt.value in b.timeouts && t in b.timeouts[b.triggers[t].timeoutAt.value]
  }

  ghost predicate TimeoutOk(b: Book, at: nat, t: Id) {
    t in b.triggers && b.triggers[t].timeoutAt == Some(at)
  }

  // The event has had its handler called, or its trigger is disabled.
  ghost predicate Tried(b: Book, i: Id)
    requires i in b.events && i in b.history
  {
    b.history[i].attempts >= 1 || (b.events[i].trigger in b.triggers && b.triggers[b.events[i].trigger].disabled)
  }

  // Every event that waits for a height up to `done` has been tried.
  ghost predicate Served(b: Book, done: int)
    requires b.events.Keys == b.history.Keys
  {
    forall i | i in b.events :: TriedBy(b, i, done)
  }

  ghost predicate TriedBy(b: Book, i: Id, done: int)
    requires i in b.events && i in b.history
  {
    !b.history[i].gone && b.history[i].triggerAt <= done ==> Tried(b, i)
  }

  ghost predicate Inv(s: Store, head: TipSet, b: Book, done: int) {
    && Has(s, head)
    && b.events.Keys == b.history.Keys && (forall i | i in b.events :: i < b.allocs)
    && (forall th: nat, m: nat :: QueueOk(b, th, m))
    && TriggersOk(b)
    && (forall i | i in b.events :: EventOk(s, head, b, i))
    && Served(b, done)
  }

  // ---------------------------------------------------------------------
  // Steps

  function Queued(b: Book, m: Match, ts: TipSet): Book
    requires m.trigger in b.triggers
  {
    var id := b.allocs;
    var th: nat := ts.height + b.triggers[m.trigger].confidence;
    var byOrigH: map<nat, seq<Id>> := if th in b.confQueue then b.confQueue[th] else map[];
    var byOrigH': map<nat, seq<Id>> := byOrigH[ts.height := Queue(b.confQueue, th, ts.height) + [id]];
    b.(confQueue := b.confQueue[th := byOrigH'],
       revertQueue := b.revertQueue[ts.height := Reverts(b.revertQueue, ts.height) + [th]],
       events := b.events[id := EventOf(m, ts)],
       allocs := id + 1,
       history := b.history[id := History(th, [], 0, 0, false)])
  }

  function EventOf(m: Match, ts: TipSet): Event {
    Event(m.trigger, m.data, m.prevTipset, ts, false)
  }

  lemma QueuedQueue(b: Book, m: Match, ts: TipSet, th: nat, h: nat)
    requires m.trigger in b.triggers
    ensures Queue(Queued(b, m, ts).confQueue, th, h) ==
            if th == ts.height + b.triggers[m.trigger].confidence && h == ts.height
            then Queue(b.confQueue, th, h) + [b.allocs] else Queue(b.confQueue, th, h)
  {
  }

  lemma QueuedKeepsQueue(b: Book, m: Match, ts: TipSet, th: nat, h: nat)
    requires QueueOk(b, th, h) && m.trigger in b.triggers && b.allocs !in b.events
    ensures QueueOk(Queued(b, m, ts), th, h)
  {
    QueuedQueue(b, m, ts, th, h);
    var q := Queue(b.confQueue, th, h);
    assert forall k | 0 <= k < |q| :: q[k] in q;
  }

  lemma QueuedKeepsEvent(s: Store, b: Book, m: Match, ts: TipSet, i: Id)
    requires Has(s, ts) && m.trigger in b.triggers && b.events.Keys == b.history.Keys && b.allocs !in b.events
    requires i == b.allocs || (i in b.events && EventOk(s, ts, b, i))
    ensures EventOk(s, ts, Queued(b, m, ts), i)
  {
    var b' := Queued(b, m, ts);
    QueuedQueue(b, m, ts, b'.history[i].triggerAt, b'.events[i].tipset.height);
  }

  lemma QueuedKeeps(s: Store, b: Book, m: Match, ts: TipSet, done: int)
    requires Inv(s, ts, b, done) && done < ts.height && m.trigger in b.triggers
    ensures Inv(s, ts, Queued(b, m, ts), done)
  {
    var b' := Queued(b, m, ts);
    forall th: nat, h: nat ensures QueueOk(b', th, h) { QueuedKeepsQueue(b, m, ts, th, h); }
    forall i | i in b'.events ensures EventOk(s, ts, b', i) { QueuedKeepsEvent(s, b, m, ts, i); }
    QueuedServed(b, m, ts, done);
    QueuedTriggers(b, m, ts);
  }

  lemma QueuedTriggers(b: Book, m: Match, ts: TipSet)
    requires TriggersOk(b) && b.events.Keys == b.history.Keys && b.allocs !in b.events && m.trigger in b.triggers
    ensures TriggersOk(Queued(b, m, ts))
  {
  }

  lemma QueuedServed(b: Book, m: Match, ts: TipSet, done: int)
    requires b.events.Keys == b.history.Keys && Served(b, done) && done < ts.height && m.trigger in b.triggers
    ensures Served(Queued(b, m, ts), done)
  {
    var b' := Queued(b, m, ts);
    forall i | i in b'.events ensures TriedBy(b', i, done) {
      assert i in b.events ==> TriedBy(b, i, done);
    }
  }

  // The handler of an event is called under this head with this outcome.
  function Attempted(b: Book, i: Id, head: TipSet, more: bool, err: bool): Book {
    if i !in b.events || i !in b.history || b.events[i].trigger !in b.triggers then b else
    var e, h := b.events[i], b.history[i];
    var trigger := b.triggers[e.trigger];
    if e.called || trigger.disabled then b
    else if err then b.(history := b.history[i := h.(attempts := h.attempts + 1)])
    else
      b.(history := b.history[i := h.(attempts := h.attempts + 1, handled := h.handled + [head])],
         events := b.events[i := e.(called := true)],
         timeouts := CountCall(b.timeouts, trigger.timeoutAt, e.trigger),
         triggers := b.triggers[e.trigger := trigger.(disabled := !more)])
  }

  function CountCall(timeouts: map<nat, map<Id, nat>>, at: Option<nat>, t: Id): map<nat, map<Id, nat>> {
    if at.None? || at.value !in timeouts then timeouts
    else
      var touts: map<Id, nat> := timeouts[at.value];
      var calls: nat := if t in touts then touts[t] else 0;
      timeouts[at.value := touts[t := calls + 1]]
  }

  lemma AttemptedKeepsEvent(s: Store, head: TipSet, b: Book, i: Id, more: bool, err: bool, j: Id)
    requires Has(s, head) && b.events.Keys == b.history.Keys && TriggersOk(b)
    requires i in b.events && j in b.events && EventOk(s, head, b, i) && EventOk(s, head, b, j)
    requires !b.history[i].gone && b.history[i].triggerAt <= head.height
    ensures EventOk(s, head, Attempted(b, i, head, more, err), j)
  {
  }

  // What has happened to an event is never undone, and nothing more happens to one
  // whose tipset has been reverted.
  ghost predicate Later(e: Event, h: History, e': Event, h': History) {
    && e' == e.(called := e'.called) && (e.called ==> e'.called)
    && h'.triggerAt == h.triggerAt && h.handled <= h'.handled && h.attempts <= h'.attempts && h.reverts <= h'.reverts
    && (h.gone ==> e' == e && h' == h)
  }

  ghost predicate LaterAt(b: Book, b': Book, j: Id)
    requires j in b.events && j in b.history
  {
    j in b'.events && j in b'.history && Later(b.events[j], b.history[j], b'.events[j], b'.history[j])
  }

  // The book b' is a later one than b.
  ghost predicate LaterBook(b: Book, b': Book) {
    forall j | j in b.events && j in b.history :: LaterAt(b, b', j)
  }

  lemma LaterTransitive(a: Book, b: Book, c: Book)
    requires LaterBook(a, b) && LaterBook(b, c)
    ensures LaterBook(a, c)
  {
    forall j | j in a.events && j in a.history ensures LaterAt(a, c, j) {
      assert LaterAt(a, b, j) && LaterAt(b, c, j);
    }
  }

  // The trigger's handler wants no more events.
  ghost predicate Off(b: Book, t: Id) {
    t in b.triggers && b.triggers[t].disabled
  }

  ghost function Attempts(b: Book, j: Id): nat {
    if j in b.events && j in b.history then b.history[j].attempts else 0
  }

  ghost predicate SilentAt(b: Book, b': Book, j: Id) {
    j in b'.events && Off(b, b'.events[j].trigger) ==> Attempts(b', j) == Attempts(b, j)
  }

  // A handler that wanted no more events at b has not been called since, for events
  // known then or for new ones, and still wants none.
  ghost predicate SilentBook(b: Book, b': Book) {
    (forall t | Off(b, t) :: Off(b', t)) && forall j :: SilentAt(b, b', j)
  }

  lemma SilentTransitive(a: Book, b: Book, c: Book)
    requires LaterBook(a, b) && LaterBook(b, c) && SilentBook(a, b) && SilentBook(b, c)
    requires a.events.Keys == a.history.Keys && b.events.Keys == b.history.Keys
    ensures SilentBook(a, c)
  {
    forall j ensures SilentAt(a, c, j) {
      assert SilentAt(a, b, j) && SilentAt(b, c, j);
      assert j in b.events ==> LaterAt(b, c, j);
      assert j in a.events ==> LaterAt(a, b, j);
    }
  }

  // Nothing recorded at b is taken back at b', and who wanted no more got no more.
  ghost predicate Onward(b: Book, b': Book) {
    LaterBook(b, b') && SilentBook(b, b')
  }

  lemma OnwardTransitive(a: Book, b: Book, c: Book)
    requires Onward(a, b) && Onward(b, c) && a.events.Keys == a.history.Keys && b.events.Keys == b.history.Keys
    ensures Onward(a, c)
  {
    LaterTransitive(a, b, c);
    SilentTransitive(a, b, c);
  }

  // What an attempt leaves as it was.
  ghost predicate Same(b: Book, b': Book) {
    && b'.events.Keys == b.events.Keys && b'.history.Keys == b.history.Keys && b.events.Keys == b.history.Keys
    && b'.confQueue == b.confQueue && b'.revertQueue == b.revertQueue && b'.allocs == b.allocs
    && Onward(b, b') && (forall j | j in b.events :: b'.history[j].gone == b.history[j].gone)
    && (forall j | j in b.events && Tried(b, j) :: Tried(b', j))
  }

  lemma SameTransitive(a: Book, b: Book, c: Book)
    requires Same(a, b) && Same(b, c)
    ensures Same(a, c)
  {
    OnwardTransitive(a, b, c);
    SameGone(a, b, c);
  }

  lemma SameGone(a: Book, b: Book, c: Book)
    requires Same(a, b) && Same(b, c)
    ensures forall j | j in a.events :: c.history[j].gone == a.history[j].gone
  {
  }

  // No queue entry refers to a tipset off the current chain.
  lemma QueueMember(s: Store, head: TipSet, b: Book, th: nat, m: nat, i: Id, done: int)
    requires Inv(s, head, b, done) && i in Queue(b.confQueue, th, m)
    ensures i in b.events && !b.history[i].gone && b.history[i].triggerAt == th && b.events[i].tipset.height == m
    ensures OnChain(s, b.events[i].tipset, head)
  {
    assert QueueOk(b, th, m);
    assert EventOk(s, head, b, i);
  }

  lemma AttemptedLater(b: Book, i: Id, head: TipSet, more: bool, err: bool, j: Id)
    requires i in b.history && !b.history[i].gone && j in b.events && j in b.history
    ensures LaterAt(b, Attempted(b, i, head, more, err), j)
  {
  }

  lemma AttemptedTried(b: Book, i: Id, head: TipSet, more: bool, err: bool, j: Id)
    requires b.events.Keys == b.history.Keys && i in b.events && j in b.events
    requires b.events[i].called ==> b.history[i].attempts >= 1
    requires b.events[i].trigger in b.triggers && (j == i || Tried(b, j))
    ensures var b' := Attempted(b, i, head, more, err); j in b'.events && j in b'.history && Tried(b', j)
  {
  }

  lemma AttemptedSilent(b: Book, i: Id, head: TipSet, more: bool, err: bool)
    ensures SilentBook(b, Attempted(b, i, head, more, err))
  {
  }

  lemma AttemptedSame(s: Store, head: TipSet, b: Book, i: Id, more: bool, err: bool)
    requires Has(s, head) && b.events.Keys == b.history.Keys && i in b.events && EventOk(s, head, b, i)
             && !b.history[i].gone
    ensures var b' := Attempted(b, i, head, more, err);
            Same(b, b') && Tried(b', i)
  {
    var b' := Attempted(b, i, head, more, err);
    assert b'.events.Keys == b.events.Keys && b'.history.Keys == b.history.Keys;
    forall j | j in b.events && j in b.history ensures LaterAt(b, b', j) { AttemptedLater(b, i, head, more, err, j); }
    AttemptedSilent(b, i, head, more, err);
    forall j | j in b.events && (j == i || Tried(b, j)) ensures Tried(b', j) {
      AttemptedTried(b, i, head, more, err, j);
    }
  }

  lemma AttemptedTriggers(b: Book, i: Id, head: TipSet, more: bool, err: bool)
    requires TriggersOk(b) && i in b.events && i in b.history && b.events[i].trigger in b.triggers
    ensures TriggersOk(Attempted(b, i, head, more, err))
  {
    var b', t := Attempted(b, i, head, more, err), b.events[i].trigger;
    forall at, u | at in b'.timeouts && u in b'.timeouts[at]
      ensures u in b'.triggers && b'.triggers[u].timeoutAt == Some(at)
    {
      assert at in b.timeouts && u in b.timeouts[at];
    }
  }

  lemma AttemptedKeeps(s: Store, head: TipSet, b: Book, i: Id, more: bool, err: bool, done: int)
    requires Inv(s, head, b, done) && i in b.events && !b.history[i].gone && b.history[i].triggerAt <= head.height
    ensures EventOk(s, head, b, i)
    ensures var b' := Attempted(b, i, head, more, err);
            Inv(s, head, b', done) && Same(b, b') && Tried(b', i)
  {
    assert EventOk(s, head, b, i);
    var b' := Attempted(b, i, head, more, err);
    AttemptedSame(s, head, b, i, more, err);
    AttemptedTriggers(b, i, head, more, err);
    forall th: nat, h: nat ensures QueueOk(b', th, h) { SameKeepsQueue(b, b', th, h); }
    forall j | j in b'.events ensures EventOk(s, head, b', j) {
      AttemptedKeepsEvent(s, head, b, i, more, err, j);
    }
    SameServed(b, b', done);
  }

  lemma SameKeepsQueue(b: Book, b': Book, th: nat, h: nat)
    requires Same(b, b') && QueueOk(b, th, h)
    ensures QueueOk(b', th, h)
  {
    forall i | i in Queue(b.confQueue, th, h) ensures LaterAt(b, b', i) {}
  }

  lemma SameServed(b: Book, b': Book, done: int)
    requires Same(b, b') && Served(b, done)
    ensures Served(b', done)
  {
    forall i | i in b'.events ensures TriedBy(b', i, done) {
      assert LaterAt(b, b', i) && TriedBy(b, i, done);
    }
  }

  // The handlers of several events are called in turn.
  ghost predicate Turns(books: seq<Book>, ids: seq<Id>, head: TipSet) {
    && |books| == |ids| + 1
    && forall k | 0 <= k < |ids| :: TurnAt(books, ids, head, k)
  }

  ghost predicate TurnAt(books: seq<Book>, ids: seq<Id>, head: TipSet, k: nat)
    requires k < |ids| == |books| - 1
  {
    OneTurn(books[k], ids[k], head, books[k + 1])
  }

  ghost predicate OneTurn(b: Book, i: Id, head: TipSet, b': Book) {
    exists more, err :: b' == Attempted(b, i, head, more, err)
  }

  lemma TurnsExtend(books: seq<Book>, ids: seq<Id>, head: TipSet, i: Id, b: Book)
    requires Turns(books, ids, head) && OneTurn(books[|ids|], i, head, b)
    ensures Turns(books + [b], ids + [i], head)
  {
    forall k | 0 <= k < |ids| + 1 ensures TurnAt(books + [b], ids + [i], head, k) {
      assert k < |ids| ==> TurnAt(books, ids, head, k);
    }
  }

  // Every event is on record and has its trigger.
  ghost predicate Known(b: Book) {
    && b.events.Keys == b.history.Keys
    && forall i | i in b.events :: b.events[i].trigger in b.triggers
  }

  lemma InvKnown(s: Store, head: TipSet, b: Book, at: nat, done: int)
    requires Inv(s, head, b, done)
    ensures Known(b)
    ensures forall m: nat, i | i in Queue(b.confQueue, at, m) :: i in b.events
  {
    forall m: nat, i | i in Queue(b.confQueue, at, m) ensures i in b.events {
      QueueMember(s, head, b, at, m, i, done);
    }
    forall i | i in b.events ensures b.events[i].trigger in b.triggers { assert EventOk(s, head, b, i); }
  }

  lemma AttemptedKnown(b: Book, i: Id, head: TipSet)
    requires Known(b)
    ensures forall more, err ::
              var b' := Attempted(b, i, head, more, err);
              Known(b') && b'.events.Keys == b.events.Keys && b'.triggers.Keys == b.triggers.Keys
  {
  }

  ghost predicate Due(b: Book, i: Id, head: TipSet) {
    i in b.events && i in b.history && !b.history[i].gone && b.history[i].triggerAt <= head.height
  }

  ghost predicate AllTried(b: Book, ids: seq<Id>) {
    forall i | i in ids :: i in b.events && i in b.history && Tried(b, i)
  }

  lemma AllTriedStays(b: Book, b': Book, ids: seq<Id>, i: Id)
    requires AllTried(b, ids) && Same(b, b') && i in b'.events && i in b'.history && Tried(b', i)
    ensures AllTried(b', ids + [i])
  {
  }

  // The book after some turns, the events of which have been tried.
  ghost predicate Turned(s: Store, head: TipSet, a: Book, b: Book, ids: seq<Id>, done: int) {
    Inv(s, head, b, done) && Same(a, b) && AllTried(b, ids)
  }

  lemma TurnKeeps(s: Store, head: TipSet, a: Book, b: Book, b': Book, ids: seq<Id>, i: Id, done: int)
    requires Turned(s, head, a, b, ids, done) && Due(a, i, head) && OneTurn(b, i, head, b')
    ensures Turned(s, head, a, b', ids + [i], done)
  {
    var more, err :| b' == Attempted(b, i, head, more, err);
    AttemptedKeeps(s, head, b, i, more, err, done);
    SameTransitive(a, b, b');
    AllTriedStays(b, b', ids, i);
  }

  lemma OneMoreTurn(s: Store, head: TipSet, a: Book, b: Book, b': Book, ids: seq<Id>, i: Id, ids': seq<Id>, done: int)
    requires Turned(s, head, a, b, ids, done) && Due(a, i, head) && OneTurn(b, i, head, b') && ids' == ids + [i]
    ensures Turned(s, head, a, b', ids', done)
  {
    TurnKeeps(s, head, a, b, b', ids, i, done);
  }

  lemma NoTurn(s: Store, head: TipSet, b: Book, done: int)
    requires Inv(s, head, b, done)
    ensures Turned(s, head, b, b, [], done)
  {
  }

  lemma {:induction false} TurnsKeep(s: Store, head: TipSet, books: seq<Book>, ids: seq<Id>, done: int, k: nat)
    requires Turns(books, ids, head) && k <= |ids|
    requires Inv(s, head, books[0], done) && forall i | i in ids :: Due(books[0], i, head)
    ensures Turned(s, head, books[0], books[k], ids[..k], done)
  {
    if k == 0 {
      NoTurn(s, head, books[0], done);
      assert ids[..0] == [];
    } else {
      TurnsKeep(s, head, books, ids, done, k - 1);
      assert TurnAt(books, ids, head, k - 1);
      PrefixNext(ids, k);
      OneMoreTurn(s, head, books[0], books[k - 1], books[k], ids[..k - 1], ids[k - 1], ids[..k], done);
    }
  }

  // Trying every event queued for a height serves that height.
  lemma HeightServed(s: Store, head: TipSet, at: nat, books: seq<Book>, ids: seq<Id>)
    requires Turns(books, ids, head) && Inv(s, head, books[0], at - 1) && at <= head.height
    requires forall i | i in ids :: exists m: nat :: i in Queue(books[0].confQueue, at, m)
    requires forall m: nat, i | i in Queue(books[0].confQueue, at, m) :: i in ids
    ensures Inv(s, head, books[|ids|], at) && Same(books[0], books[|ids|])
  {
    var b, b' := books[0], books[|ids|];
    forall i | i in ids ensures Due(b, i, head) {
      var m: nat :| i in Queue(b.confQueue, at, m);
      QueueMember(s, head, b, at, m, i, at - 1);
    }
    TurnsKeep(s, head, books, ids, at - 1, |ids|);
    assert ids[..|ids|] == ids;
    forall i | i in b'.events ensures TriedBy(b', i, at) {
      assert EventOk(s, head, b', i) && TriedBy(b', i, at - 1);
      if !b'.history[i].gone && b'.history[i].triggerAt == at {
        assert i in Queue(b.confQueue, at, b'.events[i].tipset.height);
      }
    }
  }

  // Timeouts only disable triggers.
  ghost predicate Quieter(b: Book, b': Book) {
    && b' == b.(triggers := b'.triggers) && b'.triggers.Keys == b.triggers.Keys
    && forall t | t in b.triggers ::
         b'.triggers[t] == b.triggers[t]
           || (!b.triggers[t].disabled && b'.triggers[t] == b.triggers[t].(disabled := true))
  }

  lemma QuieterStep(b: Book, b': Book, t: Id, disabled: bool)
    requires Quieter(b, b') && t in b.triggers && b'.triggers[t] == b.triggers[t] && !b.triggers[t].disabled
    ensures Quieter(b, b'.(triggers := b'.triggers[t := b'.triggers[t].(disabled := disabled)]))
  {
  }

  lemma QuieterKeeps(s: Store, head: TipSet, b: Book, b': Book, done: int)
    requires Inv(s, head, b, done) && Quieter(b, b')
    ensures Inv(s, head, b', done)
  {
    forall th: nat, h: nat ensures QueueOk(b', th, h) { assert QueueOk(b, th, h); }
    forall i | i in b'.events ensures EventOk(s, head, b', i) { assert EventOk(s, head, b, i); }
    forall i | i in b'.events ensures TriedBy(b', i, done) {
      assert TriedBy(b, i, done);
    }
  }

  lemma QuieterLater(b: Book, b': Book)
    requires Quieter(b, b')
    ensures Onward(b, b')
  {
    forall j | j in b.events && j in b.history ensures LaterAt(b, b', j) {}
  }

  function Registered(b: Book, id: Id, t: Trigger): Book {
    var touts: map<Id, nat> :=
      if t.timeoutAt.Some? && t.timeoutAt.value in b.timeouts then b.timeouts[t.timeoutAt.value] else map[];
    var touts': map<Id, nat> := touts[id := 0];
    b.(triggers := b.triggers[id := t],
       timeouts := if t.timeoutAt.Some? then b.timeouts[t.timeoutAt.value := touts'] else b.timeouts)
  }

  lemma RegisteredKeeps(s: Store, head: TipSet, b: Book, id: Id, t: Trigger, done: int)
    requires Inv(s, head, b, done) && id !in b.triggers
    ensures Inv(s, head, Registered(b, id, t), done)
  {
    var b' := Registered(b, id, t);
    forall th: nat, h: nat ensures QueueOk(b', th, h) { assert QueueOk(b, th, h); }
    forall i | i in b'.events ensures EventOk(s, head, b', i) { RegisteredKeepsEvent(s, head, b, id, t, i); }
    RegisteredTriggers(b, id, t);
    forall i | i in b'.events ensures TriedBy(b', i, done) {
      assert TriedBy(b, i, done) && EventOk(s, head, b, i);
    }
  }

  lemma RegisteredTriggers(b: Book, id: Id, t: Trigger)
    requires TriggersOk(b) && id !in b.triggers
    ensures TriggersOk(Registered(b, id, t))
  {
  }

  lemma RegisteredKeepsEvent(s: Store, head: TipSet, b: Book, id: Id, t: Trigger, i: Id)
    requires Has(s, head) && i in b.events && i in b.history && EventOk(s, head, b, i) && id !in b.triggers
    ensures EventOk(s, head, Registered(b, id, t), i)
  {
  }

  // The trigger waits for this height, has had no call and is not disabled.
  ghost predicate TimesOut(timeouts: map<nat, map<Id, nat>>, triggers: map<Id, Trigger>, at: nat, t: Id) {
    at in timeouts && t in timeouts[at] && timeouts[at][t] == 0 && t in triggers && !triggers[t].disabled
  }

  // No timeout is due for a trigger that has had an event handled.
  lemma UncountedUnhandled(s: Store, head: TipSet, b: Book, at: nat, t: Id, done: int)
    requires Inv(s, head, b, done) && at in b.timeouts && t in b.timeouts[at] && b.timeouts[at][t] == 0
    ensures forall i | i in b.events && b.events[i].trigger == t :: !b.events[i].called
  {
    forall i | i in b.events && b.events[i].trigger == t ensures !b.events[i].called {
      assert EventOk(s, head, b, i);
    }
  }

  lemma ApplyMoves(s: Store, from: TipSet, to: TipSet, b: Book, done: int)
    requires Inv(s, from, b, done) && Has(s, to) && to.height > 0 && Parent(s, to) == from
    ensures Inv(s, to, b, done)
  {
    forall i | i in b.events ensures EventOk(s, to, b, i) {
      assert EventOk(s, from, b, i);
      assert Chain(s, to) == [to] + Chain(s, from);
    }
  }

  // ---------------------------------------------------------------------
  // Applying a tipset

  // The matches of a tipset: state changes, which know the tipset before, then calls.
  function Matches(from: TipSet, stateChanges: seq<(Id, nat)>, newCalls: seq<(Id, nat)>): seq<Match> {
    seq(|stateChanges| + |newCalls|, k requires 0 <= k < |stateChanges| + |newCalls| =>
      if k < |stateChanges| then Match(stateChanges[k].0, stateChanges[k].1, Some(from))
      else Match(newCalls[k - |stateChanges|].0, newCalls[k - |stateChanges|].1, None))
  }

  // The events of these matches, from this identity on.
  ghost predicate NewEvents(before: map<Id, Event>, first: Id, ms: seq<Match>, ts: TipSet, after: map<Id, Event>) {
    forall i: Id :: NewAt(before, first, ms, ts, after, i)
  }

  ghost predicate NewAt(before: map<Id, Event>, first: Id, ms: seq<Match>, ts: TipSet, after: map<Id, Event>, i: Id) {
    && (i in after <==> i in before || first <= i < first + |ms|)
    && (i in after && first <= i < first + |ms| ==> after[i] == EventOf(ms[i - first], ts).(called := after[i].called))
  }

  ghost predicate KnownMatches(b: Book, ms: seq<Match>) {
    forall m | m in ms :: m.trigger in b.triggers
  }

  lemma MatchesKnown(b: Book, from: TipSet, stateChanges: seq<(Id, nat)>, newCalls: seq<(Id, nat)>)
    requires forall c | c in stateChanges + newCalls :: c.0 in b.triggers
    ensures KnownMatches(b, Matches(from, stateChanges, newCalls))
  {
    var all, ms := stateChanges + newCalls, Matches(from, stateChanges, newCalls);
    assert forall k | 0 <= k < |all| :: all[k] in all && ms[k].trigger == all[k].0;
  }

  function QueuedAll(b: Book, ms: seq<Match>, ts: TipSet): (r: Book)
    requires KnownMatches(b, ms)
    ensures r.triggers == b.triggers
  {
    if ms == [] then b else Queued(QueuedAll(b, ms[..|ms| - 1], ts), ms[|ms| - 1], ts)
  }

  lemma {:induction false} QueuedAllKeeps(s: Store, b: Book, ms: seq<Match>, ts: TipSet, done: int)
    requires Inv(s, ts, b, done) && done < ts.height && KnownMatches(b, ms)
    ensures Inv(s, ts, QueuedAll(b, ms, ts), done)
  {
    if ms != [] {
      var n := |ms| - 1;
      QueuedAllKeeps(s, b, ms[..n], ts, done);
      QueuedKeeps(s, QueuedAll(b, ms[..n], ts), ms[n], ts, done);
    }
  }

  lemma QueuedAllNext(b: Book, ms: seq<Match>, k: nat, ts: TipSet)
    requires KnownMatches(b, ms) && k < |ms|
    ensures QueuedAll(b, ms[..k + 1], ts) == Queued(QueuedAll(b, ms[..k], ts), ms[k], ts)
  {
    assert ms[..k + 1][..k] == ms[..k];
  }

  // What queueing the matches does to one event.
  ghost predicate QueuedAt(b: Book, r: Book, ms: seq<Match>, ts: TipSet, i: Id) {
    && (i in r.events <==> i in b.events || b.allocs <= i < b.allocs + |ms|)
    && (i in r.history <==> i in b.history || b.allocs <= i < b.allocs + |ms|)
    && (i < b.allocs && i in b.events && i in r.events ==> r.events[i] == b.events[i])
    && (i < b.allocs && i in b.history && i in r.history ==> r.history[i] == b.history[i])
    && (b.allocs <= i < b.allocs + |ms| && i in r.events ==> r.events[i] == EventOf(ms[i - b.allocs], ts))
  }

  lemma {:induction false} QueuedAllAt(b: Book, ms: seq<Match>, ts: TipSet, i: Id)
    requires KnownMatches(b, ms)
    ensures QueuedAll(b, ms, ts).allocs == b.allocs + |ms| && QueuedAt(b, QueuedAll(b, ms, ts), ms, ts, i)
  {
    if ms != [] { QueuedAllAt(b, ms[..|ms| - 1], ts, i); }
  }

  lemma {:induction false} QueuedAllAttempts(b: Book, ms: seq<Match>, ts: TipSet, j: Id)
    requires KnownMatches(b, ms) && forall i | i in b.events :: i < b.allocs
    ensures Attempts(QueuedAll(b, ms, ts), j) == Attempts(b, j)
  {
    if ms != [] {
      QueuedAllAttempts(b, ms[..|ms| - 1], ts, j);
      QueuedAllAt(b, ms[..|ms| - 1], ts, j);
    }
  }

  lemma QueuedAllSilent(b: Book, ms: seq<Match>, ts: TipSet)
    requires KnownMatches(b, ms) && forall i | i in b.events :: i < b.allocs
    ensures SilentBook(b, QueuedAll(b, ms, ts))
  {
    forall j ensures SilentAt(b, QueuedAll(b, ms, ts), j) { QueuedAllAttempts(b, ms, ts, j); }
  }

  lemma QueuedAllLater(b: Book, ms: seq<Match>, ts: TipSet)
    requires KnownMatches(b, ms) && forall i | i in b.events :: i < b.allocs
    ensures Onward(b, QueuedAll(b, ms, ts))
  {
    var r := QueuedAll(b, ms, ts);
    QueuedAllSilent(b, ms, ts);
    forall j | j in b.events && j in b.history ensures LaterAt(b, r, j) { QueuedAllAt(b, ms, ts, j); }
  }

  lemma QueuedAllNew(b: Book, ms: seq<Match>, ts: TipSet)
    requires KnownMatches(b, ms)
    ensures QueuedAll(b, ms, ts).allocs == b.allocs + |ms|
    ensures NewEvents(b.events, b.allocs, ms, ts, QueuedAll(b, ms, ts).events)
  {
    var r := QueuedAll(b, ms, ts);
    QueuedAllAt(b, ms, ts, 0);
    forall i: Id ensures NewAt(b.events, b.allocs, ms, ts, r.events, i) { QueuedAllAt(b, ms, ts, i); }
  }

  // New events stay what they are while handlers are called.
  lemma NewEventsLater(before: map<Id, Event>, first: Id, ms: seq<Match>, ts: TipSet, b: Book, b': Book)
    requires NewEvents(before, first, ms, ts, b.events) && LaterBook(b, b')
    requires b.events.Keys == b'.events.Keys == b.history.Keys
    ensures NewEvents(before, first, ms, ts, b'.events)
  {
    forall i: Id ensures NewAt(before, first, ms, ts, b'.events, i) {
      assert NewAt(before, first, ms, ts, b.events, i);
      if i in b.events { assert LaterAt(b, b', i); }
    }
  }

  // ---------------------------------------------------------------------
  // Reverting a tipset

  function Withdraw(h: History, called: bool): History {
    h.(gone := true, reverts := if called then h.reverts + 1 else h.reverts)
  }

  // The events queued under th for tipset height m are withdrawn.
  ghost function Withdrawn(b: Book, th: nat, m: nat): Book
    requires b.events.Keys == b.history.Keys
  {
    var q := Queue(b.confQueue, th, m);
    b.(confQueue := if th in b.confQueue then b.confQueue[th := b.confQueue[th] - {m}] else b.confQueue,
       history := map i | i in b.history :: if i in q then Withdraw(b.history[i], b.events[i].called) else b.history[i])
  }

  lemma WithdrawnQueue(b: Book, th: nat, m: nat, t: nat, h: nat)
    requires b.events.Keys == b.history.Keys
    ensures Queue(Withdrawn(b, th, m).confQueue, t, h) == if t == th && h == m then [] else Queue(b.confQueue, t, h)
  {
  }

  lemma WithdrawnKeepsEvent(s: Store, head: TipSet, b: Book, th: nat, m: nat, i: Id)
    requires Has(s, head) && b.events.Keys == b.history.Keys && QueueOk(b, th, m)
    requires i in b.events && EventOk(s, head, b, i)
    ensures EventOk(s, head, Withdrawn(b, th, m), i)
  {
    var b', e, h := Withdrawn(b, th, m), b.events[i], b.history[i];
    WithdrawnQueue(b, th, m, h.triggerAt, e.tipset.height);
    if i in Queue(b.confQueue, th, m) {
      assert b'.history[i] == Withdraw(h, e.called);
    } else {
      assert b'.history[i] == h;
    }
  }

  lemma WithdrawnKeepsQueue(b: Book, th: nat, m: nat, t: nat, h: nat)
    requires b.events.Keys == b.history.Keys && QueueOk(b, t, h)
    ensures QueueOk(Withdrawn(b, th, m), t, h)
  {
    WithdrawnQueue(b, th, m, t, h);
  }

  lemma WithdrawnServed(b: Book, th: nat, m: nat, done: int)
    requires b.events.Keys == b.history.Keys && Served(b, done)
    ensures Served(Withdrawn(b, th, m), done)
  {
    var b' := Withdrawn(b, th, m);
    forall i | i in b'.events ensures TriedBy(b', i, done) {
      assert TriedBy(b, i, done);
    }
  }

  lemma WithdrawnKeeps(s: Store, head: TipSet, b: Book, th: nat, m: nat, done: int)
    requires Inv(s, head, b, done)
    ensures Inv(s, head, Withdrawn(b, th, m), done)
  {
    var b' := Withdrawn(b, th, m);
    forall t: nat, h: nat ensures QueueOk(b', t, h) { WithdrawnKeepsQueue(b, th, m, t, h); }
    assert QueueOk(b, th, m);
    forall i | i in b'.events ensures EventOk(s, head, b', i) { WithdrawnKeepsEvent(s, head, b, th, m, i); }
    WithdrawnServed(b, th, m, done);
    WithdrawnTriggers(b, th, m);
  }

  lemma WithdrawnTriggers(b: Book, th: nat, m: nat)
    requires TriggersOk(b) && b.events.Keys == b.history.Keys
    ensures TriggersOk(Withdrawn(b, th, m))
  {
  }

  // What has been withdrawn between b and b' was queued for height m.
  ghost predicate Withdrawing(b: Book, b': Book, m: nat) {
    && b'.events == b.events && b'.history.Keys == b.history.Keys && b.events.Keys == b.history.Keys
    && forall i | i in b.history ::
         || b'.history[i] == b.history[i]
         || (!b.history[i].gone && b.events[i].tipset.height == m
           && b'.history[i] == Withdraw(b.history[i], b.events[i].called))
  }

  lemma WithdrawingTransitive(a: Book, b: Book, c: Book, m: nat)
    requires Withdrawing(a, b, m) && Withdrawing(b, c, m)
    ensures Withdrawing(a, c, m)
  {
  }

  // Exactly the events of the tipset have been withdrawn.
  ghost predicate TipsetWithdrawn(b: Book, b': Book, from: TipSet) {
    && b'.events == b.events && b'.history.Keys == b.history.Keys && b.events.Keys == b.history.Keys
    && forall i | i in b.events ::
         b'.history[i] ==
         if !b.history[i].gone && b.events[i].tipset == from then Withdraw(b.history[i], b.events[i].called)
                          else b.history[i]
  }

  lemma AllWithdrawn(s: Store, from: TipSet, b: Book, b': Book)
    requires Inv(s, from, b, from.height) && Inv(s, from, b', from.height) && Withdrawing(b, b', from.height)
    requires forall th: nat :: Queue(b'.confQueue, th, from.height) == []
    ensures TipsetWithdrawn(b, b', from)
  {
    forall i | i in b.events && !b.history[i].gone
      ensures b'.history[i] ==
              if b.events[i].tipset == from then Withdraw(b.history[i], b.events[i].called) else b.history[i]
    {
      assert EventOk(s, from, b, i) && EventOk(s, from, b', i);
      ChainBelow(s, b.events[i].tipset, from);
      if b.events[i].tipset == from { assert Queue(b'.confQueue, b'.history[i].triggerAt, from.height) == []; }
    }
  }

  lemma WithdrawnLater(b: Book, b': Book, from: TipSet)
    requires TipsetWithdrawn(b, b', from) && b'.triggers == b.triggers
    ensures Onward(b, b')
  {
    forall j | j in b.events && j in b.history ensures LaterAt(b, b', j) {}
  }

  // Once nothing is queued for the reverted tipset any more, its parent is the head.
  lemma RevertMoves(s: Store, from: TipSet, b: Book)
    requires Inv(s, from, b, from.height) && from.height > 0
    requires forall th: nat :: Queue(b.confQueue, th, from.height) == []
    ensures Inv(s, Parent(s, from), b.(revertQueue := b.revertQueue - {from.height}), Parent(s, from).height)
  {
    var to, b' := Parent(s, from), b.(revertQueue := b.revertQueue - {from.height});
    forall th: nat, m: nat ensures QueueOk(b', th, m) { assert QueueOk(b, th, m); }
    forall i | i in b'.events ensures EventOk(s, to, b', i) {
      assert EventOk(s, from, b, i);
      assert Chain(s, from) == [from] + Chain(s, to);
    }
    forall i | i in b'.events ensures TriedBy(b', i, to.height) {
      assert TriedBy(b, i, from.height);
    }
  }

  // ---------------------------------------------------------------------
  // The observer

  // ---------------------------------------------------------------------
  // Timeouts

  // Some event of the trigger has been handled.
  ghost predicate HadEvent(b: Book, t: Id) {
    exists i :: i in b.events && b.events[i].trigger == t && b.events[i].called
  }

  ghost predicate DeservedAt(b: Book, t: Id)
    requires t in b.triggers
  {
    var at := b.triggers[t].timeoutAt;
    at.Some? && at.value in b.timeouts && t in b.timeouts[at.value] && b.timeouts[at.value][t] > 0 ==> HadEvent(b, t)
  }

  // Calls are counted only for events that were handled.
  ghost predicate Deserved(b: Book) {
    forall t | t in b.triggers :: DeservedAt(b, t)
  }

  ghost function Deadlines(b: Book): map<Id, Option<nat>> {
    map t | t in b.triggers :: b.triggers[t].timeoutAt
  }

  lemma HadEventStays(b: Book, b': Book, t: Id)
    requires LaterBook(b, b') && b.events.Keys == b.history.Keys && HadEvent(b, t)
    ensures HadEvent(b', t)
  {
    var i :| i in b.events && b.events[i].trigger == t && b.events[i].called;
    assert LaterAt(b, b', i);
  }

  lemma DeservedStays(b: Book, b': Book)
    requires Deserved(b) && LaterBook(b, b') && b.events.Keys == b.history.Keys
    requires b'.timeouts == b.timeouts && Deadlines(b') == Deadlines(b)
    ensures Deserved(b')
  {
    forall t | t in b'.triggers ensures DeservedAt(b', t) {
      assert t in Deadlines(b) && Deadlines(b)[t] == b'.triggers[t].timeoutAt;
      assert DeservedAt(b, t);
      if HadEvent(b, t) { HadEventStays(b, b', t); }
    }
  }

  lemma QuieterDeadlines(b: Book, b': Book)
    requires Quieter(b, b')
    ensures Deadlines(b') == Deadlines(b)
  {
  }

  lemma RegisteredDeserved(b: Book, id: Id, t: Trigger)
    requires Deserved(b) && id !in b.triggers
    ensures Deserved(Registered(b, id, t))
  {
    var b' := Registered(b, id, t);
    forall u | u in b'.triggers ensures DeservedAt(b', u) {
      if u != id {
        assert DeservedAt(b, u);
        assert b'.events == b.events;
      }
    }
  }

  lemma AttemptedDeadlines(b: Book, i: Id, head: TipSet, more: bool, err: bool)
    ensures Deadlines(Attempted(b, i, head, more, err)) == Deadlines(b)
  {
  }

  lemma CountedOnce(timeouts: map<nat, map<Id, nat>>, at: Option<nat>, t: Id, h: nat, u: Id)
    requires u != t
    ensures var after := CountCall(timeouts, at, t);
            && (h in after && u in after[h] <==> h in timeouts && u in timeouts[h])
            && (h in timeouts && u in timeouts[h] ==> after[h][u] == timeouts[h][u])
  {
  }

  lemma AttemptedDeserved(b: Book, i: Id, head: TipSet, more: bool, err: bool)
    requires Deserved(b) && Known(b) && i in b.events
    ensures Deserved(Attempted(b, i, head, more, err))
  {
    var b' := Attempted(b, i, head, more, err);
    var trigger := b.events[i].trigger;
    AttemptedDeadlines(b, i, head, more, err);
    forall t | t in b'.triggers ensures DeservedAt(b', t) {
      assert t in Deadlines(b) && Deadlines(b)[t] == b'.triggers[t].timeoutAt;
      assert DeservedAt(b, t);
      if t != trigger {
        if b'.triggers[t].timeoutAt.Some? {
          CountedOnce(b.timeouts, b.triggers[trigger].timeoutAt, trigger, b'.triggers[t].timeoutAt.value, t);
        }
        if j :| j in b.events && b.events[j].trigger == t && b.events[j].called {
          assert b'.events[j] == b.events[j];
        }
      } else if b' != b && !err {
        assert b'.events[i].trigger == t && b'.events[i].called;
      }
    }
  }

  lemma TurnDeserved(b: Book, i: Id, head: TipSet, b': Book)
    requires OneTurn(b, i, head, b') && Deserved(b) && Known(b) && i in b.events
    ensures Deserved(b') && Known(b') && b'.events.Keys == b.events.Keys && Deadlines(b') == Deadlines(b)
  {
    var more, err :| b' == Attempted(b, i, head, more, err);
    AttemptedDeserved(b, i, head, more, err);
    AttemptedDeadlines(b, i, head, more, err);
    AttemptedKnown(b, i, head);
  }

  lemma {:induction false} TurnsDeserved(books: seq<Book>, ids: seq<Id>, head: TipSet, k: nat)
    requires Turns(books, ids, head) && k <= |ids| && Deserved(books[0]) && Known(books[0])
    requires forall i | i in ids :: i in books[0].events
    ensures Deserved(books[k]) && Known(books[k]) && books[k].events.Keys == books[0].events.Keys
    ensures Deadlines(books[k]) == Deadlines(books[0])
  {
    if k > 0 {
      TurnsDeserved(books, ids, head, k - 1);
      assert TurnAt(books, ids, head, k - 1);
      assert ids[k - 1] in ids;
      TurnDeserved(books[k - 1], ids[k - 1], head, books[k]);
    }
  }

  // The trigger's deadline is above lo and not above hi.
  ghost predicate ExpiresIn(b: Book, t: Id, lo: int, hi: int) {
    t in b.triggers && b.triggers[t].timeoutAt.Some? && lo < b.triggers[t].timeoutAt.value <= hi
  }

  // While the heights above lo and up to hi were gone through, these triggers were told
  // that they have timed out: each once, none with an event handled before, and every
  // one whose deadline was passed unless it has had an event or wants no more.
  ghost predicate Delivered(b: Book, b': Book, out: seq<Id>, lo: int, hi: int) {
    && Distinct(out)
    && (forall t | t in out :: ExpiresIn(b, t, lo, hi) && !HadEvent(b, t))
    && (forall t | ExpiresIn(b, t, lo, hi) :: t in out || Off(b', t) || HadEvent(b', t))
  }

  lemma NoneDelivered(b: Book, lo: int)
    ensures Delivered(b, b, [], lo, lo)
  {
  }

  // A trigger that is told at a height waits for that height and had no event.
  lemma ToldNow(s: Store, head: TipSet, start: Book, c: Book, at: nat, t: Id, done: int)
    requires Inv(s, head, c, done) && TimesOut(c.timeouts, c.triggers, at, t)
    requires LaterBook(start, c) && start.events.Keys == start.history.Keys && Deadlines(c) == Deadlines(start)
    ensures ExpiresIn(start, t, at - 1, at) && !HadEvent(start, t)
  {
    assert TimeoutOk(c, at, t) && t in Deadlines(c);
    UncountedUnhandled(s, head, c, at, t, done);
    if HadEvent(start, t) { HadEventStays(start, c, t); }
  }

  // A trigger whose deadline is this height is told, or has no need to be.
  lemma ToldOrNot(s: Store, head: TipSet, start: Book, c: Book, at: nat, t: Id, done: int)
    requires Inv(s, head, c, done) && Deserved(c) && Deadlines(c) == Deadlines(start) && ExpiresIn(start, t, at - 1, at)
    ensures TimesOut(c.timeouts, c.triggers, at, t) || Off(c, t) || HadEvent(c, t)
  {
    assert t in Deadlines(start) && Deadlines(c)[t] == c.triggers[t].timeoutAt;
    assert TriggerOk(c, t) && DeservedAt(c, t);
  }

  lemma StillNoNeed(b: Book, b': Book, t: Id)
    requires Onward(b, b') && b.events.Keys == b.history.Keys && (Off(b, t) || HadEvent(b, t))
    ensures Off(b', t) || HadEvent(b', t)
  {
    if HadEvent(b, t) { HadEventStays(b, b', t); }
  }

  lemma DistinctDisjoint(xs: seq<Id>, ys: seq<Id>)
    requires Distinct(xs) && Distinct(ys) && forall x | x in xs :: x !in ys
    ensures Distinct(xs + ys)
  {
    assert forall k | 0 <= k < |xs| :: xs[k] in xs;
  }

  /** One more height: its events are tried, which leads from b to c, then its
  timeouts are delivered, which leads to d. */
  lemma DeliveredNext(s: Store, head: TipSet, start: Book, b: Book, c: Book, d: Book, out: seq<Id>, more: seq<Id>,
                      lo: int, at: nat)
    requires Delivered(start, b, out, lo, at - 1) && lo < at && Inv(s, head, c, at) && Deserved(c)
    requires Onward(start, b) && Onward(b, c) && Onward(c, d) && LaterBook(start, c)
    requires start.events.Keys == start.history.Keys && b.events.Keys == b.history.Keys
    requires Deadlines(c) == Deadlines(start)
    requires Distinct(more) && forall t :: t in more <==> TimesOut(c.timeouts, c.triggers, at, t)
    ensures Delivered(start, d, out + more, lo, at)
  {
    forall t | t in more ensures ExpiresIn(start, t, at - 1, at) && !HadEvent(start, t) {
      ToldNow(s, head, start, c, at, t, at);
    }
    DistinctDisjoint(out, more);
    forall t | ExpiresIn(start, t, lo, at) ensures t in out + more || Off(d, t) || HadEvent(d, t) {
      if ExpiresIn(start, t, lo, at - 1) {
        if t !in out {
          StillNoNeed(b, c, t);
          StillNoNeed(c, d, t);
        }
      } else {
        ToldOrNot(s, head, start, c, at, t, at);
        if t !in more { StillNoNeed(c, d, t); }
      }
    }
  }

  // What was queued before the heights were gone through makes no difference.
  lemma DeliveredSince(a: Book, b: Book, b': Book, out: seq<Id>, lo: int, hi: int)
    requires Delivered(b, b', out, lo, hi) && LaterBook(a, b) && a.events.Keys == a.history.Keys
    requires Deadlines(a) == Deadlines(b)
    ensures Delivered(a, b', out, lo, hi)
  {
    forall t ensures ExpiresIn(a, t, lo, hi) <==> ExpiresIn(b, t, lo, hi) {
      assert t in Deadlines(a) <==> t in Deadlines(b);
      assert t in Deadlines(a) ==> Deadlines(a)[t] == Deadlines(b)[t];
    }
    forall t | t in out ensures !HadEvent(a, t) {
      if HadEvent(a, t) { HadEventStays(a, b, t); }
    }
  }

  class HcEvents {
    const store: Store
    var lastTS: TipSet
    var ctr: Id
    var triggers: map<Id, Trigger>
    var confQueue: Queues
    var revertQueue: map<nat, seq<nat>>
    var timeouts: map<nat, map<Id, nat>>
    var events: map<Id, Event>
    var allocs: Id
    ghost var history: map<Id, History>
    // The triggers that timeouts were delivered to.
    ghost var timedOut: seq<Id>

    ghost function View(): Book
      reads this
    {
      Book(triggers, confQueue, revertQueue, timeouts, events, allocs, history)
    }

    ghost predicate Valid()
      reads this
    {
      && Inv(store, lastTS, View(), lastTS.height) && Deserved(View())
      && forall t | t in triggers :: t < ctr
    }

    constructor (store: Store, head: TipSet)
      requires Has(store, head)
      ensures Valid() && this.store == store && lastTS == head
              && View() == Book(map[], map[], map[], map[], map[], 0, map[])
    {
      this.store, lastTS, ctr := store, head, 0;
      triggers, confQueue, revertQueue, timeouts, events, allocs := map[], map[], map[], map[], map[], 0;
      history, timedOut := map[], [];
    }

    // Registers a trigger, unless the initial check fails; done and more are
    // the check's answers.
    method OnHeadChanged(checkFailed: bool, done: bool, more: bool, confidence: nat, timeout: Option<nat>)
        returns (id: Option<Id>)
      requires Valid()
      modifies this`ctr, this`triggers, this`timeouts
      ensures Valid()
      ensures id.None? <==> checkFailed
      ensures id.None? ==> unchanged(this)
      ensures id.Some? ==>
                && id.value !in old(triggers)
                && View() == Registered(old(View()), id.value,
                     Trigger(confidence, if done || timeout.None? then None else Some(timeout.value + confidence),
                             !more))
    {
      if checkFailed { return None; }
      var timeoutAt := if done || timeout.None? then None else Some(timeout.value + confidence);
      var i := ctr;
      ctr := ctr + 1;
      RegisteredKeeps(store, lastTS, View(), i, Trigger(confidence, timeoutAt, !more), lastTS.height);
      RegisteredDeserved(View(), i, Trigger(confidence, timeoutAt, !more));
      triggers := triggers[i := Trigger(confidence, timeoutAt, !more)];
      if timeoutAt.Some? {
        var touts: map<Id, nat> := if timeoutAt.value in timeouts then timeouts[timeoutAt.value] else map[];
        timeouts := timeouts[timeoutAt.value := touts[i := 0]];
      }
      return Some(i);
    }

    method QueueForConfidence(m: Match, ts: TipSet)
      requires m.trigger in triggers
      modifies this`confQueue, this`revertQueue, this`events, this`history, this`allocs
      ensures View() == Queued(old(View()), m, ts)
    {
      var id := allocs;
      allocs := allocs + 1;
      var appliedH: nat := ts.height;
      var triggerH: nat := appliedH + triggers[m.trigger].confidence;
      var byOrigH: map<nat, seq<Id>> := if triggerH in confQueue then confQueue[triggerH] else map[];
      byOrigH := byOrigH[appliedH := (if appliedH in byOrigH then byOrigH[appliedH] else []) + [id]];
      confQueue := confQueue[triggerH := byOrigH];
      var queued := if appliedH in revertQueue then revertQueue[appliedH] else [];
      revertQueue := revertQueue[appliedH := queued + [triggerH]];
      events := events[id := Event(m.trigger, m.data, m.prevTipset, ts, false)];
      history := history[id := History(triggerH, [], 0, 0, false)];
    }

    // Calls the handler of one event, unless it was called or is disabled.
    // The handler answers whether it wants more events, or fails.
    method CallHandler(i: Id, ghost head: TipSet) returns (more: bool, err: bool)
      requires Known(View()) && i in events
      modifies this`triggers, this`events, this`history, this`timeouts
      ensures View() == Attempted(old(View()), i, head, more, err)
      ensures var e := old(events[i]);
              if e.called || old(triggers[e.trigger]).disabled then unchanged(this)
              else
                && history[i].attempts == old(history[i]).attempts + 1
                && (err ==> events == old(events) && triggers == old(triggers))
                && (!err ==> events[i].called && history[i].handled == old(history[i]).handled + [head]
                             && triggers[e.trigger] == old(triggers[e.trigger]).(disabled := !more))
    {
      more, err := *, *;
      var e := events[i];
      if e.called { return; }
      var trigger := triggers[e.trigger];
      if trigger.disabled { return; }
      history := history[i := history[i].(attempts := history[i].attempts + 1)];
      if err { return; }
      events := events[i := e.(called := true)];
      history := history[i := history[i].(handled := history[i].handled + [head])];
      assert history == old(history)[i := old(history)[i].(attempts := old(history)[i].attempts + 1,
                                                           handled := old(history)[i].handled + [head])];
      if trigger.timeoutAt.Some? && trigger.timeoutAt.value in timeouts {
        var touts: map<Id, nat> := timeouts[trigger.timeoutAt.value];
        var calls: nat := if e.trigger in touts then touts[e.trigger] else 0;
        timeouts := timeouts[trigger.timeoutAt.value := touts[e.trigger := calls + 1]];
      }
      triggers := triggers[e.trigger := trigger.(disabled := !more)];
    }

    // Calls the handlers of the events that waited for this height, in any order
    // of the heights they were queued at.
    method ApplyWithConfidence(at: nat, ghost head: TipSet) returns (ghost ids: seq<Id>, ghost books: seq<Book>)
      requires Known(View())
      requires forall m: nat, i | i in Queue(confQueue, at, m) :: i in events
      modifies this`triggers, this`events, this`history, this`timeouts
      ensures Turns(books, ids, head) && books[0] == old(View()) && books[|ids|] == View()
      ensures forall i | i in ids :: exists m: nat :: i in Queue(confQueue, at, m)
      ensures forall m: nat, i | i in Queue(confQueue, at, m) :: i in ids
      ensures events.Keys == old(events.Keys) && triggers.Keys == old(triggers.Keys)
    {
      ids, books := [], [View()];
      if at !in confQueue { return; }
      var byOrigH := confQueue[at];
      var rest := byOrigH.Keys;
      while rest != {}
        invariant rest <= byOrigH.Keys && Known(View())
        invariant Turns(books, ids, head) && books[0] == old(View()) && books[|ids|] == View()
        invariant events.Keys == old(events.Keys) && triggers.Keys == old(triggers.Keys)
        invariant forall i | i in ids :: exists m: nat :: i in Queue(confQueue, at, m)
        invariant forall m: nat, i | m in byOrigH && m !in rest && i in byOrigH[m] :: i in ids
        decreases |rest|
      {
        var origH :| origH in rest;
        assert byOrigH[origH] == Queue(confQueue, at, origH);
        ids, books := CallAll(byOrigH[origH], head, ids, books);
        rest := rest - {origH};
      }
    }

    method CallAll(queue: seq<Id>, ghost head: TipSet, ghost ids0: seq<Id>, ghost books0: seq<Book>)
        returns (ghost ids: seq<Id>, ghost books: seq<Book>)
      requires Known(View()) && Turns(books0, ids0, head) && books0[|ids0|] == View()
      requires forall i | i in queue :: i in events
      modifies this`triggers, this`events, this`history, this`timeouts
      ensures Known(View()) && Turns(books, ids, head) && books[|ids|] == View()
      ensures ids == ids0 + queue && books[0] == books0[0]
      ensures events.Keys == old(events.Keys) && triggers.Keys == old(triggers.Keys)
    {
      ids, books := ids0, books0;
      for k := 0 to |queue|
        invariant Known(View()) && Turns(books, ids, head) && books[|ids|] == View()
        invariant ids == ids0 + queue[..k] && books[0] == books0[0]
        invariant events.Keys == old(events.Keys) && triggers.Keys == old(triggers.Keys)
      {
        AttemptedKnown(View(), queue[k], head);
        ghost var before := View();
        var more, err := CallHandler(queue[k], head);
        assert OneTurn(before, queue[k], head, View());
        TurnsExtend(books, ids, head, queue[k], View());
        ids, books := ids + [queue[k]], books + [View()];
        assert queue[..k + 1] == queue[..k] + [queue[k]];
      }
      assert queue[..|queue|] == queue;
    }

    // Delivers the timeouts of this height, in any order, to exactly the triggers
    // that are still waiting there; none of them has had an event handled.
    method ApplyTimeouts(at: nat, ghost head: TipSet, ghost done: int) returns (ghost out: seq<Id>)
      requires Inv(store, head, View(), done)
      modifies this`triggers, this`timedOut
      ensures Inv(store, head, View(), done) && Quieter(old(View()), View()) && timedOut == old(timedOut) + out
      ensures Distinct(out) && forall t :: t in out <==> TimesOut(timeouts, old(triggers), at, t)
      ensures forall i | i in events && events[i].trigger in out :: !events[i].called
    {
      ghost var before := View();
      out := [];
      if at in timeouts {
        out := DeliverTimeouts(at);
      } else {
        assert timedOut == timedOut + [];
      }
      QuieterKeeps(store, head, before, View(), done);
      forall i | i in events && events[i].trigger in out ensures !events[i].called {
        UncountedUnhandled(store, head, before, at, events[i].trigger, done);
      }
    }

    method DeliverTimeouts(at: nat) returns (ghost out: seq<Id>)
      requires at in timeouts && forall t | t in timeouts[at] :: t in triggers
      modifies this`triggers, this`timedOut
      ensures Quieter(old(View()), View()) && timedOut == old(timedOut) + out
      ensures Distinct(out) && forall t :: t in out <==> TimesOut(timeouts, old(triggers), at, t)
    {
      out := [];
      var waiting := timeouts[at];
      var rest := waiting.Keys;
      while rest != {}
        invariant rest <= waiting.Keys && Quieter(old(View()), View()) && timedOut == old(timedOut) + out
        invariant forall t | t in rest :: triggers[t] == old(triggers)[t]
        invariant Distinct(out) && forall t :: t in out <==> t !in rest && TimesOut(timeouts, old(triggers), at, t)
        decreases |rest|
      {
        var t :| t in rest;
        rest := rest - {t};
        if waiting[t] == 0 && !triggers[t].disabled {
          var more: bool, err: bool := *, *;
          assert forall u :: u in out + [t] <==> u in out || u == t;
          ConcatAssociates(old(timedOut), out, [t]);
          out, timedOut := out + [t], timedOut + [t];
          if !err {
            QuieterStep(old(View()), View(), t, !more);
            triggers := triggers[t := triggers[t].(disabled := !more)];
          }
        }
      }
    }

    method QueueMatches(ms: seq<Match>, to: TipSet)
      requires KnownMatches(View(), ms)
      modifies this`confQueue, this`revertQueue, this`events, this`history, this`allocs
      ensures View() == QueuedAll(old(View()), ms, to)
    {
      for k := 0 to |ms|
        invariant View() == QueuedAll(old(View()), ms[..k], to)
      {
        QueuedAllNext(old(View()), ms, k, to);
        QueueForConfidence(ms[k], to);
      }
      assert ms[..|ms|] == ms;
    }

    // The heights up to `done` are served, from this book on.
    ghost predicate ServedTo(to: TipSet, done: int, start: Book)
      reads this
    {
      && Inv(store, to, View(), done) && Onward(start, View()) && start.events.Keys == start.history.Keys
      && events.Keys == start.events.Keys && triggers.Keys == start.triggers.Keys && allocs == start.allocs
    }

    // The timeouts of the heights above lo and up to `done` are delivered.
    ghost predicate ToldTo(lo: int, done: int, start: Book, out: seq<Id>)
      reads this
    {
      Deserved(View()) && Deadlines(View()) == Deadlines(start) && Delivered(start, View(), out, lo, done)
    }

    method ServeHeights(from: TipSet, to: TipSet) returns (ghost out: seq<Id>)
      requires Inv(store, to, View(), from.height) && from.height < to.height && Deserved(View())
      modifies this`triggers, this`events, this`history, this`timeouts, this`timedOut
      ensures ServedTo(to, to.height, old(View())) && ToldTo(from.height, to.height, old(View()), out)
      ensures timedOut == old(timedOut) + out
    {
      var done := from.height;
      out := [];
      NoneDelivered(View(), done);
      while done < to.height
        invariant done <= to.height && ServedTo(to, done, old(View())) && ToldTo(from.height, done, old(View()), out)
        invariant from.height <= done && timedOut == old(timedOut) + out
      {
        var at := done + 1;
        ghost var more := ServeHeight(at, to, done, old(View()), from.height, out);
        ConcatAssociates(old(timedOut), out, more);
        out := out + more;
        done := at;
      }
    }

    // Queues the matches of a tipset.
    method QueueTipset(from: TipSet, to: TipSet, ms: seq<Match>)
      requires Inv(store, to, View(), from.height) && from.height < to.height && KnownMatches(View(), ms)
      modifies this`confQueue, this`revertQueue, this`events, this`history, this`allocs
      ensures Inv(store, to, View(), from.height) && Onward(old(View()), View())
      ensures allocs == old(allocs) + |ms| && NewEvents(old(events), old(allocs), ms, to, events)
    {
      ghost var before := View();
      QueueMatches(ms, to);
      QueuedAllKeeps(store, before, ms, to, from.height);
      QueuedAllLater(before, ms, to);
      QueuedAllNew(before, ms, to);
    }

    /** Applies a tipset in which the checks found these matches: exactly they are
    queued as new events, every event due by the new height is tried, and nothing
    that has happened to an event is undone. */
    method Apply(from: TipSet, to: TipSet, stateChanges: seq<(Id, nat)>, newCalls: seq<(Id, nat)>)
      requires Valid() && from == lastTS && Has(store, to) && to.height > 0 && Parent(store, to) == from
      requires forall c | c in stateChanges + newCalls :: c.0 in triggers
      modifies this
      ensures Valid() && lastTS == to && allocs == old(allocs) + |stateChanges| + |newCalls|
      ensures NewEvents(old(events), old(allocs), Matches(from, stateChanges, newCalls), to, events)
      ensures Onward(old(View()), View())
      ensures old(timedOut) <= timedOut
      ensures Delivered(old(View()), View(), timedOut[|old(timedOut)|..], from.height, to.height)
    {
      ApplyMoves(store, from, to, View(), from.height);
      ghost var before := View();
      var ms := Matches(from, stateChanges, newCalls);
      MatchesKnown(before, from, stateChanges, newCalls);
      QueueTipset(from, to, ms);
      ghost var queued := View();
      assert Deadlines(before) == Deadlines(queued);
      DeservedStays(before, queued);
      ghost var out := ServeHeights(from, to);
      ghost var served := View();
      OnwardTransitive(before, queued, served);
      DeliveredSince(before, queued, served, out, from.height, to.height);
      NewEventsLater(before.events, before.allocs, ms, to, queued, served);
      lastTS := to;
      assert View() == served && timedOut[|old(timedOut)|..] == out;
    }

    method ServeHeight(at: nat, to: TipSet, ghost done: nat, ghost start: Book, ghost lo: int, ghost out: seq<Id>)
        returns (ghost more: seq<Id>)
      requires ServedTo(to, done, start) && ToldTo(lo, done, start, out) && lo < at == done + 1 <= to.height
      modifies this`triggers, this`events, this`history, this`timeouts, this`timedOut
      ensures ServedTo(to, at, start) && ToldTo(lo, at, start, out + more) && timedOut == old(timedOut) + more
    {
      ghost var before := View();
      CallHeight(at, to, done);
      ghost var called := View();
      OnwardTransitive(start, before, called);
      more := ApplyTimeouts(at, to, at);
      QuieterLater(called, View());
      OnwardTransitive(start, called, View());
      QuieterDeadlines(called, View());
      DeservedStays(called, View());
      DeliveredNext(store, to, start, before, called, View(), out, more, lo, at);
    }

    // Calls the handlers of all events that waited for this height.
    method CallHeight(at: nat, to: TipSet, ghost done: nat)
      requires Inv(store, to, View(), done) && Deserved(View()) && at == done + 1 <= to.height
      modifies this`triggers, this`events, this`history, this`timeouts
      ensures Inv(store, to, View(), at) && Same(old(View()), View()) && triggers.Keys == old(triggers.Keys)
      ensures Deserved(View()) && Deadlines(View()) == Deadlines(old(View()))
    {
      InvKnown(store, to, View(), at, done);
      ghost var ids, books := ApplyWithConfidence(at, to);
      HeightServed(store, to, at, books, ids);
      TurnsDeserved(books, ids, to, |ids|);
    }

    // Withdraws the events queued under one trigger height for the reverted tipset.
    method WithdrawAll(th: nat, m: nat)
      requires events.Keys == history.Keys && Distinct(Queue(confQueue, th, m))
      requires forall i | i in Queue(confQueue, th, m) :: i in events
      modifies this`confQueue, this`history
      ensures View() == Withdrawn(old(View()), th, m)
    {
      var toRevert := Queue(confQueue, th, m);
      for k := 0 to |toRevert|
        invariant confQueue == old(confQueue) && history.Keys == old(history.Keys)
        invariant forall i | i in history ::
                    history[i] ==
                    if i in toRevert[..k] then Withdraw(old(history[i]), events[i].called) else old(history[i])
      {
        assert toRevert[..k + 1] == toRevert[..k] + [toRevert[k]];
        assert toRevert[k] !in toRevert[..k];
        history := history[toRevert[k] := Withdraw(history[toRevert[k]], events[toRevert[k]].called)];
      }
      assert toRevert[..|toRevert|] == toRevert;
      if th in confQueue { confQueue := confQueue[th := confQueue[th] - {m}]; }
    }

    method WithdrawTipset(from: TipSet)
      requires Inv(store, from, View(), from.height)
      modifies this`confQueue, this`history
      ensures Inv(store, from, View(), from.height) && Withdrawing(old(View()), View(), from.height)
      ensures forall th: nat :: Queue(confQueue, th, from.height) == []
    {
      var reverts := Reverts(revertQueue, from.height);
      for k := 0 to |reverts|
        invariant Inv(store, from, View(), from.height) && Withdrawing(old(View()), View(), from.height)
        invariant forall j | 0 <= j < k :: Queue(confQueue, reverts[j], from.height) == []
      {
        ghost var before := View();
        WithdrawOne(reverts[k], from);
        WithdrawingTransitive(old(View()), before, View(), from.height);
      }
      forall th: nat ensures Queue(confQueue, th, from.height) == [] {
        assert QueueOk(View(), th, from.height);
      }
    }

    /** Reverts the head to its parent: the events of the reverted tipset are
    withdrawn, and no other event is touched. */
    method Revert(from: TipSet, to: TipSet)
      requires Valid() && from == lastTS && from.height > 0 && to == Parent(store, from)
      modifies this`confQueue, this`history, this`revertQueue, this`lastTS
      ensures Valid() && lastTS == to && TipsetWithdrawn(old(View()), View(), from) && Onward(old(View()), View())
    {
      ghost var before := View();
      WithdrawTipset(from);
      AllWithdrawn(store, from, before, View());
      RevertMoves(store, from, View());
      revertQueue := revertQueue - {from.height};
      lastTS := to;
      WithdrawnLater(before, View(), from);
      DeservedStays(before, View());
    }

    method WithdrawOne(th: nat, from: TipSet)
      requires Inv(store, from, View(), from.height)
      modifies this`confQueue, this`history
      ensures Inv(store, from, View(), from.height) && Withdrawing(old(View()), View(), from.height)
      ensures forall t: nat ::
                Queue(confQueue, t, from.height) == if t == th then [] else old(Queue(confQueue, t, from.height))
    {
      ghost var before, m := View(), from.height;
      forall i | i in Queue(confQueue, th, m) ensures i in events && !history[i].gone && events[i].tipset.height == m {
        QueueMember(store, from, before, th, m, i, m);
      }
      assert QueueOk(before, th, m);
      WithdrawAll(th, from.height);
      WithdrawnKeeps(store, from, before, th, m, m);
      forall t: nat ensures Queue(confQueue, t, m) == if t == th then [] else Queue(before.confQueue, t, m) {
        WithdrawnQueue(before, th, m, t, m);
      }
    }
  }
}
