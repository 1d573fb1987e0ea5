/** How far the event loop of height handlers may jump.  Collecting garbage forgets
low heights before an apply visits them and before a revert comes back to them.
For one handler and one apply or revert of any length, with any registrations in
between and whatever has become of the other handlers, the exact condition is given
under which the handler still has what it was promised.
*/
module HeightLimits {
  import opened Wrappers
  import opened Tipsets
  import opened HeightEvents

  // The states from one idle state of the event loop to the next.
  ghost predicate IsPass(states: seq<State>, labels: seq<Label>) {
    && |states| == |labels| + 1 && |labels| > 0
    && (forall k | 0 <= k < |labels| :: IsStep(states, labels, k))
    && (forall k | 0 < k < |labels| :: !states[k].loop.Idle?)
    && states[0].loop.Idle? && states[|labels|].loop.Idle?
  }

  ghost predicate IsStep(states: seq<State>, labels: seq<Label>, k: nat)
    requires k < |labels| == |states| - 1
  {
    Possible(states[k], labels[k]) && states[k + 1] == Do(states[k], labels[k])
  }

  lemma PassStep(states: seq<State>, labels: seq<Label>, k: nat)
    requires IsPass(states, labels) && k < |labels|
    ensures Possible(states[k], labels[k]) && states[k + 1] == Do(states[k], labels[k])
    ensures states[k + 1].loop.Idle? <==> k + 1 == |labels|
  {
    assert IsStep(states, labels, k);
  }

  // The handler is where it should be for the head, and indexed at most under its own
  // heights.  Nothing is said of other handlers or of how far the head has moved.
  ghost predicate InStep(e: State, i: Id) {
    && Has(e.store, e.head) && e.loop.Idle? && i in e.handlers
    && HandlerInStep(e, e.handlers[i])
    && (forall k | i in Bucket(e.tsHeights, k) :: k == e.handlers[i].height)
    && (forall k | i in Bucket(e.triggerHeights, k) :: k == e.handlers[i].triggerAt)
  }

  ghost predicate HandlerInStep(e: State, x: Handler)
    requires Has(e.store, e.head)
  {
    && (x.phase.Registered? || x.phase.Retired?) && x.height <= x.triggerAt
    && LogOk(e.store, x.height, x.log) && InTime(x) && CalledOk(x) && Settled(e.store, x, e.head)
  }

  // Within the limits every handler that ChainAt is done with is in step, and what it
  // still waits for is indexed.
  lemma InvInStep(e: State, i: Id)
    requires Inv(e) && e.loop.Idle? && i in e.handlers
    requires e.handlers[i].phase.Registered? || e.handlers[i].phase.Retired?
    ensures InStep(e, i)
    ensures e.head.height < e.handlers[i].height ==> i in Bucket(e.tsHeights, e.handlers[i].height)
    ensures e.head.height < e.handlers[i].triggerAt && e.handlers[i].phase.Registered? ==>
              i in Bucket(e.triggerHeights, e.handlers[i].triggerAt)
  {
    assert HandlerOk(e, i, e.handlers[i]);
  }

  // ---------------------------------------------------------------------
  // One handler during an apply

  // A handler x0 is watched while `to` is applied on a head of height `base`;
  // its heights are (or are not) in the two indexes.
  datatype Watch = Watch(i: Id, x0: Handler, base: nat, to: TipSet, tipsetKept: bool, triggerKept: bool)

  ghost predicate Indexed(m: Index, i: Id, h: nat, kept: bool) {
    && (i in Bucket(m, h) <==> kept)
    && (forall k | i in Bucket(m, k) :: k == h)
  }

  ghost predicate Indexes(e: State, w: Watch) {
    Indexed(e.tsHeights, w.i, w.x0.height, w.tipsetKept)
      && Indexed(e.triggerHeights, w.i, w.x0.triggerAt, w.triggerKept)
  }

  function AfterStash(w: Watch): Handler {
    if w.tipsetKept && w.base < w.x0.height then Stashed(w.x0, w.to) else w.x0
  }

  function AfterFire(w: Watch): Handler {
    if w.triggerKept && w.base < w.x0.triggerAt then Fired(AfterStash(w), w.x0.triggerAt) else AfterStash(w)
  }

  // Where the loop stands.
  ghost predicate LoopAt(w: Watch, at: int, loaded: bool, stash: seq<Id>, fire: seq<Id>) {
    && w.base < at <= w.to.height + 1 && (loaded ==> at <= w.to.height)
    && (!loaded ==> stash == [] && fire == [])
    && (w.i in stash ==> w.tipsetKept && at == w.x0.height)
    && (w.i in fire ==> w.triggerKept && at == w.x0.triggerAt)
    && (stash != [] && at == w.x0.triggerAt && w.triggerKept ==> w.i in fire)
  }

  // What has been done with the handler there.
  ghost predicate HandlerAt(w: Watch, x: Handler, at: int, loaded: bool, stash: seq<Id>, fire: seq<Id>) {
    if at < w.x0.height || (at == w.x0.height && !loaded) then x == w.x0
    else if w.i in stash then x == w.x0 || x == AfterStash(w)
    else if at < w.x0.triggerAt || (at == w.x0.triggerAt && (!loaded || stash != [])) then x == AfterStash(w)
    else if w.i in fire then x == AfterStash(w) || x == AfterFire(w)
    else x == AfterFire(w)
  }

  ghost predicate ApplyAt(e: State, w: Watch) {
    && (w.x0.phase.Registered? || w.x0.phase.Retired?) && w.x0.height <= w.x0.triggerAt
    && e.head == w.to && e.loop.Applying? && w.i in e.handlers && Indexes(e, w)
    && LoopAt(w, e.loop.at, e.loop.loaded, e.loop.stash, e.loop.fire)
    && HandlerAt(w, e.handlers[w.i], e.loop.at, e.loop.loaded, e.loop.stash, e.loop.fire)
  }

  ghost predicate Applied(e: State, w: Watch) {
    && e.head == w.to && w.i in e.handlers
    && e.handlers[w.i] == if w.x0.height > w.to.height then w.x0
                          else if w.x0.triggerAt > w.to.height then AfterStash(w)
                          else AfterFire(w)
  }

  lemma LoadAt(w: Watch, x: Handler, at: int, stash: seq<Id>, fire: seq<Id>)
    requires w.x0.height <= w.x0.triggerAt && at <= w.to.height
    requires LoopAt(w, at, false, [], []) && HandlerAt(w, x, at, false, [], [])
    requires (w.i in stash <==> w.tipsetKept && at == w.x0.height)
             && (w.i in fire <==> w.triggerKept && at == w.x0.triggerAt)
    ensures LoopAt(w, at, true, stash, fire) && HandlerAt(w, x, at, true, stash, fire)
  {
  }

  lemma AdvanceAt(w: Watch, x: Handler, at: int)
    requires w.x0.height <= w.x0.triggerAt && LoopAt(w, at, true, [], []) && HandlerAt(w, x, at, true, [], [])
    ensures LoopAt(w, at + 1, false, [], []) && HandlerAt(w, x, at + 1, false, [], [])
  {
  }

  lemma StashAt(w: Watch, x: Handler, at: int, stash: seq<Id>, fire: seq<Id>)
    requires w.x0.height <= w.x0.triggerAt && stash != []
    requires LoopAt(w, at, true, stash, fire) && HandlerAt(w, x, at, true, stash, fire)
    ensures LoopAt(w, at, true, stash[1..], fire)
    ensures HandlerAt(w, if stash[0] == w.i then Stashed(x, w.to) else x, at, true, stash[1..], fire)
  {
    assert stash == [stash[0]] + stash[1..];
  }

  lemma FireAt(w: Watch, x: Handler, at: int, fire: seq<Id>)
    requires w.x0.height <= w.x0.triggerAt && fire != []
    requires LoopAt(w, at, true, [], fire) && HandlerAt(w, x, at, true, [], fire)
    ensures LoopAt(w, at, true, [], fire[1..])
    ensures HandlerAt(w, if fire[0] == w.i then Fired(x, at) else x, at, true, [], fire[1..])
  {
    assert fire == [fire[0]] + fire[1..];
  }

  lemma StashApplies(e: State, w: Watch)
    requires ApplyAt(e, w) && e.loop.loaded && e.loop.stash != []
    ensures ApplyAt(TurnLoop(e), w)
  {
    StashAt(w, e.handlers[w.i], e.loop.at, e.loop.stash, e.loop.fire);
  }

  lemma FireApplies(e: State, w: Watch)
    requires ApplyAt(e, w) && e.loop.loaded && e.loop.stash == [] && e.loop.fire != []
    ensures ApplyAt(TurnLoop(e), w)
  {
    FireAt(w, e.handlers[w.i], e.loop.at, e.loop.fire);
  }

  lemma MoveApplies(e: State, w: Watch)
    requires ApplyAt(e, w) && e.loop.stash == [] && e.loop.fire == [] && (e.loop.loaded || e.loop.at <= w.to.height)
    ensures ApplyAt(TurnLoop(e), w)
  {
    if e.loop.loaded {
      AdvanceAt(w, e.handlers[w.i], e.loop.at);
    } else {
      LoadAt(w, e.handlers[w.i], e.loop.at, Bucket(e.tsHeights, e.loop.at), Bucket(e.triggerHeights, e.loop.at));
    }
  }

  lemma TurnApplies(e: State, w: Watch)
    requires ApplyAt(e, w)
    ensures if TurnLoop(e).loop.Idle? then Applied(TurnLoop(e), w) else ApplyAt(TurnLoop(e), w)
  {
    if e.loop.loaded && e.loop.stash != [] {
      StashApplies(e, w);
    } else if e.loop.loaded && e.loop.fire != [] {
      FireApplies(e, w);
    } else if e.loop.loaded || e.loop.at <= w.to.height {
      MoveApplies(e, w);
    }
  }

  // Registrations of other handlers do not matter.
  lemma OtherApplies(e: State, w: Watch, l: Label)
    requires ApplyAt(e, w) && (l.Begin? || l.Section?) && Possible(e, l)
    ensures ApplyAt(Do(e, l), w)
  {
    OtherKeeps(e, l, w.i);
    OtherIndexed(e, l, w.i, w.x0.height, w.tipsetKept, w.x0.triggerAt, w.triggerKept);
  }

  lemma OtherKeeps(e: State, l: Label, i: Id)
    requires (l.Begin? || l.Section?) && Possible(e, l) && i in e.handlers && !Running(e.handlers[i])
    ensures var e' := Do(e, l);
            && e'.head == e.head && e'.loop == e.loop && e'.store == e.store
            && i in e'.handlers && e'.handlers[i] == e.handlers[i]
  {
    if l.Section? { SectionKeepsOther(e, l.id, l.outcome, i); }
  }

  lemma SectionKeepsOther(e: State, id: Id, o: Outcome, i: Id)
    requires id in e.handlers && Running(e.handlers[id]) && i in e.handlers && i != id
    ensures var e' := SectionOf(e, id, o);
            && e'.head == e.head && e'.loop == e.loop && e'.store == e.store
            && i in e'.handlers && e'.handlers[i] == e.handlers[i]
  {
  }

  lemma OtherIndexed(e: State, l: Label, i: Id, h: nat, kept: bool, t: nat, kept': bool)
    requires (l.Begin? || l.Section?) && Possible(e, l) && i in e.handlers && !Running(e.handlers[i])
    requires Indexed(e.tsHeights, i, h, kept) && Indexed(e.triggerHeights, i, t, kept')
    ensures Indexed(Do(e, l).tsHeights, i, h, kept) && Indexed(Do(e, l).triggerHeights, i, t, kept')
  {
    if l.Section? && e.handlers[l.id].phase.Checking? {
      var x := e.handlers[l.id];
      AddIndexed(e.tsHeights, i, h, kept, x.height, l.id);
      AddIndexed(e.triggerHeights, i, t, kept', x.triggerAt, l.id);
    }
  }

  lemma AddIndexed(m: Index, i: Id, h: nat, kept: bool, k: nat, id: Id)
    requires Indexed(m, i, h, kept) && id != i
    ensures Indexed(Add(m, k, id), i, h, kept)
  {
    forall j ensures i in Bucket(Add(m, k, id), j) <==> i in Bucket(m, j) { AddBucket(m, k, id, j); }
  }

  // ---------------------------------------------------------------------
  // A whole apply

  predicate Collects(e: State, to: TipSet) {
    to.height >= e.lastGc + e.gc * 2
  }

  ghost function WatchOf(e: State, to: TipSet, i: Id): Watch
    requires i in e.handlers
  {
    var x, e' := e.handlers[i], HeadUpdated(e, to);
    Watch(i, x, e.head.height, to, i in Bucket(e'.tsHeights, x.height), i in Bucket(e'.triggerHeights, x.triggerAt))
  }

  // Whether a height of the gap is in the index when the loop comes to it.
  ghost predicate Stays(e: State, to: TipSet, m: Index, h: nat, i: Id) {
    i in Bucket(m, h) && (Collects(e, to) ==> to.height <= h + e.gc)
  }

  lemma StaysInGap(e: State, to: TipSet, i: Id)
    requires i in e.handlers
    ensures var w := WatchOf(e, to, i);
            && (w.tipsetKept <==> Stays(e, to, e.tsHeights, w.x0.height, i))
            && (w.triggerKept <==> Stays(e, to, e.triggerHeights, w.x0.triggerAt, i))
  {
    KeepFromBucket(e.tsHeights, to.height - e.gc);
    KeepFromBucket(e.triggerHeights, to.height - e.gc);
  }

  // Moving the head does not index the handler anywhere new.
  lemma NothingNew(e: State, to: TipSet, i: Id)
    requires InStep(e, i)
    ensures var e' := HeadUpdated(e, to);
            && (forall k | i in Bucket(e'.tsHeights, k) :: k == e.handlers[i].height)
            && (forall k | i in Bucket(e'.triggerHeights, k) :: k == e.handlers[i].triggerAt)
  {
    KeepFromBucket(e.tsHeights, to.height - e.gc);
    KeepFromBucket(e.triggerHeights, to.height - e.gc);
  }

  lemma StartApplies(e: State, to: TipSet, i: Id)
    requires InStep(e, i) && Possible(e, StartApply(to))
    ensures ApplyAt(Do(e, StartApply(to)), WatchOf(e, to, i))
  {
    NothingNew(e, to, i);
  }

  lemma StepApplies(e: State, w: Watch, l: Label)
    requires ApplyAt(e, w) && Possible(e, l)
    ensures Do(e, l).store == e.store
    ensures if Do(e, l).loop.Idle? then Applied(Do(e, l), w) else ApplyAt(Do(e, l), w)
  {
    if l.Turn? {
      TurnApplies(e, w);
    } else {
      OtherApplies(e, w, l);
      OtherKeeps(e, l, w.i);
    }
  }

  lemma {:induction false} PassApplies(states: seq<State>, labels: seq<Label>, to: TipSet, i: Id, k: nat)
    requires IsPass(states, labels) && labels[0] == StartApply(to) && 0 < k <= |labels| && InStep(states[0], i)
    ensures states[k].store == states[0].store
    ensures var w := WatchOf(states[0], to, i);
            if k < |labels| then ApplyAt(states[k], w) else Applied(states[k], w)
  {
    PassStep(states, labels, k - 1);
    if k == 1 {
      StartApplies(states[0], to, i);
    } else {
      PassApplies(states, labels, to, i, k - 1);
      StepApplies(states[k - 1], WatchOf(states[0], to, i), labels[k - 1]);
    }
  }

  /** Whether a handler gets what it was promised when `to` is applied: if it is due in
  the gap and has not been called, its trigger height must stay in the index and, if
  its own height lies in the gap too, so must that, unless a previous lookup left it
  with this very tipset. */
  ghost predicate ServedInGap(e: State, to: TipSet, i: Id)
    requires i in e.handlers
  {
    var x := e.handlers[i];
    e.head.height < x.triggerAt <= to.height && !x.called ==>
      && Stays(e, to, e.triggerHeights, x.triggerAt, i)
      && (e.head.height < x.height ==> Stays(e, to, e.tsHeights, x.height, i) || x.ts == Some(to))
  }

  // A handler that was not due keeps its promise.
  lemma NotDueKeeps(e: State, e': State, x: Handler, y: Handler)
    requires Has(e.store, e.head) && Has(e.store, e'.head) && e'.store == e.store
    requires e'.head.height > 0 && Parent(e.store, e'.head) == e.head
    requires Settled(e.store, x, e.head) && LogOk(e.store, x.height, x.log) && InTime(x) && CalledOk(x)
    requires x.height <= x.triggerAt
    requires x.called || e'.head.height < x.triggerAt
    requires y == x.(ts := y.ts)
    ensures Promise(e', y)
  {
    LinkKeepsLowest(e.store, e'.head, x.height);
    if x.called { AtOrAboveIsLowest(e.store, e'.head, x.height); }
  }

  // Calling a handler keeps the promise exactly if it has the right tipset.
  lemma FiredKeeps(e': State, x: Handler)
    requires Has(e'.store, e'.head) && e'.loop.Idle? && (x.phase.Registered? || x.phase.Retired?)
    requires !x.called && CalledOk(x)
    requires LogOk(e'.store, x.height, x.log) && InTime(x) && x.height <= x.triggerAt <= e'.head.height
    ensures Promise(e', Fired(x, x.triggerAt)) <==> x.ts == Some(AtOrAbove(e'.store, e'.head, x.height))
  {
    var s, head, y := e'.store, e'.head, Fired(x, x.triggerAt);
    AtOrAboveIsLowest(s, head, x.height);
    assert y.log[|y.log| - 1] == Handle(x.ts, x.triggerAt);
    if x.ts == Some(AtOrAbove(s, head, x.height)) {
      LogHandle(s, x.height, x.log, x.ts.value, x.triggerAt);
    } else if Promise(e', y) {
      LowestUnique(s, head, x.height, x.ts.value, AtOrAbove(s, head, x.height));
    }
  }

  lemma GapOutcome(e: State, e': State, to: TipSet, i: Id)
    requires InStep(e, i) && Possible(e, StartApply(to))
    requires e'.store == e.store && e'.loop.Idle? && Applied(e', WatchOf(e, to, i))
    ensures Promise(e', e'.handlers[i]) <==> ServedInGap(e, to, i)
  {
    var x, y, w := e.handlers[i], e'.handlers[i], WatchOf(e, to, i);
    StaysInGap(e, to, i);
    LinkKeepsLowest(e.store, to, x.height);
    if x.called || to.height < x.triggerAt {
      NotDueKeeps(e, e', x, y);
    } else if w.triggerKept {
      FiredKeeps(e', AfterStash(w));
    }
  }

  /** Over one whole apply, of any length and with any registrations in between, a
  handler has at the end what it was promised exactly when its heights stay in the
  index.  There is no limit on the length of the gap here, nor on earlier ones. */
  lemma ApplyKeepsPromise(states: seq<State>, labels: seq<Label>, to: TipSet, i: Id)
    requires IsPass(states, labels) && labels[0] == StartApply(to) && InStep(states[0], i)
    ensures var e, e' := states[0], states[|labels|];
            && Has(e'.store, e'.head) && e'.head == to && i in e'.handlers
            && (Promise(e', e'.handlers[i]) <==> ServedInGap(e, to, i))
  {
    PassStep(states, labels, 0);
    PassApplies(states, labels, to, i, |labels|);
    GapOutcome(states[0], states[|labels|], to, i);
  }

  // Whether the handler is also ready for what comes after: its own height must
  // stay even if it is not due yet.
  ghost predicate ReadyAfterGap(e: State, to: TipSet, i: Id)
    requires i in e.handlers
  {
    var x := e.handlers[i];
    && (e.head.height < x.triggerAt <= to.height && !x.called ==> Stays(e, to, e.triggerHeights, x.triggerAt, i))
    && (e.head.height < x.height <= to.height ==> Stays(e, to, e.tsHeights, x.height, i) || x.ts == Some(to))
  }

  lemma GapSettles(e: State, e': State, to: TipSet, i: Id)
    requires InStep(e, i) && Possible(e, StartApply(to))
    requires e'.store == e.store && Applied(e', WatchOf(e, to, i))
    ensures HandlerInStep(e', e'.handlers[i]) <==> ReadyAfterGap(e, to, i)
  {
    var x, w := e.handlers[i], WatchOf(e, to, i);
    StaysInGap(e, to, i);
    LinkKeepsLowest(e.store, to, x.height);
    var y := AfterStash(w);
    if to.height >= x.triggerAt && w.triggerKept && !x.called && y.ts == Some(AtOrAbove(e.store, to, x.height)) {
      AtOrAboveIsLowest(e.store, to, x.height);
      LogHandle(e.store, x.height, x.log, y.ts.value, x.triggerAt);
    }
  }

  /** The same for being in step with the new head, which is what the next apply or
  revert relies on. */
  lemma ApplySettles(states: seq<State>, labels: seq<Label>, to: TipSet, i: Id)
    requires IsPass(states, labels) && labels[0] == StartApply(to) && InStep(states[0], i)
    ensures InStep(states[|labels|], i) <==> ReadyAfterGap(states[0], to, i)
  {
    PassStep(states, labels, 0);
    PassApplies(states, labels, to, i, |labels|);
    ApplyIndexes(states, labels, to, i);
    GapSettles(states[0], states[|labels|], to, i);
  }

  // The last turn changes neither index.
  lemma ApplyIndexes(states: seq<State>, labels: seq<Label>, to: TipSet, i: Id)
    requires IsPass(states, labels) && labels[0] == StartApply(to) && InStep(states[0], i)
    ensures Indexes(states[|labels|], WatchOf(states[0], to, i))
  {
    var n := |labels|;
    PassStep(states, labels, 0);
    PassStep(states, labels, n - 1);
    PassApplies(states, labels, to, i, n - 1);
  }

  // ---------------------------------------------------------------------
  // One handler during a revert

  function AfterUndo(w: Watch): Handler {
    if w.tipsetKept && w.base < w.x0.height <= w.to.height then Undone(w.x0, w.to) else w.x0
  }

  ghost predicate UndoLoopAt(w: Watch, at: int, loaded: bool, undo: seq<Id>) {
    && w.base <= at <= w.to.height && (loaded ==> at > w.base) && (!loaded ==> undo == [])
    && (w.i in undo ==> w.tipsetKept && at == w.x0.height)
  }

  ghost predicate UndoHandlerAt(w: Watch, x: Handler, at: int, loaded: bool, undo: seq<Id>) {
    if at > w.x0.height || (at == w.x0.height && !loaded) then x == w.x0
    else if w.i in undo then x == w.x0 || x == AfterUndo(w)
    else x == AfterUndo(w)
  }

  ghost predicate UndoAt(e: State, w: Watch) {
    && (w.x0.phase.Registered? || w.x0.phase.Retired?)
    && e.loop.Undoing? && e.loop.from == w.to && e.head.height == w.base && w.i in e.handlers && Indexes(e, w)
    && UndoLoopAt(w, e.loop.at, e.loop.loaded, e.loop.undo)
    && UndoHandlerAt(w, e.handlers[w.i], e.loop.at, e.loop.loaded, e.loop.undo)
  }

  ghost predicate Reverted(e: State, w: Watch) {
    w.i in e.handlers && e.handlers[w.i] == AfterUndo(w)
  }

  lemma UndoOneAt(e: State, w: Watch)
    requires UndoAt(e, w) && e.loop.loaded && e.loop.undo != []
    ensures UndoAt(TurnLoop(e), w)
  {
    assert e.loop.undo == [e.loop.undo[0]] + e.loop.undo[1..];
  }

  lemma UndoMoveAt(e: State, w: Watch)
    requires UndoAt(e, w) && e.loop.undo == [] && (e.loop.loaded || e.loop.at > w.base)
    ensures UndoAt(TurnLoop(e), w)
  {
  }

  lemma StepReverts(e: State, w: Watch, l: Label)
    requires UndoAt(e, w) && Possible(e, l)
    ensures Do(e, l).store == e.store && Do(e, l).head == e.head
    ensures if Do(e, l).loop.Idle? then Reverted(Do(e, l), w) else UndoAt(Do(e, l), w)
  {
    if l.Turn? {
      if e.loop.loaded && e.loop.undo != [] {
        UndoOneAt(e, w);
      } else if e.loop.loaded || e.loop.at > w.base {
        UndoMoveAt(e, w);
      }
    } else {
      OtherKeeps(e, l, w.i);
      OtherIndexed(e, l, w.i, w.x0.height, w.tipsetKept, w.x0.triggerAt, w.triggerKept);
    }
  }

  ghost function UndoWatchOf(e: State, i: Id): Watch
    requires i in e.handlers && Has(e.store, e.head) && e.head.height > 0
  {
    var x, p := e.handlers[i], Parent(e.store, e.head);
    var e' := HeadUpdated(e, p);
    Watch(i, x, p.height, e.head, i in Bucket(e'.tsHeights, x.height), i in Bucket(e'.triggerHeights, x.triggerAt))
  }

  lemma StartReverts(e: State, i: Id)
    requires InStep(e, i) && Possible(e, StartRevert)
    ensures UndoAt(Do(e, StartRevert), UndoWatchOf(e, i))
  {
    NothingNew(e, Parent(e.store, e.head), i);
  }

  lemma {:induction false} PassReverts(states: seq<State>, labels: seq<Label>, i: Id, k: nat)
    requires IsPass(states, labels) && labels[0] == StartRevert && 0 < k <= |labels|
    requires InStep(states[0], i) && states[0].head.height > 0
    ensures states[k].store == states[0].store && states[k].head == Parent(states[0].store, states[0].head)
    ensures var w := UndoWatchOf(states[0], i);
            if k < |labels| then UndoAt(states[k], w) else Reverted(states[k], w)
  {
    PassStep(states, labels, k - 1);
    if k == 1 {
      StartReverts(states[0], i);
    } else {
      PassReverts(states, labels, i, k - 1);
      StepReverts(states[k - 1], UndoWatchOf(states[0], i), labels[k - 1]);
    }
  }

  /** Whether reverting the head keeps the promise to a handler: the head stays at
  or above the handler's height, or the handler was not called, or its height is
  still in the index. */
  ghost predicate Revertible(e: State, i: Id)
    requires Has(e.store, e.head) && e.head.height > 0 && i in e.handlers
  {
    var x := e.handlers[i];
    x.height <= Parent(e.store, e.head).height || !x.called || i in Bucket(e.tsHeights, x.height)
  }

  lemma RevertOutcome(e: State, e': State, i: Id)
    requires InStep(e, i) && Possible(e, StartRevert)
    requires e'.store == e.store && e'.loop.Idle? && e'.head == Parent(e.store, e.head)
             && Reverted(e', UndoWatchOf(e, i))
    ensures Promise(e', e'.handlers[i]) <==> Revertible(e, i)
    ensures HandlerInStep(e', e'.handlers[i]) <==> Revertible(e, i)
  {
    var x, p := e.handlers[i], Parent(e.store, e.head);
    KeepFromBucket(e.tsHeights, p.height - e.gc);
    LinkKeepsLowest(e.store, e.head, x.height);
    if x.height <= p.height { AtOrAboveIsLowest(e.store, p, x.height); }
    if x.called && p.height < x.height { LogRevert(e.store, x.height, x.log, x.ts); }
  }

  /** Over one whole revert, however deep and with any registrations in between, a
  handler has at the end what it was promised exactly when it is revertible.  A
  handler whose ChainAt called it at once and saved nothing is in no index. */
  lemma RevertKeepsPromise(states: seq<State>, labels: seq<Label>, i: Id)
    requires IsPass(states, labels) && labels[0] == StartRevert
    requires InStep(states[0], i) && states[0].head.height > 0
    ensures var e, e' := states[0], states[|labels|];
            && Has(e'.store, e'.head) && i in e'.handlers
            && (Promise(e', e'.handlers[i]) <==> Revertible(e, i))
  {
    PassStep(states, labels, 0);
    PassReverts(states, labels, i, |labels|);
    RevertOutcome(states[0], states[|labels|], i);
  }

  /** And it is in step with the new head under the same condition. */
  lemma RevertSettles(states: seq<State>, labels: seq<Label>, i: Id)
    requires IsPass(states, labels) && labels[0] == StartRevert
    requires InStep(states[0], i) && states[0].head.height > 0
    ensures InStep(states[|labels|], i) <==> Revertible(states[0], i)
  {
    PassStep(states, labels, 0);
    PassReverts(states, labels, i, |labels|);
    RevertIndexes(states, labels, i);
    RevertOutcome(states[0], states[|labels|], i);
  }

  lemma RevertIndexes(states: seq<State>, labels: seq<Label>, i: Id)
    requires IsPass(states, labels) && labels[0] == StartRevert
    requires InStep(states[0], i) && states[0].head.height > 0
    ensures Indexes(states[|labels|], UndoWatchOf(states[0], i))
  {
    var n := |labels|;
    PassStep(states, labels, 0);
    PassStep(states, labels, n - 1);
    PassReverts(states, labels, i, n - 1);
  }

  // ---------------------------------------------------------------------
  // Any number of applies and reverts

  // From one idle state to the next: an apply, a revert, or a step of ChainAt.
  datatype Pass = Pass(states: seq<State>, labels: seq<Label>)

  ghost predicate ArePasses(passes: seq<Pass>) {
    && (forall k | 0 <= k < |passes| :: IsPass(passes[k].states, passes[k].labels))
    && (forall k | 0 < k < |passes| :: passes[k].states[0] == passes[k - 1].states[|passes[k - 1].labels|])
  }

  // The condition of this pass on the handler.
  ghost predicate SparesHandler(p: Pass, i: Id)
    requires IsPass(p.states, p.labels) && InStep(p.states[0], i)
  {
    var e := p.states[0];
    match p.labels[0]
    case StartApply(to) => ReadyAfterGap(e, to, i)
    case StartRevert => e.head.height > 0 ==> Revertible(e, i)
    case _ => true
  }

  lemma OtherInStep(e: State, l: Label, i: Id)
    requires InStep(e, i) && (l.Begin? || l.Section?) && Possible(e, l)
    ensures InStep(Do(e, l), i)
  {
    var x := e.handlers[i];
    OtherKeeps(e, l, i);
    OtherIndexed(e, l, i, x.height, i in Bucket(e.tsHeights, x.height), x.triggerAt,
                 i in Bucket(e.triggerHeights, x.triggerAt));
  }

  /** Each pass leaves the handler in step exactly when it spares it. */
  lemma PassSettles(p: Pass, i: Id)
    requires IsPass(p.states, p.labels) && InStep(p.states[0], i)
    ensures InStep(p.states[|p.labels|], i) <==> SparesHandler(p, i)
  {
    PassStep(p.states, p.labels, 0);
    match p.labels[0]
    case StartApply(to) => ApplySettles(p.states, p.labels, to, i);
    case StartRevert => RevertSettles(p.states, p.labels, i);
    case Turn =>
    case Begin(_, _, _) => OtherInStep(p.states[0], p.labels[0], i);
    case Section(_, _) => OtherInStep(p.states[0], p.labels[0], i);
  }

  /** A handler once in step stays so, and has what it was promised, through any number
  of applies and reverts that spare it, whatever the others do. */
  lemma {:induction false} PassesSettle(passes: seq<Pass>, i: Id)
    requires ArePasses(passes) && passes != [] && InStep(passes[0].states[0], i)
    requires forall k | 0 <= k < |passes| && InStep(passes[k].states[0], i) :: SparesHandler(passes[k], i)
    ensures var last := passes[|passes| - 1];
            var e := last.states[|last.labels|];
            InStep(e, i) && Promise(e, e.handlers[i])
  {
    var n := |passes| - 1;
    if n > 0 { PassesSettle(passes[..n], i); }
    PassSettles(passes[n], i);
    var e := passes[n].states[|passes[n].labels|];
    InStepPromises(e, i);
  }

  lemma InStepPromises(e: State, i: Id)
    requires InStep(e, i)
    ensures Promise(e, e.handlers[i])
  {
    var x := e.handlers[i];
    if x.called { AtOrAboveIsLowest(e.store, e.head, x.height); }
  }

  // ---------------------------------------------------------------------
  // Runs in which the promise fails

  ghost predicate IsFreeRun(states: seq<State>, labels: seq<Label>) {
    |states| == |labels| + 1 && Init(states[0]) && forall k | 0 <= k < |labels| :: IsStep(states, labels, k)
  }

  // Some run, of whatever gaps and reverts, leads to this state.
  ghost predicate Reached(e: State) {
    exists states, labels :: IsFreeRun(states, labels) && states[|labels|] == e
  }

  lemma ReachedInit(e: State)
    requires Init(e)
    ensures Reached(e)
  {
    var states, labels: seq<Label> := [e], [];
    assert IsFreeRun(states, labels) && states[|labels|] == e;
  }

  lemma ReachedStep(e: State, l: Label)
    requires Reached(e) && Possible(e, l)
    ensures Reached(Do(e, l))
  {
    var states, labels :| IsFreeRun(states, labels) && states[|labels|] == e;
    var states', labels' := states + [Do(e, l)], labels + [l];
    forall k | 0 <= k < |labels'| ensures IsStep(states', labels', k) {
      assert k < |labels| ==> IsStep(states, labels, k);
    }
    assert IsFreeRun(states', labels') && states'[|labels'|] == Do(e, l);
  }

  // A chain of a genesis and one tipset at height 3.
  ghost function GapStore(): Store {
    var s: map<Key, TipSet> := map[0 := TipSet(0, 0, 9), 1 := TipSet(1, 3, 0)];
    assert forall t: TipSet :: Has(s, t) ==> t == s[0] || t == s[1];
    s
  }

  ghost function Up(at: int): Loop {
    Applying(TipSet(0, 0, 9), at, false, [], [])
  }

  ghost function Down(at: int): Loop {
    Undoing(TipSet(1, 3, 0), at, false, [])
  }

  // A handler for height 1 is registered at genesis and the other tipset is applied.
  ghost function GapState(ts: Index, triggers: Index, x: Handler, loop: Loop): State {
    State(GapStore(), 1, TipSet(1, 3, 0), 3, 3, ts, triggers, map[0 := x], loop)
  }

  ghost function Waiting(confidence: nat): State {
    State(GapStore(), 1, TipSet(0, 0, 9), 0, 0, map[1 := [0]], map[1 + confidence := [0]],
          map[0 := Handler(1, 1 + confidence, None, false, [], Registered)], Idle)
  }

  lemma WaitingReached(confidence: nat)
    requires confidence <= 1
    ensures Reached(Waiting(confidence))
  {
    var g := TipSet(0, 0, 9);
    var e0 := State(GapStore(), 1, g, 0, 0, map[], map[], map[], Idle);
    ReachedInit(e0);
    var x := Handler(1, 1 + confidence, None, false, [], Looking);
    ReachedStep(e0, Begin(0, 1, confidence));
    var e1 := e0.(handlers := map[0 := x]);
    assert Do(e0, Begin(0, 1, confidence)) == e1;
    ReachedStep(e1, Section(0, Fine));
    var e2 := e0.(handlers := map[0 := x.(phase := Checking(g))]);
    assert Do(e1, Section(0, Fine)) == e2;
    ReachedStep(e2, Section(0, Fine));
    assert Bucket(map[], 1) + [0] == [0] && Bucket(map[], 1 + confidence) + [0] == [0];
    assert Do(e2, Section(0, Fine)) == Waiting(confidence);
  }

  lemma GapReached(confidence: nat)
    requires confidence <= 1
    ensures Reached(GapState(map[], if confidence == 0 then map[] else map[2 := [0]],
                             Handler(1, 1 + confidence, None, false, [], Registered), Up(1)))
  {
    WaitingReached(confidence);
    ReachedStep(Waiting(confidence), StartApply(TipSet(1, 3, 0)));
    assert KeepFrom(map[1 := [0]], 2) == map[] && KeepFrom(map[2 := [0]], 2) == map[2 := [0]];
  }

  // With nothing loaded the loop passes a height in two turns.
  lemma PassHeight(e: State, at: nat)
    requires Reached(e) && e.loop == Up(at) && at <= e.head.height
    requires Bucket(e.tsHeights, at) == [] && Bucket(e.triggerHeights, at) == []
    ensures Reached(e.(loop := Up(at + 1)))
  {
    ReachedStep(e, Turn);
    ReachedStep(Do(e, Turn), Turn);
  }

  /** A handler that is forgotten: its height is collected before it is visited. */
  lemma GapForgetsHandler()
    ensures exists e :: Reached(e) && e.loop.Idle? && 0 in e.handlers && e.handlers[0].phase.Registered?
                        && e.head.height >= e.handlers[0].triggerAt && e.handlers[0].log == []
  {
    GapReached(0);
    var x := Handler(1, 1, None, false, [], Registered);
    PassHeight(GapState(map[], map[], x, Up(1)), 1);
    PassHeight(GapState(map[], map[], x, Up(2)), 2);
    PassHeight(GapState(map[], map[], x, Up(3)), 3);
    ReachedStep(GapState(map[], map[], x, Up(4)), Turn);
    assert Reached(GapState(map[], map[], x, Idle));
  }

  lemma FireHeight(m: Index, x: Handler)
    requires Reached(GapState(map[], m, x, Up(2))) && Bucket(m, 2) == [0] && !x.called
    ensures Reached(GapState(map[], m, Fired(x, 2), Up(3)))
  {
    var y := Fired(x, 2);
    var loaded, fired := Applying(TipSet(0, 0, 9), 2, true, [], [0]), Applying(TipSet(0, 0, 9), 2, true, [], []);
    ReachedStep(GapState(map[], m, x, Up(2)), Turn);
    assert Do(GapState(map[], m, x, Up(2)), Turn) == GapState(map[], m, x, loaded);
    ReachedStep(GapState(map[], m, x, loaded), Turn);
    assert map[0 := x][0 := y] == map[0 := y] && [0][1..] == [];
    assert Do(GapState(map[], m, x, loaded), Turn) == GapState(map[], m, y, fired);
    ReachedStep(GapState(map[], m, y, fired), Turn);
  }

  /** A handler that is called without a tipset: its own height is collected and
  its trigger height is not. */
  lemma GapCallsWithoutTipset()
    ensures exists e :: Reached(e) && e.loop.Idle? && 0 in e.handlers && e.handlers[0].log == [Handle(None, 2)]
  {
    GapReached(1);
    var m: Index := map[2 := [0]];
    var x := Handler(1, 2, None, false, [], Registered);
    var y := Fired(x, 2);
    PassHeight(GapState(map[], m, x, Up(1)), 1);
    FireHeight(m, x);
    PassHeight(GapState(map[], m, y, Up(3)), 3);
    ReachedStep(GapState(map[], m, y, Up(4)), Turn);
    assert Reached(GapState(map[], m, y, Idle)) && y.log == [Handle(None, 2)];
  }

  ghost function DeepState(head: TipSet, x: Handler, loop: Loop): State {
    State(GapStore(), 1, head, 0, 3, map[], map[], map[0 := x], loop)
  }

  lemma FetchingReached()
    ensures Reached(DeepState(TipSet(1, 3, 0), Handler(1, 1, None, false, [], Fetching(TipSet(1, 3, 0))), Idle))
  {
    var t := TipSet(1, 3, 0);
    var e0 := State(GapStore(), 1, t, 0, 3, map[], map[], map[], Idle);
    ReachedInit(e0);
    var x := Handler(1, 1, None, false, [], Looking);
    ReachedStep(e0, Begin(0, 1, 0));
    var e1 := DeepState(t, x, Idle);
    assert Do(e0, Begin(0, 1, 0)) == e1;
    ReachedStep(e1, Section(0, Fine));
    assert Do(e1, Section(0, Fine)) == DeepState(t, x.(phase := Fetching(t)), Idle);
  }

  // ChainAt for height 1 at a head of height 3 calls the handler and saves nothing.
  lemma RetiredReached()
    ensures Reached(DeepState(TipSet(1, 3, 0),
                              Handler(1, 1, Some(TipSet(1, 3, 0)), true, [Handle(Some(TipSet(1, 3, 0)), 3)], Retired),
                              Idle))
  {
    var t := TipSet(1, 3, 0);
    var x := Handler(1, 1, None, false, [], Fetching(t));
    var y := Handler(1, 1, Some(t), false, [], Calling(t));
    var z := Handler(1, 1, Some(t), true, [Handle(Some(t), 3)], Retired);
    FetchingReached();
    ReachedStep(DeepState(t, x, Idle), Section(0, Fine));
    assert FetchSection(GapStore(), x, t, Fine) == y;
    assert Do(DeepState(t, x, Idle), Section(0, Fine)) == DeepState(t, y, Idle);
    ReachedStep(DeepState(t, y, Idle), Section(0, Fine));
    assert [] + z.log == z.log;
    assert CallSection(y, t, 1, Fine) == z;
    assert Do(DeepState(t, y, Idle), Section(0, Fine)) == DeepState(t, z, Idle);
  }

  /** A handler that stays called when the head goes below its height. */
  lemma DeepRevertLeavesCalled()
    ensures exists e :: Reached(e) && e.loop.Idle? && 0 in e.handlers && e.handlers[0].phase.Retired?
                        && e.handlers[0].called && e.head.height < e.handlers[0].height
  {
    var g, t := TipSet(0, 0, 9), TipSet(1, 3, 0);
    var x := Handler(1, 1, Some(t), true, [Handle(Some(t), 3)], Retired);
    RetiredReached();
    var e := DeepState(t, x, Idle);
    assert Parent(e.store, t) == g;
    ReachedStep(e, StartRevert);
    UndoHeight(DeepState(g, x, Down(3)), 3);
    UndoHeight(DeepState(g, x, Down(2)), 2);
    UndoHeight(DeepState(g, x, Down(1)), 1);
    ReachedStep(DeepState(g, x, Down(0)), Turn);
    assert Reached(DeepState(g, x, Idle));
  }

  lemma UndoHeight(e: State, at: nat)
    requires Reached(e) && e.loop == Down(at) && at > e.head.height && Bucket(e.tsHeights, at) == []
    ensures Reached(e.(loop := Down(at - 1)))
  {
    ReachedStep(e, Turn);
    ReachedStep(Do(e, Turn), Turn);
  }
}
