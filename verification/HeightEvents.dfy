/** Handlers that wait for a chain height.  ChainAt registers a handler while
the event loop keeps applying and reverting tipsets: it works without the lock
and checks at the end that the head has not moved.  The model interleaves the
event loop with any number of such registrations, one atomic section at a time.
*/
module HeightEvents {
  import opened Wrappers
  import opened Tipsets

  type Id = nat

  // A call of a handler's handle or revert function.
  datatype Call = Handle(ts: Option<TipSet>, at: int) | Revert(ts: Option<TipSet>)

  // Where ChainAt stands for a handler; `head` is the head it read.
  datatype Phase =
    | Looking
    | Fetching(head: TipSet)
    | Calling(head: TipSet)
    | Reverting(head: TipSet)
    | Checking(head: TipSet)
    | Registered
    | Retired
    | Failed

  datatype Handler = Handler(height: nat, triggerAt: nat, ts: Option<TipSet>, called: bool,
                             log: seq<Call>, phase: Phase)

  // Where the event loop stands.  While it applies or undoes a tipset it goes
  // through the heights, and at each height through handlers it has loaded.
  datatype Loop =
    | Idle
    | Applying(from: TipSet, at: int, loaded: bool, stash: seq<Id>, fire: seq<Id>)
    | Undoing(from: TipSet, at: int, loaded: bool, undo: seq<Id>)

  type Index = map<nat, seq<Id>>

  datatype State = State(store: Store, gc: nat, head: TipSet, lastGc: nat, maxHeight: nat,
                         tsHeights: Index, triggerHeights: Index, handlers: map<Id, Handler>, loop: Loop)

  // The outcome of what a section of ChainAt calls: the chain API and the
  // handler's own functions may fail.
  datatype Outcome = Fine | ApiError | HandlerError

  datatype Label =
    | StartApply(to: TipSet)
    | StartRevert
    | Turn
    | Begin(id: Id, height: nat, confidence: nat)
    | Section(id: Id, outcome: Outcome)

  function Bucket(m: Index, h: int): seq<Id> {
    if h >= 0 && h in m then m[h] else []
  }

  function Add(m: Index, h: nat, id: Id): Index {
    m[h := Bucket(m, h) + [id]]
  }

  function KeepFrom(m: Index, target: int): Index {
    map h | h in m && h >= target :: m[h]
  }

  // ---------------------------------------------------------------------
  // The event loop

  function HeadUpdated(e: State, to: TipSet): State {
    var max := if to.height > e.maxHeight then to.height else e.maxHeight;
    if to.height < e.lastGc + e.gc * 2 then e.(head := to, maxHeight := max)
    else e.(head := to, maxHeight := max, lastGc := to.height,
            tsHeights := KeepFrom(e.tsHeights, to.height - e.gc),
            triggerHeights := KeepFrom(e.triggerHeights, to.height - e.gc))
  }

  function Stashed(x: Handler, to: TipSet): Handler {
    x.(ts := Some(to))
  }

  function Fired(x: Handler, at: int): Handler {
    if x.called then x else x.(log := x.log + [Handle(x.ts, at)], called := true)
  }

  function Undone(x: Handler, from: TipSet): Handler {
    if x.called then x.(ts := None, log := x.log + [Revert(Some(from))], called := false)
    else x.(ts := None)
  }

  function Change(m: map<Id, Handler>, i: Id, f: Handler -> Handler): map<Id, Handler> {
    if i in m then m[i := f(m[i])] else m
  }

  // The next thing the event loop does while it works on a tipset.
  function TurnLoop(e: State): State {
    match e.loop
    case Idle => e
    case Applying(from, at, loaded, stash, fire) =>
      if !loaded then
        if at > e.head.height then e.(loop := Idle)
        else e.(loop := Applying(from, at, true, Bucket(e.tsHeights, at), Bucket(e.triggerHeights, at)))
      else if stash != [] then
        e.(handlers := Change(e.handlers, stash[0], x => Stashed(x, e.head)),
           loop := Applying(from, at, true, stash[1..], fire))
      else if fire != [] then
        e.(handlers := Change(e.handlers, fire[0], x => Fired(x, at)),
           loop := Applying(from, at, true, stash, fire[1..]))
      else e.(loop := Applying(from, at + 1, false, [], []))
    case Undoing(from, at, loaded, undo) =>
      if !loaded then
        if at <= e.head.height then e.(loop := Idle)
        else e.(loop := Undoing(from, at, true, Bucket(e.tsHeights, at)))
      else if undo != [] then
        e.(handlers := Change(e.handlers, undo[0], x => Undone(x, from)),
           loop := Undoing(from, at, true, undo[1..]))
      else e.(loop := Undoing(from, at - 1, false, []))
  }

  // ---------------------------------------------------------------------
  // One section of ChainAt for a handler, given the current head

  // The API looks up the tipset at a height on the chain of a stored head.
  function FetchSection(s: Store, x: Handler, head: TipSet, o: Outcome): Handler {
    if o.ApiError? || !Has(s, head) || head.height < x.height then x.(phase := Failed)
    else
      var ts := AtOrAbove(s, head, x.height);
      if x.called && x.ts != Some(ts) then
        var y := x.(log := x.log + [Revert(x.ts)]);
        if o.HandlerError? then y.(phase := Failed)
        else y.(called := false, ts := Some(ts), phase := Calling(head))
      else x.(ts := Some(ts), phase := Calling(head))
  }

  function CallSection(x: Handler, head: TipSet, gc: nat, o: Outcome): Handler {
    if !x.called && head.height >= x.triggerAt then
      var y := x.(log := x.log + [Handle(x.ts, head.height)]);
      if o.HandlerError? then y.(phase := Failed)
      else if head.height >= x.height + gc then y.(called := true, phase := Retired)
      else y.(called := true, phase := Checking(head))
    else x.(phase := Checking(head))
  }

  function RevertSection(x: Handler, head: TipSet, o: Outcome): Handler {
    var y := x.(log := x.log + [Revert(x.ts)]);
    if o.HandlerError? then y.(phase := Failed) else y.(called := false, phase := Checking(head))
  }

  predicate Running(x: Handler) {
    !x.phase.Registered? && !x.phase.Retired? && !x.phase.Failed?
  }

  function SectionOf(e: State, id: Id, o: Outcome): State
    requires id in e.handlers && Running(e.handlers[id])
  {
    var x := e.handlers[id];
    match x.phase
    case Looking =>
      var next := if e.head.height >= x.height then Fetching(e.head)
                  else if x.called then Reverting(e.head)
                  else Checking(e.head);
      e.(handlers := e.handlers[id := x.(phase := next)])
    case Fetching(head) => e.(handlers := e.handlers[id := FetchSection(e.store, x, head, o)])
    case Calling(head) => e.(handlers := e.handlers[id := CallSection(x, head, e.gc, o)])
    case Reverting(head) => e.(handlers := e.handlers[id := RevertSection(x, head, o)])
    case Checking(head) =>
      if head == e.head then
        e.(handlers := e.handlers[id := x.(phase := Registered)],
           triggerHeights := Add(e.triggerHeights, x.triggerAt, id),
           tsHeights := Add(e.tsHeights, x.height, id))
      else e.(handlers := e.handlers[id := x.(phase := Looking)])
  }

  // ---------------------------------------------------------------------
  // Invariant

  // Calls strictly alternate, starting with handle; each handle gets the
  // lowest tipset at or above the handler's height, and each revert the tipset
  // of the handle before it.
  ghost predicate LogOk(s: Store, h: nat, log: seq<Call>) {
    forall j | 0 <= j < |log| :: CallAt(s, h, log, j)
  }

  ghost predicate CallAt(s: Store, h: nat, log: seq<Call>, j: nat)
    requires j < |log|
  {
    if j % 2 == 0 then
      && log[j].Handle? && log[j].ts.Some?
      && Has(s, log[j].ts.value) && Straddles(s, log[j].ts.value, h)
    else log[j].Revert? && log[j].ts == log[j - 1].ts
  }

  // No call of handle came before the head had reached the height with its confidence.
  ghost predicate InTime(x: Handler) {
    forall j | 0 <= j < |x.log| && x.log[j].Handle? :: x.log[j].at >= x.triggerAt
  }

  ghost predicate CalledOk(x: Handler) {
    && (x.called <==> |x.log| % 2 == 1)
    && (x.called ==> x.log[|x.log| - 1].ts == x.ts)
  }

  ghost predicate AtHead(s: Store, x: Handler, head: TipSet)
    requires Has(s, head)
  {
    head.height >= x.height && x.ts == Some(AtOrAbove(s, head, x.height))
  }

  // The handler is where it should be for this head.
  ghost predicate Settled(s: Store, x: Handler, head: TipSet)
    requires Has(s, head)
  {
    && (head.height >= x.height ==> AtHead(s, x, head))
    && (head.height >= x.triggerAt ==> x.called)
    && (x.called ==> head.height >= x.height)
  }

  // A head this far above the handler's height fixes the handler's tipset.
  ghost predicate Lasting(e: State, x: Handler, head: TipSet)
    requires Has(e.store, e.head) && Has(e.store, head)
  {
    head.height >= x.height + e.gc ==>
      && e.head.height >= x.height
      && AtOrAbove(e.store, e.head, x.height) == AtOrAbove(e.store, head, x.height)
  }

  ghost predicate WillStash(e: State, i: Id, x: Handler)
    requires e.loop.Applying?
  {
    if e.loop.loaded && x.height == e.loop.at then i in e.loop.stash
    else x.height >= e.loop.at && i in Bucket(e.tsHeights, x.height)
  }

  ghost predicate WillFire(e: State, i: Id, x: Handler)
    requires e.loop.Applying?
  {
    if e.loop.loaded && x.triggerAt == e.loop.at then i in e.loop.fire
    else x.triggerAt >= e.loop.at && i in Bucket(e.triggerHeights, x.triggerAt)
  }

  ghost predicate WillUndo(e: State, i: Id, x: Handler)
    requires e.loop.Undoing?
  {
    if e.loop.loaded && x.height == e.loop.at then i in e.loop.undo
    else x.height <= e.loop.at && i in Bucket(e.tsHeights, x.height)
  }

  ghost predicate RegisteredOk(e: State, i: Id, x: Handler)
    requires Has(e.store, e.head)
  {
    && (i in Bucket(e.tsHeights, x.height) || x.height + e.gc < e.maxHeight)
    && (i in Bucket(e.triggerHeights, x.triggerAt) || x.triggerAt + e.gc < e.maxHeight)
    && match e.loop
       case Idle => Settled(e.store, x, e.head)
       case Applying(_, _, _, _, _) =>
         && (e.head.height >= x.height ==> AtHead(e.store, x, e.head) || WillStash(e, i, x))
         && (e.head.height >= x.triggerAt ==> x.called || WillFire(e, i, x))
         && (x.called ==> AtHead(e.store, x, e.head))
       case Undoing(from, _, _, _) =>
         && (e.head.height >= x.height ==> AtHead(e.store, x, e.head))
         && (e.head.height >= x.triggerAt ==> x.called)
         && (x.called && e.head.height < x.height ==>
               x.ts == Some(from) && x.height <= from.height && WillUndo(e, i, x))
  }

  ghost predicate HandlerOk(e: State, i: Id, x: Handler)
    requires Has(e.store, e.head)
  {
    && x.height <= x.triggerAt <= x.height + e.gc
    && LogOk(e.store, x.height, x.log) && InTime(x)
    && (!x.phase.Failed? ==> CalledOk(x))
    && match x.phase
       case Looking => true
       case Failed => true
       case Registered => RegisteredOk(e, i, x)
       case Retired => x.called && x.height + e.gc <= e.maxHeight && AtHead(e.store, x, e.head)
       case Fetching(head) =>
         Has(e.store, head) && head.height <= e.maxHeight && Lasting(e, x, head) && head.height >= x.height
       case Calling(head) =>
         Has(e.store, head) && head.height <= e.maxHeight && Lasting(e, x, head) && AtHead(e.store, x, head)
       case Reverting(head) =>
         Has(e.store, head) && head.height <= e.maxHeight && head.height < x.height && x.called
       case Checking(head) =>
         Has(e.store, head) && head.height <= e.maxHeight && Lasting(e, x, head) && Settled(e.store, x, head)
  }

  ghost predicate IndexOk(e: State) {
    && (forall h, i | h in e.tsHeights && i in e.tsHeights[h] ::
          i in e.handlers && e.handlers[i].phase.Registered? && e.handlers[i].height == h)
    && (forall h, i | h in e.triggerHeights && i in e.triggerHeights[h] ::
          i in e.handlers && e.handlers[i].phase.Registered? && e.handlers[i].triggerAt == h)
  }

  ghost predicate LoopOk(e: State)
    requires Has(e.store, e.head)
  {
    match e.loop
    case Idle => true
    case Applying(from, at, loaded, stash, fire) =>
      && e.head.height > 0 && from == Parent(e.store, e.head)
      && from.height < at <= e.head.height + 1 && (loaded ==> at <= e.head.height)
      && (forall i | i in stash :: i in e.handlers && e.handlers[i].phase.Registered? && e.handlers[i].height == at)
      && (forall i | i in fire :: i in e.handlers && e.handlers[i].phase.Registered? && e.handlers[i].triggerAt == at)
    case Undoing(from, at, loaded, undo) =>
      && Has(e.store, from) && from.height > 0 && e.head == Parent(e.store, from)
      && e.head.height <= at <= from.height && (loaded ==> at > e.head.height)
      && (forall i | i in undo :: i in e.handlers && e.handlers[i].phase.Registered? && e.handlers[i].height == at)
  }

  ghost predicate Inv(e: State) {
    && Has(e.store, e.head)
    && e.head.height <= e.maxHeight <= e.head.height + e.gc
    && IndexOk(e)
    && LoopOk(e)
    && forall i | i in e.handlers :: HandlerOk(e, i, e.handlers[i])
  }

  // ---------------------------------------------------------------------
  // Steps and runs

  // Tipsets are applied and reverted one link at a time.
  predicate Possible(e: State, l: Label) {
    match l
    case StartApply(to) => e.loop.Idle? && Has(e.store, to) && to.height > 0 && Parent(e.store, to) == e.head
    case StartRevert => e.loop.Idle? && Has(e.store, e.head) && e.head.height > 0
    case Turn => !e.loop.Idle?
    case Begin(id, _, _) => id !in e.handlers
    case Section(id, _) => id in e.handlers && Running(e.handlers[id])
  }

  // A run is within the limits if no apply skips more than gc null rounds and no
  // revert goes more than gc below the highest head.
  predicate Enabled(e: State, l: Label) {
    && Possible(e, l)
    && match l
       case StartApply(to) => to.height - e.head.height - 1 <= e.gc
       case StartRevert => e.maxHeight <= Parent(e.store, e.head).height + e.gc
       case _ => true
  }

  function Do(e: State, l: Label): State
    requires Possible(e, l)
  {
    match l
    case StartApply(to) =>
      HeadUpdated(e, to).(loop := Applying(e.head, e.head.height + 1, false, [], []))
    case StartRevert =>
      HeadUpdated(e, Parent(e.store, e.head)).(loop := Undoing(e.head, e.head.height, false, []))
    case Turn => TurnLoop(e)
    case Begin(id, h, confidence) =>
      if confidence > e.gc then e
      else e.(handlers := e.handlers[id := Handler(h, h + confidence, None, false, [], Looking)])
    case Section(id, o) => SectionOf(e, id, o)
  }

  // ---------------------------------------------------------------------
  // Every step keeps the invariant

  lemma KeepFromBucket(m: Index, target: int)
    ensures forall h | h >= target :: Bucket(KeepFrom(m, target), h) == Bucket(m, h)
    ensures forall h | h < target :: Bucket(KeepFrom(m, target), h) == []
  {
  }

  // What a head update may change: collecting garbage forgets only heights
  // more than gc below the new head.
  ghost predicate Moved(e: State, e': State) {
    && e'.store == e.store && e'.gc == e.gc && e'.handlers == e.handlers
    && e'.maxHeight == (if e'.head.height > e.maxHeight then e'.head.height else e.maxHeight)
    && (forall h | h + e.gc >= e'.head.height ::
          Bucket(e'.tsHeights, h) == Bucket(e.tsHeights, h)
            && Bucket(e'.triggerHeights, h) == Bucket(e.triggerHeights, h))
    && (forall h | h + e.gc < e'.head.height ::
          && (Bucket(e'.tsHeights, h) == Bucket(e.tsHeights, h) || Bucket(e'.tsHeights, h) == [])
          && (Bucket(e'.triggerHeights, h) == Bucket(e.triggerHeights, h) || Bucket(e'.triggerHeights, h) == []))
  }

  lemma UpdateHeadMoves(e: State, to: TipSet)
    ensures Moved(e, HeadUpdated(e, to)) && HeadUpdated(e, to).head == to
  {
    KeepFromBucket(e.tsHeights, to.height - e.gc);
    KeepFromBucket(e.triggerHeights, to.height - e.gc);
  }

  lemma UpdateHeadIndex(e: State, to: TipSet)
    requires IndexOk(e)
    ensures IndexOk(HeadUpdated(e, to))
  {
  }

  // As long as the head stays at or above h, moving it along one link does not
  // change the lowest tipset at or above h.
  lemma LinkKeepsLowest(s: Store, child: TipSet, h: nat)
    requires Has(s, child) && child.height > 0
    ensures h <= Parent(s, child).height ==> AtOrAbove(s, child, h) == AtOrAbove(s, Parent(s, child), h)
    ensures Parent(s, child).height < h <= child.height ==> AtOrAbove(s, child, h) == child
  {
  }

  // A handler that the event loop does not know of survives a move of the head
  // that stays within gc of the highest head.
  lemma MoveKeepsUnregistered(e: State, e': State, i: Id, x: Handler)
    requires Has(e.store, e.head) && Has(e.store, e'.head) && Moved(e, e') && HandlerOk(e, i, x) && !x.phase.Registered?
    requires e'.maxHeight <= e'.head.height + e.gc && e.maxHeight <= e.head.height + e.gc
    requires forall h: nat | h <= e.head.height && h <= e'.head.height ::
               AtOrAbove(e.store, e.head, h) == AtOrAbove(e.store, e'.head, h)
    ensures HandlerOk(e', i, x)
  {
    assert x.phase.Retired? ==> x.height <= e'.head.height;
  }

  lemma ApplyKeepsRegistered(e: State, e': State, i: Id, x: Handler)
    requires Has(e.store, e.head) && Has(e.store, e'.head) && Moved(e, e') && e.loop.Idle?
    requires e'.head.height > 0 && Parent(e.store, e'.head) == e.head && e.maxHeight <= e.head.height + e.gc
    requires e'.head.height - e.head.height - 1 <= e.gc
    requires e'.loop == Applying(e.head, e.head.height + 1, false, [], [])
    requires RegisteredOk(e, i, x) && CalledOk(x) && x.height <= x.triggerAt
    ensures RegisteredOk(e', i, x)
  {
    LinkKeepsLowest(e.store, e'.head, x.height);
  }

  lemma RevertKeepsRegistered(e: State, e': State, i: Id, x: Handler)
    requires Has(e.store, e.head) && Has(e.store, e'.head) && Moved(e, e') && e.loop.Idle?
    requires e.head.height > 0 && Parent(e.store, e.head) == e'.head && e.maxHeight <= e'.head.height + e.gc
    requires e.head.height <= e.maxHeight
    requires e'.loop == Undoing(e.head, e.head.height, false, [])
    requires RegisteredOk(e, i, x) && CalledOk(x) && x.height <= x.triggerAt
    ensures RegisteredOk(e', i, x)
  {
    LinkKeepsLowest(e.store, e.head, x.height);
  }

  lemma StartApplyKeeps(e: State, to: TipSet)
    requires Inv(e) && Enabled(e, StartApply(to))
    ensures Inv(Do(e, StartApply(to)))
  {
    var e' := Do(e, StartApply(to));
    UpdateHeadMoves(e, to);
    UpdateHeadIndex(e, to);
    forall h: nat { LinkKeepsLowest(e.store, to, h); }
    forall i | i in e'.handlers ensures HandlerOk(e', i, e'.handlers[i]) {
      var x := e.handlers[i];
      if x.phase.Registered? { ApplyKeepsRegistered(e, e', i, x); } else { MoveKeepsUnregistered(e, e', i, x); }
    }
  }

  lemma StartRevertKeeps(e: State)
    requires Inv(e) && Enabled(e, StartRevert)
    ensures Inv(Do(e, StartRevert))
  {
    var e' := Do(e, StartRevert);
    UpdateHeadMoves(e, Parent(e.store, e.head));
    UpdateHeadIndex(e, Parent(e.store, e.head));
    forall h: nat { LinkKeepsLowest(e.store, e.head, h); }
    forall i | i in e'.handlers ensures HandlerOk(e', i, e'.handlers[i]) {
      var x := e.handlers[i];
      if x.phase.Registered? { RevertKeepsRegistered(e, e', i, x); } else { MoveKeepsUnregistered(e, e', i, x); }
    }
  }

  // Two states that differ only in where the event loop stands.
  ghost predicate SameButLoop(e: State, e': State) {
    e' == e.(loop := e'.loop)
  }

  // Handlers that are not registered do not depend on the event loop.
  lemma LoopKeepsUnregistered(e: State, e': State, i: Id, x: Handler)
    requires Has(e.store, e.head) && HandlerOk(e, i, x) && !x.phase.Registered?
    requires SameButLoop(e, e'.(handlers := e.handlers))
    ensures HandlerOk(e', i, x)
  {
  }

  lemma LoadKeepsRegistered(e: State, e': State, i: Id, x: Handler)
    requires Has(e.store, e.head) && LoopOk(e) && HandlerOk(e, i, x) && x.phase.Registered?
    requires e.loop.Applying? && (e.loop.loaded ==> e.loop.stash == [] && e.loop.fire == []) && e' == TurnLoop(e)
    ensures HandlerOk(e', i, x)
  {
    assert RegisteredOk(e, i, x);
    assert RegisteredOk(e', i, x);
  }

  lemma LoadKeepsLoop(e: State)
    requires Has(e.store, e.head) && IndexOk(e) && LoopOk(e)
    requires e.loop.Applying? && (e.loop.loaded ==> e.loop.stash == [] && e.loop.fire == [])
    ensures IndexOk(TurnLoop(e)) && LoopOk(TurnLoop(e))
  {
  }

  lemma LoadKeeps(e: State)
    requires Inv(e) && e.loop.Applying? && (e.loop.loaded ==> e.loop.stash == [] && e.loop.fire == [])
    ensures Inv(TurnLoop(e))
  {
    var e' := TurnLoop(e);
    LoadKeepsLoop(e);
    forall i | i in e'.handlers ensures HandlerOk(e', i, e'.handlers[i]) {
      var x := e.handlers[i];
      if x.phase.Registered? { LoadKeepsRegistered(e, e', i, x); } else { LoopKeepsUnregistered(e, e', i, x); }
    }
  }

  lemma StashKeepsRegistered(e: State, e': State, i: Id, x: Handler)
    requires Has(e.store, e.head) && LoopOk(e) && HandlerOk(e, i, x) && x.phase.Registered?
    requires e.loop.Applying? && e.loop.loaded && e.loop.stash != []
    requires SameButLoop(e, e'.(handlers := e.handlers)) && e'.loop == e.loop.(stash := e.loop.stash[1..])
    requires i == e.loop.stash[0] ==> x.height == e.loop.at
    ensures HandlerOk(e', i, if i == e.loop.stash[0] then Stashed(x, e.head) else x)
  {
    assert RegisteredOk(e, i, x);
    LinkKeepsLowest(e.store, e.head, x.height);
    assert RegisteredOk(e', i, if i == e.loop.stash[0] then Stashed(x, e.head) else x);
  }

  lemma StashKeeps(e: State)
    requires Inv(e) && e.loop.Applying? && e.loop.loaded && e.loop.stash != []
    ensures Inv(TurnLoop(e))
  {
    var e' := TurnLoop(e);
    forall i | i in e'.handlers ensures HandlerOk(e', i, e'.handlers[i]) {
      var x := e.handlers[i];
      if x.phase.Registered? { StashKeepsRegistered(e, e', i, x); } else { LoopKeepsUnregistered(e, e', i, x); }
    }
  }

  lemma LogHandle(s: Store, h: nat, log: seq<Call>, ts: TipSet, at: int)
    requires LogOk(s, h, log) && |log| % 2 == 0 && Has(s, ts) && Straddles(s, ts, h)
    ensures LogOk(s, h, log + [Handle(Some(ts), at)]) && |log + [Handle(Some(ts), at)]| % 2 == 1
  {
    forall j | 0 <= j < |log| ensures CallAt(s, h, log + [Handle(Some(ts), at)], j) { assert CallAt(s, h, log, j); }
  }

  lemma LogRevert(s: Store, h: nat, log: seq<Call>, ts: Option<TipSet>)
    requires LogOk(s, h, log) && |log| % 2 == 1 && log[|log| - 1].ts == ts
    ensures LogOk(s, h, log + [Revert(ts)]) && |log + [Revert(ts)]| % 2 == 0
  {
    forall j | 0 <= j < |log| ensures CallAt(s, h, log + [Revert(ts)], j) { assert CallAt(s, h, log, j); }
  }

  lemma FireKeepsRegistered(e: State, e': State, i: Id, x: Handler)
    requires Has(e.store, e.head) && e.loop.Applying? && LoopOk(e) && HandlerOk(e, i, x) && x.phase.Registered?
    requires SameButLoop(e, e'.(handlers := e.handlers))
    requires e.loop.loaded && e.loop.stash == [] && e.loop.fire != []
    requires e'.loop == e.loop.(fire := e.loop.fire[1..])
    requires i == e.loop.fire[0] ==> x.triggerAt == e.loop.at
    ensures HandlerOk(e', i, if i == e.loop.fire[0] then Fired(x, e.loop.at) else x)
  {
    assert RegisteredOk(e, i, x);
    if i == e.loop.fire[0] {
      if !x.called { LogHandle(e.store, x.height, x.log, x.ts.value, e.loop.at); }
      assert RegisteredOk(e', i, Fired(x, e.loop.at));
    } else {
      assert RegisteredOk(e', i, x);
    }
  }

  lemma FireKeeps(e: State)
    requires Inv(e) && e.loop.Applying? && e.loop.loaded && e.loop.stash == [] && e.loop.fire != []
    ensures Inv(TurnLoop(e))
  {
    var e' := TurnLoop(e);
    forall i | i in e'.handlers ensures HandlerOk(e', i, e'.handlers[i]) {
      var x := e.handlers[i];
      if x.phase.Registered? { FireKeepsRegistered(e, e', i, x); } else { LoopKeepsUnregistered(e, e', i, x); }
    }
  }

  lemma UndoKeepsRegistered(e: State, e': State, i: Id, x: Handler)
    requires Has(e.store, e.head) && e.loop.Undoing? && LoopOk(e) && HandlerOk(e, i, x) && x.phase.Registered?
    requires SameButLoop(e, e'.(handlers := e.handlers))
    requires e.loop.loaded && e.loop.undo != []
    requires e'.loop == e.loop.(undo := e.loop.undo[1..])
    requires i == e.loop.undo[0] ==> x.height == e.loop.at
    ensures HandlerOk(e', i, if i == e.loop.undo[0] then Undone(x, e.loop.from) else x)
  {
    assert RegisteredOk(e, i, x);
    if i == e.loop.undo[0] {
      if x.called { LogRevert(e.store, x.height, x.log, x.ts); }
      assert RegisteredOk(e', i, Undone(x, e.loop.from));
    } else {
      assert RegisteredOk(e', i, x);
    }
  }

  lemma UndoOneKeeps(e: State)
    requires Inv(e) && e.loop.Undoing? && e.loop.loaded && e.loop.undo != []
    ensures Inv(TurnLoop(e))
  {
    var e' := TurnLoop(e);
    forall i | i in e'.handlers ensures HandlerOk(e', i, e'.handlers[i]) {
      var x := e.handlers[i];
      if x.phase.Registered? { UndoKeepsRegistered(e, e', i, x); } else { LoopKeepsUnregistered(e, e', i, x); }
    }
  }

  lemma UndoMoveKeepsRegistered(e: State, e': State, i: Id, x: Handler)
    requires Has(e.store, e.head) && LoopOk(e) && HandlerOk(e, i, x) && x.phase.Registered?
    requires e.loop.Undoing? && (e.loop.loaded ==> e.loop.undo == []) && e' == TurnLoop(e)
    ensures HandlerOk(e', i, x)
  {
    assert RegisteredOk(e, i, x);
    assert RegisteredOk(e', i, x);
  }

  lemma UndoMoveKeepsLoop(e: State)
    requires Has(e.store, e.head) && IndexOk(e) && LoopOk(e) && e.loop.Undoing? && (e.loop.loaded ==> e.loop.undo == [])
    ensures IndexOk(TurnLoop(e)) && LoopOk(TurnLoop(e))
  {
  }

  lemma UndoMoveKeeps(e: State)
    requires Inv(e) && e.loop.Undoing? && (e.loop.loaded ==> e.loop.undo == [])
    ensures Inv(TurnLoop(e))
  {
    var e' := TurnLoop(e);
    UndoMoveKeepsLoop(e);
    forall i | i in e'.handlers ensures HandlerOk(e', i, e'.handlers[i]) {
      var x := e.handlers[i];
      if x.phase.Registered? { UndoMoveKeepsRegistered(e, e', i, x); } else { LoopKeepsUnregistered(e, e', i, x); }
    }
  }

  lemma TurnKeeps(e: State)
    requires Inv(e) && !e.loop.Idle?
    ensures Inv(TurnLoop(e))
  {
    if e.loop.Applying? {
      if e.loop.loaded && e.loop.stash != [] {
        StashKeeps(e);
      } else if e.loop.loaded && e.loop.fire != [] {
        FireKeeps(e);
      } else {
        LoadKeeps(e);
      }
    } else if e.loop.loaded && e.loop.undo != [] {
      UndoOneKeeps(e);
    } else {
      UndoMoveKeeps(e);
    }
  }

  // ---------------------------------------------------------------------

  // A section of ChainAt that changes only its own handler.
  lemma OwnSectionKeeps(e: State, id: Id, y: Handler)
    requires Inv(e) && id in e.handlers && Running(e.handlers[id])
    requires HandlerOk(e, id, y) && !y.phase.Registered?
    ensures Inv(e.(handlers := e.handlers[id := y]))
  {
    var e' := e.(handlers := e.handlers[id := y]);
    forall i | i in e'.handlers ensures HandlerOk(e', i, e'.handlers[i]) {
      assert HandlerOk(e, i, e'.handlers[i]);
    }
  }

  lemma FetchOk(e: State, id: Id, o: Outcome)
    requires Has(e.store, e.head) && id in e.handlers && HandlerOk(e, id, e.handlers[id])
             && e.handlers[id].phase.Fetching?
    ensures HandlerOk(e, id, FetchSection(e.store, e.handlers[id], e.handlers[id].phase.head, o))
  {
    var x := e.handlers[id];
    if x.called { LogRevert(e.store, x.height, x.log, x.ts); }
  }

  lemma CallOk(e: State, id: Id, o: Outcome)
    requires Has(e.store, e.head) && id in e.handlers && HandlerOk(e, id, e.handlers[id])
             && e.handlers[id].phase.Calling?
    ensures HandlerOk(e, id, CallSection(e.handlers[id], e.handlers[id].phase.head, e.gc, o))
  {
    var x := e.handlers[id];
    if !x.called { LogHandle(e.store, x.height, x.log, x.ts.value, x.phase.head.height); }
  }

  lemma RevertOk(e: State, id: Id, o: Outcome)
    requires Inv(e) && id in e.handlers && e.handlers[id].phase.Reverting?
    ensures HandlerOk(e, id, RevertSection(e.handlers[id], e.handlers[id].phase.head, o))
  {
    var x := e.handlers[id];
    assert HandlerOk(e, id, x);
    LogRevert(e.store, x.height, x.log, x.ts);
  }

  // Registering appends to the indexes and nothing else.
  lemma AddBucket(m: Index, h: nat, id: Id, k: int)
    ensures Bucket(Add(m, h, id), k) == if k == h then Bucket(m, h) + [id] else Bucket(m, k)
  {
  }

  lemma RegisterKeepsOther(e: State, e': State, i: Id, x: Handler, id: Id, h: nat, t: nat)
    requires Has(e.store, e.head) && HandlerOk(e, i, x)
    requires e' == e.(handlers := e'.handlers, tsHeights := Add(e.tsHeights, h, id),
                        triggerHeights := Add(e.triggerHeights, t, id))
    ensures HandlerOk(e', i, x)
  {
    AddBucket(e.tsHeights, h, id, x.height);
    AddBucket(e.triggerHeights, t, id, x.triggerAt);
    if x.phase.Registered? { assert RegisteredOk(e', i, x); }
  }

  lemma RegisterKeepsTipsets(e: State, id: Id, y: Handler)
    requires IndexOk(e) && id in e.handlers && !e.handlers[id].phase.Registered? && y.phase.Registered?
    ensures var m, handlers := Add(e.tsHeights, y.height, id), e.handlers[id := y];
            forall h, i | h in m && i in m[h] ::
              i in handlers && handlers[i].phase.Registered? && handlers[i].height == h
  {
  }

  lemma RegisterKeepsTriggers(e: State, id: Id, y: Handler)
    requires IndexOk(e) && id in e.handlers && !e.handlers[id].phase.Registered? && y.phase.Registered?
    ensures var m, handlers := Add(e.triggerHeights, y.triggerAt, id), e.handlers[id := y];
            forall h, i | h in m && i in m[h] ::
              i in handlers && handlers[i].phase.Registered? && handlers[i].triggerAt == h
  {
  }

  lemma RegisterKeepsLoop(e: State, e': State, id: Id, y: Handler)
    requires Has(e.store, e.head) && LoopOk(e) && id in e.handlers && !e.handlers[id].phase.Registered?
    requires e' == e.(handlers := e.handlers[id := y], tsHeights := e'.tsHeights, triggerHeights := e'.triggerHeights)
    ensures LoopOk(e')
  {
  }

  lemma RegisterOk(e: State, e': State, id: Id)
    requires Has(e.store, e.head) && id in e.handlers && e.handlers[id].phase == Checking(e.head)
    requires HandlerOk(e, id, e.handlers[id]) && LoopOk(e)
    requires var x := e.handlers[id];
             e' == e.(handlers := e'.handlers,
                      tsHeights := Add(e.tsHeights, x.height, id),
                      triggerHeights := Add(e.triggerHeights, x.triggerAt, id))
    ensures HandlerOk(e', id, e.handlers[id].(phase := Registered))
  {
    var x := e.handlers[id];
    AddBucket(e.tsHeights, x.height, id, x.height);
    AddBucket(e.triggerHeights, x.triggerAt, id, x.triggerAt);
    assert RegisteredOk(e', id, x.(phase := Registered));
  }

  lemma RegisterKeeps(e: State, id: Id, o: Outcome)
    requires Inv(e) && id in e.handlers && e.handlers[id].phase == Checking(e.head)
    ensures Inv(SectionOf(e, id, o))
  {
    var x, e' := e.handlers[id], SectionOf(e, id, o);
    var y := x.(phase := Registered);
    RegisterKeepsTipsets(e, id, y);
    RegisterKeepsTriggers(e, id, y);
    RegisterKeepsLoop(e, e', id, y);
    RegisterOk(e, e', id);
    forall i | i in e'.handlers ensures HandlerOk(e', i, e'.handlers[i]) {
      if i != id { RegisterKeepsOther(e, e', i, e.handlers[i], id, x.height, x.triggerAt); }
    }
  }

  lemma LookOk(e: State, id: Id, o: Outcome)
    requires Inv(e) && id in e.handlers && e.handlers[id].phase.Looking?
    ensures var y := SectionOf(e, id, o).handlers[id];
            HandlerOk(e, id, y) && !y.phase.Registered?
  {
    assert HandlerOk(e, id, e.handlers[id]);
  }

  lemma OwnSectionOk(e: State, id: Id, o: Outcome)
    requires Inv(e) && id in e.handlers && Running(e.handlers[id]) && e.handlers[id].phase != Checking(e.head)
    ensures var y := SectionOf(e, id, o).handlers[id];
            HandlerOk(e, id, y) && !y.phase.Registered?
  {
    assert HandlerOk(e, id, e.handlers[id]);
    match e.handlers[id].phase
    case Looking => LookOk(e, id, o);
    case Fetching(_) => FetchOk(e, id, o);
    case Calling(_) => CallOk(e, id, o);
    case Reverting(_) => RevertOk(e, id, o);
    case Checking(_) =>
  }

  lemma SectionKeeps(e: State, id: Id, o: Outcome)
    requires Inv(e) && Enabled(e, Section(id, o))
    ensures Inv(Do(e, Section(id, o)))
  {
    if e.handlers[id].phase == Checking(e.head) {
      RegisterKeeps(e, id, o);
    } else {
      OwnSectionOk(e, id, o);
      OwnSectionKeeps(e, id, SectionOf(e, id, o).handlers[id]);
    }
  }

  lemma BeginKeeps(e: State, id: Id, h: nat, confidence: nat)
    requires Inv(e) && Enabled(e, Begin(id, h, confidence))
    ensures Inv(Do(e, Begin(id, h, confidence)))
  {
    var e' := Do(e, Begin(id, h, confidence));
    forall i | i in e'.handlers ensures HandlerOk(e', i, e'.handlers[i]) {
      if i in e.handlers { BeginKeepsOther(e, e', i, e.handlers[i]); }
    }
  }

  lemma BeginKeepsOther(e: State, e': State, i: Id, x: Handler)
    requires Has(e.store, e.head) && HandlerOk(e, i, x) && e' == e.(handlers := e'.handlers)
    ensures HandlerOk(e', i, x)
  {
    if x.phase.Registered? { assert RegisteredOk(e', i, x); }
  }

  lemma StepKeeps(e: State, l: Label)
    requires Inv(e) && Enabled(e, l)
    ensures Inv(Do(e, l))
  {
    match l
    case StartApply(to) => StartApplyKeeps(e, to);
    case StartRevert => StartRevertKeeps(e);
    case Turn => TurnKeeps(e);
    case Begin(id, h, confidence) => BeginKeeps(e, id, h, confidence);
    case Section(id, o) => SectionKeeps(e, id, o);
  }

  // ---------------------------------------------------------------------
  // What every run promises

  ghost predicate Init(e: State) {
    && Has(e.store, e.head) && e.maxHeight == e.head.height
    && e.tsHeights == map[] && e.triggerHeights == map[] && e.handlers == map[] && e.loop.Idle?
  }

  // What a handler was promised, at a head the event loop is done with.
  ghost predicate Promise(e: State, x: Handler)
    requires Has(e.store, e.head)
  {
    && LogOk(e.store, x.height, x.log) && InTime(x)
    && (e.loop.Idle? && (x.phase.Registered? || x.phase.Retired?) ==>
          && (e.head.height >= x.triggerAt ==> x.called)
          && (x.called ==>
                && e.head.height >= x.height
                && |x.log| % 2 == 1
                && x.log[|x.log| - 1].ts.Some?
                && IsLowestAtOrAbove(e.store, e.head, x.height, x.log[|x.log| - 1].ts.value))
          && (!x.called ==> |x.log| % 2 == 0))
  }

  lemma InvPromises(e: State, i: Id)
    requires Inv(e) && i in e.handlers
    ensures Promise(e, e.handlers[i])
  {
    var x := e.handlers[i];
    assert HandlerOk(e, i, x);
    if e.loop.Idle? && (x.phase.Registered? || x.phase.Retired?) && x.called {
      AtOrAboveIsLowest(e.store, e.head, x.height);
    }
  }

  ghost predicate IsRun(states: seq<State>, labels: seq<Label>) {
    && |states| == |labels| + 1
    && Init(states[0])
    && forall k | 0 <= k < |labels| :: Enabled(states[k], labels[k]) && states[k + 1] == Do(states[k], labels[k])
  }

  lemma {:induction false} RunKeeps(states: seq<State>, labels: seq<Label>, k: nat)
    requires IsRun(states, labels) && k < |states|
    ensures Inv(states[k])
  {
    if k > 0 {
      RunKeeps(states, labels, k - 1);
      assert Enabled(states[k - 1], labels[k - 1]) && states[k - 1 + 1] == Do(states[k - 1], labels[k - 1]);
      StepKeeps(states[k - 1], labels[k - 1]);
    }
  }

  // The steps that call ChainAt for this handler: its height and its confidence.
  ghost predicate BeganBy(labels: seq<Label>, k: nat, i: Id, x: Handler) {
    k <= |labels| && exists j :: 0 <= j < k && BeginsAt(labels[j], i, x)
  }

  ghost predicate BeginsAt(l: Label, i: Id, x: Handler) {
    l.Begin? && l.id == i && l.height == x.height && l.height + l.confidence == x.triggerAt
  }

  lemma StepKeepsHeights(e: State, l: Label, i: Id)
    requires Possible(e, l) && i in Do(e, l).handlers
    ensures var y := Do(e, l).handlers[i];
            BeginsAt(l, i, y)
            || (i in e.handlers && e.handlers[i].height == y.height && e.handlers[i].triggerAt == y.triggerAt)
  {
    match l
    case StartApply(_) =>
    case StartRevert =>
    case Turn => TurnKeepsShape(e, i);
    case Begin(_, _, _) =>
    case Section(id, o) => SectionGrows(e, id, o); SectionAddsNone(e, id, o);
  }

  // What no turn of the event loop changes.
  ghost predicate SameShape(a: map<Id, Handler>, b: map<Id, Handler>, i: Id) {
    && (i in a <==> i in b)
    && (i in a ==> b[i] == a[i].(ts := b[i].ts, called := b[i].called, log := b[i].log))
  }

  lemma ChangeKeepsShape(m: map<Id, Handler>, j: Id, f: Handler -> Handler, i: Id)
    requires forall x: Handler :: f(x) == x.(ts := f(x).ts, called := f(x).called, log := f(x).log)
    ensures SameShape(m, Change(m, j, f), i)
  {
  }

  lemma TurnKeepsShape(e: State, i: Id)
    ensures var e' := TurnLoop(e);
            e'.head == e.head && e'.store == e.store && SameShape(e.handlers, e'.handlers, i)
  {
    match e.loop
    case Idle =>
    case Applying(from, at, loaded, stash, fire) =>
      if loaded && stash != [] {
        ChangeKeepsShape(e.handlers, stash[0], x => Stashed(x, e.head), i);
      } else if loaded && fire != [] {
        ChangeKeepsShape(e.handlers, fire[0], x => Fired(x, at), i);
      }
    case Undoing(from, at, loaded, undo) =>
      if loaded && undo != [] { ChangeKeepsShape(e.handlers, undo[0], x => Undone(x, from), i); }
  }

  lemma SectionAddsNone(e: State, id: Id, o: Outcome)
    requires id in e.handlers && Running(e.handlers[id])
    ensures SectionOf(e, id, o).handlers.Keys == e.handlers.Keys
  {
  }

  lemma {:induction false} RunBegins(states: seq<State>, labels: seq<Label>, k: nat, i: Id)
    requires IsRun(states, labels) && k < |states| && i in states[k].handlers
    ensures BeganBy(labels, k, i, states[k].handlers[i])
  {
    assert k > 0;
    assert Enabled(states[k - 1], labels[k - 1]) && states[k - 1 + 1] == Do(states[k - 1], labels[k - 1]);
    StepKeepsHeights(states[k - 1], labels[k - 1], i);
    if !BeginsAt(labels[k - 1], i, states[k].handlers[i]) {
      RunBegins(states, labels, k - 1, i);
      var j :| 0 <= j < k - 1 && BeginsAt(labels[j], i, states[k - 1].handlers[i]);
      assert BeginsAt(labels[j], i, states[k].handlers[i]);
    }
  }

  /** In every state of every interleaving, every handler has had what it was
  promised for the height and the confidence that ChainAt was called with. */
  lemma EveryRunPromises(states: seq<State>, labels: seq<Label>, k: nat, i: Id)
    requires IsRun(states, labels) && k < |states| && i in states[k].handlers
    ensures Has(states[k].store, states[k].head) && Promise(states[k], states[k].handlers[i])
    ensures BeganBy(labels, k, i, states[k].handlers[i])
  {
    RunKeeps(states, labels, k);
    InvPromises(states[k], i);
    RunBegins(states, labels, k, i);
  }

  // ---------------------------------------------------------------------
  // ChainAt ends once the head stands still

  // The head does not move, and nothing that this call of ChainAt does fails.
  ghost predicate IsStill(states: seq<State>, labels: seq<Label>, id: Id) {
    |states| == |labels| + 1 && forall k | 0 <= k < |labels| :: StillStep(states, labels, id, k)
  }

  ghost predicate StillStep(states: seq<State>, labels: seq<Label>, id: Id, k: nat)
    requires k < |labels| == |states| - 1
  {
    && Possible(states[k], labels[k]) && states[k + 1] == Do(states[k], labels[k])
    && !labels[k].StartApply? && !labels[k].StartRevert?
    && (labels[k].Section? && labels[k].id == id ==> labels[k].outcome.Fine?)
  }

  function SectionsOf(labels: seq<Label>, id: Id): nat {
    if labels == [] then 0
    else
      var n := |labels| - 1;
      SectionsOf(labels[..n], id) + if labels[n].Section? && labels[n].id == id then 1 else 0
  }

  // At most this many sections are left if the head stays where it is.
  ghost predicate AlmostDone(e: State, id: Id, left: int) {
    && Has(e.store, e.head) && id in e.handlers
    && var x := e.handlers[id];
    match x.phase
    case Looking => left >= 4
    case Fetching(head) => head == e.head && head.height >= x.height && left >= 3
    case Calling(head) => head == e.head && left >= 2
    case Reverting(head) => head == e.head && left >= 2
    case Checking(head) => head == e.head && left >= 1
    case Registered => true
    case Retired => true
    case Failed => false
  }

  lemma StillStepNears(e: State, l: Label, id: Id, left: int)
    requires AlmostDone(e, id, left) && Possible(e, l) && !l.StartApply? && !l.StartRevert?
    requires l.Section? && l.id == id ==> l.outcome.Fine?
    ensures AlmostDone(Do(e, l), id, if l.Section? && l.id == id then left - 1 else left)
  {
    if l.Turn? {
      TurnKeepsShape(e, id);
    } else if l.Section? && l.id != id {
      assert SectionOf(e, l.id, l.outcome).handlers[id] == e.handlers[id];
    }
  }

  lemma {:induction false} StillNears(states: seq<State>, labels: seq<Label>, id: Id, k: nat)
    requires IsStill(states, labels, id) && k <= |labels| && AlmostDone(states[0], id, 4)
    ensures AlmostDone(states[k], id, 4 - SectionsOf(labels[..k], id))
  {
    if k == 0 {
      assert labels[..0] == [];
    } else {
      StillNears(states, labels, id, k - 1);
      assert StillStep(states, labels, id, k - 1);
      assert labels[..k][..k - 1] == labels[..k - 1];
      StillStepNears(states[k - 1], labels[k - 1], id, 4 - SectionsOf(labels[..k - 1], id));
    }
  }

  /** While the head stands still a call of ChainAt needs at most four sections,
  whatever else goes on between them: then the handler is registered, or it has been
  called so deep that nothing more has to be watched. */
  lemma StillHeadRegisters(states: seq<State>, labels: seq<Label>, id: Id)
    requires IsStill(states, labels, id) && SectionsOf(labels, id) >= 4
    requires Has(states[0].store, states[0].head) && id in states[0].handlers && states[0].handlers[id].phase.Looking?
    ensures id in states[|labels|].handlers
    ensures var x := states[|labels|].handlers[id]; x.phase.Registered? || x.phase.Retired?
  {
    assert labels[..|labels|] == labels;
    StillNears(states, labels, id, |labels|);
  }

  // ---------------------------------------------------------------------
  // Why ChainAt calls back, gives up and ends

  lemma FetchWithdraws(s: Store, x: Handler, head: TipSet, o: Outcome)
    requires Has(s, head) && x.ts.Some? && |FetchSection(s, x, head, o).log| > |x.log|
    ensures x.called && !IsLowestAtOrAbove(s, head, x.height, x.ts.value)
  {
    AtOrAboveIsLowest(s, head, x.height);
    if IsLowestAtOrAbove(s, head, x.height, x.ts.value) {
      LowestUnique(s, head, x.height, AtOrAbove(s, head, x.height), x.ts.value);
    }
  }

  lemma CalledHasTipset(e: State, i: Id, x: Handler)
    requires Has(e.store, e.head) && HandlerOk(e, i, x) && x.called && !x.phase.Failed?
    ensures x.ts.Some?
  {
    assert CallAt(e.store, x.height, x.log, |x.log| - 1);
  }

  /** ChainAt withdraws a call only if the head it read is below the handler's height, or
  has another tipset there than the one the call was made with. */
  lemma WithdrawnForCause(e: State, id: Id, o: Outcome)
    requires Has(e.store, e.head) && id in e.handlers && Running(e.handlers[id]) && HandlerOk(e, id, e.handlers[id])
    requires var x, y := e.handlers[id], SectionOf(e, id, o).handlers[id];
             |y.log| > |x.log| && y.log[|y.log| - 1].Revert?
    ensures var x := e.handlers[id];
            && x.called && x.ts.Some? && (x.phase.Fetching? || x.phase.Reverting?) && Has(e.store, x.phase.head)
            && (x.phase.head.height < x.height
                || !IsLowestAtOrAbove(e.store, x.phase.head, x.height, x.ts.value))
  {
    var x := e.handlers[id];
    match x.phase
    case Looking =>
    case Fetching(head) =>
      CalledHasTipset(e, id, x);
      FetchWithdraws(e.store, x, head, o);
    case Calling(_) =>
    case Reverting(head) => CalledHasTipset(e, id, x);
    case Checking(_) =>
  }

  // This section is one that fails: the chain API gives no tipset, or the handler's
  // own function returns an error.
  ghost predicate FailsAt(e: State, e': State, l: Label, id: Id) {
    && l.Section? && l.id == id && id in e.handlers && id in e'.handlers
    && ((l.outcome.ApiError? && e.handlers[id].phase.Fetching?)
        || (l.outcome.HandlerError? && |e'.handlers[id].log| > |e.handlers[id].log|))
  }

  // The handler is in no index, so nothing will call it.
  ghost predicate Unwatched(e: State, id: Id) {
    && (forall h | h in e.tsHeights :: id !in e.tsHeights[h])
    && (forall h | h in e.triggerHeights :: id !in e.triggerHeights[h])
  }

  lemma SectionFails(e: State, id: Id, o: Outcome)
    requires Has(e.store, e.head) && id in e.handlers && Running(e.handlers[id]) && HandlerOk(e, id, e.handlers[id])
    ensures var x, y := e.handlers[id], SectionOf(e, id, o).handlers[id];
            y.phase.Failed? <==>
              (o.ApiError? && x.phase.Fetching?) || (o.HandlerError? && |y.log| > |x.log|)
  {
    var x := e.handlers[id];
    match x.phase
    case Looking =>
    case Fetching(head) => assert SectionOf(e, id, o).handlers[id] == FetchSection(e.store, x, head, o);
    case Calling(head) => assert SectionOf(e, id, o).handlers[id] == CallSection(x, head, e.gc, o);
    case Reverting(head) => assert SectionOf(e, id, o).handlers[id] == RevertSection(x, head, o);
    case Checking(_) =>
  }

  lemma StepKeepsId(e: State, l: Label, id: Id)
    requires Possible(e, l) && id in e.handlers
    ensures id in Do(e, l).handlers
    ensures !(l.Section? && l.id == id) ==> Do(e, l).handlers[id].phase == e.handlers[id].phase
  {
    match l
    case StartApply(_) =>
    case StartRevert =>
    case Turn => TurnKeepsShape(e, id);
    case Begin(_, _, _) =>
    case Section(i, o) => if i != id { assert SectionOf(e, i, o).handlers[id] == e.handlers[id]; }
  }

  // A call of ChainAt fails at the sections that fail and at no others.
  lemma FailureFails(e: State, l: Label, id: Id)
    requires Inv(e) && Enabled(e, l) && id in e.handlers && !e.handlers[id].phase.Failed?
    ensures var e' := Do(e, l); id in e'.handlers && (e'.handlers[id].phase.Failed? <==> FailsAt(e, e', l, id))
  {
    StepKeepsId(e, l, id);
    if l.Section? && l.id == id {
      assert HandlerOk(e, id, e.handlers[id]);
      SectionFails(e, id, l.outcome);
    }
  }

  lemma FailedStays(e: State, l: Label, id: Id)
    requires Inv(e) && Enabled(e, l) && id in e.handlers && e.handlers[id].phase.Failed?
    ensures id in Do(e, l).handlers && Do(e, l).handlers[id] == e.handlers[id]
  {
    if l.Turn? { TurnSpares(e, id); }
  }

  // The event loop calls only handlers that are registered.
  lemma TurnSpares(e: State, id: Id)
    requires Has(e.store, e.head) && LoopOk(e) && id in e.handlers && !e.handlers[id].phase.Registered?
    ensures id in TurnLoop(e).handlers && TurnLoop(e).handlers[id] == e.handlers[id]
  {
    match e.loop
    case Idle =>
    case Applying(_, _, _, stash, fire) =>
      assert stash != [] ==> stash[0] in stash;
      assert fire != [] ==> fire[0] in fire;
    case Undoing(_, _, _, undo) => assert undo != [] ==> undo[0] in undo;
  }

  lemma FailedNext(states: seq<State>, labels: seq<Label>, n: nat, id: Id)
    requires IsRun(states, labels) && n < |labels|
    requires id in states[n].handlers && states[n].handlers[id].phase.Failed?
    ensures id in states[n + 1].handlers && states[n + 1].handlers[id] == states[n].handlers[id]
  {
    RunKeeps(states, labels, n);
    FailedStays(states[n], labels[n], id);
  }

  lemma FailedUnwatched(e: State, id: Id)
    requires IndexOk(e) && id in e.handlers && e.handlers[id].phase.Failed?
    ensures Unwatched(e, id)
  {
  }

  lemma FailsNow(states: seq<State>, labels: seq<Label>, k: nat, id: Id)
    requires IsRun(states, labels) && k < |labels| && FailsAt(states[k], states[k + 1], labels[k], id)
    ensures states[k + 1].handlers[id].phase.Failed?
  {
    RunKeeps(states, labels, k);
    if !states[k].handlers[id].phase.Failed? { FailureFails(states[k], labels[k], id); }
  }

  lemma {:induction false} FailureEnds(states: seq<State>, labels: seq<Label>, k: nat, n: nat, id: Id)
    requires IsRun(states, labels) && k < |labels| && k < n < |states|
    requires FailsAt(states[k], states[k + 1], labels[k], id)
    ensures id in states[n].handlers && states[n].handlers[id] == states[k + 1].handlers[id]
    ensures states[n].handlers[id].phase.Failed? && Unwatched(states[n], id)
  {
    if n - 1 == k {
      FailsNow(states, labels, k, id);
    } else {
      FailureEnds(states, labels, k, n - 1, id);
      FailedNext(states, labels, n - 1, id);
    }
    assert IndexOk(states[n]) by { RunKeeps(states, labels, n); }
    FailedUnwatched(states[n], id);
  }

  // The last call was made so far above the height that nothing more has to be watched.
  ghost predicate CalledDeep(gc: nat, x: Handler) {
    x.log != [] && x.log[|x.log| - 1].Handle? && x.log[|x.log| - 1].at >= x.height + gc
  }

  // A call made by the event loop comes at the trigger height.
  ghost predicate EndsRight(gc: nat, x: Handler) {
    && (x.phase.Retired? ==> CalledDeep(gc, x))
    && (x.called && CalledDeep(gc, x) && !x.phase.Retired? ==> x.log[|x.log| - 1].at == x.triggerAt)
  }

  lemma FiredEndsRight(gc: nat, x: Handler, at: int)
    requires EndsRight(gc, x) && x.phase.Registered? && x.triggerAt == at
    ensures EndsRight(gc, Fired(x, at))
  {
  }

  lemma TurnEndsRight(e: State, id: Id)
    requires Has(e.store, e.head) && LoopOk(e) && id in e.handlers && EndsRight(e.gc, e.handlers[id])
    requires e.handlers[id].phase.Registered?
    ensures id in TurnLoop(e).handlers && EndsRight(e.gc, TurnLoop(e).handlers[id])
  {
    var x := e.handlers[id];
    match e.loop
    case Idle =>
    case Applying(_, at, _, stash, fire) =>
      if fire != [] && fire[0] == id {
        assert fire[0] in fire;
        FiredEndsRight(e.gc, x, at);
      }
    case Undoing(_, _, _, undo) =>
  }

  lemma SectionEndsRight(e: State, id: Id, o: Outcome)
    requires Has(e.store, e.head) && id in e.handlers && Running(e.handlers[id])
    requires HandlerOk(e, id, e.handlers[id]) && EndsRight(e.gc, e.handlers[id])
    ensures EndsRight(e.gc, SectionOf(e, id, o).handlers[id])
  {
    var x := e.handlers[id];
    match x.phase
    case Looking =>
    case Fetching(head) => assert EndsRight(e.gc, FetchSection(e.store, x, head, o));
    case Calling(head) => assert EndsRight(e.gc, CallSection(x, head, e.gc, o));
    case Reverting(head) => assert EndsRight(e.gc, RevertSection(x, head, o));
    case Checking(head) =>
  }

  lemma StepEndsRight(e: State, l: Label, id: Id)
    requires Inv(e) && Enabled(e, l) && id in e.handlers && EndsRight(e.gc, e.handlers[id])
    ensures id in Do(e, l).handlers && EndsRight(e.gc, Do(e, l).handlers[id])
  {
    match l
    case StartApply(_) =>
    case StartRevert =>
    case Turn => if e.handlers[id].phase.Registered? { TurnEndsRight(e, id); } else { TurnSpares(e, id); }
    case Begin(_, _, _) =>
    case Section(i, o) => if i == id { assert HandlerOk(e, id, e.handlers[id]); SectionEndsRight(e, id, o); }
  }

  lemma NewEndsRight(e: State, l: Label, id: Id)
    requires Possible(e, l) && id in Do(e, l).handlers && id !in e.handlers
    ensures EndsRight(e.gc, Do(e, l).handlers[id])
  {
    StepKeepsHeights(e, l, id);
  }

  lemma NextEndsRight(states: seq<State>, labels: seq<Label>, k: nat, id: Id)
    requires IsRun(states, labels) && k < |labels| && id in states[k + 1].handlers
    requires id in states[k].handlers ==> EndsRight(states[k].gc, states[k].handlers[id])
    ensures EndsRight(states[k].gc, states[k + 1].handlers[id])
  {
    if id in states[k].handlers {
      RunKeeps(states, labels, k);
      StepEndsRight(states[k], labels[k], id);
    } else {
      NewEndsRight(states[k], labels[k], id);
    }
  }

  lemma SameGc(states: seq<State>, labels: seq<Label>, k: nat)
    requires IsRun(states, labels) && k < |labels|
    ensures states[k + 1].gc == states[k].gc
  {
    assert states[k + 1] == Do(states[k], labels[k]);
  }

  /** A call of ChainAt ends without the handler being watched exactly if it called the
  handler at a head gc or more above its height. */
  lemma {:induction false} RetiredIsDeep(states: seq<State>, labels: seq<Label>, k: nat, id: Id)
    requires IsRun(states, labels) && k < |states| && id in states[k].handlers
    ensures EndsRight(states[k].gc, states[k].handlers[id])
  {
    if k > 0 {
      if id in states[k - 1].handlers { RetiredIsDeep(states, labels, k - 1, id); }
      NextEndsRight(states, labels, k - 1, id);
      SameGc(states, labels, k - 1);
    }
  }

  // ---------------------------------------------------------------------
  // No handler is lost

  // A handler keeps its heights, its calls so far and its registration.
  ghost predicate Continues(x: Handler, y: Handler) {
    && y.height == x.height && y.triggerAt == x.triggerAt && x.log <= y.log
    && (x.phase.Registered? ==> y.phase.Registered?)
  }

  ghost predicate Grows(a: map<Id, Handler>, b: map<Id, Handler>) {
    forall i | i in a :: i in b && Continues(a[i], b[i])
  }

  lemma GrowsTransitive(a: map<Id, Handler>, b: map<Id, Handler>, c: map<Id, Handler>)
    requires Grows(a, b) && Grows(b, c)
    ensures Grows(a, c)
  {
    forall i | i in a ensures i in c && Continues(a[i], c[i]) {
      assert Continues(a[i], b[i]) && Continues(b[i], c[i]);
    }
  }

  lemma SectionGrows(e: State, id: Id, o: Outcome)
    requires id in e.handlers && Running(e.handlers[id])
    ensures Grows(e.handlers, SectionOf(e, id, o).handlers)
  {
    SectionContinues(e, id, o);
    forall i | i in e.handlers && i != id ensures SectionOf(e, id, o).handlers[i] == e.handlers[i] {}
  }

  lemma SectionContinues(e: State, id: Id, o: Outcome)
    requires id in e.handlers && Running(e.handlers[id])
    ensures Continues(e.handlers[id], SectionOf(e, id, o).handlers[id])
  {
    var x := e.handlers[id];
    match x.phase
    case Looking =>
    case Fetching(head) => assert x.log <= FetchSection(e.store, x, head, o).log;
    case Calling(head) => assert x.log <= CallSection(x, head, e.gc, o).log;
    case Reverting(head) => assert x.log <= RevertSection(x, head, o).log;
    case Checking(head) =>
  }

  // ---------------------------------------------------------------------
  // The event loop and ChainAt in their own form

  class HeightObserver {
    const store: Store
    const gc: nat
    var head: TipSet
    var lastGc: nat
    var tsHeights: Index
    var triggerHeights: Index
    var handlers: map<Id, Handler>
    ghost var maxHeight: nat
    ghost var loop: Loop

    ghost function View(): State
      reads this
    {
      State(store, gc, head, lastGc, maxHeight, tsHeights, triggerHeights, handlers, loop)
    }

    constructor (store: Store, gc: nat, head: TipSet)
      requires Has(store, head)
      ensures Init(View()) && Inv(View()) && this.store == store && this.gc == gc && this.head == head
    {
      this.store, this.gc, this.head, lastGc := store, gc, head, 0;
      tsHeights, triggerHeights, handlers := map[], map[], map[];
      maxHeight, loop := head.height, Idle;
    }

    static method Collect(m: Index, target: int) returns (kept: Index)
      ensures kept == KeepFrom(m, target)
    {
      kept := m;
      var rest := m.Keys;
      while rest != {}
        invariant rest <= m.Keys
        invariant forall h :: h in kept.Keys <==> h in m.Keys && (h in rest || h >= target)
        invariant forall h | h in kept :: kept[h] == m[h]
        decreases |rest|
      {
        var h :| h in rest;
        if h < target { kept := kept - {h}; }
        rest := rest - {h};
      }
    }

    method UpdateHead(to: TipSet)
      modifies this`head, this`maxHeight, this`lastGc, this`tsHeights, this`triggerHeights
      ensures View() == HeadUpdated(old(View()), to)
    {
      head := to;
      if to.height > maxHeight { maxHeight := to.height; }
      if head.height < lastGc + gc * 2 { return; }
      lastGc := head.height;
      var targetGcHeight := head.height - gc;
      tsHeights := Collect(tsHeights, targetGcHeight);
      triggerHeights := Collect(triggerHeights, targetGcHeight);
    }

    // ChainAt starts; a confidence above gc is refused.
    method ChainAt(id: Id, confidence: nat, h: nat) returns (ok: bool)
      requires Inv(View()) && id !in handlers
      modifies this`handlers
      ensures Inv(View()) && ok == (confidence <= gc)
      ensures View() == Do(old(View()), Begin(id, h, confidence))
    {
      ghost var after := Do(View(), Begin(id, h, confidence));
      assert Inv(after) by { BeginKeeps(View(), id, h, confidence); }
      if confidence > gc { return false; }
      handlers := handlers[id := Handler(h, h + confidence, None, false, [], Looking)];
      assert View() == after;
      return true;
    }

    // One section of ChainAt between taking and releasing the lock or calling out.
    method ChainAtSection(id: Id, o: Outcome)
      requires Inv(View()) && id in handlers && Running(handlers[id])
      modifies this`handlers, this`tsHeights, this`triggerHeights
      ensures Inv(View()) && View() == Do(old(View()), Section(id, o))
    {
      ghost var after := Do(View(), Section(id, o));
      assert Inv(after) by { SectionKeeps(View(), id, o); }
      var x := handlers[id];
      match x.phase {
        case Looking =>
          if head.height >= x.height {
            x := x.(phase := Fetching(head));
          } else if x.called {
            x := x.(phase := Reverting(head));
          } else {
            x := x.(phase := Checking(head));
          }
          handlers := handlers[id := x];
        case Fetching(snapshot) =>
          x := FetchSection(store, x, snapshot, o);
          handlers := handlers[id := x];
        case Calling(snapshot) =>
          if !x.called && snapshot.height >= x.triggerAt {
            x := x.(log := x.log + [Handle(x.ts, snapshot.height)]);
            if o.HandlerError? {
              x := x.(phase := Failed);
            } else {
              x := x.(called := true,
                      phase := if snapshot.height >= x.height + gc then Retired else Checking(snapshot));
            }
          } else {
            x := x.(phase := Checking(snapshot));
          }
          handlers := handlers[id := x];
        case Reverting(snapshot) =>
          x := RevertSection(x, snapshot, o);
          handlers := handlers[id := x];
        case Checking(snapshot) =>
          if snapshot == head {
            triggerHeights := Add(triggerHeights, x.triggerAt, id);
            tsHeights := Add(tsHeights, x.height, id);
            handlers := handlers[id := x.(phase := Registered)];
          } else {
            handlers := handlers[id := x.(phase := Looking)];
          }
      }
      assert View() == after;
    }

    // What concurrent calls of ChainAt may do whenever the event loop does not
    // hold the lock.
    method Others()
      requires Inv(View())
      modifies this`handlers, this`tsHeights, this`triggerHeights
      ensures Inv(View()) && Grows(old(handlers), handlers)
    {
      var steps: nat := *;
      while steps > 0
        invariant Inv(View()) && Grows(old(handlers), handlers)
      {
        var id: Id, h: nat, confidence: nat, o: Outcome := *, *, *, *;
        ghost var before := handlers;
        if id !in handlers {
          var _ := ChainAt(id, confidence, h);
        } else if Running(handlers[id]) {
          SectionGrows(View(), id, o);
          ChainAtSection(id, o);
        }
        GrowsTransitive(old(handlers), before, handlers);
        steps := steps - 1;
      }
    }

    // A turn of the event loop on one loaded handler; registrations may follow.
    method TurnHandler(id: Id, y: Handler, ghost next: Loop)
      requires Inv(View()) && !loop.Idle? && id in handlers
      requires View().(handlers := handlers[id := y], loop := next) == TurnLoop(View()) && Continues(handlers[id], y)
      modifies this`handlers, this`loop, this`tsHeights, this`triggerHeights
      ensures Inv(View()) && loop == next && Grows(old(handlers), handlers)
    {
      ghost var after := TurnLoop(View());
      assert Inv(after) by { TurnKeeps(View()); }
      handlers := handlers[id := y];
      loop := next;
      assert View() == after;
      ghost var before := handlers;
      Others();
      GrowsTransitive(old(handlers), before, handlers);
    }

    ghost method TurnTo(next: Loop)
      requires Inv(View()) && !loop.Idle? && View().(loop := next) == TurnLoop(View())
      modifies this`loop
      ensures Inv(View()) && loop == next
    {
      TurnKeeps(View());
      loop := next;
    }

    // Stashes the applied tipset for the handlers loaded at height h.
    method StashAll(from: TipSet, h: int, tipsets: seq<Id>, ghost triggers: seq<Id>)
      requires Inv(View()) && loop == Applying(from, h, true, tipsets, triggers)
      modifies this`handlers, this`loop, this`tsHeights, this`triggerHeights
      ensures Inv(View()) && loop == Applying(from, h, true, [], triggers) && Grows(old(handlers), handlers)
    {
      for k := 0 to |tipsets|
        invariant Inv(View()) && loop == Applying(from, h, true, tipsets[k..], triggers)
                  && Grows(old(handlers), handlers)
      {
        assert tipsets[k..][0] == tipsets[k] && tipsets[k..][1..] == tipsets[k + 1..];
        var x := handlers[tipsets[k]].(ts := Some(head));
        ghost var before := handlers;
        TurnHandler(tipsets[k], x, Applying(from, h, true, tipsets[k + 1..], triggers));
        GrowsTransitive(old(handlers), before, handlers);
      }
    }

    // Calls the handlers loaded at height h that have not been called yet.
    method FireAll(from: TipSet, h: int, triggers: seq<Id>)
      requires Inv(View()) && loop == Applying(from, h, true, [], triggers)
      modifies this`handlers, this`loop, this`tsHeights, this`triggerHeights
      ensures Inv(View()) && loop == Applying(from, h, true, [], []) && Grows(old(handlers), handlers)
    {
      for k := 0 to |triggers|
        invariant Inv(View()) && loop == Applying(from, h, true, [], triggers[k..]) && Grows(old(handlers), handlers)
      {
        assert triggers[k..][0] == triggers[k] && triggers[k..][1..] == triggers[k + 1..];
        var x := handlers[triggers[k]];
        if !x.called { x := x.(log := x.log + [Handle(x.ts, h)], called := true); }
        ghost var before := handlers;
        TurnHandler(triggers[k], x, Applying(from, h, true, [], triggers[k + 1..]));
        GrowsTransitive(old(handlers), before, handlers);
      }
    }

    // Undoes the handlers loaded at height h.
    method UndoAll(from: TipSet, h: int, triggers: seq<Id>)
      requires Inv(View()) && loop == Undoing(from, h, true, triggers)
      modifies this`handlers, this`loop, this`tsHeights, this`triggerHeights
      ensures Inv(View()) && loop == Undoing(from, h, true, []) && Grows(old(handlers), handlers)
    {
      for k := 0 to |triggers|
        invariant Inv(View()) && loop == Undoing(from, h, true, triggers[k..]) && Grows(old(handlers), handlers)
      {
        assert triggers[k..][0] == triggers[k] && triggers[k..][1..] == triggers[k + 1..];
        var x := handlers[triggers[k]].(ts := None);
        if x.called { x := x.(log := x.log + [Call.Revert(Some(from))], called := false); }
        ghost var before := handlers;
        TurnHandler(triggers[k], x, Undoing(from, h, true, triggers[k + 1..]));
        GrowsTransitive(old(handlers), before, handlers);
      }
    }

    method ApplyHeight(from: TipSet, h: int)
      requires Inv(View()) && loop == Applying(from, h, false, [], []) && h <= head.height
      modifies this`handlers, this`loop, this`tsHeights, this`triggerHeights
      ensures Inv(View()) && loop == Applying(from, h + 1, false, [], []) && Grows(old(handlers), handlers)
    {
      var triggers, tipsets := Bucket(triggerHeights, h), Bucket(tsHeights, h);
      TurnTo(Applying(from, h, true, tipsets, triggers));
      Others();
      ghost var loaded := handlers;
      StashAll(from, h, tipsets, triggers);
      GrowsTransitive(old(handlers), loaded, handlers);
      ghost var stashed := handlers;
      FireAll(from, h, triggers);
      GrowsTransitive(old(handlers), stashed, handlers);
      TurnTo(Applying(from, h + 1, false, [], []));
    }

    method UndoHeight(from: TipSet, h: int)
      requires Inv(View()) && loop == Undoing(from, h, false, []) && h > head.height
      modifies this`handlers, this`loop, this`tsHeights, this`triggerHeights
      ensures Inv(View()) && loop == Undoing(from, h - 1, false, []) && Grows(old(handlers), handlers)
    {
      var triggers := Bucket(tsHeights, h);
      TurnTo(Undoing(from, h, true, triggers));
      Others();
      ghost var loaded := handlers;
      UndoAll(from, h, triggers);
      GrowsTransitive(old(handlers), loaded, handlers);
      TurnTo(Undoing(from, h - 1, false, []));
    }

    method BeginApply(from: TipSet, to: TipSet)
      requires Inv(View()) && from == head && Enabled(View(), StartApply(to))
      modifies this
      ensures Inv(View()) && head == to && loop == Applying(from, from.height + 1, false, [], [])
              && handlers == old(handlers)
    {
      ghost var after := Do(View(), StartApply(to));
      assert Inv(after) by { StartApplyKeeps(View(), to); }
      UpdateHead(to);
      loop := Applying(from, from.height + 1, false, [], []);
      assert View() == after;
    }

    method BeginRevert(from: TipSet, to: TipSet)
      requires Inv(View()) && from == head && Enabled(View(), StartRevert) && to == Parent(store, from)
      modifies this
      ensures Inv(View()) && head == to && loop == Undoing(from, from.height, false, []) && handlers == old(handlers)
    {
      ghost var after := Do(View(), StartRevert);
      assert Inv(after) by { StartRevertKeeps(View()); }
      UpdateHead(to);
      loop := Undoing(from, from.height, false, []);
      assert View() == after;
    }

    /** Applies a tipset, while registrations go on: afterwards every registered
    handler is where it should be for the new head. */
    method Apply(from: TipSet, to: TipSet)
      requires Inv(View()) && from == head && Enabled(View(), StartApply(to))
      modifies this
      ensures Inv(View()) && loop.Idle? && head == to && Grows(old(handlers), handlers)
    {
      BeginApply(from, to);
      Others();
      var h := from.height + 1;
      while h <= to.height
        invariant h <= to.height + 1 && head == to
        invariant Inv(View()) && loop == Applying(from, h, false, [], []) && Grows(old(handlers), handlers)
      {
        ghost var before := handlers;
        ApplyHeight(from, h);
        GrowsTransitive(old(handlers), before, handlers);
        h := h + 1;
      }
      TurnTo(Idle);
    }

    /** Reverts the head to its parent, while registrations go on. */
    method Revert(from: TipSet, to: TipSet)
      requires Inv(View()) && from == head && Enabled(View(), StartRevert) && to == Parent(store, from)
      modifies this
      ensures Inv(View()) && loop.Idle? && head == to && Grows(old(handlers), handlers)
    {
      BeginRevert(from, to);
      Others();
      var h: int := from.height;
      while h > to.height
        invariant h >= to.height && head == to
        invariant Inv(View()) && loop == Undoing(from, h, false, []) && Grows(old(handlers), handlers)
      {
        ghost var before := handlers;
        UndoHeight(from, h);
        GrowsTransitive(old(handlers), before, handlers);
        h := h - 1;
      }
      TurnTo(Idle);
    }
  }
}
