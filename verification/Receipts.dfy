/** Receipts by position: the processor runs the selected messages block by
block and skips those it has seen, and a receipt is later found by counting
messages.
*/
module Receipts {
  import opened Wrappers
  import opened Messages
  import opened LazySelection
  import opened Nonces
  import opened Sequences

  datatype Receipt = Receipt(exitCode: int, returned: nat)

  // The state root is opaque.
  type State = nat

  // Running a message: the state after it, its receipt, and what it costs and
  // brings the miner of its block.
  datatype Ret = Ret(st: State, receipt: Receipt, penalty: int, tip: int)

  type Exec = (State, Message) -> Ret

  // Paying the miner of a block, by its number, the penalties and tips of its messages.
  type Reward = (State, nat, int, int) -> State

  // Equal CIDs of the inner message mean the same sender and nonce; equal CIDs of
  // the whole message mean equal inner messages.
  ghost predicate Cids(vmCid: Message -> nat, cid: Message -> nat) {
    && (forall m, n :: vmCid(m) == vmCid(n) ==> m.from == n.from && m.nonce == n.nonce)
    && (forall m, n :: cid(m) == cid(n) ==> vmCid(m) == vmCid(n))
  }

  ghost predicate DistinctBy(f: Message -> nat, ms: seq<Message>) {
    forall i, j | 0 <= i < j < |ms| :: f(ms[i]) != f(ms[j])
  }

  // No two selected messages have the same CID.
  lemma SelectedDistinct(resolve: bool, lookup: Lookup, blocks: seq<Block>, vmCid: Message -> nat, cid: Message -> nat)
    requires Cids(vmCid, cid)
    ensures DistinctBy(vmCid, Flatten(SelectedBlocks(resolve, lookup, blocks).0))
    ensures DistinctBy(cid, Flatten(SelectedBlocks(resolve, lookup, blocks).0))
  {
    TipsetRises(resolve, lookup, blocks);
  }

  // ---------------------------------------------------------------------
  // The processor

  // The messages that are the first with their CID, and the CIDs seen.
  function Firsts(vmCid: Message -> nat, ms: seq<Message>): (seq<Message>, set<nat>) {
    if ms == [] then ([], {})
    else
      var n := |ms| - 1;
      var (out, seen) := Firsts(vmCid, ms[..n]);
      if vmCid(ms[n]) in seen then (out, seen) else (out + [ms[n]], seen + {vmCid(ms[n])})
  }

  lemma NextFirst(vmCid: Message -> nat, ms: seq<Message>, m: Message)
    ensures var (out, seen) := Firsts(vmCid, ms);
            Firsts(vmCid, ms + [m]) == if vmCid(m) in seen then (out, seen) else (out + [m], seen + {vmCid(m)})
  {
    assert (ms + [m])[..|ms|] == ms;
  }

  // Every message is seen, none twice, and if all CIDs differ none is left out.
  lemma {:induction false} FirstsMeaning(vmCid: Message -> nat, ms: seq<Message>)
    ensures var (out, seen) := Firsts(vmCid, ms);
            && (forall m | m in ms :: vmCid(m) in seen)
            && (forall c | c in seen :: exists m :: m in ms && vmCid(m) == c)
            && (DistinctBy(vmCid, ms) ==> out == ms)
  {
    if ms != [] {
      var n := |ms| - 1;
      FirstsMeaning(vmCid, ms[..n]);
      assert ms == ms[..n] + [ms[n]];
      assert DistinctBy(vmCid, ms) ==> forall m | m in ms[..n] :: vmCid(m) != vmCid(ms[n]);
    }
  }

  // The processor's state between two messages: penalties and tips of the block so
  // far, and the state each message run so far was run on.
  datatype Run = Run(st: State, seen: set<nat>, receipts: seq<Receipt>, penalty: int, tip: int, befores: seq<State>)

  function RunMessage(exec: Exec, vmCid: Message -> nat, r: Run, m: Message): Run {
    if vmCid(m) in r.seen then r
    else
      var ret := exec(r.st, m);
      Run(ret.st, r.seen + {vmCid(m)}, r.receipts + [ret.receipt], r.penalty + ret.penalty, r.tip + ret.tip,
          r.befores + [r.st])
  }

  function RunMessages(exec: Exec, vmCid: Message -> nat, r: Run, ms: seq<Message>): Run {
    if ms == [] then r
    else RunMessage(exec, vmCid, RunMessages(exec, vmCid, r, ms[..|ms| - 1]), ms[|ms| - 1])
  }

  function RunBlocks(exec: Exec, reward: Reward, vmCid: Message -> nat, st0: State, blocks: seq<Block>): Run {
    if blocks == [] then Run(st0, {}, [], 0, 0, [])
    else
      var n := |blocks| - 1;
      var start := RunBlocks(exec, reward, vmCid, st0, blocks[..n]).(penalty := 0, tip := 0);
      var r := RunMessages(exec, vmCid, start, blocks[n].bls + blocks[n].secp);
      r.(st := reward(r.st, n, r.penalty, r.tip))
  }

  // Applies the messages of the blocks in order, skipping repeats, and pays each
  // block's reward.
  method ApplyMessages(exec: Exec, reward: Reward, vmCid: Message -> nat, st0: State, blocks: seq<Block>)
      returns (st: State, receipts: seq<Receipt>)
    ensures var r := RunBlocks(exec, reward, vmCid, st0, blocks);
            st == r.st && receipts == r.receipts
  {
    st, receipts := st0, [];
    var seen: set<nat> := {};
    ghost var befores := [];
    var minerPenaltyTotal, minerGasRewardTotal := 0, 0;
    for i := 0 to |blocks|
      invariant RunBlocks(exec, reward, vmCid, st0, blocks[..i])
                == Run(st, seen, receipts, minerPenaltyTotal, minerGasRewardTotal, befores)
    {
      assert blocks[..i + 1][..i] == blocks[..i];
      var ms := blocks[i].bls + blocks[i].secp;
      minerPenaltyTotal, minerGasRewardTotal := 0, 0;
      ghost var start := Run(st, seen, receipts, 0, 0, befores);
      for k := 0 to |ms|
        invariant RunMessages(exec, vmCid, start, ms[..k])
                  == Run(st, seen, receipts, minerPenaltyTotal, minerGasRewardTotal, befores)
      {
        assert ms[..k + 1][..k] == ms[..k];
        var m := ms[k];
        var mcid := vmCid(m);
        if mcid in seen { continue; }
        befores := befores + [st];
        var ret := exec(st, m);
        st := ret.st;
        minerPenaltyTotal := minerPenaltyTotal + ret.penalty;
        minerGasRewardTotal := minerGasRewardTotal + ret.tip;
        receipts := receipts + [ret.receipt];
        seen := seen + {mcid};
      }
      assert ms[..|ms|] == ms;
      st := reward(st, i, minerPenaltyTotal, minerGasRewardTotal);
    }
    assert blocks[..|blocks|] == blocks;
  }

  // The run has seen the CIDs of ms and has, for each message that is the first
  // with its CID, the receipt that running it gave.
  ghost predicate Ran(exec: Exec, vmCid: Message -> nat, r: Run, ms: seq<Message>) {
    var (ran, seen) := Firsts(vmCid, ms);
    && r.seen == seen && |r.receipts| == |ran| == |r.befores|
    && forall k | 0 <= k < |ran| :: r.receipts[k] == exec(r.befores[k], ran[k]).receipt
  }

  lemma {:induction false} RunMessagesRan(exec: Exec, vmCid: Message -> nat, r: Run,
                                          done: seq<Message>, ms: seq<Message>)
    requires Ran(exec, vmCid, r, done)
    ensures Ran(exec, vmCid, RunMessages(exec, vmCid, r, ms), done + ms)
  {
    if ms == [] {
      assert done + ms == done;
    } else {
      var n := |ms| - 1;
      RunMessagesRan(exec, vmCid, r, done, ms[..n]);
      NextFirst(vmCid, done + ms[..n], ms[n]);
      assert ms == ms[..n] + [ms[n]];
      ConcatAssociates(done, ms[..n], [ms[n]]);
    }
  }

  /** One receipt for each message that is the first with its CID, in order, and it
  is the one that running that message gave. */
  lemma {:induction false} RunBlocksRan(exec: Exec, reward: Reward,
                                        vmCid: Message -> nat, st0: State, blocks: seq<Block>)
    ensures Ran(exec, vmCid, RunBlocks(exec, reward, vmCid, st0, blocks), Flatten(blocks))
  {
    if blocks != [] {
      var n := |blocks| - 1;
      RunBlocksRan(exec, reward, vmCid, st0, blocks[..n]);
      var start := RunBlocks(exec, reward, vmCid, st0, blocks[..n]).(penalty := 0, tip := 0);
      RunMessagesRan(exec, vmCid, start, Flatten(blocks[..n]), blocks[n].bls + blocks[n].secp);
    }
  }

  // ---------------------------------------------------------------------
  // On which state a message runs

  // These messages are run one after the other, each on the state the one before it
  // left, from the first state to the last.
  ghost predicate OneAfterTheOther(exec: Exec, first: State, befores: seq<State>, ms: seq<Message>, last: State) {
    && |befores| == |ms|
    && (ms == [] ==> last == first)
    && (ms != [] ==> befores[0] == first && last == exec(befores[|ms| - 1], ms[|ms| - 1]).st)
    && forall k | 0 <= k < |ms| - 1 :: Continues(exec, befores, ms, k)
  }

  ghost predicate Continues(exec: Exec, befores: seq<State>, ms: seq<Message>, k: nat)
    requires k < |ms| - 1 && |befores| == |ms|
  {
    befores[k + 1] == exec(befores[k], ms[k]).st
  }

  ghost function Penalties(exec: Exec, befores: seq<State>, ms: seq<Message>): int
    requires |befores| == |ms|
  {
    if ms == [] then 0
    else
      var n := |ms| - 1;
      Penalties(exec, befores[..n], ms[..n]) + exec(befores[n], ms[n]).penalty
  }

  ghost function Tips(exec: Exec, befores: seq<State>, ms: seq<Message>): int
    requires |befores| == |ms|
  {
    if ms == [] then 0
    else
      var n := |ms| - 1;
      Tips(exec, befores[..n], ms[..n]) + exec(befores[n], ms[n]).tip
  }

  // The messages of `ms` that the processor runs after `done`: those with a new CID.
  ghost function New(vmCid: Message -> nat, done: seq<Message>, ms: seq<Message>): seq<Message> {
    if ms == [] then []
    else
      var n := |ms| - 1;
      var before := New(vmCid, done, ms[..n]);
      if Repeated(vmCid, done + ms[..n], ms[n]) then before else before + [ms[n]]
  }

  ghost predicate Repeated(vmCid: Message -> nat, done: seq<Message>, m: Message) {
    exists x :: x in done && vmCid(x) == vmCid(m)
  }

  lemma NextNew(vmCid: Message -> nat, done: seq<Message>, m: Message)
    ensures Firsts(vmCid, done + [m]).0
            == if Repeated(vmCid, done, m) then Firsts(vmCid, done).0 else Firsts(vmCid, done).0 + [m]
  {
    FirstsMeaning(vmCid, done);
    NextFirst(vmCid, done, m);
  }

  lemma {:induction false} NewAreFirsts(vmCid: Message -> nat, done: seq<Message>, ms: seq<Message>)
    ensures Firsts(vmCid, done + ms).0 == Firsts(vmCid, done).0 + New(vmCid, done, ms)
  {
    if ms == [] {
      assert done + ms == done;
    } else {
      var n := |ms| - 1;
      NewAreFirsts(vmCid, done, ms[..n]);
      NextNew(vmCid, done + ms[..n], ms[n]);
      PrefixNext(ms, n + 1);
      assert ms[..n + 1] == ms;
      ConcatAssociates(done, ms[..n], [ms[n]]);
      ConcatAssociates(Firsts(vmCid, done).0, New(vmCid, done, ms[..n]), [ms[n]]);
    }
  }

  // What running the messages of a block adds to a run.
  ghost predicate RunsOn(exec: Exec, r: Run, r': Run, ms: seq<Message>) {
    && r.befores <= r'.befores && |r'.befores| == |r.befores| + |ms|
    && var added := r'.befores[|r.befores|..];
    && OneAfterTheOther(exec, r.st, added, ms, r'.st)
    && r'.penalty == r.penalty + Penalties(exec, added, ms) && r'.tip == r.tip + Tips(exec, added, ms)
  }

  lemma SeenIsDone(exec: Exec, vmCid: Message -> nat, r: Run, done: seq<Message>, m: Message)
    requires Ran(exec, vmCid, r, done)
    ensures vmCid(m) in r.seen <==> Repeated(vmCid, done, m)
  {
    FirstsMeaning(vmCid, done);
  }

  lemma {:induction false} MessagesRunOn(exec: Exec, vmCid: Message -> nat, r: Run, done: seq<Message>,
                                         ms: seq<Message>)
    requires Ran(exec, vmCid, r, done)
    ensures RunsOn(exec, r, RunMessages(exec, vmCid, r, ms), New(vmCid, done, ms))
  {
    if ms == [] {
      assert r.befores[|r.befores|..] == [];
    } else {
      var n := |ms| - 1;
      MessagesRunOn(exec, vmCid, r, done, ms[..n]);
      RunMessagesRan(exec, vmCid, r, done, ms[..n]);
      var mid := RunMessages(exec, vmCid, r, ms[..n]);
      SeenIsDone(exec, vmCid, mid, done + ms[..n], ms[n]);
      if vmCid(ms[n]) !in mid.seen {
        OneRunsOn(exec, vmCid, r, mid, New(vmCid, done, ms[..n]), ms[n]);
      }
    }
  }

  lemma OneRunsOn(exec: Exec, vmCid: Message -> nat, r: Run, mid: Run, ms: seq<Message>, m: Message)
    requires RunsOn(exec, r, mid, ms) && vmCid(m) !in mid.seen
    ensures RunsOn(exec, r, RunMessage(exec, vmCid, mid, m), ms + [m])
  {
    var r', k := RunMessage(exec, vmCid, mid, m), |r.befores|;
    var added, added' := mid.befores[k..], r'.befores[k..];
    assert added' == added + [mid.st] && added'[..|ms|] == added && (ms + [m])[..|ms|] == ms;
    forall j | 0 <= j < |ms + [m]| - 1 ensures Continues(exec, added', ms + [m], j) {
      if j < |ms| - 1 { assert Continues(exec, added, ms, j); }
    }
  }

  /** Block by block: the messages of a block that have not been run before are run one
  after the other, the first on the state that the block before left; then the
  block's miner is paid exactly their penalties and tips.  The first block starts on
  the state given. */
  lemma EveryBlockRunsOn(exec: Exec, reward: Reward, vmCid: Message -> nat, st0: State, blocks: seq<Block>, i: nat)
      returns (last: State)
    requires i < |blocks|
    ensures var ms := New(vmCid, Flatten(blocks[..i]), blocks[i].bls + blocks[i].secp);
            var r, r' := RunBlocks(exec, reward, vmCid, st0, blocks[..i]),
                         RunBlocks(exec, reward, vmCid, st0, blocks[..i + 1]);
            && (i == 0 ==> r.st == st0 && r.befores == [])
            && Firsts(vmCid, Flatten(blocks[..i + 1])).0 == Firsts(vmCid, Flatten(blocks[..i])).0 + ms
            && r.befores <= r'.befores && |r'.befores| == |r.befores| + |ms|
            && var added := r'.befores[|r.befores|..];
            && OneAfterTheOther(exec, r.st, added, ms, last)
            && r'.st == reward(last, i, Penalties(exec, added, ms), Tips(exec, added, ms))
  {
    var r := RunBlocks(exec, reward, vmCid, st0, blocks[..i]);
    assert blocks[..i + 1][..i] == blocks[..i];
    RunBlocksRan(exec, reward, vmCid, st0, blocks[..i]);
    var start, ms := r.(penalty := 0, tip := 0), blocks[i].bls + blocks[i].secp;
    MessagesRunOn(exec, vmCid, start, Flatten(blocks[..i]), ms);
    NewAreFirsts(vmCid, Flatten(blocks[..i]), ms);
    last := RunMessages(exec, vmCid, start, ms).st;
  }

  // ---------------------------------------------------------------------
  // Finding a receipt

  ghost predicate FirstWith(cid: Message -> nat, target: nat, ms: seq<Message>, k: nat) {
    k < |ms| && cid(ms[k]) == target && forall j | 0 <= j < k :: cid(ms[j]) != target
  }

  // The receipt at the position of the first message with the CID, if there is one.
  ghost predicate FoundAt(cid: Message -> nat, target: nat, ms: seq<Message>, receipts: seq<Receipt>,
                          r: Option<Receipt>)
  {
    && (r.Some? ==> exists k | 0 <= k < |receipts| :: FirstWith(cid, target, ms, k) && r.value == receipts[k])
    && (r.None? ==> forall k | 0 <= k < |receipts| :: !FirstWith(cid, target, ms, k))
  }

  method ReceiptByIndex(cid: Message -> nat, target: nat, blocks: seq<Block>, receipts: seq<Receipt>)
      returns (r: Option<Receipt>)
    ensures FoundAt(cid, target, Flatten(blocks), receipts, r)
  {
    var receiptIndex: nat := 0;
    ghost var all := Flatten(blocks);
    for i := 0 to |blocks|
      invariant receiptIndex == |Flatten(blocks[..i])| <= |all|
      invariant forall j | 0 <= j < receiptIndex :: cid(all[j]) != target
    {
      MessagesAt(blocks, i);
      ghost var start := receiptIndex;
      var ms := blocks[i].bls + blocks[i].secp;
      for k := 0 to |ms|
        invariant receiptIndex == start + k
        invariant forall j | 0 <= j < receiptIndex :: cid(all[j]) != target
      {
        if cid(ms[k]) == target {
          assert FirstWith(cid, target, all, receiptIndex);
          if receiptIndex >= |receipts| { return None; }
          return Some(receipts[receiptIndex]);
        }
        assert all[receiptIndex] == ms[k];
        receiptIndex := receiptIndex + 1;
      }
    }
    assert blocks[..|blocks|] == blocks;
    r := None;
  }

  // A block's messages follow those of the blocks before it.
  lemma MessagesAt(blocks: seq<Block>, i: nat)
    requires i < |blocks|
    ensures var ms := blocks[i].bls + blocks[i].secp; var n := |Flatten(blocks[..i])|;
            && n + |ms| == |Flatten(blocks[..i + 1])| <= |Flatten(blocks)|
            && forall k | 0 <= k < |ms| :: Flatten(blocks)[n + k] == ms[k]
  {
    FlattenPrefix(blocks, i + 1);
    PrefixOfAll(blocks, i + 1);
    var ms, n := blocks[i].bls + blocks[i].secp, |Flatten(blocks[..i])|;
    forall k | 0 <= k < |ms| ensures Flatten(blocks)[n + k] == ms[k] {
      assert Flatten(blocks[..i + 1])[n + k] == ms[k];
    }
  }

  lemma {:induction false} PrefixOfAll(blocks: seq<Block>, i: nat)
    requires i <= |blocks|
    ensures Flatten(blocks[..i]) <= Flatten(blocks)
    decreases |blocks| - i
  {
    if i == |blocks| {
      assert blocks[..i] == blocks;
    } else {
      PrefixOfAll(blocks, i + 1);
      FlattenPrefix(blocks, i + 1);
    }
  }

  // Robust senders stand for different actors, or none is written as an ID address,
  // or the height is one at which nothing is resolved.
  ghost predicate Distinguishable(resolve: bool, lookup: Lookup, senders: set<Address>) {
    resolve ==> Robust(senders) || Apart(lookup, senders)
  }

  lemma LazyDistinct(resolve: bool, lookup: Lookup, order: Order, blocks: seq<Block>, vmCid: Message -> nat,
                     cid: Message -> nat)
    requires IsLookup(lookup) && IsOrder(order) && Cids(vmCid, cid) && Selection(resolve, lookup, order, blocks).Some?
    requires Distinguishable(resolve, lookup, Senders(Flatten(blocks)))
    ensures DistinctBy(vmCid, Flatten(Selection(resolve, lookup, order, blocks).value))
    ensures DistinctBy(cid, Flatten(Selection(resolve, lookup, order, blocks).value))
  {
    var resolved := LazyIsReference(resolve, lookup, order, blocks);
    SelectedDistinct(resolved, lookup, blocks, vmCid, cid);
  }

  /** The receipt found for a selected message is the one that running this very
  message gave. */
  method ReceiptOf(resolve: bool, lookup: Lookup, order: Order, blocks: seq<Block>,
                   exec: Exec, reward: Reward,
                   vmCid: Message -> nat, cid: Message -> nat, st0: State, target: Message)
      returns (r: Option<Receipt>)
    requires IsLookup(lookup) && IsOrder(order) && Cids(vmCid, cid)
    ensures var selected := Selection(resolve, lookup, order, blocks);
            && (selected.None? ==> r.None?)
            && (selected.Some? && Distinguishable(resolve, lookup, Senders(Flatten(blocks))) ==>
                  var run := RunBlocks(exec, reward, vmCid, st0, selected.value);
                  IsReceiptOf(exec, Flatten(selected.value), run, target, r))
  {
    var selected := LoadTipSetMessage(resolve, lookup, order, blocks);
    if selected.None? { return None; }
    var _, receipts := ApplyMessages(exec, reward, vmCid, st0, selected.value);
    r := ReceiptByIndex(cid, cid(target), selected.value, receipts);
    if Distinguishable(resolve, lookup, Senders(Flatten(blocks))) {
      LazyDistinct(resolve, lookup, order, blocks, vmCid, cid);
      FoundIsOwn(exec, reward, vmCid, cid, st0, selected.value, target, r);
    }
  }

  // There is a receipt for the message exactly if it was run, from that very run.
  ghost predicate IsReceiptOf(exec: Exec, all: seq<Message>, run: Run,
                              target: Message, r: Option<Receipt>)
  {
    && |run.befores| == |all|
    && (target in all ==>
          exists k :: 0 <= k < |all| && all[k] == target && r == Some(exec(run.befores[k], target).receipt))
  }

  lemma FoundIsOwn(exec: Exec, reward: Reward, vmCid: Message -> nat,
                   cid: Message -> nat, st0: State, blocks: seq<Block>, target: Message, r: Option<Receipt>)
    requires DistinctBy(vmCid, Flatten(blocks)) && DistinctBy(cid, Flatten(blocks))
    requires var receipts := RunBlocks(exec, reward, vmCid, st0, blocks).receipts;
             FoundAt(cid, cid(target), Flatten(blocks), receipts, r)
    ensures IsReceiptOf(exec, Flatten(blocks), RunBlocks(exec, reward, vmCid, st0, blocks), target, r)
  {
    var all, run := Flatten(blocks), RunBlocks(exec, reward, vmCid, st0, blocks);
    OneReceiptEach(exec, reward, vmCid, st0, blocks);
    if target in all {
      var j :| 0 <= j < |all| && all[j] == target;
      OnlyFirst(cid, target, all, j);
      assert FirstWith(cid, cid(target), all, j);
      assert r == Some(run.receipts[j]);
    }
  }

  // When all messages have different CIDs each has its receipt.
  lemma OneReceiptEach(exec: Exec, reward: Reward,
                       vmCid: Message -> nat, st0: State, blocks: seq<Block>)
    requires DistinctBy(vmCid, Flatten(blocks))
    ensures var run := RunBlocks(exec, reward, vmCid, st0, blocks);
            && |run.befores| == |run.receipts| == |Flatten(blocks)|
            && forall k | 0 <= k < |Flatten(blocks)| ::
                 run.receipts[k] == exec(run.befores[k], Flatten(blocks)[k]).receipt
  {
    FirstsMeaning(vmCid, Flatten(blocks));
    RunBlocksRan(exec, reward, vmCid, st0, blocks);
  }

  lemma OnlyFirst(cid: Message -> nat, target: Message, ms: seq<Message>, j: nat)
    requires DistinctBy(cid, ms) && j < |ms| && ms[j] == target
    ensures forall k: nat :: FirstWith(cid, cid(target), ms, k) <==> k == j
  {
    forall k: nat ensures FirstWith(cid, cid(target), ms, k) <==> k == j {
      if k < j {
        assert cid(ms[k]) != cid(ms[j]);
      } else if j < k < |ms| {
        assert cid(ms[j]) != cid(ms[k]);
      }
    }
  }
}
