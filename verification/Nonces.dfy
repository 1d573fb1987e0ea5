/** Nonces: the check each block has to pass on its own, and what the selection
over a whole tipset of such blocks adds up to.
*/
module Nonces {
  import opened Wrappers
  import opened Messages
  import opened Sequences

  const BLOCK_GAS_LIMIT: nat := 10_000_000_000

  datatype Actor = Actor(nonce: nat, canSend: bool)

  function Range(n: nat, k: nat): seq<nat> {
    seq(k, i => n + i)
  }

  lemma RangeConcat(n: nat, k: nat, j: nat)
    ensures Range(n, k) + Range(n + k, j) == Range(n, k + j)
  {
  }

  lemma RangeNext(n: nat, k: nat)
    ensures Range(n, k) + [n + k] == Range(n, k + 1)
    ensures Range(n, k + 1)[..k] == Range(n, k)
    ensures |Range(n, k)| == k
  {
  }

  // The nonces of one sender's messages, in order.
  function NoncesOf(resolve: bool, lookup: Lookup, ms: seq<Message>, a: Address): seq<nat> {
    if ms == [] then []
    else
      var n := |ms| - 1;
      NoncesOf(resolve, lookup, ms[..n], a)
      + if Sender(resolve, lookup, ms[n].from) == Some(a) then [ms[n].nonce] else []
  }

  lemma OneMoreNonce(resolve: bool, lookup: Lookup, ms: seq<Message>, m: Message, a: Address)
    ensures Sender(resolve, lookup, m.from) == Some(a) ==>
              NoncesOf(resolve, lookup, ms + [m], a) == NoncesOf(resolve, lookup, ms, a) + [m.nonce]
    ensures Sender(resolve, lookup, m.from) != Some(a) ==>
              NoncesOf(resolve, lookup, ms + [m], a) == NoncesOf(resolve, lookup, ms, a)
  {
    assert (ms + [m])[..|ms|] == ms;
  }

  lemma {:induction false} NoncesConcat(resolve: bool, lookup: Lookup, xs: seq<Message>, ys: seq<Message>, a: Address)
    ensures NoncesOf(resolve, lookup, xs + ys, a) == NoncesOf(resolve, lookup, xs, a) + NoncesOf(resolve, lookup, ys, a)
  {
    if ys == [] {
      assert xs + ys == xs;
    } else {
      var n := |ys| - 1;
      assert (xs + ys)[..|xs + ys| - 1] == xs + ys[..n];
      NoncesConcat(resolve, lookup, xs, ys[..n], a);
    }
  }

  // ---------------------------------------------------------------------
  // The check of a single block

  // Every sender's messages carry the actor's nonce and the ones after it.
  ghost predicate Consecutive(resolve: bool, lookup: Lookup, actors: map<Address, Actor>, ms: seq<Message>) {
    forall a ::
      var ns := NoncesOf(resolve, lookup, ms, a);
      ns != [] ==> a in actors && actors[a].canSend && ns == Range(actors[a].nonce, |ns|)
  }

  function TotalGas(gas: Message -> nat, ms: seq<Message>): nat {
    if ms == [] then 0 else TotalGas(gas, ms[..|ms| - 1]) + gas(ms[|ms| - 1])
  }

  ghost predicate BlockOk(resolve: bool, lookup: Lookup, actors: map<Address, Actor>,
                          valid: Message -> bool, gas: Message -> nat, ms: seq<Message>) {
    && (forall m | m in ms :: valid(m))
    && TotalGas(gas, ms) <= BLOCK_GAS_LIMIT
    && Resolvable(resolve, lookup, ms)
    && Consecutive(resolve, lookup, actors, ms)
  }

  // What the check's map of nonces holds after the messages ms.
  ghost predicate Tallied(resolve: bool, lookup: Lookup, actors: map<Address, Actor>, ms: seq<Message>,
                          nonces: Applied)
  {
    forall a ::
      var ns := NoncesOf(resolve, lookup, ms, a);
      (a in nonces <==> ns != []) && (a in nonces ==> a in actors && nonces[a] == actors[a].nonce + |ns|)
  }

  lemma PrefixOk(resolve: bool, lookup: Lookup, actors: map<Address, Actor>, valid: Message -> bool,
                 gas: Message -> nat, ms: seq<Message>, k: nat)
    requires k <= |ms| && BlockOk(resolve, lookup, actors, valid, gas, ms)
    ensures BlockOk(resolve, lookup, actors, valid, gas, ms[..k])
    decreases |ms| - k
  {
    if k == |ms| {
      assert ms[..k] == ms;
    } else {
      PrefixOk(resolve, lookup, actors, valid, gas, ms, k + 1);
      var longer := ms[..k + 1];
      assert longer[..k] == ms[..k];
      forall a | NoncesOf(resolve, lookup, ms[..k], a) != []
        ensures var ns := NoncesOf(resolve, lookup, ms[..k], a);
                a in actors && actors[a].canSend && ns == Range(actors[a].nonce, |ns|)
      {
        var ns, more := NoncesOf(resolve, lookup, ms[..k], a), NoncesOf(resolve, lookup, longer, a);
        assert more != [] && ns == more[..|ns|];
      }
    }
  }

  // The check of one message after the messages ms have passed.
  method CheckMsg(resolve: bool, lookup: Lookup, actors: map<Address, Actor>, valid: Message -> bool,
                  gas: Message -> nat, ghost ms: seq<Message>, m: Message, nonces0: Applied, sum0: nat)
      returns (ok: bool, nonces: Applied, sumGasLimit: nat)
    requires BlockOk(resolve, lookup, actors, valid, gas, ms)
    requires sum0 == TotalGas(gas, ms) && Tallied(resolve, lookup, actors, ms, nonces0)
    ensures ok <==> BlockOk(resolve, lookup, actors, valid, gas, ms + [m])
    ensures ok ==> sumGasLimit == TotalGas(gas, ms + [m]) && Tallied(resolve, lookup, actors, ms + [m], nonces)
  {
    assert (ms + [m])[..|ms|] == ms && m in ms + [m];
    nonces, sumGasLimit := nonces0, sum0;
    if !valid(m) { return false, nonces, sumGasLimit; }
    sumGasLimit := sumGasLimit + gas(m);
    if sumGasLimit > BLOCK_GAS_LIMIT { return false, nonces, sumGasLimit; }
    var sender := if resolve then lookup(m.from) else Some(m.from);
    if sender.None? { return false, nonces, sumGasLimit; }
    var a := sender.value;
    OneMoreNonce(resolve, lookup, ms, m, a);
    if a !in nonces {
      if a !in actors || !actors[a].canSend { return false, nonces, sumGasLimit; }
      nonces := nonces[a := actors[a].nonce];
    }
    if nonces[a] != m.nonce {
      OneMoreBad(resolve, lookup, actors, ms, m, a);
      return false, nonces, sumGasLimit;
    }
    nonces := nonces[a := nonces[a] + 1];
    assert nonces == nonces0[a := m.nonce + 1];
    OneMoreOk(resolve, lookup, actors, ms, m, a);
    OneMoreTallied(resolve, lookup, actors, ms, m, a, nonces0);
    ok := true;
  }

  lemma OneMoreBad(resolve: bool, lookup: Lookup, actors: map<Address, Actor>, ms: seq<Message>, m: Message, a: Address)
    requires Sender(resolve, lookup, m.from) == Some(a) && a in actors
    requires m.nonce != actors[a].nonce + |NoncesOf(resolve, lookup, ms, a)|
    ensures !Consecutive(resolve, lookup, actors, ms + [m])
  {
    var ns := NoncesOf(resolve, lookup, ms, a);
    OneMoreNonce(resolve, lookup, ms, m, a);
    assert (ns + [m.nonce])[|ns|] != Range(actors[a].nonce, |ns| + 1)[|ns|];
  }

  lemma OneMoreTallied(resolve: bool, lookup: Lookup, actors: map<Address, Actor>, ms: seq<Message>, m: Message,
                       a: Address, nonces: Applied)
    requires Tallied(resolve, lookup, actors, ms, nonces) && Sender(resolve, lookup, m.from) == Some(a) && a in actors
    ensures var next := if a in nonces then nonces[a] else actors[a].nonce;
            Tallied(resolve, lookup, actors, ms + [m], nonces[a := next + 1])
  {
    forall b { OneMoreNonce(resolve, lookup, ms, m, b); }
  }

  method CheckBlockMessages(resolve: bool, lookup: Lookup, actors: map<Address, Actor>,
                            valid: Message -> bool, gas: Message -> nat, ms: seq<Message>) returns (ok: bool)
    ensures ok <==> BlockOk(resolve, lookup, actors, valid, gas, ms)
    ensures ok <==>
              && (forall m | m in ms :: valid(m) && (resolve ==> lookup(m.from).Some?))
              && TotalGas(gas, ms) <= BLOCK_GAS_LIMIT
              && forall a | NoncesOf(resolve, lookup, ms, a) != [] ::
                   var ns := NoncesOf(resolve, lookup, ms, a);
                   a in actors && actors[a].canSend && ns == Range(actors[a].nonce, |ns|)
  {
    var nonces: Applied, sumGasLimit: nat := map[], 0;
    for k := 0 to |ms|
      invariant BlockOk(resolve, lookup, actors, valid, gas, ms[..k])
      invariant sumGasLimit == TotalGas(gas, ms[..k])
      invariant Tallied(resolve, lookup, actors, ms[..k], nonces)
    {
      assert ms[..k + 1] == ms[..k] + [ms[k]];
      ok, nonces, sumGasLimit := CheckMsg(resolve, lookup, actors, valid, gas, ms[..k], ms[k], nonces, sumGasLimit);
      if !ok {
        if BlockOk(resolve, lookup, actors, valid, gas, ms) {
          PrefixOk(resolve, lookup, actors, valid, gas, ms, k + 1);
        }
        return;
      }
    }
    assert ms[..|ms|] == ms;
    ok := true;
  }

  lemma OneMoreOk(resolve: bool, lookup: Lookup, actors: map<Address, Actor>, ms: seq<Message>, m: Message, a: Address)
    requires Consecutive(resolve, lookup, actors, ms) && Sender(resolve, lookup, m.from) == Some(a)
    requires a in actors && actors[a].canSend && m.nonce == actors[a].nonce + |NoncesOf(resolve, lookup, ms, a)|
    ensures Consecutive(resolve, lookup, actors, ms + [m])
  {
    forall b | NoncesOf(resolve, lookup, ms + [m], b) != []
      ensures var ns := NoncesOf(resolve, lookup, ms + [m], b);
              b in actors && actors[b].canSend && ns == Range(actors[b].nonce, |ns|)
    {
      OneMoreNonce(resolve, lookup, ms, m, b);
      if b == a { OneMoreOwn(resolve, lookup, actors[a].nonce, ms, m, a); }
    }
  }

  lemma OneMoreOwn(resolve: bool, lookup: Lookup, n: nat, ms: seq<Message>, m: Message, a: Address)
    requires var ns := NoncesOf(resolve, lookup, ms, a);
             (ns == [] || ns == Range(n, |ns|)) && m.nonce == n + |ns|
    requires Sender(resolve, lookup, m.from) == Some(a)
    ensures var ns := NoncesOf(resolve, lookup, ms + [m], a); ns == Range(n, |ns|)
  {
    var ns := NoncesOf(resolve, lookup, ms, a);
    assert ns == Range(n, |ns|);
    RunGrows(resolve, lookup, ms, m, a, n, |ns|);
  }

  // ---------------------------------------------------------------------
  // The selection over a tipset

  // The next nonce recorded for a is n + level; nothing is recorded yet at level 0.
  ghost predicate Level(applied: Applied, a: Address, n: nat, level: nat) {
    if a in applied then applied[a] == n + level else level == 0
  }

  function Max(x: nat, y: nat): nat {
    if x >= y then x else y
  }

  lemma {:induction false} SelectedConcat(resolve: bool, lookup: Lookup, a: Applied, xs: seq<Message>, ys: seq<Message>)
    ensures var (out, b) := SelectedFrom(resolve, lookup, a, xs);
            var (out', c) := SelectedFrom(resolve, lookup, b, ys);
            SelectedFrom(resolve, lookup, a, xs + ys) == (out + out', c)
  {
    if ys == [] {
      assert xs + ys == xs && SelectedFrom(resolve, lookup, a, xs).0 + [] == SelectedFrom(resolve, lookup, a, xs).0;
    } else {
      var n := |ys| - 1;
      assert (xs + ys)[..|xs + ys| - 1] == xs + ys[..n];
      SelectedConcat(resolve, lookup, a, xs, ys[..n]);
      assert (xs + ys)[|xs + ys| - 1] == ys[n];
      var (out, b) := SelectedFrom(resolve, lookup, a, xs);
      var (out', _) := SelectedFrom(resolve, lookup, b, ys[..n]);
      ConcatAssociates(out, out', [ys[n]]);
    }
  }

  // ---------------------------------------------------------------------
  // Check and selection may tell senders apart differently.  Both resolve above
  // the height of the upgrade that introduced resolving, and at that height only
  // the selection does.

  // A sender of the check counts for this sender of the selection.
  ghost predicate CountsFor(check: bool, select: bool, lookup: Lookup, f: Address, a: Address) {
    if check then f == a else Sender(select, lookup, f) == Some(a)
  }

  // For each sender of the check that counts for a, a run of nonces from n on.
  ghost predicate Runs(check: bool, select: bool, lookup: Lookup, ms: seq<Message>, a: Address, n: nat) {
    forall f | CountsFor(check, select, lookup, f, a) ::
      NoncesOf(check, lookup, ms, f) == Range(n, |NoncesOf(check, lookup, ms, f)|)
  }

  // The longest of these runs.
  function LongestRun(check: bool, select: bool, lookup: Lookup, ms: seq<Message>, a: Address): nat {
    if ms == [] then 0
    else
      var k := |ms| - 1;
      var longest := LongestRun(check, select, lookup, ms[..k], a);
      var f := Sender(check, lookup, ms[k].from);
      if Sender(select, lookup, ms[k].from) == Some(a) && f.Some?
      then Max(longest, |NoncesOf(check, lookup, ms, f.value)|) else longest
  }

  lemma {:induction false} RunAtMost(check: bool, select: bool, lookup: Lookup, ms: seq<Message>, a: Address,
                                     f: Address)
    requires (check ==> select) && CountsFor(check, select, lookup, f, a)
    ensures |NoncesOf(check, lookup, ms, f)| <= LongestRun(check, select, lookup, ms, a)
  {
    if ms != [] { RunAtMost(check, select, lookup, ms[..|ms| - 1], a, f); }
  }

  lemma RunsPrefix(check: bool, select: bool, lookup: Lookup, ms: seq<Message>, a: Address, n: nat)
    requires ms != [] && Runs(check, select, lookup, ms, a, n)
    ensures Runs(check, select, lookup, ms[..|ms| - 1], a, n)
  {
    var k := |ms| - 1;
    assert ms == ms[..k] + [ms[k]];
    forall f | CountsFor(check, select, lookup, f, a)
      ensures NoncesOf(check, lookup, ms[..k], f) == Range(n, |NoncesOf(check, lookup, ms[..k], f)|)
    {
      OneMoreNonce(check, lookup, ms[..k], ms[k], f);
      RangeNext(n, |NoncesOf(check, lookup, ms[..k], f)|);
    }
  }

  // From level on the messages selected for a have just brought it to `reached`.
  ghost predicate Brings(select: bool, lookup: Lookup, r: (seq<Message>, Applied), a: Address, n: nat, level: nat,
                         reached: nat)
  {
    && level <= reached && Level(r.1, a, n, reached)
    && NoncesOf(select, lookup, r.0, a) == Range(n + level, reached - level)
  }

  // What becomes of a selection with one more message of this sender.
  function Taken(r: (seq<Message>, Applied), m: Message, sender: Address): (seq<Message>, Applied) {
    var (take, applied) := Take(r.1, sender, m.nonce);
    (if take then r.0 + [m] else r.0, applied)
  }

  // A message that continues a run of `count`, none being longer than the level.
  lemma OwnMessage(select: bool, lookup: Lookup, r: (seq<Message>, Applied), m: Message,
                   a: Address, n: nat, level: nat, reached: nat, count: nat)
    requires Sender(select, lookup, m.from) == Some(a) && m.nonce == n + count && count <= reached
    requires Brings(select, lookup, r, a, n, level, reached)
    ensures Brings(select, lookup, Taken(r, m, a), a, n, level, Max(reached, count + 1))
  {
    if count == reached {
      NextNonce(select, lookup, r, m, a, n, level, reached);
    } else {
      assert Taken(r, m, a) == r;
    }
  }

  lemma NextNonce(select: bool, lookup: Lookup, r: (seq<Message>, Applied), m: Message,
                  a: Address, n: nat, level: nat, reached: nat)
    requires Sender(select, lookup, m.from) == Some(a) && m.nonce == n + reached
    requires Brings(select, lookup, r, a, n, level, reached)
    ensures Brings(select, lookup, Taken(r, m, a), a, n, level, reached + 1)
  {
    LevelTakes(r.1, a, n, reached);
    var (out, applied) := Taken(r, m, a);
    assert out == r.0 + [m] && Level(applied, a, n, reached + 1);
    assert NoncesOf(select, lookup, out, a) == Range(n + level, reached + 1 - level) by {
      RunGrows(select, lookup, r.0, m, a, n + level, reached - level);
    }
  }

  lemma RunGrows(select: bool, lookup: Lookup, ms: seq<Message>, m: Message, a: Address, start: nat, k: nat)
    requires Sender(select, lookup, m.from) == Some(a) && m.nonce == start + k
    requires NoncesOf(select, lookup, ms, a) == Range(start, k)
    ensures NoncesOf(select, lookup, ms + [m], a) == Range(start, k + 1)
  {
    OneMoreNonce(select, lookup, ms, m, a);
    RangeNext(start, k);
  }

  lemma LevelTakes(applied: Applied, a: Address, n: nat, level: nat)
    requires Level(applied, a, n, level)
    ensures Take(applied, a, n + level) == (true, applied[a := n + level + 1])
  {
    assert applied[a := n + level][a := n + level + 1] == applied[a := n + level + 1];
  }

  lemma ForeignMessage(select: bool, lookup: Lookup, r: (seq<Message>, Applied), m: Message, b: Address,
                       a: Address, n: nat, level: nat, reached: nat)
    requires Sender(select, lookup, m.from) == Some(b) && a != b && Brings(select, lookup, r, a, n, level, reached)
    ensures Brings(select, lookup, Taken(r, m, b), a, n, level, reached)
  {
    OneMoreNonce(select, lookup, r.0, m, a);
  }

  // The next message of a sender has the nonce after its run so far.
  lemma NextOfRun(check: bool, select: bool, lookup: Lookup, ms: seq<Message>, a: Address, n: nat)
    requires (check ==> select) && ms != [] && Runs(check, select, lookup, ms, a, n)
    requires Sender(select, lookup, ms[|ms| - 1].from) == Some(a)
    ensures var k := |ms| - 1; var f := Sender(check, lookup, ms[k].from);
            && f.Some? && CountsFor(check, select, lookup, f.value, a)
            && ms[k].nonce == n + |NoncesOf(check, lookup, ms[..k], f.value)|
            && |NoncesOf(check, lookup, ms, f.value)| == |NoncesOf(check, lookup, ms[..k], f.value)| + 1
  {
    var k := |ms| - 1;
    var f := Sender(check, lookup, ms[k].from).value;
    assert ms == ms[..k] + [ms[k]];
    OneMoreNonce(check, lookup, ms[..k], ms[k], f);
    var ns := NoncesOf(check, lookup, ms, f);
    assert ns[|ns| - 1] == Range(n, |ns|)[|ns| - 1];
  }

  lemma LongestNext(check: bool, select: bool, lookup: Lookup, ms: seq<Message>, a: Address, n: nat)
      returns (count: nat)
    requires (check ==> select) && ms != [] && Runs(check, select, lookup, ms, a, n)
    requires Sender(select, lookup, ms[|ms| - 1].from) == Some(a)
    ensures ms[|ms| - 1].nonce == n + count && count <= LongestRun(check, select, lookup, ms[..|ms| - 1], a)
    ensures LongestRun(check, select, lookup, ms, a)
            == Max(LongestRun(check, select, lookup, ms[..|ms| - 1], a), count + 1)
  {
    var k := |ms| - 1;
    NextOfRun(check, select, lookup, ms, a, n);
    var f := Sender(check, lookup, ms[k].from).value;
    count := |NoncesOf(check, lookup, ms[..k], f)|;
    RunAtMost(check, select, lookup, ms[..k], a, f);
  }

  // Selecting from runs of nonces takes those the level has not covered yet.
  lemma {:induction false} SelectionRaisesLevel(check: bool, select: bool, lookup: Lookup, applied: Applied,
                                                ms: seq<Message>, a: Address, n: nat, level: nat)
    requires (check ==> select) && Level(applied, a, n, level) && Runs(check, select, lookup, ms, a, n)
    ensures Brings(select, lookup, SelectedFrom(select, lookup, applied, ms), a, n, level,
                   Max(level, LongestRun(check, select, lookup, ms, a)))
  {
    if ms != [] {
      var k := |ms| - 1;
      RunsPrefix(check, select, lookup, ms, a, n);
      SelectionRaisesLevel(check, select, lookup, applied, ms[..k], a, n, level);
      SelectionStep(check, select, lookup, SelectedFrom(select, lookup, applied, ms[..k]), ms, a, n, level);
    }
  }

  lemma SelectionStep(check: bool, select: bool, lookup: Lookup, r: (seq<Message>, Applied), ms: seq<Message>,
                      a: Address, n: nat, level: nat)
    requires (check ==> select) && ms != [] && Runs(check, select, lookup, ms, a, n)
    requires Brings(select, lookup, r, a, n, level, Max(level, LongestRun(check, select, lookup, ms[..|ms| - 1], a)))
    ensures var sender := Sender(select, lookup, ms[|ms| - 1].from);
            Brings(select, lookup, if sender.Some? then Taken(r, ms[|ms| - 1], sender.value) else r, a, n, level,
                   Max(level, LongestRun(check, select, lookup, ms, a)))
  {
    var m := ms[|ms| - 1];
    var sender := Sender(select, lookup, m.from);
    var longest := LongestRun(check, select, lookup, ms[..|ms| - 1], a);
    if sender == Some(a) {
      var count := LongestNext(check, select, lookup, ms, a, n);
      MaxAssociates(level, longest, count + 1);
      OwnMessage(select, lookup, r, m, a, n, level, Max(level, longest), count);
    } else if sender.Some? {
      ForeignMessage(select, lookup, r, m, sender.value, a, n, level, Max(level, longest));
    }
  }

  lemma MaxAssociates(x: nat, y: nat, z: nat)
    ensures Max(x, Max(y, z)) == Max(Max(x, y), z)
  {
  }

  function All(b: Block): seq<Message> {
    b.bls + b.secp
  }

  // The longest run of messages that one block has for a.
  function LongestIn(check: bool, select: bool, lookup: Lookup, blocks: seq<Block>, a: Address): nat {
    if blocks == [] then 0
    else
      var k := |blocks| - 1;
      Max(LongestIn(check, select, lookup, blocks[..k], a), LongestRun(check, select, lookup, All(blocks[k]), a))
  }

  // Every address of the actor finds the same nonce.
  ghost predicate ActorHas(check: bool, select: bool, lookup: Lookup, actors: map<Address, Actor>, a: Address, n: nat) {
    forall f | f in actors && CountsFor(check, select, lookup, f, a) :: actors[f].nonce == n
  }

  /** If every block of the tipset passes its own nonce check, the selection gives
  each sender exactly the nonces from the actor's on, as many as the longest run
  that one block has from one sender of the check: no gap, no repeat, in order. */
  lemma {:induction false} TipsetNonces(check: bool, select: bool, lookup: Lookup, actors: map<Address, Actor>,
                                        blocks: seq<Block>, a: Address, n: nat)
    requires (check ==> select) && ActorHas(check, select, lookup, actors, a, n)
    requires forall b | b in blocks :: Consecutive(check, lookup, actors, All(b))
    ensures var (out, applied) := SelectedBlocks(select, lookup, blocks);
            var longest := LongestIn(check, select, lookup, blocks, a);
            NoncesOf(select, lookup, Flatten(out), a) == Range(n, longest) && Level(applied, a, n, longest)
  {
    if blocks != [] {
      var k := |blocks| - 1;
      var (out, applied) := SelectedBlocks(select, lookup, blocks[..k]);
      TipsetNonces(check, select, lookup, actors, blocks[..k], a, n);
      BlockNonces(check, select, lookup, actors, blocks[k], a, n, out, applied,
                  LongestIn(check, select, lookup, blocks[..k], a));
    }
  }

  lemma FlattenNext(out: seq<Block>, b: Block)
    ensures Flatten(out + [b]) == Flatten(out) + (b.bls + b.secp)
  {
    assert (out + [b])[..|out|] == out;
  }

  lemma BlockRuns(check: bool, select: bool, lookup: Lookup, actors: map<Address, Actor>, b: Block, a: Address, n: nat)
    requires Consecutive(check, lookup, actors, All(b)) && ActorHas(check, select, lookup, actors, a, n)
    ensures Runs(check, select, lookup, All(b), a, n)
  {
    forall f | CountsFor(check, select, lookup, f, a)
      ensures NoncesOf(check, lookup, All(b), f) == Range(n, |NoncesOf(check, lookup, All(b), f)|)
    {
      var ns := NoncesOf(check, lookup, All(b), f);
      assert ns != [] ==> f in actors && ns == Range(actors[f].nonce, |ns|);
    }
  }

  lemma BlockNonces(check: bool, select: bool, lookup: Lookup, actors: map<Address, Actor>, b: Block, a: Address,
                    n: nat, out: seq<Block>, applied: Applied, level: nat)
    requires (check ==> select) && ActorHas(check, select, lookup, actors, a, n) && Level(applied, a, n, level)
    requires Consecutive(check, lookup, actors, All(b)) && NoncesOf(select, lookup, Flatten(out), a) == Range(n, level)
    ensures var (bls, applied1) := SelectedFrom(select, lookup, applied, b.bls);
            var (secp, applied2) := SelectedFrom(select, lookup, applied1, b.secp);
            var reached := Max(level, LongestRun(check, select, lookup, All(b), a));
            && Level(applied2, a, n, reached)
            && NoncesOf(select, lookup, Flatten(out + [Block(bls, secp)]), a) == Range(n, reached)
  {
    SelectedConcat(select, lookup, applied, b.bls, b.secp);
    BlockRuns(check, select, lookup, actors, b, a, n);
    SelectionRaisesLevel(check, select, lookup, applied, All(b), a, n, level);
    var (bls, applied1) := SelectedFrom(select, lookup, applied, b.bls);
    var (secp, _) := SelectedFrom(select, lookup, applied1, b.secp);
    MoreNonces(select, lookup, out, bls, secp, a, n, level, Max(level, LongestRun(check, select, lookup, All(b), a)));
  }

  lemma MoreNonces(select: bool, lookup: Lookup, out: seq<Block>, bls: seq<Message>, secp: seq<Message>,
                   a: Address, n: nat, level: nat, reached: nat)
    requires level <= reached && NoncesOf(select, lookup, Flatten(out), a) == Range(n, level)
    requires NoncesOf(select, lookup, bls + secp, a) == Range(n + level, reached - level)
    ensures NoncesOf(select, lookup, Flatten(out + [Block(bls, secp)]), a) == Range(n, reached)
  {
    FlattenNext(out, Block(bls, secp));
    NoncesConcat(select, lookup, Flatten(out), bls + secp, a);
    RangeConcat(n, level, reached - level);
  }

  // ---------------------------------------------------------------------
  // When the longest run is the number of the sender's messages

  // All messages that count for a come from one sender of the check.
  ghost predicate OneWriter(check: bool, select: bool, lookup: Lookup, ms: seq<Message>, a: Address) {
    forall m, m' | m in ms && m' in ms && Sender(select, lookup, m.from) == Some(a)
      && Sender(select, lookup, m'.from) == Some(a) ::
      Sender(check, lookup, m.from) == Sender(check, lookup, m'.from)
  }

  lemma {:induction false} RunIsAll(check: bool, select: bool, lookup: Lookup, ms: seq<Message>, a: Address, f: Address)
    requires (check ==> select) && CountsFor(check, select, lookup, f, a)
    ensures |NoncesOf(check, lookup, ms, f)| <= |NoncesOf(select, lookup, ms, a)|
    ensures |NoncesOf(check, lookup, ms, f)| == |NoncesOf(select, lookup, ms, a)| <==>
            forall m | m in ms && Sender(select, lookup, m.from) == Some(a) :: Sender(check, lookup, m.from) == Some(f)
  {
    if ms != [] {
      var k := |ms| - 1;
      RunIsAll(check, select, lookup, ms[..k], a, f);
      assert ms == ms[..k] + [ms[k]];
      OneMoreNonce(check, lookup, ms[..k], ms[k], f);
      OneMoreNonce(select, lookup, ms[..k], ms[k], a);
      assert forall m :: m in ms <==> m in ms[..k] || m == ms[k];
    }
  }

  lemma {:induction false} LongestIsAll(check: bool, select: bool, lookup: Lookup, ms: seq<Message>, a: Address)
    requires check ==> select
    ensures LongestRun(check, select, lookup, ms, a) <= |NoncesOf(select, lookup, ms, a)|
    ensures LongestRun(check, select, lookup, ms, a) == |NoncesOf(select, lookup, ms, a)| <==>
            OneWriter(check, select, lookup, ms, a)
  {
    if ms != [] {
      var k := |ms| - 1;
      LongestIsAll(check, select, lookup, ms[..k], a);
      assert ms == ms[..k] + [ms[k]];
      assert forall m :: m in ms <==> m in ms[..k] || m == ms[k];
      OneMoreNonce(select, lookup, ms[..k], ms[k], a);
      if Sender(select, lookup, ms[k].from) == Some(a) {
        var f := Sender(check, lookup, ms[k].from).value;
        OneMoreNonce(check, lookup, ms[..k], ms[k], f);
        RunIsAll(check, select, lookup, ms[..k], a, f);
      }
    }
  }

  // The largest number of messages that one block has for a.
  function MostIn(select: bool, lookup: Lookup, blocks: seq<Block>, a: Address): nat {
    if blocks == [] then 0
    else Max(MostIn(select, lookup, blocks[..|blocks| - 1], a),
             |NoncesOf(select, lookup, All(blocks[|blocks| - 1]), a)|)
  }

  // Some block with the most messages for a has them all from one sender.
  ghost predicate OneWriterLeads(check: bool, select: bool, lookup: Lookup, blocks: seq<Block>, a: Address) {
    blocks == [] || exists b :: Leads(check, select, lookup, blocks, a, b)
  }

  ghost predicate Leads(check: bool, select: bool, lookup: Lookup, blocks: seq<Block>, a: Address, b: Block) {
    && b in blocks && |NoncesOf(select, lookup, All(b), a)| == MostIn(select, lookup, blocks, a)
    && OneWriter(check, select, lookup, All(b), a)
  }

  lemma LongestIsMost(check: bool, select: bool, lookup: Lookup, blocks: seq<Block>, a: Address)
    requires check ==> select
    ensures LongestIn(check, select, lookup, blocks, a) <= MostIn(select, lookup, blocks, a)
    ensures LongestIn(check, select, lookup, blocks, a) == MostIn(select, lookup, blocks, a) <==>
            OneWriterLeads(check, select, lookup, blocks, a)
  {
    if blocks != [] {
      var c := LongestAttained(check, select, lookup, blocks, a);
      LongestIsAll(check, select, lookup, All(c), a);
      BlockAtMost(check, select, lookup, blocks, a, c);
      if b :| Leads(check, select, lookup, blocks, a, b) {
        LongestIsAll(check, select, lookup, All(b), a);
        BlockAtMost(check, select, lookup, blocks, a, b);
      } else {
        assert !Leads(check, select, lookup, blocks, a, c);
      }
    }
  }

  lemma {:induction false} LongestAttained(check: bool, select: bool, lookup: Lookup, blocks: seq<Block>, a: Address)
      returns (b: Block)
    requires blocks != []
    ensures b in blocks && LongestRun(check, select, lookup, All(b), a) == LongestIn(check, select, lookup, blocks, a)
  {
    var k := |blocks| - 1;
    b := blocks[k];
    if k > 0 {
      var c := LongestAttained(check, select, lookup, blocks[..k], a);
      if LongestRun(check, select, lookup, All(c), a) > LongestRun(check, select, lookup, All(b), a) { b := c; }
    }
  }

  lemma {:induction false} BlockAtMost(check: bool, select: bool, lookup: Lookup, blocks: seq<Block>, a: Address,
                                       b: Block)
    requires b in blocks
    ensures |NoncesOf(select, lookup, All(b), a)| <= MostIn(select, lookup, blocks, a)
    ensures LongestRun(check, select, lookup, All(b), a) <= LongestIn(check, select, lookup, blocks, a)
  {
    var k := |blocks| - 1;
    if b != blocks[k] {
      assert b in blocks[..k];
      BlockAtMost(check, select, lookup, blocks[..k], a, b);
    }
  }

  /** When the selection gives a sender as many nonces as one block has messages for
  it at most: exactly when some block with the most has them all from one sender of
  the check. */
  lemma NoncesAreMost(check: bool, select: bool, lookup: Lookup, actors: map<Address, Actor>, blocks: seq<Block>,
                      a: Address, n: nat)
    requires (check ==> select) && ActorHas(check, select, lookup, actors, a, n)
    requires forall b | b in blocks :: Consecutive(check, lookup, actors, All(b))
    ensures NoncesOf(select, lookup, Flatten(SelectedBlocks(select, lookup, blocks).0), a)
            == Range(n, MostIn(select, lookup, blocks, a))
            <==> OneWriterLeads(check, select, lookup, blocks, a)
  {
    TipsetNonces(check, select, lookup, actors, blocks, a, n);
    LongestIsMost(check, select, lookup, blocks, a);
    assert |Range(n, MostIn(select, lookup, blocks, a))| == MostIn(select, lookup, blocks, a);
    assert |Range(n, LongestIn(check, select, lookup, blocks, a))| == LongestIn(check, select, lookup, blocks, a);
  }

  // If check and eager selection tell senders apart alike, it always does.
  lemma SameSendersLead(resolve: bool, lookup: Lookup, blocks: seq<Block>, a: Address)
    ensures OneWriterLeads(resolve, resolve, lookup, blocks, a)
  {
    MostIsLongest(resolve, resolve, lookup, blocks, a);
    LongestIsMost(resolve, resolve, lookup, blocks, a);
  }

  lemma {:induction false} MostIsLongest(check: bool, select: bool, lookup: Lookup, blocks: seq<Block>, a: Address)
    requires (check ==> select) && forall b | b in blocks :: OneWriter(check, select, lookup, All(b), a)
    ensures MostIn(select, lookup, blocks, a) == LongestIn(check, select, lookup, blocks, a)
  {
    if blocks != [] {
      MostIsLongest(check, select, lookup, blocks[..|blocks| - 1], a);
      LongestIsAll(check, select, lookup, All(blocks[|blocks| - 1]), a);
    }
  }

  lemma OneMessage(resolve: bool, lookup: Lookup, m: Message, f: Address)
    ensures NoncesOf(resolve, lookup, [m], f) == if Sender(resolve, lookup, m.from) == Some(f) then [m.nonce] else []
  {
    assert [m][..0] == [];
  }

  lemma TwoMessages(resolve: bool, lookup: Lookup, m: Message, m': Message, f: Address)
    ensures NoncesOf(resolve, lookup, [m, m'], f) ==
            NoncesOf(resolve, lookup, [m], f) + if Sender(resolve, lookup, m'.from) == Some(f) then [m'.nonce] else []
  {
    assert [m, m'][..1] == [m];
  }

  lemma TwoWriters(lookup: Lookup, r: Address, id: Address, m: Message, m': Message)
    requires m.from == r && m'.from == id && r != id && lookup(r) == lookup(id) == Some(id) && m.nonce == m'.nonce == 5
    ensures forall f :: NoncesOf(false, lookup, [m, m'], f) == if f == r || f == id then [5] else []
    ensures NoncesOf(true, lookup, [m, m'], id) == [5, 5]
    ensures LongestRun(false, true, lookup, [m, m'], id) == 1
  {
    forall f ensures NoncesOf(false, lookup, [m, m'], f) == if f == r || f == id then [5] else [] {
      OneMessage(false, lookup, m, f);
      TwoMessages(false, lookup, m, m', f);
    }
    OneMessage(true, lookup, m, id);
    TwoMessages(true, lookup, m, m', id);
    OneMessage(false, lookup, m, r);
    assert [m, m'][..1] == [m] && [m][..0] == [];
    assert LongestRun(false, true, lookup, [m], id) == 1;
  }

  // A message from an address and one with the same nonce from its ID address.
  function OwnId(r: Address, id: Address): Block {
    Block([Message(r, 5, 0), Message(id, 5, 1)], [])
  }

  /** At the upgrade's height it need not: an actor at nonce 5 sends from its robust
  address and from its ID address, each from nonce 5 on.  The block passes, and of
  its two messages the selection takes one. */
  lemma UpgradeHeightLosesNonce(lookup: Lookup, r: Address, id: Address)
    requires IsLookup(lookup) && r.RobustAddress? && lookup(r) == Some(id)
    ensures var actors, b := map[id := Actor(5, true), r := Actor(5, true)], OwnId(r, id);
            && Consecutive(false, lookup, actors, All(b)) && MostIn(true, lookup, [b], id) == 2
            && NoncesOf(true, lookup, Flatten(SelectedBlocks(true, lookup, [b]).0), id) == [5]
  {
    var actors, b := map[id := Actor(5, true), r := Actor(5, true)], OwnId(r, id);
    var m, m' := Message(r, 5, 0), Message(id, 5, 1);
    TwoWriters(lookup, r, id, m, m');
    assert All(b) == [m, m'];
    WriterPasses(lookup, actors, [m, m'], r, id);
    var blocks := [b];
    assert blocks[..0] == [];
    TipsetNonces(false, true, lookup, actors, blocks, id, 5);
    assert Range(5, 1) == [5];
  }

  lemma WriterPasses(lookup: Lookup, actors: map<Address, Actor>, ms: seq<Message>, r: Address, id: Address)
    requires forall f :: NoncesOf(false, lookup, ms, f) == if f == r || f == id then [5] else []
    requires actors == map[id := Actor(5, true), r := Actor(5, true)]
    ensures Consecutive(false, lookup, actors, ms)
  {
    assert Range(5, 1) == [5];
  }

  // ---------------------------------------------------------------------
  // The rule of the selection, in terms of what has been selected

  // The next nonce of a sender is the one after its last selected message; a sender
  // without selected messages may start anywhere.
  ghost predicate MayFollow(ns: seq<nat>, nonce: nat) {
    ns == [] || nonce == ns[|ns| - 1] + 1
  }

  // The map of nonces knows exactly the senders selected so far and what they sent last.
  ghost predicate Remembers(resolve: bool, lookup: Lookup, out: seq<Message>, applied: Applied, a: Address) {
    var ns := NoncesOf(resolve, lookup, out, a);
    (a in applied <==> ns != []) && (a in applied ==> applied[a] == ns[|ns| - 1] + 1)
  }

  lemma {:induction false} SelectionRemembers(resolve: bool, lookup: Lookup, ms: seq<Message>, a: Address)
    ensures var (out, applied) := SelectedFrom(resolve, lookup, map[], ms); Remembers(resolve, lookup, out, applied, a)
  {
    if ms != [] {
      var n := |ms| - 1;
      SelectionRemembers(resolve, lookup, ms[..n], a);
      OneMoreNonce(resolve, lookup, SelectedFrom(resolve, lookup, map[], ms[..n]).0, ms[n], a);
      var sender := Sender(resolve, lookup, ms[n].from);
      if sender.Some? && sender != Some(a) { SelectionRemembers(resolve, lookup, ms[..n], sender.value); }
    }
  }

  /** One more message is selected exactly if its sender resolves and it carries the nonce
  after the sender's last selected message, or is the sender's first. */
  lemma SelectionRule(resolve: bool, lookup: Lookup, ms: seq<Message>, m: Message)
    ensures var out := SelectedFrom(resolve, lookup, map[], ms).0;
            var sender := Sender(resolve, lookup, m.from);
            SelectedFrom(resolve, lookup, map[], ms + [m]).0 ==
            if sender.Some? && MayFollow(NoncesOf(resolve, lookup, out, sender.value), m.nonce) then out + [m] else out
  {
    assert (ms + [m])[..|ms|] == ms;
    var sender := Sender(resolve, lookup, m.from);
    if sender.Some? { SelectionRemembers(resolve, lookup, ms, sender.value); }
  }

  /** The blocks of a tipset are selected as one long list, each list of a block keeping
  its own part. */
  lemma {:induction false} BlocksAsOneList(resolve: bool, lookup: Lookup, blocks: seq<Block>)
    ensures var (out, applied) := SelectedBlocks(resolve, lookup, blocks);
            |out| == |blocks| && SelectedFrom(resolve, lookup, map[], Flatten(blocks)) == (Flatten(out), applied)
    ensures blocks != [] ==>
              var n := |blocks| - 1;
              var out := SelectedBlocks(resolve, lookup, blocks).0;
              && out[..n] == SelectedBlocks(resolve, lookup, blocks[..n]).0
              && SelectedFrom(resolve, lookup, map[], Flatten(blocks[..n]) + blocks[n].bls).0
                 == Flatten(out[..n]) + out[n].bls
  {
    if blocks != [] {
      var n := |blocks| - 1;
      BlocksAsOneList(resolve, lookup, blocks[..n]);
      var (before, a) := SelectedBlocks(resolve, lookup, blocks[..n]);
      var (bls, b) := SelectedFrom(resolve, lookup, a, blocks[n].bls);
      var (secp, _) := SelectedFrom(resolve, lookup, b, blocks[n].secp);
      SelectedConcat(resolve, lookup, map[], Flatten(blocks[..n]), blocks[n].bls);
      SelectedConcat(resolve, lookup, map[], Flatten(blocks[..n]) + blocks[n].bls, blocks[n].secp);
      ConcatAssociates(Flatten(blocks[..n]), blocks[n].bls, blocks[n].secp);
      ConcatAssociates(Flatten(before), bls, secp);
      FlattenNext(before, Block(bls, secp));
    }
  }

  // ---------------------------------------------------------------------
  // No message is selected twice

  // Later selected messages of a sender carry higher nonces, all below the
  // next one expected.
  ghost predicate Rising(resolve: bool, lookup: Lookup, ms: seq<Message>, applied: Applied) {
    && (forall m | m in ms ::
          var sender := Sender(resolve, lookup, m.from);
          sender.Some? && sender.value in applied && m.nonce < applied[sender.value])
    && (forall i, j | 0 <= i < j < |ms| && Sender(resolve, lookup, ms[i].from) == Sender(resolve, lookup, ms[j].from) ::
          ms[i].nonce < ms[j].nonce)
  }

  lemma RisingTake(resolve: bool, lookup: Lookup, ms: seq<Message>, applied: Applied, m: Message, sender: Address)
    requires Rising(resolve, lookup, ms, applied) && Sender(resolve, lookup, m.from) == Some(sender)
    ensures var (take, applied') := Take(applied, sender, m.nonce);
            Rising(resolve, lookup, if take then ms + [m] else ms, applied')
  {
  }

  lemma {:induction false} SelectionRises(resolve: bool, lookup: Lookup, sofar: seq<Message>, applied: Applied,
                                          ms: seq<Message>)
    requires Rising(resolve, lookup, sofar, applied)
    ensures var (out, applied') := SelectedFrom(resolve, lookup, applied, ms);
            Rising(resolve, lookup, sofar + out, applied')
  {
    if ms != [] {
      var n := |ms| - 1;
      SelectionRises(resolve, lookup, sofar, applied, ms[..n]);
      var (out, b) := SelectedFrom(resolve, lookup, applied, ms[..n]);
      var sender := Sender(resolve, lookup, ms[n].from);
      if sender.Some? { RisingTake(resolve, lookup, sofar + out, b, ms[n], sender.value); }
      ConcatAssociates(sofar, out, [ms[n]]);
    } else {
      assert sofar + [] == sofar;
    }
  }

  lemma {:induction false} TipsetRises(resolve: bool, lookup: Lookup, blocks: seq<Block>)
    ensures var (out, applied) := SelectedBlocks(resolve, lookup, blocks);
            Rising(resolve, lookup, Flatten(out), applied)
  {
    if blocks != [] {
      var k := |blocks| - 1;
      var (out, applied) := SelectedBlocks(resolve, lookup, blocks[..k]);
      TipsetRises(resolve, lookup, blocks[..k]);
      var b := blocks[k];
      SelectionRises(resolve, lookup, Flatten(out), applied, b.bls);
      var (bls, applied1) := SelectedFrom(resolve, lookup, applied, b.bls);
      SelectionRises(resolve, lookup, Flatten(out) + bls, applied1, b.secp);
      var (secp, _) := SelectedFrom(resolve, lookup, applied1, b.secp);
      FlattenNext(out, Block(bls, secp));
      ConcatAssociates(Flatten(out), bls, secp);
    }
  }
}
