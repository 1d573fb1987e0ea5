/** When receipts line up with messages: exactly when the lazy selection takes no
message twice, which it may do if several addresses of one actor send.
*/
module Repeats {
  import opened Wrappers
  import opened Sequences
  import opened Messages
  import opened LazySelection
  import opened Nonces
  import opened Receipts

  // The processor skips none of the messages exactly if their CIDs differ.
  lemma {:induction false} SkipNeverFires(vmCid: Message -> nat, ms: seq<Message>)
    ensures |Firsts(vmCid, ms).0| <= |ms|
    ensures |Firsts(vmCid, ms).0| == |ms| <==> DistinctBy(vmCid, ms)
  {
    if ms != [] {
      var n := |ms| - 1;
      SkipNeverFires(vmCid, ms[..n]);
      FirstsMeaning(vmCid, ms[..n]);
      DistinctNext(vmCid, ms);
    }
  }

  lemma DistinctNext(f: Message -> nat, ms: seq<Message>)
    requires ms != []
    ensures var n := |ms| - 1;
            DistinctBy(f, ms) <==> DistinctBy(f, ms[..n]) && forall m | m in ms[..n] :: f(m) != f(ms[n])
  {
    var n := |ms| - 1;
    if DistinctBy(f, ms) {
      forall m | m in ms[..n] ensures f(m) != f(ms[n]) {
        var i :| 0 <= i < n && ms[i] == m;
      }
    } else {
      var i, j :| 0 <= i < j < |ms| && f(ms[i]) == f(ms[j]);
      assert ms[..n][i] == ms[i] && ms[i] in ms[..n];
      assert j < n ==> ms[..n][j] == ms[j];
    }
  }

  // Whatever these senders send, every selected message has its own receipt.
  ghost predicate AlwaysLineUp(lookup: Lookup, senders: set<Address>, vmCid: Message -> nat) {
    forall order: Order, blocks: seq<Block> |
      IsOrder(order) && Senders(Flatten(blocks)) <= senders && Selection(true, lookup, order, blocks).Some? ::
      var all := Flatten(Selection(true, lookup, order, blocks).value);
      |Firsts(vmCid, all).0| == |all|
  }

  lemma LazyNext(lookup: Lookup, order: Order, l: Lazy, ms: seq<Message>, m: Message, l1: Lazy, l2: Lazy)
    requires LazyFrom(true, lookup, order, l, ms) == Some(l1) && LazyOne(true, lookup, order, l1, m) == Some(l2)
    ensures LazyFrom(true, lookup, order, l, ms + [m]) == Some(l2)
  {
    assert (ms + [m])[..|ms|] == ms;
  }

  lemma BlockNext(lookup: Lookup, order: Order, blocks: seq<Block>, out: seq<Block>, l: Lazy, ms: seq<Message>,
                  l': Lazy)
    requires LazyBlocks(true, lookup, order, blocks) == Some((out, l))
    requires LazyFrom(true, lookup, order, l.(out := []), ms) == Some(l')
    ensures LazyBlocks(true, lookup, order, blocks + [Block(ms, [])])
            == Some((out + [Block(l'.out, [])], l'.(out := [])))
  {
    var bs := blocks + [Block(ms, [])];
    assert bs[..|blocks|] == blocks && bs[|blocks|] == Block(ms, []);
  }

  // The blocks of the input in which a message is selected twice: a and b are robust
  // addresses of one actor, x is an ID address.
  function First(a: Address): seq<Message> {
    [Message(a, 5, 0), Message(a, 6, 0)]
  }

  function Second(b: Address): seq<Message> {
    [Message(b, 5, 0)]
  }

  function Third(a: Address, x: Address, id: Address): seq<Message> {
    if x == id then [Message(x, 5, 0), Message(a, 6, 0)]
    else [Message(x, 5, 0), Message(a, 5, 0), Message(a, 6, 0)]
  }

  function Repeating(a: Address, b: Address, x: Address, id: Address): seq<Block> {
    [Block(First(a), []), Block(Second(b), []), Block(Third(a, x, id), [])]
  }

  // The map is iterated with a before b when the ID address is met.
  ghost function BadOrder(a: Address, b: Address): (order: Order)
    requires a != b
    ensures IsOrder(order) && order(map[a := 7, b := 6]) == [a, b]
  {
    var any := AnyOrder();
    var order := (m: Applied) => if m == map[a := 7, b := 6] then [a, b] else any(m);
    assert forall m: Applied :: Enumerates(order(m), m) by {
      forall m: Applied ensures Enumerates(order(m), m) { assert Enumerates(any(m), m); }
    }
    order
  }

  lemma FirstSelected(lookup: Lookup, order: Order, a: Address)
    requires a.RobustAddress?
    ensures LazyFrom(true, lookup, order, Lazy([], map[], false), First(a)) == Some(Lazy(First(a), map[a := 7], false))
  {
    var l, m, m' := Lazy([], map[], false), Message(a, 5, 0), Message(a, 6, 0);
    assert map[][a := 5][a := 6] == map[a := 6] && map[a := 6][a := 7] == map[a := 7];
    assert TakeLazy(l, a, m) == Lazy([m], map[a := 6], false);
    LazyNext(lookup, order, l, [], m, l, Lazy([m], map[a := 6], false));
    assert [] + [m] == [m] && [m] + [m'] == First(a);
    LazyNext(lookup, order, l, [m], m', Lazy([m], map[a := 6], false), Lazy(First(a), map[a := 7], false));
  }

  lemma SecondSelected(lookup: Lookup, order: Order, a: Address, b: Address)
    requires a.RobustAddress? && b.RobustAddress? && a != b
    ensures LazyFrom(true, lookup, order, Lazy([], map[a := 7], false), Second(b))
            == Some(Lazy(Second(b), map[a := 7, b := 6], false))
  {
    var l, m := Lazy([], map[a := 7], false), Message(b, 5, 0);
    assert [] + [m] == Second(b) && map[a := 7][b := 5][b := 6] == map[a := 7, b := 6];
    LazyNext(lookup, order, l, [], m, l, Lazy(Second(b), map[a := 7, b := 6], false));
  }

  lemma Rekeys(lookup: Lookup, a: Address, b: Address, id: Address)
    requires a != b && a != id && b != id && lookup(a) == lookup(b) == Some(id)
    ensures Rekey(lookup, map[a := 7, b := 6], [a, b]) == Some(map[a := 7, b := 6, id := 6])
  {
    var m: Applied := map[a := 7, b := 6];
    assert [a, b][..1] == [a] && [a][..0] == [];
    assert Rekey(lookup, m, [a]) == Some(m[id := 7]);
    assert m[id := 7][id := 6] == map[a := 7, b := 6, id := 6];
  }

  lemma ThirdSelected(lookup: Lookup, order: Order, a: Address, b: Address, x: Address, id: Address) returns (l': Lazy)
    requires IsLookup(lookup) && a.RobustAddress? && b.RobustAddress? && a != b && x.IdAddress?
    requires lookup(a) == lookup(b) == Some(id) && order(map[a := 7, b := 6]) == [a, b]
    ensures LazyFrom(true, lookup, order, Lazy([], map[a := 7, b := 6], false), Third(a, x, id)) == Some(l')
    ensures Message(a, 6, 0) in l'.out
  {
    var l := Lazy([], map[a := 7, b := 6], false);
    var m0, m1, m2 := Message(x, 5, 0), Message(a, 5, 0), Message(a, 6, 0);
    Rekeys(lookup, a, b, id);
    var rekeyed: Applied := map[a := 7, b := 6, id := 6];
    var l0 := TakeLazy(Lazy([], rekeyed, true), x, m0);
    LazyNext(lookup, order, l, [], m0, l, l0);
    assert [] + [m0] == [m0] && l0.applied[id] == 6;
    if x == id {
      l' := TakeLazy(l0, id, m2);
      LazyNext(lookup, order, l, [m0], m2, l0, l');
      assert [m0] + [m2] == Third(a, x, id);
    } else {
      var l1 := TakeLazy(l0, id, m1);
      LazyNext(lookup, order, l, [m0], m1, l0, l1);
      l' := TakeLazy(l1, id, m2);
      LazyNext(lookup, order, l, [m0] + [m1], m2, l1, l');
      assert ([m0] + [m1]) + [m2] == Third(a, x, id);
    }
    assert l'.out[|l'.out| - 1] == m2;
  }

  /** Two robust addresses of one actor and a sender written as an ID address: one
  order of the map makes the lazy selection take a message twice. */
  lemma MessageRepeats(lookup: Lookup, a: Address, b: Address, x: Address, id: Address)
    requires IsLookup(lookup) && a.RobustAddress? && b.RobustAddress? && a != b && x.IdAddress?
    requires lookup(a) == lookup(b) == Some(id)
    ensures exists order: Order ::
              && IsOrder(order) && Selection(true, lookup, order, Repeating(a, b, x, id)).Some?
              && !Distinct(Flatten(Selection(true, lookup, order, Repeating(a, b, x, id)).value))
  {
    var order := BadOrder(a, b);
    var l' := ThreeSelected(lookup, order, a, b, x, id);
    RepeatsIn(a, b, l'.out);
  }

  // The three blocks selected one after the other.
  lemma ThreeSelected(lookup: Lookup, order: Order, a: Address, b: Address, x: Address, id: Address) returns (l': Lazy)
    requires IsLookup(lookup) && a.RobustAddress? && b.RobustAddress? && a != b && x.IdAddress?
    requires lookup(a) == lookup(b) == Some(id) && order(map[a := 7, b := 6]) == [a, b]
    ensures Selection(true, lookup, order, Repeating(a, b, x, id)) ==
            Some([Block(First(a), []), Block(Second(b), []), Block(l'.out, [])])
    ensures Message(a, 6, 0) in l'.out
  {
    var start, none: seq<Block> := Lazy([], map[], false), [];
    FirstSelected(lookup, order, a);
    BlockNext(lookup, order, none, none, start, First(a), Lazy(First(a), map[a := 7], false));
    SecondSelected(lookup, order, a, b);
    var bs1, out1 := none + [Block(First(a), [])], none + [Block(First(a), [])];
    BlockNext(lookup, order, bs1, out1, Lazy([], map[a := 7], false), Second(b),
              Lazy(Second(b), map[a := 7, b := 6], false));
    l' := ThirdSelected(lookup, order, a, b, x, id);
    var bs2, out2 := bs1 + [Block(Second(b), [])], out1 + [Block(Second(b), [])];
    BlockNext(lookup, order, bs2, out2, Lazy([], map[a := 7, b := 6], false), Third(a, x, id), l');
    assert bs2 + [Block(Third(a, x, id), [])] == Repeating(a, b, x, id);
    assert out2 + [Block(l'.out, [])] == [Block(First(a), []), Block(Second(b), []), Block(l'.out, [])];
  }

  lemma RepeatsIn(a: Address, b: Address, out: seq<Message>)
    requires Message(a, 6, 0) in out
    ensures !Distinct(Flatten([Block(First(a), []), Block(Second(b), []), Block(out, [])]))
  {
    ThreeBlocks(First(a), Second(b), out);
    var k :| 0 <= k < |out| && out[k] == Message(a, 6, 0);
    var all := (First(a) + Second(b)) + out;
    assert all[1] == Message(a, 6, 0) && all[3 + k] == Message(a, 6, 0);
  }

  lemma ThreeBlocks(xs: seq<Message>, ys: seq<Message>, zs: seq<Message>)
    ensures Flatten([Block(xs, []), Block(ys, []), Block(zs, [])]) == (xs + ys) + zs
  {
    var bs := [Block(xs, []), Block(ys, []), Block(zs, [])];
    assert bs[..2] == [Block(xs, []), Block(ys, [])] && bs[..2][..1] == [Block(xs, [])] && [Block(xs, [])][..0] == [];
    assert xs + [] == xs && ys + [] == ys && zs + [] == zs && [] + xs == xs;
    assert Flatten([Block(xs, [])]) == xs;
    assert Flatten(bs[..2]) == xs + ys;
  }

  /** Every selected message has its own receipt, whatever the senders send and in
  whatever order the map is iterated, exactly when none of them is written as an ID
  address or the robust ones stand for different actors. */
  lemma ReceiptsLineUp(lookup: Lookup, senders: set<Address>, vmCid: Message -> nat, cid: Message -> nat)
    requires IsLookup(lookup) && Cids(vmCid, cid)
    ensures AlwaysLineUp(lookup, senders, vmCid) <==> Distinguishable(true, lookup, senders)
  {
    if Distinguishable(true, lookup, senders) {
      forall order: Order, blocks: seq<Block> |
        IsOrder(order) && Senders(Flatten(blocks)) <= senders && Selection(true, lookup, order, blocks).Some?
        ensures var all := Flatten(Selection(true, lookup, order, blocks).value); |Firsts(vmCid, all).0| == |all|
      {
        LazyDistinct(true, lookup, order, blocks, vmCid, cid);
        SkipNeverFires(vmCid, Flatten(Selection(true, lookup, order, blocks).value));
      }
    } else {
      var a, b :| a in senders && b in senders && a.RobustAddress? && b.RobustAddress? && lookup(a).Some?
                  && lookup(a) == lookup(b) && a != b;
      var x :| x in senders && x.IdAddress?;
      var id := lookup(a).value;
      MessageRepeats(lookup, a, b, x, id);
      var blocks := Repeating(a, b, x, id);
      var order: Order :| IsOrder(order) && Selection(true, lookup, order, blocks).Some?
                          && !Distinct(Flatten(Selection(true, lookup, order, blocks).value));
      var all := Flatten(Selection(true, lookup, order, blocks).value);
      SkipNeverFires(vmCid, all);
      var i, j :| 0 <= i < j < |all| && all[i] == all[j];
      RepeatingSenders(a, b, x, id);
      assert !DistinctBy(vmCid, all);
    }
  }

  lemma RepeatingSenders(a: Address, b: Address, x: Address, id: Address)
    ensures Senders(Flatten(Repeating(a, b, x, id))) <= {a, b, x}
  {
    ThreeBlocks(First(a), Second(b), Third(a, x, id));
  }

  /** Each of these blocks passes its nonce check, the two actors being at nonce 5. */
  lemma RepeatingPasses(lookup: Lookup, a: Address, b: Address, x: Address, id: Address, block: Block)
    requires IsLookup(lookup) && a.RobustAddress? && b.RobustAddress? && a != b && x.IdAddress?
    requires lookup(a) == lookup(b) == Some(id) && block in Repeating(a, b, x, id)
    ensures Consecutive(true, lookup, map[id := Actor(5, true), x := Actor(5, true)], All(block))
  {
    var actors := map[id := Actor(5, true), x := Actor(5, true)];
    assert Consecutive(true, lookup, actors, []);
    if block == Block(First(a), []) {
      MorePasses(lookup, actors, [], Message(a, 5, 0), id, 0);
      MorePasses(lookup, actors, [Message(a, 5, 0)], Message(a, 6, 0), id, 1);
      assert [Message(a, 5, 0)] + [Message(a, 6, 0)] == All(block);
    } else if block == Block(Second(b), []) {
      MorePasses(lookup, actors, [], Message(b, 5, 0), id, 0);
      assert [Message(b, 5, 0)] == All(block);
    } else {
      ThirdPasses(lookup, actors, a, x, id);
      assert Third(a, x, id) == All(block);
    }
  }

  lemma ThirdPasses(lookup: Lookup, actors: map<Address, Actor>, a: Address, x: Address, id: Address)
    requires IsLookup(lookup) && x.IdAddress? && lookup(a) == Some(id)
    requires actors == map[id := Actor(5, true), x := Actor(5, true)]
    ensures Consecutive(true, lookup, actors, Third(a, x, id))
  {
    var m0, m1, m2 := Message(x, 5, 0), Message(a, 5, 0), Message(a, 6, 0);
    MorePasses(lookup, actors, [], m0, x, 0);
    if x == id {
      MorePasses(lookup, actors, [m0], m2, id, 1);
      assert [m0] + [m2] == Third(a, x, id);
    } else {
      OneMessage(true, lookup, m0, id);
      MorePasses(lookup, actors, [m0], m1, id, 0);
      OneMoreNonce(true, lookup, [m0], m1, id);
      MorePasses(lookup, actors, [m0] + [m1], m2, id, 1);
      assert ([m0] + [m1]) + [m2] == Third(a, x, id);
    }
  }

  lemma MorePasses(lookup: Lookup, actors: map<Address, Actor>, ms: seq<Message>, m: Message, a: Address, k: nat)
    requires Consecutive(true, lookup, actors, ms) && lookup(m.from) == Some(a) && a in actors
             && actors[a] == Actor(5, true)
    requires m.nonce == 5 + k && |NoncesOf(true, lookup, ms, a)| == k
    ensures Consecutive(true, lookup, actors, ms + [m]) && |NoncesOf(true, lookup, ms + [m], a)| == k + 1
    ensures ms == [] ==> ms + [m] == [m]
  {
    OneMoreOk(true, lookup, actors, ms, m, a);
    OneMoreNonce(true, lookup, ms, m, a);
  }
}
