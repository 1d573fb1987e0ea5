/** The lazy selection refines the eager one: exactly when the senders' addresses
resolve and different robust addresses belong to different actors, it selects the
same messages, block by block and in order, whatever the order of its map.
*/
module LazySelection {
  import opened Wrappers
  import opened Sequences
  import opened Messages

  // ---------------------------------------------------------------------
  // Re-keying

  // The nonce recorded for an ID address is that of an address that resolves to it.
  ghost predicate Rekeyed(lookup: Lookup, before: Applied, applied: Applied, a: Address)
    requires a in applied
  {
    exists r :: r in before && lookup(r) == Some(a) && applied[a] == before[r]
  }

  // The map between two steps of the re-keying.
  ghost predicate Rekeying(lookup: Lookup, before: Applied, applied: Applied) {
    && (forall r | r in before :: r in applied && applied[r] == before[r])
    && (forall a | a in applied && a !in before :: a.IdAddress? && Rekeyed(lookup, before, applied, a))
  }

  lemma RekeyStep(lookup: Lookup, before: Applied, applied: Applied, a: Address)
    requires IsLookup(lookup) && (forall r | r in before :: r.RobustAddress?)
    requires Rekeying(lookup, before, applied) && a in before && lookup(a).Some?
    ensures Rekeying(lookup, before, applied[lookup(a).value := applied[a]])
  {
    var applied' := applied[lookup(a).value := applied[a]];
    forall b | b in applied' && b !in before ensures b.IdAddress? && Rekeyed(lookup, before, applied', b) {
      if b != lookup(a).value { assert Rekeyed(lookup, before, applied, b); }
    }
  }

  /** Re-keying gives every actor the nonce of one of its addresses, and fails
  exactly if an address does not resolve. */
  lemma {:induction false} RekeyMeaning(lookup: Lookup, a: Applied, keys: seq<Address>)
    requires IsLookup(lookup) && (forall r | r in a :: r.RobustAddress?) && (forall k | k in keys :: k in a)
    ensures var b := Rekey(lookup, a, keys);
            && (b.Some? <==> forall k | k in keys :: lookup(k).Some?)
            && (b.Some? ==> Rekeying(lookup, a, b.value) && forall k | k in keys :: lookup(k).value in b.value)
  {
    if keys != [] {
      var n := |keys| - 1;
      assert keys == keys[..n] + [keys[n]];
      RekeyMeaning(lookup, a, keys[..n]);
      var b := Rekey(lookup, a, keys[..n]);
      if b.Some? && lookup(keys[n]).Some? { RekeyStep(lookup, a, b.value, keys[n]); }
    }
  }

  // ---------------------------------------------------------------------
  // The lazy state stands for the eager state

  // e holds the values of l under the resolved addresses.
  ghost predicate Image(lookup: Lookup, l: Applied, e: Applied) {
    && (forall r | r in l :: lookup(r).Some? && lookup(r).value in e && e[lookup(r).value] == l[r])
    && (forall a | a in e :: exists r :: r in l && lookup(r) == Some(a))
  }

  ghost predicate SameIds(l: Applied, e: Applied) {
    && (forall a | a in e :: a.IdAddress?)
    && (forall n :: IdAddress(n) in l <==> IdAddress(n) in e)
    && (forall n | IdAddress(n) in l :: l[IdAddress(n)] == e[IdAddress(n)])
  }

  ghost predicate Stands(resolve: bool, lookup: Lookup, senders: set<Address>, l: Applied, useIds: bool, e: Applied) {
    if !resolve then l == e && !useIds
    else if useIds then SameIds(l, e)
    else (forall r | r in l :: r.RobustAddress? && r in senders) && Image(lookup, l, e)
  }

  lemma RekeyStands(lookup: Lookup, l: Applied, keys: seq<Address>, e: Applied)
    requires IsLookup(lookup) && Enumerates(keys, l) && (forall r | r in l :: r.RobustAddress?) && Image(lookup, l, e)
    ensures Rekey(lookup, l, keys).Some? && SameIds(Rekey(lookup, l, keys).value, e)
  {
    RekeyMeaning(lookup, l, keys);
    var b := Rekey(lookup, l, keys).value;
    forall n | IdAddress(n) in b ensures IdAddress(n) in e && b[IdAddress(n)] == e[IdAddress(n)] {
      assert Rekeyed(lookup, l, b, IdAddress(n));
    }
  }

  lemma ImageTake(lookup: Lookup, senders: set<Address>, l: Applied, e: Applied, from: Address, nonce: nat)
    requires Separates(lookup, senders) && from in senders && from.RobustAddress? && Image(lookup, l, e)
    requires forall r | r in l :: r.RobustAddress? && r in senders
    ensures var id := lookup(from).value;
            && Take(l, from, nonce).0 == Take(e, id, nonce).0
            && Image(lookup, Take(l, from, nonce).1, Take(e, id, nonce).1)
  {
    var id := lookup(from).value;
    assert id in e ==> from in l;
    var l', e' := Take(l, from, nonce).1, Take(e, id, nonce).1;
    forall a | a in e' ensures exists r :: r in l' && lookup(r) == Some(a) {
      if a == id {
        assert from in l' && lookup(from) == Some(a);
      } else {
        var r :| r in l && lookup(r) == Some(a);
        assert r in l';
      }
    }
  }

  lemma SameIdsTake(l: Applied, e: Applied, id: Address, nonce: nat)
    requires SameIds(l, e) && id.IdAddress?
    ensures Take(l, id, nonce).0 == Take(e, id, nonce).0 && SameIds(Take(l, id, nonce).1, Take(e, id, nonce).1)
  {
  }

  // What the eager selection does with one message.
  function Eager(resolve: bool, lookup: Lookup, e: Applied, m: Message): (seq<Message>, Applied)
    requires Sender(resolve, lookup, m.from).Some?
  {
    var (take, e') := Take(e, Sender(resolve, lookup, m.from).value, m.nonce);
    (if take then [m] else [], e')
  }

  lemma EagerNext(resolve: bool, lookup: Lookup, e: Applied, ms: seq<Message>)
    requires ms != [] && Sender(resolve, lookup, ms[|ms| - 1].from).Some?
    ensures var (out, e') := SelectedFrom(resolve, lookup, e, ms[..|ms| - 1]);
            var (more, e'') := Eager(resolve, lookup, e', ms[|ms| - 1]);
            SelectedFrom(resolve, lookup, e, ms) == (out + more, e'')
  {
    var (out, _) := SelectedFrom(resolve, lookup, e, ms[..|ms| - 1]);
    assert out + [] == out;
  }

  lemma LazyOneAgrees(resolve: bool, lookup: Lookup, order: Order, senders: set<Address>, l: Lazy, e: Applied,
                      m: Message)
    requires IsLookup(lookup) && IsOrder(order) && Separates(lookup, senders) && m.from in senders
    requires Stands(resolve, lookup, senders, l.applied, l.ids, e)
    ensures var r := LazyOne(resolve, lookup, order, l, m); var (more, e') := Eager(resolve, lookup, e, m);
            r.Some? && r.value.out == l.out + more && Stands(resolve, lookup, senders, r.value.applied, r.value.ids, e')
  {
    assert l.out + [] == l.out;
    if !resolve {
    } else if l.ids {
      SameIdsTake(l.applied, e, lookup(m.from).value, m.nonce);
    } else if m.from.RobustAddress? {
      ImageTake(lookup, senders, l.applied, e, m.from, m.nonce);
    } else {
      assert Enumerates(order(l.applied), l.applied);
      RekeyStands(lookup, l.applied, order(l.applied), e);
      SameIdsTake(Rekey(lookup, l.applied, order(l.applied)).value, e, m.from, m.nonce);
    }
  }

  lemma {:induction false} LazyFromAgrees(resolve: bool, lookup: Lookup, order: Order, senders: set<Address>,
                                          l: Lazy, e: Applied, ms: seq<Message>)
    requires IsLookup(lookup) && IsOrder(order) && Separates(lookup, senders) && Senders(ms) <= senders
    requires Stands(resolve, lookup, senders, l.applied, l.ids, e)
    ensures var r := LazyFrom(resolve, lookup, order, l, ms); var (out, e') := SelectedFrom(resolve, lookup, e, ms);
            r.Some? && r.value.out == l.out + out && Stands(resolve, lookup, senders, r.value.applied, r.value.ids, e')
  {
    if ms == [] {
      assert l.out + [] == l.out;
    } else {
      var n := |ms| - 1;
      assert ms[n].from in Senders(ms);
      assert Senders(ms[..n]) <= Senders(ms);
      LazyFromAgrees(resolve, lookup, order, senders, l, e, ms[..n]);
      var (out, e') := SelectedFrom(resolve, lookup, e, ms[..n]);
      LazyOneAgrees(resolve, lookup, order, senders, LazyFrom(resolve, lookup, order, l, ms[..n]).value, e', ms[n]);
      EagerNext(resolve, lookup, e, ms);
      ConcatAssociates(l.out, out, Eager(resolve, lookup, e', ms[n]).0);
    }
  }

  lemma LazyBlockAgrees(resolve: bool, lookup: Lookup, order: Order, senders: set<Address>, l: Lazy, e: Applied,
                        b: Block)
    requires IsLookup(lookup) && IsOrder(order) && Separates(lookup, senders)
    requires Senders(b.bls) <= senders && Senders(b.secp) <= senders
    requires Stands(resolve, lookup, senders, l.applied, l.ids, e)
    ensures var r := LazyBlock(resolve, lookup, order, l, b);
            var (bls, e') := SelectedFrom(resolve, lookup, e, b.bls);
            var (secp, e'') := SelectedFrom(resolve, lookup, e', b.secp);
            r.Some? && r.value.0 == Block(bls, secp)
              && Stands(resolve, lookup, senders, r.value.1.applied, r.value.1.ids, e'')
  {
    LazyFromAgrees(resolve, lookup, order, senders, l.(out := []), e, b.bls);
    var (bls, e') := SelectedFrom(resolve, lookup, e, b.bls);
    var x := LazyFrom(resolve, lookup, order, l.(out := []), b.bls).value;
    LazyFromAgrees(resolve, lookup, order, senders, x.(out := []), e', b.secp);
    assert [] + bls == bls;
    assert [] + SelectedFrom(resolve, lookup, e', b.secp).0 == SelectedFrom(resolve, lookup, e', b.secp).0;
  }

  lemma {:induction false} LazyBlocksAgree(resolve: bool, lookup: Lookup, order: Order, senders: set<Address>,
                                           blocks: seq<Block>)
    requires IsLookup(lookup) && IsOrder(order) && Separates(lookup, senders) && Senders(Flatten(blocks)) <= senders
    ensures var r := LazyBlocks(resolve, lookup, order, blocks);
            var (out, e) := SelectedBlocks(resolve, lookup, blocks);
            r.Some? && r.value.0 == out && Stands(resolve, lookup, senders, r.value.1.applied, r.value.1.ids, e)
  {
    if blocks != [] {
      var n := |blocks| - 1;
      BlockSenders(blocks, n);
      SendersOfPrefix(blocks);
      LazyBlocksAgree(resolve, lookup, order, senders, blocks[..n]);
      LazyBlockAgrees(resolve, lookup, order, senders, LazyBlocks(resolve, lookup, order, blocks[..n]).value.1,
                      SelectedBlocks(resolve, lookup, blocks[..n]).1, blocks[n]);
    }
  }

  lemma SendersOfPrefix(blocks: seq<Block>)
    requires blocks != []
    ensures Senders(Flatten(blocks[..|blocks| - 1])) <= Senders(Flatten(blocks))
  {
    FlattenPrefix(blocks, |blocks| - 1);
  }

  lemma BlockSenders(blocks: seq<Block>, i: nat)
    requires i < |blocks|
    ensures Senders(blocks[i].bls) <= Senders(Flatten(blocks)) && Senders(blocks[i].secp) <= Senders(Flatten(blocks))
  {
    FlattenPrefix(blocks, i + 1);
    forall m | m in blocks[i].bls || m in blocks[i].secp ensures m in Flatten(blocks) {
      assert m in Flatten(blocks[..i + 1]);
    }
  }

  // ---------------------------------------------------------------------
  // Without a sender written as an ID address nothing is resolved

  lemma {:induction false} LazyFromUnresolved(resolve: bool, lookup: Lookup, order: Order, l: Lazy, ms: seq<Message>)
    requires !l.ids && (resolve ==> forall m | m in ms :: m.from.RobustAddress?)
    ensures var (out, e) := SelectedFrom(false, lookup, l.applied, ms);
            LazyFrom(resolve, lookup, order, l, ms) == Some(Lazy(l.out + out, e, false))
  {
    if ms == [] {
      assert l.out + [] == l.out;
    } else {
      var n := |ms| - 1;
      LazyFromUnresolved(resolve, lookup, order, l, ms[..n]);
      var (out, e) := SelectedFrom(false, lookup, l.applied, ms[..n]);
      EagerNext(false, lookup, l.applied, ms);
      ConcatAssociates(l.out, out, Eager(false, lookup, e, ms[n]).0);
      assert (l.out + out) + [] == l.out + out;
    }
  }

  lemma {:induction false} LazyBlocksUnresolved(resolve: bool, lookup: Lookup, order: Order, blocks: seq<Block>)
    requires resolve ==> forall m | m in Flatten(blocks) :: m.from.RobustAddress?
    ensures var r := LazyBlocks(resolve, lookup, order, blocks); var (out, e) := SelectedBlocks(false, lookup, blocks);
            r.Some? && r.value.0 == out && r.value.1.applied == e && !r.value.1.ids
  {
    if blocks != [] {
      var n := |blocks| - 1;
      var b := blocks[n];
      LazyBlocksUnresolved(resolve, lookup, order, blocks[..n]);
      var l := LazyBlocks(resolve, lookup, order, blocks[..n]).value.1;
      LazyFromUnresolved(resolve, lookup, order, l.(out := []), b.bls);
      var (bls, e) := SelectedFrom(false, lookup, l.applied, b.bls);
      LazyFromUnresolved(resolve, lookup, order, Lazy([], e, false), b.secp);
      assert [] + bls == bls;
      assert [] + SelectedFrom(false, lookup, e, b.secp).0 == SelectedFrom(false, lookup, e, b.secp).0;
    }
  }

  // ---------------------------------------------------------------------
  // The exact condition

  // What the eager selection returns.
  ghost function EagerSelection(resolve: bool, lookup: Lookup, blocks: seq<Block>): Option<seq<Block>> {
    if Resolvable(resolve, lookup, Flatten(blocks)) then Some(SelectedBlocks(resolve, lookup, blocks).0) else None
  }

  // The two selections agree on everything these senders can send.
  ghost predicate AlwaysAgree(lookup: Lookup, senders: set<Address>) {
    forall order: Order, blocks: seq<Block> | IsOrder(order) && Senders(Flatten(blocks)) <= senders ::
      Selection(true, lookup, order, blocks) == EagerSelection(true, lookup, blocks)
  }

  /** Lazy and eager selection agree, for every order of the map and every tipset of
  these senders, exactly when the senders resolve and no two of the robust ones
  stand for one actor. */
  lemma LazyRefinesEager(lookup: Lookup, senders: set<Address>)
    requires IsLookup(lookup)
    ensures AlwaysAgree(lookup, senders) <==> Separates(lookup, senders)
  {
    if Separates(lookup, senders) {
      forall order: Order, blocks: seq<Block> | IsOrder(order) && Senders(Flatten(blocks)) <= senders
        ensures Selection(true, lookup, order, blocks) == EagerSelection(true, lookup, blocks)
      {
        LazyBlocksAgree(true, lookup, order, senders, blocks);
        forall m | m in Flatten(blocks) ensures lookup(m.from).Some? { assert m.from in Senders(Flatten(blocks)); }
      }
    } else if r :| r in senders && lookup(r).None? {
      UnresolvedDisagrees(lookup, r);
    } else {
      var a, b :| a in senders && b in senders && a.RobustAddress? && b.RobustAddress? && lookup(a) == lookup(b)
        && a != b;
      SharedActorDisagrees(lookup, AnyOrder(), a, b);
    }
  }

  lemma OneBlock(ms: seq<Message>)
    ensures Flatten([Block(ms, [])]) == ms
  {
    assert [Block(ms, [])][..0] == [] && [] + (ms + []) == ms;
  }

  lemma OneBlockSelected(resolve: bool, lookup: Lookup, ms: seq<Message>)
    ensures var (out, applied) := SelectedFrom(resolve, lookup, map[], ms);
            SelectedBlocks(resolve, lookup, [Block(ms, [])]) == ([Block(out, [])], applied)
  {
    var blocks := [Block(ms, [])];
    assert blocks[..0] == [];
    var (out, _) := SelectedFrom(resolve, lookup, map[], ms);
    assert [] + [Block(out, [])] == [Block(out, [])];
  }

  ghost function AnyOrder(): (order: Order)
    ensures IsOrder(order)
  {
    var order := (a: Applied) => Keys(a.Keys);
    assert forall a: Applied :: Enumerates(order(a), a);
    order
  }

  ghost function Keys(s: set<Address>): (keys: seq<Address>)
    ensures Distinct(keys) && forall k :: k in keys <==> k in s
  {
    if s == {} then [] else var k :| k in s; [k] + Keys(s - {k})
  }

  /** A message from an address that does not resolve: the eager selection fails and
  the lazy one takes it. */
  lemma UnresolvedDisagrees(lookup: Lookup, r: Address)
    requires IsLookup(lookup) && lookup(r).None?
    ensures forall senders | r in senders :: !AlwaysAgree(lookup, senders)
  {
    var m, order := Message(r, 0, 0), AnyOrder();
    var blocks := [Block([m], [])];
    OneBlock([m]);
    LazyBlocksUnresolved(true, lookup, order, blocks);
    assert m in Flatten(blocks) && Senders(Flatten(blocks)) == {r};
    assert Selection(true, lookup, order, blocks) != EagerSelection(true, lookup, blocks);
  }

  // Two blocks with one message each, from two senders and with one nonce.
  function Sharing(a: Address, b: Address): seq<Block> {
    [Block([Message(a, 5, 0)], []), Block([Message(b, 5, 1)], [])]
  }

  lemma OneSelected(resolve: bool, lookup: Lookup, applied: Applied, m: Message)
    requires Sender(resolve, lookup, m.from).Some?
    ensures var (take, applied') := Take(applied, Sender(resolve, lookup, m.from).value, m.nonce);
            SelectedFrom(resolve, lookup, applied, [m]) == (if take then [m] else [], applied')
  {
    assert [m][..0] == [] && [] + [m] == [m];
  }

  // The second message is selected if it counts for a different sender.
  lemma SharingSelected(resolve: bool, lookup: Lookup, a: Address, b: Address)
    requires Sender(resolve, lookup, a).Some? && Sender(resolve, lookup, b).Some?
    ensures SelectedBlocks(resolve, lookup, Sharing(a, b)).0 ==
            if Sender(resolve, lookup, a) == Sender(resolve, lookup, b)
            then [Block([Message(a, 5, 0)], []), Block([], [])] else Sharing(a, b)
  {
    var m, n, blocks := Message(a, 5, 0), Message(b, 5, 1), Sharing(a, b);
    var applied := map[Sender(resolve, lookup, a).value := 6];
    assert blocks[..1] == [Block([m], [])];
    OneSelected(resolve, lookup, map[], m);
    OneBlockSelected(resolve, lookup, [m]);
    OneSelected(resolve, lookup, applied, n);
  }

  lemma SharingMessages(a: Address, b: Address)
    ensures Flatten(Sharing(a, b)) == [Message(a, 5, 0), Message(b, 5, 1)]
    ensures Senders(Flatten(Sharing(a, b))) == {a, b}
  {
    var blocks := Sharing(a, b);
    OneBlock([Message(a, 5, 0)]);
    assert blocks[..1] == [Block([Message(a, 5, 0)], [])];
    assert [Message(a, 5, 0)] + ([Message(b, 5, 1)] + []) == [Message(a, 5, 0), Message(b, 5, 1)];
  }

  lemma SharingTaken(lookup: Lookup, order: Order, a: Address, b: Address)
    requires a != b && a.RobustAddress? && b.RobustAddress?
    ensures Selection(true, lookup, order, Sharing(a, b)) == Some(Sharing(a, b))
  {
    SharingMessages(a, b);
    SharingSelected(false, lookup, a, b);
    LazyBlocksUnresolved(true, lookup, order, Sharing(a, b));
  }

  /** Two blocks with a message each, with one nonce and from two addresses of one
  actor: eagerly the second is a repeat; lazily both are taken. */
  lemma SharedActorDisagrees(lookup: Lookup, order: Order, a: Address, b: Address)
    requires IsLookup(lookup) && IsOrder(order)
    requires a != b && a.RobustAddress? && b.RobustAddress? && lookup(a) == lookup(b)
    ensures Selection(true, lookup, order, Sharing(a, b)) == Some(Sharing(a, b))
    ensures EagerSelection(true, lookup, Sharing(a, b)) != Some(Sharing(a, b))
    ensures forall senders | a in senders && b in senders :: !AlwaysAgree(lookup, senders)
  {
    var blocks := Sharing(a, b);
    SharingMessages(a, b);
    SharingTaken(lookup, order, a, b);
    if lookup(a).Some? {
      SharingSelected(true, lookup, a, b);
      assert blocks[1].bls != [];
    } else {
      assert Message(a, 5, 0) in Flatten(blocks);
    }
    assert Selection(true, lookup, order, blocks) != EagerSelection(true, lookup, blocks);
  }

  // ---------------------------------------------------------------------
  // A selection that has met an ID address has resolved every sender

  // The senders of these messages are either all resolved or all waiting in the map.
  ghost predicate Accounted(lookup: Lookup, l: Lazy, ms: seq<Message>) {
    if l.ids then forall m | m in ms :: lookup(m.from).Some?
    else
      && (forall a | a in l.applied :: a.RobustAddress?)
      && forall m | m in ms :: m.from.RobustAddress? && m.from in l.applied
  }

  lemma LazyOneAccounts(lookup: Lookup, order: Order, l: Lazy, ms: seq<Message>, m: Message)
    requires IsLookup(lookup) && IsOrder(order) && Accounted(lookup, l, ms) && LazyOne(true, lookup, order, l, m).Some?
    ensures Accounted(lookup, LazyOne(true, lookup, order, l, m).value, ms + [m])
  {
    if !l.ids && m.from.IdAddress? {
      assert Enumerates(order(l.applied), l.applied);
      RekeyMeaning(lookup, l.applied, order(l.applied));
    }
  }

  lemma {:induction false} LazyFromAccounts(lookup: Lookup, order: Order, l: Lazy, before: seq<Message>,
                                            ms: seq<Message>)
    requires IsLookup(lookup) && IsOrder(order) && Accounted(lookup, l, before)
             && LazyFrom(true, lookup, order, l, ms).Some?
    ensures Accounted(lookup, LazyFrom(true, lookup, order, l, ms).value, before + ms)
  {
    if ms == [] {
      assert before + ms == before;
    } else {
      var n := |ms| - 1;
      LazyFromAccounts(lookup, order, l, before, ms[..n]);
      LazyOneAccounts(lookup, order, LazyFrom(true, lookup, order, l, ms[..n]).value, before + ms[..n], ms[n]);
      ConcatAssociates(before, ms[..n], [ms[n]]);
      assert ms[..n] + [ms[n]] == ms;
    }
  }

  lemma {:induction false} LazyBlocksAccount(lookup: Lookup, order: Order, blocks: seq<Block>)
    requires IsLookup(lookup) && IsOrder(order) && LazyBlocks(true, lookup, order, blocks).Some?
    ensures Accounted(lookup, LazyBlocks(true, lookup, order, blocks).value.1, Flatten(blocks))
  {
    if blocks != [] {
      var n := |blocks| - 1;
      LazyBlocksAccount(lookup, order, blocks[..n]);
      var l, b, before := LazyBlocks(true, lookup, order, blocks[..n]).value.1, blocks[n], Flatten(blocks[..n]);
      LazyFromAccounts(lookup, order, l.(out := []), before, b.bls);
      var x := LazyFrom(true, lookup, order, l.(out := []), b.bls).value;
      LazyFromAccounts(lookup, order, x.(out := []), before + b.bls, b.secp);
      ConcatAssociates(before, b.bls, b.secp);
    }
  }

  // No sender is written as an ID address.
  ghost predicate Robust(senders: set<Address>) {
    forall a | a in senders :: a.RobustAddress?
  }

  /** If robust senders stand for different actors, or all senders are robust, a lazy
  selection that succeeds is a reference selection, with or without resolving. */
  lemma LazyIsReference(resolve: bool, lookup: Lookup, order: Order, blocks: seq<Block>) returns (resolved: bool)
    requires IsLookup(lookup) && IsOrder(order) && Selection(resolve, lookup, order, blocks).Some?
    requires resolve ==> Robust(Senders(Flatten(blocks))) || Apart(lookup, Senders(Flatten(blocks)))
    ensures Selection(resolve, lookup, order, blocks) == Some(SelectedBlocks(resolved, lookup, blocks).0)
    ensures resolved <==> resolve && !Robust(Senders(Flatten(blocks)))
  {
    var senders := Senders(Flatten(blocks));
    forall m | m in Flatten(blocks) ensures m.from in senders {}
    if !resolve || Robust(senders) {
      resolved := false;
      LazyBlocksUnresolved(resolve, lookup, order, blocks);
    } else {
      resolved := true;
      LazyBlocksAccount(lookup, order, blocks);
      LazyBlocksAgree(true, lookup, order, senders, blocks);
    }
  }
}
