/** The nonces that the lazy selection gives each actor when every block of the
tipset has passed its own check, and exactly when they are the actor's next ones.

The block check and the selection start to resolve senders one epoch apart.  Below
the upgrade neither does, at its height only the selection, above it both; but the
lazy selection goes on using robust addresses as written until it meets an ID.
*/
module LazyNonces {
  import opened Wrappers
  import opened Sequences
  import opened Messages
  import opened LazySelection
  import opened Nonces

  // Every block passes its own check of senders and nonces.
  ghost predicate AllPass(check: bool, lookup: Lookup, actors: map<Address, Actor>, blocks: seq<Block>) {
    forall b | b in blocks :: Resolvable(check, lookup, All(b)) && Consecutive(check, lookup, actors, All(b))
  }

  // The messages give an actor the nonces from its own on, as many as one of the
  // blocks has messages for it at most: no gap, no repeat, in order.
  ghost predicate InTurn(check: bool, select: bool, lookup: Lookup, actors: map<Address, Actor>, blocks: seq<Block>,
                         ms: seq<Message>, a: Address)
  {
    forall n | ActorHas(check, select, lookup, actors, a, n) ::
      NoncesOf(select, lookup, ms, a) == Range(n, MostIn(select, lookup, blocks, a))
  }

  // The selection succeeds and every actor's messages come in turn.
  ghost predicate SelectsInTurn(check: bool, select: bool, lookup: Lookup, order: Order, actors: map<Address, Actor>,
                                blocks: seq<Block>)
  {
    var r := Selection(select, lookup, order, blocks);
    r.Some? && forall a :: InTurn(check, select, lookup, actors, blocks, Flatten(r.value), a)
  }

  // It does whatever these senders send in blocks that pass, and in whatever order
  // the map is iterated.
  ghost predicate AlwaysInTurn(check: bool, select: bool, lookup: Lookup, senders: set<Address>) {
    forall order: Order, actors: map<Address, Actor>, blocks: seq<Block> |
      IsOrder(order) && Senders(Flatten(blocks)) <= senders && AllPass(check, lookup, actors, blocks) ::
      SelectsInTurn(check, select, lookup, order, actors, blocks)
  }

  // Different senders that have ID addresses have different ones.
  ghost predicate AllApart(lookup: Lookup, senders: set<Address>) {
    forall a, b | a in senders && b in senders && lookup(a).Some? :: lookup(a) == lookup(b) ==> a == b
  }

  ghost predicate AllResolve(lookup: Lookup, senders: set<Address>) {
    forall a | a in senders :: lookup(a).Some?
  }

  /** The condition on the senders.  Where the check resolves, no two robust ones may
  stand for one actor.  At the height where it does not, no two at all may, and
  there must be no ID address among them or all of them must resolve. */
  ghost predicate ToldApart(check: bool, lookup: Lookup, senders: set<Address>) {
    if check then Apart(lookup, senders)
    else AllApart(lookup, senders) && (Robust(senders) || AllResolve(lookup, senders))
  }

  // ---------------------------------------------------------------------
  // When the senders are told apart

  lemma {:induction false} InSomeBlock(blocks: seq<Block>, m: Message)
    ensures m in Flatten(blocks) <==> exists b :: b in blocks && m in All(b)
  {
    if blocks != [] {
      var n := |blocks| - 1;
      InSomeBlock(blocks[..n], m);
      assert blocks == blocks[..n] + [blocks[n]];
      assert m in All(blocks[n]) ==> blocks[n] in blocks;
      if b :| b in blocks && m in All(b) { assert b == blocks[n] || b in blocks[..n]; }
      if b :| b in blocks[..n] && m in All(b) { assert b in blocks; }
    }
  }

  lemma {:induction false} SelectedFromWithin(resolve: bool, lookup: Lookup, a: Applied, ms: seq<Message>)
    ensures forall m | m in SelectedFrom(resolve, lookup, a, ms).0 :: m in ms
  {
    if ms != [] { SelectedFromWithin(resolve, lookup, a, ms[..|ms| - 1]); }
  }

  lemma {:induction false} SelectedWithin(resolve: bool, lookup: Lookup, blocks: seq<Block>)
    ensures forall m | m in Flatten(SelectedBlocks(resolve, lookup, blocks).0) :: m in Flatten(blocks)
  {
    if blocks != [] {
      var n := |blocks| - 1;
      SelectedWithin(resolve, lookup, blocks[..n]);
      var (out, a) := SelectedBlocks(resolve, lookup, blocks[..n]);
      var (bls, b) := SelectedFrom(resolve, lookup, a, blocks[n].bls);
      SelectedFromWithin(resolve, lookup, a, blocks[n].bls);
      SelectedFromWithin(resolve, lookup, b, blocks[n].secp);
      FlattenNext(out, Block(bls, SelectedFrom(resolve, lookup, b, blocks[n].secp).0));
    }
  }

  // The eager selection gives an actor its next nonces if one sender writes for it.
  lemma EagerInTurn(check: bool, select: bool, lookup: Lookup, actors: map<Address, Actor>, blocks: seq<Block>,
                    a: Address)
    requires (check ==> select) && AllPass(check, lookup, actors, blocks)
    requires forall b | b in blocks :: OneWriter(check, select, lookup, All(b), a)
    ensures InTurn(check, select, lookup, actors, blocks, Flatten(SelectedBlocks(select, lookup, blocks).0), a)
  {
    MostIsLongest(check, select, lookup, blocks, a);
    forall n | ActorHas(check, select, lookup, actors, a, n)
      ensures NoncesOf(select, lookup, Flatten(SelectedBlocks(select, lookup, blocks).0), a)
              == Range(n, MostIn(select, lookup, blocks, a))
    {
      TipsetNonces(check, select, lookup, actors, blocks, a, n);
    }
  }

  lemma WritersApart(lookup: Lookup, blocks: seq<Block>, a: Address)
    requires AllApart(lookup, Senders(Flatten(blocks)))
    ensures forall b | b in blocks :: OneWriter(false, true, lookup, All(b), a)
  {
    forall b | b in blocks ensures OneWriter(false, true, lookup, All(b), a) {
      forall m | m in All(b) ensures m.from in Senders(Flatten(blocks)) { InSomeBlock(blocks, m); }
    }
  }

  // Senders that resolve: the lazy selection is the eager one.
  lemma ResolvedInTurn(check: bool, lookup: Lookup, order: Order, actors: map<Address, Actor>, blocks: seq<Block>,
                       a: Address)
    requires IsLookup(lookup) && IsOrder(order) && AllPass(check, lookup, actors, blocks)
    requires Separates(lookup, Senders(Flatten(blocks)))
    requires check || AllApart(lookup, Senders(Flatten(blocks)))
    ensures var r := Selection(true, lookup, order, blocks);
            r.Some? && InTurn(check, true, lookup, actors, blocks, Flatten(r.value), a)
  {
    LazyBlocksAgree(true, lookup, order, Senders(Flatten(blocks)), blocks);
    if !check { WritersApart(lookup, blocks, a); }
    EagerInTurn(check, true, lookup, actors, blocks, a);
  }

  // The messages for an actor are those of its one address.
  lemma {:induction false} SameNonces(lookup: Lookup, ms: seq<Message>, a: Address, f: Address)
    requires forall m | m in ms :: lookup(m.from) == Some(a) <==> m.from == f
    ensures NoncesOf(true, lookup, ms, a) == NoncesOf(false, lookup, ms, f)
  {
    if ms != [] { SameNonces(lookup, ms[..|ms| - 1], a, f); }
  }

  lemma {:induction false} SameMost(lookup: Lookup, blocks: seq<Block>, a: Address, f: Address)
    requires forall m | m in Flatten(blocks) :: lookup(m.from) == Some(a) <==> m.from == f
    ensures MostIn(true, lookup, blocks, a) == MostIn(false, lookup, blocks, f)
  {
    if blocks != [] {
      SameMost(lookup, blocks[..|blocks| - 1], a, f);
      SameNonces(lookup, All(blocks[|blocks| - 1]), a, f);
    }
  }

  lemma {:induction false} NoNonces(lookup: Lookup, ms: seq<Message>, a: Address)
    requires forall m | m in ms :: lookup(m.from) != Some(a)
    ensures NoncesOf(true, lookup, ms, a) == []
  {
    if ms != [] { NoNonces(lookup, ms[..|ms| - 1], a); }
  }

  lemma {:induction false} NoMost(lookup: Lookup, blocks: seq<Block>, a: Address)
    requires forall m | m in Flatten(blocks) :: lookup(m.from) != Some(a)
    ensures MostIn(true, lookup, blocks, a) == 0
  {
    if blocks != [] {
      NoMost(lookup, blocks[..|blocks| - 1], a);
      NoNonces(lookup, All(blocks[|blocks| - 1]), a);
    }
  }

  // Robust senders and a check that does not resolve: neither does the selection.
  lemma UnresolvedInTurn(lookup: Lookup, order: Order, actors: map<Address, Actor>, blocks: seq<Block>, a: Address)
    requires IsLookup(lookup) && IsOrder(order) && AllPass(false, lookup, actors, blocks)
    requires Robust(Senders(Flatten(blocks))) && AllApart(lookup, Senders(Flatten(blocks)))
    ensures var r := Selection(true, lookup, order, blocks);
            r.Some? && InTurn(false, true, lookup, actors, blocks, Flatten(r.value), a)
  {
    var senders := Senders(Flatten(blocks));
    forall m | m in Flatten(blocks) ensures m.from in senders {}
    LazyBlocksUnresolved(true, lookup, order, blocks);
    SelectedWithin(false, lookup, blocks);
    var ms := Flatten(SelectedBlocks(false, lookup, blocks).0);
    if f :| f in senders && lookup(f) == Some(a) {
      SameNonces(lookup, ms, a, f);
      SameMost(lookup, blocks, a, f);
      EagerInTurn(false, false, lookup, actors, blocks, f);
      forall n | ActorHas(false, true, lookup, actors, a, n)
        ensures NoncesOf(true, lookup, ms, a) == Range(n, MostIn(true, lookup, blocks, a))
      {
        assert ActorHas(false, false, lookup, actors, f, n);
      }
    } else {
      NoNonces(lookup, ms, a);
      NoMost(lookup, blocks, a);
    }
  }

  lemma ToldApartInTurn(check: bool, lookup: Lookup, senders: set<Address>, order: Order,
                        actors: map<Address, Actor>, blocks: seq<Block>)
    requires IsLookup(lookup) && ToldApart(check, lookup, senders)
    requires IsOrder(order) && Senders(Flatten(blocks)) <= senders && AllPass(check, lookup, actors, blocks)
    ensures SelectsInTurn(check, true, lookup, order, actors, blocks)
  {
    if !check && Robust(senders) {
      UnresolvedInTurn(lookup, order, actors, blocks, IdAddress(0));
      forall a { UnresolvedInTurn(lookup, order, actors, blocks, a); }
    } else {
      forall f | f in Senders(Flatten(blocks)) ensures lookup(f).Some? {
        var m :| m in Flatten(blocks) && m.from == f;
        InSomeBlock(blocks, m);
      }
      ResolvedInTurn(check, lookup, order, actors, blocks, IdAddress(0));
      forall a { ResolvedInTurn(check, lookup, order, actors, blocks, a); }
    }
  }

  // ---------------------------------------------------------------------
  // When they are not

  // One tipset of these senders that passes, and an actor whose messages are not in turn.
  lemma OutOfTurn(check: bool, lookup: Lookup, senders: set<Address>, order: Order, actors: map<Address, Actor>,
                  blocks: seq<Block>, out: seq<Block>, a: Address, n: nat)
    requires IsOrder(order) && Senders(Flatten(blocks)) <= senders && AllPass(check, lookup, actors, blocks)
    requires ActorHas(check, true, lookup, actors, a, n) && Selection(true, lookup, order, blocks) == Some(out)
    requires |NoncesOf(true, lookup, Flatten(out), a)| != MostIn(true, lookup, blocks, a)
    ensures !AlwaysInTurn(check, true, lookup, senders)
  {
    assert |Range(n, MostIn(true, lookup, blocks, a))| == MostIn(true, lookup, blocks, a);
    assert !InTurn(check, true, lookup, actors, blocks, Flatten(out), a);
    assert !SelectsInTurn(check, true, lookup, order, actors, blocks);
  }

  lemma OnePasses(check: bool, lookup: Lookup, actors: map<Address, Actor>, m: Message)
    requires Sender(check, lookup, m.from).Some? && Sender(check, lookup, m.from).value in actors && m.nonce == 5
    requires actors[Sender(check, lookup, m.from).value] == Actor(5, true)
    ensures AllPass(check, lookup, actors, [Block([m], [])])
  {
    assert [] + [m] == [m] && NoncesOf(check, lookup, [], Sender(check, lookup, m.from).value) == [];
    OneMoreOk(check, lookup, actors, [], m, Sender(check, lookup, m.from).value);
    assert All(Block([m], [])) == [m];
  }

  lemma SharingPasses(check: bool, lookup: Lookup, actors: map<Address, Actor>, a: Address, b: Address)
    requires Sender(check, lookup, a).Some? && Sender(check, lookup, b).Some?
    requires forall f | f in {a, b} :: Sender(check, lookup, f).value in actors
    requires forall f | f in actors :: actors[f] == Actor(5, true)
    ensures AllPass(check, lookup, actors, Sharing(a, b))
  {
    var m, n := Message(a, 5, 0), Message(b, 5, 1);
    OnePasses(check, lookup, actors, m);
    OnePasses(check, lookup, actors, n);
    assert Block([m], []) in [Block([m], [])] && Block([n], []) in [Block([n], [])];
    assert forall block | block in Sharing(a, b) :: block == Block([m], []) || block == Block([n], []);
  }

  // Actors at nonce 5, found under these addresses.
  function Five(a: Address, b: Address, c: Address): map<Address, Actor> {
    map[a := Actor(5, true), b := Actor(5, true), c := Actor(5, true)]
  }

  /** Two robust addresses of one actor at nonce 5 send one message each, in two blocks.
  Each block passes, with the check resolving or not.  The lazy selection takes both
  messages, in any order of the map: the actor's nonce is repeated. */
  lemma SharedActorRepeats(check: bool, lookup: Lookup, order: Order, a: Address, b: Address, id: Address)
    requires IsLookup(lookup) && a != b && a.RobustAddress? && b.RobustAddress?
    requires lookup(a) == lookup(b) == Some(id)
    ensures AllPass(check, lookup, Five(a, b, id), Sharing(a, b))
    ensures ActorHas(check, true, lookup, Five(a, b, id), id, 5)
    ensures Selection(true, lookup, order, Sharing(a, b)) == Some(Sharing(a, b))
    ensures NoncesOf(true, lookup, Flatten(Sharing(a, b)), id) == [5, 5]
    ensures MostIn(true, lookup, Sharing(a, b), id) == 1
  {
    SharingPasses(check, lookup, Five(a, b, id), a, b);
    SharingTaken(lookup, order, a, b);
    SharingNonces(lookup, a, b, id);
  }

  lemma SharingNonces(lookup: Lookup, a: Address, b: Address, id: Address)
    requires lookup(a) == lookup(b) == Some(id)
    ensures NoncesOf(true, lookup, Flatten(Sharing(a, b)), id) == [5, 5]
    ensures MostIn(true, lookup, Sharing(a, b), id) == 1
  {
    var m, n, blocks := Message(a, 5, 0), Message(b, 5, 1), Sharing(a, b);
    SharingMessages(a, b);
    OneMessage(true, lookup, m, id);
    OneMessage(true, lookup, n, id);
    TwoMessages(true, lookup, m, n, id);
    assert blocks[..1] == [Block([m], [])] && blocks[..1][..0] == [];
    assert All(blocks[0]) == [m] && All(blocks[1]) == [n];
    assert MostIn(true, lookup, blocks[..1], id) == 1;
  }

  lemma SharedActorFails(check: bool, lookup: Lookup, senders: set<Address>, a: Address, b: Address)
    requires IsLookup(lookup) && a != b && a.RobustAddress? && b.RobustAddress? && a in senders && b in senders
    requires lookup(a) == lookup(b) && lookup(a).Some?
    ensures !AlwaysInTurn(check, true, lookup, senders)
  {
    var id, order := lookup(a).value, AnyOrder();
    var actors, blocks := SharedWitness(check, lookup, order, a, b, id);
    OutOfTurn(check, lookup, senders, order, actors, blocks, blocks, id, 5);
  }

  lemma SharedWitness(check: bool, lookup: Lookup, order: Order, a: Address, b: Address, id: Address)
      returns (actors: map<Address, Actor>, blocks: seq<Block>)
    requires IsLookup(lookup) && a != b && a.RobustAddress? && b.RobustAddress?
    requires lookup(a) == lookup(b) == Some(id)
    ensures AllPass(check, lookup, actors, blocks) && ActorHas(check, true, lookup, actors, id, 5)
    ensures Senders(Flatten(blocks)) == {a, b} && Selection(true, lookup, order, blocks) == Some(blocks)
    ensures |NoncesOf(true, lookup, Flatten(blocks), id)| == 2 && MostIn(true, lookup, blocks, id) == 1
  {
    actors, blocks := Five(a, b, id), Sharing(a, b);
    SharedActorRepeats(check, lookup, order, a, b, id);
    SharingMessages(a, b);
  }

  lemma OwnIdSelected(lookup: Lookup, order: Order, r: Address, id: Address)
    requires IsLookup(lookup) && IsOrder(order) && r.RobustAddress? && lookup(r) == Some(id)
    ensures Senders(Flatten([OwnId(r, id)])) == {r, id}
    ensures Selection(true, lookup, order, [OwnId(r, id)]) == Some(SelectedBlocks(true, lookup, [OwnId(r, id)]).0)
  {
    OneBlock(OwnId(r, id).bls);
    assert Senders(OwnId(r, id).bls) == {r, id};
    LazyBlocksAgree(true, lookup, order, {r, id}, [OwnId(r, id)]);
  }

  /** A robust address and its ID address, at the height where only the selection
  resolves, send one message each in one block.  The block passes, and in any order
  of the map the lazy selection takes one of the two. */
  lemma OwnIdLoses(lookup: Lookup, order: Order, r: Address, id: Address)
      returns (actors: map<Address, Actor>, blocks: seq<Block>, out: seq<Block>)
    requires IsLookup(lookup) && IsOrder(order) && r.RobustAddress? && lookup(r) == Some(id)
    ensures blocks == [OwnId(r, id)] && actors == map[id := Actor(5, true), r := Actor(5, true)]
    ensures AllPass(false, lookup, actors, blocks) && Senders(Flatten(blocks)) == {r, id}
    ensures Selection(true, lookup, order, blocks) == Some(out)
    ensures NoncesOf(true, lookup, Flatten(out), id) == [5] && MostIn(true, lookup, blocks, id) == 2
  {
    actors, blocks := map[id := Actor(5, true), r := Actor(5, true)], [OwnId(r, id)];
    out := SelectedBlocks(true, lookup, blocks).0;
    UpgradeHeightLosesNonce(lookup, r, id);
    OwnIdSelected(lookup, order, r, id);
  }

  lemma OwnIdWitness(lookup: Lookup, order: Order, r: Address, id: Address)
      returns (actors: map<Address, Actor>, blocks: seq<Block>, out: seq<Block>)
    requires IsLookup(lookup) && IsOrder(order) && r.RobustAddress? && lookup(r) == Some(id)
    ensures AllPass(false, lookup, actors, blocks) && ActorHas(false, true, lookup, actors, id, 5)
    ensures Senders(Flatten(blocks)) == {r, id} && Selection(true, lookup, order, blocks) == Some(out)
    ensures |NoncesOf(true, lookup, Flatten(out), id)| == 1 && MostIn(true, lookup, blocks, id) == 2
  {
    actors, blocks, out := OwnIdLoses(lookup, order, r, id);
  }

  lemma OwnIdFails(lookup: Lookup, senders: set<Address>, r: Address, id: Address)
    requires IsLookup(lookup) && r.RobustAddress? && lookup(r) == Some(id) && r in senders && id in senders
    ensures !AlwaysInTurn(false, true, lookup, senders)
  {
    var order := AnyOrder();
    var actors, blocks, out := OwnIdWitness(lookup, order, r, id);
    OutOfTurn(false, lookup, senders, order, actors, blocks, out, id, 5);
  }

  /** At that height an address that does not resolve, before an ID address: both blocks
  pass, and the selection fails. */
  lemma UnresolvedStops(lookup: Lookup, order: Order, r: Address, x: Address)
    requires IsLookup(lookup) && IsOrder(order) && lookup(r).None? && x.IdAddress?
    ensures AllPass(false, lookup, map[r := Actor(5, true), x := Actor(5, true)], Sharing(r, x))
    ensures Selection(true, lookup, order, Sharing(r, x)).None?
  {
    SharingPasses(false, lookup, map[r := Actor(5, true), x := Actor(5, true)], r, x);
    var blocks := Sharing(r, x);
    var l := FirstTaken(lookup, order, r);
    assert blocks[..1] == [Block([Message(r, 5, 0)], [])];
    Stops(lookup, order, l, r, blocks[1].bls[0]);
  }

  lemma FirstTaken(lookup: Lookup, order: Order, r: Address) returns (l: Lazy)
    requires r.RobustAddress?
    ensures var blocks := [Block([Message(r, 5, 0)], [])];
            LazyBlocks(true, lookup, order, blocks) == Some((blocks, l))
    ensures !l.ids && l.applied.Keys == {r}
  {
    var m := Message(r, 5, 0);
    OneBlock([m]);
    LazyBlocksUnresolved(true, lookup, order, [Block([m], [])]);
    OneBlockSelected(false, lookup, [m]);
    OneSelected(false, lookup, map[], m);
    l := LazyBlocks(true, lookup, order, [Block([m], [])]).value.1;
  }

  lemma Stops(lookup: Lookup, order: Order, l: Lazy, r: Address, n: Message)
    requires IsLookup(lookup) && IsOrder(order) && !l.ids && l.applied.Keys == {r} && r.RobustAddress?
    requires lookup(r).None? && n.from.IdAddress?
    ensures LazyFrom(true, lookup, order, l.(out := []), [n]).None?
  {
    var keys := order(l.applied);
    assert Enumerates(keys, l.applied) && r in keys;
    RekeyMeaning(lookup, l.applied, keys);
    assert [n][..0] == [];
  }

  lemma UnresolvedFails(lookup: Lookup, senders: set<Address>, r: Address, x: Address)
    requires IsLookup(lookup) && lookup(r).None? && x.IdAddress? && r in senders && x in senders
    ensures !AlwaysInTurn(false, true, lookup, senders)
  {
    var order := AnyOrder();
    UnresolvedStops(lookup, order, r, x);
    SharingMessages(r, x);
  }

  // ---------------------------------------------------------------------
  // The exact condition

  /** For a set of senders, over all tipsets of them whose blocks pass and all orders
  of the map, every actor gets its next nonces, as many as one block has messages
  for it at most, exactly when the senders are told apart. */
  lemma EveryActorInTurn(check: bool, lookup: Lookup, senders: set<Address>)
    requires IsLookup(lookup)
    ensures AlwaysInTurn(check, true, lookup, senders) <==> ToldApart(check, lookup, senders)
  {
    if ToldApart(check, lookup, senders) {
      forall order: Order, actors: map<Address, Actor>, blocks: seq<Block> |
        IsOrder(order) && Senders(Flatten(blocks)) <= senders && AllPass(check, lookup, actors, blocks)
        ensures SelectsInTurn(check, true, lookup, order, actors, blocks)
      {
        ToldApartInTurn(check, lookup, senders, order, actors, blocks);
      }
    } else if !Apart(lookup, senders) {
      var a, b :| a in senders && b in senders && a.RobustAddress? && b.RobustAddress? && lookup(a).Some?
                  && lookup(a) == lookup(b) && a != b;
      SharedActorFails(check, lookup, senders, a, b);
    } else {
      UpgradeFails(lookup, senders);
    }
  }

  lemma UpgradeFails(lookup: Lookup, senders: set<Address>)
    requires IsLookup(lookup) && Apart(lookup, senders) && !ToldApart(false, lookup, senders)
    ensures !AlwaysInTurn(false, true, lookup, senders)
  {
    if AllApart(lookup, senders) {
      var r, x :| r in senders && lookup(r).None? && x in senders && !x.RobustAddress?;
      UnresolvedFails(lookup, senders, r, x);
    } else {
      var a, b :| a in senders && b in senders && lookup(a).Some? && lookup(a) == lookup(b) && a != b;
      if a.RobustAddress? {
        OwnIdFails(lookup, senders, a, b);
      } else {
        OwnIdFails(lookup, senders, b, a);
      }
    }
  }

  /** Below the upgrade nothing is resolved, and every address as written gets its next
  nonces, whatever the senders. */
  lemma BelowUpgradeInTurn(lookup: Lookup, senders: set<Address>)
    ensures AlwaysInTurn(false, false, lookup, senders)
  {
    forall order: Order, actors: map<Address, Actor>, blocks: seq<Block> |
      IsOrder(order) && Senders(Flatten(blocks)) <= senders && AllPass(false, lookup, actors, blocks)
      ensures SelectsInTurn(false, false, lookup, order, actors, blocks)
    {
      LazyBlocksUnresolved(false, lookup, order, blocks);
      forall a { EagerInTurn(false, false, lookup, actors, blocks, a); }
    }
  }

  // ---------------------------------------------------------------------
  // Rising nonces, whatever the blocks

  // Of two messages of one actor the later one carries the higher nonce.
  ghost predicate Ascends(lookup: Lookup, ms: seq<Message>) {
    forall i, j | 0 <= i < j < |ms| && lookup(ms[i].from).Some? && lookup(ms[i].from) == lookup(ms[j].from) ::
      ms[i].nonce < ms[j].nonce
  }

  ghost predicate AlwaysAscends(lookup: Lookup, senders: set<Address>) {
    forall order: Order, blocks: seq<Block> |
      IsOrder(order) && Senders(Flatten(blocks)) <= senders && Selection(true, lookup, order, blocks).Some? ::
      Ascends(lookup, Flatten(Selection(true, lookup, order, blocks).value))
  }

  lemma ApartAscends(lookup: Lookup, order: Order, blocks: seq<Block>)
    requires IsLookup(lookup) && IsOrder(order) && Apart(lookup, Senders(Flatten(blocks)))
    requires Selection(true, lookup, order, blocks).Some?
    ensures Ascends(lookup, Flatten(Selection(true, lookup, order, blocks).value))
  {
    var resolved := LazyIsReference(true, lookup, order, blocks);
    TipsetRises(resolved, lookup, blocks);
    SelectedWithin(resolved, lookup, blocks);
    var ms := Flatten(SelectedBlocks(resolved, lookup, blocks).0);
    forall i, j | 0 <= i < j < |ms| && lookup(ms[i].from).Some? && lookup(ms[i].from) == lookup(ms[j].from)
      ensures ms[i].nonce < ms[j].nonce
    {
      assert ms[i] in Flatten(blocks) && ms[j] in Flatten(blocks);
      assert ms[i].from in Senders(Flatten(blocks)) && ms[j].from in Senders(Flatten(blocks));
    }
  }

  /** For a set of senders, over all their tipsets and all orders of the map, an actor's
  selected messages carry rising nonces exactly when no two robust senders stand for
  one actor. */
  lemma LazyRises(lookup: Lookup, senders: set<Address>)
    requires IsLookup(lookup)
    ensures AlwaysAscends(lookup, senders) <==> Apart(lookup, senders)
  {
    if Apart(lookup, senders) {
      forall order: Order, blocks: seq<Block> |
        IsOrder(order) && Senders(Flatten(blocks)) <= senders && Selection(true, lookup, order, blocks).Some?
        ensures Ascends(lookup, Flatten(Selection(true, lookup, order, blocks).value))
      {
        ApartAscends(lookup, order, blocks);
      }
    } else {
      var a, b :| a in senders && b in senders && a.RobustAddress? && b.RobustAddress? && lookup(a).Some?
                  && lookup(a) == lookup(b) && a != b;
      var order := AnyOrder();
      SharingTaken(lookup, order, a, b);
      SharingMessages(a, b);
      var ms := Flatten(Sharing(a, b));
      assert ms[0].nonce == ms[1].nonce && !Ascends(lookup, ms);
    }
  }
}
