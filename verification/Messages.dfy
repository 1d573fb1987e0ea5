/** Selecting the messages of a tipset: a message is executed if it carries the
next nonce of its sender.  LoadTipSetMesssages resolves every sender to its ID
address; LoadTipSetMessage starts with the addresses as written and resolves
only once it meets a sender written as an ID address.
*/
module Messages {
  import opened Wrappers
  import opened Sequences

  datatype Address = IdAddress(n: nat) | RobustAddress(n: nat)

  datatype Message = Message(from: Address, nonce: nat, call: nat)

  // A block's BLS messages come before its secp messages.
  datatype Block = Block(bls: seq<Message>, secp: seq<Message>)

  type Lookup = Address -> Option<Address>

  type Applied = map<Address, nat>

  // ---------------------------------------------------------------------
  // The decision on one message, and on lists of them

  function Take(a: Applied, sender: Address, nonce: nat): (bool, Applied) {
    var b := if sender in a then a else a[sender := nonce];
    if b[sender] != nonce then (false, b) else (true, b[sender := nonce + 1])
  }

  // The sender a message counts for.
  function Sender(resolve: bool, lookup: Lookup, from: Address): Option<Address> {
    if resolve then lookup(from) else Some(from)
  }

  function SelectedFrom(resolve: bool, lookup: Lookup, a: Applied, ms: seq<Message>): (seq<Message>, Applied) {
    if ms == [] then ([], a)
    else
      var n := |ms| - 1;
      var (out, b) := SelectedFrom(resolve, lookup, a, ms[..n]);
      match Sender(resolve, lookup, ms[n].from)
      case None => (out, b)
      case Some(sender) =>
        var (take, c) := Take(b, sender, ms[n].nonce);
        (if take then out + [ms[n]] else out, c)
  }

  function SelectedBlocks(resolve: bool, lookup: Lookup, blocks: seq<Block>): (seq<Block>, Applied) {
    if blocks == [] then ([], map[])
    else
      var n := |blocks| - 1;
      var (out, a) := SelectedBlocks(resolve, lookup, blocks[..n]);
      var (bls, b) := SelectedFrom(resolve, lookup, a, blocks[n].bls);
      var (secp, c) := SelectedFrom(resolve, lookup, b, blocks[n].secp);
      (out + [Block(bls, secp)], c)
  }

  function Flatten(blocks: seq<Block>): seq<Message> {
    if blocks == [] then []
    else Flatten(blocks[..|blocks| - 1]) + (blocks[|blocks| - 1].bls + blocks[|blocks| - 1].secp)
  }

  ghost predicate Resolvable(resolve: bool, lookup: Lookup, ms: seq<Message>) {
    forall m | m in ms :: Sender(resolve, lookup, m.from).Some?
  }

  // ---------------------------------------------------------------------
  // Eager resolution

  method SelectAllEager(resolve: bool, lookup: Lookup, a: Applied, ms: seq<Message>)
      returns (ok: bool, out: seq<Message>, applied: Applied)
    ensures ok <==> Resolvable(resolve, lookup, ms)
    ensures ok ==> (out, applied) == SelectedFrom(resolve, lookup, a, ms)
  {
    out, applied := [], a;
    for k := 0 to |ms|
      invariant Resolvable(resolve, lookup, ms[..k])
      invariant (out, applied) == SelectedFrom(resolve, lookup, a, ms[..k])
    {
      assert ms[..k + 1][..k] == ms[..k];
      var m := ms[k];
      var sender := m.from;
      if resolve {
        var resolved := lookup(m.from);
        if resolved.None? { return false, out, applied; }
        sender := resolved.value;
      }
      if sender !in applied { applied := applied[sender := m.nonce]; }
      if applied[sender] == m.nonce {
        applied := applied[sender := applied[sender] + 1];
        out := out + [m];
      }
    }
    assert ms[..|ms|] == ms;
    ok := true;
  }

  method LoadTipSetMesssages(resolve: bool, lookup: Lookup, blocks: seq<Block>) returns (r: Option<seq<Block>>)
    ensures r.Some? <==> Resolvable(resolve, lookup, Flatten(blocks))
    ensures r.Some? ==> r.value == SelectedBlocks(resolve, lookup, blocks).0
  {
    var applied: Applied, out: seq<Block> := map[], [];
    for i := 0 to |blocks|
      invariant Resolvable(resolve, lookup, Flatten(blocks[..i]))
      invariant (out, applied) == SelectedBlocks(resolve, lookup, blocks[..i])
    {
      assert blocks[..i + 1][..i] == blocks[..i];
      FlattenPrefix(blocks, i + 1);
      var ok, bls, a := SelectAllEager(resolve, lookup, applied, blocks[i].bls);
      if !ok { return None; }
      var ok', secp, b := SelectAllEager(resolve, lookup, a, blocks[i].secp);
      if !ok' { return None; }
      out, applied := out + [Block(bls, secp)], b;
    }
    assert blocks[..|blocks|] == blocks;
    r := Some(out);
  }

  lemma {:induction false} FlattenPrefix(blocks: seq<Block>, i: nat)
    requires i <= |blocks|
    ensures forall m | m in Flatten(blocks[..i]) :: m in Flatten(blocks)
    ensures i > 0 ==> Flatten(blocks[..i]) == Flatten(blocks[..i - 1]) + (blocks[i - 1].bls + blocks[i - 1].secp)
  {
    if i > 0 { assert blocks[..i][..i - 1] == blocks[..i - 1]; }
    var n := |blocks|;
    if i < n {
      assert blocks[..n - 1][..i] == blocks[..i];
      FlattenPrefix(blocks[..n - 1], i);
    } else {
      assert blocks[..n] == blocks;
    }
  }

  // ---------------------------------------------------------------------
  // Lazy resolution

  // What the state's address lookup always does.
  ghost predicate IsLookup(lookup: Lookup) {
    && (forall a :: lookup(a).Some? ==> lookup(a).value.IdAddress?)
    && (forall n :: lookup(IdAddress(n)) == Some(IdAddress(n)))
  }

  // Different robust senders that have ID addresses have different ones.
  ghost predicate Apart(lookup: Lookup, senders: set<Address>) {
    forall a, b | a in senders && b in senders && a.RobustAddress? && b.RobustAddress? && lookup(a).Some? ::
      lookup(a) == lookup(b) ==> a == b
  }

  // All these senders have ID addresses, and different robust ones different IDs.
  ghost predicate Separates(lookup: Lookup, senders: set<Address>) {
    (forall a | a in senders :: lookup(a).Some?) && Apart(lookup, senders)
  }

  ghost function Senders(ms: seq<Message>): set<Address> {
    set m | m in ms :: m.from
  }

  // The order in which a map of nonces is iterated.
  type Order = Applied -> seq<Address>

  ghost predicate IsOrder(order: Order) {
    forall a :: Enumerates(order(a), a)
  }

  ghost predicate Enumerates(keys: seq<Address>, a: Applied) {
    Distinct(keys) && forall k :: k in keys <==> k in a
  }

  // Re-keys the nonces to ID addresses, one address after the other.
  function Rekey(lookup: Lookup, a: Applied, keys: seq<Address>): Option<Applied> {
    if keys == [] then Some(a)
    else
      var n := |keys| - 1;
      match (Rekey(lookup, a, keys[..n]), lookup(keys[n]))
      case (Some(b), Some(id)) => if keys[n] in b then Some(b[id := b[keys[n]]]) else None
      case _ => None
  }

  // The state of the lazy selection.
  datatype Lazy = Lazy(out: seq<Message>, applied: Applied, ids: bool)

  function TakeLazy(l: Lazy, sender: Address, m: Message): Lazy {
    var (take, b) := Take(l.applied, sender, m.nonce);
    Lazy(if take then l.out + [m] else l.out, b, l.ids)
  }

  // The state after resolving, if a message from this sender makes that necessary.
  function Prepared(resolve: bool, lookup: Lookup, order: Order, l: Lazy, from: Address): Option<Lazy> {
    if !resolve || l.ids || from.RobustAddress? then Some(l)
    else match Rekey(lookup, l.applied, order(l.applied))
      case None => None
      case Some(b) => Some(l.(applied := b, ids := true))
  }

  function LazyOne(resolve: bool, lookup: Lookup, order: Order, l: Lazy, m: Message): Option<Lazy> {
    match Prepared(resolve, lookup, order, l, m.from)
    case None => None
    case Some(l') =>
      if !resolve || !l'.ids then Some(TakeLazy(l', m.from, m))
      else match lookup(m.from)
        case None => None
        case Some(sender) => Some(TakeLazy(l', sender, m))
  }

  function LazyFrom(resolve: bool, lookup: Lookup, order: Order, l: Lazy, ms: seq<Message>): Option<Lazy> {
    if ms == [] then Some(l)
    else match LazyFrom(resolve, lookup, order, l, ms[..|ms| - 1])
      case None => None
      case Some(l') => LazyOne(resolve, lookup, order, l', ms[|ms| - 1])
  }

  function LazyBlock(resolve: bool, lookup: Lookup, order: Order, l: Lazy, b: Block): Option<(Block, Lazy)> {
    match LazyFrom(resolve, lookup, order, l.(out := []), b.bls)
    case None => None
    case Some(x) =>
      match LazyFrom(resolve, lookup, order, x.(out := []), b.secp)
      case None => None
      case Some(y) => Some((Block(x.out, y.out), y))
  }

  function LazyBlocks(resolve: bool, lookup: Lookup, order: Order, blocks: seq<Block>): Option<(seq<Block>, Lazy)> {
    if blocks == [] then Some(([], Lazy([], map[], false)))
    else match LazyBlocks(resolve, lookup, order, blocks[..|blocks| - 1])
      case None => None
      case Some((out, l)) =>
        match LazyBlock(resolve, lookup, order, l, blocks[|blocks| - 1])
        case None => None
        case Some((b, l')) => Some((out + [b], l'))
  }

  // ---------------------------------------------------------------------
  // The lazy selection in its own form

  /** Re-keys the nonces while the map is iterated.  ID addresses added meanwhile
  may be visited too. */
  method ResolveApplied(lookup: Lookup, order: Order, before: Applied) returns (r: Option<Applied>)
    requires IsLookup(lookup) && IsOrder(order)
    ensures r == Rekey(lookup, before, order(before))
  {
    var applied, keys := before, order(before);
    assert Enumerates(keys, before);
    for k := 0 to |keys|
      invariant Rekey(lookup, before, keys[..k]) == Some(applied)
      invariant before.Keys <= applied.Keys
    {
      var extra: Address := *;
      if extra.IdAddress? && extra in applied {
        var resolved := lookup(extra);
        assert applied[extra := applied[extra]] == applied;
        applied := applied[resolved.value := applied[extra]];
      }
      assert keys[..k + 1][..k] == keys[..k] && keys[k] in keys;
      var nonce := applied[keys[k]];
      var resolved := lookup(keys[k]);
      if resolved.None? {
        RekeyStops(lookup, before, keys, k + 1);
        return None;
      }
      applied := applied[resolved.value := nonce];
    }
    assert keys[..|keys|] == keys;
    r := Some(applied);
  }

  lemma {:induction false} RekeyStops(lookup: Lookup, a: Applied, keys: seq<Address>, k: nat)
    requires k <= |keys| && Rekey(lookup, a, keys[..k]).None?
    ensures Rekey(lookup, a, keys).None?
    decreases |keys| - k
  {
    if k < |keys| {
      assert keys[..k + 1][..k] == keys[..k];
      RekeyStops(lookup, a, keys, k + 1);
    } else {
      assert keys[..k] == keys;
    }
  }

  // Decides on one message.
  method SelectMsg(resolve: bool, lookup: Lookup, order: Order, ghost l: Lazy, m: Message, applied0: Applied,
                   useIds0: bool)
      returns (ok: bool, take: bool, applied: Applied, useIds: bool)
    requires IsLookup(lookup) && IsOrder(order) && l.applied == applied0 && l.ids == useIds0
    ensures var r := LazyOne(resolve, lookup, order, l, m);
            ok == r.Some? && (ok ==> r.value == Lazy(if take then l.out + [m] else l.out, applied, useIds))
  {
    take, applied, useIds := false, applied0, useIds0;
    var sender := m.from;
    if resolve {
      if !useIds && m.from.IdAddress? {
        var rekeyed := ResolveApplied(lookup, order, applied);
        if rekeyed.None? { return false, take, applied, useIds; }
        applied, useIds := rekeyed.value, true;
      }
      if useIds {
        var resolved := lookup(m.from);
        if resolved.None? { return false, take, applied, useIds; }
        sender := resolved.value;
      }
    }
    ok := true;
    if sender !in applied { applied := applied[sender := m.nonce]; }
    if applied[sender] != m.nonce { return; }
    applied, take := applied[sender := applied[sender] + 1], true;
  }

  method SelectAllLazy(resolve: bool, lookup: Lookup, order: Order, applied0: Applied, useIds0: bool, ms: seq<Message>)
      returns (ok: bool, out: seq<Message>, applied: Applied, useIds: bool)
    requires IsLookup(lookup) && IsOrder(order)
    ensures var r := LazyFrom(resolve, lookup, order, Lazy([], applied0, useIds0), ms);
            ok == r.Some? && (ok ==> r.value == Lazy(out, applied, useIds))
  {
    ghost var start := Lazy([], applied0, useIds0);
    out, applied, useIds := [], applied0, useIds0;
    for k := 0 to |ms|
      invariant LazyFrom(resolve, lookup, order, start, ms[..k]) == Some(Lazy(out, applied, useIds))
    {
      assert ms[..k + 1][..k] == ms[..k];
      var take;
      ok, take, applied, useIds :=
        SelectMsg(resolve, lookup, order, Lazy(out, applied, useIds), ms[k], applied, useIds);
      if !ok {
        LazyStops(resolve, lookup, order, start, ms, k + 1);
        return;
      }
      if take { out := out + [ms[k]]; }
    }
    assert ms[..|ms|] == ms;
    ok := true;
  }

  lemma {:induction false} LazyStops(resolve: bool, lookup: Lookup, order: Order, l: Lazy, ms: seq<Message>, k: nat)
    requires k <= |ms| && LazyFrom(resolve, lookup, order, l, ms[..k]).None?
    ensures LazyFrom(resolve, lookup, order, l, ms).None?
    decreases |ms| - k
  {
    if k < |ms| {
      assert ms[..k + 1][..k] == ms[..k];
      LazyStops(resolve, lookup, order, l, ms, k + 1);
    } else {
      assert ms[..k] == ms;
    }
  }

  /** The lazy selection of a tipset, for any order in which its map is iterated. */
  method LoadTipSetMessage(resolve: bool, lookup: Lookup, order: Order, blocks: seq<Block>)
      returns (r: Option<seq<Block>>)
    requires IsLookup(lookup) && IsOrder(order)
    ensures r == Selection(resolve, lookup, order, blocks)
  {
    var applied: Applied, useIds, out: seq<Block> := map[], false, [];
    ghost var last: seq<Message> := [];
    for i := 0 to |blocks|
      invariant LazyBlocks(resolve, lookup, order, blocks[..i]) == Some((out, Lazy(last, applied, useIds)))
    {
      assert blocks[..i + 1][..i] == blocks[..i];
      if LazyBlocks(resolve, lookup, order, blocks[..i + 1]).None? {
        BlocksStop(resolve, lookup, order, blocks, i + 1);
      }
      var ok, bls;
      ok, bls, applied, useIds := SelectAllLazy(resolve, lookup, order, applied, useIds, blocks[i].bls);
      if !ok { return None; }
      var secp;
      ok, secp, applied, useIds := SelectAllLazy(resolve, lookup, order, applied, useIds, blocks[i].secp);
      if !ok { return None; }
      out, last := out + [Block(bls, secp)], secp;
    }
    assert blocks[..|blocks|] == blocks;
    r := Some(out);
  }

  // What the lazy selection returns.
  function Selection(resolve: bool, lookup: Lookup, order: Order, blocks: seq<Block>): Option<seq<Block>> {
    match LazyBlocks(resolve, lookup, order, blocks)
    case None => None
    case Some((out, _)) => Some(out)
  }

  lemma {:induction false} BlocksStop(resolve: bool, lookup: Lookup, order: Order, blocks: seq<Block>, k: nat)
    requires k <= |blocks| && LazyBlocks(resolve, lookup, order, blocks[..k]).None?
    ensures LazyBlocks(resolve, lookup, order, blocks).None?
    decreases |blocks| - k
  {
    if k < |blocks| {
      assert blocks[..k + 1][..k] == blocks[..k];
      BlocksStop(resolve, lookup, order, blocks, k + 1);
    } else {
      assert blocks[..k] == blocks;
    }
  }
}
