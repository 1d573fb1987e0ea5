/** Exporting a snapshot: a walk over the headers of the chain that collects, for
the recent ones, everything linked from their messages and their state.

Two sets of cids are shared by the whole walk: those given to the callback or
passed over, and those reached by following links.
*/
module Snapshot {
  import opened Wrappers
  import opened Sequences

  type Cid = nat

  datatype Codec = DagCbor | Cbor | Raw | OtherCodec

  datatype Header = Header(height: nat, messages: Cid, stateRoot: Cid, receipts: Cid, parents: seq<Cid>)

  // The links of an object and the header it decodes to, if it is stored.
  datatype Blockstore = Blockstore(codec: Cid -> Codec, identity: Cid -> bool, links: Cid -> Option<seq<Cid>>,
                                   header: Cid -> Option<Header>)

  // A finite set of cids that nothing in the store leads out of.
  ghost predicate Spans(bs: Blockstore, all: set<Cid>) {
    && (forall c, l | c in all && bs.links(c).Some? && l in bs.links(c).value :: l in all)
    && (forall c | c in all && bs.header(c).Some? ::
          var h := bs.header(c).value;
          h.messages in all && h.stateRoot in all && h.receipts in all && forall p | p in h.parents :: p in all)
  }

  // A header is a dag-cbor object that links to its roots and to its parents,
  // which are lower; its receipts are not a header.
  ghost predicate HeaderOk(bs: Blockstore, c: Cid)
    requires bs.header(c).Some?
  {
    var h := bs.header(c).value;
    && bs.codec(c) == DagCbor && !bs.identity(c) && bs.links(c).Some?
    && h.messages in bs.links(c).value && h.stateRoot in bs.links(c).value
    && h.receipts in bs.links(c).value && bs.header(h.receipts).None?
    && forall p | p in h.parents ::
         p in bs.links(c).value && (bs.header(p).Some? ==> bs.header(p).value.height < h.height)
  }

  ghost predicate HeadersOk(bs: Blockstore) {
    forall c | bs.header(c).Some? :: HeaderOk(bs, c)
  }

  // The parents of a header above height 0 are headers.
  ghost predicate HeadersStored(bs: Blockstore) {
    forall c, p | bs.header(c).Some? && bs.header(c).value.height > 0 && p in bs.header(c).value.parents ::
      bs.header(p).Some?
  }

  ghost predicate Rooted(bs: Blockstore, queue: seq<Cid>) {
    HeadersStored(bs) ==> forall c | c in queue :: bs.header(c).Some?
  }

  ghost predicate LinksIn(bs: Blockstore, c: Cid, walked: set<Cid>) {
    bs.links(c).Some? && forall l | l in bs.links(c).value :: l in walked
  }

  ghost predicate ClosedOver(bs: Blockstore, cs: set<Cid>, walked: set<Cid>) {
    forall c | c in cs && bs.codec(c) == DagCbor :: LinksIn(bs, c, walked)
  }

  ghost function Elements(cs: seq<Cid>): set<Cid> {
    set c | c in cs
  }

  // ---------------------------------------------------------------------
  // Why a cid is collected

  ghost predicate LinkedFrom(bs: Blockstore, c: Cid, l: Cid) {
    bs.codec(c) == DagCbor && bs.links(c).Some? && l in bs.links(c).value
  }

  ghost predicate LinkedIn(bs: Blockstore, c: Cid, walked: set<Cid>) {
    exists d :: d in walked && LinkedFrom(bs, d, c)
  }

  ghost predicate Found(bs: Blockstore, root: Cid, cs: seq<Cid>, i: nat)
    requires i < |cs|
  {
    LinkedFrom(bs, root, cs[i]) || exists j :: 0 <= j < i && LinkedFrom(bs, cs[j], cs[i])
  }

  // Every cid is linked from the root or from a cid collected before it.
  ghost predicate AllFound(bs: Blockstore, root: Cid, cs: seq<Cid>) {
    forall i | 0 <= i < |cs| :: Found(bs, root, cs, i)
  }

  lemma FoundConcat(bs: Blockstore, root: Cid, xs: seq<Cid>, c: Cid, ys: seq<Cid>)
    requires AllFound(bs, root, xs) && LinkedFrom(bs, root, c) && AllFound(bs, c, ys)
    ensures AllFound(bs, root, xs + [c] + ys)
  {
    var zs := xs + [c] + ys;
    forall i | 0 <= i < |zs| ensures Found(bs, root, zs, i) {
      var n := |xs|;
      if i < n {
        assert Found(bs, root, xs, i);
        if !LinkedFrom(bs, root, xs[i]) {
          var j :| 0 <= j < i && LinkedFrom(bs, xs[j], xs[i]);
          assert LinkedFrom(bs, zs[j], zs[i]);
        }
      } else if i > n {
        var k := i - n - 1;
        assert Found(bs, c, ys, k) && zs[i] == ys[k];
        if LinkedFrom(bs, c, ys[k]) {
          assert LinkedFrom(bs, zs[n], zs[i]);
        } else {
          var j :| 0 <= j < k && LinkedFrom(bs, ys[j], ys[k]);
          assert LinkedFrom(bs, zs[n + 1 + j], zs[i]);
        }
      }
    }
  }

  // ---------------------------------------------------------------------
  // What the walk has to cover

  // What to include: messages and state of headers above tsHeight - recent.
  datatype Options = Options(tsHeight: int, recent: int, skipOldMsgs: bool, skipMsgReceipts: bool)

  predicate WantsMessages(o: Options, h: Header) {
    !o.skipOldMsgs || h.height > o.tsHeight - o.recent
  }

  predicate WantsState(o: Options, h: Header) {
    h.height == 0 || h.height > o.tsHeight - o.recent
  }

  predicate WantsReceipts(o: Options, h: Header) {
    !o.skipMsgReceipts && WantsState(o, h)
  }

  // The receipt roots that are included without being followed.
  ghost function Unfollowed(bs: Blockstore, o: Options, seen: set<Cid>): set<Cid> {
    set b | b in seen && bs.header(b).Some? && WantsReceipts(o, bs.header(b).value) :: bs.header(b).value.receipts
  }

  predicate Filtered(bs: Blockstore, c: Cid) {
    bs.identity(c) || bs.codec(c) == OtherCodec
  }

  // The callback has had every cid seen once, but for the filtered ones.
  ghost predicate CalledOk(bs: Blockstore, seen: set<Cid>, called: seq<Cid>) {
    && Distinct(called)
    && (forall c | c in called :: c in seen)
    && (forall c | c in seen && c !in called :: Filtered(bs, c))
  }

  // All of these have been seen or are queued.
  ghost predicate Awaited(cs: seq<Cid>, seen: set<Cid>, queue: seq<Cid>) {
    forall c | c in cs :: c in seen || c in queue
  }

  lemma AwaitedStill(cs: seq<Cid>, seen: set<Cid>, queue: seq<Cid>, seen': set<Cid>, queue': seq<Cid>)
    requires Awaited(cs, seen, queue) && seen <= seen' && Awaited(queue, seen', queue')
    ensures Awaited(cs, seen', queue')
  {
  }

  // Only headers are given to the callback without looking at their cid.
  ghost predicate Clean(bs: Blockstore, called: seq<Cid>) {
    forall c | c in called :: bs.header(c).Some? || (!bs.identity(c) && bs.codec(c) != OtherCodec)
  }

  // The selected roots of a header are walked and its parents seen or queued.
  ghost predicate Done(bs: Blockstore, o: Options, b: Cid, seen: set<Cid>, walked: set<Cid>, queue: seq<Cid>) {
    bs.header(b).Some? ==>
      var h := bs.header(b).value;
      && (WantsMessages(o, h) ==> h.messages in walked)
      && (WantsState(o, h) ==> h.stateRoot in walked)
      && (WantsReceipts(o, h) ==> h.receipts in walked)
      && (h.height > 0 ==> forall p | p in h.parents :: p in seen || p in queue)
  }

  // A walked cid is a selected root of a header seen, or linked from a walked one.
  ghost predicate Selected(bs: Blockstore, o: Options, b: Cid, c: Cid) {
    bs.header(b).Some? &&
    var h := bs.header(b).value;
    || (WantsMessages(o, h) && c == h.messages) || (WantsState(o, h) && c == h.stateRoot)
    || (WantsReceipts(o, h) && c == h.receipts)
  }

  ghost predicate Meant(bs: Blockstore, o: Options, c: Cid, seen: set<Cid>, walked: set<Cid>) {
    (exists b :: b in seen && Selected(bs, o, b, c)) || LinkedIn(bs, c, walked)
  }

  ghost predicate Covered(bs: Blockstore, o: Options, seen: set<Cid>, walked: set<Cid>, queue: seq<Cid>) {
    && walked <= seen
    && ClosedOver(bs, walked - Unfollowed(bs, o, seen), walked)
    && (forall c | c in walked :: Meant(bs, o, c, seen, walked))
    && (forall b | b in seen :: Done(bs, o, b, seen, walked, queue))
  }

  // A cid is in the snapshot for a reason: it was walked, or it is a block the walk
  // started from or a parent of a header.
  ghost predicate Explained(bs: Blockstore, roots: seq<Cid>, c: Cid, seen: set<Cid>, walked: set<Cid>) {
    c in walked || c in roots || exists b :: b in seen && bs.header(b).Some? && c in bs.header(b).value.parents
  }

  ghost predicate AllExplained(bs: Blockstore, roots: seq<Cid>, seen: set<Cid>, walked: set<Cid>, queue: seq<Cid>) {
    forall c | c in seen || c in queue :: Explained(bs, roots, c, seen, walked)
  }

  // A header given to the callback, with its selected roots walked to the end,
  // what that reached seen, and its parents queued (or, at height 0, seen).
  ghost predicate Expands(bs: Blockstore, o: Options, b: Cid, seen: set<Cid>, walked: set<Cid>, queue: seq<Cid>,
                          seen': set<Cid>, walked': set<Cid>, queue': seq<Cid>) {
    && bs.header(b).Some?
    && var h := bs.header(b).value;
    && walked <= walked'
    && ClosedOver(bs, walked' - walked - (if WantsReceipts(o, h) then {h.receipts} else {}), walked')
    && (forall c | c in walked' - walked :: Selected(bs, o, b, c) || LinkedIn(bs, c, walked'))
    && (WantsMessages(o, h) ==> h.messages in walked')
    && (WantsState(o, h) ==> h.stateRoot in walked')
    && (WantsReceipts(o, h) ==> h.receipts in walked')
    && queue' == (if h.height > 0 then queue + h.parents else queue)
    && seen' == seen + {b} + (walked' - walked) + (if h.height > 0 then {} else Elements(h.parents))
  }

  lemma ExpandsCovers(bs: Blockstore, o: Options, b: Cid, seen: set<Cid>, walked: set<Cid>, queue: seq<Cid>,
                      seen': set<Cid>, walked': set<Cid>, queue': seq<Cid>)
    requires HeadersOk(bs) && Covered(bs, o, seen, walked, [b] + queue)
    requires Expands(bs, o, b, seen, walked, queue, seen', walked', queue')
    ensures Covered(bs, o, seen', walked', queue')
  {
    assert HeaderOk(bs, b);
    forall c | c in walked' ensures Meant(bs, o, c, seen', walked') {
      assert c in walked ==> Meant(bs, o, c, seen, walked);
    }
    forall x | x in seen' ensures Done(bs, o, x, seen', walked', queue') {
      if bs.header(x).Some? {
        assert HeaderOk(bs, x);
        if x in seen { assert Done(bs, o, x, seen, walked, [b] + queue); }
      }
    }
  }

  lemma ExpandsExplained(bs: Blockstore, o: Options, b: Cid, roots: seq<Cid>, seen: set<Cid>, walked: set<Cid>,
                         queue: seq<Cid>, seen': set<Cid>, walked': set<Cid>, queue': seq<Cid>)
    requires AllExplained(bs, roots, seen, walked, [b] + queue)
    requires Expands(bs, o, b, seen, walked, queue, seen', walked', queue')
    ensures AllExplained(bs, roots, seen', walked', queue')
  {
    forall c | c in seen' || c in queue' ensures Explained(bs, roots, c, seen', walked') {
      if c in seen || c in queue || c == b {
        assert c in seen || c in [b] + queue;
        assert Explained(bs, roots, c, seen, walked);
      }
    }
  }

  lemma SeenCovers(bs: Blockstore, o: Options, b: Cid, seen: set<Cid>, walked: set<Cid>, queue: seq<Cid>)
    requires Covered(bs, o, seen, walked, [b] + queue) && b in seen
    ensures Covered(bs, o, seen, walked, queue)
  {
    forall x | x in seen ensures Done(bs, o, x, seen, walked, queue) {
      assert Done(bs, o, x, seen, walked, [b] + queue);
    }
  }

  // ---------------------------------------------------------------------
  // The walk

  class SnapshotWalk {
    const bs: Blockstore
    const o: Options
    // Whether the callback succeeds.
    const cb: Cid -> bool
    ghost const all: set<Cid>
    ghost const roots: seq<Cid>
    var seen: set<Cid>
    var walked: set<Cid>
    var blocksToWalk: seq<Cid>
    // The cids given to the callback, in order.
    var called: seq<Cid>

    constructor (bs: Blockstore, o: Options, cb: Cid -> bool, ghost all: set<Cid>, roots: seq<Cid>)
      ensures this.bs == bs && this.o == o && this.cb == cb && this.all == all && this.roots == roots
      ensures seen == {} && walked == {} && blocksToWalk == roots && called == []
    {
      this.bs, this.o, this.cb, this.all, this.roots := bs, o, cb, all, roots;
      seen, walked, blocksToWalk, called := {}, {}, roots, [];
    }

    /** Follows the links of a root.  What is returned after `cids` are the newly
    walked cids, each once and each for a reason; with them the links of the root
    and of every newly walked cid have been walked. */
    method RecurseLinks(root: Cid, cids: seq<Cid>) returns (r: Option<seq<Cid>>)
      requires Spans(bs, all) && root in all && walked <= all
      modifies this`walked
      ensures old(walked) <= walked <= all
      ensures r.Some? ==> cids <= r.value
      ensures r.Some? ==> var added := r.value[|cids|..];
                && Distinct(added) && Elements(added) == walked - old(walked)
                && AllFound(bs, root, added)
      ensures r.Some? ==> ClosedOver(bs, walked - old(walked) + {root}, walked)
      ensures (forall c | c in all && bs.codec(c) == DagCbor :: bs.links(c).Some?) ==> r.Some?
      decreases all - walked
    {
      if bs.codec(root) != DagCbor { return Some(cids); }
      if bs.links(root).None? { return None; }
      var links := bs.links(root).value;
      var out := cids;
      for i := 0 to |links|
        invariant old(walked) <= walked <= all && cids <= out
        invariant Distinct(out[|cids|..]) && Elements(out[|cids|..]) == walked - old(walked)
        invariant AllFound(bs, root, out[|cids|..])
        invariant ClosedOver(bs, walked - old(walked), walked)
        invariant forall k | 0 <= k < i :: links[k] in walked
      {
        var c := links[i];
        assert c in bs.links(root).value;
        if c !in walked {
          ghost var before, had := walked, out[|cids|..];
          walked := walked + {c};
          var more := RecurseLinks(c, out + [c]);
          if more.None? { return None; }
          ghost var added := more.value[|out| + 1..];
          assert more.value[|cids|..] == had + [c] + added;
          FoundConcat(bs, root, had, c, added);
          DistinctConcat(had, c, added, before - old(walked), walked - before - {c});
          out := more.value;
        }
      }
      return Some(out);
    }

    // Nothing that can be reached is missing and the callback never fails.
    ghost predicate Complete() {
      && HeadersStored(bs)
      && (forall c | c in all && bs.codec(c) == DagCbor :: bs.links(c).Some?)
      && (forall c | c in all :: cb(c))
    }

    /** Visits a root of a header: unless it was walked before, it and everything
    it leads to that was not. */
    method CollectRoot(root: Cid) returns (r: Option<seq<Cid>>)
      requires Spans(bs, all) && root in all && walked <= all
      modifies this`walked
      ensures old(walked) <= walked <= all
      ensures Complete() ==> r.Some?
      ensures r.Some? ==> root in walked && Elements(r.value) == walked - old(walked)
      ensures r.Some? ==> ClosedOver(bs, walked - old(walked), walked)
      ensures r.Some? ==> forall c | c in walked - old(walked) :: c == root || LinkedIn(bs, c, walked)
    {
      if root in walked { return Some([]); }
      walked := walked + {root};
      r := RecurseLinks(root, [root]);
      if r.Some? {
        ghost var added := r.value[1..];
        assert r.value == [root] + added;
        forall c | c in walked - old(walked) && c != root ensures LinkedIn(bs, c, walked) {
          assert c in Elements(added);
          var i :| 0 <= i < |added| && added[i] == c;
          assert Found(bs, root, added, i);
          if !LinkedFrom(bs, root, c) {
            var j :| 0 <= j < i && LinkedFrom(bs, added[j], added[i]);
            assert added[j] in Elements(added);
          }
        }
      }
    }

    // Gives the cids not seen before to the callback, but for the filtered ones.
    method Emit(cids: seq<Cid>) returns (ok: bool)
      requires CalledOk(bs, seen, called)
      modifies this`seen, this`called
      ensures CalledOk(bs, seen, called) && (old(Clean(bs, called)) ==> Clean(bs, called))
      ensures old(seen) <= seen <= old(seen) + Elements(cids)
      ensures ok ==> seen == old(seen) + Elements(cids)
      ensures (forall c | c in cids :: cb(c)) ==> ok
    {
      for i := 0 to |cids|
        invariant CalledOk(bs, seen, called) && (old(Clean(bs, called)) ==> Clean(bs, called))
        invariant seen == old(seen) + Elements(cids[..i])
      {
        var c := cids[i];
        assert cids[..i + 1] == cids[..i] + [c];
        if c !in seen {
          seen := seen + {c};
          if bs.identity(c) || bs.codec(c) == OtherCodec { continue; }
          called := called + [c];
          if !cb(c) { return false; }
        }
      }
      assert cids[..|cids|] == cids;
      return true;
    }

    ghost predicate Inside()
      reads this
    {
      && Spans(bs, all) && walked <= all && seen <= all
      && (forall c | c in blocksToWalk :: c in all)
      && CalledOk(bs, seen, called)
    }

    ghost predicate Valid()
      reads this
    {
      && Inside()
      && (HeadersOk(bs) ==> Covered(bs, o, seen, walked, blocksToWalk))
      && AllExplained(bs, roots, seen, walked, blocksToWalk) && Clean(bs, called)
    }

    // Collects the state of a header and its receipt root, if they are wanted.
    method CollectState(blk: Cid, b: Header) returns (r: Option<seq<Cid>>)
      requires Spans(bs, all) && walked <= all && blk in all && bs.header(blk) == Some(b)
      modifies this`walked
      ensures old(walked) <= walked <= all
      ensures Complete() ==> r.Some?
      ensures r.Some? ==>
                && Elements(r.value) == walked - old(walked)
                && ClosedOver(bs, walked - old(walked) - (if WantsReceipts(o, b) then {b.receipts} else {}), walked)
                && (WantsState(o, b) ==> b.stateRoot in walked) && (WantsReceipts(o, b) ==> b.receipts in walked)
                && forall c | c in walked - old(walked) :: Selected(bs, o, blk, c) || LinkedIn(bs, c, walked)
    {
      if b.height != 0 && b.height <= o.tsHeight - o.recent { return Some([]); }
      r := CollectRoot(b.stateRoot);
      if r.None? || o.skipMsgReceipts || b.receipts in walked { return; }
      ghost var mid, before := walked, r.value;
      walked := walked + {b.receipts};
      r := Some(r.value + [b.receipts]);
      assert Elements(r.value) == Elements(before) + {b.receipts};
      forall c | c in mid - old(walked) ensures Selected(bs, o, blk, c) || LinkedIn(bs, c, walked) {
        assert c == b.stateRoot || LinkedIn(bs, c, mid);
      }
    }

    // Collects what a new header selects and queues its parents.
    method Collect(blk: Cid, b: Header) returns (r: Option<seq<Cid>>)
      requires Inside() && blk in all && bs.header(blk) == Some(b)
      modifies this`walked, this`blocksToWalk
      ensures Inside()
      ensures Complete() ==> r.Some?
      ensures r.Some? ==> Elements(r.value) <= all
      ensures r.Some? ==> blocksToWalk == old(blocksToWalk) + if b.height > 0 then b.parents else []
      ensures r.Some? ==>
                Expands(bs, o, blk, seen, old(walked), old(blocksToWalk),
                        seen + {blk} + Elements(r.value), walked, blocksToWalk)
    {
      var cids := [];
      if !o.skipOldMsgs || b.height > o.tsHeight - o.recent {
        var m := CollectRoot(b.messages);
        if m.None? { return None; }
        cids := m.value;
      }
      ghost var mid, mcids := walked, cids;
      assert Elements(mcids) == mid - old(walked);
      if b.height > 0 {
        blocksToWalk := blocksToWalk + b.parents;
      } else {
        cids := cids + b.parents;
      }
      assert Elements(cids) == Elements(mcids) + if b.height > 0 then {} else Elements(b.parents);
      var st := CollectState(blk, b);
      if st.None? { return None; }
      assert Elements(cids + st.value) == Elements(cids) + (walked - mid);
      forall c | c in walked - old(walked) ensures Selected(bs, o, blk, c) || LinkedIn(bs, c, walked) {
        if c in mid { assert Selected(bs, o, blk, c) || LinkedIn(bs, c, mid); }
      }
      return Some(cids + st.value);
    }

    // Visits the next block of the queue.
    method WalkChain() returns (ok: bool)
      requires Valid() && blocksToWalk != []
      modifies this
      ensures Inside() && (ok ==> Valid())
      ensures Complete() && bs.header(old(blocksToWalk[0])).Some? ==> ok
      ensures ok && Rooted(bs, old(blocksToWalk)) ==> Rooted(bs, blocksToWalk)
      ensures old(seen) <= seen
      ensures ok ==> old(blocksToWalk[0]) in seen
      ensures ok && old(blocksToWalk[0]) in old(seen) ==> seen == old(seen) && blocksToWalk == old(blocksToWalk[1..])
      ensures ok ==> Awaited(old(blocksToWalk), seen, blocksToWalk)
    {
      var blk := blocksToWalk[0];
      ghost var queue := blocksToWalk[1..];
      assert blocksToWalk == [blk] + queue;
      blocksToWalk := blocksToWalk[1..];
      if blk in seen {
        if HeadersOk(bs) { SeenCovers(bs, o, blk, seen, walked, queue); }
        return true;
      }
      ghost var seen0, walked0 := seen, walked;
      seen := seen + {blk};
      called := called + [blk];
      if !cb(blk) { return false; }
      if bs.header(blk).None? { return false; }
      var out := Collect(blk, bs.header(blk).value);
      if out.None? { return false; }
      ok := Emit(out.value);
      assert Elements(out.value) <= all;
      if ok {
        ExpandsExplained(bs, o, blk, roots, seen0, walked0, queue, seen, walked, blocksToWalk);
        if HeadersOk(bs) { ExpandsCovers(bs, o, blk, seen0, walked0, queue, seen, walked, blocksToWalk); }
      }
    }
  }

  lemma DistinctConcat(xs: seq<Cid>, c: Cid, ys: seq<Cid>, ws: set<Cid>, vs: set<Cid>)
    requires Distinct(xs) && Distinct(ys) && Elements(xs) == ws && Elements(ys) == vs && c !in ws && c !in vs
             && ws !! vs
    ensures Distinct(xs + [c] + ys) && Elements(xs + [c] + ys) == ws + {c} + vs
  {
    assert forall x :: x in xs <==> x in ws;
    assert forall y :: y in ys <==> y in vs;
    var zs := xs + [c] + ys;
    forall i, j | 0 <= i < j < |zs| ensures zs[i] != zs[j] {
      assert i < |xs| ==> zs[i] in ws;
      assert j < |xs| ==> zs[j] in ws;
      assert i > |xs| ==> zs[i] in vs;
      assert j > |xs| ==> zs[j] in vs;
    }
  }

  /** Walks everything from the blocks of a tipset.  When it succeeds, the sets of
  cids seen and walked cover what the options select. */
  method WalkSnapshot(bs: Blockstore, o: Options, cb: Cid -> bool, ghost all: set<Cid>, roots: seq<Cid>)
    returns (ok: bool, called: seq<Cid>, ghost seen: set<Cid>, ghost walked: set<Cid>)
    requires Spans(bs, all) && Elements(roots) <= all
    ensures CalledOk(bs, seen, called)
    ensures ok ==> Elements(roots) <= seen
    ensures ok && HeadersOk(bs) ==> Covered(bs, o, seen, walked, [])
    ensures ok ==> AllExplained(bs, roots, seen, walked, []) && Clean(bs, called)
    ensures && HeadersStored(bs)
            && (forall r | r in roots :: bs.header(r).Some?)
            && (forall c | c in all && bs.codec(c) == DagCbor :: bs.links(c).Some?)
            && (forall c | c in all :: cb(c))
            ==> ok
  {
    var w := new SnapshotWalk(bs, o, cb, all, roots);
    forall r | r in roots ensures r in all { assert r in Elements(roots); }
    ghost var rooted := forall r | r in roots :: bs.header(r).Some?;
    while w.blocksToWalk != []
      invariant w.Valid() && (rooted ==> Rooted(bs, w.blocksToWalk))
      invariant Awaited(roots, w.seen, w.blocksToWalk)
      decreases all - w.seen, |w.blocksToWalk|
    {
      ghost var seen0, queue0 := w.seen, w.blocksToWalk;
      ok := w.WalkChain();
      if !ok { return false, w.called, w.seen, w.walked; }
      AwaitedStill(roots, seen0, queue0, w.seen, w.blocksToWalk);
    }
    return true, w.called, w.seen, w.walked;
  }

  // ---------------------------------------------------------------------
  // What a successful walk gives

  // Each cid is a parent of the header before it.
  ghost predicate ParentPath(bs: Blockstore, path: seq<Cid>) {
    forall i | 0 <= i < |path| - 1 :: ParentStep(bs, path, i)
  }

  ghost predicate ParentStep(bs: Blockstore, path: seq<Cid>, i: nat)
    requires i < |path| - 1
  {
    bs.header(path[i]).Some? && bs.header(path[i]).value.height > 0 && path[i + 1] in bs.header(path[i]).value.parents
  }

  lemma ParentsSeen(bs: Blockstore, o: Options, seen: set<Cid>, walked: set<Cid>, b: Cid, p: Cid)
    requires Covered(bs, o, seen, walked, []) && b in seen
    requires bs.header(b).Some? && bs.header(b).value.height > 0 && p in bs.header(b).value.parents
    ensures p in seen
  {
    assert Done(bs, o, b, seen, walked, []);
  }

  /** Every header reachable through parents is given to the callback. */
  lemma {:induction false} HeadersExported(bs: Blockstore, o: Options, seen: set<Cid>, walked: set<Cid>,
                                           called: seq<Cid>, path: seq<Cid>)
    requires HeadersOk(bs) && Covered(bs, o, seen, walked, []) && CalledOk(bs, seen, called)
    requires path != [] && path[0] in seen && ParentPath(bs, path)
    ensures path[|path| - 1] in seen
    ensures bs.header(path[|path| - 1]).Some? ==> path[|path| - 1] in called
  {
    var n := |path| - 1;
    if n > 0 {
      assert forall i | 0 <= i < n - 1 :: ParentStep(bs, path[..n], i) == ParentStep(bs, path, i);
      HeadersExported(bs, o, seen, walked, called, path[..n]);
      assert ParentStep(bs, path, n - 1);
      ParentsSeen(bs, o, seen, walked, path[n - 1], path[n]);
    }
    if bs.header(path[n]).Some? { assert HeaderOk(bs, path[n]); }
  }

  // Each cid is linked from the dag-cbor object before it.
  ghost predicate LinkStep(bs: Blockstore, path: seq<Cid>, i: nat)
    requires i < |path| - 1
  {
    LinkedFrom(bs, path[i], path[i + 1])
  }

  ghost predicate LinkPath(bs: Blockstore, path: seq<Cid>) {
    forall i | 0 <= i < |path| - 1 :: LinkStep(bs, path, i)
  }

  // The path leaves none of these cids.
  ghost predicate Avoids(path: seq<Cid>, cs: set<Cid>) {
    forall i | 0 <= i < |path| - 1 :: path[i] !in cs
  }

  lemma {:induction false} LinksWalked(bs: Blockstore, walked: set<Cid>, unfollowed: set<Cid>, path: seq<Cid>)
    requires ClosedOver(bs, walked - unfollowed, walked)
    requires path != [] && path[0] in walked && LinkPath(bs, path) && Avoids(path, unfollowed)
    ensures path[|path| - 1] in walked
  {
    var n := |path| - 1;
    if n > 0 {
      assert forall i | 0 <= i < n - 1 :: LinkStep(bs, path[..n], i) == LinkStep(bs, path, i);
      LinksWalked(bs, walked, unfollowed, path[..n]);
      assert LinkStep(bs, path, n - 1) && LinksIn(bs, path[n - 1], walked);
    }
  }

  // What the options want of a header.
  ghost predicate WantedRoot(o: Options, h: Header, c: Cid) {
    var recent := h.height > o.tsHeight - o.recent;
    || (c == h.messages && (!o.skipOldMsgs || recent))
    || (c == h.stateRoot && (h.height == 0 || recent))
    || (c == h.receipts && !o.skipMsgReceipts && (h.height == 0 || recent))
  }

  /** Everything linked, other than through a receipt root, from the messages of a header
  (of a recent one if old messages are skipped) and from the state and, if wanted,
  the receipts of a recent header or of genesis is collected, and given to the
  callback unless it is an identity cid or of a foreign codec. */
  lemma LinksExported(bs: Blockstore, o: Options, seen: set<Cid>, walked: set<Cid>, called: seq<Cid>,
                      b: Cid, path: seq<Cid>)
    requires Covered(bs, o, seen, walked, []) && CalledOk(bs, seen, called)
    requires b in seen && bs.header(b).Some? && path != []
    requires WantedRoot(o, bs.header(b).value, path[0])
    requires LinkPath(bs, path) && Avoids(path, Unfollowed(bs, o, seen))
    ensures path[|path| - 1] in walked
    ensures path[|path| - 1] in called || bs.identity(path[|path| - 1]) || bs.codec(path[|path| - 1]) == OtherCodec
  {
    assert Done(bs, o, b, seen, walked, []);
    LinksWalked(bs, walked, Unfollowed(bs, o, seen), path);
  }

  /** A walked cid is there for a reason: it is the messages, the state or the receipts,
  as far as wanted, of a header seen, or an object walked links to it. */
  lemma WalkedForReason(bs: Blockstore, o: Options, seen: set<Cid>, walked: set<Cid>, c: Cid)
    requires Covered(bs, o, seen, walked, []) && c in walked
    ensures || (exists b :: b in seen && bs.header(b).Some? && WantedRoot(o, bs.header(b).value, c))
            || LinkedIn(bs, c, walked)
  {
    assert Meant(bs, o, c, seen, walked);
    if b :| b in seen && Selected(bs, o, b, c) { assert WantedRoot(o, bs.header(b).value, c); }
  }

  // With receipts skipped, nothing is left unfollowed.
  lemma NothingUnfollowed(bs: Blockstore, o: Options, seen: set<Cid>, walked: set<Cid>)
    requires o.skipMsgReceipts && Covered(bs, o, seen, walked, [])
    ensures Unfollowed(bs, o, seen) == {} && ClosedOver(bs, walked, walked)
  {
    assert walked - Unfollowed(bs, o, seen) == walked;
  }
}
