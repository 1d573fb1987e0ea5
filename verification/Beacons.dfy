/** Beacon entries of blocks: which rounds a block has to carry, the generator
that fetches them, the validator that checks them and the extractor that finds
the entry of an epoch.

Round numbers are computed in 64-bit unsigned arithmetic.  Fetching an entry and
verifying its signature are an oracle.
*/
module Beacons {
  import opened Wrappers
  import opened Tipsets
  import opened ChainIndex

  const TWO_TO_64: int := 0x1_0000_0000_0000_0000

  function U64(x: int): (r: nat)
    ensures r < TWO_TO_64 && (0 <= x < TWO_TO_64 ==> r == x)
  {
    x % TWO_TO_64
  }

  datatype Entry = Entry(round: nat, data: nat)

  datatype Drand = Drand(id: nat, chained: bool, filGenTime: nat, filRoundTime: nat, drandGenTime: nat, interval: nat)

  ghost predicate ValidDrand(b: Drand) {
    b.interval > 0 && b.filRoundTime > 0 && b.drandGenTime < TWO_TO_64
  }

  type Beacon = b: Drand | ValidDrand(b) witness Drand(0, false, 0, 1, 0, 1)

  datatype BeaconPoint = BeaconPoint(start: int, beacon: Beacon)

  // ---------------------------------------------------------------------
  // Which beacon and which round an epoch uses

  function BeaconAt(bs: seq<BeaconPoint>, e: int): Beacon
    requires bs != []
  {
    var n := |bs| - 1;
    if e >= bs[n].start || n == 0 then bs[n].beacon else BeaconAt(bs[..n], e)
  }

  method BeaconForEpoch(bs: seq<BeaconPoint>, e: int) returns (b: Beacon)
    requires bs != []
    ensures b == BeaconAt(bs, e)
  {
    var i := |bs| - 1;
    assert bs[..|bs|] == bs;
    while i >= 0
      invariant -1 <= i < |bs|
      invariant i >= 0 ==> BeaconAt(bs, e) == BeaconAt(bs[..i + 1], e)
      invariant i < 0 ==> BeaconAt(bs, e) == bs[0].beacon
    {
      if e >= bs[i].start { return bs[i].beacon; }
      assert bs[..i + 1][..i] == bs[..i];
      i := i - 1;
    }
    return bs[0].beacon;
  }

  // In a schedule sorted by start, an epoch uses the last beacon started by then.
  lemma {:induction false} BeaconAtIsLastStarted(bs: seq<BeaconPoint>, e: int, i: nat)
    requires i < |bs| && forall k | i < k < |bs| :: e < bs[k].start
    requires bs[i].start <= e || i == 0
    ensures BeaconAt(bs, e) == bs[i].beacon
  {
    if i < |bs| - 1 { BeaconAtIsLastStarted(bs[..|bs| - 1], e, i); }
  }

  function LatestTime(b: Beacon, e: int): int {
    e * b.filRoundTime + b.filGenTime - b.filRoundTime
  }

  const VERSION_15: int := 15

  function MaxBeaconRound(b: Beacon, nv: int, e: int): nat {
    var latest := U64(LatestTime(b, e));
    if nv <= VERSION_15 then U64(latest - b.drandGenTime) / b.interval
    else if latest < b.drandGenTime then 1
    else U64((latest - b.drandGenTime) / b.interval + 1)
  }

  // The times of an epoch neither precede the beacon nor overflow.
  ghost predicate PastGenesis(b: Beacon, e: int) {
    b.drandGenTime <= LatestTime(b, e) < TWO_TO_64 - 1
  }

  lemma PastBetween(b: Beacon, lo: int, e: int, hi: int)
    requires lo <= e <= hi && PastGenesis(b, lo) && PastGenesis(b, hi)
    ensures PastGenesis(b, e)
  {
    MulMonotone(lo, e, b.filRoundTime);
    MulMonotone(e, hi, b.filRoundTime);
  }

  lemma RoundPastGenesis(b: Beacon, nv: int, e: int)
    requires PastGenesis(b, e)
    ensures MaxBeaconRound(b, nv, e)
            == (LatestTime(b, e) - b.drandGenTime) / b.interval + if nv <= VERSION_15 then 0 else 1
  {
    var x := LatestTime(b, e) - b.drandGenTime;
    DivMonotone(x, x, b.interval);
  }

  lemma MulMonotone(a: int, b: int, d: nat)
    ensures a <= b ==> a * d <= b * d
  {
  }

  // Quotients are the only numbers that leave a remainder below the divisor.
  lemma DivUnique(x: nat, d: nat, q: int, r: nat)
    requires x == q * d + r && r < d
    ensures x / d == q
  {
    var p, m := x / d, x % d;
    assert x == p * d + m && 0 <= m < d;
    MulMonotone(p + 1, q, d);
    MulMonotone(q + 1, p, d);
    assert (p + 1) * d == p * d + d;
    assert (q + 1) * d == q * d + d;
  }

  lemma DivMonotone(x: nat, y: nat, d: nat)
    requires d > 0 && x <= y
    ensures 0 <= x / d <= y / d <= y
  {
    var p, q := x / d, y / d;
    assert x == p * d + x % d && y == q * d + y % d;
    MulMonotone(q + 1, p, d);
    assert (q + 1) * d == q * d + d;
    MulMonotone(1, d, q);
  }

  lemma DivGrows(x: nat, d: nat, y: nat)
    requires 0 < d && x + d <= y
    ensures x / d < y / d
    ensures y == x + d ==> y / d == x / d + 1
  {
    var q, r := x / d, x % d;
    assert x == q * d + r;
    assert (q + 1) * d == q * d + d;
    DivUnique(x + d, d, q + 1, r);
    DivMonotone(x + d, y, d);
  }

  /** Past its genesis the round of an epoch is the latest one that the beacon has
  published when the epoch before starts.  From version 16 on round 1 is the one of
  the beacon's genesis, before that round 0. */
  lemma RoundIsLatest(b: Beacon, nv: int, e: int)
    requires PastGenesis(b, e)
    ensures var first := if nv <= VERSION_15 then 0 else 1;
            var r, at := MaxBeaconRound(b, nv, e) - first, b.filGenTime + (e - 1) * b.filRoundTime;
            b.drandGenTime + r * b.interval <= at < b.drandGenTime + (r + 1) * b.interval
  {
    RoundPastGenesis(b, nv, e);
    var x := LatestTime(b, e) - b.drandGenTime;
    var q := x / b.interval;
    assert x == q * b.interval + x % b.interval;
    assert (q + 1) * b.interval == q * b.interval + b.interval;
    assert (e - 1) * b.filRoundTime == e * b.filRoundTime - b.filRoundTime;
  }

  // Past its genesis a beacon at least as fast as the chain moves on every epoch,
  // and one exactly as fast moves by one round.
  lemma RoundsRise(b: Beacon, nv: int, e: int, e': int)
    requires e < e' && PastGenesis(b, e) && PastGenesis(b, e') && b.interval <= b.filRoundTime
    ensures MaxBeaconRound(b, nv, e) < MaxBeaconRound(b, nv, e')
    ensures e' == e + 1 && b.interval == b.filRoundTime ==> MaxBeaconRound(b, nv, e') == MaxBeaconRound(b, nv, e) + 1
  {
    RoundPastGenesis(b, nv, e);
    RoundPastGenesis(b, nv, e');
    MulMonotone(e + 1, e', b.filRoundTime);
    assert (e + 1) * b.filRoundTime == e * b.filRoundTime + b.filRoundTime;
    DivGrows(LatestTime(b, e) - b.drandGenTime, b.interval, LatestTime(b, e') - b.drandGenTime);
  }

  // ---------------------------------------------------------------------
  // The beacon network

  /** The entry a beacon network publishes for each round, what asking for a
  round gives (nothing when the request fails), and the signature check of an
  entry against the data of the entry before it. */
  datatype Oracle = Oracle(truth: (Beacon, nat) -> Entry, get: (Beacon, nat) -> Option<Entry>,
                           verify: (Beacon, Entry, nat) -> bool)

  // Asking for round 0 gives the latest entry.
  ghost predicate Answers(o: Oracle, b: Beacon, r: nat) {
    o.get(b, r).Some? ==>
      exists k: nat :: 1 <= k < TWO_TO_64 && (r > 0 ==> k == r) && o.get(b, r).value == o.truth(b, k)
  }

  // An entry of a chained beacon signs its predecessor.
  ghost predicate Precedes(o: Oracle, b: Beacon, d: nat, r: nat) {
    !b.chained || (r >= 1 && d == o.truth(b, r - 1).data)
  }

  ghost predicate Honest(o: Oracle) {
    && (forall b: Beacon, r: nat :: o.truth(b, r).round == r)
    && (forall b: Beacon, r: nat | r < TWO_TO_64 :: Answers(o, b, r))
    && (forall b: Beacon, r: nat, d: nat :: Precedes(o, b, d, r) ==> o.verify(b, o.truth(b, r), d))
  }

  // No other predecessor verifies, and no two rounds have the same data.
  ghost predicate Strict(o: Oracle) {
    && Honest(o)
    && (forall b: Beacon, r: nat, d: nat :: o.verify(b, o.truth(b, r), d) ==> Precedes(o, b, d, r))
    && (forall b: Beacon, r: nat, k: nat :: o.truth(b, r).data == o.truth(b, k).data ==> r == k)
  }

  // ---------------------------------------------------------------------
  // The validator

  function Before(es: seq<Entry>, prev: Entry, i: nat): nat
    requires i <= |es|
  {
    if i == 0 then prev.data else es[i - 1].data
  }

  ghost predicate ForksAt(bs: seq<BeaconPoint>, parentEpoch: int, epoch: int)
    requires bs != []
  {
    BeaconAt(bs, parentEpoch) != BeaconAt(bs, epoch) && BeaconAt(bs, epoch).chained
  }

  ghost predicate Verified(o: Oracle, b: Beacon, es: seq<Entry>, prev: Entry, i: nat)
    requires i < |es|
  {
    o.verify(b, es[i], Before(es, prev, i))
  }

  ghost predicate Chained(o: Oracle, b: Beacon, es: seq<Entry>, prev: Entry) {
    forall i | 0 <= i < |es| :: Verified(o, b, es, prev, i)
  }

  ghost predicate RoundsOfEpochs(b: Beacon, nv: int, parentEpoch: int, es: seq<Entry>) {
    forall i | 0 <= i < |es| :: es[i].round == MaxBeaconRound(b, nv, parentEpoch + i + 1)
  }

  ghost predicate Acceptable(o: Oracle, bs: seq<BeaconPoint>, nv: int, epoch: int, parentEpoch: int, prev: Entry,
                             es: seq<Entry>)
    requires bs != []
  {
    var b := BeaconAt(bs, epoch);
    var max := MaxBeaconRound(b, nv, epoch);
    if ForksAt(bs, parentEpoch, epoch) then |es| == 2 && o.verify(b, es[1], es[0].data)
    else if max == prev.round then es == []
    else
      && es != []
      && (
           || (b.chained && prev.round == 0)
           || (
                && es[|es| - 1].round == max
                && (!b.chained ==> RoundsOfEpochs(b, nv, parentEpoch, es))
                && Chained(o, b, es, prev)))
  }

  method ValidateBlockValues(o: Oracle, bs: seq<BeaconPoint>, nv: int, epoch: int, parentEpoch: int, prev: Entry,
                             es: seq<Entry>)
    returns (ok: bool)
    requires bs != []
    ensures ok <==> Acceptable(o, bs, nv, epoch, parentEpoch, prev, es)
  {
    var parentBeacon := BeaconForEpoch(bs, parentEpoch);
    var currBeacon := BeaconForEpoch(bs, epoch);
    if parentBeacon != currBeacon && currBeacon.chained {
      if |es| != 2 { return false; }
      return o.verify(currBeacon, es[1], es[0].data);
    }
    var maxRound := MaxBeaconRound(currBeacon, nv, epoch);
    if maxRound == prev.round { return |es| == 0; }
    if |es| == 0 { return false; }
    if currBeacon.chained && prev.round == 0 { return true; }
    var last := es[|es| - 1];
    if last.round != maxRound { return false; }
    if !currBeacon.chained {
      for i := 0 to |es|
        invariant RoundsOfEpochs(currBeacon, nv, parentEpoch, es[..i])
      {
        var correctRound := MaxBeaconRound(currBeacon, nv, parentEpoch + i + 1);
        if es[i].round != correctRound { return false; }
      }
      assert es[..|es|] == es;
    }
    var prevEntry := prev;
    for i := 0 to |es|
      invariant prevEntry.data == Before(es, prev, i)
      invariant forall k | 0 <= k < i :: Verified(o, currBeacon, es, prev, k)
    {
      assert Verified(o, currBeacon, es, prev, i) <==> o.verify(currBeacon, es[i], prevEntry.data);
      if !o.verify(currBeacon, es[i], prevEntry.data) { return false; }
      prevEntry := es[i];
    }
    return true;
  }

  // Only what the network has published verifies.
  ghost predicate Sound(o: Oracle) {
    forall b: Beacon, e: Entry, d: nat :: o.verify(b, e, d) ==> e == o.truth(b, e.round)
  }

  /** An accepted block carries only what the network has published: at a fork its
  second entry, and elsewhere all of them, up to the round of its epoch, unless they
  are the first ones of a chained beacon or there are none to carry. */
  lemma AcceptedIsGenuine(o: Oracle, bs: seq<BeaconPoint>, nv: int, epoch: int, parentEpoch: int, prev: Entry,
                          es: seq<Entry>)
    requires bs != [] && Sound(o) && Acceptable(o, bs, nv, epoch, parentEpoch, prev, es)
    ensures var b := BeaconAt(bs, epoch);
            if BeaconAt(bs, parentEpoch) != b && b.chained then |es| == 2 && es[1] == o.truth(b, es[1].round)
            else if MaxBeaconRound(b, nv, epoch) == prev.round then es == []
            else
              && es != []
              && (!b.chained || prev.round != 0 ==>
                    && es[|es| - 1].round == MaxBeaconRound(b, nv, epoch)
                    && forall i | 0 <= i < |es| :: es[i] == o.truth(b, es[i].round))
  {
    var b := BeaconAt(bs, epoch);
    if !ForksAt(bs, parentEpoch, epoch) && Chained(o, b, es, prev) {
      forall i | 0 <= i < |es| ensures es[i] == o.truth(b, es[i].round) { assert Verified(o, b, es, prev, i); }
    }
  }

  /** On a chained beacon, after an entry of the network, an accepted block carries
  exactly the rounds that follow it, in order, up to the round of its epoch. */
  lemma AcceptedRoundsFollow(o: Oracle, bs: seq<BeaconPoint>, nv: int, epoch: int, parentEpoch: int, prev: Entry,
                             es: seq<Entry>)
    requires bs != [] && Sound(o) && Strict(o) && Acceptable(o, bs, nv, epoch, parentEpoch, prev, es)
    requires var b := BeaconAt(bs, epoch);
             b.chained && prev == o.truth(b, prev.round) && prev.round != 0 && !ForksAt(bs, parentEpoch, epoch)
    ensures MaxBeaconRound(BeaconAt(bs, epoch), nv, epoch) == prev.round + |es|
    ensures forall i | 0 <= i < |es| :: es[i] == o.truth(BeaconAt(bs, epoch), prev.round + 1 + i)
  {
    var b := BeaconAt(bs, epoch);
    AcceptedIsGenuine(o, bs, nv, epoch, parentEpoch, prev, es);
    forall i | 0 <= i < |es| ensures es[i].round == prev.round + 1 + i { RoundFollows(o, b, es, prev, i); }
  }

  lemma {:induction false} RoundFollows(o: Oracle, b: Beacon, es: seq<Entry>, prev: Entry, i: nat)
    requires Sound(o) && Strict(o) && Chained(o, b, es, prev) && b.chained && prev == o.truth(b, prev.round)
    requires i < |es|
    ensures es[i] == o.truth(b, prev.round + 1 + i)
  {
    assert Verified(o, b, es, prev, i);
    if i > 0 { RoundFollows(o, b, es, prev, i - 1); }
    assert Precedes(o, b, Before(es, prev, i), es[i].round);
  }

  /** With an unchained beacon past its genesis and at least as fast as the chain,
  a block's rounds are fully determined: a block is accepted exactly when it has
  one verified entry for each epoch since its parent. */
  lemma UnchainedRoundsDetermined(o: Oracle, bs: seq<BeaconPoint>, nv: int, epoch: int, parentEpoch: int, prev: Entry,
                                  es: seq<Entry>)
    requires bs != [] && parentEpoch < epoch
    requires var b := BeaconAt(bs, epoch);
             && !b.chained && b.interval <= b.filRoundTime
             && PastGenesis(b, parentEpoch + 1) && PastGenesis(b, epoch)
             && (es != [] ==> PastGenesis(b, parentEpoch + |es|))
             && prev.round != MaxBeaconRound(b, nv, epoch)
    ensures Acceptable(o, bs, nv, epoch, parentEpoch, prev, es) <==>
              var b := BeaconAt(bs, epoch);
              |es| == epoch - parentEpoch && RoundsOfEpochs(b, nv, parentEpoch, es) && Chained(o, b, es, prev)
  {
    var b := BeaconAt(bs, epoch);
    if es != [] {
      var reached := parentEpoch + |es|;
      if reached < epoch {
        RoundsRise(b, nv, reached, epoch);
      } else if epoch < reached {
        RoundsRise(b, nv, epoch, reached);
      }
    }
  }

  // ---------------------------------------------------------------------
  // The generator

  // The rounds a block has to carry.
  function NeededRounds(bs: seq<BeaconPoint>, nv: int, epoch: int, parentEpoch: int, prev: Entry): seq<nat>
    requires bs != []
  {
    var b := BeaconAt(bs, epoch);
    var max: int := MaxBeaconRound(b, nv, epoch);
    if BeaconAt(bs, parentEpoch) != b && b.chained then [U64(max - 1), max]
    else if max == prev.round || epoch <= parentEpoch then []
    else seq<nat>(epoch - parentEpoch, i => MaxBeaconRound(b, nv, parentEpoch + i + 1))
  }

  ghost predicate Fetched(o: Oracle, b: Beacon, rounds: seq<nat>, es: seq<Entry>) {
    |es| == |rounds| && forall i | 0 <= i < |rounds| :: o.get(b, rounds[i]) == Some(es[i])
  }

  function Reversed(es: seq<Entry>): seq<Entry> {
    seq(|es|, i requires 0 <= i < |es| => es[|es| - 1 - i])
  }

  method ReverseEntries(a: array<Entry>)
    modifies a
    ensures a[..] == Reversed(old(a[..]))
  {
    var i := 0;
    while i < a.Length / 2
      invariant 0 <= i <= a.Length / 2
      invariant forall k | 0 <= k < i :: a[k] == old(a[a.Length - 1 - k]) && a[a.Length - 1 - k] == old(a[k])
      invariant forall k | i <= k < a.Length - i :: a[k] == old(a[k])
    {
      a[i], a[a.Length - (1 + i)] := a[a.Length - (1 + i)], a[i];
      i := i + 1;
    }
  }

  method BeaconEntriesForBlock(o: Oracle, bs: seq<BeaconPoint>, nv: int, epoch: int, parentEpoch: int, prev: Entry)
    returns (r: Option<seq<Entry>>)
    requires bs != []
    ensures var rounds := NeededRounds(bs, nv, epoch, parentEpoch, prev); var b := BeaconAt(bs, epoch);
            && (r.Some? ==> Fetched(o, b, rounds, r.value))
            && (r.None? <==> exists i :: 0 <= i < |rounds| && o.get(b, rounds[i]).None?)
  {
    var parentBeacon := BeaconForEpoch(bs, parentEpoch);
    var currBeacon := BeaconForEpoch(bs, epoch);
    ghost var rounds := NeededRounds(bs, nv, epoch, parentEpoch, prev);
    if parentBeacon != currBeacon && currBeacon.chained {
      var round: int := MaxBeaconRound(currBeacon, nv, epoch);
      assert rounds[0] == U64(round - 1) && rounds[1] == round;
      var first := o.get(currBeacon, U64(round - 1));
      if first.None? { return None; }
      var second := o.get(currBeacon, round);
      if second.None? { return None; }
      return Some([first.value, second.value]);
    }
    var maxRound := MaxBeaconRound(currBeacon, nv, epoch);
    if maxRound == prev.round { return Some([]); }
    var out := [];
    var currEpoch := epoch;
    while currEpoch > parentEpoch
      invariant epoch > parentEpoch ==> currEpoch >= parentEpoch
      invariant epoch <= parentEpoch ==> currEpoch == epoch
      invariant |out| == epoch - currEpoch
      invariant forall i | 0 <= i < |out| :: o.get(currBeacon, rounds[|rounds| - 1 - i]) == Some(out[i])
    {
      var currRound := MaxBeaconRound(currBeacon, nv, currEpoch);
      assert currRound == rounds[currEpoch - parentEpoch - 1];
      var resp := o.get(currBeacon, currRound);
      if resp.None? { return None; }
      out := out + [resp.value];
      currEpoch := currEpoch - 1;
    }
    var a := new Entry[|out|](i requires 0 <= i < |out| => out[i]);
    assert a[..] == out;
    ReverseEntries(a);
    return Some(a[..]);
  }

  // ---------------------------------------------------------------------
  // The generator and the validator

  // The entry before the block is that of the round before the block's first,
  // and the block's rounds follow one another.
  ghost predicate Follows(o: Oracle, b: Beacon, rounds: seq<nat>, prev: Entry) {
    && (rounds != [] ==> rounds[0] >= 1 && prev.data == o.truth(b, rounds[0] - 1).data)
    && forall i | 0 <= i < |rounds| :: rounds[i] == rounds[0] + i
  }

  /** When the validator takes what the generator made: at a fork of a chained
  beacon, when there is a round before the block's round to start from; on an
  unchained beacon, when every epoch has a round; on a chained one, when the
  rounds continue those of the chain.  A chained beacon that has no entry yet is
  not checked. */
  ghost predicate Agree(o: Oracle, bs: seq<BeaconPoint>, nv: int, epoch: int, parentEpoch: int, prev: Entry)
    requires bs != []
  {
    var b := BeaconAt(bs, epoch);
    var max := MaxBeaconRound(b, nv, epoch);
    var rounds := NeededRounds(bs, nv, epoch, parentEpoch, prev);
    if ForksAt(bs, parentEpoch, epoch) then max >= 2
    else if max == prev.round || (b.chained && prev.round == 0) then true
    else if b.chained then Follows(o, b, rounds, prev)
    else forall i | 0 <= i < |rounds| :: rounds[i] >= 1
  }

  lemma FetchedIsPublished(o: Oracle, b: Beacon, rounds: seq<nat>, es: seq<Entry>, i: nat)
    requires Honest(o) && Fetched(o, b, rounds, es) && i < |rounds| && rounds[i] < TWO_TO_64
    ensures 1 <= es[i].round < TWO_TO_64 && es[i] == o.truth(b, es[i].round)
    ensures rounds[i] > 0 ==> es[i].round == rounds[i]
  {
    assert Answers(o, b, rounds[i]);
    assert o.get(b, rounds[i]) == Some(es[i]);
  }

  lemma ForkEntries(o: Oracle, b: Beacon, max: nat, es: seq<Entry>)
    requires Honest(o) && b.chained && max < TWO_TO_64 && Fetched(o, b, [U64(max as int - 1), max], es)
    ensures max >= 2 ==> o.verify(b, es[1], es[0].data)
    ensures Strict(o) && o.verify(b, es[1], es[0].data) ==> max >= 2
  {
    FetchedIsPublished(o, b, [U64(max as int - 1), max], es, 0);
    FetchedIsPublished(o, b, [U64(max as int - 1), max], es, 1);
  }

  lemma UnchainedEntries(o: Oracle, b: Beacon, rounds: seq<nat>, es: seq<Entry>, prev: Entry)
    requires Honest(o) && !b.chained && Fetched(o, b, rounds, es)
    requires forall i | 0 <= i < |rounds| :: rounds[i] < TWO_TO_64
    ensures (forall i | 0 <= i < |rounds| :: es[i].round == rounds[i]) <==>
            forall i | 0 <= i < |rounds| :: rounds[i] >= 1
    ensures Chained(o, b, es, prev)
  {
    forall i | 0 <= i < |rounds|
      ensures es[i].round == rounds[i] <==> rounds[i] >= 1
      ensures Verified(o, b, es, prev, i)
    {
      FetchedIsPublished(o, b, rounds, es, i);
    }
  }

  lemma FollowsIsChained(o: Oracle, b: Beacon, rounds: seq<nat>, es: seq<Entry>, prev: Entry)
    requires Honest(o) && |es| == |rounds| && Follows(o, b, rounds, prev)
    requires forall i | 0 <= i < |rounds| :: es[i] == o.truth(b, rounds[i])
    ensures Chained(o, b, es, prev)
  {
    forall i | 0 <= i < |es| ensures Verified(o, b, es, prev, i) {
      assert Precedes(o, b, Before(es, prev, i), rounds[i]);
    }
  }

  // An accepted entry and the one before it have consecutive rounds.
  lemma VerifiedIsNext(o: Oracle, b: Beacon, r: nat, k: nat)
    requires Strict(o) && b.chained && o.verify(b, o.truth(b, k), o.truth(b, r).data)
    ensures k == r + 1
  {
    assert Precedes(o, b, o.truth(b, r).data, k);
  }

  lemma {:induction false} ChainedIsFollows(o: Oracle, b: Beacon, rounds: seq<nat>, es: seq<Entry>, prev: Entry, i: nat)
    requires Strict(o) && b.chained && |es| == |rounds| && Chained(o, b, es, prev) && i < |rounds|
    requires forall k | 0 <= k < |rounds| :: es[k] == o.truth(b, rounds[k])
    ensures rounds[i] == rounds[0] + i
  {
    if i > 0 {
      ChainedIsFollows(o, b, rounds, es, prev, i - 1);
      assert Verified(o, b, es, prev, i);
      VerifiedIsNext(o, b, rounds[i - 1], rounds[i]);
    }
  }

  lemma ChainedEntries(o: Oracle, b: Beacon, rounds: seq<nat>, es: seq<Entry>, prev: Entry)
    requires Honest(o) && b.chained && Fetched(o, b, rounds, es)
    requires forall i | 0 <= i < |rounds| :: 1 <= rounds[i] < TWO_TO_64
    ensures forall i | 0 <= i < |rounds| :: es[i].round == rounds[i]
    ensures Follows(o, b, rounds, prev) ==> Chained(o, b, es, prev)
    ensures Strict(o) && Chained(o, b, es, prev) ==> Follows(o, b, rounds, prev)
  {
    forall i | 0 <= i < |rounds| ensures es[i].round == rounds[i] && es[i] == o.truth(b, rounds[i]) {
      FetchedIsPublished(o, b, rounds, es, i);
    }
    if Follows(o, b, rounds, prev) {
      FollowsIsChained(o, b, rounds, es, prev);
    }
    if Strict(o) && Chained(o, b, es, prev) {
      forall i | 0 <= i < |rounds| ensures rounds[i] == rounds[0] + i { ChainedIsFollows(o, b, rounds, es, prev, i); }
      assert rounds != [] ==> Verified(o, b, es, prev, 0) && Precedes(o, b, prev.data, rounds[0]);
    }
  }

  lemma RoundFits(b: Beacon, nv: int, e: int)
    ensures MaxBeaconRound(b, nv, e) < TWO_TO_64
  {
    var x := U64(U64(LatestTime(b, e)) - b.drandGenTime);
    DivMonotone(x, x, b.interval);
  }

  // Outside a fork the generator asks for one round an epoch.
  lemma NeededRound(bs: seq<BeaconPoint>, nv: int, epoch: int, parentEpoch: int, prev: Entry)
    requires bs != [] && parentEpoch < epoch && !ForksAt(bs, parentEpoch, epoch)
    requires MaxBeaconRound(BeaconAt(bs, epoch), nv, epoch) != prev.round
    ensures var rounds := NeededRounds(bs, nv, epoch, parentEpoch, prev);
            && |rounds| == epoch - parentEpoch
            && (forall i | 0 <= i < |rounds| ::
                  rounds[i] == MaxBeaconRound(BeaconAt(bs, epoch), nv, parentEpoch + i + 1) && rounds[i] < TWO_TO_64)
  {
    var rounds := NeededRounds(bs, nv, epoch, parentEpoch, prev);
    forall i | 0 <= i < |rounds| ensures rounds[i] < TWO_TO_64 {
      RoundFits(BeaconAt(bs, epoch), nv, parentEpoch + i + 1);
    }
  }

  // Outside a fork, every epoch of a chained beacon has a round.
  ghost predicate Counted(bs: seq<BeaconPoint>, nv: int, epoch: int, parentEpoch: int, prev: Entry)
    requires bs != []
  {
    BeaconAt(bs, epoch).chained && !ForksAt(bs, parentEpoch, epoch) ==>
      forall r | r in NeededRounds(bs, nv, epoch, parentEpoch, prev) :: r >= 1
  }

  lemma GeneratedAtFork(o: Oracle, bs: seq<BeaconPoint>, nv: int, epoch: int, parentEpoch: int, prev: Entry,
                        es: seq<Entry>)
    requires Honest(o) && bs != [] && parentEpoch < epoch
    requires Fetched(o, BeaconAt(bs, epoch), NeededRounds(bs, nv, epoch, parentEpoch, prev), es)
    requires ForksAt(bs, parentEpoch, epoch)
    ensures Agree(o, bs, nv, epoch, parentEpoch, prev) ==> Acceptable(o, bs, nv, epoch, parentEpoch, prev, es)
    ensures Strict(o) && Counted(bs, nv, epoch, parentEpoch, prev)
            && Acceptable(o, bs, nv, epoch, parentEpoch, prev, es) ==>
              Agree(o, bs, nv, epoch, parentEpoch, prev)
  {
    RoundFits(BeaconAt(bs, epoch), nv, epoch);
    ForkEntries(o, BeaconAt(bs, epoch), MaxBeaconRound(BeaconAt(bs, epoch), nv, epoch), es);
  }

  lemma GeneratedChained(o: Oracle, bs: seq<BeaconPoint>, nv: int, epoch: int, parentEpoch: int, prev: Entry,
                         es: seq<Entry>)
    requires Honest(o) && bs != [] && parentEpoch < epoch
    requires Fetched(o, BeaconAt(bs, epoch), NeededRounds(bs, nv, epoch, parentEpoch, prev), es)
    requires BeaconAt(bs, epoch).chained && !ForksAt(bs, parentEpoch, epoch)
    requires MaxBeaconRound(BeaconAt(bs, epoch), nv, epoch) != prev.round
    ensures Agree(o, bs, nv, epoch, parentEpoch, prev) ==> Acceptable(o, bs, nv, epoch, parentEpoch, prev, es)
    ensures Strict(o) && Counted(bs, nv, epoch, parentEpoch, prev)
            && Acceptable(o, bs, nv, epoch, parentEpoch, prev, es) ==>
              Agree(o, bs, nv, epoch, parentEpoch, prev)
  {
    var rounds := NeededRounds(bs, nv, epoch, parentEpoch, prev);
    NeededRound(bs, nv, epoch, parentEpoch, prev);
    var b := BeaconAt(bs, epoch);
    assert rounds[|rounds| - 1] == MaxBeaconRound(b, nv, epoch);
    assert Agree(o, bs, nv, epoch, parentEpoch, prev) <==> prev.round == 0 || Follows(o, b, rounds, prev);
    if prev.round != 0 && (Counted(bs, nv, epoch, parentEpoch, prev) || Follows(o, b, rounds, prev)) {
      forall i | 0 <= i < |rounds| ensures rounds[i] >= 1 { assert rounds[i] in rounds; }
      ChainedEntries(o, b, rounds, es, prev);
    }
  }

  lemma GeneratedUnchained(o: Oracle, bs: seq<BeaconPoint>, nv: int, epoch: int, parentEpoch: int, prev: Entry,
                           es: seq<Entry>)
    requires Honest(o) && bs != [] && parentEpoch < epoch
    requires Fetched(o, BeaconAt(bs, epoch), NeededRounds(bs, nv, epoch, parentEpoch, prev), es)
    requires !BeaconAt(bs, epoch).chained && !ForksAt(bs, parentEpoch, epoch)
    requires MaxBeaconRound(BeaconAt(bs, epoch), nv, epoch) != prev.round
    ensures Agree(o, bs, nv, epoch, parentEpoch, prev) ==> Acceptable(o, bs, nv, epoch, parentEpoch, prev, es)
    ensures Strict(o) && Counted(bs, nv, epoch, parentEpoch, prev)
            && Acceptable(o, bs, nv, epoch, parentEpoch, prev, es) ==>
              Agree(o, bs, nv, epoch, parentEpoch, prev)
  {
    var rounds := NeededRounds(bs, nv, epoch, parentEpoch, prev);
    NeededRound(bs, nv, epoch, parentEpoch, prev);
    assert rounds[|rounds| - 1] == MaxBeaconRound(BeaconAt(bs, epoch), nv, epoch);
    UnchainedEntries(o, BeaconAt(bs, epoch), rounds, es, prev);
  }

  /** Generator and validator agree: what the generator makes for any parent and
  child epoch is accepted, and with a beacon network whose data never repeat it is
  accepted only then. */
  lemma GeneratedAccepted(o: Oracle, bs: seq<BeaconPoint>, nv: int, epoch: int, parentEpoch: int, prev: Entry,
                          es: seq<Entry>)
    requires Honest(o) && bs != [] && parentEpoch < epoch
    requires Fetched(o, BeaconAt(bs, epoch), NeededRounds(bs, nv, epoch, parentEpoch, prev), es)
    ensures Agree(o, bs, nv, epoch, parentEpoch, prev) ==> Acceptable(o, bs, nv, epoch, parentEpoch, prev, es)
    ensures Strict(o) && Counted(bs, nv, epoch, parentEpoch, prev)
            && Acceptable(o, bs, nv, epoch, parentEpoch, prev, es) ==>
              Agree(o, bs, nv, epoch, parentEpoch, prev)
  {
    if ForksAt(bs, parentEpoch, epoch) {
      GeneratedAtFork(o, bs, nv, epoch, parentEpoch, prev, es);
    } else if MaxBeaconRound(BeaconAt(bs, epoch), nv, epoch) != prev.round {
      if BeaconAt(bs, epoch).chained {
        GeneratedChained(o, bs, nv, epoch, parentEpoch, prev, es);
      } else {
        GeneratedUnchained(o, bs, nv, epoch, parentEpoch, prev, es);
      }
    }
  }

  // From version 16 on every epoch has a round, but for a single time that wraps round
  // with a beacon of period one that started at time zero.
  lemma EveryEpochHasRound(b: Beacon, nv: int, e: int)
    requires nv > VERSION_15
    ensures MaxBeaconRound(b, nv, e) >= 1 <==>
              !(b.interval == 1 && b.drandGenTime == 0 && U64(LatestTime(b, e)) == TWO_TO_64 - 1)
  {
    var latest := U64(LatestTime(b, e));
    if latest >= b.drandGenTime {
      var x := latest - b.drandGenTime;
      var q := x / b.interval;
      assert x == q * b.interval + x % b.interval;
      if b.interval > 1 { MulMonotone(2, b.interval, q); }
    }
  }

  /** A chained beacon as fast as the chain meets the condition, through null
  rounds, when the entry before the block is the one of the parent's epoch. */
  lemma SteadyBeaconAgrees(o: Oracle, bs: seq<BeaconPoint>, nv: int, epoch: int, parentEpoch: int, prev: Entry)
    requires Honest(o) && bs != [] && parentEpoch < epoch && !ForksAt(bs, parentEpoch, epoch)
    requires var b := BeaconAt(bs, epoch);
             && b.chained && b.interval == b.filRoundTime && PastGenesis(b, parentEpoch) && PastGenesis(b, epoch)
             && prev == o.truth(b, MaxBeaconRound(b, nv, parentEpoch))
    ensures Agree(o, bs, nv, epoch, parentEpoch, prev)
    ensures forall r | r in NeededRounds(bs, nv, epoch, parentEpoch, prev) :: r >= 1
  {
    var b := BeaconAt(bs, epoch);
    var rounds := NeededRounds(bs, nv, epoch, parentEpoch, prev);
    RoundsRise(b, nv, parentEpoch, epoch);
    NeededRound(bs, nv, epoch, parentEpoch, prev);
    forall i | 0 <= i < |rounds| ensures rounds[i] == prev.round + 1 + i {
      SteadyRounds(b, nv, parentEpoch, i + 1, epoch);
    }
  }

  lemma {:induction false} SteadyRounds(b: Beacon, nv: int, e: int, n: nat, last: int)
    requires b.interval == b.filRoundTime && e + n <= last && PastGenesis(b, e) && PastGenesis(b, last)
    ensures MaxBeaconRound(b, nv, e + n) == MaxBeaconRound(b, nv, e) + n
  {
    if n > 0 {
      SteadyRounds(b, nv, e, n - 1, last);
      PastBetween(b, e, e + n - 1, last);
      PastBetween(b, e, e + n, last);
      RoundsRise(b, nv, e + n - 1, e + n);
    }
  }

  /** The condition fails where version 16 starts to count rounds from one: the
  first block then skips a round of a chained beacon, and the validator rejects what
  the generator makes. */
  lemma Version16SkipsRound(o: Oracle, bs: seq<BeaconPoint>, nv: int, epoch: int, parentEpoch: int, prev: Entry,
                            es: seq<Entry>)
    requires Strict(o) && bs != [] && parentEpoch < epoch && !ForksAt(bs, parentEpoch, epoch) && nv > VERSION_15
    requires var b := BeaconAt(bs, epoch);
             && b.chained && b.interval == b.filRoundTime && PastGenesis(b, parentEpoch) && PastGenesis(b, epoch)
             && prev == o.truth(b, MaxBeaconRound(b, VERSION_15, parentEpoch)) && prev.round != 0
    requires Fetched(o, BeaconAt(bs, epoch), NeededRounds(bs, nv, epoch, parentEpoch, prev), es)
    ensures !Agree(o, bs, nv, epoch, parentEpoch, prev)
    ensures !Acceptable(o, bs, nv, epoch, parentEpoch, prev, es)
  {
    RoundSkipped(o, bs, nv, epoch, parentEpoch, prev);
    RoundsCounted(bs, nv, epoch, parentEpoch, prev);
    GeneratedAccepted(o, bs, nv, epoch, parentEpoch, prev, es);
  }

  lemma RoundSkipped(o: Oracle, bs: seq<BeaconPoint>, nv: int, epoch: int, parentEpoch: int, prev: Entry)
    requires Strict(o) && bs != [] && parentEpoch < epoch && !ForksAt(bs, parentEpoch, epoch) && nv > VERSION_15
    requires var b := BeaconAt(bs, epoch);
             && b.chained && b.interval == b.filRoundTime && PastGenesis(b, parentEpoch) && PastGenesis(b, epoch)
             && prev == o.truth(b, MaxBeaconRound(b, VERSION_15, parentEpoch)) && prev.round != 0
    ensures !Agree(o, bs, nv, epoch, parentEpoch, prev)
  {
    var b := BeaconAt(bs, epoch);
    var rounds := NeededRounds(bs, nv, epoch, parentEpoch, prev);
    RoundPastGenesis(b, VERSION_15, parentEpoch);
    RoundPastGenesis(b, nv, parentEpoch);
    RoundsRise(b, nv, parentEpoch, epoch);
    NeededRound(bs, nv, epoch, parentEpoch, prev);
    SteadyRounds(b, nv, parentEpoch, 1, epoch);
    assert rounds[0] == prev.round + 2;
  }

  // Past the beacon's genesis version 16 counts no round zero.
  lemma RoundsCounted(bs: seq<BeaconPoint>, nv: int, epoch: int, parentEpoch: int, prev: Entry)
    requires bs != [] && parentEpoch < epoch && nv > VERSION_15
    requires PastGenesis(BeaconAt(bs, epoch), parentEpoch) && PastGenesis(BeaconAt(bs, epoch), epoch)
    ensures Counted(bs, nv, epoch, parentEpoch, prev)
  {
    var b := BeaconAt(bs, epoch);
    forall e | parentEpoch < e <= epoch ensures MaxBeaconRound(b, nv, e) >= 1 {
      PastBetween(b, parentEpoch, e, epoch);
      RoundPastGenesis(b, nv, e);
      DivMonotone(0, LatestTime(b, e) - b.drandGenTime, b.interval);
    }
  }

  // ---------------------------------------------------------------------
  // The extractor

  // The last entry on the chain, looking back at most n tipsets.
  function LatestEntry(s: Store, entries: TipSet -> seq<Entry>, t: TipSet, n: nat): Option<Entry>
    requires Has(s, t)
    decreases n
  {
    if n == 0 then None
    else if entries(t) != [] then Some(entries(t)[|entries(t)| - 1])
    else if t.height == 0 then None
    else LatestEntry(s, entries, Parent(s, t), n - 1)
  }

  // The k-th tipset of the chain is the first one with an entry, and this is its last.
  ghost predicate LastAt(s: Store, t: TipSet, entries: TipSet -> seq<Entry>, n: nat, e: Entry, k: nat)
    requires Has(s, t)
  {
    var chain := Chain(s, t);
    && k < n && k < |chain| && entries(chain[k]) != [] && e == entries(chain[k])[|entries(chain[k])| - 1]
    && forall j | 0 <= j < k :: entries(chain[j]) == []
  }

  ghost predicate IsNearestLast(s: Store, t: TipSet, entries: TipSet -> seq<Entry>, n: nat, e: Entry)
    requires Has(s, t)
  {
    exists k: nat :: LastAt(s, t, entries, n, e, k)
  }

  /** The nearest tipset with an entry among the first n of the chain gives its last
  one; if none has any there is nothing. */
  lemma {:induction false} LatestIsNearest(s: Store, entries: TipSet -> seq<Entry>, t: TipSet, n: nat)
    requires Has(s, t)
    ensures match LatestEntry(s, entries, t, n)
            case Some(e) => IsNearestLast(s, t, entries, n, e)
            case None => forall k | 0 <= k < n && k < |Chain(s, t)| :: entries(Chain(s, t)[k]) == []
    decreases n
  {
    if n > 0 && entries(t) != [] {
      var last := entries(t)[|entries(t)| - 1];
      assert LastAt(s, t, entries, n, last, 0);
    } else if n > 0 && t.height > 0 {
      var p := Parent(s, t);
      LatestIsNearest(s, entries, p, n - 1);
      assert Chain(s, t) == [t] + Chain(s, p);
      if e :| LatestEntry(s, entries, p, n - 1) == Some(e) {
        var k: nat :| LastAt(s, p, entries, n - 1, e, k);
        assert LastAt(s, t, entries, n, e, k + 1);
      }
    }
  }

  const LOOKBACK: nat := 20

  method GetLatestBeaconEntry(s: Store, entries: TipSet -> seq<Entry>, ts: TipSet) returns (r: Option<Entry>)
    requires Has(s, ts)
    ensures r == LatestEntry(s, entries, ts, LOOKBACK)
  {
    var cur := ts;
    for i := 0 to LOOKBACK
      invariant Has(s, cur) && LatestEntry(s, entries, ts, LOOKBACK) == LatestEntry(s, entries, cur, LOOKBACK - i)
    {
      var cbe := entries(cur);
      if |cbe| > 0 { return Some(cbe[|cbe| - 1]); }
      if cur.height == 0 { return None; }
      cur := Parent(s, cur);
    }
    return None;
  }

  // The first of a block's entries with a round.
  function Find(es: seq<Entry>, round: nat): Option<Entry> {
    if es == [] then None else if es[0].round == round then Some(es[0]) else Find(es[1..], round)
  }

  lemma {:induction false} FindFirst(es: seq<Entry>, round: nat, i: nat)
    requires i < |es| && es[i].round == round && forall k | 0 <= k < i :: es[k].round != round
    ensures Find(es, round) == Some(es[i])
  {
    if i > 0 { FindFirst(es[1..], round, i - 1); }
  }

  function SearchBack(s: Store, entries: TipSet -> seq<Entry>, t: TipSet, round: nat, n: nat): Option<Entry>
    requires Has(s, t)
    decreases n
  {
    if n == 0 then None
    else if Find(entries(t), round).Some? then Find(entries(t), round)
    else match GetTipSet(s, t.parent)
      case None => None
      case Some(p) => SearchBack(s, entries, p, round, n - 1)
  }

  ghost predicate HasRound(es: seq<Entry>, round: nat) {
    exists i :: 0 <= i < |es| && es[i].round == round
  }

  lemma {:induction false} FindMeaning(es: seq<Entry>, round: nat)
    ensures Find(es, round).Some? <==> HasRound(es, round)
    ensures Find(es, round).Some? ==> Find(es, round).value in es && Find(es, round).value.round == round
  {
    if es != [] && es[0].round != round {
      FindMeaning(es[1..], round);
      if i :| 0 <= i < |es| && es[i].round == round { assert es[1..][i - 1].round == round; }
    }
  }

  ghost predicate RoundAt(s: Store, t: TipSet, entries: TipSet -> seq<Entry>, n: nat, round: nat, e: Entry, k: nat)
    requires Has(s, t)
  {
    var chain := Chain(s, t);
    && k < n && k < |chain| && e in entries(chain[k]) && e.round == round
    && forall j | 0 <= j < k :: !HasRound(entries(chain[j]), round)
  }

  ghost predicate IsNearestRound(s: Store, t: TipSet, entries: TipSet -> seq<Entry>, n: nat, round: nat, e: Entry)
    requires Has(s, t)
  {
    exists k: nat :: RoundAt(s, t, entries, n, round, e, k)
  }

  /** The search back gives an entry of the round from the nearest of the first n
  tipsets that has one; if none has, nothing. */
  lemma {:induction false} SearchIsNearest(s: Store, entries: TipSet -> seq<Entry>, t: TipSet, round: nat, n: nat)
    requires Has(s, t)
    ensures match SearchBack(s, entries, t, round, n)
            case Some(e) => IsNearestRound(s, t, entries, n, round, e)
            case None => forall k | 0 <= k < n && k < |Chain(s, t)| :: !HasRound(entries(Chain(s, t)[k]), round)
    decreases n
  {
    FindMeaning(entries(t), round);
    assert Linked(s, t);
    if n > 0 && HasRound(entries(t), round) {
      var found := Find(entries(t), round).value;
      assert RoundAt(s, t, entries, n, round, found, 0);
    } else if n > 0 && t.height > 0 {
      var p := Parent(s, t);
      SearchIsNearest(s, entries, p, round, n - 1);
      assert Chain(s, t) == [t] + Chain(s, p);
      if e :| SearchBack(s, entries, p, round, n - 1) == Some(e) {
        var k: nat :| RoundAt(s, p, entries, n - 1, round, e, k);
        assert RoundAt(s, t, entries, n, round, e, k + 1);
      }
    }
  }

  method ExtractBeaconEntryForEpoch(index: ChainIndex, head: TipSet, entries: TipSet -> seq<Entry>,
                                    bs: seq<BeaconPoint>, version: int -> int, epoch: int)
    returns (r: Option<Entry>)
    requires index.Valid() && Has(index.store, head) && bs != []
    modifies index
    ensures index.Valid()
    ensures epoch > head.height ==> r.None?
    ensures epoch <= head.height ==>
              var first := AtOrAbove(index.store, head, if epoch < 0 then 0 else epoch);
              r == SearchBack(index.store, entries, first, MaxBeaconRound(BeaconAt(bs, epoch), version(epoch), epoch),
                              LOOKBACK)
  {
    if epoch > head.height { return None; }
    var searchHeight := if epoch < 0 then 0 else epoch;
    var found := index.StoreGetTipSetByHeight(Some(head), head, searchHeight, false);
    var b := BeaconForEpoch(bs, epoch);
    var round := MaxBeaconRound(b, version(epoch), epoch);
    var randTS := found.value;
    ghost var first := AtOrAbove(index.store, head, searchHeight);
    AtOrAboveIsLowest(index.store, head, searchHeight);
    LowestUnique(index.store, head, searchHeight, randTS, first);
    for i := 0 to LOOKBACK
      invariant index.Valid() && Has(index.store, randTS)
      invariant SearchBack(index.store, entries, first, round, LOOKBACK)
                == SearchBack(index.store, entries, randTS, round, LOOKBACK - i)
    {
      var e := FindEntry(entries(randTS), round);
      if e.Some? { return e; }
      var next := GetTipSet(index.store, randTS.parent);
      if next.None? { return None; }
      randTS := next.value;
    }
    return None;
  }

  method FindEntry(es: seq<Entry>, round: nat) returns (r: Option<Entry>)
    ensures r == Find(es, round)
  {
    for i := 0 to |es|
      invariant Find(es, round) == Find(es[i..], round)
    {
      if es[i].round == round { return Some(es[i]); }
      assert es[i..][1..] == es[i + 1..];
    }
    return None;
  }

  // ---------------------------------------------------------------------
  // Every epoch of an accepted chain has its entry

  const MAX_ENTRIES: nat := 8192

  datatype Network = Network(o: Oracle, bs: seq<BeaconPoint>, version: int -> int, entries: TipSet -> seq<Entry>,
                             b: Beacon)

  // Between two heights the chain uses one unchained beacon past its genesis.
  ghost predicate OneBeacon(c: Network, lo: nat, hi: nat) {
    && c.bs != [] && !c.b.chained && c.b.interval <= c.b.filRoundTime
    && PastGenesis(c.b, lo + 1) && PastGenesis(c.b, hi + MAX_ENTRIES)
    && forall e | lo < e <= hi :: BeaconAt(c.bs, e) == c.b && c.version(e) > VERSION_15
  }

  function EpochRound(c: Network, e: int): nat {
    MaxBeaconRound(c.b, VERSION_15 + 1, e)
  }

  lemma VersionsCountAlike(c: Network, nv: int, e: int)
    requires nv > VERSION_15
    ensures MaxBeaconRound(c.b, nv, e) == EpochRound(c, e)
  {
  }

  // The tipset's first block was accepted on top of the latest entry below it.
  ghost predicate Accepted(c: Network, s: Store, x: TipSet)
    requires Has(s, x)
  {
    && x.height > 0 && c.bs != [] && |c.entries(x)| <= MAX_ENTRIES
    && var prev := LatestEntry(s, c.entries, Parent(s, x), LOOKBACK);
    && prev.Some?
    && Acceptable(c.o, c.bs, c.version(x.height), x.height, Parent(s, x).height, prev.value, c.entries(x))
  }

  ghost predicate AcceptedAbove(c: Network, s: Store, base: TipSet, t: TipSet)
    requires Has(s, t)
  {
    && OnChain(s, base, t) && Has(s, base)
    && LatestEntry(s, c.entries, base, LOOKBACK).Some?
    && LatestEntry(s, c.entries, base, LOOKBACK).value.round < EpochRound(c, base.height + 1)
    && forall x | OnChain(s, x, t) && x.height > base.height :: Has(s, x) && Accepted(c, s, x)
  }

  ghost predicate HasEveryRound(c: Network, s: Store, x: TipSet)
    requires Has(s, x) && x.height > 0
  {
    && |c.entries(x)| == x.height - Parent(s, x).height
    && forall i | 0 <= i < |c.entries(x)| :: c.entries(x)[i].round == EpochRound(c, Parent(s, x).height + i + 1)
  }

  lemma RoundsRiseBetween(c: Network, lo: nat, hi: nat, e: int, e': int)
    requires OneBeacon(c, lo, hi) && lo < e < e' <= hi
    ensures EpochRound(c, e) < EpochRound(c, e')
  {
    PastBetween(c.b, lo + 1, e, hi + MAX_ENTRIES);
    PastBetween(c.b, lo + 1, e', hi + MAX_ENTRIES);
    RoundsRise(c.b, VERSION_15 + 1, e, e');
  }

  lemma AcceptedHasEveryRound(c: Network, s: Store, lo: nat, hi: nat, x: TipSet)
    requires OneBeacon(c, lo, hi) && Has(s, x) && lo < x.height <= hi && Accepted(c, s, x) && Parent(s, x).height >= lo
    requires LatestEntry(s, c.entries, Parent(s, x), LOOKBACK).value.round < EpochRound(c, x.height)
    ensures HasEveryRound(c, s, x)
  {
    var p := Parent(s, x).height;
    var nv := c.version(x.height);
    var es := c.entries(x);
    assert BeaconAt(c.bs, x.height) == c.b && nv > VERSION_15;
    VersionsCountAlike(c, nv, x.height);
    PastBetween(c.b, lo + 1, p + 1, hi + MAX_ENTRIES);
    PastBetween(c.b, lo + 1, x.height, hi + MAX_ENTRIES);
    if es != [] { PastBetween(c.b, lo + 1, p + |es|, hi + MAX_ENTRIES); }
    UnchainedRoundsDetermined(c.o, c.bs, nv, x.height, p, LatestEntry(s, c.entries, Parent(s, x), LOOKBACK).value, es);
    forall i | 0 <= i < |es| ensures es[i].round == EpochRound(c, p + i + 1) {
      VersionsCountAlike(c, nv, p + i + 1);
    }
  }

  /** Along a chain of accepted blocks every tipset carries one entry for each
  epoch since its parent, null rounds included. */
  lemma {:induction false} ChainHasEveryRound(c: Network, s: Store, base: TipSet, t: TipSet, x: TipSet)
    requires Has(s, t) && Has(s, x) && OneBeacon(c, base.height, t.height) && AcceptedAbove(c, s, base, t)
    requires OnChain(s, x, t) && x.height > base.height
    ensures HasEveryRound(c, s, x)
    decreases x.height
  {
    ChainBelow(s, x, t);
    var p := Parent(s, x);
    ParentAbove(s, base, x, t);
    if p == base {
      if x.height > base.height + 1 { RoundsRiseBetween(c, base.height, t.height, base.height + 1, x.height); }
    } else {
      ChainHasEveryRound(c, s, base, t, p);
      assert LatestEntry(s, c.entries, p, LOOKBACK) == Some(c.entries(p)[|c.entries(p)| - 1]);
      RoundsRiseBetween(c, base.height, t.height, p.height, x.height);
    }
    AcceptedHasEveryRound(c, s, base.height, t.height, x);
  }

  /** Hence the extractor finds the entry of every epoch, null or not, in the first
  tipset it looks at: the entry the block carries for that epoch. */
  lemma EveryEpochExtracted(c: Network, s: Store, base: TipSet, t: TipSet, epoch: nat, n: nat)
    requires Has(s, t) && OneBeacon(c, base.height, t.height) && AcceptedAbove(c, s, base, t)
    requires base.height < epoch <= t.height && n > 0
    ensures var first := AtOrAbove(s, t, epoch); var i := epoch - Parent(s, first).height - 1;
            && 0 <= i < |c.entries(first)|
            && SearchBack(s, c.entries, first, MaxBeaconRound(BeaconAt(c.bs, epoch), c.version(epoch), epoch), n)
              == Some(c.entries(first)[i])
  {
    var first := AtOrAbove(s, t, epoch);
    AtOrAboveOnChain(s, t, epoch);
    ChainBelow(s, first, t);
    ChainHasEveryRound(c, s, base, t, first);
    ParentAbove(s, base, first, t);
    VersionsCountAlike(c, c.version(epoch), epoch);
    RoundFound(c, s, base.height, t.height, first, epoch);
  }

  lemma ParentAbove(s: Store, base: TipSet, x: TipSet, t: TipSet)
    requires Has(s, t) && OnChain(s, base, t) && OnChain(s, x, t) && base.height < x.height && Has(s, x)
    ensures OnChain(s, Parent(s, x), t)
    ensures Parent(s, x) == base || Parent(s, x).height > base.height
  {
    var p := Parent(s, x);
    assert OnChain(s, p, x) by { assert Chain(s, x)[1] == p; }
    ChainIncludes(s, p, x, t);
    ChainOrdered(s, base, x, t);
    ChainBelow(s, base, p);
  }

  lemma RoundFound(c: Network, s: Store, lo: nat, hi: nat, x: TipSet, epoch: nat)
    requires OneBeacon(c, lo, hi) && Has(s, x) && x.height <= hi
    requires x.height > 0 && lo <= Parent(s, x).height < epoch <= x.height && HasEveryRound(c, s, x)
    ensures var i := epoch - Parent(s, x).height - 1;
            0 <= i < |c.entries(x)| && Find(c.entries(x), EpochRound(c, epoch)) == Some(c.entries(x)[i])
  {
    var p := Parent(s, x).height;
    var es := c.entries(x);
    var i := epoch - p - 1;
    forall k | 0 <= k < i ensures es[k].round != EpochRound(c, epoch) {
      RoundsRiseBetween(c, lo, hi, p + k + 1, epoch);
    }
    FindFirst(es, EpochRound(c, epoch), i);
  }
}
