/** Executing a chain: for every tipset the processor catches up over the null
rounds before it, running cron and offering each height to the upgrades, then
runs the messages and cron.
*/
module Execution {
  import opened Tipsets
  import opened Upgrades
  import opened Sequences

  type Root = nat

  // What the execution does to the state, in order.
  datatype Act = Migrate(height: nat) | RunMessages(epoch: nat) | RunCron(epoch: nat)

  // The virtual machine and the migrations are opaque; the machine is made for
  // an epoch and its network version.
  datatype Machine = Machine(cron: (Root, nat, int) -> Root, messages: (Root, nat, int) -> Root,
                             migrate: (Root, nat) -> Root)

  function HandleStateForks(f: Fork, m: Machine, root: Root, height: nat): Root {
    if height in f.stateMigrations && f.stateMigrations[height].hasMigration then m.migrate(root, height) else root
  }

  function Effect(f: Fork, m: Machine, root: Root, a: Act): Root {
    match a
    case Migrate(h) => HandleStateForks(f, m, root, h)
    case RunMessages(e) => m.messages(root, e, GetNetworkVersion(f, e))
    case RunCron(e) => m.cron(root, e, GetNetworkVersion(f, e))
  }

  function Effects(f: Fork, m: Machine, root: Root, acts: seq<Act>): Root {
    if acts == [] then root
    else Effect(f, m, Effects(f, m, root, acts[..|acts| - 1]), acts[|acts| - 1])
  }

  lemma EffectsNext(f: Fork, m: Machine, root: Root, acts: seq<Act>, a: Act)
    ensures Effects(f, m, root, acts + [a]) == Effect(f, m, Effects(f, m, root, acts), a)
  {
    assert (acts + [a])[..|acts|] == acts;
  }

  lemma {:induction false} EffectsConcat(f: Fork, m: Machine, root: Root, xs: seq<Act>, ys: seq<Act>)
    ensures Effects(f, m, root, xs + ys) == Effects(f, m, Effects(f, m, root, xs), ys)
  {
    if ys == [] {
      assert xs + ys == xs;
    } else {
      var n := |ys| - 1;
      assert (xs + ys)[..|xs + ys| - 1] == xs + ys[..n];
      EffectsConcat(f, m, root, xs, ys[..n]);
    }
  }

  // ---------------------------------------------------------------------
  // The reference story of a chain, epoch by epoch: offer the height just done
  // to the upgrades, run the messages if the epoch has a tipset, run cron.

  function EpochActs(tips: set<nat>, e: nat): seq<Act>
    requires e > 0
  {
    [Migrate(e - 1)] + (if e in tips then [RunMessages(e)] else []) + [RunCron(e)]
  }

  function Story(tips: set<nat>, from: nat, upto: nat): seq<Act>
    decreases upto
  {
    if upto <= from then [] else Story(tips, from, upto - 1) + EpochActs(tips, upto)
  }

  // ---------------------------------------------------------------------
  // One tipset

  // Executes a tipset; what it does is recorded in acts, act by act.
  method ApplyBlocks(f: Fork, m: Machine, pstate0: Root, parentEpoch: nat, epoch: nat)
      returns (root: Root, acts: seq<Act>)
    requires parentEpoch < epoch
    ensures root == Effects(f, m, pstate0, acts) && acts == Story({epoch}, parentEpoch, epoch)
  {
    var pstate := pstate0;
    acts := [];
    for i := parentEpoch to epoch
      invariant pstate == Effects(f, m, pstate0, acts)
      invariant i == parentEpoch ==> acts == []
      invariant i > parentEpoch ==> acts + [RunCron(i)] == Story({}, parentEpoch, i)
    {
      if i > parentEpoch {
        EffectsNext(f, m, pstate0, acts, RunCron(i));
        acts := acts + [RunCron(i)];
        pstate := m.cron(pstate, i, GetNetworkVersion(f, i));
      }
      EffectsNext(f, m, pstate0, acts, Migrate(i));
      NullRound(parentEpoch, i, acts);
      acts := acts + [Migrate(i)];
      pstate := HandleStateForks(f, m, pstate, i);
    }
    NullRounds(parentEpoch, epoch, acts);
    EffectsNext(f, m, pstate0, acts, RunMessages(epoch));
    acts := acts + [RunMessages(epoch)];
    root := m.messages(pstate, epoch, GetNetworkVersion(f, epoch));
    EffectsNext(f, m, pstate0, acts, RunCron(epoch));
    acts := acts + [RunCron(epoch)];
    root := m.cron(root, epoch, GetNetworkVersion(f, epoch));
  }

  lemma NullRound(parentEpoch: nat, i: nat, acts: seq<Act>)
    requires parentEpoch <= i && acts == Story({}, parentEpoch, i)
    ensures (acts + [Migrate(i)]) + [RunCron(i + 1)] == Story({}, parentEpoch, i + 1)
  {
    ConcatAssociates(acts, [Migrate(i)], [RunCron(i + 1)]);
  }

  lemma NullRounds(parentEpoch: nat, epoch: nat, acts: seq<Act>)
    requires parentEpoch < epoch && acts + [RunCron(epoch)] == Story({}, parentEpoch, epoch)
    ensures acts + [RunMessages(epoch)] + [RunCron(epoch)] == Story({epoch}, parentEpoch, epoch)
  {
    SameTips({}, {epoch}, parentEpoch, epoch - 1);
    var before := Story({}, parentEpoch, epoch - 1);
    assert acts + [RunCron(epoch)] == (before + [Migrate(epoch - 1)]) + [RunCron(epoch)];
    assert acts == (acts + [RunCron(epoch)])[..|acts|] == before + [Migrate(epoch - 1)];
  }

  // The story depends on the tipsets of its own epochs only.
  lemma {:induction false} SameTips(tips: set<nat>, tips': set<nat>, from: nat, upto: nat)
    requires forall e | from < e <= upto :: e in tips <==> e in tips'
    ensures Story(tips, from, upto) == Story(tips', from, upto)
    decreases upto
  {
    if upto > from { SameTips(tips, tips', from, upto - 1); }
  }

  lemma {:induction false} StoryConcat(tips: set<nat>, from: nat, mid: nat, upto: nat)
    requires from <= mid <= upto
    ensures Story(tips, from, mid) + Story(tips, mid, upto) == Story(tips, from, upto)
    decreases upto
  {
    if upto > mid {
      StoryConcat(tips, from, mid, upto - 1);
      assert Story(tips, from, mid) + (Story(tips, mid, upto - 1) + EpochActs(tips, upto))
          == (Story(tips, from, mid) + Story(tips, mid, upto - 1)) + EpochActs(tips, upto);
    }
  }

  // ---------------------------------------------------------------------
  // A whole chain

  ghost function Heights(s: Store, t: TipSet): set<nat>
    requires Has(s, t)
  {
    set x | x in Chain(s, t) :: x.height
  }

  /** Executing the tipsets of a chain from genesis to t does what the reference story
  of its epochs tells, act by act, whatever the null rounds: cron runs exactly once
  for each epoch, and each height is offered to the upgrades exactly once, in order. */
  method ExecuteChain(s: Store, t: TipSet, f: Fork, m: Machine, genesisRoot: Root)
      returns (root: Root, acts: seq<Act>)
    requires Has(s, t)
    ensures root == Effects(f, m, genesisRoot, acts) && acts == Story(Heights(s, t), 0, t.height)
    ensures Crons(acts) == UpTo(1, t.height) && Migrated(acts) == UpTo(0, t.height)
    decreases t.height
  {
    EveryEpochOnce(Heights(s, t), t.height);
    if t.height == 0 { return genesisRoot, []; }
    assert Linked(s, t);
    var pts := GetTipSet(s, t.parent).value;
    var parentRoot, before := ExecuteChain(s, pts, f, m, genesisRoot);
    root, acts := ApplyBlocks(f, m, parentRoot, pts.height, t.height);
    EffectsConcat(f, m, genesisRoot, before, acts);
    ChainStory(s, t);
    acts := before + acts;
  }

  lemma ChainStory(s: Store, t: TipSet)
    requires Has(s, t) && t.height > 0
    ensures Story(Heights(s, Parent(s, t)), 0, Parent(s, t).height) + Story({t.height}, Parent(s, t).height, t.height)
            == Story(Heights(s, t), 0, t.height)
  {
    var p := Parent(s, t);
    assert Chain(s, t) == [t] + Chain(s, p);
    forall x | x in Chain(s, p) ensures x.height <= p.height { ChainBelow(s, x, p); }
    assert Heights(s, t) == Heights(s, p) + {t.height};
    SameTips(Heights(s, p), Heights(s, t), 0, p.height);
    SameTips({t.height}, Heights(s, t), p.height, t.height);
    StoryConcat(Heights(s, t), 0, p.height, t.height);
  }

  // ---------------------------------------------------------------------
  // What the story contains

  function UpTo(n: nat, k: nat): seq<nat> {
    seq(k, i => n + i)
  }

  function Migrated(acts: seq<Act>): seq<nat> {
    if acts == [] then []
    else Migrated(acts[..|acts| - 1]) + if acts[|acts| - 1].Migrate? then [acts[|acts| - 1].height] else []
  }

  function Crons(acts: seq<Act>): seq<nat> {
    if acts == [] then []
    else Crons(acts[..|acts| - 1]) + if acts[|acts| - 1].RunCron? then [acts[|acts| - 1].epoch] else []
  }

  lemma {:induction false} Projections(xs: seq<Act>, ys: seq<Act>)
    ensures Migrated(xs + ys) == Migrated(xs) + Migrated(ys) && Crons(xs + ys) == Crons(xs) + Crons(ys)
  {
    if ys == [] {
      assert xs + ys == xs;
    } else {
      var n := |ys| - 1;
      assert (xs + ys)[..|xs + ys| - 1] == xs + ys[..n];
      Projections(xs, ys[..n]);
    }
  }

  lemma EpochProjections(tips: set<nat>, e: nat)
    requires e > 0
    ensures Migrated(EpochActs(tips, e)) == [e - 1] && Crons(EpochActs(tips, e)) == [e]
  {
    var last, first := [RunCron(e)], [Migrate(e - 1)];
    var mid := if e in tips then [RunMessages(e)] else [];
    Projections(first + mid, last);
    Projections(first, mid);
    assert last[..0] == [] && first[..0] == [] && (mid == [] || mid[..0] == []);
  }

  /** Cron runs exactly once for each epoch, and each height is offered to the
  upgrades exactly once, in order. */
  lemma {:induction false} EveryEpochOnce(tips: set<nat>, head: nat)
    ensures Crons(Story(tips, 0, head)) == UpTo(1, head)
    ensures Migrated(Story(tips, 0, head)) == UpTo(0, head)
  {
    if head > 0 {
      EveryEpochOnce(tips, head - 1);
      Projections(Story(tips, 0, head - 1), EpochActs(tips, head));
      EpochProjections(tips, head);
    }
  }

  /** What has been done before the messages or the cron of an epoch: exactly the
  upgrades below that epoch have been offered. */
  lemma BeforeEpoch(tips: set<nat>, e: nat)
    requires e > 0
    ensures Migrated(Story(tips, 0, e - 1) + [Migrate(e - 1)]) == UpTo(0, e)
    ensures Story(tips, 0, e - 1) + [Migrate(e - 1)] <= Story(tips, 0, e)
  {
    EveryEpochOnce(tips, e - 1);
    Projections(Story(tips, 0, e - 1), [Migrate(e - 1)]);
    assert [Migrate(e - 1)][..0] == [];
    var rest := (if e in tips then [RunMessages(e)] else []) + [RunCron(e)];
    assert Story(tips, 0, e) == (Story(tips, 0, e - 1) + [Migrate(e - 1)]) + rest;
  }

  // The version the network has reached when these heights have been offered.
  ghost function VersionReached(us: seq<Upgrade>, genesis: int, offered: seq<nat>): int {
    if offered == [] then genesis
    else
      var h := offered[|offered| - 1];
      if exists u :: u in us && u.height == h then (var u :| u in us && u.height == h; u.network)
      else VersionReached(us, genesis, offered[..|offered| - 1])
  }

  /** The network version used at an epoch is that of the upgrades offered before it. */
  lemma VersionFollowsUpgrades(f: Fork, us: seq<Upgrade>, genesis: int, tips: set<nat>, e: nat)
    requires Validate(us) && IsForkOf(f, us, genesis) && e > 0 && forall u | u in us :: u.height >= 0
    ensures GetNetworkVersion(f, e) == VersionReached(us, genesis, Migrated(Story(tips, 0, e - 1) + [Migrate(e - 1)]))
  {
    NetworkVersionIsLastUpgrade(f, us, genesis, e);
    BeforeEpoch(tips, e);
    ReachedIsLast(us, genesis, e);
  }

  lemma {:induction false} ReachedIsLast(us: seq<Upgrade>, genesis: int, e: nat)
    requires Validate(us) && forall u | u in us :: u.height >= 0
    ensures VersionReached(us, genesis, UpTo(0, e)) == VersionAfter(us, genesis, e)
  {
    if e == 0 {
      NoneFrom(us, genesis, 0, 0, |us|);
      assert us[..|us|] == us;
    } else {
      assert UpTo(0, e)[..e - 1] == UpTo(0, e - 1);
      ReachedIsLast(us, genesis, e - 1);
      OneMoreHeight(us, genesis, e - 1, |us|);
      assert us[..|us|] == us;
    }
  }

  // Raising the height by one matters only if there is an upgrade at it.
  lemma {:induction false} OneMoreHeight(us: seq<Upgrade>, genesis: int, h: nat, k: nat)
    requires Validate(us) && (forall u | u in us :: u.height >= 0) && k <= |us|
    ensures forall u | u in us[..k] && u.height == h :: VersionAfter(us[..k], genesis, h + 1) == u.network
    ensures (forall u | u in us[..k] :: u.height != h) ==>
            VersionAfter(us[..k], genesis, h + 1) == VersionAfter(us[..k], genesis, h)
  {
    if k > 0 {
      assert us[..k][..k - 1] == us[..k - 1] && us[..k] == us[..k - 1] + [us[k - 1]];
      OneMoreHeight(us, genesis, h, k - 1);
      forall j | 0 <= j < k - 1 ensures us[j].height < us[k - 1].height { HeightsRise(us, j, k - 1); }
    }
  }

  // ---------------------------------------------------------------------
  // What the acts do to the state, by the schedule alone

  // Some upgrade of this height has a migration.
  ghost predicate MigratesAt(us: seq<Upgrade>, h: int) {
    exists u :: u in us && u.height == h && u.hasMigration
  }

  /** Offering a height runs a migration exactly if an upgrade of that height has one. */
  lemma OfferedMigrates(f: Fork, us: seq<Upgrade>, genesis: int, m: Machine, root: Root, h: nat)
    requires Validate(us) && IsForkOf(f, us, genesis)
    ensures HandleStateForks(f, m, root, h) == if MigratesAt(us, h) then m.migrate(root, h) else root
  {
    if u :| u in us && u.height == h && u.hasMigration {
      var i :| 0 <= i < |us| && us[i] == u;
      forall j | 0 <= j < |us| && us[j].height == h ensures j == i {
        if i < j { HeightsRise(us, i, j); } else if j < i { HeightsRise(us, j, i); }
      }
    }
  }

  // One epoch: the migration of the height before it, then its messages if it has a
  // tipset, then cron, on a machine of the network version that the schedule gives it.
  ghost function EpochState(us: seq<Upgrade>, genesis: int, m: Machine, root: Root, tips: set<nat>, e: nat): Root
    requires e > 0
  {
    var migrated := if MigratesAt(us, e - 1) then m.migrate(root, e - 1) else root;
    var version := VersionAfter(us, genesis, e);
    m.cron(if e in tips then m.messages(migrated, e, version) else migrated, e, version)
  }

  ghost function StateAfter(us: seq<Upgrade>, genesis: int, m: Machine, root: Root, tips: set<nat>,
                            from: nat, upto: nat)
      : Root
    decreases upto
  {
    if upto <= from then root
    else EpochState(us, genesis, m, StateAfter(us, genesis, m, root, tips, from, upto - 1), tips, upto)
  }

  lemma ActsOfEpoch(f: Fork, m: Machine, root: Root, tips: set<nat>, e: nat)
    requires e > 0
    ensures var migrated, version := HandleStateForks(f, m, root, e - 1), GetNetworkVersion(f, e);
            Effects(f, m, root, EpochActs(tips, e))
            == m.cron(if e in tips then m.messages(migrated, e, version) else migrated, e, version)
  {
    OneAct(f, m, root, Migrate(e - 1));
    if e in tips {
      EffectsNext(f, m, root, [Migrate(e - 1)], RunMessages(e));
      EffectsNext(f, m, root, [Migrate(e - 1)] + [RunMessages(e)], RunCron(e));
    } else {
      assert EpochActs(tips, e) == [Migrate(e - 1)] + [RunCron(e)];
      EffectsNext(f, m, root, [Migrate(e - 1)], RunCron(e));
    }
  }

  lemma OneAct(f: Fork, m: Machine, root: Root, a: Act)
    ensures Effects(f, m, root, [a]) == Effect(f, m, root, a)
  {
    assert [a][..0] == [];
  }

  lemma EpochEffect(f: Fork, us: seq<Upgrade>, genesis: int, m: Machine, root: Root, tips: set<nat>, e: nat)
    requires Validate(us) && IsForkOf(f, us, genesis) && e > 0
    ensures Effects(f, m, root, EpochActs(tips, e)) == EpochState(us, genesis, m, root, tips, e)
  {
    ActsOfEpoch(f, m, root, tips, e);
    OfferedMigrates(f, us, genesis, m, root, e - 1);
    NetworkVersionIsLastUpgrade(f, us, genesis, e);
  }

  // Every epoch's acts do what the schedule determines.
  ghost predicate EpochsAgree(f: Fork, us: seq<Upgrade>, genesis: int, m: Machine, tips: set<nat>) {
    forall e: nat, root: Root | e > 0 :: EpochAgrees(f, us, genesis, m, tips, e, root)
  }

  ghost predicate EpochAgrees(f: Fork, us: seq<Upgrade>, genesis: int, m: Machine, tips: set<nat>, e: nat, root: Root)
    requires e > 0
  {
    Effects(f, m, root, EpochActs(tips, e)) == EpochState(us, genesis, m, root, tips, e)
  }

  lemma StoryStep(f: Fork, m: Machine, root: Root, tips: set<nat>, from: nat, upto: nat)
    requires upto > from
    ensures Effects(f, m, root, Story(tips, from, upto))
            == Effects(f, m, Effects(f, m, root, Story(tips, from, upto - 1)), EpochActs(tips, upto))
  {
    EffectsConcat(f, m, root, Story(tips, from, upto - 1), EpochActs(tips, upto));
  }

  lemma {:induction false} StoryAgrees(f: Fork, us: seq<Upgrade>, genesis: int, m: Machine, root: Root,
                                       tips: set<nat>, from: nat, upto: nat)
    requires EpochsAgree(f, us, genesis, m, tips)
    ensures Effects(f, m, root, Story(tips, from, upto)) == StateAfter(us, genesis, m, root, tips, from, upto)
    decreases upto
  {
    if upto > from {
      StoryAgrees(f, us, genesis, m, root, tips, from, upto - 1);
      StoryStep(f, m, root, tips, from, upto);
      assert EpochAgrees(f, us, genesis, m, tips, upto, StateAfter(us, genesis, m, root, tips, from, upto - 1));
    }
  }

  /** The acts of a run of epochs have exactly the effect that the schedule determines. */
  lemma EffectsOfStory(f: Fork, us: seq<Upgrade>, genesis: int, m: Machine, root: Root, tips: set<nat>,
                       from: nat, upto: nat)
    requires Validate(us) && IsForkOf(f, us, genesis)
    ensures Effects(f, m, root, Story(tips, from, upto)) == StateAfter(us, genesis, m, root, tips, from, upto)
  {
    forall e: nat, r: Root | e > 0 ensures EpochAgrees(f, us, genesis, m, tips, e, r) {
      EpochEffect(f, us, genesis, m, r, tips, e);
    }
    StoryAgrees(f, us, genesis, m, root, tips, from, upto);
  }

  /** The root of an executed chain is the state that the schedule and the heights of
  its tipsets determine. */
  method ExecuteScheduled(s: Store, t: TipSet, f: Fork, us: seq<Upgrade>, genesis: int, m: Machine, genesisRoot: Root)
      returns (root: Root)
    requires Has(s, t) && Validate(us) && IsForkOf(f, us, genesis)
    ensures root == StateAfter(us, genesis, m, genesisRoot, Heights(s, t), 0, t.height)
  {
    var acts;
    root, acts := ExecuteChain(s, t, f, m, genesisRoot);
    EffectsOfStory(f, us, genesis, m, genesisRoot, Heights(s, t), 0, t.height);
  }

  /** Executing a tipset meets an expensive upgrade exactly when the query on its
  parent's height and its own says so. */
  lemma ExpensiveMet(f: Fork, us: seq<Upgrade>, parent: nat, e: nat)
    requires ExpensiveOk(f.expensiveUpgrades, us)
    ensures HasExpensiveForkBetween(f, parent, e) <==> exists u :: Meets(us, u, parent, e)
  {
    StoryMigrates({e}, parent, e);
    if HasExpensiveForkBetween(f, parent, e) {
      var h :| parent <= h < e && h in f.expensiveUpgrades;
      var u :| u in us && u.expensive && u.height == h;
      assert Meets(us, u, parent, e);
    }
    forall u | Meets(us, u, parent, e) ensures HasExpensiveForkBetween(f, parent, e) {
      assert u.height in f.expensiveUpgrades;
    }
  }

  // Executing a tipset of epoch e on its parent offers the height of an expensive upgrade.
  ghost predicate Meets(us: seq<Upgrade>, u: Upgrade, parent: nat, e: nat) {
    u in us && u.expensive && u.height >= 0 && Migrate(u.height) in Story({e}, parent, e)
  }

  lemma {:induction false} StoryMigrates(tips: set<nat>, from: nat, upto: nat)
    ensures forall h: nat :: Migrate(h) in Story(tips, from, upto) <==> from <= h < upto
    decreases upto
  {
    if upto > from { StoryMigrates(tips, from, upto - 1); }
  }
}
