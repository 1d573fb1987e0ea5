/** Network upgrades: the schedule and its validation, the tables built from it,
and the queries on them.
*/
module Upgrades {
  import opened Wrappers

  datatype PreMigration = PreMigration(startWithin: int, dontStartWithin: int, stopWithin: int)

  datatype Upgrade = Upgrade(height: int, network: int, expensive: bool, hasMigration: bool,
                             preMigrations: seq<PreMigration>)

  predicate ValidPreMigration(m: PreMigration) {
    && m.startWithin > 0 && m.dontStartWithin >= 0 && m.stopWithin >= 0 && m.startWithin > m.stopWithin
    && (m.dontStartWithin != 0 ==> m.dontStartWithin >= m.stopWithin && m.startWithin > m.dontStartWithin)
  }

  predicate ValidUpgrade(u: Upgrade) {
    && u.network > 0
    && (forall m | m in u.preMigrations :: ValidPreMigration(m))
    && (forall i, j | 0 <= i < j < |u.preMigrations| ::
          u.preMigrations[i].startWithin >= u.preMigrations[j].startWithin)
  }

  predicate Validate(us: seq<Upgrade>) {
    && (forall u | u in us :: ValidUpgrade(u))
    && (forall i | 0 < i < |us| :: InOrder(us, i))
  }

  predicate InOrder(us: seq<Upgrade>, i: nat)
    requires 0 < i < |us|
  {
    us[i - 1].network <= us[i].network && (us[i - 1].height < 0 || us[i - 1].height < us[i].height)
  }

  // From the first enabled upgrade on, heights rise.
  lemma {:induction false} HeightsRise(us: seq<Upgrade>, i: nat, j: nat)
    requires Validate(us) && i < j < |us| && us[i].height >= 0
    ensures us[i].height < us[j].height
  {
    if i + 1 < j { HeightsRise(us, i, j - 1); }
    assert InOrder(us, j);
  }

  // ---------------------------------------------------------------------
  // The tables

  datatype VersionSpec = VersionSpec(networkVersion: int, atOrBelow: int)

  datatype Fork = Fork(networkVersions: seq<VersionSpec>, latestVersion: int,
                       stateMigrations: map<int, Upgrade>, expensiveUpgrades: set<int>)

  ghost function VersionBefore(us: seq<Upgrade>, genesis: int, i: nat): int
    requires i <= |us|
  {
    if i == 0 then genesis else us[i - 1].network
  }

  ghost predicate VersionsOk(versions: seq<VersionSpec>, latest: int, us: seq<Upgrade>, genesis: int) {
    && |versions| == |us|
    && (forall i | 0 <= i < |us| :: versions[i] == VersionSpec(VersionBefore(us, genesis, i), us[i].height))
    && latest == VersionBefore(us, genesis, |us|)
  }

  predicate Migrates(u: Upgrade) {
    u.hasMigration || u.preMigrations != []
  }

  ghost predicate MigrationsOk(migrations: map<int, Upgrade>, us: seq<Upgrade>) {
    && (forall u | u in us && Migrates(u) :: u.height in migrations)
    && (forall h | h in migrations :: migrations[h] in us && Migrates(migrations[h]) && migrations[h].height == h)
  }

  ghost predicate ExpensiveOk(expensive: set<int>, us: seq<Upgrade>) {
    expensive == set u | u in us && u.expensive :: u.height
  }

  ghost predicate IsForkOf(f: Fork, us: seq<Upgrade>, genesis: int) {
    && VersionsOk(f.networkVersions, f.latestVersion, us, genesis)
    && MigrationsOk(f.stateMigrations, us)
    && ExpensiveOk(f.expensiveUpgrades, us)
  }

  lemma TablesNext(migrations: map<int, Upgrade>, expensive: set<int>, us: seq<Upgrade>, u: Upgrade)
    requires MigrationsOk(migrations, us) && ExpensiveOk(expensive, us)
    ensures MigrationsOk(if Migrates(u) then migrations[u.height := u] else migrations, us + [u])
    ensures ExpensiveOk(if u.expensive then expensive + {u.height} else expensive, us + [u])
  {
    assert forall v :: v in us + [u] <==> v in us || v == u;
  }

  method NewChainFork(us: seq<Upgrade>, genesis: int) returns (f: Option<Fork>)
    ensures f.Some? <==> Validate(us)
    ensures f.Some? ==> IsForkOf(f.value, us, genesis)
  {
    if !Validate(us) { return None; }
    var versions, lastVersion := VersionSpecs(us, genesis);
    var migrations: map<int, Upgrade>, expensive: set<int> := map[], {};
    for i := 0 to |us|
      invariant MigrationsOk(migrations, us[..i]) && ExpensiveOk(expensive, us[..i])
    {
      var u := us[i];
      assert us[..i + 1] == us[..i] + [u];
      TablesNext(migrations, expensive, us[..i], u);
      if Migrates(u) { migrations := migrations[u.height := u]; }
      if u.expensive { expensive := expensive + {u.height}; }
    }
    assert us[..|us|] == us;
    f := Some(Fork(versions, lastVersion, migrations, expensive));
  }

  method VersionSpecs(us: seq<Upgrade>, genesis: int) returns (versions: seq<VersionSpec>, lastVersion: int)
    ensures VersionsOk(versions, lastVersion, us, genesis)
  {
    versions, lastVersion := [], genesis;
    for i := 0 to |us|
      invariant |versions| == i && lastVersion == VersionBefore(us, genesis, i)
      invariant forall j | 0 <= j < i :: versions[j] == VersionSpec(VersionBefore(us, genesis, j), us[j].height)
    {
      versions := versions + [VersionSpec(lastVersion, us[i].height)];
      lastVersion := us[i].network;
    }
  }

  // ---------------------------------------------------------------------
  // The queries

  function NetworkVersionFrom(f: Fork, height: int, i: nat): int
    requires i <= |f.networkVersions|
    decreases |f.networkVersions| - i
  {
    if i == |f.networkVersions| then f.latestVersion
    else if height <= f.networkVersions[i].atOrBelow then f.networkVersions[i].networkVersion
    else NetworkVersionFrom(f, height, i + 1)
  }

  function GetNetworkVersion(f: Fork, height: int): int {
    NetworkVersionFrom(f, height, 0)
  }

  // Reference: the version of the last upgrade below the height.
  ghost function VersionAfter(us: seq<Upgrade>, genesis: int, height: int): int {
    if us == [] then genesis
    else if us[|us| - 1].height < height then us[|us| - 1].network
    else VersionAfter(us[..|us| - 1], genesis, height)
  }

  lemma {:induction false} ScanFindsVersion(f: Fork, us: seq<Upgrade>, genesis: int, height: nat, i: nat)
    requires Validate(us) && VersionsOk(f.networkVersions, f.latestVersion, us, genesis)
    requires i <= |us| && forall j | 0 <= j < i :: us[j].height < height
    ensures NetworkVersionFrom(f, height, i) == VersionAfter(us, genesis, height)
    decreases |us| - i
  {
    if i < |us| && height > us[i].height {
      ScanFindsVersion(f, us, genesis, height, i + 1);
    } else {
      RestAbove(us, height, i);
      NoneFrom(us, genesis, height, i, |us|);
      assert us[..|us|] == us;
    }
  }

  lemma RestAbove(us: seq<Upgrade>, height: nat, i: nat)
    requires Validate(us) && (i < |us| ==> us[i].height >= height)
    ensures forall j | i <= j < |us| :: us[j].height >= height
  {
    forall j | i < j < |us| ensures us[j].height >= height { HeightsRise(us, i, j); }
  }

  // Upgrades at or above the height do not count.
  lemma {:induction false} NoneFrom(us: seq<Upgrade>, genesis: int, height: int, i: nat, k: nat)
    requires i <= k <= |us|
    requires (forall j | 0 <= j < i :: us[j].height < height) && forall j | i <= j < k :: us[j].height >= height
    ensures VersionAfter(us[..k], genesis, height) == VersionBefore(us, genesis, i)
  {
    if k > i {
      NoneFrom(us, genesis, height, i, k - 1);
      assert us[..k][..k - 1] == us[..k - 1] && us[..k][k - 1].height >= height;
    } else if k > 0 {
      assert us[..k][k - 1] == us[k - 1];
    }
  }

  lemma NetworkVersionIsLastUpgrade(f: Fork, us: seq<Upgrade>, genesis: int, height: nat)
    requires Validate(us) && IsForkOf(f, us, genesis)
    ensures GetNetworkVersion(f, height) == VersionAfter(us, genesis, height)
  {
    ScanFindsVersion(f, us, genesis, height, 0);
  }

  /** A check that asks for the version of an upgrade starts one epoch above the
  upgrade's height, where one that asks for the height starts at it. */
  lemma VersionStartsAbove(f: Fork, us: seq<Upgrade>, genesis: int, k: nat, height: nat)
    requires Validate(us) && IsForkOf(f, us, genesis) && k < |us| && us[k].height >= 0
    requires genesis < us[k].network && (k > 0 ==> us[k - 1].network < us[k].network)
    ensures GetNetworkVersion(f, height) >= us[k].network <==> height > us[k].height
  {
    NetworkVersionIsLastUpgrade(f, us, genesis, height);
    VersionPast(us, genesis, k, height, |us|);
    assert us[..|us|] == us;
  }

  lemma {:induction false} VersionPast(us: seq<Upgrade>, genesis: int, k: nat, height: nat, n: nat)
    requires Validate(us) && k < |us| && us[k].height >= 0 && n <= |us|
    requires genesis < us[k].network && (k > 0 ==> us[k - 1].network < us[k].network)
    ensures VersionAfter(us[..n], genesis, height) >= us[k].network <==> height > us[k].height && k < n
  {
    if n > 0 {
      VersionPast(us, genesis, k, height, n - 1);
      assert us[..n][..n - 1] == us[..n - 1] && us[..n][n - 1] == us[n - 1];
      if n - 1 > k {
        HeightsRise(us, k, n - 1);
        VersionsRise(us, k, n - 1);
      } else if n - 1 < k {
        VersionsRise(us, n - 1, k - 1);
      }
    }
  }

  lemma {:induction false} VersionsRise(us: seq<Upgrade>, i: nat, j: nat)
    requires Validate(us) && i <= j < |us|
    ensures us[i].network <= us[j].network
  {
    if i < j {
      VersionsRise(us, i, j - 1);
      assert InOrder(us, j);
    }
  }

  function HasExpensiveForkBetween(f: Fork, parent: int, height: int): (r: bool)
    ensures r <==> exists h :: parent <= h < height && h in f.expensiveUpgrades
    decreases height - parent
  {
    if parent >= height then false
    else parent in f.expensiveUpgrades || HasExpensiveForkBetween(f, parent + 1, height)
  }
}
