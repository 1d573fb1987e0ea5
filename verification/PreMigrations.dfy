/** The pre-migration worker: every pre-migration becomes an operation that
starts it and one that cancels it, and head changes consume the operations in
the order of their epochs.
*/
module PreMigrations {
  import opened Wrappers
  import opened Upgrades

  // A pre-migration of an upgrade.
  datatype Job = Job(upgrade: int, index: nat, pre: PreMigration)

  datatype Op = Op(job: Job, cancel: bool, after: int, notAfter: int)

  function StopEpoch(j: Job): int {
    j.upgrade - j.pre.stopWithin
  }

  // A pre-migration may not start after it is stopped.
  function StartLimit(j: Job): int {
    var limit := j.upgrade - j.pre.dontStartWithin;
    if limit > StopEpoch(j) then StopEpoch(j) - 1 else limit
  }

  function StartOp(j: Job): Op {
    Op(j, false, j.upgrade - j.pre.startWithin, StartLimit(j))
  }

  function CancelOp(j: Job): Op {
    Op(j, true, StopEpoch(j), -1)
  }

  // ---------------------------------------------------------------------
  // The schedule

  ghost predicate Sorted(ops: seq<Op>) {
    forall i, j | 0 <= i < j < |ops| :: ops[i].after <= ops[j].after
  }

  // Each job's two operations, and nothing else, each once.
  ghost predicate ScheduleOf(ops: seq<Op>, jobs: set<Job>) {
    && (forall o :: o in ops <==> o.job in jobs && (o == StartOp(o.job) || o == CancelOp(o.job)))
    && (forall i, j | 0 <= i < j < |ops| :: ops[i] != ops[j])
  }

  ghost function Jobs(f: Fork): set<Job> {
    set h, i | h in f.stateMigrations && 0 <= i < |f.stateMigrations[h].preMigrations| ::
      Job(h, i, f.stateMigrations[h].preMigrations[i])
  }

  method BuildOps(f: Fork) returns (ops: seq<Op>)
    ensures ScheduleOf(ops, Jobs(f))
  {
    ops := [];
    var rest: set<int> := f.stateMigrations.Keys;
    ghost var done: set<Job> := {};
    while true
      invariant rest <= f.stateMigrations.Keys
      invariant ScheduleOf(ops, done)
      invariant forall j :: j in done <==> j in Jobs(f) && j.upgrade !in rest
      decreases |rest|
    {
      var h: int;
      if k :| k in rest {
        h := k;
      } else {
        break;
      }
      var pres := f.stateMigrations[h].preMigrations;
      for i := 0 to |pres|
        invariant ScheduleOf(ops, done)
        invariant forall j :: j in done <==> j in Jobs(f) && (j.upgrade !in rest || (j.upgrade == h && j.index < i))
      {
        var job := Job(h, i, pres[i]);
        assert job in Jobs(f) && job !in done;
        ops := ops + [StartOp(job), CancelOp(job)];
        done := done + {job};
      }
      rest := rest - {h};
    }
  }

  function Insert(ops: seq<Op>, o: Op): (r: seq<Op>)
    requires Sorted(ops)
    ensures Sorted(r) && multiset(r) == multiset(ops) + multiset{o}
  {
    if ops == [] then [o]
    else if ops[|ops| - 1].after <= o.after then ops + [o]
    else
      var n := |ops| - 1;
      assert ops == ops[..n] + [ops[n]];
      var shorter := Insert(ops[..n], o);
      InsertedBelow(shorter, ops[..n], o, ops[n].after);
      shorter + [ops[n]]
  }

  lemma InsertedBelow(r: seq<Op>, ops: seq<Op>, o: Op, bound: int)
    requires multiset(r) == multiset(ops) + multiset{o} && o.after <= bound
    requires forall x | x in ops :: x.after <= bound
    ensures forall x | x in r :: x.after <= bound
  {
    forall x | x in r ensures x.after <= bound {
      assert x in multiset(r);
    }
  }

  method SortByEpoch(ops: seq<Op>) returns (r: seq<Op>)
    ensures Sorted(r) && multiset(r) == multiset(ops)
  {
    r := [];
    for i := 0 to |ops|
      invariant Sorted(r) && multiset(r) == multiset(ops[..i])
    {
      assert ops[..i + 1] == ops[..i] + [ops[i]];
      r := Insert(r, ops[i]);
    }
    assert ops[..|ops|] == ops;
  }

  lemma SortKeepsSchedule(ops: seq<Op>, r: seq<Op>, jobs: set<Job>)
    requires ScheduleOf(ops, jobs) && multiset(r) == multiset(ops)
    ensures ScheduleOf(r, jobs)
  {
    forall o ensures o in r <==> o in ops {
      assert o in multiset(r) <==> o in multiset(ops);
    }
    Once(ops);
    forall i, j | 0 <= i < j < |r| ensures r[i] != r[j] {
      Twice(r, i, j);
    }
  }

  lemma Twice(r: seq<Op>, i: nat, j: nat)
    requires i < j < |r|
    ensures r[i] == r[j] ==> multiset(r)[r[i]] >= 2
  {
    assert r == r[..i] + [r[i]] + r[i + 1..j] + [r[j]] + r[j + 1..];
  }

  lemma {:induction false} Once(ops: seq<Op>)
    requires forall i, j | 0 <= i < j < |ops| :: ops[i] != ops[j]
    ensures forall o :: multiset(ops)[o] <= 1
  {
    if ops != [] {
      var n := |ops| - 1;
      assert ops == ops[..n] + [ops[n]];
      Once(ops[..n]);
      assert ops[n] !in ops[..n];
    }
  }

  // ---------------------------------------------------------------------
  // The worker

  predicate Runs(o: Op, head: int) {
    o.notAfter < 0 || head < o.notAfter
  }

  // The first head to reach an epoch, if any does.
  function FirstReaching(heads: seq<int>, e: int): (r: Option<int>)
    ensures r.Some? ==> r.value in heads && r.value >= e
    ensures r.None? ==> forall h | h in heads :: h < e
  {
    if heads == [] then None
    else
      var n := |heads| - 1;
      assert heads == heads[..n] + [heads[n]];
      var r := FirstReaching(heads[..n], e);
      if r.Some? then r else if heads[n] >= e then Some(heads[n]) else None
  }

  // The head an operation runs at: the first to reach its epoch, unless that
  // one is past the operation's limit.
  function RunsAt(o: Op, heads: seq<int>): Option<int> {
    match FirstReaching(heads, o.after)
    case None => None
    case Some(h) => if Runs(o, h) then Some(h) else None
  }

  // The operations before k have met the heads so far, and no others have.
  ghost predicate Served(schedule: seq<Op>, heads: seq<int>, ranAt: seq<Option<int>>) {
    && |ranAt| <= |schedule|
    && (forall i | 0 <= i < |ranAt| ::
          FirstReaching(heads, schedule[i].after).Some? && ranAt[i] == RunsAt(schedule[i], heads))
    && (forall i | |ranAt| <= i < |schedule| :: FirstReaching(heads, schedule[i].after).None?)
  }

  // Consumes the schedule as heads arrive; ranAt says of each consumed
  // operation at which head it ran, if it did.
  method PreMigrationWorker(f: Fork, heads: seq<int>) returns (schedule: seq<Op>, ranAt: seq<Option<int>>)
    ensures Sorted(schedule) && ScheduleOf(schedule, Jobs(f))
    ensures Served(schedule, heads, ranAt)
  {
    var ops := BuildOps(f);
    schedule := SortByEpoch(ops);
    SortKeepsSchedule(ops, schedule, Jobs(f));
    ranAt := [];
    for k := 0 to |heads|
      invariant Served(schedule, heads[..k], ranAt)
    {
      ranAt := NewHead(schedule, heads[..k], heads[k], ranAt);
      assert heads[..k + 1] == heads[..k] + [heads[k]];
    }
    assert heads[..|heads|] == heads;
  }

  method NewHead(schedule: seq<Op>, ghost before: seq<int>, head: int, ranAt: seq<Option<int>>)
      returns (r: seq<Option<int>>)
    requires Sorted(schedule) && Served(schedule, before, ranAt)
    ensures Served(schedule, before + [head], r)
  {
    r := ranAt;
    while |r| < |schedule| && head >= schedule[|r|].after
      invariant |ranAt| <= |r| <= |schedule| && r[..|ranAt|] == ranAt
      invariant forall i | |ranAt| <= i < |r| ::
                  head >= schedule[i].after && r[i] == if Runs(schedule[i], head) then Some(head) else None
      decreases |schedule| - |r|
    {
      var op := schedule[|r|];
      if op.notAfter < 0 || head < op.notAfter {
        r := r + [Some(head)];
      } else {
        r := r + [None];
      }
    }
    assert (before + [head])[..|before|] == before;
    assert forall i | 0 <= i < |ranAt| :: r[i] == r[..|ranAt|][i];
  }

  /** What a run of the worker does with one valid pre-migration.  Its start and
  its cancel are consumed once each, the start first; it is started only within
  its window, before it is cancelled; and it is cancelled exactly when some head
  reached its stop epoch. */
  lemma PreMigrationInTime(schedule: seq<Op>, heads: seq<int>, ranAt: seq<Option<int>>, jobs: set<Job>, j: Job)
      returns (a: nat, b: nat)
    requires Sorted(schedule) && ScheduleOf(schedule, jobs) && Served(schedule, heads, ranAt)
    requires j in jobs && ValidPreMigration(j.pre) && StartLimit(j) >= 0
    ensures a < b < |schedule| && schedule[a] == StartOp(j) && schedule[b] == CancelOp(j)
    ensures forall i | 0 <= i < |schedule| && schedule[i].job == j :: i == a || i == b
    ensures a < |ranAt| && ranAt[a].Some? ==>
              && ranAt[a].value in heads && j.upgrade - j.pre.startWithin <= ranAt[a].value
              && ranAt[a].value < j.upgrade - j.pre.dontStartWithin && ranAt[a].value < j.upgrade - j.pre.stopWithin
    ensures (b < |ranAt| && ranAt[b].Some?) <==> exists h :: h in heads && h >= j.upgrade - j.pre.stopWithin
  {
    assert StartOp(j) in schedule && CancelOp(j) in schedule;
    a :| 0 <= a < |schedule| && schedule[a] == StartOp(j);
    b :| 0 <= b < |schedule| && schedule[b] == CancelOp(j);
    forall i | 0 <= i < |schedule| && schedule[i].job == j ensures i == a || i == b {
      assert schedule[i] in schedule;
    }
  }

  // The k-th head is the first to reach an epoch.
  ghost predicate FirstAtLeast(heads: seq<int>, e: int, k: nat) {
    k < |heads| && heads[k] >= e && forall i | 0 <= i < k :: heads[i] < e
  }

  lemma {:induction false} ReachingIsFirst(heads: seq<int>, e: int, k: nat)
    requires FirstAtLeast(heads, e, k)
    ensures FirstReaching(heads, e) == Some(heads[k])
  {
    var n := |heads| - 1;
    if k < n {
      ReachingIsFirst(heads[..n], e, k);
    }
  }

  /** In every run of the worker a pre-migration is started exactly if the first head at
  or above its start epoch is below the limit, or the limit is negative; then it is
  started at that head.  The limit is the height from which on it may not be started
  any more, but one below the epoch at which it is stopped if that comes first. */
  lemma StartedExactly(schedule: seq<Op>, heads: seq<int>, ranAt: seq<Option<int>>, a: nat, k: nat)
    requires Sorted(schedule) && Served(schedule, heads, ranAt) && a < |schedule|
    requires schedule[a] == StartOp(schedule[a].job)
    ensures var j := schedule[a].job;
            var dontStart, stop := j.upgrade - j.pre.dontStartWithin, j.upgrade - j.pre.stopWithin;
            var limit := if dontStart > stop then stop - 1 else dontStart;
            FirstAtLeast(heads, j.upgrade - j.pre.startWithin, k) ==>
              a < |ranAt| && ranAt[a] == if limit < 0 || heads[k] < limit then Some(heads[k]) else None
    ensures (forall h | h in heads :: h < schedule[a].job.upgrade - schedule[a].job.pre.startWithin) ==> a >= |ranAt|
  {
    if FirstAtLeast(heads, schedule[a].after, k) { ReachingIsFirst(heads, schedule[a].after, k); }
  }

  // The worker's run over a single head.
  lemma OneHead(schedule: seq<Op>, head: int) returns (ranAt: seq<Option<int>>)
    requires Sorted(schedule)
    ensures Served(schedule, [head], ranAt)
    ensures forall i | 0 <= i < |schedule| && schedule[i].after <= head :: i < |ranAt|
  {
    assert [head][..0] == [];
    var k := 0;
    while k < |schedule| && schedule[k].after <= head
      invariant k <= |schedule| && forall i | 0 <= i < k :: schedule[i].after <= head
    {
      k := k + 1;
    }
    ranAt := seq(k, i requires 0 <= i < k => RunsAt(schedule[i], [head]));
  }

  // No run of the worker starts the pre-migration at a head past its limit.
  ghost predicate StartsInTime(schedule: seq<Op>, a: nat)
    requires a < |schedule|
  {
    forall heads: seq<int>, ranAt: seq<Option<int>> |
      (forall h | h in heads :: h >= 0) && Served(schedule, heads, ranAt) && a < |ranAt| && ranAt[a].Some? ::
      ranAt[a].value < StartLimit(schedule[a].job)
  }

  /** Over all runs of the worker, the limit on starting a valid pre-migration is kept
  exactly when it is not negative: a negative limit is taken for none at all. */
  lemma StartLimitKept(schedule: seq<Op>, a: nat)
    requires Sorted(schedule) && a < |schedule|
    requires schedule[a] == StartOp(schedule[a].job) && ValidPreMigration(schedule[a].job.pre)
    ensures StartsInTime(schedule, a) <==> StartLimit(schedule[a].job) >= 0
  {
    if StartLimit(schedule[a].job) < 0 {
      var ranAt := OneHead(schedule, 0);
      assert ranAt[a] == RunsAt(schedule[a], [0]) && [0][..0] == [];
      assert ranAt[a] == Some(0);
    }
  }
}
