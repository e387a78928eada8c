/** The global load balancer over several cloud backends: periodic health
    checks that count healthy instances and consecutive failures, failover
    to an alternative backend in another provider or region, recovery and
    even rebalancing of the load over the active backends. */
module LoadBalancer {
  import opened Common

  const HealthCheckIntervalSeconds: nat := 30
  /** Consecutive failed checks that trigger a failover. */
  const FailoverThreshold: nat := 3
  /** Delay of the recovery check scheduled after a failover. */
  const RecoveryDelaySeconds: nat := 60
  /** Load added to the backend that takes over. */
  const FailoverLoadIncrement: real := 50.0

  /** A backend entry: provider, optional region, instance ids and the load
      share it carries. */
  datatype Backend = Backend(
    id: string,
    provider: string,
    region: Option<string>,
    instances: seq<string>,
    loadPercentage: Option<real>)

  /** The result of the latest health check of one backend. */
  datatype HealthRecord = HealthRecord(
    healthy: bool,
    healthyInstances: nat,
    totalInstances: nat,
    lastCheck: real,
    consecutiveFailures: nat)

  /** A backend with its load share blanked: what health checks and failover
      never change. */
  function Shape(b: Backend): Backend
  {
    b.(loadPercentage := None)
  }

  predicate SameShapes(bs: seq<Backend>, cs: seq<Backend>)
  {
    |bs| == |cs| && forall k :: 0 <= k < |bs| ==> Shape(bs[k]) == Shape(cs[k])
  }

  function Ids(bs: seq<Backend>): set<string>
  {
    set k | 0 <= k < |bs| :: bs[k].id
  }

  lemma SameShapesIds(bs: seq<Backend>, cs: seq<Backend>)
    requires SameShapes(bs, cs)
    ensures Ids(bs) == Ids(cs)
  {
    forall id | id in Ids(bs)
      ensures id in Ids(cs)
    {
      var k :| 0 <= k < |bs| && bs[k].id == id;
      assert Shape(bs[k]).id == id;
    }
    forall id | id in Ids(cs)
      ensures id in Ids(bs)
    {
      var k :| 0 <= k < |cs| && cs[k].id == id;
      assert Shape(cs[k]).id == id;
    }
  }

  predicate DistinctIds(bs: seq<Backend>)
  {
    forall i, j :: 0 <= i < j < |bs| ==> bs[i].id != bs[j].id
  }

  // ---------------------------------------------------------------- health records

  /** The instances of a backend that the probe reports healthy. */
  function HealthyInstances(provider: string, instances: seq<string>, probe: (string, string) -> bool): (n: nat)
    ensures n <= |instances|
  {
    if instances == [] then 0
    else HealthyInstances(provider, instances[..|instances| - 1], probe)
         + (if probe(provider, instances[|instances| - 1]) then 1 else 0)
  }

  /** A backend is healthy exactly when one of its instances is. */
  lemma {:induction false} HealthyIff(provider: string, instances: seq<string>, probe: (string, string) -> bool)
    ensures HealthyInstances(provider, instances, probe) > 0 <==>
      exists k :: 0 <= k < |instances| && probe(provider, instances[k])
  {
    if instances != [] {
      var front := instances[..|instances| - 1];
      HealthyIff(provider, front, probe);
      assert forall k :: 0 <= k < |front| ==> front[k] == instances[k];
    }
  }

  /** Records written by a check agree with themselves: healthy exactly when
      no failure is being counted. */
  predicate RecordOk(r: HealthRecord)
  {
    r.healthy <==> r.consecutiveFailures == 0
  }

  function LookupRecord(health: map<string, HealthRecord>, id: string): Option<HealthRecord>
  {
    if id in health then Some(health[id]) else None
  }

  /** `health_checks.get(id, {}).get('healthy', True)`. */
  predicate PreviousHealthy(prev: Option<HealthRecord>)
  {
    prev.None? || prev.value.healthy
  }

  function PreviousFailures(prev: Option<HealthRecord>): nat
  {
    if prev.Some? then prev.value.consecutiveFailures else 0
  }

  /** The record a check writes, from the previous one and the healthy count. */
  function NextRecord(prev: Option<HealthRecord>, healthyCount: nat, total: nat, now: real): (r: HealthRecord)
    ensures RecordOk(r)
    ensures r.healthy <==> healthyCount > 0
    ensures r.healthy ==> r.consecutiveFailures == 0
    ensures !r.healthy ==> r.consecutiveFailures == PreviousFailures(prev) + 1
    ensures r.healthyInstances == healthyCount && r.totalInstances == total && r.lastCheck == now
  {
    HealthRecord(healthyCount > 0, healthyCount, total, now,
                 if healthyCount > 0 then 0 else PreviousFailures(prev) + 1)
  }

  /** The failover condition as the source writes it. */
  predicate FailoverDueAsWritten(prev: Option<HealthRecord>, r: HealthRecord, enabled: bool, threshold: nat)
  {
    !r.healthy && PreviousHealthy(prev) && enabled && r.consecutiveFailures >= threshold
  }

  /** The written condition never holds once the threshold is 2 or more: a
      healthy previous record counts no failures, so the new count is 1. */
  lemma AsWrittenNeverFires(prev: Option<HealthRecord>, healthyCount: nat, total: nat, now: real,
                            enabled: bool, threshold: nat)
    requires threshold >= 2
    requires prev.Some? ==> RecordOk(prev.value)
    ensures !FailoverDueAsWritten(prev, NextRecord(prev, healthyCount, total, now), enabled, threshold)
  {
    var r := NextRecord(prev, healthyCount, total, now);
    if !r.healthy && PreviousHealthy(prev) {
      assert PreviousFailures(prev) == 0;
    }
  }

  /** `k` failed checks in a row after `prev`. */
  function AfterFailures(prev: Option<HealthRecord>, k: nat, total: nat, now: real): HealthRecord
    requires k >= 1
  {
    if k == 1 then NextRecord(prev, 0, total, now)
    else NextRecord(Some(AfterFailures(prev, k - 1, total, now)), 0, total, now)
  }

  lemma {:induction false} AfterFailuresCount(prev: Option<HealthRecord>, k: nat, total: nat, now: real)
    requires k >= 1
    ensures AfterFailures(prev, k, total, now).consecutiveFailures == PreviousFailures(prev) + k
    ensures !AfterFailures(prev, k, total, now).healthy
  {
    if k > 1 {
      AfterFailuresCount(prev, k - 1, total, now);
    }
  }

  /** The failover the health check evidently intends: on the failure that reaches
      the threshold. */
  predicate FailoverDue(r: HealthRecord, enabled: bool, threshold: nat)
  {
    !r.healthy && enabled && r.consecutiveFailures == threshold
  }

  /** On the default threshold of 3 the written condition stays silent through
      an outage the corrected one reports at its third failed check. */
  lemma ThirdFailureExample(total: nat, now: real)
    ensures var third := AfterFailures(None, 3, total, now);
      && third.consecutiveFailures == FailoverThreshold
      && !FailoverDueAsWritten(Some(AfterFailures(None, 2, total, now)), third, true, FailoverThreshold)
      && FailoverDue(third, true, FailoverThreshold)
  {
    AfterFailuresCount(None, 3, total, now);
    AfterFailuresCount(None, 2, total, now);
  }

  /** With failover enabled and a healthy start, the corrected condition fires
      at exactly one check of an outage: the threshold-th. */
  lemma FailoverFiresOnce(prev: Option<HealthRecord>, k: nat, threshold: nat, total: nat, now: real)
    requires k >= 1
    requires PreviousHealthy(prev) && (prev.Some? ==> RecordOk(prev.value))
    ensures FailoverDue(AfterFailures(prev, k, total, now), true, threshold) <==> k == threshold
  {
    AfterFailuresCount(prev, k, total, now);
  }

  // ---------------------------------------------------------------- one sweep of checks

  datatype Sweep = Sweep(health: map<string, HealthRecord>, failed: set<string>)

  /** The health map and the failed-over ids after checking `bs` in order;
      a backend whose provider cannot be reached is skipped. */
  function SweepOf(health: map<string, HealthRecord>, bs: seq<Backend>, probe: (string, string) -> bool,
                   reachable: string -> bool, now: real, enabled: bool, threshold: nat): Sweep
  {
    if bs == [] then Sweep(health, {})
    else
      var s := SweepOf(health, bs[..|bs| - 1], probe, reachable, now, enabled, threshold);
      var b := bs[|bs| - 1];
      if !reachable(b.provider) then s
      else
        var r := NextRecord(LookupRecord(s.health, b.id), HealthyInstances(b.provider, b.instances, probe), |b.instances|, now);
        Sweep(s.health[b.id := r], if FailoverDue(r, enabled, threshold) then s.failed + {b.id} else s.failed)
  }

  lemma SweepAppend(health: map<string, HealthRecord>, bs: seq<Backend>, b: Backend, probe: (string, string) -> bool,
                    reachable: string -> bool, now: real, enabled: bool, threshold: nat)
    ensures var s := SweepOf(health, bs, probe, reachable, now, enabled, threshold);
      var r := NextRecord(LookupRecord(s.health, b.id), HealthyInstances(b.provider, b.instances, probe), |b.instances|, now);
      SweepOf(health, bs + [b], probe, reachable, now, enabled, threshold) ==
        if !reachable(b.provider) then s
        else Sweep(s.health[b.id := r], if FailoverDue(r, enabled, threshold) then s.failed + {b.id} else s.failed)
  {
    assert (bs + [b])[..|bs + [b]| - 1] == bs;
  }

  /** The ids of the backends whose provider answers. */
  function Checked(bs: seq<Backend>, reachable: string -> bool): set<string>
  {
    set k | 0 <= k < |bs| && reachable(bs[k].provider) :: bs[k].id
  }

  /** A sweep keeps every record consistent, touches only the checked ids and
      fails over only checked backends whose count just reached the threshold. */
  lemma {:induction false} SweepSpec(health: map<string, HealthRecord>, bs: seq<Backend>, probe: (string, string) -> bool,
                                     reachable: string -> bool, now: real, enabled: bool, threshold: nat)
    requires forall id :: id in health ==> RecordOk(health[id])
    ensures var s := SweepOf(health, bs, probe, reachable, now, enabled, threshold);
      && (forall id :: id in s.health ==> RecordOk(s.health[id]))
      && s.health.Keys == health.Keys + Checked(bs, reachable)
      && (forall id :: id in health && id !in Ids(bs) ==> s.health[id] == health[id])
      && s.failed <= Ids(bs)
  {
    if bs != [] {
      var front := bs[..|bs| - 1];
      SweepSpec(health, front, probe, reachable, now, enabled, threshold);
      var b := bs[|bs| - 1];
      assert forall k :: 0 <= k < |front| ==> front[k] == bs[k];
      assert Ids(bs) == Ids(front) + {b.id};
      assert Checked(bs, reachable) == Checked(front, reachable) + (if reachable(b.provider) then {b.id} else {});
    }
  }

  /** With distinct ids, every reachable backend ends with the record of its
      own check: healthy exactly when one of its instances is, its failures
      reset or counted on from the record it had before. */
  lemma {:induction false} SweepRecords(health: map<string, HealthRecord>, bs: seq<Backend>, probe: (string, string) -> bool,
                                        reachable: string -> bool, now: real, enabled: bool, threshold: nat)
    requires DistinctIds(bs)
    ensures var s := SweepOf(health, bs, probe, reachable, now, enabled, threshold);
      forall k :: 0 <= k < |bs| && reachable(bs[k].provider) ==>
        && bs[k].id in s.health
        && s.health[bs[k].id] ==
             NextRecord(LookupRecord(health, bs[k].id), HealthyInstances(bs[k].provider, bs[k].instances, probe),
                        |bs[k].instances|, now)
        && (bs[k].id in s.failed <==> FailoverDue(s.health[bs[k].id], enabled, threshold))
  {
    if bs != [] {
      var front := bs[..|bs| - 1];
      assert forall k :: 0 <= k < |front| ==> front[k] == bs[k];
      SweepRecords(health, front, probe, reachable, now, enabled, threshold);
      SweepUntouched(health, front, bs[|bs| - 1].id, probe, reachable, now, enabled, threshold);
    }
  }

  /** An id not among the checked backends keeps its record and is not failed over. */
  lemma {:induction false} SweepUntouched(health: map<string, HealthRecord>, bs: seq<Backend>, id: string,
                                          probe: (string, string) -> bool, reachable: string -> bool,
                                          now: real, enabled: bool, threshold: nat)
    requires forall k :: 0 <= k < |bs| ==> bs[k].id != id
    ensures var s := SweepOf(health, bs, probe, reachable, now, enabled, threshold);
      LookupRecord(s.health, id) == LookupRecord(health, id) && id !in s.failed
  {
    if bs != [] {
      var front := bs[..|bs| - 1];
      assert forall k :: 0 <= k < |front| ==> front[k] == bs[k];
      SweepUntouched(health, front, id, probe, reachable, now, enabled, threshold);
    }
  }

  // ---------------------------------------------------------------- failover and load

  /** A backend that can take over from `failed`: another id, still active,
      and a different provider or a different region. */
  predicate IsAlternative(b: Backend, failed: Backend, active: set<string>)
  {
    b.id != failed.id && b.id in active && (b.provider != failed.provider || b.region != failed.region)
  }

  /** The index of the first alternative at or after `from`. */
  function FirstAlternative(bs: seq<Backend>, failed: Backend, active: set<string>, from: nat): (r: Option<nat>)
    requires from <= |bs|
    ensures r.Some? ==> from <= r.value < |bs| && IsAlternative(bs[r.value], failed, active)
                        && forall j :: from <= j < r.value ==> !IsAlternative(bs[j], failed, active)
    ensures r.None? ==> forall j :: from <= j < |bs| ==> !IsAlternative(bs[j], failed, active)
    decreases |bs| - from
  {
    if from == |bs| then None
    else if IsAlternative(bs[from], failed, active) then Some(from)
    else FirstAlternative(bs, failed, active, from + 1)
  }

  /** `min(100, load + 50)` on the backend taking over. */
  function Redistributed(b: Backend): (c: Backend)
    ensures Shape(c) == Shape(b)
    ensures c.loadPercentage.Some? && c.loadPercentage.value <= 100.0
    ensures GetOr(b.loadPercentage, 0.0) <= 50.0 ==> c.loadPercentage == Some(GetOr(b.loadPercentage, 0.0) + FailoverLoadIncrement)
    ensures GetOr(b.loadPercentage, 0.0) > 50.0 ==> c.loadPercentage == Some(100.0)
  {
    var load := GetOr(b.loadPercentage, 0.0) + FailoverLoadIncrement;
    b.(loadPercentage := Some(if load < 100.0 then load else 100.0))
  }

  /** The share each active backend receives. */
  function Share(activeCount: nat): real
    requires activeCount > 0
  {
    100.0 / activeCount as real
  }

  /** The backends after rebalancing: each active one carries an equal share. */
  function Rebalanced(bs: seq<Backend>, active: set<string>): (r: seq<Backend>)
    ensures SameShapes(r, bs)
  {
    if |active| == 0 then bs
    else seq(|bs|, k requires 0 <= k < |bs| =>
               if bs[k].id in active then bs[k].(loadPercentage := Some(Share(|active|))) else bs[k])
  }

  /** The summed load of the active entries. */
  function ActiveLoad(bs: seq<Backend>, active: set<string>): real
  {
    if bs == [] then 0.0
    else ActiveLoad(bs[..|bs| - 1], active) + (if bs[|bs| - 1].id in active then GetOr(bs[|bs| - 1].loadPercentage, 0.0) else 0.0)
  }

  /** Entries of `bs` that are active. */
  function ActiveCount(bs: seq<Backend>, active: set<string>): nat
  {
    if bs == [] then 0
    else ActiveCount(bs[..|bs| - 1], active) + (if bs[|bs| - 1].id in active then 1 else 0)
  }

  /** Splitting off the last entry of a sequence with distinct ids. */
  lemma IdsOfFront(bs: seq<Backend>)
    requires bs != [] && DistinctIds(bs)
    ensures Ids(bs) == Ids(bs[..|bs| - 1]) + {bs[|bs| - 1].id}
    ensures DistinctIds(bs[..|bs| - 1])
    ensures bs[|bs| - 1].id !in Ids(bs[..|bs| - 1])
  {
    var front := bs[..|bs| - 1];
    assert forall k :: 0 <= k < |front| ==> front[k] == bs[k];
  }

  lemma {:induction false} ActiveCountIsCard(bs: seq<Backend>, active: set<string>)
    requires DistinctIds(bs)
    ensures ActiveCount(bs, active) == |active * Ids(bs)|
  {
    if bs != [] {
      var front := bs[..|bs| - 1];
      var b := bs[|bs| - 1];
      IdsOfFront(bs);
      ActiveCountIsCard(front, active);
      assert ActiveCount(bs, active) == ActiveCount(front, active) + (if b.id in active then 1 else 0);
      if b.id in active {
        assert active * Ids(bs) == (active * Ids(front)) + {b.id};
        assert b.id !in active * Ids(front);
      } else {
        assert active * Ids(bs) == active * Ids(front);
      }
    }
  }

  /** Every active entry of a sequence carrying `share` sums to count * share. */
  lemma {:induction false} ActiveLoadUniform(bs: seq<Backend>, active: set<string>, share: real)
    requires forall k :: 0 <= k < |bs| && bs[k].id in active ==> bs[k].loadPercentage == Some(share)
    ensures ActiveLoad(bs, active) == Times(ActiveCount(bs, active), share)
  {
    if bs != [] {
      var front := bs[..|bs| - 1];
      assert forall k :: 0 <= k < |front| ==> front[k] == bs[k];
      ActiveLoadUniform(front, active, share);
    }
  }

  /** Rebalancing gives every active backend the same share and leaves the
      others alone. */
  lemma RebalanceShares(bs: seq<Backend>, active: set<string>)
    requires |active| > 0
    ensures var r := Rebalanced(bs, active);
      forall k :: 0 <= k < |bs| ==>
        r[k] == (if bs[k].id in active then bs[k].(loadPercentage := Some(Share(|active|))) else bs[k])
  {
  }

  /** With distinct ids and every active id present, the active loads sum to 100. */
  lemma RebalanceTotal(bs: seq<Backend>, active: set<string>)
    requires |active| > 0 && DistinctIds(bs) && active <= Ids(bs)
    ensures ActiveLoad(Rebalanced(bs, active), active) == 100.0
  {
    var r := Rebalanced(bs, active);
    RebalancedIds(bs, active);
    assert forall k :: 0 <= k < |r| && r[k].id in active ==> r[k].loadPercentage == Some(Share(|active|));
    UniformTotal(r, active);
  }

  lemma UniformTotal(r: seq<Backend>, active: set<string>)
    requires |active| > 0 && DistinctIds(r) && active <= Ids(r)
    requires forall k :: 0 <= k < |r| && r[k].id in active ==> r[k].loadPercentage == Some(Share(|active|))
    ensures ActiveLoad(r, active) == 100.0
  {
    ActiveLoadUniform(r, active, Share(|active|));
    ActiveCountIsCard(r, active);
    assert active * Ids(r) == active;
    SharesSum(|active|);
  }

  /** `n` copies of `x` added up. */
  function Times(n: nat, x: real): real
  {
    if n == 0 then 0.0 else Times(n - 1, x) + x
  }

  lemma {:induction false} TimesIsProduct(n: nat, x: real)
    ensures Times(n, x) == n as real * x
  {
    if n > 0 {
      TimesIsProduct(n - 1, x);
    }
  }

  /** `n` equal shares make up the whole. */
  lemma SharesSum(n: nat)
    requires n > 0
    ensures Times(n, Share(n)) == 100.0
  {
    TimesIsProduct(n, Share(n));
    var m := n as real;
    assert m * (100.0 / m) == 100.0;
  }

  lemma RebalancedIds(bs: seq<Backend>, active: set<string>)
    requires DistinctIds(bs)
    ensures Ids(Rebalanced(bs, active)) == Ids(bs) && DistinctIds(Rebalanced(bs, active))
  {
    var r := Rebalanced(bs, active);
    SameShapesIds(r, bs);
    forall i, j | 0 <= i < j < |r|
      ensures r[i].id != r[j].id
    {
      assert Shape(r[i]).id == bs[i].id && Shape(r[j]).id == bs[j].id;
    }
  }

  // ---------------------------------------------------------------- what a sweep's failovers move

  /** The load changes and scheduled recovery checks of the failovers a sweep
      triggers. */
  datatype Moves = Moves(backends: seq<Backend>, scheduled: seq<Backend>)

  /** `_trigger_failover` on the loads and the recovery list, once `failed`
      has left `active`: with an alternative, its load is raised and a
      recovery check for `failed` is scheduled; without one nothing moves. */
  function Failover(m: Moves, failed: Backend, active: set<string>): Moves
  {
    match FirstAlternative(m.backends, failed, active, 0)
      case None => m
      case Some(j) => Moves(m.backends[j := Redistributed(m.backends[j])], m.scheduled + [failed])
  }

  /** Scheduling after a longer recovery list appends the same entries. */
  lemma FailoverAfter(bs: seq<Backend>, p: seq<Backend>, q: seq<Backend>, failed: Backend, active: set<string>)
    ensures var f := Failover(Moves(bs, q), failed, active);
      Failover(Moves(bs, p + q), failed, active) == Moves(f.backends, p + f.scheduled)
  {
    assert p + q + [failed] == p + (q + [failed]);
  }

  /** After checking the first `i` of `all`: the backends with the load each
      failover has shifted onto its alternative, and the failed backends, as
      they stood when they failed, whose recovery check was scheduled. The
      active set seen by the failover of backend `i - 1` is the starting set
      less the backends failed over before it and itself. */
  function FailoverMoves(health: map<string, HealthRecord>, active: set<string>, all: seq<Backend>, i: nat,
                         probe: (string, string) -> bool, reachable: string -> bool,
                         now: real, enabled: bool, threshold: nat): (m: Moves)
    requires i <= |all|
    ensures SameShapes(m.backends, all)
  {
    if i == 0 then Moves(all, [])
    else
      var m := FailoverMoves(health, active, all, i - 1, probe, reachable, now, enabled, threshold);
      var s := SweepOf(health, all[..i - 1], probe, reachable, now, enabled, threshold);
      var b := m.backends[i - 1];
      if !reachable(b.provider) then m
      else
        var r := NextRecord(LookupRecord(s.health, b.id), HealthyInstances(b.provider, b.instances, probe), |b.instances|, now);
        if !FailoverDue(r, enabled, threshold) then m
        else Failover(m, b, active - (s.failed + {b.id}))
  }

  /** A sweep only schedules recovery checks for backends it failed over, and
      a load within 0..100 never drops and never passes 100. */
  lemma {:induction false} FailoverMovesSound(health: map<string, HealthRecord>, active: set<string>, all: seq<Backend>, i: nat,
                                              probe: (string, string) -> bool, reachable: string -> bool,
                                              now: real, enabled: bool, threshold: nat)
    requires i <= |all|
    ensures var m := FailoverMoves(health, active, all, i, probe, reachable, now, enabled, threshold);
      && (forall x :: x in m.scheduled ==> x.id in SweepOf(health, all[..i], probe, reachable, now, enabled, threshold).failed)
      && (forall k :: 0 <= k < |all| && GetOr(all[k].loadPercentage, 0.0) <= 100.0 ==>
            GetOr(all[k].loadPercentage, 0.0) <= GetOr(m.backends[k].loadPercentage, 0.0) <= 100.0)
  {
    if i > 0 {
      var j := i - 1;
      FailoverMovesSound(health, active, all, j, probe, reachable, now, enabled, threshold);
      SweepStep(health, active, all, j, probe, reachable, now, enabled, threshold);
      var m := FailoverMoves(health, active, all, j, probe, reachable, now, enabled, threshold);
      var m' := FailoverMoves(health, active, all, j + 1, probe, reachable, now, enabled, threshold);
      var s := SweepOf(health, all[..j], probe, reachable, now, enabled, threshold);
      var s' := SweepOf(health, all[..j + 1], probe, reachable, now, enabled, threshold);
      var b := m.backends[j];
      var f := Failover(m, b, active - (s.failed + {b.id}));
      FailoverLoads(m, b, active - (s.failed + {b.id}));
      assert s.failed <= s'.failed;
      if m' != m {
        assert m' == f && b.id in s'.failed;
      }
    }
  }

  /** A single failover moves load onto at most one backend, by at most up to
      100, and schedules at most the failed backend. */
  lemma FailoverLoads(m: Moves, failed: Backend, active: set<string>)
    ensures var f := Failover(m, failed, active);
      && |f.backends| == |m.backends|
      && (f.scheduled == m.scheduled || f.scheduled == m.scheduled + [failed])
      && forall k :: 0 <= k < |m.backends| && GetOr(m.backends[k].loadPercentage, 0.0) <= 100.0 ==>
           GetOr(m.backends[k].loadPercentage, 0.0) <= GetOr(f.backends[k].loadPercentage, 0.0) <= 100.0
  {
  }

  /** One more backend checked: how the sweep and its failover moves grow. */
  lemma SweepStep(health: map<string, HealthRecord>, active: set<string>, all: seq<Backend>, i: nat,
                  probe: (string, string) -> bool, reachable: string -> bool,
                  now: real, enabled: bool, threshold: nat)
    requires i < |all|
    ensures var s := SweepOf(health, all[..i], probe, reachable, now, enabled, threshold);
      var s' := SweepOf(health, all[..i + 1], probe, reachable, now, enabled, threshold);
      var m := FailoverMoves(health, active, all, i, probe, reachable, now, enabled, threshold);
      var m' := FailoverMoves(health, active, all, i + 1, probe, reachable, now, enabled, threshold);
      var b := m.backends[i];
      var r := NextRecord(LookupRecord(s.health, b.id), HealthyInstances(b.provider, b.instances, probe), |b.instances|, now);
      if !reachable(b.provider) then s' == s && m' == m
      else
        && s'.health == s.health[b.id := r]
        && if !FailoverDue(r, enabled, threshold) then s'.failed == s.failed && m' == m
           else
             && s'.failed == s.failed + {b.id}
             && m' == Failover(m, b, active - (s.failed + {b.id}))
  {
    assert all[..i + 1] == all[..i] + [all[i]];
    SweepAppend(health, all[..i], all[i], probe, reachable, now, enabled, threshold);
    var m := FailoverMoves(health, active, all, i, probe, reachable, now, enabled, threshold);
    assert Shape(m.backends[i]) == Shape(all[i]);
  }

  // ---------------------------------------------------------------- the balancer

  class GlobalLoadBalancer {
    const name: string
    var backends: seq<Backend>
    var healthChecks: map<string, HealthRecord>
    var activeBackends: set<string>
    var failoverEnabled: bool
    const failoverThreshold: nat
    /** Every recovery check scheduled so far, in scheduling order; a check
        that has run stays listed. */
    var scheduledRecoveries: seq<Backend>

    ghost predicate Valid()
      reads this
    {
      && (forall id :: id in healthChecks ==> RecordOk(healthChecks[id]))
      && activeBackends <= Ids(backends)
    }

    constructor (name: string, backends: seq<Backend>)
      ensures Valid()
      ensures this.name == name && this.backends == backends
      ensures healthChecks == map[] && activeBackends == {} && scheduledRecoveries == []
      ensures failoverEnabled && failoverThreshold == FailoverThreshold
    {
      this.name := name;
      this.backends := backends;
      healthChecks := map[];
      activeBackends := {};
      failoverEnabled := true;
      failoverThreshold := FailoverThreshold;
      scheduledRecoveries := [];
    }

    /** Creates a provider-side balancer per backend; each backend whose
        creation succeeds becomes active. */
    method Start(created: Backend -> bool)
      requires Valid()
      modifies this
      ensures Valid()
      ensures activeBackends == old(activeBackends) + set k | 0 <= k < |backends| && created(backends[k]) :: backends[k].id
      ensures backends == old(backends) && healthChecks == old(healthChecks)
      ensures scheduledRecoveries == old(scheduledRecoveries) && failoverEnabled == old(failoverEnabled)
    {
      var i := 0;
      while i < |backends|
        invariant 0 <= i <= |backends|
        invariant activeBackends == old(activeBackends) + set k | 0 <= k < i && created(backends[k]) :: backends[k].id
        invariant Valid()
        invariant backends == old(backends) && healthChecks == old(healthChecks)
        invariant scheduledRecoveries == old(scheduledRecoveries) && failoverEnabled == old(failoverEnabled)
      {
        if created(backends[i]) {
          activeBackends := activeBackends + {backends[i].id};
        }
        i := i + 1;
      }
    }

    /** The healthy instances of one backend, counted one probe at a time. */
    static method CountHealthy(provider: string, instances: seq<string>, probe: (string, string) -> bool)
      returns (n: nat)
      ensures n == HealthyInstances(provider, instances, probe)
      ensures n > 0 <==> exists k :: 0 <= k < |instances| && probe(provider, instances[k])
    {
      n := 0;
      var i := 0;
      while i < |instances|
        invariant 0 <= i <= |instances|
        invariant n == HealthyInstances(provider, instances[..i], probe)
      {
        assert instances[..i + 1][..i] == instances[..i];
        if probe(provider, instances[i]) {
          n := n + 1;
        }
        i := i + 1;
      }
      assert instances[..i] == instances;
      HealthyIff(provider, instances, probe);
    }

    /** The first backend that can take over from `failed`. */
    method FindAlternativeBackend(failed: Backend) returns (r: Option<nat>)
      ensures r == FirstAlternative(backends, failed, activeBackends, 0)
    {
      var i := 0;
      while i < |backends|
        invariant 0 <= i <= |backends|
        invariant FirstAlternative(backends, failed, activeBackends, i) == FirstAlternative(backends, failed, activeBackends, 0)
      {
        if IsAlternative(backends[i], failed, activeBackends) {
          return Some(i);
        }
        i := i + 1;
      }
      return None;
    }

    /** Drop the failed backend from the active set; if another backend can take
        over, shift load onto it and schedule a recovery check for the failed one. */
    method TriggerFailover(failed: Backend) returns (alternative: Option<nat>)
      requires Valid()
      modifies this
      ensures Valid()
      ensures activeBackends == old(activeBackends) - {failed.id}
      ensures alternative == FirstAlternative(old(backends), failed, activeBackends, 0)
      ensures alternative.Some? ==> backends == old(backends)[alternative.value := Redistributed(old(backends)[alternative.value])]
      ensures alternative.Some? ==> scheduledRecoveries == old(scheduledRecoveries) + [failed]
      ensures alternative.None? ==> backends == old(backends) && scheduledRecoveries == old(scheduledRecoveries)
      ensures SameShapes(backends, old(backends))
      ensures healthChecks == old(healthChecks) && failoverEnabled == old(failoverEnabled)
    {
      activeBackends := activeBackends - {failed.id};
      alternative := FindAlternativeBackend(failed);
      if alternative.Some? {
        var j := alternative.value;
        backends := backends[j := Redistributed(backends[j])];
        scheduledRecoveries := scheduledRecoveries + [failed];
        SameShapesIds(backends, old(backends));
      }
    }

    /** Check every backend in order, recording its health and failing it over
        when the corrected condition holds. */
    method PerformHealthChecks(probe: (string, string) -> bool, reachable: string -> bool, now: real)
      requires Valid()
      modifies this
      ensures Valid()
      ensures var s := SweepOf(old(healthChecks), old(backends), probe, reachable, now, old(failoverEnabled), failoverThreshold);
        healthChecks == s.health && activeBackends == old(activeBackends) - s.failed
      ensures var m := FailoverMoves(old(healthChecks), old(activeBackends), old(backends), |old(backends)|,
                                     probe, reachable, now, old(failoverEnabled), failoverThreshold);
        backends == m.backends && scheduledRecoveries == old(scheduledRecoveries) + m.scheduled
      ensures failoverEnabled == old(failoverEnabled)
    {
      ghost var start := backends;
      var i := 0;
      while i < |backends|
        invariant 0 <= i <= |backends| == |start|
        invariant Valid()
        invariant failoverEnabled == old(failoverEnabled)
        invariant var s := SweepOf(old(healthChecks), start[..i], probe, reachable, now, failoverEnabled, failoverThreshold);
          healthChecks == s.health && activeBackends == old(activeBackends) - s.failed
        invariant var m := FailoverMoves(old(healthChecks), old(activeBackends), start, i, probe, reachable, now, failoverEnabled, failoverThreshold);
          backends == m.backends && scheduledRecoveries == old(scheduledRecoveries) + m.scheduled
      {
        var b := backends[i];
        SweepStep(old(healthChecks), old(activeBackends), start, i, probe, reachable, now, failoverEnabled, failoverThreshold);
        ghost var s := SweepOf(old(healthChecks), start[..i], probe, reachable, now, failoverEnabled, failoverThreshold);
        ghost var m := FailoverMoves(old(healthChecks), old(activeBackends), start, i, probe, reachable, now, failoverEnabled, failoverThreshold);
        if reachable(b.provider) {
          CheckBackend(b, probe, now);
          assert old(activeBackends) - s.failed - {b.id} == old(activeBackends) - (s.failed + {b.id});
          FailoverAfter(m.backends, old(scheduledRecoveries), m.scheduled, b, old(activeBackends) - (s.failed + {b.id}));
        }
        i := i + 1;
      }
      assert start[..i] == start;
    }

    /** One backend's turn in the sweep: record its check and fail it over
        when the corrected condition holds. */
    method CheckBackend(b: Backend, probe: (string, string) -> bool, now: real)
      requires Valid()
      modifies this
      ensures Valid()
      ensures var r := NextRecord(LookupRecord(old(healthChecks), b.id), HealthyInstances(b.provider, b.instances, probe),
                                  |b.instances|, now);
        && healthChecks == old(healthChecks)[b.id := r]
        && if !FailoverDue(r, failoverEnabled, failoverThreshold) then
             backends == old(backends) && activeBackends == old(activeBackends) && scheduledRecoveries == old(scheduledRecoveries)
           else
             && activeBackends == old(activeBackends) - {b.id}
             && Moves(backends, scheduledRecoveries) == Failover(Moves(old(backends), old(scheduledRecoveries)), b, activeBackends)
      ensures failoverEnabled == old(failoverEnabled)
    {
      var n := CountHealthy(b.provider, b.instances, probe);
      var r := NextRecord(LookupRecord(healthChecks, b.id), n, |b.instances|, now);
      healthChecks := healthChecks[b.id := r];
      if FailoverDue(r, failoverEnabled, failoverThreshold) {
        var _ := TriggerFailover(b);
      }
    }

    /** The pending recovery check for `backend`: if its latest record is
        healthy it rejoins the active set and the load is rebalanced. */
    method RecoveryCheck(backend: Backend)
      requires Valid() && backend.id in Ids(backends)
      modifies this
      ensures Valid()
      ensures var recovered := backend.id in healthChecks && healthChecks[backend.id].healthy;
        && activeBackends == (if recovered then old(activeBackends) + {backend.id} else old(activeBackends))
        && backends == (if recovered then Rebalanced(old(backends), activeBackends) else old(backends))
      ensures healthChecks == old(healthChecks) && failoverEnabled == old(failoverEnabled)
      ensures scheduledRecoveries == old(scheduledRecoveries)
    {
      if backend.id in healthChecks && healthChecks[backend.id].healthy {
        activeBackends := activeBackends + {backend.id};
        RebalanceLoad();
      }
    }

    /** Give every active backend `100 / |active|`; nothing happens with no
        active backend. */
    method RebalanceLoad()
      requires Valid()
      modifies this
      ensures Valid()
      ensures backends == Rebalanced(old(backends), activeBackends)
      ensures activeBackends == old(activeBackends) && healthChecks == old(healthChecks)
      ensures failoverEnabled == old(failoverEnabled) && scheduledRecoveries == old(scheduledRecoveries)
    {
      var count := |activeBackends|;
      if count > 0 {
        var share := 100.0 / count as real;
        var i := 0;
        while i < |backends|
          invariant 0 <= i <= |backends| == |old(backends)|
          invariant forall k :: 0 <= k < |backends| ==>
            backends[k] == (if k < i && old(backends)[k].id in activeBackends
                            then old(backends)[k].(loadPercentage := Some(share)) else old(backends)[k])
          invariant activeBackends == old(activeBackends) && healthChecks == old(healthChecks)
          invariant failoverEnabled == old(failoverEnabled) && scheduledRecoveries == old(scheduledRecoveries)
        {
          if backends[i].id in activeBackends {
            backends := backends[i := backends[i].(loadPercentage := Some(share))];
          }
          i := i + 1;
        }
      }
      SameShapesIds(backends, old(backends));
    }
  }
}
