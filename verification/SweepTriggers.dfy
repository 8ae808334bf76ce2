/** What calls an eviction forth, when it ends, and what is left undone, in sums over the rows. */
module SweepTriggers {
  import opened Model
  import opened RegistrySpec
  import opened RegistryFigures
  import opened Order
  import opened SweepPlan
  import opened SweepLaws
  import opened SweepFigures

  // ---------------------------------------------------------------- what is left

  /** The assets the first `n` actions leave alone. */
  ghost function Remaining(assets: map<Id, Asset>, actions: seq<Action>, n: nat): map<Id, Asset>
    requires n <= |actions|
  {
    map id | id in assets && (forall k | 0 <= k < n :: actions[k].id != id) :: assets[id]
  }

  /** The assets whose bytes no action takes away. */
  ghost function Kept(assets: map<Id, Asset>, actions: seq<Action>): map<Id, Asset> {
    map id | id in assets && (forall k | 0 <= k < |actions| :: actions[k].id == id ==> !actions[k].purge) :: assets[id]
  }

  lemma RemainingIs(assets: map<Id, Asset>, actions: seq<Action>, n: nat)
    requires n <= |actions|
    ensures Remaining(assets, actions, n) == assets - Chosen(actions[..n])
  {
    forall id <- assets ensures id in Remaining(assets, actions, n) <==> id !in Chosen(actions[..n]) {
      ChosenEarlier(actions, n, id);
    }
  }

  lemma KeptIs(assets: map<Id, Asset>, actions: seq<Action>)
    ensures Kept(assets, actions) == assets - Purged(actions)
  {
    forall id <- assets ensures id in Kept(assets, actions) <==> id !in Purged(actions) {
      if id in Purged(actions) {
        var act :| act in actions && act.purge && act.id == id;
        var k :| 0 <= k < |actions| && actions[k] == act;
      }
    }
  }

  // ---------------------------------------------------------------- the two triggers

  /** The quota of a partition with sweeping on. */
  predicate Swept(limits: LimitTable, space: Space, partition: string) {
    && (space, partition) in limits && limits[(space, partition)].sweepEnabled && limits[(space, partition)].bytes.Some?
  }

  /** The partition is in use and has reached its share of the quota. */
  ghost predicate OverQuota(rows: map<Id, Asset>, limits: LimitTable, policy: SweepPolicy, space: Space,
                            partition: string) {
    && (space == Cache || space == Tmp) && Swept(limits, space, partition)
    && LiveBytes(rows, space, partition) > 0
    && LiveBytes(rows, space, partition) as real >= Part(limits[(space, partition)].bytes.value, policy.quotaTrigger)
  }

  /** The bytes that stay in the store have reached the bucket's share of the budget. */
  ghost predicate OverBudget(assets: map<Id, Asset>, actions: seq<Action>, policy: SweepPolicy, space: Space) {
    && (space == Cache || space == Tmp) && space in policy.capacity
    && BucketStored(Kept(assets, actions), space) as real
       >= Part(PositiveBudget(policy, space), policy.pressureTrigger)
  }

  function PositiveBudget(policy: SweepPolicy, space: Space): (n: nat)
    requires space in policy.capacity
    ensures n == policy.capacity[space]
  {
    policy.capacity[space]
  }

  lemma OverQuotaIs(rows: map<Id, Asset>, limits: LimitTable, policy: SweepPolicy, space: Space, partition: string)
    ensures OverQuota(rows, limits, policy, space, partition)
       <==> Evictable(space) && QuotaTriggered(rows, LimitsOf(limits, space, partition), policy, space, partition)
    ensures Swept(limits, space, partition)
       <==> LimitsOf(limits, space, partition).sweepEnabled && LimitsOf(limits, space, partition).bytes.Some?
    ensures Swept(limits, space, partition)
        ==> limits[(space, partition)] == LimitsOf(limits, space, partition)
            && Share(limits[(space, partition)].bytes.value, policy.quotaTarget)
            == Part(limits[(space, partition)].bytes.value, policy.quotaTarget)
  {
    hide Total, LiveBytes, PolicyOk;
    MeasuresInFigures(rows, space, partition);
  }

  lemma OverBudgetIs(assets: map<Id, Asset>, actions: seq<Action>, policy: SweepPolicy, space: Space)
    ensures OverBudget(assets, actions, policy, space) <==> PressureTriggered(assets, Purged(actions), policy, space)
    ensures space in policy.capacity ==>
              Share(policy.capacity[space], policy.pressureTarget)
              == Part(PositiveBudget(policy, space), policy.pressureTarget)
  {
    hide Total, BucketStored, PolicyOk;
    KeptIs(assets, actions);
    MeasuresInFigures(assets - Purged(actions), space, "");
  }

  // ---------------------------------------------------------------- a quota eviction's cause

  predicate OfPartition(act: Action, space: Space, partition: string) {
    act.reason == QuotaLfu && act.asset.space == space && act.asset.partition == partition
  }

  /** The evictions from this partition began at `n`, in one go, and the partition was over its trigger then. */
  ghost predicate BeganAt(assets: map<Id, Asset>, limits: LimitTable, policy: SweepPolicy, actions: seq<Action>,
                          i: nat, n: nat)
    requires i < |actions|
  {
    var a := actions[i].asset;
    && n <= i
    && (forall k | 0 <= k < n :: !OfPartition(actions[k], a.space, a.partition))
    && (forall k | n <= k <= i :: OfPartition(actions[k], a.space, a.partition))
    && QuotaTriggered(assets - Chosen(actions[..n]), LimitsOf(limits, a.space, a.partition), policy, a.space,
                      a.partition)
  }

  ghost predicate QuotaCaused(assets: map<Id, Asset>, limits: LimitTable, policy: SweepPolicy, actions: seq<Action>,
                              i: nat)
    requires i < |actions|
  {
    exists n :: BeganAt(assets, limits, policy, actions, i, n)
  }

  lemma CauseStays(assets: map<Id, Asset>, limits: LimitTable, policy: SweepPolicy, actions: seq<Action>,
                   later: seq<Action>, i: nat)
    requires actions <= later && i < |actions| && QuotaCaused(assets, limits, policy, actions, i)
    ensures QuotaCaused(assets, limits, policy, later, i)
  {
    hide QuotaTriggered;
    var n: nat :| BeganAt(assets, limits, policy, actions, i, n);
    assert later[..n] == actions[..n];
    assert forall k | 0 <= k <= i :: later[k] == actions[k];
    assert BeganAt(assets, limits, policy, later, i, n);
  }

  predicate Visited(parts: seq<SortKey>, act: Action) {
    exists p | 0 <= p < |parts| :: OfPartition(act, SpaceOf(parts[p].0), parts[p].1)
  }

  /** All after the first `n` are quota evictions from the visited partitions, each with its cause. */
  ghost predicate QuotaRun(assets: map<Id, Asset>, limits: LimitTable, policy: SweepPolicy, actions: seq<Action>,
                           n: nat, parts: seq<SortKey>) {
    && n <= |actions|
    && forall i | n <= i < |actions| :: Visited(parts, actions[i]) && QuotaCaused(assets, limits, policy, actions, i)
  }

  predicate NoneOf(actions: seq<Action>, space: Space, partition: string) {
    forall act <- actions :: !OfPartition(act, space, partition)
  }

  lemma QuotaStepRuns(assets: map<Id, Asset>, limits: LimitTable, policy: SweepPolicy, now: int, plan: Plan,
                      space: Space, partition: string, i: nat)
    requires NoneOf(plan.actions, space, partition)
    requires |plan.actions| <= i < |QuotaStep(assets, limits, policy, now, plan, space, partition).actions|
    ensures var after := QuotaStep(assets, limits, policy, now, plan, space, partition);
            OfPartition(after.actions[i], space, partition)
            && QuotaCaused(assets, limits, policy, after.actions, i)
  {
    var l := LimitsOf(limits, space, partition);
    var actions := QuotaStep(assets, limits, policy, now, plan, space, partition).actions;
    var target, m := Share(l.bytes.value, policy.quotaTarget), UsedBytes(space, partition);
    EvictGroupLaws(assets, plan, m, target, QuotaLfu, now);
    hide EvictGroup, Total, Purged, GroupDone, Share, PolicyOk, Chosen, Score, Less;
    var n := |plan.actions|;
    assert actions[..n] == plan.actions;
    forall k | n <= k < |actions| ensures OfPartition(actions[k], space, partition) {
      assert BestAt(assets, actions, k, m, target, QuotaLfu, now);
    }
    forall k | 0 <= k < n ensures !OfPartition(actions[k], space, partition) {
      assert actions[k] == plan.actions[k] && plan.actions[k] in plan.actions;
    }
    assert BeganAt(assets, limits, policy, actions, i, n);
  }

  lemma {:induction false} QuotaPassRuns(assets: map<Id, Asset>, limits: LimitTable, policy: SweepPolicy, now: int,
                                         plan: Plan, parts: seq<SortKey>)
    requires forall i | 0 <= i < |parts| ::
              Evictable(SpaceOf(parts[i].0))
              && parts[i].0 == SpaceRank(SpaceOf(parts[i].0))
    requires forall i, j | 0 <= i < j < |parts| :: parts[i] != parts[j]
    requires forall act <- plan.actions :: !Lfu(act)
    ensures var after := QuotaPass(assets, limits, policy, now, plan, parts);
            plan.actions <= after.actions && QuotaRun(assets, limits, policy, after.actions, |plan.actions|, parts)
  {
    hide QuotaStep, QuotaCaused, SpaceOf, SpaceRank, Purged;
    if parts != [] {
      var n := |parts| - 1;
      var space, partition := SpaceOf(parts[n].0), parts[n].1;
      QuotaPassRuns(assets, limits, policy, now, plan, parts[..n]);
      var mid := QuotaPass(assets, limits, policy, now, plan, parts[..n]);
      var after := QuotaPass(assets, limits, policy, now, plan, parts);
      QuotaStepLaws(assets, limits, policy, now, mid, space, partition);
      hide QuotaSettled, AllJustified, QuotaPass;
      VisitedAreNot(plan.actions, mid.actions, parts);
      forall i | |plan.actions| <= i < |after.actions|
        ensures Visited(parts, after.actions[i]) && QuotaCaused(assets, limits, policy, after.actions, i)
      {
        if i < |mid.actions| {
          CauseStays(assets, limits, policy, mid.actions, after.actions, i);
          var p :| 0 <= p < n && OfPartition(mid.actions[i], SpaceOf(parts[..n][p].0), parts[..n][p].1);
          assert OfPartition(after.actions[i], SpaceOf(parts[p].0), parts[p].1);
        } else {
          QuotaStepRuns(assets, limits, policy, now, mid, space, partition, i);
          assert OfPartition(after.actions[i], SpaceOf(parts[n].0), parts[n].1);
        }
      }
    }
  }

  // ---------------------------------------------------------------- a pressure eviction's cause

  ghost predicate PressureRun(assets: map<Id, Asset>, policy: SweepPolicy, purged: set<Id>, actions: seq<Action>,
                              n: nat) {
    && n <= |actions|
    && forall i | n <= i < |actions| ::
         actions[i].reason == PressureLfu && PressureTriggered(assets, purged, policy, actions[i].asset.space)
  }

  lemma PressureStepRuns(assets: map<Id, Asset>, policy: SweepPolicy, now: int, plan: Plan, space: Space)
    ensures var after := PressureStep(assets, policy, now, plan, space);
            && plan.actions <= after.actions && Purged(after.actions) == Purged(plan.actions)
            && PressureRun(assets, policy, Purged(plan.actions), after.actions, |plan.actions|)
  {
    if PressureTriggered(assets, Purged(plan.actions), policy, space) {
      var target := Share(policy.capacity[space], policy.pressureTarget);
      EvictGroupLaws(assets, plan, BucketUsed(space), target, PressureLfu, now);
      hide EvictGroup, Total, Purged, GroupDone, Share, PolicyOk, Chosen, Score, Less;
      var actions := PressureStep(assets, policy, now, plan, space).actions;
      forall k | |plan.actions| <= k < |actions|
        ensures actions[k].reason == PressureLfu && actions[k].asset.space == space
      {
        assert BestAt(assets, actions, k, BucketUsed(space), target, PressureLfu, now);
      }
    }
  }

  lemma {:induction false} PressurePassRuns(assets: map<Id, Asset>, policy: SweepPolicy, now: int, plan: Plan,
                                            spaces: seq<SortKey>)
    ensures var after := PressurePass(assets, policy, now, plan, spaces);
            && plan.actions <= after.actions && Purged(after.actions) == Purged(plan.actions)
            && PressureRun(assets, policy, Purged(plan.actions), after.actions, |plan.actions|)
  {
    hide PressureStep, PressureTriggered, Purged, SpaceOf;
    if spaces != [] {
      var n := |spaces| - 1;
      PressurePassRuns(assets, policy, now, plan, spaces[..n]);
      PressureStepRuns(assets, policy, now, PressurePass(assets, policy, now, plan, spaces[..n]), SpaceOf(spaces[n].0));
    }
  }

  // ---------------------------------------------------------------- the plan in three parts

  /** The first `n` actions are for time that is up, the others evictions. */
  predicate TimelyFirst(actions: seq<Action>, n: nat) {
    && n <= |actions|
    && (forall i | 0 <= i < n :: !Lfu(actions[i]))
    && (forall i | n <= i < |actions| :: Lfu(actions[i]))
  }

  lemma OneSplit(actions: seq<Action>, n: nat, k: nat)
    requires TimelyFirst(actions, n) && TimelyFirst(actions, k)
    ensures n == k
  {
    assert n < |actions| ==> Lfu(actions[n]);
    assert k < |actions| ==> Lfu(actions[k]);
  }

  lemma DistinctPartitions(assets: map<Id, Asset>, parts: seq<SortKey>)
    requires parts == Sorted(PartitionKeys(assets))
    ensures forall i | 0 <= i < |parts| ::
              Evictable(SpaceOf(parts[i].0)) && parts[i].0 == SpaceRank(SpaceOf(parts[i].0))
    ensures forall i, j | 0 <= i < j < |parts| :: parts[i] != parts[j]
  {
    IncreasingHasNoDuplicates(parts);
    hide Sorted, Increasing;
    forall i | 0 <= i < |parts| ensures Evictable(SpaceOf(parts[i].0)) && parts[i].0 == SpaceRank(SpaceOf(parts[i].0)) {
      assert parts[i] in Elements(parts);
    }
  }

  /** None of the actions from `n` on weighs in the group. */
  ghost predicate Elsewhere(assets: map<Id, Asset>, actions: seq<Action>, n: nat, m: Measure) {
    forall i | n <= i < |actions| :: actions[i].id in assets && Weigh(m, assets[actions[i].id]) == 0
  }

  lemma Untouched(assets: map<Id, Asset>, actions: seq<Action>, n: nat, m: Measure)
    requires n <= |actions| && Elsewhere(assets, actions, n, m)
    ensures Total(assets - Chosen(actions), m) == Total(assets - Chosen(actions[..n]), m)
  {
    var gone := Chosen(actions[n..]);
    forall id <- gone ensures id in assets && Weigh(m, assets[id]) == 0 {
      var act :| act in actions[n..] && act.id == id;
      var k :| 0 <= k < |actions| - n && actions[n..][k] == act;
      assert actions[n + k].id == id;
    }
    assert actions == actions[..n] + actions[n..];
    assert assets - Chosen(actions) == (assets - Chosen(actions[..n])) - gone;
    hide Weigh;
    TotalWithout(assets - Chosen(actions[..n]), m, gone);
  }

  ghost function QuotaPlan(assets: map<Id, Asset>, limits: LimitTable, policy: SweepPolicy, now: int): Plan {
    QuotaPass(assets, limits, policy, now, TimedPlan(assets, policy, now), Sorted(PartitionKeys(assets)))
  }

  lemma PlanParts(assets: map<Id, Asset>, limits: LimitTable, policy: SweepPolicy, now: int)
    ensures var timed := TimedPlan(assets, policy, now).actions;
            var parts := Sorted(PartitionKeys(assets));
            var mid := QuotaPlan(assets, limits, policy, now).actions;
            var actions := PlanOf(assets, limits, policy, now).actions;
            && timed <= mid <= actions && TimelyFirst(actions, |timed|)
            && QuotaRun(assets, limits, policy, mid, |timed|, parts)
            && (forall i | |timed| <= i < |mid| :: actions[i].reason == QuotaLfu)
            && PressureRun(assets, policy, Purged(actions), actions, |mid|)
  {
    var ids, parts := Sorted(IdKeys(assets)), Sorted(PartitionKeys(assets));
    var timed := TimedPlan(assets, policy, now);
    SortedIds(assets, ids);
    TimedAreTimely(assets, ids, policy, now);
    DistinctPartitions(assets, parts);
    QuotaPassRuns(assets, limits, policy, now, timed, parts);
    var mid := QuotaPass(assets, limits, policy, now, timed, parts);
    PressurePassRuns(assets, policy, now, mid, Sorted(BudgetKeys(policy)));
    hide PolicyOk, QuotaPass, PressurePass, PartitionKeys, BudgetKeys, Sorted, QuotaCaused, PressureTriggered, Purged;
    var actions := PlanOf(assets, limits, policy, now).actions;
    forall i | 0 <= i < |timed.actions| ensures !Lfu(actions[i]) { assert timed.actions[i] in timed.actions; }
    forall i | |timed.actions| <= i < |mid.actions| ensures actions[i].reason == QuotaLfu {
      assert Visited(parts, mid.actions[i]) && actions[i] == mid.actions[i];
    }
  }

  lemma QuotaEviction(assets: map<Id, Asset>, limits: LimitTable, policy: SweepPolicy, now: int, n: nat,
                      actions: seq<Action>, i: nat)
    requires n <= i < |actions| && Justified(assets, limits, policy, now, actions[..i], actions[i])
    requires actions[i].reason == QuotaLfu
    requires var a := actions[i].asset;
             QuotaTriggered(assets - Chosen(actions[..n]), LimitsOf(limits, a.space, a.partition), policy, a.space,
                            a.partition)
    ensures var a := actions[i].asset;
            && OverQuota(Remaining(assets, actions, n), limits, policy, a.space, a.partition)
            && LiveBytes(Remaining(assets, actions, i), a.space, a.partition) as real
               > Part(limits[(a.space, a.partition)].bytes.value, policy.quotaTarget)
  {
    hide PolicyOk, Score, Less, Total, LiveBytes, Chosen, QuotaTriggered, OverQuota, Remaining, Part, Share, Swept;
    var a := actions[i].asset;
    RemainingIs(assets, actions, n);
    RemainingIs(assets, actions, i);
    MeasuresInFigures(Remaining(assets, actions, i), a.space, a.partition);
    OverQuotaIs(Remaining(assets, actions, n), limits, policy, a.space, a.partition);
  }

  lemma PressureEviction(assets: map<Id, Asset>, limits: LimitTable, policy: SweepPolicy, now: int,
                         actions: seq<Action>, i: nat)
    requires i < |actions| && Justified(assets, limits, policy, now, actions[..i], actions[i])
    requires actions[i].reason == PressureLfu
    requires PressureTriggered(assets, Purged(actions), policy, actions[i].asset.space)
    ensures var a := actions[i].asset;
            && OverBudget(assets, actions, policy, a.space)
            && BucketLive(Remaining(assets, actions, i), a.space) as real
               > Part(PositiveBudget(policy, a.space), policy.pressureTarget)
  {
    hide PolicyOk, Score, Less, Total, BucketLive, Chosen, Purged, OverBudget, Remaining, Part, Share;
    var a := actions[i].asset;
    RemainingIs(assets, actions, i);
    MeasuresInFigures(Remaining(assets, actions, i), a.space, a.partition);
    OverBudgetIs(assets, actions, policy, a.space);
  }

  /** A partition's evictions come in one go, so nothing changed there since everything due had gone. */
  lemma CalledForSince(assets: map<Id, Asset>, limits: LimitTable, policy: SweepPolicy, now: int, n: nat,
                       mid: seq<Action>, i: nat)
    requires AllJustified(assets, limits, policy, now, mid) && TimelyFirst(mid, n)
    requires forall k | n <= k < |mid| :: mid[k].reason == QuotaLfu
    requires n <= i < |mid| && QuotaCaused(assets, limits, policy, mid, i)
    ensures var a := mid[i].asset;
            QuotaTriggered(assets - Chosen(mid[..n]), LimitsOf(limits, a.space, a.partition), policy, a.space,
                           a.partition)
  {
    var a := mid[i].asset;
    var at: nat :| BeganAt(assets, limits, policy, mid, i, at);
    var m := UsedBytes(a.space, a.partition);
    assert OfPartition(mid[at], a.space, a.partition);
    assert mid[..at][..n] == mid[..n];
    hide Total, Chosen, QuotaCaused;
    forall k | n <= k < at ensures mid[..at][k].id in assets && Weigh(m, assets[mid[..at][k].id]) == 0 {
      assert Justified(assets, limits, policy, now, mid[..k], mid[k]);
      assert !OfPartition(mid[k], a.space, a.partition);
      assert mid[..at][k] == mid[k] && mid[k].reason == QuotaLfu;
      hide AllJustified, BeganAt, QuotaTriggered;
    }
    Untouched(assets, mid[..at], n, m);
  }

  /** No eviction without a cause: the asset's partition had reached its trigger once everything due had gone, or the
      bytes that stay have reached the bucket's; and each time the group still was above its low-water mark. */
  lemma EvictionIsCalledFor(assets: map<Id, Asset>, limits: LimitTable, policy: SweepPolicy, now: int, n: nat, i: nat)
    requires var actions := PlanOf(assets, limits, policy, now).actions;
             TimelyFirst(actions, n) && n <= i < |actions|
    ensures var actions := PlanOf(assets, limits, policy, now).actions;
            var a := actions[i].asset;
            && Victim(assets, actions[i])
            && (actions[i].reason == QuotaLfu ==>
                 && OverQuota(Remaining(assets, actions, n), limits, policy, a.space, a.partition)
                 && LiveBytes(Remaining(assets, actions, i), a.space, a.partition) as real
                    > Part(limits[(a.space, a.partition)].bytes.value, policy.quotaTarget))
            && (actions[i].reason == PressureLfu ==>
                 && OverBudget(assets, actions, policy, a.space)
                 && BucketLive(Remaining(assets, actions, i), a.space) as real
                    > Part(PositiveBudget(policy, a.space), policy.pressureTarget))
  {
    PlanParts(assets, limits, policy, now);
    PlanLaws(assets, limits, policy, now);
    hide PlanOf, QuotaPlan, TimedPlan, PartitionKeys, Sorted, Visited, PolicyOk, Purged, LiveBytes, BucketLive,
      Remaining,
      Chosen, QuotaTriggered, OverQuota, OverBudget, PressureTriggered, Part, QuotaCaused, Justified, PositiveBudget,
        Victim;
    var actions := PlanOf(assets, limits, policy, now).actions;
    var mid := QuotaPlan(assets, limits, policy, now).actions;
    JustifiedAt(assets, limits, policy, now, actions, i);
    VictimFacts(assets, limits, policy, now, actions[..i], actions[i]);
    if actions[i].reason == QuotaLfu {
      assert i < |mid| && mid[i] == actions[i];
      forall k | 0 <= k < |mid| ensures Justified(assets, limits, policy, now, mid[..k], mid[k]) {
        assert mid[..k] == actions[..k];
        JustifiedAt(assets, limits, policy, now, actions, k);
      }
      CalledForSince(assets, limits, policy, now, n, mid, i);
      assert actions[..n] == mid[..n];
      QuotaEviction(assets, limits, policy, now, n, actions, i);
    } else {
      assert i >= |mid|;
      PressureEviction(assets, limits, policy, now, actions, i);
    }
  }

  // ---------------------------------------------------------------- how the groups end

  /** A partition was over its trigger and ends above its low-water mark. */
  ghost predicate Unmet(assets: map<Id, Asset>, limits: LimitTable, policy: SweepPolicy, before: seq<Action>,
                        after: seq<Action>, space: Space, partition: string) {
    var l := LimitsOf(limits, space, partition);
    && QuotaTriggered(assets - Chosen(before), l, policy, space, partition)
    && Total(assets - Chosen(after), UsedBytes(space, partition)) as real > Share(l.bytes.value, policy.quotaTarget)
  }

  /** All that could go has gone. */
  ghost predicate NoneLeft(assets: map<Id, Asset>, actions: seq<Action>, m: Measure) {
    forall id <- assets - Chosen(actions) :: !Candidate(m, assets[id])
  }

  /** The actions from `n` on are quota evictions from other partitions than this one. */
  ghost predicate FromOthers(assets: map<Id, Asset>, actions: seq<Action>, n: nat, space: Space, partition: string) {
    forall i | n <= i < |actions| ::
      && actions[i].id in assets && actions[i].asset == assets[actions[i].id] && actions[i].reason == QuotaLfu
      && !OfPartition(actions[i], space, partition)
  }

  lemma SameSum(assets: map<Id, Asset>, before: seq<Action>, after: seq<Action>, space: Space, partition: string)
    requires before <= after && FromOthers(assets, after, |before|, space, partition)
    ensures Total(assets - Chosen(before), UsedBytes(space, partition))
         == Total(assets - Chosen(after), UsedBytes(space, partition))
  {
    Untouched(assets, after, |before|, UsedBytes(space, partition));
    assert after[..|before|] == before;
  }

  lemma QuotaStepEnds(assets: map<Id, Asset>, limits: LimitTable, policy: SweepPolicy, now: int, plan: Plan,
                      space: Space, partition: string)
    ensures var after := QuotaStep(assets, limits, policy, now, plan, space, partition);
            && (forall s :: s in after.exhausted <==>
                 s in plan.exhausted
                 || (s == space && Unmet(assets, limits, policy, plan.actions, after.actions, space, partition)))
            && (Unmet(assets, limits, policy, plan.actions, after.actions, space, partition) ==>
                 NoneLeft(assets, after.actions, UsedBytes(space, partition)))
  {
    var l := LimitsOf(limits, space, partition);
    if QuotaTriggered(assets - Chosen(plan.actions), l, policy, space, partition) {
      EvictGroupLaws(assets, plan, UsedBytes(space, partition), Share(l.bytes.value, policy.quotaTarget), QuotaLfu,
                     now);
      hide EvictGroup, Total, Purged, EachBest, Share, PolicyOk, Chosen, Candidate;
    }
  }

  ghost predicate AnyUnmet(assets: map<Id, Asset>, limits: LimitTable, policy: SweepPolicy, before: seq<Action>,
                           after: seq<Action>, space: Space, parts: seq<SortKey>) {
    exists p | 0 <= p < |parts| ::
      SpaceOf(parts[p].0) == space && Unmet(assets, limits, policy, before, after, space, parts[p].1)
  }

  ghost predicate UnmetAreStuck(assets: map<Id, Asset>, limits: LimitTable, policy: SweepPolicy, before: seq<Action>,
                                after: seq<Action>, parts: seq<SortKey>) {
    forall p | 0 <= p < |parts| ::
      Unmet(assets, limits, policy, before, after, SpaceOf(parts[p].0), parts[p].1)
      ==> NoneLeft(assets, after, UsedBytes(SpaceOf(parts[p].0), parts[p].1))
  }

  /** One more partition visited: what it ends at counts, and the others stay as they were. */
  lemma OneMorePartition(assets: map<Id, Asset>, limits: LimitTable, policy: SweepPolicy, now: int,
                         before: seq<Action>, mid: Plan, parts: seq<SortKey>, after: Plan)
    requires parts != [] && before <= mid.actions <= after.actions
    requires var last := parts[|parts| - 1];
             && after == QuotaStep(assets, limits, policy, now, mid, SpaceOf(last.0), last.1)
             && FromOthers(assets, mid.actions, |before|, SpaceOf(last.0), last.1)
    requires forall p | 0 <= p < |parts| - 1 ::
               FromOthers(assets, after.actions, |mid.actions|, SpaceOf(parts[p].0), parts[p].1)
    requires UnmetAreStuck(assets, limits, policy, before, mid.actions, parts[..|parts| - 1])
    ensures forall s ::
              s in after.exhausted <==>
              s in mid.exhausted
              || (s == SpaceOf(parts[|parts| - 1].0)
                  && Unmet(assets, limits, policy, before, after.actions, s, parts[|parts| - 1].1))
    ensures forall p | 0 <= p < |parts| - 1 ::
              Unmet(assets, limits, policy, before, after.actions, SpaceOf(parts[p].0), parts[p].1)
              == Unmet(assets, limits, policy, before, mid.actions, SpaceOf(parts[p].0), parts[p].1)
    ensures UnmetAreStuck(assets, limits, policy, before, after.actions, parts)
  {
    hide QuotaStep, Total, Chosen, Share, PolicyOk, SpaceOf, FromOthers, NoneLeft;
    var last := parts[|parts| - 1];
    QuotaStepEnds(assets, limits, policy, now, mid, SpaceOf(last.0), last.1);
    SameSum(assets, before, mid.actions, SpaceOf(last.0), last.1);
    forall p | 0 <= p < |parts| - 1
      ensures Unmet(assets, limits, policy, before, after.actions, SpaceOf(parts[p].0), parts[p].1)
           == Unmet(assets, limits, policy, before, mid.actions, SpaceOf(parts[p].0), parts[p].1)
      ensures NoneLeft(assets, mid.actions, UsedBytes(SpaceOf(parts[p].0), parts[p].1))
          ==> NoneLeft(assets, after.actions, UsedBytes(SpaceOf(parts[p].0), parts[p].1))
    {
      SameSum(assets, mid.actions, after.actions, SpaceOf(parts[p].0), parts[p].1);
      if NoneLeft(assets, mid.actions, UsedBytes(SpaceOf(parts[p].0), parts[p].1)) {
        NoneLeftStays(assets, mid.actions, after.actions, UsedBytes(SpaceOf(parts[p].0), parts[p].1));
      }
    }
    forall p | 0 <= p < |parts|
      ensures Unmet(assets, limits, policy, before, after.actions, SpaceOf(parts[p].0), parts[p].1)
          ==> NoneLeft(assets, after.actions, UsedBytes(SpaceOf(parts[p].0), parts[p].1))
    {
      assert p < |parts| - 1 ==> parts[..|parts| - 1][p] == parts[p];
    }
  }

  lemma NoneLeftStays(assets: map<Id, Asset>, actions: seq<Action>, later: seq<Action>, m: Measure)
    requires actions <= later && NoneLeft(assets, actions, m)
    ensures NoneLeft(assets, later, m)
  {
    ChosenGrows(assets, actions, later, m);
  }

  /** Evictions of the visited partitions leave an unvisited one alone. */
  lemma RunIsElsewhere(assets: map<Id, Asset>, limits: LimitTable, policy: SweepPolicy, now: int, actions: seq<Action>,
                       n: nat, parts: seq<SortKey>, space: Space, partition: string)
    requires AllJustified(assets, limits, policy, now, actions)
    requires n <= |actions| && forall i | n <= i < |actions| :: Visited(parts, actions[i])
    requires forall p | 0 <= p < |parts| :: SpaceOf(parts[p].0) != space || parts[p].1 != partition
    ensures FromOthers(assets, actions, n, space, partition)
  {
    hide SpaceOf, QuotaReason;
    forall i | n <= i < |actions|
      ensures && actions[i].id in assets && actions[i].asset == assets[actions[i].id] && actions[i].reason == QuotaLfu
              && !OfPartition(actions[i], space, partition)
    {
      assert Justified(assets, limits, policy, now, actions[..i], actions[i]);
      assert Visited(parts, actions[i]);
    }
  }

  lemma {:induction false} QuotaPassEnds(assets: map<Id, Asset>, limits: LimitTable, policy: SweepPolicy, now: int,
                                         plan: Plan, parts: seq<SortKey>)
    requires AllJustified(assets, limits, policy, now, plan.actions)
    requires forall i | 0 <= i < |parts| ::
               Evictable(SpaceOf(parts[i].0)) && parts[i].0 == SpaceRank(SpaceOf(parts[i].0))
    requires forall i, j | 0 <= i < j < |parts| :: parts[i] != parts[j]
    requires forall act <- plan.actions :: !Lfu(act)
    ensures var after := QuotaPass(assets, limits, policy, now, plan, parts);
            && (forall s :: s in after.exhausted <==>
                 s in plan.exhausted || AnyUnmet(assets, limits, policy, plan.actions, after.actions, s, parts))
            && UnmetAreStuck(assets, limits, policy, plan.actions, after.actions, parts)
  {
    hide QuotaStep, Unmet, UnmetAreStuck, SpaceOf, SpaceRank, AllJustified, PolicyOk, Purged, FromOthers;
    var after := QuotaPass(assets, limits, policy, now, plan, parts);
    if parts == [] {
      NothingIsStuck(assets, limits, policy, plan.actions, after.actions);
    } else {
      var n := |parts| - 1;
      QuotaPassEnds(assets, limits, policy, now, plan, parts[..n]);
      var mid := QuotaPass(assets, limits, policy, now, plan, parts[..n]);
      OthersAreLeft(assets, limits, policy, now, plan, parts);
      hide QuotaPass;
      OneMorePartition(assets, limits, policy, now, plan.actions, mid, parts, after);
      forall s ensures AnyUnmet(assets, limits, policy, plan.actions, after.actions, s, parts)
        <==> AnyUnmet(assets, limits, policy, plan.actions, mid.actions, s, parts[..n])
             || (SpaceOf(parts[n].0) == s
                 && Unmet(assets, limits, policy, plan.actions, after.actions, s, parts[n].1))
      {
        AnyUnmetNext(assets, limits, policy, plan.actions, mid.actions, after.actions, s, parts);
      }
    }
  }

  lemma NothingIsStuck(assets: map<Id, Asset>, limits: LimitTable, policy: SweepPolicy, before: seq<Action>,
                       after: seq<Action>)
    ensures UnmetAreStuck(assets, limits, policy, before, after, [])
  {
  }

  lemma AnyUnmetNext(assets: map<Id, Asset>, limits: LimitTable, policy: SweepPolicy, before: seq<Action>,
                     mid: seq<Action>, after: seq<Action>, s: Space, parts: seq<SortKey>)
    requires parts != []
    requires forall p | 0 <= p < |parts| - 1 ::
               Unmet(assets, limits, policy, before, after, SpaceOf(parts[p].0), parts[p].1)
               == Unmet(assets, limits, policy, before, mid, SpaceOf(parts[p].0), parts[p].1)
    ensures AnyUnmet(assets, limits, policy, before, after, s, parts)
       <==> AnyUnmet(assets, limits, policy, before, mid, s, parts[..|parts| - 1])
            || (SpaceOf(parts[|parts| - 1].0) == s
                && Unmet(assets, limits, policy, before, after, s, parts[|parts| - 1].1))
  {
    hide Unmet, SpaceOf;
    var n := |parts| - 1;
    if AnyUnmet(assets, limits, policy, before, mid, s, parts[..n]) {
      var p :| 0 <= p < n && SpaceOf(parts[..n][p].0) == s && Unmet(assets, limits, policy, before, mid, s,
                                                                     parts[..n][p].1);
      assert SpaceOf(parts[p].0) == s && Unmet(assets, limits, policy, before, after, s, parts[p].1);
    }
    if AnyUnmet(assets, limits, policy, before, after, s, parts) {
      var p :| 0 <= p < |parts| && SpaceOf(parts[p].0) == s && Unmet(assets, limits, policy, before, after, s,
                                                                      parts[p].1);
      assert p < n ==> SpaceOf(parts[..n][p].0) == s && Unmet(assets, limits, policy, before, mid, s, parts[..n][p].1);
    }
  }

  /** Visiting a partition leaves the others alone. */
  lemma OthersAreLeft(assets: map<Id, Asset>, limits: LimitTable, policy: SweepPolicy, now: int, plan: Plan,
                      parts: seq<SortKey>)
    requires AllJustified(assets, limits, policy, now, plan.actions) && parts != []
    requires forall i | 0 <= i < |parts| ::
               Evictable(SpaceOf(parts[i].0)) && parts[i].0 == SpaceRank(SpaceOf(parts[i].0))
    requires forall i, j | 0 <= i < j < |parts| :: parts[i] != parts[j]
    requires forall act <- plan.actions :: !Lfu(act)
    ensures var n := |parts| - 1;
            var mid := QuotaPass(assets, limits, policy, now, plan, parts[..n]).actions;
            var after := QuotaPass(assets, limits, policy, now, plan, parts).actions;
            && plan.actions <= mid <= after
            && FromOthers(assets, mid, |plan.actions|, SpaceOf(parts[n].0), parts[n].1)
            && forall p | 0 <= p < n :: FromOthers(assets, after, |mid|, SpaceOf(parts[p].0), parts[p].1)
  {
    hide QuotaStep, SpaceOf, SpaceRank, AllJustified, PolicyOk, Purged, FromOthers, QuotaCaused;
    var n := |parts| - 1;
    var space, partition := SpaceOf(parts[n].0), parts[n].1;
    var mid := QuotaPass(assets, limits, policy, now, plan, parts[..n]);
    var after := QuotaPass(assets, limits, policy, now, plan, parts);
    QuotaPassRuns(assets, limits, policy, now, plan, parts[..n]);
    QuotaPassLaws(assets, limits, policy, now, plan, parts[..n]);
    QuotaStepLaws(assets, limits, policy, now, mid, space, partition);
    hide QuotaPass, QuotaSettled;
    forall p | 0 <= p < n ensures SpaceOf(parts[p].0) != space || parts[p].1 != partition {
      assert parts[p] != parts[n];
    }
    RunIsElsewhere(assets, limits, policy, now, mid.actions, |plan.actions|, parts[..n], space, partition);
    forall i | |mid.actions| <= i < |after.actions| ensures Visited([parts[n]], after.actions[i]) {
      NoneOfVisited(assets, mid.actions, |plan.actions|, plan.actions, space, partition);
      QuotaStepRuns(assets, limits, policy, now, mid, space, partition, i);
      assert [parts[n]][0] == parts[n];
    }
    forall p | 0 <= p < n ensures FromOthers(assets, after.actions, |mid.actions|, SpaceOf(parts[p].0), parts[p].1) {
      RunIsElsewhere(assets, limits, policy, now, after.actions, |mid.actions|, [parts[n]], SpaceOf(parts[p].0),
                     parts[p].1);
    }
  }

  lemma NoneOfVisited(assets: map<Id, Asset>, mid: seq<Action>, n: nat, before: seq<Action>, space: Space,
                      partition: string)
    requires before <= mid && n == |before| && FromOthers(assets, mid, n, space, partition)
    requires forall act <- before :: !Lfu(act)
    ensures NoneOf(mid, space, partition)
  {
    forall act <- mid ensures !OfPartition(act, space, partition) {
      var k :| 0 <= k < |mid| && mid[k] == act;
      if k < n { assert before[k] in before; }
    }
  }

  // ---------------------------------------------------------------- buckets

  /** A bucket was over its share of the budget and ends above its low-water mark. */
  ghost predicate BucketUnmet(assets: map<Id, Asset>, policy: SweepPolicy, after: seq<Action>, space: Space) {
    && PressureTriggered(assets, Purged(after), policy, space)
    && Total(assets - Chosen(after), BucketUsed(space)) as real
       > Share(policy.capacity[space], policy.pressureTarget)
  }

  ghost predicate InSpace(assets: map<Id, Asset>, actions: seq<Action>, n: nat, space: Space) {
    forall i | n <= i < |actions| :: actions[i].id in assets && assets[actions[i].id].space == space
  }

  lemma PressureStepEnds(assets: map<Id, Asset>, policy: SweepPolicy, now: int, plan: Plan, space: Space)
    ensures var after := PressureStep(assets, policy, now, plan, space);
            && plan.actions <= after.actions && Purged(after.actions) == Purged(plan.actions)
            && InSpace(assets, after.actions, |plan.actions|, space)
            && (forall s :: s in after.exhausted <==>
                 s in plan.exhausted || (s == space && BucketUnmet(assets, policy, after.actions, space)))
            && (BucketUnmet(assets, policy, after.actions, space) ==>
                 NoneLeft(assets, after.actions, BucketUsed(space)))
  {
    if PressureTriggered(assets, Purged(plan.actions), policy, space) {
      var target := Share(policy.capacity[space], policy.pressureTarget);
      EvictGroupLaws(assets, plan, BucketUsed(space), target, PressureLfu, now);
      hide EvictGroup, Total, Purged, Share, PolicyOk, Chosen, Score, Less;
      var actions := PressureStep(assets, policy, now, plan, space).actions;
      forall i | |plan.actions| <= i < |actions|
        ensures actions[i].id in assets && assets[actions[i].id].space == space
      {
        assert BestAt(assets, actions, i, BucketUsed(space), target, PressureLfu, now);
      }
    }
  }

  predicate Budgeted(spaces: seq<SortKey>, space: Space) {
    exists p | 0 <= p < |spaces| :: SpaceOf(spaces[p].0) == space
  }

  /** Evicting elsewhere changes nothing about a bucket. */
  lemma OtherBucket(assets: map<Id, Asset>, policy: SweepPolicy, mid: seq<Action>, after: seq<Action>, visited: Space,
                    space: Space)
    requires mid <= after && Purged(after) == Purged(mid) && InSpace(assets, after, |mid|, visited)
    requires space != visited
    ensures BucketUnmet(assets, policy, after, space) == BucketUnmet(assets, policy, mid, space)
  {
    Untouched(assets, after, |mid|, BucketUsed(space));
    assert after[..|mid|] == mid;
    hide Chosen, Total, Purged, Share, PolicyOk;
  }

  lemma {:induction false} PressurePassEnds(assets: map<Id, Asset>, policy: SweepPolicy, now: int, plan: Plan,
                                            spaces: seq<SortKey>)
    requires forall i, j | 0 <= i < j < |spaces| :: SpaceOf(spaces[i].0) != SpaceOf(spaces[j].0)
    ensures var after := PressurePass(assets, policy, now, plan, spaces);
            && plan.actions <= after.actions && Purged(after.actions) == Purged(plan.actions)
            && (forall s :: s in after.exhausted <==>
                 s in plan.exhausted || (Budgeted(spaces, s) && BucketUnmet(assets, policy, after.actions, s)))
            && (forall s :: Budgeted(spaces, s) && BucketUnmet(assets, policy, after.actions, s) ==>
                 NoneLeft(assets, after.actions, BucketUsed(s)))
  {
    hide PressureStep, SpaceOf, PolicyOk, Purged, NoneLeft, BucketUnmet, InSpace;
    if spaces != [] {
      var n := |spaces| - 1;
      var visited := SpaceOf(spaces[n].0);
      PressurePassEnds(assets, policy, now, plan, spaces[..n]);
      var mid := PressurePass(assets, policy, now, plan, spaces[..n]);
      var after := PressurePass(assets, policy, now, plan, spaces);
      PressureStepEnds(assets, policy, now, mid, visited);
      hide PressurePass;
      forall s
        ensures Budgeted(spaces, s) <==> Budgeted(spaces[..n], s) || s == visited
        ensures Budgeted(spaces[..n], s) ==> s != visited
      {
        if Budgeted(spaces[..n], s) {
          var p :| 0 <= p < n && SpaceOf(spaces[..n][p].0) == s;
          assert SpaceOf(spaces[p].0) == s;
        }
        if Budgeted(spaces, s) {
          var p :| 0 <= p < |spaces| && SpaceOf(spaces[p].0) == s;
          assert p < n ==> SpaceOf(spaces[..n][p].0) == s;
        }
      }
      forall s | s != visited
        ensures BucketUnmet(assets, policy, after.actions, s) == BucketUnmet(assets, policy, mid.actions, s)
        ensures NoneLeft(assets, mid.actions, BucketUsed(s)) ==> NoneLeft(assets, after.actions, BucketUsed(s))
      {
        OtherBucket(assets, policy, mid.actions, after.actions, visited, s);
        if NoneLeft(assets, mid.actions, BucketUsed(s)) {
          NoneLeftStays(assets, mid.actions, after.actions, BucketUsed(s));
        }
      }
    }
  }

  lemma DistinctBudgets(policy: SweepPolicy, spaces: seq<SortKey>)
    requires spaces == Sorted(BudgetKeys(policy))
    ensures forall i, j | 0 <= i < j < |spaces| :: SpaceOf(spaces[i].0) != SpaceOf(spaces[j].0)
    ensures forall s :: Budgeted(spaces, s) <==> s in policy.capacity
  {
    IncreasingHasNoDuplicates(spaces);
    BudgetedSpaces(policy, spaces);
    AllBudgetsVisited(policy, spaces);
    BudgetKeysAre(policy, spaces);
    hide Sorted, Increasing, PolicyOk, BudgetKeys, SpaceOf, SpaceRank, Elements;
    forall s | s in policy.capacity ensures Budgeted(spaces, s) {
      assert s in VisitedSpaces(spaces, |spaces|);
    }
  }

  lemma BudgetKeysAre(policy: SweepPolicy, spaces: seq<SortKey>)
    requires Elements(spaces) == BudgetKeys(policy)
    ensures forall i | 0 <= i < |spaces| :: spaces[i] == (SpaceRank(SpaceOf(spaces[i].0)), "")
  {
    hide PolicyOk;
    forall i | 0 <= i < |spaces| ensures spaces[i] == (SpaceRank(SpaceOf(spaces[i].0)), "") {
      assert spaces[i] in Elements(spaces);
    }
  }

  // ---------------------------------------------------------------- in figures

  /** No other asset of the group could have gone. */
  ghost predicate OnlyExemptLeft(rows: map<Id, Asset>, space: Space, partition: Option<string>) {
    forall id <- rows | rows[id].space == space && (partition.Some? ==> rows[id].partition == partition.value) ::
      rows[id].state != Available || rows[id].policy == Exempt
  }

  /** The partition had reached its trigger once everything due had gone, and ends above its low-water mark. */
  ghost predicate QuotaUnmet(assets: map<Id, Asset>, limits: LimitTable, policy: SweepPolicy, actions: seq<Action>,
                             n: nat, space: Space, partition: string)
    requires n <= |actions|
  {
    && OverQuota(Remaining(assets, actions, n), limits, policy, space, partition)
    && LiveBytes(Remaining(assets, actions, |actions|), space, partition) as real
       > Part(limits[(space, partition)].bytes.value, policy.quotaTarget)
  }

  ghost predicate BudgetUnmet(assets: map<Id, Asset>, policy: SweepPolicy, actions: seq<Action>, space: Space) {
    && OverBudget(assets, actions, policy, space)
    && BucketLive(Remaining(assets, actions, |actions|), space) as real
       > Part(PositiveBudget(policy, space), policy.pressureTarget)
  }

  lemma QuotaUnmetIs(assets: map<Id, Asset>, limits: LimitTable, policy: SweepPolicy, actions: seq<Action>, n: nat,
                     space: Space, partition: string)
    requires n <= |actions|
    ensures QuotaUnmet(assets, limits, policy, actions, n, space, partition)
       <==> Evictable(space) && Unmet(assets, limits, policy, actions[..n], actions, space, partition)
  {
    RemainingIs(assets, actions, n);
    RemainingIs(assets, actions, |actions|);
    assert actions[..|actions|] == actions;
    OverQuotaIs(Remaining(assets, actions, n), limits, policy, space, partition);
    MeasuresInFigures(Remaining(assets, actions, |actions|), space, partition);
    hide PolicyOk, Total, LiveBytes, Chosen, OverQuota, Remaining, Part, Share;
  }

  lemma BudgetUnmetIs(assets: map<Id, Asset>, policy: SweepPolicy, actions: seq<Action>, space: Space)
    ensures BudgetUnmet(assets, policy, actions, space) <==> BucketUnmet(assets, policy, actions, space)
  {
    RemainingIs(assets, actions, |actions|);
    assert actions[..|actions|] == actions;
    OverBudgetIs(assets, actions, policy, space);
    MeasuresInFigures(Remaining(assets, actions, |actions|), space, "");
    hide PolicyOk, Total, BucketLive, Chosen, Purged, OverBudget, Remaining, Part, Share;
  }

  lemma OnlyExemptIs(assets: map<Id, Asset>, actions: seq<Action>, space: Space, partition: string)
    ensures OnlyExemptLeft(Remaining(assets, actions, |actions|), space, Some(partition))
       <==> NoneLeft(assets, actions, UsedBytes(space, partition))
    ensures OnlyExemptLeft(Remaining(assets, actions, |actions|), space, None)
       <==> NoneLeft(assets, actions, BucketUsed(space))
  {
    RemainingIs(assets, actions, |actions|);
    assert actions[..|actions|] == actions;
    hide Remaining, Chosen;
  }

  /** Where nothing is left to take, later evictions take nothing. */
  lemma StuckStays(assets: map<Id, Asset>, limits: LimitTable, policy: SweepPolicy, now: int, mid: seq<Action>,
                   actions: seq<Action>, space: Space, partition: string)
    requires mid <= actions && AllJustified(assets, limits, policy, now, actions)
    requires forall i | |mid| <= i < |actions| :: Lfu(actions[i])
    requires NoneLeft(assets, mid, UsedBytes(space, partition))
    ensures Total(assets - Chosen(mid), UsedBytes(space, partition))
         == Total(assets - Chosen(actions), UsedBytes(space, partition))
  {
    var m := UsedBytes(space, partition);
    hide Total, Share, PolicyOk, Less, Score;
    forall i | |mid| <= i < |actions| ensures actions[i].id in assets && Weigh(m, assets[actions[i].id]) == 0 {
      assert Justified(assets, limits, policy, now, actions[..i], actions[i]);
      VictimFacts(assets, limits, policy, now, actions[..i], actions[i]);
      assert mid <= actions[..i];
      ChosenGrows(assets, mid, actions[..i], m);
      hide Chosen, AllJustified;
      assert actions[i].id in assets - Chosen(mid);
    }
    Untouched(assets, actions, |mid|, m);
    assert actions[..|mid|] == mid;
  }

  /** Unmet after the quota pass is unmet in the end, and then all that could go has gone. */
  lemma UnmetInTheEnd(assets: map<Id, Asset>, limits: LimitTable, policy: SweepPolicy, now: int, space: Space,
                      partition: string)
    requires Evictable(space)
    ensures var timed, mid := TimedPlan(assets, policy, now).actions, QuotaPlan(assets, limits, policy, now).actions;
            var actions := PlanOf(assets, limits, policy, now).actions;
            && (Unmet(assets, limits, policy, timed, actions, space, partition)
                <==> Unmet(assets, limits, policy, timed, mid, space, partition))
            && (Unmet(assets, limits, policy, timed, actions, space, partition) ==>
                 && NoneLeft(assets, actions, UsedBytes(space, partition))
                 && (SpaceRank(space), partition) in Elements(Sorted(PartitionKeys(assets))))
  {
    var timed, mid := TimedPlan(assets, policy, now).actions, QuotaPlan(assets, limits, policy, now).actions;
    var actions, parts := PlanOf(assets, limits, policy, now).actions, Sorted(PartitionKeys(assets));
    var m := UsedBytes(space, partition);
    PlanParts(assets, limits, policy, now);
    PlanLaws(assets, limits, policy, now);
    QuotaEnds(assets, limits, policy, now);
    hide PlanOf, QuotaPlan, QuotaPass, TimedPlan, PartitionKeys, PolicyOk, Share, Total, Chosen, NoneLeft, Sorted,
      QuotaRun, PressureRun, QuotaSettled, PressureSettled, Due, AllJustified, UnmetAreStuck;
    ChosenGrows(assets, mid, actions, m);
    if Unmet(assets, limits, policy, timed, mid, space, partition) {
      UsedMeansListed(assets, timed, space, partition);
      var p :| 0 <= p < |parts| && parts[p] == (SpaceRank(space), partition);
      StuckAt(assets, limits, policy, timed, mid, parts, p);
      StuckStays(assets, limits, policy, now, mid, actions, space, partition);
      NoneLeftStays(assets, mid, actions, m);
    }
  }

  lemma StuckAt(assets: map<Id, Asset>, limits: LimitTable, policy: SweepPolicy, before: seq<Action>,
                after: seq<Action>, parts: seq<SortKey>, p: nat)
    requires p < |parts| && UnmetAreStuck(assets, limits, policy, before, after, parts)
    requires Unmet(assets, limits, policy, before, after, SpaceOf(parts[p].0), parts[p].1)
    ensures NoneLeft(assets, after, UsedBytes(SpaceOf(parts[p].0), parts[p].1))
  {
    hide Unmet, NoneLeft;
  }

  lemma UsedMeansListed(assets: map<Id, Asset>, actions: seq<Action>, space: Space, partition: string)
    requires Evictable(space) && Total(assets - Chosen(actions), UsedBytes(space, partition)) > 0
    ensures (SpaceRank(space), partition) in PartitionKeys(assets)
  {
    if (SpaceRank(space), partition) !in PartitionKeys(assets) {
      forall id <- assets ensures !InGroup(UsedBytes(space, partition), assets[id]) {
        if Evictable(assets[id].space) {
          assert (SpaceRank(assets[id].space), assets[id].partition) in PartitionKeys(assets);
        }
      }
      EmptyPartition(assets - Chosen(actions), UsedBytes(space, partition));
    }
  }

  lemma QuotaEnds(assets: map<Id, Asset>, limits: LimitTable, policy: SweepPolicy, now: int)
    ensures var timed, mid := TimedPlan(assets, policy, now).actions, QuotaPlan(assets, limits, policy, now);
            var parts := Sorted(PartitionKeys(assets));
            && (forall s :: s in mid.exhausted <==> AnyUnmet(assets, limits, policy, timed, mid.actions, s, parts))
            && UnmetAreStuck(assets, limits, policy, timed, mid.actions, parts)
  {
    var ids, parts := Sorted(IdKeys(assets)), Sorted(PartitionKeys(assets));
    var timed := TimedPlan(assets, policy, now);
    SortedIds(assets, ids);
    TimedAreTimely(assets, ids, policy, now);
    TimedPlanLaws(assets, limits, policy, now);
    DistinctPartitions(assets, parts);
    QuotaPassEnds(assets, limits, policy, now, timed, parts);
    hide PolicyOk, QuotaPass, PartitionKeys, Sorted, Lfu, AllJustified, UnmetAreStuck, AnyUnmet, DueActions, Due;
  }

  lemma BucketEnds(assets: map<Id, Asset>, limits: LimitTable, policy: SweepPolicy, now: int)
    ensures var plan, mid := PlanOf(assets, limits, policy, now), QuotaPlan(assets, limits, policy, now);
            forall s ::
              && (s in plan.exhausted <==> s in mid.exhausted || BucketUnmet(assets, policy, plan.actions, s))
              && (BucketUnmet(assets, policy, plan.actions, s) ==> NoneLeft(assets, plan.actions, BucketUsed(s)))
  {
    var spaces := Sorted(BudgetKeys(policy));
    DistinctBudgets(policy, spaces);
    PressurePassEnds(assets, policy, now, QuotaPlan(assets, limits, policy, now), spaces);
    hide QuotaPass, PressurePass, PartitionKeys, BudgetKeys, Sorted, TimedPlan, PolicyOk, NoneLeft, Budgeted, Total,
      Share,
      Purged, Chosen;
  }

  /** Every group that had reached its trigger is brought down to its low-water mark, or only exempt assets are left
      of it; and a bucket is reported exhausted exactly when that fails for it or for one of its partitions. */
  lemma GroupsAreRelieved(assets: map<Id, Asset>, limits: LimitTable, policy: SweepPolicy, now: int, n: nat,
                          space: Space)
    requires TimelyFirst(PlanOf(assets, limits, policy, now).actions, n)
    ensures var plan := PlanOf(assets, limits, policy, now);
            var left := Remaining(assets, plan.actions, |plan.actions|);
            && (forall partition | QuotaUnmet(assets, limits, policy, plan.actions, n, space, partition) ::
                 OnlyExemptLeft(left, space, Some(partition)))
            && (BudgetUnmet(assets, policy, plan.actions, space) ==> OnlyExemptLeft(left, space, None))
            && (space in plan.exhausted <==>
                 BudgetUnmet(assets, policy, plan.actions, space)
                 || exists partition :: QuotaUnmet(assets, limits, policy, plan.actions, n, space, partition))
  {
    var plan := PlanOf(assets, limits, policy, now);
    var timed, mid := TimedPlan(assets, policy, now).actions, QuotaPlan(assets, limits, policy, now);
    PlanParts(assets, limits, policy, now);
    BucketEnds(assets, limits, policy, now);
    QuotaEnds(assets, limits, policy, now);
    BudgetUnmetIs(assets, policy, plan.actions, space);
    OnlyExemptIs(assets, plan.actions, space, "");
    hide PlanOf, QuotaPlan, QuotaPass, TimedPlan, PartitionKeys, Sorted, PolicyOk, Remaining, OnlyExemptLeft, NoneLeft,
      BudgetUnmet, QuotaUnmet, Unmet, BucketUnmet, QuotaRun, PressureRun, UnmetAreStuck;
    OneSplit(plan.actions, n, |timed|);
    assert plan.actions[..n] == timed;
    forall partition
      ensures QuotaUnmet(assets, limits, policy, plan.actions, n, space, partition)
         <==> Evictable(space) && Unmet(assets, limits, policy, timed, mid.actions, space, partition)
      ensures QuotaUnmet(assets, limits, policy, plan.actions, n, space, partition)
          ==> OnlyExemptLeft(Remaining(assets, plan.actions, |plan.actions|), space, Some(partition))
              && (SpaceRank(space), partition) in Elements(Sorted(PartitionKeys(assets)))
    {
      QuotaUnmetIs(assets, limits, policy, plan.actions, n, space, partition);
      if Evictable(space) { UnmetInTheEnd(assets, limits, policy, now, space, partition); }
      OnlyExemptIs(assets, plan.actions, space, partition);
    }
    AnyUnmetIs(assets, limits, policy, timed, mid.actions, space);
  }

  lemma AnyUnmetIs(assets: map<Id, Asset>, limits: LimitTable, policy: SweepPolicy, before: seq<Action>,
                   after: seq<Action>, space: Space)
    ensures var parts := Sorted(PartitionKeys(assets));
            AnyUnmet(assets, limits, policy, before, after, space, parts)
            <==> Evictable(space) && exists partition :: Unmet(assets, limits, policy, before, after, space, partition)
  {
    var parts := Sorted(PartitionKeys(assets));
    DistinctPartitions(assets, parts);
    hide Total, Chosen, Share, PolicyOk, Sorted, PartitionKeys;
    if Evictable(space) && exists partition :: Unmet(assets, limits, policy, before, after, space, partition) {
      var partition :| Unmet(assets, limits, policy, before, after, space, partition);
      UsedMeansListed(assets, before, space, partition);
      assert (SpaceRank(space), partition) in Elements(parts);
      var p :| 0 <= p < |parts| && parts[p] == (SpaceRank(space), partition);
      assert SpaceOf(parts[p].0) == space;
    }
  }

  /** The ratio reported of a bucket, times its budget, is what the bucket stores. */
  lemma RatiosInFigures(assets: map<Id, Asset>, policy: SweepPolicy, space: Space)
    ensures space in Ratios(assets, policy) <==> space in policy.capacity
    ensures space in policy.capacity ==>
              Part(PositiveBudget(policy, space), Ratios(assets, policy)[space]) == BucketStored(assets, space) as real
  {
    MeasuresInFigures(assets, space, "");
    if space in policy.capacity { OccupancyTimes(assets, policy, space); }
    hide Total, BucketStored, Occupancy, PolicyOk, Part;
  }

  function Quotient(n: real, d: real): real
    requires d != 0.0
  {
    n / d
  }

  lemma QuotientTimes(n: real, d: real)
    requires d > 0.0
    ensures Quotient(n, d) * d == n
  {
  }

  lemma OccupancyIs(assets: map<Id, Asset>, policy: SweepPolicy, space: Space)
    requires space in policy.capacity
    ensures policy.capacity[space] > 0
    ensures Occupancy(assets, policy, space)
         == Quotient(Total(assets, Physical(space)) as real, policy.capacity[space] as real)
  {
    hide Total;
  }

  lemma OccupancyTimes(assets: map<Id, Asset>, policy: SweepPolicy, space: Space)
    requires space in policy.capacity
    ensures Part(PositiveBudget(policy, space), Occupancy(assets, policy, space))
         == Total(assets, Physical(space)) as real
  {
    OccupancyIs(assets, policy, space);
    hide Occupancy, PolicyOk, Quotient, Total;
    QuotientTimes(Total(assets, Physical(space)) as real, policy.capacity[space] as real);
  }

  // ---------------------------------------------------------------- in what order

  ghost predicate InOrder(actions: seq<Action>, ids: seq<SortKey>) {
    && (forall i | 0 <= i < |actions| :: Listed(ids, actions[i].id))
    && (forall i, j | 0 <= i < j < |actions| :: TextLess(actions[i].id, actions[j].id))
  }

  lemma {:induction false} DueInOrder(assets: map<Id, Asset>, ids: seq<SortKey>, policy: SweepPolicy, now: int)
    requires forall i | 0 <= i < |ids| :: ids[i].1 in assets && ids[i].0 == 0
    requires Increasing(ids)
    ensures InOrder(DueActions(assets, ids, policy, now), ids)
  {
    if ids != [] {
      var n := |ids| - 1;
      var id := ids[n].1;
      DueInOrder(assets, ids[..n], policy, now);
      DueInFigures(id, assets[id], policy, now);
      hide Due, TimeUp, Remedy, PolicyOk, TextLess;
      var actions := DueActions(assets, ids, policy, now);
      var rest := DueActions(assets, ids[..n], policy, now);
      assert rest <= actions && |actions| <= |rest| + 1 && (|actions| > |rest| ==> actions[|rest|].id == id);
      assert Listed(ids, id);
      forall i | 0 <= i < |rest| ensures Listed(ids, actions[i].id) && TextLess(actions[i].id, id) {
        assert Listed(ids[..n], rest[i].id);
        var k :| 0 <= k < n && ids[..n][k].1 == rest[i].id;
        assert Less(ids[k], ids[n]) && ids[k].1 == actions[i].id;
      }
    }
  }

  /** `cache` before `tmp`, and partitions by name. */
  predicate NotAfter(a: Asset, b: Asset) {
    (a.space == Cache && b.space == Tmp)
    || (a.space == b.space && (a.partition == b.partition || TextLess(a.partition, b.partition)))
  }

  ghost predicate InGroupOrder(actions: seq<Action>, n: nat) {
    forall i, j | n <= i < j < |actions| :: NotAfter(actions[i].asset, actions[j].asset)
  }

  lemma PartsInOrder(parts: seq<SortKey>, p: nat, q: nat, a: Asset, b: Asset)
    requires Increasing(parts) && p <= q < |parts|
    requires parts[p].0 == SpaceRank(SpaceOf(parts[p].0)) && parts[q].0 == SpaceRank(SpaceOf(parts[q].0))
    requires Evictable(SpaceOf(parts[p].0)) && Evictable(SpaceOf(parts[q].0))
    requires a.space == SpaceOf(parts[p].0) && a.partition == parts[p].1
    requires b.space == SpaceOf(parts[q].0) && b.partition == parts[q].1
    ensures NotAfter(a, b)
  {
    hide TextLess;
    if p < q { assert Less(parts[p], parts[q]); }
  }

  lemma {:induction false} QuotaInOrder(assets: map<Id, Asset>, limits: LimitTable, policy: SweepPolicy, now: int,
                                        plan: Plan, parts: seq<SortKey>)
    requires Increasing(parts)
    requires forall i | 0 <= i < |parts| ::
               Evictable(SpaceOf(parts[i].0)) && parts[i].0 == SpaceRank(SpaceOf(parts[i].0))
    requires forall i, j | 0 <= i < j < |parts| :: parts[i] != parts[j]
    requires forall act <- plan.actions :: !Lfu(act)
    ensures InGroupOrder(QuotaPass(assets, limits, policy, now, plan, parts).actions, |plan.actions|)
  {
    hide QuotaStep, QuotaCaused, SpaceOf, SpaceRank, Purged, NotAfter, PolicyOk;
    if parts != [] {
      var n := |parts| - 1;
      var space, partition := SpaceOf(parts[n].0), parts[n].1;
      QuotaInOrder(assets, limits, policy, now, plan, parts[..n]);
      QuotaPassRuns(assets, limits, policy, now, plan, parts[..n]);
      var mid := QuotaPass(assets, limits, policy, now, plan, parts[..n]);
      var after := QuotaPass(assets, limits, policy, now, plan, parts);
      QuotaStepLaws(assets, limits, policy, now, mid, space, partition);
      hide QuotaPass, QuotaSettled, AllJustified, Increasing;
      VisitedAreNot(plan.actions, mid.actions, parts);
      forall i, j | |plan.actions| <= i < j < |after.actions|
        ensures NotAfter(after.actions[i].asset, after.actions[j].asset)
      {
        if j >= |mid.actions| {
          QuotaStepRuns(assets, limits, policy, now, mid, space, partition, j);
          if i >= |mid.actions| {
            QuotaStepRuns(assets, limits, policy, now, mid, space, partition, i);
            PartsInOrder(parts, n, n, after.actions[i].asset, after.actions[j].asset);
          } else {
            assert Visited(parts[..n], mid.actions[i]);
            var p :| 0 <= p < n && OfPartition(mid.actions[i], SpaceOf(parts[..n][p].0), parts[..n][p].1);
            PartsInOrder(parts, p, n, after.actions[i].asset, after.actions[j].asset);
          }
        } else {
          assert NotAfter(mid.actions[i].asset, mid.actions[j].asset);
        }
      }
    }
  }

  /** No action before the last partition's turn was an eviction from it. */
  lemma VisitedAreNot(before: seq<Action>, mid: seq<Action>, parts: seq<SortKey>)
    requires parts != [] && before <= mid && forall act <- before :: !Lfu(act)
    requires forall i | |before| <= i < |mid| :: Visited(parts[..|parts| - 1], mid[i])
    requires forall i | 0 <= i < |parts| :: parts[i].0 == SpaceRank(SpaceOf(parts[i].0))
    requires forall i, j | 0 <= i < j < |parts| :: parts[i] != parts[j]
    ensures NoneOf(mid, SpaceOf(parts[|parts| - 1].0), parts[|parts| - 1].1)
  {
    hide SpaceOf, SpaceRank;
    var n := |parts| - 1;
    forall act <- mid ensures !OfPartition(act, SpaceOf(parts[n].0), parts[n].1) {
      var k :| 0 <= k < |mid| && mid[k] == act;
      if k >= |before| {
        var p :| 0 <= p < n && OfPartition(act, SpaceOf(parts[..n][p].0), parts[..n][p].1);
        assert parts[p] != parts[n];
      } else {
        assert before[k] in before;
      }
    }
  }

  lemma QuotaEvictionsInOrder(assets: map<Id, Asset>, limits: LimitTable, policy: SweepPolicy, now: int)
    ensures var actions := PlanOf(assets, limits, policy, now).actions;
            forall i, j | 0 <= i < j < |actions| && actions[i].reason == QuotaLfu && actions[j].reason == QuotaLfu ::
              var a, b := actions[i].asset, actions[j].asset;
              (a.space == Cache && b.space == Tmp)
              || (a.space == b.space && (a.partition == b.partition || Before(a.partition, b.partition)))
  {
    var ids, parts := Sorted(IdKeys(assets)), Sorted(PartitionKeys(assets));
    var timed := TimedPlan(assets, policy, now);
    var mid, actions := QuotaPlan(assets, limits, policy, now).actions, PlanOf(assets, limits, policy, now).actions;
    SortedIds(assets, ids);
    TimedAreTimely(assets, ids, policy, now);
    DistinctPartitions(assets, parts);
    QuotaInOrder(assets, limits, policy, now, timed, parts);
    PlanParts(assets, limits, policy, now);
    hide PlanOf, QuotaPass, DueActions, IdKeys, PartitionKeys, Sorted, TextLess, Before, QuotaRun, PolicyOk, Increasing,
      Elements;
    forall i, j | 0 <= i < j < |actions| && actions[i].reason == QuotaLfu && actions[j].reason == QuotaLfu
      ensures var a, b := actions[i].asset, actions[j].asset;
              (a.space == Cache && b.space == Tmp)
              || (a.space == b.space && (a.partition == b.partition || Before(a.partition, b.partition)))
    {
      assert Lfu(actions[i]) && Lfu(actions[j]);
      assert i >= |timed.actions| && j < |mid|;
      assert NotAfter(mid[i].asset, mid[j].asset);
      TextInFigures(actions[i].asset.partition, actions[j].asset.partition);
    }
  }

  /** What is due comes first, by identifier; then the quota evictions, by bucket and partition; then those for
      pressure. */
  lemma PlanIsInOrder(assets: map<Id, Asset>, limits: LimitTable, policy: SweepPolicy, now: int)
    ensures var actions := PlanOf(assets, limits, policy, now).actions;
            exists n :: && TimelyFirst(actions, n)
                        && forall i, j | 0 <= i < j < n :: Before(actions[i].id, actions[j].id)
    ensures var actions := PlanOf(assets, limits, policy, now).actions;
            forall i, j | 0 <= i < j < |actions| && actions[i].reason == PressureLfu :: actions[j].reason == PressureLfu
    ensures var actions := PlanOf(assets, limits, policy, now).actions;
            forall i, j | 0 <= i < j < |actions| && actions[i].reason == QuotaLfu && actions[j].reason == QuotaLfu ::
              var a, b := actions[i].asset, actions[j].asset;
              (a.space == Cache && b.space == Tmp)
              || (a.space == b.space && (a.partition == b.partition || Before(a.partition, b.partition)))
  {
    QuotaEvictionsInOrder(assets, limits, policy, now);
    var ids, timed := Sorted(IdKeys(assets)), TimedPlan(assets, policy, now).actions;
    var mid, actions := QuotaPlan(assets, limits, policy, now).actions, PlanOf(assets, limits, policy, now).actions;
    forall i | 0 <= i < |ids| ensures ids[i].1 in assets && ids[i].0 == 0 { assert ids[i] in Elements(ids); }
    DueInOrder(assets, ids, policy, now);
    PlanParts(assets, limits, policy, now);
    hide PlanOf, QuotaPlan, DueActions, IdKeys, Sorted, TextLess, Before, QuotaRun, PolicyOk, Increasing, Elements;
    forall i, j | 0 <= i < j < |timed| ensures Before(actions[i].id, actions[j].id) {
      assert actions[i] == timed[i] && actions[j] == timed[j];
      TextInFigures(timed[i].id, timed[j].id);
    }
    assert TimelyFirst(actions, |timed|);
    forall i, j | 0 <= i < j < |actions| && actions[i].reason == PressureLfu ensures actions[j].reason == PressureLfu {
      assert Lfu(actions[i]);
      assert i >= |mid|;
    }
  }
}
