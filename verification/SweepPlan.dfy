/** What a maintenance sweep decides to do: assets whose time is up first, then evictions from
    partitions over their quota, then evictions from buckets short of physical space. */
module SweepPlan {
  import opened Model
  import opened RegistrySpec
  import opened RegistryCopies
  import opened Order

  datatype PolicySettings = PolicySettings(
    pendingSeconds: int,
    graceSeconds: map<Space, int>,
    capacity: map<Space, int>,
    pressureTrigger: real,
    pressureTarget: real,
    quotaTrigger: real,
    quotaTarget: real)

  predicate PolicyOk(p: PolicySettings) {
    && p.pendingSeconds > 0
    && p.graceSeconds.Keys == {Cache, Tmp, Users, Results}
    && (forall s <- p.graceSeconds :: p.graceSeconds[s] >= 0)
    && (forall s <- p.capacity :: p.capacity[s] > 0)
    && 0.0 < p.pressureTrigger <= 1.0 && 0.0 <= p.pressureTarget < p.pressureTrigger
    && 0.0 < p.quotaTrigger <= 1.0 && 0.0 <= p.quotaTarget < p.quotaTrigger
  }

  const WEEK := 604800

  const DEFAULT_POLICY :=
    PolicySettings(86400, map[Cache := WEEK, Tmp := 86400, Users := WEEK, Results := WEEK], map[], 0.9, 0.7, 0.9, 0.75)

  type SweepPolicy = p: PolicySettings | PolicyOk(p) witness DEFAULT_POLICY

  datatype Reason = Orphan | TtlExpired | QuotaLfu | PressureLfu

  /** An intent with the snapshot it was formed on. */
  datatype Action = Action(id: Id, asset: Asset, state: AssetState, reason: Reason, purge: bool)

  datatype Plan = Plan(actions: seq<Action>, exhausted: set<Space>)

  function Chosen(actions: seq<Action>): set<Id> {
    set act <- actions :: act.id
  }

  function Purged(actions: seq<Action>): set<Id> {
    set act <- actions | act.purge :: act.id
  }

  predicate Evictable(space: Space) {
    space.Cache? || space.Tmp?
  }

  // ---------------------------------------------------------------- time-based choices

  /** A trigger or low-water mark. */
  function Share(bytes: int, ratio: real): real { bytes as real * ratio }

  function Grace(policy: SweepPolicy, space: Space): int {
    match space
    case Cache => policy.graceSeconds[Cache]
    case Tmp => policy.graceSeconds[Tmp]
    case Users => policy.graceSeconds[Users]
    case Results => policy.graceSeconds[Results]
  }

  function Due(id: Id, a: Asset, policy: SweepPolicy, now: int): Option<Action> {
    if a.state.Pending? && now - a.createdAt >= policy.pendingSeconds * SECOND
      then Some(Action(id, a, Deleted, Orphan, true))
    else if a.state.Available? && a.expiresAt.Some? && a.expiresAt.value <= now
      then Some(Action(id, a, Expired, TtlExpired, false))
    else if a.state.Expired?
            && now - (if a.expiredAt.Some? then a.expiredAt.value else a.updatedAt) >= Grace(policy,
               a.space) * SECOND then
      Some(Action(id, a, Deleted, TtlExpired, true))
    else if a.state.Deleted? && a.purgedAt.None? then Some(Action(id, a, Deleted, Orphan, true))
    else None
  }

  function DueActions(assets: map<Id, Asset>, ids: seq<SortKey>, policy: SweepPolicy, now: int): seq<Action>
    requires forall i | 0 <= i < |ids| :: ids[i].1 in assets
  {
    if ids == [] then []
    else
      var id := ids[|ids| - 1].1;
      var due := Due(id, assets[id], policy, now);
      DueActions(assets, ids[..|ids| - 1], policy, now) + if due.Some? then [due.value] else []
  }

  function IdKeys(assets: map<Id, Asset>): set<SortKey> {
    set id <- assets :: (0, id)
  }

  // ---------------------------------------------------------------- eviction

  /** A partition or a bucket, as the measure of its available bytes. */
  predicate IsGroup(m: Measure) { m.UsedBytes? || m.BucketUsed? }

  predicate InGroup(m: Measure, a: Asset) {
    a.space == m.space && (m.UsedBytes? ==> a.partition == m.partition)
  }

  /** Bytes not read for long weigh most. */
  function Score(a: Asset, now: int): int {
    Max0(now - if a.lastReadAt.Some? then a.lastReadAt.value else a.createdAt) * Size(a)
  }

  predicate Candidate(m: Measure, a: Asset) {
    InGroup(m, a) && a.state.Available? && a.policy.Inherit?
  }

  function RankKeys(assets: map<Id, Asset>, m: Measure, now: int): set<SortKey> {
    set id <- assets | Candidate(m, assets[id]) :: (Score(assets[id], now), id)
  }

  function Reversed<T>(s: seq<T>): (r: seq<T>)
    ensures |r| == |s| && forall i | 0 <= i < |s| :: r[i] == s[|s| - 1 - i]
  {
    seq(|s|, i requires 0 <= i < |s| => s[|s| - 1 - i])
  }

  /** Candidates, best to evict first. */
  ghost function Ranked(assets: map<Id, Asset>, m: Measure, now: int): (r: seq<SortKey>)
    ensures Elements(r) == RankKeys(assets, m, now)
  {
    var s := Sorted(RankKeys(assets, m, now));
    assert forall i | 0 <= i < |s| :: s[i] == Reversed(s)[|s| - 1 - i];
    Reversed(s)
  }

  /** Best first, each candidate once. */
  lemma RankedOrder(assets: map<Id, Asset>, m: Measure, now: int)
    ensures var r := Ranked(assets, m, now);
            && (forall i, j | 0 <= i < j < |r| :: Less(r[j], r[i]) && r[i].1 != r[j].1)
            && (forall i | 0 <= i < |r| ::
                 r[i].1 in assets && r[i].0 == Score(assets[r[i].1], now)
                 && Candidate(m, assets[r[i].1]))
  {
    var r := Ranked(assets, m, now);
    forall i | 0 <= i < |r|
      ensures r[i].1 in assets && r[i].0 == Score(assets[r[i].1], now) && Candidate(m, assets[r[i].1])
    {
      assert r[i] in Elements(r);
    }
    var s := Sorted(RankKeys(assets, m, now));
    IncreasingHasNoDuplicates(s);
    forall i, j | 0 <= i < j < |r| ensures Less(r[j], r[i]) && r[i].1 != r[j].1 {
      assert r[i] == s[|s| - 1 - i] && r[j] == s[|s| - 1 - j];
    }
  }

  function Ids(ranked: seq<SortKey>, n: nat): set<Id>
    requires n <= |ranked|
  {
    set i | 0 <= i < n :: ranked[i].1
  }

  /** How many of the ranked must go until what is left fits the target, `i` having gone. */
  ghost function StopsAt(left: map<Id, Asset>, ranked: seq<SortKey>, i: nat, m: Measure, target: real): (k: nat)
    requires i <= |ranked|
    ensures i <= k <= |ranked|
    decreases |ranked| - i
  {
    if i == |ranked| || Total(left - Ids(ranked, i), m) as real <= target then i
    else StopsAt(left, ranked, i + 1, m, target)
  }

  predicate AllIn(ranked: seq<SortKey>, n: nat, assets: map<Id, Asset>) {
    n <= |ranked| && forall i | 0 <= i < n :: ranked[i].1 in assets
  }

  function Evictions(assets: map<Id, Asset>, ranked: seq<SortKey>, n: nat, reason: Reason): (r: seq<Action>)
    requires AllIn(ranked, n, assets)
    ensures |r| == n
  {
    seq(n, i requires 0 <= i < n => Action(ranked[i].1, assets[ranked[i].1], Expired, reason, false))
  }

  ghost function EvictGroup(assets: map<Id, Asset>, plan: Plan, m: Measure, target: real, reason: Reason,
                            now: int): Plan {
    var left := assets - Chosen(plan.actions);
    var ranked := Ranked(left, m, now);
    var n := StopsAt(left, ranked, 0, m, target);
    RankedOrder(left, m, now);
    Plan(plan.actions + Evictions(assets, ranked, n, reason),
         plan.exhausted + if Total(left - Ids(ranked, n), m) as real > target then {m.space} else {})
  }

  lemma EvictionsNone(assets: map<Id, Asset>, ranked: seq<SortKey>, reason: Reason)
    ensures AllIn(ranked, 0, assets) && Evictions(assets, ranked, 0, reason) == []
  {
  }

  lemma EvictionsStep(assets: map<Id, Asset>, ranked: seq<SortKey>, i: nat, reason: Reason)
    requires i < |ranked| && AllIn(ranked, |ranked|, assets)
    ensures AllIn(ranked, i, assets) && AllIn(ranked, i + 1, assets) && ranked[i].1 in assets
    ensures Evictions(assets, ranked, i + 1, reason)
         == Evictions(assets, ranked, i, reason) + [Action(ranked[i].1, assets[ranked[i].1], Expired, reason, false)]
  {
  }

  predicate EachOnce(ranked: seq<SortKey>, assets: map<Id, Asset>, m: Measure) {
    && (forall i, j | 0 <= i < j < |ranked| :: ranked[i].1 != ranked[j].1)
    && (forall i | 0 <= i < |ranked| :: ranked[i].1 in assets && Candidate(m, assets[ranked[i].1]))
  }

  /** One eviction takes its own bytes off what is left. */
  lemma EvictOne(left: map<Id, Asset>, ranked: seq<SortKey>, i: nat, m: Measure)
    requires IsGroup(m) && i < |ranked| && EachOnce(ranked, left, m)
    ensures var id := ranked[i].1;
            id in left && Total(left - Ids(ranked, i + 1), m) == Total(left - Ids(ranked, i), m) - Size(left[id])
  {
    var id := ranked[i].1;
    assert Ids(ranked, i + 1) == Ids(ranked, i) + {id};
    var rest := left - Ids(ranked, i);
    assert left - Ids(ranked, i + 1) == rest - {id};
    assert id !in Ids(ranked, i);
    TotalSplit(rest, m, id);
  }

  // ---------------------------------------------------------------- the passes

  function SpaceRank(space: Space): int {
    match space case Cache => 0 case Results => 1 case Tmp => 2 case Users => 3
  }

  function SpaceOf(rank: int): Space {
    if rank == 0 then Cache else if rank == 1 then Results else if rank == 2 then Tmp else Users
  }

  function PartitionKeys(assets: map<Id, Asset>): set<SortKey> {
    set id <- assets | Evictable(assets[id].space) :: (SpaceRank(assets[id].space), assets[id].partition)
  }

  function BudgetKeys(policy: SweepPolicy): set<SortKey> {
    set s <- policy.capacity :: (SpaceRank(s), "")
  }

  lemma BudgetedSpaces(policy: SweepPolicy, spaces: seq<SortKey>)
    requires spaces == Sorted(BudgetKeys(policy))
    ensures forall i | 0 <= i < |spaces| :: SpaceOf(spaces[i].0) in policy.capacity
  {
    forall i | 0 <= i < |spaces| ensures SpaceOf(spaces[i].0) in policy.capacity {
      assert spaces[i] in Elements(spaces);
    }
  }

  /** How full a bucket is: unpurged bytes over its budget. */
  ghost function Occupancy(assets: map<Id, Asset>, policy: SweepPolicy, space: Space): real
    requires space in policy.capacity
  {
    assert policy.capacity[space] > 0;
    Total(assets, Physical(space)) as real / policy.capacity[space] as real
  }

  ghost function Ratios(assets: map<Id, Asset>, policy: SweepPolicy): map<Space, real> {
    map s | s in policy.capacity :: Occupancy(assets, policy, s)
  }

  function VisitedSpaces(spaces: seq<SortKey>, n: nat): set<Space>
    requires n <= |spaces|
  {
    set i | 0 <= i < n :: SpaceOf(spaces[i].0)
  }

  lemma VisitedNext(spaces: seq<SortKey>, n: nat)
    requires n < |spaces|
    ensures VisitedSpaces(spaces, n + 1) == VisitedSpaces(spaces, n) + {SpaceOf(spaces[n].0)}
  {
  }

  lemma AllBudgetsVisited(policy: SweepPolicy, spaces: seq<SortKey>)
    requires spaces == Sorted(BudgetKeys(policy))
    ensures VisitedSpaces(spaces, |spaces|) == policy.capacity.Keys
  {
    BudgetedSpaces(policy, spaces);
    forall s <- policy.capacity ensures s in VisitedSpaces(spaces, |spaces|) {
      assert (SpaceRank(s), "") in BudgetKeys(policy);
      assert (SpaceRank(s), "") in Elements(spaces);
      var i :| 0 <= i < |spaces| && spaces[i] == (SpaceRank(s), "");
    }
  }

  /** A partition over its trigger is brought down to its target. */
  ghost predicate QuotaTriggered(assets: map<Id, Asset>, l: PartitionLimits, policy: SweepPolicy, space: Space,
                                 partition: string) {
    && l.sweepEnabled && l.bytes.Some?
    && var used := Total(assets, UsedBytes(space, partition));
       used > 0 && used as real >= Share(l.bytes.value, policy.quotaTrigger)
  }

  ghost function QuotaStep(assets: map<Id, Asset>, limits: imap<(Space, string), PartitionLimits>, policy: SweepPolicy,
                           now: int, plan: Plan,
                           space: Space, partition: string): Plan
  {
    var l := LimitsOf(limits, space, partition);
    if QuotaTriggered(assets - Chosen(plan.actions), l, policy, space, partition) then
      EvictGroup(assets, plan, UsedBytes(space, partition), Share(l.bytes.value, policy.quotaTarget), QuotaLfu, now)
    else plan
  }

  ghost function QuotaPass(assets: map<Id, Asset>, limits: imap<(Space, string), PartitionLimits>, policy: SweepPolicy,
                           now: int, plan: Plan,
                           parts: seq<SortKey>): Plan
  {
    if parts == [] then plan
    else
      var last := parts[|parts| - 1];
      QuotaStep(assets, limits, policy, now, QuotaPass(assets, limits, policy, now, plan, parts[..|parts| - 1]),
                SpaceOf(last.0), last.1)
  }

  /** Expiring frees no physical bytes; only purges count against the budget. */
  ghost predicate PressureTriggered(assets: map<Id, Asset>, purged: set<Id>, policy: SweepPolicy, space: Space) {
    && Evictable(space) && space in policy.capacity
    && Total(assets - purged, Physical(space)) as real >= Share(policy.capacity[space], policy.pressureTrigger)
  }

  ghost function PressureStep(assets: map<Id, Asset>, policy: SweepPolicy, now: int, plan: Plan, space: Space): Plan {
    if PressureTriggered(assets, Purged(plan.actions), policy, space) then
      EvictGroup(assets, plan, BucketUsed(space), Share(policy.capacity[space], policy.pressureTarget), PressureLfu,
                 now)
    else plan
  }

  ghost function PressurePass(assets: map<Id, Asset>, policy: SweepPolicy, now: int, plan: Plan,
                              spaces: seq<SortKey>): Plan {
    if spaces == [] then plan
    else
      PressureStep(assets, policy, now, PressurePass(assets, policy, now, plan, spaces[..|spaces| - 1]),
                   SpaceOf(spaces[|spaces| - 1].0))
  }

  lemma SortedIds(assets: map<Id, Asset>, ids: seq<SortKey>)
    requires ids == Sorted(IdKeys(assets))
    ensures forall i | 0 <= i < |ids| :: ids[i].1 in assets
  {
    assert forall i | 0 <= i < |ids| :: ids[i] in Elements(ids);
  }

  ghost function TimedPlan(assets: map<Id, Asset>, policy: SweepPolicy, now: int): Plan {
    var ids := Sorted(IdKeys(assets));
    SortedIds(assets, ids);
    Plan(DueActions(assets, Sorted(IdKeys(assets)), policy, now), {})
  }

  ghost function PlanOf(assets: map<Id, Asset>, limits: imap<(Space, string), PartitionLimits>, policy: SweepPolicy,
                        now: int): Plan {
    PressurePass(assets, policy, now,
                 QuotaPass(assets, limits, policy, now, TimedPlan(assets, policy, now), Sorted(PartitionKeys(assets))),
                 Sorted(BudgetKeys(policy)))
  }

  // ---------------------------------------------------------------- the planner's loops

  class SweepPlanner {
    const assets: map<Id, Asset>
    const policy: SweepPolicy
    const now: int
    var actions: seq<Action>
    var selected: set<Id>
    var purged: set<Id>
    var exhausted: set<Space>
    var ratios: map<Space, real>

    ghost predicate Valid()
      reads this
    {
      selected == Chosen(actions) && purged == Purged(actions)
    }

    ghost function Result(): Plan
      reads this
    {
      Plan(actions, exhausted)
    }

    constructor (assets: map<Id, Asset>, policy: SweepPolicy, now: int)
      ensures Valid() && Result() == Plan([], {}) && ratios == map[]
      ensures this.assets == assets && this.policy == policy && this.now == now
    {
      this.assets, this.policy, this.now := assets, policy, now;
      actions, selected, purged, exhausted, ratios := [], {}, {}, {}, map[];
    }

    method Add(act: Action)
      requires Valid()
      modifies this
      ensures Valid() && actions == old(actions) + [act] && exhausted == old(exhausted) && ratios == old(ratios)
    {
      actions := actions + [act];
      selected := selected + {act.id};
      if act.purge { purged := purged + {act.id}; }
    }

    method SumOver(rows: map<Id, Asset>, m: Measure) returns (sum: nat)
      ensures sum == Total(rows, m)
    {
      sum := 0;
      var rest := rows;
      while rest != map[]
        invariant sum + Total(rest, m) == Total(rows, m)
        decreases |rest|
      {
        var id :| id in rest;
        TotalSplit(rest, m, id);
        sum := sum + Weigh(m, rest[id]);
        rest := rest - {id};
      }
    }

    /** First pass: everything whose time is up, in identifier order. */
    method SelectDue()
      requires Valid() && Result() == Plan([], {})
      modifies this
      ensures Valid() && Result() == TimedPlan(assets, policy, now) && ratios == old(ratios)
    {
      var ids := Sort(IdKeys(assets));
      SortedIds(assets, ids);
      hide Due, IdKeys, PolicyOk, Less, Increasing, Elements, Chosen, Purged, Sorted;
      for i := 0 to |ids|
        invariant Valid() && exhausted == {} && ratios == old(ratios)
        invariant actions == DueActions(assets, ids[..i], policy, now)
      {
        assert ids[..i + 1][..i] == ids[..i] && ids[..i + 1][i] == ids[i];
        var due := Due(ids[i].1, assets[ids[i].1], policy, now);
        if due.Some? { Add(due.value); }
      }
      assert ids[..|ids|] == ids;
    }

    method RankCandidates(left: map<Id, Asset>, m: Measure) returns (ranked: seq<SortKey>)
      requires left.Keys <= assets.Keys
      ensures ranked == Ranked(left, m, now)
      ensures EachOnce(ranked, left, m) && AllIn(ranked, |ranked|, assets) && left - Ids(ranked, 0) == left
    {
      var keys := Sort(RankKeys(left, m, now));
      RankedOrder(left, m, now);
      ranked := Reversed(keys);
    }

    /** Evicts the best candidates of a group until the running remainder is down to the target. */
    method Evict(m: Measure, target: real, reason: Reason)
      requires Valid() && IsGroup(m)
      modifies this
      ensures Valid() && Result() == EvictGroup(assets, old(Result()), m, target, reason, now) && ratios == old(ratios)
    {
      var left := assets - selected;
      var ranked := RankCandidates(left, m);
      var remaining := EvictRanked(left, ranked, m, target, reason);
      if remaining as real > target { exhausted := exhausted + {m.space}; }
    }

    method EvictRanked(left: map<Id, Asset>, ranked: seq<SortKey>, m: Measure, target: real, reason: Reason)
      returns (remaining: int)
      requires Valid() && IsGroup(m)
      requires EachOnce(ranked, left, m) && AllIn(ranked, |ranked|, assets) && left - Ids(ranked, 0) == left
      requires forall id <- left :: id in assets && assets[id] == left[id]
      modifies this
      ensures Valid() && exhausted == old(exhausted) && ratios == old(ratios)
      ensures var n := StopsAt(left, ranked, 0, m, target);
              && remaining == Total(left - Ids(ranked, n), m)
              && actions == old(actions) + Evictions(assets, ranked, n, reason)
    {
      hide Total, Weigh, Candidate, EachOnce, Ids, PolicyOk, Chosen, Purged;
      remaining := SumOver(left, m);
      EvictionsNone(assets, ranked, reason);
      hide Evictions, AllIn;
      var i := 0;
      while i < |ranked| && remaining as real > target
        invariant 0 <= i <= |ranked|
        invariant Valid() && exhausted == old(exhausted) && ratios == old(ratios)
        invariant AllIn(ranked, i, assets)
        invariant actions == old(actions) + Evictions(assets, ranked, i, reason)
        invariant remaining == Total(left - Ids(ranked, i), m)
        invariant StopsAt(left, ranked, i, m, target) == StopsAt(left, ranked, 0, m, target)
      {
        EvictOne(left, ranked, i, m);
        EvictionsStep(assets, ranked, i, reason);
        var id := ranked[i].1;
        Add(Action(id, assets[id], Expired, reason, false));
        remaining := remaining - Size(assets[id]);
        i := i + 1;
      }
    }

    method RelieveQuota(quotas: PartitionQuotas, space: Space, partition: string)
      requires Valid()
      modifies this
      ensures Valid() && ratios == old(ratios)
      ensures Result() == QuotaStep(assets, PartitionLimitsView(quotas), policy, now, old(Result()), space, partition)
    {
      var l := PartitionQuotaOf(quotas, space, partition).limits;
      assert (space, partition) in PartitionLimitsView(quotas)
             && l == LimitsOf(PartitionLimitsView(quotas), space, partition);
      hide Total, EvictGroup, PartitionLimitsView, Share, PolicyOk, Chosen, Purged;
      if !l.sweepEnabled || l.bytes.None? { return; }
      var used := SumOver(assets - selected, UsedBytes(space, partition));
      if used > 0 && used as real >= Share(l.bytes.value, policy.quotaTrigger) {
        Evict(UsedBytes(space, partition), Share(l.bytes.value, policy.quotaTarget), QuotaLfu);
      }
    }

    method RelieveBucket(space: Space)
      requires Valid() && space in policy.capacity
      modifies this
      ensures Valid() && Result() == PressureStep(assets, policy, now, old(Result()), space)
      ensures ratios == old(ratios)[space := Occupancy(assets, policy, space)]
    {
      var physical := SumOver(assets, Physical(space));
      assert policy.capacity[space] > 0;
      ratios := ratios[space := physical as real / policy.capacity[space] as real];
      hide Total, EvictGroup, Share, PolicyOk, Chosen;
      var projected := SumOver(assets - purged, Physical(space));
      if Evictable(space) && projected as real >= Share(policy.capacity[space], policy.pressureTrigger) {
        Evict(BucketUsed(space), Share(policy.capacity[space], policy.pressureTarget), PressureLfu);
      }
    }

    /** Second pass: partitions over their quota trigger. */
    method RelieveQuotas(quotas: PartitionQuotas)
      requires Valid()
      modifies this
      ensures Valid() && ratios == old(ratios)
      ensures Result() == QuotaPass(assets, PartitionLimitsView(quotas), policy, now, old(Result()),
                                    Sorted(PartitionKeys(assets)))
    {
      var parts := Sort(PartitionKeys(assets));
      ghost var limits := PartitionLimitsView(quotas);
      hide QuotaStep, PartitionLimitsView;
      for i := 0 to |parts|
        invariant Valid() && ratios == old(ratios)
        invariant Result() == QuotaPass(assets, limits, policy, now, old(Result()), parts[..i])
      {
        assert parts[..i + 1][..i] == parts[..i];
        RelieveQuota(quotas, SpaceOf(parts[i].0), parts[i].1);
      }
      assert parts[..|parts|] == parts;
    }

    /** Third pass: buckets over their physical budget. */
    method RelievePressure()
      requires Valid() && ratios == map[]
      modifies this
      ensures Valid() && ratios == Ratios(assets, policy)
      ensures Result() == PressurePass(assets, policy, now, old(Result()), Sorted(BudgetKeys(policy)))
    {
      hide PressureStep, BudgetKeys, Less, PolicyOk, Sorted, Increasing, Chosen, Purged, SpaceOf, Elements;
      var spaces := Sort(BudgetKeys(policy));
      BudgetedSpaces(policy, spaces);
      for i := 0 to |spaces|
        invariant Valid()
        invariant ratios.Keys == VisitedSpaces(spaces, i)
        invariant forall s <- ratios :: s in policy.capacity && ratios[s] == Occupancy(assets, policy, s)
        invariant Result() == PressurePass(assets, policy, now, old(Result()), spaces[..i])
      {
        assert spaces[..i + 1][..i] == spaces[..i];
        VisitedNext(spaces, i);
        RelieveBucket(SpaceOf(spaces[i].0));
      }
      assert spaces[..|spaces|] == spaces;
      AllBudgetsVisited(policy, spaces);
    }
  }

  /** Pure selection: nothing is changed but the plan being built. */
  method PlanSweep(assets: map<Id, Asset>, quotas: PartitionQuotas, policy: SweepPolicy, now: int)
    returns (plan: Plan, ratios: map<Space, real>)
    ensures plan == PlanOf(assets, PartitionLimitsView(quotas), policy, now)
    ensures ratios == Ratios(assets, policy)
  {
    var planner := new SweepPlanner(assets, policy, now);
    planner.SelectDue();
    planner.RelieveQuotas(quotas);
    planner.RelievePressure();
    plan, ratios := Plan(planner.actions, planner.exhausted), planner.ratios;
  }
}
