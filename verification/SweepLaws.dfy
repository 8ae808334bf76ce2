/** What a plan promises: every choice has its reason at the moment it is made, evictions go best
    first and only while the group is above its target, and no triggered group is left undone. */
module SweepLaws {
  import opened Model
  import opened RegistrySpec
  import opened Order
  import opened SweepPlan

  type LimitTable = imap<(Space, string), PartitionLimits>

  // ---------------------------------------------------------------- reasons

  /** Evicting this asset next is right: its group is above target and no candidate ranks higher. */
  ghost predicate BestVictim(left: map<Id, Asset>, act: Action, m: Measure, target: real, now: int) {
    && act.id in left && Candidate(m, left[act.id])
    && Total(left, m) as real > target
    && forall other <- left :: Candidate(m, left[other]) && other != act.id ==>
         Less((Score(left[other], now), other), (Score(left[act.id], now), act.id))
  }

  ghost predicate QuotaReason(assets: map<Id, Asset>, limits: LimitTable, policy: SweepPolicy, now: int,
                              before: seq<Action>, act: Action) {
    act.id in assets
    && var a := assets[act.id];
       var l := LimitsOf(limits, a.space, a.partition);
       && Evictable(a.space) && l.sweepEnabled && l.bytes.Some?
       && act == Action(act.id, a, Expired, QuotaLfu, false)
       && BestVictim(assets - Chosen(before), act, UsedBytes(a.space, a.partition),
                     Share(l.bytes.value, policy.quotaTarget), now)
  }

  ghost predicate PressureReason(assets: map<Id, Asset>, policy: SweepPolicy, now: int, before: seq<Action>,
                                 act: Action) {
    act.id in assets
    && var a := assets[act.id];
       && Evictable(a.space) && a.space in policy.capacity
       && act == Action(act.id, a, Expired, PressureLfu, false)
       && BestVictim(assets - Chosen(before), act, BucketUsed(a.space),
                     Share(policy.capacity[a.space], policy.pressureTarget), now)
  }

  ghost predicate Justified(assets: map<Id, Asset>, limits: LimitTable, policy: SweepPolicy, now: int,
                            before: seq<Action>, act: Action) {
    && act.id in assets && act.id !in Chosen(before) && act.asset == assets[act.id]
    && match act.reason
       case QuotaLfu => QuotaReason(assets, limits, policy, now, before, act)
       case PressureLfu => PressureReason(assets, policy, now, before, act)
       case _ => Due(act.id, assets[act.id], policy, now) == Some(act)
  }

  ghost predicate AllJustified(assets: map<Id, Asset>, limits: LimitTable, policy: SweepPolicy, now: int,
                               actions: seq<Action>) {
    forall i | 0 <= i < |actions| :: Justified(assets, limits, policy, now, actions[..i], actions[i])
  }

  lemma JustifiedAppend(assets: map<Id, Asset>, limits: LimitTable, policy: SweepPolicy, now: int,
                        actions: seq<Action>, act: Action)
    requires AllJustified(assets, limits, policy, now, actions) && Justified(assets, limits, policy, now, actions, act)
    ensures AllJustified(assets, limits, policy, now, actions + [act])
  {
    hide Justified;
    var all := actions + [act];
    assert all[..|actions|] == actions;
    forall i | 0 <= i < |all| ensures Justified(assets, limits, policy, now, all[..i], all[i]) {
      if i < |actions| { assert all[..i] == actions[..i]; }
    }
  }

  /** Nobody is chosen twice. */
  lemma ChosenOnce(assets: map<Id, Asset>, limits: LimitTable, policy: SweepPolicy, now: int, actions: seq<Action>)
    requires AllJustified(assets, limits, policy, now, actions)
    ensures forall i, j | 0 <= i < j < |actions| :: actions[i].id != actions[j].id
  {
    forall i, j | 0 <= i < j < |actions| ensures actions[i].id != actions[j].id {
      assert Justified(assets, limits, policy, now, actions[..j], actions[j]);
      assert actions[i] in actions[..j];
    }
  }

  // ---------------------------------------------------------------- one group

  /** At or below target, or nothing left that may be evicted. */
  ghost predicate GroupDone(left: map<Id, Asset>, m: Measure, target: real) {
    Total(left, m) as real <= target || forall id <- left :: !Candidate(m, left[id])
  }

  lemma {:induction false} StopsAtFirst(left: map<Id, Asset>, ranked: seq<SortKey>, i: nat, m: Measure, target: real)
    requires i <= |ranked|
    ensures var n := StopsAt(left, ranked, i, m, target);
            && (n == |ranked| || Total(left - Ids(ranked, n), m) as real <= target)
            && forall j | i <= j < n :: Total(left - Ids(ranked, j), m) as real > target
    decreases |ranked| - i
  {
    if i < |ranked| { StopsAtFirst(left, ranked, i + 1, m, target); }
  }

  lemma NoneChosen(actions: seq<Action>)
    ensures Chosen(actions) == {} <==> actions == []
  {
    if actions != [] { assert actions[0].id in Chosen(actions); }
  }

  lemma ChosenAppend(actions: seq<Action>, act: Action)
    ensures Chosen(actions + [act]) == Chosen(actions) + {act.id}
    ensures Purged(actions + [act]) == Purged(actions) + if act.purge then {act.id} else {}
  {
  }

  lemma {:induction false} ChosenEvictions(assets: map<Id, Asset>, actions: seq<Action>, ranked: seq<SortKey>, n: nat,
                                           reason: Reason)
    requires AllIn(ranked, n, assets)
    ensures Chosen(actions + Evictions(assets, ranked, n, reason)) == Chosen(actions) + Ids(ranked, n)
    ensures Purged(actions + Evictions(assets, ranked, n, reason)) == Purged(actions)
  {
    var more := Evictions(assets, ranked, n, reason);
    if n == 0 {
      assert actions + more == actions;
    } else {
      ChosenEvictions(assets, actions, ranked, n - 1, reason);
      var act := Action(ranked[n - 1].1, assets[ranked[n - 1].1], Expired, reason, false);
      assert actions + more == (actions + Evictions(assets, ranked, n - 1, reason)) + [act];
      ChosenAppend(actions + Evictions(assets, ranked, n - 1, reason), act);
      assert Ids(ranked, n) == Ids(ranked, n - 1) + {act.id};
    }
  }

  /** Where it stands in the ranking is right: all better ones have gone. */
  lemma RankedIsBest(left: map<Id, Asset>, m: Measure, now: int, j: nat, act: Action, target: real)
    requires j < |Ranked(left, m, now)| && act.id == Ranked(left, m, now)[j].1
    requires Total(left - Ids(Ranked(left, m, now), j), m) as real > target
    ensures BestVictim(left - Ids(Ranked(left, m, now), j), act, m, target, now)
  {
    var ranked := Ranked(left, m, now);
    RankedOrder(left, m, now);
    hide Ranked, Candidate, Less, Total, Score;
    var rest := left - Ids(ranked, j);
    forall other <- rest | Candidate(m, rest[other]) && other != act.id
      ensures Less((Score(rest[other], now), other), (Score(rest[act.id], now), act.id))
    {
      assert (Score(left[other], now), other) in RankKeys(left, m, now);
      assert (Score(left[other], now), other) in Elements(ranked);
      var p :| 0 <= p < |ranked| && ranked[p] == (Score(left[other], now), other);
      assert p > j;
    }
  }

  ghost predicate BestAt(assets: map<Id, Asset>, actions: seq<Action>, i: nat, m: Measure, target: real,
                         reason: Reason, now: int)
    requires i < |actions|
  {
    && actions[i].id in assets && actions[i] == Action(actions[i].id, assets[actions[i].id], Expired, reason, false)
    && BestVictim(assets - Chosen(actions[..i]), actions[i], m, target, now)
  }

  /** From position `n` on, each action is an eviction that was the best one at its turn. */
  ghost predicate EachBest(assets: map<Id, Asset>, actions: seq<Action>, n: nat, m: Measure, target: real,
                           reason: Reason, now: int) {
    forall i | n <= i < |actions| :: BestAt(assets, actions, i, m, target, reason, now)
  }

  lemma EvictionAt(assets: map<Id, Asset>, actions: seq<Action>, ranked: seq<SortKey>, n: nat, reason: Reason, j: nat)
    requires AllIn(ranked, n, assets) && j < n
    ensures AllIn(ranked, j, assets)
    ensures var all := actions + Evictions(assets, ranked, n, reason);
            && |all| == |actions| + n
            && all[..|actions| + j] == actions + Evictions(assets, ranked, j, reason)
            && all[|actions| + j] == Action(ranked[j].1, assets[ranked[j].1], Expired, reason, false)
  {
  }

  lemma EvictionIsBest(assets: map<Id, Asset>, actions: seq<Action>, left: map<Id, Asset>, ranked: seq<SortKey>,
                       n: nat, m: Measure,
                       target: real, reason: Reason, now: int, j: nat)
    requires left == assets - Chosen(actions) && ranked == Ranked(left, m, now) && AllIn(ranked, n, assets)
    requires j < n && Total(left - Ids(ranked, j), m) as real > target
    ensures var all := actions + Evictions(assets, ranked, n, reason);
            |all| == |actions| + n && BestAt(assets, all, |actions| + j, m, target, reason, now)
  {
    hide Total, Ranked, BestVictim;
    EvictionAt(assets, actions, ranked, n, reason, j);
    ChosenEvictions(assets, actions, ranked, j, reason);
    hide Evictions, AllIn;
    var all := actions + Evictions(assets, ranked, n, reason);
    assert assets - Chosen(all[..|actions| + j]) == left - Ids(ranked, j);
    RankedIsBest(left, m, now, j, all[|actions| + j], target);
  }

  lemma EvictionsAreBest(assets: map<Id, Asset>, actions: seq<Action>, left: map<Id, Asset>, ranked: seq<SortKey>,
                         n: nat, m: Measure,
                         target: real, reason: Reason, now: int)
    requires left == assets - Chosen(actions) && ranked == Ranked(left, m, now)
             && n == StopsAt(left, ranked, 0, m, target)
    requires AllIn(ranked, n, assets)
    ensures EachBest(assets, actions + Evictions(assets, ranked, n, reason), |actions|, m, target, reason, now)
  {
    StopsAtFirst(left, ranked, 0, m, target);
    hide Total, Ranked, StopsAt, AllIn, Evictions, Chosen, Ids, BestAt;
    var all := actions + Evictions(assets, ranked, n, reason);
    forall i | |actions| <= i < |all| ensures BestAt(assets, all, i, m, target, reason, now) {
      EvictionIsBest(assets, actions, left, ranked, n, m, target, reason, now, i - |actions|);
    }
  }

  lemma EvictGroupEnds(assets: map<Id, Asset>, plan: Plan, m: Measure, target: real, reason: Reason, now: int)
    ensures var after := EvictGroup(assets, plan, m, target, reason, now);
            && Purged(after.actions) == Purged(plan.actions)
            && GroupDone(assets - Chosen(after.actions), m, target)
            && after.exhausted
               == plan.exhausted + (if Total(assets - Chosen(after.actions), m) as real > target then {m.space} else {})
  {
    var left := assets - Chosen(plan.actions);
    var ranked := Ranked(left, m, now);
    var n := StopsAt(left, ranked, 0, m, target);
    RankedOrder(left, m, now);
    StopsAtFirst(left, ranked, 0, m, target);
    ChosenEvictions(assets, plan.actions, ranked, n, reason);
    assert assets - Chosen(EvictGroup(assets, plan, m, target, reason, now).actions) == left - Ids(ranked, n);
    if n == |ranked| { AllRankedGone(left, m, now); }
    hide Ranked, Chosen, Purged, Candidate, Ids, Less, Total;
  }

  /** Evicting from a group: each eviction has its reason, and the group ends done. */
  lemma EvictGroupLaws(assets: map<Id, Asset>, plan: Plan, m: Measure, target: real, reason: Reason, now: int)
    ensures var after := EvictGroup(assets, plan, m, target, reason, now);
            && plan.actions <= after.actions
            && Purged(after.actions) == Purged(plan.actions)
            && GroupDone(assets - Chosen(after.actions), m, target)
            && after.exhausted
               == plan.exhausted + (if Total(assets - Chosen(after.actions), m) as real > target then {m.space} else {})
            && EachBest(assets, after.actions, |plan.actions|, m, target, reason, now)
  {
    EvictGroupEnds(assets, plan, m, target, reason, now);
    var left := assets - Chosen(plan.actions);
    var ranked := Ranked(left, m, now);
    var n := StopsAt(left, ranked, 0, m, target);
    RankedOrder(left, m, now);
    EvictionsAreBest(assets, plan.actions, left, ranked, n, m, target, reason, now);
    hide Total, Ranked, GroupDone, Chosen, Candidate, Less, StopsAt, Purged, EachBest, Evictions;
  }

  lemma AllRankedGone(left: map<Id, Asset>, m: Measure, now: int)
    ensures var ranked := Ranked(left, m, now); forall id <- left - Ids(ranked, |ranked|) :: !Candidate(m, left[id])
  {
    var ranked := Ranked(left, m, now);
    forall id <- left | Candidate(m, left[id]) ensures id in Ids(ranked, |ranked|) {
      assert (Score(left[id], now), id) in RankKeys(left, m, now);
      assert (Score(left[id], now), id) in Elements(ranked);
    }
  }

  // ---------------------------------------------------------------- over the passes

  lemma {:induction false} TotalOfFewer(assets: map<Id, Asset>, gone: set<Id>, m: Measure)
    ensures Total(assets - gone, m) <= Total(assets, m)
    decreases |gone|
  {
    if gone == {} {
      assert assets - gone == assets;
    } else {
      var id :| id in gone;
      TotalOfFewer(assets, gone - {id}, m);
      var rest := assets - (gone - {id});
      assert rest - {id} == assets - gone;
      if id in rest { TotalSplit(rest, m, id); } else { assert rest - {id} == rest; }
    }
  }

  lemma ChosenGrows(assets: map<Id, Asset>, actions: seq<Action>, later: seq<Action>, m: Measure)
    requires actions <= later
    ensures Chosen(actions) <= Chosen(later)
    ensures Total(assets - Chosen(later), m) <= Total(assets - Chosen(actions), m)
  {
    assert forall act <- actions :: act in later;
    assert assets - Chosen(later) == (assets - Chosen(actions)) - Chosen(later);
    TotalOfFewer(assets - Chosen(actions), Chosen(later), m);
  }

  /** Further choices leave a finished group finished. */
  lemma DoneStays(assets: map<Id, Asset>, actions: seq<Action>, later: seq<Action>, m: Measure, target: real)
    requires actions <= later && GroupDone(assets - Chosen(actions), m, target)
    ensures GroupDone(assets - Chosen(later), m, target)
  {
    ChosenGrows(assets, actions, later, m);
    var left, less := assets - Chosen(actions), assets - Chosen(later);
    assert forall id <- less :: id in left && left[id] == less[id];
  }

  /** Were the group looked at again, there would be nothing to evict from it. */
  ghost predicate QuotaSettled(assets: map<Id, Asset>, limits: LimitTable, policy: SweepPolicy, actions: seq<Action>,
                               space: Space, partition: string) {
    var l := LimitsOf(limits, space, partition);
    QuotaTriggered(assets - Chosen(actions), l, policy, space, partition) ==>
      GroupDone(assets - Chosen(actions), UsedBytes(space, partition), Share(l.bytes.value, policy.quotaTarget))
  }

  ghost predicate PressureSettled(assets: map<Id, Asset>, policy: SweepPolicy, actions: seq<Action>, space: Space) {
    PressureTriggered(assets, Purged(actions), policy, space) ==>
      GroupDone(assets - Chosen(actions), BucketUsed(space), Share(policy.capacity[space], policy.pressureTarget))
  }

  lemma QuotaSettledStays(assets: map<Id, Asset>, limits: LimitTable, policy: SweepPolicy, actions: seq<Action>,
                          later: seq<Action>,
                          space: Space, partition: string)
    requires actions <= later && QuotaSettled(assets, limits, policy, actions, space, partition)
    ensures QuotaSettled(assets, limits, policy, later, space, partition)
  {
    ChosenGrows(assets, actions, later, UsedBytes(space, partition));
    var l := LimitsOf(limits, space, partition);
    hide Total, Chosen, GroupDone, Share, PolicyOk;
    if QuotaTriggered(assets - Chosen(later), l, policy, space, partition) {
      DoneStays(assets, actions, later, UsedBytes(space, partition), Share(l.bytes.value, policy.quotaTarget));
    }
  }

  lemma PressureSettledStays(assets: map<Id, Asset>, policy: SweepPolicy, actions: seq<Action>, later: seq<Action>,
                             space: Space)
    requires actions <= later && Purged(actions) == Purged(later) && PressureSettled(assets, policy, actions, space)
    ensures PressureSettled(assets, policy, later, space)
  {
    hide Total, Chosen, GroupDone, Share, PolicyOk, Purged;
    if PressureTriggered(assets, Purged(later), policy, space) {
      DoneStays(assets, actions, later, BucketUsed(space), Share(policy.capacity[space], policy.pressureTarget));
    }
  }

  /** From the first plan to the second only justified evictions were added. */
  ghost predicate Extends(assets: map<Id, Asset>, limits: LimitTable, policy: SweepPolicy, now: int,
                          actions: seq<Action>, later: seq<Action>) {
    && actions <= later && Purged(later) == Purged(actions)
    && (AllJustified(assets, limits, policy, now, actions) ==> AllJustified(assets, limits, policy, now, later))
  }

  lemma BestQuotaVictims(assets: map<Id, Asset>, limits: LimitTable, policy: SweepPolicy, now: int,
                         actions: seq<Action>, n: nat,
                         space: Space, partition: string, target: real)
    requires n <= |actions| && Evictable(space)
    requires var l := LimitsOf(limits, space, partition);
             l.sweepEnabled && l.bytes.Some? && target == Share(l.bytes.value, policy.quotaTarget)
    requires EachBest(assets, actions, n, UsedBytes(space, partition), target, QuotaLfu, now)
    requires AllJustified(assets, limits, policy, now, actions[..n])
    ensures AllJustified(assets, limits, policy, now, actions)
  {
    forall i | 0 <= i < |actions| ensures Justified(assets, limits, policy, now, actions[..i], actions[i]) {
      if i < n {
        assert actions[..n][..i] == actions[..i];
        assert Justified(assets, limits, policy, now, actions[..n][..i], actions[..n][i]);
      } else {
        assert BestAt(assets, actions, i, UsedBytes(space, partition), target, QuotaLfu, now);
        hide AllJustified, EachBest, Total, Chosen;
      }
    }
  }

  lemma BestPressureVictims(assets: map<Id, Asset>, limits: LimitTable, policy: SweepPolicy, now: int,
                            actions: seq<Action>, n: nat,
                            space: Space, target: real)
    requires n <= |actions| && Evictable(space) && space in policy.capacity
             && target == Share(policy.capacity[space], policy.pressureTarget)
    requires EachBest(assets, actions, n, BucketUsed(space), target, PressureLfu, now)
    requires AllJustified(assets, limits, policy, now, actions[..n])
    ensures AllJustified(assets, limits, policy, now, actions)
  {
    forall i | 0 <= i < |actions| ensures Justified(assets, limits, policy, now, actions[..i], actions[i]) {
      if i < n {
        assert actions[..n][..i] == actions[..i];
        assert Justified(assets, limits, policy, now, actions[..n][..i], actions[..n][i]);
      } else {
        assert BestAt(assets, actions, i, BucketUsed(space), target, PressureLfu, now);
        hide AllJustified, EachBest, Total, Chosen;
      }
    }
  }

  lemma QuotaStepLaws(assets: map<Id, Asset>, limits: LimitTable, policy: SweepPolicy, now: int, plan: Plan,
                      space: Space, partition: string)
    requires Evictable(space)
    ensures var after := QuotaStep(assets, limits, policy, now, plan, space, partition);
            Extends(assets, limits, policy, now, plan.actions, after.actions)
            && QuotaSettled(assets, limits, policy, after.actions, space, partition)
  {
    var l := LimitsOf(limits, space, partition);
    var after := QuotaStep(assets, limits, policy, now, plan, space, partition);
    if QuotaTriggered(assets - Chosen(plan.actions), l, policy, space, partition) {
      var target := Share(l.bytes.value, policy.quotaTarget);
      EvictGroupLaws(assets, plan, UsedBytes(space, partition), target, QuotaLfu, now);
      hide Total, Chosen, Purged, AllJustified, EachBest, GroupDone, EvictGroup, Share, PolicyOk;
      if AllJustified(assets, limits, policy, now, plan.actions) {
        assert after.actions[..|plan.actions|] == plan.actions;
        BestQuotaVictims(assets, limits, policy, now, after.actions, |plan.actions|, space, partition, target);
      }
    }
  }

  lemma PressureStepLaws(assets: map<Id, Asset>, limits: LimitTable, policy: SweepPolicy, now: int, plan: Plan,
                         space: Space)
    ensures var after := PressureStep(assets, policy, now, plan, space);
            Extends(assets, limits, policy, now, plan.actions, after.actions)
              && PressureSettled(assets, policy, after.actions, space)
  {
    var after := PressureStep(assets, policy, now, plan, space);
    if PressureTriggered(assets, Purged(plan.actions), policy, space) {
      var target := Share(policy.capacity[space], policy.pressureTarget);
      EvictGroupLaws(assets, plan, BucketUsed(space), target, PressureLfu, now);
      hide Total, Chosen, Purged, AllJustified, EachBest, GroupDone, EvictGroup, Share, PolicyOk;
      if AllJustified(assets, limits, policy, now, plan.actions) {
        assert after.actions[..|plan.actions|] == plan.actions;
        BestPressureVictims(assets, limits, policy, now, after.actions, |plan.actions|, space, target);
      }
    }
  }

  lemma {:induction false} QuotaPassLaws(assets: map<Id, Asset>, limits: LimitTable, policy: SweepPolicy, now: int,
                                         plan: Plan, parts: seq<SortKey>)
    requires forall i | 0 <= i < |parts| :: Evictable(SpaceOf(parts[i].0))
    ensures var after := QuotaPass(assets, limits, policy, now, plan, parts);
            && Extends(assets, limits, policy, now, plan.actions, after.actions)
            && forall i | 0 <= i < |parts| :: QuotaSettled(assets, limits, policy, after.actions, SpaceOf(parts[i].0),
                                                           parts[i].1)
  {
    hide QuotaStep, QuotaSettled, AllJustified, Purged, SpaceOf;
    if parts != [] {
      var n := |parts| - 1;
      QuotaPassLaws(assets, limits, policy, now, plan, parts[..n]);
      var mid := QuotaPass(assets, limits, policy, now, plan, parts[..n]);
      var after := QuotaPass(assets, limits, policy, now, plan, parts);
      QuotaStepLaws(assets, limits, policy, now, mid, SpaceOf(parts[n].0), parts[n].1);
      forall i | 0 <= i < n ensures QuotaSettled(assets, limits, policy, after.actions, SpaceOf(parts[i].0),
                                                 parts[i].1) {
        assert QuotaSettled(assets, limits, policy, mid.actions, SpaceOf(parts[..n][i].0), parts[..n][i].1);
        QuotaSettledStays(assets, limits, policy, mid.actions, after.actions, SpaceOf(parts[i].0), parts[i].1);
      }
    }
  }

  lemma {:induction false} PressurePassLaws(assets: map<Id, Asset>, limits: LimitTable, policy: SweepPolicy, now: int,
                                            plan: Plan, spaces: seq<SortKey>)
    ensures var after := PressurePass(assets, policy, now, plan, spaces);
            && Extends(assets, limits, policy, now, plan.actions, after.actions)
            && forall i | 0 <= i < |spaces| :: PressureSettled(assets, policy, after.actions, SpaceOf(spaces[i].0))
  {
    hide PressureStep, PressureSettled, AllJustified, Purged, SpaceOf;
    if spaces != [] {
      var n := |spaces| - 1;
      PressurePassLaws(assets, limits, policy, now, plan, spaces[..n]);
      var mid := PressurePass(assets, policy, now, plan, spaces[..n]);
      var after := PressurePass(assets, policy, now, plan, spaces);
      PressureStepLaws(assets, limits, policy, now, mid, SpaceOf(spaces[n].0));
      forall i | 0 <= i < n ensures PressureSettled(assets, policy, after.actions, SpaceOf(spaces[i].0)) {
        assert PressureSettled(assets, policy, mid.actions, SpaceOf(spaces[..n][i].0));
        PressureSettledStays(assets, policy, mid.actions, after.actions, SpaceOf(spaces[i].0));
      }
    }
  }

  // ---------------------------------------------------------------- the whole plan

  predicate Listed(ids: seq<SortKey>, id: Id) {
    exists i :: 0 <= i < |ids| && ids[i].1 == id
  }

  lemma {:induction false} DueChosen(assets: map<Id, Asset>, policy: SweepPolicy, now: int, ids: seq<SortKey>)
    requires forall i | 0 <= i < |ids| :: ids[i].1 in assets
    ensures forall id :: id in Chosen(DueActions(assets, ids, policy, now)) <==>
              Listed(ids, id)
              && Due(id, assets[id], policy, now).Some?
  {
    var actions := DueActions(assets, ids, policy, now);
    if ids == [] {
      NoneChosen(actions);
    } else {
      var n := |ids| - 1;
      DueChosen(assets, policy, now, ids[..n]);
      var rest := DueActions(assets, ids[..n], policy, now);
      var due := Due(ids[n].1, assets[ids[n].1], policy, now);
      assert due.None? ==> actions == rest;
      if due.Some? { ChosenAppend(rest, due.value); }
      assert due.Some? ==> due.value.id == ids[n].1;
      hide Due, Chosen;
      forall id: Id ensures Listed(ids, id) <==> Listed(ids[..n], id) || id == ids[n].1 {
        if Listed(ids, id) {
          var i :| 0 <= i < |ids| && ids[i].1 == id;
          assert i < n ==> ids[..n][i].1 == id;
        }
        if Listed(ids[..n], id) {
          var i :| 0 <= i < n && ids[..n][i].1 == id;
          assert ids[i].1 == id;
        }
      }
    }
  }

  lemma {:induction false} DueJustified(assets: map<Id, Asset>, limits: LimitTable, policy: SweepPolicy, now: int,
                                        ids: seq<SortKey>)
    requires forall i | 0 <= i < |ids| :: ids[i].1 in assets
    requires forall i, j | 0 <= i < j < |ids| :: ids[i].1 != ids[j].1
    ensures AllJustified(assets, limits, policy, now, DueActions(assets, ids, policy, now))
  {
    if ids != [] {
      var n := |ids| - 1;
      DueJustified(assets, limits, policy, now, ids[..n]);
      DueChosen(assets, policy, now, ids[..n]);
      var rest := DueActions(assets, ids[..n], policy, now);
      var id := ids[n].1;
      var due := Due(id, assets[id], policy, now);
      assert !Listed(ids[..n], id);
      assert id !in Chosen(rest);
      assert due.None? ==> DueActions(assets, ids, policy, now) == rest;
      if due.Some? {
        assert Justified(assets, limits, policy, now, rest, due.value);
        hide Due, AllJustified, Justified;
        JustifiedAppend(assets, limits, policy, now, rest, due.value);
      }
    }
  }

  /** Time-based choices are exactly the assets whose time is up. */
  lemma TimedPlanLaws(assets: map<Id, Asset>, limits: LimitTable, policy: SweepPolicy, now: int)
    ensures AllJustified(assets, limits, policy, now, TimedPlan(assets, policy, now).actions)
    ensures Chosen(TimedPlan(assets, policy, now).actions) == set id <- assets | Due(id, assets[id], policy, now).Some?
  {
    var ids := Sorted(IdKeys(assets));
    SortedIds(assets, ids);
    IncreasingHasNoDuplicates(ids);
    forall i | 0 <= i < |ids| ensures ids[i].0 == 0 { assert ids[i] in Elements(ids); }
    assert forall i, j | 0 <= i < j < |ids| :: ids[i].1 != ids[j].1;
    forall id <- assets ensures Listed(ids, id) {
      assert (0, id) in IdKeys(assets);
      assert (0, id) in Elements(ids);
      var i :| 0 <= i < |ids| && ids[i] == (0, id);
    }
    hide Due, Justified, IdKeys, Less, Increasing, Elements;
    DueChosen(assets, policy, now, ids);
    DueJustified(assets, limits, policy, now, ids);
  }

  lemma EmptyPartition(assets: map<Id, Asset>, m: Measure)
    requires IsGroup(m) && forall id <- assets :: !InGroup(m, assets[id])
    ensures Total(assets, m) == 0
  {
    TotalWithout(assets, m, assets.Keys);
    assert assets - assets.Keys == map[];
  }

  /** Every choice is justified, everything due is chosen, and every group is settled. */
  ghost predicate PlanOk(assets: map<Id, Asset>, limits: LimitTable, policy: SweepPolicy, now: int,
                         actions: seq<Action>) {
    && AllJustified(assets, limits, policy, now, actions)
    && (forall id <- assets :: Due(id, assets[id], policy, now).Some? ==> id in Chosen(actions))
    && (forall space: Space, partition: string ::
         Evictable(space)
         ==> QuotaSettled(assets, limits, policy, actions, space, partition))
    && (forall space: Space :: PressureSettled(assets, policy, actions, space))
  }

  lemma AbsentPartitionIsSettled(assets: map<Id, Asset>, limits: LimitTable, policy: SweepPolicy, actions: seq<Action>,
                                 space: Space, partition: string)
    requires Evictable(space) && (SpaceRank(space), partition) !in PartitionKeys(assets)
    ensures QuotaSettled(assets, limits, policy, actions, space, partition)
  {
    forall id <- assets ensures !InGroup(UsedBytes(space, partition), assets[id]) {
      if Evictable(assets[id].space) { assert (SpaceRank(assets[id].space),
                                               assets[id].partition) in PartitionKeys(assets); }
    }
    EmptyPartition(assets - Chosen(actions), UsedBytes(space, partition));
  }

  lemma PartitionKeysAreEvictable(assets: map<Id, Asset>, parts: seq<SortKey>)
    requires parts == Sorted(PartitionKeys(assets))
    ensures forall i | 0 <= i < |parts| :: Evictable(SpaceOf(parts[i].0))
  {
    forall i | 0 <= i < |parts| ensures Evictable(SpaceOf(parts[i].0)) { assert parts[i] in Elements(parts); }
  }

  lemma PlanLaws(assets: map<Id, Asset>, limits: LimitTable, policy: SweepPolicy, now: int)
    ensures PlanOk(assets, limits, policy, now, PlanOf(assets, limits, policy, now).actions)
  {
    var parts, spaces := Sorted(PartitionKeys(assets)), Sorted(BudgetKeys(policy));
    var timed := TimedPlan(assets, policy, now);
    var mid := QuotaPass(assets, limits, policy, now, timed, parts);
    var plan := PlanOf(assets, limits, policy, now);
    TimedPlanLaws(assets, limits, policy, now);
    PartitionKeysAreEvictable(assets, parts);
    QuotaPassLaws(assets, limits, policy, now, timed, parts);
    PressurePassLaws(assets, limits, policy, now, mid, spaces);
    ChosenGrows(assets, timed.actions, plan.actions, UsedCount(Cache, ""));
    forall space: Space, partition: string | Evictable(space) ensures QuotaSettled(assets, limits, policy,
      plan.actions, space, partition) {
      EveryPartitionSettled(assets, limits, policy, mid.actions, plan.actions, parts, space, partition);
    }
    forall space: Space ensures PressureSettled(assets, policy, plan.actions, space) {
      EveryBucketSettled(assets, policy, plan.actions, spaces, space);
    }
    hide QuotaSettled, PressureSettled, AllJustified, Due, Total, PartitionKeys, BudgetKeys, TimedPlan, QuotaPass,
      PressurePass, PlanOf;
  }

  lemma EveryPartitionSettled(assets: map<Id, Asset>, limits: LimitTable, policy: SweepPolicy, mid: seq<Action>,
                              actions: seq<Action>,
                              parts: seq<SortKey>, space: Space, partition: string)
    requires Evictable(space) && mid <= actions && parts == Sorted(PartitionKeys(assets))
    requires forall i | 0 <= i < |parts| :: QuotaSettled(assets, limits, policy, mid, SpaceOf(parts[i].0), parts[i].1)
    ensures QuotaSettled(assets, limits, policy, actions, space, partition)
  {
    hide QuotaSettled, PartitionKeys;
    var key := (SpaceRank(space), partition);
    if key in PartitionKeys(assets) {
      assert key in Elements(parts);
      var i :| 0 <= i < |parts| && parts[i] == key;
      assert QuotaSettled(assets, limits, policy, mid, SpaceOf(parts[i].0), parts[i].1);
      QuotaSettledStays(assets, limits, policy, mid, actions, space, partition);
    } else {
      AbsentPartitionIsSettled(assets, limits, policy, actions, space, partition);
    }
  }

  lemma EveryBucketSettled(assets: map<Id, Asset>, policy: SweepPolicy, actions: seq<Action>, spaces: seq<SortKey>,
                           space: Space)
    requires spaces == Sorted(BudgetKeys(policy))
    requires forall i | 0 <= i < |spaces| :: PressureSettled(assets, policy, actions, SpaceOf(spaces[i].0))
    ensures PressureSettled(assets, policy, actions, space)
  {
    hide Total, GroupDone, PolicyOk;
    if space in policy.capacity {
      assert (SpaceRank(space), "") in BudgetKeys(policy);
      assert (SpaceRank(space), "") in Elements(spaces);
      var i :| 0 <= i < |spaces| && spaces[i] == (SpaceRank(space), "");
      assert PressureSettled(assets, policy, actions, SpaceOf(spaces[i].0));
    }
  }
}
