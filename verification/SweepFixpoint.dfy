/** After a sweep: planning again at once finds nothing to do, and a second sweep one grace period
    later purges everything whose time was up at the first. */
module SweepFixpoint {
  import opened Model
  import opened RegistrySpec
  import opened RegistryLaws
  import opened Storage
  import opened Order
  import opened SweepPlan
  import opened SweepLaws
  import opened SweepRun

  /** The whole plan goes through: as many actions applied as planned, none skipped, none failed. */
  lemma SweepAppliesItsPlan(w: World, objects: Objects, policy: SweepPolicy, now: int)
    requires Inv(w)
    ensures var actions := PlanFor(w, policy, now).actions;
            && Clean(w, objects, actions, now, Execute(w, objects, policy, now, actions))
            && PlanOk(Snapshot(w), w.partitionLimits, policy, now, actions)
  {
    PlanLaws(Snapshot(w), w.partitionLimits, policy, now);
    hide Inv, Justified, PlanOf, QuotaSettled, PressureSettled, Clean, Execute, AllJustified;
    assert AllJustified(Snapshot(w), w.partitionLimits, policy, now, PlanFor(w, policy, now).actions);
    PlanIsExecuted(w, objects, policy, now, PlanFor(w, policy, now).actions);
  }

  // ---------------------------------------------------------------- the snapshot after a sweep

  /** What the second planner sees: the rows left alone, and the evicted or lapsed ones as expired. */
  ghost predicate Follows(first: map<Id, Asset>, second: map<Id, Asset>, actions: seq<Action>, now: int) {
    && second.Keys == first.Keys - Purged(actions)
    && (forall id <- second :: id !in Chosen(actions) ==> second[id] == first[id])
    && (forall id <- second :: id in Chosen(actions) ==>
          second[id] == first[id].(state := Expired, updatedAt := now, expiredAt := Some(now)))
  }

  lemma SnapshotAfter(w: World, after: World, policy: SweepPolicy, now: int, actions: seq<Action>)
    requires Inv(w) && Swept(w, after, actions, now)
             && AllJustified(Snapshot(w), w.partitionLimits, policy, now, actions)
    ensures Follows(Snapshot(w), Snapshot(after), actions, now)
  {
    hide Inv;
    forall id <- w.assets | id !in Chosen(actions) ensures Full(after, id) == Full(w, id) {}
    forall act <- actions
      ensures act.id in Snapshot(w)
      ensures act.purge ==> after.assets[act.id].purgedAt.Some?
      ensures !act.purge ==>
                after.assets[act.id].purgedAt.None?
                && Full(after, act.id) == Full(w, act.id).(state := Expired, updatedAt := now, expiredAt := Some(now))
    {
      var i :| 0 <= i < |actions| && actions[i] == act;
      assert Justified(Snapshot(w), w.partitionLimits, policy, now, actions[..i], act);
      assert act.id in Snapshot(w);
      hide Justified;
    }
    hide AllJustified, Justified;
  }

  predicate GraceIsPositive(policy: SweepPolicy) {
    forall space: Space :: Grace(policy, space) > 0
  }

  lemma NothingDue(first: map<Id, Asset>, second: map<Id, Asset>, limits: LimitTable, policy: SweepPolicy, now: int,
                   actions: seq<Action>)
    requires Follows(first, second, actions, now) && GraceIsPositive(policy)
    requires forall id <- first :: Due(id, first[id], policy, now).Some? ==> id in Chosen(actions)
    ensures TimedPlan(second, policy, now).actions == []
  {
    forall id <- second ensures Due(id, second[id], policy, now).None? {
      if id in Chosen(actions) { assert Grace(policy, second[id].space) > 0; } else { assert second[id] == first[id]; }
    }
    TimedPlanLaws(second, limits, policy, now);
    var again := TimedPlan(second, policy, now).actions;
    NoneChosen(again);
  }

  /** A group's live bytes and candidates are those the planner had left. */
  lemma GroupAfter(first: map<Id, Asset>, second: map<Id, Asset>, actions: seq<Action>, now: int, m: Measure)
    requires Follows(first, second, actions, now) && IsGroup(m) && Purged(actions) <= Chosen(actions)
    ensures Total(second, m) == Total(first - Chosen(actions), m)
    ensures (forall id <- first - Chosen(actions) :: !Candidate(m, first[id]))
            ==> forall id <- second :: !Candidate(m, second[id])
  {
    var left := first - Chosen(actions);
    TotalWithout(second, m, Chosen(actions));
    assert (second - Chosen(actions)).Keys == left.Keys;
    TotalSame(second - Chosen(actions), left, m);
    hide Total;
    if forall id <- left :: !Candidate(m, first[id]) {
      forall id <- second ensures !Candidate(m, second[id]) {
        if id !in Chosen(actions) { assert id in left; }
      }
    }
  }

  /** Expiring frees no physical space. */
  lemma PhysicalAfter(first: map<Id, Asset>, second: map<Id, Asset>, actions: seq<Action>, now: int, space: Space)
    requires Follows(first, second, actions, now)
    requires forall id <- first :: first[id].purgedAt.None?
    ensures Total(second, Physical(space)) == Total(first - Purged(actions), Physical(space))
  {
    TotalSame(second, first - Purged(actions), Physical(space));
  }

  // ---------------------------------------------------------------- planning again

  lemma NothingToEvict(assets: map<Id, Asset>, plan: Plan, m: Measure, target: real, reason: Reason, now: int)
    requires plan.actions == [] && GroupDone(assets, m, target)
    ensures EvictGroup(assets, plan, m, target, reason, now).actions == []
  {
    assert assets - Chosen([]) == assets;
    var ranked := Ranked(assets, m, now);
    assert assets - Ids(ranked, 0) == assets;
    if !(Total(assets, m) as real <= target) {
      if ranked != [] { RankedOrder(assets, m, now); }
    }
  }

  lemma {:induction false} QuotaPassIdles(assets: map<Id, Asset>, limits: LimitTable, policy: SweepPolicy, now: int,
                                          plan: Plan, parts: seq<SortKey>)
    requires plan.actions == []
    requires forall i | 0 <= i < |parts| :: QuotaSettled(assets, limits, policy, [], SpaceOf(parts[i].0), parts[i].1)
    ensures QuotaPass(assets, limits, policy, now, plan, parts).actions == []
  {
    if parts != [] {
      var n := |parts| - 1;
      QuotaPassIdles(assets, limits, policy, now, plan, parts[..n]);
      var mid := QuotaPass(assets, limits, policy, now, plan, parts[..n]);
      var space, partition := SpaceOf(parts[n].0), parts[n].1;
      var l := LimitsOf(limits, space, partition);
      assert QuotaSettled(assets, limits, policy, [], space, partition);
      assert assets - Chosen([]) == assets;
      hide Total, GroupDone, EvictGroup, PolicyOk, Share, Chosen, SpaceOf;
      if QuotaTriggered(assets, l, policy, space, partition) {
        NothingToEvict(assets, mid, UsedBytes(space, partition), Share(l.bytes.value, policy.quotaTarget), QuotaLfu,
                       now);
      }
    }
  }

  lemma {:induction false} PressurePassIdles(assets: map<Id, Asset>, policy: SweepPolicy, now: int, plan: Plan,
                                             spaces: seq<SortKey>)
    requires plan.actions == []
    requires forall i | 0 <= i < |spaces| :: PressureSettled(assets, policy, [], SpaceOf(spaces[i].0))
    ensures PressurePass(assets, policy, now, plan, spaces).actions == []
  {
    if spaces != [] {
      var n := |spaces| - 1;
      PressurePassIdles(assets, policy, now, plan, spaces[..n]);
      var mid := PressurePass(assets, policy, now, plan, spaces[..n]);
      var space := SpaceOf(spaces[n].0);
      assert PressureSettled(assets, policy, [], space);
      assert assets - Chosen([]) == assets;
      hide Total, GroupDone, EvictGroup, PolicyOk, Share, Chosen, SpaceOf, Purged;
      if PressureTriggered(assets, Purged([]), policy, space) {
        NothingToEvict(assets, mid, BucketUsed(space), Share(policy.capacity[space], policy.pressureTarget),
                       PressureLfu, now);
      }
    }
  }

  lemma QuotaSettledForAgain(first: map<Id, Asset>, second: map<Id, Asset>, limits: LimitTable, policy: SweepPolicy,
                             now: int,
                             actions: seq<Action>, space: Space, partition: string)
    requires Follows(first, second, actions, now) && QuotaSettled(first, limits, policy, actions, space, partition)
    ensures QuotaSettled(second, limits, policy, [], space, partition)
  {
    assert second - Chosen([]) == second;
    assert Purged(actions) <= Chosen(actions);
    hide Follows, Chosen, Purged, Total, Candidate, Share, PolicyOk;
    GroupAfter(first, second, actions, now, UsedBytes(space, partition));
  }

  lemma PressureSettledForAgain(first: map<Id, Asset>, second: map<Id, Asset>, policy: SweepPolicy, now: int,
                                actions: seq<Action>, space: Space)
    requires Follows(first, second, actions, now) && PressureSettled(first, policy, actions, space)
    requires forall id <- first :: first[id].purgedAt.None?
    ensures PressureSettled(second, policy, [], space)
  {
    assert second - Chosen([]) == second && second - Purged([]) == second;
    assert Purged(actions) <= Chosen(actions);
    hide Follows, Chosen, Purged, Total, Candidate, Share, PolicyOk;
    GroupAfter(first, second, actions, now, BucketUsed(space));
    PhysicalAfter(first, second, actions, now, space);
  }

  lemma SettledForAgain(first: map<Id, Asset>, second: map<Id, Asset>, limits: LimitTable, policy: SweepPolicy,
                        now: int, actions: seq<Action>)
    requires Follows(first, second, actions, now) && PlanOk(first, limits, policy, now, actions)
    requires forall id <- first :: first[id].purgedAt.None?
    ensures forall space: Space, partition: string ::
              Evictable(space) ==> QuotaSettled(second, limits, policy, [], space, partition)
    ensures forall space: Space :: PressureSettled(second, policy, [], space)
  {
    hide Follows, QuotaSettled, PressureSettled, AllJustified, Due;
    forall space: Space, partition: string | Evictable(space)
      ensures QuotaSettled(second, limits, policy, [], space, partition)
    {
      QuotaSettledForAgain(first, second, limits, policy, now, actions, space, partition);
    }
    forall space: Space ensures PressureSettled(second, policy, [], space) {
      PressureSettledForAgain(first, second, policy, now, actions, space);
    }
  }

  lemma PlanningAgainIsIdle(first: map<Id, Asset>, second: map<Id, Asset>, limits: LimitTable, policy: SweepPolicy,
                            now: int, actions: seq<Action>)
    requires Follows(first, second, actions, now) && PlanOk(first, limits, policy, now, actions)
             && GraceIsPositive(policy)
    requires forall id <- first :: first[id].purgedAt.None?
    ensures PlanOf(second, limits, policy, now).actions == []
  {
    NothingDue(first, second, limits, policy, now, actions);
    SettledForAgain(first, second, limits, policy, now, actions);
    var parts, spaces := Sorted(PartitionKeys(second)), Sorted(BudgetKeys(policy));
    PartitionKeysAreEvictable(second, parts);
    hide PlanOk, Follows, QuotaSettled, PressureSettled, PartitionKeys, BudgetKeys, TimedPlan, QuotaPass, PressurePass;
    QuotaPassIdles(second, limits, policy, now, TimedPlan(second, policy, now), parts);
    PressurePassIdles(second, policy, now, QuotaPass(second, limits, policy, now, TimedPlan(second, policy, now),
                                                     parts), spaces);
  }

  /** With a positive grace in every bucket, planning at the same moment after a sweep finds nothing to do. */
  lemma SweepIsAFixpoint(w: World, objects: Objects, policy: SweepPolicy, now: int)
    requires Inv(w) && GraceIsPositive(policy)
    ensures var after := Execute(w, objects, policy, now, PlanFor(w, policy, now).actions).world;
            PlanFor(after, policy, now).actions == []
  {
    var actions := PlanFor(w, policy, now).actions;
    SweepAppliesItsPlan(w, objects, policy, now);
    var after := Execute(w, objects, policy, now, actions).world;
    assert after.partitionLimits == w.partitionLimits;
    assert forall id <- Snapshot(w) :: Snapshot(w)[id].purgedAt.None?;
    assert Swept(w, after, actions, now) && AllJustified(Snapshot(w), w.partitionLimits, policy, now, actions);
    hide Inv, Swept, PlanOk, AllJustified, Execute, Clean, Snapshot, PlanOf, Follows;
    SnapshotAfter(w, after, policy, now, actions);
    PlanningAgainIsIdle(Snapshot(w), Snapshot(after), w.partitionLimits, policy, now, actions);
  }

  // ---------------------------------------------------------------- two sweeps

  ghost function SweptWorld(w: World, objects: Objects, policy: SweepPolicy, now: int): World {
    Execute(w, objects, policy, now, PlanFor(w, policy, now).actions).world
  }

  /** How many sweeps an asset whose time is up is away from losing its bytes. */
  function StepsToPurge(a: Asset): nat {
    if a.purgedAt.Some? then 0 else if a.state.Available? then 2 else 1
  }

  /** One sweep brings an asset whose time is up one step closer; a lapsed one then waits for its grace. */
  lemma DueMovesOn(w: World, objects: Objects, policy: SweepPolicy, now: int, id: Id)
    requires Inv(w) && id in Snapshot(w) && Due(id, Snapshot(w)[id], policy, now).Some?
    ensures var b := SweptWorld(w, objects, policy, now).assets;
            && id in b && StepsToPurge(b[id]) < StepsToPurge(w.assets[id])
            && (if w.assets[id].state.Available? then
                  b[id].state.Expired? && b[id].expiredAt == Some(now) && b[id].purgedAt.None?
                else b[id].purgedAt == Some(now))
            && b[id].space == w.assets[id].space
  {
    SweepAppliesItsPlan(w, objects, policy, now);
    var actions := PlanFor(w, policy, now).actions;
    var after := SweptWorld(w, objects, policy, now);
    assert Swept(w, after, actions, now) && AllJustified(Snapshot(w), w.partitionLimits, policy, now, actions)
           && id in Chosen(actions);
    hide Inv, PlanOk, Execute, Clean, PlanFor, SweptWorld, Swept, AllJustified, Due;
    var act := DueActionTaken(w, after, policy, now, actions, id);
    assert after.assets[id] == RowAfter(w.assets[id], act, now);
    DueShape(id, Snapshot(w)[id], policy, now);
  }

  lemma DueShape(id: Id, a: Asset, policy: SweepPolicy, now: int)
    requires Due(id, a, policy, now).Some?
    ensures Due(id, a, policy, now).value.purge <==> !a.state.Available?
  {
  }

  /** Whatever the reason it was chosen for, a due asset is purged exactly when it is not available. */
  lemma SamePurge(assets: map<Id, Asset>, limits: LimitTable, policy: SweepPolicy, now: int, before: seq<Action>,
                  act: Action)
    requires Justified(assets, limits, policy, now, before, act) && Due(act.id, assets[act.id], policy, now).Some?
    ensures act.purge == Due(act.id, assets[act.id], policy, now).value.purge
  {
    hide Share, Total, PolicyOk, Chosen;
  }

  lemma DueActionTaken(w: World, after: World, policy: SweepPolicy, now: int, actions: seq<Action>, id: Id)
    returns (act: Action)
    requires Swept(w, after, actions, now) && AllJustified(Snapshot(w), w.partitionLimits, policy, now, actions)
    requires id in Chosen(actions) && id in Snapshot(w) && Due(id, Snapshot(w)[id], policy, now).Some?
    ensures id in after.assets && after.assets[id] == RowAfter(w.assets[id], act, now)
    ensures act.purge == Due(id, Snapshot(w)[id], policy, now).value.purge
  {
    var i :| 0 <= i < |actions| && actions[i].id == id;
    act := actions[i];
    assert act in actions;
    hide Share, Total, PolicyOk, Chosen, Justified, Snapshot;
    assert Justified(Snapshot(w), w.partitionLimits, policy, now, actions[..i], act);
    assert after.assets[id] == RowAfter(w.assets[id], act, now);
    SamePurge(Snapshot(w), w.partitionLimits, policy, now, actions[..i], act);
    hide AllJustified, Swept;
  }

  /** Whatever else happens in between, as long as it leaves the row alone, a second sweep at least
      one grace period later finishes what the first one touched. */
  lemma TwoSweepsPurge(w: World, objects: Objects, mid: World, later: Objects, policy: SweepPolicy, now: int,
                       then_: int, id: Id)
    requires Inv(w) && Inv(mid) && id in Snapshot(w) && Due(id, Snapshot(w)[id], policy, now).Some?
    requires id in SweptWorld(w, objects, policy, now).assets && id in mid.assets
             && mid.assets[id] == SweptWorld(w, objects, policy, now).assets[id]
    requires then_ - now >= Grace(policy, w.assets[id].space) * SECOND
    ensures var b := SweptWorld(mid, later, policy, then_).assets; id in b && b[id].purgedAt.Some?
  {
    DueMovesOn(w, objects, policy, now, id);
    hide SweptWorld, Inv;
    if mid.assets[id].purgedAt.None? {
      assert Due(id, Snapshot(mid)[id], policy, then_).Some?;
      DueMovesOn(mid, later, policy, then_, id);
    } else {
      PurgedIsLeftAlone(mid, later, policy, then_, id);
    }
  }

  lemma PurgedIsLeftAlone(w: World, objects: Objects, policy: SweepPolicy, now: int, id: Id)
    requires Inv(w) && id in w.assets && w.assets[id].purgedAt.Some?
    ensures var b := SweptWorld(w, objects, policy, now).assets; id in b && b[id] == w.assets[id]
  {
    SweepAppliesItsPlan(w, objects, policy, now);
    var actions := PlanFor(w, policy, now).actions;
    ChosenAreSeen(Snapshot(w), w.partitionLimits, policy, now, actions);
    hide Inv, PlanOk, Execute, PlanOf, AllJustified;
  }

  lemma ChosenAreSeen(assets: map<Id, Asset>, limits: LimitTable, policy: SweepPolicy, now: int, actions: seq<Action>)
    requires AllJustified(assets, limits, policy, now, actions)
    ensures Chosen(actions) <= assets.Keys
  {
    forall id <- Chosen(actions) ensures id in assets {
      var i :| 0 <= i < |actions| && actions[i].id == id;
      assert Justified(assets, limits, policy, now, actions[..i], actions[i]);
    }
  }
}
