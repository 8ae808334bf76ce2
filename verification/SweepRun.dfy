/** Carrying out a plan: each action is checked again against the live registry, expiry is a registry
    update, and a purge deletes the bytes between two updates. */
module SweepRun {
  import opened Model
  import opened RegistrySpec
  import opened RegistryLaws
  import opened Storage
  import opened SweepPlan
  import opened SweepLaws

  type Objects = map<Location, Payload>

  datatype Verdict = Applied | Skipped | Failed

  datatype Done = Done(world: World, objects: Objects, verdict: Verdict)

  datatype Run = Run(world: World, objects: Objects, applied: nat, skipped: nat, errors: nat)

  /** The assets a sweep looks at: all whose bytes have not been purged, as callers see them. */
  ghost function Snapshot(w: World): map<Id, Asset> {
    map id | id in w.assets && w.assets[id].purgedAt.None? :: Full(w, id)
  }

  ghost function PlanFor(w: World, policy: SweepPolicy, now: int): Plan {
    PlanOf(Snapshot(w), w.partitionLimits, policy, now)
  }

  // ---------------------------------------------------------------- one action

  datatype Need = Needed | Moot | NoBudget

  /** The live check before an eviction: is the group still above its target? */
  ghost function Recheck(w: World, policy: SweepPolicy, act: Action): Need {
    match act.reason
    case QuotaLfu =>
      var l := LimitsOf(w.partitionLimits, act.asset.space, act.asset.partition);
      if !l.sweepEnabled || l.bytes.None? then Moot
      else if Total(w.assets, UsedBytes(act.asset.space, act.asset.partition)) as real <= Share(l.bytes.value,
        policy.quotaTarget) then Moot
      else Needed
    case PressureLfu =>
      if act.asset.space !in policy.capacity then NoBudget
      else if Total(w.assets, BucketUsed(act.asset.space)) as real <= Share(policy.capacity[act.asset.space],
        policy.pressureTarget) then Moot
      else Needed
    case _ => Needed
  }

  /** Deletes the bytes of an asset already marked deleted and records that they are gone. */
  ghost function PerformPurge(w: World, objects: Objects, now: int, act: Action): Done {
    if act.id !in w.assets then Done(w, objects, Failed)
    else
      var fenced := Full(w, act.id);
      if fenced.purgedAt.Some? then Done(w, objects, Skipped)
      else if !fenced.state.Deleted? then Done(w, objects, Failed)
      else
        var emptied := objects - {LocationOf(fenced, act.id)};
        var step := ApplyLifecycle(w, act.id, fenced, Deleted, true, now);
        Done(step.world, emptied, if step.out.Ok? then Applied else Failed)
  }

  ghost function Perform(w: World, objects: Objects, policy: SweepPolicy, now: int, act: Action): Done {
    if act.id !in w.assets then Done(w, objects, Failed)
    else if Full(w, act.id) != act.asset then Done(w, objects, Skipped)
    else
      var need := Recheck(w, policy, act);
      if need.Moot? then Done(w, objects, Skipped)
      else if need.NoBudget? then Done(w, objects, Failed)
      else
        var step := if !act.purge || !act.asset.state.Deleted?
          then ApplyLifecycle(w, act.id, act.asset, act.state, false, now) else Step(w, Ok);
        if step.out.Err? then Done(w, objects, Failed)
        else if !act.purge then Done(step.world, objects, Applied)
        else PerformPurge(step.world, objects, now, act)
  }

  function Tally(r: Run, d: Done): Run {
    Run(d.world, d.objects, r.applied + (if d.verdict.Applied? then 1 else 0),
        r.skipped + (if d.verdict.Skipped? then 1 else 0),
        r.errors + if d.verdict.Failed? then 1 else 0)
  }

  ghost function Execute(w: World, objects: Objects, policy: SweepPolicy, now: int, actions: seq<Action>): Run {
    if actions == [] then Run(w, objects, 0, 0, 0)
    else
      var r := Execute(w, objects, policy, now, actions[..|actions| - 1]);
      Tally(r, Perform(r.world, r.objects, policy, now, actions[|actions| - 1]))
  }

  // ---------------------------------------------------------------- what a swept registry is

  function RowAfter(a: Asset, act: Action, now: int): Asset {
    if act.purge then a.(state := Deleted, updatedAt := now, purgedAt := Some(now))
    else a.(state := Expired, updatedAt := now, expiredAt := Some(now))
  }

  /** Only the chosen rows changed, each as planned. */
  ghost predicate Swept(w: World, after: World, actions: seq<Action>, now: int) {
    && after.names == w.names && after.tombs == w.tombs
    && after.partitionLimits == w.partitionLimits && after.bucketLimits == w.bucketLimits
    && after.assets.Keys == w.assets.Keys
    && (forall id <- w.assets :: id !in Chosen(actions) ==> after.assets[id] == w.assets[id])
    && (forall act <- actions :: act.id in w.assets && after.assets[act.id] == RowAfter(w.assets[act.id], act, now))
  }

  ghost function Emptied(w: World, objects: Objects, actions: seq<Action>): Objects {
    map at | at in objects && (forall id <- Purged(actions) ::
                                id in w.assets
                                ==> LocationOf(w.assets[id], id) != at) :: objects[at]
  }

  /** What counts in a group after some choices were carried out is what the planner had left. */
  lemma LiveIsPlanned(w: World, after: World, actions: seq<Action>, now: int, m: Measure)
    requires Inv(w) && Swept(w, after, actions, now) && IsGroup(m)
    ensures Total(after.assets, m) == Total(Snapshot(w) - Chosen(actions), m)
  {
    var left := Snapshot(w) - Chosen(actions);
    var gone := after.assets.Keys - left.Keys;
    forall id <- gone ensures Weigh(m, after.assets[id]) == 0 {
      if id in Chosen(actions) {
        var act :| act in actions && act.id == id;
        assert after.assets[id] == RowAfter(w.assets[id], act, now);
      } else {
        assert Coherent(w.assets[id]);
      }
    }
    TotalWithout(after.assets, m, gone);
    assert (after.assets - gone).Keys == left.Keys;
    TotalSame(after.assets - gone, left, m);
  }

  // ---------------------------------------------------------------- each planned action goes through

  lemma StillAsPlanned(w: World, after: World, policy: SweepPolicy, now: int, before: seq<Action>, act: Action)
    requires Swept(w, after, before, now) && Justified(Snapshot(w), w.partitionLimits, policy, now, before, act)
    ensures act.id in w.assets && act.id in after.assets && after.assets[act.id] == w.assets[act.id]
    ensures Full(after, act.id) == act.asset && act.asset.purgedAt.None?
    ensures act.purge ==> act.state.Deleted? && !act.asset.state.Available?
    ensures !act.purge ==> act.state.Expired? && act.asset.state.Available?
  {
    hide PolicyOk, Share, Total;
    assert act.id in Snapshot(w);
  }

  /** The live counters are the planner's remainders, so no eviction turns out unnecessary. */
  lemma StillNeeded(w: World, after: World, policy: SweepPolicy, now: int, before: seq<Action>, act: Action)
    requires Inv(w) && Swept(w, after, before, now)
             && Justified(Snapshot(w), w.partitionLimits, policy, now, before, act)
    ensures Recheck(after, policy, act).Needed?
  {
    var a := act.asset;
    LiveIsPlanned(w, after, before, now, UsedBytes(a.space, a.partition));
    LiveIsPlanned(w, after, before, now, BucketUsed(a.space));
    hide Inv, Total, Swept, Snapshot, Chosen, Due, PolicyOk, Share, Candidate;
    assert after.partitionLimits == w.partitionLimits by { assert Swept(w, after, before, now); }
  }

  /** The registry after one action: its row rewritten, everything else as before. */
  ghost predicate OneRow(w: World, after: World, act: Action, now: int) {
    && act.id in w.assets
    && after.assets == w.assets[act.id := RowAfter(w.assets[act.id], act, now)]
    && after.names == w.names && after.tombs == w.tombs
    && after.partitionLimits == w.partitionLimits && after.bucketLimits == w.bucketLimits
  }

  lemma ExpiryWorks(w: World, objects: Objects, policy: SweepPolicy, now: int, act: Action)
    requires Inv(w) && act.id in w.assets && Full(w, act.id) == act.asset && act.asset.purgedAt.None?
    requires !act.purge && act.state.Expired? && act.asset.state.Available? && Recheck(w, policy, act).Needed?
    ensures var d := Perform(w, objects, policy, now, act);
            d.verdict.Applied? && Inv(d.world) && OneRow(w, d.world, act, now) && d.objects == objects
  {
    var step := ApplyLifecycle(w, act.id, act.asset, Expired, false, now);
    assert step.out.Ok?;
    LifecycleKeeps(w, act.id, act.asset, Expired, false, now);
    hide Inv, Recheck;
  }

  lemma FenceWorks(w: World, now: int, act: Action)
    requires Inv(w) && act.id in w.assets && Full(w, act.id) == act.asset && act.asset.purgedAt.None?
    requires act.purge && act.state.Deleted? && !act.asset.state.Available? && !act.asset.state.Deleted?
    ensures var step := ApplyLifecycle(w, act.id, act.asset, Deleted, false, now);
            step.out.Ok? && Inv(step.world) && step.world.names == w.names && step.world.tombs == w.tombs
            && step.world.partitionLimits == w.partitionLimits && step.world.bucketLimits == w.bucketLimits
            && step.world.assets == w.assets[act.id := DeleteRow(w.assets[act.id], now)]
  {
    var step := ApplyLifecycle(w, act.id, act.asset, Deleted, false, now);
    assert step.out.Ok?;
    LifecycleKeeps(w, act.id, act.asset, Deleted, false, now);
    hide Inv;
  }

  lemma EmptyingWorks(w: World, objects: Objects, now: int, act: Action)
    requires Inv(w) && act.id in w.assets && w.assets[act.id].state.Deleted? && w.assets[act.id].purgedAt.None?
    ensures var d := PerformPurge(w, objects, now, act);
            && d.verdict.Applied? && Inv(d.world) && d.objects == objects - {LocationOf(w.assets[act.id], act.id)}
            && d.world.assets == w.assets[act.id := PurgeRow(w.assets[act.id], now)]
            && d.world.names == w.names && d.world.tombs == w.tombs
            && d.world.partitionLimits == w.partitionLimits && d.world.bucketLimits == w.bucketLimits
  {
    var fenced := Full(w, act.id);
    var step := ApplyLifecycle(w, act.id, fenced, Deleted, true, now);
    assert step.out.Ok?;
    LifecycleKeeps(w, act.id, fenced, Deleted, true, now);
    hide Inv;
  }

  lemma PurgeWorks(w: World, objects: Objects, policy: SweepPolicy, now: int, act: Action)
    requires Inv(w) && act.id in w.assets && Full(w, act.id) == act.asset && act.asset.purgedAt.None?
    requires act.purge && act.state.Deleted? && !act.asset.state.Available? && Recheck(w, policy, act).Needed?
    ensures var d := Perform(w, objects, policy, now, act);
            d.verdict.Applied? && Inv(d.world) && OneRow(w, d.world, act, now)
            && d.objects == objects - {LocationOf(w.assets[act.id], act.id)}
  {
    hide Inv, Recheck;
    var fenced := if act.asset.state.Deleted? then w
      else ApplyLifecycle(w, act.id, act.asset, Deleted, false, now).world;
    if !act.asset.state.Deleted? { FenceWorks(w, now, act); }
    hide ApplyLifecycle;
    assert fenced.assets[act.id].state.Deleted? && fenced.assets[act.id].purgedAt.None?;
    EmptyingWorks(fenced, objects, now, act);
    hide PerformPurge;
    assert LocationOf(fenced.assets[act.id], act.id) == LocationOf(w.assets[act.id], act.id);
    var d := Perform(w, objects, policy, now, act);
    assert d == PerformPurge(fenced, objects, now, act);
    assert d.world.assets == w.assets[act.id := RowAfter(w.assets[act.id], act, now)];
  }

  lemma ActionWorks(w: World, after: World, objects: Objects, policy: SweepPolicy, now: int, before: seq<Action>,
                    act: Action)
    requires Inv(w) && Inv(after) && Swept(w, after, before, now)
    requires Justified(Snapshot(w), w.partitionLimits, policy, now, before, act)
    ensures var d := Perform(after, objects, policy, now, act);
            d.verdict.Applied? && Inv(d.world) && OneRow(after, d.world, act, now)
            && act.id in w.assets && after.assets[act.id] == w.assets[act.id]
            && d.objects == objects - if act.purge then {LocationOf(w.assets[act.id], act.id)} else {}
  {
    hide Inv, Swept, Justified, Snapshot, Recheck, Perform, OneRow, Full;
    StillAsPlanned(w, after, policy, now, before, act);
    StillNeeded(w, after, policy, now, before, act);
    if act.purge {
      PurgeWorks(after, objects, policy, now, act);
    } else {
      ExpiryWorks(after, objects, policy, now, act);
      assert objects - {} == objects;
    }
  }

  lemma SweptGrows(w: World, after: World, later: World, actions: seq<Action>, act: Action, now: int)
    requires Swept(w, after, actions, now) && OneRow(after, later, act, now)
    requires act.id in w.assets && after.assets[act.id] == w.assets[act.id] && act.id !in Chosen(actions)
    ensures Swept(w, later, actions + [act], now)
  {
    ChosenAppend(actions, act);
    forall other <- actions + [act] ensures other.id in w.assets
      && later.assets[other.id] == RowAfter(w.assets[other.id], other, now) {
      if other in actions { assert other.id in Chosen(actions); }
    }
  }

  lemma EmptiedGrows(w: World, objects: Objects, actions: seq<Action>, act: Action)
    requires act.id in w.assets
    ensures Emptied(w, objects, actions + [act])
         == Emptied(w, objects, actions) - if act.purge then {LocationOf(w.assets[act.id], act.id)} else {}
  {
    ChosenAppend(actions, act);
    hide LocationOf, Chosen;
    assert Purged(actions + [act]) == Purged(actions) + if act.purge then {act.id} else {};
    hide Purged;
  }

  /** The first actions were all applied, and this is what they left. */
  ghost predicate Clean(w: World, objects: Objects, actions: seq<Action>, now: int, r: Run) {
    && r.applied == |actions| && r.skipped == 0 && r.errors == 0
    && Inv(r.world) && Swept(w, r.world, actions, now)
    && r.objects == Emptied(w, objects, actions)
  }

  lemma CleanGrows(w: World, objects: Objects, policy: SweepPolicy, now: int, before: seq<Action>, act: Action, r: Run)
    requires Inv(w) && Clean(w, objects, before, now, r)
             && Justified(Snapshot(w), w.partitionLimits, policy, now, before, act)
    ensures Clean(w, objects, before + [act], now, Tally(r, Perform(r.world, r.objects, policy, now, act)))
  {
    assert act.id !in Chosen(before);
    hide Inv, Swept, Justified, Snapshot, Perform, OneRow, Emptied, Chosen;
    ActionWorks(w, r.world, r.objects, policy, now, before, act);
    SweptGrows(w, r.world, Perform(r.world, r.objects, policy, now, act).world, before, act, now);
    EmptiedGrows(w, objects, before, act);
  }

  lemma CleanStart(w: World, objects: Objects, now: int)
    requires Inv(w)
    ensures Clean(w, objects, [], now, Run(w, objects, 0, 0, 0))
  {
    hide Inv;
    assert Emptied(w, objects, []) == objects;
  }

  /** Without interference, every planned action is applied: none is skipped, none fails, and the
      outcome is the planned rows rewritten and the planned bytes gone. */
  lemma {:induction false} PlanIsExecuted(w: World, objects: Objects, policy: SweepPolicy, now: int,
                                          actions: seq<Action>)
    requires Inv(w) && AllJustified(Snapshot(w), w.partitionLimits, policy, now, actions)
    ensures Clean(w, objects, actions, now, Execute(w, objects, policy, now, actions))
  {
    hide Justified, Clean, Snapshot, Inv, Perform, Tally;
    if actions == [] {
      CleanStart(w, objects, now);
    } else {
      var n := |actions| - 1;
      assert Justified(Snapshot(w), w.partitionLimits, policy, now, actions[..n], actions[n]);
      JustifiedPrefix(Snapshot(w), w.partitionLimits, policy, now, actions, n);
      hide AllJustified;
      PlanIsExecuted(w, objects, policy, now, actions[..n]);
      CleanGrows(w, objects, policy, now, actions[..n], actions[n], Execute(w, objects, policy, now, actions[..n]));
      assert actions[..n] + [actions[n]] == actions;
    }
  }

  lemma JustifiedPrefix(assets: map<Id, Asset>, limits: LimitTable, policy: SweepPolicy, now: int,
                        actions: seq<Action>, n: nat)
    requires AllJustified(assets, limits, policy, now, actions) && n <= |actions|
    ensures AllJustified(assets, limits, policy, now, actions[..n])
  {
    hide Justified;
    forall i | 0 <= i < n ensures Justified(assets, limits, policy, now, actions[..n][..i], actions[..n][i]) {
      assert actions[..n][..i] == actions[..i];
    }
  }
}
