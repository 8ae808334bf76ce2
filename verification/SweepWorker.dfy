/** The maintenance worker's loop over the registry class and the byte store, planned and then applied. */
module SweepWorker {
  import opened Model
  import opened RegistrySpec
  import opened RegistryLaws
  import opened RegistryCopies
  import opened Registry
  import opened Storage
  import opened SweepPlan
  import opened SweepRun
  import opened SweepFixpoint

  datatype SweepReport = SweepReport(dryRun: bool, candidates: nat, applied: nat, skipped: nat, errors: nat,
                                     exhausted: set<Space>)

  method RecheckLive(registry: InMemoryAssetRegistry, policy: SweepPolicy, act: Action) returns (need: Need)
    requires registry.Valid()
    ensures need == Recheck(registry.View(), policy, act)
  {
    var space, partition := act.asset.space, act.asset.partition;
    PlainTotals(registry.assets, UsedBytes(space, partition));
    PlainTotals(registry.assets, BucketUsed(space));
    assert (space, partition) in registry.View().partitionLimits;
    if act.reason.QuotaLfu? {
      var quota := PartitionQuotaOf(registry.partitionQuotas, space, partition);
      if !quota.limits.sweepEnabled || quota.limits.bytes.None?
         || quota.usedBytes as real <= Share(quota.limits.bytes.value, policy.quotaTarget) {
        return Moot;
      }
    }
    if act.reason.PressureLfu? {
      if space !in policy.capacity { return NoBudget; }
      var usage := BucketQuotaOf(registry.bucketQuotas, space).usedBytes;
      if usage as real <= Share(policy.capacity[space], policy.pressureTarget) { return Moot; }
    }
    return Needed;
  }

  /** The second half of a purge: under the lock again, bytes first, then the record. */
  method EmptyAsset(registry: InMemoryAssetRegistry, store: LocalObjectStore, now: int, act: Action)
    returns (verdict: Verdict)
    requires registry.Valid()
    modifies registry, store
    ensures registry.Valid()
    ensures Done(registry.View(), store.objects, verdict)
            == PerformPurge(old(registry.View()), old(store.objects), now, act)
  {
    if act.id !in registry.assets { return Failed; }
    var fenced := registry.assets[act.id];
    assert Full(registry.View(), act.id) == fenced;
    if fenced.purgedAt.Some? { return Skipped; }
    if !fenced.state.Deleted? { return Failed; }
    store.Delete(LocationOf(fenced, act.id));
    var out := registry.LifecycleUpdate(act.id, fenced, Deleted, true, now);
    verdict := if out.Ok? then Applied else Failed;
  }

  method PerformAction(registry: InMemoryAssetRegistry, store: LocalObjectStore, policy: SweepPolicy, now: int,
                       act: Action)
    returns (verdict: Verdict)
    requires registry.Valid()
    modifies registry, store
    ensures registry.Valid()
    ensures Done(registry.View(), store.objects, verdict)
            == Perform(old(registry.View()), old(store.objects), policy, now, act)
  {
    if act.id !in registry.assets { return Failed; }
    assert Full(registry.View(), act.id) == registry.assets[act.id];
    if registry.assets[act.id] != act.asset { return Skipped; }
    var need := RecheckLive(registry, policy, act);
    if need.Moot? { return Skipped; }
    if need.NoBudget? { return Failed; }
    if !act.purge || !act.asset.state.Deleted? {
      var out := registry.LifecycleUpdate(act.id, act.asset, act.state, false, now);
      if out.Err? { return Failed; }
    }
    if !act.purge { return Applied; }
    verdict := EmptyAsset(registry, store, now, act);
  }

  method ApplyAll(registry: InMemoryAssetRegistry, store: LocalObjectStore, policy: SweepPolicy, now: int,
                  actions: seq<Action>)
    returns (applied: nat, skipped: nat, errors: nat)
    requires registry.Valid()
    modifies registry, store
    ensures registry.Valid()
    ensures Run(registry.View(), store.objects, applied, skipped, errors)
         == Execute(old(registry.View()), old(store.objects), policy, now, actions)
  {
    hide Perform;
    applied, skipped, errors := 0, 0, 0;
    for i := 0 to |actions|
      invariant registry.Valid()
      invariant Run(registry.View(), store.objects, applied, skipped, errors)
             == Execute(old(registry.View()), old(store.objects), policy, now, actions[..i])
    {
      hide InMemoryAssetRegistry.Valid, InMemoryAssetRegistry.View;
      var verdict := PerformAction(registry, store, policy, now, actions[i]);
      assert actions[..i + 1][..i] == actions[..i];
      match verdict {
        case Applied => applied := applied + 1;
        case Skipped => skipped := skipped + 1;
        case Failed => errors := errors + 1;
      }
    }
    assert actions[..|actions|] == actions;
  }

  /** Plans and, unless dry, applies: on a registry nobody else touches, every candidate is applied. */
  method RunSweep(registry: InMemoryAssetRegistry, store: LocalObjectStore, policy: SweepPolicy, dryRun: bool, now: int)
    returns (report: SweepReport)
    requires registry.Valid()
    modifies registry, store
    ensures registry.Valid()
    ensures var plan := PlanFor(old(registry.View()), policy, now);
            && report.candidates == |plan.actions| && report.exhausted == plan.exhausted && report.dryRun == dryRun
            && report.skipped == 0 && report.errors == 0
            && (if dryRun then report.applied == 0 && registry.View() == old(registry.View())
               && store.objects == old(store.objects)
                else report.applied == report.candidates
                     && Clean(old(registry.View()), old(store.objects), plan.actions, now,
                              Run(registry.View(), store.objects, report.applied, report.skipped, report.errors)))
  {
    hide Clean, Execute;
    var listed := registry.ListAssets();
    var plan, _ := PlanSweep(listed, registry.partitionQuotas, policy, now);
    assert plan == PlanFor(registry.View(), policy, now);
    ghost var w, objects := registry.View(), store.objects;
    assert Inv(w);
    hide PlanFor, Inv;
    report := SweepReport(dryRun, |plan.actions|, 0, 0, 0, plan.exhausted);
    if dryRun { return; }
    hide InMemoryAssetRegistry.View;
    var applied, skipped, errors := ApplyAll(registry, store, policy, now, plan.actions);
    report := report.(applied := applied, skipped := skipped, errors := errors);
    SweepAppliesItsPlan(w, objects, policy, now);
    CleanReport(w, objects, plan.actions, now, Execute(w, objects, policy, now, plan.actions));
  }

  lemma CleanReport(w: World, objects: Objects, actions: seq<Action>, now: int, r: Run)
    requires Clean(w, objects, actions, now, r)
    ensures r.applied == |actions| && r.skipped == 0 && r.errors == 0
  {
  }
}
