/** What a sweep plan does, read off the rows: who is due and when, which evictions are called for, and who goes
    first. */
module SweepFigures {
  import opened Model
  import opened RegistrySpec
  import opened RegistryFigures
  import opened RegistryLaws
  import opened RegistryEffects
  import opened Storage
  import opened Order
  import opened SweepPlan
  import opened SweepLaws
  import opened SweepRun

  // ---------------------------------------------------------------- eviction order

  /** Last use: the last read, or the creation of an asset never read. */
  function LastUse(a: Asset): int {
    if a.lastReadAt.Some? then a.lastReadAt.value else a.createdAt
  }

  function Idle(a: Asset, now: int): int {
    if LastUse(a) < now then now - LastUse(a) else 0
  }

  function Bytes(a: Asset): int {
    if a.size.Some? then a.size.value else 0
  }

  /** Another asset a quota or pressure eviction could have taken instead at that turn. */
  ghost predicate Rival(assets: map<Id, Asset>, actions: seq<Action>, i: nat, other: Id)
    requires i < |actions|
  {
    && other in assets && other != actions[i].id && (forall k | 0 <= k < i :: actions[k].id != other)
    && assets[other].state == Available && assets[other].policy == Inherit
    && assets[other].space == actions[i].asset.space
    && (actions[i].reason == QuotaLfu ==> assets[other].partition == actions[i].asset.partition)
  }

  /** The victim of an eviction: its own snapshot, available, not exempt, in `cache` or `tmp`. */
  ghost predicate Victim(assets: map<Id, Asset>, act: Action) {
    && act.id in assets && act.asset == assets[act.id] && act.state == Expired && !act.purge
    && act.asset.state == Available && act.asset.policy == Inherit
       && (act.asset.space == Cache || act.asset.space == Tmp)
  }

  predicate Lfu(act: Action) { act.reason == QuotaLfu || act.reason == PressureLfu }

  lemma ChosenEarlier(actions: seq<Action>, n: nat, id: Id)
    requires n <= |actions|
    ensures id in Chosen(actions[..n]) <==> exists k | 0 <= k < n :: actions[k].id == id
  {
    if id in Chosen(actions[..n]) {
      var act :| act in actions[..n] && act.id == id;
      var k :| 0 <= k < n && actions[..n][k] == act;
      assert actions[k].id == id;
    }
    if exists k | 0 <= k < n :: actions[k].id == id {
      var k :| 0 <= k < n && actions[k].id == id;
      assert actions[..n][k] in actions[..n];
    }
  }

  lemma BestInFigures(assets: map<Id, Asset>, actions: seq<Action>, i: nat, m: Measure, target: real, now: int,
                      other: Id)
    requires i < |actions| && IsGroup(m) && actions[i].id in assets && actions[i].asset == assets[actions[i].id]
    requires BestVictim(assets - Chosen(actions[..i]), actions[i], m, target, now)
    requires Rival(assets, actions, i, other)
    requires m.space == actions[i].asset.space && (m.UsedBytes? ==>
               actions[i].reason == QuotaLfu
               && m.partition == actions[i].asset.partition)
    ensures var x, y := assets[actions[i].id], assets[other];
            && Idle(y, now) * Bytes(y) <= Idle(x, now) * Bytes(x)
            && (Idle(y, now) * Bytes(y) == Idle(x, now) * Bytes(x) ==> Before(other, actions[i].id))
  {
    var left := assets - Chosen(actions[..i]);
    ChosenEarlier(actions, i, other);
    assert other in left && Candidate(m, left[other]);
    TextInFigures(other, actions[i].id);
    ScoreInFigures(assets[other], now);
    ScoreInFigures(assets[actions[i].id], now);
    hide Score, Idle, Bytes, Before;
    assert Less((Score(left[other], now), other), (Score(left[actions[i].id], now), actions[i].id));
  }

  lemma ScoreInFigures(a: Asset, now: int)
    ensures Score(a, now) == Idle(a, now) * Bytes(a)
  {
  }

  /** Every eviction takes, of all assets of its group that could go, the one whose idle time times size is largest;
      of equals the one with the greatest identifier. */
  lemma VictimsInFigures(assets: map<Id, Asset>, limits: LimitTable, policy: SweepPolicy, now: int, i: nat, other: Id)
    requires var actions := PlanOf(assets, limits, policy, now).actions;
             i < |actions| && Lfu(actions[i]) && Rival(assets, actions, i, other)
    ensures var actions := PlanOf(assets, limits, policy, now).actions;
            && Victim(assets, actions[i])
            && var x, y := assets[actions[i].id], assets[other];
               && Idle(y, now) * Bytes(y) <= Idle(x, now) * Bytes(x)
               && (Idle(y, now) * Bytes(y) == Idle(x, now) * Bytes(x) ==> Before(other, actions[i].id))
  {
    var actions := PlanOf(assets, limits, policy, now).actions;
    PlanLaws(assets, limits, policy, now);
    assert Justified(assets, limits, policy, now, actions[..i], actions[i]);
    hide PlanOf, PlanOk, AllJustified, BestVictim, Idle, Bytes, Before, Rival, Share, PolicyOk;
    VictimFacts(assets, limits, policy, now, actions[..i], actions[i]);
    var a := assets[actions[i].id];
    if actions[i].reason == QuotaLfu {
      var l := LimitsOf(limits, a.space, a.partition);
      BestInFigures(assets, actions, i, UsedBytes(a.space, a.partition), Share(l.bytes.value, policy.quotaTarget), now,
                    other);
    } else {
      BestInFigures(assets, actions, i, BucketUsed(a.space), Share(policy.capacity[a.space], policy.pressureTarget),
                    now, other);
    }
  }

  lemma VictimFacts(assets: map<Id, Asset>, limits: LimitTable, policy: SweepPolicy, now: int, before: seq<Action>,
                    act: Action)
    requires Justified(assets, limits, policy, now, before, act) && Lfu(act)
    ensures Victim(assets, act)
  {
    hide Share, PolicyOk, Total, Due, Chosen, Score;
  }

  /** So of two assets of equal positive size, last used at different times up to now, the one used longer ago goes
      first. */
  lemma LongestUnusedGoesFirst(assets: map<Id, Asset>, limits: LimitTable, policy: SweepPolicy, now: int, i: nat,
                               other: Id)
    requires var actions := PlanOf(assets, limits, policy, now).actions;
             i < |actions| && Lfu(actions[i]) && Rival(assets, actions, i, other)
             && actions[i].id in assets
             && var x, y := assets[actions[i].id], assets[other];
                Bytes(x) == Bytes(y) > 0 && LastUse(x) != LastUse(y) && LastUse(x) <= now && LastUse(y) <= now
    ensures LastUse(assets[PlanOf(assets, limits, policy, now).actions[i].id]) < LastUse(assets[other])
  {
    VictimsInFigures(assets, limits, policy, now, i, other);
    var x, y := assets[PlanOf(assets, limits, policy, now).actions[i].id], assets[other];
    hide PlanOf, Rival, Before;
    if LastUse(x) > LastUse(y) { LargerProduct(Idle(x, now), Idle(y, now), Bytes(x)); }
  }

  lemma LargerProduct(a: int, b: int, n: int)
    requires a < b && n > 0
    ensures a * n < b * n
  {
  }

  // ---------------------------------------------------------------- whose time is up

  /** An upload pending too long, an asset past its deadline, one expired for the grace of its bucket, and one deleted
      whose bytes are still there. */
  predicate TimeUp(policy: SweepPolicy, a: Asset, now: int) {
    match a.state
    case Pending => now >= a.createdAt + policy.pendingSeconds * MICROS
    case Available => a.expiresAt.Some? && now >= a.expiresAt.value
    case Expired =>
      a.space in policy.graceSeconds
      && now >= (if a.expiredAt.Some? then a.expiredAt.value else a.updatedAt) + policy.graceSeconds[a.space] * MICROS
    case Deleted => a.purgedAt == None
  }

  /** What is done about it: an asset past its deadline expires, all others are deleted with their bytes. */
  predicate Remedy(a: Asset, act: Action) {
    && act.asset == a
    && (if a.state == Available then act.state == Expired && !act.purge else act.state == Deleted && act.purge)
    && act.reason == (if a.state == Available || a.state == Expired then TtlExpired else Orphan)
  }

  lemma DueInFigures(id: Id, a: Asset, policy: SweepPolicy, now: int)
    ensures Due(id, a, policy, now).Some? <==> TimeUp(policy, a, now)
    ensures TimeUp(policy, a, now) ==>
              Due(id, a, policy, now).value.id == id
              && Remedy(a, Due(id, a, policy, now).value)
  {
    assert a.space == Cache || a.space == Tmp || a.space == Users || a.space == Results;
    assert a.space in policy.graceSeconds;
  }

  lemma {:induction false} TimedAreTimely(assets: map<Id, Asset>, ids: seq<SortKey>, policy: SweepPolicy, now: int)
    requires forall i | 0 <= i < |ids| :: ids[i].1 in assets
    ensures forall act <- DueActions(assets, ids, policy, now) :: !Lfu(act)
  {
    if ids != [] {
      TimedAreTimely(assets, ids[..|ids| - 1], policy, now);
      var id := ids[|ids| - 1].1;
      DueInFigures(id, assets[id], policy, now);
      hide Due, TimeUp, PolicyOk;
    }
  }

  ghost predicate HasTimely(actions: seq<Action>, id: Id) {
    exists i | 0 <= i < |actions| :: actions[i].id == id && !Lfu(actions[i])
  }

  /** A plan acts on an asset for its time exactly when its time is up, and does what that calls for. */
  lemma TimelyInFigures(assets: map<Id, Asset>, limits: LimitTable, policy: SweepPolicy, now: int, id: Id)
    requires id in assets
    ensures var actions := PlanOf(assets, limits, policy, now).actions;
            && (HasTimely(actions, id) <==> TimeUp(policy, assets[id], now))
            && forall i | 0 <= i < |actions| && actions[i].id == id
               && !Lfu(actions[i]) :: Remedy(assets[id], actions[i])
  {
    var actions := PlanOf(assets, limits, policy, now).actions;
    PlanLaws(assets, limits, policy, now);
    DueInFigures(id, assets[id], policy, now);
    hide PolicyOk, TimeUp, Due, PlanOk;
    forall i | 0 <= i < |actions| && actions[i].id == id && !Lfu(actions[i])
      ensures Remedy(assets[id], actions[i]) && TimeUp(policy, assets[id], now)
    {
      assert PlanOk(assets, limits, policy, now, actions);
      JustifiedAt(assets, limits, policy, now, actions, i);
    }
    if TimeUp(policy, assets[id], now) {
      TimedIsFirst(assets, limits, policy, now, id);
    }
  }

  lemma JustifiedAt(assets: map<Id, Asset>, limits: LimitTable, policy: SweepPolicy, now: int, actions: seq<Action>,
                    i: nat)
    requires PlanOk(assets, limits, policy, now, actions) && i < |actions|
    ensures Justified(assets, limits, policy, now, actions[..i], actions[i])
  {
    hide Justified, QuotaSettled, PressureSettled;
  }

  /** What is due is planned in the first pass. */
  lemma TimedIsFirst(assets: map<Id, Asset>, limits: LimitTable, policy: SweepPolicy, now: int, id: Id)
    requires id in assets && Due(id, assets[id], policy, now).Some?
    ensures HasTimely(PlanOf(assets, limits, policy, now).actions, id)
  {
    var ids, parts := Sorted(IdKeys(assets)), Sorted(PartitionKeys(assets));
    var timed := TimedPlan(assets, policy, now);
    SortedIds(assets, ids);
    TimedAreTimely(assets, ids, policy, now);
    TimedPlanLaws(assets, limits, policy, now);
    PartitionKeysAreEvictable(assets, parts);
    QuotaPassLaws(assets, limits, policy, now, timed, parts);
    var mid := QuotaPass(assets, limits, policy, now, timed, parts);
    PressurePassLaws(assets, limits, policy, now, mid, Sorted(BudgetKeys(policy)));
    hide Due, PolicyOk, QuotaPass, PressurePass, IdKeys, PartitionKeys, BudgetKeys, Sorted, QuotaSettled,
      PressureSettled,
      AllJustified, Lfu;
    assert id in Chosen(timed.actions);
    var act :| act in timed.actions && act.id == id;
    var i :| 0 <= i < |timed.actions| && timed.actions[i] == act;
    assert PlanOf(assets, limits, policy, now).actions[i] == act;
  }

  /** After a lifetime was set the asset is due as lapsed exactly from its deadline on. */
  lemma LapsesAtItsDeadline(cfg: Config, w: World, id: Id, seconds: int, now: int, policy: SweepPolicy, t: int)
    requires Inv(w) && ApplySetTtl(cfg, w, id, seconds, now).out == Ok
    ensures var after := ApplySetTtl(cfg, w, id, seconds, now).world;
            HasTimely(PlanFor(after, policy, t).actions, id) <==> t >= now + seconds * MICROS
  {
    SetTtlInFigures(cfg, w, id, seconds, now);
    var after := ApplySetTtl(cfg, w, id, seconds, now).world;
    hide ApplySetTtl, Room, LifetimeGranted, HasTimely, PlanOf, PolicyOk;
    assert Coherent(w.assets[id]);
    assert id in Snapshot(after);
    TimelyInFigures(Snapshot(after), after.partitionLimits, policy, t, id);
  }

  // ---------------------------------------------------------------- one action, carried out

  /** The live check before an eviction, in sums over the rows as they are now: the group still has a limit to keep
      and is above its low-water mark. */
  ghost predicate StillAbove(w: World, policy: SweepPolicy, act: Action) {
    var key := (act.asset.space, act.asset.partition);
    && (act.reason == QuotaLfu ==>
         && key in w.partitionLimits && w.partitionLimits[key].sweepEnabled && w.partitionLimits[key].bytes.Some?
         && LiveBytes(w.assets, key.0, key.1) as real > Part(w.partitionLimits[key].bytes.value, policy.quotaTarget))
    && (act.reason == PressureLfu && key.0 in policy.capacity ==>
         BucketLive(w.assets, key.0) as real > policy.capacity[key.0] as real * policy.pressureTarget)
  }

  lemma NeedInFigures(w: World, policy: SweepPolicy, act: Action)
    ensures Recheck(w, policy, act) ==
              if act.reason == PressureLfu && act.asset.space !in policy.capacity then NoBudget
              else if StillAbove(w, policy, act) then Needed
              else Moot
  {
    MeasuresInFigures(w.assets, act.asset.space, act.asset.partition);
    hide Total, LiveBytes, BucketLive, PolicyOk;
  }

  /** The row an action leaves: expired, or deleted with its bytes gone. */
  function Rewritten(a: Asset, act: Action, now: int): Asset {
    if act.purge then a.(state := Deleted, updatedAt := now, purgedAt := Some(now))
    else a.(state := Expired, updatedAt := now, expiredAt := Some(now))
  }

  /** The action is one a sweep takes: an available asset expires, any other not yet purged is purged. */
  predicate Proper(act: Action) {
    && act.asset.purgedAt == None
    && (if act.purge then act.state == Deleted && act.asset.state != Available
        else act.state == Expired && act.asset.state == Available)
  }

  /** One action: of an unknown asset it fails, of one that changed since it is skipped, as is an eviction no longer
      called for, and one from a bucket without a budget fails, all without effect. Otherwise the row is rewritten, a
      purge takes the bytes, and nothing else changes. */
  lemma PerformInFigures(w: World, objects: Objects, policy: SweepPolicy, now: int, act: Action)
    requires Inv(w) && (act.id in w.assets && Full(w, act.id) == act.asset ==> Proper(act))
    ensures var d := Perform(w, objects, policy, now, act);
            if act.id !in w.assets then d == Done(w, objects, Failed)
            else if Full(w, act.id) != act.asset then d == Done(w, objects, Skipped)
            else if act.reason == PressureLfu && act.asset.space !in policy.capacity then d == Done(w, objects, Failed)
            else if !StillAbove(w, policy, act) then d == Done(w, objects, Skipped)
            else
              && d.verdict == Applied
              && d.world.assets == w.assets[act.id := Rewritten(w.assets[act.id], act, now)]
              && d.world.names == w.names && d.world.tombs == w.tombs
              && d.world.partitionLimits == w.partitionLimits && d.world.bucketLimits == w.bucketLimits
              && d.objects == (if act.purge then objects - {LocationOf(w.assets[act.id], act.id)} else objects)
  {
    NeedInFigures(w, policy, act);
    hide Inv, StillAbove, Recheck, PolicyOk;
    if act.id in w.assets && Full(w, act.id) == act.asset && Recheck(w, policy, act).Needed? {
      hide Perform;
      if act.purge { PurgeWorks(w, objects, policy, now, act); } else { ExpiryWorks(w, objects, policy, now, act); }
    }
  }

  /** The purge of an asset someone else purged meanwhile is skipped, of one no longer deleted it fails. */
  lemma PurgeInFigures(w: World, objects: Objects, now: int, act: Action)
    ensures var d := PerformPurge(w, objects, now, act);
            && (act.id !in w.assets ==> d == Done(w, objects, Failed))
            && (act.id in w.assets && w.assets[act.id].purgedAt.Some? ==> d == Done(w, objects, Skipped))
            && (act.id in w.assets && w.assets[act.id].purgedAt == None && w.assets[act.id].state != Deleted ==>
                 d == Done(w, objects, Failed))
  {
  }

  ghost function Verdicts(w: World, objects: Objects, policy: SweepPolicy, now: int, actions: seq<Action>)
    : (r: seq<Verdict>)
    ensures |r| == |actions|
  {
    if actions == [] then []
    else
      var n := |actions| - 1;
      var before := Execute(w, objects, policy, now, actions[..n]);
      Verdicts(w, objects, policy, now, actions[..n])
        + [Perform(before.world, before.objects, policy, now, actions[n]).verdict]
  }

  ghost function Times(verdicts: seq<Verdict>, v: Verdict): nat {
    |set i | 0 <= i < |verdicts| && verdicts[i] == v|
  }

  lemma TimesNext(verdicts: seq<Verdict>, last: Verdict, v: Verdict)
    ensures Times(verdicts + [last], v) == Times(verdicts, v) + if last == v then 1 else 0
  {
    var all := verdicts + [last];
    var before := set i | 0 <= i < |verdicts| && verdicts[i] == v;
    var after := set i | 0 <= i < |all| && all[i] == v;
    assert after == before + if last == v then {|verdicts|} else {};
  }

  /** The report counts how often each verdict was returned. */
  lemma {:induction false} TalliesAreCounts(w: World, objects: Objects, policy: SweepPolicy, now: int,
                                            actions: seq<Action>)
    ensures var r, verdicts := Execute(w, objects, policy, now, actions), Verdicts(w, objects, policy, now, actions);
            r.applied == Times(verdicts, Applied) && r.skipped == Times(verdicts, Skipped)
            && r.errors == Times(verdicts, Failed)
  {
    hide Perform, Times, PolicyOk;
    if actions == [] {
      NoTimes();
    } else {
      var n := |actions| - 1;
      TalliesAreCounts(w, objects, policy, now, actions[..n]);
      var before := Execute(w, objects, policy, now, actions[..n]);
      var last := Perform(before.world, before.objects, policy, now, actions[n]).verdict;
      var verdicts := Verdicts(w, objects, policy, now, actions[..n]);
      TimesNext(verdicts, last, Applied);
      TimesNext(verdicts, last, Skipped);
      TimesNext(verdicts, last, Failed);
    }
  }

  lemma NoTimes()
    ensures forall v :: Times([], v) == 0
  {
    var none: seq<Verdict> := [];
    forall v ensures Times(none, v) == 0 { assert (set i | 0 <= i < |none| && none[i] == v) == {}; }
  }
}
