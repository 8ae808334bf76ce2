/** The in-memory registry: dictionaries updated in place, with usage counters and alias sets kept
    up to date by hand. Every method is proved to do what `RegistrySpec.Apply` says. */
module Registry {
  import opened Model
  import opened RegistrySpec
  import opened RegistryLaws
  import opened RegistryCopies

  class InMemoryAssetRegistry {
    const cfg: Config
    var assets: map<Id, Asset>
    var aliases: map<Key, Binding>
    var tombstones: map<Key, int>
    var partitionQuotas: PartitionQuotas
    var bucketQuotas: BucketQuotas
    var auditEvents: seq<Event>

    /** The state without its redundant copies. */
    ghost function View(): World
      reads this
    {
      World(Plain(assets), aliases, tombstones, PartitionLimitsView(partitionQuotas), BucketLimitsView(bucketQuotas),
            auditEvents)
    }

    /** The view is in order, each counter is a sum and each alias set a query result. */
    ghost predicate Valid()
      reads this
    {
      && Inv(View())
      && CountersOk(assets, partitionQuotas, bucketQuotas)
      && AliasSetsOk(assets, aliases)
    }

    constructor (cfg: Config)
      ensures Valid() && this.cfg == cfg
      ensures assets == map[] && aliases == map[] && tombstones == map[] && auditEvents == []
      ensures partitionQuotas == map[] && bucketQuotas == map[]
    {
      this.cfg := cfg;
      assets, aliases, tombstones, auditEvents := map[], map[], map[], [];
      partitionQuotas, bucketQuotas := map[], map[];
    }

    // -------------------------------------------------------------- quota helpers

    /** Adds up one measure over the stored assets. */
    method SumAssets(m: Measure, exclude: Option<Id>) returns (sum: nat)
      ensures sum == Total(Others(assets, exclude), m)
    {
      sum := 0;
      var rest := Others(assets, exclude);
      while rest != map[]
        invariant sum + Total(rest, m) == Total(Others(assets, exclude), m)
        decreases |rest|
      {
        var id :| id in rest;
        TotalSplit(rest, m, id);
        sum := sum + Weigh(m, rest[id]);
        rest := rest - {id};
      }
    }

    /** Rejects what would breach a partition, capacity or bucket ceiling. */
    method EnforceQuota(space: Space, partition: string, bytes: nat, exclude: Option<Id>) returns (out: Outcome)
      requires CountersOk(assets, partitionQuotas, bucketQuotas)
      ensures out == Refusal(cfg, PartitionQuotaOf(partitionQuotas, space, partition).limits,
                             BucketQuotaOf(bucketQuotas, space).limits, space,
                             LoadOf(assets, space, partition, exclude), bytes)
    {
      hide Total, Others, Weigh;
      var pq := PartitionQuotaOf(partitionQuotas, space, partition);
      var bq := BucketQuotaOf(bucketQuotas, space);
      var pendingBytes := SumAssets(PendingBytes(space, partition), exclude);
      var pendingCount := SumAssets(PendingCount(space, partition), exclude);
      ghost var load := LoadOf(assets, space, partition, exclude);
      assert load.partitionBytes == pq.usedBytes + pendingBytes && load.partitionCount == pq.usedCount + pendingCount;
      if pq.limits.bytes.Some?
         && (pq.usedBytes + pendingBytes + bytes) as real >= PartitionCeiling(pq.limits.bytes.value) {
        return Err(PartitionQuotaExceeded);
      }
      if pq.limits.count.Some? && pq.usedCount + pendingCount + 1 > pq.limits.count.value {
        return Err(PartitionQuotaExceeded);
      }
      if space in cfg.capacity {
        var physical := SumAssets(Physical(space), exclude);
        if !(0.0 < cfg.capacityRatio <= 1.0) { return Err(ValidationError); }
        if (physical + bytes) as real >= CapacityCeiling(cfg, space) { return Err(CapacityExceeded); }
      }
      var bucketPending := SumAssets(BucketPending(space), exclude);
      assert load.bucketBytes == bq.usedBytes + bucketPending;
      if bq.limits.bytes.Some?
         && (bq.usedBytes + bucketPending + bytes) as real >= BucketCeiling(bq.limits.bytes.value,
            bq.limits.hardCeiling) {
        return Err(BucketQuotaExceeded);
      }
      return Ok;
    }

    method AcquireQuota(space: Space, partition: string, bytes: nat)
      modifies this`partitionQuotas, this`bucketQuotas
      ensures PartitionMoved(old(partitionQuotas), partitionQuotas, space, partition, bytes, 1)
      ensures BucketMoved(old(bucketQuotas), bucketQuotas, space, bytes)
    {
      var pq := PartitionQuotaOf(partitionQuotas, space, partition);
      partitionQuotas := partitionQuotas[(space, partition) :=
        pq.(usedBytes := pq.usedBytes + bytes, usedCount := pq.usedCount + 1)];
      var bq := BucketQuotaOf(bucketQuotas, space);
      bucketQuotas := bucketQuotas[space := bq.(usedBytes := bq.usedBytes + bytes)];
    }

    /** Releases an asset that was available; the clamps at zero are there but never reached. */
    method ReleaseQuota(a: Asset)
      requires a.state.Available? ==>
                 var q := PartitionQuotaOf(partitionQuotas, a.space, a.partition);
                 q.usedBytes >= Size(a) && q.usedCount >= 1 && BucketQuotaOf(bucketQuotas, a.space).usedBytes >= Size(a)
      modifies this`partitionQuotas, this`bucketQuotas
      ensures PartitionMoved(old(partitionQuotas), partitionQuotas, a.space, a.partition, 0 - Bytes(a) as int,
                             0 - Count(a) as int)
      ensures BucketMoved(old(bucketQuotas), bucketQuotas, a.space, 0 - Bytes(a) as int)
    {
      if !a.state.Available? { return; }
      var bytes := Size(a);
      var pq := PartitionQuotaOf(partitionQuotas, a.space, a.partition);
      partitionQuotas := partitionQuotas[(a.space, a.partition) :=
        pq.(usedBytes := Max0(pq.usedBytes - bytes), usedCount := Max0(pq.usedCount - 1))];
      var bq := BucketQuotaOf(bucketQuotas, a.space);
      bucketQuotas := bucketQuotas[a.space := bq.(usedBytes := Max0(bq.usedBytes - bytes))];
    }

    /** Moves a stored asset out of `available` or leaves its usage alone, releasing exactly once. */
    method LeaveWith(id: Id, b: Asset)
      requires CountersOk(assets, partitionQuotas, bucketQuotas)
      requires id in assets && !b.state.Available?
      requires b.space == assets[id].space && b.partition == assets[id].partition
      modifies this`assets, this`partitionQuotas, this`bucketQuotas
      ensures assets == old(assets)[id := b]
      ensures CountersOk(assets, partitionQuotas, bucketQuotas)
      ensures PartitionLimitsView(partitionQuotas) == old(PartitionLimitsView(partitionQuotas))
      ensures BucketLimitsView(bucketQuotas) == old(BucketLimitsView(bucketQuotas))
    {
      var a := assets[id];
      if a.state.Available? { ReleaseNeverClamps(assets, partitionQuotas, bucketQuotas, id); }
      ghost var pqs, bqs := partitionQuotas, bucketQuotas;
      assets := assets[id := b];
      ReleaseQuota(a);
      MovedKeepsLimits(pqs, partitionQuotas, bqs, bucketQuotas, b.space, b.partition, 0 - Bytes(a) as int,
                       0 - Count(a) as int);
      CountersFollow(old(assets), pqs, bqs, partitionQuotas, bucketQuotas, id, b);
    }

    // -------------------------------------------------------------- name helpers

    /** Whether a name is taken; an elapsed tombstone in the way is dropped. */
    method AliasNameIsBlocked(key: Key, now: int) returns (blocked: bool)
      modifies this`tombstones
      ensures blocked == Blocked(aliases, old(tombstones), key, now)
      ensures tombstones == if blocked then old(tombstones) else old(tombstones) - {key}
    {
      if key in aliases { return true; }
      if key !in tombstones { assert tombstones - {key} == tombstones; return false; }
      if now >= tombstones[key] {
        tombstones := tombstones - {key};
        return false;
      }
      return true;
    }

    method AddAliasToAsset(id: Id, key: Key, now: int)
      requires id in assets
      modifies this`assets
      ensures assets == old(assets)[id := TouchRow(old(assets)[id], now).(aliases := old(assets)[id].aliases + {key})]
    {
      var a := assets[id];
      assets := assets[id := a.(aliases := a.aliases + {key}, updatedAt := now)];
    }

    method RemoveAliasFromAsset(id: Id, key: Key, now: int)
      requires id in assets
      modifies this`assets
      ensures assets == old(assets)[id := TouchRow(old(assets)[id], now).(aliases :=
              set k | k in old(assets)[id].aliases && k != key)]
    {
      var a := assets[id];
      assets := assets[id := a.(aliases := (set k | k in a.aliases && k != key), updatedAt := now)];
    }

    /** Expires an asset that lost its last alias. */
    method MarkForGcIfOrphaned(id: Id, now: int)
      requires id in assets
      requires CountersOk(assets, partitionQuotas, bucketQuotas) && AliasSetsOk(assets, aliases)
      modifies this`assets, this`partitionQuotas, this`bucketQuotas, this`auditEvents
      ensures View() == MarkIfOrphaned(old(View()), id, now)
      ensures CountersOk(assets, partitionQuotas, bucketQuotas) && AliasSetsOk(assets, aliases)
    {
      var a := assets[id];
      if a.aliases != {} || a.state.Expired? || a.state.Deleted? {
        assert View().audit == old(View()).audit;
        return;
      }
      var updated := ExpireRow(a, now);
      AliasesKept(assets, aliases, id, updated);
      PlainSet(assets, id, updated);
      LeaveWith(id, updated);
      auditEvents := auditEvents + [GcMark(id, a.state)];
    }

    // -------------------------------------------------------------- operations

    method ReserveAsset(id: Id, space: Space, partition: string, specs: seq<(string, bool)>, policy: EvictionPolicy,
                        annotations: map<string, string>, ttl: Option<int>, reserved: Option<int>, now: int)
      returns (out: Outcome)
      requires Valid() && id !in assets
      modifies this
      ensures Valid()
      ensures Step(View(), out) == ApplyReserve(cfg, old(View()), id, space, partition, specs, policy, annotations,
                                                ttl, reserved, now)
    {
      PlainKeys(assets);
      assert id !in View().assets;
      hide Inv, CountersOk, AliasSetsOk, PartitionLimitsView, BucketLimitsView, Bind, CreateEvents, ReserveDecision,
        Plain, ClearNames,
        ScopedKeys, Reserved, ApplyReserve, ReserveDecision, MarkIfOrphaned, LimitsOf, ExpiryFor;
      ghost var w := View();
      ReserveCases(cfg, w, id, space, partition, specs, policy, annotations, ttl, reserved, now);
      var free := RequireNamesAvailable(ScopedKeys(space, partition, specs), now);
      DroppedTombsKeepInv(w, tombstones);
      assert View() == w.(tombs := tombstones) && Valid();
      hide InMemoryAssetRegistry.View;
      if !free { return Err(AliasConflict); }
      var decision := DecideReservation(space, partition, ttl, reserved, now);
      if decision.Refuse? { return Err(decision.error); }
      var row := PendingRow(space, partition, policy, annotations, KnownBytes(reserved), decision.deadline, now);
      StoreReservation(id, row, specs);
      ReservedKeepsInv(w, tombstones, id, row, specs);
      return Ok;
    }

    method DecideReservation(space: Space, partition: string, ttl: Option<int>, reserved: Option<int>, now: int)
      returns (decision: Decision)
      requires CountersOk(assets, partitionQuotas, bucketQuotas)
      ensures decision == ReserveDecision(cfg, View(), space, partition, ttl, reserved, now)
    {
      hide CountersOk, Total, LoadOf, Refusal, PartitionLimitsView, BucketLimitsView;
      if reserved.Some? {
        if reserved.value < 0 { return Refuse(ValidationError); }
        var admitted := EnforceQuota(space, partition, reserved.value, None);
        AdmissionOfView(cfg, View(), assets, partitionQuotas, bucketQuotas, space, partition, reserved.value, None);
        if admitted.Err? { return Refuse(admitted.error); }
      }
      var deadline := ExpiryFor(cfg, space, ttl, now);
      if deadline.BadTtl? { return Refuse(ValidationError); }
      return Grant(deadline.at);
    }

    /** Stores the pending row with its aliases, the bindings and the events. */
    method StoreReservation(id: Id, row: Asset, specs: seq<(string, bool)>)
      requires Valid() && id !in assets && row.state.Pending? && row.aliases == {}
      requires forall k <- ScopedKeys(row.space, row.partition, specs) :: k !in aliases
      modifies this`assets, this`aliases, this`auditEvents
      ensures CountersOk(assets, partitionQuotas, bucketQuotas) && AliasSetsOk(assets, aliases)
      ensures View() == Reserved(old(View()), tombstones, id, row, specs)
    {
      hide Total, PartitionLimitsView, BucketLimitsView;
      ghost var names := aliases;
      assert forall k <- names :: names[k].asset != Some(id) by {
        forall k <- names ensures names[k].asset != Some(id) {
          assert BindingOk(View().assets, k, names[k]);
        }
      }
      hide Inv, CountersOk, AliasSetsOk, AuditComplete;
      assets := assets[id := row.(aliases := set k | k in ScopedKeys(row.space, row.partition, specs))];
      CountersStay(old(assets), partitionQuotas, bucketQuotas, id, assets[id]);
      PlainSet(old(assets), id, assets[id]);
      BindAliases(id, row.space, row.partition, specs);
      NewAliasSet(old(assets), names, id, assets[id], specs);
      if row.reserved.Some? {
        auditEvents := auditEvents + [UploadReserve(id, row.reserved.value)];
      } else {
        assert auditEvents == auditEvents + [];
      }
    }

    method RequireNamesAvailable(keys: seq<Key>, now: int) returns (ok: bool)
      modifies this`tombstones
      ensures Cleared(tombstones, ok) == ClearNames(aliases, old(tombstones), keys, now)
      decreases |keys|
    {
      var i := 0;
      while i < |keys|
        invariant 0 <= i <= |keys|
        invariant ClearNames(aliases, old(tombstones), keys, now) == ClearNames(aliases, tombstones, keys[i..], now)
      {
        assert keys[i..][0] == keys[i] && keys[i..][1..] == keys[i + 1..];
        var blocked := AliasNameIsBlocked(keys[i], now);
        if blocked { return false; }
        i := i + 1;
      }
      return true;
    }

    /** Records one binding and one event per alias. */
    method BindAliases(id: Id, space: Space, partition: string, specs: seq<(string, bool)>)
      modifies this`aliases, this`auditEvents
      ensures aliases == Bind(old(aliases), id, space, partition, specs)
      ensures auditEvents == old(auditEvents) + CreateEvents(id, space, partition, specs)
    {
      var i := 0;
      while i < |specs|
        invariant 0 <= i <= |specs|
        invariant aliases == Bind(old(aliases), id, space, partition, specs[..i])
        invariant auditEvents == old(auditEvents) + CreateEvents(id, space, partition, specs[..i])
      {
        var key := (space, UnderPartition(partition, specs[i].0));
        assert specs[..i + 1][..i] == specs[..i];
        aliases := aliases[key := Binding(Some(id), specs[i].1, None)];
        auditEvents := auditEvents + [AliasCreate(key, id, specs[i].1)];
        i := i + 1;
      }
      assert specs[..i] == specs;
    }

    method AttachAlias(id: Id, name: string, isMutable: bool, now: int) returns (out: Outcome)
      requires Valid()
      modifies this
      ensures Valid()
      ensures Step(View(), out) == ApplyAttach(old(View()), id, name, isMutable, now)
    {
      hide Inv, CountersOk, AliasSetsOk, PartitionMoved, BucketMoved, Total, Weigh;
      if id !in assets { return Err(AssetNotFound); }
      var a := assets[id];
      if a.state.Deleted? { return Err(InvalidTransition); }
      var key := (a.space, UnderPartition(a.partition, name));
      assert ClearNames(aliases, tombstones, [key], now)
          == if Blocked(aliases, tombstones, key, now) then Cleared(tombstones, false)
            else Cleared(tombstones - {key}, true);
      var blocked := AliasNameIsBlocked(key, now);
      if blocked { return Err(AliasConflict); }
      ghost var names := aliases;
      aliases := aliases[key := Binding(Some(id), isMutable, None)];
      AddAliasToAsset(id, key, now);
      AliasAdded(old(assets), names, id, key, aliases[key], assets[id]);
      CountersStay(old(assets), partitionQuotas, bucketQuotas, id, assets[id]);
      PlainSet(old(assets), id, assets[id]);
      auditEvents := auditEvents + [AliasAttach(key, id, isMutable)];
      AttachKeeps(old(View()), id, name, isMutable, now);
      return Ok;
    }

    method CommitAsset(id: Id, size: int, checksum: string, expected: Option<string>, now: int) returns (out: Outcome)
      requires Valid()
      modifies this
      ensures Valid()
      ensures Step(View(), out) == ApplyCommit(cfg, old(View()), id, size, checksum, expected, now)
    {
      hide Inv, CountersOk, AliasSetsOk, PartitionMoved, BucketMoved, Total, Weigh, LoadOf, Refusal,
        PartitionLimitsView, BucketLimitsView;
      if size < 0 { return Err(ValidationError); }
      if checksum == "" { return Err(ValidationError); }
      if expected.Some? && expected.value != checksum { return Err(ChecksumMismatch); }
      if id !in assets { return Err(AssetNotFound); }
      var a := assets[id];
      if !a.state.Pending? { return Err(InvalidTransition); }
      if a.reserved.Some? && a.reserved.value != size { return Err(ValidationError); }
      var admitted := EnforceQuota(a.space, a.partition, size, Some(id));
      AdmissionOfView(cfg, View(), assets, partitionQuotas, bucketQuotas, a.space, a.partition, size, Some(id));
      if admitted.Err? { return admitted; }
      var updated := CommitRow(a, size, checksum, now);
      ghost var pqs, bqs := partitionQuotas, bucketQuotas;
      assets := assets[id := updated];
      AcquireQuota(a.space, a.partition, size);
      auditEvents := auditEvents + [AssetCommit(id)];
      MovedKeepsLimits(pqs, partitionQuotas, bqs, bucketQuotas, a.space, a.partition, size, 1);
      CountersFollow(old(assets), pqs, bqs, partitionQuotas, bucketQuotas, id, updated);
      AliasesKept(old(assets), aliases, id, updated);
      PlainSet(old(assets), id, updated);
      CommitKeeps(cfg, old(View()), id, size, checksum, expected, now);
      return Ok;
    }

    /** Stores a row that weighs the same and keeps its aliases. */
    method Rewrite(id: Id, b: Asset)
      requires Valid() && id in assets
      requires b.aliases == assets[id].aliases && b.space == assets[id].space && b.partition == assets[id].partition
      requires b.state == assets[id].state && b.size == assets[id].size
      modifies this`assets
      ensures assets == old(assets)[id := b]
      ensures CountersOk(assets, partitionQuotas, bucketQuotas) && AliasSetsOk(assets, aliases)
      ensures Plain(assets) == Plain(old(assets))[id := b.(aliases := {})]
    {
      assets := assets[id := b];
      CountersStay(old(assets), partitionQuotas, bucketQuotas, id, b);
      AliasesKept(old(assets), aliases, id, b);
      PlainSet(old(assets), id, b);
    }

    method UpdateAnnotations(id: Id, patch: map<string, string>, overwrite: bool, now: int) returns (out: Outcome)
      requires Valid()
      modifies this
      ensures Valid()
      ensures Step(View(), out) == ApplyAnnotate(old(View()), id, patch, overwrite, now)
    {
      hide Inv;
      if id !in assets { return Err(AssetNotFound); }
      var a := assets[id];
      if a.state.Deleted? { return Err(InvalidTransition); }
      var merged := patch;
      if !overwrite { merged := a.annotations + patch; }
      Rewrite(id, a.(annotations := merged, updatedAt := now));
      auditEvents := auditEvents + [AnnotationsUpdate(id)];
      AnnotateKeeps(old(View()), id, patch, overwrite, now);
      return Ok;
    }

    method ResolveAlias(key: Key, now: int) returns (out: Outcome, id: Id)
      requires Valid()
      ensures out == Resolve(assets, aliases, key, now)
      ensures out.Ok? ==> id in assets && aliases[key].asset == Some(id)
    {
      id := "";
      if key !in aliases { return Err(AliasNotFound), id; }
      var b := aliases[key];
      if b.asset.None? { return Err(InvalidTransition), id; }
      id := b.asset.value;
      if id !in assets { return Err(AssetNotFound), id; }
      var a := assets[id];
      if a.state.Deleted? { return Err(AssetGone), id; }
      if a.state.Expired? || (a.state.Available? && a.expiresAt.Some?
        && a.expiresAt.value <= now) { return Err(AssetGone), id; }
      if !a.state.Available? { return Err(InvalidTransition), id; }
      return Ok, id;
    }

    method DetachAlias(key: Key, now: int) returns (out: Outcome)
      requires Valid()
      modifies this
      ensures Valid()
      ensures Step(View(), out) == ApplyDetach(cfg, old(View()), key, now)
    {
      hide Inv, CountersOk, AliasSetsOk, PartitionMoved, BucketMoved, Total, Weigh, MarkIfOrphaned,
        PartitionLimitsView, BucketLimitsView;
      if key !in aliases { return Err(AliasNotFound); }
      var b := aliases[key];
      if b.isMutable { return Err(AliasImmutable); }
      if b.asset.None? { return Err(InvalidTransition); }
      var id := b.asset.value;
      TargetExists(View(), key);
      ghost var names := aliases;
      aliases := aliases - {key};
      RemoveAliasFromAsset(id, key, now);
      if cfg.aliasGrace > 0 { tombstones := tombstones[key := now + cfg.aliasGrace]; }
      auditEvents := auditEvents + [AliasDetach(key, id)];
      AliasDropped(old(assets), names, aliases, id, key, assets[id]);
      CountersStay(old(assets), partitionQuotas, bucketQuotas, id, assets[id]);
      PlainSet(old(assets), id, assets[id]);
      MarkForGcIfOrphaned(id, now);
      DetachKeeps(cfg, old(View()), key, now);
      return Ok;
    }

    method DetachMutableAlias(key: Key, now: int) returns (out: Outcome)
      requires Valid()
      modifies this
      ensures Valid()
      ensures Step(View(), out) == ApplyDetachMutable(old(View()), key, now)
    {
      hide Inv, CountersOk, AliasSetsOk, PartitionMoved, BucketMoved, Total, Weigh, MarkIfOrphaned,
        PartitionLimitsView, BucketLimitsView;
      if key !in aliases { return Err(AliasNotFound); }
      var b := aliases[key];
      if !b.isMutable { return Err(AliasImmutable); }
      if b.asset.None? { return Err(InvalidTransition); }
      var id := b.asset.value;
      TargetExists(View(), key);
      ghost var names := aliases;
      RemoveAliasFromAsset(id, key, now);
      aliases := aliases[key := b.(asset := None, previous := Some(id))];
      auditEvents := auditEvents + [AliasDetachMutable(key, id)];
      AliasDropped(old(assets), names, aliases, id, key, assets[id]);
      CountersStay(old(assets), partitionQuotas, bucketQuotas, id, assets[id]);
      PlainSet(old(assets), id, assets[id]);
      MarkForGcIfOrphaned(id, now);
      DetachMutableKeeps(old(View()), key, now);
      return Ok;
    }

    method RebindAlias(key: Key, id: Id, now: int) returns (out: Outcome)
      requires Valid()
      modifies this
      ensures Valid()
      ensures Step(View(), out) == ApplyRebind(old(View()), key, id, now)
    {
      hide Inv, CountersOk, AliasSetsOk, PartitionMoved, BucketMoved, Total, Weigh;
      if key !in aliases { return Err(AliasNotFound); }
      var b := aliases[key];
      if !b.isMutable { return Err(AliasImmutable); }
      if b.asset.Some? { return Err(InvalidTransition); }
      if id !in assets { return Err(AssetNotFound); }
      var a := assets[id];
      if a.space != key.0 { return Err(AliasConflict); }
      if a.partition != FirstSegment(key.1) { return Err(AliasConflict); }
      if !a.state.Available? { return Err(InvalidTransition); }
      ghost var names := aliases;
      aliases := aliases[key := b.(asset := Some(id), previous := None)];
      AddAliasToAsset(id, key, now);
      AliasAdded(old(assets), names, id, key, aliases[key], assets[id]);
      CountersStay(old(assets), partitionQuotas, bucketQuotas, id, assets[id]);
      PlainSet(old(assets), id, assets[id]);
      auditEvents := auditEvents + [AliasRebind(key, b.previous, id)];
      RebindKeeps(old(View()), key, id, now);
      return Ok;
    }

    method ExpireAsset(id: Id, now: int) returns (out: Outcome)
      requires Valid()
      modifies this
      ensures Valid()
      ensures Step(View(), out) == ApplyExpire(old(View()), id, now)
    {
      hide Inv, CountersOk, AliasSetsOk, PartitionLimitsView, BucketLimitsView, AliasesOf;
      if id !in assets { return Err(AssetNotFound); }
      var a := assets[id];
      if !a.state.Available? { return Err(InvalidTransition); }
      AliasesKept(assets, aliases, id, ExpireRow(a, now));
      PlainSet(assets, id, ExpireRow(a, now));
      LeaveWith(id, ExpireRow(a, now));
      auditEvents := auditEvents + [AssetExpire(id, a.state)];
      ExpireKeeps(old(View()), id, now);
      return Ok;
    }

    method DeleteAsset(id: Id, now: int) returns (out: Outcome)
      requires Valid()
      modifies this
      ensures Valid()
      ensures Step(View(), out) == ApplyDelete(old(View()), id, now)
    {
      hide Inv, CountersOk, AliasSetsOk, PartitionLimitsView, BucketLimitsView, AliasesOf;
      if id !in assets { return Err(AssetNotFound); }
      var a := assets[id];
      if !(a.state.Available? || a.state.Expired?) { return Err(InvalidTransition); }
      AliasesKept(assets, aliases, id, DeleteRow(a, now));
      PlainSet(assets, id, DeleteRow(a, now));
      LeaveWith(id, DeleteRow(a, now));
      auditEvents := auditEvents + [AssetDelete(id, a.state)];
      DeleteKeeps(old(View()), id, now);
      return Ok;
    }

    method SetEvictionPolicy(id: Id, policy: EvictionPolicy, now: int) returns (out: Outcome)
      requires Valid()
      modifies this
      ensures Valid()
      ensures Step(View(), out) == ApplySetPolicy(old(View()), id, policy, now)
    {
      hide Inv;
      if id !in assets { return Err(AssetNotFound); }
      var a := assets[id];
      if a.state.Deleted? { return Err(InvalidTransition); }
      Rewrite(id, a.(policy := policy, updatedAt := now));
      auditEvents := auditEvents + [EvictionPolicySet(id, a.policy, policy)];
      SetPolicyKeeps(old(View()), id, policy, now);
      return Ok;
    }

    method SetPartitionLimits(space: Space, partition: string, bytes: Option<int>, count: Option<int>,
                              sweep: Option<bool>)
      returns (out: Outcome)
      requires Valid()
      modifies this
      ensures Valid()
      ensures Step(View(), out) == ApplySetPartitionQuota(old(View()), space, partition, bytes, count, sweep)
    {
      hide Inv;
      if bytes.Some? && bytes.value < 0 { return Err(ValidationError); }
      if count.Some? && count.value < 0 { return Err(ValidationError); }
      var current := PartitionQuotaOf(partitionQuotas, space, partition);
      var enabled := current.limits.sweepEnabled;
      if sweep.Some? { enabled := sweep.value; }
      var limits := PartitionLimits(if bytes.Some? then Some(bytes.value) else None,
                                    if count.Some? then Some(count.value) else None, enabled);
      partitionQuotas := partitionQuotas[(space, partition) := current.(limits := limits)];
      PartitionLimitsSet(assets, old(partitionQuotas), space, partition, limits);
      auditEvents := auditEvents + [QuotaSet(space, partition, current.limits, limits)];
      PartitionLimitsKeep(old(View()), SetPartitionQuota(space, partition, bytes, count, sweep));
      return Ok;
    }

    method SetBucketLimits(space: Space, bytes: Option<int>, warnThreshold: real, hardCeiling: real)
      returns (out: Outcome)
      requires Valid()
      modifies this
      ensures Valid()
      ensures Step(View(), out) == ApplySetBucketQuota(old(View()), space, bytes, warnThreshold, hardCeiling)
    {
      hide Inv;
      if bytes.Some? && bytes.value < 0 { return Err(ValidationError); }
      var current := BucketQuotaOf(bucketQuotas, space);
      var limits := BucketLimits(if bytes.Some? then Some(bytes.value) else None, warnThreshold, hardCeiling);
      bucketQuotas := bucketQuotas[space := current.(limits := limits)];
      BucketLimitsSet(assets, old(bucketQuotas), space, limits);
      BucketLimitsKeep(old(View()), space, bytes, warnThreshold, hardCeiling);
      return Ok;
    }

    method RecordSuccessfulRead(id: Id, now: int) returns (out: Outcome)
      requires Valid()
      modifies this
      ensures Valid()
      ensures Step(View(), out) == ApplyRecordRead(old(View()), id, now)
    {
      hide Inv, CountersOk, AliasSetsOk, PartitionMoved, BucketMoved, Total, Weigh;
      if id !in assets { return Err(AssetNotFound); }
      var a := assets[id];
      if a.state.Available? {
        Rewrite(id, a.(lastReadAt := Some(now), readCount := a.readCount + 1));
        assert auditEvents + [] == auditEvents;
      }
      RecordReadKeeps(old(View()), id, now);
      return Ok;
    }

    /** The maintenance snapshot: everything whose bytes are not recorded as gone. */
    method ListAssets() returns (listed: map<Id, Asset>)
      requires Valid()
      ensures listed == map id | id in View().assets && View().assets[id].purgedAt.None? :: Full(View(), id)
    {
      listed := map id | id in assets && assets[id].purgedAt.None? :: assets[id];
      assert forall id <- assets :: Full(View(), id) == assets[id];
    }

    lemma StoredIsFull(id: Id)
      requires Valid() && id in assets
      ensures Full(View(), id) == assets[id]
    {
    }

    /** A maintenance transition, refused unless the caller's snapshot is still current. */
    method LifecycleUpdate(id: Id, snapshot: Asset, state: AssetState, payloadDeleted: bool, now: int)
      returns (out: Outcome)
      requires Valid()
      modifies this
      ensures Valid()
      ensures Step(View(), out) == ApplyLifecycle(old(View()), id, snapshot, state, payloadDeleted, now)
    {
      hide Inv, CountersOk, AliasSetsOk, PartitionLimitsView, BucketLimitsView, AliasesOf;
      if id !in assets { return Err(AssetNotFound); }
      StoredIsFull(id);
      if assets[id] != snapshot { return Err(InvalidTransition); }
      var a := assets[id];
      if !CleanupAllowed(a, state, payloadDeleted) { return Err(InvalidTransition); }
      var updated := LifecycleRow(a, state, now, payloadDeleted);
      AliasesKept(assets, aliases, id, updated);
      PlainSet(assets, id, updated);
      LeaveWith(id, updated);
      auditEvents := auditEvents + [if payloadDeleted then PayloadDelete(id)
                                    else if state.Expired? then AssetExpire(id, a.state)
                                    else AssetDelete(id, a.state)];
      LifecycleKeeps(old(View()), id, snapshot, state, payloadDeleted, now);
      return Ok;
    }

    /** Sets a deadline; an expired asset comes back only if it is admitted again. */
    method SetAssetTtl(id: Id, seconds: int, now: int) returns (out: Outcome)
      requires Valid()
      modifies this
      ensures Valid()
      ensures Step(View(), out) == ApplySetTtl(cfg, old(View()), id, seconds, now)
    {
      hide Inv, CountersOk, AliasSetsOk, PartitionMoved, BucketMoved, Total, Weigh;
      if id !in assets { return Err(AssetNotFound); }
      var a := assets[id];
      if !(a.state.Available? || a.state.Expired?) { return Err(InvalidTransition); }
      if a.size.None? || a.checksum.None? { return Err(InvalidTransition); }
      var deadline := ExpiryFor(cfg, a.space, Some(seconds), now);
      if deadline.BadTtl? { return Err(ValidationError); }
      var updated := RestoreRow(a, deadline.at, now);
      if a.state.Expired? {
        var admitted := EnforceQuota(a.space, a.partition, a.size.value, Some(id));
        AdmissionOfView(cfg, View(), assets, partitionQuotas, bucketQuotas, a.space, a.partition, a.size.value,
                        Some(id));
        if admitted.Err? { return admitted; }
        ghost var pqs, bqs := partitionQuotas, bucketQuotas;
        AcquireQuota(a.space, a.partition, a.size.value);
        MovedKeepsLimits(pqs, partitionQuotas, bqs, bucketQuotas, a.space, a.partition, a.size.value, 1);
        CountersFollow(assets, pqs, bqs, partitionQuotas, bucketQuotas, id, updated);
      } else {
        CountersStay(assets, partitionQuotas, bucketQuotas, id, updated);
      }
      AliasesKept(assets, aliases, id, updated);
      PlainSet(assets, id, updated);
      assets := assets[id := updated];
      auditEvents := auditEvents + [TtlSet(id, a.state)];
      SetTtlKeeps(cfg, old(View()), id, seconds, now);
      return Ok;
    }
  }

  lemma NewAliasSet(assets: map<Id, Asset>, names: map<Key, Binding>, id: Id, a: Asset, specs: seq<(string, bool)>)
    requires AliasSetsOk(assets, names) && id !in assets
    requires forall k <- names :: names[k].asset != Some(id)
    requires forall k <- ScopedKeys(a.space, a.partition, specs) :: k !in names
    requires a.aliases == set k | k in ScopedKeys(a.space, a.partition, specs)
    ensures AliasSetsOk(assets[id := a], Bind(names, id, a.space, a.partition, specs))
  {
    BindMeans(names, id, a.space, a.partition, specs);
    var bound := Bind(names, id, a.space, a.partition, specs);
    forall i <- assets[id := a] ensures assets[id := a][i].aliases == AliasesOf(bound, i) {
      forall k: Key ensures k in AliasesOf(bound, i) <==> k in assets[id := a][i].aliases {
        if k in ScopedKeys(a.space, a.partition, specs) {
          assert bound[k].asset == Some(id);
        }
      }
    }
  }
}
