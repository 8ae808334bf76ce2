/** The registry as a value, without its redundant copies: usage counters are sums over the assets
    and alias sets are read off the bindings. `Apply` says what every operation does to that value
    and which error it raises. The class in Registry.dfy keeps the copies and is proved against this. */
module RegistrySpec {
  import opened Model

  datatype Binding = Binding(asset: Option<Id>, isMutable: bool, previous: Option<Id>)

  datatype PartitionLimits = PartitionLimits(bytes: Option<nat>, count: Option<nat>, sweepEnabled: bool)

  datatype BucketLimits = BucketLimits(bytes: Option<nat>, warnThreshold: real, hardCeiling: real)

  datatype Event =
    | AliasCreate(key: Key, id: Id, isMutable: bool)
    | UploadReserve(id: Id, bytes: nat)
    | AliasAttach(key: Key, id: Id, isMutable: bool)
    | AssetCommit(id: Id)
    | AnnotationsUpdate(id: Id)
    | AliasDetach(key: Key, id: Id)
    | AliasDetachMutable(key: Key, id: Id)
    | AliasRebind(key: Key, previous: Option<Id>, id: Id)
    | AssetExpire(id: Id, from: AssetState)
    | AssetDelete(id: Id, from: AssetState)
    | GcMark(id: Id, from: AssetState)
    | PayloadDelete(id: Id)
    | EvictionPolicySet(id: Id, oldPolicy: EvictionPolicy, newPolicy: EvictionPolicy)
    | QuotaSet(space: Space, partition: string, oldLimits: PartitionLimits, newLimits: PartitionLimits)
    | TtlSet(id: Id, from: AssetState)

  /** Deployment settings: name grace, byte budgets with their hard ratio, longest life in `results`. */
  datatype Config = Config(
    aliasGrace: nat,
    capacity: map<Space, nat>,
    capacityRatio: real,
    resultsMaxTtl: int)

  datatype World = World(
    assets: map<Id, Asset>,
    names: map<Key, Binding>,
    tombs: map<Key, int>,
    partitionLimits: imap<(Space, string), PartitionLimits>,
    bucketLimits: imap<Space, BucketLimits>,
    audit: seq<Event>)

  datatype Step = Step(world: World, out: Outcome)

  // ---------------------------------------------------------------- names

  /** The path under a partition: unchanged when it already starts with it. */
  function UnderPartition(partition: string, name: string): string {
    if name == partition || partition + "/" <= name then name else partition + "/" + name
  }

  predicate IsUnder(partition: string, name: string) {
    name == partition || partition + "/" <= name
  }

  function FirstSegment(name: string): string {
    if name == "" || name[0] == '/' then "" else [name[0]] + FirstSegment(name[1..])
  }

  ghost function AliasesOf(names: map<Key, Binding>, id: Id): set<Key> {
    set k | k in names && names[k].asset == Some(id)
  }

  /** An asset as callers see it, with its aliases. */
  ghost function Full(w: World, id: Id): Asset
    requires id in w.assets
  {
    w.assets[id].(aliases := AliasesOf(w.names, id))
  }

  /** Blocked by a live binding or by a tombstone still in force. */
  predicate Blocked(names: map<Key, Binding>, tombs: map<Key, int>, key: Key, now: int) {
    key in names || (key in tombs && now < tombs[key])
  }

  datatype Cleared = Cleared(tombs: map<Key, int>, ok: bool)

  /** Checks names in order, dropping elapsed tombstones, up to the first blocked name. */
  function ClearNames(names: map<Key, Binding>, tombs: map<Key, int>, keys: seq<Key>, now: int): (r: Cleared)
    ensures r.tombs.Keys <= tombs.Keys
    ensures forall k <- r.tombs :: r.tombs[k] == tombs[k]
    ensures forall k <- tombs :: k !in r.tombs ==> k in keys && tombs[k] <= now
    ensures r.ok <==> forall k <- keys :: !Blocked(names, tombs, k, now)
    ensures r.ok ==> forall k <- keys :: k !in r.tombs
  {
    if keys == [] then Cleared(tombs, true)
    else if Blocked(names, tombs, keys[0], now) then Cleared(tombs, false)
    else
      assert keys == [keys[0]] + keys[1..];
      assert forall k <- keys :: Blocked(names, tombs, k, now) == Blocked(names, tombs - {keys[0]}, k, now);
      ClearNames(names, tombs - {keys[0]}, keys[1..], now)
  }

  function ScopedKeys(space: Space, partition: string, specs: seq<(string, bool)>): (r: seq<Key>)
    ensures |r| == |specs|
    ensures forall i | 0 <= i < |specs| :: r[i] == (space, UnderPartition(partition, specs[i].0))
  {
    seq(|specs|, i requires 0 <= i < |specs| => (space, UnderPartition(partition, specs[i].0)))
  }

  function Bind(names: map<Key, Binding>, id: Id, space: Space, partition: string,
                specs: seq<(string, bool)>): map<Key, Binding>
  {
    if specs == [] then names
    else
      var last := specs[|specs| - 1];
      Bind(names, id, space, partition, specs[..|specs| - 1])
        [(space, UnderPartition(partition, last.0)) := Binding(Some(id), last.1, None)]
  }

  function CreateEvents(id: Id, space: Space, partition: string, specs: seq<(string, bool)>): seq<Event> {
    if specs == [] then []
    else
      var last := specs[|specs| - 1];
      CreateEvents(id, space, partition, specs[..|specs| - 1])
        + [AliasCreate((space, UnderPartition(partition, last.0)), id, last.1)]
  }

  // ---------------------------------------------------------------- limits

  function DefaultPartitionLimits(space: Space): PartitionLimits {
    PartitionLimits(None, None, space.Cache? || space.Tmp?)
  }

  const DEFAULT_BUCKET_LIMITS := BucketLimits(None, 0.8, 1.0)

  function LimitsOf(limits: imap<(Space, string), PartitionLimits>, space: Space, partition: string): PartitionLimits {
    if (space, partition) in limits then limits[(space, partition)] else DefaultPartitionLimits(space)
  }

  function BucketLimitsOf(limits: imap<Space, BucketLimits>, space: Space): BucketLimits {
    if space in limits then limits[space] else DEFAULT_BUCKET_LIMITS
  }

  function PartitionCeiling(quota: nat): real { quota as real * 1.05 }

  function BucketCeiling(quota: nat, hardCeiling: real): real { quota as real * hardCeiling }

  function CapacityCeiling(cfg: Config, space: Space): real
    requires space in cfg.capacity
  {
    cfg.capacity[space] as real * cfg.capacityRatio
  }

  /** The five figures an admission decision reads. */
  datatype Load = Load(
    partitionBytes: nat,
    partitionCount: nat,
    physical: nat,
    bucketBytes: nat)

  /** Why `bytes` more in this partition are refused, checked in this order. */
  function Refusal(cfg: Config, pl: PartitionLimits, bl: BucketLimits, space: Space, load: Load, bytes: nat): Outcome {
    if pl.bytes.Some? && (load.partitionBytes + bytes) as real >= PartitionCeiling(pl.bytes.value) then
      Err(PartitionQuotaExceeded)
    else if pl.count.Some? && load.partitionCount + 1 > pl.count.value then
      Err(PartitionQuotaExceeded)
    else if space in cfg.capacity && !(0.0 < cfg.capacityRatio <= 1.0) then
      Err(ValidationError)
    else if space in cfg.capacity && (load.physical + bytes) as real >= CapacityCeiling(cfg, space) then
      Err(CapacityExceeded)
    else if bl.bytes.Some? && (load.bucketBytes + bytes) as real >= BucketCeiling(bl.bytes.value, bl.hardCeiling) then
      Err(BucketQuotaExceeded)
    else Ok
  }

  ghost function LoadOf(assets: map<Id, Asset>, space: Space, partition: string, exclude: Option<Id>): Load {
    var others := Others(assets, exclude);
    Load(Total(assets, UsedBytes(space, partition)) + Total(others, PendingBytes(space, partition)),
         Total(assets, UsedCount(space, partition)) + Total(others, PendingCount(space, partition)),
         Total(others, Physical(space)),
         Total(assets, BucketUsed(space)) + Total(others, BucketPending(space)))
  }

  ghost function Admission(cfg: Config, w: World, space: Space, partition: string, bytes: nat,
                           exclude: Option<Id>): Outcome {
    Refusal(cfg, LimitsOf(w.partitionLimits, space, partition), BucketLimitsOf(w.bucketLimits, space),
            space, LoadOf(w.assets, space, partition, exclude), bytes)
  }

  datatype Deadline = Deadline(at: Option<int>) | BadTtl

  /** One deadline per asset; `tmp` and `results` have bounded defaults. */
  function ExpiryFor(cfg: Config, space: Space, ttl: Option<int>, now: int): Deadline {
    var day := 86400;
    if space.Results? && cfg.resultsMaxTtl <= 0 then BadTtl
    else
      var longest: Option<int> :=
        if space.Tmp? then Some(7 * day) else if space.Results? then Some(cfg.resultsMaxTtl) else None;
      var effective: Option<int> :=
        if ttl.Some? then ttl
        else if space.Tmp? then Some(day) else if space.Results? then Some(cfg.resultsMaxTtl) else None;
      if effective.None? then Deadline(None)
      else if effective.value <= 0 || (longest.Some? && effective.value > longest.value) then BadTtl
      else Deadline(Some(now + effective.value * SECOND))
  }

  // ---------------------------------------------------------------- operations

  datatype Cmd =
    | Reserve(id: Id, space: Space, partition: string, specs: seq<(string, bool)>, policy: EvictionPolicy,
              annotations: map<string, string>, ttl: Option<int>, reserved: Option<int>)
    | Attach(id: Id, name: string, isMutable: bool)
    | Commit(id: Id, size: int, checksum: string, expected: Option<string>)
    | Annotate(id: Id, patch: map<string, string>, overwrite: bool)
    | Detach(key: Key)
    | DetachMutable(key: Key)
    | Rebind(key: Key, id: Id)
    | Expire(id: Id)
    | Delete(id: Id)
    | SetPolicy(id: Id, policy: EvictionPolicy)
    | SetPartitionQuota(space: Space, partition: string, bytes: Option<int>, count: Option<int>, sweep: Option<bool>)
    | SetBucketQuota(space: Space, bytes: Option<int>, warnThreshold: real, hardCeiling: real)
    | RecordRead(id: Id)
    | Lifecycle(id: Id, snapshot: Asset, state: AssetState, payloadDeleted: bool)
    | SetTtl(id: Id, seconds: int)

  ghost function WithRow(w: World, id: Id, a: Asset, events: seq<Event>): World {
    w.(assets := w.assets[id := a], audit := w.audit + events)
  }

  /** The row of a freshly reserved asset. */
  function PendingRow(space: Space, partition: string, policy: EvictionPolicy, annotations: map<string, string>,
                      reserved: Option<nat>, deadline: Option<int>, now: int): Asset {
    Asset(space, partition, Pending, {}, None, reserved, None, annotations, now, now, deadline, None, None, 0, None,
          policy)
  }

  datatype Decision = Refuse(error: Error) | Grant(deadline: Option<int>)

  function KnownBytes(reserved: Option<int>): Option<nat> {
    if reserved.Some? && reserved.value >= 0 then Some(reserved.value) else None
  }

  /** Whether a reservation whose names are free is granted, and until when the asset lives. */
  ghost function ReserveDecision(cfg: Config, w: World, space: Space, partition: string, ttl: Option<int>,
                                 reserved: Option<int>,
                                 now: int): Decision
  {
    if reserved.Some? && reserved.value < 0 then Refuse(ValidationError)
    else
      var admitted := if reserved.Some? then Admission(cfg, w, space, partition, reserved.value, None) else Ok;
      if admitted.Err? then Refuse(admitted.error)
      else
        var deadline := ExpiryFor(cfg, space, ttl, now);
        if deadline.BadTtl? then Refuse(ValidationError) else Grant(deadline.at)
  }

  /** The registry with one more pending asset, its names bound and both recorded. */
  ghost function Reserved(w: World, tombs: map<Key, int>, id: Id, a: Asset, specs: seq<(string, bool)>): World {
    w.(tombs := tombs, assets := w.assets[id := a], names := Bind(w.names, id, a.space, a.partition, specs),
       audit := w.audit + CreateEvents(id, a.space, a.partition, specs)
                + (if a.reserved.Some? then [UploadReserve(id, a.reserved.value)] else []))
  }

  /** Identifiers are never reused; the model declines a command that would reuse one. */
  ghost function ApplyReserve(cfg: Config, w: World, id: Id, space: Space, partition: string,
                              specs: seq<(string, bool)>,
                              policy: EvictionPolicy, annotations: map<string, string>, ttl: Option<int>,
                              reserved: Option<int>, now: int): Step
  {
    var cleared := ClearNames(w.names, w.tombs, ScopedKeys(space, partition, specs), now);
    var w1 := w.(tombs := cleared.tombs);
    if id in w.assets then Step(w, Err(ValidationError))
    else if !cleared.ok then Step(w1, Err(AliasConflict))
    else
      var d := ReserveDecision(cfg, w1, space, partition, ttl, reserved, now);
      if d.Refuse? then Step(w1, Err(d.error))
      else Step(Reserved(w, cleared.tombs, id,
                         PendingRow(space, partition, policy, annotations, KnownBytes(reserved), d.deadline, now),
                           specs), Ok)
  }

  lemma ReserveCases(cfg: Config, w: World, id: Id, space: Space, partition: string, specs: seq<(string, bool)>,
                     policy: EvictionPolicy, annotations: map<string, string>, ttl: Option<int>, reserved: Option<int>,
                       now: int)
    requires id !in w.assets
    ensures var cleared := ClearNames(w.names, w.tombs, ScopedKeys(space, partition, specs), now);
            var w1 := w.(tombs := cleared.tombs);
            ApplyReserve(cfg, w, id, space, partition, specs, policy, annotations, ttl, reserved, now) ==
              if !cleared.ok then Step(w1, Err(AliasConflict))
              else
                var d := ReserveDecision(cfg, w1, space, partition, ttl, reserved, now);
                if d.Refuse? then Step(w1, Err(d.error))
                else Step(Reserved(w, cleared.tombs, id,
                                   PendingRow(space, partition, policy, annotations, KnownBytes(reserved), d.deadline,
                                              now), specs), Ok)
  {
  }

  ghost function ApplyAttach(w: World, id: Id, name: string, isMutable: bool, now: int): Step {
    if id !in w.assets then Step(w, Err(AssetNotFound))
    else if w.assets[id].state.Deleted? then Step(w, Err(InvalidTransition))
    else
      var a := w.assets[id];
      var key := (a.space, UnderPartition(a.partition, name));
      var cleared := ClearNames(w.names, w.tombs, [key], now);
      var w1 := w.(tombs := cleared.tombs);
      if !cleared.ok then Step(w1, Err(AliasConflict))
      else Step(WithRow(w1.(names := w1.names[key := Binding(Some(id), isMutable, None)]), id, TouchRow(a, now),
                        [AliasAttach(key, id, isMutable)]), Ok)
  }

  ghost function ApplyCommit(cfg: Config, w: World, id: Id, size: int, checksum: string, expected: Option<string>,
                             now: int): Step {
    if size < 0 || checksum == "" then Step(w, Err(ValidationError))
    else if expected.Some? && expected.value != checksum then Step(w, Err(ChecksumMismatch))
    else if id !in w.assets then Step(w, Err(AssetNotFound))
    else
      var a := w.assets[id];
      if !a.state.Pending? then Step(w, Err(InvalidTransition))
      else if a.reserved.Some? && a.reserved.value != size then Step(w, Err(ValidationError))
      else
        var admitted := Admission(cfg, w, a.space, a.partition, size, Some(id));
        if admitted.Err? then Step(w, admitted)
        else Step(WithRow(w, id, CommitRow(a, size, checksum, now), [AssetCommit(id)]), Ok)
  }

  ghost function ApplyAnnotate(w: World, id: Id, patch: map<string, string>, overwrite: bool, now: int): Step {
    if id !in w.assets then Step(w, Err(AssetNotFound))
    else if w.assets[id].state.Deleted? then Step(w, Err(InvalidTransition))
    else
      var a := w.assets[id];
      var merged := if overwrite then patch else a.annotations + patch;
      Step(WithRow(w, id, TouchRow(a, now).(annotations := merged), [AnnotationsUpdate(id)]), Ok)
  }

  /** An asset that lost its last alias is expired unless it is already on its way out. */
  ghost function MarkIfOrphaned(w: World, id: Id, now: int): World
    requires id in w.assets
  {
    var a := w.assets[id];
    if AliasesOf(w.names, id) != {} || a.state.Expired? || a.state.Deleted? then w
    else WithRow(w, id, ExpireRow(a, now), [GcMark(id, a.state)])
  }

  /** A freed immutable name is blocked until the grace period has passed. */
  function Buried(cfg: Config, tombs: map<Key, int>, key: Key, now: int): map<Key, int> {
    if cfg.aliasGrace > 0 then tombs[key := now + cfg.aliasGrace] else tombs
  }

  ghost function ApplyDetach(cfg: Config, w: World, key: Key, now: int): Step {
    if key !in w.names then Step(w, Err(AliasNotFound))
    else
      var b := w.names[key];
      if b.isMutable then Step(w, Err(AliasImmutable))
      else if b.asset.None? then Step(w, Err(InvalidTransition))
      else if b.asset.value !in w.assets then Step(w, Err(AssetNotFound))
      else
        var id := b.asset.value;
        var w1 := WithRow(w.(names := w.names - {key}, tombs := Buried(cfg, w.tombs, key, now)), id,
                          TouchRow(w.assets[id], now), [AliasDetach(key, id)]);
        Step(MarkIfOrphaned(w1, id, now), Ok)
  }

  ghost function ApplyDetachMutable(w: World, key: Key, now: int): Step {
    if key !in w.names then Step(w, Err(AliasNotFound))
    else
      var b := w.names[key];
      if !b.isMutable then Step(w, Err(AliasImmutable))
      else if b.asset.None? then Step(w, Err(InvalidTransition))
      else if b.asset.value !in w.assets then Step(w, Err(AssetNotFound))
      else
        var id := b.asset.value;
        var w1 := WithRow(w.(names := w.names[key := b.(asset := None, previous := Some(id))]), id,
                          TouchRow(w.assets[id], now), [AliasDetachMutable(key, id)]);
        Step(MarkIfOrphaned(w1, id, now), Ok)
  }

  ghost function ApplyRebind(w: World, key: Key, id: Id, now: int): Step {
    if key !in w.names then Step(w, Err(AliasNotFound))
    else
      var b := w.names[key];
      if !b.isMutable then Step(w, Err(AliasImmutable))
      else if b.asset.Some? then Step(w, Err(InvalidTransition))
      else if id !in w.assets then Step(w, Err(AssetNotFound))
      else
        var a := w.assets[id];
        if a.space != key.0 || a.partition != FirstSegment(key.1) then Step(w, Err(AliasConflict))
        else if !a.state.Available? then Step(w, Err(InvalidTransition))
        else Step(WithRow(w.(names := w.names[key := b.(asset := Some(id), previous := None)]), id, TouchRow(a, now),
                          [AliasRebind(key, b.previous, id)]), Ok)
  }

  ghost function ApplyExpire(w: World, id: Id, now: int): Step {
    if id !in w.assets then Step(w, Err(AssetNotFound))
    else if !w.assets[id].state.Available? then Step(w, Err(InvalidTransition))
    else Step(WithRow(w, id, ExpireRow(w.assets[id], now), [AssetExpire(id, Available)]), Ok)
  }

  ghost function ApplyDelete(w: World, id: Id, now: int): Step {
    if id !in w.assets then Step(w, Err(AssetNotFound))
    else
      var a := w.assets[id];
      if !(a.state.Available? || a.state.Expired?) then Step(w, Err(InvalidTransition))
      else Step(WithRow(w, id, DeleteRow(a, now), [AssetDelete(id, a.state)]), Ok)
  }

  ghost function ApplySetPolicy(w: World, id: Id, policy: EvictionPolicy, now: int): Step {
    if id !in w.assets then Step(w, Err(AssetNotFound))
    else
      var a := w.assets[id];
      if a.state.Deleted? then Step(w, Err(InvalidTransition))
      else Step(WithRow(w, id, TouchRow(a, now).(policy := policy), [EvictionPolicySet(id, a.policy, policy)]), Ok)
  }

  ghost function ApplySetPartitionQuota(w: World, space: Space, partition: string, bytes: Option<int>,
                                        count: Option<int>,
                                        sweep: Option<bool>): Step {
    if (bytes.Some? && bytes.value < 0) || (count.Some? && count.value < 0) then Step(w, Err(ValidationError))
    else
      var current := LimitsOf(w.partitionLimits, space, partition);
      var updated := PartitionLimits(if bytes.Some? then Some(bytes.value) else None,
                                     if count.Some? then Some(count.value) else None,
                                     if sweep.Some? then sweep.value else current.sweepEnabled);
      Step(w.(partitionLimits := w.partitionLimits[(space, partition) := updated],
              audit := w.audit + [QuotaSet(space, partition, current, updated)]), Ok)
  }

  ghost function ApplySetBucketQuota(w: World, space: Space, bytes: Option<int>, warnThreshold: real,
                                     hardCeiling: real): Step {
    if bytes.Some? && bytes.value < 0 then Step(w, Err(ValidationError))
    else
      var updated := BucketLimits(if bytes.Some? then Some(bytes.value) else None, warnThreshold, hardCeiling);
      Step(w.(bucketLimits := w.bucketLimits[space := updated]), Ok)
  }

  ghost function ApplyRecordRead(w: World, id: Id, now: int): Step {
    if id !in w.assets then Step(w, Err(AssetNotFound))
    else
      var a := w.assets[id];
      if !a.state.Available? then Step(w, Ok)
      else Step(WithRow(w, id, a.(lastReadAt := Some(now), readCount := a.readCount + 1), []), Ok)
  }

  ghost function ApplyLifecycle(w: World, id: Id, snapshot: Asset, state: AssetState, payloadDeleted: bool,
                                now: int): Step {
    if id !in w.assets then Step(w, Err(AssetNotFound))
    else if Full(w, id) != snapshot then Step(w, Err(InvalidTransition))
    else
      var a := w.assets[id];
      if !CleanupAllowed(a, state, payloadDeleted) then Step(w, Err(InvalidTransition))
      else Step(WithRow(w, id, LifecycleRow(a, state, now, payloadDeleted),
                        [if payloadDeleted then PayloadDelete(id)
                         else if state.Expired? then AssetExpire(id, a.state)
                         else AssetDelete(id, a.state)]), Ok)
  }

  ghost function ApplySetTtl(cfg: Config, w: World, id: Id, ttl: int, now: int): Step {
    if id !in w.assets then Step(w, Err(AssetNotFound))
    else
      var a := w.assets[id];
      if !(a.state.Available? || a.state.Expired?) then Step(w, Err(InvalidTransition))
      else if a.size.None? || a.checksum.None? then Step(w, Err(InvalidTransition))
      else
        var deadline := ExpiryFor(cfg, a.space, Some(ttl), now);
        if deadline.BadTtl? then Step(w, Err(ValidationError))
        else
          var admitted := if a.state.Expired? then Admission(cfg, w, a.space, a.partition, a.size.value, Some(id))
            else Ok;
          if admitted.Err? then Step(w, admitted)
          else Step(WithRow(w, id, RestoreRow(a, deadline.at, now), [TtlSet(id, a.state)]), Ok)
  }

  ghost function Apply(cfg: Config, w: World, c: Cmd, now: int): Step {
    match c
    case Reserve(id, space, partition, specs, policy, annotations, ttl, reserved) =>
      ApplyReserve(cfg, w, id, space, partition, specs, policy, annotations, ttl, reserved, now)
    case Attach(id, name, isMutable) => ApplyAttach(w, id, name, isMutable, now)
    case Commit(id, size, checksum, expected) => ApplyCommit(cfg, w, id, size, checksum, expected, now)
    case Annotate(id, patch, overwrite) => ApplyAnnotate(w, id, patch, overwrite, now)
    case Detach(key) => ApplyDetach(cfg, w, key, now)
    case DetachMutable(key) => ApplyDetachMutable(w, key, now)
    case Rebind(key, id) => ApplyRebind(w, key, id, now)
    case Expire(id) => ApplyExpire(w, id, now)
    case Delete(id) => ApplyDelete(w, id, now)
    case SetPolicy(id, policy) => ApplySetPolicy(w, id, policy, now)
    case SetPartitionQuota(space, partition, bytes, count, sweep) =>
      ApplySetPartitionQuota(w, space, partition, bytes, count, sweep)
    case SetBucketQuota(space, bytes, warnThreshold, hardCeiling) =>
      ApplySetBucketQuota(w, space, bytes, warnThreshold, hardCeiling)
    case RecordRead(id) => ApplyRecordRead(w, id, now)
    case Lifecycle(id, snapshot, state, payloadDeleted) => ApplyLifecycle(w, id, snapshot, state, payloadDeleted, now)
    case SetTtl(id, seconds) => ApplySetTtl(cfg, w, id, seconds, now)
  }

  /** What resolving a name answers: only a bound name of a live, unexpired, available asset. */
  function Resolve(assets: map<Id, Asset>, names: map<Key, Binding>, key: Key, now: int): (r: Outcome)
    ensures r.Ok? <==> key in names && names[key].asset.Some? && names[key].asset.value in assets
                       && assets[names[key].asset.value].state.Available?
                       && (assets[names[key].asset.value].expiresAt.Some?
                          ==> now < assets[names[key].asset.value].expiresAt.value)
  {
    if key !in names then Err(AliasNotFound)
    else if names[key].asset.None? then Err(InvalidTransition)
    else if names[key].asset.value !in assets then Err(AssetNotFound)
    else
      var a := assets[names[key].asset.value];
      if a.state.Deleted? || a.state.Expired? then Err(AssetGone)
      else if a.state.Available? && a.expiresAt.Some? && a.expiresAt.value <= now then Err(AssetGone)
      else if !a.state.Available? then Err(InvalidTransition)
      else Ok
  }
}
