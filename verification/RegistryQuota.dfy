/** Admission control: usage plus reservations stays under every ceiling, so an upload that keeps
    to its reservation is never turned away at commit. */
module RegistryQuota {
  import opened Model
  import opened RegistrySpec
  import opened RegistryLaws

  /** What a limit is compared with: committed usage plus outstanding reservations. */
  datatype Gauge =
    | PartitionBytes(space: Space, partition: string)
    | PartitionCount(space: Space, partition: string)
    | BucketBytes(space: Space)
    | Capacity(space: Space)

  ghost function Level(assets: map<Id, Asset>, g: Gauge): nat {
    match g
    case PartitionBytes(s, p) => Total(assets, UsedBytes(s, p)) + Total(assets, PendingBytes(s, p))
    case PartitionCount(s, p) => Total(assets, UsedCount(s, p)) + Total(assets, PendingCount(s, p))
    case BucketBytes(s) => Total(assets, BucketUsed(s)) + Total(assets, BucketPending(s))
    case Capacity(s) => Total(assets, Physical(s))
  }

  /** How many assets stand behind a level; an empty gauge is under any limit, even zero. */
  ghost function Occupants(assets: map<Id, Asset>, g: Gauge): nat {
    match g
    case PartitionBytes(s, p) => Total(assets, UsedCount(s, p)) + Total(assets, PendingCount(s, p))
    case PartitionCount(s, p) => Total(assets, UsedCount(s, p)) + Total(assets, PendingCount(s, p))
    case BucketBytes(s) => Total(assets, BucketCount(s)) + Total(assets, BucketPendingCount(s))
    case Capacity(s) => Total(assets, Physical(s))
  }

  ghost predicate Fits(cfg: Config, w: World, g: Gauge, level: nat) {
    match g
    case PartitionBytes(s, p) =>
      var l := LimitsOf(w.partitionLimits, s, p);
      l.bytes.Some? ==> (level as real) < PartitionCeiling(l.bytes.value)
    case PartitionCount(s, p) =>
      var l := LimitsOf(w.partitionLimits, s, p);
      l.count.Some? ==> level <= l.count.value
    case BucketBytes(s) =>
      var l := BucketLimitsOf(w.bucketLimits, s);
      l.bytes.Some? ==> (level as real) < BucketCeiling(l.bytes.value, l.hardCeiling)
    case Capacity(s) =>
      s in cfg.capacity ==> (level as real) < CapacityCeiling(cfg, s)
  }

  ghost predicate Under(cfg: Config, w: World, g: Gauge) {
    Occupants(w.assets, g) == 0 || Fits(cfg, w, g, Level(w.assets, g))
  }

  ghost predicate AllUnder(cfg: Config, w: World) {
    forall g: Gauge :: Under(cfg, w, g)
  }

  predicate ChangesLimits(c: Cmd) {
    c.SetPartitionQuota? || c.SetBucketQuota?
  }

  /** Commands that may claim new room. */
  predicate Claims(c: Cmd) {
    (c.Reserve? && c.reserved.Some?) || c.Commit? || c.SetTtl?
  }

  // ---------------------------------------------------------------- rows that only lose weight

  predicate Lighter(a: Asset, b: Asset) {
    && a.space == b.space && a.partition == b.partition
    && (b.state.Available? ==> a.state.Available? && Size(b) == Size(a))
    && (Reserving(b) ==> Reserving(a) && a.reserved == b.reserved)
    && (b.purgedAt.None? ==> a.purgedAt.None? && PhysicalBytes(b) <= PhysicalBytes(a))
  }

  /** A reservation of unknown size weighs nothing. */
  predicate Weightless(a: Asset) {
    a.state.Pending? && a.reserved.None? && a.size.None?
  }

  ghost predicate AllLighter(before: map<Id, Asset>, after: map<Id, Asset>) {
    && before.Keys <= after.Keys
    && (forall id <- before :: Lighter(before[id], after[id]))
    && (forall id <- after.Keys - before.Keys :: Weightless(after[id]))
  }

  lemma LighterWeighsLess(a: Asset, b: Asset, m: Measure)
    requires Lighter(a, b)
    ensures Weigh(m, b) <= Weigh(m, a)
  {
  }

  lemma NewcomersWeighNothing(before: map<Id, Asset>, after: map<Id, Asset>, m: Measure)
    requires AllLighter(before, after) && before == map[]
    ensures Total(after, m) == 0
  {
    TotalWithout(after, m, after.Keys);
    assert after - after.Keys == map[];
  }

  lemma {:induction false} TotalDrops(before: map<Id, Asset>, after: map<Id, Asset>, m: Measure)
    requires AllLighter(before, after)
    ensures Total(after, m) <= Total(before, m)
    decreases |before|
  {
    if before == map[] {
      NewcomersWeighNothing(before, after, m);
    } else {
      var id :| id in before;
      TotalSplit(before, m, id);
      TotalSplit(after, m, id);
      LighterWeighsLess(before[id], after[id], m);
      hide Lighter, Weigh, Weightless;
      TotalDrops(before - {id}, after - {id}, m);
    }
  }

  lemma LevelsDrop(before: map<Id, Asset>, after: map<Id, Asset>, g: Gauge)
    requires AllLighter(before, after)
    ensures Level(after, g) <= Level(before, g) && Occupants(after, g) <= Occupants(before, g)
  {
    match g
    case PartitionBytes(s, p) =>
      TotalDrops(before, after, UsedBytes(s, p));
      TotalDrops(before, after, PendingBytes(s, p));
      TotalDrops(before, after, UsedCount(s, p));
      TotalDrops(before, after, PendingCount(s, p));
    case PartitionCount(s, p) =>
      TotalDrops(before, after, UsedCount(s, p));
      TotalDrops(before, after, PendingCount(s, p));
    case BucketBytes(s) =>
      TotalDrops(before, after, BucketUsed(s));
      TotalDrops(before, after, BucketPending(s));
      TotalDrops(before, after, BucketCount(s));
      TotalDrops(before, after, BucketPendingCount(s));
    case Capacity(s) =>
      TotalDrops(before, after, Physical(s));
  }

  ghost predicate NoneRevived(before: map<Id, Asset>, after: map<Id, Asset>) {
    && (forall id <- after :: id in before && after[id].state.Available? ==> before[id].state.Available?)
    && (forall id <- after :: id !in before ==> Weightless(after[id]))
  }

  lemma RowSet(before: map<Id, Asset>, id: Id, b: Asset)
    requires id in before && (b.state.Available? ==> before[id].state.Available?)
    ensures NoneRevived(before, before[id := b])
  {
  }

  lemma DetachRevivesNone(cfg: Config, w: World, c: Cmd, now: int)
    requires Inv(w) && Apply(cfg, w, c, now).out.Ok? && (c.Detach? || c.DetachMutable?)
    ensures NoneRevived(w.assets, Apply(cfg, w, c, now).world.assets)
  {
    var id := w.names[c.key].asset.value;
    var touched := w.assets[id := TouchRow(w.assets[id], now)];
    var after := Apply(cfg, w, c, now).world.assets;
    assert after == touched || after == touched[id := ExpireRow(touched[id], now)];
  }

  lemma NamingRevivesNone(cfg: Config, w: World, c: Cmd, now: int)
    requires Inv(w) && Apply(cfg, w, c, now).out.Ok? && ConcernsNames(c) && !Claims(c)
    ensures NoneRevived(w.assets, Apply(cfg, w, c, now).world.assets)
  {
    if c.Detach? || c.DetachMutable? {
      DetachRevivesNone(cfg, w, c, now);
    } else if c.Reserve? {
      var a := ReserveShape(cfg, w, c, now);
      assert Weightless(Apply(cfg, w, c, now).world.assets[c.id]);
    } else {
      RowSet(w.assets, c.id, TouchRow(w.assets[c.id], now));
    }
  }

  lemma RowOpRevivesNone(cfg: Config, w: World, c: Cmd, now: int)
    requires Inv(w) && Apply(cfg, w, c, now).out.Ok? && !ConcernsNames(c) && !Claims(c)
    ensures NoneRevived(w.assets, Apply(cfg, w, c, now).world.assets)
  {
    if !ChangesLimits(c) && Apply(cfg, w, c, now).world.assets != w.assets {
      RowSet(w.assets, c.id, Apply(cfg, w, c, now).world.assets[c.id]);
    }
  }

  lemma QuietIsLighter(cfg: Config, w: World, c: Cmd, now: int)
    requires Inv(w) && Apply(cfg, w, c, now).out.Ok? && !Claims(c)
    ensures AllLighter(w.assets, Apply(cfg, w, c, now).world.assets)
  {
    assert NoneRevived(w.assets, Apply(cfg, w, c, now).world.assets) by {
      if ConcernsNames(c) { NamingRevivesNone(cfg, w, c, now); } else { RowOpRevivesNone(cfg, w, c, now); }
    }
    StepKeepsInv(cfg, w, c, now);
  }

  // ---------------------------------------------------------------- rows that claim room

  /** The row an admission decision was taken for: it now holds exactly the admitted bytes. */
  predicate Holds(b: Asset, bytes: nat) {
    && b.purgedAt.None?
    && PhysicalBytes(b) == bytes
    && ((b.state.Available? && Size(b) == bytes) || (Reserving(b) && b.reserved.value == bytes))
  }

  lemma TotalSet(assets: map<Id, Asset>, m: Measure, id: Id, b: Asset)
    ensures Total(assets[id := b], m) == Total(assets - {id}, m) + Weigh(m, b)
    ensures id in assets ==> Total(assets, m) == Total(assets - {id}, m) + Weigh(m, assets[id])
    ensures id !in assets ==> assets - {id} == assets
  {
    TotalSplit(assets[id := b], m, id);
    assert assets[id := b] - {id} == assets - {id};
    if id in assets { TotalSplit(assets, m, id); }
  }

  lemma OthersWithout(assets: map<Id, Asset>, id: Id, exclude: Option<Id>)
    requires exclude == Some(id) || (exclude == None && id !in assets)
    ensures Others(assets, exclude) == assets - {id}
  {
  }

  /** The level after the claim, seen from the figures the decision was based on. */
  lemma ClaimedLevel(assets: map<Id, Asset>, id: Id, b: Asset, bytes: nat, exclude: Option<Id>, g: Gauge)
    requires Holds(b, bytes)
    requires exclude == Some(id) || (exclude == None && id !in assets)
    requires id in assets ==> !assets[id].state.Available?
    requires g.space == b.space && (g.PartitionBytes? || g.PartitionCount? ==> g.partition == b.partition)
    ensures var load := LoadOf(assets, b.space, b.partition, exclude);
            Level(assets[id := b], g) ==
              match g
              case PartitionBytes(_, _) => load.partitionBytes + bytes
              case PartitionCount(_, _) => load.partitionCount + 1
              case BucketBytes(_) => load.bucketBytes + bytes
              case Capacity(_) => load.physical + bytes
  {
    hide Others, Total;
    OthersWithout(assets, id, exclude);
    match g
    case PartitionBytes(s, p) => Claimed(assets, id, b, UsedBytes(s, p), PendingBytes(s, p));
    case PartitionCount(s, p) => Claimed(assets, id, b, UsedCount(s, p), PendingCount(s, p));
    case BucketBytes(s) => Claimed(assets, id, b, BucketUsed(s), BucketPending(s));
    case Capacity(s) => TotalSet(assets, Physical(s), id, b);
  }

  lemma Claimed(assets: map<Id, Asset>, id: Id, b: Asset, used: Measure, pending: Measure)
    requires id in assets ==> Weigh(used, assets[id]) == 0
    ensures Total(assets[id := b], used) + Total(assets[id := b], pending)
         == Total(assets, used) + Total(assets - {id}, pending) + Weigh(used, b) + Weigh(pending, b)
  {
    TotalSet(assets, used, id, b);
    TotalSet(assets, pending, id, b);
  }

  lemma ElsewhereUnchanged(assets: map<Id, Asset>, id: Id, b: Asset, g: Gauge)
    requires id in assets ==> assets[id].space == b.space && assets[id].partition == b.partition
    requires g.space != b.space || ((g.PartitionBytes? || g.PartitionCount?) && g.partition != b.partition)
    ensures Level(assets[id := b], g) == Level(assets, g) && Occupants(assets[id := b], g) == Occupants(assets, g)
  {
    TotalUpdateAll(assets, id, b);
  }

  /** An admitted claim leaves every gauge it touches under its ceiling. */
  lemma ClaimFits(cfg: Config, w: World, after: World, id: Id, b: Asset, bytes: nat, exclude: Option<Id>, g: Gauge)
    requires Holds(b, bytes)
    requires exclude == Some(id) || (exclude == None && id !in w.assets)
    requires id in w.assets ==>
               !w.assets[id].state.Available? && w.assets[id].space == b.space
               && w.assets[id].partition == b.partition
    requires Admission(cfg, w, b.space, b.partition, bytes, exclude).Ok?
    requires after.assets == w.assets[id := b]
    requires after.partitionLimits == w.partitionLimits && after.bucketLimits == w.bucketLimits
    ensures Fits(cfg, after, g, Level(after.assets, g))
            || (Level(after.assets, g) == Level(w.assets, g) && Occupants(after.assets, g) == Occupants(w.assets, g))
  {
    if g.space == b.space && (g.PartitionBytes? || g.PartitionCount? ==> g.partition == b.partition) {
      ClaimedLevel(w.assets, id, b, bytes, exclude, g);
    } else {
      ElsewhereUnchanged(w.assets, id, b, g);
    }
  }

  /** What a successful claim amounts to: one row replaced by one that holds the admitted bytes. */
  ghost predicate IsClaim(cfg: Config, w: World, after: World, id: Id, b: Asset, bytes: nat, exclude: Option<Id>) {
    && Holds(b, bytes)
    && (exclude == Some(id) || (exclude == None && id !in w.assets))
    && (id in w.assets ==>
         !w.assets[id].state.Available? && w.assets[id].space == b.space
         && w.assets[id].partition == b.partition)
    && Admission(cfg, w, b.space, b.partition, bytes, exclude).Ok?
    && after.assets == w.assets[id := b]
  }

  lemma ReserveIsClaim(cfg: Config, w: World, c: Cmd, now: int)
    requires c.Reserve? && c.reserved.Some?
    requires ApplyReserve(cfg, w, c.id, c.space, c.partition, c.specs, c.policy, c.annotations, c.ttl, c.reserved,
                          now).out.Ok?
    ensures var after := ApplyReserve(cfg, w, c.id, c.space, c.partition, c.specs, c.policy, c.annotations, c.ttl,
                                      c.reserved, now).world;
            c.id in after.assets && c.reserved.value >= 0
              && IsClaim(cfg, w, after, c.id, after.assets[c.id], c.reserved.value, None)
  {
    hide ClearNames, ScopedKeys, Bind, CreateEvents, ExpiryFor, LoadOf, Refusal;
  }

  lemma CommitIsClaim(cfg: Config, w: World, id: Id, size: int, checksum: string, expected: Option<string>, now: int)
    requires Inv(w) && ApplyCommit(cfg, w, id, size, checksum, expected, now).out.Ok?
    ensures var after := ApplyCommit(cfg, w, id, size, checksum, expected, now).world;
            id in after.assets && size >= 0 && IsClaim(cfg, w, after, id, after.assets[id], size, Some(id))
  {
    hide LoadOf, Refusal;
  }

  lemma RestoreIsClaim(cfg: Config, w: World, id: Id, seconds: int, now: int)
    requires Inv(w) && ApplySetTtl(cfg, w, id, seconds, now).out.Ok? && w.assets[id].state.Expired?
    ensures var after := ApplySetTtl(cfg, w, id, seconds, now).world;
            id in after.assets && w.assets[id].size.Some?
              && IsClaim(cfg, w, after, id, after.assets[id], w.assets[id].size.value, Some(id))
  {
    hide LoadOf, Refusal;
  }

  lemma ClaimShape(cfg: Config, w: World, c: Cmd, now: int) returns (id: Id, b: Asset, bytes: nat, exclude: Option<Id>)
    requires Inv(w) && Claims(c) && Apply(cfg, w, c, now).out.Ok?
    requires c.SetTtl? ==> c.id in w.assets && w.assets[c.id].state.Expired?
    ensures IsClaim(cfg, w, Apply(cfg, w, c, now).world, id, b, bytes, exclude)
  {
    id := c.id;
    hide ApplyReserve, ApplyCommit, ApplySetTtl, Inv, IsClaim;
    match c
    case Reserve(_, _, _, _, _, _, _, reserved) =>
      ReserveIsClaim(cfg, w, c, now);
      bytes, exclude := reserved.value, None;
      b := Apply(cfg, w, c, now).world.assets[id];
    case Commit(_, size, checksum, expected) =>
      CommitIsClaim(cfg, w, id, size, checksum, expected, now);
      bytes, exclude := size, Some(id);
      b := Apply(cfg, w, c, now).world.assets[id];
    case SetTtl(_, seconds) =>
      RestoreIsClaim(cfg, w, id, seconds, now);
      bytes, exclude := w.assets[id].size.value, Some(id);
      b := Apply(cfg, w, c, now).world.assets[id];
  }

  lemma LimitsUntouched(cfg: Config, w: World, c: Cmd, now: int)
    requires !ChangesLimits(c)
    ensures Apply(cfg, w, c, now).world.partitionLimits == w.partitionLimits
    ensures Apply(cfg, w, c, now).world.bucketLimits == w.bucketLimits
  {
    if Apply(cfg, w, c, now).out.Err? {
      FailureChangesNothing(cfg, w, c, now);
    }
  }

  lemma RefusedIsLighter(cfg: Config, w: World, c: Cmd, now: int)
    requires Inv(w)
    requires Apply(cfg, w, c, now).out.Err? || !Claims(c)
             || (c.SetTtl? && c.id in w.assets && w.assets[c.id].state.Available?)
    ensures AllLighter(w.assets, Apply(cfg, w, c, now).world.assets)
  {
    if Apply(cfg, w, c, now).out.Err? {
      FailureChangesNothing(cfg, w, c, now);
      hide Apply;
    } else if !Claims(c) {
      hide Apply, AllLighter;
      QuietIsLighter(cfg, w, c, now);
    } else {
      RenewedIsLighter(cfg, w, c.id, c.seconds, now);
      hide ApplySetTtl, AllLighter;
    }
  }

  lemma RenewedIsLighter(cfg: Config, w: World, id: Id, seconds: int, now: int)
    requires id in w.assets && w.assets[id].state.Available?
    ensures AllLighter(w.assets, ApplySetTtl(cfg, w, id, seconds, now).world.assets)
  {
    hide Admission, ExpiryFor;
  }

  /** No operation other than a change of limits raises a gauge, or the number of assets behind it,
      unless the gauge ends below its ceiling. */
  lemma NoOverbooking(cfg: Config, w: World, c: Cmd, now: int, g: Gauge)
    requires Inv(w) && !ChangesLimits(c)
    ensures var after := Apply(cfg, w, c, now).world;
            Fits(cfg, after, g, Level(after.assets, g))
            || (Level(after.assets, g) <= Level(w.assets, g) && Occupants(after.assets, g) <= Occupants(w.assets, g))
  {
    var after := Apply(cfg, w, c, now);
    LimitsUntouched(cfg, w, c, now);
    if after.out.Err? || !Claims(c) || (c.SetTtl? && c.id in w.assets && w.assets[c.id].state.Available?) {
      RefusedIsLighter(cfg, w, c, now);
      LevelsDrop(w.assets, after.world.assets, g);
    } else {
      var id, b, bytes, exclude := ClaimShape(cfg, w, c, now);
      ClaimFits(cfg, w, after.world, id, b, bytes, exclude, g);
    }
  }

  lemma StepStaysUnder(cfg: Config, w: World, c: Cmd, now: int)
    requires Inv(w) && !ChangesLimits(c) && AllUnder(cfg, w)
    ensures AllUnder(cfg, Apply(cfg, w, c, now).world)
  {
    var after := Apply(cfg, w, c, now).world;
    LimitsUntouched(cfg, w, c, now);
    forall g: Gauge ensures Under(cfg, after, g) {
      NoOverbooking(cfg, w, c, now, g);
      assert Under(cfg, w, g);
    }
  }

  // ---------------------------------------------------------------- the promise behind a reservation

  lemma SplitLevel(assets: map<Id, Asset>, id: Id, g: Gauge)
    requires id in assets && Reserving(assets[id]) && assets[id].purgedAt.None? && assets[id].size.None?
    requires g.space == assets[id].space && (g.PartitionBytes? || g.PartitionCount?
             ==> g.partition == assets[id].partition)
    ensures var load := LoadOf(assets, assets[id].space, assets[id].partition, Some(id));
            Level(assets, g) ==
              match g
              case PartitionBytes(_, _) => load.partitionBytes + assets[id].reserved.value
              case PartitionCount(_, _) => load.partitionCount + 1
              case BucketBytes(_) => load.bucketBytes + assets[id].reserved.value
              case Capacity(_) => load.physical + assets[id].reserved.value
    ensures !g.Capacity? ==> Occupants(assets, g) > 0
    ensures g.Capacity? && assets[id].reserved.value > 0 ==> Occupants(assets, g) > 0
  {
    match g
    case PartitionBytes(s, p) =>
      TotalSplit(assets, UsedBytes(s, p), id);
      TotalSplit(assets, PendingBytes(s, p), id);
      TotalSplit(assets, PendingCount(s, p), id);
    case PartitionCount(s, p) =>
      TotalSplit(assets, UsedCount(s, p), id);
      TotalSplit(assets, PendingCount(s, p), id);
    case BucketBytes(s) =>
      TotalSplit(assets, BucketUsed(s), id);
      TotalSplit(assets, BucketPending(s), id);
      TotalSplit(assets, BucketPendingCount(s), id);
    case Capacity(s) =>
      TotalSplit(assets, Physical(s), id);
  }

  lemma ReservedRoomIsThere(cfg: Config, w: World, id: Id, g: Gauge)
    requires Inv(w) && AllUnder(cfg, w)
    requires 0.0 < cfg.capacityRatio <= 1.0 && forall s <- cfg.capacity :: cfg.capacity[s] > 0
    requires id in w.assets && Reserving(w.assets[id])
    requires g.space == w.assets[id].space && (g.PartitionBytes? || g.PartitionCount?
             ==> g.partition == w.assets[id].partition)
    ensures var load := LoadOf(w.assets, w.assets[id].space, w.assets[id].partition, Some(id));
            Fits(cfg, w, g, match g
                            case PartitionBytes(_, _) => load.partitionBytes + w.assets[id].reserved.value
                            case PartitionCount(_, _) => load.partitionCount + 1
                            case BucketBytes(_) => load.bucketBytes + w.assets[id].reserved.value
                            case Capacity(_) => load.physical + w.assets[id].reserved.value)
  {
    SplitLevel(w.assets, id, g);
    assert Under(cfg, w, g);
  }

  /** A commit of exactly the reserved size is never refused for quota or capacity while every
      gauge is under its limit, which no operation but a change of limits undoes. */
  lemma MatchingCommitIsAdmitted(cfg: Config, w: World, id: Id, checksum: string, now: int)
    requires Inv(w) && AllUnder(cfg, w)
    requires 0.0 < cfg.capacityRatio <= 1.0 && forall s <- cfg.capacity :: cfg.capacity[s] > 0
    requires id in w.assets && Reserving(w.assets[id]) && checksum != ""
    ensures ApplyCommit(cfg, w, id, w.assets[id].reserved.value, checksum, None, now).out.Ok?
  {
    var a := w.assets[id];
    ReservedRoomIsThere(cfg, w, id, PartitionBytes(a.space, a.partition));
    ReservedRoomIsThere(cfg, w, id, PartitionCount(a.space, a.partition));
    ReservedRoomIsThere(cfg, w, id, BucketBytes(a.space));
    ReservedRoomIsThere(cfg, w, id, Capacity(a.space));
  }
}
