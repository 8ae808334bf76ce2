/** Admission and usage in plain figures: sums taken row by row over the columns themselves, and the ceilings
    as numbers. */
module RegistryFigures {
  import opened Model
  import opened RegistrySpec

  // ---------------------------------------------------------------- sums of any column

  ghost function Sum(assets: map<Id, Asset>, weight: Asset -> nat): nat {
    if assets == map[] then 0
    else
      var id :| id in assets;
      weight(assets[id]) + Sum(assets - {id}, weight)
  }

  lemma {:induction false} SumSplit(assets: map<Id, Asset>, weight: Asset -> nat, id: Id)
    requires id in assets
    ensures Sum(assets, weight) == weight(assets[id]) + Sum(assets - {id}, weight)
    decreases |assets|
  {
    var pick :| pick in assets && Sum(assets, weight) == weight(assets[pick]) + Sum(assets - {pick}, weight);
    if pick != id {
      SumSplit(assets - {pick}, weight, id);
      SumSplit(assets - {id}, weight, pick);
      assert assets - {pick} - {id} == assets - {id} - {pick};
    }
  }

  lemma {:induction false} SumIsTotal(assets: map<Id, Asset>, weight: Asset -> nat, m: Measure)
    requires forall a: Asset :: weight(a) == Weigh(m, a)
    ensures Sum(assets, weight) == Total(assets, m)
    decreases |assets|
  {
    if assets != map[] {
      var id :| id in assets;
      SumSplit(assets, weight, id);
      TotalSplit(assets, m, id);
      SumIsTotal(assets - {id}, weight, m);
    }
  }

  /** Bytes an available asset counts for. */
  function Live(a: Asset): nat {
    if a.state == Available && a.size.Some? then a.size.value else 0
  }

  /** Bytes a pending upload has asked for. */
  function Asked(a: Asset): nat {
    if a.state == Pending && a.reserved.Some? then a.reserved.value else 0
  }

  /** Bytes that are, or are about to be, in the byte store. */
  function Stored(a: Asset): nat {
    if a.purgedAt.Some? then 0
    else if a.size.Some? then a.size.value
    else if a.reserved.Some? then a.reserved.value
    else 0
  }

  ghost function LiveBytes(assets: map<Id, Asset>, space: Space, partition: string): nat {
    Sum(assets, (a: Asset) => if a.space == space && a.partition == partition then Live(a) else 0)
  }

  ghost function LiveCount(assets: map<Id, Asset>, space: Space, partition: string): nat {
    Sum(assets, (a: Asset) => if a.space == space && a.partition == partition && a.state == Available then 1 else 0)
  }

  ghost function AskedBytes(assets: map<Id, Asset>, space: Space, partition: string): nat {
    Sum(assets, (a: Asset) => if a.space == space && a.partition == partition then Asked(a) else 0)
  }

  ghost function AskedCount(assets: map<Id, Asset>, space: Space, partition: string): nat {
    Sum(assets, (a: Asset) => if a.space == space && a.partition == partition && a.state == Pending && a.reserved.Some?
                              then 1 else 0)
  }

  ghost function BucketLive(assets: map<Id, Asset>, space: Space): nat {
    Sum(assets, (a: Asset) => if a.space == space then Live(a) else 0)
  }

  ghost function BucketAsked(assets: map<Id, Asset>, space: Space): nat {
    Sum(assets, (a: Asset) => if a.space == space then Asked(a) else 0)
  }

  ghost function BucketStored(assets: map<Id, Asset>, space: Space): nat {
    Sum(assets, (a: Asset) => if a.space == space then Stored(a) else 0)
  }

  /** The registry's measures are these sums. */
  lemma MeasuresInFigures(assets: map<Id, Asset>, space: Space, partition: string)
    ensures Total(assets, UsedBytes(space, partition)) == LiveBytes(assets, space, partition)
    ensures Total(assets, UsedCount(space, partition)) == LiveCount(assets, space, partition)
    ensures Total(assets, PendingBytes(space, partition)) == AskedBytes(assets, space, partition)
    ensures Total(assets, PendingCount(space, partition)) == AskedCount(assets, space, partition)
    ensures Total(assets, BucketUsed(space)) == BucketLive(assets, space)
    ensures Total(assets, BucketPending(space)) == BucketAsked(assets, space)
    ensures Total(assets, Physical(space)) == BucketStored(assets, space)
  {
    var used := (a: Asset) => if a.space == space && a.partition == partition then Live(a) else 0;
    SumIsTotal(assets, used, UsedBytes(space, partition));
    var count := (a: Asset) => if a.space == space && a.partition == partition && a.state == Available then 1 else 0;
    SumIsTotal(assets, count, UsedCount(space, partition));
    var asked := (a: Asset) => if a.space == space && a.partition == partition then Asked(a) else 0;
    SumIsTotal(assets, asked, PendingBytes(space, partition));
    var waiting := (a: Asset) => if a.space == space && a.partition == partition && a.state == Pending
                                    && a.reserved.Some? then 1 else 0;
    SumIsTotal(assets, waiting, PendingCount(space, partition));
    var live := (a: Asset) => if a.space == space then Live(a) else 0;
    SumIsTotal(assets, live, BucketUsed(space));
    var all := (a: Asset) => if a.space == space then Asked(a) else 0;
    SumIsTotal(assets, all, BucketPending(space));
    var stored := (a: Asset) => if a.space == space then Stored(a) else 0;
    SumIsTotal(assets, stored, Physical(space));
  }

  // ---------------------------------------------------------------- the ceilings as numbers

  ghost function Without(assets: map<Id, Asset>, exclude: Option<Id>): map<Id, Asset> {
    map id | id in assets && exclude != Some(id) :: assets[id]
  }

  /** What admission answers to `bytes` more, every figure a sum over columns: 105 hundredths of a partition's
      quota, its asset count, the budget times its ratio, the bucket's quota times its hard ceiling. Whatever
      is full first refuses. */
  ghost function Room(cfg: Config, w: World, space: Space, partition: string, bytes: nat,
                      exclude: Option<Id>): Outcome {
    var others := Without(w.assets, exclude);
    var key := (space, partition);
    if key in w.partitionLimits && w.partitionLimits[key].bytes.Some?
       && 100 * (LiveBytes(w.assets, space, partition) + AskedBytes(others, space, partition) + bytes)
          >= 105 * w.partitionLimits[key].bytes.value then
      Err(PartitionQuotaExceeded)
    else if key in w.partitionLimits && w.partitionLimits[key].count.Some?
            && LiveCount(w.assets, space, partition) + AskedCount(others, space, partition)
               >= w.partitionLimits[key].count.value then
      Err(PartitionQuotaExceeded)
    else if space in cfg.capacity && (cfg.capacityRatio <= 0.0 || cfg.capacityRatio > 1.0) then
      Err(ValidationError)
    else if space in cfg.capacity
            && (BucketStored(others, space) + bytes) as real >= Part(cfg.capacity[space], cfg.capacityRatio) then
      Err(CapacityExceeded)
    else if space in w.bucketLimits && w.bucketLimits[space].bytes.Some?
            && (BucketLive(w.assets, space) + BucketAsked(others, space) + bytes) as real
               >= Part(w.bucketLimits[space].bytes.value, w.bucketLimits[space].hardCeiling) then
      Err(BucketQuotaExceeded)
    else Ok
  }

  lemma Hundredths(n: nat, quota: nat)
    ensures n as real >= PartitionCeiling(quota) <==> 100 * n >= 105 * quota
  {
    assert PartitionCeiling(quota) * 100.0 == (105 * quota) as real;
    assert n as real * 100.0 == (100 * n) as real;
  }

  /** A number of bytes times a ratio. */
  function Part(bytes: nat, ratio: real): real { bytes as real * ratio }

  lemma CeilingsAreParts(cfg: Config, space: Space, quota: nat, ratio: real)
    ensures BucketCeiling(quota, ratio) == Part(quota, ratio)
    ensures space in cfg.capacity ==> CapacityCeiling(cfg, space) == Part(cfg.capacity[space], cfg.capacityRatio)
  {
  }

  lemma AdmissionInFigures(cfg: Config, w: World, space: Space, partition: string, bytes: nat, exclude: Option<Id>)
    ensures Admission(cfg, w, space, partition, bytes, exclude) == Room(cfg, w, space, partition, bytes, exclude)
  {
    hide Total, LiveBytes, LiveCount, AskedBytes, AskedCount, BucketLive, BucketAsked, BucketStored, Part,
      PartitionCeiling,
      BucketCeiling, CapacityCeiling;
    var others := Without(w.assets, exclude);
    assert others == Others(w.assets, exclude);
    MeasuresInFigures(w.assets, space, partition);
    MeasuresInFigures(others, space, partition);
    hide Others, Without;
    var pl, bl := LimitsOf(w.partitionLimits, space, partition), BucketLimitsOf(w.bucketLimits, space);
    var load := LoadOf(w.assets, space, partition, exclude);
    if pl.bytes.Some? { Hundredths(load.partitionBytes + bytes, pl.bytes.value); }
    CeilingsAreParts(cfg, space, if bl.bytes.Some? then bl.bytes.value else 0, bl.hardCeiling);
  }

  /** Before any were set: no limits, a sweep exactly in `cache` and `tmp`, a warning from four fifths on, and a bucket
      that is full at its whole quota. */
  lemma UnsetLimits(pls: imap<(Space, string), PartitionLimits>, bls: imap<Space, BucketLimits>, space: Space,
                    partition: string)
    requires (space, partition) !in pls && space !in bls
    ensures LimitsOf(pls, space, partition) == PartitionLimits(None, None, space == Cache || space == Tmp)
    ensures BucketLimitsOf(bls, space) == BucketLimits(None, 4.0 / 5.0, 1.0)
  {
  }
}
