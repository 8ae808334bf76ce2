/** The registry's redundant copies, usage counters and alias sets, and how one update moves them. */
module RegistryCopies {
  import opened Model
  import opened RegistrySpec

  datatype PartitionQuota = PartitionQuota(limits: PartitionLimits, usedBytes: int, usedCount: int)

  datatype BucketQuota = BucketQuota(limits: BucketLimits, usedBytes: int)

  type PartitionQuotas = map<(Space, string), PartitionQuota>

  type BucketQuotas = map<Space, BucketQuota>

  function PartitionQuotaOf(quotas: PartitionQuotas, space: Space, partition: string): PartitionQuota {
    if (space, partition) in quotas then quotas[(space, partition)]
    else PartitionQuota(DefaultPartitionLimits(space), 0, 0)
  }

  function BucketQuotaOf(quotas: BucketQuotas, space: Space): BucketQuota {
    if space in quotas then quotas[space] else BucketQuota(DEFAULT_BUCKET_LIMITS, 0)
  }

  // ---------------------------------------------------------------- abstraction

  function Plain(assets: map<Id, Asset>): map<Id, Asset> {
    map id | id in assets :: assets[id].(aliases := {})
  }

  lemma PlainKeys(assets: map<Id, Asset>)
    ensures Plain(assets).Keys == assets.Keys
  {
  }

  lemma PlainSet(assets: map<Id, Asset>, id: Id, a: Asset)
    ensures Plain(assets[id := a]) == Plain(assets)[id := a.(aliases := {})]
  {
  }

  lemma PlainTotals(assets: map<Id, Asset>, m: Measure)
    ensures Total(Plain(assets), m) == Total(assets, m)
  {
    TotalSame(Plain(assets), assets, m);
  }

  lemma PlainOthers(assets: map<Id, Asset>, exclude: Option<Id>, m: Measure)
    ensures Total(Others(Plain(assets), exclude), m) == Total(Others(assets, exclude), m)
  {
    TotalSame(Others(Plain(assets), exclude), Others(assets, exclude), m);
  }

  lemma PlainLoad(assets: map<Id, Asset>, space: Space, partition: string, exclude: Option<Id>)
    ensures LoadOf(Plain(assets), space, partition, exclude) == LoadOf(assets, space, partition, exclude)
  {
    PlainTotals(assets, UsedBytes(space, partition));
    PlainTotals(assets, UsedCount(space, partition));
    PlainTotals(assets, BucketUsed(space));
    PlainOthers(assets, exclude, PendingBytes(space, partition));
    PlainOthers(assets, exclude, PendingCount(space, partition));
    PlainOthers(assets, exclude, Physical(space));
    PlainOthers(assets, exclude, BucketPending(space));
  }

  ghost function PartitionLimitsView(quotas: PartitionQuotas): imap<(Space, string), PartitionLimits> {
    imap k: (Space, string) :: PartitionQuotaOf(quotas, k.0, k.1).limits
  }

  ghost function BucketLimitsView(quotas: BucketQuotas): imap<Space, BucketLimits> {
    imap s: Space :: BucketQuotaOf(quotas, s).limits
  }

  // ---------------------------------------------------------------- counters

  ghost predicate PartitionCountersOk(assets: map<Id, Asset>, quotas: PartitionQuotas) {
    forall s: Space, p: string ::
      var q := PartitionQuotaOf(quotas, s, p);
      q.usedBytes == Total(assets, UsedBytes(s, p)) && q.usedCount == Total(assets, UsedCount(s, p))
  }

  ghost predicate BucketCountersOk(assets: map<Id, Asset>, quotas: BucketQuotas) {
    forall s: Space :: BucketQuotaOf(quotas, s).usedBytes == Total(assets, BucketUsed(s))
  }

  ghost predicate CountersOk(assets: map<Id, Asset>, pqs: PartitionQuotas, bqs: BucketQuotas) {
    PartitionCountersOk(assets, pqs) && BucketCountersOk(assets, bqs)
  }

  function Max0(n: int): int { if n < 0 then 0 else n }

  /** What a row counts for in its partition and bucket. */
  function Bytes(a: Asset): nat { if a.state.Available? then Size(a) else 0 }

  function Count(a: Asset): nat { if a.state.Available? then 1 else 0 }

  ghost predicate PartitionMoved(old_: PartitionQuotas, new_: PartitionQuotas, space: Space, partition: string,
                                 bytes: int, count: int) {
    forall s: Space, p: string ::
      PartitionQuotaOf(new_, s, p) ==
        var q := PartitionQuotaOf(old_, s, p);
        if s == space && p == partition then q.(usedBytes := q.usedBytes + bytes, usedCount := q.usedCount + count)
          else q
  }

  ghost predicate BucketMoved(old_: BucketQuotas, new_: BucketQuotas, space: Space, bytes: int) {
    forall s: Space ::
      BucketQuotaOf(new_, s) ==
        var q := BucketQuotaOf(old_, s);
        if s == space then q.(usedBytes := q.usedBytes + bytes) else q
  }

  lemma MovedKeepsLimits(pqs: PartitionQuotas, newPqs: PartitionQuotas, bqs: BucketQuotas, newBqs: BucketQuotas,
                         space: Space,
                         partition: string, bytes: int, count: int)
    requires PartitionMoved(pqs, newPqs, space, partition, bytes, count) && BucketMoved(bqs, newBqs, space, bytes)
    ensures PartitionLimitsView(newPqs) == PartitionLimitsView(pqs)
    ensures BucketLimitsView(newBqs) == BucketLimitsView(bqs)
  {
    forall k: (Space, string) ensures PartitionQuotaOf(newPqs, k.0, k.1).limits
      == PartitionQuotaOf(pqs, k.0, k.1).limits {
    }
  }

  lemma PartitionLimitsSet(assets: map<Id, Asset>, pqs: PartitionQuotas, space: Space, partition: string,
                           limits: PartitionLimits)
    ensures var newPqs := pqs[(space, partition) := PartitionQuotaOf(pqs, space, partition).(limits := limits)];
            PartitionLimitsView(newPqs) == PartitionLimitsView(pqs)[(space, partition) := limits]
            && (PartitionCountersOk(assets, pqs) ==> PartitionCountersOk(assets, newPqs))
  {
    var newPqs := pqs[(space, partition) := PartitionQuotaOf(pqs, space, partition).(limits := limits)];
    forall s: Space, p: string
      ensures PartitionQuotaOf(newPqs, s, p) == PartitionQuotaOf(pqs, s, p).(limits := if s == space && p == partition
              then limits else PartitionQuotaOf(pqs, s, p).limits)
    {
    }
  }

  lemma BucketLimitsSet(assets: map<Id, Asset>, bqs: BucketQuotas, space: Space, limits: BucketLimits)
    ensures var newBqs := bqs[space := BucketQuotaOf(bqs, space).(limits := limits)];
            BucketLimitsView(newBqs) == BucketLimitsView(bqs)[space := limits]
            && (BucketCountersOk(assets, bqs) ==> BucketCountersOk(assets, newBqs))
  {
    var newBqs := bqs[space := BucketQuotaOf(bqs, space).(limits := limits)];
    forall s: Space
      ensures BucketQuotaOf(newBqs, s) == BucketQuotaOf(bqs, s).(limits := if s == space then limits
              else BucketQuotaOf(bqs, s).limits)
    {
    }
  }

  /** The decision taken on the stored figures is the one taken on the sums. */
  lemma AdmissionOfView(cfg: Config, w: World, assets: map<Id, Asset>, pqs: PartitionQuotas, bqs: BucketQuotas,
                        space: Space,
                        partition: string, bytes: nat, exclude: Option<Id>)
    requires w.assets == Plain(assets)
    requires w.partitionLimits == PartitionLimitsView(pqs) && w.bucketLimits == BucketLimitsView(bqs)
    ensures Admission(cfg, w, space, partition, bytes, exclude)
         == Refusal(cfg, PartitionQuotaOf(pqs, space, partition).limits, BucketQuotaOf(bqs, space).limits, space,
                    LoadOf(assets, space, partition, exclude), bytes)
  {
    PlainLoad(assets, space, partition, exclude);
    assert (space, partition) in w.partitionLimits && space in w.bucketLimits;
  }

  /** Counters that move by a row's change of weight keep equal to the sums. */
  lemma CountersFollow(assets: map<Id, Asset>, pqs: PartitionQuotas, bqs: BucketQuotas, newPqs: PartitionQuotas,
                       newBqs: BucketQuotas,
                       id: Id, b: Asset)
    requires CountersOk(assets, pqs, bqs)
    requires id in assets && assets[id].space == b.space && assets[id].partition == b.partition
    requires PartitionMoved(pqs, newPqs, b.space, b.partition, Bytes(b) - Bytes(assets[id]),
                            Count(b) - Count(assets[id]))
    requires BucketMoved(bqs, newBqs, b.space, Bytes(b) - Bytes(assets[id]))
    ensures CountersOk(assets[id := b], newPqs, newBqs)
  {
    TotalUpdateAll(assets, id, b);
  }

  /** A row that counts for nothing before and after moves no counter. */
  lemma CountersStay(assets: map<Id, Asset>, pqs: PartitionQuotas, bqs: BucketQuotas, id: Id, b: Asset)
    requires CountersOk(assets, pqs, bqs)
    requires id in assets ==> assets[id].space == b.space && assets[id].partition == b.partition
                              && Bytes(assets[id]) == Bytes(b) && Count(assets[id]) == Count(b)
    requires id !in assets ==> !b.state.Available?
    ensures CountersOk(assets[id := b], pqs, bqs)
  {
    TotalUpdateAll(assets, id, b);
  }

  /** The counters of an available asset's partition and bucket are at least its own weight,
      so a release never reaches the clamp at zero. */
  lemma ReleaseNeverClamps(assets: map<Id, Asset>, pqs: PartitionQuotas, bqs: BucketQuotas, id: Id)
    requires CountersOk(assets, pqs, bqs)
    requires id in assets && assets[id].state.Available?
    ensures var a := assets[id];
            var q := PartitionQuotaOf(pqs, a.space, a.partition);
            && q.usedBytes >= Size(a) && q.usedCount >= 1
            && BucketQuotaOf(bqs, a.space).usedBytes >= Size(a)
  {
    var a := assets[id];
    TotalSplit(assets, UsedBytes(a.space, a.partition), id);
    TotalSplit(assets, UsedCount(a.space, a.partition), id);
    TotalSplit(assets, BucketUsed(a.space), id);
  }

  // ---------------------------------------------------------------- alias sets

  /** The stored sets are the ones a query over the bindings computes. */
  ghost predicate AliasSetsOk(assets: map<Id, Asset>, names: map<Key, Binding>) {
    forall id <- assets :: assets[id].aliases == AliasesOf(names, id)
  }

  lemma AliasAdded(assets: map<Id, Asset>, names: map<Key, Binding>, id: Id, key: Key, b: Binding, a: Asset)
    requires AliasSetsOk(assets, names)
    requires key in names ==> names[key].asset.None?
    requires b.asset == Some(id) && id in assets
    requires a.aliases == assets[id].aliases + {key}
    ensures AliasSetsOk(assets[id := a], names[key := b])
  {
  }

  lemma AliasDropped(assets: map<Id, Asset>, names: map<Key, Binding>, newNames: map<Key, Binding>, id: Id, key: Key,
                     a: Asset)
    requires AliasSetsOk(assets, names)
    requires key in names && names[key].asset == Some(id) && id in assets
    requires newNames == names - {key} || exists b: Binding :: b.asset.None? && newNames == names[key := b]
    requires a.aliases == set k | k in assets[id].aliases && k != key
    ensures AliasSetsOk(assets[id := a], newNames)
  {
  }

  lemma AliasesKept(assets: map<Id, Asset>, names: map<Key, Binding>, id: Id, a: Asset)
    requires AliasSetsOk(assets, names) && id in assets && a.aliases == assets[id].aliases
    ensures AliasSetsOk(assets[id := a], names)
  {
  }
}
