/** Concurrent database transactions that claim or release quota. Each statement sees what has been
    committed, row locks are held until the transaction ends, and asset, partition and bucket rows
    are locked in that order. */
module QuotaLocks {
  import opened Model
  import opened RegistrySpec
  import opened RegistryQuota
  import opened RegistryCopies

  type TxId = nat

  datatype LockName =
    | AssetRow(id: Id)
    | PartitionRow(space: Space, partition: string)
    | BucketRow(space: Space)

  function Rank(l: LockName): nat {
    match l case AssetRow(_) => 0 case PartitionRow(_, _) => 1 case BucketRow(_) => 2
  }

  /** What a transaction is there to do. */
  datatype Job =
    | Reserve(id: Id, row: Asset, ttl: Option<int>)
    | Commit(id: Id, size: nat, checksum: string, now: int)
    | Restore(id: Id, seconds: int, deadline: Option<int>, now: int)
    | Release(id: Id, toDeleted: bool, now: int)
    | Drop(id: Id, toDeleted: bool, now: int)
    | Purge(id: Id, now: int)

  datatype Staged = Staged(row: Asset, partitionQuota: PartitionQuota, bucketQuota: BucketQuota)

  /** `seen` is the row read under its lock; `decided` says admission was granted. */
  datatype Tx = Tx(job: Job, held: set<LockName>, seen: Option<Asset>, decided: bool, staged: Option<Staged>)

  datatype Db = Db(
    rows: map<Id, Asset>,
    partitionQuotas: PartitionQuotas,
    bucketQuotas: BucketQuotas,
    holder: map<LockName, TxId>,
    txs: map<TxId, Tx>)

  /** A change of limits locks one counter row and no other, so it is a single step taken while that row is free. */
  datatype Step =
    | Begin(t: TxId, job: Job)
    | Acquire(t: TxId)
    | Decide(t: TxId)
    | Stage(t: TxId)
    | Publish(t: TxId)
    | Abort(t: TxId)
    | SetPartition(space: Space, partition: string, limits: PartitionLimits)
    | SetBucket(space: Space, bucketLimits: BucketLimits)

  // ---------------------------------------------------------------- programs

  /** The transaction claims quota; a reservation of unknown size does not. */
  predicate Claiming(job: Job) {
    (job.Reserve? && job.row.reserved.Some?) || job.Commit? || job.Restore?
  }

  /** The transaction touches usage counters: it claims quota, or lets an available asset go. */
  predicate Counts(job: Job) {
    Claiming(job) || job.Release?
  }

  /** The row the job starts from; a reservation brings its own. */
  function Base(tx: Tx): Option<Asset> {
    if tx.job.Reserve? then Some(tx.job.row) else tx.seen
  }

  /** The next row to lock: the asset, then its partition, then its bucket. */
  function NextLock(tx: Tx): Option<LockName> {
    if !tx.job.Reserve? && tx.seen.None? then Some(AssetRow(tx.job.id))
    else if !Counts(tx.job) || Base(tx).None? then None
    else
      var a := Base(tx).value;
      if PartitionRow(a.space, a.partition) !in tx.held then Some(PartitionRow(a.space, a.partition))
      else if BucketRow(a.space) !in tx.held then Some(BucketRow(a.space))
      else None
  }

  /** The row allows the job, as checked when it was read. */
  predicate Ready(tx: Tx) {
    && Base(tx).Some?
    && var a := Base(tx).value;
       match tx.job
       case Reserve(_, row, _) => row.state.Pending? && Coherent(row) && row.purgedAt.None?
       case Commit(_, size, _, _) => a.state.Pending? && (a.reserved.Some? ==> a.reserved.value == size)
       case Restore(_, _, _, _) => a.state.Expired? && a.size.Some?
       case Release(_, _, _) => a.state.Available?
       case Drop(_, _, _) => a.state.Pending? || a.state.Expired?
       case Purge(_, _) => a.state.Deleted? && a.purgedAt.None?
  }

  /** What the registry checks besides: a fresh row, a lifetime it grants, a checksum that is not empty. A pending
      asset may be dropped either way, an expired one only deleted. */
  predicate Legal(cfg: Config, tx: Tx) {
    Base(tx).Some?
    && var a := Base(tx).value;
       match tx.job
       case Reserve(_, row, ttl) =>
         && row == PendingRow(row.space, row.partition, row.policy, row.annotations, row.reserved, row.expiresAt,
                              row.createdAt)
         && ExpiryFor(cfg, row.space, ttl, row.createdAt) == Deadline(row.expiresAt)
       case Commit(_, _, checksum, _) => checksum != ""
       case Restore(_, seconds, deadline, now) => ExpiryFor(cfg, a.space, Some(seconds), now) == Deadline(deadline)
       case Drop(_, toDeleted, _) => toDeleted || a.state.Pending?
       case _ => true
  }

  function NewRow(job: Job, a: Asset): Asset {
    match job
    case Reserve(_, row, _) => row
    case Commit(_, size, checksum, now) => CommitRow(a, size, checksum, now)
    case Restore(_, _, deadline, now) => RestoreRow(a, deadline, now)
    case Release(_, toDeleted, now) => if toDeleted then DeleteRow(a, now) else ExpireRow(a, now)
    case Drop(_, toDeleted, now) => if toDeleted then DeleteRow(a, now) else ExpireRow(a, now)
    case Purge(_, now) => PurgeRow(a, now)
  }

  function ClaimedBytes(job: Job, a: Asset): nat {
    match job
    case Reserve(_, row, _) => if row.reserved.Some? then row.reserved.value else 0
    case Commit(_, size, _, _) => size
    case _ => Size(a)
  }

  function Exclude(job: Job): Option<Id> {
    if job.Reserve? then None else Some(job.id)
  }

  /** The figures the admission query reads: locked counters and the pending rows committed by now. */
  ghost function LoadRead(db: Db, a: Asset, exclude: Option<Id>): Load
    requires PartitionQuotaOf(db.partitionQuotas, a.space, a.partition).usedBytes >= 0
    requires PartitionQuotaOf(db.partitionQuotas, a.space, a.partition).usedCount >= 0
    requires BucketQuotaOf(db.bucketQuotas, a.space).usedBytes >= 0
  {
    var pq := PartitionQuotaOf(db.partitionQuotas, a.space, a.partition);
    var others := Others(db.rows, exclude);
    Load(pq.usedBytes + Total(others, PendingBytes(a.space, a.partition)),
         pq.usedCount + Total(others, PendingCount(a.space, a.partition)),
         Total(others, Physical(a.space)),
         BucketQuotaOf(db.bucketQuotas, a.space).usedBytes + Total(others, BucketPending(a.space)))
  }

  ghost predicate Granted(cfg: Config, db: Db, tx: Tx) {
    && Base(tx).Some?
    && var a := Base(tx).value;
       var pq := PartitionQuotaOf(db.partitionQuotas, a.space, a.partition);
       var bq := BucketQuotaOf(db.bucketQuotas, a.space);
       && pq.usedBytes >= 0 && pq.usedCount >= 0 && bq.usedBytes >= 0
       && Refusal(cfg, pq.limits, bq.limits, a.space, LoadRead(db, a, Exclude(tx.job)), ClaimedBytes(tx.job, a)).Ok?
  }

  /** Counter rows as this transaction rewrites them, clamped at zero on release. */
  function StagedOf(db: Db, job: Job, a: Asset): Staged {
    var pq := PartitionQuotaOf(db.partitionQuotas, a.space, a.partition);
    var bq := BucketQuotaOf(db.bucketQuotas, a.space);
    var b := NewRow(job, a);
    if job.Commit? || job.Restore? then
      Staged(b, pq.(usedBytes := pq.usedBytes + Size(b), usedCount := pq.usedCount + 1),
             bq.(usedBytes := bq.usedBytes + Size(b)))
    else if job.Release? then
      Staged(b, pq.(usedBytes := Max0(pq.usedBytes - Size(a)), usedCount := Max0(pq.usedCount - 1)),
             bq.(usedBytes := Max0(bq.usedBytes - Size(a))))
    else Staged(b, pq, bq)
  }

  ghost predicate FreshId(db: Db, id: Id) {
    id !in db.rows && forall t <- db.txs :: db.txs[t].job.Reserve? ==> db.txs[t].job.id != id
  }

  ghost predicate Enabled(cfg: Config, db: Db, step: Step) {
    match step
    case Begin(t, job) =>
      && t !in db.txs
      && if job.Reserve? then FreshId(db, job.id) && Ready(Tx(job, {}, None, false, None)) else job.id in db.rows
    case Acquire(t) => t in db.txs && NextLock(db.txs[t]).Some? && NextLock(db.txs[t]).value !in db.holder
    case Decide(t) =>
      && t in db.txs && Claiming(db.txs[t].job) && Ready(db.txs[t]) && NextLock(db.txs[t]).None?
      && Granted(cfg, db, db.txs[t])
    case Stage(t) =>
      t in db.txs && Ready(db.txs[t]) && NextLock(db.txs[t]).None? && db.txs[t].staged.None? && Legal(cfg, db.txs[t])
      && (Claiming(db.txs[t].job) ==> db.txs[t].decided)
    case Publish(t) => t in db.txs && db.txs[t].staged.Some?
    case Abort(t) => t in db.txs
    case SetPartition(space, partition, _) => PartitionRow(space, partition) !in db.holder
    case SetBucket(space, _) => BucketRow(space) !in db.holder
  }

  predicate SetsLimits(step: Step) {
    step.SetPartition? || step.SetBucket?
  }

  /** New limits, the usage as it stands. */
  function Limited(db: Db, step: Step): Db
    requires SetsLimits(step)
  {
    match step
    case SetPartition(space, partition, limits) =>
      var updated := PartitionQuotaOf(db.partitionQuotas, space, partition).(limits := limits);
      db.(partitionQuotas := db.partitionQuotas[(space, partition) := updated])
    case SetBucket(space, limits) =>
      db.(bucketQuotas := db.bucketQuotas[space := BucketQuotaOf(db.bucketQuotas, space).(limits := limits)])
  }

  function Released(holder: map<LockName, TxId>, t: TxId): map<LockName, TxId> {
    map l | l in holder && holder[l] != t :: holder[l]
  }

  /** Locking the asset row reads it. */
  function AcquiredTx(db: Db, tx: Tx): Tx
    requires NextLock(tx).Some?
  {
    var l := NextLock(tx).value;
    tx.(held := tx.held + {l}, seen := if l.AssetRow? && l.id in db.rows then Some(db.rows[l.id]) else tx.seen)
  }

  ghost function Effect(cfg: Config, db: Db, step: Step): Db
    requires Enabled(cfg, db, step)
  {
    match step
    case Begin(t, job) => db.(txs := db.txs[t := Tx(job, {}, None, false, None)])
    case Acquire(t) =>
      db.(holder := db.holder[NextLock(db.txs[t]).value := t], txs := db.txs[t := AcquiredTx(db, db.txs[t])])
    case Decide(t) => db.(txs := db.txs[t := db.txs[t].(decided := true)])
    case Stage(t) =>
      var tx := db.txs[t];
      db.(txs := db.txs[t := tx.(staged := Some(StagedOf(db, tx.job, Base(tx).value)))])
    case Publish(t) => Published(db, t)
    case Abort(t) => db.(holder := Released(db.holder, t), txs := db.txs - {t})
    case SetPartition(_, _, _) => Limited(db, step)
    case SetBucket(_, _) => Limited(db, step)
  }

  function Published(db: Db, t: TxId): Db
    requires t in db.txs && db.txs[t].staged.Some?
  {
    var s := db.txs[t].staged.value;
    var counted := Counts(db.txs[t].job) && !db.txs[t].job.Reserve?;
    db.(rows := db.rows[db.txs[t].job.id := s.row],
        partitionQuotas := if counted then db.partitionQuotas[(s.row.space, s.row.partition) := s.partitionQuota]
          else db.partitionQuotas,
        bucketQuotas := if counted then db.bucketQuotas[s.row.space := s.bucketQuota] else db.bucketQuotas,
        holder := Released(db.holder, t),
        txs := db.txs - {t})
  }

  ghost function Next(cfg: Config, db: Db, step: Step): Db {
    if Enabled(cfg, db, step) then Effect(cfg, db, step) else db
  }

  // ---------------------------------------------------------------- the invariant

  /** The committed tables, for the admission rules and gauges of the registry. */
  ghost function WorldOf(db: Db): World {
    World(db.rows, map[], map[], PartitionLimitsView(db.partitionQuotas), BucketLimitsView(db.bucketQuotas), [])
  }

  /** Locks are exclusive, and a transaction knows which it holds. */
  ghost predicate LocksOk(db: Db) {
    && (forall l <- db.holder :: db.holder[l] in db.txs && l in db.txs[db.holder[l]].held)
    && (forall t <- db.txs :: forall l <- db.txs[t].held :: l in db.holder && db.holder[l] == t)
  }

  ghost predicate Admitted(cfg: Config, db: Db, tx: Tx) {
    && Base(tx).Some?
    && Admission(cfg, WorldOf(db), Base(tx).value.space, Base(tx).value.partition,
                 ClaimedBytes(tx.job, Base(tx).value), Exclude(tx.job)).Ok?
  }

  /** The row read is still the committed one; a reservation's row does not exist yet. */
  ghost predicate TxRead(db: Db, tx: Tx) {
    && (if tx.job.Reserve? then tx.seen.None? && tx.job.id !in db.rows && Ready(tx) else tx.job.id in db.rows)
    && (tx.seen.Some? ==> AssetRow(tx.job.id) in tx.held && tx.job.id in db.rows && db.rows[tx.job.id] == tx.seen.value)
  }

  predicate IsCounterRow(l: LockName, a: Asset) {
    l == PartitionRow(a.space, a.partition) || l == BucketRow(a.space)
  }

  /** Locks are its own asset, partition and bucket, taken in ascending rank. */
  ghost predicate TxLocks(tx: Tx) {
    && (forall l <- tx.held :: l.AssetRow? || (Base(tx).Some? && IsCounterRow(l, Base(tx).value)))
    && (NextLock(tx).Some? ==> forall l <- tx.held :: Rank(l) < Rank(NextLock(tx).value))
  }

  ghost predicate TxDecided(cfg: Config, db: Db, tx: Tx) {
    tx.decided ==> Claiming(tx.job) && Ready(tx) && NextLock(tx).None? && Admitted(cfg, db, tx)
  }

  ghost predicate TxStaged(cfg: Config, db: Db, tx: Tx) {
    tx.staged.Some? ==>
      && Ready(tx) && Legal(cfg, tx) && NextLock(tx).None? && (Claiming(tx.job) ==> tx.decided)
      && tx.staged.value.row == NewRow(tx.job, Base(tx).value)
      && (Counts(tx.job) ==> tx.staged.value == StagedOf(db, tx.job, Base(tx).value))
  }

  ghost predicate TxHolds(cfg: Config, db: Db, tx: Tx) {
    TxRead(db, tx) && TxLocks(tx) && TxDecided(cfg, db, tx) && TxStaged(cfg, db, tx)
  }

  ghost predicate TxOk(cfg: Config, db: Db, t: TxId)
    requires t in db.txs
  {
    TxHolds(cfg, db, db.txs[t])
  }

  /** No two transactions reserve the same identifier. */
  ghost predicate ReservesDiffer(txs: map<TxId, Tx>) {
    forall t, u | t in txs && u in txs && t != u :: txs[t].job.Reserve? && txs[u].job.Reserve?
      ==> txs[t].job.id != txs[u].job.id
  }

  ghost predicate TxsOk(cfg: Config, db: Db) {
    && (forall t <- db.txs :: TxOk(cfg, db, t))
    && ReservesDiffer(db.txs)
  }

  ghost predicate Sound(cfg: Config, db: Db) {
    && (forall id <- db.rows :: Coherent(db.rows[id]))
    && CountersOk(db.rows, db.partitionQuotas, db.bucketQuotas)
    && LocksOk(db)
    && TxsOk(cfg, db)
  }

  // ---------------------------------------------------------------- reading under locks

  /** Under conservation, the figures read are the sums. */
  lemma GrantIsAdmission(cfg: Config, db: Db, tx: Tx)
    requires CountersOk(db.rows, db.partitionQuotas, db.bucketQuotas) && Granted(cfg, db, tx)
    ensures Admitted(cfg, db, tx)
  {
    hide Total, Others, Exclude, ClaimedBytes, Refusal;
    LoadsAgree(db, Base(tx).value, Exclude(tx.job));
    hide LoadRead, LoadOf, CountersOk;
  }

  lemma LoadsAgree(db: Db, a: Asset, exclude: Option<Id>)
    requires CountersOk(db.rows, db.partitionQuotas, db.bucketQuotas)
    requires PartitionQuotaOf(db.partitionQuotas, a.space, a.partition).usedBytes >= 0
    requires PartitionQuotaOf(db.partitionQuotas, a.space, a.partition).usedCount >= 0
    requires BucketQuotaOf(db.bucketQuotas, a.space).usedBytes >= 0
    ensures LoadRead(db, a, exclude) == LoadOf(db.rows, a.space, a.partition, exclude)
    ensures LimitsOf(WorldOf(db).partitionLimits, a.space, a.partition)
            == PartitionQuotaOf(db.partitionQuotas, a.space, a.partition).limits
    ensures BucketLimitsOf(WorldOf(db).bucketLimits, a.space) == BucketQuotaOf(db.bucketQuotas, a.space).limits
  {
    hide Total, Others;
    assert (a.space, a.partition) in WorldOf(db).partitionLimits && a.space in WorldOf(db).bucketLimits;
  }

  predicate LoadLeq(l: Load, m: Load) {
    l.partitionBytes <= m.partitionBytes && l.partitionCount <= m.partitionCount && l.physical <= m.physical
      && l.bucketBytes <= m.bucketBytes
  }

  lemma LessLoadStillGranted(cfg: Config, pl: PartitionLimits, bl: BucketLimits, space: Space, l: Load, m: Load,
                             bytes: nat)
    requires LoadLeq(l, m) && Refusal(cfg, pl, bl, space, m, bytes).Ok?
    ensures Refusal(cfg, pl, bl, space, l, bytes).Ok?
  {
  }

  /** As far as one bucket is concerned, rows only lost weight. */
  ghost predicate LighterIn(before: map<Id, Asset>, after: map<Id, Asset>, space: Space) {
    && before.Keys <= after.Keys
    && (forall id <- before ::
         before[id].space == after[id].space
         && (after[id].space == space ==> Lighter(before[id], after[id])))
    && (forall id <- after.Keys - before.Keys :: after[id].space != space || Weightless(after[id]))
  }

  lemma NothingAddedIn(before: map<Id, Asset>, after: map<Id, Asset>, m: Measure)
    requires LighterIn(before, after, m.space) && before == map[]
    ensures Total(after, m) == 0
  {
    TotalWithout(after, m, after.Keys);
    assert after - after.Keys == map[];
  }

  lemma {:induction false} TotalDropsIn(before: map<Id, Asset>, after: map<Id, Asset>, m: Measure)
    requires LighterIn(before, after, m.space)
    ensures Total(after, m) <= Total(before, m)
    decreases |before|
  {
    if before == map[] {
      NothingAddedIn(before, after, m);
    } else {
      var id :| id in before;
      TotalSplit(before, m, id);
      TotalSplit(after, m, id);
      if after[id].space == m.space { LighterWeighsLess(before[id], after[id], m); }
      assert Weigh(m, after[id]) <= Weigh(m, before[id]);
      hide Lighter, Weigh, Weightless;
      TotalDropsIn(before - {id}, after - {id}, m);
    }
  }

  lemma LoadDropsIn(before: map<Id, Asset>, after: map<Id, Asset>, space: Space, partition: string, exclude: Option<Id>)
    requires LighterIn(before, after, space)
    ensures LoadLeq(LoadOf(after, space, partition, exclude), LoadOf(before, space, partition, exclude))
  {
    var o, n := Others(before, exclude), Others(after, exclude);
    assert LighterIn(o, n, space);
    TotalDropsIn(before, after, UsedBytes(space, partition));
    TotalDropsIn(before, after, UsedCount(space, partition));
    TotalDropsIn(before, after, BucketUsed(space));
    TotalDropsIn(o, n, PendingBytes(space, partition));
    TotalDropsIn(o, n, PendingCount(space, partition));
    TotalDropsIn(o, n, Physical(space));
    TotalDropsIn(o, n, BucketPending(space));
  }

  // ---------------------------------------------------------------- what a publication does

  lemma NewRowCoherent(tx: Tx)
    requires Ready(tx) && Coherent(Base(tx).value)
    ensures var b := NewRow(tx.job, Base(tx).value);
            Coherent(b) && b.space == Base(tx).value.space && b.partition == Base(tx).value.partition
  {
  }

  lemma BaseCoherent(cfg: Config, db: Db, tx: Tx)
    requires forall id <- db.rows :: Coherent(db.rows[id])
    requires TxRead(db, tx) && Base(tx).Some?
    ensures Coherent(Base(tx).value)
  {
    hide Coherent;
  }

  lemma PublishedRow(cfg: Config, db: Db, t: TxId)
    requires Sound(cfg, db) && t in db.txs && db.txs[t].staged.Some?
    ensures var tx := db.txs[t];
            var b := tx.staged.value.row;
            && Base(tx).Some? && Ready(tx) && b == NewRow(tx.job, Base(tx).value) && Coherent(b)
            && b.space == Base(tx).value.space && b.partition == Base(tx).value.partition
            && (tx.job.id in db.rows ==>
                 db.rows[tx.job.id] == Base(tx).value && !tx.job.Reserve?
                 && AssetRow(tx.job.id) in tx.held)
            && (tx.job.id !in db.rows ==> tx.job.Reserve?)
            && (Counts(tx.job) ==> tx.staged.value == StagedOf(db, tx.job, Base(tx).value)
                                   && PartitionRow(b.space, b.partition) in tx.held && BucketRow(b.space) in tx.held)
            && (Claiming(tx.job) ==> Admitted(cfg, db, tx))
            && Legal(cfg, tx)
  {
    assert TxOk(cfg, db, t);
    var tx := db.txs[t];
    BaseCoherent(cfg, db, tx);
    NewRowCoherent(tx);
    hide Sound, Ready, Legal, NewRow, StagedOf, Coherent, Admitted;
  }

  lemma QuotaSet(pqs: PartitionQuotas, bqs: BucketQuotas, space: Space, partition: string, bytes: int, count: int)
    ensures var pq := PartitionQuotaOf(pqs, space, partition);
            PartitionMoved(pqs, pqs[(space, partition) :=
              pq.(usedBytes := pq.usedBytes + bytes, usedCount := pq.usedCount + count)],
                           space, partition, bytes, count)
    ensures var bq := BucketQuotaOf(bqs, space);
            BucketMoved(bqs, bqs[space := bq.(usedBytes := bq.usedBytes + bytes)], space, bytes)
  {
  }

  /** What the counters of a counting transaction move by. */
  lemma StagedMoves(db: Db, job: Job, a: Asset)
    requires CountersOk(db.rows, db.partitionQuotas, db.bucketQuotas)
    requires Counts(job) && !job.Reserve? && job.id in db.rows && db.rows[job.id] == a
    requires job.Release? ==> a.state.Available?
    requires job.Commit? ==> a.state.Pending?
    requires job.Restore? ==> a.state.Expired? && a.size.Some?
    ensures var s := StagedOf(db, job, a);
            var bytes, count := Bytes(s.row) - Bytes(a), Count(s.row) - Count(a);
            && PartitionMoved(db.partitionQuotas, db.partitionQuotas[(a.space, a.partition) := s.partitionQuota],
                              a.space, a.partition, bytes, count)
            && BucketMoved(db.bucketQuotas, db.bucketQuotas[a.space := s.bucketQuota], a.space, bytes)
  {
    if job.Release? { ReleaseNeverClamps(db.rows, db.partitionQuotas, db.bucketQuotas, job.id); }
    hide CountersOk;
    var s := StagedOf(db, job, a);
    QuotaSet(db.partitionQuotas, db.bucketQuotas, a.space, a.partition, Bytes(s.row) - Bytes(a),
             Count(s.row) - Count(a));
  }

  lemma StagedConserves(db: Db, job: Job, a: Asset)
    requires CountersOk(db.rows, db.partitionQuotas, db.bucketQuotas)
    requires Counts(job) && !job.Reserve? && job.id in db.rows && db.rows[job.id] == a
    requires job.Release? ==> a.state.Available?
    requires job.Commit? ==> a.state.Pending?
    requires job.Restore? ==> a.state.Expired? && a.size.Some?
    ensures var s := StagedOf(db, job, a);
            var pqs, bqs := db.partitionQuotas[(a.space, a.partition) := s.partitionQuota],
              db.bucketQuotas[a.space := s.bucketQuota];
            && CountersOk(db.rows[job.id := s.row], pqs, bqs)
            && PartitionLimitsView(pqs) == PartitionLimitsView(db.partitionQuotas)
            && BucketLimitsView(bqs) == BucketLimitsView(db.bucketQuotas)
  {
    var s := StagedOf(db, job, a);
    var pqs, bqs := db.partitionQuotas[(a.space, a.partition) := s.partitionQuota],
      db.bucketQuotas[a.space := s.bucketQuota];
    StagedMoves(db, job, a);
    assert s.row.space == a.space && s.row.partition == a.partition;
    hide StagedOf, NewRow, Bytes, Count, CountersOk, PartitionMoved, BucketMoved, PartitionLimitsView, BucketLimitsView;
    MovedKeepsLimits(db.partitionQuotas, pqs, db.bucketQuotas, bqs, a.space, a.partition, Bytes(s.row) - Bytes(a),
                     Count(s.row) - Count(a));
    CountersFollow(db.rows, db.partitionQuotas, db.bucketQuotas, pqs, bqs, job.id, s.row);
  }

  /** No update is lost: staged absolute counters are still right when they become visible. */
  lemma PublishConserves(cfg: Config, db: Db, t: TxId)
    requires Sound(cfg, db) && t in db.txs && db.txs[t].staged.Some?
    ensures CountersOk(Published(db, t).rows, Published(db, t).partitionQuotas, Published(db, t).bucketQuotas)
    ensures PartitionLimitsView(Published(db, t).partitionQuotas) == PartitionLimitsView(db.partitionQuotas)
    ensures BucketLimitsView(Published(db, t).bucketQuotas) == BucketLimitsView(db.bucketQuotas)
  {
    PublishedRow(cfg, db, t);
    assert CountersOk(db.rows, db.partitionQuotas, db.bucketQuotas);
    hide Sound, CountersOk, Admitted, PartitionLimitsView, BucketLimitsView, Coherent;
    var tx := db.txs[t];
    var a, b := Base(tx).value, tx.staged.value.row;
    if Counts(tx.job) && !tx.job.Reserve? {
      assert tx.job.Release? ==> a.state.Available?;
      assert tx.job.Commit? ==> a.state.Pending?;
      assert tx.job.Restore? ==> a.state.Expired? && a.size.Some?;
      hide Ready, Legal, NewRow, Base, StagedOf;
      StagedConserves(db, tx.job, a);
    } else {
      assert Bytes(b) == 0 && Count(b) == 0 && !b.state.Available?;
      assert tx.job.id in db.rows ==> Bytes(a) == 0 && Count(a) == 0;
      hide StagedOf, Ready, Legal, NewRow, Bytes, Count, Base;
      CountersStay(db.rows, db.partitionQuotas, db.bucketQuotas, tx.job.id, b);
    }
  }

  /** A claim's new row holds exactly what was admitted. */
  lemma ClaimHolds(cfg: Config, db: Db, tx: Tx)
    requires Claiming(tx.job) && Ready(tx) && (tx.seen.Some? ==> Coherent(tx.seen.value))
    ensures Holds(NewRow(tx.job, Base(tx).value), ClaimedBytes(tx.job, Base(tx).value))
    ensures !tx.job.Reserve? ==> !Base(tx).value.state.Available?
  {
  }

  lemma LeavingIsLighter(tx: Tx)
    requires Ready(tx) && !Claiming(tx.job)
    ensures Lighter(Base(tx).value, NewRow(tx.job, Base(tx).value))
    ensures tx.job.Reserve? ==> Weightless(NewRow(tx.job, Base(tx).value))
  {
  }

  lemma OnlyLighter(rows: map<Id, Asset>, id: Id, b: Asset)
    requires if id in rows then Lighter(rows[id], b) else Weightless(b)
    ensures AllLighter(rows, rows[id := b])
  {
  }

  lemma ClaimStaysUnder(cfg: Config, w: World, after: World, id: Id, b: Asset, bytes: nat, exclude: Option<Id>)
    requires AllUnder(cfg, w) && Holds(b, bytes)
    requires exclude == Some(id) || (exclude == None && id !in w.assets)
    requires id in w.assets ==>
               !w.assets[id].state.Available? && w.assets[id].space == b.space
               && w.assets[id].partition == b.partition
    requires Admission(cfg, w, b.space, b.partition, bytes, exclude).Ok?
    requires after == w.(assets := w.assets[id := b])
    ensures AllUnder(cfg, after)
  {
    hide Level, Occupants, Holds, Refusal, LoadOf;
    forall g: Gauge ensures Under(cfg, after, g) {
      assert Under(cfg, w, g);
      ClaimFits(cfg, w, after, id, b, bytes, exclude, g);
    }
  }

  lemma LossStaysUnder(cfg: Config, w: World, after: World, id: Id, b: Asset)
    requires AllUnder(cfg, w) && if id in w.assets then Lighter(w.assets[id], b) else Weightless(b)
    requires after == w.(assets := w.assets[id := b])
    ensures AllUnder(cfg, after)
  {
    OnlyLighter(w.assets, id, b);
    hide Level, Occupants, Lighter;
    forall g: Gauge ensures Under(cfg, after, g) {
      assert Under(cfg, w, g);
      LevelsDrop(w.assets, after.assets, g);
    }
  }

  /** A claim is published only while it is admitted; any other change only takes weight away. */
  lemma PublishStaysUnder(cfg: Config, db: Db, t: TxId)
    requires Sound(cfg, db) && t in db.txs && db.txs[t].staged.Some?
    requires AllUnder(cfg, WorldOf(db))
    ensures AllUnder(cfg, WorldOf(Published(db, t)))
  {
    PublishedRow(cfg, db, t);
    PublishConserves(cfg, db, t);
    assert db.txs[t].seen.Some? ==> Coherent(db.txs[t].seen.value) by { assert TxOk(cfg, db, t); }
    hide Sound, CountersOk, StagedOf, PartitionLimitsView, BucketLimitsView, AllUnder, Ready, Legal, NewRow, Admission,
      Holds, Lighter,
      Weightless, Coherent;
    var tx := db.txs[t];
    var w, after := WorldOf(db), WorldOf(Published(db, t));
    var a, b := Base(tx).value, tx.staged.value.row;
    assert after == w.(assets := w.assets[tx.job.id := b]);
    hide WorldOf;
    if Claiming(tx.job) {
      ClaimHolds(cfg, db, tx);
      ClaimStaysUnder(cfg, w, after, tx.job.id, b, ClaimedBytes(tx.job, a), Exclude(tx.job));
    } else {
      LeavingIsLighter(tx);
      LossStaysUnder(cfg, w, after, tx.job.id, b);
    }
  }

  lemma HeldIsOwn(db: Db, t: TxId, u: TxId, l: LockName)
    requires LocksOk(db) && t in db.txs && u in db.txs && l in db.txs[t].held && l in db.txs[u].held
    ensures t == u
  {
  }

  lemma LighterUpdate(rows: map<Id, Asset>, id: Id, b: Asset, space: Space)
    requires id in rows ==> rows[id].space == b.space && (b.space == space ==> Lighter(rows[id], b))
    requires id !in rows ==> b.space != space || Weightless(b)
    ensures LighterIn(rows, rows[id := b], space)
  {
  }

  /** Seen from a transaction that holds a bucket row, another's publication leaves that bucket as
      it was or lighter. */
  lemma OthersPublishLighter(cfg: Config, db: Db, t: TxId, u: TxId, space: Space)
    requires Sound(cfg, db) && t in db.txs && u in db.txs && t != u && db.txs[u].staged.Some?
    requires BucketRow(space) in db.txs[t].held
    ensures LighterIn(db.rows, Published(db, u).rows, space)
    ensures Counts(db.txs[u].job) ==> db.txs[u].staged.value.row.space != space
  {
    PublishedRow(cfg, db, u);
    var ux := db.txs[u];
    assert LocksOk(db);
    hide Sound, LocksOk, StagedOf, NewRow, Ready, Legal, Admitted, Lighter, Weightless, LighterIn, Coherent;
    if Counts(ux.job) && ux.staged.value.row.space == space { HeldIsOwn(db, t, u, BucketRow(space)); }
    if !Claiming(ux.job) { LeavingIsLighter(ux); }
    LighterUpdate(db.rows, ux.job.id, ux.staged.value.row, space);
  }

  lemma OtherReadAfterPublish(cfg: Config, db: Db, u: TxId, t: TxId)
    requires Sound(cfg, db) && t in db.txs && u in db.txs && t != u && db.txs[u].staged.Some?
    ensures TxRead(Published(db, u), db.txs[t])
  {
    PublishedRow(cfg, db, u);
    assert TxOk(cfg, db, t) && LocksOk(db) && ReservesDiffer(db.txs);
    hide Sound, LocksOk, Ready, Legal, NewRow, StagedOf, NextLock, Admitted, Coherent;
    var tx, ux := db.txs[t], db.txs[u];
    if tx.seen.Some? && tx.job.id == ux.job.id { HeldIsOwn(db, t, u, AssetRow(tx.job.id)); }
  }

  lemma AdmittedStays(cfg: Config, db: Db, after: Db, tx: Tx)
    requires Admitted(cfg, db, tx) && LighterIn(db.rows, after.rows, Base(tx).value.space)
    requires PartitionLimitsView(after.partitionQuotas) == PartitionLimitsView(db.partitionQuotas)
    requires BucketLimitsView(after.bucketQuotas) == BucketLimitsView(db.bucketQuotas)
    ensures Admitted(cfg, after, tx)
  {
    var a := Base(tx).value;
    LoadDropsIn(db.rows, after.rows, a.space, a.partition, Exclude(tx.job));
    hide LighterIn, LoadOf, Refusal, PartitionLimitsView, BucketLimitsView, ClaimedBytes;
    LessLoadStillGranted(cfg, LimitsOf(WorldOf(db).partitionLimits, a.space, a.partition),
                         BucketLimitsOf(WorldOf(db).bucketLimits, a.space),
                         a.space, LoadOf(after.rows, a.space, a.partition, Exclude(tx.job)),
                         LoadOf(db.rows, a.space, a.partition, Exclude(tx.job)), ClaimedBytes(tx.job, a));
  }

  /** A transaction about to publish, or past its last lock, holds its bucket row. */
  lemma HoldsBucket(tx: Tx)
    requires Counts(tx.job) && Ready(tx) && NextLock(tx).None?
    ensures BucketRow(Base(tx).value.space) in tx.held
  {
  }

  lemma OtherDecidedAfterPublish(cfg: Config, db: Db, u: TxId, t: TxId)
    requires Sound(cfg, db) && t in db.txs && u in db.txs && t != u && db.txs[u].staged.Some?
    ensures TxDecided(cfg, Published(db, u), db.txs[t])
  {
    assert TxOk(cfg, db, t);
    PublishConserves(cfg, db, u);
    var tx := db.txs[t];
    hide Sound, CountersOk, PartitionLimitsView, BucketLimitsView, Ready, Legal, NextLock, TxRead, TxStaged, TxLocks,
      LighterIn;
    if tx.decided {
      HoldsBucket(tx);
      OthersPublishLighter(cfg, db, t, u, Base(tx).value.space);
      AdmittedStays(cfg, db, Published(db, u), tx);
    }
  }

  lemma SameQuotas(db: Db, after: Db, job: Job, a: Asset)
    requires PartitionQuotaOf(db.partitionQuotas, a.space, a.partition)
             == PartitionQuotaOf(after.partitionQuotas, a.space, a.partition)
    requires BucketQuotaOf(db.bucketQuotas, a.space) == BucketQuotaOf(after.bucketQuotas, a.space)
    ensures StagedOf(db, job, a) == StagedOf(after, job, a)
  {
  }

  /** Counter rows of another bucket are not touched. */
  lemma OtherQuotasUntouched(db: Db, u: TxId, a: Asset)
    requires u in db.txs && db.txs[u].staged.Some?
    requires Counts(db.txs[u].job) ==> db.txs[u].staged.value.row.space != a.space
    ensures PartitionQuotaOf(db.partitionQuotas, a.space, a.partition)
            == PartitionQuotaOf(Published(db, u).partitionQuotas, a.space, a.partition)
    ensures BucketQuotaOf(db.bucketQuotas, a.space) == BucketQuotaOf(Published(db, u).bucketQuotas, a.space)
  {
  }

  lemma OtherStagedAfterPublish(cfg: Config, db: Db, u: TxId, t: TxId)
    requires Sound(cfg, db) && t in db.txs && u in db.txs && t != u && db.txs[u].staged.Some?
    ensures TxStaged(cfg, Published(db, u), db.txs[t])
  {
    assert TxOk(cfg, db, t);
    var tx := db.txs[t];
    hide Sound, LighterIn, Ready, Legal, NextLock, StagedOf, NewRow, TxRead, TxLocks, TxDecided;
    if tx.staged.Some? && Counts(tx.job) {
      HoldsBucket(tx);
      OthersPublishLighter(cfg, db, t, u, Base(tx).value.space);
      OtherQuotasUntouched(db, u, Base(tx).value);
      hide Published, Counts;
      SameQuotas(db, Published(db, u), tx.job, Base(tx).value);
    }
  }

  lemma OtherTxAfterPublish(cfg: Config, db: Db, u: TxId, t: TxId)
    requires Sound(cfg, db) && t in db.txs && u in db.txs && t != u && db.txs[u].staged.Some?
    ensures TxOk(cfg, Published(db, u), t)
  {
    OtherReadAfterPublish(cfg, db, u, t);
    OtherDecidedAfterPublish(cfg, db, u, t);
    OtherStagedAfterPublish(cfg, db, u, t);
    assert TxLocks(db.txs[t]) by { assert TxOk(cfg, db, t); }
    hide Sound, TxRead, TxLocks, TxDecided, TxStaged;
  }

  // ---------------------------------------------------------------- steps keep the invariant

  lemma SoundMeans(cfg: Config, db: Db)
    requires Sound(cfg, db)
    ensures forall id <- db.rows :: Coherent(db.rows[id])
    ensures CountersOk(db.rows, db.partitionQuotas, db.bucketQuotas) && LocksOk(db) && ReservesDiffer(db.txs)
    ensures forall t <- db.txs :: TxOk(cfg, db, t)
  {
  }

  lemma SoundFrom(cfg: Config, db: Db)
    requires forall id <- db.rows :: Coherent(db.rows[id])
    requires CountersOk(db.rows, db.partitionQuotas, db.bucketQuotas) && LocksOk(db) && ReservesDiffer(db.txs)
    requires forall t <- db.txs :: TxOk(cfg, db, t)
    ensures Sound(cfg, db)
  {
  }

  lemma PublishKeeps(cfg: Config, db: Db, u: TxId)
    requires Sound(cfg, db) && u in db.txs && db.txs[u].staged.Some?
    ensures Sound(cfg, Published(db, u))
  {
    var after := Published(db, u);
    assert (forall id <- db.rows :: Coherent(db.rows[id])) && LocksOk(db) && ReservesDiffer(db.txs);
    hide Sound, TxHolds, StagedOf, NewRow, Ready, Legal, Admitted, CountersOk, LocksOk, Coherent, Base;
    PublishedRow(cfg, db, u);
    PublishConserves(cfg, db, u);
    forall t <- after.txs ensures TxOk(cfg, after, t) {
      OtherTxAfterPublish(cfg, db, u, t);
    }
    ReleaseKeepsLocks(db, u);
    assert LocksOk(after);
    SoundFrom(cfg, after);
  }

  lemma ReleaseKeepsLocks(db: Db, u: TxId)
    requires LocksOk(db) && u in db.txs
    ensures forall after: Db :: after.holder == Released(db.holder, u) && after.txs == db.txs - {u} ==> LocksOk(after)
  {
  }

  ghost predicate SameTables(db: Db, after: Db) {
    after.rows == db.rows && after.partitionQuotas == db.partitionQuotas && after.bucketQuotas == db.bucketQuotas
  }

  /** What a transaction relies on is in the tables alone. */
  lemma SameTx(cfg: Config, db: Db, after: Db, tx: Tx)
    requires SameTables(db, after) && TxHolds(cfg, db, tx)
    ensures TxHolds(cfg, after, tx)
  {
    assert WorldOf(after) == WorldOf(db);
    hide WorldOf, Base, Ready, Legal, NextLock, Admission, TxLocks, NewRow, ClaimedBytes, Claiming, Counts;
    forall a: Asset ensures StagedOf(after, tx.job, a) == StagedOf(db, tx.job, a) {}
    hide StagedOf;
  }

  lemma AbortKeeps(cfg: Config, db: Db, u: TxId)
    requires Sound(cfg, db) && u in db.txs
    ensures Sound(cfg, Effect(cfg, db, Abort(u)))
  {
    hide Sound, TxHolds, LocksOk, CountersOk, Coherent, NextLock, Ready, Legal;
    SoundMeans(cfg, db);
    var after := Effect(cfg, db, Abort(u));
    assert after == db.(holder := Released(db.holder, u), txs := db.txs - {u});
    hide Effect, Enabled;
    ReleaseKeepsLocks(db, u);
    assert LocksOk(after);
    forall t <- after.txs ensures TxOk(cfg, after, t) {
      assert TxOk(cfg, db, t);
      SameTx(cfg, db, after, db.txs[t]);
    }
    SoundFrom(cfg, after);
  }

  lemma AcquiredHolds(cfg: Config, db: Db, tx: Tx)
    requires TxHolds(cfg, db, tx) && NextLock(tx).Some?
    ensures TxHolds(cfg, db, AcquiredTx(db, tx))
  {
    hide Admitted, StagedOf, NewRow, Coherent;
  }

  lemma AcquiredTxOk(cfg: Config, db: Db, t: TxId)
    requires Sound(cfg, db) && Enabled(cfg, db, Acquire(t))
    ensures TxOk(cfg, Effect(cfg, db, Acquire(t)), t)
  {
    assert TxOk(cfg, db, t);
    AcquiredHolds(cfg, db, db.txs[t]);
    hide Sound, TxHolds, NextLock;
    SameTx(cfg, db, Effect(cfg, db, Acquire(t)), AcquiredTx(db, db.txs[t]));
  }

  lemma AcquireKeepsLocks(cfg: Config, db: Db, t: TxId)
    requires LocksOk(db) && Enabled(cfg, db, Acquire(t))
    ensures LocksOk(Effect(cfg, db, Acquire(t)))
  {
  }

  lemma AcquireKeeps(cfg: Config, db: Db, u: TxId)
    requires Sound(cfg, db) && Enabled(cfg, db, Acquire(u))
    ensures Sound(cfg, Effect(cfg, db, Acquire(u)))
  {
    var after := Effect(cfg, db, Acquire(u));
    AcquiredTxOk(cfg, db, u);
    AcquireKeepsLocks(cfg, db, u);
    assert ReservesDiffer(after.txs) by { assert ReservesDiffer(db.txs); hide Sound, TxOk; }
    hide TxHolds;
    forall t <- after.txs ensures TxOk(cfg, after, t) {
      if t != u {
        assert TxOk(cfg, db, t);
        SameTx(cfg, db, after, db.txs[t]);
      }
    }
    hide LocksOk, NextLock;
    SoundParts(cfg, db, after);
  }

  lemma BegunTxOk(cfg: Config, db: Db, t: TxId, job: Job)
    requires Sound(cfg, db) && Enabled(cfg, db, Begin(t, job))
    ensures TxOk(cfg, Effect(cfg, db, Begin(t, job)), t)
  {
    hide Sound;
  }

  lemma SameProgram(tx: Tx, later: Tx)
    requires tx.job == later.job && tx.held == later.held && tx.seen == later.seen
    ensures Base(later) == Base(tx) && NextLock(later) == NextLock(tx) && Ready(later) == Ready(tx)
    ensures forall cfg: Config :: Legal(cfg, later) == Legal(cfg, tx)
  {
  }

  lemma DecidedHolds(cfg: Config, db: Db, tx: Tx)
    requires TxHolds(cfg, db, tx)
    requires Claiming(tx.job) && Ready(tx) && NextLock(tx).None? && Admitted(cfg, db, tx)
    ensures TxHolds(cfg, db, tx.(decided := true))
  {
    SameProgram(tx, tx.(decided := true));
    hide WorldOf, Admission, Base, Ready, Legal, NextLock, NewRow, ClaimedBytes, StagedOf;
  }

  lemma StagedHolds(cfg: Config, db: Db, tx: Tx)
    requires TxHolds(cfg, db, tx)
    requires Ready(tx) && Legal(cfg, tx) && NextLock(tx).None? && (Claiming(tx.job) ==> tx.decided)
    ensures TxHolds(cfg, db, tx.(staged := Some(StagedOf(db, tx.job, Base(tx).value))))
  {
    var s := StagedOf(db, tx.job, Base(tx).value);
    assert s.row == NewRow(tx.job, Base(tx).value);
    SameProgram(tx, tx.(staged := Some(s)));
    hide WorldOf, Admission, Base, Ready, Legal, NextLock, NewRow, ClaimedBytes, StagedOf;
  }

  lemma DecidedTxOk(cfg: Config, db: Db, t: TxId)
    requires Sound(cfg, db) && Enabled(cfg, db, Decide(t))
    ensures TxOk(cfg, Effect(cfg, db, Decide(t)), t)
  {
    SoundMeans(cfg, db);
    hide Sound, TxHolds, CountersOk, LocksOk, Coherent, ReservesDiffer, Admitted;
    assert TxOk(cfg, db, t);
    GrantIsAdmission(cfg, db, db.txs[t]);
    DecidedHolds(cfg, db, db.txs[t]);
    var later, after := db.txs[t].(decided := true), Effect(cfg, db, Decide(t));
    assert after == db.(txs := db.txs[t := later]);
    hide Effect, Enabled, Granted, Ready, Legal, NextLock, Base;
    SameTx(cfg, db, after, later);
  }

  lemma StagedTxOk(cfg: Config, db: Db, t: TxId)
    requires Sound(cfg, db) && Enabled(cfg, db, Stage(t))
    ensures TxOk(cfg, Effect(cfg, db, Stage(t)), t)
  {
    assert TxOk(cfg, db, t);
    var tx := db.txs[t];
    hide Sound, TxHolds, StagedOf;
    StagedHolds(cfg, db, tx);
    var later := tx.(staged := Some(StagedOf(db, tx.job, Base(tx).value)));
    var after := Effect(cfg, db, Stage(t));
    assert after == db.(txs := db.txs[t := later]);
    hide Effect, Enabled, Ready, Legal, NextLock, Base;
    SameTx(cfg, db, after, later);
  }

  lemma LocalKeeps(cfg: Config, db: Db, step: Step)
    requires Sound(cfg, db) && Enabled(cfg, db, step) && (step.Begin? || step.Decide? || step.Stage?)
    ensures Sound(cfg, Effect(cfg, db, step))
  {
    var after := Effect(cfg, db, step);
    hide Sound, TxOk, Ready, Legal, NextLock, Granted, StagedOf, FreshId, Base;
    LocalEffect(cfg, db, step);
    match step {
      case Begin(t, job) => BegunTxOk(cfg, db, t, job);
      case Decide(t) => DecidedTxOk(cfg, db, t);
      case Stage(t) => StagedTxOk(cfg, db, t);
    }
    hide Effect, Enabled;
    forall t <- after.txs ensures TxOk(cfg, after, t) {
      if t != step.t {
        assert TxOk(cfg, db, t) by { ThatTxOk(cfg, db, t); }
        SameTx(cfg, db, after, db.txs[t]);
      }
    }
    LocalKeepsLocks(cfg, db, step);
    DistinctReserves(cfg, db, step);
    SoundParts(cfg, db, after);
  }

  lemma LocalEffect(cfg: Config, db: Db, step: Step)
    requires Enabled(cfg, db, step) && (step.Begin? || step.Decide? || step.Stage?)
    ensures var after := Effect(cfg, db, step);
            SameTables(db, after) && forall t <- after.txs :: t != step.t ==> t in db.txs && after.txs[t] == db.txs[t]
  {
    hide Ready, Legal, NextLock, Granted, StagedOf, FreshId, Base;
  }

  lemma ThatTxOk(cfg: Config, db: Db, t: TxId)
    requires Sound(cfg, db) && t in db.txs
    ensures TxOk(cfg, db, t)
  {
    hide CountersOk, LocksOk, TxOk, Coherent;
  }

  lemma DistinctReserves(cfg: Config, db: Db, step: Step)
    requires Sound(cfg, db) && Enabled(cfg, db, step) && (step.Begin? || step.Decide? || step.Stage?)
    ensures ReservesDiffer(Effect(cfg, db, step).txs)
  {
    assert ReservesDiffer(db.txs);
    hide Sound, Ready, Legal, NextLock, Granted, StagedOf, Base, NewRow;
  }

  lemma LocalKeepsLocks(cfg: Config, db: Db, step: Step)
    requires Sound(cfg, db) && Enabled(cfg, db, step) && (step.Begin? || step.Decide? || step.Stage?)
    ensures LocksOk(Effect(cfg, db, step))
  {
    assert LocksOk(db);
    hide Sound, Ready, Legal, NextLock, Granted, StagedOf, Base, NewRow, FreshId, Claiming, Counts, LocksOk;
    SameLocks(db, Effect(cfg, db, step));
  }

  lemma SameLocks(db: Db, after: Db)
    requires LocksOk(db) && after.holder == db.holder && db.txs.Keys <= after.txs.Keys
    requires forall t <- after.txs :: if t in db.txs then after.txs[t].held == db.txs[t].held
             else after.txs[t].held == {}
    ensures LocksOk(after)
  {
  }

  lemma SoundParts(cfg: Config, db: Db, after: Db)
    requires Sound(cfg, db) && after.rows == db.rows && after.partitionQuotas == db.partitionQuotas
             && after.bucketQuotas == db.bucketQuotas
    requires LocksOk(after) && ReservesDiffer(after.txs)
    requires forall t <- after.txs :: TxOk(cfg, after, t)
    ensures Sound(cfg, after)
  {
    hide CountersOk, LocksOk, TxOk, Coherent;
  }

  // ---------------------------------------------------------------- changing limits

  lemma LimitedKeepsCounters(db: Db, step: Step)
    requires SetsLimits(step) && CountersOk(db.rows, db.partitionQuotas, db.bucketQuotas)
    ensures CountersOk(Limited(db, step).rows, Limited(db, step).partitionQuotas, Limited(db, step).bucketQuotas)
  {
    match step
    case SetPartition(space, partition, limits) =>
      PartitionLimitsSet(db.rows, db.partitionQuotas, space, partition, limits);
    case SetBucket(space, limits) => BucketLimitsSet(db.rows, db.bucketQuotas, space, limits);
  }

  /** A transaction past its last lock holds both of its counter rows. */
  lemma HoldsCounters(tx: Tx)
    requires Counts(tx.job) && Ready(tx) && NextLock(tx).None?
    ensures var a := Base(tx).value; PartitionRow(a.space, a.partition) in tx.held && BucketRow(a.space) in tx.held
  {
  }

  /** Limits change only while nobody holds the row, so never under a decision. */
  lemma OwnRowsUntouched(cfg: Config, db: Db, step: Step, t: TxId)
    requires LocksOk(db) && SetsLimits(step) && Enabled(cfg, db, step) && t in db.txs
    requires Counts(db.txs[t].job) && Ready(db.txs[t]) && NextLock(db.txs[t]).None?
    ensures var a, after := Base(db.txs[t]).value, Limited(db, step);
            && PartitionQuotaOf(after.partitionQuotas, a.space, a.partition)
               == PartitionQuotaOf(db.partitionQuotas, a.space, a.partition)
            && BucketQuotaOf(after.bucketQuotas, a.space) == BucketQuotaOf(db.bucketQuotas, a.space)
  {
    HoldsCounters(db.txs[t]);
    hide Ready, Legal, NextLock, Base;
  }

  lemma AdmittedUnderSameRows(cfg: Config, db: Db, after: Db, tx: Tx)
    requires Admitted(cfg, db, tx) && after.rows == db.rows
    requires var a := Base(tx).value;
             && PartitionQuotaOf(after.partitionQuotas, a.space, a.partition)
                == PartitionQuotaOf(db.partitionQuotas, a.space, a.partition)
             && BucketQuotaOf(after.bucketQuotas, a.space) == BucketQuotaOf(db.bucketQuotas, a.space)
    ensures Admitted(cfg, after, tx)
  {
    var a := Base(tx).value;
    assert (a.space, a.partition) in WorldOf(db).partitionLimits && a.space in WorldOf(db).bucketLimits;
    assert (a.space, a.partition) in WorldOf(after).partitionLimits && a.space in WorldOf(after).bucketLimits;
    hide Base, LoadOf, Refusal, ClaimedBytes;
  }

  lemma TxAfterLimits(cfg: Config, db: Db, step: Step, t: TxId)
    requires LocksOk(db) && SetsLimits(step) && Enabled(cfg, db, step) && t in db.txs && TxHolds(cfg, db, db.txs[t])
    ensures TxHolds(cfg, Limited(db, step), db.txs[t])
  {
    var tx, after := db.txs[t], Limited(db, step);
    hide LocksOk, Admitted, StagedOf, Ready, Legal, NextLock, Base, NewRow, TxLocks;
    if tx.decided || (tx.staged.Some? && Counts(tx.job)) {
      OwnRowsUntouched(cfg, db, step, t);
      hide Enabled;
      if tx.decided { AdmittedUnderSameRows(cfg, db, after, tx); }
      if tx.staged.Some? { SameQuotas(db, after, tx.job, Base(tx).value); }
    }
  }

  lemma LimitsKeep(cfg: Config, db: Db, step: Step)
    requires Sound(cfg, db) && SetsLimits(step) && Enabled(cfg, db, step)
    ensures Sound(cfg, Limited(db, step))
  {
    var after := Limited(db, step);
    hide Sound, TxHolds, CountersOk, LocksOk, Coherent, Enabled;
    SoundMeans(cfg, db);
    LimitedKeepsCounters(db, step);
    SameLocks(db, after);
    forall t <- after.txs ensures TxOk(cfg, after, t) {
      assert TxOk(cfg, db, t);
      TxAfterLimits(cfg, db, step, t);
    }
    SoundFrom(cfg, after);
  }

  // ---------------------------------------------------------------- all interleavings

  /** Every step keeps conservation and locking order. Ceilings hold through every step but a change of limits,
      which may put one below what is already in use. */
  lemma NextKeeps(cfg: Config, db: Db, step: Step)
    requires Sound(cfg, db)
    ensures Sound(cfg, Next(cfg, db, step))
    ensures AllUnder(cfg, WorldOf(db)) && !SetsLimits(step) ==> AllUnder(cfg, WorldOf(Next(cfg, db, step)))
  {
    hide Sound, AllUnder;
    if Enabled(cfg, db, step) {
      match step
      case Publish(t) =>
        PublishKeeps(cfg, db, t);
        if AllUnder(cfg, WorldOf(db)) { PublishStaysUnder(cfg, db, t); }
      case Abort(t) =>
        AbortKeeps(cfg, db, t);
        assert WorldOf(Next(cfg, db, step)) == WorldOf(db);
      case Acquire(t) =>
        AcquireKeeps(cfg, db, t);
        assert WorldOf(Next(cfg, db, step)) == WorldOf(db);
      case SetPartition(_, _, _) => LimitsKeep(cfg, db, step);
      case SetBucket(_, _) => LimitsKeep(cfg, db, step);
      case _ =>
        LocalKeeps(cfg, db, step);
        assert WorldOf(Next(cfg, db, step)) == WorldOf(db);
    }
  }

  ghost function After(cfg: Config, db: Db, steps: seq<Step>, i: nat): Db
    requires i <= |steps|
  {
    if i == 0 then db else Next(cfg, After(cfg, db, steps, i - 1), steps[i - 1])
  }

  /** Limit rows at will, and no assets yet. */
  predicate Unused(db: Db) {
    && db.rows == map[] && db.holder == map[] && db.txs == map[]
    && (forall k <- db.partitionQuotas :: db.partitionQuotas[k].usedBytes == 0 && db.partitionQuotas[k].usedCount == 0)
    && (forall s <- db.bucketQuotas :: db.bucketQuotas[s].usedBytes == 0)
  }

  lemma UnusedIsSound(cfg: Config, db: Db)
    requires Unused(db)
    ensures Sound(cfg, db) && AllUnder(cfg, WorldOf(db))
  {
    assert forall m: Measure :: Total(map[], m) == 0;
  }

  /** Under every interleaving of claims, releases and changes of limits, counters equal the sums over committed
      rows and locks are in order. */
  lemma {:induction false} CountersHoldConcurrently(cfg: Config, db: Db, steps: seq<Step>, i: nat)
    requires i <= |steps| && Sound(cfg, db)
    ensures Sound(cfg, After(cfg, db, steps, i))
  {
    hide Sound;
    if i > 0 {
      CountersHoldConcurrently(cfg, db, steps, i - 1);
      NextKeeps(cfg, After(cfg, db, steps, i - 1), steps[i - 1]);
    }
  }

  /** From any moment at which every gauge is under its ceiling, all stay there for as long as limits are left
      alone, whatever was under way at that moment. */
  lemma {:induction false} CeilingsHoldConcurrently(cfg: Config, db: Db, steps: seq<Step>, i: nat, j: nat)
    requires i <= j <= |steps| && Sound(cfg, db) && AllUnder(cfg, WorldOf(After(cfg, db, steps, i)))
    requires forall k | i <= k < j :: !SetsLimits(steps[k])
    ensures AllUnder(cfg, WorldOf(After(cfg, db, steps, j)))
  {
    hide Sound, AllUnder;
    if i < j {
      CeilingsHoldConcurrently(cfg, db, steps, i, j - 1);
      CountersHoldConcurrently(cfg, db, steps, j - 1);
      NextKeeps(cfg, After(cfg, db, steps, j - 1), steps[j - 1]);
    }
  }

  /** Even among changes of limits no publication overbooks: each gauge is afterwards below its ceiling of that
      moment, or no fuller than before. */
  lemma PublishNeverOverbooks(cfg: Config, db: Db, t: TxId, g: Gauge)
    requires Sound(cfg, db) && t in db.txs && db.txs[t].staged.Some?
    ensures var before, after := WorldOf(db), WorldOf(Published(db, t));
            Fits(cfg, after, g, Level(after.assets, g))
            || (Level(after.assets, g) <= Level(before.assets, g)
               && Occupants(after.assets, g) <= Occupants(before.assets, g))
  {
    PublishedRow(cfg, db, t);
    PublishConserves(cfg, db, t);
    var tx := db.txs[t];
    assert tx.seen.Some? ==> Coherent(tx.seen.value) by { assert TxOk(cfg, db, t); }
    hide Sound, CountersOk, StagedOf, PartitionLimitsView, BucketLimitsView, Ready, Legal, NewRow, Admission, Holds,
      Lighter,
      Weightless, Coherent, Level, Occupants, Fits;
    var w, after := WorldOf(db), WorldOf(Published(db, t));
    var a, b := Base(tx).value, tx.staged.value.row;
    assert after == w.(assets := w.assets[tx.job.id := b]);
    hide WorldOf;
    if Claiming(tx.job) {
      ClaimHolds(cfg, db, tx);
      ClaimFits(cfg, w, after, tx.job.id, b, ClaimedBytes(tx.job, a), Exclude(tx.job), g);
    } else {
      LeavingIsLighter(tx);
      OnlyLighter(w.assets, tx.job.id, b);
      LevelsDrop(w.assets, after.assets, g);
    }
  }

  // ---------------------------------------------------------------- no deadlock

  /** `t` wants a row that `u` has locked. */
  ghost predicate WaitsFor(db: Db, t: TxId, u: TxId) {
    && t in db.txs && u in db.txs
    && NextLock(db.txs[t]).Some? && NextLock(db.txs[t]).value in db.txs[u].held
  }

  ghost predicate WaitChain(db: Db, chain: seq<TxId>) {
    forall i | 0 <= i < |chain| - 1 :: WaitsFor(db, chain[i], chain[i + 1])
  }

  lemma {:induction false} RanksClimb(cfg: Config, db: Db, chain: seq<TxId>, i: nat)
    requires Sound(cfg, db) && WaitChain(db, chain) && 0 < i < |chain|
    requires chain[i] in db.txs && NextLock(db.txs[chain[i]]).Some?
    ensures WaitsFor(db, chain[0], chain[1])
    ensures Rank(NextLock(db.txs[chain[0]]).value) < Rank(NextLock(db.txs[chain[i]]).value)
  {
    assert WaitsFor(db, chain[i - 1], chain[i]);
    assert TxOk(cfg, db, chain[i]);
    if i > 1 { RanksClimb(cfg, db, chain, i - 1); }
  }

  /** No set of transactions ever waits in a circle. */
  lemma NoDeadlock(cfg: Config, db: Db, chain: seq<TxId>)
    requires Sound(cfg, db) && |chain| >= 2 && WaitChain(db, chain)
    ensures chain[0] != chain[|chain| - 1]
  {
    if chain[0] == chain[|chain| - 1] {
      assert WaitsFor(db, chain[0], chain[1]);
      RanksClimb(cfg, db, chain, |chain| - 1);
    }
  }
}
