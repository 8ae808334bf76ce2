/** What a transaction that finds its rows free comes to: every job the registry allows can be carried through, and
    then its row is rewritten, its counters have moved by its bytes, and all else is as it was. */
module QuotaProgress {
  import opened Model
  import opened RegistrySpec
  import opened RegistryCopies
  import opened RegistryFigures
  import opened RegistryEffects
  import opened QuotaLocks

  // ---------------------------------------------------------------- appending a step

  lemma {:induction false} AfterPrefix(cfg: Config, db: Db, steps: seq<QuotaLocks.Step>, step: QuotaLocks.Step, i: nat)
    requires i <= |steps|
    ensures After(cfg, db, steps + [step], i) == After(cfg, db, steps, i)
  {
    if i > 0 { AfterPrefix(cfg, db, steps, step, i - 1); }
  }

  /** One step more. */
  lemma AfterMore(cfg: Config, db: Db, steps: seq<QuotaLocks.Step>, step: QuotaLocks.Step)
    ensures After(cfg, db, steps + [step], |steps| + 1) == Next(cfg, After(cfg, db, steps, |steps|), step)
  {
    AfterPrefix(cfg, db, steps, step, |steps|);
  }

  // ---------------------------------------------------------------- one transaction at work

  /** The rows a job locks, in this order: its asset, its partition's counters, its bucket's. */
  function Locks(job: Job, a: Asset): seq<LockName> {
    var asset := if job.Reserve? then [] else [AssetRow(job.id)];
    asset + if Counts(job) then [PartitionRow(a.space, a.partition), BucketRow(a.space)] else []
  }

  function HeldFirst(job: Job, a: Asset, k: nat): set<LockName>
    requires k <= |Locks(job, a)|
  {
    set i | 0 <= i < k :: Locks(job, a)[i]
  }

  /** The transaction once it holds its first `k` rows. */
  function TxAt(job: Job, a: Asset, k: nat): Tx
    requires k <= |Locks(job, a)|
  {
    Tx(job, HeldFirst(job, a, k), if job.Reserve? || k == 0 then None else Some(a), false, None)
  }

  function DbAt(db: Db, t: TxId, tx: Tx): Db {
    db.(holder := map l | l in db.holder.Keys + tx.held :: if l in tx.held then t else db.holder[l],
        txs := db.txs[t := tx])
  }

  lemma NextLockIs(job: Job, a: Asset, k: nat)
    requires k <= |Locks(job, a)| && (job.Reserve? ==> job.row == a)
    ensures NextLock(TxAt(job, a, k)) == if k < |Locks(job, a)| then Some(Locks(job, a)[k]) else None
  {
    var tx := TxAt(job, a, k);
    var p, b := PartitionRow(a.space, a.partition), BucketRow(a.space);
    var locks := Locks(job, a);
    var o := if job.Reserve? then 0 else 1;
    assert Counts(job) ==> |locks| == o + 2 && locks[o] == p && locks[o + 1] == b;
    assert Counts(job) ==> (p in tx.held <==> o < k) && (b in tx.held <==> o + 1 < k);
  }

  lemma HeldOneMore(job: Job, a: Asset, k: nat)
    requires k < |Locks(job, a)|
    ensures HeldFirst(job, a, k + 1) == HeldFirst(job, a, k) + {Locks(job, a)[k]}
  {
  }

  /** The job's own row: the one to be reserved, or the committed one. */
  ghost predicate StartsFrom(db: Db, job: Job, a: Asset) {
    if job.Reserve? then a == job.row && FreshId(db, job.id) else job.id in db.rows && a == db.rows[job.id]
  }

  ghost predicate LocksFree(db: Db, job: Job, a: Asset) {
    forall i | 0 <= i < |Locks(job, a)| :: Locks(job, a)[i] !in db.holder
  }

  lemma AcquiredIs(db: Db, t: TxId, job: Job, a: Asset, k: nat)
    requires StartsFrom(db, job, a) && k < |Locks(job, a)| && NextLock(TxAt(job, a, k)) == Some(Locks(job, a)[k])
    ensures AcquiredTx(DbAt(db, t, TxAt(job, a, k)), TxAt(job, a, k)) == TxAt(job, a, k + 1)
  {
    HeldOneMore(job, a, k);
    hide NextLock, FreshId, HeldFirst;
  }

  lemma BeginWorks(cfg: Config, db: Db, t: TxId, job: Job, a: Asset)
    requires t !in db.txs && StartsFrom(db, job, a) && (job.Reserve? ==> Ready(Tx(job, {}, None, false, None)))
    ensures After(cfg, db, [Begin(t, job)], 1) == DbAt(db, t, TxAt(job, a, 0))
  {
    hide Ready, Locks, FreshId;
    assert HeldFirst(job, a, 0) == {};
    assert DbAt(db, t, TxAt(job, a, 0)).holder == db.holder;
    assert After(cfg, db, [Begin(t, job)], 0) == db;
  }

  lemma AcquireNext(cfg: Config, db: Db, t: TxId, job: Job, a: Asset, k: nat)
    requires StartsFrom(db, job, a) && LocksFree(db, job, a) && k < |Locks(job, a)|
    ensures Next(cfg, DbAt(db, t, TxAt(job, a, k)), Acquire(t)) == DbAt(db, t, TxAt(job, a, k + 1))
  {
    hide FreshId, Counts, HeldFirst;
    var l := Locks(job, a)[k];
    NextLockIs(job, a, k);
    HeldOneMore(job, a, k);
    AcquiredIs(db, t, job, a, k);
    NotYetHeld(job, a, k);
    hide NextLock, AcquiredTx, Locks;
    LockTaken(db, t, TxAt(job, a, k), TxAt(job, a, k + 1), l);
    hide DbAt;
    AcquireStep(cfg, DbAt(db, t, TxAt(job, a, k)), t);
  }

  lemma AcquireStep(cfg: Config, db: Db, t: TxId)
    requires t in db.txs && NextLock(db.txs[t]).Some? && NextLock(db.txs[t]).value !in db.holder
    ensures Next(cfg, db, Acquire(t))
         == db.(holder := db.holder[NextLock(db.txs[t]).value := t], txs := db.txs[t := AcquiredTx(db, db.txs[t])])
  {
    hide NextLock, AcquiredTx;
  }

  lemma NotYetHeld(job: Job, a: Asset, k: nat)
    requires k < |Locks(job, a)|
    ensures Locks(job, a)[k] !in HeldFirst(job, a, k)
  {
  }

  lemma LockTaken(db: Db, t: TxId, tx: Tx, later: Tx, l: LockName)
    requires later.held == tx.held + {l} && l !in tx.held && l !in db.holder
    ensures var before := DbAt(db, t, tx);
            l !in before.holder && t in before.txs && before.txs[t] == tx
            && before.(holder := before.holder[l := t], txs := before.txs[t := later]) == DbAt(db, t, later)
  {
    assert DbAt(db, t, tx).holder[l := t] == DbAt(db, t, later).holder;
  }

  lemma {:induction false} AcquireAll(cfg: Config, db: Db, t: TxId, job: Job, a: Asset, k: nat)
    returns (steps: seq<QuotaLocks.Step>)
    requires t !in db.txs && StartsFrom(db, job, a) && LocksFree(db, job, a) && k <= |Locks(job, a)|
    requires job.Reserve? ==> Ready(Tx(job, {}, None, false, None))
    ensures After(cfg, db, steps, |steps|) == DbAt(db, t, TxAt(job, a, k))
  {
    hide Ready, Locks, FreshId, Next, DbAt, TxAt;
    if k == 0 {
      steps := [Begin(t, job)];
      BeginWorks(cfg, db, t, job, a);
    } else {
      var before := AcquireAll(cfg, db, t, job, a, k - 1);
      AcquireNext(cfg, db, t, job, a, k - 1);
      AfterMore(cfg, db, before, Acquire(t));
      steps := before + [Acquire(t)];
    }
  }

  // ---------------------------------------------------------------- what a job may do, and does

  /** The row allows the job: a reservation brings a fresh pending row with the lifetime granted; a commit needs it
      pending, of the size reserved if any, and a checksum; a restore needs an expired one with content; and so on. */
  predicate Permitted(cfg: Config, job: Job, a: Asset) {
    match job
    case Reserve(_, row, ttl) =>
      && row == Asset(row.space, row.partition, Pending, {}, None, row.reserved, None, row.annotations, row.createdAt,
                      row.createdAt, row.expiresAt, None, None, 0, None, row.policy)
      && LifetimeGranted(cfg.resultsMaxTtl, row.space, ttl)
      && row.expiresAt == DeadlineOf(cfg.resultsMaxTtl, row.space, ttl, row.createdAt)
    case Commit(_, size, checksum, _) =>
      a.state == Pending && checksum != "" && (a.reserved == None || a.reserved == Some(size))
    case Restore(_, seconds, deadline, now) =>
      && a.state == Expired && a.size.Some? && LifetimeGranted(cfg.resultsMaxTtl, a.space, Some(seconds))
      && deadline == Some(now + seconds * MICROS)
    case Release(_, _, _) => a.state == Available
    case Drop(_, toDeleted, _) => a.state == Pending || (a.state == Expired && toDeleted)
    case Purge(_, _) => a.state == Deleted && a.purgedAt == None
  }

  /** The row a job leaves. */
  function RowLeft(job: Job, a: Asset): Asset {
    match job
    case Reserve(_, row, _) => row
    case Commit(_, size, checksum, now) =>
      a.(state := Available, size := Some(size), reserved := None, checksum := Some(checksum), updatedAt := now)
    case Restore(_, _, deadline, now) =>
      a.(state := Available, expiresAt := deadline, expiredAt := None, updatedAt := now)
    case Release(_, toDeleted, now) => Gone(a, toDeleted, now)
    case Drop(_, toDeleted, now) => Gone(a, toDeleted, now)
    case Purge(_, now) => a.(state := Deleted, updatedAt := now, purgedAt := Some(now))
  }

  function Gone(a: Asset, toDeleted: bool, now: int): Asset {
    if toDeleted then a.(state := Deleted, updatedAt := now)
    else a.(state := Expired, updatedAt := now, expiredAt := Some(now))
  }

  /** The bytes a job claims room for, if it claims any. */
  function Asks(job: Job, a: Asset): Option<nat> {
    match job
    case Reserve(_, row, _) => row.reserved
    case Commit(_, size, _, _) => Some(size)
    case Restore(_, _, _, _) => a.size
    case _ => None
  }

  ghost predicate RoomFor(cfg: Config, db: Db, job: Job, a: Asset) {
    Asks(job, a).Some? ==>
      Room(cfg, WorldOf(db), a.space, a.partition, Asks(job, a).value, if job.Reserve? then None else Some(job.id))
        == Ok
  }

  function LastTx(job: Job, a: Asset): Tx {
    TxAt(job, a, |Locks(job, a)|)
  }

  lemma PermittedIs(cfg: Config, job: Job, a: Asset)
    requires job.Reserve? ==> a == job.row
    ensures Base(LastTx(job, a)) == Some(a)
    ensures Ready(LastTx(job, a)) && Legal(cfg, LastTx(job, a)) <==> Permitted(cfg, job, a)
    ensures NewRow(job, a) == RowLeft(job, a)
    ensures NextLock(LastTx(job, a)) == None
    ensures Permitted(cfg, job, a) ==> (Claiming(job) <==> Asks(job, a).Some?)
    ensures Permitted(cfg, job, a) && job.Reserve? ==> Ready(Tx(job, {}, None, false, None))
    ensures Permitted(cfg, job, a) && Claiming(job) ==> Asks(job, a) == Some(ClaimedBytes(job, a))
  {
    NextLockIs(job, a, |Locks(job, a)|);
    hide NextLock, HeldFirst;
    if job.Reserve? {
      LifetimesInFigures(cfg, job.row.space, job.ttl, job.row.createdAt);
    } else if job.Restore? {
      LifetimesInFigures(cfg, a.space, Some(job.seconds), job.now);
    }
    hide ExpiryFor;
  }

  lemma RoomIsGranted(cfg: Config, db: Db, t: TxId, job: Job, a: Asset)
    requires CountersOk(db.rows, db.partitionQuotas, db.bucketQuotas) && (job.Reserve? ==> a == job.row)
    requires Permitted(cfg, job, a) && Claiming(job) && RoomFor(cfg, db, job, a)
    ensures Granted(cfg, DbAt(db, t, LastTx(job, a)), LastTx(job, a))
  {
    PermittedIs(cfg, job, a);
    hide Permitted, Ready, Legal, NextLock, TxAt, Base;
    AdmissionInFigures(cfg, WorldOf(db), a.space, a.partition, ClaimedBytes(job, a), Exclude(job));
    assert PartitionQuotaOf(db.partitionQuotas, a.space, a.partition).usedBytes >= 0
           && PartitionQuotaOf(db.partitionQuotas, a.space, a.partition).usedCount >= 0
           && BucketQuotaOf(db.bucketQuotas, a.space).usedBytes >= 0;
    LoadsAgree(db, a, Exclude(job));
    hide Room, Refusal, CountersOk, ClaimedBytes, Asks, LoadOf, Total, LimitsOf, BucketLimitsOf, PartitionQuotaOf,
      BucketQuotaOf;
    assert Granted(cfg, db, LastTx(job, a));
    SameGrant(cfg, db, DbAt(db, t, LastTx(job, a)), LastTx(job, a));
  }

  lemma SameGrant(cfg: Config, db: Db, later: Db, tx: Tx)
    requires later.rows == db.rows && later.partitionQuotas == db.partitionQuotas
             && later.bucketQuotas == db.bucketQuotas
    ensures Granted(cfg, later, tx) == Granted(cfg, db, tx)
  {
    hide Refusal, Total, PartitionQuotaOf, BucketQuotaOf, ClaimedBytes, Base;
  }

  lemma TxRewritten(db: Db, t: TxId, tx: Tx, later: Tx)
    requires later.held == tx.held
    ensures var before := DbAt(db, t, tx);
            t in before.txs && before.txs[t] == tx && before.(txs := before.txs[t := later]) == DbAt(db, t, later)
  {
    assert DbAt(db, t, tx).txs[t := later] == DbAt(db, t, later).txs;
  }

  lemma DecideStep(cfg: Config, db: Db, t: TxId)
    requires t in db.txs && Claiming(db.txs[t].job) && Ready(db.txs[t]) && NextLock(db.txs[t]).None?
    requires Granted(cfg, db, db.txs[t])
    ensures Next(cfg, db, Decide(t)) == db.(txs := db.txs[t := db.txs[t].(decided := true)])
  {
    hide Granted, Ready, NextLock, Claiming;
  }

  lemma StageStep(cfg: Config, db: Db, t: TxId)
    requires t in db.txs && Ready(db.txs[t]) && NextLock(db.txs[t]).None? && db.txs[t].staged.None?
    requires Legal(cfg, db.txs[t]) && (Claiming(db.txs[t].job) ==> db.txs[t].decided)
    ensures var tx := db.txs[t];
            Next(cfg, db, Stage(t)) == db.(txs := db.txs[t :=
              tx.(staged := Some(StagedOf(db, tx.job, Base(tx).value)))])
  {
    hide Ready, NextLock, Claiming, StagedOf, Legal;
  }

  /** Nobody else's: taken by the transaction and given back, the locks are as before. */
  lemma LocksGivenBack(db: Db, t: TxId, tx: Tx)
    requires LocksOk(db) && t !in db.txs && forall l <- tx.held :: l !in db.holder
    ensures Released(DbAt(db, t, tx).holder, t) == db.holder && DbAt(db, t, tx).txs - {t} == db.txs
  {
  }

  lemma DecideWorks(cfg: Config, db: Db, t: TxId, job: Job, a: Asset)
    requires CountersOk(db.rows, db.partitionQuotas, db.bucketQuotas) && (job.Reserve? ==> a == job.row)
    requires Permitted(cfg, job, a) && RoomFor(cfg, db, job, a) && Claiming(job)
    ensures var tx := LastTx(job, a);
            Next(cfg, DbAt(db, t, tx), Decide(t)) == DbAt(db, t, tx.(decided := true))
  {
    PermittedIs(cfg, job, a);
    RoomIsGranted(cfg, db, t, job, a);
    hide Permitted, RoomFor, Granted, Ready, Legal, NextLock, CountersOk, Locks, HeldFirst;
    var tx := LastTx(job, a);
    TxRewritten(db, t, tx, tx.(decided := true));
    hide DbAt;
    DecideStep(cfg, DbAt(db, t, tx), t);
  }

  /** The transaction ready to stage. */
  function DecidedTx(job: Job, a: Asset): Tx {
    LastTx(job, a).(decided := Claiming(job))
  }

  lemma DecidedIsReady(cfg: Config, job: Job, a: Asset)
    requires Permitted(cfg, job, a) && (job.Reserve? ==> a == job.row)
    ensures var tx := DecidedTx(job, a);
            && Ready(tx) && Legal(cfg, tx) && NextLock(tx) == None && Base(tx) == Some(a) && tx.staged == None
            && tx.job == job && tx.held == LastTx(job, a).held
            && (Claiming(job) ==> tx.decided)
  {
    PermittedIs(cfg, job, a);
    hide Permitted, HeldFirst, Claiming;
    assert NextLock(DecidedTx(job, a)) == NextLock(LastTx(job, a));
    hide NextLock;
  }

  lemma StageWorks(cfg: Config, db: Db, t: TxId, job: Job, a: Asset)
    requires Permitted(cfg, job, a) && (job.Reserve? ==> a == job.row)
    ensures var tx := DecidedTx(job, a);
            Next(cfg, DbAt(db, t, tx), Stage(t)) == DbAt(db, t, tx.(staged := Some(StagedOf(db, job, a))))
  {
    DecidedIsReady(cfg, job, a);
    hide Permitted, DecidedTx, Ready, Legal, NextLock, Base;
    var tx := DecidedTx(job, a);
    assert StagedOf(DbAt(db, t, tx), job, a) == StagedOf(db, job, a);
    hide StagedOf;
    TxRewritten(db, t, tx, tx.(staged := Some(StagedOf(db, job, a))));
    hide DbAt;
    StageStep(cfg, DbAt(db, t, tx), t);
  }

  /** The tables after the job: its row, and the counters it rewrote. */
  function Finished(db: Db, job: Job, a: Asset): Db {
    var s := StagedOf(db, job, a);
    var counted := Counts(job) && !job.Reserve?;
    db.(rows := db.rows[job.id := s.row],
        partitionQuotas := if counted then db.partitionQuotas[(s.row.space, s.row.partition) := s.partitionQuota]
                           else db.partitionQuotas,
        bucketQuotas := if counted then db.bucketQuotas[s.row.space := s.bucketQuota] else db.bucketQuotas)
  }

  lemma PublishWorks(cfg: Config, db: Db, t: TxId, job: Job, a: Asset)
    requires LocksOk(db) && t !in db.txs && LocksFree(db, job, a)
    ensures var tx := DecidedTx(job, a).(staged := Some(StagedOf(db, job, a)));
            Next(cfg, DbAt(db, t, tx), Publish(t)) == Finished(db, job, a)
  {
    var tx := DecidedTx(job, a).(staged := Some(StagedOf(db, job, a)));
    forall l <- tx.held ensures l !in db.holder { }
    LocksGivenBack(db, t, tx);
    hide LocksOk, StagedOf, Locks, HeldFirst;
  }

  lemma JobIsDecided(cfg: Config, db: Db, t: TxId, job: Job, a: Asset) returns (steps: seq<QuotaLocks.Step>)
    requires Sound(cfg, db) && t !in db.txs && StartsFrom(db, job, a) && LocksFree(db, job, a)
    requires Permitted(cfg, job, a) && RoomFor(cfg, db, job, a)
    ensures After(cfg, db, steps, |steps|) == DbAt(db, t, DecidedTx(job, a))
  {
    PermittedIs(cfg, job, a);
    SoundMeans(cfg, db);
    hide Permitted, RoomFor, LocksFree, Locks, Ready, Legal, Next, DbAt, Sound, Base, CountersOk, LocksOk, TxOk, After,
      StagedOf, FreshId, NextLock, Claiming, TxAt;
    steps := AcquireAll(cfg, db, t, job, a, |Locks(job, a)|);
    if Claiming(job) {
      DecideWorks(cfg, db, t, job, a);
      AfterMore(cfg, db, steps, Decide(t));
      steps := steps + [Decide(t)];
    } else {
      NotDecided(job, a);
    }
  }

  lemma NotDecided(job: Job, a: Asset)
    requires !Claiming(job)
    ensures DecidedTx(job, a) == LastTx(job, a)
  {
  }

  /** A job the registry permits, with room for its bytes and its rows free, can be carried to its end: then its row
      is the new one, the counters again are the sums over the rows, and limits, locks and all other transactions are
      as they were. */
  lemma JobCanFinish(cfg: Config, db: Db, t: TxId, job: Job, a: Asset) returns (steps: seq<QuotaLocks.Step>)
    requires Sound(cfg, db) && t !in db.txs && StartsFrom(db, job, a) && LocksFree(db, job, a)
    requires Permitted(cfg, job, a) && RoomFor(cfg, db, job, a)
    ensures Finishes(cfg, db, job, a, After(cfg, db, steps, |steps|))
  {
    FinishedFinishes(cfg, db, job, a);
    SoundMeans(cfg, db);
    hide Permitted, RoomFor, LocksFree, Locks, Ready, Legal, Next, DbAt, Sound, Base, CountersOk, LocksOk, TxOk, After,
      StagedOf, FreshId, NextLock, Claiming, TxAt, DecidedTx, Finished, Finishes;
    steps := JobIsDecided(cfg, db, t, job, a);
    StageWorks(cfg, db, t, job, a);
    AfterMore(cfg, db, steps, Stage(t));
    steps := steps + [Stage(t)];
    PublishWorks(cfg, db, t, job, a);
    AfterMore(cfg, db, steps, Publish(t));
    steps := steps + [Publish(t)];
    CountersHoldConcurrently(cfg, db, steps, |steps|);
  }

  lemma FinishedFinishes(cfg: Config, db: Db, job: Job, a: Asset)
    requires Permitted(cfg, job, a) && (job.Reserve? ==> a == job.row)
    ensures Sound(cfg, Finished(db, job, a)) ==> Finishes(cfg, db, job, a, Finished(db, job, a))
  {
    PermittedIs(cfg, job, a);
    var after := Finished(db, job, a);
    hide Permitted, Ready, Legal, NextLock, Base;
    assert after.rows == db.rows[job.id := RowLeft(job, a)];
    LimitsStay(db, job, a);
    hide Finished;
    if Sound(cfg, after) {
      SoundMeans(cfg, after);
      hide Sound, TxOk, LocksOk, LiveBytes, LiveCount, BucketLive, Total, PartitionQuotaOf, BucketQuotaOf;
      assert CountersOk(after.rows, after.partitionQuotas, after.bucketQuotas);
      forall s: Space, p: string
        ensures var q := PartitionQuotaOf(after.partitionQuotas, s, p);
                q.usedBytes == LiveBytes(after.rows, s, p) && q.usedCount == LiveCount(after.rows, s, p)
      {
        MeasuresInFigures(after.rows, s, p);
      }
      forall s: Space ensures BucketQuotaOf(after.bucketQuotas, s).usedBytes == BucketLive(after.rows, s) {
        MeasuresInFigures(after.rows, s, "");
      }
    }
  }

  lemma LimitsStay(db: Db, job: Job, a: Asset)
    ensures var after := Finished(db, job, a);
            && (forall s: Space, p: string :: PartitionQuotaOf(after.partitionQuotas, s, p).limits
                                           == PartitionQuotaOf(db.partitionQuotas, s, p).limits)
            && (forall s: Space ::
                 BucketQuotaOf(after.bucketQuotas, s).limits
                 == BucketQuotaOf(db.bucketQuotas, s).limits)
            && after.holder == db.holder && after.txs == db.txs
  {
    hide Max0;
  }

  /** The job's row as it should be, every counter the sum of its rows, the rest as it was. */
  ghost predicate Finishes(cfg: Config, db: Db, job: Job, a: Asset, after: Db) {
    && after.rows == db.rows[job.id := RowLeft(job, a)]
    && after.holder == db.holder && after.txs == db.txs
    && (forall s: Space, p: string ::
         var q := PartitionQuotaOf(after.partitionQuotas, s, p);
         && q.limits == PartitionQuotaOf(db.partitionQuotas, s, p).limits
         && q.usedBytes == LiveBytes(after.rows, s, p) && q.usedCount == LiveCount(after.rows, s, p))
    && (forall s: Space ::
         var q := BucketQuotaOf(after.bucketQuotas, s);
         q.limits == BucketQuotaOf(db.bucketQuotas, s).limits && q.usedBytes == BucketLive(after.rows, s))
  }
}
