/** The locking transactions do what the registry's operations do: whatever one of them makes visible is the
    effect of one command on the tables as they were committed. */
module QuotaRefinement {
  import opened Model
  import opened RegistrySpec
  import opened RegistryCopies
  import opened QuotaLocks

  /** A registry whose assets and limits are these tables; names and log are not part of them. */
  ghost predicate Shows(w: World, db: Db) {
    && w.assets == db.rows
    && w.partitionLimits == PartitionLimitsView(db.partitionQuotas)
    && w.bucketLimits == BucketLimitsView(db.bucketQuotas)
  }

  /** One command leads from the tables before to the tables after. */
  ghost predicate IsCommand(cfg: Config, db: Db, after: Db) {
    exists w: World, c: Cmd, now: int :: Commanded(cfg, db, w, c, now, after)
  }

  ghost predicate Commanded(cfg: Config, db: Db, w: World, c: Cmd, now: int, after: Db) {
    Shows(w, db) && Apply(cfg, w, c, now).out.Ok? && Shows(Apply(cfg, w, c, now).world, after)
  }

  /** Enough of a command's effect to know it for one. */
  ghost predicate Rewrites(cfg: Config, db: Db, w: World, c: Cmd, now: int, id: Id, b: Asset) {
    && Shows(w, db) && Apply(cfg, w, c, now).out.Ok?
    && Apply(cfg, w, c, now).world.assets == db.rows[id := b]
    && Apply(cfg, w, c, now).world.partitionLimits == w.partitionLimits
    && Apply(cfg, w, c, now).world.bucketLimits == w.bucketLimits
  }

  lemma ReserveRewrites(cfg: Config, db: Db, tx: Tx)
    requires tx.job.Reserve? && tx.job.id !in db.rows && Ready(tx) && Legal(cfg, tx)
             && (Claiming(tx.job) ==> Admitted(cfg, db, tx))
    ensures var row := tx.job.row;
            var c := Cmd.Reserve(tx.job.id, row.space, row.partition, [], row.policy, row.annotations, tx.job.ttl,
                                 row.reserved);
            Rewrites(cfg, db, WorldOf(db), c, row.createdAt, tx.job.id, row)
  {
    hide Admission, ExpiryFor, Coherent, PartitionLimitsView, BucketLimitsView;
    var row := tx.job.row;
    assert ScopedKeys(row.space, row.partition, []) == [];
    assert row.reserved.Some? ==> Admission(cfg, WorldOf(db), row.space, row.partition, row.reserved.value, None).Ok?;
  }

  lemma CommitRewrites(cfg: Config, db: Db, tx: Tx)
    requires tx.job.Commit? && tx.job.id in db.rows && Base(tx) == Some(db.rows[tx.job.id])
    requires Ready(tx) && Legal(cfg, tx) && Admitted(cfg, db, tx)
    ensures var c := Cmd.Commit(tx.job.id, tx.job.size, tx.job.checksum, None);
            Rewrites(cfg, db, WorldOf(db), c, tx.job.now, tx.job.id, NewRow(tx.job, Base(tx).value))
  {
    hide Admission, PartitionLimitsView, BucketLimitsView;
  }

  lemma RestoreRewrites(cfg: Config, db: Db, tx: Tx)
    requires tx.job.Restore? && tx.job.id in db.rows && Base(tx) == Some(db.rows[tx.job.id])
    requires Ready(tx) && Legal(cfg, tx) && Admitted(cfg, db, tx) && Coherent(db.rows[tx.job.id])
    ensures var c := Cmd.SetTtl(tx.job.id, tx.job.seconds);
            Rewrites(cfg, db, WorldOf(db), c, tx.job.now, tx.job.id, NewRow(tx.job, Base(tx).value))
  {
    hide Admission, ExpiryFor, PartitionLimitsView, BucketLimitsView;
  }

  lemma ReleaseRewrites(cfg: Config, db: Db, tx: Tx)
    requires tx.job.Release? && tx.job.id in db.rows && Base(tx) == Some(db.rows[tx.job.id]) && Ready(tx)
    ensures var c := if tx.job.toDeleted then Cmd.Delete(tx.job.id) else Cmd.Expire(tx.job.id);
            Rewrites(cfg, db, WorldOf(db), c, tx.job.now, tx.job.id, NewRow(tx.job, Base(tx).value))
  {
    hide PartitionLimitsView, BucketLimitsView;
  }

  /** Maintenance deletes and purges by a lifecycle update. */
  lemma CleanupRewrites(cfg: Config, db: Db, tx: Tx)
    requires tx.job.Purge? || (tx.job.Drop? && tx.job.toDeleted)
    requires tx.job.id in db.rows && Base(tx) == Some(db.rows[tx.job.id]) && Ready(tx) && Coherent(db.rows[tx.job.id])
    ensures var w := WorldOf(db);
            tx.job.id in w.assets
            && var c := Cmd.Lifecycle(tx.job.id, Full(w, tx.job.id), Deleted, tx.job.Purge?);
               Rewrites(cfg, db, w, c, tx.job.now, tx.job.id, NewRow(tx.job, Base(tx).value))
  {
    hide PartitionLimitsView, BucketLimitsView;
  }

  /** The tables, with one name bound to this asset and named like its partition. */
  ghost function WithName(db: Db, id: Id, a: Asset): World {
    WorldOf(db).(names := map[(a.space, a.partition) := Binding(Some(id), false, None)])
  }

  /** A pending asset expires when its last name is detached. */
  lemma OrphanRewrites(cfg: Config, db: Db, tx: Tx)
    requires tx.job.Drop? && !tx.job.toDeleted
    requires tx.job.id in db.rows && Base(tx) == Some(db.rows[tx.job.id]) && Legal(cfg, tx)
    ensures var a := db.rows[tx.job.id];
            var c := Cmd.Detach((a.space, a.partition));
            Rewrites(cfg, db, WithName(db, tx.job.id, a), c, tx.job.now, tx.job.id, NewRow(tx.job, Base(tx).value))
  {
    hide PartitionLimitsView, BucketLimitsView;
    var a, id := db.rows[tx.job.id], tx.job.id;
    var touched := TouchRow(a, tx.job.now);
    assert AliasesOf(WithName(db, id, a).names - {(a.space, a.partition)}, id) == {};
    assert db.rows[id := touched][id := ExpireRow(touched, tx.job.now)]
           == db.rows[id := NewRow(tx.job, Base(tx).value)];
  }

  lemma RewriteIsCommand(cfg: Config, db: Db, w: World, c: Cmd, now: int, id: Id, b: Asset, after: Db)
    requires Rewrites(cfg, db, w, c, now, id, b) && after.rows == db.rows[id := b]
    requires PartitionLimitsView(after.partitionQuotas) == PartitionLimitsView(db.partitionQuotas)
    requires BucketLimitsView(after.bucketQuotas) == BucketLimitsView(db.bucketQuotas)
    ensures IsCommand(cfg, db, after)
  {
    hide Apply, PartitionLimitsView, BucketLimitsView;
    assert Commanded(cfg, db, w, c, now, after);
  }

  /** What becomes visible is the effect of one registry command on the committed tables. */
  lemma PublishIsCommand(cfg: Config, db: Db, t: TxId)
    requires Sound(cfg, db) && t in db.txs && db.txs[t].staged.Some?
    ensures IsCommand(cfg, db, Published(db, t))
  {
    var tx := db.txs[t];
    var after := Published(db, t);
    SoundMeans(cfg, db);
    PublishedRow(cfg, db, t);
    PublishConserves(cfg, db, t);
    assert after.rows == db.rows[tx.job.id := NewRow(tx.job, Base(tx).value)];
    var b := NewRow(tx.job, Base(tx).value);
    hide Sound, StagedOf, CountersOk, TxOk, NewRow, Ready, Legal, Admitted, Rewrites, IsCommand, Published, Apply,
      WorldOf, Coherent, Base;
    match tx.job
    case Reserve(id, row, ttl) =>
      ReserveRewrites(cfg, db, tx);
      assert b == row by { NewRowOfReserve(tx); }
      var c := Cmd.Reserve(id, row.space, row.partition, [], row.policy, row.annotations, ttl, row.reserved);
      RewriteIsCommand(cfg, db, WorldOf(db), c, row.createdAt, id, b, after);
    case Commit(id, size, checksum, now) =>
      CommitRewrites(cfg, db, tx);
      RewriteIsCommand(cfg, db, WorldOf(db), Cmd.Commit(id, size, checksum, None), now, id, b, after);
    case Restore(id, seconds, _, now) =>
      RestoreRewrites(cfg, db, tx);
      RewriteIsCommand(cfg, db, WorldOf(db), Cmd.SetTtl(id, seconds), now, id, b, after);
    case Release(id, toDeleted, now) =>
      ReleaseRewrites(cfg, db, tx);
      RewriteIsCommand(cfg, db, WorldOf(db), if toDeleted then Cmd.Delete(id) else Cmd.Expire(id), now, id, b, after);
    case Drop(id, toDeleted, now) =>
      if toDeleted {
        CleanupRewrites(cfg, db, tx);
        RewriteIsCommand(cfg, db, WorldOf(db), Cmd.Lifecycle(id, Full(WorldOf(db), id), Deleted, false), now, id, b,
                         after);
      } else {
        OrphanRewrites(cfg, db, tx);
        var a := db.rows[id];
        RewriteIsCommand(cfg, db, WithName(db, id, a), Cmd.Detach((a.space, a.partition)), now, id, b, after);
      }
    case Purge(id, now) =>
      CleanupRewrites(cfg, db, tx);
      RewriteIsCommand(cfg, db, WorldOf(db), Cmd.Lifecycle(id, Full(WorldOf(db), id), Deleted, true), now, id, b,
                       after);
  }

  lemma NewRowOfReserve(tx: Tx)
    requires tx.job.Reserve?
    ensures NewRow(tx.job, Base(tx).value) == tx.job.row
  {
  }

  lemma PartitionLimitsAreCommand(cfg: Config, db: Db, space: Space, partition: string, limits: PartitionLimits)
    ensures IsCommand(cfg, db, Limited(db, SetPartition(space, partition, limits)))
  {
    hide PartitionLimitsView, BucketLimitsView, PartitionCountersOk, BucketCountersOk;
    PartitionLimitsSet(db.rows, db.partitionQuotas, space, partition, limits);
    var c := Cmd.SetPartitionQuota(space, partition, limits.bytes, limits.count, Some(limits.sweepEnabled));
    var step := ApplySetPartitionQuota(WorldOf(db), space, partition, limits.bytes, limits.count,
                                       Some(limits.sweepEnabled));
    assert step.out.Ok? && Shows(step.world, Limited(db, SetPartition(space, partition, limits)));
    assert Apply(cfg, WorldOf(db), c, 0) == step;
    hide Apply, ApplySetPartitionQuota, Limited;
    assert Commanded(cfg, db, WorldOf(db), c, 0, Limited(db, SetPartition(space, partition, limits)));
  }

  lemma BucketLimitsAreCommand(cfg: Config, db: Db, space: Space, limits: BucketLimits)
    ensures IsCommand(cfg, db, Limited(db, SetBucket(space, limits)))
  {
    hide PartitionLimitsView, BucketLimitsView, PartitionCountersOk, BucketCountersOk;
    BucketLimitsSet(db.rows, db.bucketQuotas, space, limits);
    var c := Cmd.SetBucketQuota(space, limits.bytes, limits.warnThreshold, limits.hardCeiling);
    var step := ApplySetBucketQuota(WorldOf(db), space, limits.bytes, limits.warnThreshold, limits.hardCeiling);
    assert step.out.Ok? && Shows(step.world, Limited(db, SetBucket(space, limits)));
    assert Apply(cfg, WorldOf(db), c, 0) == step;
    hide Apply, ApplySetBucketQuota, Limited;
    assert Commanded(cfg, db, WorldOf(db), c, 0, Limited(db, SetBucket(space, limits)));
  }

  /** Every step of every transaction is a registry command as seen from the committed tables, or invisible. */
  lemma StepIsCommandOrInvisible(cfg: Config, db: Db, step: QuotaLocks.Step)
    requires Sound(cfg, db)
    ensures SameTables(db, Next(cfg, db, step)) || IsCommand(cfg, db, Next(cfg, db, step))
  {
    hide Sound, IsCommand, Granted, Ready, Legal, NextLock, StagedOf, FreshId, Published;
    if Enabled(cfg, db, step) {
      if step.Publish? { PublishIsCommand(cfg, db, step.t); }
      if step.SetPartition? { PartitionLimitsAreCommand(cfg, db, step.space, step.partition, step.limits); }
      if step.SetBucket? { BucketLimitsAreCommand(cfg, db, step.space, step.bucketLimits); }
    }
  }
}
