/** The upload protocol does to the rows what the registry's operations do: as far as the lifecycle is concerned
    each visible change is one command of a registry without limits. */
module ProtocolRefinement {
  import opened Model
  import opened RegistrySpec
  import opened UploadProtocol

  /** The lifecycle columns alone. */
  function Columns(a: Asset): Asset {
    a.(aliases := {}, annotations := map[], updatedAt := 0, expiresAt := None, lastReadAt := None, readCount := 0,
       policy := Inherit)
  }

  function Project(rows: map<Id, Asset>): map<Id, Asset> {
    map id | id in rows :: Columns(rows[id])
  }

  const UNLIMITED := Config(0, map[], 1.0, 1)

  /** A registry that holds these rows, with one name bound to the asset and named like its partition. */
  function Holding(rows: map<Id, Asset>, id: Id): World {
    var names := if id in rows then map[(rows[id].space, rows[id].partition) := Binding(Some(id), false, None)]
      else map[];
    World(rows, names, map[], imap[], imap[], [])
  }

  ghost predicate Does(rows: map<Id, Asset>, w: World, c: Cmd, now: int, after: map<Id, Asset>) {
    && w.assets == rows && Apply(UNLIMITED, w, c, now).out.Ok?
    && Project(Apply(UNLIMITED, w, c, now).world.assets) == Project(after)
  }

  ghost predicate IsCommand(rows: map<Id, Asset>, after: map<Id, Asset>) {
    exists w: World, c: Cmd, now: int :: Does(rows, w, c, now, after)
  }

  /** Without limits everything is admitted. */
  lemma AlwaysAdmitted(rows: map<Id, Asset>, id: Id, space: Space, partition: string, bytes: nat, exclude: Option<Id>)
    ensures Admission(UNLIMITED, Holding(rows, id), space, partition, bytes, exclude).Ok?
  {
  }

  lemma ProjectSame(rows: map<Id, Asset>, id: Id, b: Asset, c: Asset)
    requires Columns(b) == Columns(c)
    ensures Project(rows[id := b]) == Project(rows[id := c])
  {
  }

  lemma ReserveIsCommand(rows: map<Id, Asset>, id: Id, space: Space, partition: string, bytes: Option<nat>, now: int)
    requires id !in rows
    ensures IsCommand(rows, rows[id := PendingRow(space, partition, Inherit, map[], bytes, None, now)])
  {
    var w := Holding(rows, id);
    var c := Cmd.Reserve(id, space, partition, [], Inherit, map[], None, bytes);
    if bytes.Some? { AlwaysAdmitted(rows, id, space, partition, bytes.value, None); }
    hide Admission, Project, Columns;
    assert ScopedKeys(space, partition, []) == [];
    var b := Apply(UNLIMITED, w, c, now).world.assets[id];
    var plain := PendingRow(space, partition, Inherit, map[], bytes, None, now);
    assert b == plain.(expiresAt := b.expiresAt);
    SameColumns(b, plain);
    ProjectSame(rows, id, b, plain);
    assert Does(rows, w, c, now, rows[id := plain]);
  }

  lemma SameColumns(a: Asset, b: Asset)
    requires a == b.(expiresAt := a.expiresAt)
    ensures Columns(a) == Columns(b)
  {
  }

  lemma CommitIsCommand(rows: map<Id, Asset>, id: Id, size: nat, checksum: string, now: int)
    requires id in rows && rows[id].state.Pending? && checksum != ""
             && (rows[id].reserved.Some? ==> rows[id].reserved.value == size)
    ensures IsCommand(rows, rows[id := CommitRow(rows[id], size, checksum, now)])
  {
    AlwaysAdmitted(rows, id, rows[id].space, rows[id].partition, size, Some(id));
    hide Admission, Project;
    assert Does(rows, Holding(rows, id), Cmd.Commit(id, size, checksum, None), now,
                rows[id := CommitRow(rows[id], size, checksum, now)]);
  }

  lemma LifecycleIsCommand(rows: map<Id, Asset>, id: Id, state: AssetState, payloadDeleted: bool, now: int)
    requires id in rows && CleanupAllowed(rows[id], state, payloadDeleted)
    ensures IsCommand(rows, rows[id := LifecycleRow(rows[id], state, now, payloadDeleted)])
  {
    hide Project;
    var w := Holding(rows, id);
    var c := Cmd.Lifecycle(id, Full(w, id), state, payloadDeleted);
    assert Does(rows, w, c, now, rows[id := LifecycleRow(rows[id], state, now, payloadDeleted)]);
  }

  lemma OrphanIsCommand(rows: map<Id, Asset>, id: Id, now: int)
    requires id in rows && (rows[id].state.Pending? || rows[id].state.Available?)
    ensures IsCommand(rows, rows[id := ExpireRow(rows[id], now)])
  {
    hide Project;
    var w := Holding(rows, id);
    var key := (rows[id].space, rows[id].partition);
    var touched := TouchRow(rows[id], now);
    assert AliasesOf(w.names - {key}, id) == {};
    assert rows[id := touched][id := ExpireRow(touched, now)] == rows[id := ExpireRow(rows[id], now)];
    assert Does(rows, w, Cmd.Detach(key), now, rows[id := ExpireRow(rows[id], now)]);
  }

  lemma AdminIsCommand(rows: map<Id, Asset>, id: Id, op: AdminOp, now: int)
    requires id in rows && AdminAllowed(rows[id], op) && !op.Rewrite?
    ensures IsCommand(rows, rows[id := AdminRow(rows[id], op, now)])
  {
    hide Project;
    var w, a := Holding(rows, id), rows[id];
    match op
    case AdminExpire => assert Does(rows, w, Cmd.Expire(id), now, rows[id := ExpireRow(a, now)]);
    case AdminDelete => assert Does(rows, w, Cmd.Delete(id), now, rows[id := DeleteRow(a, now)]);
    case Orphaned => OrphanIsCommand(rows, id, now);
    case AdminRestore(deadline) =>
      AlwaysAdmitted(rows, id, a.space, a.partition, a.size.value, Some(id));
      hide Admission, Columns;
      var b := Apply(UNLIMITED, w, Cmd.SetTtl(id, 1), now).world.assets[id];
      SameColumns(b, RestoreRow(a, deadline, now));
      ProjectSame(rows, id, b, RestoreRow(a, deadline, now));
      assert Does(rows, w, Cmd.SetTtl(id, 1), now, rows[id := RestoreRow(a, deadline, now)]);
  }

  /** What an open transaction publishes is its row unchanged or the effect of one command. */
  lemma PublishIsCommand(d: Deployment, s: System, id: Id)
    requires Safe(d, s) && id in s.txs
    ensures id in s.rows && (s.rows[id := s.txs[id].row] == s.rows || IsCommand(s.rows, s.rows[id := s.txs[id].row]))
  {
    assert id in s.rows && TxOk(d, s, id, s.txs[id]) && RowStored(d, s.rows[id], id, s.objects);
    var a, t := s.rows[id], s.txs[id];
    hide Safe, IsCommand, RowStored, Matches;
    if t.row != a {
      match t.job
      case Upload(_) =>
        var now :| t.row == CommitRow(a, t.stat.value.size, t.stat.value.checksum, now);
        CommitIsCommand(s.rows, id, t.stat.value.size, t.stat.value.checksum, now);
      case CleanupFence =>
        var now :| t.row == DeleteRow(a, now);
        LifecycleIsCommand(s.rows, id, Deleted, false, now);
      case SweepFence(_, reason, now) =>
        LifecycleIsCommand(s.rows, id, if reason.Evict? then Expired else Deleted, false, now);
      case Purge =>
        var now :| t.row == PurgeRow(a, now);
        LifecycleIsCommand(s.rows, id, Deleted, true, now);
    }
  }

  lemma RewriteIsInvisible(rows: map<Id, Asset>, id: Id, b: Asset)
    requires id in rows && SameLifecycle(rows[id], b)
    ensures Project(rows[id := b]) == Project(rows)
  {
  }

  /** Every step of every party is, on the lifecycle columns, a registry command or invisible. */
  lemma StepIsCommandOrInvisible(d: Deployment, s: System, step: UploadProtocol.Step)
    requires Safe(d, s)
    ensures var after := Next(d, s, step); Project(after.rows) == Project(s.rows) || IsCommand(s.rows, after.rows)
  {
    hide Safe, IsCommand, Project;
    if Enabled(d, s, step) {
      match step
      case Reserve(id, space, partition, bytes) => ReserveIsCommand(s.rows, id, space, partition, bytes, s.clock);
      case Publish(id) => PublishIsCommand(d, s, id);
      case Admin(id, op) =>
        if op.Rewrite? { RewriteIsInvisible(s.rows, id, op.row); } else { AdminIsCommand(s.rows, id, op, s.clock); }
      case _ =>
    }
  }
}
