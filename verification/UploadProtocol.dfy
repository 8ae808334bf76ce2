/** Writers, failed-upload cleaners, sweepers, administrators and readers over one registry and one
    byte store. Registry effects become visible when a transaction commits and vanish when it rolls
    back; store effects are immediate and final. A row lock admits one transaction per asset. */
module UploadProtocol {
  import opened Model
  import opened Storage

  /** What the deployment fixes: the digest, the age of an abandoned upload, the grace per bucket. */
  datatype Deployment = Deployment(digest: Payload -> string, pendingSeconds: nat, graceSeconds: Space -> nat)

  datatype Reason = Orphan | PastGrace | Evict

  /** What the holder of a row lock is there to do. */
  datatype Job =
    | Upload(expected: Option<string>)
    | CleanupFence
    | SweepFence(snapshot: Asset, reason: Reason, now: int)
    | Purge

  /** An open transaction: the row as it sees it, and what the store has answered so far. */
  datatype Tx = Tx(job: Job, row: Asset, stat: Option<Stat>, erased: bool)

  datatype Ticket = Ticket(id: Id, at: Location, stat: Stat)

  datatype Read = Read(id: Id, data: Payload)

  datatype System = System(
    rows: map<Id, Asset>,
    txs: map<Id, Tx>,
    objects: map<Location, Payload>,
    tickets: map<nat, Ticket>,
    served: seq<Read>,
    adminDeleted: set<Id>,
    fencedAt: map<Id, int>,
    clock: int)

  const EMPTY: System := System(map[], map[], map[], map[], [], {}, map[], 0)

  datatype AdminOp =
    | AdminExpire
    | AdminDelete
    | AdminRestore(deadline: Option<int>)
    | Orphaned
    | Rewrite(row: Asset)

  datatype Step =
    | Reserve(id: Id, space: Space, partition: string, bytes: Option<nat>)
    | Lock(id: Id, job: Job)
    | Put(id: Id, data: Payload, heard: bool)
    | StageCommit(id: Id)
    | StageFence(id: Id)
    | Erase(id: Id)
    | StagePurge(id: Id)
    | Publish(id: Id)
    | Abort(id: Id)
    | Admin(id: Id, op: AdminOp)
    | Resolve(reader: nat, id: Id)
    | Fetch(reader: nat)
    | Tick(elapsed: nat)

  // ---------------------------------------------------------------- single effects

  /** A write that leaves the lifecycle columns alone: aliases, annotations, policy, counters. */
  predicate SameLifecycle(a: Asset, b: Asset) {
    && b.space == a.space && b.partition == a.partition && b.state == a.state
    && b.size == a.size && b.reserved == a.reserved && b.checksum == a.checksum
    && b.createdAt == a.createdAt && b.expiredAt == a.expiredAt && b.purgedAt == a.purgedAt
  }

  predicate AdminAllowed(a: Asset, op: AdminOp) {
    match op
    case AdminExpire => a.state.Available?
    case AdminDelete => a.state.Available? || a.state.Expired?
    case AdminRestore(_) => (a.state.Available? || a.state.Expired?) && a.size.Some? && a.checksum.Some?
    case Orphaned => a.state.Pending? || a.state.Available?
    case Rewrite(b) => SameLifecycle(a, b)
  }

  function AdminRow(a: Asset, op: AdminOp, now: int): Asset {
    match op
    case AdminExpire => ExpireRow(a, now)
    case AdminDelete => DeleteRow(a, now)
    case AdminRestore(deadline) => RestoreRow(a, deadline, now)
    case Orphaned => ExpireRow(a, now)
    case Rewrite(b) => b
  }

  /** The sweep's choice, made on its snapshot and still valid because the row has not changed. */
  predicate SweepAllowed(d: Deployment, a: Asset, reason: Reason, now: int) {
    match reason
    case Orphan => a.state.Pending? && now - a.createdAt >= d.pendingSeconds * SECOND
    case PastGrace => a.state.Expired? && a.expiredAt.Some?
      && now - a.expiredAt.value >= d.graceSeconds(a.space) * SECOND
    case Evict => a.state.Available?
  }

  function FenceRow(a: Asset, job: Job, now: int): Asset {
    if job.SweepFence? && job.reason.Evict? then ExpireRow(a, job.now)
    else if job.SweepFence? then DeleteRow(a, job.now)
    else DeleteRow(a, now)
  }

  predicate FenceAllowed(d: Deployment, a: Asset, job: Job) {
    (job.CleanupFence? && a.state.Pending?)
    || (job.SweepFence? && a == job.snapshot && SweepAllowed(d, a, job.reason, job.now))
  }

  ghost predicate Enabled(d: Deployment, s: System, step: Step) {
    match step
    case Reserve(id, _, _, _) => id !in s.rows && SlashFree(id)
    case Lock(id, job) => id in s.rows && id !in s.txs && (job.SweepFence? ==> job.now <= s.clock)
    case Put(id, _, _) => id in s.txs && s.txs[id].job.Upload? && s.txs[id].row.state.Pending?
    case StageCommit(id) =>
      && id in s.txs && s.txs[id].job.Upload? && s.txs[id].row.state.Pending? && s.txs[id].stat.Some?
      && var stat := s.txs[id].stat.value;
         && (s.txs[id].job.expected.Some? ==> s.txs[id].job.expected.value == stat.checksum)
         && (s.txs[id].row.reserved.Some? ==> s.txs[id].row.reserved.value == stat.size)
         && stat.checksum != ""
    case StageFence(id) => id in s.txs && s.txs[id].row.purgedAt.None? && FenceAllowed(d, s.txs[id].row, s.txs[id].job)
    case Erase(id) => id in s.txs && s.txs[id].job.Purge? && s.txs[id].row.state.Deleted?
      && s.txs[id].row.purgedAt.None?
    case StagePurge(id) => id in s.txs && s.txs[id].job.Purge? && s.txs[id].erased && s.txs[id].row.purgedAt.None?
    case Publish(id) => id in s.txs
    case Abort(id) => id in s.txs
    case Admin(id, op) => id in s.rows && id !in s.txs && AdminAllowed(s.rows[id], op)
    case Resolve(_, id) => id in s.rows && s.rows[id].state.Available? && s.rows[id].size.Some?
      && s.rows[id].checksum.Some?
    case Fetch(reader) => reader in s.tickets
    case Tick(_) => true
  }

  ghost function Effect(d: Deployment, s: System, step: Step): System
    requires Enabled(d, s, step)
  {
    match step
    case Reserve(id, space, partition, bytes) =>
      s.(rows := s.rows[id := Asset(space, partition, Pending, {}, None, bytes, None, map[], s.clock, s.clock, None,
                                    None, None, 0, None, Inherit)])
    case Lock(id, job) => s.(txs := s.txs[id := Tx(job, s.rows[id], None, false)])
    case Put(id, data, heard) =>
      s.(objects := s.objects[LocationOf(s.txs[id].row, id) := data],
         txs := s.txs[id := s.txs[id].(stat := if heard then Some(Stat(|data|, d.digest(data))) else None)])
    case StageCommit(id) =>
      var stat := s.txs[id].stat.value;
      s.(txs := s.txs[id := s.txs[id].(row := CommitRow(s.txs[id].row, stat.size, stat.checksum, s.clock))])
    case StageFence(id) => s.(txs := s.txs[id := s.txs[id].(row := FenceRow(s.txs[id].row, s.txs[id].job, s.clock))])
    case Erase(id) =>
      s.(objects := s.objects - {LocationOf(s.txs[id].row, id)}, txs := s.txs[id := s.txs[id].(erased := true)])
    case StagePurge(id) => s.(txs := s.txs[id := s.txs[id].(row := PurgeRow(s.txs[id].row, s.clock))])
    case Publish(id) =>
      s.(rows := s.rows[id := s.txs[id].row],
         txs := s.txs - {id},
         fencedAt := if s.txs[id].job.SweepFence? && s.txs[id].row.state.Deleted?
           && (id in s.rows ==> !s.rows[id].state.Deleted?)
                     then s.fencedAt[id := s.txs[id].job.now] else s.fencedAt)
    case Abort(id) => s.(txs := s.txs - {id})
    case Admin(id, op) =>
      s.(rows := s.rows[id := AdminRow(s.rows[id], op, s.clock)],
         adminDeleted := if op.AdminDelete? then s.adminDeleted + {id} else s.adminDeleted)
    case Resolve(reader, id) =>
      var a := s.rows[id];
      s.(tickets := s.tickets[reader := Ticket(id, LocationOf(a, id), Stat(a.size.value, a.checksum.value))])
    case Fetch(reader) =>
      var t := s.tickets[reader];
      if t.at in s.objects then s.(served := s.served + [Read(t.id, s.objects[t.at])]) else s
    case Tick(elapsed) => s.(clock := s.clock + elapsed)
  }

  /** A step that cannot happen now leaves the system as it is. */
  ghost function Next(d: Deployment, s: System, step: Step): System {
    if Enabled(d, s, step) then Effect(d, s, step) else s
  }

  // ---------------------------------------------------------------- the invariant

  /** Committed and readable, or expired with content that may be restored. */
  predicate HoldsContent(a: Asset) {
    a.state.Available? || (a.state.Expired? && a.size.Some?)
  }

  ghost predicate Matches(d: Deployment, a: Asset, data: Payload) {
    a.size == Some(|data|) && a.checksum == Some(d.digest(data))
  }

  /** Row and object agree: live content is there, present content is the committed one, purged content is gone. */
  ghost predicate RowStored(d: Deployment, a: Asset, id: Id, objects: map<Location, Payload>) {
    var at := LocationOf(a, id);
    && Coherent(a) && SlashFree(id)
    && (HoldsContent(a) ==> at in objects)
    && (a.size.Some? && at in objects ==> Matches(d, a, objects[at]))
    && (a.purgedAt.Some? ==> at !in objects)
  }

  /** A committed asset was deleted by an administrator or fenced by a sweep past its grace. */
  ghost predicate FencedInTime(d: Deployment, s: System, id: Id)
    requires id in s.rows
  {
    var a := s.rows[id];
    a.state.Deleted? && a.size.Some? && id !in s.adminDeleted ==>
      a.expiredAt.Some? && id in s.fencedAt && s.fencedAt[id] >= a.expiredAt.value + d.graceSeconds(a.space) * SECOND
  }

  /** A transaction has only staged what its job allows, and the store still is as it left it. */
  ghost predicate TxOk(d: Deployment, s: System, id: Id, t: Tx)
    requires id in s.rows
  {
    var a := s.rows[id];
    var at := LocationOf(a, id);
    match t.job
    case Upload(_) =>
      && (t.stat.Some? ==>
           a.state.Pending? && at in s.objects
           && t.stat.value == Stat(|s.objects[at]|, d.digest(s.objects[at])))
      && (t.row == a
          || (t.stat.Some? && t.stat.value.checksum != ""
             && (a.reserved.Some? ==> a.reserved.value == t.stat.value.size)
              && exists now :: t.row == CommitRow(a, t.stat.value.size, t.stat.value.checksum, now)))
    case CleanupFence => t.row == a || (a.state.Pending? && exists now :: t.row == DeleteRow(a, now))
    case SweepFence(_, reason, now) =>
      t.row == a || (a.purgedAt.None? && SweepAllowed(d, a, reason, now) && t.row == FenceRow(a, t.job, now))
    case Purge =>
      && (t.erased ==> a.state.Deleted? && at !in s.objects)
      && (t.row == a || (t.erased && a.purgedAt.None? && exists now :: t.row == PurgeRow(a, now)))
  }

  ghost predicate TicketOk(s: System, t: Ticket) {
    && t.id in s.rows && t.at == LocationOf(s.rows[t.id], t.id)
    && s.rows[t.id].size == Some(t.stat.size) && s.rows[t.id].checksum == Some(t.stat.checksum)
  }

  ghost predicate ReadOk(d: Deployment, s: System, r: Read) {
    r.id in s.rows && Matches(d, s.rows[r.id], r.data)
  }

  ghost predicate Owned(s: System, at: Location) {
    exists id <- s.rows :: LocationOf(s.rows[id], id) == at
  }

  ghost predicate RowsSafe(d: Deployment, s: System) {
    forall id <- s.rows :: RowStored(d, s.rows[id], id, s.objects) && FencedInTime(d, s, id)
  }

  ghost predicate TxsSafe(d: Deployment, s: System) {
    forall id <- s.txs :: id in s.rows && TxOk(d, s, id, s.txs[id])
  }

  ghost predicate Safe(d: Deployment, s: System) {
    && RowsSafe(d, s)
    && TxsSafe(d, s)
    && (forall r <- s.tickets :: TicketOk(s, s.tickets[r]))
    && (forall r <- s.served :: ReadOk(d, s, r))
    && (forall at <- s.objects :: Owned(s, at))
  }

  // ---------------------------------------------------------------- steps keep the invariant

  lemma LocationsApart(s: System, i: Id, j: Id)
    requires i in s.rows && j in s.rows && SlashFree(i) && SlashFree(j)
    requires LocationOf(s.rows[i], i) == LocationOf(s.rows[j], j)
    ensures i == j
  {
    StorageKeyIsInjective(s.rows[i].partition, i, s.rows[j].partition, j);
  }

  /** A row replaced in place: same location, same content if committed. */
  predicate Successor(a: Asset, b: Asset) {
    a.space == b.space && a.partition == b.partition && (a.size.Some? ==> b.size == a.size && b.checksum == a.checksum)
  }

  lemma RowReplaced(d: Deployment, s: System, after: System, id: Id, b: Asset)
    requires Safe(d, s) && id in s.rows && Successor(s.rows[id], b)
    requires after.rows == s.rows[id := b] && after.objects == s.objects
    requires after.tickets == s.tickets && after.served == s.served
    requires after.txs == s.txs - {id}
    requires s.adminDeleted <= after.adminDeleted
    requires after.fencedAt - {id} == s.fencedAt - {id}
    requires RowStored(d, b, id, s.objects) && FencedInTime(d, after, id)
    ensures Safe(d, after)
  {
    forall i <- after.rows ensures RowStored(d, after.rows[i], i, after.objects) && FencedInTime(d, after, i) {
      assert RowStored(d, s.rows[i], i, s.objects) && FencedInTime(d, s, i);
      if i != id {
        assert i in after.fencedAt <==> i in after.fencedAt - {id};
        assert i in s.fencedAt <==> i in s.fencedAt - {id};
        assert i in s.fencedAt ==> s.fencedAt[i] == (s.fencedAt - {id})[i] == after.fencedAt[i];
      }
    }
    forall i <- after.txs ensures i in after.rows && TxOk(d, after, i, after.txs[i]) {
      assert TxOk(d, s, i, s.txs[i]);
    }
    forall r <- after.tickets ensures TicketOk(after, after.tickets[r]) {
      assert TicketOk(s, s.tickets[r]);
    }
    forall r <- after.served ensures ReadOk(d, after, r) {
      assert ReadOk(d, s, r);
    }
    forall at <- after.objects ensures Owned(after, at) {
      assert Owned(s, at);
      var i :| i in s.rows && LocationOf(s.rows[i], i) == at;
      assert LocationOf(after.rows[i], i) == at;
    }
  }

  lemma StagedRowStored(d: Deployment, s: System, id: Id)
    requires id in s.rows && id in s.txs && RowStored(d, s.rows[id], id, s.objects) && TxOk(d, s, id, s.txs[id])
    ensures Successor(s.rows[id], s.txs[id].row) && RowStored(d, s.txs[id].row, id, s.objects)
  {
  }

  lemma StagedRowFenced(d: Deployment, s: System, id: Id)
    requires id in s.rows && id in s.txs && Coherent(s.rows[id]) && FencedInTime(d, s, id) && TxOk(d, s, id, s.txs[id])
    ensures FencedInTime(d, Effect(d, s, Publish(id)), id)
  {
  }

  lemma PublishKeeps(d: Deployment, s: System, id: Id)
    requires Safe(d, s) && id in s.txs
    ensures Safe(d, Effect(d, s, Publish(id)))
  {
    assert RowStored(d, s.rows[id], id, s.objects) && FencedInTime(d, s, id) && TxOk(d, s, id, s.txs[id]);
    hide RowsSafe, TxsSafe, TxOk;
    StagedRowStored(d, s, id);
    StagedRowFenced(d, s, id);
    hide RowStored, FencedInTime;
    RowReplaced(d, s, Effect(d, s, Publish(id)), id, s.txs[id].row);
  }

  lemma AdminRowStored(d: Deployment, s: System, id: Id, op: AdminOp)
    requires id in s.rows && RowStored(d, s.rows[id], id, s.objects) && FencedInTime(d, s, id)
    requires Enabled(d, s, Admin(id, op))
    ensures var b := AdminRow(s.rows[id], op, s.clock);
            && Successor(s.rows[id], b) && RowStored(d, b, id, s.objects)
            && FencedInTime(d, Effect(d, s, Admin(id, op)), id)
  {
    hide StorageKey;
  }

  lemma AdminKeeps(d: Deployment, s: System, id: Id, op: AdminOp)
    requires Safe(d, s) && Enabled(d, s, Admin(id, op))
    ensures Safe(d, Effect(d, s, Admin(id, op)))
  {
    assert RowStored(d, s.rows[id], id, s.objects) && FencedInTime(d, s, id);
    hide Safe, RowStored, FencedInTime, Successor, AdminRow, AdminAllowed;
    AdminRowStored(d, s, id, op);
    assert s.txs - {id} == s.txs;
    RowReplaced(d, s, Effect(d, s, Admin(id, op)), id, AdminRow(s.rows[id], op, s.clock));
  }

  /** Only one transaction changes; rows and objects stay. */
  lemma TxReplaced(d: Deployment, s: System, after: System, id: Id, t: Tx)
    requires Safe(d, s) && id in s.rows
    requires after == s.(txs := s.txs[id := t])
    requires TxOk(d, s, id, t)
    ensures Safe(d, after)
  {
    forall i <- after.rows ensures RowStored(d, after.rows[i], i, after.objects) && FencedInTime(d, after, i) {
      assert RowStored(d, s.rows[i], i, s.objects) && FencedInTime(d, s, i);
    }
    forall i <- after.txs ensures i in after.rows && TxOk(d, after, i, after.txs[i]) {
      if i == id { assert TxOk(d, s, id, t); } else { assert TxOk(d, s, i, s.txs[i]); }
    }
    forall r <- after.served ensures ReadOk(d, after, r) {
      assert ReadOk(d, s, r);
    }
    forall at <- after.objects ensures Owned(after, at) { assert Owned(s, at); }
  }

  /** Two stores that differ at most at one location. */
  ghost predicate SameElsewhere(before: map<Location, Payload>, after: map<Location, Payload>, at: Location) {
    && (forall l :: l != at ==> (l in after <==> l in before))
    && (forall l <- before :: l != at && l in after ==> after[l] == before[l])
  }

  lemma OtherRowStored(d: Deployment, s: System, id: Id, objects: map<Location, Payload>, i: Id)
    requires id in s.rows && i in s.rows && i != id && SlashFree(id)
    requires SameElsewhere(s.objects, objects, LocationOf(s.rows[id], id))
    requires RowStored(d, s.rows[i], i, s.objects)
    ensures LocationOf(s.rows[i], i) != LocationOf(s.rows[id], id)
    ensures RowStored(d, s.rows[i], i, objects)
  {
    if LocationOf(s.rows[i], i) == LocationOf(s.rows[id], id) { LocationsApart(s, i, id); }
  }

  /** The store changes at one location, whose row allows it; nobody else uses that location. */
  lemma ObjectChanged(d: Deployment, s: System, after: System, id: Id, t: Tx)
    requires Safe(d, s) && id in s.txs && id in s.rows
    requires after == s.(objects := after.objects, txs := s.txs[id := t])
    requires SameElsewhere(s.objects, after.objects, LocationOf(s.rows[id], id))
    requires RowStored(d, s.rows[id], id, after.objects) && TxOk(d, after, id, t)
    ensures Safe(d, after)
  {
    forall i <- after.rows ensures RowStored(d, after.rows[i], i, after.objects) && FencedInTime(d, after, i) {
      assert RowStored(d, s.rows[i], i, s.objects) && FencedInTime(d, s, i);
      if i != id { OtherRowStored(d, s, id, after.objects, i); }
    }
    forall i <- after.txs ensures i in after.rows && TxOk(d, after, i, after.txs[i]) {
      if i != id {
        assert TxOk(d, s, i, s.txs[i]) && RowStored(d, s.rows[i], i, s.objects);
        OtherRowStored(d, s, id, after.objects, i);
      }
    }
    forall at <- after.objects ensures Owned(after, at) {
      if at in s.objects { assert Owned(s, at); } else { assert LocationOf(after.rows[id], id) == at; }
    }
    forall r <- after.served ensures ReadOk(d, after, r) {
      assert ReadOk(d, s, r);
    }
  }

  lemma PutKeeps(d: Deployment, s: System, id: Id, data: Payload, heard: bool)
    requires Safe(d, s) && Enabled(d, s, Put(id, data, heard))
    ensures Safe(d, Effect(d, s, Put(id, data, heard)))
  {
    var after := Effect(d, s, Put(id, data, heard));
    assert TxOk(d, s, id, s.txs[id]) && RowStored(d, s.rows[id], id, s.objects);
    ObjectChanged(d, s, after, id, after.txs[id]);
  }

  lemma EraseKeeps(d: Deployment, s: System, id: Id)
    requires Safe(d, s) && Enabled(d, s, Erase(id))
    ensures Safe(d, Effect(d, s, Erase(id)))
  {
    var after := Effect(d, s, Erase(id));
    assert TxOk(d, s, id, s.txs[id]) && RowStored(d, s.rows[id], id, s.objects);
    ObjectChanged(d, s, after, id, after.txs[id]);
  }

  lemma StagingKeeps(d: Deployment, s: System, step: Step)
    requires Safe(d, s) && Enabled(d, s, step)
    requires step.Lock? || step.StageCommit? || step.StageFence? || step.StagePurge?
    ensures Safe(d, Effect(d, s, step))
  {
    var after := Effect(d, s, step);
    if !step.Lock? { assert TxOk(d, s, step.id, s.txs[step.id]); }
    assert RowStored(d, s.rows[step.id], step.id, s.objects);
    var t := after.txs[step.id];
    if step.StageFence? {
      StagedFenceOk(d, s, step.id);
    }
    TxReplaced(d, s, after, step.id, t);
  }

  lemma StagedFenceOk(d: Deployment, s: System, id: Id)
    requires Safe(d, s) && Enabled(d, s, StageFence(id))
    ensures id in s.rows && TxOk(d, s, id, Effect(d, s, StageFence(id)).txs[id])
  {
    var a, t := s.rows[id], s.txs[id];
    assert TxOk(d, s, id, t) && RowStored(d, a, id, s.objects);
    hide Safe, RowsSafe, TxsSafe, StorageKey;
    var staged := Effect(d, s, StageFence(id)).txs[id];
    if t.job.CleanupFence? {
      assert t.row == a;
      assert staged.row == DeleteRow(a, s.clock);
    }
  }

  lemma ReserveKeeps(d: Deployment, s: System, step: Step)
    requires Safe(d, s) && Enabled(d, s, step) && step.Reserve?
    ensures Safe(d, Effect(d, s, step))
  {
    var after := Effect(d, s, step);
    forall i <- after.rows ensures RowStored(d, after.rows[i], i, after.objects) && FencedInTime(d, after, i) {
      if i != step.id { assert RowStored(d, s.rows[i], i, s.objects) && FencedInTime(d, s, i); }
    }
    forall i <- after.txs ensures i in after.rows && TxOk(d, after, i, after.txs[i]) {
      assert TxOk(d, s, i, s.txs[i]);
    }
    forall r <- after.tickets ensures TicketOk(after, after.tickets[r]) {
      assert TicketOk(s, s.tickets[r]);
    }
    forall r <- after.served ensures ReadOk(d, after, r) {
      assert ReadOk(d, s, r);
    }
    forall at <- after.objects ensures Owned(after, at) {
      assert Owned(s, at);
      var i :| i in s.rows && LocationOf(s.rows[i], i) == at;
      assert LocationOf(after.rows[i], i) == at;
    }
  }

  /** Nothing the rows and open transactions depend on changes. */
  lemma Untouched(d: Deployment, s: System, after: System)
    requires Safe(d, s)
    requires after.rows == s.rows && after.objects == s.objects && after.adminDeleted == s.adminDeleted
             && after.fencedAt == s.fencedAt
    requires after.txs.Keys <= s.txs.Keys && forall id <- after.txs :: after.txs[id] == s.txs[id]
    requires forall r <- after.tickets :: TicketOk(s, after.tickets[r])
    requires forall r <- after.served :: ReadOk(d, s, r)
    ensures Safe(d, after)
  {
    forall i <- after.rows ensures RowStored(d, after.rows[i], i, after.objects) && FencedInTime(d, after, i) {
      assert RowStored(d, s.rows[i], i, s.objects) && FencedInTime(d, s, i);
    }
    forall i <- after.txs ensures i in after.rows && TxOk(d, after, i, after.txs[i]) {
      assert TxOk(d, s, i, s.txs[i]);
    }
    forall r <- after.tickets ensures TicketOk(after, after.tickets[r]) {
      assert TicketOk(s, after.tickets[r]);
    }
    forall r <- after.served ensures ReadOk(d, after, r) {
      assert ReadOk(d, s, r);
    }
    forall at <- after.objects ensures Owned(after, at) { assert Owned(s, at); }
  }

  lemma QuietKeeps(d: Deployment, s: System, step: Step)
    requires Safe(d, s) && Enabled(d, s, step)
    requires step.Abort? || step.Resolve? || step.Tick?
    ensures Safe(d, Effect(d, s, step))
  {
    hide RowsSafe, TxsSafe;
    var after := Effect(d, s, step);
    Untouched(d, s, after);
  }

  lemma FetchKeeps(d: Deployment, s: System, reader: nat)
    requires Safe(d, s) && reader in s.tickets
    ensures Safe(d, Effect(d, s, Fetch(reader)))
  {
    var t := s.tickets[reader];
    assert TicketOk(s, t);
    if t.at in s.objects {
      assert RowStored(d, s.rows[t.id], t.id, s.objects);
      assert ReadOk(d, s, Read(t.id, s.objects[t.at]));
    }
    hide RowsSafe, TxsSafe;
    Untouched(d, s, Effect(d, s, Fetch(reader)));
  }

  /** Whatever happens next, the invariant holds again. */
  lemma NextKeepsSafe(d: Deployment, s: System, step: Step)
    requires Safe(d, s)
    ensures Safe(d, Next(d, s, step))
  {
    hide Safe, Effect;
    if Enabled(d, s, step) {
      match step
      case Publish(id) => PublishKeeps(d, s, id);
      case Admin(id, op) => AdminKeeps(d, s, id, op);
      case Put(id, data, heard) => PutKeeps(d, s, id, data, heard);
      case Erase(id) => EraseKeeps(d, s, id);
      case Reserve(_, _, _, _) => ReserveKeeps(d, s, step);
      case Lock(_, _) => StagingKeeps(d, s, step);
      case StageCommit(_) => StagingKeeps(d, s, step);
      case StageFence(_) => StagingKeeps(d, s, step);
      case StagePurge(_) => StagingKeeps(d, s, step);
      case Fetch(reader) => FetchKeeps(d, s, reader);
      case _ => QuietKeeps(d, s, step);
    }
  }

  // ---------------------------------------------------------------- every interleaving

  /** The system after the first `i` steps of any interleaving, from nothing. */
  ghost function After(d: Deployment, steps: seq<Step>, i: nat): System
    requires i <= |steps|
  {
    if i == 0 then EMPTY else Next(d, After(d, steps, i - 1), steps[i - 1])
  }

  lemma {:induction false} AlwaysSafe(d: Deployment, steps: seq<Step>, i: nat)
    requires i <= |steps|
    ensures Safe(d, After(d, steps, i))
  {
    if i > 0 {
      AlwaysSafe(d, steps, i - 1);
      NextKeepsSafe(d, After(d, steps, i - 1), steps[i - 1]);
    }
  }

  /** Every available asset, and every expired one that could be restored, has its object in the
      store with exactly the committed size and checksum. */
  lemma LiveAssetHasItsBytes(d: Deployment, steps: seq<Step>, i: nat, id: Id)
    requires i <= |steps| && id in After(d, steps, i).rows
    requires HoldsContent(After(d, steps, i).rows[id])
    ensures var s := After(d, steps, i);
            var at := LocationOf(s.rows[id], id);
            at in s.objects && s.rows[id].size == Some(|s.objects[at]|)
              && s.rows[id].checksum == Some(d.digest(s.objects[at]))
  {
    AlwaysSafe(d, steps, i);
    assert RowStored(d, After(d, steps, i).rows[id], id, After(d, steps, i).objects);
  }

  /** Whatever a granted read returned is the content its asset was committed with. */
  lemma ReadsReturnCommittedBytes(d: Deployment, steps: seq<Step>, i: nat, r: Read)
    requires i <= |steps| && r in After(d, steps, i).served
    ensures r.id in After(d, steps, i).rows
    ensures After(d, steps, i).rows[r.id].size == Some(|r.data|)
    ensures After(d, steps, i).rows[r.id].checksum == Some(d.digest(r.data))
  {
    AlwaysSafe(d, steps, i);
    assert ReadOk(d, After(d, steps, i), r);
  }

  /** No bytes leak: each stored object belongs to a registered asset not yet marked purged. */
  lemma NoBytesLeak(d: Deployment, steps: seq<Step>, i: nat, at: Location)
    requires i <= |steps| && at in After(d, steps, i).objects
    ensures exists id <- After(d, steps, i).rows ::
              LocationOf(After(d, steps, i).rows[id], id) == at && After(d, steps, i).rows[id].purgedAt.None?
  {
    AlwaysSafe(d, steps, i);
    var s := After(d, steps, i);
    assert Owned(s, at);
    var id :| id in s.rows && LocationOf(s.rows[id], id) == at;
    assert RowStored(d, s.rows[id], id, s.objects);
  }

  /** Rows stay, keep their place, and never lose a purge mark or leave the deleted state. */
  ghost predicate Persists(s: System, after: System, id: Id)
    requires id in s.rows
  {
    && id in after.rows
    && LocationOf(after.rows[id], id) == LocationOf(s.rows[id], id)
    && (s.rows[id].state.Deleted? ==> after.rows[id].state.Deleted?)
    && (s.rows[id].purgedAt.Some? ==> after.rows[id].purgedAt.Some?)
    && (s.rows[id].size.Some? ==>
         after.rows[id].size == s.rows[id].size
         && after.rows[id].checksum == s.rows[id].checksum)
  }

  lemma PublishPersists(d: Deployment, s: System, id: Id)
    requires Safe(d, s) && id in s.txs
    ensures id in s.rows && Persists(s, Effect(d, s, Publish(id)), id)
  {
    assert TxOk(d, s, id, s.txs[id]) && RowStored(d, s.rows[id], id, s.objects);
    hide Safe, Matches, Enabled, StorageKey;
  }

  lemma AdminPersists(d: Deployment, s: System, id: Id, op: AdminOp)
    requires Safe(d, s) && Enabled(d, s, Admin(id, op))
    ensures Persists(s, Effect(d, s, Admin(id, op)), id)
  {
    assert RowStored(d, s.rows[id], id, s.objects);
  }

  lemma NextPersists(d: Deployment, s: System, step: Step, id: Id)
    requires Safe(d, s) && id in s.rows
    ensures Persists(s, Next(d, s, step), id)
  {
    hide Safe;
    if Enabled(d, s, step) {
      if step.Publish? && step.id == id {
        PublishPersists(d, s, id);
      } else if step.Admin? && step.id == id {
        AdminPersists(d, s, id, step.op);
      } else {
        assert Effect(d, s, step).rows == s.rows || (step.Publish? || step.Admin? || step.Reserve?);
      }
    }
  }

  lemma {:induction false} RowsPersist(d: Deployment, steps: seq<Step>, i: nat, j: nat, id: Id)
    requires i <= j <= |steps| && id in After(d, steps, i).rows
    ensures Persists(After(d, steps, i), After(d, steps, j), id)
  {
    if i < j {
      RowsPersist(d, steps, i, j - 1, id);
      AlwaysSafe(d, steps, j - 1);
      NextPersists(d, After(d, steps, j - 1), steps[j - 1], id);
    }
  }

  /** No bytes come back: once an asset is marked purged, its object is absent ever after. */
  lemma PurgedStaysGone(d: Deployment, steps: seq<Step>, i: nat, j: nat, id: Id)
    requires i <= j <= |steps| && id in After(d, steps, i).rows && After(d, steps, i).rows[id].purgedAt.Some?
    ensures LocationOf(After(d, steps, i).rows[id], id) !in After(d, steps, j).objects
  {
    RowsPersist(d, steps, i, j, id);
    AlwaysSafe(d, steps, j);
    assert RowStored(d, After(d, steps, j).rows[id], id, After(d, steps, j).objects);
  }

  /** No sweep is ahead of the clock. */
  ghost predicate ClockAhead(s: System) {
    && (forall id <- s.txs :: s.txs[id].job.SweepFence? ==> s.txs[id].job.now <= s.clock)
    && (forall id <- s.fencedAt :: s.fencedAt[id] <= s.clock)
  }

  lemma {:induction false} ClockStaysAhead(d: Deployment, steps: seq<Step>, i: nat)
    requires i <= |steps|
    ensures ClockAhead(After(d, steps, i))
  {
    if i > 0 {
      ClockStaysAhead(d, steps, i - 1);
      NextKeepsClock(d, After(d, steps, i - 1), steps[i - 1]);
    }
  }

  lemma NextKeepsClock(d: Deployment, s: System, step: Step)
    requires ClockAhead(s)
    ensures ClockAhead(Next(d, s, step))
  {
    hide AdminRow, AdminAllowed, FenceAllowed, FenceRow, StorageKey;
  }

  /** Recovery window: the bytes of an asset that was once committed, and that no administrator
      deleted, are missing only after a sweep fenced it at least the bucket's grace after its
      last expiry, so the clock has passed that grace. */
  lemma RecoveryWindow(d: Deployment, steps: seq<Step>, i: nat, id: Id)
    requires i <= |steps| && id in After(d, steps, i).rows
    requires var s := After(d, steps, i);
             s.rows[id].size.Some? && id !in s.adminDeleted && LocationOf(s.rows[id], id) !in s.objects
    ensures var s := After(d, steps, i);
            && s.rows[id].expiredAt.Some? && id in s.fencedAt
            && s.fencedAt[id] >= s.rows[id].expiredAt.value + d.graceSeconds(s.rows[id].space) * SECOND
            && s.clock >= s.rows[id].expiredAt.value + 1_000_000 * d.graceSeconds(s.rows[id].space)
  {
    ClockStaysAhead(d, steps, i);
    AlwaysSafe(d, steps, i);
    var s := After(d, steps, i);
    assert RowStored(d, s.rows[id], id, s.objects) && FencedInTime(d, s, id);
  }
}
