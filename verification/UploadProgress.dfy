/** What can always still be done: an upload can be brought to its end and read back, and whatever state an asset
    and its transaction were left in, its bytes can be purged. */
module UploadProgress {
  import opened Model
  import opened Storage
  import opened UploadProtocol

  /** The system after these steps, one after the other. */
  ghost function Then(d: Deployment, s: System, steps: seq<Step>): System
    decreases |steps|
  {
    if steps == [] then s else Then(d, Next(d, s, steps[0]), steps[1..])
  }

  lemma {:induction false} ThenOn(d: Deployment, s: System, first: seq<Step>, rest: seq<Step>)
    ensures Then(d, s, first + rest) == Then(d, Then(d, s, first), rest)
    decreases |first|
  {
    if first == [] {
      assert first + rest == rest;
    } else {
      assert (first + rest)[0] == first[0] && (first + rest)[1..] == first[1..] + rest;
      ThenOn(d, Next(d, s, first[0]), first[1..], rest);
    }
  }

  lemma ThenOne(d: Deployment, s: System, step: Step)
    ensures Then(d, s, [step]) == Next(d, s, step)
  {
    assert Then(d, Next(d, s, step), [step][1..]) == Next(d, s, step);
  }

  lemma {:induction false} ThenIsSafe(d: Deployment, s: System, steps: seq<Step>)
    requires Safe(d, s)
    ensures Safe(d, Then(d, s, steps))
    decreases |steps|
  {
    if steps != [] {
      NextKeepsSafe(d, s, steps[0]);
      ThenIsSafe(d, Next(d, s, steps[0]), steps[1..]);
    }
  }

  /** Step `k` taken, the later ones remain. */
  lemma ThenNext(d: Deployment, s: System, steps: seq<Step>, k: nat)
    requires k < |steps|
    ensures Then(d, s, steps[k..]) == Then(d, Next(d, s, steps[k]), steps[k + 1..])
  {
    assert steps[k..][0] == steps[k] && steps[k..][1..] == steps[k + 1..];
  }

  lemma Unrolled(d: Deployment, s: System, steps: seq<Step>)
    requires |steps| == 4
    ensures Then(d, s, steps) == Next(d, Next(d, Next(d, Next(d, s, steps[0]), steps[1]), steps[2]), steps[3])
  {
    hide Next, Then;
    var s1 := Next(d, s, steps[0]);
    var s2 := Next(d, s1, steps[1]);
    var s3 := Next(d, s2, steps[2]);
    assert steps[0..] == steps && steps[3..] == [steps[3]];
    ThenNext(d, s, steps, 0);
    ThenNext(d, s1, steps, 1);
    ThenNext(d, s2, steps, 2);
    ThenOne(d, s3, steps[3]);
  }

  // ---------------------------------------------------------------- an upload to its end

  /** What an undisturbed upload does, and a read of what it stored. */
  function UploadSteps(id: Id, space: Space, partition: string, data: Payload, expected: Option<string>): seq<Step> {
    [Reserve(id, space, partition, Some(|data|)), Lock(id, Upload(expected)), Put(id, data, true), StageCommit(id),
     Publish(id)]
  }

  function ReadSteps(reader: nat, id: Id): seq<Step> {
    [Resolve(reader, id), Fetch(reader)]
  }

  /** From any state, a new asset can be uploaded: it is then available with its size and checksum, its bytes are in
      place, nobody holds its row, and nothing else has changed. */
  lemma UploadCanFinish(d: Deployment, s: System, id: Id, space: Space, partition: string, data: Payload,
                        expected: Option<string>)
    requires Safe(d, s) && id !in s.rows && '/' !in id
    requires d.digest(data) != "" && (expected.Some? ==> expected.value == d.digest(data))
    ensures var after := Then(d, s, UploadSteps(id, space, partition, data, expected));
            && id in after.rows
            && var a := after.rows[id];
               && a.state == Available && a.space == space && a.partition == partition
               && a.size == Some(|data|) && a.checksum == Some(d.digest(data))
               && after == s.(rows := s.rows[id := a], objects := s.objects[LocationOf(a, id) := data])
  {
    var steps := UploadSteps(id, space, partition, data, expected);
    var first := steps[0];
    assert steps == [first] + steps[1..];
    ThenOn(d, s, [first], steps[1..]);
    ThenOne(d, s, first);
    assert id !in s.txs;
    hide Safe;
    var s1 := Next(d, s, first);
    var a := s1.rows[id];
    assert s1 == s.(rows := s.rows[id := a]);
    LockedUploadCanFinish(d, s1, id, data, expected);
    hide Then;
    var after := Then(d, s1, steps[1..]);
    assert s.rows[id := a][id := after.rows[id]] == s.rows[id := after.rows[id]];
  }

  lemma LockedUploadCanFinish(d: Deployment, s: System, id: Id, data: Payload, expected: Option<string>)
    requires id in s.rows && id !in s.txs && s.rows[id].state == Pending && s.rows[id].reserved == Some(|data|)
    requires d.digest(data) != "" && (expected.Some? ==> expected.value == d.digest(data))
    ensures var after := Then(d, s, [Lock(id, Upload(expected)), Put(id, data, true), StageCommit(id), Publish(id)]);
            var a := CommitRow(s.rows[id], |data|, d.digest(data), s.clock);
            after == s.(rows := s.rows[id := a], objects := s.objects[LocationOf(a, id) := data])
  {
    hide StorageKey, FenceAllowed, SweepAllowed, AdminAllowed;
    var steps := [Lock(id, Upload(expected)), Put(id, data, true), StageCommit(id), Publish(id)];
    var s2 := Next(d, s, steps[0]);
    var s3 := Next(d, s2, steps[1]);
    var s4 := Next(d, s3, steps[2]);
    assert s3.txs[id] == Tx(Upload(expected), s.rows[id], Some(Stat(|data|, d.digest(data))), false);
    assert s4.txs - {id} == s.txs;
    Unrolled(d, s, steps);
  }

  /** Whatever is available can be read, and the read returns the bytes in its place. */
  lemma ReadCanFinish(d: Deployment, s: System, reader: nat, id: Id)
    requires Safe(d, s) && id in s.rows && s.rows[id].state == Available
    ensures var at := LocationOf(s.rows[id], id);
            at in s.objects && Then(d, s, ReadSteps(reader, id)).served == s.served + [Read(id, s.objects[at])]
  {
    assert RowStored(d, s.rows[id], id, s.objects);
    var steps := ReadSteps(reader, id);
    assert steps[1..] == [steps[1]];
    ThenOne(d, Next(d, s, steps[0]), steps[1]);
    hide Safe, StorageKey;
  }

  // ---------------------------------------------------------------- nothing is stuck

  /** An administrator can delete what is available; anything else is fenced by a sweep once its time has come. */
  function FenceSteps(d: Deployment, s: System, id: Id): seq<Step>
    requires id in s.rows
  {
    var a := s.rows[id];
    match a.state
    case Deleted => []
    case Available => [Admin(id, AdminDelete)]
    case Pending =>
      var wait := Wait(a.createdAt + d.pendingSeconds * SECOND - s.clock);
      SweepSteps(s, id, Orphan, wait)
    case Expired =>
      var from := if a.expiredAt.Some? then a.expiredAt.value else a.updatedAt;
      var wait := Wait(from + d.graceSeconds(a.space) * SECOND - s.clock);
      SweepSteps(s, id, PastGrace, wait)
  }

  function Wait(n: int): nat { if n < 0 then 0 else n }

  function PurgeSteps(id: Id): seq<Step> {
    [Lock(id, Purge), Erase(id), StagePurge(id), Publish(id)]
  }

  /** Whoever held the row gives up. */
  function FreeSteps(s: System, id: Id): seq<Step> {
    if id in s.txs then [Abort(id)] else []
  }

  ghost predicate Purged(s: System, id: Id) {
    id in s.rows && s.rows[id].state == Deleted && s.rows[id].purgedAt.Some? && LocationOf(s.rows[id], id) !in s.objects
  }

  lemma FreeWorks(d: Deployment, s: System, id: Id)
    ensures Then(d, s, FreeSteps(s, id)) == s.(txs := s.txs - {id})
  {
    if id in s.txs { ThenOne(d, s, Abort(id)); } else { assert s.txs - {id} == s.txs; }
  }

  function SweepSteps(s: System, id: Id, reason: Reason, wait: nat): seq<Step>
    requires id in s.rows
  {
    [Tick(wait), Lock(id, SweepFence(s.rows[id], reason, s.clock + wait)), StageFence(id), Publish(id)]
  }

  lemma SweepCanFence(d: Deployment, s: System, id: Id, reason: Reason, wait: nat)
    requires id in s.rows && id !in s.txs && s.rows[id].purgedAt == None && reason != Evict
    requires SweepAllowed(d, s.rows[id], reason, s.clock + wait)
    ensures var after := Then(d, s, SweepSteps(s, id, reason, wait));
            && after.rows == s.rows[id := DeleteRow(s.rows[id], s.clock + wait)] && id !in after.txs
            && after.objects == s.objects
  {
    hide StorageKey, SweepAllowed, AdminAllowed;
    var steps := SweepSteps(s, id, reason, wait);
    var s1 := Next(d, s, steps[0]);
    var s2 := Next(d, s1, steps[1]);
    var s3 := Next(d, s2, steps[2]);
    assert s3.txs[id].row == DeleteRow(s.rows[id], s.clock + wait);
    Unrolled(d, s, steps);
  }

  lemma AdminCanFence(d: Deployment, s: System, id: Id)
    requires id in s.rows && id !in s.txs && s.rows[id].state == Available
    ensures var after := Then(d, s, [Admin(id, AdminDelete)]);
            && after.rows == s.rows[id := DeleteRow(s.rows[id], s.clock)] && id !in after.txs
            && after.objects == s.objects
  {
    ThenOne(d, s, Admin(id, AdminDelete));
    hide Then;
  }

  lemma FenceCanFinish(d: Deployment, s: System, id: Id)
    requires Safe(d, s) && id in s.rows && id !in s.txs && s.rows[id].purgedAt == None
    ensures var after := Then(d, s, FenceSteps(d, s, id));
            && id in after.rows && id !in after.txs && after.rows[id].state == Deleted
               && after.rows[id].purgedAt == None
            && after.objects == s.objects && LocationOf(after.rows[id], id) == LocationOf(s.rows[id], id)
  {
    assert RowStored(d, s.rows[id], id, s.objects);
    var a := s.rows[id];
    assert Coherent(a);
    hide Safe, StorageKey, RowStored, SweepSteps, Then;
    match a.state
    case Deleted =>
    case Available => AdminCanFence(d, s, id);
    case Pending => SweepCanFence(d, s, id, Orphan, Wait(a.createdAt + d.pendingSeconds * SECOND - s.clock));
    case Expired =>
      SweepCanFence(d, s, id, PastGrace, Wait(a.expiredAt.value + d.graceSeconds(a.space) * SECOND - s.clock));
  }

  lemma PurgeCanFinish(d: Deployment, s: System, id: Id)
    requires id in s.rows && id !in s.txs && s.rows[id].state == Deleted && s.rows[id].purgedAt == None
    ensures Purged(Then(d, s, PurgeSteps(id)), id)
  {
    hide StorageKey, FenceAllowed, AdminAllowed;
    Unrolled(d, s, PurgeSteps(id));
  }

  /** From every state a run can reach, with uploads, clean-ups and sweeps broken off anywhere, every asset whose
      bytes were not purged can be brought to a state where they are. */
  lemma EveryAssetCanBePurged(d: Deployment, s: System, id: Id)
    requires Safe(d, s) && id in s.rows && s.rows[id].purgedAt == None
    ensures exists steps :: Purged(Then(d, s, steps), id)
  {
    var free := FreeSteps(s, id);
    FreeWorks(d, s, id);
    var s1 := Then(d, s, free);
    ThenIsSafe(d, s, free);
    var fence := FenceSteps(d, s1, id);
    FenceCanFinish(d, s1, id);
    var s2 := Then(d, s1, fence);
    PurgeCanFinish(d, s2, id);
    hide Safe, Then, FenceSteps, PurgeSteps, FreeSteps;
    ThenOn(d, s, free, fence);
    ThenOn(d, s, free + fence, PurgeSteps(id));
  }

  // ---------------------------------------------------------------- what a commit and a fence ask for

  /** A commit is staged exactly for a pending row whose put was answered: with a checksum, the expected one if any,
      and of the size reserved if any. */
  lemma CommitIsChecked(d: Deployment, s: System, id: Id)
    ensures var after := Next(d, s, StageCommit(id));
            if id in s.txs && s.txs[id].job.Upload? && s.txs[id].row.state == Pending && s.txs[id].stat.Some?
               && s.txs[id].stat.value.checksum != ""
               && (s.txs[id].job.expected == None || s.txs[id].job.expected == Some(s.txs[id].stat.value.checksum))
               && (s.txs[id].row.reserved == None || s.txs[id].row.reserved == Some(s.txs[id].stat.value.size)) then
              var a, stat := s.txs[id].row, s.txs[id].stat.value;
              after == s.(txs := s.txs[id := s.txs[id].(row := a.(state := Available, size := Some(stat.size),
                                                                   reserved := None, checksum := Some(stat.checksum),
                                                                   updatedAt := s.clock))])
            else after == s
  {
  }

  /** An upload pending too long, an asset expired for its grace. */
  predicate Overdue(d: Deployment, a: Asset, reason: Reason, now: int) {
    match reason
    case Orphan => a.state == Pending && now >= a.createdAt + 1_000_000 * d.pendingSeconds
    case PastGrace =>
      a.state == Expired && a.expiredAt.Some? && now >= a.expiredAt.value + 1_000_000 * d.graceSeconds(a.space)
    case Evict => a.state == Available
  }

  /** A fence is staged exactly for a failed upload still pending, or for what a sweep saw, if the row has not changed
      since and its time was up by the sweep's clock. An eviction expires the asset, every other fence deletes it. */
  lemma FenceIsChecked(d: Deployment, s: System, id: Id)
    ensures var after := Next(d, s, StageFence(id));
            if id in s.txs && s.txs[id].row.purgedAt == None && s.txs[id].job == CleanupFence
               && s.txs[id].row.state == Pending then
              var a := s.txs[id].row;
              after == s.(txs := s.txs[id := s.txs[id].(row := a.(state := Deleted, updatedAt := s.clock))])
            else if id in s.txs && s.txs[id].row.purgedAt == None && s.txs[id].job.SweepFence?
                    && s.txs[id].row == s.txs[id].job.snapshot
                    && Overdue(d, s.txs[id].row, s.txs[id].job.reason, s.txs[id].job.now) then
              var a, now := s.txs[id].row, s.txs[id].job.now;
              after == s.(txs := s.txs[id := s.txs[id].(row :=
                 if s.txs[id].job.reason == Evict then a.(state := Expired, updatedAt := now, expiredAt := Some(now))
                 else a.(state := Deleted, updatedAt := now))])
            else after == s
  {
    hide StorageKey;
  }

  /** Bytes are erased only while the row is held, deleted and not yet marked purged, and the mark is set only after. */
  lemma PurgeIsChecked(d: Deployment, s: System, id: Id)
    ensures var erased, marked := Next(d, s, Erase(id)), Next(d, s, StagePurge(id));
            && (if id in s.txs && s.txs[id].job == Purge && s.txs[id].row.state == Deleted
                   && s.txs[id].row.purgedAt == None
                then erased.objects == s.objects - {LocationOf(s.txs[id].row, id)} && erased.rows == s.rows
                else erased == s)
            && (if id in s.txs && s.txs[id].job == Purge && s.txs[id].erased && s.txs[id].row.purgedAt == None then
                  marked.txs == s.txs[id := s.txs[id].(row := s.txs[id].row.(state := Deleted, updatedAt := s.clock,
                                                                             purgedAt := Some(s.clock)))]
                  && marked.rows == s.rows
                else marked == s)
  {
  }
}
