/** Proxy uploads and reads: a new asset is reserved, its bytes stored and the asset committed; what
    fails on the way is cleaned up. A read returns what was committed under the same alias. */
module GuardFlow {
  import opened Model
  import opened RegistrySpec
  import opened RegistryLaws
  import opened RegistryCopies
  import opened Registry
  import opened Storage
  import opened Paths
  import opened Ledger
  import opened Guard

  type Objects = map<Location, Payload>

  /** One clock reading per operation that takes one. */
  datatype Readings =
    Readings(check: int, lookup: int, reserve: int, commit: int, fence: int, purge: int, use: int)

  /** What the byte store does when asked: a put may fail before or after it took effect. */
  datatype PutResult = Done | Lost | StoredUnheard

  datatype Faults = Faults(put: PutResult, deleteFails: bool)

  datatype Request = Request(
    space: Space,
    partition: string,
    name: string,
    isMutable: bool,
    data: Payload,
    expected: Option<string>,
    ttl: Option<int>)

  datatype Uploaded = Uploaded(world: World, objects: Objects, out: Outcome)

  datatype GuardError = BadAlias | CapabilityDenied | CapabilityConsumed | ObjectMissing | Declined(error: Error)

  datatype WriteOutcome = Written(id: Id) | NotWritten(reason: GuardError)

  datatype ReadOutcome = Bytes(id: Id, data: Payload) | NotRead(reason: GuardError)

  // ---------------------------------------------------------------- specification

  function FirstAlias(r: Request): seq<(string, bool)> {
    [(r.name, r.isMutable)]
  }

  ghost function ReserveFor(cfg: Config, w: World, id: Id, r: Request, now: int): Step {
    ApplyReserve(cfg, w, id, r.space, r.partition, FirstAlias(r), Inherit, map[], r.ttl, Some(|r.data|), now)
  }

  /** Marks a failed upload deleted, then deletes its bytes and records that; anything past pending, and
      a deletion that fails, is left to the sweeper. */
  ghost function CleanUp(w: World, objects: Objects, id: Id, at: Location, deleteFails: bool, t: Readings)
    : (World, Objects)
  {
    if id !in w.assets then (w, objects)
    else
      var fenced :=
        if w.assets[id].state.Pending? then ApplyLifecycle(w, id, Full(w, id), Deleted, false, t.fence)
          else Step(w, Ok);
      if fenced.out.Err? || id !in fenced.world.assets then (fenced.world, objects)
      else
        var a := fenced.world.assets[id];
        if !a.state.Deleted? || a.purgedAt.Some? || deleteFails then (fenced.world, objects)
        else
          (ApplyLifecycle(fenced.world, id, Full(fenced.world, id), Deleted, true, t.purge).world, objects - {at})
  }

  function AfterPut(objects: Objects, at: Location, data: Payload, put: PutResult): Objects {
    if put.Lost? then objects else objects[at := data]
  }

  ghost function Upload(cfg: Config, digest: Payload -> string, w: World, objects: Objects, id: Id, r: Request,
                        f: Faults,
                        t: Readings): Uploaded
  {
    var reserved := ReserveFor(cfg, w, id, r, t.reserve);
    if reserved.out.Err? || id !in reserved.world.assets then Uploaded(reserved.world, objects, reserved.out)
    else
      var at := LocationOf(reserved.world.assets[id], id);
      var stored := AfterPut(objects, at, r.data, f.put);
      var done :=
        if f.put.Done? then ApplyCommit(cfg, reserved.world, id, |r.data|, digest(r.data), r.expected, t.commit)
        else Step(reserved.world, Err(StoreUnavailable));
      if done.out.Ok? then Uploaded(done.world, stored, Ok)
      else
        var left := CleanUp(done.world, stored, id, at, f.deleteFails, t);
        Uploaded(left.0, left.1, done.out)
  }

  // ---------------------------------------------------------------- what an upload does

  lemma ReservedRow(cfg: Config, w: World, id: Id, r: Request, now: int) returns (a: Asset)
    requires id !in w.assets && ReserveFor(cfg, w, id, r, now).out.Ok?
    ensures var s := ReserveFor(cfg, w, id, r, now).world;
            var key := (r.space, UnderPartition(r.partition, r.name));
            && s.assets == w.assets[id := a] && s.names == w.names[key := Binding(Some(id), r.isMutable, None)]
            && s.partitionLimits == w.partitionLimits && s.bucketLimits == w.bucketLimits && key !in w.names
    ensures a.state.Pending? && a.space == r.space && a.partition == r.partition && a.reserved == Some(|r.data|)
            && a.size.None?
            && a.purgedAt.None? && a.aliases == {} && Coherent(a) && a.policy == Inherit
    ensures Admission(cfg, w, r.space, r.partition, |r.data|, None).Ok?
    ensures a.expiresAt.Some? ==> a.expiresAt.value > now
  {
    var cleared := ClearNames(w.names, w.tombs, ScopedKeys(r.space, r.partition, FirstAlias(r)), now);
    var w1 := w.(tombs := cleared.tombs);
    var d := ReserveDecision(cfg, w1, r.space, r.partition, r.ttl, Some(|r.data|), now);
    assert ScopedKeys(r.space, r.partition, FirstAlias(r))[0] == (r.space, UnderPartition(r.partition, r.name));
    a := PendingRow(r.space, r.partition, Inherit, map[], Some(|r.data|), d.deadline, now);
    hide ClearNames, Admission, LoadOf, Refusal, Total;
    assert Bind(w.names, id, r.space, r.partition, []) == w.names;
    assert FirstAlias(r)[..0] == [];
  }

  /** A reservation just made is always honoured: the very same sums decide, without its own row. */
  lemma SameRoomAtCommit(cfg: Config, w: World, s: World, id: Id, a: Asset, bytes: nat)
    requires id !in w.assets && s.assets == w.assets[id := a] && a.state.Pending?
    requires s.partitionLimits == w.partitionLimits && s.bucketLimits == w.bucketLimits
    ensures Admission(cfg, s, a.space, a.partition, bytes, Some(id))
            == Admission(cfg, w, a.space, a.partition, bytes, None)
  {
    assert s.assets - {id} == w.assets;
    TotalUpdate(w.assets, UsedBytes(a.space, a.partition), id, a);
    TotalUpdate(w.assets, UsedCount(a.space, a.partition), id, a);
    TotalUpdate(w.assets, BucketUsed(a.space), id, a);
  }

  predicate Accepts(expected: Option<string>, checksum: string) {
    checksum != "" && (expected.Some? ==> expected.value == checksum)
  }

  /** A granted upload fails only for its checksum. */
  lemma CommitFollowsReserve(cfg: Config, digest: Payload -> string, w: World, id: Id, r: Request, t: Readings)
    requires id !in w.assets && ReserveFor(cfg, w, id, r, t.reserve).out.Ok?
    ensures var s := ReserveFor(cfg, w, id, r, t.reserve).world;
            var done := ApplyCommit(cfg, s, id, |r.data|, digest(r.data), r.expected, t.commit);
            && (done.out.Ok? <==> Accepts(r.expected, digest(r.data)))
            && (done.out.Ok? ==>
                 done.world.names == s.names
                 && done.world.assets == s.assets[id := CommitRow(s.assets[id], |r.data|, digest(r.data), t.commit)])
            && (done.out.Err? ==> done.world == s)
  {
    var a := ReservedRow(cfg, w, id, r, t.reserve);
    var s := ReserveFor(cfg, w, id, r, t.reserve).world;
    SameRoomAtCommit(cfg, w, s, id, a, |r.data|);
    hide ReserveFor, Admission;
  }

  lemma CleanUpPending(w: World, objects: Objects, id: Id, at: Location, deleteFails: bool, t: Readings)
    requires id in w.assets && w.assets[id].state.Pending? && w.assets[id].purgedAt.None?
    ensures var left := CleanUp(w, objects, id, at, deleteFails, t);
            var fenced := DeleteRow(w.assets[id], t.fence);
            && left.0.names == w.names && left.1 == (if deleteFails then objects else objects - {at})
            && left.0.assets == w.assets[id := if deleteFails then fenced else PurgeRow(fenced, t.purge)]
  {
    var fenced := ApplyLifecycle(w, id, Full(w, id), Deleted, false, t.fence);
    assert fenced.out.Ok?;
    assert ApplyLifecycle(fenced.world, id, Full(fenced.world, id), Deleted, true, t.purge).out.Ok?;
  }

  /** One available row and its bytes are new, the alias is bound, and nothing else changed. */
  ghost predicate Stored(digest: Payload -> string, w: World, objects: Objects, id: Id, r: Request, t: Readings,
                         u: Uploaded) {
    var key := (r.space, UnderPartition(r.partition, r.name));
    && id in u.world.assets
    && var a := u.world.assets[id];
       && a.state.Available? && a.size == Some(|r.data|) && a.checksum == Some(digest(r.data))
       && a.space == r.space && a.partition == r.partition
       && (a.expiresAt.Some? ==> a.expiresAt.value > t.reserve)
       && u.world.assets == w.assets[id := a] && u.objects == objects[LocationOf(a, id) := r.data]
       && u.world.names == w.names[key := Binding(Some(id), r.isMutable, None)] && key !in w.names
  }

  /** A deleted row is left under the alias and nothing that was there changed. Unless the deletion failed the
      row is purged and no bytes stay; otherwise both wait for the sweeper. */
  ghost predicate Undone(w: World, objects: Objects, id: Id, r: Request, f: Faults, t: Readings, u: Uploaded) {
    var key := (r.space, UnderPartition(r.partition, r.name));
    && id in u.world.assets
    && var a := u.world.assets[id];
       && a.state.Deleted? && a.space == r.space && a.partition == r.partition
       && a.size.None? && a.reserved == Some(|r.data|) && a.purgedAt == (if f.deleteFails then None else Some(t.purge))
       && u.world.assets == w.assets[id := a]
       && u.objects == (if f.deleteFails then AfterPut(objects, LocationOf(a, id), r.data, f.put)
                        else objects - {LocationOf(a, id)})
       && u.world.names == w.names[key := Binding(Some(id), r.isMutable, None)]
  }

  lemma UploadStores(cfg: Config, digest: Payload -> string, w: World, objects: Objects, id: Id, r: Request, f: Faults,
                     t: Readings)
    requires id !in w.assets && ReserveFor(cfg, w, id, r, t.reserve).out.Ok?
    requires f.put.Done? && Accepts(r.expected, digest(r.data))
    ensures var u := Upload(cfg, digest, w, objects, id, r, f, t); u.out.Ok? && Stored(digest, w, objects, id, r, t, u)
  {
    hide ReserveFor, ApplyCommit, CleanUp, Admission, UnderPartition, StorageKey, Coherent;
    var a := ReservedRow(cfg, w, id, r, t.reserve);
    CommitFollowsReserve(cfg, digest, w, id, r, t);
    var b := CommitRow(a, |r.data|, digest(r.data), t.commit);
    assert w.assets[id := a][id := b] == w.assets[id := b];
  }

  lemma UploadUndoes(cfg: Config, digest: Payload -> string, w: World, objects: Objects, id: Id, r: Request, f: Faults,
                     t: Readings)
    requires id !in w.assets && ReserveFor(cfg, w, id, r, t.reserve).out.Ok?
    requires !(f.put.Done? && Accepts(r.expected, digest(r.data)))
    ensures var u := Upload(cfg, digest, w, objects, id, r, f, t); u.out.Err? && Undone(w, objects, id, r, f, t, u)
  {
    hide ReserveFor, ApplyCommit, Admission, UnderPartition, StorageKey, Coherent;
    var a := ReservedRow(cfg, w, id, r, t.reserve);
    CommitFollowsReserve(cfg, digest, w, id, r, t);
    var s := ReserveFor(cfg, w, id, r, t.reserve).world;
    var at := LocationOf(a, id);
    var stored := AfterPut(objects, at, r.data, f.put);
    assert stored - {at} == objects - {at};
    hide CleanUp, AfterPut;
    CleanUpPending(s, stored, id, at, f.deleteFails, t);
    var fenced := DeleteRow(a, t.fence);
    var b := if f.deleteFails then fenced else PurgeRow(fenced, t.purge);
    assert w.assets[id := a][id := b] == w.assets[id := b];
  }

  /** An upload succeeds exactly when its reservation is granted, the put succeeds and its checksum is the
      expected one; a refused reservation changes no asset, name or object. */
  lemma UploadLaws(cfg: Config, digest: Payload -> string, w: World, objects: Objects, id: Id, r: Request, f: Faults,
                   t: Readings)
    requires id !in w.assets
    ensures var granted := ReserveFor(cfg, w, id, r, t.reserve).out.Ok?;
            var u := Upload(cfg, digest, w, objects, id, r, f, t);
            && (u.out.Ok? <==> granted && f.put.Done? && Accepts(r.expected, digest(r.data)))
            && (u.out.Ok? ==> Stored(digest, w, objects, id, r, t, u))
            && (!granted ==> u.world.assets == w.assets && u.world.names == w.names && u.objects == objects)
            && (granted && u.out.Err? ==> Undone(w, objects, id, r, f, t, u))
  {
    hide Stored, Undone;
    if ReserveFor(cfg, w, id, r, t.reserve).out.Ok? {
      hide ReserveFor, Upload;
      if f.put.Done? && Accepts(r.expected, digest(r.data)) {
        UploadStores(cfg, digest, w, objects, id, r, f, t);
      } else {
        UploadUndoes(cfg, digest, w, objects, id, r, f, t);
      }
    }
  }

  /** A failed upload leaves no trace in any sum the quotas and ceilings are computed from, but for the
      physical bytes it goes on occupying when their deletion failed too. */
  lemma FailedUploadFreesItsRoom(cfg: Config, digest: Payload -> string, w: World, objects: Objects, id: Id,
                                 r: Request, f: Faults,
                                 t: Readings, m: Measure)
    requires id !in w.assets && Upload(cfg, digest, w, objects, id, r, f, t).out.Err?
    ensures var kept := ReserveFor(cfg, w, id, r, t.reserve).out.Ok? && f.deleteFails && m == Physical(r.space);
            Total(Upload(cfg, digest, w, objects, id, r, f, t).world.assets, m)
            == Total(w.assets, m) + if kept then |r.data| else 0
  {
    hide Upload, ReserveFor, Stored, Total, Accepts, LocationOf, UnderPartition;
    UploadLaws(cfg, digest, w, objects, id, r, f, t);
    var after := Upload(cfg, digest, w, objects, id, r, f, t).world.assets;
    if ReserveFor(cfg, w, id, r, t.reserve).out.Ok? {
      TotalUpdate(w.assets, m, id, after[id]);
    }
  }

  // ---------------------------------------------------------------- the guard

  /** Everything a write is given: the caller's request, whether its service may write to the bucket, the
      fresh identifier, and what store and clock answer. */
  datatype WriteCall = WriteCall(
    cap: Capability,
    alias: string,
    permitted: bool,
    id: Id,
    data: Payload,
    isMutable: bool,
    expected: Option<string>,
    ttl: Option<int>,
    faults: Faults,
    t: Readings)

  datatype ReadCall = ReadCall(cap: Capability, alias: string, permitted: bool, t: Readings)

  class StorageGuard {
    const registry: InMemoryAssetRegistry
    const store: LocalObjectStore
    const ledger: SingleUseLedger

    constructor (registry: InMemoryAssetRegistry, store: LocalObjectStore, ledger: SingleUseLedger)
      ensures this.registry == registry && this.store == store && this.ledger == ledger
    {
      this.registry, this.store, this.ledger := registry, store, ledger;
    }

    /** Fences the failed upload before its bytes are deleted; anything unexpected is left to the sweeper. */
    method CleanupFailedUpload(id: Id, at: Location, deleteFails: bool, t: Readings)
      requires registry.Valid()
      modifies registry, store
      ensures registry.Valid()
      ensures (registry.View(), store.objects) == CleanUp(old(registry.View()), old(store.objects), id, at,
                                                          deleteFails, t)
    {
      if id !in registry.assets { return; }
      assert Full(registry.View(), id) == registry.assets[id];
      if registry.assets[id].state.Pending? {
        var out := registry.LifecycleUpdate(id, registry.assets[id], Deleted, false, t.fence);
        if out.Err? { return; }
      }
      assert Full(registry.View(), id) == registry.assets[id];
      if registry.assets[id].purgedAt.Some? || !registry.assets[id].state.Deleted? { return; }
      if deleteFails { return; }
      store.Delete(at);
      var _ := registry.LifecycleUpdate(id, registry.assets[id], Deleted, true, t.purge);
    }

    /** Reserve, put, commit. */
    method UploadNew(id: Id, r: Request, f: Faults, t: Readings) returns (out: Outcome)
      requires registry.Valid() && id !in registry.assets
      modifies registry, store
      ensures registry.Valid()
      ensures Uploaded(registry.View(), store.objects, out)
           == Upload(registry.cfg, store.digest, old(registry.View()), old(store.objects), id, r, f, t)
    {
      hide CleanUp, InMemoryAssetRegistry.Valid;
      out := registry.ReserveAsset(id, r.space, r.partition, FirstAlias(r), Inherit, map[], r.ttl, Some(|r.data|),
                                   t.reserve);
      if out.Err? { return; }
      assert id in registry.View().assets;
      assert LocationOf(registry.assets[id], id) == LocationOf(registry.View().assets[id], id);
      var at := LocationOf(registry.assets[id], id);
      hide ApplyReserve, InMemoryAssetRegistry.View;
      if !f.put.Lost? {
        var stat := store.Put(at, r.data);
        if f.put.Done? {
          out := registry.CommitAsset(id, stat.size, stat.checksum, r.expected, t.commit);
        }
      }
      if !f.put.Done? { out := Err(StoreUnavailable); }
      hide ApplyCommit;
      if out.Err? { CleanupFailedUpload(id, at, f.deleteFails, t); }
    }

    method WriteObject(c: WriteCall) returns (out: WriteOutcome)
      requires registry.Valid() && c.id !in registry.assets
      modifies registry, store, ledger
      ensures registry.Valid()
      ensures (Guarded(registry.View(), store.objects, ledger.consumed), out)
           == WriteEffect(registry.cfg, store.digest,
                          Guarded(old(registry.View()), old(store.objects), old(ledger.consumed)), c)
      ensures var alias := ParseAlias(c.alias);
              out.Written? ==> alias.Some? && Entitled(c.cap, WriteOperation, alias.value.qualified, c.t.check)
    {
      hide Upload, InMemoryAssetRegistry.Valid, InMemoryAssetRegistry.View, ParseAlias, Allows, Normalize, Live,
        ScopedName, Entitled;
      var parsed := ParseAlias(c.alias);
      if parsed.None? { return NotWritten(BadAlias); }
      var p := parsed.value;
      EntitledIs(c.cap, WriteOperation, p.qualified, c.t.check);
      if !Allows(c.cap, WriteOperation, p.qualified, c.t.check) { return NotWritten(CapabilityDenied); }
      var unused := ledger.AssertUnused(c.cap, c.t.lookup);
      if !unused { return NotWritten(CapabilityConsumed); }
      if !c.permitted { return NotWritten(CapabilityDenied); }
      var partition, name := Normalize(p.partition), ScopedName(p);
      if partition.None? || name.None? { return NotWritten(Declined(ValidationError)); }
      var done := UploadNew(c.id, RequestOf(c, p.space, partition.value, name.value), c.faults, c.t);
      if done.Err? { return NotWritten(Declined(done.error)); }
      var accepted := ledger.RecordSuccessfulUse(c.cap, c.t.use);
      if !accepted { return NotWritten(CapabilityConsumed); }
      return Written(c.id);
    }

    /** A read counts, and a single-use capability is spent, only once the bytes are in hand. */
    method ReadBytes(c: ReadCall) returns (out: ReadOutcome)
      requires registry.Valid()
      modifies registry, ledger
      ensures registry.Valid()
      ensures (Guarded(registry.View(), store.objects, ledger.consumed), out)
           == ReadEffect(Guarded(old(registry.View()), old(store.objects), old(ledger.consumed)), c)
      ensures var alias := ParseAlias(c.alias);
              out.Bytes? ==> alias.Some? && Entitled(c.cap, ReadOperation, alias.value.qualified, c.t.check)
    {
      hide ParseAlias, Allows, Normalize, Live, Inv, CountersOk, AliasSetsOk, PartitionLimitsView, BucketLimitsView,
        Entitled;
      var parsed := ParseAlias(c.alias);
      if parsed.None? { return NotRead(BadAlias); }
      var p := parsed.value;
      EntitledIs(c.cap, ReadOperation, p.qualified, c.t.check);
      if !Allows(c.cap, ReadOperation, p.qualified, c.t.check) { return NotRead(CapabilityDenied); }
      var unused := ledger.AssertUnused(c.cap, c.t.lookup);
      if !unused { return NotRead(CapabilityConsumed); }
      if !c.permitted { return NotRead(CapabilityDenied); }
      var key := ReadKey(p);
      if key.None? { return NotRead(Declined(ValidationError)); }
      ResolvePlain(registry.assets, registry.aliases, key.value, c.t.reserve);
      var found, id := registry.ResolveAlias(key.value, c.t.reserve);
      if found.Err? { return NotRead(Declined(found.error)); }
      assert LocationOf(registry.assets[id], id) == LocationOf(registry.View().assets[id], id);
      hide InMemoryAssetRegistry.Valid;
      var data := store.Get(LocationOf(registry.assets[id], id));
      if data.None? { return NotRead(ObjectMissing); }
      var _ := registry.RecordSuccessfulRead(id, c.t.commit);
      var accepted := ledger.RecordSuccessfulUse(c.cap, c.t.use);
      if !accepted { return NotRead(CapabilityConsumed); }
      return Bytes(id, data.value);
    }
  }

  lemma ResolvePlain(assets: map<Id, Asset>, names: map<Key, Binding>, key: Key, now: int)
    ensures Resolve(Plain(assets), names, key, now) == Resolve(assets, names, key, now)
  {
  }

  // ---------------------------------------------------------------- writing, then reading

  datatype Guarded = Guarded(world: World, objects: Objects, consumed: Consumed)

  /** The request a write makes; the name is already scoped. */
  function RequestOf(c: WriteCall, space: Space, partition: string, name: string): Request {
    Request(space, partition, name, c.isMutable, c.data, c.expected, c.ttl)
  }

  ghost function WriteEffect(cfg: Config, digest: Payload -> string, g: Guarded, c: WriteCall)
    : (Guarded, WriteOutcome)
  {
    var parsed := ParseAlias(c.alias);
    if parsed.None? then (g, NotWritten(BadAlias))
    else
      var p := parsed.value;
      var live := g.(consumed := Live(g.consumed, c.t.lookup));
      if !Allows(c.cap, WriteOperation, p.qualified, c.t.check) then (g, NotWritten(CapabilityDenied))
      else if c.cap.singleUse && c.cap.id in live.consumed then (live, NotWritten(CapabilityConsumed))
      else if !c.permitted then (live, NotWritten(CapabilityDenied))
      else
        var partition, name := Normalize(p.partition), ScopedName(p);
        if partition.None? || name.None? then (live, NotWritten(Declined(ValidationError)))
        else
          var u := Upload(cfg, digest, g.world, g.objects, c.id, RequestOf(c, p.space, partition.value, name.value),
                          c.faults, c.t);
          if u.out.Err? then (Guarded(u.world, u.objects, live.consumed), NotWritten(Declined(u.out.error)))
          else
            var used := RecordForgetting(live.consumed, c.cap, c.t.use);
            (Guarded(u.world, u.objects, used.0), if used.1 then Written(c.id) else NotWritten(CapabilityConsumed))
  }

  ghost function ReadEffect(g: Guarded, c: ReadCall): (Guarded, ReadOutcome) {
    var parsed := ParseAlias(c.alias);
    if parsed.None? then (g, NotRead(BadAlias))
    else
      var p := parsed.value;
      var live := g.(consumed := Live(g.consumed, c.t.lookup));
      var key := ReadKey(p);
      if !Allows(c.cap, ReadOperation, p.qualified, c.t.check) then (g, NotRead(CapabilityDenied))
      else if c.cap.singleUse && c.cap.id in live.consumed then (live, NotRead(CapabilityConsumed))
      else if !c.permitted then (live, NotRead(CapabilityDenied))
      else if key.None? then (live, NotRead(Declined(ValidationError)))
      else
        var found := Resolve(g.world.assets, g.world.names, key.value, c.t.reserve);
        if found.Err? then (live, NotRead(Declined(found.error)))
        else
          var id := g.world.names[key.value].asset.value;
          var at := LocationOf(g.world.assets[id], id);
          if at !in g.objects then (live, NotRead(ObjectMissing))
          else
            var used := RecordForgetting(live.consumed, c.cap, c.t.use);
            (Guarded(ApplyRecordRead(g.world, id, c.t.commit).world, g.objects, used.0),
             if used.1 then Bytes(id, g.objects[at]) else NotRead(CapabilityConsumed))
  }

  lemma NothingBoundToNew(w: World, id: Id, key: Key)
    requires Inv(w) && id !in w.assets && key in w.names
    ensures w.names[key].asset != Some(id)
  {
    assert BindingOk(w.assets, key, w.names[key]);
  }

  /** What a successful write uploaded. */
  lemma UploadOfWrite(cfg: Config, digest: Payload -> string, g: Guarded, c: WriteCall) returns (r: Request)
    requires WriteEffect(cfg, digest, g, c).1.Written?
    ensures ParseAlias(c.alias).Some?
    ensures var p, after := ParseAlias(c.alias).value, WriteEffect(cfg, digest, g, c).0;
            var u := Upload(cfg, digest, g.world, g.objects, c.id, r, c.faults, c.t);
            && u.out.Ok? && after.world == u.world && after.objects == u.objects && r.data == c.data
            && WriteKey(p) == Some((r.space, UnderPartition(r.partition, r.name)))
            && r.space == p.space && Normalize(p.partition) == Some(r.partition)
            && r.isMutable == c.isMutable && r.expected == c.expected && r.ttl == c.ttl
            && Allows(c.cap, WriteOperation, p.qualified, c.t.check)
  {
    var p := ParseAlias(c.alias).value;
    hide Upload, ParseAlias, Normalize, Allows, Live, RecordForgetting, ScopedName, UnderPartition, IsUnder;
    r := RequestOf(c, p.space, Normalize(p.partition).value, ScopedName(p).value);
    assert WriteKey(p) == Some((p.space, ScopedName(p).value));
    BoundUnderPartition(c.alias);
    hide WriteKey;
  }

  /** A stored upload is found under a key exactly when that is the key it was bound to. */
  lemma StoredUnder(digest: Payload -> string, w: World, objects: Objects, id: Id, r: Request, t: Readings,
                    u: Uploaded, key: Key)
    requires Inv(w) && id !in w.assets && Stored(digest, w, objects, id, r, t, u)
    ensures (key in u.world.names && u.world.names[key].asset == Some(id))
            <==> key == (r.space, UnderPartition(r.partition, r.name))
    ensures var a := u.world.assets[id];
            && a.state.Available? && LocationOf(a, id) in u.objects && u.objects[LocationOf(a, id)] == r.data
            && (a.expiresAt.Some? ==> a.expiresAt.value > t.reserve)
  {
    hide Inv, UnderPartition, StorageKey;
    if key in w.names { NothingBoundToNew(w, id, key); }
  }

  ghost predicate BoundTo(w: World, key: Option<Key>, id: Id) {
    key.Some? && key.value in w.names && w.names[key.value].asset == Some(id)
  }

  predicate Unexpired(a: Asset, now: int) {
    a.expiresAt.Some? ==> now < a.expiresAt.value
  }

  /** The new asset is available, its bytes in place and its deadline, if any, still ahead. */
  ghost predicate Served(g: Guarded, id: Id, data: Payload, now: int) {
    id in g.world.assets
    && var a := g.world.assets[id];
       && a.state.Available? && LocationOf(a, id) in g.objects && g.objects[LocationOf(a, id)] == data
       && (a.expiresAt.Some? ==> a.expiresAt.value > now)
  }

  /** After a successful write, at whatever alias, one key is bound to the new asset, and it is the key the
      alias is read by exactly when the two parts of the path are the same to both. */
  lemma WrittenAliasResolves(cfg: Config, digest: Payload -> string, g: Guarded, c: WriteCall)
    requires Inv(g.world) && c.id !in g.world.assets && WriteEffect(cfg, digest, g, c).1.Written?
    ensures ParseAlias(c.alias).Some?
    ensures var p, after := ParseAlias(c.alias).value, WriteEffect(cfg, digest, g, c).0;
            var cut := CutOnce(p.relative);
            && WriteKey(p).Some? && cut.Cut?
            && (forall key: Key :: BoundTo(after.world, Some(key), c.id) <==> Some(key) == WriteKey(p))
            && (BoundTo(after.world, ReadKey(p), c.id) <==> ReadKey(p).Some? && SameForBoth(cut.front, cut.back))
            && Served(after, c.id, c.data, c.t.reserve)
  {
    hide Upload, ParseAlias, Normalize, WriteEffect, UnderPartition, ReserveFor, CutOnce, LocationOf, Inv, Accepts,
      ReadKey, WriteKey, SameForBoth, Allows;
    var r := UploadOfWrite(cfg, digest, g, c);
    var u := Upload(cfg, digest, g.world, g.objects, c.id, r, c.faults, c.t);
    UploadLaws(cfg, digest, g.world, g.objects, c.id, r, c.faults, c.t);
    assert c.id in u.world.assets;
    hide Undone, Stored;
    forall key: Key
      ensures BoundTo(u.world, Some(key), c.id) <==> key == (r.space, UnderPartition(r.partition, r.name))
    {
      StoredUnder(digest, g.world, g.objects, c.id, r, c.t, u, key);
    }
    StoredUnder(digest, g.world, g.objects, c.id, r, c.t, u, (r.space, UnderPartition(r.partition, r.name)));
    KeysAgreeExactlyWhen(c.alias);
  }

  lemma NotYetSpent(consumed: Consumed, cap: Capability, now: int)
    requires !(cap.singleUse && cap.id in consumed)
    ensures RecordForgetting(consumed, cap, now).1
  {
  }

  /** The capability is good for this call: in scope, unexpired, not used up, and its service admitted. */
  predicate MayRead(g: Guarded, c: ReadCall) {
    && ParseAlias(c.alias).Some? && Allows(c.cap, ReadOperation, ParseAlias(c.alias).value.qualified, c.t.check)
    && !(c.cap.singleUse && c.cap.id in Live(g.consumed, c.t.lookup)) && c.permitted
  }

  /** In whatever state, a permitted read returns the bytes of a served asset exactly when the alias is
      read by a key bound to it. */
  lemma ReadReturnsBound(g: Guarded, c: ReadCall, id: Id, data: Payload)
    requires MayRead(g, c) && Served(g, id, data, c.t.reserve)
    ensures ReadEffect(g, c).1 == Bytes(id, data) <==> BoundTo(g.world, ReadKey(ParseAlias(c.alias).value), id)
  {
    hide ParseAlias, Allows, Live, ReadKey, LocationOf, ApplyRecordRead;
    var key := ReadKey(ParseAlias(c.alias).value);
    assert BoundTo(g.world, key, id) ==> Resolve(g.world.assets, g.world.names, key.value, c.t.reserve).Ok?;
    hide Resolve;
    NotYetSpent(Live(g.consumed, c.t.lookup), c.cap, c.t.use);
    hide RecordForgetting;
  }

  /** A permitted read of the alias just written, with no other step in between and before the asset's own
      deadline, returns the very bytes written, exactly when the path is the same to both. */
  lemma WriteThenRead(cfg: Config, digest: Payload -> string, g: Guarded, c: WriteCall, d: ReadCall)
    requires Inv(g.world) && c.id !in g.world.assets && WriteEffect(cfg, digest, g, c).1.Written?
    requires d.alias == c.alias && MayRead(WriteEffect(cfg, digest, g, c).0, d)
    ensures var p, after := ParseAlias(c.alias).value, WriteEffect(cfg, digest, g, c).0;
            var cut := CutOnce(p.relative);
            && cut.Cut? && c.id in after.world.assets
            && (Unexpired(after.world.assets[c.id], d.t.reserve) ==>
                  (ReadEffect(after, d).1 == Bytes(c.id, c.data)
                   <==> ReadKey(p).Some? && SameForBoth(cut.front, cut.back)))
  {
    hide WriteEffect, ReadEffect, ParseAlias, Inv, CutOnce, ReadKey, WriteKey, SameForBoth, MayRead, BoundTo;
    WrittenAliasResolves(cfg, digest, g, c);
    var after := WriteEffect(cfg, digest, g, c).0;
    if Unexpired(after.world.assets[c.id], d.t.reserve) {
      ReadReturnsBound(after, d, c.id, c.data);
    }
  }

  /** A successful write at a canonical alias binds nothing outside the capability's scope exactly when the
      name does not repeat the partition, or the scope covers one repeated segment only. */
  lemma WriteBindsInScope(cfg: Config, digest: Payload -> string, g: Guarded, c: WriteCall, segments: seq<string>)
    requires Inv(g.world) && c.id !in g.world.assets && WriteEffect(cfg, digest, g, c).1.Written?
    requires Qualified(segments) && c.alias == Join(segments)
    ensures var after := WriteEffect(cfg, digest, g, c).0;
            var n := |Split(Trim(c.cap.scope, IsSlash))|;
            (forall key: Key :: BoundTo(after.world, Some(key), c.id) ==> InScope(KeyText(key), c.cap.scope))
            <==> segments[1] != segments[2]
                 || (n < |segments| && forall i | 1 <= i < n :: segments[i] == segments[i + 1])
  {
    assert |segments| >= 3;
    hide WriteEffect, ParseAlias, Inv, CutOnce, ReadKey, SameForBoth, InScope, KeyText, Qualified, Join, Split, Trim,
      BoundTo;
    WrittenAliasResolves(cfg, digest, g, c);
    var r := UploadOfWrite(cfg, digest, g, c);
    CanonicalBinding(segments);
    assert InScope(Join(segments), c.cap.scope);
    hide Allows, WriteKey, Upload;
    WriteStaysInScope(segments, c.cap.scope);
    var key := WriteKey(ParseAlias(c.alias).value).value;
    assert BoundTo(WriteEffect(cfg, digest, g, c).0.world, Some(key), c.id);
  }
}
