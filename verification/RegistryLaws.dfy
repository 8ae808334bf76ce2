/** What every single registry operation keeps. */
module RegistryLaws {
  import opened Model
  import opened RegistrySpec

  // ---------------------------------------------------------------- the invariant

  /** The asset a binding points at, or pointed at before it was detached. */
  function HomeOf(b: Binding): Option<Id> {
    if b.asset.Some? then b.asset else b.previous
  }

  /** A bound name lies under its asset's bucket and partition; only a mutable name is ever
      unbound, and then it remembers its last asset. */
  ghost predicate BindingOk(assets: map<Id, Asset>, key: Key, b: Binding) {
    && (b.asset.Some? <==> b.previous.None?)
    && (b.asset.None? ==> b.isMutable)
    && HomeOf(b).Some?
    && HomeOf(b).value in assets
    && assets[HomeOf(b).value].space == key.0
    && IsUnder(assets[HomeOf(b).value].partition, key.1)
  }

  ghost predicate RowsOk(assets: map<Id, Asset>) {
    forall id <- assets :: Coherent(assets[id]) && assets[id].aliases == {}
  }

  ghost predicate NamesOk(assets: map<Id, Asset>, names: map<Key, Binding>) {
    forall key <- names :: BindingOk(assets, key, names[key])
  }

  ghost predicate Inv(w: World) {
    && RowsOk(w.assets)
    && NamesOk(w.assets, w.names)
    && w.names.Keys !! w.tombs.Keys
    && AuditComplete(w)
  }

  /** What no operation ever does to an asset: move it, revive it once deleted, make it pending
      again, alter its committed size and checksum, or enlarge what it reserves or occupies
      other than by committing it. A size comes only to a pending asset, and is the one it reserved. */
  ghost predicate RowGrows(a: Asset, b: Asset) {
    && a.space == b.space && a.partition == b.partition && a.createdAt == b.createdAt
    && (a.state.Deleted? ==> b.state.Deleted?)
    && (b.state.Pending? ==> a.state.Pending?)
    && (a.purgedAt.Some? ==> b.purgedAt.Some?)
    && (a.size.Some? ==> b.size == a.size && b.checksum == a.checksum)
    && (a.size.None? && b.size.Some? ==> a.state.Pending?)
    && (a.state.Pending? && a.reserved.Some? && b.size.Some? ==> b.size.value == a.reserved.value)
    && (b.state.Pending? ==> b.reserved == a.reserved)
    && (b.purgedAt.None? && !b.state.Available? ==> PhysicalBytes(b) == PhysicalBytes(a))
  }

  ghost predicate Grows(w: World, after: World) {
    forall id <- w.assets :: id in after.assets && RowGrows(w.assets[id], after.assets[id])
  }

  lemma TargetExists(w: World, key: Key)
    requires Inv(w) && key in w.names && w.names[key].asset.Some?
    ensures w.names[key].asset.value in w.assets
  {
    assert BindingOk(w.assets, key, w.names[key]);
  }

  // ---------------------------------------------------------------- the audit log replayed

  function NameEvent(names: map<Key, Option<Id>>, e: Event): map<Key, Option<Id>> {
    match e
    case AliasCreate(k, id, _) => names[k := Some(id)]
    case AliasAttach(k, id, _) => names[k := Some(id)]
    case AliasDetach(k, _) => names - {k}
    case AliasDetachMutable(k, _) => names[k := None]
    case AliasRebind(k, _, id) => names[k := Some(id)]
    case _ => names
  }

  function StateEvent(states: map<Id, AssetState>, e: Event): map<Id, AssetState> {
    match e
    case AssetCommit(id) => states[id := Available]
    case AssetExpire(id, _) => states[id := Expired]
    case GcMark(id, _) => states[id := Expired]
    case AssetDelete(id, _) => states[id := Deleted]
    case PayloadDelete(id) => states[id := Deleted]
    case TtlSet(id, _) => states[id := Available]
    case _ => states
  }

  /** The binding table the audit log describes: each live name and its target. */
  function ReplayNames(audit: seq<Event>): map<Key, Option<Id>> {
    if audit == [] then map[] else NameEvent(ReplayNames(audit[..|audit| - 1]), audit[|audit| - 1])
  }

  /** The lifecycle states the audit log describes. */
  function ReplayStates(audit: seq<Event>): map<Id, AssetState> {
    if audit == [] then map[] else StateEvent(ReplayStates(audit[..|audit| - 1]), audit[|audit| - 1])
  }

  function Targets(names: map<Key, Binding>): map<Key, Option<Id>> {
    map k | k in names :: names[k].asset
  }

  function StateIn(states: map<Id, AssetState>, id: Id): AssetState {
    if id in states then states[id] else Pending
  }

  /** The log alone tells every name's target and every asset's state; an asset it never
      mentions is pending. */
  ghost predicate AuditComplete(w: World) {
    && ReplayNames(w.audit) == Targets(w.names)
    && ReplayStates(w.audit).Keys <= w.assets.Keys
    && forall id <- w.assets ::
         w.assets[id].state == StateIn(ReplayStates(w.audit), id)
  }

  lemma ReplayOne(audit: seq<Event>, e: Event)
    ensures ReplayNames(audit + [e]) == NameEvent(ReplayNames(audit), e)
    ensures ReplayStates(audit + [e]) == StateEvent(ReplayStates(audit), e)
  {
    assert (audit + [e])[..|audit + [e]| - 1] == audit;
  }

  // ---------------------------------------------------------------- one row, one event

  /** The event reports exactly this change of state. */
  predicate Tells(e: Event, id: Id, from: AssetState, to: AssetState) {
    match e
    case AssetCommit(i) => i == id && to.Available?
    case AssetExpire(i, _) => i == id && to.Expired?
    case GcMark(i, _) => i == id && to.Expired?
    case AssetDelete(i, _) => i == id && to.Deleted?
    case PayloadDelete(i) => i == id && to.Deleted?
    case TtlSet(i, _) => i == id && to.Available?
    case _ => from == to
  }

  lemma ToldState(states: map<Id, AssetState>, e: Event, id: Id, from: AssetState, to: AssetState)
    requires Tells(e, id, from, to) && StateIn(states, id) == from
    ensures StateIn(StateEvent(states, e), id) == to
    ensures forall i: Id :: i != id ==> StateIn(StateEvent(states, e), i) == StateIn(states, i)
    ensures StateEvent(states, e).Keys <= states.Keys + {id}
  {
  }

  lemma OneEventTold(w: World, after: World, id: Id, e: Event)
    requires AuditComplete(w) && id in w.assets
    requires after.assets.Keys == w.assets.Keys
    requires forall i <- w.assets :: i != id ==> after.assets[i].state == w.assets[i].state
    requires Tells(e, id, w.assets[id].state, after.assets[id].state)
    requires NameEvent(Targets(w.names), e) == Targets(after.names)
    requires after.audit == w.audit + [e]
    ensures AuditComplete(after)
  {
    hide NameEvent, Targets, StateEvent, Tells;
    ReplayOne(w.audit, e);
    ToldState(ReplayStates(w.audit), e, id, w.assets[id].state, after.assets[id].state);
  }

  lemma NamesOkAfter(assets: map<Id, Asset>, names: map<Key, Binding>, id: Id, a: Asset)
    requires NamesOk(assets, names)
    requires id in assets ==> assets[id].space == a.space && assets[id].partition == a.partition
    ensures NamesOk(assets[id := a], names)
  {
    forall key <- names ensures BindingOk(assets[id := a], key, names[key]) {
      assert BindingOk(assets, key, names[key]);
    }
  }

  /** The common shape of the successful operations: one row, the names, one event. */
  lemma RowAndNamesKeepInv(w: World, names: map<Key, Binding>, tombs: map<Key, int>, id: Id, a: Asset, e: Event)
    requires Inv(w) && id in w.assets
    requires RowGrows(w.assets[id], a) && Coherent(a) && a.aliases == {}
    requires Tells(e, id, w.assets[id].state, a.state)
    requires NameEvent(Targets(w.names), e) == Targets(names)
    requires NamesOk(w.assets, names) && names.Keys !! tombs.Keys
    ensures Inv(WithRow(w.(names := names, tombs := tombs), id, a, [e]))
    ensures Grows(w, WithRow(w.(names := names, tombs := tombs), id, a, [e]))
  {
    var after := WithRow(w.(names := names, tombs := tombs), id, a, [e]);
    OneEventTold(w, after, id, e);
    NamesOkAfter(w.assets, names, id, a);
    hide Tells, NameEvent, StateEvent, ReplayNames, ReplayStates, AuditComplete, BindingOk, NamesOk, Coherent;
  }

  lemma RowKeepsInv(w: World, id: Id, a: Asset, e: Event)
    requires Inv(w) && id in w.assets
    requires RowGrows(w.assets[id], a) && Coherent(a) && a.aliases == {}
    requires Tells(e, id, w.assets[id].state, a.state)
    requires NameEvent(Targets(w.names), e) == Targets(w.names)
    ensures Inv(WithRow(w, id, a, [e])) && Grows(w, WithRow(w, id, a, [e]))
  {
    RowAndNamesKeepInv(w, w.names, w.tombs, id, a, e);
  }

  // ---------------------------------------------------------------- reservations

  /** Reserving binds exactly the scoped names, all to the new asset, and keeps every other binding. */
  lemma {:induction false} BindMeans(names: map<Key, Binding>, id: Id, space: Space, partition: string,
                                     specs: seq<(string, bool)>)
    ensures forall k :: k in Bind(names, id, space, partition, specs)
                    <==> k in names || k in ScopedKeys(space, partition, specs)
    ensures forall k <- ScopedKeys(space, partition, specs) ::
              Bind(names, id, space, partition, specs)[k].asset == Some(id)
              && Bind(names, id, space, partition, specs)[k].previous == None
    ensures forall k <- names :: k !in ScopedKeys(space, partition, specs) ==>
              Bind(names, id, space, partition, specs)[k] == names[k]
  {
    if specs != [] {
      var n := |specs| - 1;
      BindMeans(names, id, space, partition, specs[..n]);
      var last := (space, UnderPartition(partition, specs[n].0));
      var keys := ScopedKeys(space, partition, specs[..n]);
      assert ScopedKeys(space, partition, specs) == keys + [last];
      assert forall k :: k in keys + [last] <==> k in keys || k == last;
    }
  }

  /** Listed twice, the last mention of a key decides whether it is mutable. */
  lemma {:induction false} LastListedDecides(names: map<Key, Binding>, id: Id, space: Space, partition: string,
                                             specs: seq<(string, bool)>, i: nat)
    requires i < |specs|
    requires forall j | i < j < |specs| :: UnderPartition(partition, specs[j].0) != UnderPartition(partition,
             specs[i].0)
    ensures var key := (space, UnderPartition(partition, specs[i].0));
            key in Bind(names, id, space, partition, specs)
            && Bind(names, id, space, partition, specs)[key] == Binding(Some(id), specs[i].1, None)
  {
    var n := |specs| - 1;
    if i < n { LastListedDecides(names, id, space, partition, specs[..n], i); }
  }

  lemma ScopedKeysAreUnder(space: Space, partition: string, specs: seq<(string, bool)>)
    ensures forall k <- ScopedKeys(space, partition, specs) :: k.0 == space && IsUnder(partition, k.1)
  {
    var keys := ScopedKeys(space, partition, specs);
    forall k <- keys ensures k.0 == space && IsUnder(partition, k.1) {
      var i :| 0 <= i < |keys| && keys[i] == k;
      assert k.1 == UnderPartition(partition, specs[i].0);
    }
  }

  lemma TargetsOfBind(names: map<Key, Binding>, key: Key, b: Binding)
    ensures Targets(names[key := b]) == Targets(names)[key := b.asset]
  {
  }

  lemma {:induction false} ReplayCreates(audit: seq<Event>, names: map<Key, Binding>, id: Id, space: Space,
                                         partition: string,
                                         specs: seq<(string, bool)>)
    requires ReplayNames(audit) == Targets(names)
    ensures ReplayNames(audit + CreateEvents(id, space, partition, specs))
            == Targets(Bind(names, id, space, partition, specs))
    ensures ReplayStates(audit + CreateEvents(id, space, partition, specs)) == ReplayStates(audit)
  {
    if specs == [] {
      assert audit + [] == audit;
    } else {
      var n := |specs| - 1;
      ReplayCreates(audit, names, id, space, partition, specs[..n]);
      var key := (space, UnderPartition(partition, specs[n].0));
      var last := AliasCreate(key, id, specs[n].1);
      var events := CreateEvents(id, space, partition, specs[..n]);
      ReplayOne(audit + events, last);
      TargetsOfBind(Bind(names, id, space, partition, specs[..n]), key, Binding(Some(id), specs[n].1, None));
      assert audit + (events + [last]) == (audit + events) + [last];
    }
  }

  lemma NewRowKeepsNames(assets: map<Id, Asset>, names: map<Key, Binding>, id: Id, a: Asset, specs: seq<(string, bool)>)
    requires NamesOk(assets, names) && id !in assets
    ensures NamesOk(assets[id := a], Bind(names, id, a.space, a.partition, specs))
  {
    BindMeans(names, id, a.space, a.partition, specs);
    ScopedKeysAreUnder(a.space, a.partition, specs);
    var bound := Bind(names, id, a.space, a.partition, specs);
    forall key <- bound ensures BindingOk(assets[id := a], key, bound[key]) {
      if key !in ScopedKeys(a.space, a.partition, specs) {
        assert BindingOk(assets, key, names[key]);
      }
    }
  }

  lemma ReservedAudit(w: World, tombs: map<Key, int>, id: Id, a: Asset, specs: seq<(string, bool)>)
    requires Inv(w) && id !in w.assets && a.state.Pending?
    ensures AuditComplete(Reserved(w, tombs, id, a, specs))
  {
    var created := w.audit + CreateEvents(id, a.space, a.partition, specs);
    var after := Reserved(w, tombs, id, a, specs);
    assert ReplayNames(created) == Targets(after.names) && ReplayStates(created) == ReplayStates(w.audit) by {
      ReplayCreates(w.audit, w.names, id, a.space, a.partition, specs);
    }
    assert ReplayNames(after.audit) == ReplayNames(created) && ReplayStates(after.audit) == ReplayStates(created) by {
      if a.reserved.Some? {
        ReplayOne(created, UploadReserve(id, a.reserved.value));
      } else {
        assert after.audit == created;
      }
    }
  }

  /** A reservation admitted: names bound, a pending row, events for each. */
  lemma ReservedKeepsInv(w: World, tombs: map<Key, int>, id: Id, a: Asset, specs: seq<(string, bool)>)
    requires Inv(w) && id !in w.assets
    requires Coherent(a) && a.aliases == {} && a.state.Pending?
    requires tombs.Keys <= w.tombs.Keys
    requires forall k <- ScopedKeys(a.space, a.partition, specs) :: k !in tombs
    ensures Inv(Reserved(w, tombs, id, a, specs)) && Grows(w, Reserved(w, tombs, id, a, specs))
  {
    ReservedAudit(w, tombs, id, a, specs);
    NewRowKeepsNames(w.assets, w.names, id, a, specs);
    assert Bind(w.names, id, a.space, a.partition, specs).Keys !! tombs.Keys by {
      BindMeans(w.names, id, a.space, a.partition, specs);
    }
  }

  lemma DroppedTombsKeepInv(w: World, tombs: map<Key, int>)
    requires Inv(w) && tombs.Keys <= w.tombs.Keys
    ensures Inv(w.(tombs := tombs)) && Grows(w, w.(tombs := tombs))
  {
  }

  /** An admitted reservation adds the row, its names and its events, and may drop elapsed tombstones. */
  lemma ReserveShape(cfg: Config, w: World, c: Cmd, now: int) returns (a: Asset)
    requires c.Reserve? && Apply(cfg, w, c, now).out.Ok?
    ensures var after := Apply(cfg, w, c, now).world;
            && after.tombs.Keys <= w.tombs.Keys
            && after == Reserved(w, after.tombs, c.id, a, c.specs)
            && (forall k <- ScopedKeys(c.space, c.partition, c.specs) ::
                 k !in after.tombs
                 && !Blocked(w.names, w.tombs, k, now))
    ensures c.id !in w.assets
    ensures Coherent(a) && a.aliases == {} && a.state.Pending?
    ensures a.space == c.space && a.partition == c.partition
  {
    a := Apply(cfg, w, c, now).world.assets[c.id];
  }

  lemma ReserveKeeps(cfg: Config, w: World, c: Cmd, now: int)
    requires Inv(w) && c.Reserve? && Apply(cfg, w, c, now).out.Ok?
    ensures Inv(Apply(cfg, w, c, now).world) && Grows(w, Apply(cfg, w, c, now).world)
  {
    var tombs := Apply(cfg, w, c, now).world.tombs;
    var a := ReserveShape(cfg, w, c, now);
    ReservedKeepsInv(w, tombs, c.id, a, c.specs);
  }

  // ---------------------------------------------------------------- names

  lemma {:induction false} FirstSegmentIsUnder(name: string)
    ensures IsUnder(FirstSegment(name), name)
  {
    if name != "" && name[0] != '/' {
      FirstSegmentIsUnder(name[1..]);
      var rest := FirstSegment(name[1..]);
      assert name == [name[0]] + name[1..];
      if rest + "/" <= name[1..] {
        assert FirstSegment(name) + "/" == [name[0]] + (rest + "/");
      }
    }
  }

  lemma MarkKeeps(w: World, id: Id, now: int)
    requires Inv(w) && id in w.assets
    ensures Inv(MarkIfOrphaned(w, id, now)) && Grows(w, MarkIfOrphaned(w, id, now))
  {
    var a := w.assets[id];
    if !(AliasesOf(w.names, id) != {} || a.state.Expired? || a.state.Deleted?) {
      RowKeepsInv(w, id, ExpireRow(a, now), GcMark(id, a.state));
    }
  }

  lemma NameDropped(assets: map<Id, Asset>, names: map<Key, Binding>, key: Key)
    requires NamesOk(assets, names)
    ensures NamesOk(assets, names - {key})
    ensures Targets(names - {key}) == Targets(names) - {key}
  {
    forall k <- names - {key} ensures BindingOk(assets, k, (names - {key})[k]) {
      assert BindingOk(assets, k, names[k]);
    }
  }

  lemma NameReplaced(assets: map<Id, Asset>, names: map<Key, Binding>, key: Key, b: Binding)
    requires NamesOk(assets, names) && BindingOk(assets, key, b)
    ensures NamesOk(assets, names[key := b])
    ensures Targets(names[key := b]) == Targets(names)[key := b.asset]
  {
  }

  lemma GrowsOn(w: World, mid: World, after: World)
    requires RowsOk(w.assets) && Grows(w, mid) && Grows(mid, after)
    requires forall id <- w.assets :: mid.assets[id].state == w.assets[id].state
    ensures Grows(w, after)
  {
  }

  lemma NamesThenMark(w: World, names: map<Key, Binding>, tombs: map<Key, int>, id: Id, e: Event, now: int)
    requires Inv(w) && id in w.assets
    requires e.AliasDetach? || e.AliasDetachMutable?
    requires NameEvent(Targets(w.names), e) == Targets(names)
    requires NamesOk(w.assets, names) && names.Keys !! tombs.Keys
    ensures var w1 := WithRow(w.(names := names, tombs := tombs), id, TouchRow(w.assets[id], now), [e]);
            Inv(MarkIfOrphaned(w1, id, now)) && Grows(w, MarkIfOrphaned(w1, id, now))
  {
    var w1 := WithRow(w.(names := names, tombs := tombs), id, TouchRow(w.assets[id], now), [e]);
    assert Tells(e, id, w.assets[id].state, w1.assets[id].state);
    assert RowsOk(w.assets) && Coherent(w.assets[id]);
    hide Inv, MarkIfOrphaned, Grows, NameEvent, NamesOk, Targets, Tells, RowsOk;
    RowAndNamesKeepInv(w, names, tombs, id, TouchRow(w.assets[id], now), e);
    MarkKeeps(w1, id, now);
    GrowsOn(w, w1, MarkIfOrphaned(w1, id, now));
  }

  lemma AttachKeeps(w: World, id: Id, name: string, isMutable: bool, now: int)
    requires Inv(w) && ApplyAttach(w, id, name, isMutable, now).out.Ok?
    ensures var after := ApplyAttach(w, id, name, isMutable, now).world; Inv(after) && Grows(w, after)
  {
    var after := ApplyAttach(w, id, name, isMutable, now).world;
    var a := w.assets[id];
    var key := (a.space, UnderPartition(a.partition, name));
    NameReplaced(w.assets, w.names, key, Binding(Some(id), isMutable, None));
    RowAndNamesKeepInv(w, after.names, after.tombs, id, TouchRow(a, now), AliasAttach(key, id, isMutable));
  }

  lemma DetachKeeps(cfg: Config, w: World, key: Key, now: int)
    requires Inv(w) && ApplyDetach(cfg, w, key, now).out.Ok?
    ensures var after := ApplyDetach(cfg, w, key, now).world; Inv(after) && Grows(w, after)
  {
    var id := w.names[key].asset.value;
    NameDropped(w.assets, w.names, key);
    NamesThenMark(w, w.names - {key}, Buried(cfg, w.tombs, key, now), id, AliasDetach(key, id), now);
  }

  lemma DetachMutableKeeps(w: World, key: Key, now: int)
    requires Inv(w) && ApplyDetachMutable(w, key, now).out.Ok?
    ensures var after := ApplyDetachMutable(w, key, now).world; Inv(after) && Grows(w, after)
  {
    var id := w.names[key].asset.value;
    var b := w.names[key].(asset := None, previous := Some(id));
    NameReplaced(w.assets, w.names, key, b);
    NamesThenMark(w, w.names[key := b], w.tombs, id, AliasDetachMutable(key, id), now);
  }

  lemma RebindKeeps(w: World, key: Key, id: Id, now: int)
    requires Inv(w) && ApplyRebind(w, key, id, now).out.Ok?
    ensures var after := ApplyRebind(w, key, id, now).world; Inv(after) && Grows(w, after)
  {
    var b := w.names[key];
    FirstSegmentIsUnder(key.1);
    NameReplaced(w.assets, w.names, key, b.(asset := Some(id), previous := None));
    RowAndNamesKeepInv(w, w.names[key := b.(asset := Some(id), previous := None)], w.tombs, id,
                       TouchRow(w.assets[id], now),
                       AliasRebind(key, b.previous, id));
  }

  // ---------------------------------------------------------------- rows

  lemma CommitKeeps(cfg: Config, w: World, id: Id, size: int, checksum: string, expected: Option<string>, now: int)
    requires Inv(w) && ApplyCommit(cfg, w, id, size, checksum, expected, now).out.Ok?
    ensures var after := ApplyCommit(cfg, w, id, size, checksum, expected, now).world; Inv(after) && Grows(w, after)
  {
    RowKeepsInv(w, id, CommitRow(w.assets[id], size, checksum, now), AssetCommit(id));
  }

  lemma LifecycleKeeps(w: World, id: Id, snapshot: Asset, state: AssetState, payloadDeleted: bool, now: int)
    requires Inv(w) && ApplyLifecycle(w, id, snapshot, state, payloadDeleted, now).out.Ok?
    ensures var after := ApplyLifecycle(w, id, snapshot, state, payloadDeleted, now).world;
            Inv(after) && Grows(w, after)
  {
    var a := w.assets[id];
    RowKeepsInv(w, id, LifecycleRow(a, state, now, payloadDeleted),
                if payloadDeleted then PayloadDelete(id) else if state.Expired? then AssetExpire(id, a.state)
                  else AssetDelete(id, a.state));
  }

  lemma SetTtlKeeps(cfg: Config, w: World, id: Id, ttl: int, now: int)
    requires Inv(w) && ApplySetTtl(cfg, w, id, ttl, now).out.Ok?
    ensures var after := ApplySetTtl(cfg, w, id, ttl, now).world; Inv(after) && Grows(w, after)
  {
    var a := w.assets[id];
    RowKeepsInv(w, id, RestoreRow(a, ExpiryFor(cfg, a.space, Some(ttl), now).at, now), TtlSet(id, a.state));
  }

  lemma AnnotateKeeps(w: World, id: Id, patch: map<string, string>, overwrite: bool, now: int)
    requires Inv(w) && ApplyAnnotate(w, id, patch, overwrite, now).out.Ok?
    ensures var after := ApplyAnnotate(w, id, patch, overwrite, now).world; Inv(after) && Grows(w, after)
  {
    RowKeepsInv(w, id, ApplyAnnotate(w, id, patch, overwrite, now).world.assets[id], AnnotationsUpdate(id));
  }

  lemma ExpireKeeps(w: World, id: Id, now: int)
    requires Inv(w) && ApplyExpire(w, id, now).out.Ok?
    ensures var after := ApplyExpire(w, id, now).world; Inv(after) && Grows(w, after)
  {
    RowKeepsInv(w, id, ExpireRow(w.assets[id], now), AssetExpire(id, Available));
  }

  lemma DeleteKeeps(w: World, id: Id, now: int)
    requires Inv(w) && ApplyDelete(w, id, now).out.Ok?
    ensures var after := ApplyDelete(w, id, now).world; Inv(after) && Grows(w, after)
  {
    RowKeepsInv(w, id, DeleteRow(w.assets[id], now), AssetDelete(id, w.assets[id].state));
  }

  lemma SetPolicyKeeps(w: World, id: Id, policy: EvictionPolicy, now: int)
    requires Inv(w) && ApplySetPolicy(w, id, policy, now).out.Ok?
    ensures var after := ApplySetPolicy(w, id, policy, now).world; Inv(after) && Grows(w, after)
  {
    RowKeepsInv(w, id, TouchRow(w.assets[id], now).(policy := policy),
                EvictionPolicySet(id, w.assets[id].policy, policy));
  }

  lemma SameRowsKeep(w: World, after: World)
    requires Inv(w) && after.assets == w.assets && after.names == w.names && after.tombs == w.tombs
    requires ReplayNames(after.audit) == ReplayNames(w.audit) && ReplayStates(after.audit) == ReplayStates(w.audit)
    ensures Inv(after) && Grows(w, after)
  {
    hide ReplayNames, ReplayStates, NamesOk;
  }

  lemma PartitionLimitsKeep(w: World, c: Cmd)
    requires Inv(w) && c.SetPartitionQuota?
    requires ApplySetPartitionQuota(w, c.space, c.partition, c.bytes, c.count, c.sweep).out.Ok?
    ensures var after := ApplySetPartitionQuota(w, c.space, c.partition, c.bytes, c.count, c.sweep).world;
            Inv(after) && Grows(w, after)
  {
    hide Inv, Grows, ReplayNames, ReplayStates;
    var after := ApplySetPartitionQuota(w, c.space, c.partition, c.bytes, c.count, c.sweep).world;
    var e := after.audit[|w.audit|];
    assert e.QuotaSet? && after.audit == w.audit + [e];
    ReplayOne(w.audit, e);
    SameRowsKeep(w, after);
  }

  lemma BucketLimitsKeep(w: World, space: Space, bytes: Option<int>, warnThreshold: real, hardCeiling: real)
    requires Inv(w)
    ensures var after := ApplySetBucketQuota(w, space, bytes, warnThreshold, hardCeiling).world;
            Inv(after) && Grows(w, after)
  {
  }

  lemma RecordReadKeeps(w: World, id: Id, now: int)
    requires Inv(w) && ApplyRecordRead(w, id, now).out.Ok?
    ensures var after := ApplyRecordRead(w, id, now).world; Inv(after) && Grows(w, after)
  {
    var after := ApplyRecordRead(w, id, now).world;
    if after != w {
      NamesOkAfter(w.assets, w.names, id, after.assets[id]);
      assert after.audit == w.audit;
    }
  }

  /** A refused operation changes nothing, except that tombstones already elapsed may be gone. */
  lemma FailureChangesNothing(cfg: Config, w: World, c: Cmd, now: int)
    requires Apply(cfg, w, c, now).out.Err?
    ensures Apply(cfg, w, c, now).world == w.(tombs := Apply(cfg, w, c, now).world.tombs)
    ensures forall k <- w.tombs ::
              if k in Apply(cfg, w, c, now).world.tombs
              then Apply(cfg, w, c, now).world.tombs[k] == w.tombs[k]
              else w.tombs[k] <= now
    ensures Apply(cfg, w, c, now).world.tombs.Keys <= w.tombs.Keys
  {
  }

  predicate ConcernsNames(c: Cmd) {
    c.Reserve? || c.Attach? || c.Detach? || c.DetachMutable? || c.Rebind?
  }

  lemma NamingKeepsInv(cfg: Config, w: World, c: Cmd, now: int)
    requires Inv(w) && Apply(cfg, w, c, now).out.Ok? && ConcernsNames(c)
    ensures Inv(Apply(cfg, w, c, now).world)
    ensures Grows(w, Apply(cfg, w, c, now).world)
  {
    match c
    case Reserve(_, _, _, _, _, _, _, _) => ReserveKeeps(cfg, w, c, now);
    case Attach(id, name, isMutable) => AttachKeeps(w, id, name, isMutable, now);
    case Detach(key) => DetachKeeps(cfg, w, key, now);
    case DetachMutable(key) => DetachMutableKeeps(w, key, now);
    case Rebind(key, id) => RebindKeeps(w, key, id, now);
  }

  lemma RowOpKeepsInv(cfg: Config, w: World, c: Cmd, now: int)
    requires Inv(w) && Apply(cfg, w, c, now).out.Ok? && !ConcernsNames(c)
    ensures Inv(Apply(cfg, w, c, now).world)
    ensures Grows(w, Apply(cfg, w, c, now).world)
  {
    match c
    case Commit(id, size, checksum, expected) => CommitKeeps(cfg, w, id, size, checksum, expected, now);
    case Annotate(id, patch, overwrite) => AnnotateKeeps(w, id, patch, overwrite, now);
    case Expire(id) => ExpireKeeps(w, id, now);
    case Delete(id) => DeleteKeeps(w, id, now);
    case SetPolicy(id, policy) => SetPolicyKeeps(w, id, policy, now);
    case SetPartitionQuota(_, _, _, _, _) => PartitionLimitsKeep(w, c);
    case SetBucketQuota(space, bytes, warnThreshold, hardCeiling) =>
      BucketLimitsKeep(w, space, bytes, warnThreshold, hardCeiling);
    case RecordRead(id) => RecordReadKeeps(w, id, now);
    case Lifecycle(id, snapshot, state, payloadDeleted) => LifecycleKeeps(w, id, snapshot, state, payloadDeleted, now);
    case SetTtl(id, seconds) => SetTtlKeeps(cfg, w, id, seconds, now);
  }

  /** Every operation, successful or refused, keeps the invariant and only ever grows rows. */
  lemma StepKeepsInv(cfg: Config, w: World, c: Cmd, now: int)
    requires Inv(w)
    ensures Inv(Apply(cfg, w, c, now).world)
    ensures Grows(w, Apply(cfg, w, c, now).world)
  {
    if Apply(cfg, w, c, now).out.Ok? {
      if ConcernsNames(c) { NamingKeepsInv(cfg, w, c, now); } else { RowOpKeepsInv(cfg, w, c, now); }
    } else {
      FailureChangesNothing(cfg, w, c, now);
      DroppedTombsKeepInv(w, Apply(cfg, w, c, now).world.tombs);
    }
  }
}
