/** Every operation in plain terms: on which columns it succeeds, with which error it is refused otherwise, and
    what the tables hold afterwards. */
module RegistryEffects {
  import opened Model
  import opened RegistrySpec
  import opened RegistryLaws
  import opened RegistryFigures

  const MICROS := 1_000_000

  // ---------------------------------------------------------------- lifetimes

  /** The lifetimes a bucket grants: any for `cache` and `users`, a week at most for `tmp`, the configured one
      at most for `results`. */
  predicate LifetimeGranted(longestResult: int, space: Space, ttl: Option<int>) {
    match space
    case Cache => ttl.Some? ==> ttl.value > 0
    case Users => ttl.Some? ==> ttl.value > 0
    case Tmp => ttl.Some? ==> 0 < ttl.value <= 604_800
    case Results => longestResult > 0 && (ttl.Some? ==> 0 < ttl.value <= longestResult)
  }

  /** The deadline that follows: as asked for; by default none in `cache` and `users`, a day in `tmp`, the longest
      one in `results`. */
  function DeadlineOf(longestResult: int, space: Space, ttl: Option<int>, now: int): Option<int> {
    if ttl.Some? then Some(now + ttl.value * MICROS)
    else
      match space
      case Tmp => Some(now + 86_400 * MICROS)
      case Results => Some(now + longestResult * MICROS)
      case _ => None
  }

  lemma LifetimesInFigures(cfg: Config, space: Space, ttl: Option<int>, now: int)
    ensures ExpiryFor(cfg, space, ttl, now)
         == if LifetimeGranted(cfg.resultsMaxTtl, space, ttl)
           then Deadline(DeadlineOf(cfg.resultsMaxTtl, space, ttl, now))
            else BadTtl
  {
  }

  // ---------------------------------------------------------------- names

  /** The name as it is bound: unchanged if it spells out its partition, else put under it. */
  function BoundName(partition: string, name: string): string {
    if name == partition || (|name| > |partition| && name[..|partition|] == partition && name[|partition|] == '/')
      then name
    else partition + "/" + name
  }

  lemma NamesInFigures(partition: string, name: string)
    ensures UnderPartition(partition, name) == BoundName(partition, name)
  {
    if partition + "/" <= name {
      assert name[..|partition| + 1] == partition + "/";
      assert name[|partition|] == (partition + "/")[|partition|];
      assert name[..|partition|] == (partition + "/")[..|partition|];
    }
    if |name| > |partition| && name[..|partition|] == partition && name[|partition|] == '/' {
      assert name[..|partition| + 1] == partition + "/";
    }
  }

  /** Taken by a binding, or buried until a moment not reached yet. */
  predicate Taken(w: World, key: Key, now: int) {
    key in w.names || (key in w.tombs && now < w.tombs[key])
  }

  // ---------------------------------------------------------------- commit

  /** Commit: bad figures, a checksum mismatch, a missing or settled asset, a size other than the one reserved and
      a lack of room are refused in this order and change nothing; otherwise the row gets size and checksum. */
  lemma CommitInFigures(cfg: Config, w: World, id: Id, size: int, checksum: string, expected: Option<string>, now: int)
    ensures var s := ApplyCommit(cfg, w, id, size, checksum, expected, now);
            if size < 0 || checksum == "" then s == Step(w, Err(ValidationError))
            else if expected.Some? && expected.value != checksum then s == Step(w, Err(ChecksumMismatch))
            else if id !in w.assets then s == Step(w, Err(AssetNotFound))
            else
              var a := w.assets[id];
              if a.state != Pending then s == Step(w, Err(InvalidTransition))
              else if a.reserved.Some? && a.reserved.value != size then s == Step(w, Err(ValidationError))
              else
                var room := Room(cfg, w, a.space, a.partition, size, Some(id));
                if room != Ok then s == Step(w, room)
                else
                  var b := a.(state := Available, size := Some(size), reserved := None, checksum := Some(checksum),
                              updatedAt := now);
                  s == Step(w.(assets := w.assets[id := b], audit := w.audit + [AssetCommit(id)]), Ok)
  {
    if size >= 0 && id in w.assets {
      AdmissionInFigures(cfg, w, w.assets[id].space, w.assets[id].partition, size, Some(id));
    }
    hide Admission, Room;
  }

  // ---------------------------------------------------------------- lifetimes of stored assets

  /** Setting a lifetime: only for available or expired assets with content and for a lifetime the bucket grants;
      an expired one needs room. The deadline counts from now. */
  lemma SetTtlInFigures(cfg: Config, w: World, id: Id, seconds: int, now: int)
    ensures var s := ApplySetTtl(cfg, w, id, seconds, now);
            if id !in w.assets then s == Step(w, Err(AssetNotFound))
            else
              var a := w.assets[id];
              if (a.state != Available && a.state != Expired) || a.size == None || a.checksum == None then
                s == Step(w, Err(InvalidTransition))
              else if !LifetimeGranted(cfg.resultsMaxTtl, a.space, Some(seconds))
                then s == Step(w, Err(ValidationError))
              else
                var room := if a.state == Expired then Room(cfg, w, a.space, a.partition, a.size.value, Some(id))
                  else Ok;
                if room != Ok then s == Step(w, room)
                else
                  var b := a.(state := Available, expiresAt := Some(now + seconds * MICROS), expiredAt := None,
                              updatedAt := now);
                  s == Step(w.(assets := w.assets[id := b], audit := w.audit + [TtlSet(id, a.state)]), Ok)
  {
    if id in w.assets {
      var a := w.assets[id];
      LifetimesInFigures(cfg, a.space, Some(seconds), now);
      if a.size.Some? { AdmissionInFigures(cfg, w, a.space, a.partition, a.size.value, Some(id)); }
    }
    hide Admission, Room, ExpiryFor, LifetimeGranted;
  }

  /** After a lifetime was set the names of the asset resolve strictly before the deadline and are gone from it on. */
  lemma TtlDecidesResolution(cfg: Config, w: World, id: Id, seconds: int, now: int, key: Key, t: int)
    requires ApplySetTtl(cfg, w, id, seconds, now).out.Ok?
    requires key in w.names && w.names[key].asset == Some(id)
    ensures var after := ApplySetTtl(cfg, w, id, seconds, now).world;
            Resolve(after.assets, after.names, key, t) == if t < now + seconds * MICROS then Ok else Err(AssetGone)
  {
    SetTtlInFigures(cfg, w, id, seconds, now);
    hide ApplySetTtl, Room;
  }

  // ---------------------------------------------------------------- resolving

  /** What a name answers: not there, unbound, gone, not ready, or its asset. */
  lemma ResolveInFigures(assets: map<Id, Asset>, names: map<Key, Binding>, key: Key, now: int)
    requires key in names && names[key].asset.Some? ==> names[key].asset.value in assets
    ensures Resolve(assets, names, key, now) ==
              if key !in names then Err(AliasNotFound)
              else if names[key].asset == None then Err(InvalidTransition)
              else
                var a := assets[names[key].asset.value];
                match a.state
                case Pending => Err(InvalidTransition)
                case Available => if a.expiresAt.Some? && now >= a.expiresAt.value then Err(AssetGone) else Ok
                case Expired => Err(AssetGone)
                case Deleted => Err(AssetGone)
  {
  }

  // ---------------------------------------------------------------- reservation

  predicate KeyListed(space: Space, partition: string, specs: seq<(string, bool)>, key: Key) {
    exists i | 0 <= i < |specs| :: key == (space, BoundName(partition, specs[i].0))
  }

  /** The order in which a reservation is refused, given a fresh identifier. */
  ghost function ReserveVerdict(cfg: Config, w: World, space: Space, partition: string, specs: seq<(string, bool)>,
                                ttl: Option<int>, reserved: Option<int>, now: int): Outcome
  {
    if exists i | 0 <= i < |specs| :: Taken(w, (space, BoundName(partition, specs[i].0)), now) then Err(AliasConflict)
    else if reserved.Some? && reserved.value < 0 then Err(ValidationError)
    else if reserved.Some? && Room(cfg, w, space, partition, reserved.value, None) != Ok then
      Room(cfg, w, space, partition, reserved.value, None)
    else if !LifetimeGranted(cfg.resultsMaxTtl, space, ttl) then Err(ValidationError)
    else Ok
  }

  lemma NoneTaken(w: World, space: Space, partition: string, specs: seq<(string, bool)>, now: int)
    ensures ClearNames(w.names, w.tombs, ScopedKeys(space, partition, specs), now).ok
         <==> forall i | 0 <= i < |specs| :: !Taken(w, (space, BoundName(partition, specs[i].0)), now)
  {
    var keys := ScopedKeys(space, partition, specs);
    forall i | 0 <= i < |specs| ensures keys[i] == (space, BoundName(partition, specs[i].0)) {
      NamesInFigures(partition, specs[i].0);
    }
    if forall i | 0 <= i < |specs| :: !Taken(w, (space, BoundName(partition, specs[i].0)), now) {
      forall k <- keys ensures !Blocked(w.names, w.tombs, k, now) {
        var i :| 0 <= i < |keys| && keys[i] == k;
        assert !Taken(w, (space, BoundName(partition, specs[i].0)), now);
      }
    }
    if forall k <- keys :: !Blocked(w.names, w.tombs, k, now) {
      forall i | 0 <= i < |specs| ensures !Taken(w, (space, BoundName(partition, specs[i].0)), now) {
        assert keys[i] in keys;
      }
    }
  }

  lemma ReserveAnswers(cfg: Config, w: World, id: Id, space: Space, partition: string, specs: seq<(string, bool)>,
                       policy: EvictionPolicy, annotations: map<string, string>, ttl: Option<int>,
                         reserved: Option<int>,
                       now: int)
    requires id !in w.assets
    ensures ApplyReserve(cfg, w, id, space, partition, specs, policy, annotations, ttl, reserved, now).out
         == ReserveVerdict(cfg, w, space, partition, specs, ttl, reserved, now)
  {
    hide ClearNames, ScopedKeys, Room, LoadOf, Refusal, ExpiryFor, LifetimeGranted, Taken, Bind, CreateEvents,
      BoundName,
      Reserved;
    NoneTaken(w, space, partition, specs, now);
    LifetimesInFigures(cfg, space, ttl, now);
    if reserved.Some? && reserved.value >= 0 {
      AdmissionInFigures(cfg, w, space, partition, reserved.value, None);
      var w1 := w.(tombs := ClearNames(w.names, w.tombs, ScopedKeys(space, partition, specs), now).tombs);
      assert Admission(cfg, w1, space, partition, reserved.value, None)
          == Admission(cfg, w, space, partition, reserved.value, None);
    }
  }

  /** The row a reservation adds, the names it binds and the events it records. Every other row, name and limit stays;
      only elapsed tombstones of its own names go. */
  lemma ReserveInFigures(cfg: Config, w: World, id: Id, space: Space, partition: string, specs: seq<(string, bool)>,
                         policy: EvictionPolicy, annotations: map<string, string>, ttl: Option<int>,
                         reserved: Option<int>, now: int)
    requires id !in w.assets
    requires ApplyReserve(cfg, w, id, space, partition, specs, policy, annotations, ttl, reserved, now).out == Ok
    ensures var after := ApplyReserve(cfg, w, id, space, partition, specs, policy, annotations, ttl, reserved,
                                      now).world;
            var a := Asset(space, partition, Pending, {}, None,
                           if reserved.Some? && reserved.value >= 0 then Some(reserved.value) else None, None,
                             annotations,
                           now, now, DeadlineOf(cfg.resultsMaxTtl, space, ttl, now), None, None, 0, None, policy);
            && after.assets == w.assets[id := a]
            && after.partitionLimits == w.partitionLimits && after.bucketLimits == w.bucketLimits
            && (forall key :: key in after.names <==> key in w.names || KeyListed(space, partition, specs, key))
            && (forall key <- w.names :: after.names[key] == w.names[key])
            && (forall key | key in w.tombs && !KeyListed(space, partition, specs, key) ::
                  key in after.tombs && after.tombs[key] == w.tombs[key])
            && (forall key <- after.tombs :: key in w.tombs && !KeyListed(space, partition, specs, key))
  {
    hide Admission, ExpiryFor, LifetimeGranted, CreateEvents;
    LifetimesInFigures(cfg, space, ttl, now);
    var keys := ScopedKeys(space, partition, specs);
    forall key: Key ensures key in keys <==> KeyListed(space, partition, specs, key) {
      ListedKeys(space, partition, specs, key);
    }
    BindMeans(w.names, id, space, partition, specs);
    hide Bind, ScopedKeys, KeyListed;
  }

  lemma ListedKeys(space: Space, partition: string, specs: seq<(string, bool)>, key: Key)
    ensures key in ScopedKeys(space, partition, specs) <==> KeyListed(space, partition, specs, key)
  {
    var keys := ScopedKeys(space, partition, specs);
    forall i | 0 <= i < |specs| ensures keys[i] == (space, BoundName(partition, specs[i].0)) {
      NamesInFigures(partition, specs[i].0);
    }
    if KeyListed(space, partition, specs, key) {
      var i :| 0 <= i < |specs| && key == (space, BoundName(partition, specs[i].0));
      assert keys[i] in keys;
    }
    if key in keys {
      var i :| 0 <= i < |keys| && keys[i] == key;
    }
  }

  /** Listed keys point at the new asset, the last mention deciding whether the name is mutable. */
  lemma ReserveBinds(cfg: Config, w: World, id: Id, space: Space, partition: string, specs: seq<(string, bool)>,
                     policy: EvictionPolicy, annotations: map<string, string>, ttl: Option<int>, reserved: Option<int>,
                     now: int, i: nat)
    requires id !in w.assets && i < |specs|
    requires ApplyReserve(cfg, w, id, space, partition, specs, policy, annotations, ttl, reserved, now).out == Ok
    requires forall j | i < j < |specs| :: BoundName(partition, specs[j].0) != BoundName(partition, specs[i].0)
    ensures var after := ApplyReserve(cfg, w, id, space, partition, specs, policy, annotations, ttl, reserved,
                                      now).world;
            var key := (space, BoundName(partition, specs[i].0));
            key in after.names && after.names[key] == Binding(Some(id), specs[i].1, None)
  {
    forall j | 0 <= j < |specs| ensures UnderPartition(partition, specs[j].0) == BoundName(partition, specs[j].0) {
      NamesInFigures(partition, specs[j].0);
    }
    LastListedDecides(w.names, id, space, partition, specs, i);
    hide Admission, ExpiryFor, CreateEvents, Bind, BoundName, UnderPartition;
  }

  /** One event for each alias in the order given, then one for the bytes reserved. */
  lemma ReserveRecords(cfg: Config, w: World, id: Id, space: Space, partition: string, specs: seq<(string, bool)>,
                       policy: EvictionPolicy, annotations: map<string, string>, ttl: Option<int>,
                         reserved: Option<int>,
                       now: int)
    requires id !in w.assets
    requires ApplyReserve(cfg, w, id, space, partition, specs, policy, annotations, ttl, reserved, now).out == Ok
    ensures var after := ApplyReserve(cfg, w, id, space, partition, specs, policy, annotations, ttl, reserved,
                                      now).world;
            var n := |w.audit|;
            && |after.audit| == n + |specs| + (if reserved.Some? then 1 else 0) && after.audit[..n] == w.audit
            && (forall i | 0 <= i < |specs| ::
                  after.audit[n + i] == AliasCreate((space, BoundName(partition, specs[i].0)), id, specs[i].1))
            && (reserved.Some? ==> after.audit[n + |specs|] == UploadReserve(id, reserved.value))
  {
    CreateEventsAre(id, space, partition, specs);
    hide Admission, ExpiryFor, Bind, CreateEvents, BoundName;
  }

  lemma {:induction false} CreateEventsAre(id: Id, space: Space, partition: string, specs: seq<(string, bool)>)
    ensures |CreateEvents(id, space, partition, specs)| == |specs|
    ensures forall i | 0 <= i < |specs| ::
              CreateEvents(id, space, partition, specs)[i]
              == AliasCreate((space, BoundName(partition, specs[i].0)), id, specs[i].1)
  {
    if specs != [] {
      var n := |specs| - 1;
      CreateEventsAre(id, space, partition, specs[..n]);
      NamesInFigures(partition, specs[n].0);
    }
  }

  // ---------------------------------------------------------------- attaching and freeing names

  /** Attaching a name: to any asset not deleted, if the name is free; the row is touched and a tombstone of the name
      that has elapsed goes. */
  lemma AttachInFigures(w: World, id: Id, name: string, isMutable: bool, now: int)
    ensures var s := ApplyAttach(w, id, name, isMutable, now);
            if id !in w.assets then s == Step(w, Err(AssetNotFound))
            else
              var a := w.assets[id];
              var key := (a.space, BoundName(a.partition, name));
              if a.state == Deleted then s == Step(w, Err(InvalidTransition))
              else if Taken(w, key, now) then s == Step(w, Err(AliasConflict))
              else
                s == Step(w.(assets := w.assets[id := a.(updatedAt := now)],
                             names := w.names[key := Binding(Some(id), isMutable, None)],
                             tombs := w.tombs - {key},
                             audit := w.audit + [AliasAttach(key, id, isMutable)]), Ok)
  {
    if id in w.assets {
      var a := w.assets[id];
      NamesInFigures(a.partition, name);
      var key := (a.space, BoundName(a.partition, name));
      assert ClearNames(w.names, w.tombs, [key], now)
          == if Taken(w, key, now) then Cleared(w.tombs, false) else Cleared(w.tombs - {key}, true);
    }
    hide BoundName, UnderPartition;
  }

  /** Some other name than this one still points at the asset. */
  ghost predicate OtherName(w: World, key: Key, id: Id) {
    exists k | k in w.names && k != key :: w.names[k].asset == Some(id)
  }

  /** The row of an asset that just lost a name: expired now if that was its last one and it was pending or available,
      else only touched. */
  function AfterLoss(a: Asset, last: bool, now: int): Asset {
    if last && (a.state == Pending || a.state == Available)
      then a.(state := Expired, updatedAt := now, expiredAt := Some(now))
    else a.(updatedAt := now)
  }

  function LossEvents(a: Asset, id: Id, last: bool): seq<Event> {
    if last && (a.state == Pending || a.state == Available) then [GcMark(id, a.state)] else []
  }

  lemma NamesLeft(w: World, names: map<Key, Binding>, key: Key, id: Id)
    requires forall k :: k in names && k != key <==> k in w.names && k != key
    requires forall k | k in names && k != key :: names[k] == w.names[k]
    requires key in names ==> names[key].asset != Some(id)
    ensures AliasesOf(names, id) == {} <==> !OtherName(w, key, id)
  {
    assert forall k <- AliasesOf(names, id) :: k != key && k in w.names && w.names[k].asset == Some(id);
    if OtherName(w, key, id) {
      var k :| k in w.names && k != key && w.names[k].asset == Some(id);
      assert k in AliasesOf(names, id);
    }
  }

  /** Detaching an immutable name frees it and buries it for the grace period. */
  lemma DetachInFigures(cfg: Config, w: World, key: Key, now: int)
    requires Inv(w)
    ensures var s := ApplyDetach(cfg, w, key, now);
            if key !in w.names then s == Step(w, Err(AliasNotFound))
            else if w.names[key].isMutable then s == Step(w, Err(AliasImmutable))
            else
              var bound := w.names[key].asset;
              && bound.Some? && bound.value in w.assets
              && var id, a := bound.value, w.assets[bound.value];
                 var last := !OtherName(w, key, id);
                 s == Step(w.(assets := w.assets[id := AfterLoss(a, last, now)],
                              names := w.names - {key},
                              tombs := if cfg.aliasGrace > 0 then w.tombs[key := now + cfg.aliasGrace] else w.tombs,
                              audit := w.audit + [AliasDetach(key, id)] + LossEvents(a, id, last)), Ok)
  {
    if key in w.names && !w.names[key].isMutable {
      assert BindingOk(w.assets, key, w.names[key]);
      var id := w.names[key].asset.value;
      DetachFrees(cfg, w, key, now);
      hide Inv, ApplyDetach;
      NamesLeft(w, w.names - {key}, key, id);
      LastNameGone(Freed(cfg, w, key, id, now), id, !OtherName(w, key, id), now);
      hide MarkIfOrphaned, OtherName, AliasesOf;
      AfterTouch(w.assets[id], !OtherName(w, key, id), now);
      hide AfterLoss, LossEvents;
      OneRowTwice(w.assets, id, w.assets[id].(updatedAt := now), AfterLoss(w.assets[id], !OtherName(w, key, id), now));
    }
    hide Inv, OtherName, AliasesOf;
  }

  /** What losing a name comes to once the row was touched. */
  lemma LastNameGone(w: World, id: Id, last: bool, now: int)
    requires id in w.assets && w.assets[id].updatedAt == now && (AliasesOf(w.names, id) == {} <==> last)
    ensures MarkIfOrphaned(w, id, now)
         == w.(assets := w.assets[id := AfterLoss(w.assets[id], last, now)],
               audit := w.audit + LossEvents(w.assets[id], id, last))
  {
    hide AliasesOf;
    assert w.assets[id := w.assets[id]] == w.assets && w.audit + [] == w.audit;
  }

  /** The registry between freeing a name and looking for others. */
  ghost function Freed(cfg: Config, w: World, key: Key, id: Id, now: int): World
    requires id in w.assets
  {
    w.(names := w.names - {key},
       tombs := if cfg.aliasGrace > 0 then w.tombs[key := now + cfg.aliasGrace] else w.tombs,
       assets := w.assets[id := w.assets[id].(updatedAt := now)], audit := w.audit + [AliasDetach(key, id)])
  }

  lemma DetachFrees(cfg: Config, w: World, key: Key, now: int)
    requires key in w.names && !w.names[key].isMutable && w.names[key].asset.Some?
             && w.names[key].asset.value in w.assets
    ensures ApplyDetach(cfg, w, key, now)
         == Step(MarkIfOrphaned(Freed(cfg, w, key, w.names[key].asset.value, now), w.names[key].asset.value, now), Ok)
  {
    hide MarkIfOrphaned;
  }

  lemma AfterTouch(a: Asset, last: bool, now: int)
    ensures AfterLoss(a.(updatedAt := now), last, now) == AfterLoss(a, last, now)
    ensures forall id :: LossEvents(a.(updatedAt := now), id, last) == LossEvents(a, id, last)
  {
  }

  lemma OneRowTwice(assets: map<Id, Asset>, id: Id, a: Asset, b: Asset)
    ensures assets[id := a][id := b] == assets[id := b]
  {
  }

  /** Detaching a mutable name keeps it, unbound, with its last asset on record. */
  lemma DetachMutableInFigures(w: World, key: Key, now: int)
    requires Inv(w)
    ensures var s := ApplyDetachMutable(w, key, now);
            if key !in w.names then s == Step(w, Err(AliasNotFound))
            else if !w.names[key].isMutable then s == Step(w, Err(AliasImmutable))
            else if w.names[key].asset == None then s == Step(w, Err(InvalidTransition))
            else
              var id := w.names[key].asset.value;
              && id in w.assets
              && var a, last := w.assets[id], !OtherName(w, key, id);
                 s == Step(w.(assets := w.assets[id := AfterLoss(a, last, now)],
                              names := w.names[key := Binding(None, true, Some(id))],
                              audit := w.audit + [AliasDetachMutable(key, id)] + LossEvents(a, id, last)), Ok)
  {
    if key in w.names && w.names[key].isMutable && w.names[key].asset.Some? {
      assert BindingOk(w.assets, key, w.names[key]);
      var id := w.names[key].asset.value;
      NamesLeft(w, w.names[key := Binding(None, true, Some(id))], key, id);
      hide Inv, OtherName, AliasesOf;
      OneRowTwice(w.assets, id, w.assets[id].(updatedAt := now), AfterLoss(w.assets[id], !OtherName(w, key, id), now));
    }
    hide Inv, OtherName, AliasesOf;
  }

  /** A freed name can be bound again exactly from the end of its grace. */
  lemma BuriedForItsGrace(cfg: Config, w: World, key: Key, now: int, t: int)
    requires Inv(w) && ApplyDetach(cfg, w, key, now).out == Ok && t >= now
    ensures Taken(ApplyDetach(cfg, w, key, now).world, key, t) <==> t < now + cfg.aliasGrace
  {
    DetachInFigures(cfg, w, key, now);
    assert key !in w.tombs;
    hide Inv, ApplyDetach, OtherName;
  }

  /** Rebinding: an unbound mutable name goes to an available asset of its bucket whose partition is the part of the
      name before its first slash. */
  lemma RebindInFigures(w: World, key: Key, id: Id, now: int)
    requires Inv(w)
    ensures var s := ApplyRebind(w, key, id, now);
            if key !in w.names then s == Step(w, Err(AliasNotFound))
            else if !w.names[key].isMutable then s == Step(w, Err(AliasImmutable))
            else if w.names[key].asset.Some? then s == Step(w, Err(InvalidTransition))
            else if id !in w.assets then s == Step(w, Err(AssetNotFound))
            else
              var a := w.assets[id];
              if a.space != key.0 || !BeforeSlash(a.partition, key.1) then s == Step(w, Err(AliasConflict))
              else if a.state != Available then s == Step(w, Err(InvalidTransition))
              else
                s == Step(w.(assets := w.assets[id := a.(updatedAt := now)],
                             names := w.names[key := Binding(Some(id), true, None)],
                             audit := w.audit + [AliasRebind(key, w.names[key].previous, id)]), Ok)
  {
    if id in w.assets { FirstPart(w.assets[id].partition, key.1); }
    hide Inv, FirstSegment, BeforeSlash;
  }

  /** `front` is all of `name`, or what comes before its first slash. */
  predicate BeforeSlash(front: string, name: string) {
    '/' !in front && (name == front || (|name| > |front| && name[..|front|] == front && name[|front|] == '/'))
  }

  lemma {:induction false} FirstPart(front: string, name: string)
    ensures front == FirstSegment(name) <==> BeforeSlash(front, name)
  {
    if name == "" || name[0] == '/' {
    } else if front == "" {
      assert !BeforeSlash(front, name);
    } else {
      FirstPart(front[1..], name[1..]);
      assert front == [front[0]] + front[1..] && name == [name[0]] + name[1..];
      if BeforeSlash(front, name) {
        assert name[..|front|][0] == front[0];
        assert |name| > |front| ==> name[1..][..|front| - 1] == name[..|front|][1..];
        assert BeforeSlash(front[1..], name[1..]);
      }
      if BeforeSlash(front[1..], name[1..]) && front[0] == name[0] {
        assert |name| > |front| ==> name[..|front|] == [name[0]] + name[1..][..|front| - 1];
      }
    }
  }

  // ---------------------------------------------------------------- the other columns

  /** Annotations: the patch replaces all, or only the keys it names. */
  lemma AnnotateInFigures(w: World, id: Id, patch: map<string, string>, overwrite: bool, now: int)
    ensures var s := ApplyAnnotate(w, id, patch, overwrite, now);
            if id !in w.assets then s == Step(w, Err(AssetNotFound))
            else if w.assets[id].state == Deleted then s == Step(w, Err(InvalidTransition))
            else
              && s.out == Ok && id in s.world.assets
              && var a, notes := w.assets[id], s.world.assets[id].annotations;
                 && s.world == w.(assets := w.assets[id := a.(annotations := notes, updatedAt := now)],
                                  audit := w.audit + [AnnotationsUpdate(id)])
                 && (forall k <- patch :: k in notes && notes[k] == patch[k])
                 && (forall k <- notes ::
                      k in patch || (!overwrite && k in a.annotations
                      && notes[k] == a.annotations[k]))
                 && (!overwrite ==> a.annotations.Keys <= notes.Keys)
  {
  }

  lemma ExpireInFigures(w: World, id: Id, now: int)
    ensures var s := ApplyExpire(w, id, now);
            if id !in w.assets then s == Step(w, Err(AssetNotFound))
            else if w.assets[id].state != Available then s == Step(w, Err(InvalidTransition))
            else
              var b := w.assets[id].(state := Expired, updatedAt := now, expiredAt := Some(now));
              s == Step(w.(assets := w.assets[id := b], audit := w.audit + [AssetExpire(id, Available)]), Ok)
  {
  }

  lemma DeleteInFigures(w: World, id: Id, now: int)
    ensures var s := ApplyDelete(w, id, now);
            if id !in w.assets then s == Step(w, Err(AssetNotFound))
            else
              var a := w.assets[id];
              if a.state != Available && a.state != Expired then s == Step(w, Err(InvalidTransition))
              else
                s == Step(w.(assets := w.assets[id := a.(state := Deleted, updatedAt := now)],
                             audit := w.audit + [AssetDelete(id, a.state)]), Ok)
  {
  }

  lemma SetPolicyInFigures(w: World, id: Id, policy: EvictionPolicy, now: int)
    ensures var s := ApplySetPolicy(w, id, policy, now);
            if id !in w.assets then s == Step(w, Err(AssetNotFound))
            else
              var a := w.assets[id];
              if a.state == Deleted then s == Step(w, Err(InvalidTransition))
              else
                s == Step(w.(assets := w.assets[id := a.(policy := policy, updatedAt := now)],
                             audit := w.audit + [EvictionPolicySet(id, a.policy, policy)]), Ok)
  {
  }

  lemma RecordReadInFigures(w: World, id: Id, now: int)
    ensures var s := ApplyRecordRead(w, id, now);
            if id !in w.assets then s == Step(w, Err(AssetNotFound))
            else
              var a := w.assets[id];
              s == Step(if a.state != Available then w
                        else w.(assets := w.assets[id := a.(lastReadAt := Some(now), readCount := a.readCount + 1)]),
                          Ok)
  {
    assert w.audit + [] == w.audit;
  }

  // ---------------------------------------------------------------- limits

  /** Limits: negative ones are refused; an omitted sweep flag is kept, and before any was set it is on exactly in
      `cache` and `tmp`. */
  lemma SetPartitionInFigures(w: World, space: Space, partition: string, bytes: Option<int>, count: Option<int>,
                              sweep: Option<bool>)
    ensures var s := ApplySetPartitionQuota(w, space, partition, bytes, count, sweep);
            var key := (space, partition);
            if (bytes.Some? && bytes.value < 0) || (count.Some? && count.value < 0)
              then s == Step(w, Err(ValidationError))
            else
              && s.out == Ok && key in s.world.partitionLimits
              && var before := if key in w.partitionLimits then w.partitionLimits[key]
                               else PartitionLimits(None, None, space == Cache || space == Tmp);
                 var after := s.world.partitionLimits[key];
                 && after.bytes == bytes && after.count == count
                 && after.sweepEnabled == (if sweep.Some? then sweep.value else before.sweepEnabled)
                 && s.world == w.(partitionLimits := w.partitionLimits[key := after],
                                  audit := w.audit + [QuotaSet(space, partition, before, after)])
  {
  }

  lemma SetBucketInFigures(w: World, space: Space, bytes: Option<int>, warnThreshold: real, hardCeiling: real)
    ensures var s := ApplySetBucketQuota(w, space, bytes, warnThreshold, hardCeiling);
            if bytes.Some? && bytes.value < 0 then s == Step(w, Err(ValidationError))
            else
              && s.out == Ok && space in s.world.bucketLimits
              && var after := s.world.bucketLimits[space];
                 && after.bytes == bytes && after.warnThreshold == warnThreshold && after.hardCeiling == hardCeiling
                 && s.world == w.(bucketLimits := w.bucketLimits[space := after])
  {
  }

  // ---------------------------------------------------------------- maintenance

  /** Maintenance may expire what is available, delete what is not, and record bytes as gone once it is deleted; never
      after that, and only on an up-to-date snapshot. */
  lemma LifecycleInFigures(w: World, id: Id, snapshot: Asset, state: AssetState, payloadDeleted: bool, now: int)
    ensures var s := ApplyLifecycle(w, id, snapshot, state, payloadDeleted, now);
            if id !in w.assets then s == Step(w, Err(AssetNotFound))
            else
              var a := w.assets[id];
              var names := set k | k in w.names && w.names[k].asset == Some(id);
              if snapshot != a.(aliases := names) || a.purgedAt.Some? then s == Step(w, Err(InvalidTransition))
              else if state == Expired && a.state == Available && !payloadDeleted then
                s == Step(w.(assets := w.assets[id := a.(state := Expired, updatedAt := now, expiredAt := Some(now))],
                             audit := w.audit + [AssetExpire(id, Available)]), Ok)
              else if state == Deleted && a.state != Available && !payloadDeleted then
                s == Step(w.(assets := w.assets[id := a.(state := Deleted, updatedAt := now)],
                             audit := w.audit + [AssetDelete(id, a.state)]), Ok)
              else if state == Deleted && a.state == Deleted then
                s == Step(w.(assets := w.assets[id := a.(updatedAt := now, purgedAt := Some(now))],
                             audit := w.audit + [PayloadDelete(id)]), Ok)
              else s == Step(w, Err(InvalidTransition))
  {
    if id in w.assets {
      assert AliasesOf(w.names, id) == set k | k in w.names && w.names[k].asset == Some(id);
    }
    hide AliasesOf;
  }

  // ---------------------------------------------------------------- which state follows which

  /** The only ways an asset's state can change, and the command each takes. */
  ghost predicate StateMove(w: World, c: Cmd, id: Id, from: AssetState, to: AssetState) {
    match (from, to)
    case (Pending, Available) => c.Commit? && c.id == id
    case (Pending, Expired) => LosesLastName(w, c, id)
    case (Pending, Deleted) => c.Lifecycle? && c.id == id && c.state == Deleted
    case (Available, Expired) =>
      (c.Expire? && c.id == id) || (c.Lifecycle? && c.id == id && c.state == Expired) || LosesLastName(w, c, id)
    case (Available, Deleted) => c.Delete? && c.id == id
    case (Expired, Available) => c.SetTtl? && c.id == id
    case (Expired, Deleted) => (c.Delete? && c.id == id) || (c.Lifecycle? && c.id == id && c.state == Deleted)
    case (_, _) => false
  }

  ghost predicate LosesLastName(w: World, c: Cmd, id: Id) {
    && (c.Detach? || c.DetachMutable?) && c.key in w.names && w.names[c.key].asset == Some(id)
    && !OtherName(w, c.key, id)
  }

  lemma NamingMoves(cfg: Config, w: World, c: Cmd, now: int, id: Id)
    requires Inv(w) && id in w.assets && (c.Detach? || c.DetachMutable?)
    ensures var after := Apply(cfg, w, c, now).world;
            id in after.assets && (after.assets[id].state != w.assets[id].state ==>
                                     StateMove(w, c, id, w.assets[id].state, after.assets[id].state))
  {
    hide Inv, OtherName, ApplyDetach, ApplyDetachMutable;
    if c.Detach? { DetachInFigures(cfg, w, c.key, now); } else { DetachMutableInFigures(w, c.key, now); }
  }

  lemma RowMoves(cfg: Config, w: World, c: Cmd, now: int, id: Id)
    requires Inv(w) && id in w.assets && !c.Detach? && !c.DetachMutable? && !c.Reserve? && !c.Attach? && !c.Rebind?
    ensures var after := Apply(cfg, w, c, now).world;
            id in after.assets && (after.assets[id].state != w.assets[id].state ==>
                                     StateMove(w, c, id, w.assets[id].state, after.assets[id].state))
  {
    hide Inv, OtherName, Room, Admission, Full, ApplyCommit, ApplySetTtl, ApplyLifecycle, ApplyAnnotate,
      LifetimeGranted;
    match c
    case Commit(i, size, checksum, expected) => CommitInFigures(cfg, w, i, size, checksum, expected, now);
    case SetTtl(i, seconds) => SetTtlInFigures(cfg, w, i, seconds, now);
    case Lifecycle(i, snapshot, state, payloadDeleted) =>
      LifecycleInFigures(w, i, snapshot, state, payloadDeleted, now);
    case Annotate(i, patch, overwrite) => AnnotateInFigures(w, i, patch, overwrite, now);
    case _ =>
  }

  /** Every change of state of every asset, over every command, is one of these moves. */
  lemma StatesMoveOnlySo(cfg: Config, w: World, c: Cmd, now: int, id: Id)
    requires Inv(w) && id in w.assets
    ensures var after := Apply(cfg, w, c, now).world;
            id in after.assets && (after.assets[id].state != w.assets[id].state ==>
                                     StateMove(w, c, id, w.assets[id].state, after.assets[id].state))
  {
    if c.Detach? || c.DetachMutable? {
      NamingMoves(cfg, w, c, now, id);
    } else if c.Reserve? || c.Attach? || c.Rebind? {
      BindingMovesNone(cfg, w, c, now, id);
    } else {
      RowMoves(cfg, w, c, now, id);
    }
    hide Apply, StateMove, Inv;
  }

  /** Binding names changes no state. */
  lemma BindingMovesNone(cfg: Config, w: World, c: Cmd, now: int, id: Id)
    requires id in w.assets && (c.Reserve? || c.Attach? || c.Rebind?)
    ensures var after := Apply(cfg, w, c, now).world;
            id in after.assets && after.assets[id].state == w.assets[id].state
  {
    hide ClearNames, ReserveDecision, Bind, CreateEvents, UnderPartition, FirstSegment;
  }
}
