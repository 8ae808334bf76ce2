/** Entities of the asset registry, the row transitions of its lifecycle, and sums over assets. */
module Model {

  datatype Option<+T> = None | Some(value: T)

  type Id = string

  datatype Space = Cache | Tmp | Users | Results

  /** A qualified alias: bucket and bucket-relative path. */
  type Key = (Space, string)

  datatype AssetState = Pending | Available | Expired | Deleted

  datatype EvictionPolicy = Inherit | Exempt

  /** Times are microseconds, the resolution of the original's timestamps. */
  const SECOND: int := 1_000_000

  datatype Asset = Asset(
    space: Space,
    partition: string,
    state: AssetState,
    aliases: set<Key>,
    size: Option<nat>,
    reserved: Option<nat>,
    checksum: Option<string>,
    annotations: map<string, string>,
    createdAt: int,
    updatedAt: int,
    expiresAt: Option<int>,
    expiredAt: Option<int>,
    lastReadAt: Option<int>,
    readCount: nat,
    purgedAt: Option<int>,
    policy: EvictionPolicy)

  datatype Error =
    | ValidationError
    | AssetNotFound
    | AliasNotFound
    | AliasConflict
    | AliasImmutable
    | InvalidTransition
    | AssetGone
    | ChecksumMismatch
    | PartitionQuotaExceeded
    | BucketQuotaExceeded
    | CapacityExceeded
    | StoreUnavailable

  datatype Outcome = Ok | Err(error: Error)

  // ---------------------------------------------------------------- row transitions

  function CommitRow(a: Asset, size: nat, checksum: string, now: int): Asset {
    a.(state := Available, size := Some(size), reserved := None, checksum := Some(checksum), updatedAt := now)
  }

  function ExpireRow(a: Asset, now: int): Asset {
    a.(state := Expired, updatedAt := now, expiredAt := Some(now))
  }

  function DeleteRow(a: Asset, now: int): Asset {
    a.(state := Deleted, updatedAt := now)
  }

  function PurgeRow(a: Asset, now: int): Asset {
    DeleteRow(a, now).(purgedAt := Some(now))
  }

  function RestoreRow(a: Asset, deadline: Option<int>, now: int): Asset {
    a.(state := Available, expiresAt := deadline, expiredAt := None, updatedAt := now)
  }

  function TouchRow(a: Asset, now: int): Asset {
    a.(updatedAt := now)
  }

  /** The maintenance transitions a cleaner or sweeper may ask for. */
  predicate CleanupAllowed(a: Asset, state: AssetState, payloadDeleted: bool) {
    && a.purgedAt.None?
    && ((state.Expired? && a.state.Available? && !payloadDeleted)
        || (state.Deleted? && !a.state.Available? && (payloadDeleted ==> a.state.Deleted?)))
  }

  function LifecycleRow(a: Asset, state: AssetState, now: int, payloadDeleted: bool): Asset {
    a.(state := state,
       updatedAt := now,
       expiredAt := if state.Expired? then Some(now) else a.expiredAt,
       purgedAt := if payloadDeleted then Some(now) else a.purgedAt)
  }

  /** What the lifecycle state says about the other columns. */
  predicate Coherent(a: Asset) {
    && (a.size.Some? <==> a.checksum.Some?)
    && (a.size.Some? ==> a.reserved.None?)
    && (a.state.Pending? ==> a.size.None? && a.expiredAt.None?)
    && (a.state.Available? ==> a.size.Some? && a.expiredAt.None?)
    && (a.state.Expired? ==> a.expiredAt.Some?)
    && (a.purgedAt.Some? ==> a.state.Deleted?)
  }

  // ---------------------------------------------------------------- sums

  /** The quantities the registry counts, either incrementally or by scanning. */
  datatype Measure =
    | UsedBytes(space: Space, partition: string)
    | UsedCount(space: Space, partition: string)
    | BucketUsed(space: Space)
    | BucketCount(space: Space)
    | PendingBytes(space: Space, partition: string)
    | PendingCount(space: Space, partition: string)
    | BucketPending(space: Space)
    | BucketPendingCount(space: Space)
    | Physical(space: Space)

  /** An upload reservation that still holds quota. */
  predicate Reserving(a: Asset) {
    a.state.Pending? && a.reserved.Some?
  }

  function PhysicalBytes(a: Asset): nat {
    if a.size.Some? then a.size.value else if a.reserved.Some? then a.reserved.value else 0
  }

  function Size(a: Asset): nat {
    if a.size.Some? then a.size.value else 0
  }

  function Weigh(m: Measure, a: Asset): nat {
    if a.space != m.space then 0 else
    match m
    case UsedBytes(_, p) => if a.partition == p && a.state.Available? then Size(a) else 0
    case UsedCount(_, p) => if a.partition == p && a.state.Available? then 1 else 0
    case BucketUsed(_) => if a.state.Available? then Size(a) else 0
    case BucketCount(_) => if a.state.Available? then 1 else 0
    case PendingBytes(_, p) => if a.partition == p && Reserving(a) then a.reserved.value else 0
    case PendingCount(_, p) => if a.partition == p && Reserving(a) then 1 else 0
    case BucketPending(_) => if Reserving(a) then a.reserved.value else 0
    case BucketPendingCount(_) => if Reserving(a) then 1 else 0
    case Physical(_) => if a.purgedAt.None? then PhysicalBytes(a) else 0
  }

  /** The sum of a measure over a table of assets. */
  ghost function Total(assets: map<Id, Asset>, m: Measure): nat {
    if assets == map[] then 0
    else
      var id :| id in assets;
      Weigh(m, assets[id]) + Total(assets - {id}, m)
  }

  /** A sum does not depend on the order in which its terms are taken. */
  lemma {:induction false} TotalSplit(assets: map<Id, Asset>, m: Measure, id: Id)
    requires id in assets
    ensures Total(assets, m) == Weigh(m, assets[id]) + Total(assets - {id}, m)
    decreases |assets|
  {
    var pick :| pick in assets && Total(assets, m) == Weigh(m, assets[pick]) + Total(assets - {pick}, m);
    if pick != id {
      TotalSplit(assets - {pick}, m, id);
      TotalSplit(assets - {id}, m, pick);
      assert assets - {pick} - {id} == assets - {id} - {pick};
    }
  }

  /** Replacing or adding one row moves a sum by that row's change and nothing else. */
  lemma TotalUpdate(assets: map<Id, Asset>, m: Measure, id: Id, a: Asset)
    ensures Total(assets[id := a], m)
         == Total(assets, m) - (if id in assets then Weigh(m, assets[id]) else 0) + Weigh(m, a)
  {
    var after := assets[id := a];
    TotalSplit(after, m, id);
    assert after - {id} == assets - {id};
    if id in assets {
      TotalSplit(assets, m, id);
    } else {
      assert assets - {id} == assets;
    }
  }

  lemma TotalUpdateAll(assets: map<Id, Asset>, id: Id, a: Asset)
    ensures forall m: Measure :: Total(assets[id := a], m)
                              == Total(assets, m) - (if id in assets then Weigh(m, assets[id]) else 0) + Weigh(m, a)
  {
    forall m: Measure
      ensures Total(assets[id := a], m)
           == Total(assets, m) - (if id in assets then Weigh(m, assets[id]) else 0) + Weigh(m, a)
    {
      TotalUpdate(assets, m, id, a);
    }
  }

  /** Two tables that weigh the same row by row have the same sum. */
  lemma {:induction false} TotalSame(left: map<Id, Asset>, right: map<Id, Asset>, m: Measure)
    requires left.Keys == right.Keys
    requires forall id <- left :: Weigh(m, left[id]) == Weigh(m, right[id])
    ensures Total(left, m) == Total(right, m)
    decreases |left|
  {
    if left != map[] {
      var id :| id in left;
      TotalSplit(left, m, id);
      TotalSplit(right, m, id);
      TotalSame(left - {id}, right - {id}, m);
    } else {
      assert right == map[];
    }
  }

  /** Leaving out weightless rows changes no sum. */
  lemma {:induction false} TotalWithout(assets: map<Id, Asset>, m: Measure, gone: set<Id>)
    requires forall id <- gone :: id in assets ==> Weigh(m, assets[id]) == 0
    ensures Total(assets, m) == Total(assets - gone, m)
    decreases |gone|
  {
    if gone == {} {
      assert assets - gone == assets;
    } else {
      var id :| id in gone;
      TotalWithout(assets, m, gone - {id});
      var rest := assets - (gone - {id});
      assert rest - {id} == assets - gone;
      if id in rest {
        TotalSplit(rest, m, id);
      } else {
        assert rest - {id} == rest;
      }
    }
  }

  /** An excluded row is left out of a sum; without exclusion nothing is. */
  function Others(assets: map<Id, Asset>, exclude: Option<Id>): map<Id, Asset> {
    if exclude.Some? then assets - {exclude.value} else assets
  }
}
