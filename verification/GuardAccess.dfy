/** How an alias is taken apart, and who may write and read under it, read off the capability, the alias's segments
    and the table of spent capabilities. */
module GuardAccess {
  import opened Model
  import opened RegistrySpec
  import opened RegistryLaws
  import opened RegistryEffects
  import opened Storage
  import opened Paths
  import opened Ledger
  import opened Guard
  import opened GuardFlow

  /** `t` is `s` without what was to be dropped at its ends. */
  ghost predicate Core(s: string, t: string, drop: char -> bool) {
    exists i, j | 0 <= i <= j <= |s| :: Between(s, t, drop, i, j)
  }

  ghost predicate Between(s: string, t: string, drop: char -> bool, i: nat, j: nat)
    requires i <= j <= |s|
  {
    && t == s[i..j]
    && (forall k | 0 <= k < i :: drop(s[k])) && (forall k | j <= k < |s| :: drop(s[k]))
    && (t == "" || (!drop(t[0]) && !drop(t[|t| - 1])))
  }

  lemma {:induction false} LeftEnd(s: string, drop: char -> bool) returns (i: nat)
    ensures i <= |s| && TrimLeft(s, drop) == s[i..] && forall k | 0 <= k < i :: drop(s[k])
  {
    if s != "" && drop(s[0]) {
      var rest := LeftEnd(s[1..], drop);
      i := rest + 1;
      assert s[1..][rest..] == s[i..];
      forall k | 0 <= k < i ensures drop(s[k]) { assert k > 0 ==> s[1..][k - 1] == s[k]; }
    } else {
      i := 0;
    }
  }

  lemma {:induction false} RightEnd(s: string, drop: char -> bool)
    ensures forall k | |TrimRight(s, drop)| <= k < |s| :: drop(s[k])
  {
    if s != "" && drop(s[|s| - 1]) { RightEnd(s[..|s| - 1], drop); }
  }

  lemma TrimInFigures(s: string, drop: char -> bool)
    ensures Core(s, Trim(s, drop), drop)
  {
    var i := LeftEnd(s, drop);
    var rest := s[i..];
    RightEnd(rest, drop);
    var j := i + |TrimRight(rest, drop)|;
    forall k | j <= k < |s| ensures drop(s[k]) { assert rest[k - i] == s[k]; }
    assert rest[..j - i] == s[i..j];
    assert rest != "" && j > i ==> TrimRight(rest, drop)[0] == rest[0];
    assert Between(s, Trim(s, drop), drop, i, j);
  }

  /** White space, as code points. */
  lemma WhiteSpaceIs(c: char)
    ensures IsSpaceChar(c) <==>
              c as int in {9, 10, 11, 12, 13, 28, 29, 30, 31, 32, 133, 160, 5760, 8192, 8193, 8194, 8195, 8196, 8197,
                           8198, 8199, 8200, 8201, 8202, 8232, 8233, 8239, 8287, 12288}
  {
  }

  /** The four bucket names, and no other name, stand for a bucket. */
  lemma BucketNames(name: string, space: Space)
    ensures SpaceNamed(name) == Some(space) <==> name == SpaceName(space)
    ensures SpaceName(Cache) == "cache" && SpaceName(Tmp) == "tmp" && SpaceName(Users) == "users"
            && SpaceName(Results) == "results"
  {
  }

  /** No segment is empty, `.` or `..`. */
  ghost predicate NoOddSegment(s: string) {
    forall segment <- Split(s) :: segment != "" && segment != "." && segment != ".."
  }

  lemma NormalizeInFigures(s: string)
    ensures Normalize(s) == if NoOddSegment(Cleaned(s)) then Some(Cleaned(s)) else None
  {
    var parts := Split(Cleaned(s));
    assert forall i | 0 <= i < |parts| :: parts[i] in parts;
    if Cleaned(s) == "" { NothingIsOdd(); }
  }

  /** A path cut at its first slash. */
  lemma CutInFigures(s: string)
    ensures var parts := Split(s);
            if |parts| >= 2 && Join(parts[1..]) != "" then CutOnce(s) == Cut(parts[0], Join(parts[1..]))
            else CutOnce(s) == NoCut
  {
    JoinSplit(s);
    FirstSegmentIsFirst(s);
    hide Split;
  }

  /** How an alias parses, in segments: bucket, then a path of at least two segments, each part cleaned of white space
      and slashes at its ends and without odd segments. */
  lemma ParseInFigures(alias: string)
    ensures var parts := Split(Cleaned(alias));
            var relative := Cleaned(Join(Tail(parts)));
            var inner := Split(relative);
            var partition, name := Cleaned(inner[0]), Cleaned(Join(Tail(inner)));
            match ParseAlias(alias)
            case Some(p) =>
              && |parts| >= 2 && |inner| >= 2
              && SpaceName(p.space) == Cleaned(parts[0])
              && p.relative == relative && NoOddSegment(relative)
              && p.partition == partition && NoOddSegment(partition)
              && p.name == name && NoOddSegment(name)
              && p.qualified == SpaceName(p.space) + "/" + Cleaned(relative) && NoOddSegment(Cleaned(relative))
            case None =>
              || |parts| < 2 || |inner| < 2
              || (forall space :: Cleaned(parts[0]) != SpaceName(space))
              || !NoOddSegment(relative) || !NoOddSegment(partition) || !NoOddSegment(name)
              || !NoOddSegment(Cleaned(relative))
  {
    var parts := Split(Cleaned(alias));
    var relative := Cleaned(Join(Tail(parts)));
    OuterInFigures(alias);
    InnerInFigures(relative);
    hide Normalize, CutOnce, Cleaned, Join, Split, NoOddSegment, SpaceNamed, SpaceName, Tail;
  }

  /** The bucket in front and the path behind it. */
  lemma OuterInFigures(alias: string)
    ensures var parts, top := Split(Cleaned(alias)), CutOnce(Cleaned(alias));
            var relative := Cleaned(Join(Tail(parts)));
            && (top.Cut? && SpaceNamed(Cleaned(top.front)).Some? && Normalize(top.back).Some?
                <==> |parts| >= 2 && (exists space :: Cleaned(parts[0]) == SpaceName(space)) && NoOddSegment(relative))
            && (top.Cut? && Normalize(top.back).Some? ==> Normalize(top.back).value == relative)
            && (top.Cut? && SpaceNamed(Cleaned(top.front)).Some? ==>
                 SpaceName(SpaceNamed(Cleaned(top.front)).value) == Cleaned(parts[0]))
  {
    var parts := Split(Cleaned(alias));
    CutInFigures(Cleaned(alias));
    NothingIsOdd();
    NormalizeInFigures(Join(Tail(parts)));
    forall space ensures SpaceNamed(Cleaned(parts[0])) == Some(space) <==> Cleaned(parts[0]) == SpaceName(space) {
      BucketNames(Cleaned(parts[0]), space);
    }
    hide Normalize, CutOnce, Cleaned, Join, Split, NoOddSegment, SpaceNamed, SpaceName;
  }

  /** The partition in front of a path and the name behind it. */
  lemma InnerInFigures(relative: string)
    ensures var inner, cut := Split(relative), CutOnce(relative);
            var partition, name := Cleaned(inner[0]), Cleaned(Join(Tail(inner)));
            && (cut.Cut? && Normalize(cut.front).Some? && Normalize(cut.back).Some?
                <==> |inner| >= 2 && NoOddSegment(partition) && NoOddSegment(name))
            && (cut.Cut? && Normalize(cut.front).Some? ==> Normalize(cut.front).value == partition)
            && (cut.Cut? && Normalize(cut.back).Some? ==> Normalize(cut.back).value == name)
            && Normalize(relative) == if NoOddSegment(Cleaned(relative)) then Some(Cleaned(relative)) else None
  {
    var inner := Split(relative);
    CutInFigures(relative);
    NothingIsOdd();
    NormalizeInFigures(inner[0]);
    NormalizeInFigures(Join(Tail(inner)));
    NormalizeInFigures(relative);
    hide Normalize, CutOnce, Cleaned, Join, Split, NoOddSegment;
  }

  /** All segments but the first. */
  function Tail(parts: seq<string>): (r: seq<string>)
    ensures |r| >= 1
  {
    if |parts| >= 2 then parts[1..] else [""]
  }

  lemma NothingIsOdd()
    ensures !NoOddSegment("") && Cleaned("") == "" && Join([""]) == ""
  {
    assert Split("")[0] in Split("");
  }

  /** A read looks under the path cleaned twice over; a write binds the name, cleaned twice, under the partition,
      cleaned twice, and cleans the whole once more. A path with an odd segment on the way has no key. */
  lemma KeysInFigures(p: Parsed)
    ensures var twice := Cleaned(Cleaned(p.relative));
            ReadKey(p) == if NoOddSegment(Cleaned(p.relative)) && NoOddSegment(twice) then Some((p.space, twice))
              else None
    ensures var partition, name := Cleaned(Cleaned(p.partition)), Cleaned(Cleaned(p.name));
            var bound := Cleaned(BoundName(partition, name));
            WriteKey(p) == if && NoOddSegment(Cleaned(p.partition)) && NoOddSegment(partition)
                              && NoOddSegment(Cleaned(p.name)) && NoOddSegment(name) && NoOddSegment(bound)
                           then Some((p.space, bound)) else None
  {
    var partition, name := Cleaned(Cleaned(p.partition)), Cleaned(Cleaned(p.name));
    NormalizeInFigures(p.relative);
    NormalizeInFigures(Cleaned(p.relative));
    NormalizeInFigures(p.partition);
    NormalizeInFigures(Cleaned(p.partition));
    NormalizeInFigures(p.name);
    NormalizeInFigures(Cleaned(p.name));
    NamesInFigures(partition, name);
    NormalizeInFigures(BoundName(partition, name));
    hide Normalize, Cleaned, NoOddSegment, UnderPartition, BoundName;
  }

  /** An authorization is granted exactly to an entitled capability that is not spent; a refusal for lack of title
      leaves the table as it was. */
  lemma AuthorizeInFigures(consumed: Consumed, cap: Capability, operation: Operation, alias: string, at: int,
                           later: int)
    ensures var (after, granted) := AuthorizeForgetting(consumed, cap, operation, alias, at, later);
            && (granted <==> Entitled(cap, operation, alias, at) && !Spent(consumed, cap, later))
            && (!Entitled(cap, operation, alias, at) ==> after == consumed)
            && (Entitled(cap, operation, alias, at) ==>
                 forall id :: (id in after <==> id in consumed && later < consumed[id])
                              && (id in after ==> after[id] == consumed[id]))
  {
    EntitledIs(cap, operation, alias, at);
    hide Entitled, Allows;
  }

  /** A use is refused exactly when the capability is spent already; otherwise that of a single-use one is put on
      record, and only what has expired is dropped. */
  lemma RecordInFigures(consumed: Consumed, cap: Capability, now: int)
    ensures var (after, accepted) := RecordForgetting(consumed, cap, now);
            && (accepted <==> !Spent(consumed, cap, now))
            && (forall id | !(accepted && cap.singleUse && id == cap.id) ::
                 (id in after <==> id in consumed && now < consumed[id])
                 && (id in after ==> after[id] == consumed[id]))
            && (accepted && cap.singleUse ==> cap.id in after && after[cap.id] == cap.expiresAt)
  {
  }

  /** A capability is issued exactly if it has not expired, fewer than `max` unexpired ones are held, and the audit
      log took it; the store then holds it beside those unexpired, and otherwise those alone. */
  lemma IssueInFigures(grants: Grants, max: nat, cap: Capability, now: int, auditOk: bool)
    ensures var held := set id | id in grants && now < grants[id].expiresAt;
            var out := Judge(LiveGrants(grants, now), max, cap, now, auditOk);
            && (out == AlreadyExpired <==> cap.expiresAt <= now)
            && (out == AtCapacity <==> now < cap.expiresAt && |held| >= max)
            && (out == Issued <==> now < cap.expiresAt && |held| < max && auditOk)
            && LiveGrants(grants, now).Keys == held && forall id <- held :: LiveGrants(grants, now)[id] == grants[id]
  {
    assert LiveGrants(grants, now).Keys == set id | id in grants && now < grants[id].expiresAt;
  }

  // ---------------------------------------------------------------- writing

  /** Nothing but spent capabilities past their expiry is dropped. */
  ghost predicate OnlyTidied(g: Guarded, after: Guarded, now: int) {
    && after.world == g.world && after.objects == g.objects
    && forall id :: (id in after.consumed <==> id in g.consumed && now < g.consumed[id])
                    && (id in after.consumed ==> after.consumed[id] == g.consumed[id])
  }

  /** No capability was put on record. */
  ghost predicate NothingSpent(g: Guarded, after: Guarded) {
    forall id <- after.consumed :: id in g.consumed && after.consumed[id] == g.consumed[id]
  }

  /** Whether a write is let through, in the order of the guard's checks. */
  lemma WriteIsGuarded(cfg: Config, digest: Payload -> string, g: Guarded, c: WriteCall)
    ensures var (after, out) := WriteEffect(cfg, digest, g, c);
            var alias := ParseAlias(c.alias);
            && (out == NotWritten(BadAlias) <==> alias.None?)
            && (alias.None? ==> after == g)
            && (alias.Some? && !Entitled(c.cap, WriteOperation, alias.value.qualified, c.t.check) ==>
                 after == g && out == NotWritten(CapabilityDenied))
            && (alias.Some? && Entitled(c.cap, WriteOperation, alias.value.qualified, c.t.check) ==>
                 && (Spent(g.consumed, c.cap, c.t.lookup) ==>
                      OnlyTidied(g, after, c.t.lookup) && out == NotWritten(CapabilityConsumed))
                 && (!Spent(g.consumed, c.cap, c.t.lookup) && !c.permitted ==>
                      OnlyTidied(g, after, c.t.lookup) && out == NotWritten(CapabilityDenied))
                 && (!Spent(g.consumed, c.cap, c.t.lookup) && c.permitted ==>
                      out.Written? || out.reason.Declined?))
            && (out.NotWritten? ==> NothingSpent(g, after))
            && (out.Written? ==>
                 && alias.Some? && c.permitted && Entitled(c.cap, WriteOperation, alias.value.qualified, c.t.check)
                 && !Spent(g.consumed, c.cap, c.t.lookup) && out.id == c.id
                 && (c.cap.singleUse ==> c.cap.id in after.consumed && after.consumed[c.cap.id] == c.cap.expiresAt))
  {
    hide Entitled, Upload, ParseAlias, Allows, Normalize, ScopedName, RequestOf;
    var parsed := ParseAlias(c.alias);
    if parsed.Some? {
      EntitledIs(c.cap, WriteOperation, parsed.value.qualified, c.t.check);
    }
  }

  /** The row a write leaves: everything from the call and its readings. */
  function WrittenRow(longestResult: int, checksum: string, c: WriteCall, space: Space, partition: string): Asset {
    Asset(space, partition, Available, {}, Some(|c.data|), None, Some(checksum), map[], c.t.reserve, c.t.commit,
          DeadlineOf(longestResult, space, c.ttl, c.t.reserve), None, None, 0, None, Inherit)
  }

  /** What a write that answers Written leaves: one row, its bytes and one binding, as the call asked for. */
  lemma WriteInFigures(cfg: Config, digest: Payload -> string, g: Guarded, c: WriteCall)
    requires c.id !in g.world.assets && WriteEffect(cfg, digest, g, c).1.Written?
    ensures ParseAlias(c.alias).Some? && WriteKey(ParseAlias(c.alias).value).Some?
    ensures var p, after := ParseAlias(c.alias).value, WriteEffect(cfg, digest, g, c).0;
            var partition, key := Cleaned(p.partition), WriteKey(p).value;
            && after.world.assets
               == g.world.assets[c.id := WrittenRow(cfg.resultsMaxTtl, digest(c.data), c, p.space, partition)]
            && after.objects == g.objects[Location(p.space, partition + "/assets/" + c.id) := c.data]
            && after.world.names == g.world.names[key := Binding(Some(c.id), c.isMutable, None)]
            && key !in g.world.names
            && digest(c.data) != "" && (c.expected == None || c.expected == Some(digest(c.data)))
            && LifetimeGranted(cfg.resultsMaxTtl, p.space, c.ttl)
            && c.faults.put == Done
  {
    var r := UploadOfWrite(cfg, digest, g, c);
    var p := ParseAlias(c.alias).value;
    NormalizeInFigures(p.partition);
    UploadInFigures(cfg, digest, g.world, g.objects, c.id, r, c.faults, c.t);
    hide WriteEffect, Upload, ParseAlias, WriteKey, Normalize, Allows, UnderPartition;
    assert r.partition == Cleaned(p.partition);
  }

  lemma UploadInFigures(cfg: Config, digest: Payload -> string, w: World, objects: Objects, id: Id, r: Request,
                        f: Faults, t: Readings)
    requires id !in w.assets && Upload(cfg, digest, w, objects, id, r, f, t).out.Ok?
    ensures var u := Upload(cfg, digest, w, objects, id, r, f, t);
            var key := (r.space, UnderPartition(r.partition, r.name));
            && u.world.assets == w.assets[id := Asset(r.space, r.partition, Available, {}, Some(|r.data|), None,
                                                      Some(digest(r.data)), map[], t.reserve, t.commit,
                                                      DeadlineOf(cfg.resultsMaxTtl, r.space, r.ttl, t.reserve), None,
                                                      None, 0, None, Inherit)]
            && u.objects == objects[Location(r.space, r.partition + "/assets/" + id) := r.data]
            && u.world.names == w.names[key := Binding(Some(id), r.isMutable, None)] && key !in w.names
            && digest(r.data) != "" && (r.expected == None || r.expected == Some(digest(r.data)))
            && LifetimeGranted(cfg.resultsMaxTtl, r.space, r.ttl) && f.put == Done
  {
    UploadLaws(cfg, digest, w, objects, id, r, f, t);
    CommitFollowsReserve(cfg, digest, w, id, r, t);
    ReservedInFigures(cfg, w, id, r, t.reserve);
    hide ReserveFor, CleanUp, UnderPartition, Undone, ApplyCommit;
  }

  lemma ReservedInFigures(cfg: Config, w: World, id: Id, r: Request, now: int)
    requires id !in w.assets && ReserveFor(cfg, w, id, r, now).out.Ok?
    ensures var s := ReserveFor(cfg, w, id, r, now).world;
            && s.assets == w.assets[id := Asset(r.space, r.partition, Pending, {}, None, Some(|r.data|), None, map[],
                                                now, now, DeadlineOf(cfg.resultsMaxTtl, r.space, r.ttl, now), None,
                                                None, 0, None, Inherit)]
            && LifetimeGranted(cfg.resultsMaxTtl, r.space, r.ttl)
  {
    ReserveInFigures(cfg, w, id, r.space, r.partition, FirstAlias(r), Inherit, map[], r.ttl, Some(|r.data|), now);
    ReserveAnswers(cfg, w, id, r.space, r.partition, FirstAlias(r), Inherit, map[], r.ttl, Some(|r.data|), now);
    hide ApplyReserve, LifetimeGranted, KeyListed, Taken;
  }

  /** Every row and object is as it was, but for a deleted row of this identifier. Where bytes of its own can lie there
      are none; or, if the store could not delete, what the put left there: nothing if it was lost, else the data. */
  ghost predicate LeavesOnly(w: World, objects: Objects, id: Id, data: Payload, f: Faults, after: World,
                             left: Objects) {
    && after.assets - {id} == w.assets
    && (if id !in after.assets then left == objects
        else
          var a := after.assets[id];
          var at := LocationOf(a, id);
          && a.state == Deleted && a.size == None
          && left == (if !f.deleteFails then objects - {at} else if f.put == Lost then objects
             else objects[at := data]))
  }

  lemma SameLeavesNothing(w: World, objects: Objects, id: Id, data: Payload, f: Faults, after: World)
    requires id !in w.assets && after.assets == w.assets
    ensures LeavesOnly(w, objects, id, data, f, after, objects)
  {
    assert w.assets - {id} == w.assets;
  }

  /** A write that was turned down leaves at most a deleted row of its own, and bytes of its own only if the store could
      not delete them; both wait for the sweep. */
  lemma RefusedWriteLeaves(cfg: Config, digest: Payload -> string, g: Guarded, c: WriteCall)
    requires c.id !in g.world.assets && WriteEffect(cfg, digest, g, c).1.NotWritten?
    ensures var after := WriteEffect(cfg, digest, g, c).0;
            LeavesOnly(g.world, g.objects, c.id, c.data, c.faults, after.world, after.objects)
  {
    hide ParseAlias, Allows, Normalize, ScopedName, Upload, LeavesOnly, Live, RecordForgetting;
    var parsed := ParseAlias(c.alias);
    SameLeavesNothing(g.world, g.objects, c.id, c.data, c.faults, g.world);
    if parsed.Some? {
      var p := parsed.value;
      var partition, name := Normalize(p.partition), ScopedName(p);
      if partition.Some? && name.Some? {
        var r := RequestOf(c, p.space, partition.value, name.value);
        var u := Upload(cfg, digest, g.world, g.objects, c.id, r, c.faults, c.t);
        if u.out.Err? { RefusedUploadLeaves(cfg, digest, g.world, g.objects, c, r); }
        var live := Live(g.consumed, c.t.lookup);
        if !(c.cap.singleUse && c.cap.id in live) { NotYetSpent(live, c.cap, c.t.use); }
      }
    }
  }

  lemma RefusedUploadLeaves(cfg: Config, digest: Payload -> string, w: World, objects: Objects, c: WriteCall,
                            r: Request)
    requires c.id !in w.assets && Upload(cfg, digest, w, objects, c.id, r, c.faults, c.t).out.Err?
    ensures var u := Upload(cfg, digest, w, objects, c.id, r, c.faults, c.t);
            LeavesOnly(w, objects, c.id, r.data, c.faults, u.world, u.objects)
  {
    UploadLaws(cfg, digest, w, objects, c.id, r, c.faults, c.t);
    var u := Upload(cfg, digest, w, objects, c.id, r, c.faults, c.t);
    hide Upload, ReserveFor, LeavesOnly, Undone, Stored, Accepts;
    if ReserveFor(cfg, w, c.id, r, c.t.reserve).out.Ok? {
      UndoneLeaves(w, objects, c.id, r, c.faults, c.t, u);
    } else {
      SameLeavesNothing(w, objects, c.id, r.data, c.faults, u.world);
    }
  }

  lemma UndoneLeaves(w: World, objects: Objects, id: Id, r: Request, f: Faults, t: Readings, u: Uploaded)
    requires id !in w.assets && Undone(w, objects, id, r, f, t, u)
    ensures LeavesOnly(w, objects, id, r.data, f, u.world, u.objects)
  {
    hide UnderPartition, StorageKey;
    assert w.assets[id := u.world.assets[id]] - {id} == w.assets;
  }

  // ---------------------------------------------------------------- reading

  /** The asset a key is bound to, if it may be served: available and its deadline, if any, ahead. */
  ghost predicate Readable(w: World, key: Key, id: Id, now: int) {
    && key in w.names && w.names[key].asset == Some(id) && id in w.assets
    && w.assets[id].state == Available
    && (w.assets[id].expiresAt.Some? ==> now < w.assets[id].expiresAt.value)
  }

  /** Where the bytes lie: the bucket, and a path that ends in `assets` and the identifier. */
  lemma BytesLieUnderAssets(a: Asset, id: Id)
    requires '/' !in id
    ensures LocationOf(a, id).bucket == a.space && Split(LocationOf(a, id).key) == Split(a.partition) + ["assets", id]
  {
    hide Split;
    SplitOne("assets");
    SplitOne(id);
    SplitConcat("assets", id);
    var rest := "assets" + "/" + id;
    SplitConcat(a.partition, rest);
    assert LocationOf(a, id).key == a.partition + "/" + rest by { assert "/assets/" == "/" + "assets" + "/"; }
    assert ["assets"] + [id] == ["assets", id];
  }

  lemma FoundIsReadable(w: World, key: Key, now: int)
    requires Inv(w)
    ensures Resolve(w.assets, w.names, key, now).Ok? ==>
              key in w.names && w.names[key].asset.Some? && Readable(w, key, w.names[key].asset.value, now)
    ensures forall id :: Readable(w, key, id, now) ==> Resolve(w.assets, w.names, key, now).Ok?
  {
    if key in w.names { assert BindingOk(w.assets, key, w.names[key]); }
    hide Inv;
  }

  /** The rows after a read: the one read was read now and once more. */
  ghost predicate ReadOnce(before: World, after: World, id: Id, now: int) {
    && id in before.assets
    && var a := before.assets[id];
       after == before.(assets := before.assets[id := a.(lastReadAt := Some(now), readCount := a.readCount + 1)])
  }

  /** Whether a read is let through, in the order of the guard's checks, and what it returns. */
  lemma ReadIsGuarded(g: Guarded, c: ReadCall)
    requires Inv(g.world)
    ensures var (after, out) := ReadEffect(g, c);
            var alias := ParseAlias(c.alias);
            && (out == NotRead(BadAlias) <==> alias.None?)
            && (alias.None? ==> after == g)
            && (alias.Some? && !Entitled(c.cap, ReadOperation, alias.value.qualified, c.t.check) ==>
                 after == g && out == NotRead(CapabilityDenied))
            && (alias.Some? && Entitled(c.cap, ReadOperation, alias.value.qualified, c.t.check) ==>
                 && (Spent(g.consumed, c.cap, c.t.lookup) ==>
                      OnlyTidied(g, after, c.t.lookup) && out == NotRead(CapabilityConsumed))
                 && (!Spent(g.consumed, c.cap, c.t.lookup) && !c.permitted ==>
                      OnlyTidied(g, after, c.t.lookup) && out == NotRead(CapabilityDenied)))
            && (out.NotRead? ==> after.world == g.world && after.objects == g.objects && NothingSpent(g, after))
            && (out.Bytes? <==>
                 && alias.Some? && c.permitted && Entitled(c.cap, ReadOperation, alias.value.qualified, c.t.check)
                 && !Spent(g.consumed, c.cap, c.t.lookup)
                 && ReadKey(alias.value).Some? && ReadsAs(g, ReadKey(alias.value).value, c.t.reserve))
            && (out.Bytes? ==> Delivered(g, after, c, out))
  {
    hide Entitled, ParseAlias, Allows, ReadKey, LocationOf, Resolve, Inv, ApplyRecordRead;
    var parsed := ParseAlias(c.alias);
    if parsed.Some? {
      EntitledIs(c.cap, ReadOperation, parsed.value.qualified, c.t.check);
      var key := ReadKey(parsed.value);
      if key.Some? {
        FoundIsReadable(g.world, key.value, c.t.reserve);
        if Resolve(g.world.assets, g.world.names, key.value, c.t.reserve).Ok? {
          ReadIsRecorded(g.world, g.world.names[key.value].asset.value, c.t.commit);
        }
      }
    }
  }

  /** The key is bound to an asset that may be served and whose bytes are there. */
  ghost predicate ReadsAs(g: Guarded, key: Key, now: int) {
    exists id :: Readable(g.world, key, id, now) && LocationOf(g.world.assets[id], id) in g.objects
  }

  /** The bytes under the asset's own location, of the asset the alias is bound to; its use is recorded, and so is
      that of a single-use capability. */
  ghost predicate Delivered(g: Guarded, after: Guarded, c: ReadCall, out: ReadOutcome)
    requires out.Bytes? && ParseAlias(c.alias).Some?
  {
    && ReadKey(ParseAlias(c.alias).value).Some?
    && Readable(g.world, ReadKey(ParseAlias(c.alias).value).value, out.id, c.t.reserve)
    && ReadOnce(g.world, after.world, out.id, c.t.commit) && after.objects == g.objects
    && (c.cap.singleUse ==> c.cap.id in after.consumed && after.consumed[c.cap.id] == c.cap.expiresAt)
    && var at := LocationOf(g.world.assets[out.id], out.id);
       at in g.objects && out.data == g.objects[at]
  }

  lemma ReadIsRecorded(w: World, id: Id, now: int)
    requires id in w.assets && w.assets[id].state == Available
    ensures ReadOnce(w, ApplyRecordRead(w, id, now).world, id, now)
  {
    assert w.audit + [] == w.audit;
  }

  // ---------------------------------------------------------------- cleaning up

  /** Cleaning up after a failed upload: what is still pending is marked deleted; what is then deleted and not yet
      purged loses its bytes and is marked so, unless the deletion fails; anything else is left alone. */
  lemma CleanUpInFigures(w: World, objects: Objects, id: Id, at: Location, deleteFails: bool, t: Readings)
    requires Inv(w)
    ensures var (after, left) := CleanUp(w, objects, id, at, deleteFails, t);
            if id !in w.assets || w.assets[id].purgedAt.Some?
               || w.assets[id].state == Available || w.assets[id].state == Expired then
              after == w && left == objects
            else
              var a := w.assets[id];
              var fenced := if a.state == Pending then a.(state := Deleted, updatedAt := t.fence) else a;
              && after.names == w.names && after.tombs == w.tombs
              && after.assets == w.assets[id := if deleteFails then fenced
                                                else fenced.(updatedAt := t.purge, purgedAt := Some(t.purge))]
              && left == (if deleteFails then objects else objects - {at})
  {
    hide NamesOk, AuditComplete;
    if id in w.assets {
      var a := w.assets[id];
      assert Coherent(a);
      hide Inv, RowsOk, Coherent, ApplyLifecycle;
      if a.purgedAt == None && a.state != Available && a.state != Expired {
        if a.state == Pending { Marked(w, id, false, t.fence); }
        var fenced := if a.state == Pending then ApplyLifecycle(w, id, Full(w, id), Deleted, false, t.fence).world
          else w;
        Marked(fenced, id, true, t.purge);
      }
    }
  }

  lemma Marked(w: World, id: Id, payloadDeleted: bool, now: int)
    requires id in w.assets && w.assets[id].purgedAt == None
    requires w.assets[id].state == (if payloadDeleted then Deleted else Pending)
    ensures var s := ApplyLifecycle(w, id, Full(w, id), Deleted, payloadDeleted, now);
            var a := w.assets[id];
            && s.out == Ok && s.world.names == w.names && s.world.tombs == w.tombs
            && s.world.assets == w.assets[id := a.(state := Deleted, updatedAt := now,
                                                   purgedAt := if payloadDeleted then Some(now) else None)]
  {
  }
}
