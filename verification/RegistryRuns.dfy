/** Whole runs of the registry: any sequence of commands, each with its clock reading. */
module RegistryRuns {
  import opened Model
  import opened RegistrySpec
  import opened RegistryLaws
  import opened RegistryQuota

  datatype Timed = Timed(cmd: Cmd, now: int)

  /** The world after the first `i` commands. */
  ghost function At(cfg: Config, w: World, script: seq<Timed>, i: nat): World
    requires i <= |script|
  {
    if i == 0 then w else Apply(cfg, At(cfg, w, script, i - 1), script[i - 1].cmd, script[i - 1].now).world
  }

  /** A registry nobody has used yet. */
  const NOTHING: World := World(map[], map[], map[], imap[], imap[], [])

  lemma NothingIsInOrder(cfg: Config)
    ensures Inv(NOTHING) && AllUnder(cfg, NOTHING)
  {
    assert ReplayNames([]) == map[] && ReplayStates([]) == map[];
    assert forall m: Measure :: Total(map[], m) == 0;
  }

  predicate Clocked(script: seq<Timed>) {
    forall i, j | 0 <= i < j < |script| :: script[i].now <= script[j].now
  }

  lemma {:induction false} RunKeepsInv(cfg: Config, w: World, script: seq<Timed>, i: nat)
    requires Inv(w) && i <= |script|
    ensures Inv(At(cfg, w, script, i))
  {
    hide Inv, Apply;
    if i > 0 {
      RunKeepsInv(cfg, w, script, i - 1);
      StepKeepsInv(cfg, At(cfg, w, script, i - 1), script[i - 1].cmd, script[i - 1].now);
    }
  }

  /** Under every ceiling once, under every ceiling for as long as limits are left alone. */
  lemma {:induction false} RunStaysUnder(cfg: Config, w: World, script: seq<Timed>, i: nat)
    requires Inv(w) && AllUnder(cfg, w) && i <= |script|
    requires forall t <- script :: !ChangesLimits(t.cmd)
    ensures AllUnder(cfg, At(cfg, w, script, i))
  {
    hide Inv, Apply, AllUnder;
    if i > 0 {
      RunStaysUnder(cfg, w, script, i - 1);
      RunKeepsInv(cfg, w, script, i - 1);
      StepStaysUnder(cfg, At(cfg, w, script, i - 1), script[i - 1].cmd, script[i - 1].now);
    }
  }

  lemma CoherentRow(w: World, id: Id)
    requires Inv(w) && id in w.assets
    ensures Coherent(w.assets[id])
  {
  }

  /** Deleted is never left, a purge is never undone, committed content never changes, and what an asset
      reserved is the size it is committed with, if it ever is. */
  lemma {:induction false} RunNeverRevives(cfg: Config, w: World, script: seq<Timed>, i: nat, j: nat, id: Id)
    requires Inv(w) && i <= j <= |script|
    requires id in At(cfg, w, script, i).assets
    ensures id in At(cfg, w, script, j).assets
    ensures var a, b := At(cfg, w, script, i).assets[id], At(cfg, w, script, j).assets[id];
            && (a.state.Deleted? ==> b.state.Deleted?)
            && (a.purgedAt.Some? ==> b.purgedAt.Some?)
            && (a.size.Some? ==> b.size == a.size && b.checksum == a.checksum)
            && (a.size.None? && b.size.Some? ==> a.state.Pending?)
            && (b.state.Pending? ==> a.state.Pending? && b.reserved == a.reserved)
            && (a.state.Pending? && a.reserved.Some? && b.size.Some? ==> b.size.value == a.reserved.value)
  {
    hide Inv, Apply;
    if i < j {
      RunNeverRevives(cfg, w, script, i, j - 1, id);
      RunKeepsInv(cfg, w, script, j - 1);
      StepKeepsInv(cfg, At(cfg, w, script, j - 1), script[j - 1].cmd, script[j - 1].now);
      assert RowGrows(At(cfg, w, script, j - 1).assets[id], At(cfg, w, script, j).assets[id]);
    } else {
      RunKeepsInv(cfg, w, script, i);
      CoherentRow(At(cfg, w, script, i), id);
    }
  }

  // ---------------------------------------------------------------- one name, one step

  /** The binding is gone: an immutable alias was detached and its name buried. */
  ghost predicate Freed(cfg: Config, w: World, after: World, c: Cmd, now: int, key: Key)
    requires key in w.names
  {
    && c == Detach(key) && !w.names[key].isMutable
    && (cfg.aliasGrace > 0 ==> key in after.tombs && after.tombs[key] == now + cfg.aliasGrace)
  }

  /** A mutable name changed target: unbound from its asset, or bound again to an available asset
      of its bucket whose partition is the name's first segment. */
  ghost predicate Retargeted(w: World, after: World, c: Cmd, key: Key)
    requires key in w.names && key in after.names
  {
    && w.names[key].isMutable
    && ((c == DetachMutable(key) && w.names[key].asset.Some? && after.names[key].asset.None?
         && after.names[key].previous == w.names[key].asset)
        || (c.Rebind? && c.key == key && w.names[key].asset.None? && after.names[key].asset == Some(c.id)
            && c.id in w.assets && w.assets[c.id].state.Available?
            && w.assets[c.id].space == key.0 && w.assets[c.id].partition == FirstSegment(key.1)))
  }

  /** Everything one step can do to one name. */
  ghost predicate NameStepOk(cfg: Config, w: World, after: World, c: Cmd, now: int, key: Key) {
    && (key in w.names && key !in after.names ==> Freed(cfg, w, after, c, now, key))
    && (key in w.names && key in after.names ==>
          && after.names[key].isMutable == w.names[key].isMutable
          && (after.names[key].asset != w.names[key].asset ==> Retargeted(w, after, c, key)))
    && (key !in w.names && key in after.names ==>
          after.names[key].asset.Some? && (key in w.tombs ==> w.tombs[key] <= now))
    && (key in w.tombs ==> if key in after.tombs then after.tombs[key] == w.tombs[key] else w.tombs[key] <= now)
  }

  lemma ReserveNameStep(cfg: Config, w: World, c: Cmd, now: int, key: Key)
    requires Inv(w) && c.Reserve? && Apply(cfg, w, c, now).out.Ok?
    ensures NameStepOk(cfg, w, Apply(cfg, w, c, now).world, c, now, key)
  {
    var a := ReserveShape(cfg, w, c, now);
    BindMeans(w.names, c.id, c.space, c.partition, c.specs);
    var cleared := ClearNames(w.names, w.tombs, ScopedKeys(c.space, c.partition, c.specs), now);
    assert Apply(cfg, w, c, now).world.tombs == cleared.tombs;
  }

  lemma DetachNames(cfg: Config, w: World, key: Key, now: int)
    requires ApplyDetach(cfg, w, key, now).out.Ok?
    ensures var after := ApplyDetach(cfg, w, key, now).world;
            after.names == w.names - {key} && after.tombs == Buried(cfg, w.tombs, key, now)
  {
  }

  lemma DetachMutableNames(w: World, key: Key, now: int)
    requires ApplyDetachMutable(w, key, now).out.Ok?
    ensures var after := ApplyDetachMutable(w, key, now).world;
            after.names == w.names[key := w.names[key].(asset := None, previous := w.names[key].asset)]
              && after.tombs == w.tombs
  {
  }

  lemma DetachNameStep(cfg: Config, w: World, c: Cmd, now: int, key: Key)
    requires Inv(w) && (c.Detach? || c.DetachMutable?) && Apply(cfg, w, c, now).out.Ok?
    ensures NameStepOk(cfg, w, Apply(cfg, w, c, now).world, c, now, key)
  {
    assert key !in w.names || key !in w.tombs;
    hide Inv, MarkIfOrphaned;
    if c.Detach? { DetachNames(cfg, w, c.key, now); } else { DetachMutableNames(w, c.key, now); }
  }

  lemma BindNameStep(cfg: Config, w: World, c: Cmd, now: int, key: Key)
    requires Inv(w) && (c.Attach? || c.Rebind?) && Apply(cfg, w, c, now).out.Ok?
    ensures NameStepOk(cfg, w, Apply(cfg, w, c, now).world, c, now, key)
  {
    if c.Attach? {
      var a := w.assets[c.id];
      var added := (a.space, UnderPartition(a.partition, c.name));
      assert ClearNames(w.names, w.tombs, [added], now).ok;
      assert added in [added] && !Blocked(w.names, w.tombs, added, now);
    }
  }

  lemma RowOpKeepsNames(cfg: Config, w: World, c: Cmd, now: int)
    requires !ConcernsNames(c) && Apply(cfg, w, c, now).out.Ok?
    ensures Apply(cfg, w, c, now).world.names == w.names && Apply(cfg, w, c, now).world.tombs == w.tombs
  {
  }

  lemma NameStep(cfg: Config, w: World, c: Cmd, now: int, key: Key)
    requires Inv(w)
    ensures NameStepOk(cfg, w, Apply(cfg, w, c, now).world, c, now, key)
  {
    hide Inv, Apply;
    if Apply(cfg, w, c, now).out.Err? {
      FailureChangesNothing(cfg, w, c, now);
    } else if c.Reserve? {
      ReserveNameStep(cfg, w, c, now, key);
    } else if c.Detach? || c.DetachMutable? {
      DetachNameStep(cfg, w, c, now, key);
    } else if c.Attach? || c.Rebind? {
      BindNameStep(cfg, w, c, now, key);
    } else {
      RowOpKeepsNames(cfg, w, c, now);
    }
  }

  // ---------------------------------------------------------------- names over runs

  ghost predicate Live(cfg: Config, w: World, script: seq<Timed>, i: nat, key: Key)
    requires i <= |script|
  {
    key in At(cfg, w, script, i).names
  }

  ghost function BindingAt(cfg: Config, w: World, script: seq<Timed>, i: nat, key: Key): Binding
    requires i <= |script| && Live(cfg, w, script, i, key)
  {
    At(cfg, w, script, i).names[key]
  }

  /** A mutable name is never freed and never becomes immutable. */
  lemma {:induction false} MutableNameStays(cfg: Config, w: World, script: seq<Timed>, i: nat, j: nat, key: Key)
    requires Inv(w) && i <= j <= |script|
    requires Live(cfg, w, script, i, key) && BindingAt(cfg, w, script, i, key).isMutable
    ensures Live(cfg, w, script, j, key) && BindingAt(cfg, w, script, j, key).isMutable
  {
    hide Inv, Apply;
    if i < j {
      MutableNameStays(cfg, w, script, i, j - 1, key);
      RunKeepsInv(cfg, w, script, j - 1);
      NameStep(cfg, At(cfg, w, script, j - 1), script[j - 1].cmd, script[j - 1].now, key);
    }
  }

  /** Step `d` detached the name. */
  ghost predicate DetachedAt(cfg: Config, w: World, script: seq<Timed>, d: nat, key: Key)
    requires d < |script|
  {
    script[d].cmd == Detach(key) && Live(cfg, w, script, d, key) && !Live(cfg, w, script, d + 1, key)
  }

  /** Step `e` created the name anew. */
  ghost predicate CreatedAt(cfg: Config, w: World, script: seq<Timed>, e: nat, key: Key)
    requires e < |script|
  {
    !Live(cfg, w, script, e, key) && Live(cfg, w, script, e + 1, key)
  }

  /** Since step `i` the name was detached, and created again no sooner than the grace later. */
  ghost predicate ReusedAfterGrace(cfg: Config, w: World, script: seq<Timed>, i: nat, j: nat, key: Key)
    requires i <= j <= |script|
  {
    exists d: nat, e: nat :: i <= d < e < j && DetachedAt(cfg, w, script, d, key) && CreatedAt(cfg, w, script, e, key)
                             && script[e].now >= script[d].now + cfg.aliasGrace
  }

  /** Since step `i` the name was detached at `d` and is still free; its tombstone stands or has elapsed. */
  ghost predicate FreeSince(cfg: Config, w: World, script: seq<Timed>, d: nat, j: nat, key: Key)
    requires d < j <= |script|
  {
    && DetachedAt(cfg, w, script, d, key) && !Live(cfg, w, script, j, key)
    && if key in At(cfg, w, script, j).tombs
       then At(cfg, w, script, j).tombs[key] == script[d].now + cfg.aliasGrace
       else script[j - 1].now >= script[d].now + cfg.aliasGrace
  }

  lemma FreeStep(cfg: Config, w: World, script: seq<Timed>, i: nat, d: nat, j: nat, key: Key)
    requires Inv(w) && Clocked(script) && i <= d < j < |script|
    requires FreeSince(cfg, w, script, d, j, key)
    ensures FreeSince(cfg, w, script, d, j + 1, key) || ReusedAfterGrace(cfg, w, script, i, j + 1, key)
  {
    hide Inv, Apply;
    RunKeepsInv(cfg, w, script, j);
    var before := At(cfg, w, script, j);
    NameStep(cfg, before, script[j].cmd, script[j].now, key);
    assert At(cfg, w, script, j + 1) == Apply(cfg, before, script[j].cmd, script[j].now).world;
    if Live(cfg, w, script, j + 1, key) {
      assert CreatedAt(cfg, w, script, j, key);
      assert script[j - 1].now <= script[j].now;
    } else if key !in before.tombs {
      NoTombFromNothing(cfg, before, script[j].cmd, script[j].now, key);
    }
  }

  lemma NoTombFromNothing(cfg: Config, w: World, c: Cmd, now: int, key: Key)
    requires Inv(w) && key !in w.names && key !in w.tombs
    ensures key !in Apply(cfg, w, c, now).world.tombs
  {
    if Apply(cfg, w, c, now).out.Err? {
      FailureChangesNothing(cfg, w, c, now);
    } else if !ConcernsNames(c) {
      RowOpKeepsNames(cfg, w, c, now);
    }
  }

  /** From an immutable binding onwards: still the same target, or freed and waiting, or reused
      after the grace. */
  lemma {:induction false} ImmutableNameHistory(cfg: Config, w: World, script: seq<Timed>, i: nat, j: nat, key: Key)
    requires Inv(w) && Clocked(script) && i <= j <= |script|
    requires Live(cfg, w, script, i, key) && !BindingAt(cfg, w, script, i, key).isMutable
    ensures StillBound(cfg, w, script, i, j, key)
            || (exists d: nat :: i <= d < j && FreeSince(cfg, w, script, d, j, key))
            || ReusedAfterGrace(cfg, w, script, i, j, key)
  {
    hide Inv, Apply, Live, BindingAt, FreeSince, At;
    if i < j {
      ImmutableNameHistory(cfg, w, script, i, j - 1, key);
      if ReusedAfterGrace(cfg, w, script, i, j - 1, key) {
        var d: nat, e: nat :| i <= d < e < j - 1 && DetachedAt(cfg, w, script, d, key)
          && CreatedAt(cfg, w, script, e, key)
                              && script[e].now >= script[d].now + cfg.aliasGrace;
      } else if StillBound(cfg, w, script, i, j - 1, key) {
        BoundStep(cfg, w, script, i, j - 1, key);
      } else {
        var d: nat :| i <= d < j - 1 && FreeSince(cfg, w, script, d, j - 1, key);
        FreeStep(cfg, w, script, i, d, j - 1, key);
      }
    }
  }

  /** Bound at `k`, immutably, to the asset it was bound to at `i`. */
  ghost predicate StillBound(cfg: Config, w: World, script: seq<Timed>, i: nat, k: nat, key: Key)
    requires i <= k <= |script| && Live(cfg, w, script, i, key)
  {
    Live(cfg, w, script, k, key) && !BindingAt(cfg, w, script, k, key).isMutable
    && BindingAt(cfg, w, script, k, key).asset == BindingAt(cfg, w, script, i, key).asset
  }

  lemma BoundStep(cfg: Config, w: World, script: seq<Timed>, i: nat, k: nat, key: Key)
    requires Inv(w) && i <= k < |script| && Live(cfg, w, script, i, key) && StillBound(cfg, w, script, i, k, key)
    ensures StillBound(cfg, w, script, i, k + 1, key) || FreeSince(cfg, w, script, k, k + 1, key)
  {
    hide Inv, Apply, FreeSince;
    RunKeepsInv(cfg, w, script, k);
    var before := At(cfg, w, script, k);
    NameStep(cfg, before, script[k].cmd, script[k].now, key);
    assert At(cfg, w, script, k + 1) == Apply(cfg, before, script[k].cmd, script[k].now).world;
    if !Live(cfg, w, script, k + 1, key) { FreshlyFreed(cfg, w, script, k, key); }
  }

  lemma FreshlyFreed(cfg: Config, w: World, script: seq<Timed>, d: nat, key: Key)
    requires Inv(w) && d < |script| && Live(cfg, w, script, d, key) && !Live(cfg, w, script, d + 1, key)
    ensures FreeSince(cfg, w, script, d, d + 1, key)
  {
    hide Inv, Apply;
    RunKeepsInv(cfg, w, script, d);
    var before := At(cfg, w, script, d);
    NameStep(cfg, before, script[d].cmd, script[d].now, key);
    assert At(cfg, w, script, d + 1) == Apply(cfg, before, script[d].cmd, script[d].now).world;
    if cfg.aliasGrace == 0 {
      DetachLeavesNoTomb(cfg, before, key, script[d].now);
    }
  }

  lemma DetachLeavesNoTomb(cfg: Config, w: World, key: Key, now: int)
    requires Inv(w) && cfg.aliasGrace == 0 && key in w.names
    ensures key !in Apply(cfg, w, Detach(key), now).world.tombs
  {
    assert key !in w.tombs;
  }

  /** An immutable name that resolves to two different assets was detached in between and created
      again only after the whole grace period. */
  lemma ImmutableNameIsStable(cfg: Config, w: World, script: seq<Timed>, i: nat, j: nat, key: Key)
    requires Inv(w) && Clocked(script) && i <= j <= |script|
    requires Live(cfg, w, script, i, key) && !BindingAt(cfg, w, script, i, key).isMutable
    requires Live(cfg, w, script, j, key) && BindingAt(cfg, w, script, j, key).asset != BindingAt(cfg, w, script, i,
             key).asset
    ensures ReusedAfterGrace(cfg, w, script, i, j, key)
  {
    hide Inv, Apply;
    ImmutableNameHistory(cfg, w, script, i, j, key);
  }

  /** Step `e` bound the name to this asset, available then, in the name's bucket and first segment. */
  ghost predicate ReboundAt(cfg: Config, w: World, script: seq<Timed>, e: nat, key: Key, id: Id)
    requires e < |script|
  {
    && script[e].cmd == Rebind(key, id)
    && var before := At(cfg, w, script, e);
       && id in before.assets && before.assets[id].state.Available?
       && before.assets[id].space == key.0 && before.assets[id].partition == FirstSegment(key.1)
  }

  ghost predicate UnboundAt(script: seq<Timed>, d: nat, key: Key)
    requires d < |script|
  {
    script[d].cmd == DetachMutable(key)
  }

  /** A mutable name, followed from a bound state: bound to the same asset, or unbound since, or
      unbound and then bound again by the last rebind. */
  lemma {:induction false} MutableNameHistory(cfg: Config, w: World, script: seq<Timed>, i: nat, j: nat, key: Key)
    requires Inv(w) && i <= j <= |script|
    requires Live(cfg, w, script, i, key) && BindingAt(cfg, w, script, i, key).isMutable
             && BindingAt(cfg, w, script, i, key).asset.Some?
    ensures Live(cfg, w, script, j, key)
    ensures var t := BindingAt(cfg, w, script, j, key).asset;
            || t == BindingAt(cfg, w, script, i, key).asset
            || (t.None? && exists d: nat :: i <= d < j && UnboundAt(script, d, key))
            || (t.Some? && exists d: nat, e: nat ::
                            i <= d < e < j && UnboundAt(script, d, key)
                            && ReboundAt(cfg, w, script, e, key, t.value))
  {
    hide Inv, Apply;
    MutableNameStays(cfg, w, script, i, j, key);
    if i < j {
      MutableNameHistory(cfg, w, script, i, j - 1, key);
      MutableNameStays(cfg, w, script, i, j - 1, key);
      RunKeepsInv(cfg, w, script, j - 1);
      var before := At(cfg, w, script, j - 1);
      NameStep(cfg, before, script[j - 1].cmd, script[j - 1].now, key);
      var t := BindingAt(cfg, w, script, j - 1, key).asset;
      if BindingAt(cfg, w, script, j, key).asset != t {
        if t.Some? {
          assert UnboundAt(script, j - 1, key);
        } else {
          var d: nat :| i <= d < j - 1 && UnboundAt(script, d, key);
          assert ReboundAt(cfg, w, script, j - 1, key, BindingAt(cfg, w, script, j, key).asset.value);
        }
      }
    }
  }

  // ---------------------------------------------------------------- rebinding and partitions

  lemma {:induction false} FirstSegmentOfUnder(partition: string, name: string)
    requires IsUnder(partition, name)
    ensures FirstSegment(name) == FirstSegment(partition)
  {
    if name != partition {
      if partition == "" {
        assert name[0] == (partition + "/")[0];
      } else {
        assert name[0] == (partition + "/")[0] == partition[0];
        assert partition[1..] + "/" == (partition + "/")[1..];
        assert (partition + "/")[1..] <= name[1..];
        if partition[0] != '/' { FirstSegmentOfUnder(partition[1..], name[1..]); }
      }
    }
  }

  lemma {:induction false} OneSegment(partition: string)
    ensures FirstSegment(partition) == partition <==> '/' !in partition
  {
    if partition != "" && partition[0] != '/' {
      OneSegment(partition[1..]);
      assert partition == [partition[0]] + partition[1..];
    }
  }

  /** A rebind stays in the partition the name came from exactly when that partition has a single
      segment: the guard compares the new asset's partition with the name's first segment only. */
  lemma RebindStaysInPartition(cfg: Config, w: World, key: Key, id: Id, now: int)
    requires Inv(w) && ApplyRebind(w, key, id, now).out.Ok?
    ensures var left := w.names[key].previous;
            && left.Some? && left.value in w.assets
            && w.assets[left.value].space == w.assets[id].space
            && (w.assets[left.value].partition == w.assets[id].partition <==> '/' !in w.assets[left.value].partition)
  {
    assert BindingOk(w.assets, key, w.names[key]);
    var left := w.names[key].previous.value;
    FirstSegmentOfUnder(w.assets[left].partition, key.1);
    OneSegment(w.assets[left].partition);
  }

  const PLAIN_CONFIG := Config(0, map[], 1.0, 1)

  /** In partition "a/b" a mutable name loses its asset; partition "a" gets an available one. */
  function CrossingScript(): seq<Timed> {
    [Timed(Reserve("x", Cache, "a/b", [("n", true)], Inherit, map[], None, None), 0),
     Timed(DetachMutable((Cache, "a/b/n")), 0),
     Timed(Reserve("y", Cache, "a", [], Inherit, map[], None, None), 0),
     Timed(Commit("y", 1, "c", None), 0)]
  }

  lemma FirstReservation()
    ensures var step := ApplyReserve(PLAIN_CONFIG, NOTHING, "x", Cache, "a/b", [("n", true)], Inherit, map[], None,
                                     None, 0);
            && step.out.Ok? && step.world.names == map[(Cache, "a/b/n") := Binding(Some("x"), true, None)]
            && step.world.assets == map["x" := PendingRow(Cache, "a/b", Inherit, map[], None, None, 0)]
            && step.world.tombs == map[] && step.world.partitionLimits == imap[] && step.world.bucketLimits == imap[]
  {
    var specs := [("n", true)];
    assert specs[..0] == [];
    assert !("a/b" + "/" <= "n");
    assert UnderPartition("a/b", "n") == "a/b/n";
    assert ScopedKeys(Cache, "a/b", specs) == [(Cache, "a/b/n")];
    assert ClearNames(map[], map[], [(Cache, "a/b/n")], 0) == Cleared(map[], true);
  }

  lemma SecondReservation(w: World)
    requires "y" !in w.assets && w.tombs == map[]
    ensures var step := ApplyReserve(PLAIN_CONFIG, w, "y", Cache, "a", [], Inherit, map[], None, None, 0);
            && step.out.Ok? && step.world.names == w.names && step.world.tombs == map[]
            && step.world.assets == w.assets["y" := PendingRow(Cache, "a", Inherit, map[], None, None, 0)]
            && step.world.partitionLimits == w.partitionLimits && step.world.bucketLimits == w.bucketLimits
  {
    assert ScopedKeys(Cache, "a", []) == [];
  }

  lemma LastCommit(w: World)
    requires "y" in w.assets && w.assets["y"] == PendingRow(Cache, "a", Inherit, map[], None, None, 0)
    requires w.partitionLimits == imap[] && w.bucketLimits == imap[]
    ensures var step := ApplyCommit(PLAIN_CONFIG, w, "y", 1, "c", None, 0);
            step.out.Ok? && step.world.names == w.names && step.world.assets
              == w.assets["y" := CommitRow(w.assets["y"], 1, "c", 0)]
  {
  }

  lemma CrossingRuns()
    ensures var w := At(PLAIN_CONFIG, NOTHING, CrossingScript(), 4);
            && "x" in w.assets && w.assets["x"].partition == "a/b"
            && "y" in w.assets && w.assets["y"].partition == "a" && w.assets["y"].space == Cache
               && w.assets["y"].state.Available?
            && (Cache, "a/b/n") in w.names && w.names[(Cache, "a/b/n")] == Binding(None, true, Some("x"))
  {
    var script := CrossingScript();
    FirstReservation();
    assert At(PLAIN_CONFIG, NOTHING, script, 0) == NOTHING;
    var w1 := At(PLAIN_CONFIG, NOTHING, script, 1);
    assert w1 == ApplyReserve(PLAIN_CONFIG, NOTHING, "x", Cache, "a/b", [("n", true)], Inherit, map[], None, None,
                              0).world;
    hide ApplyReserve;
    Detachment(w1);
    var w2 := At(PLAIN_CONFIG, NOTHING, script, 2);
    assert w2 == ApplyDetachMutable(w1, (Cache, "a/b/n"), 0).world;
    hide ApplyDetachMutable;
    SecondReservation(w2);
    var w3 := At(PLAIN_CONFIG, NOTHING, script, 3);
    assert w3 == ApplyReserve(PLAIN_CONFIG, w2, "y", Cache, "a", [], Inherit, map[], None, None, 0).world;
    LastCommit(w3);
    var w4 := At(PLAIN_CONFIG, NOTHING, script, 4);
    assert w4 == ApplyCommit(PLAIN_CONFIG, w3, "y", 1, "c", None, 0).world;
    hide ApplyCommit, At;
  }

  lemma Detachment(w: World)
    requires w.names == map[(Cache, "a/b/n") := Binding(Some("x"), true, None)]
    requires w.assets == map["x" := PendingRow(Cache, "a/b", Inherit, map[], None, None, 0)]
    ensures var step := ApplyDetachMutable(w, (Cache, "a/b/n"), 0);
            && step.out.Ok? && step.world.names == map[(Cache, "a/b/n") := Binding(None, true, Some("x"))]
               && step.world.tombs == w.tombs
            && step.world.assets.Keys == {"x"} && step.world.assets["x"].partition == "a/b"
            && step.world.partitionLimits == w.partitionLimits && step.world.bucketLimits == w.bucketLimits
  {
  }

  /** Rebinding across partitions is meant to be refused, yet after this run a name made in partition
      "a/b" is rebound to an asset of partition "a". */
  lemma RebindCrossesPartitions()
    ensures var w := At(PLAIN_CONFIG, NOTHING, CrossingScript(), 4);
            && "x" in w.assets && "y" in w.assets && w.assets["x"].partition != w.assets["y"].partition
            && (Cache, "a/b/n") in w.names && w.names[(Cache, "a/b/n")].previous == Some("x")
            && ApplyRebind(w, (Cache, "a/b/n"), "y", 0).out.Ok?
  {
    CrossingRuns();
    hide At;
    var name := "a/b/n";
    assert name[1..] == "/b/n" && FirstSegment(name[1..]) == "";
    assert FirstSegment(name) == "a";
  }
}
