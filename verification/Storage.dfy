/** Where an asset's bytes live, and the byte store itself. */
module Storage {
  import opened Model

  /** Bytes as numbers; the digest is a parameter wherever one is needed. */
  type Payload = seq<bv8>

  datatype Location = Location(bucket: Space, key: string)

  function StorageKey(partition: string, id: Id): string {
    partition + "/assets/" + id
  }

  function LocationOf(a: Asset, id: Id): Location {
    Location(a.space, StorageKey(a.partition, id))
  }

  predicate SlashFree(id: Id) {
    '/' !in id
  }

  /** With slash-free identifiers, two assets never share a location. */
  lemma {:induction false} StorageKeyIsInjective(p: string, i: Id, q: string, j: Id)
    requires SlashFree(i) && SlashFree(j)
    requires StorageKey(p, i) == StorageKey(q, j)
    ensures p == q && i == j
  {
    var k := StorageKey(p, i);
    assert k == (p + "/assets") + "/" + i && k == (q + "/assets") + "/" + j;
    LastSlash(p + "/assets", i, q + "/assets", j);
    assert p == (p + "/assets")[..|p|] && q == (q + "/assets")[..|q|];
  }

  lemma LastSlash(a: string, i: string, b: string, j: string)
    requires SlashFree(i) && SlashFree(j) && a + "/" + i == b + "/" + j
    ensures a == b && i == j
  {
    var k := a + "/" + i;
    assert k[|a|] == '/' && k[|b|] == '/';
    assert a == k[..|a|] && b == k[..|b|] && i == k[|a| + 1..] && j == k[|b| + 1..];
  }

  /** What the store reports about an object. */
  datatype Stat = Stat(size: nat, checksum: string)

  /** A byte store held in a dictionary, as the single-process adapter keeps it. */
  class LocalObjectStore {
    const digest: Payload -> string
    var objects: map<Location, Payload>

    constructor (digest: Payload -> string)
      ensures this.digest == digest && objects == map[]
    {
      this.digest := digest;
      objects := map[];
    }

    /** The checksum reported is computed from what was stored. */
    method Put(at: Location, data: Payload) returns (stat: Stat)
      modifies this
      ensures objects == old(objects)[at := data]
      ensures stat == Stat(|data|, digest(data))
    {
      objects := objects[at := data];
      stat := Stat(|data|, digest(data));
    }

    method StatOf(at: Location) returns (stat: Option<Stat>)
      ensures stat == if at in objects then Some(Stat(|objects[at]|, digest(objects[at]))) else None
    {
      if at in objects { return Some(Stat(|objects[at]|, digest(objects[at]))); }
      return None;
    }

    method Get(at: Location) returns (data: Option<Payload>)
      ensures data == if at in objects then Some(objects[at]) else None
    {
      if at in objects { return Some(objects[at]); }
      return None;
    }

    /** Deleting what is not there is not an error. */
    method Delete(at: Location)
      modifies this
      ensures objects == old(objects) - {at}
    {
      objects := objects - {at};
    }
  }
}
