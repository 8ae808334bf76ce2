/** Single-use and bearer capabilities: tables that drop expired entries, compared with tables that
    never forget. */
module Ledger {
  import opened Model
  import opened Paths

  datatype Operation = ReadOperation | WriteOperation

  datatype Capability = Capability(id: string, operation: Operation, scope: string, expiresAt: int, singleUse: bool)

  predicate Allows(cap: Capability, operation: Operation, alias: string, now: int) {
    operation == cap.operation && now < cap.expiresAt && InScope(alias, cap.scope)
  }

  /** The capability is for this operation, its expiry still ahead, and the segments of its scope are the first
      segments of the alias, slashes at either end aside. */
  predicate Entitled(cap: Capability, operation: Operation, alias: string, now: int) {
    && cap.operation == operation
    && now < cap.expiresAt
    && Split(Trim(cap.scope, IsSlash)) <= Split(Trim(alias, IsSlash))
  }

  lemma EntitledIs(cap: Capability, operation: Operation, alias: string, now: int)
    ensures Allows(cap, operation, alias, now) <==> Entitled(cap, operation, alias, now)
  {
    CoversBySegments(Trim(cap.scope, IsSlash), Trim(alias, IsSlash));
  }

  /** Consumed identifiers with their expiry. */
  type Consumed = map<string, int>

  /** A single-use capability whose use is on record, unexpired. */
  predicate Spent(consumed: Consumed, cap: Capability, now: int) {
    cap.singleUse && cap.id in consumed && now < consumed[cap.id]
  }

  function Live(consumed: Consumed, now: int): Consumed {
    map id | id in consumed && now < consumed[id] :: consumed[id]
  }

  class SingleUseLedger {
    var consumed: Consumed

    constructor ()
      ensures consumed == map[]
    {
      consumed := map[];
    }

    /** Retires what has expired, entry by entry over a copy of the table. */
    method Prune(now: int)
      modifies this
      ensures consumed == Live(old(consumed), now)
    {
      var items := consumed;
      var rest := items.Keys;
      while rest != {}
        invariant rest <= items.Keys
        invariant consumed == map id | id in items && (id in rest || now < items[id]) :: items[id]
        decreases |rest|
      {
        var id :| id in rest;
        if items[id] <= now { consumed := consumed - {id}; }
        rest := rest - {id};
      }
    }

    method RecordSuccessfulUse(cap: Capability, now: int) returns (accepted: bool)
      modifies this
      ensures (consumed, accepted) == RecordForgetting(old(consumed), cap, now)
    {
      Prune(now);
      if !cap.singleUse { return true; }
      if cap.id in consumed { return false; }
      consumed := consumed[cap.id := cap.expiresAt];
      return true;
    }

    method AssertUnused(cap: Capability, now: int) returns (unused: bool)
      modifies this
      ensures consumed == Live(old(consumed), now)
      ensures unused <==> !(cap.singleUse && cap.id in Live(old(consumed), now))
    {
      Prune(now);
      return !(cap.singleUse && cap.id in consumed);
    }

    /** The guard's check before a read or write: scope and expiry on one clock reading, then the
        ledger on its own. */
    method Authorize(cap: Capability, operation: Operation, alias: string, at: int, later: int) returns (granted: bool)
      modifies this
      ensures (consumed, granted) == AuthorizeForgetting(old(consumed), cap, operation, alias, at, later)
      ensures granted <==> Entitled(cap, operation, alias, at) && !Spent(old(consumed), cap, later)
    {
      EntitledIs(cap, operation, alias, at);
      if !Allows(cap, operation, alias, at) { return false; }
      granted := AssertUnused(cap, later);
    }
  }

  // ---------------------------------------------------------------- forgetting and not forgetting

  function RecordForgetting(consumed: Consumed, cap: Capability, now: int): (Consumed, bool) {
    var live := Live(consumed, now);
    if !cap.singleUse then (live, true)
    else if cap.id in live then (live, false)
    else (live[cap.id := cap.expiresAt], true)
  }

  function AuthorizeForgetting(consumed: Consumed, cap: Capability, operation: Operation, alias: string, at: int,
                               later: int): (Consumed, bool) {
    if !Allows(cap, operation, alias, at) then (consumed, false)
    else (Live(consumed, later), !(cap.singleUse && cap.id in Live(consumed, later)))
  }

  datatype Call =
    | Authorize(cap: Capability, operation: Operation, alias: string, at: int, later: int)
    | Record(cap: Capability, at: int)
    | Tidy(at: int)

  datatype Reply = Reply(consumed: Consumed, granted: bool)

  function Forgetting(consumed: Consumed, c: Call): Reply {
    match c
    case Authorize(cap, operation, alias, at, later) =>
      var r := AuthorizeForgetting(consumed, cap, operation, alias, at, later);
      Reply(r.0, r.1)
    case Record(cap, at) =>
      var r := RecordForgetting(consumed, cap, at);
      Reply(r.0, r.1)
    case Tidy(at) => Reply(Live(consumed, at), true)
  }

  /** The ledger that keeps every consumed identifier for good. */
  function Remembering(used: Consumed, c: Call): Reply {
    match c
    case Authorize(cap, operation, alias, at, later) =>
      Reply(used, Allows(cap, operation, alias, at) && !(cap.singleUse && cap.id in used))
    case Record(cap, at) =>
      if !cap.singleUse then Reply(used, true)
      else if cap.id in used then Reply(used, false)
      else Reply(used[cap.id := cap.expiresAt], true)
    case Tidy(at) => Reply(used, true)
  }

  function LastReading(c: Call): int {
    if c.Authorize? then c.later else c.at
  }

  /** Readings never go back, within a call or between calls. */
  predicate Ordered(calls: seq<Call>) {
    && (forall i | 0 <= i < |calls| :: calls[i].Authorize? ==> calls[i].at <= calls[i].later)
    && (forall i, j | 0 <= i < j < |calls| :: LastReading(calls[i]) <= calls[j].at)
  }

  /** An identifier names one capability, with one expiry. */
  predicate SameExpiry(calls: seq<Call>) {
    forall i, j | 0 <= i < |calls| && 0 <= j < |calls| && !calls[i].Tidy? && !calls[j].Tidy? ::
      calls[i].cap.id == calls[j].cap.id ==> calls[i].cap.expiresAt == calls[j].cap.expiresAt
  }

  function ForgettingAfter(calls: seq<Call>, k: nat): Consumed
    requires k <= |calls|
  {
    if k == 0 then map[] else Forgetting(ForgettingAfter(calls, k - 1), calls[k - 1]).consumed
  }

  function RememberingAfter(calls: seq<Call>, k: nat): Consumed
    requires k <= |calls|
  {
    if k == 0 then map[] else Remembering(RememberingAfter(calls, k - 1), calls[k - 1]).consumed
  }

  /** What was forgotten had expired by the last reading. */
  predicate Tracks(consumed: Consumed, used: Consumed, calls: seq<Call>, k: nat)
    requires k <= |calls|
  {
    && (forall id <- consumed :: id in used && used[id] == consumed[id])
    && (forall id <- used :: id in consumed || (k > 0 && used[id] <= LastReading(calls[k - 1])))
    && (forall id <- used :: exists i ::
                              0 <= i < k && !calls[i].Tidy? && calls[i].cap.id == id
                              && calls[i].cap.expiresAt == used[id])
  }

  lemma {:induction false} LedgersTrack(calls: seq<Call>, k: nat)
    requires k <= |calls| && Ordered(calls) && SameExpiry(calls)
    ensures Tracks(ForgettingAfter(calls, k), RememberingAfter(calls, k), calls, k)
  {
    if k > 0 {
      LedgersTrack(calls, k - 1);
      var consumed, used, c := ForgettingAfter(calls, k - 1), RememberingAfter(calls, k - 1), calls[k - 1];
      if k > 1 { assert LastReading(calls[k - 2]) <= c.at <= LastReading(c); }
      var after := RememberingAfter(calls, k);
      assert forall id <- used :: id in after && after[id] == used[id];
      assert forall id <- after :: id in used || (c.Record? && c.cap.id == id && c.cap.expiresAt == after[id]);
      forall id <- after
        ensures exists i ::
                 0 <= i < k && !calls[i].Tidy? && calls[i].cap.id == id
                 && calls[i].cap.expiresAt == after[id]
      {
        if id in used {
          var i :| 0 <= i < k - 1 && !calls[i].Tidy? && calls[i].cap.id == id && calls[i].cap.expiresAt == used[id];
        } else {
          assert calls[k - 1].cap.id == id;
        }
      }
      TracksOneMore(calls, k, consumed, used);
    }
  }

  lemma TracksOneMore(calls: seq<Call>, k: nat, consumed: Consumed, used: Consumed)
    requires 0 < k <= |calls| && Tracks(consumed, used, calls, k - 1) && SameExpiry(calls)
    requires k > 1 ==> LastReading(calls[k - 2]) <= LastReading(calls[k - 1])
    ensures var after, kept := Forgetting(consumed, calls[k - 1]).consumed, Remembering(used, calls[k - 1]).consumed;
            && (forall id <- after :: id in kept && kept[id] == after[id])
            && (forall id <- kept :: id in after || kept[id] <= LastReading(calls[k - 1]))
  {
    var c := calls[k - 1];
    if c.Record? && c.cap.id in used {
      var i :| 0 <= i < k - 1 && !calls[i].Tidy? && calls[i].cap.id == c.cap.id
        && calls[i].cap.expiresAt == used[c.cap.id];
      assert calls[i].cap.id == calls[k - 1].cap.id;
    }
  }

  /** The two ledgers disagree on an authorization exactly when a consumed capability expires between
      the two readings of that one call; then the forgetting one grants what it should not. */
  lemma AuthorizationsAgreeExcept(calls: seq<Call>, k: nat)
    requires k < |calls| && Ordered(calls) && SameExpiry(calls) && calls[k].Authorize?
    ensures var forgetful := Forgetting(ForgettingAfter(calls, k), calls[k]).granted;
            var reference := Remembering(RememberingAfter(calls, k), calls[k]).granted;
            var c := calls[k];
            forgetful != reference
            <==> Allows(c.cap, c.operation, c.alias, c.at) && c.cap.singleUse && c.cap.id in RememberingAfter(calls, k)
                 && c.cap.expiresAt <= c.later
  {
    LedgersTrack(calls, k);
    var c, used := calls[k], RememberingAfter(calls, k);
    if c.cap.id in used {
      var i :| 0 <= i < k && !calls[i].Tidy? && calls[i].cap.id == c.cap.id && calls[i].cap.expiresAt == used[c.cap.id];
      assert used[c.cap.id] == c.cap.expiresAt;
      if k > 0 { assert LastReading(calls[k - 1]) <= c.at; }
    }
  }

  /** With one clock reading per authorization, forgetting is never noticed. */
  lemma ForgettingIsUnnoticed(calls: seq<Call>, k: nat)
    requires k < |calls| && Ordered(calls) && SameExpiry(calls) && calls[k].Authorize? && calls[k].at == calls[k].later
    ensures Forgetting(ForgettingAfter(calls, k), calls[k]).granted
            == Remembering(RememberingAfter(calls, k), calls[k]).granted
  {
    AuthorizationsAgreeExcept(calls, k);
  }

  /** A second use is accepted by the forgetting ledger exactly when the capability had expired by then. */
  lemma RecordsAgreeExcept(calls: seq<Call>, k: nat)
    requires k < |calls| && Ordered(calls) && SameExpiry(calls) && calls[k].Record?
    ensures var c := calls[k];
            Forgetting(ForgettingAfter(calls, k), c).granted != Remembering(RememberingAfter(calls, k), c).granted
            <==> c.cap.singleUse && c.cap.id in RememberingAfter(calls, k) && c.cap.expiresAt <= c.at
  {
    LedgersTrack(calls, k);
    var c, used := calls[k], RememberingAfter(calls, k);
    if c.cap.id in used {
      var i :| 0 <= i < k && !calls[i].Tidy? && calls[i].cap.id == c.cap.id && calls[i].cap.expiresAt == used[c.cap.id];
      assert used[c.cap.id] == c.cap.expiresAt;
      if k > 0 { assert LastReading(calls[k - 1]) <= c.at; }
    }
  }

  /** Consumed at 1, checked for expiry at 9 and looked up at 10, when it expires: granted again. */
  lemma GrantedTwice()
    ensures var cap := Capability("c", ReadOperation, "tmp/p", 10, true);
            var calls := [Record(cap, 1), Authorize(cap, ReadOperation, "tmp/p", 9, 10)];
            && Ordered(calls) && SameExpiry(calls)
            && Forgetting(ForgettingAfter(calls, 1), calls[1]).granted
            && !Remembering(RememberingAfter(calls, 1), calls[1]).granted
  {
    var cap := Capability("c", ReadOperation, "tmp/p", 10, true);
    var calls := [Record(cap, 1), Authorize(cap, ReadOperation, "tmp/p", 9, 10)];
    assert ForgettingAfter(calls, 0) == map[] && RememberingAfter(calls, 0) == map[];
    assert RememberingAfter(calls, 1) == map["c" := 10];
    assert ForgettingAfter(calls, 1) == map["c" := 10];
    assert Allows(cap, ReadOperation, "tmp/p", 9);
    AuthorizationsAgreeExcept(calls, 1);
  }

  // ---------------------------------------------------------------- the bearer store

  type Grants = map<string, Capability>

  function LiveGrants(grants: Grants, now: int): Grants {
    map id | id in grants && now < grants[id].expiresAt :: grants[id]
  }

  datatype IssueOutcome = Issued | AlreadyExpired | AtCapacity | AuditFailed

  function Judge(live: Grants, max: nat, cap: Capability, now: int, auditOk: bool): IssueOutcome {
    if cap.expiresAt <= now then AlreadyExpired
    else if |live| >= max then AtCapacity
    else if !auditOk then AuditFailed
    else Issued
  }

  class CapabilityStore {
    const max: nat
    var grants: Grants

    constructor (max: nat)
      requires max > 0
      ensures this.max == max && grants == map[]
    {
      this.max := max;
      grants := map[];
    }

    method Prune(now: int)
      modifies this
      ensures grants == LiveGrants(old(grants), now)
    {
      var items := grants;
      var rest := items.Keys;
      while rest != {}
        invariant rest <= items.Keys
        invariant grants == map id | id in items && (id in rest || now < items[id].expiresAt) :: items[id]
        decreases |rest|
      {
        var id :| id in rest;
        if items[id].expiresAt <= now { grants := grants - {id}; }
        rest := rest - {id};
      }
    }

    /** Publishes a grant only after it was recorded, and never beyond the bound. */
    method Issue(cap: Capability, now: int, auditOk: bool) returns (out: IssueOutcome)
      modifies this
      ensures out == Judge(LiveGrants(old(grants), now), max, cap, now, auditOk)
      ensures grants == if out.Issued? then LiveGrants(old(grants), now)[cap.id := cap]
              else LiveGrants(old(grants), now)
      ensures old(|grants|) <= max ==> |grants| <= max
    {
      Prune(now);
      FewerLive(old(grants), now);
      if cap.expiresAt <= now { return AlreadyExpired; }
      if |grants| >= max { return AtCapacity; }
      if !auditOk { return AuditFailed; }
      grants := grants[cap.id := cap];
      return Issued;
    }

    method Get(id: string, now: int) returns (cap: Option<Capability>)
      modifies this
      ensures grants == LiveGrants(old(grants), now)
      ensures cap == if id in LiveGrants(old(grants), now) then Some(old(grants)[id]) else None
    {
      Prune(now);
      if id in grants { return Some(grants[id]); }
      return None;
    }
  }

  /** Construction with its validation. */
  method CreateStore(max: int) returns (out: Outcome, store: CapabilityStore?)
    ensures out == if max <= 0 then Err(ValidationError) else Ok
    ensures out.Ok? <==> store != null
    ensures out.Ok? ==> fresh(store) && store.max == max && store.grants == map[]
  {
    if max <= 0 { return Err(ValidationError), null; }
    store := new CapabilityStore(max);
    out := Ok;
  }

  lemma FewerLive(grants: Grants, now: int)
    ensures |LiveGrants(grants, now)| <= |grants|
  {
    var live := LiveGrants(grants, now);
    SubsetIsSmaller(live.Keys, grants.Keys);
  }

  lemma {:induction false} SubsetIsSmaller(a: set<string>, b: set<string>)
    requires a <= b
    ensures |a| <= |b|
  {
    if a != {} {
      var x :| x in a;
      SubsetIsSmaller(a - {x}, b - {x});
    }
  }

  datatype StoreCall = IssueCall(cap: Capability, now: int, auditOk: bool) | GetCall(id: string, now: int)

  function StoreForgetting(grants: Grants, max: nat, c: StoreCall): Grants {
    var live := LiveGrants(grants, c.now);
    if c.IssueCall? && Judge(live, max, c.cap, c.now, c.auditOk).Issued? then live[c.cap.id := c.cap] else live
  }

  /** Every grant ever issued, the latest under each identifier; full when that many are unexpired. */
  function StoreRemembering(issued: Grants, max: nat, c: StoreCall): Grants {
    if c.IssueCall? && Judge(LiveGrants(issued, c.now), max, c.cap, c.now, c.auditOk).Issued?
      then issued[c.cap.id := c.cap] else issued
  }

  function StoreAfter(max: nat, calls: seq<StoreCall>): Grants {
    if calls == [] then map[] else StoreForgetting(StoreAfter(max, calls[..|calls| - 1]), max, calls[|calls| - 1])
  }

  function IssuedAfter(max: nat, calls: seq<StoreCall>): Grants {
    if calls == [] then map[] else StoreRemembering(IssuedAfter(max, calls[..|calls| - 1]), max, calls[|calls| - 1])
  }

  predicate StoreOrdered(calls: seq<StoreCall>) {
    forall i, j | 0 <= i < j < |calls| :: calls[i].now <= calls[j].now
  }

  lemma LiveLater(grants: Grants, earlier: int, later: int)
    requires earlier <= later
    ensures LiveGrants(LiveGrants(grants, earlier), later) == LiveGrants(grants, later)
  {
  }

  /** At every later moment the pruned store holds exactly the unexpired ones of all grants ever
      issued, so look-ups and the capacity bound are those of a store that never forgets. */
  lemma {:induction false} StoreIsTheUnexpiredGrants(max: nat, calls: seq<StoreCall>, now: int)
    requires StoreOrdered(calls) && (calls != [] ==> calls[|calls| - 1].now <= now)
    ensures LiveGrants(StoreAfter(max, calls), now) == LiveGrants(IssuedAfter(max, calls), now)
  {
    if calls != [] {
      var c, before := calls[|calls| - 1], calls[..|calls| - 1];
      StoreIsTheUnexpiredGrants(max, before, c.now);
      LiveLater(StoreAfter(max, before), c.now, now);
      LiveLater(IssuedAfter(max, before), c.now, now);
    }
  }
}
