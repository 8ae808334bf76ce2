/** Issuance admission by token bucket: one credit per configured identity. */
module Limiter {
  import opened Model

  datatype Credit = Credit(tokens: real, updatedAt: real)

  datatype Rate = Rate(perSecond: real, burst: real)

  datatype Verdict = Admitted | Delayed(retryAfter: int) | UnknownIdentity

  datatype Attempt = Attempt(identity: string, reading: real)

  predicate RateOk(r: Rate) {
    r.perSecond > 0.0 && r.burst >= 1.0
  }

  /** The configured rate, per second. */
  function RateOf(perMinute: int, burst: int): Rate {
    Rate(perMinute as real / 60.0, burst as real)
  }

  /** What every identity starts with. */
  function FullCredit(burst: int, reading: real): Credit {
    Credit(burst as real, reading)
  }

  predicate CreditOk(r: Rate, c: Credit) {
    0.0 <= c.tokens <= r.burst
  }

  function MinReal(a: real, b: real): real { if a <= b then a else b }

  function MaxReal(a: real, b: real): real { if a >= b then a else b }

  function Ceil(x: real): int { -((-x).Floor) }

  /** Tokens earned over a stretch of time. */
  function Earned(r: Rate, time: real): real { time * r.perSecond }

  /** Credit earned since the latest reading seen; a clock that went back earns nothing. */
  function Refill(r: Rate, c: Credit, reading: real): Credit {
    Credit(MinReal(r.burst, c.tokens + Earned(r, MaxReal(0.0, reading - c.updatedAt))), MaxReal(reading, c.updatedAt))
  }

  function Spend(c: Credit): Credit {
    if c.tokens < 1.0 then c else c.(tokens := c.tokens - 1.0)
  }

  function Decide(r: Rate, c: Credit): Verdict
    requires RateOk(r)
  {
    if c.tokens < 1.0 then
      var wait := Ceil((1.0 - c.tokens) / r.perSecond);
      Delayed(if wait < 1 then 1 else wait)
    else Admitted
  }

  class IssuanceRateLimiter {
    const rate: Rate
    var credit: map<string, Credit>

    ghost predicate Valid()
      reads this
    {
      RateOk(rate) && forall id <- credit :: CreditOk(rate, credit[id])
    }

    constructor (identities: set<string>, perMinute: int, burst: int, reading: real)
      requires perMinute > 0 && burst > 0
      ensures Valid() && rate == RateOf(perMinute, burst)
      ensures credit == map id | id in identities :: FullCredit(burst, reading)
    {
      rate := RateOf(perMinute, burst);
      credit := map id | id in identities :: FullCredit(burst, reading);
    }

    /** Spends one token or reports the delay until there is one. */
    method Admit(identity: string, reading: real) returns (v: Verdict)
      requires Valid()
      modifies this
      ensures Valid()
      ensures identity !in old(credit) ==> v.UnknownIdentity? && credit == old(credit)
      ensures identity in old(credit) ==>
                var filled := Refill(rate, old(credit)[identity], reading);
                v == Decide(rate, filled) && credit == old(credit)[identity := Spend(filled)]
    {
      if identity !in credit { return UnknownIdentity; }
      var c := credit[identity];
      RefillOk(rate, c, reading);
      c := c.(tokens := MinReal(rate.burst, c.tokens + Earned(rate, MaxReal(0.0, reading - c.updatedAt))));
      c := c.(updatedAt := MaxReal(reading, c.updatedAt));
      credit := credit[identity := c];
      if c.tokens < 1.0 { return Decide(rate, c); }
      credit := credit[identity := c.(tokens := c.tokens - 1.0)];
      return Admitted;
    }
  }

  /** Construction with its validation. */
  method CreateLimiter(identities: set<string>, perMinute: int, burst: int, reading: real)
    returns (out: Outcome, limiter: IssuanceRateLimiter?)
    ensures out == if perMinute <= 0 || burst <= 0 then Err(ValidationError) else Ok
    ensures out.Ok? <==> limiter != null
    ensures out.Ok? ==>
              limiter.Valid() && fresh(limiter)
              && limiter.rate == RateOf(perMinute, burst)
              && limiter.credit == map id | id in identities :: FullCredit(burst, reading)
  {
    if perMinute <= 0 || burst <= 0 { return Err(ValidationError), null; }
    limiter := new IssuanceRateLimiter(identities, perMinute, burst, reading);
    out := Ok;
  }

  // ---------------------------------------------------------------- one identity over a whole history

  /** Credit after the attempts at these readings. */
  function Lane(r: Rate, c: Credit, readings: seq<real>): Credit {
    if readings == [] then c
    else Spend(Refill(r, Lane(r, c, readings[..|readings| - 1]), readings[|readings| - 1]))
  }

  /** Credit at hand when attempt `k` is judged. */
  function AtHand(r: Rate, c: Credit, readings: seq<real>, k: nat): Credit
    requires k < |readings|
  {
    Refill(r, Lane(r, c, readings[..k]), readings[k])
  }

  predicate Granted(r: Rate, c: Credit, readings: seq<real>, k: nat)
    requires k < |readings|
  {
    AtHand(r, c, readings, k).tokens >= 1.0
  }

  /** Admissions among attempts `i` up to but not including `j`. */
  function Admissions(r: Rate, c: Credit, readings: seq<real>, i: nat, j: nat): nat
    requires i <= j <= |readings|
    decreases j
  {
    if i == j then 0 else Admissions(r, c, readings, i, j - 1) + if Granted(r, c, readings, j - 1) then 1 else 0
  }

  /** The latest of the start and the first readings. */
  function Latest(start: real, readings: seq<real>): real {
    if readings == [] then start else MaxReal(readings[|readings| - 1], Latest(start, readings[..|readings| - 1]))
  }

  lemma {:induction false} LaneClock(r: Rate, c: Credit, readings: seq<real>)
    ensures Lane(r, c, readings).updatedAt == Latest(c.updatedAt, readings)
  {
    if readings != [] { LaneClock(r, c, readings[..|readings| - 1]); }
  }

  lemma {:induction false} LaneCreditOk(r: Rate, c: Credit, readings: seq<real>)
    requires RateOk(r) && CreditOk(r, c)
    ensures CreditOk(r, Lane(r, c, readings))
  {
    if readings != [] {
      LaneCreditOk(r, c, readings[..|readings| - 1]);
      RefillOk(r, Lane(r, c, readings[..|readings| - 1]), readings[|readings| - 1]);
    }
  }

  lemma RefillOk(r: Rate, c: Credit, reading: real)
    requires RateOk(r) && CreditOk(r, c)
    ensures CreditOk(r, Refill(r, c, reading)) && c.updatedAt <= Refill(r, c, reading).updatedAt
  {
    EarnedGrows(r, 0.0, MaxReal(0.0, reading - c.updatedAt));
    hide Earned;
  }

  lemma EarnedGrows(r: Rate, less: real, more: real)
    requires RateOk(r)
    ensures Earned(r, 0.0) == 0.0
    ensures less <= more <==> Earned(r, less) <= Earned(r, more)
  {
    if less <= more {
      assert (more - less) * r.perSecond >= 0.0;
    } else {
      assert (less - more) * r.perSecond > 0.0;
    }
  }

  lemma EarnedAdds(r: Rate, a: real, b: real)
    ensures Earned(r, a) + Earned(r, b) == Earned(r, a + b)
  {
  }

  /** What time earns, as the growth of the latest reading. */
  lemma RefillEarns(r: Rate, c: Credit, reading: real)
    ensures Refill(r, c, reading).tokens == MinReal(r.burst,
                                                    c.tokens + Earned(r, Refill(r, c, reading).updatedAt - c.updatedAt))
  {
  }

  /** The clock of attempt `k`: the latest reading up to and including its own. */
  function ClockAt(start: real, readings: seq<real>, k: nat): real
    requires k < |readings|
  {
    Latest(start, readings[..k + 1])
  }

  /** Room left at attempt `k` when counting from attempt `i`. */
  function Room(r: Rate, c: Credit, readings: seq<real>, i: nat, k: nat): real
    requires i <= k < |readings|
  {
    r.burst + Earned(r, ClockAt(c.updatedAt, readings, k) - ClockAt(c.updatedAt, readings, i)) - Admissions(r, c,
      readings, i, k) as real
  }

  /** The step from one attempt to the next, in terms of the clock. */
  lemma AtHandNext(r: Rate, c: Credit, readings: seq<real>, k: nat)
    requires 0 < k < |readings|
    ensures AtHand(r, c, readings, k).tokens
         == MinReal(r.burst, AtHand(r, c, readings, k - 1).tokens - (if Granted(r, c, readings, k - 1) then 1.0
           else 0.0)
                             + Earned(r, ClockAt(c.updatedAt, readings, k) - ClockAt(c.updatedAt, readings, k - 1)))
  {
    hide Earned;
    var before := Lane(r, c, readings[..k]);
    assert readings[..k][..k - 1] == readings[..k - 1] && readings[..k][k - 1] == readings[k - 1];
    assert before == Spend(AtHand(r, c, readings, k - 1));
    LaneClock(r, c, readings[..k]);
    assert readings[..k + 1][..k] == readings[..k] && readings[..k + 1][k] == readings[k];
    RefillEarns(r, before, readings[k]);
    assert readings[..k - 1 + 1] == readings[..k];
  }

  /** Credit at hand never exceeds the room of any window that ends here. */
  lemma {:induction false} CreditWithinRoom(r: Rate, c: Credit, readings: seq<real>, i: nat, k: nat)
    requires RateOk(r) && CreditOk(r, c) && i <= k < |readings|
    ensures AtHand(r, c, readings, k).tokens <= Room(r, c, readings, i, k)
    decreases k
  {
    assert AtHand(r, c, readings, k).tokens <= r.burst;
    EarnedGrows(r, 0.0, 0.0);
    hide Earned;
    if i < k {
      CreditWithinRoom(r, c, readings, i, k - 1);
      AtHandNext(r, c, readings, k);
      hide AtHand, ClockAt, Granted;
      EarnedAdds(r, ClockAt(c.updatedAt, readings, k - 1) - ClockAt(c.updatedAt, readings, i),
                 ClockAt(c.updatedAt, readings, k) - ClockAt(c.updatedAt, readings, k - 1));
    }
  }

  /** Full at the start, credit at hand is exactly the room of some window. */
  lemma {:induction false} CreditIsSomeRoom(r: Rate, c: Credit, readings: seq<real>, k: nat) returns (i: nat)
    requires RateOk(r) && c.tokens == r.burst && k < |readings|
    ensures i <= k && AtHand(r, c, readings, k).tokens == Room(r, c, readings, i, k)
    decreases k
  {
    EarnedGrows(r, 0.0, 0.0);
    if k == 0 {
      assert readings[..0] == [];
      EarnedGrows(r, 0.0, MaxReal(0.0, readings[0] - c.updatedAt));
      hide Earned;
      i := 0;
    } else {
      hide Earned;
      AtHandNext(r, c, readings, k);
      if AtHand(r, c, readings, k).tokens == r.burst {
        i := k;
      } else {
        i := CreditIsSomeRoom(r, c, readings, k - 1);
        hide AtHand, ClockAt, Granted;
        EarnedAdds(r, ClockAt(c.updatedAt, readings, k - 1) - ClockAt(c.updatedAt, readings, i),
                   ClockAt(c.updatedAt, readings, k) - ClockAt(c.updatedAt, readings, k - 1));
      }
    }
  }

  /** An attempt is refused exactly when, counted from some earlier attempt on, one more admission
      would exceed the burst plus what the clock earned since. */
  lemma RefusedExactlyWhenOverBudget(r: Rate, c: Credit, readings: seq<real>, k: nat)
    requires RateOk(r) && c.tokens == r.burst && k < |readings|
    ensures !Granted(r, c, readings, k) <==> exists i :: 0 <= i <= k && Room(r, c, readings, i, k) < 1.0
  {
    if Granted(r, c, readings, k) {
      forall i | 0 <= i <= k ensures Room(r, c, readings, i, k) >= 1.0 { CreditWithinRoom(r, c, readings, i, k); }
    } else {
      var i := CreditIsSomeRoom(r, c, readings, k);
    }
  }

  /** Between any two attempts no more are admitted than the burst plus the rate times the growth of
      the latest reading, whatever the clock does. */
  lemma AdmissionsAreBounded(r: Rate, c: Credit, readings: seq<real>, i: nat, j: nat)
    requires RateOk(r) && CreditOk(r, c) && i < j <= |readings|
    ensures Admissions(r, c, readings, i, j) as real
         <= r.burst + Earned(r, ClockAt(c.updatedAt, readings, j - 1) - ClockAt(c.updatedAt, readings, i))
  {
    hide Earned, ClockAt;
    CreditWithinRoom(r, c, readings, i, j - 1);
    LaneCreditOk(r, c, readings[..j - 1]);
    RefillOk(r, Lane(r, c, readings[..j - 1]), readings[j - 1]);
  }

  lemma {:induction false} AdmissionsAtMost(r: Rate, c: Credit, readings: seq<real>, i: nat, j: nat)
    requires i <= j <= |readings|
    ensures Admissions(r, c, readings, i, j) <= j - i
    decreases j
  {
    if i < j { AdmissionsAtMost(r, c, readings, i, j - 1); }
  }

  lemma {:induction false} ClockClimbs(start: real, readings: seq<real>, i: nat, k: nat)
    requires i <= k < |readings|
    ensures ClockAt(start, readings, i) <= ClockAt(start, readings, k)
    decreases k
  {
    if i < k {
      ClockClimbs(start, readings, i, k - 1);
      assert readings[..k + 1][..k] == readings[..k - 1 + 1];
    }
  }

  /** An identity that starts full is admitted as many times as the burst, whatever the clock does. */
  lemma FirstBurstIsAdmitted(perMinute: int, burst: int, start: real, readings: seq<real>, k: nat)
    requires perMinute > 0 && k < burst && k < |readings|
    ensures Granted(RateOf(perMinute, burst), FullCredit(burst, start), readings, k)
  {
    var r, c := RateOf(perMinute, burst), FullCredit(burst, start);
    RefusedExactlyWhenOverBudget(r, c, readings, k);
    forall i | 0 <= i <= k ensures Room(r, c, readings, i, k) >= 1.0 {
      AdmissionsAtMost(r, c, readings, i, k);
      ClockClimbs(start, readings, i, k);
      EarnedGrows(r, 0.0, ClockAt(start, readings, k) - ClockAt(start, readings, i));
      hide Earned, ClockAt;
    }
  }

  /** Within any minute no more are admitted than the burst and the configured number per minute, and a minute earns
      just that number. */
  lemma MinuteIsBounded(perMinute: int, burst: int, c: Credit, readings: seq<real>, i: nat, j: nat)
    requires perMinute > 0 && burst > 0 && CreditOk(RateOf(perMinute, burst), c) && i < j <= |readings|
    requires ClockAt(c.updatedAt, readings, j - 1) - ClockAt(c.updatedAt, readings, i) <= 60.0
    ensures Admissions(RateOf(perMinute, burst), c, readings, i, j) <= burst + perMinute
    ensures Earned(RateOf(perMinute, burst), 60.0) == perMinute as real
  {
    var r := RateOf(perMinute, burst);
    AdmissionsAreBounded(r, c, readings, i, j);
    EarnedGrows(r, ClockAt(c.updatedAt, readings, j - 1) - ClockAt(c.updatedAt, readings, i), 60.0);
    assert Earned(r, 60.0) == perMinute as real;
  }

  // ---------------------------------------------------------------- identities do not interfere

  function AttemptOne(r: Rate, credit: map<string, Credit>, a: Attempt): map<string, Credit> {
    if a.identity in credit then credit[a.identity := Spend(Refill(r, credit[a.identity], a.reading))] else credit
  }

  function Replay(r: Rate, credit: map<string, Credit>, attempts: seq<Attempt>): map<string, Credit> {
    if attempts == [] then credit
    else AttemptOne(r, Replay(r, credit, attempts[..|attempts| - 1]), attempts[|attempts| - 1])
  }

  function ReadingsOf(attempts: seq<Attempt>, identity: string): seq<real> {
    if attempts == [] then []
    else
      var last := attempts[|attempts| - 1];
      ReadingsOf(attempts[..|attempts| - 1], identity) + if last.identity == identity then [last.reading] else []
  }

  /** One identity's credit depends on its own attempts alone, and strangers are never entered. */
  lemma {:induction false} IdentitiesAreIsolated(r: Rate, credit: map<string, Credit>, attempts: seq<Attempt>,
                                                 identity: string)
    ensures Replay(r, credit, attempts).Keys == credit.Keys
    ensures identity in credit ==> Replay(r, credit, attempts)[identity] == Lane(r, credit[identity],
            ReadingsOf(attempts, identity))
  {
    if attempts != [] {
      var n := |attempts| - 1;
      IdentitiesAreIsolated(r, credit, attempts[..n], identity);
      var own := ReadingsOf(attempts[..n], identity);
      assert (own + [attempts[n].reading])[..|own|] == own && own + [] == own;
    }
  }

  // ---------------------------------------------------------------- the reported delay

  /** The least whole delay is the ceiling of the time the missing credit takes. */
  lemma CeilIsLeast(x: real, n: int)
    ensures n as real >= x <==> n >= Ceil(x)
  {
  }

  lemma WaitCovers(r: Rate, tokens: real, delay: real)
    requires RateOk(r)
    ensures tokens + Earned(r, delay) >= 1.0 <==> delay >= (1.0 - tokens) / r.perSecond
  {
    var need := (1.0 - tokens) / r.perSecond;
    assert need * r.perSecond == 1.0 - tokens;
    if delay >= need {
      assert (delay - need) * r.perSecond >= 0.0;
    } else {
      assert (need - delay) * r.perSecond > 0.0;
    }
  }

  /** Whether an attempt `delay` after a refused one finds a token. */
  predicate AdmittedLater(r: Rate, refused: Credit, reading: real, delay: int) {
    Refill(r, Spend(refused), reading + delay as real).tokens >= 1.0
  }

  /** How far the refused reading lies behind the latest one seen. */
  function Lag(c: Credit, reading: real): real {
    MaxReal(0.0, c.updatedAt - reading)
  }

  /** After a refusal, an attempt `delay` later is admitted exactly when the delay covers the missing
      credit and the time by which the clock had gone back. */
  lemma AdmittedAfter(r: Rate, c: Credit, reading: real, delay: int)
    requires RateOk(r) && CreditOk(r, c) && delay > 0 && Refill(r, c, reading).tokens < 1.0
    ensures var refused := Refill(r, c, reading);
            AdmittedLater(r, refused, reading, delay)
            <==> delay as real >= (1.0 - refused.tokens) / r.perSecond + Lag(c, reading)
  {
    var refused := Refill(r, c, reading);
    var passed := MaxReal(0.0, delay as real - Lag(c, reading));
    assert reading + delay as real - refused.updatedAt == delay as real - Lag(c, reading);
    WaitCovers(r, refused.tokens, passed);
    assert 1.0 - refused.tokens > 0.0;
    assert (1.0 - refused.tokens) / r.perSecond > 0.0;
  }

  /** How long the credit on record takes to grow to one token. */
  function Missing(r: Rate, c: Credit): real
    requires RateOk(r)
  {
    (1.0 - c.tokens) / r.perSecond
  }

  /** The reported delay is never longer than needed. It is enough exactly when the refused reading was not
      behind the time on record, or behind it by no more than rounding up to whole seconds adds. */
  lemma RetryAfterIsLeast(r: Rate, c: Credit, reading: real)
    requires RateOk(r) && CreditOk(r, c) && Refill(r, c, reading).tokens < 1.0
    ensures var refused := Refill(r, c, reading);
            var wait := Decide(r, refused).retryAfter;
            && wait >= 1
            && (forall d | 0 < d < wait :: !AdmittedLater(r, refused, reading, d))
            && (AdmittedLater(r, refused, reading, wait)
                <==> reading >= c.updatedAt || c.updatedAt - reading <= Ceil(Missing(r, c)) as real - Missing(r, c))
  {
    if reading < c.updatedAt {
      EarnedGrows(r, 0.0, 0.0);
      assert Refill(r, c, reading).tokens == c.tokens;
    }
    hide Refill, Earned;
    var refused := Refill(r, c, reading);
    var need := (1.0 - refused.tokens) / r.perSecond;
    assert need > 0.0 by { assert 1.0 - refused.tokens > 0.0; }
    var wait := Decide(r, refused).retryAfter;
    CeilIsLeast(need, 0);
    assert wait == Ceil(need);
    AdmittedAfter(r, c, reading, wait);
    CeilIsLeast(need, wait);
    forall d | 0 < d < wait ensures !AdmittedLater(r, refused, reading, d) {
      AdmittedAfter(r, c, reading, d);
      CeilIsLeast(need, d);
    }
  }

  /** A clock that went back ten seconds: the reported second is not enough. */
  lemma RetryAfterTooShort()
    ensures var r, c, reading := Rate(1.0, 1.0), Credit(0.0, 100.0), 90.0;
            && CreditOk(r, c) && RateOk(r)
            && Decide(r, Refill(r, c, reading)) == Delayed(1)
            && Decide(r, Refill(r, Spend(Refill(r, c, reading)), reading + 1.0)) == Delayed(1)
  {
    var r, c := Rate(1.0, 1.0), Credit(0.0, 100.0);
    EarnedGrows(r, 0.0, 0.0);
    hide Earned;
    assert Refill(r, c, 90.0) == c;
    assert Refill(r, c, 91.0) == c;
    CeilIsLeast(1.0, 1);
    CeilIsLeast(1.0, 0);
    assert Decide(r, c) == Delayed(1);
    hide Decide, Refill;
  }
}
