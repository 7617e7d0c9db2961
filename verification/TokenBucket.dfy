/** The token-bucket rate limiter, with the clock as a parameter of every call. */
module TokenBucket {

  // A refill happens only after this many seconds.
  const REFILL_PERIOD := 0.1

  datatype Config = Config(rate: real, capacity: nat)

  datatype Bucket = Bucket(tokens: real, lastRefill: real)

  // One call at a time, asking for an amount; looking at the available tokens asks for nothing.
  datatype Attempt = Attempt(now: real, amount: nat)

  function Min(a: real, b: real): real { if a <= b then a else b }

  // A clock that went back counts as no time elapsed.
  function Elapsed(b: Bucket, now: real): real { if now > b.lastRefill then now - b.lastRefill else 0.0 }

  function Refill(c: Config, b: Bucket, now: real): Bucket {
    if Elapsed(b, now) >= REFILL_PERIOD
    then Bucket(Min(b.tokens + Elapsed(b, now) * c.rate, c.capacity as real), now)
    else b
  }

  predicate Grants(c: Config, b: Bucket, a: Attempt) { Refill(c, b, a.now).tokens >= a.amount as real }

  function Try(c: Config, b: Bucket, a: Attempt): Bucket {
    var refilled := Refill(c, b, a.now);
    if Grants(c, b, a) then refilled.(tokens := refilled.tokens - a.amount as real) else refilled
  }

  ghost predicate Valid(c: Config, b: Bucket) { c.rate >= 0.0 && 0.0 <= b.tokens <= c.capacity as real }

  class RateLimiter {
    const config: Config
    var bucket: Bucket

    constructor (c: Config, now: real)
      ensures config == c && bucket == Bucket(c.capacity as real, now)
      ensures c.rate >= 0.0 ==> Valid(config, bucket)
    {
      config, bucket := c, Bucket(c.capacity as real, now);
    }

    method RefillTokens(now: real)
      modifies this
      ensures bucket == Refill(config, old(bucket), now)
    {
      var elapsed := Elapsed(bucket, now);
      if elapsed >= REFILL_PERIOD {
        var tokensToAdd := elapsed * config.rate;
        bucket := Bucket(Min(bucket.tokens + tokensToAdd, config.capacity as real), now);
      }
    }

    method TryAcquire(amount: nat, now: real) returns (granted: bool)
      modifies this
      ensures old(Valid(config, bucket)) ==> Valid(config, bucket)
      ensures granted <==>
                if now - old(bucket).lastRefill >= 0.1
                then && amount <= config.capacity
                     && amount as real <= old(bucket).tokens + config.rate * (now - old(bucket).lastRefill)
                else amount as real <= old(bucket).tokens
      ensures granted == Grants(config, old(bucket), Attempt(now, amount))
      ensures bucket == Try(config, old(bucket), Attempt(now, amount))
    {
      RefillTokens(now);
      if bucket.tokens >= amount as real {
        bucket := bucket.(tokens := bucket.tokens - amount as real);
        granted := true;
      } else {
        granted := false;
      }
      KeptValid(config, old(bucket), Attempt(now, amount));
      GrantedIff(config, old(bucket), now, amount);
    }

    method GetAvailableTokens(now: real) returns (tokens: real)
      modifies this
      ensures old(Valid(config, bucket)) ==> Valid(config, bucket) && 0.0 <= tokens <= config.capacity as real
      ensures tokens == bucket.tokens && bucket == Try(config, old(bucket), Attempt(now, 0))
    {
      RefillTokens(now);
      KeptValid(config, old(bucket), Attempt(now, 0));
      tokens := bucket.tokens;
    }
  }

  lemma KeptValid(c: Config, b: Bucket, a: Attempt)
    ensures Valid(c, b) ==> Valid(c, Try(c, b, a))
  {
    if c.rate >= 0.0 {
      assert Elapsed(b, a.now) * c.rate >= 0.0;
    }
  }

  // ---------- Whole runs ----------

  function After(c: Config, b: Bucket, run: seq<Attempt>): Bucket
    decreases run
  {
    if run == [] then b else After(c, Try(c, b, run[0]), run[1..])
  }

  function Granted(c: Config, b: Bucket, run: seq<Attempt>): nat
    decreases run
  {
    if run == [] then 0
    else (if Grants(c, b, run[0]) then run[0].amount else 0) + Granted(c, Try(c, b, run[0]), run[1..])
  }

  // What a full bucket turned away.
  function Overflow(c: Config, b: Bucket, now: real): real {
    if Elapsed(b, now) >= REFILL_PERIOD
    then b.tokens + Elapsed(b, now) * c.rate - Refill(c, b, now).tokens
    else 0.0
  }

  function Spilled(c: Config, b: Bucket, run: seq<Attempt>): real
    decreases run
  {
    if run == [] then 0.0 else Overflow(c, b, run[0].now) + Spilled(c, Try(c, b, run[0]), run[1..])
  }

  // The clock of a run does not go back, nor behind the last refill.
  ghost predicate Forward(b: Bucket, run: seq<Attempt>) {
    && (run != [] ==> b.lastRefill <= run[0].now)
    && forall i, j :: 0 <= i < j < |run| ==> run[i].now <= run[j].now
  }

  // The tokens held over what the clock has paid in so far.
  function Level(c: Config, b: Bucket): real { b.tokens - c.rate * b.lastRefill }

  lemma StepBalances(c: Config, b: Bucket, a: Attempt)
    ensures Level(c, Try(c, b, a)) ==
            Level(c, b) - Overflow(c, b, a.now) - if Grants(c, b, a) then a.amount as real else 0.0
  {
    assert c.rate * (a.now - b.lastRefill) == c.rate * a.now - c.rate * b.lastRefill;
  }

  // Every token is accounted for: what the bucket holds beyond the clock's payments falls by exactly
  // what was granted and what a full bucket turned away.
  lemma {:induction false} Conservation(c: Config, b: Bucket, run: seq<Attempt>)
    ensures
      && (Valid(c, b) ==> Valid(c, After(c, b, run)))
      && Spilled(c, b, run) >= 0.0
      && Level(c, After(c, b, run)) == Level(c, b) - Granted(c, b, run) as real - Spilled(c, b, run)
    decreases run
  {
    if run != [] {
      KeptValid(c, b, run[0]);
      StepBalances(c, b, run[0]);
      Conservation(c, Try(c, b, run[0]), run[1..]);
    }
  }

  lemma {:induction false} RefillsInTime(c: Config, b: Bucket, run: seq<Attempt>)
    requires Forward(b, run)
    ensures run != [] ==> b.lastRefill <= After(c, b, run).lastRefill <= run[|run| - 1].now
    decreases run
  {
    if run != [] {
      RefillsInTime(c, Try(c, b, run[0]), run[1..]);
    }
  }

  lemma Earns(rate: real, from: real, to: real, most: real)
    requires rate >= 0.0 && to - from <= most
    ensures rate * to - rate * from <= rate * most
  {
    var gap := most - (to - from);
    assert most == gap + to - from;
    assert rate * most == rate * gap + rate * to - rate * from;
    assert rate * gap >= 0.0;
  }

  lemma GrantedAtMost(c: Config, b: Bucket, b': Bucket, granted: real, spilled: real, held: real, most: real)
    requires b.tokens <= held && c.rate >= 0.0 && b'.tokens >= 0.0 && spilled >= 0.0 &&
               b'.lastRefill - b.lastRefill <= most
    requires Level(c, b') == Level(c, b) - granted - spilled
    ensures granted <= Allowance(c, held, most)
  {
    Earns(c.rate, b.lastRefill, b'.lastRefill, most);
  }

  // An amount of tokens and what some seconds earn on top.
  function Allowance(c: Config, tokens: real, seconds: real): real { tokens + c.rate * seconds }

  lemma BoundFromState(c: Config, b: Bucket, run: seq<Attempt>, held: real, most: real)
    requires Valid(c, b) && b.tokens <= held && After(c, b, run).lastRefill - b.lastRefill <= most
    ensures Granted(c, b, run) as real <= Allowance(c, held, most)
  {
    Conservation(c, b, run);
    GrantedAtMost(c, b, After(c, b, run), Granted(c, b, run) as real, Spilled(c, b, run), held, most);
  }

  // From creation on no more is granted than the capacity and what the elapsed time earns.
  lemma BoundFromCreation(c: Config, created: real, run: seq<Attempt>)
    requires c.rate >= 0.0 && run != [] && Forward(Bucket(c.capacity as real, created), run)
    ensures Granted(c, Bucket(c.capacity as real, created), run) as real <=
            Allowance(c, c.capacity as real, run[|run| - 1].now - created)
  {
    var b := Bucket(c.capacity as real, created);
    RefillsInTime(c, b, run);
    BoundFromState(c, b, run, c.capacity as real, run[|run| - 1].now - created);
  }

  lemma RefillOnce(c: Config, b: Bucket, now: real)
    requires Valid(c, b)
    ensures var refilled := Refill(c, b, now);
      Valid(c, refilled) && Refill(c, refilled, now) == refilled && Elapsed(refilled, now) < REFILL_PERIOD
  {
    assert Elapsed(b, now) * c.rate >= 0.0;
  }

  lemma RefillFirst(c: Config, b: Bucket, run: seq<Attempt>)
    requires Valid(c, b) && run != []
    ensures Granted(c, b, run) == Granted(c, Refill(c, b, run[0].now), run)
  {
    RefillOnce(c, b, run[0].now);
  }

  // From any attempt on, whatever happened before, the refill period adds at most its own worth.
  lemma BoundFromAttempt(c: Config, b: Bucket, run: seq<Attempt>)
    requires Valid(c, b) && run != [] && Forward(b, run)
    ensures Granted(c, b, run) as real <=
            Allowance(c, c.capacity as real, run[|run| - 1].now - run[0].now + REFILL_PERIOD)
  {
    var refilled := Refill(c, b, run[0].now);
    RefillOnce(c, b, run[0].now);
    RefillFirst(c, b, run);
    RefillsInTime(c, refilled, run);
    BoundFromState(c, refilled, run, c.capacity as real, run[|run| - 1].now - run[0].now + REFILL_PERIOD);
  }

  // Without that period the bound holds of a run exactly when what the bucket holds at its start, with what
  // the gap since the last refill will still pay in, is beyond the capacity by no more than the run leaves
  // unused: tokens held and turned away, and the gap at its end.
  lemma BoundWithoutPeriodIff(c: Config, b: Bucket, run: seq<Attempt>)
    requires Valid(c, b) && run != [] && Forward(b, run)
    ensures
      var start, end := run[0].now, run[|run| - 1].now;
      var first := Refill(c, b, start);
      var last := After(c, first, run);
      Granted(c, b, run) as real <= Allowance(c, c.capacity as real, end - start) <==>
      Allowance(c, first.tokens, start - first.lastRefill) <=
        c.capacity as real + Spilled(c, first, run) + Allowance(c, last.tokens, end - last.lastRefill)
  {
    var start, end := run[0].now, run[|run| - 1].now;
    var first := Refill(c, b, start);
    RefillFirst(c, b, run);
    Conservation(c, first, run);
    var last := After(c, first, run);
    Spread(c.rate, start, first.lastRefill);
    Spread(c.rate, end, last.lastRefill);
    Spread(c.rate, end, start);
  }

  lemma Spread(rate: real, to: real, from: real)
    ensures rate * (to - from) == rate * to - rate * from
  {
  }

  // In particular when that is within the capacity.
  lemma BoundWithinCapacity(c: Config, b: Bucket, run: seq<Attempt>)
    requires Valid(c, b) && run != [] && Forward(b, run)
    requires
      var first := Refill(c, b, run[0].now);
      Allowance(c, first.tokens, run[0].now - first.lastRefill) <= c.capacity as real
    ensures Granted(c, b, run) as real <= Allowance(c, c.capacity as real, run[|run| - 1].now - run[0].now)
  {
    var first := Refill(c, b, run[0].now);
    RefillOnce(c, b, run[0].now);
    RefillsInTime(c, first, run);
    Conservation(c, first, run);
    BoundWithoutPeriodIff(c, b, run);
    var last := After(c, first, run);
    AllowanceIsPositive(c, last.tokens, run[|run| - 1].now - last.lastRefill);
  }

  lemma AllowanceIsPositive(c: Config, tokens: real, seconds: real)
    requires c.rate >= 0.0 && tokens >= 0.0 && seconds >= 0.0
    ensures Allowance(c, tokens, seconds) >= 0.0
  {
  }

  // And when the last refill is at the first attempt, be it by that attempt or before.
  lemma BoundAfterRefill(c: Config, b: Bucket, run: seq<Attempt>)
    requires Valid(c, b) && run != [] && Forward(b, run) && Refill(c, b, run[0].now).lastRefill == run[0].now
    ensures Granted(c, b, run) as real <= Allowance(c, c.capacity as real, run[|run| - 1].now - run[0].now)
  {
    RefillOnce(c, b, run[0].now);
    assert c.rate * 0.0 == 0.0;
    BoundWithinCapacity(c, b, run);
  }

  // The bound holds for every part of a run: it starts in the bucket the earlier attempts left.
  lemma {:induction false} BoundWithinRun(c: Config, b: Bucket, before: seq<Attempt>, run: seq<Attempt>)
    requires Valid(c, b) && run != [] && Forward(b, before + run)
    ensures Granted(c, After(c, b, before), run) as real <=
            Allowance(c, c.capacity as real, run[|run| - 1].now - run[0].now + REFILL_PERIOD)
  {
    Conservation(c, b, before);
    var all := before + run;
    assert forall i :: 0 <= i < |before| ==> all[i] == before[i];
    assert forall i :: 0 <= i < |run| ==> all[|before| + i] == run[i];
    RefillsInTime(c, b, before);
    BoundFromAttempt(c, After(c, b, before), run);
  }

  // After a pause of a tenth of a second an amount is granted exactly when it is within the capacity and
  // within what was held and what the pause earned; before that exactly when it is within what is held.
  lemma GrantedIff(c: Config, b: Bucket, now: real, amount: nat)
    ensures Grants(c, b, Attempt(now, amount)) <==>
            if now - b.lastRefill >= 0.1
            then amount <= c.capacity && amount as real <= b.tokens + c.rate * (now - b.lastRefill)
            else amount as real <= b.tokens
  {
  }

  // In particular what the pause earned is granted, unless the bucket can never hold it.
  lemma EarnedIsGranted(c: Config, b: Bucket, a: Attempt)
    requires Valid(c, b) && Elapsed(b, a.now) >= REFILL_PERIOD && c.rate * Elapsed(b, a.now) >= a.amount as real
    ensures Grants(c, b, a) <==> a.amount <= c.capacity
  {
    GrantedIff(c, b, a.now, a.amount);
    var pause := a.now - b.lastRefill;
    assert a == Attempt(a.now, a.amount) && Elapsed(b, a.now) == pause;
    assert c.rate * Elapsed(b, a.now) == c.rate * pause;
  }

  // Tokens are turned away only by a bucket that is then full, and only what it cannot hold.
  lemma OnlyFullTurnsAway(c: Config, b: Bucket, now: real)
    ensures Overflow(c, b, now) > 0.0 ==> Refill(c, b, now).tokens == c.capacity as real
    ensures now - b.lastRefill >= 0.1 ==>
              Refill(c, b, now).tokens + Overflow(c, b, now) == b.tokens + c.rate * (now - b.lastRefill)
    ensures now - b.lastRefill < 0.1 ==> Overflow(c, b, now) == 0.0 && Refill(c, b, now) == b
  {
  }

  // The period in the bound is needed: two grants one hundredth of a second apart.
  lemma PeriodIsNeeded()
    ensures
      var c, b, run := Config(10.0, 1), Bucket(1.0, 0.0), [Attempt(0.09, 1), Attempt(0.1, 1)];
      && Valid(c, b) && Forward(b, run)
      && Granted(c, b, run) == 2
      && 2.0 > c.capacity as real + c.rate * (run[1].now - run[0].now)
  {
    var c, b, run := Config(10.0, 1), Bucket(1.0, 0.0), [Attempt(0.09, 1), Attempt(0.1, 1)];
    var b1 := Try(c, b, run[0]);
    assert b1 == Bucket(0.0, 0.0);
    assert Refill(c, b1, 0.1) == Bucket(1.0, 0.1);
    assert Grants(c, b1, run[1]);
    assert run[1..] == [run[1]];
    assert Granted(c, b1, run[1..]) == 1;
  }
}
