/** The async token bucket, over real time. Its lock makes acquire() atomic with
    respect to other callers, so the grants form one sequence. */
module TokenBuckets {

  datatype Grant = Grant(time: real, amount: real)

  function Granted(log: seq<Grant>): real {
    if log == [] then 0.0 else Granted(log[..|log| - 1]) + log[|log| - 1].amount
  }

  lemma GrantedAppend(log: seq<Grant>, g: Grant)
    ensures Granted(log + [g]) == Granted(log) + g.amount
  {
    assert (log + [g])[..|log|] == log;
  }

  /** Tokens the refill adds between two times. */
  function Refilled(rate: real, from: real, to: real): real {
    (to - from) * rate
  }

  /** What is in a bucket after a time without grants. */
  function Filled(capacity: real, rate: real, tokens: real, from: real, to: real): real {
    var full := tokens + Refilled(rate, from, to);
    if full < capacity then full else capacity
  }

  /** Refilling twice is refilling once. */
  lemma FilledTwice(capacity: real, rate: real, tokens: real, a: real, b: real, c: real)
    requires rate >= 0.0 && a <= b <= c && tokens <= capacity
    ensures Filled(capacity, rate, Filled(capacity, rate, tokens, a, b), b, c) == Filled(capacity, rate, tokens, a, c)
    ensures Filled(capacity, rate, tokens, a, a) == tokens
  {
    hide Refilled;
    RefilledFacts(rate, a, b, c);
    RefilledFacts(rate, b, c, c);
  }

  lemma RefilledFacts(rate: real, a: real, b: real, c: real)
    ensures Refilled(rate, a, a) == 0.0
    ensures Refilled(rate, a, c) == Refilled(rate, a, b) + Refilled(rate, b, c)
    ensures rate >= 0.0 && a <= b ==> Refilled(rate, a, b) >= 0.0
  {
  }

  /** Grants i to j inclusive stay within one burst plus the refill between them. */
  ghost predicate WindowOk(log: seq<Grant>, capacity: real, rate: real, i: nat, j: nat)
    requires i <= j < |log|
  {
    Granted(log[i..j + 1]) <= capacity + Refilled(rate, log[i].time, log[j].time)
  }

  /** Everything granted since grant i, plus what is left, was there or refilled. */
  ghost predicate SinceOk(log: seq<Grant>, capacity: real, rate: real, tokens: real, last: real, i: nat)
    requires i < |log|
  {
    Granted(log[i..]) + tokens <= capacity + Refilled(rate, log[i].time, last)
  }

  ghost predicate LogOk(capacity: real, rate: real, tokens: real, last: real, log: seq<Grant>) {
    && (forall i :: 0 <= i < |log| ==> log[i].time <= last && SinceOk(log, capacity, rate, tokens, last, i))
    && (forall i, j :: 0 <= i <= j < |log| ==> WindowOk(log, capacity, rate, i, j))
  }

  /** Refilling adds no more than the rate allows. */
  lemma RefillLogOk(capacity: real, rate: real, tokens: real, last: real, log: seq<Grant>, tokens': real, now: real)
    requires LogOk(capacity, rate, tokens, last, log) && last <= now
    requires tokens' <= tokens + Refilled(rate, last, now)
    ensures LogOk(capacity, rate, tokens', now, log)
  {
    hide WindowOk, Granted, Refilled;
    forall i | 0 <= i < |log| ensures SinceOk(log, capacity, rate, tokens', now, i) {
      assert SinceOk(log, capacity, rate, tokens, last, i);
      RefilledFacts(rate, log[i].time, last, now);
    }
  }

  lemma TakeAfter(capacity: real, rate: real, tokens: real, now: real, log: seq<Grant>, n: real, i: nat)
    requires i < |log| && SinceOk(log, capacity, rate, tokens, now, i) && n <= tokens
    ensures SinceOk(log + [Grant(now, n)], capacity, rate, tokens - n, now, i)
    ensures WindowOk(log + [Grant(now, n)], capacity, rate, i, |log|)
  {
    hide Granted, Refilled;
    var g := Grant(now, n);
    assert (log + [g])[i..] == log[i..] + [g] && (log + [g])[i..|log| + 1] == log[i..] + [g];
    GrantedAppend(log[i..], g);
  }

  lemma TakeFirst(capacity: real, rate: real, tokens: real, now: real, log: seq<Grant>, n: real)
    requires n <= tokens <= capacity
    ensures SinceOk(log + [Grant(now, n)], capacity, rate, tokens - n, now, |log|)
    ensures WindowOk(log + [Grant(now, n)], capacity, rate, |log|, |log|)
  {
    hide Granted, Refilled;
    var g, m := Grant(now, n), |log|;
    assert (log + [g])[m..] == [] + [g] && (log + [g])[m..m + 1] == [] + [g];
    GrantedAppend([], g);
    GrantedNothing();
    RefilledFacts(rate, now, now, now);
  }

  lemma TakeBefore(capacity: real, rate: real, log: seq<Grant>, g: Grant, i: nat, j: nat)
    requires i <= j < |log| && WindowOk(log, capacity, rate, i, j)
    ensures WindowOk(log + [g], capacity, rate, i, j)
  {
    assert (log + [g])[i..j + 1] == log[i..j + 1];
  }

  /** Handing out tokens moves them from the bucket to the log. */
  lemma TakeLogOk(capacity: real, rate: real, tokens: real, now: real, log: seq<Grant>, n: real)
    requires LogOk(capacity, rate, tokens, now, log) && 0.0 <= n <= tokens <= capacity
    ensures LogOk(capacity, rate, tokens - n, now, log + [Grant(now, n)])
  {
    hide Granted, SinceOk, WindowOk;
    var g, m, left := Grant(now, n), |log|, tokens - n;
    TakeFirst(capacity, rate, tokens, now, log, n);
    forall i: nat | i < m
      ensures SinceOk(log + [g], capacity, rate, left, now, i) && WindowOk(log + [g], capacity, rate, i, m)
    {
      TakeAfter(capacity, rate, tokens, now, log, n, i);
    }
    forall i: nat | i <= m ensures (log + [g])[i].time <= now {
    }
    forall i: nat, j: nat | i <= j < m ensures WindowOk(log + [g], capacity, rate, i, j) {
      TakeBefore(capacity, rate, log, g, i, j);
    }
  }

  lemma GrantedNothing()
    ensures Granted([]) == 0.0
  {
  }

  class TokenBucket {
    const capacity: real
    const rate: real
    var tokens: real
    var last: real
    var clock: real
    ghost var log: seq<Grant>

    ghost predicate Valid()
      reads this
    {
      0.0 <= tokens <= capacity && rate >= 0.0 && last <= clock && LogOk(capacity, rate, tokens, last, log)
    }

    constructor (ratePerMinute: real, capacity: real, now: real)
      requires ratePerMinute >= 0.0 && capacity >= 0.0
      ensures Valid() && log == [] && tokens == capacity && clock == now
      ensures this.capacity == capacity && rate == ratePerMinute / 60.0
    {
      this.capacity, rate := capacity, ratePerMinute / 60.0;
      tokens, last, clock := capacity, now, now;
      log := [];
    }

    /** Time passes, at least as long as asked for. */
    method Sleep(wait: real)
      requires Valid()
      modifies this`clock
      ensures Valid() && clock >= old(clock) + wait && clock >= old(clock)
    {
      var late: real := *;
      clock := clock + (if wait > 0.0 then wait else 0.0) + (if late > 0.0 then late else 0.0);
    }

    method Refill()
      requires Valid()
      modifies this`tokens, this`last
      ensures Valid() && last == clock
      ensures tokens == old(Level())
    {
      hide LogOk;
      var now := clock;
      var full := tokens + (now - last) * rate;
      RefilledFacts(rate, last, now, now);
      RefillLogOk(capacity, rate, tokens, last, log, if full < capacity then full else capacity, now);
      tokens := if full < capacity then full else capacity;
      last := now;
    }

    /** What the next refill leaves in the bucket. */
    function Level(): real
      reads this
    {
      Filled(capacity, rate, tokens, last, clock)
    }

    /** One round of waiting: enough for n tokens, if the bucket holds that many
        and refills at all. */
    method WaitOnce(n: real)
      requires Valid() && last == clock && tokens < n
      modifies this`clock, this`tokens, this`last
      ensures Valid() && last == clock >= old(clock)
      ensures n <= capacity && rate > 0.0 ==> tokens >= n
      ensures rate == 0.0 ==> tokens == old(tokens)
      ensures tokens == Filled(capacity, rate, old(tokens), old(last), clock)
    {
      hide LogOk, Refilled;
      var wait := if rate > 0.0 then (n - tokens) / rate else 0.0;
      ghost var slept := clock;
      Sleep(wait);
      if rate > 0.0 {
        EnoughRefill(rate, wait, n - tokens, slept, clock);
      } else {
        NoRefill(slept, clock);
      }
      Refill();
    }

    /** Wait for n tokens and take them, watched for the given number of rounds.
        Without a wait if the bucket holds enough; after one wait if the bucket
        can ever hold enough and refills; otherwise never. A grant takes n out of
        what time has filled in, and a refusal nothing. */
    method Acquire(n: real, rounds: nat) returns (granted: bool)
      requires Valid() && n >= 0.0
      modifies this
      ensures Valid() && clock >= old(clock)
      ensures granted <==> n <= old(Level()) || (rounds > 0 && n <= capacity && rate > 0.0)
      ensures n <= old(Level()) ==> clock == old(clock)
      ensures log == if granted then old(log) + [Grant(clock, n)] else old(log)
      ensures tokens == Filled(capacity, rate, old(tokens), old(last), clock) - if granted then n else 0.0
      ensures last == clock
    {
      hide LogOk, Refilled, Filled;
      Refill();
      ghost var level := tokens;
      var round := 0;
      while tokens < n && round < rounds
        invariant Valid() && last == clock && clock >= old(clock) && log == old(log) && round <= rounds
        invariant round > 0 ==> level < n
        invariant round == 0 ==> clock == old(clock) && tokens == level
        invariant round > 0 && n <= capacity && rate > 0.0 ==> tokens >= n
        invariant rate == 0.0 ==> tokens == level
        invariant tokens == Filled(capacity, rate, old(tokens), old(last), clock)
        decreases rounds - round
      {
        ghost var before := clock;
        WaitOnce(n);
        FilledTwice(capacity, rate, old(tokens), old(last), before, clock);
        round := round + 1;
      }
      if tokens < n {
        return false;
      }
      TakeLogOk(capacity, rate, tokens, last, log, n);
      log := log + [Grant(clock, n)];
      tokens := tokens - n;
      return true;
    }
  }

  lemma EnoughRefill(rate: real, wait: real, missing: real, from: real, to: real)
    requires rate > 0.0 && wait == missing / rate && to - from >= wait
    ensures Refilled(rate, from, to) >= missing
  {
    var d := to - from;
    assert wait * rate == missing;
    assert d * rate >= wait * rate;
  }

  lemma NoRefill(from: real, to: real)
    ensures Refilled(0.0, from, to) == 0.0
  {
  }

  /** The rate promise: whatever the callers do, no window of time hands out more
      than one full bucket plus the refill of that window. */
  lemma RateLimit(b: TokenBucket, i: nat, j: nat)
    requires b.Valid() && i <= j < |b.log|
    ensures Granted(b.log[i..j + 1]) <= b.capacity + (b.log[j].time - b.log[i].time) * b.rate
  {
    assert WindowOk(b.log, b.capacity, b.rate, i, j);
  }
}
