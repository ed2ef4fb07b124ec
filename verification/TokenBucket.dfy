/**
 * The token bucket behind every peer: full at creation, refilled continuously at `rps` tokens a second up to
 * `burst`, admitting a request when at least one whole token is held.  Time is an integer number of nanoseconds
 * and tokens are exact reals.
 */
module TokenBucket {

  datatype Limit = Limit(rps: real, burst: int)

  datatype Bucket = Bucket(tokens: real, last: int)

  const NANOS_PER_SECOND := 1_000_000_000.0

  function Min(a: real, b: real): real { if a <= b then a else b }

  function Elapsed(last: int, now: int): int { if now < last then 0 else now - last }

  /** Tokens gained in `d` nanoseconds. */
  function Refill(rps: real, d: int): real { rps * (d as real) / NANOS_PER_SECOND }

  function Fresh(lim: Limit, now: int): Bucket { Bucket(lim.burst as real, now) }

  /** Tokens available at time `now`. */
  function Level(lim: Limit, b: Bucket, now: int): real {
    Min(lim.burst as real, b.tokens + Refill(lim.rps, Elapsed(b.last, now)))
  }

  /** One `Allow` on a bucket: the answer and the bucket afterwards; a refusal changes nothing. */
  function Take(lim: Limit, b: Bucket, now: int): (bool, Bucket) {
    var level := Level(lim, b, now);
    if level >= 1.0 then (true, Bucket(level - 1.0, now)) else (false, b)
  }

  /** A bucket never holds more than `burst`, nor less than nothing (a negative burst never admits at all). */
  ghost predicate Sound(lim: Limit, b: Bucket, now: int) {
    && b.last <= now
    && Min(0.0, lim.burst as real) <= b.tokens <= lim.burst as real
  }

  lemma RefillAdds(rps: real, a: int, b: int)
    ensures Refill(rps, a + b) == Refill(rps, a) + Refill(rps, b)
  {
  }

  lemma RefillGrows(rps: real, a: int, b: int)
    requires rps >= 0.0 && a <= b
    ensures Refill(rps, a) <= Refill(rps, b)
  {
  }

  lemma RefillScales(rps: real, gain: real, d: int)
    requires rps <= gain && d >= 0
    ensures Refill(rps, d) <= Refill(gain, d)
  {
  }

  /** The level at a later instant depends on the bucket only through its level now. */
  lemma LevelAdvances(lim: Limit, b: Bucket, now: int, later: int)
    requires lim.rps >= 0.0 && b.last <= now <= later
    ensures Level(lim, b, later) == Min(lim.burst as real, Level(lim, b, now) + Refill(lim.rps, later - now))
    ensures Level(lim, b, now) <= Level(lim, b, later)
  {
    RefillAdds(lim.rps, now - b.last, later - now);
    assert now - b.last + (later - now) == later - b.last;
    RefillGrows(lim.rps, 0, later - now);
  }

  lemma SoundLevel(lim: Limit, b: Bucket, now: int)
    requires lim.rps >= 0.0 && Sound(lim, b, now)
    ensures Min(0.0, lim.burst as real) <= b.tokens <= Level(lim, b, now) <= lim.burst as real
  {
    RefillGrows(lim.rps, 0, Elapsed(b.last, now));
  }

  /** A use keeps the bucket sound: in particular an admitted request never drives it below zero. */
  lemma TakeSound(lim: Limit, b: Bucket, now: int)
    requires lim.rps >= 0.0 && Sound(lim, b, now)
    ensures Sound(lim, Take(lim, b, now).1, now)
    ensures Level(lim, Take(lim, b, now).1, now) == Level(lim, b, now) - (if Take(lim, b, now).0 then 1.0 else 0.0)
  {
    RefillGrows(lim.rps, 0, Elapsed(b.last, now));
  }

  /** `rps` is tokens a second: that many more are there a thousand million nanoseconds later, up to the burst. */
  lemma OneSecond(lim: Limit, b: Bucket)
    ensures var later := b.tokens + lim.rps;
            Level(lim, b, b.last + 1_000_000_000) == if later <= lim.burst as real then later else lim.burst as real
  {
  }
}
