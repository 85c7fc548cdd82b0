/** The token-bucket frame rate regulator (src/rdp/server/display_handler.rs, lines 616-664),
    over exact reals. */
module FrameRate {
  const MAX_TOKENS: real := 2.0

  /** The regulator between two calls. */
  datatype Bucket = Bucket(fps: nat, last: real, budget: real)

  /** How many frames the target rate allows in some seconds. */
  function Tokens(fps: nat, seconds: real): real { seconds * fps as real }

  function Frames(fps: nat, from: real, to: real): real { Tokens(fps, to - from) }

  /** Elapsed time saturates at zero, as `Instant::duration_since` does. */
  function Earned(b: Bucket, now: real): real {
    Tokens(b.fps, if now < b.last then 0.0 else now - b.last)
  }

  function Filled(b: Bucket, now: real): real {
    if b.budget + Earned(b, now) < MAX_TOKENS then b.budget + Earned(b, now) else MAX_TOKENS
  }

  predicate Sends(b: Bucket, now: real) { Filled(b, now) >= 1.0 }

  function Next(b: Bucket, now: real): Bucket {
    b.(last := now, budget := if Sends(b, now) then Filled(b, now) - 1.0 else Filled(b, now))
  }

  class FrameRateRegulator {
    const targetFps: nat
    var lastFrameTime: real
    var tokenBudget: real

    function Value(): Bucket
      reads this
    {
      Bucket(targetFps, lastFrameTime, tokenBudget)
    }

    constructor (fps: nat, now: real)
      ensures Value() == Bucket(fps, now, 1.0)
    {
      targetFps := fps;
      lastFrameTime := now;
      tokenBudget := 1.0;
    }

    method ShouldSendFrame(now: real) returns (send: bool)
      modifies this
      ensures Value() == Next(old(Value()), now)
      ensures send == Sends(old(Value()), now)
    {
      var elapsed := if now < lastFrameTime then 0.0 else now - lastFrameTime;
      // The reading is advanced on every call, not just when a frame is sent.
      lastFrameTime := now;
      tokenBudget := tokenBudget + Tokens(targetFps, elapsed);
      if tokenBudget > MAX_TOKENS {
        tokenBudget := MAX_TOKENS;
      }
      if tokenBudget >= 1.0 {
        tokenBudget := tokenBudget - 1.0;
        return true;
      }
      return false;
    }
  }

  /** The regulator after the first k of a series of calls. */
  function After(b: Bucket, times: seq<real>, k: nat): Bucket
    requires k <= |times|
  {
    if k == 0 then b else Next(After(b, times, k - 1), times[k - 1])
  }

  /** Frames sent by calls i to j, both included. */
  function SentBetween(b: Bucket, times: seq<real>, i: nat, j: nat): nat
    requires i <= j < |times|
  {
    (if i == j then 0 else SentBetween(b, times, i, j - 1)) + Cost(After(b, times, j), times[j])
  }

  ghost predicate Clocked(times: seq<real>) {
    forall i, j :: 0 <= i <= j < |times| ==> times[i] <= times[j]
  }

  lemma {:induction false} BudgetInRange(b: Bucket, times: seq<real>, k: nat)
    requires k <= |times| && 0.0 <= b.budget <= MAX_TOKENS
    ensures var a := After(b, times, k);
      && 0.0 <= a.budget <= 2.0 && a.fps == b.fps
      && (k > 0 ==> a.budget <= 1.0 && a.last == times[k - 1])
  {
    if k > 0 {
      BudgetInRange(b, times, k - 1);
      EarnedNonNegative(After(b, times, k - 1), times[k - 1]);
    }
  }

  lemma {:induction false} EarnedNonNegative(b: Bucket, now: real)
    ensures Earned(b, now) >= 0.0
  {
    if now >= b.last {
      ProductNonNegative(now - b.last, b.fps as real);
    }
  }

  lemma {:induction false} ProductNonNegative(x: real, y: real)
    requires x >= 0.0 && y >= 0.0
    ensures x * y >= 0.0
  {}

  lemma {:induction false} FramesAddUp(fps: nat, a: real, b: real, c: real)
    ensures Frames(fps, a, c) == Frames(fps, a, b) + Frames(fps, b, c)
    ensures Frames(fps, a, a) == 0.0
  {}

  function Cost(b: Bucket, now: real): nat { if Sends(b, now) then 1 else 0 }

  lemma {:induction false} CallPays(b: Bucket, now: real)
    requires b.last <= now
    ensures Cost(b, now) as real + Next(b, now).budget == Filled(b, now) <= MAX_TOKENS
    ensures Filled(b, now) <= b.budget + Frames(b.fps, b.last, now)
    ensures b.budget <= 1.0 && Frames(b.fps, b.last, now) <= 1.0 ==>
      Filled(b, now) == b.budget + Frames(b.fps, b.last, now)
  {}

  /** Frames sent, plus what is left in the bucket, never exceed the burst plus what was earned. */
  lemma {:induction false} SentPlusBudget(b: Bucket, times: seq<real>, i: nat, j: nat)
    requires i <= j < |times| && Clocked(times) && b.last <= times[0] && 0.0 <= b.budget <= MAX_TOKENS
    ensures SentBetween(b, times, i, j) as real + After(b, times, j + 1).budget
              <= MAX_TOKENS + Frames(b.fps, times[i], times[j])
    decreases j
  {
    BudgetInRange(b, times, j);
    CallPays(After(b, times, j), times[j]);
    if i == j {
      FramesAddUp(b.fps, times[i], times[i], times[i]);
    } else {
      SentPlusBudget(b, times, i, j - 1);
      FramesAddUp(b.fps, times[i], times[j - 1], times[j]);
    }
  }

  /** The number of frames in some seconds at a rate: what the regulator is held to. */
  function FramesDue(fps: nat, seconds: real): real { seconds * fps as real }

  /** Rate bound: between any two calls at most a burst of two frames more than the target rate
      allows is sent. */
  lemma {:induction false} RateBound(b: Bucket, times: seq<real>, i: nat, j: nat)
    requires i <= j < |times| && Clocked(times) && b.last <= times[0] && 0.0 <= b.budget <= MAX_TOKENS
    ensures SentBetween(b, times, i, j) as real <= 2.0 + FramesDue(b.fps, times[j] - times[i])
  {
    SentPlusBudget(b, times, i, j);
    BudgetInRange(b, times, j + 1);
    FramesExactly(b.fps, times[i], times[j]);
  }

  lemma {:induction false} FramesExactly(fps: nat, a: real, b: real)
    ensures Frames(fps, a, b) == FramesDue(fps, b - a)
  {}

  /** No gap between calls is longer than one frame at the target rate. */
  ghost predicate Dense(times: seq<real>, fps: nat) {
    forall k, n :: 0 <= k && n == k + 1 && n < |times| ==> FramesDue(fps, times[n] - times[k]) <= 1.0
  }

  lemma {:induction false} DenseGap(times: seq<real>, fps: nat, k: nat)
    requires Dense(times, fps) && k + 1 < |times|
    ensures Frames(fps, times[k], times[k + 1]) <= 1.0
  {
    var n := k + 1;
    assert FramesDue(fps, times[n] - times[k]) <= 1.0;
    FramesExactly(fps, times[k], times[n]);
  }

  /** Then no token spills over, and the bucket accounts for every frame exactly. */
  lemma {:induction false} NothingSpills(b: Bucket, times: seq<real>, i: nat, j: nat)
    requires i < j < |times| && Clocked(times) && Dense(times, b.fps) && 0.0 <= b.budget <= MAX_TOKENS
    ensures SentBetween(b, times, i + 1, j) as real + After(b, times, j + 1).budget
              == After(b, times, i + 1).budget + Frames(b.fps, times[i], times[j])
    decreases j
  {
    BudgetInRange(b, times, j);
    DenseGap(times, b.fps, j - 1);
    CallPays(After(b, times, j), times[j]);
    if i + 1 < j {
      NothingSpills(b, times, i, j - 1);
      FramesAddUp(b.fps, times[i], times[j - 1], times[j]);
    }
  }

  /** Rate reached: a source at least as fast as the target is let through at the target rate,
      less one frame. */
  lemma {:induction false} RateReached(b: Bucket, times: seq<real>, i: nat, j: nat)
    requires i < j < |times| && Clocked(times) && Dense(times, b.fps) && 0.0 <= b.budget <= MAX_TOKENS
    ensures SentBetween(b, times, i + 1, j) as real >= FramesDue(b.fps, times[j] - times[i]) - 1.0
  {
    NothingSpills(b, times, i, j);
    BudgetInRange(b, times, i + 1);
    BudgetInRange(b, times, j + 1);
    FramesExactly(b.fps, times[i], times[j]);
  }

  /** A fresh regulator, called for the first time: nothing is earned yet. */
  lemma {:induction false} FreshCall(b: Bucket)
    requires b.budget == 1.0
    ensures Cost(b, b.last) == 1 && Next(b, b.last) == b.(budget := 0.0)
  {
    FramesAddUp(b.fps, b.last, b.last, b.last);
  }

  lemma {:induction false} FreshAccount(b: Bucket, times: seq<real>, j: nat)
    requires j < |times| && Clocked(times) && Dense(times, b.fps) && b.budget == 1.0 && b.last == times[0]
    ensures var a := After(b, times, j + 1);
      && 0.0 <= a.budget < 1.0 && a.last == times[j] && a.fps == b.fps
      && SentBetween(b, times, 0, j) as real + a.budget == 1.0 + Frames(b.fps, times[0], times[j])
  {
    if j == 0 {
      FreshCall(b);
      FramesAddUp(b.fps, times[0], times[0], times[0]);
      assert After(b, times, 1) == Next(After(b, times, 0), times[0]);
    } else {
      FreshAccount(b, times, j - 1);
      DenseGap(times, b.fps, j - 1);
      CallPays(After(b, times, j), times[j]);
      EarnedNonNegative(After(b, times, j), times[j]);
      FramesAddUp(b.fps, times[0], times[j - 1], times[j]);
    }
  }

  /** Exactly the target rate: a fresh regulator lets the first frame through, and of a source at least
      as fast as the target, one more each time that another whole frame is due. */
  lemma {:induction false} FramesToTheDot(b: Bucket, times: seq<real>, j: nat)
    requires j < |times| && Clocked(times) && Dense(times, b.fps) && b.budget == 1.0 && b.last == times[0]
    ensures SentBetween(b, times, 0, j) == 1 + FramesDue(b.fps, times[j] - times[0]).Floor
  {
    FreshAccount(b, times, j);
    FramesExactly(b.fps, times[0], times[j]);
  }
}
