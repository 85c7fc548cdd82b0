/** What holds of the resize coordinator over every sequence of calls, in whatever order
    the client callbacks and the pipeline loop make them. */
module ResizeRuns {
  import opened Common
  import opened ResizeModel

  datatype Op =
    | AskFor(g: Geometry)
    | Take
    | Confirm(g: Geometry)
    | Fail(g: Geometry)
    | Expire
    | Freeze(g: Geometry)
    | Abort(g: Geometry)
    | Commit(g: Geometry)

  datatype Call = Call(at: Instant, op: Op)

  function Step(c: Coordinator, call: Call): Coordinator {
    match call.op
    case AskFor(g) => Request(c, g)
    case Take => TakeReady(c, call.at).0
    case Confirm(g) => CommandSucceeded(c, g, call.at)
    case Fail(g) => Failed(c, g, call.at)
    case Expire => ExpireRealization(c, call.at)
    case Freeze(g) => BeginCommit(c, g, call.at)
    case Abort(g) => CommitFailed(c, g, call.at)
    case Commit(g) => Applied(c, g, call.at)
  }

  function Run(size: Geometry, calls: seq<Call>): Coordinator {
    if calls == [] then New(size) else Step(Run(size, calls[..|calls| - 1]), calls[|calls| - 1])
  }

  ghost predicate Clocked(calls: seq<Call>) {
    forall i, j :: 0 <= i <= j < |calls| ==> calls[i].at <= calls[j].at
  }

  function Clock(calls: seq<Call>): Instant {
    if calls == [] then 0 else calls[|calls| - 1].at
  }

  lemma {:induction false} RunExtends(size: Geometry, calls: seq<Call>, k: nat)
    requires k < |calls|
    ensures Run(size, calls[..k + 1]) == Step(Run(size, calls[..k]), calls[k])
  {
    assert calls[..k + 1][..k] == calls[..k];
  }

  // ---- The invariant -------------------------------------------------------------------

  /** At most one transaction is active, a deadline belongs to an in-flight command, the
      waiting request differs from the active one, and the active one from what is applied. */
  predicate Consistent(c: Coordinator) {
    && (c.inFlight.None? || c.committing.None?)
    && (c.realizationDeadline.Some? ==> c.inFlight.Some?)
    && (c.pending.Some? ==> c.pending != c.inFlight && c.pending != c.committing)
    && c.inFlight != Some(c.applied)
    && c.committing != Some(c.applied)
  }

  lemma {:induction false} RunConsistent(size: Geometry, calls: seq<Call>)
    ensures Consistent(Run(size, calls))
  {
    if calls != [] {
      RunConsistent(size, calls[..|calls| - 1]);
    }
  }

  // ---- A last-write register -------------------------------------------------------------

  /** The geometry the coordinator is working towards. */
  function Target(c: Coordinator): Geometry {
    if c.pending.Some? then c.pending.value
    else if c.committing.Some? then c.committing.value
    else if c.inFlight.Some? then c.inFlight.value
    else c.applied
  }

  function LastRequested(size: Geometry, calls: seq<Call>): Geometry {
    if calls == [] then size
    else match calls[|calls| - 1].op
         case AskFor(g) => g
         case _ => LastRequested(size, calls[..|calls| - 1])
  }

  /** A request for the geometry still applied while another one is being committed. */
  predicate Overlooks(c: Coordinator, g: Geometry) {
    c.committing.Some? && g == c.applied
  }

  /** Whether the newest request of the run was made in such a state. */
  predicate NewestOverlooked(size: Geometry, calls: seq<Call>) {
    calls != [] &&
    var before := calls[..|calls| - 1];
    match calls[|calls| - 1].op
    case AskFor(g) => Overlooks(Run(size, before), g)
    case _ => NewestOverlooked(size, before)
  }

  lemma {:induction false} OnlyRequestsMoveTheTarget(c: Coordinator, call: Call)
    requires Consistent(c) && !call.op.AskFor?
    ensures Target(Step(c, call)) == Target(c)
  {}

  lemma {:induction false} RequestWritesTheTarget(c: Coordinator, g: Geometry)
    requires Consistent(c)
    ensures Target(Request(c, g)) == g <==> !Overlooks(c, g)
  {}

  /** The coordinator is a last-write register, exactly as long as the newest request was
      not one for the applied geometry made during a commit. */
  lemma {:induction false} LastWriteRegister(size: Geometry, calls: seq<Call>)
    ensures Target(Run(size, calls)) == LastRequested(size, calls) <==> !NewestOverlooked(size, calls)
  {
    if calls != [] {
      var before, call := calls[..|calls| - 1], calls[|calls| - 1];
      RunConsistent(size, before);
      if call.op.AskFor? {
        RequestWritesTheTarget(Run(size, before), call.op.g);
      } else {
        OnlyRequestsMoveTheTarget(Run(size, before), call);
        LastWriteRegister(size, before);
      }
    }
  }

  /** The exception does occur: while g is being committed, the size still applied is requested, and
      the coordinator goes on with g. */
  lemma {:induction false} OverlookedIsReachable(size: Geometry, g: Geometry, at: Instant)
    requires g != size
    ensures var calls := [Call(at, AskFor(g)), Call(at, Take), Call(at, Confirm(g)), Call(at, Freeze(g)),
                          Call(at, AskFor(size))];
      && NewestOverlooked(size, calls) && Clocked(calls)
      && LastRequested(size, calls) == size && Target(Run(size, calls)) == g
  {
    var calls := [Call(at, AskFor(g)), Call(at, Take), Call(at, Confirm(g)), Call(at, Freeze(g)),
                  Call(at, AskFor(size))];
    var c := New(size);
    assert calls[..0] == [];
    RunExtends(size, calls, 0);
    assert Run(size, calls[..1]) == c.(pending := Some(g));
    RunExtends(size, calls, 1);
    assert Run(size, calls[..2]) == c.(inFlight := Some(g));
    RunExtends(size, calls, 2);
    assert Run(size, calls[..3]) == c.(inFlight := Some(g), realizationDeadline := Some(at + REALIZATION_TIMEOUT));
    RunExtends(size, calls, 3);
    assert Run(size, calls[..4]) == c.(committing := Some(g));
    RunExtends(size, calls, 4);
    assert calls[..5] == calls;
  }

  // ---- The guard -------------------------------------------------------------------------

  function Guard(c: Coordinator): Instant {
    if c.retryNotBefore.Some? then c.retryNotBefore.value else 0
  }

  /** An active transaction was issued after the guard had passed. */
  predicate GuardPassed(c: Coordinator, now: Instant) {
    c.inFlight.Some? || c.committing.Some? ==> Guard(c) <= now
  }

  lemma {:induction false} StepGuard(c: Coordinator, call: Call)
    requires Consistent(c) && GuardPassed(c, call.at)
    ensures Guard(c) <= Guard(Step(c, call)) && GuardPassed(Step(c, call), call.at)
  {}

  lemma {:induction false} ActiveAfterGuard(size: Geometry, calls: seq<Call>)
    requires Clocked(calls)
    ensures GuardPassed(Run(size, calls), Clock(calls))
  {
    if calls != [] {
      var before := calls[..|calls| - 1];
      ActiveAfterGuard(size, before);
      RunConsistent(size, before);
      assert Clock(before) <= Clock(calls);
      StepGuard(Run(size, before), calls[|calls| - 1]);
    }
  }

  /** `retry_not_before` never moves backwards. */
  lemma {:induction false} GuardMonotone(size: Geometry, calls: seq<Call>, i: nat, j: nat)
    requires Clocked(calls) && i <= j <= |calls|
    ensures Guard(Run(size, calls[..i])) <= Guard(Run(size, calls[..j]))
    decreases j
  {
    if i < j {
      GuardMonotone(size, calls, i, j - 1);
      RunExtends(size, calls, j - 1);
      var before := calls[..j - 1];
      ActiveAfterGuard(size, before);
      RunConsistent(size, before);
      assert Clock(before) <= calls[j - 1].at;
      StepGuard(Run(size, before), calls[j - 1]);
    }
  }

  predicate ChangesApplied(size: Geometry, calls: seq<Call>, k: nat)
    requires k < |calls|
  {
    Run(size, calls[..k + 1]).applied != Run(size, calls[..k]).applied
  }

  /** Two changes of the applied geometry are a whole reactivation guard apart. */
  lemma {:induction false} ChangesAreSpaced(size: Geometry, calls: seq<Call>, i: nat, k: nat)
    requires Clocked(calls) && i < k < |calls|
    requires ChangesApplied(size, calls, i) && ChangesApplied(size, calls, k)
    ensures calls[k].at >= calls[i].at + 2_000_000_000
  {
    RunExtends(size, calls, i);
    RunExtends(size, calls, k);
    GuardMonotone(size, calls, i + 1, k);
    ActiveAfterGuard(size, calls[..k]);
    assert Clock(calls[..k]) <= calls[k].at;
  }

  /** The instants at which the applied geometry changed. */
  function ChangeTimes(size: Geometry, calls: seq<Call>): seq<Instant> {
    if calls == [] then []
    else
      var before, last := calls[..|calls| - 1], calls[|calls| - 1];
      var times := ChangeTimes(size, before);
      if Step(Run(size, before), last).applied != Run(size, before).applied then times + [last.at] else times
  }

  ghost predicate Spaced(times: seq<Instant>) {
    forall i, j :: 0 <= i < j < |times| ==> times[j] >= times[i] + REACTIVATION_GUARD
  }

  lemma {:induction false} ChangeTimesSpaced(size: Geometry, calls: seq<Call>)
    requires Clocked(calls)
    ensures Spaced(ChangeTimes(size, calls))
    ensures forall i :: 0 <= i < |ChangeTimes(size, calls)| ==>
      ChangeTimes(size, calls)[i] + REACTIVATION_GUARD <= Guard(Run(size, calls))
  {
    if calls != [] {
      var before := calls[..|calls| - 1];
      ChangeTimesSpaced(size, before);
      ActiveAfterGuard(size, before);
      assert Clock(before) <= Clock(calls);
      GuardMonotone(size, calls, |before|, |calls|);
      assert calls[..|calls|] == calls;
    }
  }

  function CountWithin(times: seq<Instant>, from: Instant, to: Instant): nat {
    if times == [] then 0
    else CountWithin(times[..|times| - 1], from, to) + (if from <= times[|times| - 1] <= to then 1 else 0)
  }

  lemma {:induction false} CountShrinks(times: seq<Instant>, from: Instant, to: Instant, bound: int)
    requires forall i :: 0 <= i < |times| ==> times[i] <= bound
    ensures bound < from ==> CountWithin(times, from, to) == 0
    ensures from <= bound <= to ==> CountWithin(times, from, to) == CountWithin(times, from, bound)
  {
    if times != [] {
      CountShrinks(times[..|times| - 1], from, to, bound);
    }
  }

  lemma {:induction false} SpacedCount(times: seq<Instant>, from: Instant, to: Instant)
    requires Spaced(times) && from <= to
    ensures CountWithin(times, from, to) <= (to - from) / REACTIVATION_GUARD + 1
  {
    if times != [] {
      var before, last := times[..|times| - 1], times[|times| - 1];
      if from <= last <= to {
        var bound := last - REACTIVATION_GUARD;
        CountShrinks(before, from, to, bound);
        if from <= bound {
          SpacedCount(before, from, bound);
        }
      } else {
        SpacedCount(before, from, to);
      }
    }
  }

  /** In any window the client is put through at most one reactivation per guard, plus one. */
  lemma {:induction false} ReactivationRate(size: Geometry, calls: seq<Call>, from: Instant, length: nat)
    requires Clocked(calls)
    ensures CountWithin(ChangeTimes(size, calls), from, from + length) <= length / 2_000_000_000 + 1
  {
    ChangeTimesSpaced(size, calls);
    SpacedCount(ChangeTimes(size, calls), from, from + length);
  }

  // ---- Where an applied geometry comes from --------------------------------------------------

  /** Call i made the loop issue a mode command for g. */
  predicate Issues(size: Geometry, calls: seq<Call>, i: int, g: Geometry) {
    && 0 <= i < |calls| && calls[i].op.Take?
    && TakeReady(Run(size, calls[..i]), calls[i].at).1 == Some(g)
  }

  /** Call j accepted the compositor's confirmation of g. */
  predicate ConfirmsAt(size: Geometry, calls: seq<Call>, j: int, g: Geometry) {
    && 0 <= j < |calls| && calls[j].op == Confirm(g)
    && Confirms(Run(size, calls[..j]), g)
  }

  /** Call m froze g: a frame of that size had been seen in time and nothing was pending. */
  predicate FreezesAt(size: Geometry, calls: seq<Call>, m: int, g: Geometry) {
    && 0 <= m < |calls| && calls[m].op == Freeze(g)
    && Freezes(Run(size, calls[..m]), g, calls[m].at)
    && Run(size, calls[..m]).pending.None?
  }

  ghost predicate NothingElseIssued(size: Geometry, calls: seq<Call>, i: int, k: int) {
    forall n, h :: i < n < k ==> !Issues(size, calls, n, h)
  }

  lemma {:induction false} PrefixFacts(size: Geometry, calls: seq<Call>, n: int, k: nat, g: Geometry)
    requires 0 <= n < k <= |calls|
    ensures Issues(size, calls[..k], n, g) <==> Issues(size, calls, n, g)
    ensures ConfirmsAt(size, calls[..k], n, g) <==> ConfirmsAt(size, calls, n, g)
    ensures FreezesAt(size, calls[..k], n, g) <==> FreezesAt(size, calls, n, g)
  {
    assert calls[..k][..n] == calls[..n];
  }

  /** The calls that brought the active transaction to where it is. */
  lemma {:induction false} ActiveOrigin(size: Geometry, calls: seq<Call>) returns (i: int, j: int, m: int)
    ensures var c := Run(size, calls);
      && (c.inFlight.Some? ==>
            Issues(size, calls, i, c.inFlight.value) && NothingElseIssued(size, calls, i, |calls|))
      && (c.inFlight.Some? && c.realizationDeadline.Some? ==>
            && i < j && ConfirmsAt(size, calls, j, c.inFlight.value)
            && c.realizationDeadline.value == calls[j].at + 2_000_000_000)
      && (c.committing.Some? ==>
            && i < j < m && Issues(size, calls, i, c.committing.value)
            && NothingElseIssued(size, calls, i, |calls|)
            && ConfirmsAt(size, calls, j, c.committing.value)
            && FreezesAt(size, calls, m, c.committing.value)
            && calls[m].at <= calls[j].at + 2_000_000_000)
  {
    i, j, m := 0, 0, 0;
    if calls != [] {
      var k := |calls| - 1;
      var before, last := calls[..k], calls[k];
      i, j, m := ActiveOrigin(size, before);
      RunConsistent(size, before);
      forall n, h | 0 <= n < k
        ensures Issues(size, before, n, h) <==> Issues(size, calls, n, h)
        ensures ConfirmsAt(size, before, n, h) <==> ConfirmsAt(size, calls, n, h)
        ensures FreezesAt(size, before, n, h) <==> FreezesAt(size, calls, n, h)
      {
        PrefixFacts(size, calls, n, k, h);
      }
      var b := Run(size, before);
      if last.op.Take? && TakeReady(b, last.at).1.Some? {
        i := k;
      } else if last.op.Confirm? && Confirms(b, last.op.g) {
        j := k;
      } else if last.op.Freeze? && Freezes(b, last.op.g, last.at) {
        m := k;
      }
    }
  }

  /** A geometry is applied only after it was issued, its command confirmed, and a frame of
      that size frozen before the deadline with nothing newer waiting; and nothing else was
      issued in between. */
  lemma {:induction false} AppliedOnlyWhenRealized(size: Geometry, calls: seq<Call>, k: nat)
    returns (i: int, j: int, m: int)
    requires k < |calls| && ChangesApplied(size, calls, k)
    ensures i < j < m < k
    ensures var g := Run(size, calls[..k + 1]).applied;
      && calls[k].op == Commit(g)
      && Issues(size, calls, i, g) && ConfirmsAt(size, calls, j, g) && FreezesAt(size, calls, m, g)
      && NothingElseIssued(size, calls, i, k)
      && calls[m].at <= calls[j].at + 2_000_000_000
  {
    RunExtends(size, calls, k);
    i, j, m := ActiveOrigin(size, calls[..k]);
    var g := Run(size, calls[..k + 1]).applied;
    PrefixFacts(size, calls, i, k, g);
    PrefixFacts(size, calls, j, k, g);
    PrefixFacts(size, calls, m, k, g);
    forall n, h | i < n < k ensures !Issues(size, calls, n, h) {
      PrefixFacts(size, calls, n, k, h);
    }
  }

  // ---- What holds a geometry back ------------------------------------------------------------------

  /** Call i takes back a geometry whose command failed, whose frame did not come in time, or whose
      publication failed, and nothing newer waits. */
  predicate PutsBack(size: Geometry, calls: seq<Call>, i: nat, g: Geometry)
    requires i < |calls|
  {
    var c := Run(size, calls[..i]);
    && c.pending.None?
    && match calls[i].op
       case Fail(h) => h == g && c.inFlight == Some(g)
       case Expire =>
         c.inFlight == Some(g) && c.realizationDeadline.Some? && c.realizationDeadline.value <= calls[i].at
       case Abort(h) => h == g && c.committing == Some(g)
       case _ => false
  }

  /** It waits again, and for 250 ms nothing is issued. */
  lemma {:induction false} RetryIsDelayed(size: Geometry, calls: seq<Call>, i: nat, n: nat, g: Geometry, h: Geometry)
    requires Clocked(calls) && i < n < |calls| && PutsBack(size, calls, i, g) && Issues(size, calls, n, h)
    ensures calls[n].at >= calls[i].at + 250_000_000
    ensures var c := Run(size, calls[..i + 1]); c.pending == Some(g) && c.inFlight.None? && c.committing.None?
  {
    RunConsistent(size, calls[..i]);
    RunExtends(size, calls, i);
    GuardMonotone(size, calls, i + 1, n);
  }

  /** And it is held back no longer than that. */
  lemma {:induction false} RetryComes(size: Geometry, calls: seq<Call>, i: nat, g: Geometry)
    requires i + 1 < |calls| && PutsBack(size, calls, i, g)
    requires calls[i + 1].op.Take? && calls[i + 1].at >= calls[i].at + 250_000_000
    ensures Issues(size, calls, i + 1, g)
  {
    RunConsistent(size, calls[..i]);
    RunExtends(size, calls, i);
  }

  /** A request that waited while another size was applied is issued two seconds after that. */
  lemma {:induction false} NextComes(size: Geometry, calls: seq<Call>, i: nat, h: Geometry)
    requires i + 1 < |calls| && ChangesApplied(size, calls, i)
    requires Run(size, calls[..i + 1]).pending == Some(h) && h != Run(size, calls[..i + 1]).applied
    requires calls[i + 1].op.Take? && calls[i + 1].at >= calls[i].at + 2_000_000_000
    ensures Issues(size, calls, i + 1, h)
  {
    RunConsistent(size, calls[..i]);
    RunExtends(size, calls, i);
  }

  /** After a size was applied, nothing is issued for two seconds. */
  lemma {:induction false} AppliedIsGuarded(size: Geometry, calls: seq<Call>, i: nat, n: nat, h: Geometry)
    requires Clocked(calls) && i < n < |calls| && ChangesApplied(size, calls, i) && Issues(size, calls, n, h)
    ensures calls[n].at >= calls[i].at + 2_000_000_000
  {
    RunExtends(size, calls, i);
    GuardMonotone(size, calls, i + 1, n);
  }

  /** A request in flight is given up exactly two seconds after its command was confirmed, and not at
      all before that. */
  lemma {:induction false} ExpiresExactly(size: Geometry, calls: seq<Call>, at: Instant) returns (j: int)
    ensures var c := Run(size, calls); var e := ExpireRealization(c, at);
      if c.inFlight.Some? && c.realizationDeadline.Some? then
        && ConfirmsAt(size, calls, j, c.inFlight.value)
        && (if at >= calls[j].at + 2_000_000_000 then e.inFlight.None? && e.pending.Some? && Target(e) == Target(c)
            else e == c)
      else e == c
  {
    var i, m;
    i, j, m := ActiveOrigin(size, calls);
  }
}
