/** Running one accepted connection under its timeouts (src/rdp/server/production.rs, lines
    93-256): a biased select loop that puts a cancellation off while the binder is admitting
    the client. */
module Admission {
  import opened Common

  /** Clock readings and durations, in milliseconds. */
  type Instant = nat

  const PRE_AUTH_TIMEOUT: nat := 30_000

  datatype Phase = PreAuth | Session
  datatype Cancellation = Timeout(phase: Phase) | SessionInvalid
  datatype Decision = Cancel | DeferUntilAdmissionFinishes
  datatype Deadline = Deadline(at: Instant, phase: Phase)

  function CancellationDecision(started: bool, finished: bool): Decision {
    if started && !finished then DeferUntilAdmissionFinishes else Cancel
  }

  function SelectedTimeout(entered: Instant, admitted: bool, session: Option<nat>): Option<Deadline> {
    var whole := if session.Some? then Some(Deadline(entered + session.value, Session)) else None;
    var preAuth := Deadline(entered + PRE_AUTH_TIMEOUT, PreAuth);
    if admitted then whole
    else if whole.Some? && whole.value.at <= preAuth.at then whole
    else Some(preAuth)
  }

  /** What one connection is run with. `steps` is the number of steps its binder takes from the
      moment it raises `admission_started` until its guard raises `admission_finished`. */
  datatype Setup = Setup(entered: Instant, session: Option<nat>, steps: nat)

  /** What a poll of the connection future does: begin admission, take some binder steps,
      be ready. A connection admits at most once and cannot be ready inside its binder. */
  datatype Poll = Poll(begins: bool, progress: nat, ready: bool)

  /** One pass of the select over its branches. */
  datatype Pass = Pass(invalidated: bool, poll: Poll, now: Instant)

  datatype Status = Running | Completed | Cancelled(why: Cancellation)

  /** The connection as its flags, permits and binder progress show it. */
  datatype Connection = Connection(
    started: bool, finished: bool, done: nat,
    startPermit: bool, finishPermit: bool, invalidPermit: bool)

  datatype State = State(
    conn: Connection,
    pending: Option<Cancellation>,   // the deferred cancellation
    admitted: bool,                  // the next three are read at the head of the loop
    sawFinished: bool,
    timeout: Option<Deadline>,
    status: Status)

  /** The head of the loop: read the flags, choose the deadline. */
  function Head(u: Setup, conn: Connection, pending: Option<Cancellation>): State {
    State(conn, pending, conn.started, conn.finished,
          if pending.None? then SelectedTimeout(u.entered, conn.started, u.session) else None, Running)
  }

  /** On entry the flags are down, but a notification may be left over from an earlier connection. */
  function Enter(u: Setup, staleStart: bool, staleFinish: bool): State {
    Head(u, Connection(false, false, 0, staleStart, staleFinish, false), None)
  }

  function Min(a: nat, b: nat): nat { if a < b then a else b }

  /** The connection after a poll, and whether it was ready. */
  function PollConnection(u: Setup, c: Connection, p: Poll): (Connection, bool) {
    if c.started == c.finished && (c.started || !p.begins) then (c, p.ready)
    else
      var done := Min(c.done + p.progress, u.steps);
      var finished := done == u.steps;
      (c.(started := true, finished := finished, done := done,
          startPermit := c.startPermit || !c.started, finishPermit := c.finishPermit || finished),
       p.ready && finished)
  }

  function CancelOrDefer(u: Setup, s: State, conn: Connection, why: Cancellation): State {
    if CancellationDecision(conn.started, conn.finished) == DeferUntilAdmissionFinishes
    then Head(u, conn, Some(why))
    else s.(conn := conn, status := Cancelled(why))
  }

  /** The deferred cancellation is due: this pass polls once more and returns. */
  predicate Closing(s: State) {
    s.pending.Some? && CancellationDecision(s.admitted, s.sawFinished) == Cancel
  }

  /** The branches after the connection itself, in order, given the polled connection. */
  function Branch(u: Setup, s: State, conn: Connection, now: Instant): State {
    if Closing(s) then s.(conn := conn, status := Cancelled(s.pending.value))
    else if !s.admitted && conn.startPermit then Head(u, conn.(startPermit := false), s.pending)
    else if s.pending.Some? && !s.sawFinished && conn.finishPermit then
      Head(u, conn.(finishPermit := false), s.pending)
    else if s.pending.None? && conn.invalidPermit then
      CancelOrDefer(u, s, conn.(invalidPermit := false), SessionInvalid)
    else if s.timeout.Some? && now >= s.timeout.value.at then
      CancelOrDefer(u, s, conn, Timeout(s.timeout.value.phase))
    else s.(conn := conn)
  }

  function Notified(s: State, p: Pass): Connection {
    s.conn.(invalidPermit := s.conn.invalidPermit || p.invalidated)
  }

  function Select(u: Setup, s: State, p: Pass): State {
    if !s.status.Running? then s
    else
      var (conn, ready) := PollConnection(u, Notified(s, p), p.poll);
      if ready then s.(conn := conn, status := Completed) else Branch(u, s, conn, p.now)
  }

  function Run(u: Setup, s: State, passes: seq<Pass>): State {
    if passes == [] then s else Select(u, Run(u, s, passes[..|passes| - 1]), passes[|passes| - 1])
  }

  /** One pass of the biased select, on the loop's own local variables: the connection first, then
      the branches in their order. `again` says that a branch completed and sends the loop back
      to its head. */
  method SelectOnce(u: Setup, polled: Connection, ready: bool, deferred: Option<Cancellation>, admitted: bool,
                    finished: bool, timeout: Option<Deadline>, now: Instant)
    returns (conn: Connection, pending: Option<Cancellation>, status: Status, again: bool)
    ensures var before := State(polled, deferred, admitted, finished, timeout, Running);
      var after := if ready then before.(status := Completed) else Branch(u, before, polled, now);
      if again then status == Running && after == Head(u, conn, pending)
      else after == State(conn, pending, admitted, finished, timeout, status)
  {
    conn, pending, status, again := polled, deferred, Running, false;
    if ready {
      status := Completed;
    } else if pending.Some? && CancellationDecision(admitted, finished) == Cancel {
      status := Cancelled(pending.value);
    } else if !admitted && conn.startPermit {
      conn, again := conn.(startPermit := false), true;
    } else if pending.Some? && !finished && conn.finishPermit {
      conn, again := conn.(finishPermit := false), true;
    } else if pending.None? && conn.invalidPermit {
      conn := conn.(invalidPermit := false);
      if CancellationDecision(conn.started, conn.finished) == DeferUntilAdmissionFinishes {
        pending, again := Some(SessionInvalid), true;
      } else {
        status := Cancelled(SessionInvalid);
      }
    } else if timeout.Some? && now >= timeout.value.at {
      if CancellationDecision(conn.started, conn.finished) == DeferUntilAdmissionFinishes {
        pending, again := Some(Timeout(timeout.value.phase)), true;
      } else {
        status := Cancelled(Timeout(timeout.value.phase));
      }
    }
  }

  /** One round of the loop: poll, select, and read the flags and the deadline again if a branch
      has completed. */
  method RoundOnce(u: Setup, p: Pass, conn0: Connection, pending0: Option<Cancellation>, admitted0: bool,
                   finished0: bool, timeout0: Option<Deadline>)
    returns (conn: Connection, pending: Option<Cancellation>, admitted: bool, finished: bool,
             timeout: Option<Deadline>, status: Status)
    ensures State(conn, pending, admitted, finished, timeout, status) ==
      Select(u, State(conn0, pending0, admitted0, finished0, timeout0, Running), p)
  {
    ghost var before := State(conn0, pending0, admitted0, finished0, timeout0, Running);
    var notified := conn0.(invalidPermit := conn0.invalidPermit || p.invalidated);
    assert notified == Notified(before, p);
    var (polled, ready) := PollConnection(u, notified, p.poll);
    var again;
    conn, pending, status, again := SelectOnce(u, polled, ready, pending0, admitted0, finished0, timeout0, p.now);
    PolledFirst(u, before, polled, p.now);
    admitted, finished, timeout := admitted0, finished0, timeout0;
    if again {
      admitted, finished := conn.started, conn.finished;
      timeout := if pending.None? then SelectedTimeout(u.entered, admitted, u.session) else None;
    }
  }

  lemma {:induction false} PolledFirst(u: Setup, s: State, conn: Connection, now: Instant)
    ensures Branch(u, s.(conn := conn), conn, now) == Branch(u, s, conn, now)
  {}

  /** The select loop as the source runs it, round after round on its local variables. */
  method RunWithConnectionTimeouts(u: Setup, staleStart: bool, staleFinish: bool, passes: seq<Pass>)
    returns (s: State)
    ensures s == Run(u, Enter(u, staleStart, staleFinish), passes)
  {
    var conn := Connection(false, false, 0, staleStart, staleFinish, false);
    var pending: Option<Cancellation> := None;
    var admitted, finished := conn.started, conn.finished;
    var timeout := SelectedTimeout(u.entered, admitted, u.session);
    var status := Running;
    ghost var start := Enter(u, staleStart, staleFinish);
    for k := 0 to |passes|
      invariant State(conn, pending, admitted, finished, timeout, status) == Run(u, start, passes[..k])
    {
      RunStep(u, start, passes, k);
      if status.Running? {
        conn, pending, admitted, finished, timeout, status :=
          RoundOnce(u, passes[k], conn, pending, admitted, finished, timeout);
      }
    }
    assert passes[..|passes|] == passes;
    s := State(conn, pending, admitted, finished, timeout, status);
  }

  lemma {:induction false} RunStep(u: Setup, s: State, passes: seq<Pass>, k: nat)
    requires k < |passes|
    ensures Run(u, s, passes[..k + 1]) == Select(u, Run(u, s, passes[..k]), passes[k])
  {
    assert passes[..k + 1][..k] == passes[..k];
  }

  // ---- What every schedule keeps ---------------------------------------------------------------

  /** The binder has not begun, is under way, or has taken all its steps. */
  predicate Coherent(u: Setup, c: Connection) {
    && c.done <= u.steps
    && (c.started ==> (c.finished <==> c.done == u.steps))
    && (!c.started ==> !c.finished && c.done == 0)
  }

  predicate Sound(u: Setup, s: State) {
    && Coherent(u, s.conn)
    // Between passes the loop knows what the flags say.
    && (s.status.Running? ==> s.admitted == s.conn.started)
    && (s.pending.Some? ==> s.conn.started && s.timeout.None? && s.pending.value != Timeout(PreAuth))
    && (s.status.Running? && s.pending.Some? ==> s.sawFinished == s.conn.finished)
    && (s.timeout.Some? && s.timeout.value.phase.PreAuth? ==> !s.admitted)
    // A connection that is over, however it ended, is not inside its binder.
    && (!s.status.Running? ==> s.conn.started == s.conn.finished)
    && (s.status == Cancelled(Timeout(PreAuth)) ==> !s.conn.started)
  }

  lemma {:induction false} PollCoherent(u: Setup, c: Connection, p: Poll)
    requires u.steps > 0 && Coherent(u, c)
    ensures var (d, ready) := PollConnection(u, c, p);
      && Coherent(u, d) && (c.started ==> d.started) && (c.finished ==> d.finished)
      && (d.started && !c.started ==> d.startPermit)
      && (d.finished && !c.finished ==> d.finishPermit)
      && (ready ==> d.started == d.finished)
      && (c.finished ==> d == c)
  {}

  /** What a poll does: admission begins at most once and ends with the last binder step, and the
      connection can be ready whenever its binder is not under way. */
  lemma {:induction false} PollExactly(u: Setup, c: Connection, p: Poll)
    requires u.steps > 0 && Coherent(u, c)
    ensures var (d, ready) := PollConnection(u, c, p);
      && (d.started <==> c.started || p.begins)
      && (d.finished <==> d.started && c.done + p.progress >= u.steps)
      && (ready <==> p.ready && (d.started ==> d.finished))
  {}

  lemma {:induction false} BranchSound(u: Setup, s: State, conn: Connection, now: Instant)
    requires Sound(u, s) && s.status.Running? && Coherent(u, conn)
    requires s.conn.started ==> conn.started
    requires s.conn.finished ==> conn == s.conn.(invalidPermit := conn.invalidPermit)
    requires conn.started && !s.conn.started ==> conn.startPermit
    requires conn.finished && !s.conn.finished ==> conn.finishPermit
    ensures Sound(u, Branch(u, s, conn, now))
    ensures s.pending.Some? ==>
      var r := Branch(u, s, conn, now);
      r.pending == s.pending && (r.status.Running? || r.status == Cancelled(s.pending.value))
  {}

  lemma {:induction false} SelectSound(u: Setup, s: State, p: Pass)
    requires u.steps > 0 && Sound(u, s)
    ensures Sound(u, Select(u, s, p))
    ensures s.pending.Some? && s.status.Running? ==>
      var r := Select(u, s, p);
      && r.pending == s.pending
      && (r.status.Running? || r.status == Completed || r.status == Cancelled(s.pending.value))
  {
    if s.status.Running? {
      var (conn, ready) := PollConnection(u, Notified(s, p), p.poll);
      PollCoherent(u, Notified(s, p), p.poll);
      if !ready {
        BranchSound(u, s, conn, p.now);
      }
    }
  }

  lemma {:induction false} RunSound(u: Setup, staleStart: bool, staleFinish: bool, passes: seq<Pass>)
    requires u.steps > 0
    ensures Sound(u, Run(u, Enter(u, staleStart, staleFinish), passes))
  {
    if passes != [] {
      var before := passes[..|passes| - 1];
      RunSound(u, staleStart, staleFinish, before);
      SelectSound(u, Run(u, Enter(u, staleStart, staleFinish), before), passes[|passes| - 1]);
    }
  }

  /** Whatever the schedule of polls, notifications, stale permits and timers: when the loop
      gives the connection up or returns its result, the binder has run completely or not at
      all, and a pre-authentication timeout is reported only if it has not run at all. */
  lemma {:induction false} NeverCutInsideAdmission(u: Setup, staleStart: bool, staleFinish: bool, passes: seq<Pass>)
    requires u.steps > 0
    ensures var s := Run(u, Enter(u, staleStart, staleFinish), passes);
      !s.status.Running? ==>
        && s.conn.done == (if s.conn.started then u.steps else 0)
        && (s.status == Cancelled(Timeout(PreAuth)) ==> s.conn.done == 0)
  {
    RunSound(u, staleStart, staleFinish, passes);
  }

  /** The first deferred cancellation is the one reported, unless the connection completes. */
  lemma {:induction false} FirstDeferredIsReported(u: Setup, s: State, passes: seq<Pass>)
    requires Sound(u, s) && u.steps > 0 && s.pending.Some?
    requires s.status.Running?
    ensures var r := Run(u, s, passes);
      && Sound(u, r) && r.pending == s.pending
      && (r.status.Running? || r.status == Completed || r.status == Cancelled(s.pending.value))
  {
    if passes != [] {
      FirstDeferredIsReported(u, s, passes[..|passes| - 1]);
      SelectSound(u, Run(u, s, passes[..|passes| - 1]), passes[|passes| - 1]);
    }
  }

  /** The loop is still running before pass k, and the connection is ready when that pass polls it. */
  predicate CompletesAt(u: Setup, s: State, passes: seq<Pass>, k: nat)
    requires k < |passes|
  {
    var before := Run(u, s, passes[..k]);
    before.status.Running? && PollConnection(u, Notified(before, passes[k]), passes[k].poll).1
  }

  /** Over every schedule: the loop returns the connection's own result exactly if some pass that it
      came to found the connection ready, whatever cancellation was due. */
  lemma {:induction false} CompletionWins(u: Setup, s: State, passes: seq<Pass>)
    requires s.status != Completed
    ensures Run(u, s, passes).status == Completed <==> exists k :: 0 <= k < |passes| && CompletesAt(u, s, passes, k)
  {
    if passes != [] {
      var n := |passes| - 1;
      var before := passes[..n];
      CompletionWins(u, s, before);
      forall k | 0 <= k < n ensures CompletesAt(u, s, before, k) <==> CompletesAt(u, s, passes, k) {
        assert before[..k] == passes[..k];
      }
      BranchNeverCompletes(u, Run(u, s, before), passes[n]);
      var r := Run(u, s, before);
      assert CompletesAt(u, s, passes, n) <==>
        r.status.Running? && PollConnection(u, Notified(r, passes[n]), passes[n].poll).1;
      if Run(u, s, before).status == Completed {
        var k :| 0 <= k < |before| && CompletesAt(u, s, before, k);
        assert CompletesAt(u, s, passes, k);
      }
    }
  }

  lemma {:induction false} BranchNeverCompletes(u: Setup, s: State, p: Pass)
    ensures Select(u, s, p).status == Completed <==>
      s.status == Completed || (s.status.Running? && PollConnection(u, Notified(s, p), p.poll).1)
  {}

  /** A deferred cancellation is not lost: the pass after the binder finishes ends the connection. */
  lemma {:induction false} DeferredIsDelivered(u: Setup, s: State, p: Pass)
    requires Sound(u, s) && s.status.Running? && s.pending.Some? && s.conn.finished
    ensures !Select(u, s, p).status.Running?
  {}

  predicate TimedOut(u: Setup, why: Cancellation, now: Instant) {
    match why
    case SessionInvalid => true
    case Timeout(Session) => u.session.Some? && now >= u.entered + u.session.value
    case Timeout(PreAuth) => now >= u.entered + 30_000
  }

  predicate Due(u: Setup, s: State, now: Instant) {
    && (s.status.Cancelled? ==> TimedOut(u, s.status.why, now))
    && (s.pending.Some? ==> TimedOut(u, s.pending.value, now))
    && (s.timeout.Some? ==> TimedOut(u, Timeout(s.timeout.value.phase), s.timeout.value.at))
  }

  lemma {:induction false} HeadDue(u: Setup, conn: Connection, pending: Option<Cancellation>, now: Instant)
    requires pending.Some? ==> TimedOut(u, pending.value, now)
    ensures Due(u, Head(u, conn, pending), now)
  {}

  lemma {:induction false} BranchDue(u: Setup, s: State, conn: Connection, now: Instant)
    requires Due(u, s, now)
    ensures Due(u, Branch(u, s, conn, now), now)
  {
    HeadDue(u, conn.(startPermit := false), s.pending, now);
    HeadDue(u, conn.(finishPermit := false), s.pending, now);
    HeadDue(u, conn.(invalidPermit := false), Some(SessionInvalid), now);
    if s.timeout.Some? && now >= s.timeout.value.at {
      HeadDue(u, conn, Some(Timeout(s.timeout.value.phase)), now);
    }
  }

  lemma {:induction false} SelectDue(u: Setup, s: State, p: Pass)
    requires Due(u, s, p.now)
    ensures Due(u, Select(u, s, p), p.now)
  {
    BranchDue(u, s, PollConnection(u, Notified(s, p), p.poll).0, p.now);
  }

  ghost predicate Clocked(passes: seq<Pass>) {
    forall i, k :: 0 <= i <= k < |passes| ==> passes[i].now <= passes[k].now
  }

  /** A timeout is reported or deferred only once its deadline has passed: the session deadline,
      or, before admission, the pre-authentication one. */
  lemma {:induction false} TimeoutsAreDue(u: Setup, staleStart: bool, staleFinish: bool, passes: seq<Pass>,
                                          now: Instant)
    requires Clocked(passes) && (passes != [] ==> passes[|passes| - 1].now <= now)
    ensures Due(u, Run(u, Enter(u, staleStart, staleFinish), passes), now)
  {
    if passes != [] {
      var before, last := passes[..|passes| - 1], passes[|passes| - 1];
      TimeoutsAreDue(u, staleStart, staleFinish, before, last.now);
      SelectDue(u, Run(u, Enter(u, staleStart, staleFinish), before), last);
    }
  }

  // ---- What is due fires ----------------------------------------------------------------------------

  /** The deadline that the loop waits for is the one its flags select. */
  predicate Chosen(u: Setup, s: State) {
    s.status.Running? && s.pending.None? ==> s.timeout == SelectedTimeout(u.entered, s.admitted, u.session)
  }

  lemma {:induction false} BranchChooses(u: Setup, s: State, conn: Connection, now: Instant)
    requires Chosen(u, s) && s.status.Running?
    ensures Chosen(u, Branch(u, s, conn, now))
  {}

  lemma {:induction false} DeadlineKept(u: Setup, staleStart: bool, staleFinish: bool, passes: seq<Pass>)
    ensures Chosen(u, Run(u, Enter(u, staleStart, staleFinish), passes))
  {
    if passes != [] {
      var before, p := passes[..|passes| - 1], passes[|passes| - 1];
      DeadlineKept(u, staleStart, staleFinish, before);
      var s := Run(u, Enter(u, staleStart, staleFinish), before);
      if s.status.Running? {
        BranchChooses(u, s, PollConnection(u, Notified(s, p), p.poll).0, p.now);
      }
    }
  }

  /** The connection as the next pass polls it: neither ready nor just starting its admission, with no
      start notification left over, and nothing deferred. */
  predicate Undecided(u: Setup, s: State, p: Pass) {
    var (conn, ready) := PollConnection(u, Notified(s, p), p.poll);
    s.status.Running? && s.pending.None? && !ready && !conn.startPermit
  }

  /** The connection is given up for this reason, or, inside the binder, that is deferred. */
  predicate GivenUp(r: State, why: Cancellation) {
    if r.conn.started && !r.conn.finished then r.status.Running? && r.pending == Some(why)
    else r.status == Cancelled(why)
  }

  /** The session was reported invalid in one of these passes, or in this one. */
  ghost predicate Invalidated(passes: seq<Pass>) {
    exists k :: 0 <= k < |passes| && passes[k].invalidated
  }

  ghost predicate InvalidBy(passes: seq<Pass>, p: Pass) { Invalidated(passes) || p.invalidated }

  /** A report that has not been acted on yet is still held, and none is made up. */
  predicate Remembers(s: State, reported: bool) {
    && (s.status.Running? && s.pending.None? ==> (s.conn.invalidPermit <==> reported))
    && (s.pending == Some(SessionInvalid) || s.status == Cancelled(SessionInvalid) ==> reported)
  }

  lemma {:induction false} SelectRemembers(u: Setup, s: State, p: Pass, reported: bool)
    requires Remembers(s, reported)
    ensures Remembers(Select(u, s, p), reported || p.invalidated)
  {}

  /** Over every schedule: a report is never lost, and the connection is given up as invalid only after
      one. */
  lemma {:induction false} ReportsRemembered(u: Setup, staleStart: bool, staleFinish: bool, passes: seq<Pass>)
    ensures Remembers(Run(u, Enter(u, staleStart, staleFinish), passes), Invalidated(passes))
  {
    if passes != [] {
      var before, p := passes[..|passes| - 1], passes[|passes| - 1];
      ReportsRemembered(u, staleStart, staleFinish, before);
      SelectRemembers(u, Run(u, Enter(u, staleStart, staleFinish), before), p, Invalidated(before));
      assert Invalidated(passes) <==> InvalidBy(before, p) by {
        assert forall k :: 0 <= k < |before| ==> passes[k] == before[k];
      }
    }
  }

  /** Over every schedule: once the session time is over, the pass that finds the connection
      undecided ends it, or defers that. */
  lemma {:induction false} SessionTimeoutFires(u: Setup, staleStart: bool, staleFinish: bool, passes: seq<Pass>,
                                               p: Pass)
    requires u.steps > 0
    ensures var s := Run(u, Enter(u, staleStart, staleFinish), passes);
      && Undecided(u, s, p) && !InvalidBy(passes, p) && s.conn.started
      && u.session.Some? && p.now >= u.entered + u.session.value
      ==> GivenUp(Select(u, s, p), Timeout(Session))
  {
    ReportsRemembered(u, staleStart, staleFinish, passes);
    RunSound(u, staleStart, staleFinish, passes);
    DeadlineKept(u, staleStart, staleFinish, passes);
  }

  /** Before admission the earlier of the session time and 30 seconds does, with its own phase. */
  lemma {:induction false} EarlyTimeoutFires(u: Setup, staleStart: bool, staleFinish: bool, passes: seq<Pass>, p: Pass)
    requires u.steps > 0
    ensures var s := Run(u, Enter(u, staleStart, staleFinish), passes);
      Undecided(u, s, p) && !InvalidBy(passes, p) && !s.conn.started ==>
        if u.session.Some? && u.session.value <= 30_000
        then p.now >= u.entered + u.session.value ==> GivenUp(Select(u, s, p), Timeout(Session))
        else p.now >= u.entered + 30_000 ==> GivenUp(Select(u, s, p), Timeout(PreAuth))
  {
    ReportsRemembered(u, staleStart, staleFinish, passes);
    RunSound(u, staleStart, staleFinish, passes);
    DeadlineKept(u, staleStart, staleFinish, passes);
  }

  /** A session that became invalid ends it in the same way, before any timeout is looked at. */
  lemma {:induction false} InvalidFires(u: Setup, staleStart: bool, staleFinish: bool, passes: seq<Pass>, p: Pass)
    requires u.steps > 0
    ensures var s := Run(u, Enter(u, staleStart, staleFinish), passes);
      Undecided(u, s, p) && InvalidBy(passes, p) ==> GivenUp(Select(u, s, p), SessionInvalid)
  {
    ReportsRemembered(u, staleStart, staleFinish, passes);
    RunSound(u, staleStart, staleFinish, passes);
  }

  /** Otherwise nothing happens to it. */
  lemma {:induction false} NothingDueKeepsRunning(u: Setup, staleStart: bool, staleFinish: bool, passes: seq<Pass>,
                                                  p: Pass)
    requires u.steps > 0
    ensures var s := Run(u, Enter(u, staleStart, staleFinish), passes);
      && Undecided(u, s, p) && !InvalidBy(passes, p)
      && (u.session.Some? ==> p.now < u.entered + u.session.value)
      && (s.conn.started || p.now < u.entered + 30_000)
      ==> Select(u, s, p).status.Running? && Select(u, s, p).pending.None?
  {
    ReportsRemembered(u, staleStart, staleFinish, passes);
    RunSound(u, staleStart, staleFinish, passes);
    DeadlineKept(u, staleStart, staleFinish, passes);
  }

  /** A notification can put off what is due, but not for long: three passes with the session time over,
      or the 30 seconds over without an admission, end the connection or defer that. */
  lemma {:induction false} DueWithinThree(u: Setup, staleStart: bool, staleFinish: bool, passes: seq<Pass>,
                                          p: Pass, q: Pass, r: Pass)
    requires u.steps > 0 && p.now <= q.now <= r.now
    ensures var s := Run(u, Enter(u, staleStart, staleFinish), passes);
      var last := Select(u, Select(u, Select(u, s, p), q), r);
      && (u.session.Some? && p.now >= u.entered + u.session.value ==> !last.status.Running? || last.pending.Some?)
      && (p.now >= u.entered + 30_000 && !last.conn.started ==> !last.status.Running?)
  {
    var s := Run(u, Enter(u, staleStart, staleFinish), passes);
    RunSound(u, staleStart, staleFinish, passes);
    DeadlineKept(u, staleStart, staleFinish, passes);
    var a := Select(u, s, p);
    var b := Select(u, a, q);
    LatePass(u, s, p);
    LatePass(u, a, q);
    LatePass(u, b, r);
  }

  /** Something is due, given that this is how the connection stands. */
  predicate Late(u: Setup, started: bool, now: Instant) {
    (u.session.Some? && now >= u.entered + u.session.value) || (!started && now >= u.entered + 30_000)
  }

  /** A late pass ends it, defers that, or uses up the start notification. */
  lemma {:induction false} LatePass(u: Setup, s: State, p: Pass)
    requires u.steps > 0 && Sound(u, s) && Chosen(u, s)
    ensures var a := Select(u, s, p);
      && Sound(u, a) && Chosen(u, a) && (s.conn.started ==> a.conn.started)
      && (s.pending.Some? || !s.status.Running? ==> a.pending.Some? || !a.status.Running?)
      && (Late(u, a.conn.started, p.now) && a.status.Running? && a.pending.None? ==>
            !a.conn.startPermit && !s.conn.started && (s.conn.startPermit || a.conn.started))
  {
    SelectSound(u, s, p);
    if s.status.Running? {
      var conn := PollConnection(u, Notified(s, p), p.poll).0;
      PollCoherent(u, Notified(s, p), p.poll);
      BranchChooses(u, s, conn, p.now);
    }
  }
}
