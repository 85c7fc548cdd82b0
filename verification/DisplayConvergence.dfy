/** Where the display loop goes when the client stops asking: it reaches the last requested
    geometry from every state but one, and that one it never leaves by itself. */
module DisplayConvergence {
  import opened Common
  import opened ResizeModel
  import opened ResizeRuns
  import opened DisplayModel
  import opened DisplayRuns

  /** At a loop head: a command has returned, but its success was discarded because a newer
      request was pending, and that request has since been withdrawn. */
  predicate Stuck(c: Coordinator) {
    c.inFlight.Some? && c.pending.None? && c.realizationDeadline.None?
  }

  /** Nothing is pending, in flight or being committed. */
  predicate Resting(c: Coordinator) {
    c.pending.None? && c.inFlight.None? && c.committing.None?
  }

  predicate Waiting(c: Coordinator) {
    c.pending.Some? && c.inFlight.None? && c.committing.None?
  }

  /** What Settles says, without the log. */
  predicate AtHead(d: Display) {
    Consistent(d.resize) && d.resize.committing.None?
  }

  ghost predicate NoRequests(events: seq<External>) {
    forall k :: 0 <= k < |events| ==> events[k].Reactivates?
  }

  ghost predicate Undisturbed(turn: Turn) {
    && NoRequests(turn.afterExpiry) && NoRequests(turn.duringCommand) && NoRequests(turn.beforeFrame)
    && NoRequests(turn.beforeFreeze) && NoRequests(turn.beforeSender) && NoRequests(turn.reserving)
    && NoRequests(turn.writing) && NoRequests(turn.publishing) && NoRequests(turn.resetting)
    && NoRequests(turn.beforeBitmaps)
  }

  /** The turn as the coordinator alone sees it when nobody else calls. */
  function IssueQuietly(c: Coordinator, turn: Turn): Coordinator {
    var (d, issued) := TakeReady(ExpireRealization(c, turn.now), turn.now);
    if issued.None? then d
    else if turn.commandOk then CommandSucceeded(d, issued.value, turn.confirmedAt)
    else Failed(d, issued.value, turn.confirmedAt)
  }

  function RealizeQuietly(c: Coordinator, turn: Turn): Coordinator {
    if turn.frame.None? then c
    else
      var f := turn.frame.value;
      var seen := MatchesRealizedFrame(c, AtLeastOne(f.width), AtLeastOne(f.height), turn.seenAt);
      if seen.None? || !Freezes(c, seen.value, turn.frozenAt) then c
      else
        var d := BeginCommit(c, seen.value, turn.frozenAt);
        if turn.reserved then Applied(d, seen.value, turn.committedAt)
        else CommitFailed(d, seen.value, turn.committedAt)
  }

  function CommandMode(c: Coordinator, mode: Geometry, turn: Turn): Geometry {
    var issued := TakeReady(ExpireRealization(c, turn.now), turn.now).1;
    if issued.None? then mode else if turn.commandOk then issued.value else turn.leftover
  }

  lemma {:induction false} QuietCommand(d: Display, g: Geometry, turn: Turn)
    requires AtHead(d) && Undisturbed(turn)
    ensures var r := Command(d, g, turn);
      && AtHead(r) && r.mode == (if turn.commandOk then g else turn.leftover)
      && r.resize == if turn.commandOk then CommandSucceeded(d.resize, g, turn.confirmedAt)
                     else Failed(d.resize, g, turn.confirmedAt)
  {
    MeanwhileFrame(d, turn.now, turn.duringCommand);
  }

  lemma {:induction false} QuietIssue(d: Display, turn: Turn)
    requires AtHead(d) && Undisturbed(turn)
    ensures var i := Issue(d, turn);
      i.resize == IssueQuietly(d.resize, turn) && i.mode == CommandMode(d.resize, d.mode, turn) && AtHead(i)
  {
    var e := Do(d, turn.now, Expire);
    assert e.resize == ExpireRealization(d.resize, turn.now);
    MeanwhileFrame(e, turn.now, turn.afterExpiry);
    var a := Meanwhile(e, turn.now, turn.afterExpiry);
    var b := Do(a, turn.now, Take);
    assert b.resize == TakeReady(a.resize, turn.now).0;
    var issued := TakeReady(a.resize, turn.now).1;
    if issued.Some? {
      QuietCommand(b, issued.value, turn);
    }
  }

  lemma {:induction false} QuietPublish(d: Display, g: Geometry, turn: Turn)
    requires Consistent(d.resize) && d.resize.committing == Some(g) && Undisturbed(turn)
    ensures var p := Publish(d, g, turn);
      && p.mode == d.mode
      && p.resize == if turn.reserved then Applied(d.resize, g, turn.committedAt)
                     else CommitFailed(d.resize, g, turn.committedAt)
  {
    var a := Meanwhile(d, turn.frozenAt, turn.beforeSender);
    MeanwhileFrame(d, turn.frozenAt, turn.beforeSender);
    var b := Meanwhile(a, turn.frozenAt, turn.reserving);
    MeanwhileFrame(a, turn.frozenAt, turn.reserving);
    var c := Meanwhile(b.(size := g), turn.frozenAt, turn.writing);
    MeanwhileFrame(b.(size := g), turn.frozenAt, turn.writing);
    MeanwhileFrame(c.(log := c.log + [Entry(a.generation, ResizeTo(g))]), turn.frozenAt, turn.publishing);
  }

  lemma {:induction false} QuietRealize(d: Display, turn: Turn)
    requires AtHead(d) && Undisturbed(turn)
    ensures Realize(d, turn).resize == RealizeQuietly(d.resize, turn)
    ensures Realize(d, turn).mode == d.mode && AtHead(Realize(d, turn))
  {
    if turn.frame.Some? {
      var f := turn.frame.value;
      var seen := MatchesRealizedFrame(d.resize, AtLeastOne(f.width), AtLeastOne(f.height), turn.seenAt);
      if seen.Some? {
        var a := Meanwhile(d, turn.seenAt, turn.beforeFreeze);
        MeanwhileFrame(d, turn.seenAt, turn.beforeFreeze);
        var b := Do(a, turn.frozenAt, Freeze(seen.value));
        assert b.resize == BeginCommit(a.resize, seen.value, turn.frozenAt);
        if Freezes(a.resize, seen.value, turn.frozenAt) {
          QuietPublish(b, seen.value, turn);
        }
      }
    }
  }

  lemma {:induction false} QuietDraw(d: Display, turn: Turn)
    requires AtHead(d) && Undisturbed(turn)
    ensures Draw(d, turn).resize == d.resize && Draw(d, turn).mode == d.mode
  {
    if turn.candidate.Some? && SameSize(turn.candidate.value, d.size) {
      var a := if turn.coreReset then Meanwhile(d, turn.committedAt, turn.resetting) else d;
      MeanwhileFrame(d, turn.committedAt, turn.resetting);
      var b := if turn.coreReset && turn.resetSent
               then a.(log := a.log + [Entry(d.generation, ResizeTo(d.size))]) else a;
      MeanwhileFrame(b, turn.committedAt, turn.beforeBitmaps);
    }
  }

  lemma {:induction false} QuietTurn(d: Display, turn: Turn)
    requires AtHead(d) && Undisturbed(turn)
    ensures var r := Iterate(d, turn);
      && AtHead(r)
      && r.resize == RealizeQuietly(IssueQuietly(d.resize, turn), turn)
      && r.mode == CommandMode(d.resize, d.mode, turn)
  {
    QuietIssue(d, turn);
    var i := Issue(d, turn);
    MeanwhileFrame(i, turn.confirmedAt, turn.beforeFrame);
    var a := Meanwhile(i, turn.confirmedAt, turn.beforeFrame);
    QuietRealize(a, turn);
    QuietDraw(Realize(a, turn), turn);
  }

  // ---- Bounded convergence ---------------------------------------------------------------------

  /** The coordinator after one undisturbed turn, and after the first k of a run. */
  function NextQuietly(c: Coordinator, turn: Turn): Coordinator {
    RealizeQuietly(IssueQuietly(c, turn), turn)
  }

  function After(c: Coordinator, turns: seq<Turn>, k: nat): Coordinator
    requires k <= |turns|
  {
    if k == 0 then c else NextQuietly(After(c, turns, k - 1), turns[k - 1])
  }

  lemma {:induction false} LoopIsQuiet(d: Display, turns: seq<Turn>, k: nat)
    requires AtHead(d) && k <= |turns| && forall j :: 0 <= j < |turns| ==> Undisturbed(turns[j])
    ensures AtHead(Loop(d, turns[..k])) && Loop(d, turns[..k]).resize == After(d.resize, turns, k)
  {
    if k > 0 {
      LoopIsQuiet(d, turns, k - 1);
      assert turns[..k][..k - 1] == turns[..k - 1];
      QuietTurn(Loop(d, turns[..k - 1]), turns[k - 1]);
    }
  }

  /** Nobody asks, commands succeed and slots are granted. Whether a frame arrives is left open. */
  ghost predicate Smooth(turn: Turn) {
    Undisturbed(turn) && turn.commandOk && turn.reserved && Ordered(turn)
  }

  /** A command has been confirmed, its deadline is running, and nothing newer waits. */
  predicate Confirmed(c: Coordinator) {
    c.inFlight.Some? && c.pending.None? && c.realizationDeadline.Some?
  }

  predicate Overdue(c: Coordinator, now: Instant)
    requires Confirmed(c)
  {
    now >= c.realizationDeadline.value
  }

  /** Turn m brings the frame that was waited for since turn k: before the deadline, and no turn
      in between starts at or after it. */
  ghost predicate RealizedBy(turns: seq<Turn>, c: Coordinator, k: nat, m: nat)
    requires Confirmed(c)
  {
    && k <= m < |turns|
    && Realized(turns[m], c.inFlight.value) && turns[m].frozenAt <= c.realizationDeadline.value
    && forall j :: k < j <= m ==> !Overdue(c, turns[j].now)
  }

  /** What is confirmed in turn k is realized in time, in that turn or a later one. */
  ghost predicate FairAt(c: Coordinator, turns: seq<Turn>, k: nat)
    requires k < |turns|
  {
    var i := IssueQuietly(After(c, turns, k), turns[k]);
    Confirmed(i) ==> exists m: nat :: RealizedBy(turns, i, k, m)
  }

  ghost predicate FavourableRun(c: Coordinator, turns: seq<Turn>) {
    && (forall k :: 0 <= k < |turns| ==> Smooth(turns[k]))
    && (forall i, k :: 0 <= i < k < |turns| ==> turns[i].now <= turns[k].now)
    && (forall k :: 0 <= k < |turns| ==> FairAt(c, turns, k))
  }

  /** At a loop head, and not stuck. */
  predicate Moving(c: Coordinator) {
    Consistent(c) && c.committing.None? && !Stuck(c)
  }

  /** The first half of a smooth turn: rest stays rest, a request behind the guard waits on, a
      confirmed one is kept until it expires, and anything else is issued and confirmed. */
  lemma {:induction false} IssueStep(c: Coordinator, turn: Turn)
    requires Moving(c) && turn.commandOk && Ordered(turn)
    ensures var i := IssueQuietly(c, turn);
      && Moving(i) && Target(i) == Target(c)
      && (Resting(i) || Waiting(i) || Confirmed(i))
      && (Resting(c) ==> i == c)
      && (Confirmed(c) && !Overdue(c, turn.now) ==> i == c)
      && (Waiting(i) ==> turn.now < Guard(i))
      && (Waiting(i) ==>
            || Guard(i) == Guard(c)
            || (Confirmed(c) && Overdue(c, turn.now) && Guard(i) == turn.now + RETRY_DELAY))
  {}

  /** The second half: a confirmed request is applied, or still waited for. */
  lemma {:induction false} RealizeStep(i: Coordinator, turn: Turn)
    requires Moving(i) && turn.reserved && Ordered(turn)
    ensures var r := RealizeQuietly(i, turn);
      && Moving(r) && Target(r) == Target(i)
      && (r == i || (Confirmed(i) && Resting(r)))
      && (Confirmed(i) && Realized(turn, i.inFlight.value) && turn.frozenAt <= i.realizationDeadline.value ==>
            Resting(r))
  {}

  lemma {:induction false} AfterMoves(c: Coordinator, turns: seq<Turn>, k: nat)
    requires Moving(c) && FavourableRun(c, turns) && k <= |turns|
    ensures Moving(After(c, turns, k)) && Target(After(c, turns, k)) == Target(c)
    ensures k > 0 ==> var r := After(c, turns, k); Resting(r) || Waiting(r) || Confirmed(r)
  {
    if k > 0 {
      AfterMoves(c, turns, k - 1);
      IssueStep(After(c, turns, k - 1), turns[k - 1]);
      RealizeStep(IssueQuietly(After(c, turns, k - 1), turns[k - 1]), turns[k - 1]);
    }
  }

  /** Rest is kept, and a confirmed request is kept or applied until it is overdue. */
  lemma {:induction false} TurnKeeps(c: Coordinator, turn: Turn)
    requires Moving(c) && turn.commandOk && turn.reserved && Ordered(turn)
    ensures Resting(c) ==> NextQuietly(c, turn) == c
    ensures Confirmed(c) && !Overdue(c, turn.now) ==> NextQuietly(c, turn) == c || Resting(NextQuietly(c, turn))
    ensures (Confirmed(c) && !Overdue(c, turn.now)
             && Realized(turn, c.inFlight.value) && turn.frozenAt <= c.realizationDeadline.value)
      ==> Resting(NextQuietly(c, turn))
  {
    IssueStep(c, turn);
    RealizeStep(IssueQuietly(c, turn), turn);
  }

  lemma {:induction false} RestIsKept(c: Coordinator, turns: seq<Turn>, i: nat, k: nat)
    requires Moving(c) && FavourableRun(c, turns) && i <= k <= |turns| && Resting(After(c, turns, i))
    ensures Resting(After(c, turns, k))
  {
    if i < k {
      RestIsKept(c, turns, i, k - 1);
      AfterMoves(c, turns, k - 1);
      TurnKeeps(After(c, turns, k - 1), turns[k - 1]);
    }
  }

  /** Until the frame arrives the confirmed request stays as it is, or is applied even earlier. */
  lemma {:induction false} WaitsForFrame(c: Coordinator, turns: seq<Turn>, k: nat, m: nat, j: nat)
    requires Moving(c) && FavourableRun(c, turns) && k < |turns|
    requires Confirmed(IssueQuietly(After(c, turns, k), turns[k]))
    requires RealizedBy(turns, IssueQuietly(After(c, turns, k), turns[k]), k, m) && k < j <= m
    ensures After(c, turns, j) == IssueQuietly(After(c, turns, k), turns[k]) || Resting(After(c, turns, j))
  {
    if j == k + 1 {
      AfterMoves(c, turns, k);
      IssueStep(After(c, turns, k), turns[k]);
      RealizeStep(IssueQuietly(After(c, turns, k), turns[k]), turns[k]);
    } else {
      WaitsForFrame(c, turns, k, m, j - 1);
      assert !Overdue(IssueQuietly(After(c, turns, k), turns[k]), turns[j - 1].now);
      AfterMoves(c, turns, j - 1);
      TurnKeeps(After(c, turns, j - 1), turns[j - 1]);
    }
  }

  lemma {:induction false} Arrives(c: Coordinator, turns: seq<Turn>, k: nat, m: nat)
    requires Moving(c) && FavourableRun(c, turns) && k < |turns|
    requires Confirmed(IssueQuietly(After(c, turns, k), turns[k]))
    requires RealizedBy(turns, IssueQuietly(After(c, turns, k), turns[k]), k, m)
    ensures Resting(After(c, turns, m + 1))
  {
    if m == k {
      AfterMoves(c, turns, k);
      IssueStep(After(c, turns, k), turns[k]);
      RealizeStep(IssueQuietly(After(c, turns, k), turns[k]), turns[k]);
    } else {
      WaitsForFrame(c, turns, k, m, m);
      assert !Overdue(IssueQuietly(After(c, turns, k), turns[k]), turns[m].now);
      AfterMoves(c, turns, m);
      TurnKeeps(After(c, turns, m), turns[m]);
    }
  }

  /** After the first turn no confirmed request is found expired. */
  lemma {:induction false} NoLateExpiry(c: Coordinator, turns: seq<Turn>, j: nat)
    requires Moving(c) && FavourableRun(c, turns) && 0 < j < |turns| && Confirmed(After(c, turns, j))
    ensures !Overdue(After(c, turns, j), turns[j].now)
  {
    var i := IssueQuietly(After(c, turns, j - 1), turns[j - 1]);
    AfterMoves(c, turns, j - 1);
    IssueStep(After(c, turns, j - 1), turns[j - 1]);
    RealizeStep(i, turns[j - 1]);
    assert FairAt(c, turns, j - 1);
    var m: nat :| RealizedBy(turns, i, j - 1, m);
  }

  /** So a request waits behind the first guard, or behind the retry of a request that had expired
      when the run began. */
  lemma {:induction false} GuardStaysEarly(c: Coordinator, turns: seq<Turn>, k: nat)
    requires Moving(c) && FavourableRun(c, turns) && 0 < k <= |turns| && Waiting(After(c, turns, k))
    ensures Guard(After(c, turns, k)) == Guard(c) || Guard(After(c, turns, k)) == turns[0].now + RETRY_DELAY
  {
    var before := After(c, turns, k - 1);
    AfterMoves(c, turns, k - 1);
    IssueStep(before, turns[k - 1]);
    RealizeStep(IssueQuietly(before, turns[k - 1]), turns[k - 1]);
    if k > 1 {
      if Confirmed(before) {
        NoLateExpiry(c, turns, k - 1);
      } else {
        assert Waiting(before);
        GuardStaysEarly(c, turns, k - 1);
      }
    }
  }

  /** A turn that starts late enough finds nothing left to wait for but a frame. */
  lemma {:induction false} LateTurnSettles(c: Coordinator, turns: seq<Turn>, late: nat)
    requires Moving(c) && FavourableRun(c, turns) && late < |turns|
    requires turns[late].now >= Guard(c) && turns[late].now >= turns[0].now + 250_000_000
    ensures !Waiting(IssueQuietly(After(c, turns, late), turns[late]))
  {
    var before := After(c, turns, late);
    AfterMoves(c, turns, late);
    IssueStep(before, turns[late]);
    if Confirmed(before) {
      NoLateExpiry(c, turns, late);
    } else if Waiting(before) {
      GuardStaysEarly(c, turns, late);
    }
  }

  lemma {:induction false} RestsByTheEnd(c: Coordinator, turns: seq<Turn>, late: nat)
    requires Moving(c) && FavourableRun(c, turns) && late < |turns|
    requires turns[late].now >= Guard(c) && turns[late].now >= turns[0].now + 250_000_000
    ensures Resting(After(c, turns, |turns|)) && After(c, turns, |turns|).applied == Target(c)
  {
    var i := IssueQuietly(After(c, turns, late), turns[late]);
    AfterMoves(c, turns, late);
    IssueStep(After(c, turns, late), turns[late]);
    LateTurnSettles(c, turns, late);
    if Confirmed(i) {
      assert FairAt(c, turns, late);
      var m: nat :| RealizedBy(turns, i, late, m);
      Arrives(c, turns, late, m);
      RestIsKept(c, turns, m + 1, |turns|);
    } else {
      RealizeStep(i, turns[late]);
      RestIsKept(c, turns, late + 1, |turns|);
    }
    AfterMoves(c, turns, |turns|);
  }

  /** Bounded convergence: from every loop head but the stuck one, if requests stop, commands
      succeed, slots are granted and each confirmed size is shown before its deadline, however
      many turns that takes, then a run with a turn after the guard and a retry delay after
      its beginning ends at rest with the target applied. */
  lemma {:induction false} Converges(d: Display, turns: seq<Turn>, late: nat)
    requires AtHead(d) && !Stuck(d.resize) && FavourableRun(d.resize, turns)
    requires late < |turns|
    requires turns[late].now >= Guard(d.resize) && turns[late].now >= turns[0].now + 250_000_000
    ensures var r := Loop(d, turns); Resting(r.resize) && r.resize.applied == Target(d.resize)
  {
    RestsByTheEnd(d.resize, turns, late);
    LoopIsQuiet(d, turns, |turns|);
    assert turns[..|turns|] == turns;
  }

  /** Turn k issues a mode command. */
  predicate Commands(c: Coordinator, turns: seq<Turn>, k: nat)
    requires k < |turns|
  {
    TakeReady(ExpireRealization(After(c, turns, k), turns[k].now), turns[k].now).1.Some?
  }

  lemma {:induction false} CommandConfirms(c: Coordinator, turn: Turn)
    requires Moving(c) && turn.commandOk && Ordered(turn)
    ensures TakeReady(ExpireRealization(c, turn.now), turn.now).1.Some? ==> Confirmed(IssueQuietly(c, turn))
    ensures Resting(c) || (Confirmed(c) && !Overdue(c, turn.now)) ==>
      TakeReady(ExpireRealization(c, turn.now), turn.now).1.None?
  {}

  /** It takes one transaction: at most one turn of such a run issues a command. */
  lemma {:induction false} OneCommand(c: Coordinator, turns: seq<Turn>, j: nat, k: nat)
    requires Moving(c) && FavourableRun(c, turns) && j < k < |turns| && Commands(c, turns, j)
    ensures !Commands(c, turns, k)
  {
    AfterMoves(c, turns, j);
    CommandConfirms(After(c, turns, j), turns[j]);
    var i := IssueQuietly(After(c, turns, j), turns[j]);
    assert FairAt(c, turns, j);
    var m: nat :| RealizedBy(turns, i, j, m);
    if k <= m {
      WaitsForFrame(c, turns, j, m, k);
      assert !Overdue(i, turns[k].now);
    } else {
      Arrives(c, turns, j, m);
      RestIsKept(c, turns, m + 1, k);
    }
    AfterMoves(c, turns, k);
    CommandConfirms(After(c, turns, k), turns[k]);
  }

  /** The same from every state that any run of the loop reaches, whatever disturbed it. The size
      applied in the end is the last one requested, exactly if that request was not overlooked. */
  lemma {:induction false} ConvergesAfterAnyRun(initial: Geometry, before: seq<Turn>, turns: seq<Turn>, late: nat)
    requires OrderedRun(before) && late < |turns|
    requires var d := Loop(Open(initial), before);
      && !Stuck(d.resize) && FavourableRun(d.resize, turns)
      && turns[late].now >= Guard(d.resize) && turns[late].now >= turns[0].now + 250_000_000
    ensures var d := Loop(Open(initial), before); var r := Loop(d, turns);
      && Resting(r.resize)
      && (r.resize.applied == LastRequested(initial, d.calls) <==> !NewestOverlooked(initial, d.calls))
  {
    var d := Loop(Open(initial), before);
    SizeIsApplied(initial, before);
    LoopIsCoordinatorRun(initial, before);
    LastWriteRegister(initial, d.calls);
    Converges(d, turns, late);
  }

  // ---- The state it does not leave ----------------------------------------------------------------

  ghost predicate OnlyAsks(events: seq<External>, g: Geometry) {
    forall k :: 0 <= k < |events| ==> events[k].Asks? ==> events[k].g == g
  }

  ghost predicate TurnOnlyAsks(turn: Turn, g: Geometry) {
    && OnlyAsks(turn.afterExpiry, g) && OnlyAsks(turn.duringCommand, g) && OnlyAsks(turn.beforeFrame, g)
    && OnlyAsks(turn.resetting, g) && OnlyAsks(turn.beforeBitmaps, g)
  }

  lemma {:induction false} StuckTurn(d: Display, turn: Turn)
    requires AtHead(d) && Stuck(d.resize) && TurnOnlyAsks(turn, d.resize.inFlight.value)
    ensures Iterate(d, turn).resize == d.resize
  {
    var e := Do(d, turn.now, Expire);
    MeanwhileFrame(e, turn.now, turn.afterExpiry);
    var a := Meanwhile(e, turn.now, turn.afterExpiry);
    var i := Issue(d, turn);
    assert i.resize == d.resize;
    MeanwhileFrame(i, turn.confirmedAt, turn.beforeFrame);
    var m := Meanwhile(i, turn.confirmedAt, turn.beforeFrame);
    assert Realize(m, turn) == m;
    var b := if turn.coreReset then Meanwhile(m, turn.committedAt, turn.resetting) else m;
    MeanwhileFrame(m, turn.committedAt, turn.resetting);
    var c := if turn.coreReset && turn.resetSent
             then b.(log := b.log + [Entry(m.generation, ResizeTo(m.size))]) else b;
    MeanwhileFrame(c, turn.committedAt, turn.beforeBitmaps);
  }

  /** From the stuck state no turn helps, however favourable, as long as every request is for
      the geometry already in flight: the target is never applied. */
  lemma {:induction false} StuckForever(d: Display, turns: seq<Turn>)
    requires AtHead(d) && Stuck(d.resize)
    requires forall k :: 0 <= k < |turns| ==> TurnOnlyAsks(turns[k], d.resize.inFlight.value)
    ensures var r := Loop(d, turns); r.resize == d.resize && r.resize.applied != Target(d.resize)
  {
    if turns != [] {
      StuckForever(d, turns[..|turns| - 1]);
      StuckTurn(Loop(d, turns[..|turns| - 1]), turns[|turns| - 1]);
    }
  }

  /** A request for any other geometry leaves it. */
  lemma {:induction false} OtherRequestUnsticks(c: Coordinator, g: Geometry)
    requires Consistent(c) && Stuck(c) && g != c.inFlight.value
    ensures !Stuck(Request(c, g)) && Target(Request(c, g)) == g
  {}

  /** How the loop gets there: b is requested while the command for a runs, the command
      returns, and a is requested again before the next turn takes b. */
  lemma {:induction false} StuckIsReachable(size: Geometry, a: Geometry, b: Geometry, at: Instant)
    requires size != a && a != b
    ensures var calls := [Call(at, AskFor(a)), Call(at, Take), Call(at, AskFor(b)), Call(at, Confirm(a)),
                          Call(at, AskFor(a))];
      Stuck(Run(size, calls)) && Clocked(calls) && LastRequested(size, calls) == a
  {
    var c0 := New(size);
    var q1, q2 := [Call(at, AskFor(a))], [Call(at, AskFor(a)), Call(at, Take)];
    var q3 := q2 + [Call(at, AskFor(b))];
    var q4 := q3 + [Call(at, Confirm(a))];
    var q5 := q4 + [Call(at, AskFor(a))];
    RunAppend(size, [], q1[0]);
    assert [] + [q1[0]] == q1;
    assert Run(size, q1) == c0.(pending := Some(a));
    RunAppend(size, q1, q2[1]);
    assert q1 + [q2[1]] == q2;
    assert Run(size, q2) == c0.(inFlight := Some(a));
    RunAppend(size, q2, q3[2]);
    assert Run(size, q3) == c0.(inFlight := Some(a), pending := Some(b));
    RunAppend(size, q3, q4[3]);
    assert Run(size, q4) == Run(size, q3);
    RunAppend(size, q4, q5[4]);
    assert Run(size, q5) == c0.(inFlight := Some(a));
    assert q5 == [Call(at, AskFor(a)), Call(at, Take), Call(at, AskFor(b)), Call(at, Confirm(a)), Call(at, AskFor(a))];
  }

  // ---- The compositor mode at rest -----------------------------------------------------------------

  /** A confirmed command is the mode the compositor has. */
  predicate ModeConfirmed(d: Display) {
    d.resize.realizationDeadline.Some? ==> d.resize.inFlight == Some(d.mode)
  }

  lemma {:induction false} CommandModeConfirmed(d: Display, g: Geometry, turn: Turn)
    requires Consistent(d.resize) && d.resize.inFlight == Some(g) && d.resize.realizationDeadline.None?
    ensures Consistent(Command(d, g, turn).resize) && ModeConfirmed(Command(d, g, turn))
  {
    MeanwhileFrame(d, turn.now, turn.duringCommand);
  }

  lemma {:induction false} TakenModeConfirmed(d: Display, at: Instant)
    requires Consistent(d.resize) && ModeConfirmed(d)
    ensures var (c, issued) := TakeReady(d.resize, at); var r := Do(d, at, Take);
      && r.resize == c && Consistent(c) && ModeConfirmed(r)
      && (issued.Some? ==> c.inFlight == issued && c.realizationDeadline.None?)
  {}

  lemma {:induction false} IssueModeConfirmed(d: Display, turn: Turn)
    requires Consistent(d.resize) && ModeConfirmed(d)
    ensures Consistent(Issue(d, turn).resize) && ModeConfirmed(Issue(d, turn))
  {
    var e := Do(d, turn.now, Expire);
    MeanwhileFrame(e, turn.now, turn.afterExpiry);
    var a := Meanwhile(e, turn.now, turn.afterExpiry);
    TakenModeConfirmed(a, turn.now);
    var issued := TakeReady(a.resize, turn.now).1;
    if issued.Some? {
      CommandModeConfirmed(Do(a, turn.now, Take), issued.value, turn);
    }
  }

  lemma {:induction false} RealizeModeConfirmed(d: Display, turn: Turn)
    requires Consistent(d.resize) && d.resize.committing.None? && ModeConfirmed(d)
    ensures ModeConfirmed(Realize(d, turn))
  {
    if turn.frame.Some? {
      var f := turn.frame.value;
      var seen := MatchesRealizedFrame(d.resize, AtLeastOne(f.width), AtLeastOne(f.height), turn.seenAt);
      if seen.Some? {
        var a := Meanwhile(d, turn.seenAt, turn.beforeFreeze);
        MeanwhileFrame(d, turn.seenAt, turn.beforeFreeze);
        var b := Do(a, turn.frozenAt, Freeze(seen.value));
        assert b.resize == BeginCommit(a.resize, seen.value, turn.frozenAt);
        if Freezes(a.resize, seen.value, turn.frozenAt) {
          PublishModeConfirmed(b, seen.value, turn);
        }
      }
    }
  }

  lemma {:induction false} PublishModeConfirmed(d: Display, g: Geometry, turn: Turn)
    requires Consistent(d.resize) && d.resize.committing == Some(g)
    ensures ModeConfirmed(Publish(d, g, turn))
  {
    var a := Meanwhile(d, turn.frozenAt, turn.beforeSender);
    MeanwhileFrame(d, turn.frozenAt, turn.beforeSender);
    var b := Meanwhile(a, turn.frozenAt, turn.reserving);
    MeanwhileFrame(a, turn.frozenAt, turn.reserving);
    var c := Meanwhile(b.(size := g), turn.frozenAt, turn.writing);
    MeanwhileFrame(b.(size := g), turn.frozenAt, turn.writing);
    MeanwhileFrame(c.(log := c.log + [Entry(a.generation, ResizeTo(g))]), turn.frozenAt, turn.publishing);
  }

  lemma {:induction false} DrawModeConfirmed(d: Display, turn: Turn)
    requires Consistent(d.resize) && ModeConfirmed(d)
    ensures ModeConfirmed(Draw(d, turn))
  {
    if turn.candidate.Some? && SameSize(turn.candidate.value, d.size) {
      var a := if turn.coreReset then Meanwhile(d, turn.committedAt, turn.resetting) else d;
      MeanwhileFrame(d, turn.committedAt, turn.resetting);
      var b := if turn.coreReset && turn.resetSent
               then a.(log := a.log + [Entry(d.generation, ResizeTo(d.size))]) else a;
      MeanwhileFrame(b, turn.committedAt, turn.beforeBitmaps);
    }
  }

  /** At every loop head of every run, whatever disturbs it, a confirmed command is the mode. */
  lemma {:induction false} ModeIsConfirmed(initial: Geometry, turns: seq<Turn>)
    ensures ModeConfirmed(Loop(Open(initial), turns))
  {
    if turns != [] {
      var before, turn := turns[..|turns| - 1], turns[|turns| - 1];
      ModeIsConfirmed(initial, before);
      SizeIsApplied(initial, before);
      var d := Loop(Open(initial), before);
      IssueModeConfirmed(d, turn);
      IssueSettles(d, initial, turn);
      var i := Issue(d, turn);
      MeanwhileFrame(i, turn.confirmedAt, turn.beforeFrame);
      var a := Meanwhile(i, turn.confirmedAt, turn.beforeFrame);
      RealizeModeConfirmed(a, turn);
      RealizeSettles(a, initial, turn);
      DrawModeConfirmed(Realize(a, turn), turn);
    }
  }

  /** The mode that this turn's command left, if one is issued. */
  function Commanded(d: Display, turn: Turn): Option<Geometry> {
    var a := Meanwhile(Do(d, turn.now, Expire), turn.now, turn.afterExpiry);
    var issued := TakeReady(a.resize, turn.now).1;
    if issued.None? then None else if turn.commandOk then issued else Some(turn.leftover)
  }

  /** Since the applied size last changed a command was issued, and the newest one succeeded, or
      failed and left another mode than the applied one. */
  predicate Strayed(initial: Geometry, turns: seq<Turn>) {
    turns != [] &&
    var before, turn := turns[..|turns| - 1], turns[|turns| - 1];
    var d := Loop(Open(initial), before);
    && Iterate(d, turn).resize.applied == d.resize.applied
    && if Commanded(d, turn).None? then Strayed(initial, before)
       else turn.commandOk || turn.leftover != d.resize.applied
  }

  lemma {:induction false} IssueMode(d: Display, turn: Turn)
    requires Consistent(d.resize)
    ensures var i := Issue(d, turn); var g := Commanded(d, turn);
      && i.resize.applied == d.resize.applied && i.mode == (if g.None? then d.mode else g.value)
      && (turn.commandOk ==> g != Some(d.resize.applied))
  {
    var e := Do(d, turn.now, Expire);
    MeanwhileFrame(e, turn.now, turn.afterExpiry);
    var a := Meanwhile(e, turn.now, turn.afterExpiry);
    var issued := TakeReady(a.resize, turn.now).1;
    var b := Do(a, turn.now, Take);
    assert b.resize == TakeReady(a.resize, turn.now).0 && b.resize.applied == d.resize.applied && b.mode == d.mode;
    if issued.Some? {
      MeanwhileFrame(b, turn.now, turn.duringCommand);
    }
  }

  lemma {:induction false} PublishMode(d: Display, g: Geometry, turn: Turn)
    requires Consistent(d.resize) && d.resize.committing == Some(g)
    ensures var p := Publish(d, g, turn);
      p.mode == d.mode && p.resize.applied == if turn.reserved then g else d.resize.applied
  {
    var a := Meanwhile(d, turn.frozenAt, turn.beforeSender);
    MeanwhileFrame(d, turn.frozenAt, turn.beforeSender);
    var b := Meanwhile(a, turn.frozenAt, turn.reserving);
    MeanwhileFrame(a, turn.frozenAt, turn.reserving);
    var c := Meanwhile(b.(size := g), turn.frozenAt, turn.writing);
    MeanwhileFrame(b.(size := g), turn.frozenAt, turn.writing);
    MeanwhileFrame(c.(log := c.log + [Entry(a.generation, ResizeTo(g))]), turn.frozenAt, turn.publishing);
  }

  /** A commit applies the mode that the compositor has. */
  lemma {:induction false} RealizeMode(d: Display, turn: Turn)
    requires Consistent(d.resize) && d.resize.committing.None? && ModeConfirmed(d)
    ensures var r := Realize(d, turn);
      r.mode == d.mode && (r.resize.applied == d.resize.applied || r.resize.applied == d.mode)
  {
    if turn.frame.Some? {
      var f := turn.frame.value;
      var seen := MatchesRealizedFrame(d.resize, AtLeastOne(f.width), AtLeastOne(f.height), turn.seenAt);
      if seen.Some? {
        var a := Meanwhile(d, turn.seenAt, turn.beforeFreeze);
        MeanwhileFrame(d, turn.seenAt, turn.beforeFreeze);
        var b := Do(a, turn.frozenAt, Freeze(seen.value));
        assert b.resize == BeginCommit(a.resize, seen.value, turn.frozenAt) && b.mode == d.mode;
        if Freezes(a.resize, seen.value, turn.frozenAt) {
          PublishMode(b, seen.value, turn);
        }
      }
    }
  }

  lemma {:induction false} DrawMode(d: Display, turn: Turn)
    requires Consistent(d.resize)
    ensures Draw(d, turn).mode == d.mode && Draw(d, turn).resize.applied == d.resize.applied
  {
    if turn.candidate.Some? && SameSize(turn.candidate.value, d.size) {
      var a := if turn.coreReset then Meanwhile(d, turn.committedAt, turn.resetting) else d;
      MeanwhileFrame(d, turn.committedAt, turn.resetting);
      var b := if turn.coreReset && turn.resetSent
               then a.(log := a.log + [Entry(d.generation, ResizeTo(d.size))]) else a;
      MeanwhileFrame(b, turn.committedAt, turn.beforeBitmaps);
    }
  }

  /** One turn, however disturbed: the mode is its command's, if it issued one, and a newly applied
      size is the mode. */
  lemma {:induction false} TurnMode(d: Display, initial: Geometry, turn: Turn)
    requires Settles(d, initial) && ModeConfirmed(d)
    ensures var r := Iterate(d, turn); var g := Commanded(d, turn);
      && r.mode == (if g.None? then d.mode else g.value)
      && (r.resize.applied == d.resize.applied || r.resize.applied == r.mode)
      && (turn.commandOk ==> g != Some(d.resize.applied))
  {
    IssueMode(d, turn);
    IssueModeConfirmed(d, turn);
    IssueSettles(d, initial, turn);
    var i := Issue(d, turn);
    MeanwhileFrame(i, turn.confirmedAt, turn.beforeFrame);
    var a := Meanwhile(i, turn.confirmedAt, turn.beforeFrame);
    RealizeMode(a, turn);
    RealizeSettles(a, initial, turn);
    DrawMode(Realize(a, turn), turn);
  }

  /** At every loop head of every run, disturbed or not, at rest or not, the compositor shows the
      applied size exactly if its mode has not strayed. */
  lemma {:induction false} ModeExactly(initial: Geometry, turns: seq<Turn>)
    ensures var r := Loop(Open(initial), turns); r.mode == r.resize.applied <==> !Strayed(initial, turns)
  {
    if turns != [] {
      var before, turn := turns[..|turns| - 1], turns[|turns| - 1];
      ModeExactly(initial, before);
      SizeIsApplied(initial, before);
      ModeIsConfirmed(initial, before);
      TurnMode(Loop(Open(initial), before), initial, turn);
    }
  }

  /** When an undisturbed turn brings any run of the loop to rest, the compositor shows the applied
      size exactly if another size was still to be applied, or its mode had not been changed:
      a pending request for the applied size is dropped without a command. */
  lemma {:induction false} ModeAtRest(initial: Geometry, turns: seq<Turn>, turn: Turn)
    requires Undisturbed(turn)
    ensures var d := Loop(Open(initial), turns); var r := Iterate(d, turn);
      !Resting(d.resize) && Resting(r.resize) ==>
        (r.mode == r.resize.applied <==> Target(d.resize) != d.resize.applied || d.mode == d.resize.applied)
  {
    SizeIsApplied(initial, turns);
    ModeIsConfirmed(initial, turns);
    QuietTurnMode(Loop(Open(initial), turns), turn);
  }

  lemma {:induction false} QuietTurnMode(d: Display, turn: Turn)
    requires AtHead(d) && ModeConfirmed(d) && Undisturbed(turn)
    ensures var r := Iterate(d, turn);
      !Resting(d.resize) && Resting(r.resize) ==>
        (r.mode == r.resize.applied <==> Target(d.resize) != d.resize.applied || d.mode == d.resize.applied)
  {
    QuietTurn(d, turn);
    var c := IssueQuietly(d.resize, turn);
    var mode := CommandMode(d.resize, d.mode, turn);
    assert c.realizationDeadline.Some? ==> c.inFlight == Some(mode);
    assert Resting(c) && !Resting(d.resize) ==> c.applied == d.resize.applied && mode == d.mode;
  }

  // ---- Runs that end badly --------------------------------------------------------------------------

  /** A turn at which nothing happens. */
  function IdleTurn(at: Instant): Turn {
    Turn(at, [], false, Geometry(0, 0), [], at, [], None, at, [], at, [], [], false, [], [], at, None, false, [],
         false, [], [])
  }

  lemma {:induction false} MeanwhileOne(d: Display, at: Instant, e: External)
    ensures Meanwhile(d, at, []) == d && Meanwhile(d, at, [e]) == Happen(d, at, e)
  {
    assert [e][..0] == [];
  }

  /** One turn in which g is requested and the command for it succeeds. */
  lemma {:induction false} AskedAndConfirmed(initial: Geometry, g: Geometry, turn: Turn)
    requires g != initial && turn.afterExpiry == [Asks(g)] && turn.duringCommand == [] && turn.commandOk
    ensures var i := Issue(Open(initial), turn);
      && i.resize == New(initial).(
           inFlight := Some(g), realizationDeadline := Some(turn.confirmedAt + REALIZATION_TIMEOUT))
      && i.mode == g && i.size == initial && i.generation == 0 && i.starts == [initial] && i.log == []
  {
    var e := Do(Open(initial), turn.now, Expire);
    MeanwhileOne(e, turn.now, Asks(g));
    var a := Meanwhile(e, turn.now, turn.afterExpiry);
    assert a.resize == New(initial).(pending := Some(g));
    var b := Do(a, turn.now, Take);
    assert b.resize == New(initial).(inFlight := Some(g));
    MeanwhileOne(b, turn.now, Asks(g));
  }

  /** The same in one turn of the loop. */
  lemma {:induction false} LoopGetsStuck(initial: Geometry, a: Geometry, b: Geometry, at: Instant)
    requires a != initial && a != b
    ensures var turn := IdleTurn(at).(afterExpiry := [Asks(a)], duringCommand := [Asks(b)], commandOk := true,
                                      beforeFrame := [Asks(a)]);
      Stuck(Loop(Open(initial), [turn]).resize)
  {
    var turn := IdleTurn(at).(afterExpiry := [Asks(a)], duringCommand := [Asks(b)], commandOk := true,
                              beforeFrame := [Asks(a)]);
    var e := Do(Open(initial), at, Expire);
    MeanwhileOne(e, at, Asks(a));
    var taken := Do(Meanwhile(e, at, [Asks(a)]), at, Take);
    assert taken.resize == New(initial).(inFlight := Some(a));
    MeanwhileOne(taken, at, Asks(b));
    var i := Issue(Open(initial), turn);
    assert i.resize == New(initial).(inFlight := Some(a), pending := Some(b));
    MeanwhileOne(i, at, Asks(a));
    assert [turn][..0] == [];
    assert Loop(Open(initial), [turn]) == Iterate(Open(initial), turn);
  }

  /** How the mode comes to differ at rest: g is requested and its command succeeds, the initial
      size is requested before a frame of g arrives, and the next turn drops that request. */
  lemma {:induction false} ModeLeftBehind(initial: Geometry, g: Geometry, at: Instant)
    requires g != initial
    ensures var first := IdleTurn(at).(afterExpiry := [Asks(g)], commandOk := true, beforeFrame := [Asks(initial)]);
      var r := Loop(Open(initial), [first, IdleTurn(at)]);
      Resting(r.resize) && r.resize.applied == initial && r.mode == g
  {
    var first := IdleTurn(at).(afterExpiry := [Asks(g)], commandOk := true, beforeFrame := [Asks(initial)]);
    var turns := [first, IdleTurn(at)];
    assert turns[..1] == [first] && [first][..0] == [];
    AskedAndConfirmed(initial, g, first);
    var i := Issue(Open(initial), first);
    MeanwhileOne(i, at, Asks(initial));
    var d := Iterate(Open(initial), first);
    assert d.resize == i.resize.(pending := Some(initial)) && d.mode == g;
    assert Loop(Open(initial), [first]) == d;
    assert Undisturbed(IdleTurn(at));
    QuietTurn(d, IdleTurn(at));
  }

  // ---- The unsafe window ------------------------------------------------------------------------

  /** A commit outside the safe window followed by a bitmap of the new size shows the reader of
      the new generation a size it was never told. */
  lemma {:induction false} UnsafeSwapMisleads(d: Display, g: Geometry, turn: Turn)
    requires Aligned(d) && g != d.size && turn.reserved && !SwapSafe(turn)
    requires turn.candidate.Some? && SameSize(turn.candidate.value, g)
    requires !turn.coreReset && turn.beforeBitmaps == [] && turn.rectangles == [true]
    ensures !Faithful(Draw(Publish(d, g, turn), turn))
  {
    var p := Publish(d, g, turn);
    CommitAlignedExactly(d, g, turn);
    PublishSize(d, g, turn);
    var e := Entry(p.generation, Bitmap(turn.candidate.value));
    assert turn.rectangles[..0] == [];
    assert Bitmaps(p.generation, turn.candidate.value, turn.rectangles) == [e];
    var r := Draw(p, turn);
    assert r.log == p.log + [e];
    assert r.log[..|p.log|] == p.log;
    assert r.log[|p.log|] == e;
  }

  lemma {:induction false} PublishSize(d: Display, g: Geometry, turn: Turn)
    requires WellLogged(d) && turn.reserved
    ensures Publish(d, g, turn).size == g
  {
    var a := Meanwhile(d, turn.frozenAt, turn.beforeSender);
    MeanwhileAligned(d, turn.frozenAt, turn.beforeSender);
    var b := Meanwhile(a, turn.frozenAt, turn.reserving);
    MeanwhileAligned(a, turn.frozenAt, turn.reserving);
    var c := Meanwhile(b.(size := g), turn.frozenAt, turn.writing);
    MeanwhileAligned(b.(size := g), turn.frozenAt, turn.writing);
    MeanwhileAligned(c.(log := c.log + [Entry(a.generation, ResizeTo(g))]), turn.frozenAt, turn.publishing);
  }

  /** Nor need the request be pending: g is requested and its command succeeds, and the initial size
      is requested in the next turn, before that one looks for something to issue. */
  lemma {:induction false} ModeLeftBehindByRequest(initial: Geometry, g: Geometry, at: Instant)
    requires g != initial
    ensures var first := IdleTurn(at).(afterExpiry := [Asks(g)], commandOk := true);
      var r := Loop(Open(initial), [first, IdleTurn(at).(afterExpiry := [Asks(initial)])]);
      Resting(r.resize) && r.resize.applied == initial && r.mode == g
  {
    var first := IdleTurn(at).(afterExpiry := [Asks(g)], commandOk := true);
    var second := IdleTurn(at).(afterExpiry := [Asks(initial)]);
    var turns := [first, second];
    assert turns[..1] == [first] && [first][..0] == [];
    AskedAndConfirmed(initial, g, first);
    var i := Issue(Open(initial), first);
    MeanwhileOne(i, at, Asks(g));
    var d := Iterate(Open(initial), first);
    assert d == i && Loop(Open(initial), [first]) == d;
    var e := Do(d, at, Expire);
    assert e.resize == d.resize;
    MeanwhileOne(e, at, Asks(initial));
    var j := Issue(d, second);
    assert j.resize == New(initial) && j.mode == g;
    MeanwhileOne(j, at, Asks(g));
    assert Iterate(d, second) == j;
  }

  /** How a run gets there: one turn in which g is requested, confirmed and realized, while the
      update channel is replaced before the size write, and a bitmap follows. */
  lemma {:induction false} UnsafeSwapIsReachable(initial: Geometry, g: Geometry, at: Instant)
    requires g != initial && g.width > 0 && g.height > 0
    ensures var shown := Some(FrameSize(g.width, g.height));
      var turn := IdleTurn(at).(afterExpiry := [Asks(g)], commandOk := true, frame := shown, reserving := [Reactivates],
                                reserved := true, candidate := shown, rectangles := [true]);
      !Faithful(Loop(Open(initial), [turn]))
  {
    var shown := Some(FrameSize(g.width, g.height));
    var turn := IdleTurn(at).(afterExpiry := [Asks(g)], commandOk := true, frame := shown, reserving := [Reactivates],
                              reserved := true, candidate := shown, rectangles := [true]);
    AskedAndConfirmed(initial, g, turn);
    var i := Issue(Open(initial), turn);
    MeanwhileOne(i, at, Reactivates);
    var b := Do(i, at, Freeze(g));
    assert MatchesRealizedFrame(i.resize, g.width, g.height, at) == Some(g);
    assert Realize(i, turn) == Publish(b, g, turn);
    UnsafeSwapMisleads(b, g, turn);
    assert [turn][..0] == [];
    assert Loop(Open(initial), [turn]) == Iterate(Open(initial), turn);
  }
}
