/** What holds at the head of the pipeline loop over every run: what the client was told,
    what it is shown, and where a resize that nobody disturbs any more ends up. */
module DisplayRuns {
  import opened Common
  import opened ResizeModel
  import opened ResizeRuns
  import opened DisplayModel

  // ---- The loop only makes calls that the coordinator theorems cover ---------------------------

  /** The coordinator is what the recorded calls made of it, and their clock never ran backwards. */
  ghost predicate Traced(d: Display, size: Geometry, now: Instant) {
    d.resize == Run(size, d.calls) && Clocked(d.calls) && Clock(d.calls) <= now
  }

  lemma {:induction false} RunAppend(size: Geometry, calls: seq<Call>, call: Call)
    ensures Run(size, calls + [call]) == Step(Run(size, calls), call)
  {
    RunExtends(size, calls + [call], |calls|);
    assert (calls + [call])[..|calls|] == calls;
    assert (calls + [call])[..|calls| + 1] == calls + [call];
  }

  lemma {:induction false} DoTraced(d: Display, size: Geometry, at: Instant, op: Op)
    requires Traced(d, size, at)
    ensures Traced(Do(d, at, op), size, at)
  {
    RunAppend(size, d.calls, Call(at, op));
    assert Do(d, at, op).calls == d.calls + [Call(at, op)];
    assert Do(d, at, op).resize == Step(d.resize, Call(at, op));
  }

  lemma {:induction false} MeanwhileTraced(d: Display, size: Geometry, at: Instant, events: seq<External>)
    requires Traced(d, size, at)
    ensures Traced(Meanwhile(d, at, events), size, at)
  {
    if events != [] {
      var before, last := events[..|events| - 1], events[|events| - 1];
      MeanwhileTraced(d, size, at, before);
      if last.Asks? {
        DoTraced(Meanwhile(d, at, before), size, at, AskFor(last.g));
      }
    }
  }

  lemma {:induction false} IssueTraced(d: Display, size: Geometry, turn: Turn)
    requires Traced(d, size, turn.now) && Ordered(turn)
    ensures Traced(Issue(d, turn), size, turn.confirmedAt)
  {
    DoTraced(d, size, turn.now, Expire);
    var a := Meanwhile(Do(d, turn.now, Expire), turn.now, turn.afterExpiry);
    MeanwhileTraced(Do(d, turn.now, Expire), size, turn.now, turn.afterExpiry);
    DoTraced(a, size, turn.now, Take);
    var b := Do(a, turn.now, Take);
    var issued := TakeReady(a.resize, turn.now).1;
    if issued.Some? {
      MeanwhileTraced(b, size, turn.now, turn.duringCommand);
      var c := Meanwhile(b, turn.now, turn.duringCommand);
      DoTraced(c.(mode := issued.value), size, turn.confirmedAt, Confirm(issued.value));
      DoTraced(c.(mode := turn.leftover), size, turn.confirmedAt, Fail(issued.value));
    }
  }

  lemma {:induction false} PublishTraced(d: Display, size: Geometry, g: Geometry, turn: Turn)
    requires Traced(d, size, turn.frozenAt) && Ordered(turn)
    ensures Traced(Publish(d, g, turn), size, turn.committedAt)
  {
    var a := Meanwhile(d, turn.frozenAt, turn.beforeSender);
    MeanwhileTraced(d, size, turn.frozenAt, turn.beforeSender);
    var b := Meanwhile(a, turn.frozenAt, turn.reserving);
    MeanwhileTraced(a, size, turn.frozenAt, turn.reserving);
    if turn.reserved {
      var c := Meanwhile(b.(size := g), turn.frozenAt, turn.writing);
      MeanwhileTraced(b.(size := g), size, turn.frozenAt, turn.writing);
      var e := c.(log := c.log + [Entry(a.generation, ResizeTo(g))]);
      MeanwhileTraced(e, size, turn.frozenAt, turn.publishing);
      DoTraced(Meanwhile(e, turn.frozenAt, turn.publishing), size, turn.committedAt, Commit(g));
    } else {
      DoTraced(b, size, turn.committedAt, Abort(g));
    }
  }

  lemma {:induction false} RealizeTraced(d: Display, size: Geometry, turn: Turn)
    requires Traced(d, size, turn.seenAt) && Ordered(turn)
    ensures Traced(Realize(d, turn), size, turn.committedAt)
  {
    if turn.frame.Some? {
      var f := turn.frame.value;
      var seen := MatchesRealizedFrame(d.resize, AtLeastOne(f.width), AtLeastOne(f.height), turn.seenAt);
      if seen.Some? {
        MeanwhileTraced(d, size, turn.seenAt, turn.beforeFreeze);
        var a := Meanwhile(d, turn.seenAt, turn.beforeFreeze);
        DoTraced(a, size, turn.frozenAt, Freeze(seen.value));
        PublishTraced(Do(a, turn.frozenAt, Freeze(seen.value)), size, seen.value, turn);
      }
    }
  }

  lemma {:induction false} DrawTraced(d: Display, size: Geometry, turn: Turn)
    requires Traced(d, size, turn.committedAt)
    ensures Traced(Draw(d, turn), size, turn.committedAt)
  {
    if turn.candidate.Some? && SameSize(turn.candidate.value, d.size) {
      var a := if turn.coreReset then Meanwhile(d, turn.committedAt, turn.resetting) else d;
      MeanwhileTraced(d, size, turn.committedAt, turn.resetting);
      var b := if turn.coreReset && turn.resetSent
               then a.(log := a.log + [Entry(d.generation, ResizeTo(d.size))]) else a;
      MeanwhileTraced(b, size, turn.committedAt, turn.beforeBitmaps);
    }
  }

  /** Every run of the loop is one of the coordinator runs, so everything proved of those
      (the register, the guard, the spacing, the origin of an applied geometry) holds of it. */
  lemma {:induction false} LoopIsCoordinatorRun(size: Geometry, turns: seq<Turn>)
    requires OrderedRun(turns)
    ensures var d := Loop(Open(size), turns);
      Traced(d, size, if turns == [] then 0 else turns[|turns| - 1].committedAt)
  {
    if turns != [] {
      var before, turn := turns[..|turns| - 1], turns[|turns| - 1];
      LoopIsCoordinatorRun(size, before);
      var d := Loop(Open(size), before);
      IssueTraced(d, size, turn);
      var a := Meanwhile(Issue(d, turn), turn.confirmedAt, turn.beforeFrame);
      MeanwhileTraced(Issue(d, turn), size, turn.confirmedAt, turn.beforeFrame);
      RealizeTraced(a, size, turn);
      DrawTraced(Realize(a, turn), size, turn);
    }
  }

  // ---- The committed size ---------------------------------------------------------------------

  /** The newest Resize ever accepted by an update channel. */
  function LastResize(size: Geometry, log: seq<Entry>): Geometry {
    if log == [] then size
    else match log[|log| - 1].update
         case ResizeTo(g) => g
         case Bitmap(_) => LastResize(size, log[..|log| - 1])
  }

  /** What the loop keeps at its head: the desktop size is the applied geometry and the newest
      Resize that was queued; no commit is left half done. */
  predicate Settles(d: Display, initial: Geometry) {
    && Consistent(d.resize)
    && d.resize.committing.None?
    && d.size == d.resize.applied == LastResize(initial, d.log)
  }

  /** Others never touch the size, the log, the mode or anything but the pending request. */
  lemma {:induction false} MeanwhileFrame(d: Display, at: Instant, events: seq<External>)
    requires Consistent(d.resize)
    ensures var m := Meanwhile(d, at, events);
      && m.size == d.size && m.mode == d.mode && m.log == d.log
      && m.resize == d.resize.(pending := m.resize.pending) && Consistent(m.resize)
      && ((forall k :: 0 <= k < |events| ==> events[k].Reactivates?) ==> m.resize == d.resize)
      && (d.resize.inFlight.Some? && d.resize.pending.None?
          && (forall k :: 0 <= k < |events| ==> events[k].Asks? ==> Some(events[k].g) == d.resize.inFlight)
          ==> m.resize == d.resize)
  {
    if events != [] {
      MeanwhileFrame(d, at, events[..|events| - 1]);
    }
  }

  lemma {:induction false} BitmapsKeepResize(size: Geometry, log: seq<Entry>, n: nat, f: FrameSize, rs: seq<bool>)
    ensures LastResize(size, log + Bitmaps(n, f, rs)) == LastResize(size, log)
  {
    if rs == [] {
      assert log + Bitmaps(n, f, rs) == log;
    } else {
      var before := Bitmaps(n, f, rs[..|rs| - 1]);
      BitmapsKeepResize(size, log, n, f, rs[..|rs| - 1]);
      if rs[|rs| - 1] {
        var longer := log + (before + [Entry(n, Bitmap(f))]);
        assert longer[..|longer| - 1] == log + before;
      }
    }
  }

  lemma {:induction false} ResizeIsLast(size: Geometry, log: seq<Entry>, n: nat, g: Geometry)
    ensures LastResize(size, log + [Entry(n, ResizeTo(g))]) == g
  {}

  lemma {:induction false} DoSettles(d: Display, initial: Geometry, at: Instant, op: Op)
    requires Settles(d, initial) && (op.Expire? || op.Take? || op.Confirm? || op.Fail?)
    ensures Settles(Do(d, at, op), initial) && Do(d, at, op).resize.applied == d.resize.applied
  {}

  lemma {:induction false} IssueSettles(d: Display, initial: Geometry, turn: Turn)
    requires Settles(d, initial)
    ensures Settles(Issue(d, turn), initial)
    ensures Issue(d, turn).resize.applied == d.resize.applied && Issue(d, turn).log == d.log
  {
    var e := Do(d, turn.now, Expire);
    DoSettles(d, initial, turn.now, Expire);
    var a := Meanwhile(e, turn.now, turn.afterExpiry);
    MeanwhileFrame(e, turn.now, turn.afterExpiry);
    var issued := TakeReady(a.resize, turn.now).1;
    var b := Do(a, turn.now, Take);
    DoSettles(a, initial, turn.now, Take);
    if issued.Some? {
      var c := Meanwhile(b, turn.now, turn.duringCommand);
      MeanwhileFrame(b, turn.now, turn.duringCommand);
      DoSettles(c.(mode := issued.value), initial, turn.confirmedAt, Confirm(issued.value));
      DoSettles(c.(mode := turn.leftover), initial, turn.confirmedAt, Fail(issued.value));
    }
  }

  lemma {:induction false} PublishSettles(d: Display, initial: Geometry, g: Geometry, turn: Turn)
    requires Consistent(d.resize) && d.resize.committing == Some(g)
    requires d.size == d.resize.applied == LastResize(initial, d.log)
    ensures Settles(Publish(d, g, turn), initial)
    ensures var p := Publish(d, g, turn);
      if turn.reserved
      then p.resize.applied == g && exists n :: p.log == d.log + [Entry(n, ResizeTo(g))]
      else p.resize.applied == d.resize.applied && p.log == d.log
  {
    var a := Meanwhile(d, turn.frozenAt, turn.beforeSender);
    MeanwhileFrame(d, turn.frozenAt, turn.beforeSender);
    var b := Meanwhile(a, turn.frozenAt, turn.reserving);
    MeanwhileFrame(a, turn.frozenAt, turn.reserving);
    var c := Meanwhile(b.(size := g), turn.frozenAt, turn.writing);
    MeanwhileFrame(b.(size := g), turn.frozenAt, turn.writing);
    var e := c.(log := c.log + [Entry(a.generation, ResizeTo(g))]);
    MeanwhileFrame(e, turn.frozenAt, turn.publishing);
    ResizeIsLast(initial, d.log, a.generation, g);
  }

  lemma {:induction false} RealizeSettles(d: Display, initial: Geometry, turn: Turn)
    requires Settles(d, initial)
    ensures var r := Realize(d, turn);
      && Settles(r, initial)
      && (r.resize.applied == d.resize.applied ==> r.log == d.log)
      && (r.resize.applied != d.resize.applied ==>
            && Realized(turn, r.resize.applied) && turn.reserved
            && exists n :: r.log == d.log + [Entry(n, ResizeTo(r.resize.applied))])
  {
    if turn.frame.Some? {
      var f := turn.frame.value;
      var seen := MatchesRealizedFrame(d.resize, AtLeastOne(f.width), AtLeastOne(f.height), turn.seenAt);
      if seen.Some? {
        MeanwhileFrame(d, turn.seenAt, turn.beforeFreeze);
        var a := Meanwhile(d, turn.seenAt, turn.beforeFreeze);
        if Freezes(a.resize, seen.value, turn.frozenAt) {
          PublishSettles(Do(a, turn.frozenAt, Freeze(seen.value)), initial, seen.value, turn);
        }
      }
    }
  }

  lemma {:induction false} DrawSettles(d: Display, initial: Geometry, turn: Turn)
    requires Settles(d, initial)
    ensures Settles(Draw(d, turn), initial) && Draw(d, turn).resize.applied == d.resize.applied
  {
    if turn.candidate.Some? && SameSize(turn.candidate.value, d.size) {
      var a := if turn.coreReset then Meanwhile(d, turn.committedAt, turn.resetting) else d;
      MeanwhileFrame(d, turn.committedAt, turn.resetting);
      var b := if turn.coreReset && turn.resetSent
               then a.(log := a.log + [Entry(d.generation, ResizeTo(d.size))]) else a;
      ResizeIsLast(initial, a.log, d.generation, d.size);
      MeanwhileFrame(b, turn.committedAt, turn.beforeBitmaps);
      var c := Meanwhile(b, turn.committedAt, turn.beforeBitmaps);
      BitmapsKeepResize(initial, c.log, c.generation, turn.candidate.value, turn.rectangles);
    }
  }

  /** The frame of the turn has exactly the size g. */
  predicate Realized(turn: Turn, g: Geometry) {
    && turn.frame.Some?
    && AtLeastOne(turn.frame.value.width) == g.width
    && AtLeastOne(turn.frame.value.height) == g.height
  }

  /** At every loop head the desktop size is the applied geometry and the newest Resize queued:
      whatever the turns bring, no Resize is ever dropped. */
  lemma {:induction false} SizeIsApplied(initial: Geometry, turns: seq<Turn>)
    ensures Settles(Loop(Open(initial), turns), initial)
  {
    if turns != [] {
      SizeIsApplied(initial, turns[..|turns| - 1]);
      TurnSettles(Loop(Open(initial), turns[..|turns| - 1]), initial, turns[|turns| - 1]);
    }
  }

  /** A turn changes the applied geometry only to that of the frame it captured, and then it
      has queued the Resize that says so. */
  lemma {:induction false} TurnSettles(d: Display, initial: Geometry, turn: Turn)
    requires Settles(d, initial)
    ensures var r := Iterate(d, turn);
      && Settles(r, initial)
      && (r.resize.applied != d.resize.applied ==> Realized(turn, r.resize.applied) && turn.reserved)
  {
    IssueSettles(d, initial, turn);
    var a := Meanwhile(Issue(d, turn), turn.confirmedAt, turn.beforeFrame);
    MeanwhileFrame(Issue(d, turn), turn.confirmedAt, turn.beforeFrame);
    RealizeSettles(a, initial, turn);
    DrawSettles(Realize(a, turn), initial, turn);
  }

  // ---- Bitmaps fit what their generation was told ------------------------------------------------

  /** The geometry the reader of generation n knows: its newest Resize, or the size the
      generation was opened with. */
  function Announced(start: Geometry, log: seq<Entry>, n: nat): Geometry {
    if log == [] then start
    else
      var last := log[|log| - 1];
      if last.generation == n && last.update.ResizeTo? then last.update.g
      else Announced(start, log[..|log| - 1], n)
  }

  ghost predicate WellLogged(d: Display) {
    && |d.starts| == d.generation + 1
    && forall k :: 0 <= k < |d.log| ==> d.log[k].generation <= d.generation
  }

  /** The current reader knows the desktop size. */
  ghost predicate Aligned(d: Display) {
    WellLogged(d) && Announced(d.starts[d.generation], d.log, d.generation) == d.size
  }

  /** Every bitmap ever queued had the size its reader knew at that point. */
  ghost predicate Faithful(d: Display) {
    WellLogged(d) && forall k {:trigger d.log[k]} :: 0 <= k < |d.log| && d.log[k].update.Bitmap? ==>
      SameSize(d.log[k].update.size, Announced(d.starts[d.log[k].generation], d.log[..k], d.log[k].generation))
  }

  predicate Swaps(events: seq<External>) { Reactivates in events }

  /** The channel is not replaced between the cloning of its sender and the size write of a
      commit, or it is replaced once more before the commit is over. */
  predicate SwapSafe(turn: Turn) {
    Swaps(turn.reserving) ==> Swaps(turn.writing) || Swaps(turn.publishing)
  }

  lemma {:induction false} NewGenerationSilent(start: Geometry, log: seq<Entry>, n: nat)
    requires forall k :: 0 <= k < |log| ==> log[k].generation < n
    ensures Announced(start, log, n) == start
  {
    if log != [] {
      NewGenerationSilent(start, log[..|log| - 1], n);
    }
  }

  lemma {:induction false} MeanwhileAligned(d: Display, at: Instant, events: seq<External>)
    requires WellLogged(d)
    ensures var m := Meanwhile(d, at, events);
      && WellLogged(m) && d.starts <= m.starts && m.size == d.size && m.log == d.log
      && (Swaps(events) <==> m.generation > d.generation)
      && (Swaps(events) ==> Aligned(m) && Announced(m.starts[m.generation], m.log, m.generation) == d.size)
      && (!Swaps(events) ==> m.starts == d.starts && (Aligned(m) <==> Aligned(d)))
  {
    if events != [] {
      var before, last := events[..|events| - 1], events[|events| - 1];
      assert events == before + [last];
      MeanwhileAligned(d, at, before);
      var b := Meanwhile(d, at, before);
      if last.Reactivates? {
        NewGenerationSilent(b.size, b.log, b.generation + 1);
      }
    }
  }

  lemma {:induction false} MeanwhileFaithful(d: Display, at: Instant, events: seq<External>)
    requires Faithful(d)
    ensures Faithful(Meanwhile(d, at, events))
  {
    MeanwhileAligned(d, at, events);
  }

  lemma {:induction false} AppendFaithful(d: Display, e: Entry)
    requires Faithful(d) && e.generation <= d.generation
    requires e.update.Bitmap? ==>
      SameSize(e.update.size, Announced(d.starts[e.generation], d.log, e.generation))
    ensures Faithful(d.(log := d.log + [e]))
  {
    var log := d.log + [e];
    forall k | 0 <= k < |log| ensures log[..k] == d.log[..k] {}
  }

  /** A Resize to the desktop size, queued on channel n, informs the current reader exactly if that
      channel is the current one; any other reader knows what it knew. */
  lemma {:induction false} ResizeQueued(d: Display, n: nat)
    requires WellLogged(d) && n <= d.generation
    ensures var e := d.(log := d.log + [Entry(n, ResizeTo(d.size))]);
      WellLogged(e) && (Aligned(e) <==> n == d.generation || Aligned(d))
  {
    var log := d.log + [Entry(n, ResizeTo(d.size))];
    assert log[..|log| - 1] == d.log;
  }

  /** From the cloning of the sender to the sending of the Resize: the current reader knows the
      new size exactly if it came after the size write. */
  lemma {:induction false} SizeWritten(a: Display, g: Geometry, turn: Turn)
    requires Aligned(a) && g != a.size
    ensures var b := Meanwhile(a, turn.frozenAt, turn.reserving);
      var c := Meanwhile(b.(size := g), turn.frozenAt, turn.writing);
      && WellLogged(c) && c.size == g && a.generation <= c.generation
      && (a.generation == c.generation <==> !Swaps(turn.reserving) && !Swaps(turn.writing))
      && (Aligned(c) <==> Swaps(turn.writing))
  {
    MeanwhileAligned(a, turn.frozenAt, turn.reserving);
    var b := Meanwhile(a, turn.frozenAt, turn.reserving);
    assert Announced(b.starts[b.generation], b.log, b.generation) == a.size;
    MeanwhileAligned(b.(size := g), turn.frozenAt, turn.writing);
  }

  /** The exact window: a commit leaves the current reader knowing the desktop size if and only
      if the channel was not replaced between the cloning of its sender and the size write, or
      was replaced again before the commit was over. */
  lemma {:induction false} CommitAlignedExactly(d: Display, g: Geometry, turn: Turn)
    requires Aligned(d) && turn.reserved && g != d.size
    ensures Aligned(Publish(d, g, turn)) <==> SwapSafe(turn)
    ensures WellLogged(Publish(d, g, turn))
  {
    var a := Meanwhile(d, turn.frozenAt, turn.beforeSender);
    MeanwhileAligned(d, turn.frozenAt, turn.beforeSender);
    SizeWritten(a, g, turn);
    var b := Meanwhile(a, turn.frozenAt, turn.reserving);
    var c := Meanwhile(b.(size := g), turn.frozenAt, turn.writing);
    ResizeQueued(c, a.generation);
    PublishedAligned(c.(log := c.log + [Entry(a.generation, ResizeTo(g))]), g, turn);
  }

  lemma {:induction false} PublishedAligned(e: Display, g: Geometry, turn: Turn)
    requires WellLogged(e)
    ensures var f := Do(Meanwhile(e, turn.frozenAt, turn.publishing), turn.committedAt, Commit(g));
      WellLogged(f) && (Aligned(f) <==> Aligned(e) || Swaps(turn.publishing))
  {
    MeanwhileAligned(e, turn.frozenAt, turn.publishing);
    DoNeutral(Meanwhile(e, turn.frozenAt, turn.publishing), turn.committedAt, Commit(g));
  }

  lemma {:induction false} PublishFaithful(d: Display, g: Geometry, turn: Turn)
    requires Faithful(d)
    ensures Faithful(Publish(d, g, turn))
  {
    var a := Meanwhile(d, turn.frozenAt, turn.beforeSender);
    MeanwhileFaithful(d, turn.frozenAt, turn.beforeSender);
    var b := Meanwhile(a, turn.frozenAt, turn.reserving);
    MeanwhileFaithful(a, turn.frozenAt, turn.reserving);
    MeanwhileAligned(a, turn.frozenAt, turn.reserving);
    var c := Meanwhile(b.(size := g), turn.frozenAt, turn.writing);
    assert Faithful(b.(size := g));
    MeanwhileFaithful(b.(size := g), turn.frozenAt, turn.writing);
    MeanwhileAligned(b.(size := g), turn.frozenAt, turn.writing);
    AppendFaithful(c, Entry(a.generation, ResizeTo(g)));
    MeanwhileFaithful(c.(log := c.log + [Entry(a.generation, ResizeTo(g))]), turn.frozenAt, turn.publishing);
  }

  lemma {:induction false} BitmapsFaithful(d: Display, f: FrameSize, rs: seq<bool>)
    requires Faithful(d) && Aligned(d) && SameSize(f, d.size)
    ensures var r := d.(log := d.log + Bitmaps(d.generation, f, rs)); Faithful(r) && Aligned(r)
  {
    if rs == [] {
      assert d.log + Bitmaps(d.generation, f, rs) == d.log;
    } else {
      var before := rs[..|rs| - 1];
      BitmapsFaithful(d, f, before);
      var b := d.(log := d.log + Bitmaps(d.generation, f, before));
      var e := Entry(d.generation, Bitmap(f));
      if rs[|rs| - 1] {
        AppendFaithful(b, e);
        assert (b.log + [e])[..|b.log|] == b.log;
        assert b.log + [e] == d.log + Bitmaps(d.generation, f, rs);
      }
    }
  }

  lemma {:induction false} MeanwhileTold(d: Display, at: Instant, events: seq<External>)
    requires Faithful(d) && Aligned(d)
    ensures var m := Meanwhile(d, at, events);
      Faithful(m) && Aligned(m) && m.size == d.size && d.generation <= m.generation
  {
    MeanwhileAligned(d, at, events);
    MeanwhileFaithful(d, at, events);
  }

  lemma {:induction false} ResetTold(d: Display, n: nat)
    requires Faithful(d) && Aligned(d) && n <= d.generation
    ensures var e := d.(log := d.log + [Entry(n, ResizeTo(d.size))]); Faithful(e) && Aligned(e) && e.size == d.size
  {
    AppendFaithful(d, Entry(n, ResizeTo(d.size)));
    ResizeQueued(d, n);
  }

  lemma {:induction false} DrawFaithful(d: Display, turn: Turn)
    requires Faithful(d) && Aligned(d)
    ensures Faithful(Draw(d, turn)) && Aligned(Draw(d, turn))
  {
    if turn.candidate.Some? && SameSize(turn.candidate.value, d.size) {
      var a := if turn.coreReset then Meanwhile(d, turn.committedAt, turn.resetting) else d;
      MeanwhileTold(d, turn.committedAt, turn.resetting);
      ResetTold(a, d.generation);
      var b := if turn.coreReset && turn.resetSent
               then a.(log := a.log + [Entry(d.generation, ResizeTo(d.size))]) else a;
      MeanwhileTold(b, turn.committedAt, turn.beforeBitmaps);
      BitmapsFaithful(Meanwhile(b, turn.committedAt, turn.beforeBitmaps), turn.candidate.value, turn.rectangles);
    }
  }

  lemma {:induction false} DoNeutral(d: Display, at: Instant, op: Op)
    ensures Faithful(d) <==> Faithful(Do(d, at, op))
    ensures Aligned(d) <==> Aligned(Do(d, at, op))
  {}

  lemma {:induction false} IssueFaithful(d: Display, turn: Turn)
    requires Faithful(d) && Aligned(d)
    ensures Faithful(Issue(d, turn)) && Aligned(Issue(d, turn))
  {
    var a := Do(d, turn.now, Expire);
    DoNeutral(d, turn.now, Expire);
    MeanwhileAligned(a, turn.now, turn.afterExpiry);
    MeanwhileFaithful(a, turn.now, turn.afterExpiry);
    var b := Meanwhile(a, turn.now, turn.afterExpiry);
    DoNeutral(b, turn.now, Take);
    MeanwhileAligned(Do(b, turn.now, Take), turn.now, turn.duringCommand);
    MeanwhileFaithful(Do(b, turn.now, Take), turn.now, turn.duringCommand);
  }

  lemma {:induction false} RealizeFaithful(d: Display, turn: Turn)
    requires Consistent(d.resize) && d.size == d.resize.applied
    requires Faithful(d) && Aligned(d) && SwapSafe(turn)
    ensures Faithful(Realize(d, turn)) && Aligned(Realize(d, turn))
  {
    if turn.frame.Some? {
      var f := turn.frame.value;
      var seen := MatchesRealizedFrame(d.resize, AtLeastOne(f.width), AtLeastOne(f.height), turn.seenAt);
      if seen.Some? {
        var a := Meanwhile(d, turn.seenAt, turn.beforeFreeze);
        MeanwhileFrame(d, turn.seenAt, turn.beforeFreeze);
        MeanwhileAligned(d, turn.seenAt, turn.beforeFreeze);
        MeanwhileFaithful(d, turn.seenAt, turn.beforeFreeze);
        var b := Do(a, turn.frozenAt, Freeze(seen.value));
        DoNeutral(a, turn.frozenAt, Freeze(seen.value));
        PublishFaithful(b, seen.value, turn);
        if turn.reserved {
          CommitAlignedExactly(b, seen.value, turn);
        } else {
          MeanwhileAligned(b, turn.frozenAt, turn.beforeSender);
          MeanwhileAligned(Meanwhile(b, turn.frozenAt, turn.beforeSender), turn.frozenAt, turn.reserving);
        }
      }
    }
  }

  /** Over every run whose commits keep to the safe window, each bitmap queued in a generation
      has the geometry of that generation's latest preceding Resize, or of its opening size. */
  lemma {:induction false} BitmapsMatchAnnouncedSize(initial: Geometry, turns: seq<Turn>)
    requires forall k :: 0 <= k < |turns| ==> SwapSafe(turns[k])
    ensures Faithful(Loop(Open(initial), turns)) && Aligned(Loop(Open(initial), turns))
  {
    if turns != [] {
      var before, turn := turns[..|turns| - 1], turns[|turns| - 1];
      BitmapsMatchAnnouncedSize(initial, before);
      SizeIsApplied(initial, before);
      var d := Loop(Open(initial), before);
      IssueFaithful(d, turn);
      IssueSettles(d, initial, turn);
      var i := Issue(d, turn);
      var a := Meanwhile(i, turn.confirmedAt, turn.beforeFrame);
      MeanwhileFrame(i, turn.confirmedAt, turn.beforeFrame);
      MeanwhileAligned(i, turn.confirmedAt, turn.beforeFrame);
      MeanwhileFaithful(i, turn.confirmedAt, turn.beforeFrame);
      RealizeFaithful(a, turn);
      DrawFaithful(Realize(a, turn), turn);
    }
  }

  // ---- What is queued for a frame ------------------------------------------------------------------

  function Rooms(rectangles: seq<bool>): nat {
    if rectangles == [] then 0
    else Rooms(rectangles[..|rectangles| - 1]) + (if rectangles[|rectangles| - 1] then 1 else 0)
  }

  lemma {:induction false} EveryRoomIsUsed(n: nat, f: FrameSize, rectangles: seq<bool>)
    ensures |Bitmaps(n, f, rectangles)| == Rooms(rectangles)
    ensures forall k :: 0 <= k < |Bitmaps(n, f, rectangles)| ==> Bitmaps(n, f, rectangles)[k] == Entry(n, Bitmap(f))
  {
    if rectangles != [] {
      EveryRoomIsUsed(n, f, rectangles[..|rectangles| - 1]);
    }
  }

  lemma {:induction false} MeanwhileLog(d: Display, at: Instant, events: seq<External>)
    ensures Meanwhile(d, at, events).log == d.log
  {
    if events != [] {
      MeanwhileLog(d, at, events[..|events| - 1]);
    }
  }

  /** A frame of another size than the desktop queues nothing. One of that size queues first the
      Resize that a reset of the core channel asks for, if that could be sent, on the channel
      of that time, and then a bitmap on the current channel for every rectangle with room. */
  lemma {:induction false} DrawQueues(d: Display, turn: Turn)
    ensures var r := Draw(d, turn);
      if turn.candidate.None? || turn.candidate.value.width != d.size.width
         || turn.candidate.value.height != d.size.height
      then r == d
      else
        var reset := if turn.coreReset && turn.resetSent then [Entry(d.generation, ResizeTo(d.size))] else [];
        && |r.log| == |d.log| + |reset| + Rooms(turn.rectangles) && d.log + reset <= r.log
        && forall k :: |d.log| + |reset| <= k < |r.log| ==>
             r.log[k] == Entry(r.generation, Bitmap(turn.candidate.value))
  {
    if turn.candidate.Some? && SameSize(turn.candidate.value, d.size) {
      var a := if turn.coreReset then Meanwhile(d, turn.committedAt, turn.resetting) else d;
      MeanwhileLog(d, turn.committedAt, turn.resetting);
      var b := if turn.coreReset && turn.resetSent
               then a.(log := a.log + [Entry(d.generation, ResizeTo(d.size))]) else a;
      MeanwhileLog(b, turn.committedAt, turn.beforeBitmaps);
      var c := Meanwhile(b, turn.committedAt, turn.beforeBitmaps);
      EveryRoomIsUsed(c.generation, turn.candidate.value, turn.rectangles);
    }
  }

  // ---- When a commit is attempted ----------------------------------------------------------------------

  lemma {:induction false} MeanwhileCalls(d: Display, at: Instant, events: seq<External>)
    ensures |Meanwhile(d, at, events).calls| >= |d.calls|
  {
    if events != [] {
      MeanwhileCalls(d, at, events[..|events| - 1]);
    }
  }

  lemma {:induction false} PublishCalls(d: Display, g: Geometry, turn: Turn)
    ensures |Publish(d, g, turn).calls| > |d.calls|
  {
    var a := Meanwhile(d, turn.frozenAt, turn.beforeSender);
    MeanwhileCalls(d, turn.frozenAt, turn.beforeSender);
    var b := Meanwhile(a, turn.frozenAt, turn.reserving);
    MeanwhileCalls(a, turn.frozenAt, turn.reserving);
    if turn.reserved {
      var c := Meanwhile(b.(size := g), turn.frozenAt, turn.writing);
      MeanwhileCalls(b.(size := g), turn.frozenAt, turn.writing);
      MeanwhileCalls(c.(log := c.log + [Entry(a.generation, ResizeTo(g))]), turn.frozenAt, turn.publishing);
    }
  }

  /** A captured frame makes the loop try a commit exactly if a request is in flight with nothing newer
      waiting, its command was confirmed and its deadline has not passed, and the frame is as
      large as it asks, where a frame without an extent counts as one pixel. */
  lemma {:induction false} TriesExactly(d: Display, turn: Turn)
    ensures var c := d.resize;
      if && turn.frame.Some? && c.inFlight.Some? && c.pending.None?
         && c.realizationDeadline.Some? && turn.seenAt <= c.realizationDeadline.value
         && (var f, g := turn.frame.value, c.inFlight.value;
             && (f.width == g.width || (f.width == 0 && g.width == 1))
             && (f.height == g.height || (f.height == 0 && g.height == 1))
             && (f.width == 0 ==> g.width == 1) && (f.height == 0 ==> g.height == 1))
      then |Realize(d, turn).calls| > |d.calls|
      else Realize(d, turn) == d
  {
    if turn.frame.Some? {
      var f := turn.frame.value;
      var seen := MatchesRealizedFrame(d.resize, AtLeastOne(f.width), AtLeastOne(f.height), turn.seenAt);
      if seen.Some? {
        MeanwhileCalls(d, turn.seenAt, turn.beforeFreeze);
        PublishCalls(Do(Meanwhile(d, turn.seenAt, turn.beforeFreeze), turn.frozenAt, Freeze(seen.value)),
                     seen.value, turn);
      }
    }
  }
}
