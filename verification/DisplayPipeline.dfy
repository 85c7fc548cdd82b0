/** One turn of the display pipeline loop (src/rdp/server/display_handler.rs, lines 1528-3007):
    expire, issue, wait for the realized frame, commit, gate and publish. Client requests and
    channel reactivations may happen wherever the loop awaits or releases a lock; they are
    listed, place by place, in the description of the turn. */
module DisplayModel {
  import opened Common
  import opened ResizeModel
  import opened ResizeRuns

  /** Size of a captured frame. */
  datatype FrameSize = FrameSize(width: u32, height: u32)

  datatype Update = ResizeTo(g: Geometry) | Bitmap(size: FrameSize)

  /** An update accepted by the update channel of one display generation. */
  datatype Entry = Entry(generation: nat, update: Update)

  datatype Display = Display(
    resize: Coordinator,
    size: Geometry,          // desktop size used for gating and encoding
    mode: Geometry,          // output mode of the managed compositor
    generation: nat,         // current update channel
    starts: seq<Geometry>,   // desktop size when each update channel was opened
    log: seq<Entry>,         // everything the update channels accepted
    calls: seq<Call>)        // everything asked of the coordinator

  function Open(size: Geometry): Display {
    Display(New(size), size, size, 0, [size], [], [])
  }

  function Do(d: Display, at: Instant, op: Op): Display {
    d.(resize := Step(d.resize, Call(at, op)), calls := d.calls + [Call(at, op)])
  }

  /** What other tasks do: `request_layout` and `updates`. */
  datatype External = Asks(g: Geometry) | Reactivates

  function Happen(d: Display, at: Instant, e: External): Display {
    match e
    case Asks(g) => Do(d, at, AskFor(g))
    case Reactivates => d.(generation := d.generation + 1, starts := d.starts + [d.size])
  }

  function Meanwhile(d: Display, at: Instant, events: seq<External>): Display {
    if events == [] then d else Happen(Meanwhile(d, at, events[..|events| - 1]), at, events[|events| - 1])
  }

  /** Everything the environment contributes to one turn, in program order. */
  datatype Turn = Turn(
    now: Instant,
    afterExpiry: seq<External>,
    commandOk: bool,                 // result of the mode command, if one is issued
    leftover: Geometry,              // compositor mode left behind by a failed command
    duringCommand: seq<External>,
    confirmedAt: Instant,
    beforeFrame: seq<External>,
    frame: Option<FrameSize>,        // newest captured frame
    seenAt: Instant,
    beforeFreeze: seq<External>,
    frozenAt: Instant,
    beforeSender: seq<External>,     // until the update sender is cloned
    reserving: seq<External>,        // from there until the new size is written
    reserved: bool,                  // whether the channel granted a slot
    writing: seq<External>,          // from the size write until the Resize is sent
    publishing: seq<External>,       // from there until the coordinator is told
    committedAt: Instant,
    candidate: Option<FrameSize>,    // fresh or replayed frame that reaches the gate
    coreReset: bool,
    resetting: seq<External>,
    resetSent: bool,
    beforeBitmaps: seq<External>,
    rectangles: seq<bool>)           // for each bitmap: was there room in the channel

  function Issue(d: Display, turn: Turn): Display {
    var a := Meanwhile(Do(d, turn.now, Expire), turn.now, turn.afterExpiry);
    var issued := TakeReady(a.resize, turn.now).1;
    var b := Do(a, turn.now, Take);
    if issued.None? then b else Command(b, issued.value, turn)
  }

  function Command(d: Display, g: Geometry, turn: Turn): Display {
    var c := Meanwhile(d, turn.now, turn.duringCommand);
    if turn.commandOk
    then Do(c.(mode := g), turn.confirmedAt, Confirm(g))
    else Do(c.(mode := turn.leftover), turn.confirmedAt, Fail(g))
  }

  function AtLeastOne(n: u32): u32 { if n == 0 then 1 else n }

  function Publish(d: Display, g: Geometry, turn: Turn): Display {
    var a := Meanwhile(d, turn.frozenAt, turn.beforeSender);
    var b := Meanwhile(a, turn.frozenAt, turn.reserving);
    if !turn.reserved then Do(b, turn.committedAt, Abort(g))
    else
      var c := Meanwhile(b.(size := g), turn.frozenAt, turn.writing);
      var e := c.(log := c.log + [Entry(a.generation, ResizeTo(g))]);
      Do(Meanwhile(e, turn.frozenAt, turn.publishing), turn.committedAt, Commit(g))
  }

  function Realize(d: Display, turn: Turn): Display {
    if turn.frame.None? then d
    else
      var f := turn.frame.value;
      var seen := MatchesRealizedFrame(d.resize, AtLeastOne(f.width), AtLeastOne(f.height), turn.seenAt);
      if seen.None? then d
      else
        var a := Meanwhile(d, turn.seenAt, turn.beforeFreeze);
        var b := Do(a, turn.frozenAt, Freeze(seen.value));
        if Freezes(a.resize, seen.value, turn.frozenAt) then Publish(b, seen.value, turn) else b
  }

  function Bitmaps(generation: nat, size: FrameSize, rectangles: seq<bool>): seq<Entry> {
    if rectangles == [] then []
    else
      var before := Bitmaps(generation, size, rectangles[..|rectangles| - 1]);
      if rectangles[|rectangles| - 1] then before + [Entry(generation, Bitmap(size))] else before
  }

  predicate SameSize(f: FrameSize, g: Geometry) { f.width == g.width && f.height == g.height }

  function Draw(d: Display, turn: Turn): Display {
    if turn.candidate.None? || !SameSize(turn.candidate.value, d.size) then d
    else
      var a := if turn.coreReset then Meanwhile(d, turn.committedAt, turn.resetting) else d;
      var b := if turn.coreReset && turn.resetSent
               then a.(log := a.log + [Entry(d.generation, ResizeTo(d.size))]) else a;
      var c := Meanwhile(b, turn.committedAt, turn.beforeBitmaps);
      c.(log := c.log + Bitmaps(c.generation, turn.candidate.value, turn.rectangles))
  }

  function Iterate(d: Display, turn: Turn): Display {
    Draw(Realize(Meanwhile(Issue(d, turn), turn.confirmedAt, turn.beforeFrame), turn), turn)
  }

  function Loop(d: Display, turns: seq<Turn>): Display {
    if turns == [] then d else Iterate(Loop(d, turns[..|turns| - 1]), turns[|turns| - 1])
  }

  /** The clock values read during a turn, and from turn to turn, do not decrease. */
  predicate Ordered(turn: Turn) {
    turn.now <= turn.confirmedAt <= turn.seenAt <= turn.frozenAt <= turn.committedAt
  }

  ghost predicate OrderedRun(turns: seq<Turn>) {
    && (forall k :: 0 <= k < |turns| ==> Ordered(turns[k]))
    && (forall i, k :: 0 <= i < k < |turns| ==> turns[i].committedAt <= turns[k].now)
  }
}

/** The pipeline task as mutable state around the shared coordinator. */
module DisplayPipeline {
  import opened Common
  import opened ResizeModel
  import opened ResizeRuns
  import opened DisplayModel
  import Resize

  class Pipeline {
    const resize: Resize.ResizeCoordinator
    var size: Geometry
    var mode: Geometry
    var generation: nat
    var starts: seq<Geometry>
    var log: seq<Entry>
    ghost var calls: seq<Call>

    ghost function Value(): Display
      reads this, resize
    {
      Display(resize.Value(), size, mode, generation, starts, log, calls)
    }

    constructor (initial: Geometry)
      ensures Value() == Open(initial) && fresh(resize)
    {
      resize := new Resize.ResizeCoordinator(initial);
      size, mode, generation, starts, log := initial, initial, 0, [initial], [];
      calls := [];
    }

    method Others(at: Instant, events: seq<External>)
      modifies this, resize
      ensures Value() == Meanwhile(old(Value()), at, events)
    {
      ghost var start := Value();
      for k := 0 to |events|
        invariant Value() == Meanwhile(start, at, events[..k])
      {
        assert events[..k + 1][..k] == events[..k];
        match events[k]
        case Asks(g) =>
          resize.Request(g);
          calls := calls + [Call(at, AskFor(g))];
        case Reactivates =>
          generation := generation + 1;
          starts := starts + [size];
      }
      assert events[..|events|] == events;
    }

    method IssueResize(turn: Turn)
      modifies this, resize
      ensures Value() == Issue(old(Value()), turn)
    {
      var _ := resize.ExpireRealization(turn.now);
      calls := calls + [Call(turn.now, Expire)];
      Others(turn.now, turn.afterExpiry);
      var issued := resize.TakeReady(turn.now);
      calls := calls + [Call(turn.now, Take)];
      if issued.Some? {
        RunCommand(issued.value, turn);
      }
    }

    /** The mode command, and what the coordinator is told of it. */
    method RunCommand(g: Geometry, turn: Turn)
      modifies this, resize
      ensures Value() == Command(old(Value()), g, turn)
    {
      Others(turn.now, turn.duringCommand);
      if turn.commandOk {
        mode := g;
        var _ := resize.MarkCommandSucceeded(g, turn.confirmedAt);
        calls := calls + [Call(turn.confirmedAt, Confirm(g))];
      } else {
        mode := turn.leftover;
        var _ := resize.MarkFailed(g, turn.confirmedAt);
        calls := calls + [Call(turn.confirmedAt, Fail(g))];
      }
    }

    method PublishResize(g: Geometry, turn: Turn)
      modifies this, resize
      ensures Value() == Publish(old(Value()), g, turn)
    {
      Others(turn.frozenAt, turn.beforeSender);
      var sender := generation;
      Others(turn.frozenAt, turn.reserving);
      if turn.reserved {
        size := g;
        Others(turn.frozenAt, turn.writing);
        log := log + [Entry(sender, ResizeTo(g))];
        Others(turn.frozenAt, turn.publishing);
        var _ := resize.MarkApplied(g, turn.committedAt);
        calls := calls + [Call(turn.committedAt, Commit(g))];
      } else {
        var _ := resize.MarkCommitFailed(g, turn.committedAt);
        calls := calls + [Call(turn.committedAt, Abort(g))];
      }
    }

    method CommitRealized(turn: Turn)
      modifies this, resize
      ensures Value() == Realize(old(Value()), turn)
    {
      if turn.frame.Some? {
        var f := turn.frame.value;
        var seen := MatchesRealizedFrame(resize.Value(), AtLeastOne(f.width), AtLeastOne(f.height), turn.seenAt);
        if seen.Some? {
          Others(turn.seenAt, turn.beforeFreeze);
          var started := resize.BeginCommit(seen.value, turn.frozenAt);
          calls := calls + [Call(turn.frozenAt, Freeze(seen.value))];
          if started {
            PublishResize(seen.value, turn);
          }
        }
      }
    }

    method DrawFrame(turn: Turn)
      modifies this, resize
      ensures Value() == Draw(old(Value()), turn)
    {
      if turn.candidate.None? || !SameSize(turn.candidate.value, size) {
        return;
      }
      if turn.coreReset {
        var sender, desktop := generation, size;
        Others(turn.committedAt, turn.resetting);
        if turn.resetSent {
          log := log + [Entry(sender, ResizeTo(desktop))];
        }
      }
      Others(turn.committedAt, turn.beforeBitmaps);
      ghost var start := Value();
      for k := 0 to |turn.rectangles|
        invariant Value() ==
          start.(log := start.log + Bitmaps(start.generation, turn.candidate.value, turn.rectangles[..k]))
      {
        assert turn.rectangles[..k + 1][..k] == turn.rectangles[..k];
        if turn.rectangles[k] {
          log := log + [Entry(generation, Bitmap(turn.candidate.value))];
        }
      }
      assert turn.rectangles[..|turn.rectangles|] == turn.rectangles;
    }

    /** The pipeline task: one turn after another. */
    method RunLoop(turns: seq<Turn>)
      modifies this, resize
      ensures Value() == Loop(old(Value()), turns)
    {
      ghost var start := Value();
      for k := 0 to |turns|
        invariant Value() == Loop(start, turns[..k])
      {
        assert turns[..k + 1][..k] == turns[..k];
        IssueResize(turns[k]);
        Others(turns[k].confirmedAt, turns[k].beforeFrame);
        CommitRealized(turns[k]);
        DrawFrame(turns[k]);
      }
      assert turns[..|turns|] == turns;
    }
  }
}
