/** The bounded input queue and its worker (src/rdp/server/input_handler.rs, lines 283-335,
    479-579 and 602-631). The submitting callback and the worker interleave freely; each access
    to the shared queue or flag is one step. */
module InputModel {
  import opened Common

  const INPUT_QUEUE_CAPACITY: nat := 4096
  const INPUT_FAILURE_THRESHOLD: nat := 32

  datatype KeyboardEvent =
    | Pressed(code: nat) | Released(code: nat)
    | UnicodePressed(unit: nat) | UnicodeReleased(unit: nat)
    | Synchronize(flags: nat)

  datatype Button = Left | Right | Middle | Button4 | Button5

  datatype MouseEvent =
    | Move(x: int, y: int) | RelativeMove(x: int, y: int)
    | Down(button: Button) | Up(button: Button)
    | VerticalScroll(amount: int) | Scroll(x: int, y: int)

  datatype InputEvent = Keyboard(key: KeyboardEvent) | Mouse(mouse: MouseEvent)

  /** Losing a release or a synchronize would leave a key or button stuck; anything else may go. */
  predicate Droppable(e: InputEvent) {
    match e
    case Keyboard(Released(_)) => false
    case Keyboard(UnicodeReleased(_)) => false
    case Keyboard(Synchronize(_)) => false
    case Mouse(Up(_)) => false
    case _ => true
  }

  /** What became of a submitted event. */
  datatype Fate = Accepted | Dropped | Lost | Ignored

  datatype Submission = Submission(event: InputEvent, fate: Fate)

  datatype Outcome = Injected | MouseFailed | KeyboardFailed

  datatype Channel = Channel(
    holding: Option<InputEvent>,   // the callback has loaded the terminal flag for this event
    queue: seq<InputEvent>,
    hand: Option<InputEvent>,      // received by the worker, not injected yet
    terminal: bool,
    shutdown: bool,
    stopped: bool,                 // the worker has left its loop and closed the queue
    mouseErrors: nat,
    keyboardErrors: nat,
    submissions: seq<Submission>,  // the next three record the run
    injected: seq<InputEvent>,
    outcomes: seq<Outcome>)

  function Idle(): Channel {
    Channel(None, [], None, false, false, false, 0, 0, [], [], [])
  }

  datatype Op = Submit(event: InputEvent) | TrySend | Receive | Inject(outcome: Outcome) | Shutdown

  function Record(c: Channel, e: InputEvent, fate: Fate): Channel {
    c.(holding := None, submissions := c.submissions + [Submission(e, fate)])
  }

  /** `enqueue_input` up to the load of the terminal flag. */
  function LoadTerminal(c: Channel, e: InputEvent): Channel {
    if c.holding.Some? then c
    else if c.terminal then Record(c, e, Ignored)
    else c.(holding := Some(e))
  }

  /** The rest of `enqueue_input`. */
  function Send(c: Channel): Channel {
    if c.holding.None? then c
    else
      var e := c.holding.value;
      if c.stopped then Record(c.(terminal := true), e, Lost)
      else if |c.queue| < INPUT_QUEUE_CAPACITY then Record(c.(queue := c.queue + [e]), e, Accepted)
      else if Droppable(e) then Record(c, e, Dropped)
      else Record(c.(terminal := true), e, Lost)
  }

  function Take(c: Channel): Channel {
    if c.stopped || c.hand.Some? || c.queue == [] then c
    else c.(hand := Some(c.queue[0]), queue := c.queue[1..])
  }

  /** The worker's turn with the event it received: leave if the connection is terminal, else
      inject and count. The outcome names the kind of event, as the source's error does. */
  function Deliver(c: Channel, outcome: Outcome): Channel {
    if c.stopped || c.hand.None? then c
    else if c.terminal then c.(hand := None, stopped := true)
    else
      var d := c.(hand := None, injected := c.injected + [c.hand.value], outcomes := c.outcomes + [outcome]);
      match outcome
      case Injected => d.(mouseErrors := 0, keyboardErrors := 0)
      case MouseFailed => Escalate(d.(mouseErrors := c.mouseErrors + 1), c.mouseErrors + 1)
      case KeyboardFailed => Escalate(d.(keyboardErrors := c.keyboardErrors + 1), c.keyboardErrors + 1)
  }

  function Escalate(c: Channel, count: nat): Channel {
    if count >= INPUT_FAILURE_THRESHOLD then c.(terminal := true, stopped := true) else c
  }

  function Stop(c: Channel): Channel {
    if c.stopped || c.hand.Some? then c.(shutdown := true) else c.(shutdown := true, stopped := true)
  }

  function Step(c: Channel, op: Op): Channel {
    match op
    case Submit(e) => LoadTerminal(c, e)
    case TrySend => Send(c)
    case Receive => Take(c)
    case Inject(outcome) => Deliver(c, outcome)
    case Shutdown => Stop(c)
  }

  function Run(ops: seq<Op>): Channel {
    if ops == [] then Idle() else Step(Run(ops[..|ops| - 1]), ops[|ops| - 1])
  }
}

/** The same channel as mutable state. */
module InputQueue {
  import opened Common
  import opened InputModel

  class InputChannel {
    var queue: seq<InputEvent>
    var hand: Option<InputEvent>
    var terminal: bool
    var shutdown: bool
    var stopped: bool
    var mouseErrors: nat
    var keyboardErrors: nat
    var holding: Option<InputEvent>
    ghost var submissions: seq<Submission>
    ghost var injected: seq<InputEvent>
    ghost var outcomes: seq<Outcome>

    ghost function Value(): Channel
      reads this
    {
      Channel(holding, queue, hand, terminal, shutdown, stopped, mouseErrors, keyboardErrors,
              submissions, injected, outcomes)
    }

    constructor ()
      ensures Value() == Idle()
    {
      queue, hand, holding := [], None, None;
      terminal, shutdown, stopped, mouseErrors, keyboardErrors := false, false, false, 0, 0;
      submissions, injected, outcomes := [], [], [];
    }

    method Fail()
      modifies this`terminal
      ensures terminal
    {
      terminal := true;
    }

    /** `enqueue_input` up to its load of the terminal flag. The worker may step in afterwards. */
    method BeginEnqueue(e: InputEvent)
      modifies this
      ensures Value() == LoadTerminal(old(Value()), e)
    {
      if holding.None? {
        if terminal {
          submissions := submissions + [Submission(e, Ignored)];
        } else {
          holding := Some(e);
        }
      }
    }

    /** The rest of `enqueue_input`, whatever the worker did in between. */
    method FinishEnqueue()
      modifies this
      ensures Value() == InputModel.Send(old(Value()))
    {
      if holding.None? {
        return;
      }
      var e := holding.value;
      holding := None;
      if stopped {
        Fail();
        submissions := submissions + [Submission(e, Lost)];
      } else if |queue| < INPUT_QUEUE_CAPACITY {
        queue := queue + [e];
        submissions := submissions + [Submission(e, Accepted)];
      } else if Droppable(e) {
        submissions := submissions + [Submission(e, Dropped)];
      } else {
        Fail();
        submissions := submissions + [Submission(e, Lost)];
      }
    }

    /** Any interleaving of callbacks, worker steps and shutdown. */
    method Interleave(ops: seq<Op>)
      requires Value() == Idle()
      modifies this
      ensures Value() == Run(ops)
    {
      for k := 0 to |ops|
        invariant Value() == Run(ops[..k])
      {
        assert ops[..k + 1][..k] == ops[..k];
        match ops[k]
        case Submit(e) => BeginEnqueue(e);
        case TrySend => FinishEnqueue();
        case Receive => ReceiveNext();
        case Inject(outcome) => Handle(outcome);
        case Shutdown =>
          shutdown := true;
          if hand.None? {
            stopped := true;
          }
      }
      assert ops[..|ops|] == ops;
    }

    method ReceiveNext()
      modifies this
      ensures Value() == Take(old(Value()))
    {
      if !stopped && hand.None? && queue != [] {
        hand := Some(queue[0]);
        queue := queue[1..];
      }
    }

    /** Handle the received event, whose injection has the given outcome. */
    method Handle(outcome: Outcome)
      modifies this
      ensures Value() == Deliver(old(Value()), outcome)
    {
      if stopped || hand.None? {
        return;
      }
      if terminal {
        hand := None;
        stopped := true;
        return;
      }
      injected := injected + [hand.value];
      outcomes := outcomes + [outcome];
      hand := None;
      var count := 0;
      match outcome {
        case Injected =>
          mouseErrors := 0;
          keyboardErrors := 0;
        case MouseFailed =>
          mouseErrors := mouseErrors + 1;
          count := mouseErrors;
        case KeyboardFailed =>
          keyboardErrors := keyboardErrors + 1;
          count := keyboardErrors;
      }
      if count >= INPUT_FAILURE_THRESHOLD {
        Fail();
        stopped := true;
      }
    }

    /** The worker's loop over the outcomes its injections will have, until it stops or runs dry. */
    method Worker(results: seq<Outcome>)
      modifies this
      ensures Value() == Drain(old(Value()), results)
    {
      ghost var start := Value();
      for k := 0 to |results|
        invariant Value() == Drain(start, results[..k])
      {
        assert results[..k + 1][..k] == results[..k];
        ReceiveNext();
        Handle(results[k]);
      }
      assert results[..|results|] == results;
    }
  }

  function Drain(c: Channel, results: seq<Outcome>): Channel {
    if results == [] then c
    else Deliver(Take(Drain(c, results[..|results| - 1])), results[|results| - 1])
  }
}

/** What every interleaving of callbacks and worker keeps. */
module InputRuns {
  import opened Common
  import opened InputModel

  function AcceptedOf(log: seq<Submission>): seq<InputEvent> {
    if log == [] then []
    else
      var before := AcceptedOf(log[..|log| - 1]);
      if log[|log| - 1].fate == Accepted then before + [log[|log| - 1].event] else before
  }

  function EventsOf(log: seq<Submission>): seq<InputEvent> {
    if log == [] then [] else EventsOf(log[..|log| - 1]) + [log[|log| - 1].event]
  }

  /** The events whose loss would leave a key or a button stuck. */
  predicate MustArrive(e: InputEvent) {
    || (e.Keyboard? && (e.key.Released? || e.key.UnicodeReleased? || e.key.Synchronize?))
    || (e.Mouse? && e.mouse.Up?)
  }

  lemma {:induction false} DroppableExactly(e: InputEvent)
    ensures Droppable(e) <==> !MustArrive(e)
  {}

  /** The releases and synchronizes of a sequence, in order. */
  function Essential(events: seq<InputEvent>): seq<InputEvent> {
    if events == [] then []
    else
      var before := Essential(events[..|events| - 1]);
      if MustArrive(events[|events| - 1]) then before + [events[|events| - 1]] else before
  }

  function InHand(c: Channel): seq<InputEvent> { if c.hand.Some? then [c.hand.value] else [] }

  /** Everything accepted has been injected once, in order, or is still on its way. */
  ghost predicate InOrder(c: Channel) {
    && |c.queue| <= 4096
    && c.injected <= AcceptedOf(c.submissions)
    && (!c.stopped ==> AcceptedOf(c.submissions) == c.injected + InHand(c) + c.queue)
    && (c.stopped ==> c.hand.None? && (c.terminal || c.shutdown))
    && (c.terminal || forall k :: 0 <= k < |c.submissions| ==>
          c.submissions[k].fate == Accepted || !MustArrive(c.submissions[k].event))
  }

  lemma {:induction false} RecordInOrder(c: Channel, e: InputEvent, fate: Fate)
    ensures AcceptedOf(Record(c, e, fate).submissions) ==
      if fate == Accepted then AcceptedOf(c.submissions) + [e] else AcceptedOf(c.submissions)
  {
    var log := c.submissions + [Submission(e, fate)];
    assert log[..|log| - 1] == c.submissions;
  }

  /** An event may be turned away if it is droppable or the connection has been failed. */
  lemma {:induction false} TurnedAwayInOrder(c: Channel, e: InputEvent, fate: Fate)
    requires InOrder(c) && fate != Accepted && (c.terminal || !MustArrive(e))
    ensures InOrder(Record(c, e, fate))
  {
    RecordInOrder(c, e, fate);
  }

  lemma {:induction false} TakenInOrder(c: Channel, e: InputEvent)
    requires InOrder(c) && !c.stopped && |c.queue| < INPUT_QUEUE_CAPACITY
    ensures InOrder(Record(c.(queue := c.queue + [e]), e, Accepted))
  {
    RecordInOrder(c.(queue := c.queue + [e]), e, Accepted);
    assert c.injected + InHand(c) + (c.queue + [e]) == c.injected + InHand(c) + c.queue + [e];
  }

  lemma {:induction false} EnqueueInOrder(c: Channel, e: InputEvent)
    requires InOrder(c)
    ensures InOrder(LoadTerminal(c, e)) && InOrder(Send(c))
  {
    if c.terminal {
      TurnedAwayInOrder(c, e, Ignored);
    }
    if c.holding.Some? {
      var held := c.holding.value;
      DroppableExactly(held);
      TurnedAwayInOrder(c.(terminal := true), held, Lost);
      if Droppable(held) {
        TurnedAwayInOrder(c, held, Dropped);
      }
      if !c.stopped && |c.queue| < INPUT_QUEUE_CAPACITY {
        TakenInOrder(c, held);
      }
    }
  }

  lemma {:induction false} TakeInOrder(c: Channel)
    requires InOrder(c)
    ensures InOrder(Take(c))
  {
    if !c.stopped && c.hand.None? && c.queue != [] {
      assert c.queue == [c.queue[0]] + c.queue[1..];
      assert c.injected + InHand(c) + c.queue == c.injected + [c.queue[0]] + c.queue[1..];
    }
  }

  lemma {:induction false} DeliverInOrder(c: Channel, outcome: Outcome)
    requires InOrder(c)
    ensures InOrder(Deliver(c, outcome))
  {
    if c.hand.Some? && !c.stopped {
      assert c.injected + InHand(c) <= AcceptedOf(c.submissions);
    }
  }

  lemma {:induction false} StopInOrder(c: Channel)
    requires InOrder(c)
    ensures InOrder(Stop(c))
  {}

  lemma {:induction false} RunInOrder(ops: seq<Op>)
    ensures InOrder(Run(ops))
  {
    if ops != [] {
      var before, op := Run(ops[..|ops| - 1]), ops[|ops| - 1];
      RunInOrder(ops[..|ops| - 1]);
      match op
      case Submit(e) => EnqueueInOrder(before, e);
      case TrySend => EnqueueInOrder(before, Keyboard(Synchronize(0)));
      case Receive => TakeInOrder(before);
      case Inject(outcome) => DeliverInOrder(before, outcome);
      case Shutdown => StopInOrder(before);
    }
  }

  lemma {:induction false} EssentialAccepted(log: seq<Submission>)
    requires forall k :: 0 <= k < |log| ==> log[k].fate == Accepted || !MustArrive(log[k].event)
    ensures Essential(EventsOf(log)) == Essential(AcceptedOf(log))
  {
    if log != [] {
      var before, last := log[..|log| - 1], log[|log| - 1];
      EssentialAccepted(before);
      assert EventsOf(log)[..|EventsOf(log)| - 1] == EventsOf(before);
      if last.fate == Accepted {
        assert AcceptedOf(log)[..|AcceptedOf(log)| - 1] == AcceptedOf(before);
      }
    }
  }

  /** Until shutdown or the terminal flag: accepted events reach injection in submission order,
      each exactly once, and no release or synchronize is missing among them. */
  lemma {:induction false} NothingEssentialIsLost(ops: seq<Op>)
    ensures var c := Run(ops);
      !c.terminal && !c.shutdown ==>
        && AcceptedOf(c.submissions) == c.injected + InHand(c) + c.queue
        && Essential(EventsOf(c.submissions)) == Essential(c.injected + InHand(c) + c.queue)
  {
    RunInOrder(ops);
    var c := Run(ops);
    if !c.terminal && !c.shutdown {
      EssentialAccepted(c.submissions);
    }
  }

  /** After that too, what was injected is the beginning of what was accepted, and an event that
      could not be dropped is missing only if the connection has been failed. */
  lemma {:induction false} LossIsNeverSilent(ops: seq<Op>, k: nat)
    ensures var c := Run(ops);
      && c.injected <= AcceptedOf(c.submissions)
      && (k < |c.submissions| && c.submissions[k].fate != Accepted ==>
            !MustArrive(c.submissions[k].event) || c.terminal)
  {
    RunInOrder(ops);
  }

  // ---- What becomes of an event -----------------------------------------------------------------------

  /** The event that a callback holds is accepted exactly if the worker runs and the queue has room.
      In a full queue it is dropped if it may be, and otherwise the connection is failed; once
      the worker has stopped it is failed for any event. */
  lemma {:induction false} SendExactly(ops: seq<Op>)
    ensures var c := Run(ops); var r := Run(ops + [TrySend]);
      c.holding.Some? ==>
        var e := c.holding.value;
        var fate := if c.stopped then Lost
          else if |c.queue| < 4096 then Accepted
          else if MustArrive(e) then Lost else Dropped;
        && r.submissions == c.submissions + [Submission(e, fate)] && r.holding.None?
        && r.queue == (if fate == Accepted then c.queue + [e] else c.queue)
        && r.terminal == (c.terminal || fate == Lost)
  {
    RunMore(ops, TrySend);
    RunInOrder(ops);
    var c := Run(ops);
    if c.holding.Some? {
      DroppableExactly(c.holding.value);
    }
  }

  /** A submitted event is ignored exactly if the connection has been failed, and held otherwise. */
  lemma {:induction false} SubmitExactly(ops: seq<Op>, e: InputEvent)
    ensures var c := Run(ops); var r := Run(ops + [Submit(e)]);
      c.holding.None? ==>
        if c.terminal then r.submissions == c.submissions + [Submission(e, Ignored)] && r.holding.None?
        else r.submissions == c.submissions && r.holding == Some(e)
  {
    RunMore(ops, Submit(e));
  }

  /** Once the connection has been failed the worker injects nothing more: it stops. */
  lemma {:induction false} NothingAfterTerminal(ops: seq<Op>, outcome: Outcome)
    ensures var c := Run(ops); var r := Run(ops + [Inject(outcome)]);
      c.hand.Some? && !c.stopped ==>
        if c.terminal then r.injected == c.injected && r.stopped else r.injected == c.injected + [c.hand.value]
  {
    RunMore(ops, Inject(outcome));
  }

  /** A shutdown that finds the worker without an event stops it; one that finds it at work does not. */
  lemma {:induction false} ShutdownStops(ops: seq<Op>)
    ensures var c := Run(ops); var r := Run(ops + [Shutdown]);
      && (r.stopped <==> c.stopped || c.hand.None?)
      && r.injected == c.injected && r.queue == c.queue && r.submissions == c.submissions && r.terminal == c.terminal
  {
    RunMore(ops, Shutdown);
  }

  /** Nothing was injected or accepted between the two, and a failed connection stayed failed. */
  predicate Frozen(c: Channel, r: Channel) {
    && r.stopped && r.injected == c.injected && r.queue == c.queue
    && AcceptedOf(r.submissions) == AcceptedOf(c.submissions) && (c.terminal ==> r.terminal)
  }

  /** A worker that has stopped injects nothing more, whatever happens, and nothing more is accepted. */
  lemma {:induction false} StoppedForGood(ops: seq<Op>, more: seq<Op>)
    requires Run(ops).stopped
    ensures Frozen(Run(ops), Run(ops + more))
  {
    if more == [] {
      assert ops + more == ops;
    } else {
      var k := |more| - 1;
      StoppedForGood(ops, more[..k]);
      assert ops + more == (ops + more[..k]) + [more[k]];
      RunMore(ops + more[..k], more[k]);
      StoppedStep(Run(ops + more[..k]), more[k]);
    }
  }

  lemma {:induction false} StoppedStep(c: Channel, op: Op)
    requires c.stopped
    ensures Frozen(c, Step(c, op))
  {
    var r := Step(c, op);
    if r.submissions != c.submissions {
      assert r.submissions[..|r.submissions| - 1] == c.submissions;
    }
  }

  // ---- Failure counters ------------------------------------------------------------------------

  /** Failures of one kind since the last successful injection. */
  function FailuresSince(outcomes: seq<Outcome>, kind: Outcome): nat {
    if outcomes == [] || outcomes[|outcomes| - 1] == Injected then 0
    else FailuresSince(outcomes[..|outcomes| - 1], kind) + (if outcomes[|outcomes| - 1] == kind then 1 else 0)
  }

  /** The worker counts exactly that, and it is past the threshold only when it has stopped. */
  predicate Counts(c: Channel) {
    && c.mouseErrors == FailuresSince(c.outcomes, MouseFailed)
    && c.keyboardErrors == FailuresSince(c.outcomes, KeyboardFailed)
    && (!c.stopped ==> c.mouseErrors < INPUT_FAILURE_THRESHOLD && c.keyboardErrors < INPUT_FAILURE_THRESHOLD)
    && c.mouseErrors <= INPUT_FAILURE_THRESHOLD && c.keyboardErrors <= INPUT_FAILURE_THRESHOLD
  }

  lemma {:induction false} FailuresAppend(outcomes: seq<Outcome>, last: Outcome, kind: Outcome)
    ensures FailuresSince(outcomes + [last], kind) ==
      if last == Injected then 0 else FailuresSince(outcomes, kind) + (if last == kind then 1 else 0)
  {
    var all := outcomes + [last];
    assert all[..|all| - 1] == outcomes;
  }

  lemma {:induction false} DeliverCounts(c: Channel, outcome: Outcome)
    requires Counts(c)
    ensures Counts(Deliver(c, outcome))
  {
    FailuresAppend(c.outcomes, outcome, MouseFailed);
    FailuresAppend(c.outcomes, outcome, KeyboardFailed);
  }

  lemma {:induction false} RunCounts(ops: seq<Op>)
    ensures Counts(Run(ops))
  {
    if ops != [] {
      RunCounts(ops[..|ops| - 1]);
      if ops[|ops| - 1].Inject? {
        DeliverCounts(Run(ops[..|ops| - 1]), ops[|ops| - 1].outcome);
      }
    }
  }

  /** An injection fails the connection exactly when it is the 32nd failure of its kind with no
      success in between. */
  lemma {:induction false} TerminalAtThreshold(ops: seq<Op>, outcome: Outcome)
    ensures var c := Run(ops);
      !c.terminal && !c.stopped && c.hand.Some? ==>
        (Deliver(c, outcome).terminal <==>
           outcome != Injected && FailuresSince(c.outcomes + [outcome], outcome) == 32)
  {
    RunCounts(ops);
    var c := Run(ops);
    var outcomes := c.outcomes + [outcome];
    assert outcomes[..|outcomes| - 1] == c.outcomes;
  }

  /** The last n injections all failed. */
  predicate AllFailed(outcomes: seq<Outcome>, n: nat) {
    n <= |outcomes| && forall k :: |outcomes| - n <= k < |outcomes| ==> outcomes[k] != Injected
  }

  lemma {:induction false} FailuresAddUp(outcomes: seq<Outcome>, n: nat)
    requires AllFailed(outcomes, n)
    ensures FailuresSince(outcomes, MouseFailed) + FailuresSince(outcomes, KeyboardFailed) >= n
  {
    if n > 0 {
      FailuresAddUp(outcomes[..|outcomes| - 1], n - 1);
    }
  }

  /** Any 63 failures in a row, of whatever kinds, stop the worker. */
  lemma {:induction false} SixtyThreeFailuresStop(ops: seq<Op>)
    ensures var c := Run(ops); AllFailed(c.outcomes, 63) ==> c.stopped
  {
    RunCounts(ops);
    var c := Run(ops);
    if AllFailed(c.outcomes, 63) {
      FailuresAddUp(c.outcomes, 63);
    }
  }

  function Kind(n: nat): Outcome { if n % 2 == 0 then MouseFailed else KeyboardFailed }

  function Alternating(n: nat): seq<Outcome> {
    if n == 0 then [] else Alternating(n - 1) + [Kind(n)]
  }

  lemma {:induction false} AlternatingFailures(n: nat)
    ensures |Alternating(n)| == n && AllFailed(Alternating(n), n)
    ensures FailuresSince(Alternating(n), MouseFailed) == n / 2
    ensures FailuresSince(Alternating(n), KeyboardFailed) == (n + 1) / 2
  {
    if n > 0 {
      AlternatingFailures(n - 1);
      var last := Kind(n);
      FailuresAppend(Alternating(n - 1), last, MouseFailed);
      FailuresAppend(Alternating(n - 1), last, KeyboardFailed);
    }
  }

  /** An event is submitted, sent, received and fails. */
  function Round(n: nat): seq<Op> { [Submit(EventOf(n)), TrySend, Receive, Inject(Kind(n))] }

  function EventOf(n: nat): InputEvent { if Kind(n) == MouseFailed then Mouse(Move(0, 0)) else Keyboard(Pressed(0)) }

  lemma {:induction false} RunFour(ops: seq<Op>, a: Op, b: Op, c: Op, d: Op)
    ensures Run(ops + [a, b, c, d]) == Step(Step(Step(Step(Run(ops), a), b), c), d)
  {
    RunMore(ops, a);
    RunMore(ops + [a], b);
    RunMore(ops + [a] + [b], c);
    RunMore(ops + [a] + [b] + [c], d);
    assert ops + [a, b, c, d] == ops + [a] + [b] + [c] + [d];
  }

  lemma {:induction false} RunMore(ops: seq<Op>, op: Op)
    ensures Run(ops + [op]) == Step(Run(ops), op)
  {
    assert (ops + [op])[..|ops|] == ops;
  }

  /** The worker is idle and healthy. */
  predicate Healthy(c: Channel) {
    c.holding.None? && c.queue == [] && c.hand.None? && !c.terminal && !c.stopped && !c.shutdown
  }

  function Errors(c: Channel, kind: Outcome): nat {
    match kind
    case Injected => 0
    case MouseFailed => c.mouseErrors
    case KeyboardFailed => c.keyboardErrors
  }

  lemma {:induction false} FailedRound(c: Channel, e: InputEvent, outcome: Outcome)
    requires Healthy(c) && Errors(c, outcome) + 1 < INPUT_FAILURE_THRESHOLD
    ensures var r := Step(Step(Step(Step(c, Submit(e)), TrySend), Receive), Inject(outcome));
      Healthy(r) && r.outcomes == c.outcomes + [outcome]
  {
    var sent := Step(Step(c, Submit(e)), TrySend);
    assert sent.queue == [e];
    var taken := Step(sent, Receive);
    assert taken.hand == Some(e) && taken.queue == [];
  }

  lemma {:induction false} AlternatingRun(n: nat) returns (ops: seq<Op>)
    requires n <= 62
    ensures Healthy(Run(ops)) && Run(ops).outcomes == Alternating(n)
  {
    if n == 0 {
      ops := [];
    } else {
      var before := AlternatingRun(n - 1);
      BelowThreshold(before, n - 1);
      RoundPasses(before, n);
      ops := before + Round(n);
    }
  }

  /** 63 is the least such number: there are runs in which up to 62 injections fail one after the
      other, in alternating kinds, and the worker goes on. */
  lemma {:induction false} SixtyTwoCanPass(n: nat) returns (ops: seq<Op>)
    requires n <= 62
    ensures var c := Run(ops); |c.outcomes| == n && AllFailed(c.outcomes, n) && !c.stopped && !c.terminal
  {
    ops := AlternatingRun(n);
    AlternatingFailures(n);
  }

  lemma {:induction false} RoundPasses(ops: seq<Op>, n: nat)
    requires Healthy(Run(ops)) && Errors(Run(ops), Kind(n)) + 1 < INPUT_FAILURE_THRESHOLD
    ensures Healthy(Run(ops + Round(n))) && Run(ops + Round(n)).outcomes == Run(ops).outcomes + [Kind(n)]
  {
    RunFour(ops, Submit(EventOf(n)), TrySend, Receive, Inject(Kind(n)));
    FailedRound(Run(ops), EventOf(n), Kind(n));
  }

  lemma {:induction false} BelowThreshold(ops: seq<Op>, n: nat)
    requires n < 62 && Run(ops).outcomes == Alternating(n)
    ensures Errors(Run(ops), Kind(n + 1)) + 1 < INPUT_FAILURE_THRESHOLD
  {
    RunCounts(ops);
    AlternatingFailures(n);
  }
}
