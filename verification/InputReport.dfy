/** Reporting a failed input connection at most once (src/rdp/server/input_handler.rs, lines
    342-365, 563-569 and 626-654): any number of threads fail the connection or attach a health
    reporter, and every atomic access is a step of its own. */
module InputReport {
  /** A thread fails the connection (queue overflow, closed queue, dead worker) or attaches a reporter. */
  datatype Kind = Failing | Attaching

  /** Where a call stands: about to raise the flag or store the reporter; about to load the
      terminal flag, load the reported flag, read the reporter, exchange the reported flag,
      send the event; or returned. */
  datatype Place = Begin | LoadTerminal | LoadReported | ReadReporter | Exchange | Send | Returned

  datatype Thread = Thread(kind: Kind, place: Place)

  datatype State = State(
    terminal: bool,
    reported: bool,
    reporter: bool,        // a reporter is attached
    threads: map<nat, Thread>,
    sent: nat)             // InputFailed events delivered

  function Initially(kinds: map<nat, Kind>): State {
    State(false, false, false, map id | id in kinds :: Thread(kinds[id], Begin), 0)
  }

  function Move(s: State, id: nat, place: Place): State
    requires id in s.threads
  {
    s.(threads := s.threads[id := s.threads[id].(place := place)])
  }

  /** The next atomic access of thread id. */
  function Step(s: State, id: nat): State {
    if id !in s.threads then s
    else match s.threads[id].place
      case Begin =>
        var t := if s.threads[id].kind == Failing then s.(terminal := true) else s.(reporter := true);
        Move(t, id, LoadTerminal)
      case LoadTerminal => Move(s, id, if s.terminal then LoadReported else Returned)
      case LoadReported => Move(s, id, if s.reported then Returned else ReadReporter)
      case ReadReporter => Move(s, id, if s.reporter then Exchange else Returned)
      case Exchange => if s.reported then Move(s, id, Returned) else Move(s.(reported := true), id, Send)
      case Send => Move(s.(sent := s.sent + 1), id, Returned)
      case Returned => s
  }

  function Run(s: State, schedule: seq<nat>): State {
    if schedule == [] then s else Step(Run(s, schedule[..|schedule| - 1]), schedule[|schedule| - 1])
  }

  predicate At(s: State, id: nat, kind: Kind, place: Place) {
    id in s.threads && s.threads[id] == Thread(kind, place)
  }

  /** The threads that have won the exchange but not delivered their event yet. */
  function Delivering(s: State): set<nat> {
    set id | id in s.threads && s.threads[id].place == Send
  }

  /** The single claim is delivered, or in the hands of exactly one thread. */
  predicate OneClaim(s: State) {
    s.sent + |Delivering(s)| == if s.reported then 1 else 0
  }

  /** A thread raises its flag before it reads anything. */
  predicate FlagsFirst(s: State) {
    forall id :: id in s.threads && s.threads[id].place != Begin ==>
      if s.threads[id].kind == Failing then s.terminal else s.reporter
  }

  /** Without a claim, no failing call and attaching call have both returned. */
  predicate NotBothReturned(s: State) {
    s.reported || (forall i :: i in s.threads ==> s.threads[i] != Thread(Failing, Returned))
               || (forall j :: j in s.threads ==> s.threads[j] != Thread(Attaching, Returned))
  }

  predicate Sound(s: State) {
    OneClaim(s) && FlagsFirst(s) && NotBothReturned(s)
  }

  lemma {:induction false} StepDelivering(s: State, id: nat)
    requires id in s.threads
    ensures Delivering(Step(s, id)) ==
      match s.threads[id].place
      case Exchange => if s.reported then Delivering(s) else Delivering(s) + {id}
      case Send => Delivering(s) - {id}
      case _ => Delivering(s)
  {}

  lemma {:induction false} StepOneClaim(s: State, id: nat)
    requires OneClaim(s)
    ensures OneClaim(Step(s, id))
  {
    if id in s.threads {
      StepDelivering(s, id);
      if s.threads[id].place == Exchange {
        assert id !in Delivering(s);
      } else if s.threads[id].place == Send {
        assert id in Delivering(s);
      }
    }
  }

  lemma {:induction false} StepFlagsFirst(s: State, id: nat)
    requires FlagsFirst(s)
    ensures FlagsFirst(Step(s, id))
  {
    if id in s.threads {
      var t := Step(s, id);
      forall i | i in t.threads && t.threads[i].place != Begin
        ensures if t.threads[i].kind == Failing then t.terminal else t.reporter
      {
        assert i in s.threads && t.threads[i].kind == s.threads[i].kind;
        assert i != id ==> t.threads[i] == s.threads[i];
      }
    }
  }

  lemma {:induction false} StepNotBoth(s: State, id: nat)
    requires Sound(s)
    ensures NotBothReturned(Step(s, id))
  {
    var t := Step(s, id);
    if id in s.threads && s.threads[id].place == Send {
      assert id in Delivering(s);
    } else if id in s.threads && !t.reported && t.threads[id].place == Returned && s.threads[id].place != Returned {
      // It returned because the other side had not raised its flag yet.
      assert s.threads[id].kind == Failing ==> !s.reporter;
      assert s.threads[id].kind == Attaching ==> !s.terminal;
      assert forall i :: i in s.threads && i != id ==> t.threads[i] == s.threads[i];
      assert forall i :: i in s.threads && s.threads[i].kind != s.threads[id].kind ==> s.threads[i].place == Begin;
    }
  }

  lemma {:induction false} StepSound(s: State, id: nat)
    requires Sound(s)
    ensures Sound(Step(s, id))
  {
    StepOneClaim(s, id);
    StepFlagsFirst(s, id);
    StepNotBoth(s, id);
  }

  lemma {:induction false} RunSound(kinds: map<nat, Kind>, schedule: seq<nat>)
    ensures Sound(Run(Initially(kinds), schedule))
  {
    if schedule != [] {
      RunSound(kinds, schedule[..|schedule| - 1]);
      StepSound(Run(Initially(kinds), schedule[..|schedule| - 1]), schedule[|schedule| - 1]);
    }
  }

  /** In every interleaving of any number of threads: at most one event is ever sent; and once
      some failing call and some attaching call have both returned, the event has been claimed,
      and it has been sent exactly if no thread stands between its exchange and its send. */
  lemma {:induction false} ReportedExactlyOnce(kinds: map<nat, Kind>, schedule: seq<nat>, failed: nat, attached: nat)
    ensures var s := Run(Initially(kinds), schedule);
      && s.sent <= 1
      && (At(s, failed, Failing, Returned) && At(s, attached, Attaching, Returned) ==>
            s.reported && (s.sent == 1 <==> Delivering(s) == {}))
  {
    RunSound(kinds, schedule);
  }

  /** Some call of this kind has begun. */
  ghost predicate Begun(s: State, kind: Kind) {
    exists id :: id in s.threads && s.threads[id].kind == kind && s.threads[id].place != Begin
  }

  /** A flag is raised only by a call of its kind. */
  ghost predicate RaisedByCalls(s: State) {
    (s.terminal ==> Begun(s, Failing)) && (s.reporter ==> Begun(s, Attaching))
  }

  /** A thread gets past the terminal flag only if it is set, and to the exchange only with a reporter. */
  predicate Fits(s: State, place: Place) {
    match place
    case LoadReported => s.terminal
    case ReadReporter => s.terminal
    case Exchange => s.terminal && s.reporter
    case Send => s.terminal && s.reporter
    case _ => true
  }

  ghost predicate Grounded(s: State) {
    && (forall id :: id in s.threads ==> Fits(s, s.threads[id].place))
    && (s.reported || s.sent > 0 ==> s.terminal && s.reporter)
  }

  /** A step leaves every thread its kind, and moves only its own. */
  lemma {:induction false} ThreadGoesOn(s: State, id: nat, i: nat)
    requires id in s.threads && i in s.threads
    ensures var t := Step(s, id);
      && i in t.threads && t.threads[i].kind == s.threads[i].kind && t.threads.Keys == s.threads.Keys
      && (if i == id then t.threads[i].place != Begin else t.threads[i] == s.threads[i])
  {}

  lemma {:induction false} StepBegun(s: State, id: nat, kind: Kind)
    requires id in s.threads
    requires Begun(s, kind) || (s.threads[id].place == Begin && s.threads[id].kind == kind)
    ensures Begun(Step(s, id), kind)
  {
    var i := id;
    if Begun(s, kind) {
      i :| i in s.threads && s.threads[i].kind == kind && s.threads[i].place != Begin;
    }
    ThreadGoesOn(s, id, i);
    assert Step(s, id).threads[i].kind == kind;
  }

  lemma {:induction false} StepRaised(s: State, id: nat)
    requires RaisedByCalls(s)
    ensures RaisedByCalls(Step(s, id))
  {
    if id in s.threads {
      var t := Step(s, id);
      if t.terminal {
        StepBegun(s, id, Failing);
      }
      if t.reporter {
        StepBegun(s, id, Attaching);
      }
    }
  }

  lemma {:induction false} StepGrounded(s: State, id: nat)
    requires Grounded(s)
    ensures Grounded(Step(s, id))
  {
    if id in s.threads {
      var t := Step(s, id);
      assert Fits(s, s.threads[id].place);
      forall i | i in t.threads ensures Fits(t, t.threads[i].place) {
        assert i in s.threads && Fits(s, s.threads[i].place);
        assert i != id ==> t.threads[i] == s.threads[i];
      }
    }
  }

  /** In every interleaving, a failure is reported only if the connection was failed and a reporter was
      attached. */
  lemma {:induction false} NothingReportedForNothing(kinds: map<nat, Kind>, schedule: seq<nat>)
    ensures var s := Run(Initially(kinds), schedule);
      RaisedByCalls(s) && Grounded(s) && (s.sent > 0 ==> Begun(s, Failing) && Begun(s, Attaching))
  {
    if schedule != [] {
      NothingReportedForNothing(kinds, schedule[..|schedule| - 1]);
      var before, last := Run(Initially(kinds), schedule[..|schedule| - 1]), schedule[|schedule| - 1];
      StepRaised(before, last);
      StepGrounded(before, last);
    }
  }

  /** With one failing and one attaching thread nobody else can hold the event back: once both
      calls have returned, exactly one event has been sent. */
  lemma {:induction false} ReportedOnceByTwo(failed: nat, attached: nat, schedule: seq<nat>)
    requires failed != attached
    ensures var s := Run(Initially(map[failed := Failing, attached := Attaching]), schedule);
      At(s, failed, Failing, Returned) && At(s, attached, Attaching, Returned) ==> s.sent == 1
  {
    var kinds := map[failed := Failing, attached := Attaching];
    RunSound(kinds, schedule);
    SameThreads(Initially(kinds), schedule);
    var s := Run(Initially(kinds), schedule);
    if At(s, failed, Failing, Returned) && At(s, attached, Attaching, Returned) {
      assert Delivering(s) == {};
    }
  }

  lemma {:induction false} SameThreads(s: State, schedule: seq<nat>)
    ensures Run(s, schedule).threads.Keys == s.threads.Keys
  {
    if schedule != [] {
      SameThreads(s, schedule[..|schedule| - 1]);
    }
  }

  lemma {:induction false} RunAppend(s: State, schedule: seq<nat>, id: nat)
    ensures Run(s, schedule + [id]) == Step(Run(s, schedule), id)
  {
    assert (schedule + [id])[..|schedule|] == schedule;
  }

  /** Thread `id` alone, for as many steps as it takes to claim the event. */
  lemma {:induction false} RunsToItsClaim(start: State, q: seq<nat>, id: nat) returns (longer: seq<nat>)
    requires var s := Run(start, q);
      id in s.threads && s.threads[id] == Thread(Failing, Begin) && s.reporter && !s.reported
    ensures Run(start, longer) == Move(Run(start, q).(terminal := true, reported := true), id, Send)
  {
    var s := Run(start, q);
    var a, b := q + [id], q + [id] + [id];
    var c, d := b + [id], b + [id] + [id];
    RunAppend(start, q, id);
    assert Run(start, a) == Move(s.(terminal := true), id, LoadTerminal);
    RunAppend(start, a, id);
    assert Run(start, b) == Move(s.(terminal := true), id, LoadReported);
    RunAppend(start, b, id);
    assert Run(start, c) == Move(s.(terminal := true), id, ReadReporter);
    RunAppend(start, c, id);
    assert Run(start, d) == Move(s.(terminal := true), id, Exchange);
    RunAppend(start, d, id);
    longer := d + [id];
  }

  /** A call that finds the event claimed returns without sending. */
  lemma {:induction false} FindsItClaimed(start: State, q: seq<nat>, id: nat) returns (longer: seq<nat>)
    requires var s := Run(start, q);
      id in s.threads && s.threads[id].place == LoadTerminal && s.terminal && s.reported
    ensures Run(start, longer) == Move(Run(start, q), id, Returned)
  {
    RunAppend(start, q, id);
    RunAppend(start, q + [id], id);
    longer := q + [id] + [id];
  }

  /** With a third thread the event can still be on its way: a second failing thread claims it
      and pauses; the failing call and the attaching call both find it claimed and return, and
      nothing has been sent. */
  lemma {:induction false} ThirdThreadCanHoldTheEvent() returns (kinds: map<nat, Kind>, schedule: seq<nat>)
    ensures var s := Run(Initially(kinds), schedule);
      At(s, 0, Failing, Returned) && At(s, 1, Attaching, Returned) && s.sent == 0
  {
    kinds := map[0 := Failing, 1 := Attaching, 2 := Failing];
    var s := Initially(kinds);
    RunAppend(s, [], 1);
    var claimed := RunsToItsClaim(s, [] + [1], 2);
    RunAppend(s, claimed, 0);
    var failed := FindsItClaimed(s, claimed + [0], 0);
    schedule := FindsItClaimed(s, failed, 1);
  }
}
