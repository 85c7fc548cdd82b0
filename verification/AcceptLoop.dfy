/** The production accept loop and the binder it hands each connection
    (src/rdp/server/production.rs, lines 471-572, 642-745 and 853-1018): which sessions are
    marked as having a client, and what is left in the shared slots, however a connection ends. */
module AcceptLoop {
  import opened Common
  import A = Admission

  type User = string

  datatype Event = Accepted | BindRecorded(user: User) | UnbindRecorded(user: User)

  /** The shared slots, the fatal latch, the sessions that exist, those whose registry shows a client,
      and the successful sesman bind and unbind calls in order. */
  datatype World = World(
    boundUser: Option<User>,
    connection: Option<User>,
    fatal: bool,
    sessions: set<User>,
    clients: set<User>,
    log: seq<Event>)

  /** How the binder goes for one client. Refusals come before a session exists; every later
      failure is rolled back; a failed resource shutdown is latched as fatal. */
  datatype Plan =
    | Refused
    | Abandoned(reused: bool)
    | BuildFailed(fatal: bool, reused: bool)
    | BindFailed(recorded: bool, shutdownOk: bool, reused: bool)
    | Bound

  datatype Effect =
    | EnsureSession(user: User)
    | AttemptBind(user: User, recorded: bool)
    | RecordBind(user: User)
    | RollBack(user: User, reused: bool)
    | HoldUser(user: User)
    | HoldConnection(user: User)
    | LatchFatal
    | Return

  function Unbind(w: World, user: User): World {
    w.(clients := w.clients - {user}, log := w.log + [UnbindRecorded(user)])
  }

  function Apply(w: World, e: Effect): World {
    match e
    case EnsureSession(user) => w.(sessions := w.sessions + {user})
    case AttemptBind(user, recorded) => if recorded then w.(clients := w.clients + {user}) else w
    case RecordBind(user) => w.(clients := w.clients + {user}, log := w.log + [BindRecorded(user)])
    case RollBack(user, reused) =>
      if reused then Unbind(w, user) else w.(sessions := w.sessions - {user}, clients := w.clients - {user})
    case HoldUser(user) => w.(boundUser := Some(user))
    case HoldConnection(user) => w.(connection := Some(user))
    case LatchFatal => w.(fatal := true)
    case Return => w
  }

  /** The steps of `bind_connection` between its two admission flags. */
  function Script(user: User, plan: Plan): (s: seq<Effect>)
    ensures |s| > 0
  {
    match plan
    case Refused => [Return]
    case Abandoned(reused) => [EnsureSession(user), RollBack(user, reused), Return]
    case BuildFailed(fatal, reused) =>
      if fatal then [EnsureSession(user), LatchFatal, RollBack(user, reused), Return]
      else [EnsureSession(user), RollBack(user, reused), Return]
    case BindFailed(recorded, shutdownOk, reused) =>
      if shutdownOk then [EnsureSession(user), AttemptBind(user, recorded), RollBack(user, reused), Return]
      else [EnsureSession(user), AttemptBind(user, recorded), LatchFatal, Return]
    case Bound => [EnsureSession(user), RecordBind(user), HoldUser(user), HoldConnection(user), Return]
  }

  function ApplyFrom(w: World, effects: seq<Effect>, k: nat): World
    requires k <= |effects|
  {
    if k == 0 then w else Apply(ApplyFrom(w, effects, k - 1), effects[k - 1])
  }

  predicate AtAccept(w: World) {
    w.boundUser.None? && w.connection.None? && !w.fatal && w.clients == {}
  }

  /** Partway through the binder only this user's session can be marked; the user's slot is filled only
      while it is, and the connection's slot only after that. */
  lemma {:induction false} BinderStaysLocal(w: World, user: User, plan: Plan, k: nat)
    requires AtAccept(w) && k <= |Script(user, plan)|
    ensures var r := ApplyFrom(w, Script(user, plan), k);
      && r.clients <= {user} && (r.boundUser.Some? ==> plan.Bound? && r.boundUser == Some(user) && user in r.clients)
      && (r.connection.Some? ==> r.connection == r.boundUser)
  {
    if k > 0 {
      BinderStaysLocal(w, user, plan, k - 1);
    }
  }

  /** A failed resource shutdown inside the binder. */
  predicate Fatal(plan: Plan) {
    (plan.BuildFailed? && plan.fatal) || (plan.BindFailed? && !plan.shutdownOk)
  }

  /** A rollback that keeps the session, and so marks it as idle. */
  predicate LeftIdle(plan: Plan) {
    || (plan.Abandoned? && plan.reused)
    || (plan.BuildFailed? && plan.reused)
    || (plan.BindFailed? && plan.shutdownOk && plan.reused)
  }

  /** A refused client changes nothing; a session that existed before is kept, and one that was
      started for a client that did not get through is not, unless what the binder built for it
      could not be shut down. */
  function SessionsAfter(sessions: set<User>, user: User, plan: Plan): set<User> {
    match plan
    case Refused => sessions
    case Abandoned(reused) => if reused then sessions + {user} else sessions - {user}
    case BuildFailed(_, reused) => if reused then sessions + {user} else sessions - {user}
    case BindFailed(_, shutdownOk, reused) =>
      if reused || !shutdownOk then sessions + {user} else sessions - {user}
    case Bound => sessions + {user}
  }

  /** What a binder that ran to its end leaves behind. */
  lemma {:induction false} CompletedBinder(w: World, user: User, plan: Plan)
    requires AtAccept(w)
    ensures var s := Script(user, plan); var r := ApplyFrom(w, s, |s|);
      if plan.Bound?
      then r == w.(boundUser := Some(user), connection := Some(user), sessions := w.sessions + {user},
                   clients := {user}, log := w.log + [BindRecorded(user)])
      else
        && r.boundUser.None? && r.connection.None? && r.fatal == Fatal(plan)
        && r.sessions == SessionsAfter(w.sessions, user, plan)
        && r.clients == (if plan.BindFailed? && !plan.shutdownOk && plan.recorded then {user} else {})
        && r.log == w.log + (if LeftIdle(plan) then [UnbindRecorded(user)] else [])
  {
    var s := Script(user, plan);
    var a := ApplyFrom(w, s, 1);
    assert a == Apply(ApplyFrom(w, s, 0), s[0]);
    if |s| > 2 {
      var b := ApplyFrom(w, s, 2);
      var c := ApplyFrom(w, s, 3);
      assert b == Apply(a, s[1]) && c == Apply(b, s[2]);
      if |s| > 3 {
        assert ApplyFrom(w, s, 4) == Apply(c, s[3]);
      }
    }
  }

  /** One accepted connection: who connects, how binding would go, and its schedule. */
  datatype Visit = Visit(
    user: User, plan: Plan, entered: A.Instant, session: Option<nat>,
    staleStart: bool, staleFinish: bool, passes: seq<A.Pass>, shutdownOk: bool)

  datatype Verdict = BackToAccept | StillServing | Exited

  /** The connection as its schedule leaves it. */
  function Ends(v: Visit): A.State {
    A.Run(A.Setup(v.entered, v.session, |Script(v.user, v.plan)|),
          A.Enter(A.Setup(v.entered, v.session, |Script(v.user, v.plan)|), v.staleStart, v.staleFinish), v.passes)
  }

  /** The daemon gives up exactly when shutting the connection's resources down failed. */
  function VerdictOf(v: Visit): Verdict {
    var s := Ends(v);
    if s.status.Running? then StillServing
    else if s.conn.started && (Fatal(v.plan) || (v.plan.Bound? && !v.shutdownOk)) then Exited
    else BackToAccept
  }

  /** The sesman calls recorded for a connection that is over. */
  function Recorded(v: Visit): seq<Event> {
    if !Ends(v).conn.started then []
    else if v.plan.Bound? then [BindRecorded(v.user), UnbindRecorded(v.user)]
    else if LeftIdle(v.plan) then [UnbindRecorded(v.user)]
    else []
  }

  /** Every recorded bind is followed at once by its unbind, and then by the next accept. */
  predicate Paired(log: seq<Event>) {
    forall i :: 0 <= i < |log| && log[i].BindRecorded? ==>
      && i + 1 < |log| && log[i + 1] == UnbindRecorded(log[i].user)
      && (i + 2 < |log| ==> log[i + 2].Accepted?)
  }

  class ProductionServer {
    var boundUser: Option<User>
    var connection: Option<User>
    var fatal: bool
    var sessions: set<User>
    var clients: set<User>
    var log: seq<Event>

    function Value(): World
      reads this
    {
      World(boundUser, connection, fatal, sessions, clients, log)
    }

    constructor ()
      ensures AtAccept(Value()) && log == [] && sessions == {}
    {
      boundUser, connection, fatal, sessions, clients, log := None, None, false, {}, {}, [];
    }

    method Perform(e: Effect)
      modifies this
      ensures Value() == Apply(old(Value()), e)
    {
      match e
      case EnsureSession(user) => sessions := sessions + {user};
      case AttemptBind(user, recorded) =>
        if recorded {
          clients := clients + {user};
        }
      case RecordBind(user) =>
        clients := clients + {user};
        log := log + [BindRecorded(user)];
      case RollBack(user, reused) =>
        clients := clients - {user};
        if reused {
          log := log + [UnbindRecorded(user)];
        } else {
          sessions := sessions - {user};
        }
      case HoldUser(user) => boundUser := Some(user);
      case HoldConnection(user) => connection := Some(user);
      case LatchFatal => fatal := true;
      case Return =>
    }

    /** The steps that the binder took before its connection was over or given up. */
    method RunBinder(script: seq<Effect>, done: nat)
      requires done <= |script|
      modifies this
      ensures Value() == ApplyFrom(old(Value()), script, done) && old(log) <= log
    {
      for k := 0 to done
        invariant Value() == ApplyFrom(old(Value()), script, k) && old(log) <= log
      {
        Perform(script[k]);
      }
    }

    /** The cleanup common to every way a connection ends. */
    method Release(shutdownOk: bool) returns (verdict: Verdict)
      modifies this
      ensures verdict == if old(fatal) || (old(connection).Some? && !shutdownOk) then Exited else BackToAccept
      ensures clients <= old(clients) && old(log) <= log && sessions == old(sessions)
      ensures verdict == BackToAccept ==>
        && !fatal && connection.None? && boundUser.None?
        && (if old(boundUser).Some?
            then
              && clients == old(clients) - {old(boundUser).value}
              && log == old(log) + [UnbindRecorded(old(boundUser).value)]
            else clients == old(clients) && log == old(log))
    {
      if fatal {
        fatal := false;
        return Exited;
      }
      if connection.Some? {
        connection := None;
        if !shutdownOk {
          return Exited;
        }
      }
      if boundUser.Some? {
        var user := boundUser.value;
        boundUser := None;
        clients := clients - {user};
        log := log + [UnbindRecorded(user)];
      }
      return BackToAccept;
    }

    /** The body of the accept loop for one connection. */
    method Serve(v: Visit) returns (verdict: Verdict)
      requires AtAccept(Value())
      modifies this
      ensures clients <= {v.user} && old(log) + [Accepted] <= log
      ensures verdict == VerdictOf(v)
      ensures verdict == BackToAccept ==>
        && AtAccept(Value()) && log == old(log) + [Accepted] + Recorded(v)
        && sessions == (if Ends(v).conn.started then SessionsAfter(old(sessions), v.user, v.plan) else old(sessions))
    {
      log := log + [Accepted];
      ghost var start := Value();
      var script := Script(v.user, v.plan);
      var setup := A.Setup(v.entered, v.session, |script|);
      var s := A.RunWithConnectionTimeouts(setup, v.staleStart, v.staleFinish, v.passes);
      A.NeverCutInsideAdmission(setup, v.staleStart, v.staleFinish, v.passes);
      A.RunSound(setup, v.staleStart, v.staleFinish, v.passes);
      RunBinder(script, s.conn.done);
      BinderStaysLocal(start, v.user, v.plan, s.conn.done);
      if s.status.Running? {
        return StillServing;
      }
      CompletedBinder(start, v.user, v.plan);
      verdict := Release(v.shutdownOk);
    }

    /** Over every run, of which the first `served` connections were finished: the log holds exactly
        the calls of those, in order, so each bind is paired with exactly one unbind before the
        next accept; the run goes on until a connection is still being served or made the
        daemon exit, and for that one the verdict is its own; at no point is more than one
        session marked as having a client, and back at accept none is and both slots are empty. */
    method Run(visits: seq<Visit>) returns (verdict: Verdict, served: nat)
      requires AtAccept(Value()) && Paired(log)
      modifies this
      ensures served <= |visits| && AllReturn(visits[..served])
      ensures if served == |visits|
        then verdict == BackToAccept
        else verdict == VerdictOf(visits[served]) != BackToAccept
      ensures verdict == BackToAccept <==> AllReturn(visits)
      ensures Paired(old(log) + LogOf(visits[..served]))
      ensures verdict == BackToAccept ==> AtAccept(Value()) && log == old(log) + LogOf(visits)
      ensures old(log) + LogOf(visits[..served]) <= log && |clients| <= 1
    {
      verdict, served := BackToAccept, 0;
      while served < |visits|
        invariant served <= |visits| && AllReturn(visits[..served])
        invariant verdict == BackToAccept && AtAccept(Value())
        invariant log == old(log) + LogOf(visits[..served])
      {
        verdict := Serve(visits[served]);
        ReturnsExtend(visits, served);
        if verdict != BackToAccept {
          PairedLog(old(log), visits[..served]);
          SubsetSize(clients, {visits[served].user});
          return;
        }
        LogExtends(visits, served, old(log));
        served := served + 1;
      }
      assert visits[..|visits|] == visits;
      PairedLog(old(log), visits);
    }
  }

  /** Every connection ends with the loop back at accept. */
  predicate AllReturn(visits: seq<Visit>) {
    forall k :: 0 <= k < |visits| ==> VerdictOf(visits[k]) == BackToAccept
  }

  lemma {:induction false} ReturnsExtend(visits: seq<Visit>, k: nat)
    requires k < |visits| && AllReturn(visits[..k])
    ensures AllReturn(visits[..k + 1]) <==> VerdictOf(visits[k]) == BackToAccept
    ensures VerdictOf(visits[k]) != BackToAccept ==> !AllReturn(visits)
  {
    assert visits[..k + 1] == visits[..k] + [visits[k]];
  }

  /** What connections that are over leave in the log. */
  function LogOf(visits: seq<Visit>): seq<Event> {
    if visits == [] then [] else LogOf(visits[..|visits| - 1]) + ([Accepted] + Recorded(visits[|visits| - 1]))
  }

  lemma {:induction false} LogExtends(visits: seq<Visit>, k: nat, before: seq<Event>)
    requires k < |visits|
    ensures before + LogOf(visits[..k + 1]) == before + LogOf(visits[..k]) + [Accepted] + Recorded(visits[k])
  {
    assert visits[..k + 1][..k] == visits[..k];
  }

  lemma {:induction false} PairedLog(before: seq<Event>, visits: seq<Visit>)
    requires Paired(before)
    ensures Paired(before + LogOf(visits))
  {
    if visits == [] {
      assert before + LogOf(visits) == before;
    } else {
      var k := |visits| - 1;
      PairedLog(before, visits[..k]);
      PairedExtends(before + LogOf(visits[..k]), visits[k]);
      LogExtends(visits, k, before);
      assert visits[..k + 1] == visits;
    }
  }

  lemma {:induction false} PairedExtends(log: seq<Event>, v: Visit)
    requires Paired(log)
    ensures Paired(log + [Accepted] + Recorded(v))
  {
    PairedAppends(log, Recorded(v), v.user);
  }

  lemma {:induction false} PairedAppends(log: seq<Event>, calls: seq<Event>, user: User)
    requires Paired(log)
    requires calls == [] || calls == [UnbindRecorded(user)] || calls == [BindRecorded(user), UnbindRecorded(user)]
    ensures Paired(log + [Accepted] + calls)
  {
    var all := log + [Accepted] + calls;
    assert forall i :: 0 <= i < |log| ==> all[i] == log[i];
    assert all[|log|] == Accepted;
    assert forall i :: 0 <= i < |calls| ==> all[|log| + 1 + i] == calls[i];
  }

  lemma {:induction false} SubsetSize(a: set<User>, b: set<User>)
    requires a <= b
    ensures |a| <= |b|
  {
    if a != {} {
      var x :| x in a;
      SubsetSize(a - {x}, b - {x});
    }
  }
}
