/** The accept loop and the session registries together (src/rdp/server/production.rs, lines 642-745
    and 853-1018; src/sesman/mod.rs, lines 257-289): the sessions that the loop counts as having
    a client are those whose registry shows one. */
module ClientPresence {
  import opened Common
  import opened SesmanModel
  import opened IdlePolicy
  import L = AcceptLoop

  /** What the registries show, for each user that has a session. */
  type Registries = map<L.User, Presence>

  /** What the environment contributes to one step: the time, and whether `ensure` starts anew. */
  datatype Moment = Moment(now: int, anew: bool)

  function Unbound(cfg: Config, m: Registries, user: L.User, now: int): Registries {
    if user in m then m[user := Released(cfg, m[user], now)] else m
  }

  function Bound(m: Registries, user: L.User): Registries {
    if user in m then m[user := BoundOnce(m[user])] else m
  }

  /** The registries after one step of this user's binder. */
  function Touch(cfg: Config, m: Registries, user: L.User, e: L.Effect, at: Moment): Registries {
    match e
    case EnsureSession(u) => if at.anew || u !in m then m[u := Presence(0, None, None)] else m
    case AttemptBind(u, recorded) => if recorded then Bound(m, u) else m
    case RecordBind(u) => Bound(m, u)
    case RollBack(u, reused) => if reused then Unbound(cfg, m, u, at.now) else m - {u}
    case _ => m
  }

  function TouchFrom(cfg: Config, m: Registries, user: L.User, effects: seq<L.Effect>, at: seq<Moment>, k: nat)
    : Registries
    requires k <= |effects| == |at|
  {
    if k == 0 then m else Touch(cfg, TouchFrom(cfg, m, user, effects, at, k - 1), user, effects[k - 1], at[k - 1])
  }

  /** The sessions counted as having a client are those whose registry shows one, and it shows one. */
  ghost predicate Agree(clients: set<L.User>, m: Registries) {
    && (forall u :: u in clients ==> u in m)
    && (forall u :: u in m ==> m[u].activeClients == if u in clients then 1 else 0)
  }

  /** A binder step takes place in this user's session, which exists after its first step. */
  predicate Fits(m: Registries, user: L.User, e: L.Effect) {
    match e
    case AttemptBind(u, _) => u == user && user in m
    case RecordBind(u) => u == user && user in m
    case RollBack(u, _) => u == user
    case EnsureSession(u) => u == user
    case _ => true
  }

  lemma {:induction false} StepAgrees(cfg: Config, w: L.World, m: Registries, user: L.User, e: L.Effect, at: Moment)
    requires Agree(w.clients, m) && Fits(m, user, e) && (e.EnsureSession? ==> user !in w.clients)
    ensures Agree(L.Apply(w, e).clients, Touch(cfg, m, user, e, at))
  {}

  /** The binder has made sure of the session and not rolled it back yet. */
  ghost predicate Holding(user: L.User, plan: L.Plan, k: nat) {
    var s := L.Script(user, plan);
    0 < k < |s| && s[0].EnsureSession? && forall j :: 0 <= j < k ==> !s[j].RollBack?
  }

  lemma {:induction false} BinderAgrees(cfg: Config, w: L.World, m: Registries, user: L.User, plan: L.Plan,
                                        at: seq<Moment>, k: nat)
    requires L.AtAccept(w) && Agree(w.clients, m) && k <= |L.Script(user, plan)| == |at|
    ensures var r := TouchFrom(cfg, m, user, L.Script(user, plan), at, k);
      Agree(L.ApplyFrom(w, L.Script(user, plan), k).clients, r) && (Holding(user, plan, k) ==> user in r)
  {
    if k > 0 {
      var s := L.Script(user, plan);
      BinderAgrees(cfg, w, m, user, plan, at, k - 1);
      StepAgrees(cfg, L.ApplyFrom(w, s, k - 1), TouchFrom(cfg, m, user, s, at, k - 1), user, s[k - 1], at[k - 1]);
    }
  }

  /** At every step of every binder: no registry but this user's shows a client, and that one shows at
      most one, exactly if the loop counts it. */
  lemma {:induction false} OneClient(cfg: Config, w: L.World, m: Registries, user: L.User, plan: L.Plan,
                                     at: seq<Moment>, k: nat, u: L.User)
    requires L.AtAccept(w) && Agree(w.clients, m) && k <= |L.Script(user, plan)| == |at|
    ensures var r := TouchFrom(cfg, m, user, L.Script(user, plan), at, k);
      u in r ==>
        r[u].activeClients == if u == user && u in L.ApplyFrom(w, L.Script(user, plan), k).clients then 1 else 0
  {
    BinderAgrees(cfg, w, m, user, plan, at, k);
    L.BinderStaysLocal(w, user, plan, k);
  }

  /** The unbind at the end of a connection leaves no registry with a client. */
  lemma {:induction false} ReleaseAgrees(cfg: Config, clients: set<L.User>, m: Registries, user: L.User, now: int)
    requires Agree(clients, m)
    ensures Agree(clients - {user}, Unbound(cfg, m, user, now))
  {}

  /** A connection, the moments of its binder's steps, and when it was released. */
  datatype Stay = Stay(visit: L.Visit, at: seq<Moment>, left: int)

  predicate Timed(v: Stay) { |v.at| == |L.Script(v.visit.user, v.visit.plan)| }

  /** The registries after a connection that is over. */
  function AfterStay(cfg: Config, m: Registries, v: Stay): Registries
    requires Timed(v)
  {
    var s := L.Script(v.visit.user, v.visit.plan);
    if !L.Ends(v.visit).conn.started then m
    else
      var r := TouchFrom(cfg, m, v.visit.user, s, v.at, |s|);
      if v.visit.plan.Bound? then Unbound(cfg, r, v.visit.user, v.left) else r
  }

  /** However a connection ends that returns to accept, no registry shows a client afterwards. */
  lemma {:induction false} StayLeavesNobody(cfg: Config, w: L.World, m: Registries, v: Stay)
    requires L.AtAccept(w) && Agree({}, m) && Timed(v) && L.VerdictOf(v.visit) == L.BackToAccept
    ensures Agree({}, AfterStay(cfg, m, v))
  {
    if L.Ends(v.visit).conn.started {
      var user, plan := v.visit.user, v.visit.plan;
      var s := L.Script(user, plan);
      BinderAgrees(cfg, w, m, user, plan, v.at, |s|);
      L.CompletedBinder(w, user, plan);
      if plan.Bound? {
        ReleaseAgrees(cfg, {user}, TouchFrom(cfg, m, user, s, v.at, |s|), user, v.left);
        assert {user} - {user} == {};
      }
    }
  }

  /** The user's session is idle since the given time. */
  predicate IdleSince(cfg: Config, p: Presence, since: int) {
    && p.activeClients == 0 && p.lastDisconnected == Some(since)
    && p.idleDeadline == if cfg.idleTimeout > 0 then Some(since + cfg.idleTimeout) else None
  }

  ghost predicate IdleSinceVisit(cfg: Config, p: Presence, at: seq<Moment>) {
    exists k :: 0 <= k < |at| && IdleSince(cfg, p, at[k].now)
  }

  /** What a connection that returned to accept leaves of its user's session: a refused client or one
      that never got to the binder changes nothing; a served one leaves it idle since the
      release; any other leaves it idle since a moment of this visit if it existed before,
      and leaves none if it was started for this client. Nobody else's is touched. */
  lemma {:induction false} StayExactly(cfg: Config, w: L.World, m: Registries, v: Stay)
    requires L.AtAccept(w) && Agree({}, m) && Timed(v) && L.VerdictOf(v.visit) == L.BackToAccept
    ensures var r, user := AfterStay(cfg, m, v), v.visit.user;
      && (forall u :: u != user ==> (u in r <==> u in m) && (u in m ==> r[u] == m[u]))
      && (if !L.Ends(v.visit).conn.started || v.visit.plan.Refused? then r == m
          else if v.visit.plan.Bound? then user in r && IdleSince(cfg, r[user], v.left)
          else if v.visit.plan.reused then user in r && IdleSinceVisit(cfg, r[user], v.at)
          else user !in r)
  {
    if L.Ends(v.visit).conn.started {
      StayedExactly(cfg, m, v);
    }
  }

  lemma {:induction false} StayedExactly(cfg: Config, m: Registries, v: Stay)
    requires Timed(v) && L.VerdictOf(v.visit) == L.BackToAccept && L.Ends(v.visit).conn.started
    ensures var r, user := AfterStay(cfg, m, v), v.visit.user;
      && (forall u :: u != user ==> (u in r <==> u in m) && (u in m ==> r[u] == m[u]))
      && (if v.visit.plan.Refused? then r == m
          else if v.visit.plan.Bound? then user in r && IdleSince(cfg, r[user], v.left)
          else if v.visit.plan.reused then user in r && IdleSinceVisit(cfg, r[user], v.at)
          else user !in r)
  {
    var user := v.visit.user;
    var s := L.Script(user, v.visit.plan);
    var r1 := TouchFrom(cfg, m, user, s, v.at, 1);
    assert r1 == Touch(cfg, TouchFrom(cfg, m, user, s, v.at, 0), user, s[0], v.at[0]);
    if |s| > 2 {
      var r2 := TouchFrom(cfg, m, user, s, v.at, 2);
      var r3 := TouchFrom(cfg, m, user, s, v.at, 3);
      assert r2 == Touch(cfg, r1, user, s[1], v.at[1]) && r3 == Touch(cfg, r2, user, s[2], v.at[2]);
      if |s| > 3 {
        var r4 := TouchFrom(cfg, m, user, s, v.at, 4);
        assert r4 == Touch(cfg, r3, user, s[3], v.at[3]);
        if |s| > 4 {
          assert TouchFrom(cfg, m, user, s, v.at, 5) == Touch(cfg, r4, user, s[4], v.at[4]);
        }
      }
    }
    var r := AfterStay(cfg, m, v);
    if !v.visit.plan.Refused? && !v.visit.plan.Bound? && v.visit.plan.reused {
      assert IdleSince(cfg, r[user], v.at[1].now) || IdleSince(cfg, r[user], v.at[2].now);
    }
  }

  function AfterStays(cfg: Config, m: Registries, stays: seq<Stay>): Registries
    requires forall k :: 0 <= k < |stays| ==> Timed(stays[k])
  {
    if stays == [] then m else AfterStay(cfg, AfterStays(cfg, m, stays[..|stays| - 1]), stays[|stays| - 1])
  }

  /** Over every run: whenever the loop is back at accept, no user's registry shows a client. */
  lemma {:induction false} NobodyAtAccept(cfg: Config, w: L.World, m: Registries, stays: seq<Stay>)
    requires L.AtAccept(w) && Agree({}, m)
    requires forall k :: 0 <= k < |stays| ==> Timed(stays[k]) && L.VerdictOf(stays[k].visit) == L.BackToAccept
    ensures Agree({}, AfterStays(cfg, m, stays))
  {
    if stays != [] {
      NobodyAtAccept(cfg, w, m, stays[..|stays| - 1]);
      StayLeavesNobody(cfg, w, AfterStays(cfg, m, stays[..|stays| - 1]), stays[|stays| - 1]);
    }
  }
}
