/** Client presence and idle deadlines (src/sesman/mod.rs, lines 257-408 and 530-547). */
module IdlePolicy {
  import opened Common
  import opened SesmanModel

  function IdleDeadlineAfter(cfg: Config, base: int): Option<int> {
    if cfg.idleTimeout == 0 then None else Some(base + cfg.idleTimeout)
  }

  function EffectiveIdleDeadline(cfg: Config, p: Presence): Option<int> {
    if p.idleDeadline.Some? then p.idleDeadline
    else if cfg.idleTimeout == 0 || p.lastDisconnected.None? then None
    else IdleDeadlineAfter(cfg, p.lastDisconnected.value)
  }

  /** Nobody is connected and the idle deadline has passed. */
  predicate Overdue(cfg: Config, p: Presence, now: int) {
    p.activeClients == 0 && EffectiveIdleDeadline(cfg, p).Some? && EffectiveIdleDeadline(cfg, p).value <= now
  }

  /** `update_reconnect_state`: one more client, if one is connected. */
  function Reconnected(p: Presence, connected: bool): Presence {
    if !connected then p
    else p.(activeClients := if p.activeClients >= MAX_CLIENTS then MAX_CLIENTS else p.activeClients + 1,
             lastDisconnected := None, idleDeadline := None)
  }

  function BoundOnce(p: Presence): Presence {
    p.(activeClients := 1, lastDisconnected := None, idleDeadline := None)
  }

  function Released(cfg: Config, p: Presence, now: int): Presence {
    p.(activeClients := 0, lastDisconnected := Some(now), idleDeadline := IdleDeadlineAfter(cfg, now))
  }

  /** One client fewer; the last one to leave starts the idle period. */
  function OneLeft(cfg: Config, p: Presence, now: int): Presence {
    if p.activeClients > 1 then p.(activeClients := p.activeClients - 1) else Released(cfg, p, now)
  }

  /** After a daemon restart nobody is connected; an idle period that is not on record starts now. */
  function Reconciled(cfg: Config, p: Presence, now: int): Presence {
    var base := if p.lastDisconnected.Some? then p.lastDisconnected.value else now;
    p.(activeClients := 0, lastDisconnected := Some(base),
        idleDeadline := if p.idleDeadline.Some? then p.idleDeadline else IdleDeadlineAfter(cfg, base))
  }

  /** The same changes to a registry, if there is one. */
  function AfterRelease(cfg: Config, registry: Option<SessionState>, now: int): Option<SessionState> {
    if registry.None? then None else Some(registry.value.(presence := Released(cfg, registry.value.presence, now)))
  }

  function AfterOneLeft(cfg: Config, registry: Option<SessionState>, now: int): Option<SessionState> {
    if registry.None? then None else Some(registry.value.(presence := OneLeft(cfg, registry.value.presence, now)))
  }

  function AfterReconcile(cfg: Config, registry: Option<SessionState>, now: int): Option<SessionState> {
    if registry.None? then None else Some(registry.value.(presence := Reconciled(cfg, registry.value.presence, now)))
  }

  function AfterBind(registry: Option<SessionState>): Option<SessionState> {
    if registry.None? then None else Some(registry.value.(presence := BoundOnce(registry.value.presence)))
  }

  // ---- What the bookkeeping counts -----------------------------------------------------------------

  /** A session is overdue exactly if nobody is connected and its recorded deadline has passed, or,
      without one, an idle timeout that is in use has passed since the last disconnect. */
  lemma {:induction false} OverdueExactly(cfg: Config, p: Presence, now: int)
    ensures Overdue(cfg, p, now) <==>
      && p.activeClients == 0
      && (if p.idleDeadline.Some? then p.idleDeadline.value <= now
          else cfg.idleTimeout > 0 && p.lastDisconnected.Some? && p.lastDisconnected.value + cfg.idleTimeout <= now)
  {}

  function Leaves(cfg: Config, p: Presence, nows: seq<int>): Presence {
    if nows == [] then p else OneLeft(cfg, Leaves(cfg, p, nows[..|nows| - 1]), nows[|nows| - 1])
  }

  /** Each disconnect counts one client down; the idle period begins with the last one that was
      connected, and begins anew with any more. */
  lemma {:induction false} LeavesCount(cfg: Config, p: Presence, nows: seq<int>)
    requires nows != []
    ensures var r := Leaves(cfg, p, nows);
      if |nows| < p.activeClients
      then r == Presence(p.activeClients - |nows|, p.lastDisconnected, p.idleDeadline)
      else
        && r.activeClients == 0 && r.lastDisconnected == Some(nows[|nows| - 1])
        && r.idleDeadline == if cfg.idleTimeout > 0 then Some(nows[|nows| - 1] + cfg.idleTimeout) else None
  {
    var before := nows[..|nows| - 1];
    if before != [] {
      LeavesCount(cfg, p, before);
    }
  }

  function Connects(p: Presence, n: nat): Presence {
    if n == 0 then p else Reconnected(Connects(p, n - 1), true)
  }

  /** Each connect counts one client up, to at most 2^32 - 1, and ends the idle period. */
  lemma {:induction false} ConnectsCount(p: Presence, n: nat)
    requires n > 0 && p.activeClients <= 4_294_967_295
    ensures Connects(p, n) ==
      Presence(if p.activeClients + n <= 4_294_967_295 then p.activeClients + n else 4_294_967_295, None, None)
  {
    if n > 1 {
      ConnectsCount(p, n - 1);
    }
  }

  /** A daemon restart leaves nobody connected; it does not move an idle period that is on record, and
      a second restart changes nothing more. */
  lemma {:induction false} RestartsKeepThePeriod(cfg: Config, p: Presence, now: int, later: int)
    ensures var r := Reconciled(cfg, p, now);
      && r.activeClients == 0 && r.lastDisconnected.Some? && (r.idleDeadline.None? ==> cfg.idleTimeout == 0)
      && (p.lastDisconnected.Some? ==> r.lastDisconnected == p.lastDisconnected)
      && (p.lastDisconnected.None? ==> r.lastDisconnected == Some(now))
      && (p.idleDeadline.Some? ==> r.idleDeadline == p.idleDeadline)
      && (p.idleDeadline.None? && cfg.idleTimeout > 0 ==>
            r.idleDeadline == Some(r.lastDisconnected.value + cfg.idleTimeout))
      && Reconciled(cfg, r, later) == r
  {}

  // ---- Idle periods over a run ---------------------------------------------------------------------------

  /** An instant between two calls, and whether a client was bound to the session. */
  datatype Moment = Moment(at: nat, bound: bool)

  predicate Bound(registry: Option<SessionState>) { registry.Some? && registry.value.presence.activeClients > 0 }

  ghost predicate NoneBoundAfter(tl: Timeline, moments: seq<Moment>, clock: int) {
    forall k :: 0 <= k < |moments| && moments[k].bound ==> tl(moments[k].at).clock <= clock
  }

  /** While a client is bound no idle period is on record; a recorded one began when the last
      client was gone, and its deadline is one idle timeout later. */
  ghost predicate Settled(cfg: Config, tl: Timeline, p: Presence, moments: seq<Moment>) {
    && (p.activeClients > 0 ==> p.lastDisconnected.None? && p.idleDeadline.None?)
    && (p.lastDisconnected.None? ==> p.idleDeadline.None?)
    && (p.lastDisconnected.Some? ==>
          && p.idleDeadline ==
               (if cfg.idleTimeout > 0 then Some(p.lastDisconnected.value + cfg.idleTimeout) else None)
          && NoneBoundAfter(tl, moments, p.lastDisconnected.value))
  }

  /** A stop for idleness: when it was decided, and the moments before it. */
  datatype IdleStop = IdleStop(decided: nat, before: seq<Moment>)

  /** No client was bound during the last idle timeout. */
  ghost predicate Idle(cfg: Config, tl: Timeline, stop: IdleStop) {
    cfg.idleTimeout > 0 && NoneBoundAfter(tl, stop.before, tl(stop.decided).clock - cfg.idleTimeout)
  }

  /** One stop for idleness was added, decided between the two instants when the registry was overdue. */
  ghost predicate IdleStopOf(cfg: Config, tl: Timeline, from: nat, to: nat, registry: Option<SessionState>,
                             moments: seq<Moment>, before: seq<IdleStop>, after: seq<IdleStop>)
  {
    registry.Some? && exists decided ::
      && from <= decided <= to && Overdue(cfg, registry.value.presence, tl(decided).clock)
      && after == before + [IdleStop(decided, moments)]
  }

  /** At some instant between the two the session was overdue. */
  ghost predicate OverdueBy(cfg: Config, tl: Timeline, from: nat, to: nat, p: Presence) {
    exists t :: from <= t <= to && Overdue(cfg, p, tl(t).clock)
  }

  lemma {:induction false} OverdueIsIdle(cfg: Config, tl: Timeline, p: Presence, moments: seq<Moment>, decided: nat)
    requires Settled(cfg, tl, p, moments)
    requires Overdue(cfg, p, tl(decided).clock)
    ensures Idle(cfg, tl, IdleStop(decided, moments))
  {
    assert NoneBoundAfter(tl, moments, p.lastDisconnected.value);
  }

  ghost predicate Before(moments: seq<Moment>, time: nat) {
    forall k :: 0 <= k < |moments| ==> moments[k].at <= time
  }

  /** The instants before `now` bound nobody later than its clock. */
  lemma {:induction false} PastIsBefore(tl: Timeline, moments: seq<Moment>, now: nat)
    requires ClockMonotone(tl) && Before(moments, now)
    ensures NoneBoundAfter(tl, moments, tl(now).clock)
  {
    forall k | 0 <= k < |moments| ensures tl(moments[k].at).clock <= tl(now).clock {
      assert ClockFrom(tl, moments[k].at);
    }
  }

  /** The changes that the calls make to client bookkeeping. */
  predicate PresenceChange(cfg: Config, now: int, before: Presence, after: Presence) {
    || after == before || after == Reconnected(before, true) || after == BoundOnce(before)
    || after == Released(cfg, before, now) || after == OneLeft(cfg, before, now)
    || after == Reconciled(cfg, before, now)
  }

  /** Each change of presence keeps the registry settled. */
  lemma {:induction false} PresenceSettled(cfg: Config, tl: Timeline, before: Presence, after: Presence,
                                           moments: seq<Moment>, now: nat)
    requires ClockMonotone(tl) && Before(moments, now) && Settled(cfg, tl, before, moments)
    requires PresenceChange(cfg, tl(now).clock, before, after)
    ensures Settled(cfg, tl, after, moments)
  {
    PastIsBefore(tl, moments, now);
  }

  /** Another moment passes. */
  lemma {:induction false} ObservedSettled(cfg: Config, tl: Timeline, p: Presence, moments: seq<Moment>, time: nat)
    requires Settled(cfg, tl, p, moments)
    ensures Settled(cfg, tl, p, moments + [Moment(time, p.activeClients > 0)])
  {
    var all := moments + [Moment(time, p.activeClients > 0)];
    forall k | 0 <= k < |all| && all[k].bound && p.lastDisconnected.Some?
      ensures tl(all[k].at).clock <= p.lastDisconnected.value
    {
      if k < |moments| {
        assert all[k] == moments[k];
      }
    }
  }
}
