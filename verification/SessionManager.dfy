/** The session manager's calls under the registry lock (src/sesman/mod.rs, lines 81-547 and
    631-770), against an environment that moves on at every instant. Each call reads or changes
    the registry file, observes the process table, and sends signals; any I/O may fail. */
module SessionManager {
  import opened Common
  import opened SesmanModel
  import opened ProcessLife
  import opened Launch
  import opened SessionSpec
  import opened IdlePolicy

  /** How `ensure` ends: refused before anything was started; an existing session reused; a new
      one started; or a startup that failed, at a registry write or elsewhere, and whose cleanup
      succeeded or not. The status report after a success may be missing. */
  datatype Outcome = Refused | Reused(report: Option<Status>) | Launched(report: Option<Status>)
                   | Failed(atWrite: bool, cleaned: bool)

  /** Everything started is written, or a write failed for the newest. */
  predicate CutAt(failed: bool, atWrite: bool, started: nat, listed: nat) {
    if atWrite then failed && started == listed + 1 else started == listed
  }

  /** Why a startup failed: at a registry write only if that write failed, elsewhere only if a spawn
      gave nothing or a required component did not become ready; and it is not cleaned up only
      if the cleanup met a fault or a target that would not die. */
  ghost predicate Explained(cfg: Config, tl: Timeline, o: Outcome, start: nat, done: nat, time: nat, batch: seq<Spawn>)
  {
    o.Failed? ==>
      && start <= done <= time
      && (o.atWrite ==> start < done && tl(done).fault && batch != [])
      && (!o.atWrite ==> Broke(cfg, tl, start, done, batch))
      && (!o.cleaned ==> tl(time).fault || Stranded(cfg, tl, start, done, time, batch))
  }

  /** What each outcome of `ensure` says. `readAt` is when the registry `was` was read; a stop began at
      `began`, a startup at `started`, and that ended at `done`. */
  ghost predicate Accounts(cfg: Config, tl: Timeline, o: Outcome, force: bool, connected: bool,
                           was: Option<SessionState>, registry: Option<SessionState>, readAt: nat,
                           began: nat, started: nat, done: nat, time: nat, batch: seq<Spawn>)
  {
    && Explained(cfg, tl, o, started, done, time, batch)
    && (o.Launched? || o.Failed? ==> force || !CanServe(cfg, StatusAt(cfg, tl, readAt, was)))
    && match o
       case Refused =>
         && (registry.None? || registry == was)
         && (tl(time).fault
             || ((force || !CanServe(cfg, StatusAt(cfg, tl, readAt, was)))
                 && was.Some? && Survivor(cfg, tl, began, time, was.value)))
       case Reused(_) =>
         && !force && was.Some? && CanServe(cfg, StatusAt(cfg, tl, readAt, was))
         && registry == Some(was.value.(presence := Reconnected(was.value.presence, connected)))
       case Launched(_) =>
         && registry.Some? && |batch| == |cfg.components|
         && done <= time && AllReady(cfg, tl, started, done, registry.value, |cfg.components|)
         && SameSession(NewState(cfg, tl(started).boot, connected), registry.value)
       case Failed(_, cleaned) => cleaned ==> registry.None?
  }

  /** A startup began only after everything on record had been retired. */
  ghost predicate StartsAfter(cfg: Config, tl: Timeline, was: Option<SessionState>, began: nat, stopped: nat,
                              started: nat, done: nat, batch: seq<Spawn>)
  {
    batch != [] ==>
      && StartedSince(started, batch) && SettledBy(done, batch)
      && (was.Some? ==> Retired(cfg, tl, began, stopped, was.value))
  }

  /** One `ensure` call of a run: when it began and ended, how it went, and its startup. */
  datatype Window = Window(
    from: nat, to: nat, outcome: Outcome, was: Option<SessionState>, began: nat, stopped: nat,
    started: nat, done: nat, batch: seq<Spawn>)

  function Spawns(windows: seq<Window>): seq<Spawn> {
    if windows == [] then [] else Spawns(windows[..|windows| - 1]) + windows[|windows| - 1].batch
  }

  function EnsureCalls(calls: seq<Call>): nat {
    if calls == [] then 0 else EnsureCalls(calls[..|calls| - 1]) + (if calls[|calls| - 1].Ensure? then 1 else 0)
  }

  /** The window lies between two instants, is explained, and its leaders were started inside it, after
      everything on record before had been retired inside it too. */
  ghost predicate Placed(cfg: Config, tl: Timeline, from: nat, to: nat, w: Window) {
    && from <= w.from < w.to <= to && Explained(cfg, tl, w.outcome, w.started, w.done, w.to, w.batch)
    && (w.batch != [] ==> w.from < w.began <= w.stopped < w.started <= w.done <= w.to)
    && StartsAfter(cfg, tl, w.was, w.began, w.stopped, w.started, w.done, w.batch)
  }

  /** The windows lie one after the other between two instants, each of them explained. */
  ghost predicate InOrder(cfg: Config, tl: Timeline, from: nat, to: nat, windows: seq<Window>) {
    && (forall k :: 0 <= k < |windows| ==> Placed(cfg, tl, from, to, windows[k]))
    && (forall i, k :: 0 <= i < k < |windows| ==> windows[i].to <= windows[k].from)
  }

  /** A registry write and the cleanup after it both failed. */
  predicate Orphans(o: Outcome) { o == Failed(true, false) }

  ghost predicate SomeOrphaned(windows: seq<Window>) {
    exists k :: 0 <= k < |windows| && Orphans(windows[k].outcome)
  }

  /** No reboot inside an `ensure`, and no leader orphaned by one. */
  ghost predicate Undamaged(tl: Timeline, windows: seq<Window>) {
    forall k :: 0 <= k < |windows| ==> Intact(tl, windows[k])
  }

  ghost predicate Intact(tl: Timeline, w: Window) {
    SameBoot(tl, w.from, w.to) && !Orphans(w.outcome)
  }

  lemma {:induction false} WindowOrdered(cfg: Config, tl: Timeline, from: nat, before: nat, to: nat,
                                         windows: seq<Window>, w: Window)
    requires InOrder(cfg, tl, from, before, windows) && from <= before && Placed(cfg, tl, before, to, w)
    ensures InOrder(cfg, tl, from, to, windows + [w])
  {
    var all := windows + [w];
    forall k | 0 <= k < |all| ensures Placed(cfg, tl, from, to, all[k]) && (k < |windows| ==> all[k].to <= w.from) {
      if k < |windows| {
        assert all[k] == windows[k] && Placed(cfg, tl, from, before, windows[k]);
      }
    }
  }

  lemma {:induction false} WindowCounted(tl: Timeline, windows: seq<Window>, w: Window)
    ensures Spawns(windows + [w]) == Spawns(windows) + w.batch
    ensures Undamaged(tl, windows + [w]) <==> Undamaged(tl, windows) && Intact(tl, w)
    ensures SomeOrphaned(windows + [w]) <==> SomeOrphaned(windows) || Orphans(w.outcome)
  {
    var all := windows + [w];
    assert all[..|windows|] == windows && all[|windows|] == w;
    assert forall k :: 0 <= k < |windows| ==> all[k] == windows[k];
  }

  lemma {:induction false} WindowsLater(cfg: Config, tl: Timeline, from: nat, before: nat, to: nat,
                                        windows: seq<Window>)
    requires InOrder(cfg, tl, from, before, windows) && before <= to
    ensures InOrder(cfg, tl, from, to, windows)
  {
    forall k | 0 <= k < |windows| ensures Placed(cfg, tl, from, to, windows[k]) {
      assert Placed(cfg, tl, from, before, windows[k]);
    }
  }

  /** What `ensure` does with the session it finds. */
  datatype Finding = Unusable | Serviceable(st: SessionState) | Cleared

  datatype Call =
    | Ensure(force: bool, connected: bool) | Stop | Bind | Unbind | Disconnect | Reconcile | Cleanup | Wait(n: nat)

  /** The registry of a session that is about to start. */
  function NewState(cfg: Config, boot: string, connected: bool): SessionState {
    SessionState(HeaderFor(cfg, boot), Reconnected(Presence(0, None, None), connected), [])
  }

  /** It is of this configuration and boot, lists nothing yet, and counts the client it is started for. */
  lemma {:induction false} NewStateExactly(cfg: Config, boot: string, connected: bool)
    ensures var st := NewState(cfg, boot, connected); var h := st.header;
      && h.version == 2 && h.name == cfg.name && h.user == cfg.user && h.runtimeDir == cfg.runtimeDir
      && h.bootId == Some(boot) && h.uid == Some(cfg.uid) && h.gid == Some(cfg.gid) && st.components == []
      && st.presence == Presence(if connected then 1 else 0, None, None)
  {}

  /** One client leaves: the count saturates at none, and reaching none starts the idle period. */
  method Leave(cfg: Config, p: Presence, now: int) returns (left: Presence)
    ensures left == OneLeft(cfg, p, now)
  {
    left := p.(activeClients := if p.activeClients == 0 then 0 else p.activeClients - 1);
    if left.activeClients == 0 {
      left := left.(lastDisconnected := Some(now), idleDeadline := IdleDeadlineAfter(cfg, now));
    }
  }

  /** Fix up the bookkeeping of a daemon that is gone, noting whether anything changed. */
  method Reconciliation(cfg: Config, p: Presence, now: int) returns (fixed: Presence, changed: bool)
    ensures fixed == Reconciled(cfg, p, now) && (changed <==> fixed != p)
  {
    fixed, changed := p, false;
    if fixed.activeClients > 0 {
      fixed, changed := fixed.(activeClients := 0), true;
    }
    if fixed.activeClients == 0 && fixed.lastDisconnected.None? {
      fixed, changed := fixed.(lastDisconnected := Some(now)), true;
    }
    if fixed.activeClients == 0 && fixed.idleDeadline.None? && cfg.idleTimeout != 0 {
      var base := if fixed.lastDisconnected.Some? then fixed.lastDisconnected.value else now;
      fixed, changed := fixed.(idleDeadline := IdleDeadlineAfter(cfg, base)), true;
    }
  }

  // ---- The exception does occur ---------------------------------------------------------------------

  const Lone := ComponentConfig("c", ["x"], ProcessAlive, true)
  const LoneConfig := Config("s", "u", 1000, 1000, "/r", 0, [Lone])
  const LoneRecord := ComponentState("c", 7, ["x"], 2, Some(5), Some("b"), Some(1000), Some(7), true)
  const LoneState := SessionState(HeaderFor(LoneConfig, "b"), Presence(0, None, None), [LoneRecord])
  const LoneSpawn := Spawn("c", Instance("b", 7, 5), 1, 2)

  /** One process, spawned at instant 1, lives on whatever it is sent; from instant 4 on all I/O fails. */
  function Stubborn(t: nat): World {
    World(t, "b", map[7 := Process(5, 1000, 1000, 7, false, None, 0)], {}, t >= 4, 0, 0, Some(7), {})
  }

  lemma {:induction false} StubbornIsLawful()
    ensures Lawful(Stubborn, LoneConfig) && Validated(LoneConfig)
  {
    forall i: Instance ensures Behaves(Stubborn, LoneConfig, i) {
      forall a: nat, b: nat ensures Live(Stubborn(a), i) <==> Live(Stubborn(b), i) {}
    }
    forall a: nat ensures ClockFrom(Stubborn, a) {}
    forall t: nat ensures SpawnLives(Stubborn, t) {}
  }

  /** A startup whose first write failed, at instant 4, and whose cleanup found its target alive at
      instant 6: the outcome is explained, and without a registry its leader lives on. */
  lemma {:induction false} OrphanCanLive()
    ensures Batch(LoneConfig, Stubborn, 0, 4, LoneState.components, [LoneSpawn])
    ensures Explained(LoneConfig, Stubborn, Failed(true, false), 0, 4, 6, [LoneSpawn])
    ensures Survivor(LoneConfig, Stubborn, 4, 6, LoneState) && SameBoot(Stubborn, 0, 6)
    ensures Live(Stubborn(6), LoneSpawn.inst) && !Covered(LoneConfig, Stubborn, 6, None, [LoneSpawn])
  {
    assert Enrolled(LoneConfig, Stubborn, 0, 4, LoneState.components, [LoneSpawn], 0);
    var w := Stubborn(6);
    assert 7 in w.table && w.table[7].pgid == 7;
    assert TargetAlive(Stubborn(6), LoneState.components[0]);
    assert Authorized(LoneConfig, Stubborn, 4, LoneState, 0);
    assert !Held(LoneConfig, Stubborn, 6, None, [LoneSpawn][0]);
  }

  /** The recorded leader is gone at instant 2, and from instant 3 on another process leads a group of
      the same number. */
  function Revived(t: nat): World {
    World(t, "b", if t == 2 then map[] else map[7 := Process(if t < 2 then 5 else 9, 1000, 1000, 7, false, None, t)],
          {}, false, 0, 0, None, {})
  }

  lemma {:induction false} RevivedIsLawful()
    ensures Lawful(Revived, LoneConfig)
  {
    forall i: Instance ensures Behaves(Revived, LoneConfig, i) {}
    forall a: nat ensures ClockFrom(Revived, a) {}
  }

  /** The one way to a kill without a termination: the target was seen dead, at instant 2, and was there
      again when the kills were sent, at instant 3. */
  lemma {:induction false} KilledUnterminated()
    ensures Justified(Revived, Sent(LoneRecord, 1, 3, 4, true))
    ensures StopsInOrder(LoneConfig, Revived, 0, 4, LoneState, [Sent(LoneRecord, 1, 3, 4, true)],
                         StopTrace([], [0], 2, 2))
  {
    assert 7 in Revived(3).table && Revived(3).table[7].pgid == 7;
    assert Authorized(LoneConfig, Revived, 0, LoneState, 0);
    RevivedIsKilled();
  }

  lemma {:induction false} RevivedIsKilled()
    ensures TermThenKill(Revived, [LoneRecord], [true], 1, 4, [Sent(LoneRecord, 1, 3, 4, true)],
                         StopTrace([], [0], 2, 2))
  {
    assert SeenStopped(Revived, 1, 2, LoneRecord) by {
      assert !TargetAlive(Revived(2), LoneRecord);
    }
    var sent, tr := [Sent(LoneRecord, 1, 3, 4, true)], StopTrace([], [0], 2, 2);
    assert sent[..0] == [] && sent[0..] == sent && tr.kills[0] == 0;
  }

  class Manager {
    const cfg: Config
    const tl: Timeline
    var time: nat
    var registry: Option<SessionState>
    ghost var spawned: seq<Spawn>
    ghost var signals: seq<Sent>
    ghost var marks: seq<Mark>
    /** A failed registry write and a failed cleanup have met in one `ensure`. */
    ghost var orphaned: bool

    /** The instants between calls, and the stops for idleness. */
    ghost var moments: seq<Moment>
    ghost var idleStops: seq<IdleStop>

    constructor (cfg: Config, tl: Timeline, time: nat)
      requires Lawful(tl, cfg) && Validated(cfg)
      ensures this.cfg == cfg && this.tl == tl && this.time == time
      ensures registry.None? && spawned == [] && !orphaned && marks == [] && signals == [] && moments == []
      ensures idleStops == []
      ensures Inv() && IdleInv() && Grouped() && AllJustified(tl, signals) && AllCutSafe(cfg, marks)
    {
      this.cfg, this.tl, this.time := cfg, tl, time;
      registry, spawned, signals, marks, orphaned, moments, idleStops := None, [], [], [], false, [], [];
    }

    ghost predicate Inv()
      reads this
    {
      Lawful(tl, cfg) && Validated(cfg) && Leaders(cfg, tl, time, registry, spawned)
    }

    ghost predicate IdleInv()
      reads this
    {
      && ClockMonotone(tl) && Before(moments, time)
      && (registry.Some? ==> Settled(cfg, tl, registry.value.presence, moments))
      && (forall k :: 0 <= k < |idleStops| ==> Idle(cfg, tl, idleStops[k]))
    }

    /** Only groups are on record, and only groups have been signalled. */
    ghost predicate Grouped()
      reads this
    {
      AllGrouped(Components(registry)) && GroupSignals(signals)
    }

    /** What every call keeps, and what it keeps even if it starts components. */
    twostate predicate KeepsRest()
      reads this
    {
      && (old(IdleInv()) ==> IdleInv()) && (old(Grouped()) ==> Grouped())
      && (old(AllJustified(tl, signals)) ==> AllJustified(tl, signals))
      && (old(AllCutSafe(cfg, marks)) ==> AllCutSafe(cfg, marks))
    }

    twostate predicate Keeps()
      reads this
    {
      (old(Inv()) ==> Inv()) && KeepsRest()
    }

    /** Only time has passed. */
    twostate lemma {:induction false} Later()
      requires old(time) <= time && registry == old(registry) && spawned == old(spawned)
      requires moments == old(moments) && idleStops == old(idleStops) && signals == old(signals) && marks == old(marks)
      ensures Keeps()
    {
      if old(Inv()) {
        CoveredLater(cfg, tl, old(time), time, registry, spawned);
      }
    }

    method Pass(n: nat)
      modifies this`time
      ensures time == old(time) + n
      ensures Keeps()
    {
      time := time + n;
      Later();
    }

    // ---- The registry file --------------------------------------------------------------------------------

    /** Look at every configured component, one instant each. */
    method ScanComponents(st: SessionState) returns (scan: Scan)
      modifies this`time
      ensures time == old(time) + |cfg.components|
      ensures scan == ScanConfigured(cfg, tl, old(time), st, |cfg.components|)
    {
      var dead: seq<string>, alive: nat := [], 0;
      for k := 0 to |cfg.components|
        invariant time == old(time) + k && Scan(dead, alive) == ScanConfigured(cfg, tl, old(time), st, k)
      {
        var configured := cfg.components[k];
        var recorded := Find(st.components, configured.name);
        if recorded.None? {
          if configured.required {
            dead := dead + [configured.name];
          }
        } else if Serves(tl(time), configured, recorded.value) {
          alive := alive + 1;
        } else {
          dead := dead + [recorded.value.name];
        }
        time := time + 1;
      }
      return Scan(dead, alive);
    }

    /** The recorded components that the configuration does not know, in recorded order. */
    method FindUnknown(components: seq<ComponentState>) returns (unknown: seq<string>)
      ensures unknown == Unknown(cfg, components)
    {
      unknown := [];
      for k := 0 to |components|
        invariant unknown == Unknown(cfg, components[..k])
      {
        var upTo := components[..k + 1];
        assert upTo[..k] == components[..k];
        if FindConfig(cfg.components, components[k].name).None? {
          unknown := unknown + [components[k].name];
        }
      }
      assert components[..|components|] == components;
    }

    /** `status`: what it reports is the status of the registry from the instant it was read. */
    method ReadStatus() returns (r: Option<Status>)
      modifies this`time
      ensures time > old(time)
      ensures if r.Some? then r.value == StatusAt(cfg, tl, old(time) + 1, registry) else tl(time).fault
      ensures Keeps()
    {
      time := time + 1;
      if tl(time).fault {
        Later();
        return None;
      }
      if registry.None? {
        Later();
        return Some(Status(Missing, None, []));
      }
      var st := registry.value;
      var dead, alive := ["session-registry"], 0;
      if Belongs(cfg, tl(time), st) {
        var scan := ScanComponents(st);
        var unknown := FindUnknown(st.components);
        dead, alive := scan.dead + unknown, scan.alive;
      }
      Later();
      return Some(Status(if dead == [] then Healthy else if alive == 0 then Dead else Degraded, registry, dead));
    }

    /** `write_state`: the file is replaced atomically or not at all. */
    method WriteState(st: SessionState) returns (ok: bool)
      modifies this`time, this`registry
      ensures time == old(time) + 1 && ok == !tl(time).fault
      ensures registry == if ok then Some(st) else old(registry)
    {
      time := time + 1;
      if tl(time).fault {
        return false;
      }
      registry := Some(st);
      return true;
    }

    /** Write new client bookkeeping for the session on record. */
    method WritePresence(st: SessionState, p: Presence) returns (ok: bool)
      requires registry == Some(st) && PresenceChange(cfg, tl(time).clock, st.presence, p)
      modifies this`time, this`registry
      ensures time == old(time) + 1 && ok == !tl(time).fault
      ensures registry == if ok then Some(st.(presence := p)) else old(registry)
      ensures Keeps()
    {
      if IdleInv() {
        PresenceSettled(cfg, tl, st.presence, p, moments, time);
      }
      ok := WriteState(st.(presence := p));
      if old(Inv()) {
        CoveredLater(cfg, tl, old(time), time, Some(st), spawned);
        CoveredSame(cfg, tl, time, st, st.(presence := p), spawned);
      }
    }

    // ---- Stopping ---------------------------------------------------------------------------------------

    /** Signal one target if it is still alive; a failed signal counts only if it still is. */
    method SignalOne(c: ComponentState, authorized: bool, ghost authorizedAt: nat, kill: bool) returns (ok: bool)
      requires authorized ==>
        && authorizedAt <= time && Matches(tl(authorizedAt), c, ForSignal) && (c.processGroup ==> c.pgid == Some(c.pid))
      modifies this`time, this`signals
      ensures time > old(time)
      ensures old(signals) <= signals && |signals| <= |old(signals)| + 1
      ensures |signals| > |old(signals)| ==>
        var s := signals[|old(signals)|];
        && s.record == c && s.authorizedAt == authorizedAt && s.kill == kill && Justified(tl, s)
        && authorized && s.checkedAt == old(time) + 1 && s.at <= time
      ensures authorized && signals == old(signals) ==> SeenStopped(tl, old(time), time, c)
      ensures ok <==> signals == old(signals) || Delivered(tl, signals[|old(signals)|])
      ensures !ok ==> authorized && TargetAlive(tl(time), c)
    {
      time := time + 1;
      if authorized && TargetAlive(tl(time), c) {
        ghost var checked := time;
        time := time + 1 + tl(time).lag;
        signals := signals + [Sent(c, authorizedAt, checked, time, kill)];
        if tl(time).fault {
          time := time + 1;
          return !TargetAlive(tl(time), c);
        }
      }
      return true;
    }

    /** Signal the authorized targets that are still alive, the last component first. */
    method SignalPass(components: seq<ComponentState>, authorized: seq<bool>, ghost authorizedAt: seq<nat>, kill: bool)
      returns (ok: bool, ghost order: seq<nat>)
      requires |components| == |authorized| == |authorizedAt|
      requires forall j :: 0 <= j < |components| && authorized[j] ==>
        && authorizedAt[j] <= time && Matches(tl(authorizedAt[j]), components[j], ForSignal)
        && (components[j].processGroup ==> components[j].pgid == Some(components[j].pid))
      modifies this`time, this`signals
      ensures time >= old(time) && SignalsFor(tl, components, authorizedAt, old(signals), signals)
      ensures PassOf(components, authorized, order, kill, old(time), time, signals[|old(signals)|..])
      ensures ok ==> forall j :: 0 <= j < |components| && authorized[j] ==>
        j in order || SeenStopped(tl, old(time), time, components[j])
      ensures ok <==> AllDelivered(tl, |old(signals)|, signals)
      ensures !ok ==> SomeAlive(tl, old(time), time, components, authorized)
    {
      var k := |components|;
      order := [];
      while k > 0
        invariant 0 <= k <= |components|
        invariant PassState(tl, components, authorized, authorizedAt, k, order, kill, old(time), time,
                            old(signals), signals)
        invariant AllDelivered(tl, |old(signals)|, signals)
      {
        k := k - 1;
        ghost var before, at := signals, time;
        ok := SignalOne(components[k], authorized[k], authorizedAt[k], kill);
        if |signals| > |before| {
          PassSends(tl, components, authorized, authorizedAt, k, order, kill, old(time), at, time, old(signals), before,
                    signals[|before|]);
          assert signals == before + [signals[|before|]];
          order := order + [k];
        } else {
          assert signals == before;
          if authorized[k] {
            SeenSince(tl, old(time), at, time, components[k]);
          }
          PassSkips(tl, components, authorized, authorizedAt, k, order, kill, old(time), at, time, old(signals),
                    signals);
        }
        if !ok {
          assert !Delivered(tl, signals[|before|]);
          return;
        }
      }
      return true, order;
    }

    /** `all_targets_stopped`, or the list of survivors being empty: each target is looked at once. */
    method AllStopped(components: seq<ComponentState>, authorized: seq<bool>)
      returns (stopped: bool, ghost seen: seq<nat>)
      requires |components| == |authorized|
      modifies this`time
      ensures time >= old(time)
      ensures stopped ==> |seen| == |components| && forall j :: 0 <= j < |components| ==>
        old(time) < seen[j] <= time && (authorized[j] ==> !TargetAlive(tl(seen[j]), components[j]))
      ensures !stopped ==> SomeAlive(tl, old(time), time, components, authorized)
    {
      stopped, seen := true, [];
      for k := 0 to |components|
        invariant time >= old(time) && |seen| == k
        invariant !stopped ==> SomeAlive(tl, old(time), time, components, authorized)
        invariant stopped ==> forall j :: 0 <= j < k ==>
          old(time) < seen[j] <= time && (authorized[j] ==> !TargetAlive(tl(seen[j]), components[j]))
      {
        time := time + 1;
        seen := seen + [time];
        if authorized[k] && TargetAlive(tl(time), components[k]) {
          stopped := false;
        }
      }
    }

    /** Poll until every target has stopped or the timeout is over. */
    method WaitStopped(components: seq<ComponentState>, authorized: seq<bool>)
      requires |components| == |authorized|
      modifies this`time
      ensures time >= old(time) && Waited(tl, old(time), time, components, authorized)
    {
      var polls := tl(time).polls;
      ghost var looks: nat := 0;
      while polls > 0
        invariant time >= old(time) && looks + polls == tl(old(time)).polls
        invariant WaitedOut(tl, old(time), time, components, authorized, looks)
        decreases polls
      {
        ghost var mid := time;
        var stopped, seen := AllStopped(components, authorized);
        if stopped {
          forall j | 0 <= j < |components| && authorized[j] ensures SeenStopped(tl, old(time), time, components[j]) {
            assert old(time) < seen[j] <= time && !TargetAlive(tl(seen[j]), components[j]);
          }
          return;
        }
        assert WaitedOut(tl, old(time), mid, components, authorized, looks);
        looks := looks + 1;
        polls := polls - 1;
      }
    }

    /** Decide once, for each component, whether it may be signalled. */
    method Authorize(st: SessionState) returns (authorized: seq<bool>, ghost at: seq<nat>)
      modifies this`time
      ensures time == old(time) + |st.components| && |authorized| == |at| == |st.components|
      ensures forall j :: 0 <= j < |st.components| ==>
        at[j] == old(time) + 1 + j && (authorized[j] <==> Authorized(cfg, tl, old(time), st, j))
    {
      var owned := Belongs(cfg, tl(time), st);
      authorized, at := [], [];
      for k := 0 to |st.components|
        invariant time == old(time) + k && |authorized| == |at| == k
        invariant forall j :: 0 <= j < k ==>
          at[j] == old(time) + 1 + j && (authorized[j] <==> Authorized(cfg, tl, old(time), st, j))
      {
        time := time + 1;
        var c := st.components[k];
        var own := !c.processGroup || c.pgid == Some(c.pid);
        authorized := authorized + [owned && Matches(tl(time), c, ForSignal) && own];
        at := at + [time];
      }
    }

    /** The first half: terminations for every authorized target, and the wait after them. */
    method TerminateAndWait(components: seq<ComponentState>, authorized: seq<bool>, ghost at: seq<nat>)
      returns (ok: bool, ghost terms: seq<nat>, ghost termed: nat)
      requires |components| == |authorized| == |at|
      requires forall j :: 0 <= j < |components| && authorized[j] ==>
        && at[j] <= time && Matches(tl(at[j]), components[j], ForSignal)
        && (components[j].processGroup ==> components[j].pgid == Some(components[j].pid))
      modifies this`time, this`signals
      ensures old(time) <= termed <= time && SignalsFor(tl, components, at, old(signals), signals)
      ensures PassOf(components, authorized, terms, false, old(time), termed, signals[|old(signals)|..])
      ensures ok ==> forall j :: 0 <= j < |components| && authorized[j] ==>
        j in terms || SeenStopped(tl, old(time), termed, components[j])
      ensures ok <==> AllDelivered(tl, |old(signals)|, signals)
      ensures if ok then Waited(tl, termed, time, components, authorized)
        else termed == time && SomeAlive(tl, old(time), time, components, authorized)
    {
      ok, terms := SignalPass(components, authorized, at, false);
      termed := time;
      if ok {
        WaitStopped(components, authorized);
      }
    }

    /** Terminate, wait, kill and wait. Unless a signal fails on a living target, every authorized
        target is sent both signals, in that order, or was seen dead before. */
    method TerminateThenKill(components: seq<ComponentState>, authorized: seq<bool>, ghost at: seq<nat>)
      returns (ok: bool, ghost tr: StopTrace)
      requires |components| == |authorized| == |at|
      requires forall j :: 0 <= j < |components| && authorized[j] ==>
        && at[j] <= time && Matches(tl(at[j]), components[j], ForSignal)
        && (components[j].processGroup ==> components[j].pgid == Some(components[j].pid))
      modifies this`time, this`signals
      ensures time >= old(time) && SignalsFor(tl, components, at, old(signals), signals)
      ensures TermThenKill(tl, components, authorized, old(time), time, signals[|old(signals)|..], tr)
      ensures ok ==> forall j :: 0 <= j < |components| && authorized[j] ==>
        j in tr.terms || SeenStopped(tl, old(time), tr.termed, components[j])
      ensures ok ==> forall j :: 0 <= j < |components| && authorized[j] ==>
        j in tr.kills || SeenStopped(tl, tr.waited, time, components[j])
      ensures ok <==> AllDelivered(tl, |old(signals)|, signals)
      ensures !ok ==> SomeAlive(tl, old(time), time, components, authorized)
    {
      ghost var n, terms, termed, kills := |signals|, [], 0, [];
      ok, terms, termed := TerminateAndWait(components, authorized, at);
      tr := StopTrace(terms, [], termed, termed);
      if !ok {
        TraceOfTerms(tl, components, authorized, old(time), time, signals[n..], terms);
        return;
      }
      ghost var waited, first := time, signals;
      ok, kills := SignalPass(components, authorized, at, true);
      ghost var killed := time;
      tr := StopTrace(terms, kills, termed, waited);
      assert signals[n..] == first[n..] + signals[|first|..];
      TraceOfBoth(tl, components, authorized, old(time), time, first[n..], signals[|first|..], tr);
      DeliveredInBoth(tl, n, first, signals);
      if ok {
        WaitStopped(components, authorized);
        TraceLater(tl, components, authorized, old(time), killed, time, signals[n..], tr);
        SeenLater(tl, waited, killed, time, components, authorized, kills);
      }
    }

    /** The signalling part of `stop_state`: it fails only if an authorized target stays alive. */
    method StopTargets(st: SessionState) returns (ok: bool, ghost tr: StopTrace)
      requires Lawful(tl, cfg)
      modifies this`time, this`signals
      ensures time >= old(time) && OnlyJustified(tl, old(time), old(signals), signals)
      ensures forall k :: |old(signals)| <= k < |signals| ==> signals[k].record in st.components
      ensures StopsInOrder(cfg, tl, old(time), time, st, signals[|old(signals)|..], tr)
      ensures !ok ==> Survivor(cfg, tl, old(time), time, st)
      ensures ok ==> Retired(cfg, tl, old(time), time, st) && LeadersGone(cfg, tl, old(time), time, st)
      ensures ok ==> AllDelivered(tl, |old(signals)|, signals)
    {
      ghost var start := time;
      var authorized, at := Authorize(st);
      ghost var began := time;
      ok, tr := TerminateThenKill(st.components, authorized, at);
      JustifiedSince(tl, start, st.components, at, old(signals), signals);
      OrderedSince(cfg, tl, start, began, time, time, st, authorized, signals[|old(signals)|..], tr);
      if !ok {
        AliveIsSurvivor(cfg, tl, start, began, time, time, st, authorized);
        return;
      }
      ghost var killed := time;
      ghost var seen;
      ok, seen := AllStopped(st.components, authorized);
      OrderedSince(cfg, tl, start, began, killed, time, st, authorized, signals[|old(signals)|..], tr);
      if ok {
        AllGone(cfg, tl, st, start, authorized, seen, time);
      } else {
        AliveIsSurvivor(cfg, tl, start, killed, time, time, st, authorized);
      }
    }

    /** `stop_state`: on success no leader that the state lists is alive and the registry is gone;
        on failure the registry is kept. Every signal is justified by an authentication made
        in this call. */
    method StopState(st: SessionState) returns (ok: bool, ghost tr: StopTrace)
      requires Lawful(tl, cfg)
      modifies this`time, this`registry, this`signals
      ensures time >= old(time) && OnlyJustified(tl, old(time), old(signals), signals)
      ensures forall k :: |old(signals)| <= k < |signals| ==> signals[k].record in st.components
      ensures StopsInOrder(cfg, tl, old(time), time, st, signals[|old(signals)|..], tr)
      ensures old(AllJustified(tl, signals)) ==> AllJustified(tl, signals)
      ensures old(GroupSignals(signals)) && AllGrouped(st.components) ==> GroupSignals(signals)
      ensures if ok then registry.None? else registry == old(registry)
      ensures !ok ==> Survivor(cfg, tl, old(time), time, st) || tl(time).fault
      ensures ok ==> Retired(cfg, tl, old(time), time, st) && LeadersGone(cfg, tl, old(time), time, st)
      ensures ok ==> AllDelivered(tl, |old(signals)|, signals)
      ensures ok ==> old(time) + 2 <= time && !tl(time - 1).fault && (old(registry).Some? ==> !tl(time).fault)
    {
      ok, tr := StopTargets(st);
      SignalsKept(tl, old(time), st.components, old(signals), signals);
      if !ok {
        return;
      }
      ghost var quiet := time;
      ok := RemoveSession();
      InOrderLater(cfg, tl, old(time), quiet, time, st, signals[|old(signals)|..], tr);
      GoneForGood(cfg, tl, old(time), quiet, time, st);
    }

    /** The runtime paths first, then the registry file, if it is there. */
    method RemoveSession() returns (ok: bool)
      modifies this`time, this`registry
      ensures time > old(time) && (if ok then registry.None? else registry == old(registry) && tl(time).fault)
      ensures ok ==> time == old(time) + 2 && !tl(time - 1).fault && (old(registry).Some? ==> !tl(time).fault)
    {
      time := time + 1;
      if tl(time).fault {
        return false;  // cleaning up the runtime paths failed
      }
      time := time + 1;
      if registry.Some? && tl(time).fault {
        return false;  // removing the registry file failed
      }
      registry := None;
      return true;
    }

    /** The same for callers who do not care how it went. */
    method StopRecorded(st: SessionState) returns (ok: bool)
      requires Lawful(tl, cfg)
      modifies this`time, this`registry, this`signals
      ensures time >= old(time)
      ensures old(AllJustified(tl, signals)) ==> AllJustified(tl, signals)
      ensures old(GroupSignals(signals)) && AllGrouped(st.components) ==> GroupSignals(signals)
      ensures if ok then registry.None? else registry == old(registry)
      ensures !ok ==> Survivor(cfg, tl, old(time), time, st) || tl(time).fault
      ensures ok ==> Retired(cfg, tl, old(time), time, st) && LeadersGone(cfg, tl, old(time), time, st)
    {
      ghost var tr;
      ok, tr := StopState(st);
    }

    /** `stop_locked`: afterwards either no registry and no leader is left, or the registry is kept. */
    method StopLocked() returns (ok: bool, ghost began: nat)
      requires Lawful(tl, cfg)
      modifies this`time, this`registry, this`signals
      ensures old(time) < began <= time
      ensures if ok then registry.None? else registry == old(registry)
      ensures ok && old(registry).Some? ==> Retired(cfg, tl, began, time, old(registry).value)
      ensures !ok ==> tl(time).fault || (old(registry).Some? && Survivor(cfg, tl, began, time, old(registry).value))
      ensures Keeps()
    {
      var status := ReadStatus();
      began := time;
      if status.None? {
        return false, began;
      }
      if status.value.state.None? {
        return true, began;
      }
      ok := StopRecorded(status.value.state.value);
      if old(Inv()) {
        StopStands(began, old(registry).value);
      }
    }

    lemma {:induction false} StopStands(began: nat, st: SessionState)
      requires Lawful(tl, cfg) && Validated(cfg) && began <= time && Leaders(cfg, tl, began, Some(st), spawned)
      requires registry == Some(st) || (registry.None? && LeadersGone(cfg, tl, began, time, st))
      ensures Inv()
    {
      if registry.None? {
        StoppedAll(cfg, tl, began, time, st, spawned);
      } else {
        CoveredLater(cfg, tl, began, time, registry, spawned);
      }
    }

    /** `stop` */
    method StopSession() returns (report: Option<Status>, ghost began: nat)
      requires Lawful(tl, cfg)
      modifies this`time, this`registry, this`signals
      ensures old(time) < began <= time
      ensures registry.None? || registry == old(registry)
      ensures report.Some? ==> registry.None? && report.value == Status(Missing, None, [])
      ensures report.Some? && old(registry).Some? ==> Retired(cfg, tl, began, time, old(registry).value)
      ensures report.None? ==>
        tl(time).fault || (old(registry).Some? && Survivor(cfg, tl, began, time, old(registry).value))
      ensures Keeps()
    {
      Pass(1);
      began := time;
      if tl(time).fault {
        return None, began;
      }
      var ok;
      ok, began := StopLocked();
      if !ok {
        return None, began;
      }
      ghost var ended := time;
      report := ReadStatus();
      if old(registry).Some? {
        RetiredLater(cfg, tl, began, ended, time, old(registry).value);
      }
    }

    // ---- Clients ----------------------------------------------------------------------------------------

    /** `bind_single_client`: the one client is recorded only for a session that can be served. */
    method BindSingleClient() returns (report: Option<Status>, ghost bound: bool)
      modifies this`time, this`registry
      ensures time > old(time) && (report.Some? ==> bound) && (report.None? && bound ==> tl(time).fault)
      ensures bound ==>
        && old(registry).Some? && registry == AfterBind(old(registry))
        && CanServe(cfg, StatusAt(cfg, tl, old(time) + 2, old(registry)))
      ensures !bound ==>
        && registry == old(registry)
        && (tl(time).fault || !CanServe(cfg, StatusAt(cfg, tl, old(time) + 2, old(registry))))
      ensures Keeps()
    {
      bound := false;
      Pass(1);
      if tl(time).fault {
        return None, bound;
      }
      var status := ReadStatus();
      if status.None? || !CanServe(cfg, status.value) {
        return None, bound;
      }
      var st := status.value.state.value;
      var ok := WritePresence(st, BoundOnce(st.presence));
      if !ok {
        return None, bound;
      }
      bound := true;
      report := ReadStatus();
    }

    /** `unbind_single_client`: the idle period starts now. */
    method UnbindSingleClient() returns (report: Option<Status>, ghost now: nat)
      modifies this`time, this`registry
      ensures old(time) < now <= time
      ensures registry == old(registry) || registry == AfterRelease(cfg, old(registry), tl(now).clock)
      ensures report.None? ==> tl(time).fault
      ensures report.Some? ==> registry == AfterRelease(cfg, old(registry), tl(now).clock)
      ensures Keeps()
    {
      Pass(1);
      now := time;
      if tl(time).fault {
        return None, now;
      }
      var status := ReadStatus();
      if status.None? || status.value.state.None? {
        return status, now;
      }
      var st := status.value.state.value;
      now := time;
      var ok := WritePresence(st, Released(cfg, st.presence, tl(time).clock));
      if !ok {
        return None, now;
      }
      report := ReadStatus();
    }

    /** `disconnect_client`: one client fewer, never below none; the last starts the idle period. */
    method DisconnectClient() returns (report: Option<Status>, ghost now: nat)
      modifies this`time, this`registry
      ensures old(time) < now <= time
      ensures registry == old(registry) || registry == AfterOneLeft(cfg, old(registry), tl(now).clock)
      ensures report.None? ==> tl(time).fault
      ensures report.Some? ==> registry == AfterOneLeft(cfg, old(registry), tl(now).clock)
      ensures Keeps()
    {
      Pass(1);
      now := time;
      if tl(time).fault {
        return None, now;
      }
      var status := ReadStatus();
      if status.None? || status.value.state.None? {
        return status, now;
      }
      var st := status.value.state.value;
      now := time;
      var left := Leave(cfg, st.presence, tl(time).clock);
      var ok := WritePresence(st, left);
      if !ok {
        return None, now;
      }
      report := ReadStatus();
    }

    /** `cleanup_idle_locked`: the session is stopped only without clients and past its deadline,
        and otherwise left alone. */
    method CleanupIdleLocked() returns (r: Option<bool>, ghost attempted: bool, ghost began: nat)
      requires Lawful(tl, cfg)
      modifies this`time, this`registry, this`signals, this`idleStops
      ensures time > old(time)
      ensures if r == Some(true) then attempted && registry.None? else registry == old(registry)
      ensures if attempted
        then IdleStopOf(cfg, tl, old(time), time, old(registry), moments, old(idleStops), idleStops)
        else idleStops == old(idleStops) && signals == old(signals)
      ensures !attempted ==>
        if r.None? then tl(time).fault
        else old(registry).None? || !Overdue(cfg, old(registry).value.presence, tl(time).clock)
      ensures attempted ==> (r.None? || r.value) && old(time) < began <= time
      ensures r == Some(true) ==> Retired(cfg, tl, began, time, old(registry).value)
      ensures attempted && r.None? ==> tl(time).fault || Survivor(cfg, tl, began, time, old(registry).value)
      ensures Keeps()
    {
      attempted, began := false, time;
      var status := ReadStatus();
      if status.None? {
        return None, attempted, began;
      }
      if status.value.health == Missing || status.value.state.None? {
        return Some(false), attempted, began;
      }
      var st := status.value.state.value;
      if st.presence.activeClients > 0 {
        return Some(false), attempted, began;
      }
      var deadline := EffectiveIdleDeadline(cfg, st.presence);
      if deadline.None? || tl(time).clock < deadline.value {
        return Some(false), attempted, began;
      }
      attempted := true;
      NoteIdleStop(st);
      var ok;
      ok, began := StopLocked();
      r := if ok then Some(true) else None;
    }

    ghost method NoteIdleStop(st: SessionState)
      requires registry == Some(st) && Overdue(cfg, st.presence, tl(time).clock)
      modifies this`idleStops
      ensures idleStops == old(idleStops) + [IdleStop(time, moments)]
      ensures Keeps()
    {
      if IdleInv() {
        OverdueIsIdle(cfg, tl, st.presence, moments, time);
      }
      idleStops := idleStops + [IdleStop(time, moments)];
    }

    /** `cleanup_idle` */
    method CleanupIdle() returns (r: Option<bool>, ghost attempted: bool, ghost began: nat)
      requires Lawful(tl, cfg)
      modifies this`time, this`registry, this`signals, this`idleStops
      ensures time > old(time)
      ensures if r == Some(true) then attempted && registry.None? else registry == old(registry)
      ensures if attempted
        then IdleStopOf(cfg, tl, old(time), time, old(registry), moments, old(idleStops), idleStops)
        else idleStops == old(idleStops) && signals == old(signals)
      ensures !attempted ==>
        if r.None? then tl(time).fault
        else old(registry).None? || !Overdue(cfg, old(registry).value.presence, tl(time).clock)
      ensures attempted ==> (r.None? || r.value) && old(time) < began <= time
      ensures r == Some(true) ==> Retired(cfg, tl, began, time, old(registry).value)
      ensures attempted && r.None? ==> tl(time).fault || Survivor(cfg, tl, began, time, old(registry).value)
      ensures Keeps()
    {
      Pass(1);
      if tl(time).fault {
        return None, false, time;
      }
      r, attempted, began := CleanupIdleLocked();
    }

    /** `reconcile_after_daemon_restart`: nobody counts as connected any more, an idle period that
        is not on record starts now, and an overdue session is stopped at once. */
    method ReconcileAfterDaemonRestart() returns (report: Option<Status>, ghost now: nat)
      requires Lawful(tl, cfg)
      modifies this`time, this`registry, this`signals, this`idleStops
      ensures old(time) < now <= time
      ensures
        || registry.None? || registry == old(registry)
        || registry == AfterReconcile(cfg, old(registry), tl(now).clock)
      ensures report.Some? && registry.Some? ==>
        && registry == AfterReconcile(cfg, old(registry), tl(now).clock)
        && registry.value.presence.activeClients == 0 && registry.value.presence.lastDisconnected.Some?
        && (cfg.idleTimeout > 0 ==> registry.value.presence.idleDeadline.Some?)
        && !Overdue(cfg, registry.value.presence, tl(now).clock)
      ensures report.Some? && registry.None? && old(registry).Some? ==>
        OverdueBy(cfg, tl, now, time, Reconciled(cfg, old(registry).value.presence, tl(now).clock))
      ensures Keeps()
    {
      report, now := ForgetClients();
      if report.None? || report.value.state.None? {
        return;
      }
      ghost var settled := registry;
      var cleaned, attempted, _ := CleanupIdleLocked();
      assert ClockFrom(tl, now);
      if cleaned.None? {
        return None, now;
      }
      assert attempted ==> registry.None? && OverdueBy(cfg, tl, now, time, settled.value.presence);
      report := ReadStatus();
    }

    /** Its first part: the bookkeeping is fixed up, and written if that changed anything. */
    method ForgetClients() returns (status: Option<Status>, ghost now: nat)
      modifies this`time, this`registry
      ensures old(time) < now <= time
      ensures status.None? ==> tl(time).fault && registry == old(registry)
      ensures status.Some? ==>
        && registry == AfterReconcile(cfg, old(registry), tl(now).clock)
        && (status.value.state.None? <==> registry.None?)
      ensures Keeps()
    {
      Pass(1);
      now := time;
      if tl(time).fault {
        return None, now;
      }
      status := ReadStatus();
      if status.None? || status.value.state.None? {
        return;
      }
      var st := status.value.state.value;
      now := time;
      var reconciled, changed := Reconciliation(cfg, st.presence, tl(time).clock);
      if changed {
        var ok := WritePresence(st, reconciled);
        if !ok {
          return None, now;
        }
      }
    }

    // ---- Starting ---------------------------------------------------------------------------------------

    /** `spawn_component`: the leader it records is the process it spawned, seen alive under the
        user's id; a child that does not get there is terminated and not recorded. */
    method SpawnComponent(configured: ComponentConfig) returns (c: Option<ComponentState>, ghost s: Spawn)
      requires Lawful(tl, cfg) && configured.command != []
      modifies this`time, this`spawned
      ensures time > old(time)
      ensures spawned == if c.Some? then old(spawned) + [s] else old(spawned)
      ensures c.None? ==> SpawnFailed(cfg, tl, old(time), time)
      ensures c.Some? ==>
        && s.name == c.value.name == configured.name && c.value.command == configured.command
        && old(time) < s.at && s.settled <= time && Started(cfg, tl, s) && RecordOf(cfg, c.value, s.inst)
        && c.value.startedAt == tl(time).clock
    {
      time := time + 1;
      var pid := tl(time).child;
      assert SpawnLives(tl, time);
      s := Spawn(configured.name, Instance("", 0, 0), time, time);
      if pid.None? {
        return None, s;
      }
      var child := Instance(tl(time).boot, pid.value, tl(time).table[pid.value].ticks);
      assert Child(tl(time), child);
      var identity, at := SettleIdentity(tl, child, cfg.uid, time + 1);
      s := Spawn(configured.name, child, time, at);
      time := at;
      if identity.None? {
        assert ChildFailed(cfg, tl, s.at, child, time);
        return None, s;
      }
      assert Behaves(tl, cfg, child);
      var id := identity.value;
      spawned := spawned + [s];
      c := Some(ComponentState(configured.name, child.pid, configured.command, tl(time).clock,
                               id.startTicks, id.bootId, id.uid, id.pgid, true));
    }

    /** `wait_until_ready`: a required component has been seen authenticated and ready; an optional
        one may die or stay unready. */
    method WaitUntilReady(configured: ComponentConfig, st: SessionState) returns (ok: bool)
      modifies this`time
      ensures time > old(time)
      ensures if ReadyAt(tl(time), configured, st) then ok
        else ok == !configured.required && StayedUnready(tl, old(time), time, configured, st)
    {
      var polls := tl(time).polls;
      while true
        invariant time >= old(time) && time + polls == old(time) + tl(old(time)).polls
        invariant forall t :: old(time) < t <= time ==> !ReadyAt(tl(t), configured, st)
        decreases polls
      {
        time := time + 1;
        var recorded := Find(st.components, configured.name);
        if recorded.None? || !Matches(tl(time), recorded.value, ForStatus) {
          return !configured.required;
        }
        if Accepts(tl(time), configured.readiness) {
          assert ReadyAt(tl(time), configured, st);
          return true;
        }
        if polls == 0 {
          return !configured.required;
        }
        polls := polls - 1;
      }
    }

    ghost method Note(st: SessionState, start: nat, batch: seq<Spawn>, listed: nat)
      requires Batch(cfg, tl, start, time, st.components, batch) && WrittenUpTo(registry, st, listed)
      requires |batch| <= listed + 1
      modifies this`marks
      ensures old(AllCutSafe(cfg, marks)) ==> AllCutSafe(cfg, marks)
      ensures marks == old(marks) + [Mark(st.components, Components(registry))]
    {
      BatchCutSafe(cfg, tl, start, time, st, batch, registry, listed);
      marks := marks + [Mark(st.components, Components(registry))];
    }

    /** The startup loop of `ensure`: spawn, record, write and wait, component by component. It
        returns the state in memory, and which step failed, if any; `batch` are the leaders
        started and `listed` how many of them are in the registry. */
    method StartComponents(initial: SessionState)
      returns (st: SessionState, failed: bool, atWrite: bool, ghost batch: seq<Spawn>, ghost listed: nat)
      requires Lawful(tl, cfg) && Validated(cfg) && registry.None? && initial.components == []
      modifies this`time, this`registry, this`spawned, this`marks
      ensures time >= old(time) && SameSession(initial, st)
      ensures spawned == old(spawned) + batch && Batch(cfg, tl, old(time), time, st.components, batch)
      ensures WrittenUpTo(registry, st, listed) && CutAt(failed, atWrite, |batch|, listed)
      ensures atWrite ==> tl(time).fault
      ensures !failed ==> |batch| == |cfg.components| && AllReady(cfg, tl, old(time), time, st, |cfg.components|)
      ensures (old(AllCutSafe(cfg, marks)) ==> AllCutSafe(cfg, marks)) && StartedSince(old(time), batch)
      ensures AllGrouped(st.components) && AllGrouped(Components(registry)) && (atWrite ==> old(time) < time)
      ensures SettledBy(time, batch) && (failed && !atWrite ==> Broke(cfg, tl, old(time), time, batch))
    {
      ghost var start := time;
      st, failed, atWrite, batch, listed := initial, false, false, [], 0;
      Note(st, start, batch, listed);
      var k := 0;
      while k < |cfg.components| && !failed
        invariant start <= time && k <= |cfg.components| && SameSession(initial, st)
        invariant spawned == old(spawned) + batch && Batch(cfg, tl, start, time, st.components, batch)
        invariant WrittenUpTo(registry, st, listed) && CutAt(failed, atWrite, |batch|, listed)
        invariant atWrite ==> tl(time).fault
        invariant !failed ==> |batch| == k && AllReady(cfg, tl, start, time, st, k)
        invariant (atWrite ==> start < time) && (failed && !atWrite ==> Broke(cfg, tl, start, time, batch))
        invariant old(AllCutSafe(cfg, marks)) ==> AllCutSafe(cfg, marks)
        decreases |cfg.components| - k, !failed
      {
        st, failed, atWrite, batch, listed := StartOne(st, k, start, batch, old(spawned));
        if !failed {
          k := k + 1;
        }
      }
      BatchSince(cfg, tl, start, time, st.components, batch);
      BatchGrouped(cfg, tl, start, time, st, batch, registry, listed);
    }

    /** Spawn the next component and add its record to the state in memory. */
    method AddComponent(before: SessionState, k: nat, ghost start: nat, ghost sofar: seq<Spawn>,
                        ghost earlier: seq<Spawn>)
      returns (st: SessionState, ok: bool, ghost batch: seq<Spawn>)
      requires Lawful(tl, cfg) && Validated(cfg) && start <= time
      requires k < |cfg.components| && |sofar| == k && spawned == earlier + sofar
      requires Batch(cfg, tl, start, time, before.components, sofar) && WrittenUpTo(registry, before, k)
      requires AllReady(cfg, tl, start, time, before, k)
      modifies this`time, this`spawned
      ensures time >= old(time) && SameSession(before, st) && (!ok ==> st == before)
      ensures spawned == earlier + batch && |batch| == (if ok then k + 1 else k)
      ensures Batch(cfg, tl, start, time, st.components, batch) && WrittenUpTo(registry, st, k)
      ensures ok ==> WrittenUpTo(Some(st), st, k + 1) && AllReady(cfg, tl, start, time, st, k)
      ensures !ok ==> SpawnFailed(cfg, tl, old(time), time)
    {
      var c, s := SpawnComponent(cfg.components[k]);
      if c.None? {
        BatchLater(cfg, tl, start, old(time), time, before.components, sofar);
        return before, false, sofar;
      }
      RecordAdded(cfg, tl, start, old(time), time, before, sofar, registry, c.value, s);
      assert earlier + sofar + [s] == earlier + (sofar + [s]);
      return before.(components := before.components + [c.value]), true, sofar + [s];
    }

    /** One round of the startup loop. */
    method StartOne(before: SessionState, k: nat, ghost start: nat, ghost sofar: seq<Spawn>, ghost earlier: seq<Spawn>)
      returns (st: SessionState, failed: bool, atWrite: bool, ghost batch: seq<Spawn>, ghost listed: nat)
      requires Lawful(tl, cfg) && Validated(cfg) && start <= time
      requires k < |cfg.components| && |sofar| == k && spawned == earlier + sofar
      requires Batch(cfg, tl, start, time, before.components, sofar) && WrittenUpTo(registry, before, k)
      requires AllReady(cfg, tl, start, time, before, k)
      modifies this`time, this`registry, this`spawned, this`marks
      ensures time >= old(time) && SameSession(before, st) && (atWrite ==> old(time) < time)
      ensures spawned == earlier + batch && Batch(cfg, tl, start, time, st.components, batch)
      ensures WrittenUpTo(registry, st, listed) && CutAt(failed, atWrite, |batch|, listed)
      ensures atWrite ==> tl(time).fault
      ensures !failed ==> |batch| == k + 1 && AllReady(cfg, tl, start, time, st, k + 1)
      ensures failed && !atWrite ==> Broke(cfg, tl, start, time, batch)
      ensures old(AllCutSafe(cfg, marks)) ==> AllCutSafe(cfg, marks)
    {
      failed, atWrite, listed := true, false, k;
      var ok;
      st, ok, batch := AddComponent(before, k, start, sofar, earlier);
      if !ok {
        assert BrokeAt(cfg, tl, old(time), time, st);
        return;
      }
      Note(st, start, batch, k);
      ok := WriteState(st);
      BatchLater(cfg, tl, start, time - 1, time, st.components, batch);
      if !ok {
        atWrite := true;
        return;
      }
      listed := k + 1;
      Note(st, start, batch, listed);
      ghost var written := time;
      ok := WaitUntilReady(cfg.components[k], st);
      if ok {
        ReadyLater(cfg, tl, start, written, written - 1, time, st, k);
        failed := false;
      } else {
        assert BrokeAt(cfg, tl, written, time, st);
      }
      BatchLater(cfg, tl, start, written, time, st.components, batch);
    }

    /** Without a reboot since, the leaders are covered, unless the newest was lost while it lived. */
    ghost predicate Sound(from: nat, lost: bool, batch: seq<Spawn>)
      reads this
    {
      SameBoot(tl, from, time) ==>
        if lost && batch != [] then Inv() <==> !Live(tl(time), batch[|batch| - 1].inst) else Inv()
    }

    lemma {:induction false} SoundSince(from: nat, mid: nat, lost: bool, batch: seq<Spawn>)
      requires from <= mid <= time && Sound(mid, lost, batch)
      ensures Sound(from, lost, batch)
    {}

    /** Of a startup that began without leaders: they are still covered, unless the newest was lost
        while it lived. */
    ghost predicate Kept(start: nat, earlier: seq<Spawn>, lost: bool, batch: seq<Spawn>)
      reads this
    {
      Leaders(cfg, tl, start, None, earlier) && SameBoot(tl, start, time) ==>
        if lost && batch != [] then Inv() <==> !Live(tl(time), batch[|batch| - 1].inst) else Inv()
    }

    /** A startup that failed is undone from the state in memory. */
    method CleanUpStartup(st: SessionState, atWrite: bool, ghost start: nat, ghost earlier: seq<Spawn>,
                          ghost batch: seq<Spawn>, ghost listed: nat)
      returns (cleaned: bool)
      requires Lawful(tl, cfg) && Validated(cfg) && start <= time && Own(cfg, st)
      requires st.header.bootId == Some(tl(start).boot)
      requires spawned == earlier + batch && Batch(cfg, tl, start, time, st.components, batch)
      requires WrittenUpTo(registry, st, listed) && |batch| == (if atWrite then listed + 1 else listed)
      modifies this`time, this`registry, this`signals, this`orphaned
      ensures time >= old(time)
      ensures old(AllJustified(tl, signals)) ==> AllJustified(tl, signals)
      ensures orphaned == (old(orphaned) || (atWrite && !cleaned))
      ensures registry == if cleaned then None else old(registry)
      ensures !cleaned ==> tl(time).fault || Stranded(cfg, tl, start, old(time), time, batch)
      ensures old(GroupSignals(signals)) && AllGrouped(st.components) ==> GroupSignals(signals)
      ensures Kept(start, earlier, atWrite && !cleaned, batch)
    {
      ghost var mid := time;
      cleaned := StopRecorded(st);
      if cleaned {
        CleanupStands(st, start, mid, earlier, batch);
      } else {
        StartupStands(st, start, mid, earlier, batch, listed);
      }
      orphaned := orphaned || (atWrite && !cleaned);
    }

    lemma {:induction false} StartupStands(st: SessionState, start: nat, mid: nat, earlier: seq<Spawn>,
                                           batch: seq<Spawn>, listed: nat)
      requires Lawful(tl, cfg) && Validated(cfg) && start <= mid <= time && Own(cfg, st)
      requires st.header.bootId == Some(tl(start).boot)
      requires spawned == earlier + batch && Batch(cfg, tl, start, mid, st.components, batch)
      requires WrittenUpTo(registry, st, listed) && listed <= |batch| <= listed + 1
      ensures Kept(start, earlier, |batch| > listed, batch)
    {
      if Leaders(cfg, tl, start, None, earlier) && SameBoot(tl, start, time) {
        StartupCovered(cfg, tl, start, mid, time, earlier, st, batch, registry, listed);
      }
    }

    lemma {:induction false} CleanupStands(st: SessionState, start: nat, mid: nat, earlier: seq<Spawn>,
                                           batch: seq<Spawn>)
      requires Lawful(tl, cfg) && Validated(cfg) && start <= mid <= time && Own(cfg, st)
      requires st.header.bootId == Some(tl(start).boot)
      requires spawned == earlier + batch && Batch(cfg, tl, start, mid, st.components, batch)
      requires registry.None? && LeadersGone(cfg, tl, mid, time, st)
      ensures Kept(start, earlier, false, batch)
    {
      if Leaders(cfg, tl, start, None, earlier) && SameBoot(tl, start, time) {
        StartupUndone(cfg, tl, start, mid, time, earlier, st, batch);
      }
    }

    /** The second half of `ensure`: start everything, or clean up what was started. */
    method LaunchAll(initial: SessionState)
      returns (failed: bool, atWrite: bool, cleaned: bool, ghost batch: seq<Spawn>, ghost done: nat)
      requires Lawful(tl, cfg) && Validated(cfg) && registry.None?
      requires Own(cfg, initial) && initial.components == [] && initial.header.bootId == Some(tl(time).boot)
      modifies this`time, this`registry, this`spawned, this`signals, this`marks, this`orphaned
      ensures time >= old(time)
      ensures old(AllJustified(tl, signals)) ==> AllJustified(tl, signals)
      ensures old(AllCutSafe(cfg, marks)) ==> AllCutSafe(cfg, marks)
      ensures spawned == old(spawned) + batch && StartedSince(old(time), batch) && SettledBy(done, batch)
      ensures (atWrite ==> failed && batch != []) && orphaned == (old(orphaned) || (atWrite && !cleaned))
      ensures registry.Some? ==> SameSession(initial, registry.value)
      ensures if failed then cleaned ==> registry.None? else
        && registry.Some? && |batch| == |cfg.components|
        && AllReady(cfg, tl, old(time), done, registry.value, |cfg.components|)
      ensures old(time) <= done <= time
      ensures failed ==> Explained(cfg, tl, Failed(atWrite, cleaned), old(time), done, time, batch)
      ensures old(Grouped()) ==> Grouped()
      ensures Kept(old(time), old(spawned), atWrite && !cleaned, batch)
    {
      ghost var start, earlier := time, spawned;
      ghost var listed;
      var st;
      cleaned := false;
      st, failed, atWrite, batch, listed := StartComponents(initial);
      done := time;
      if failed {
        cleaned := CleanUpStartup(st, atWrite, start, earlier, batch, listed);
      } else {
        assert st.components[..listed] == st.components;
        StartupStands(st, start, time, earlier, batch, listed);
      }
    }

    /** The first half of `ensure`: a session that can be served is kept, unless a restart is forced;
        any other is stopped before a new one may start. */
    method Examine(force: bool) returns (f: Finding, ghost began: nat)
      requires Lawful(tl, cfg)
      modifies this`time, this`registry, this`signals
      ensures old(time) < time && old(time) <= began <= time
      ensures registry.None? || registry == old(registry)
      ensures f.Serviceable? ==>
        && !force && registry == old(registry) == Some(f.st)
        && CanServe(cfg, StatusAt(cfg, tl, old(time) + 1, old(registry)))
      ensures f.Unusable? ==>
        || tl(time).fault
        || ((force || !CanServe(cfg, StatusAt(cfg, tl, old(time) + 1, old(registry))))
            && old(registry).Some? && Survivor(cfg, tl, began, time, old(registry).value))
      ensures f.Cleared? ==> force || !CanServe(cfg, StatusAt(cfg, tl, old(time) + 1, old(registry)))
      ensures f.Cleared? ==>
        registry.None? && (old(registry).Some? ==> Retired(cfg, tl, began, time, old(registry).value))
      ensures Keeps()
    {
      began := time;
      var status := ReadStatus();
      if status.None? {
        return Unusable, began;
      }
      var ok;
      if force {
        ok, began := StopLocked();
        if !ok {
          return Unusable, began;
        }
        ghost var ended := time;
        status := ReadStatus();
        if status.None? {
          return Unusable, began;
        }
        if old(registry).Some? {
          RetiredLater(cfg, tl, began, ended, time, old(registry).value);
        }
      }
      if CanServe(cfg, status.value) {
        return Serviceable(status.value.state.value), began;
      }
      if status.value.health == Missing {
        return Cleared, began;
      }
      ok, began := StopLocked();
      return if ok then Cleared else Unusable, began;
    }

    /** `ensure`. A session is reused only if it can be served; new components are started only
        after everything on record was seen stopped; and the leaders stay covered, unless a
        failed registry write and a failed cleanup meet: then they are covered exactly if
        the newest leader is dead. */
    method EnsureSession(force: bool, connected: bool)
      returns (outcome: Outcome, ghost batch: seq<Spawn>, ghost began: nat, ghost stopped: nat, ghost ended: nat,
               ghost done: nat)
      requires Lawful(tl, cfg) && Validated(cfg)
      modifies this`time, this`registry, this`spawned, this`signals, this`marks, this`orphaned
      ensures time > old(time)
      ensures spawned == old(spawned) + batch && (batch != [] ==> outcome.Launched? || outcome.Failed?)
      ensures orphaned == (old(orphaned) || Orphans(outcome))
      ensures batch != [] ==> old(time) < began <= stopped < ended <= done <= time
      ensures Accounts(cfg, tl, outcome, force, connected, old(registry), registry, old(time) + 3,
                       began, ended, done, time, batch)
      ensures StartsAfter(cfg, tl, old(registry), began, stopped, ended, done, batch)
      ensures old(Inv()) ==> Sound(old(time), Orphans(outcome), batch)
      ensures KeepsRest()
    {
      outcome, batch, began, stopped, ended, done := Refused, [], time, time, time, time;
      var ok := Acquire();
      if ok {
        ghost var locked := time;
        outcome, batch, began, stopped, ended, done := EnsureLocked(force, connected);
        if old(Inv()) {
          SoundSince(old(time), locked, Orphans(outcome), batch);
        }
      }
    }

    /** Prepare the directories and take the lock. */
    method Acquire() returns (ok: bool)
      modifies this`time
      ensures time > old(time) && (if ok then time == old(time) + 2 else tl(time).fault)
      ensures Keeps()
    {
      Pass(1);
      if tl(time).fault {
        return false;  // the directories cannot be used
      }
      Pass(1);
      return !tl(time).fault;  // unless the lock is held elsewhere
    }

    /** `ensure` once it holds the lock. */
    method EnsureLocked(force: bool, connected: bool)
      returns (outcome: Outcome, ghost batch: seq<Spawn>, ghost began: nat, ghost stopped: nat, ghost ended: nat,
               ghost done: nat)
      requires Lawful(tl, cfg) && Validated(cfg)
      modifies this`time, this`registry, this`spawned, this`signals, this`marks, this`orphaned
      ensures time > old(time)
      ensures spawned == old(spawned) + batch && (batch != [] ==> outcome.Launched? || outcome.Failed?)
      ensures orphaned == (old(orphaned) || Orphans(outcome))
      ensures batch != [] ==> old(time) <= began <= stopped < ended <= done <= time
      ensures Accounts(cfg, tl, outcome, force, connected, old(registry), registry, old(time) + 1,
                       began, ended, done, time, batch)
      ensures StartsAfter(cfg, tl, old(registry), began, stopped, ended, done, batch)
      ensures old(Inv()) ==> Sound(old(time), Orphans(outcome), batch)
      ensures KeepsRest()
    {
      batch, ended, done := [], time, time;
      var f;
      f, began := Examine(force);
      stopped := time;
      match f {
        case Unusable =>
          outcome := Refused;
        case Serviceable(st) =>
          outcome := Reuse(st, connected);
        case Cleared =>
          outcome, batch, ended, done := Establish(connected);
          if old(Inv()) {
            SoundSince(old(time), stopped, Orphans(outcome), batch);
          }
      }
    }

    /** Keep the session on record, for one more client if one is connected. */
    method Reuse(st: SessionState, connected: bool) returns (outcome: Outcome)
      requires registry == Some(st)
      modifies this`time, this`registry
      ensures time > old(time)
      ensures outcome.Reused? || (outcome == Refused && tl(time).fault)
      ensures registry ==
        if outcome.Reused? then Some(st.(presence := Reconnected(st.presence, connected))) else old(registry)
      ensures Keeps()
    {
      var ok := WritePresence(st, Reconnected(st.presence, connected));
      if !ok {
        return Refused;
      }
      var report := ReadStatus();
      return Reused(report);
    }

    /** Start a session where there is none. */
    method Establish(connected: bool)
      returns (outcome: Outcome, ghost batch: seq<Spawn>, ghost at: nat, ghost done: nat)
      requires Lawful(tl, cfg) && Validated(cfg) && registry.None?
      modifies this`time, this`registry, this`spawned, this`signals, this`marks, this`orphaned
      ensures time > old(time)
      ensures spawned == old(spawned) + batch && StartedSince(at, batch) && SettledBy(done, batch)
      ensures old(time) < at <= done <= time
      ensures orphaned == (old(orphaned) || Orphans(outcome))
      ensures match outcome
        case Refused => registry.None? && batch == [] && tl(time).fault
        case Reused(_) => false
        case Launched(_) =>
          && registry.Some? && |batch| == |cfg.components|
          && done <= time && AllReady(cfg, tl, at, done, registry.value, |cfg.components|)
          && SameSession(NewState(cfg, tl(at).boot, connected), registry.value)
        case Failed(_, cleaned) => cleaned ==> registry.None?
      ensures Explained(cfg, tl, outcome, at, done, time, batch)
      ensures old(Inv()) ==> Sound(old(time), Orphans(outcome), batch)
      ensures KeepsRest()
    {
      Pass(1);
      outcome, batch, at, done := Refused, [], time, time;
      if tl(time).fault {
        return;  // cleaning up the runtime paths failed
      }
      var failed, atWrite, cleaned;
      failed, atWrite, cleaned, batch, done := LaunchAll(NewState(cfg, tl(time).boot, connected));
      assert KeepsRest();
      assert old(Inv()) ==> Sound(old(time), atWrite && !cleaned, batch) by {
        if old(Inv()) {
          assert Kept(at, old(spawned), atWrite && !cleaned, batch);
          SoundSince(old(time), at, atWrite && !cleaned, batch);
        }
      }
      outcome := Failed(atWrite, cleaned);
      if !failed {
        var report := ReadStatus();
        outcome := Launched(report);
      }
    }

    // ---- Runs -------------------------------------------------------------------------------------------

    ghost method Observe()
      modifies this`moments
      ensures moments == old(moments) + [Moment(time, Bound(registry))]
      ensures Keeps()
    {
      if IdleInv() && registry.Some? {
        ObservedSettled(cfg, tl, registry.value.presence, moments, time);
      }
      moments := moments + [Moment(time, Bound(registry))];
    }

    /** Any call that starts nothing. */
    method Perform(call: Call)
      requires Lawful(tl, cfg) && !call.Ensure?
      modifies this`time, this`registry, this`signals, this`idleStops
      ensures time >= old(time) && Keeps()
    {
      match call {
        case Stop =>
          var _, _ := StopSession();
        case Bind =>
          var _, _ := BindSingleClient();
        case Unbind =>
          var _, _ := UnbindSingleClient();
        case Disconnect =>
          var _, _ := DisconnectClient();
        case Reconcile =>
          var _, _ := ReconcileAfterDaemonRestart();
        case Cleanup =>
          var _, _, _ := CleanupIdle();
        case Wait(n) =>
          Pass(n);
      }
    }

    /** An `ensure`, and the window it took. */
    method PerformEnsure(force: bool, connected: bool) returns (ghost w: Window)
      requires Lawful(tl, cfg) && Validated(cfg)
      modifies this`time, this`registry, this`spawned, this`signals, this`marks, this`orphaned
      ensures w.from == old(time) && w.to == time && w.was == old(registry) && Placed(cfg, tl, old(time), time, w)
      ensures spawned == old(spawned) + w.batch && orphaned == (old(orphaned) || Orphans(w.outcome))
      ensures old(Inv()) && Intact(tl, w) ==> Inv()
      ensures KeepsRest()
    {
      ghost var batch, began, stopped, ended, done;
      var outcome;
      outcome, batch, began, stopped, ended, done := EnsureSession(force, connected);
      w := Window(old(time), time, outcome, old(registry), began, stopped, ended, done, batch);
    }

    /** Any run of calls, in any order, with the windows of its `ensure` calls: every leader was
        started in one of them. If no window saw a reboot and none met both a failed registry
        write and a failed cleanup, each component has at most one live leader and without a
        registry there is none. Whatever happens, every signal reaches what it was meant for,
        startup can be cut anywhere, and a session is stopped for idleness only if nobody was
        bound to it for the whole idle timeout. */
    method Run(calls: seq<Call>) returns (ghost windows: seq<Window>)
      requires Inv() && IdleInv() && AllJustified(tl, signals) && AllCutSafe(cfg, marks) && !orphaned
      modifies this
      ensures |windows| == EnsureCalls(calls) && InOrder(cfg, tl, old(time), time, windows)
      ensures spawned == old(spawned) + Spawns(windows)
      ensures orphaned <==> SomeOrphaned(windows)
      ensures Undamaged(tl, windows) ==>
        && Inv() && Exclusive(tl, time, spawned)
        && (registry.None? ==> NoneAlive(tl, time, spawned))
      ensures AllJustified(tl, signals) && forall k :: 0 <= k < |signals| ==> WellAimed(tl, signals[k])
      ensures old(Grouped()) ==> GroupSignals(signals)
      ensures AllCutSafe(cfg, marks) && |moments| == |old(moments)| + |calls|
      ensures forall k :: 0 <= k < |idleStops| ==> Idle(cfg, tl, idleStops[k])
    {
      windows := RunCalls(calls);
      SignalsReach(tl, signals);
      if Undamaged(tl, windows) {
        SuccessionIsExclusive(tl, cfg, time, spawned);
        NoneListed(cfg, tl, time, spawned);
      }
    }

    /** Where a run stands that began at `from` with the leaders `earlier`. */
    ghost predicate Progress(from: nat, earlier: seq<Spawn>, windows: seq<Window>)
      reads this
    {
      && Lawful(tl, cfg) && Validated(cfg)
      && from <= time && InOrder(cfg, tl, from, time, windows) && Tally(earlier, windows)
    }

    ghost predicate Tally(earlier: seq<Spawn>, windows: seq<Window>)
      reads this
    {
      && spawned == earlier + Spawns(windows)
      && (orphaned <==> SomeOrphaned(windows))
      && (Undamaged(tl, windows) ==> Inv())
    }

    method AdvanceEnsure(force: bool, connected: bool, ghost from: nat, ghost earlier: seq<Spawn>,
                         ghost windows: seq<Window>)
      returns (ghost after: seq<Window>)
      requires Progress(from, earlier, windows)
      modifies this`time, this`registry, this`spawned, this`signals, this`marks, this`orphaned
      ensures Progress(from, earlier, after) && |after| == |windows| + 1 && KeepsRest()
    {
      ghost var w;
      w := PerformEnsure(force, connected);
      WindowOrdered(cfg, tl, from, old(time), time, windows, w);
      TallyAdded(old(orphaned), old(spawned), earlier, windows, w);
      after := windows + [w];
    }

    lemma {:induction false} TallyAdded(lost: bool, was: seq<Spawn>, earlier: seq<Spawn>, windows: seq<Window>,
                                        w: Window)
      requires was == earlier + Spawns(windows) && spawned == was + w.batch
      requires (lost <==> SomeOrphaned(windows)) && (orphaned <==> lost || Orphans(w.outcome))
      requires Undamaged(tl, windows) && Intact(tl, w) ==> Inv()
      ensures Tally(earlier, windows + [w])
    {
      WindowCounted(tl, windows, w);
      assert earlier + Spawns(windows) + w.batch == earlier + (Spawns(windows) + w.batch);
    }

    method AdvanceOther(call: Call, ghost from: nat, ghost earlier: seq<Spawn>, ghost windows: seq<Window>)
      requires Progress(from, earlier, windows) && !call.Ensure?
      modifies this`time, this`registry, this`signals, this`idleStops
      ensures Progress(from, earlier, windows) && KeepsRest()
    {
      Perform(call);
      WindowsLater(cfg, tl, from, old(time), time, windows);
    }

    /** The next call of a run, and the moment after it. */
    method Advance(call: Call, ghost from: nat, ghost earlier: seq<Spawn>, ghost windows: seq<Window>)
      returns (ghost after: seq<Window>)
      requires Progress(from, earlier, windows)
      modifies this
      ensures Progress(from, earlier, after) && |after| == |windows| + (if call.Ensure? then 1 else 0)
      ensures |moments| == |old(moments)| + 1 && KeepsRest()
    {
      after := windows;
      if call.Ensure? {
        after := AdvanceEnsure(call.force, call.connected, from, earlier, windows);
      } else {
        AdvanceOther(call, from, earlier, windows);
      }
      Observe();
    }

    method RunCalls(calls: seq<Call>) returns (ghost windows: seq<Window>)
      requires Inv() && !orphaned
      modifies this
      ensures |windows| == EnsureCalls(calls) && Progress(old(time), old(spawned), windows)
      ensures |moments| == |old(moments)| + |calls| && KeepsRest()
    {
      windows := [];
      for k := 0 to |calls|
        invariant |windows| == EnsureCalls(calls[..k]) && Progress(old(time), old(spawned), windows)
        invariant |moments| == |old(moments)| + k && KeepsRest()
      {
        assert calls[..k + 1][..k] == calls[..k];
        windows := Advance(calls[k], old(time), old(spawned), windows);
      }
      assert calls[..|calls|] == calls;
    }

    // ---- One connection -----------------------------------------------------------------------------------

    /** While a client is bound, any number of delayed or periodic cleanups leave its session alone. */
    method WhileConnected(timers: seq<Call>)
      requires Lawful(tl, cfg) && Bound(registry)
      requires forall k :: 0 <= k < |timers| ==> timers[k].Cleanup? || timers[k].Wait?
      modifies this`time, this`registry, this`signals, this`idleStops
      ensures time >= old(time) && registry == old(registry) && signals == old(signals) && idleStops == old(idleStops)
      ensures Keeps()
    {
      for k := 0 to |timers|
        invariant time >= old(time) && registry == old(registry) && signals == old(signals)
        invariant idleStops == old(idleStops)
        invariant Keeps()
      {
        match timers[k] {
          case Cleanup =>
            var _, _, _ := CleanupIdle();
          case Wait(n) =>
            Pass(n);
        }
      }
    }

    /** What the daemon does to a user's session for one bound connection: bind, serve, unbind. All
        the while the registry shows exactly one client and nothing is signalled; afterwards the
        idle period has begun, unless the unbind met a fault. */
    method ServeConnection(timers: seq<Call>) returns (served: bool, ghost left: nat)
      requires Lawful(tl, cfg)
      requires forall k :: 0 <= k < |timers| ==> timers[k].Cleanup? || timers[k].Wait?
      modifies this`time, this`registry, this`signals, this`idleStops
      ensures signals == old(signals) && idleStops == old(idleStops) && Keeps()
      ensures !served ==>
        registry == old(registry) || registry == AfterBind(old(registry))
      ensures served ==>
        && old(time) < left <= time && old(registry).Some?
        && CanServe(cfg, StatusAt(cfg, tl, old(time) + 2, old(registry)))
        && (|| registry == AfterRelease(cfg, old(registry), tl(left).clock)
            || (registry == AfterBind(old(registry)) && tl(time).fault))
    {
      ghost var bound;
      var report;
      report, bound := BindSingleClient();
      left := time;
      if report.None? {
        return false, left;
      }
      ghost var held := registry;
      WhileConnected(timers);
      assert registry == held && held.value.presence.activeClients == 1;
      report, left := UnbindSingleClient();
      return true, left;
    }
  }
}
