/** Process instances over time: what the environment is assumed to do with them, and what a
    persisted record says about one (src/sesman/process.rs, lines 76-134 and 225-238;
    src/desktop/compositor/launch.rs, lines 98-179). */
module ProcessLife {
  import opened Common
  import opened SesmanModel

  /** The triple that identifies a process across PID reuse and reboots. */
  datatype Instance = Instance(boot: string, pid: int, ticks: nat)

  predicate Live(w: World, i: Instance) {
    w.boot == i.boot && IsAlive(w, i.pid) && w.table[i.pid].ticks == i.ticks
  }

  /** The instance that a spawn at this instant yields. */
  predicate Child(w: World, i: Instance) {
    w.child == Some(i.pid) && Live(w, i)
  }

  predicate RunsAs(w: World, pid: int, uid: nat) {
    pid in w.table && (w.table[pid].realUid == uid || w.table[pid].effectiveUid == uid)
  }

  /** An instance that is gone does not come back; one that a spawn yielded leads its own group as
      long as it lives, and once it has assumed the user's id it keeps it. */
  ghost predicate Behaves(tl: Timeline, cfg: Config, i: Instance) {
    && (forall a: nat, b: nat, c: nat :: a <= b <= c && Live(tl(a), i) && Live(tl(c), i) ==> Live(tl(b), i))
    && (forall a: nat, b: nat :: a <= b && Child(tl(a), i) && Live(tl(b), i) ==> tl(b).table[i.pid].pgid == i.pid)
    && (forall a: nat, b: nat, c: nat ::
          a <= b <= c && Child(tl(a), i) && Assumed(tl(b), i, cfg.uid) && Live(tl(c), i) ==>
            RunsAs(tl(c), i.pid, cfg.uid))
  }

  /** The environment: exits, PID reuse and reboots are free; the clock does not run backwards,
      and a spawn yields a live process. */
  ghost predicate Lawful(tl: Timeline, cfg: Config) {
    && (forall i: Instance :: Behaves(tl, cfg, i))
    && ClockMonotone(tl)
    && (forall t: nat :: SpawnLives(tl, t))
  }

  predicate SpawnLives(tl: Timeline, t: nat) {
    tl(t).child.Some? ==> IsAlive(tl(t), tl(t).child.value)
  }

  /** The live instance has this real user id. */
  predicate Assumed(w: World, i: Instance, uid: nat) {
    Live(w, i) && w.table[i.pid].realUid == uid
  }

  /** A record as `spawn_managed_component` writes it for an instance. */
  predicate RecordOf(cfg: Config, c: ComponentState, i: Instance) {
    && c.pid == i.pid && c.command != [] && c.processGroup
    && c.startTicks == Some(i.ticks) && c.bootId == Some(i.boot)
    && c.uid == Some(cfg.uid) && c.pgid == Some(i.pid)
  }

  /** A recorded leader is authenticated exactly while it is alive, and then so is its group. */
  lemma {:induction false} AuthenticExactly(tl: Timeline, cfg: Config, c: ComponentState, i: Instance,
                                            spawned: nat, settled: nat, t: nat)
    requires Lawful(tl, cfg) && spawned <= settled <= t && RecordOf(cfg, c, i)
    requires Child(tl(spawned), i) && Assumed(tl(settled), i, cfg.uid)
    ensures Matches(tl(t), c, ForSignal) <==> Live(tl(t), i)
    ensures Live(tl(t), i) ==> GroupAlive(tl(t), i.pid)
  {
    assert Behaves(tl, cfg, i);
    if Live(tl(t), i) {
      assert RunsAs(tl(t), i.pid, cfg.uid);
    }
  }

  lemma {:induction false} DeadStaysDead(tl: Timeline, cfg: Config, i: Instance, spawned: nat, a: nat, b: nat)
    requires Lawful(tl, cfg) && Live(tl(spawned), i) && spawned <= a <= b && !Live(tl(a), i)
    ensures !Live(tl(b), i)
  {
    assert Behaves(tl, cfg, i);
  }

  // ---- Signals ------------------------------------------------------------------------------------------

  /** A signal: for which record, when that record was authorized, when its target was last seen
      alive, and when it was sent. */
  datatype Sent = Sent(record: ComponentState, authorizedAt: nat, checkedAt: nat, at: nat, kill: bool)

  predicate TargetAlive(w: World, c: ComponentState) {
    if c.processGroup then GroupAlive(w, c.pid) else Matches(w, c, ForSignal)
  }

  /** Authenticated at authorization, a group only as its own leader's, and alive when checked. */
  ghost predicate Justified(tl: Timeline, s: Sent) {
    && s.authorizedAt <= s.checkedAt < s.at
    && Matches(tl(s.authorizedAt), s.record, ForSignal)
    && (s.record.processGroup ==> s.record.pgid == Some(s.record.pid))
    && TargetAlive(tl(s.checkedAt), s.record)
  }

  function Recorded(c: ComponentState): Instance
    requires FullyHardened(c)
  {
    Instance(c.bootId.value, c.pid, c.startTicks.value)
  }

  /** Between two instants the pid was never free, and there was no reboot. */
  ghost predicate NeverFreed(tl: Timeline, pid: int, from: nat, to: nat) {
    forall t :: from <= t <= to ==> pid in tl(t).table && tl(t).boot == tl(from).boot
  }

  /** From one of these instants to the next this pid does not pass to another process. */
  ghost predicate PidKept(tl: Timeline, pid: int, from: nat, to: nat) {
    forall t: nat, u: nat :: from <= t < u <= to && u == t + 1 && pid in tl(t).table && pid in tl(u).table ==>
      tl(t).boot == tl(u).boot ==> tl(t).table[pid].ticks == tl(u).table[pid].ticks
  }

  ghost predicate PidHeld(tl: Timeline, pid: int, from: nat, to: nat) {
    NeverFreed(tl, pid, from, to) && PidKept(tl, pid, from, to)
  }

  lemma {:induction false} InstanceKept(tl: Timeline, pid: int, from: nat, n: nat)
    requires PidHeld(tl, pid, from, from + n)
    ensures tl(from + n).table[pid].ticks == tl(from).table[pid].ticks && tl(from + n).boot == tl(from).boot
  {
    if n > 0 {
      InstanceKept(tl, pid, from, n - 1);
      assert pid in tl(from + n - 1).table && pid in tl(from + n).table && tl(from + n - 1).boot == tl(from + n).boot;
    }
  }

  /** A single-PID signal reaches the recorded instance, however long after the last check, unless
      the pid was freed in between; if it was not taken again, the signal reaches nobody. */
  ghost predicate ReachesInstance(tl: Timeline, s: Sent) {
    !s.record.processGroup && PidHeld(tl, s.record.pid, s.checkedAt, s.at) ==>
      && FullyHardened(s.record) && s.record.pid in tl(s.at).table
      && tl(s.at).boot == s.record.bootId.value && tl(s.at).table[s.record.pid].ticks == s.record.startTicks.value
  }

  lemma {:induction false} SinglePidSignal(tl: Timeline, s: Sent)
    requires Justified(tl, s)
    ensures ReachesInstance(tl, s)
  {
    if !s.record.processGroup && PidHeld(tl, s.record.pid, s.checkedAt, s.at) {
      assert Live(tl(s.checkedAt), Recorded(s.record));
      InstanceKept(tl, s.record.pid, s.checkedAt, s.at - s.checkedAt);
    }
  }

  /** Between two instants the group always had a member, and there was no reboot. */
  ghost predicate NeverEmptied(tl: Timeline, pid: int, from: nat, to: nat) {
    forall t :: from <= t <= to ==> GroupAlive(tl(t), pid) && tl(t).boot == tl(from).boot
  }

  /** A group id is not reused while the group has a member (section 4.14, Process ID Reuse, of
      the POSIX.1-2017 Base Definitions): at one of these instants, and from it to the next,
      all members of this group are of the same group. */
  ghost predicate GroupKept(tl: Timeline, pid: int, from: nat, to: nat) {
    forall t: nat, u: nat, p: int, q: int ::
      from <= t <= u <= to && u <= t + 1 && Member(tl(t), p, pid) && Member(tl(u), q, pid) ==>
        tl(t).boot == tl(u).boot ==> tl(t).table[p].lineage == tl(u).table[q].lineage
  }

  predicate Member(w: World, p: int, pid: int) { p in w.table && w.table[p].pgid == pid }

  ghost predicate GroupHeld(tl: Timeline, pid: int, from: nat, to: nat) {
    NeverEmptied(tl, pid, from, to) && GroupKept(tl, pid, from, to)
  }

  lemma {:induction false} LineageKept(tl: Timeline, pid: int, from: nat, n: nat, leader: int, member: int)
    requires GroupHeld(tl, pid, from, from + n)
    requires Member(tl(from), leader, pid) && Member(tl(from + n), member, pid)
    ensures tl(from + n).table[member].lineage == tl(from).table[leader].lineage
    decreases n
  {
    if n > 0 {
      assert GroupAlive(tl(from + n - 1), pid) && tl(from + n - 1).boot == tl(from + n).boot;
      var other :| other in tl(from + n - 1).table && tl(from + n - 1).table[other].pgid == pid;
      assert Member(tl(from + n - 1), other, pid);
      LineageKept(tl, pid, from, n - 1, leader, other);
    } else {
      assert tl(from).boot == tl(from + n).boot;
    }
  }

  /** A group signal goes to the group whose recorded leader was authenticated earlier in the same
      call, provided that group was not emptied in between: every process it reaches belongs
      to that leader's group. */
  ghost predicate ReachesGroup(tl: Timeline, s: Sent) {
    s.record.processGroup && GroupHeld(tl, s.record.pid, s.authorizedAt, s.at) ==>
      Member(tl(s.authorizedAt), s.record.pid, s.record.pid) &&
      forall p :: Member(tl(s.at), p, s.record.pid) ==>
        tl(s.at).table[p].lineage == tl(s.authorizedAt).table[s.record.pid].lineage
  }

  lemma {:induction false} GroupSignal(tl: Timeline, s: Sent)
    requires Justified(tl, s)
    ensures ReachesGroup(tl, s)
  {
    if s.record.processGroup && GroupHeld(tl, s.record.pid, s.authorizedAt, s.at) {
      forall p | Member(tl(s.at), p, s.record.pid)
        ensures tl(s.at).table[p].lineage == tl(s.authorizedAt).table[s.record.pid].lineage
      {
        LineageKept(tl, s.record.pid, s.authorizedAt, s.at - s.authorizedAt, s.record.pid, p);
      }
    }
  }
}
