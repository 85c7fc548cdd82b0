/** What a freshly spawned component's record guarantees (src/desktop/compositor/launch.rs, lines
    98-179; src/sesman/process.rs, lines 148-157). */
module Launch {
  import opened Common
  import opened SesmanModel
  import opened ProcessLife

  datatype Identity = Identity(startTicks: Option<nat>, bootId: Option<string>, uid: Option<nat>, pgid: Option<int>)

  function Unless<T>(hidden: bool, value: T): Option<T> { if hidden then None else Some(value) }

  /** `capture_identity`: each field may be unreadable on its own. */
  function Capture(w: World, pid: int): Identity {
    if pid !in w.table then Identity(None, Unless(BootId in w.hidden, w.boot), None, None)
    else
      var p := w.table[pid];
      Identity(Unless(StartTicks in w.hidden, p.ticks), Unless(BootId in w.hidden, w.boot),
               Unless(Uid in w.hidden, p.realUid), Unless(Pgid in w.hidden, p.pgid))
  }

  predicate IdentityIsSettled(identity: Identity, expectedUid: nat, alive: bool) {
    && alive && identity.uid == Some(expectedUid)
    && identity.startTicks.Some? && identity.bootId.Some? && identity.pgid.Some?
  }

  /** At this instant the child has assumed the user's id and everything but its start time can be read. */
  predicate Assuming(w: World, i: Instance, uid: nat) {
    Assumed(w, i, uid) && BootId !in w.hidden && Uid !in w.hidden && Pgid !in w.hidden
  }

  /** The start time could be read at some instant. */
  ghost predicate TicksSeen(tl: Timeline, from: nat, to: nat) {
    exists t :: from <= t <= to && StartTicks !in tl(t).hidden
  }

  /** The child never settled, and at the end it was gone or its polls had run out. */
  ghost predicate NeverSettled(tl: Timeline, child: Instance, uid: nat, from: nat, to: nat) {
    && from <= to
    && (forall t :: from <= t <= to ==> !(Assuming(tl(t), child, uid) && TicksSeen(tl, from, t)))
    && (!Live(tl(to), child) || to == from + tl(from).polls)
  }

  /** `settle_setpriv_identity`, one instant per poll. It succeeds at the first poll, while the child
      lives and time is left, at which the child is seen under the user's id and its start
      time has been read then or earlier; and what it returns is the child's whole identity. */
  method SettleIdentity(tl: Timeline, child: Instance, uid: nat, from: nat)
    returns (identity: Option<Identity>, at: nat)
    ensures at >= from
    ensures forall t :: from <= t < at ==>
      Live(tl(t), child) && !(Assuming(tl(t), child, uid) && TicksSeen(tl, from, t))
    ensures identity.Some? <==> Assuming(tl(at), child, uid) && TicksSeen(tl, from, at)
    ensures identity.Some? ==>
      identity.value == Identity(Some(child.ticks), Some(child.boot), Some(uid), Some(tl(at).table[child.pid].pgid))
    ensures identity.None? ==> NeverSettled(tl, child, uid, from, at)
  {
    var startTicks: Option<nat> := None;
    at := from;
    while true
      invariant from <= at <= from + tl(from).polls
      invariant forall t :: from <= t < at ==>
        Live(tl(t), child) && !(Assuming(tl(t), child, uid) && TicksSeen(tl, from, t))
      invariant startTicks.Some? <==> exists t :: from <= t < at && StartTicks !in tl(t).hidden
      invariant startTicks.Some? ==> startTicks.value == child.ticks
      decreases from + tl(from).polls - at
    {
      if !Live(tl(at), child) {
        return None, at;  // the child has exited
      }
      var captured := Capture(tl(at), child.pid);
      startTicks := if startTicks.Some? then startTicks else captured.startTicks;
      var settling := captured.(startTicks := startTicks);
      assert startTicks.Some? <==> TicksSeen(tl, from, at);
      if IdentityIsSettled(settling, uid, IsAlive(tl(at), child.pid)) {
        return Some(settling), at;
      }
      if at == from + tl(from).polls {
        return None, at;  // timed out
      }
      at := at + 1;
    }
  }
}
