/** The latest-wins resize transaction of the display handler
    (src/rdp/server/display_handler.rs, lines 110-295): the value-level meaning of
    each operation, and the mutable coordinator that is proved to implement it. */
module ResizeModel {
  import opened Common

  /** A desktop size as the RDP client sees it. */
  datatype Geometry = Geometry(width: u16, height: u16)

  /** Monotonic clock readings, in nanoseconds. */
  type Instant = nat

  const REACTIVATION_GUARD: nat := 2_000_000_000
  const RETRY_DELAY: nat := 250_000_000
  const REALIZATION_TIMEOUT: nat := 2_000_000_000

  datatype Coordinator = Coordinator(
    pending: Option<Geometry>,
    inFlight: Option<Geometry>,
    committing: Option<Geometry>,
    applied: Geometry,
    retryNotBefore: Option<Instant>,
    realizationDeadline: Option<Instant>)

  function New(size: Geometry): Coordinator {
    Coordinator(None, None, None, size, None, None)
  }

  function Request(c: Coordinator, g: Geometry): Coordinator {
    if c.inFlight == Some(g) || c.committing == Some(g) then c.(pending := None)
    else if c.inFlight.None? && c.applied == g then c.(pending := None)
    else c.(pending := Some(g))
  }

  predicate GuardHolds(c: Coordinator, now: Instant) {
    c.retryNotBefore.Some? && now < c.retryNotBefore.value
  }

  /** The coordinator after `take_ready`, and the geometry it tells the loop to issue. */
  function TakeReady(c: Coordinator, now: Instant): (Coordinator, Option<Geometry>) {
    if c.committing.Some? || (c.inFlight.Some? && c.pending.None?) then (c, None)
    else
      var d := if c.inFlight.Some? then c.(inFlight := None, realizationDeadline := None) else c;
      if GuardHolds(d, now) || d.pending.None? then (d, None)
      else if d.pending.value == d.applied then (d.(pending := None), None)
      else (d.(pending := None, inFlight := d.pending, realizationDeadline := None), d.pending)
  }

  /** `mark_command_succeeded` takes effect only for an unsuperseded in-flight request. */
  predicate Confirms(c: Coordinator, g: Geometry) {
    c.inFlight == Some(g) && c.pending.None?
  }

  function CommandSucceeded(c: Coordinator, g: Geometry, now: Instant): Coordinator {
    if Confirms(c, g) then c.(realizationDeadline := Some(now + REALIZATION_TIMEOUT)) else c
  }

  function Failed(c: Coordinator, g: Geometry, now: Instant): Coordinator {
    if c.inFlight != Some(g) then c
    else
      var d := c.(inFlight := None, realizationDeadline := None);
      if d.pending.Some? then d else d.(pending := Some(g), retryNotBefore := Some(now + RETRY_DELAY))
  }

  predicate Expired(c: Coordinator, now: Instant) {
    c.inFlight.Some? && c.realizationDeadline.Some? && now >= c.realizationDeadline.value
  }

  function ExpireRealization(c: Coordinator, now: Instant): Coordinator {
    if Expired(c, now) then Failed(c, c.inFlight.value, now) else c
  }

  function MatchesRealizedFrame(c: Coordinator, width: u32, height: u32, now: Instant): Option<Geometry> {
    if c.inFlight.Some? && c.pending.None?
       && c.realizationDeadline.Some? && now <= c.realizationDeadline.value
       && width == c.inFlight.value.width && height == c.inFlight.value.height
    then c.inFlight else None
  }

  predicate Freezes(c: Coordinator, g: Geometry, now: Instant) {
    MatchesRealizedFrame(c, g.width, g.height, now) == Some(g)
  }

  function BeginCommit(c: Coordinator, g: Geometry, now: Instant): Coordinator {
    if Freezes(c, g, now) then c.(inFlight := None, realizationDeadline := None, committing := Some(g)) else c
  }

  function CommitFailed(c: Coordinator, g: Geometry, now: Instant): Coordinator {
    if c.committing != Some(g) then c
    else
      var d := c.(committing := None);
      if d.pending.Some? then d else d.(pending := Some(g), retryNotBefore := Some(now + RETRY_DELAY))
  }

  function Applied(c: Coordinator, g: Geometry, now: Instant): Coordinator {
    if c.committing != Some(g) then c
    else c.(applied := g, committing := None, retryNotBefore := Some(now + REACTIVATION_GUARD))
  }

}

/** The mutable coordinator, each method proved to compute the value-level operation. */
module Resize {
  import opened Common
  import opened ResizeModel

  /** The coordinator shared, behind a mutex, by the client callbacks and the pipeline loop. */
  class ResizeCoordinator {
    var pending: Option<Geometry>
    var inFlight: Option<Geometry>
    var committing: Option<Geometry>
    var applied: Geometry
    var retryNotBefore: Option<Instant>
    var realizationDeadline: Option<Instant>

    function Value(): Coordinator
      reads this
    {
      Coordinator(pending, inFlight, committing, applied, retryNotBefore, realizationDeadline)
    }

    constructor (size: Geometry)
      ensures Value() == ResizeModel.New(size)
    {
      pending, inFlight, committing := None, None, None;
      applied := size;
      retryNotBefore, realizationDeadline := None, None;
    }

    method Request(g: Geometry)
      modifies this
      ensures Value() == ResizeModel.Request(old(Value()), g)
    {
      if inFlight == Some(g) || committing == Some(g) {
        // The newest request restores the active geometry.
        pending := None;
        return;
      }
      if inFlight.None? && applied == g {
        pending := None;
        return;
      }
      pending := Some(g);
    }

    method TakeReady(now: Instant) returns (issued: Option<Geometry>)
      modifies this
      ensures (Value(), issued) == ResizeModel.TakeReady(old(Value()), now)
    {
      if committing.Some? {
        return None;
      }
      if inFlight.Some? {
        if pending.Some? {
          inFlight := None;
          realizationDeadline := None;
        } else {
          return None;
        }
      }
      if retryNotBefore.Some? && now < retryNotBefore.value {
        return None;
      }
      if pending.None? {
        return None;
      }
      var request := pending.value;
      pending := None;
      if request == applied {
        return None;
      }
      inFlight := Some(request);
      realizationDeadline := None;
      return Some(request);
    }

    method MarkCommandSucceeded(g: Geometry, now: Instant) returns (waiting: bool)
      modifies this
      ensures Value() == ResizeModel.CommandSucceeded(old(Value()), g, now)
      ensures waiting == Confirms(old(Value()), g)
    {
      if inFlight != Some(g) || pending.Some? {
        return false;
      }
      realizationDeadline := Some(now + REALIZATION_TIMEOUT);
      return true;
    }

    method MarkFailed(g: Geometry, now: Instant) returns (retried: bool)
      modifies this
      ensures Value() == ResizeModel.Failed(old(Value()), g, now)
      ensures retried == Confirms(old(Value()), g)
    {
      if inFlight != Some(g) {
        return false;
      }
      inFlight := None;
      realizationDeadline := None;
      if pending.Some? {
        return false;
      }
      pending := Some(g);
      retryNotBefore := Some(now + RETRY_DELAY);
      return true;
    }

    method ExpireRealization(now: Instant) returns (expired: Option<Geometry>)
      modifies this
      ensures Value() == ResizeModel.ExpireRealization(old(Value()), now)
      ensures expired == if Expired(old(Value()), now) then old(inFlight) else None
    {
      if inFlight.None? {
        return None;
      }
      var request := inFlight.value;
      if realizationDeadline.Some? && now >= realizationDeadline.value {
        var _ := MarkFailed(request, now);
        return Some(request);
      }
      return None;
    }

    method BeginCommit(g: Geometry, now: Instant) returns (started: bool)
      modifies this
      ensures Value() == ResizeModel.BeginCommit(old(Value()), g, now)
      ensures started == Freezes(old(Value()), g, now)
    {
      if MatchesRealizedFrame(Value(), g.width, g.height, now) != Some(g) {
        return false;
      }
      inFlight := None;
      realizationDeadline := None;
      committing := Some(g);
      return true;
    }

    method MarkCommitFailed(g: Geometry, now: Instant) returns (retried: bool)
      modifies this
      ensures Value() == ResizeModel.CommitFailed(old(Value()), g, now)
      ensures retried == (old(committing) == Some(g) && old(pending).None?)
    {
      if committing != Some(g) {
        return false;
      }
      committing := None;
      if pending.Some? {
        return false;
      }
      pending := Some(g);
      retryNotBefore := Some(now + RETRY_DELAY);
      return true;
    }

    method MarkApplied(g: Geometry, now: Instant) returns (done: bool)
      modifies this
      ensures Value() == ResizeModel.Applied(old(Value()), g, now)
      ensures done == (old(committing) == Some(g))
    {
      if committing != Some(g) {
        return false;
      }
      applied := g;
      committing := None;
      retryNotBefore := Some(now + REACTIVATION_GUARD);
      return true;
    }
  }
}
