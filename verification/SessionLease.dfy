/**
 One broker session's route authority. `Lease` is the value that SessionLeaseState holds and
 the calls on it; `SessionLeaseState` is the mutable object, which keeps one authority and says
 of each call exactly when it succeeds and which authority it leaves.
 */
module SessionLease {
  import opened Wrappers
  import opened RouteBindings

  datatype ErrorCode =
    | InvalidRequest
    | Unavailable
    | AlreadyRunning
    | OwnershipMismatch
    | StaleGeneration
    | RouteIsHeld
    | HoldMismatch
    | LaunchFailed

  /** Who may own routes in a session, and how far that ownership has gone. */
  datatype Claim = Legacy(routeLeaseId: string) | V3(binding: RouteBinding)

  datatype Authority = Unclaimed | Holds(claim: Claim) | HasReleased(claim: Claim)

  /** Authority only moves forward, and never from one claim to another. */
  predicate AuthorityLeadsTo(before: Authority, after: Authority) {
    || before == after
    || before.Unclaimed?
    || (before.Holds? && after == HasReleased(before.claim))
  }

  datatype Lease = Lease(
    reference: TunnelReference,
    appConnectionId: ConnectionId,
    appConnected: bool,
    routeLeaseId: Option<string>,
    releasedLegacyRouteLeaseId: Option<string>,
    routeBinding: Option<RouteBinding>,
    releasedRouteBinding: Option<RouteBinding>,
    heartbeatSeen: bool,
    recoveryRequired: bool)
  {
    predicate HasRouteHold() {
      routeLeaseId.Some? || routeBinding.Some?
    }

    predicate IsOwn(b: RouteBinding) {
      b.IsValid() && b.Matches(reference)
    }

    /** At most one of the four ownership fields is set, and a v3 tuple names this session. */
    ghost predicate OneAuthority() {
      && (routeLeaseId.Some? ==>
            releasedLegacyRouteLeaseId.None? && routeBinding.None? && releasedRouteBinding.None?)
      && (releasedLegacyRouteLeaseId.Some? ==> routeBinding.None? && releasedRouteBinding.None?)
      && (routeBinding.Some? ==> releasedRouteBinding.None? && IsOwn(routeBinding.value))
      && (releasedRouteBinding.Some? ==> IsOwn(releasedRouteBinding.value))
      && (recoveryRequired && routeBinding.None? ==>
            routeLeaseId.Some? || releasedLegacyRouteLeaseId.Some?)
    }

    ghost function CurrentAuthority(): Authority {
      if routeLeaseId.Some? then Holds(Legacy(routeLeaseId.value))
      else if routeBinding.Some? then Holds(V3(routeBinding.value))
      else if releasedLegacyRouteLeaseId.Some? then HasReleased(Legacy(releasedLegacyRouteLeaseId.value))
      else if releasedRouteBinding.Some? then HasReleased(V3(releasedRouteBinding.value))
      else Unclaimed
    }

    function Hold(b: LegacyBinding): (Lease, Option<ErrorCode>) {
      if !b.IsValid() || b.reference != reference then
        (this, Some(StaleGeneration))
      else if releasedLegacyRouteLeaseId.Some? || routeBinding.Some? || releasedRouteBinding.Some? then
        (this, Some(HoldMismatch))
      else if routeLeaseId.Some? && routeLeaseId.value != b.routeLeaseId then
        (this, Some(HoldMismatch))
      else
        (this.(routeLeaseId := Some(b.routeLeaseId)), None)
    }

    function Release(b: LegacyBinding): (Lease, Option<ErrorCode>) {
      if !b.IsValid() || b.reference != reference then
        (this, Some(StaleGeneration))
      else if releasedLegacyRouteLeaseId.Some? then
        (this, if releasedLegacyRouteLeaseId.value == b.routeLeaseId then None else Some(HoldMismatch))
      else if routeLeaseId != Some(b.routeLeaseId) then
        (this, Some(HoldMismatch))
      else
        (this.(routeLeaseId := None, releasedLegacyRouteLeaseId := Some(b.routeLeaseId)), None)
    }

    function HoldV3(b: RouteBinding): (Lease, Option<ErrorCode>) {
      if !IsOwn(b) then
        (this, Some(StaleGeneration))
      else if routeLeaseId.Some? || releasedLegacyRouteLeaseId.Some? then
        (this, Some(HoldMismatch))
      else if routeBinding.Some? then
        if routeBinding.value != b then (this, Some(HoldMismatch))
        else if recoveryRequired then (this, Some(Unavailable))
        else (this.(heartbeatSeen := true), None)
      else if releasedRouteBinding.Some? then
        (this, Some(HoldMismatch))
      else
        (this.(routeBinding := Some(b), heartbeatSeen := true, recoveryRequired := false), None)
    }

    function ReleaseV3(b: RouteBinding): (Lease, Option<ErrorCode>) {
      if !IsOwn(b) then
        (this, Some(StaleGeneration))
      else if routeLeaseId.Some? || releasedLegacyRouteLeaseId.Some? then
        (this, Some(HoldMismatch))
      else if releasedRouteBinding.Some? then
        (this, if releasedRouteBinding.value == b then None else Some(HoldMismatch))
      else if routeBinding.Some? && routeBinding.value != b then
        (this, Some(HoldMismatch))
      else
        (this.(routeBinding := None, releasedRouteBinding := Some(b),
               heartbeatSeen := false, recoveryRequired := false), None)
    }

    function StatusV3(b: RouteBinding): (Lease, Option<ErrorCode>) {
      if !IsOwn(b) then
        (this, Some(StaleGeneration))
      else if routeLeaseId.Some? || releasedLegacyRouteLeaseId.Some? then
        (this, Some(HoldMismatch))
      else if routeBinding == Some(b) then
        if recoveryRequired then (this, Some(Unavailable)) else (this.(heartbeatSeen := true), None)
      else if releasedRouteBinding == Some(b) then
        (this, None)
      else
        (this, Some(HoldMismatch))
    }

    /** The watchdog finding an old heartbeat; `expired` is the clock's verdict. */
    function MarkHeartbeatExpired(expired: bool): (Lease, bool) {
      if HasRouteHold() && heartbeatSeen && expired && !recoveryRequired then
        (this.(recoveryRequired := true), true)
      else
        (this, false)
    }
  }

  function NewLease(reference: TunnelReference, appConnectionId: ConnectionId): Lease {
    Lease(reference, appConnectionId, true, None, None, None, None, false, false)
  }

  /**
   What any sequence of calls keeps: the session's identity, its claim, a lost application, and
   the recovery flag of a held session until that hold is released.
   */
  ghost predicate LeadsTo(before: Lease, after: Lease) {
    && after.reference == before.reference
    && after.appConnectionId == before.appConnectionId
    && (after.appConnected ==> before.appConnected)
    && AuthorityLeadsTo(before.CurrentAuthority(), after.CurrentAuthority())
    && (before.HasRouteHold() && before.recoveryRequired && after.HasRouteHold() ==> after.recoveryRequired)
  }

  lemma LeadsToTransitive(a: Lease, b: Lease, c: Lease)
    requires LeadsTo(a, b) && LeadsTo(b, c)
    ensures LeadsTo(a, c)
  {
    if a.HasRouteHold() && c.HasRouteHold() {
      assert a.CurrentAuthority().Holds? && c.CurrentAuthority().Holds?;
    }
  }

  /** Every call keeps the one-authority invariant and only moves the lease forward. */
  lemma LegacyCallsMoveForward(lease: Lease, b: LegacyBinding)
    requires lease.OneAuthority()
    ensures lease.Hold(b).0.OneAuthority() && LeadsTo(lease, lease.Hold(b).0)
    ensures lease.Release(b).0.OneAuthority() && LeadsTo(lease, lease.Release(b).0)
  {
  }

  lemma V3CallsMoveForward(lease: Lease, b: RouteBinding, expired: bool)
    requires lease.OneAuthority()
    ensures lease.MarkHeartbeatExpired(expired).0.OneAuthority() && LeadsTo(lease, lease.MarkHeartbeatExpired(expired).0)
    ensures lease.HoldV3(b).0.OneAuthority() && LeadsTo(lease, lease.HoldV3(b).0)
    ensures lease.ReleaseV3(b).0.OneAuthority() && LeadsTo(lease, lease.ReleaseV3(b).0)
    ensures lease.StatusV3(b).0.OneAuthority() && LeadsTo(lease, lease.StatusV3(b).0)
  {
  }

  /** Each call that refuses leaves the lease as it was. */
  lemma RefusalsChangeNothing(lease: Lease, legacy: LegacyBinding, b: RouteBinding)
    ensures lease.Hold(legacy).1.Some? ==> lease.Hold(legacy).0 == lease
    ensures lease.Release(legacy).1.Some? ==> lease.Release(legacy).0 == lease
    ensures lease.HoldV3(b).1.Some? ==> lease.HoldV3(b).0 == lease
    ensures lease.ReleaseV3(b).1.Some? ==> lease.ReleaseV3(b).0 == lease
    ensures lease.StatusV3(b).1.Some? ==> lease.StatusV3(b).0 == lease
  {
  }

  class SessionLeaseState {
    const reference: TunnelReference
    const appConnectionId: ConnectionId
    var appConnected: bool
    var routeLeaseId: Option<string>
    var releasedLegacyRouteLeaseId: Option<string>
    var routeBinding: Option<RouteBinding>
    var releasedRouteBinding: Option<RouteBinding>
    var heartbeatSeen: bool
    var recoveryRequired: bool

    function View(): Lease
      reads this
    {
      Lease(reference, appConnectionId, appConnected, routeLeaseId, releasedLegacyRouteLeaseId,
            routeBinding, releasedRouteBinding, heartbeatSeen, recoveryRequired)
    }

    ghost predicate Valid()
      reads this
    {
      View().OneAuthority()
    }

    ghost function Authority(): Authority
      reads this
    {
      View().CurrentAuthority()
    }

    constructor (reference: TunnelReference, appConnectionId: ConnectionId)
      ensures Valid() && Authority() == Unclaimed && appConnected && !recoveryRequired
      ensures View() == NewLease(reference, appConnectionId)
    {
      this.reference := reference;
      this.appConnectionId := appConnectionId;
      appConnected := true;
      routeLeaseId, releasedLegacyRouteLeaseId := None, None;
      routeBinding, releasedRouteBinding := None, None;
      heartbeatSeen, recoveryRequired := false, false;
    }

    /** Granted to this session's lease id while nobody else has or had the authority. */
    method Hold(b: LegacyBinding) returns (error: Option<ErrorCode>)
      requires Valid()
      modifies this
      ensures Valid() && LeadsTo(old(View()), View())
      ensures error.None? <==>
                b.IsValid() && b.reference == reference && old(Authority()) in {Unclaimed, Holds(Legacy(b.routeLeaseId))}
      ensures error.None? ==> Authority() == Holds(Legacy(b.routeLeaseId))
      ensures error.Some? ==> View() == old(View())
      ensures error == Some(StaleGeneration) <==> !b.IsValid() || b.reference != reference
      ensures error in {None, Some(StaleGeneration), Some(HoldMismatch)}
      ensures (View(), error) == old(View()).Hold(b)
    {
      if !b.IsValid() || b.reference != reference {
        return Some(StaleGeneration);
      }
      if releasedLegacyRouteLeaseId.Some? || routeBinding.Some? || releasedRouteBinding.Some? {
        return Some(HoldMismatch);
      }
      if routeLeaseId.Some? && routeLeaseId.value != b.routeLeaseId {
        return Some(HoldMismatch);
      }
      routeLeaseId := Some(b.routeLeaseId);
      return None;
    }

    /** Accepted from the lease id that has or had the authority, as often as it asks. */
    method Release(b: LegacyBinding) returns (error: Option<ErrorCode>)
      requires Valid()
      modifies this
      ensures Valid() && LeadsTo(old(View()), View())
      ensures error.None? <==>
                && b.IsValid() && b.reference == reference
                && old(Authority()) in {Holds(Legacy(b.routeLeaseId)), HasReleased(Legacy(b.routeLeaseId))}
      ensures error.None? ==> Authority() == HasReleased(Legacy(b.routeLeaseId))
      ensures error.Some? ==> View() == old(View())
      ensures error == Some(StaleGeneration) <==> !b.IsValid() || b.reference != reference
      ensures error in {None, Some(StaleGeneration), Some(HoldMismatch)}
      ensures (View(), error) == old(View()).Release(b)
    {
      if !b.IsValid() || b.reference != reference {
        return Some(StaleGeneration);
      }
      if releasedLegacyRouteLeaseId.Some? {
        return if releasedLegacyRouteLeaseId.value == b.routeLeaseId then None else Some(HoldMismatch);
      }
      if routeLeaseId != Some(b.routeLeaseId) {
        return Some(HoldMismatch);
      }
      routeLeaseId := None;
      releasedLegacyRouteLeaseId := Some(b.routeLeaseId);
      return None;
    }

    /** Granted to a tuple of this session while nobody else has or had the authority and no recovery is due. */
    method HoldV3(b: RouteBinding) returns (error: Option<ErrorCode>)
      requires Valid()
      modifies this
      ensures Valid() && LeadsTo(old(View()), View())
      ensures error.None? <==>
                View().IsOwn(b)
                && (old(Authority()) == Unclaimed || (old(Authority()) == Holds(V3(b)) && !old(recoveryRequired)))
      ensures error == Some(Unavailable) <==> old(Authority()) == Holds(V3(b)) && old(recoveryRequired)
      ensures error.None? ==> Authority() == Holds(V3(b)) && heartbeatSeen && !recoveryRequired
      ensures error.Some? ==> View() == old(View())
      ensures error == Some(StaleGeneration) <==> !b.IsValid() || !b.Matches(reference)
      ensures error in {None, Some(StaleGeneration), Some(HoldMismatch), Some(Unavailable)}
      ensures (View(), error) == old(View()).HoldV3(b)
    {
      if !b.IsValid() || !b.Matches(reference) {
        return Some(StaleGeneration);
      }
      if routeLeaseId.Some? || releasedLegacyRouteLeaseId.Some? {
        return Some(HoldMismatch);
      }
      if routeBinding.Some? {
        if routeBinding.value != b {
          return Some(HoldMismatch);
        }
        if recoveryRequired {
          return Some(Unavailable);
        }
        heartbeatSeen := true;
        recoveryRequired := false;
        return None;
      }
      if releasedRouteBinding.Some? {
        return Some(HoldMismatch);
      }
      routeBinding := Some(b);
      heartbeatSeen := true;
      recoveryRequired := false;
      return None;
    }

    /** Accepted for the one tuple of this session, held, released already, or never seen before. */
    method ReleaseV3(b: RouteBinding) returns (error: Option<ErrorCode>)
      requires Valid()
      modifies this
      ensures Valid() && LeadsTo(old(View()), View())
      ensures error.None? <==>
                View().IsOwn(b) && old(Authority()) in {Unclaimed, Holds(V3(b)), HasReleased(V3(b))}
      ensures error.None? ==> Authority() == HasReleased(V3(b))
      ensures error.Some? ==> View() == old(View())
      ensures error == Some(StaleGeneration) <==> !b.IsValid() || !b.Matches(reference)
      ensures error in {None, Some(StaleGeneration), Some(HoldMismatch)}
      ensures (View(), error) == old(View()).ReleaseV3(b)
    {
      if !b.IsValid() || !b.Matches(reference) {
        return Some(StaleGeneration);
      }
      if routeLeaseId.Some? || releasedLegacyRouteLeaseId.Some? {
        return Some(HoldMismatch);
      }
      if releasedRouteBinding.Some? {
        return if releasedRouteBinding.value == b then None else Some(HoldMismatch);
      }
      if routeBinding.Some? {
        if routeBinding.value != b {
          return Some(HoldMismatch);
        }
        routeBinding := None;
      }
      releasedRouteBinding := Some(b);
      heartbeatSeen := false;
      recoveryRequired := false;
      return None;
    }

    /** Positive for the tuple that has the authority, unless recovery is due, or had it. */
    method StatusV3(b: RouteBinding) returns (error: Option<ErrorCode>)
      requires Valid()
      modifies this
      ensures Valid() && Authority() == old(Authority()) && recoveryRequired == old(recoveryRequired)
      ensures LeadsTo(old(View()), View())
      ensures error.None? <==> (Authority() == Holds(V3(b)) && !recoveryRequired) || Authority() == HasReleased(V3(b))
      ensures error == Some(Unavailable) <==> Authority() == Holds(V3(b)) && recoveryRequired
      ensures error.None? && View().HasRouteHold() ==> heartbeatSeen
      ensures error.Some? ==> View() == old(View())
      ensures error == Some(StaleGeneration) <==> !b.IsValid() || !b.Matches(reference)
      ensures error in {None, Some(StaleGeneration), Some(HoldMismatch), Some(Unavailable)}
      ensures (View(), error) == old(View()).StatusV3(b)
    {
      if !b.IsValid() || !b.Matches(reference) {
        return Some(StaleGeneration);
      }
      if routeLeaseId.Some? || releasedLegacyRouteLeaseId.Some? {
        return Some(HoldMismatch);
      }
      if routeBinding == Some(b) {
        if recoveryRequired {
          return Some(Unavailable);
        }
        heartbeatSeen := true;
        return None;
      }
      if releasedRouteBinding == Some(b) {
        return None;
      }
      return Some(HoldMismatch);
    }

    /** Leaves the authority alone, and asks for recovery of any hold that was heard of and has gone silent. */
    method MarkHeartbeatExpired(expired: bool) returns (marked: bool)
      requires Valid()
      modifies this
      ensures Valid() && Authority() == old(Authority()) && LeadsTo(old(View()), View())
      ensures Authority().Holds? && heartbeatSeen && expired ==> recoveryRequired
      ensures recoveryRequired <==> old(recoveryRequired) || marked
      ensures marked ==> Authority().Holds? && heartbeatSeen && expired && !old(recoveryRequired)
      ensures !marked ==> View() == old(View())
      ensures (View(), marked) == old(View()).MarkHeartbeatExpired(expired)
    {
      if !(routeLeaseId.Some? || routeBinding.Some?) || !heartbeatSeen || !expired || recoveryRequired {
        return false;
      }
      recoveryRequired := true;
      return true;
    }
  }
}
