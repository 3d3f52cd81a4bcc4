/**
 The tunnel broker's critical sections as functions of its guarded state, and the system of
 every interleaving of them. A call that drops the lock to reap the child is two sections; in
 between it is a `Reap` ticket, and any other section may run.
 */
module Broker {
  import opened Wrappers
  import opened RouteBindings
  import opened SessionLease

  datatype BrokerStatus = Idle | Running | RouteHeld

  datatype Reply = Reply(status: BrokerStatus, error: Option<ErrorCode>)

  /** What a first section leaves its caller to do. */
  datatype Section = Done(reply: Reply) | MustReap(reference: TunnelReference)

  datatype Launch = Launched | NoPlan | ChildFailed

  datatype Session = Session(lease: Lease, childRunning: bool)

  datatype RetiredMatch = Exact | SameSessionMismatch | Unrelated

  datatype Core = Core(
    nextGeneration: nat,
    active: Option<Session>,
    retired: Option<RouteBinding>)
  {
    function Status(): BrokerStatus {
      if active.None? then Idle
      else if active.value.lease.HasRouteHold() then RouteHeld
      else Running
    }

    predicate Serves(reference: TunnelReference) {
      active.Some? && active.value.lease.reference == reference
    }

    function Classify(b: RouteBinding): RetiredMatch {
      if retired.None? then Unrelated
      else if retired.value == b then Exact
      else if retired.value.SameSession(b) then SameSessionMismatch
      else Unrelated
    }

    function WithLease(lease: Lease): Core
      requires active.Some?
    {
      this.(active := Some(active.value.(lease := lease)))
    }

    /** Forget the active session, remembering the v3 tuple it released, if any. */
    function Cleared(): Core
      requires active.Some?
    {
      var released := active.value.lease.releasedRouteBinding;
      this.(active := None, retired := if released.Some? then released else retired)
    }

    function Start(conn: ConnectionId, sidecarInstanceId: string, launch: Launch): (Core, Reply) {
      if active.Some? then (this, Reply(Status(), Some(AlreadyRunning)))
      else if nextGeneration > INT64_MAX then (this, Reply(Idle, Some(Unavailable)))
      else
        var reference := TunnelReference(BROKER_PROTOCOL_VERSION, nextGeneration, sidecarInstanceId);
        var advanced := this.(nextGeneration := nextGeneration + 1);
        match launch
        case NoPlan => (advanced, Reply(Idle, Some(Unavailable)))
        case ChildFailed => (advanced, Reply(Idle, Some(LaunchFailed)))
        case Launched =>
          (advanced.(active := Some(Session(NewLease(reference, conn), true))), Reply(Running, None))
    }

    function StopFirst(reference: TunnelReference, conn: ConnectionId): Section {
      if !reference.IsValid() || active.None? then Done(Reply(Status(), Some(StaleGeneration)))
      else if active.value.lease.appConnectionId != conn then Done(Reply(Status(), Some(OwnershipMismatch)))
      else if !Serves(reference) then Done(Reply(Status(), Some(StaleGeneration)))
      else if active.value.lease.HasRouteHold() then Done(Reply(RouteHeld, Some(RouteIsHeld)))
      else MustReap(reference)
    }

    function StopSecond(reference: TunnelReference): Core {
      if Serves(reference) && !active.value.lease.HasRouteHold() then Cleared() else this
    }

    function AppGoneFirst(conn: ConnectionId): (Core, Option<TunnelReference>) {
      if active.None? || active.value.lease.appConnectionId != conn then (this, None)
      else
        var lease := active.value.lease.(appConnected := false);
        (WithLease(lease), if lease.HasRouteHold() then None else Some(lease.reference))
    }

    /** The second section after an application loss, and after a legacy release. */
    function DisconnectedSecond(reference: TunnelReference): Core {
      if Serves(reference) && !active.value.lease.HasRouteHold() && !active.value.lease.appConnected
      then Cleared() else this
    }

    function LegacyHold(b: LegacyBinding): (Core, Reply) {
      if active.None? then (this, Reply(Idle, Some(StaleGeneration)))
      else
        var (lease, error) := active.value.lease.Hold(b);
        if error.Some? then (this, Reply(Status(), error)) else (WithLease(lease), Reply(RouteHeld, None))
    }

    function LegacyReleaseFirst(b: LegacyBinding): (Core, Section) {
      if active.None? then (this, Done(Reply(Idle, Some(StaleGeneration))))
      else
        var (lease, error) := active.value.lease.Release(b);
        if error.Some? then (this, Done(Reply(Status(), error)))
        else (WithLease(lease), if lease.appConnected then Done(Reply(Running, None)) else MustReap(lease.reference))
    }

    function HoldV3(b: RouteBinding): (Core, Reply) {
      if active.None? then (this, Reply(Idle, Some(StaleGeneration)))
      else
        var (lease, error) := active.value.lease.HoldV3(b);
        if error.Some? then (this, Reply(Status(), error)) else (WithLease(lease), Reply(RouteHeld, None))
    }

    function ReleaseV3First(b: RouteBinding): (Core, Section) {
      var retiredMatch := Classify(b);
      var absent := if retiredMatch == SameSessionMismatch then HoldMismatch else StaleGeneration;
      if retiredMatch == Exact then (this, Done(Reply(Idle, None)))
      else if active.None? then (this, Done(Reply(Idle, Some(absent))))
      else if !b.Matches(active.value.lease.reference) then (this, Done(Reply(Status(), Some(absent))))
      else
        var (lease, error) := active.value.lease.ReleaseV3(b);
        if error.Some? then (this, Done(Reply(Status(), error)))
        else (WithLease(lease), if lease.appConnected then Done(Reply(Running, None)) else MustReap(lease.reference))
    }

    function ReleaseV3Second(b: RouteBinding, reference: TunnelReference): Core {
      if Serves(reference) && !active.value.lease.HasRouteHold() && !active.value.lease.appConnected
      then this.(active := None, retired := Some(b)) else this
    }

    function StatusV3(b: RouteBinding): (Core, Reply) {
      var retiredMatch := Classify(b);
      var absent := if retiredMatch == SameSessionMismatch then HoldMismatch else StaleGeneration;
      if retiredMatch == Exact then (this, Reply(Idle, None))
      else if active.None? then (this, Reply(Idle, Some(absent)))
      else if !b.Matches(active.value.lease.reference) then (this, Reply(Status(), Some(absent)))
      else
        var (lease, error) := active.value.lease.StatusV3(b);
        (WithLease(lease), Reply(Status(), error))
    }

    function ChildExited(reference: TunnelReference): Core {
      if !Serves(reference) then this
      else if !active.value.lease.HasRouteHold() then Cleared()
      else WithLease(active.value.lease.(recoveryRequired := true))
    }

    function HeartbeatTick(expired: bool): Core {
      if active.None? then this else WithLease(active.value.lease.MarkHeartbeatExpired(expired).0)
    }
  }

  const INITIAL_CORE := Core(1, None, None)

  // ----- every interleaving of the critical sections -----

  datatype ReapCall = StopCall | AppGoneCall | LegacyReleaseCall | ReleaseV3Call(binding: RouteBinding)

  /** A call between its two sections. */
  datatype Reap = Reap(id: nat, call: ReapCall, reference: TunnelReference)

  datatype System = System(core: Core, reaps: set<Reap>, nextReap: nat)

  const INITIAL_SYSTEM := System(INITIAL_CORE, {}, 0)

  datatype Label =
    | StartCall(conn: ConnectionId, sidecarInstanceId: string, launch: Launch)
    | StopFirstSection(reference: TunnelReference, conn: ConnectionId)
    | AppGoneFirstSection(conn: ConnectionId)
    | LegacyHoldCall(legacy: LegacyBinding)
    | LegacyReleaseFirstSection(legacy: LegacyBinding)
    | HoldV3Call(binding: RouteBinding)
    | ReleaseV3FirstSection(binding: RouteBinding)
    | StatusV3Call(binding: RouteBinding)
    | ReapSucceeded(reap: Reap)
    | ReapFailed(reap: Reap)
    | ChildDies
    | ChildExitedCallback(reference: TunnelReference)
    | Watchdog(expired: bool)

  /** The child started for `reference` is gone: a session is only forgotten once its child exited. */
  predicate ChildGone(core: Core, reference: TunnelReference) {
    core.Serves(reference) ==> !core.active.value.childRunning
  }

  predicate Enabled(s: System, l: Label) {
    match l
    case ReapSucceeded(reap) => reap in s.reaps && ChildGone(s.core, reap.reference)
    case ReapFailed(reap) => reap in s.reaps
    case ChildDies => s.core.active.Some?
    case ChildExitedCallback(reference) =>
      reference.generation < s.core.nextGeneration && ChildGone(s.core, reference)
    case _ => true
  }

  function WithReap(s: System, core: Core, call: ReapCall, section: Section): System {
    if section.Done? then s.(core := core)
    else System(core, s.reaps + {Reap(s.nextReap, call, section.reference)}, s.nextReap + 1)
  }

  function Finished(core: Core, reap: Reap): Core {
    match reap.call
    case StopCall => core.StopSecond(reap.reference)
    case AppGoneCall => core.DisconnectedSecond(reap.reference)
    case LegacyReleaseCall => core.DisconnectedSecond(reap.reference)
    case ReleaseV3Call(binding) => core.ReleaseV3Second(binding, reap.reference)
  }

  function Next(s: System, l: Label): System {
    match l
    case StartCall(conn, sidecar, launch) => s.(core := s.core.Start(conn, sidecar, launch).0)
    case StopFirstSection(reference, conn) => WithReap(s, s.core, StopCall, s.core.StopFirst(reference, conn))
    case AppGoneFirstSection(conn) =>
      var (core, reference) := s.core.AppGoneFirst(conn);
      WithReap(s, core, AppGoneCall,
               if reference.Some? then MustReap(reference.value) else Done(Reply(core.Status(), None)))
    case LegacyHoldCall(legacy) => s.(core := s.core.LegacyHold(legacy).0)
    case LegacyReleaseFirstSection(legacy) =>
      var (core, section) := s.core.LegacyReleaseFirst(legacy);
      WithReap(s, core, LegacyReleaseCall, section)
    case HoldV3Call(binding) => s.(core := s.core.HoldV3(binding).0)
    case ReleaseV3FirstSection(binding) =>
      var (core, section) := s.core.ReleaseV3First(binding);
      WithReap(s, core, ReleaseV3Call(binding), section)
    case StatusV3Call(binding) => s.(core := s.core.StatusV3(binding).0)
    case ReapSucceeded(reap) => s.(core := Finished(s.core, reap), reaps := s.reaps - {reap})
    case ReapFailed(reap) => s.(reaps := s.reaps - {reap})
    case ChildDies =>
      if s.core.active.Some? then s.(core := s.core.(active := Some(s.core.active.value.(childRunning := false))))
      else s
    case ChildExitedCallback(reference) => s.(core := s.core.ChildExited(reference))
    case Watchdog(expired) => s.(core := s.core.HeartbeatTick(expired))
  }

  // ----- invariant -----

  ghost predicate CoreInv(core: Core) {
    && 0 < core.nextGeneration
    && (core.active.Some? ==>
          && core.active.value.lease.OneAuthority()
          && core.active.value.lease.reference.generation < core.nextGeneration)
    && (core.retired.Some? ==>
          && core.retired.value.IsValid()
          && core.retired.value.brokerGeneration < core.nextGeneration
          && (core.active.Some? ==>
                core.retired.value.brokerGeneration < core.active.value.lease.reference.generation))
  }

  /** A ticket refers to a session already begun; if that session is still there, it is the one it saw. */
  ghost predicate ReapInv(core: Core, nextReap: nat, reap: Reap) {
    && reap.id < nextReap
    && reap.reference.generation < core.nextGeneration
    && (core.active.Some? && core.active.value.lease.reference.generation == reap.reference.generation ==>
          && core.active.value.lease.reference == reap.reference
          && (reap.call.ReleaseV3Call? ==>
                core.active.value.lease.releasedRouteBinding == Some(reap.call.binding)))
    && (reap.call.ReleaseV3Call? ==> reap.call.binding.Matches(reap.reference))
  }

  ghost predicate Inv(s: System) {
    && CoreInv(s.core)
    && (forall reap | reap in s.reaps :: ReapInv(s.core, s.nextReap, reap))
  }

  /** What one section may do to the active session and to the tombstone. */
  ghost predicate CoreLeadsTo(before: Core, after: Core) {
    && before.nextGeneration <= after.nextGeneration
    && (before.active.Some? && after.active.Some? ==>
          LeadsTo(before.active.value.lease, after.active.value.lease)
          && (after.active.value.childRunning ==> before.active.value.childRunning))
    && (before.active.None? && after.active.Some? ==>
          && after.active.value.lease.reference.generation == before.nextGeneration
          && after.active.value.lease.CurrentAuthority().Unclaimed?
          && after.nextGeneration == before.nextGeneration + 1)
    && (before.active.Some? && after.active.None? ==>
          && !before.active.value.lease.HasRouteHold()
          && after.retired == (if before.active.value.lease.releasedRouteBinding.Some?
                               then before.active.value.lease.releasedRouteBinding else before.retired))
    && (before.active.None? || after.active.Some? ==> after.retired == before.retired)
  }

  ghost predicate Advances(before: Core, after: Core) {
    CoreInv(after) && CoreLeadsTo(before, after)
  }

  lemma LeaseCallAdvances(core: Core, lease: Lease)
    requires CoreInv(core) && core.active.Some?
    requires lease.OneAuthority() && LeadsTo(core.active.value.lease, lease)
    ensures Advances(core, core.WithLease(lease))
  {
  }

  lemma ClearingAdvances(core: Core)
    requires CoreInv(core) && core.active.Some? && !core.active.value.lease.HasRouteHold()
    ensures Advances(core, core.Cleared())
  {
  }

  lemma LegacyCallsAdvance(core: Core, b: LegacyBinding)
    requires CoreInv(core)
    ensures Advances(core, core.LegacyHold(b).0)
    ensures Advances(core, core.LegacyReleaseFirst(b).0)
  {
    if core.active.Some? {
      LegacyCallsMoveForward(core.active.value.lease, b);
      LeaseCallAdvances(core, core.active.value.lease.Hold(b).0);
      LeaseCallAdvances(core, core.active.value.lease.Release(b).0);
    }
  }

  lemma V3CallsAdvance(core: Core, b: RouteBinding)
    requires CoreInv(core)
    ensures Advances(core, core.HoldV3(b).0)
    ensures Advances(core, core.ReleaseV3First(b).0)
    ensures Advances(core, core.StatusV3(b).0)
  {
    hide Lease.HoldV3, Lease.ReleaseV3, Lease.StatusV3;
    if core.active.Some? {
      V3CallsMoveForward(core.active.value.lease, b, false);
      LeaseCallAdvances(core, core.active.value.lease.HoldV3(b).0);
      LeaseCallAdvances(core, core.active.value.lease.ReleaseV3(b).0);
      LeaseCallAdvances(core, core.active.value.lease.StatusV3(b).0);
    }
  }

  lemma WatchdogAdvances(core: Core, expired: bool)
    requires CoreInv(core)
    ensures Advances(core, core.HeartbeatTick(expired))
  {
    if core.active.Some? {
      LeaseCallAdvances(core, core.active.value.lease.MarkHeartbeatExpired(expired).0);
    }
  }

  lemma AppGoneAdvances(core: Core, conn: ConnectionId)
    requires CoreInv(core)
    ensures Advances(core, core.AppGoneFirst(conn).0)
  {
  }

  lemma ChildExitAdvances(core: Core, reference: TunnelReference)
    requires CoreInv(core)
    ensures Advances(core, core.ChildExited(reference))
  {
    if core.Serves(reference) && !core.active.value.lease.HasRouteHold() {
      ClearingAdvances(core);
    }
  }

  /** The tuple a second section records is the one its session released. */
  lemma SecondSectionAdvances(core: Core, nextReap: nat, reap: Reap)
    requires CoreInv(core) && ReapInv(core, nextReap, reap)
    ensures Advances(core, Finished(core, reap))
    ensures Finished(core, reap) == core || (core.active.Some? && Finished(core, reap) == core.Cleared())
  {
    if Finished(core, reap) != core {
      ClearingAdvances(core);
    }
  }

  lemma SectionAdvances(s: System, l: Label)
    requires Inv(s) && Enabled(s, l)
    ensures Advances(s.core, Next(s, l).core)
    ensures s.core.active.Some? && Next(s, l).core.active.None? ==> !s.core.active.value.childRunning
  {
    hide Lease.Hold, Lease.Release, Lease.HoldV3, Lease.ReleaseV3, Lease.StatusV3, Lease.MarkHeartbeatExpired;
    match l {
      case LegacyHoldCall(b) => LegacyCallsAdvance(s.core, b);
      case LegacyReleaseFirstSection(b) => LegacyCallsAdvance(s.core, b);
      case HoldV3Call(b) => V3CallsAdvance(s.core, b);
      case ReleaseV3FirstSection(b) => V3CallsAdvance(s.core, b);
      case StatusV3Call(b) => V3CallsAdvance(s.core, b);
      case Watchdog(expired) => WatchdogAdvances(s.core, expired);
      case AppGoneFirstSection(conn) => AppGoneAdvances(s.core, conn);
      case ChildExitedCallback(reference) => ChildExitAdvances(s.core, reference);
      case ReapSucceeded(reap) => SecondSectionAdvances(s.core, s.nextReap, reap);
      case _ =>
    }
  }

  lemma TicketSurvives(s: System, l: Label, reap: Reap)
    requires Inv(s) && Enabled(s, l) && reap in s.reaps
    ensures ReapInv(Next(s, l).core, Next(s, l).nextReap, reap)
  {
    SectionAdvances(s, l);
    assert ReapInv(s.core, s.nextReap, reap);
  }

  lemma NewTicket(s: System, l: Label, reap: Reap)
    requires Inv(s) && Enabled(s, l) && reap in Next(s, l).reaps && reap !in s.reaps
    ensures ReapInv(Next(s, l).core, Next(s, l).nextReap, reap)
    ensures s.core.Serves(reap.reference) && Next(s, l).core.Serves(reap.reference)
    ensures !Next(s, l).core.active.value.lease.HasRouteHold()
  {
    SectionAdvances(s, l);
  }

  lemma NextKeepsInv(s: System, l: Label)
    requires Inv(s) && Enabled(s, l)
    ensures Inv(Next(s, l))
  {
    SectionAdvances(s, l);
    forall reap | reap in Next(s, l).reaps
      ensures ReapInv(Next(s, l).core, Next(s, l).nextReap, reap)
    {
      if reap in s.reaps {
        TicketSurvives(s, l, reap);
      } else {
        NewTicket(s, l, reap);
      }
    }
  }
}
