/**
 The broker coordinator as the object it is. One method stands for each stretch of code that runs
 under the lock, and appends its section to the ghost run; a call that gives up the lock to reap
 the child is a method of its own, with any other sections in between. Since the run stays a run
 of module Broker, its theorems hold at every moment, and the calls say what they leave behind
 whatever came in between.
 */
module TunnelBrokerCoordinators {
  import opened Wrappers
  import opened RouteBindings
  import opened SessionLease
  import opened Broker
  import opened BrokerRuns

  /** A session of `b` that nobody else has or had the authority over, with no recovery due. */
  ghost predicate GrantsHold(core: Core, b: RouteBinding) {
    && core.active.Some? && core.active.value.lease.IsOwn(b)
    && (|| core.active.value.lease.CurrentAuthority() == Unclaimed
        || (core.active.value.lease.CurrentAuthority() == Holds(V3(b)) && !core.active.value.lease.recoveryRequired))
  }

  /** The release of `b` stays answered: on record, or replaced by the tombstone of a later session. */
  ghost predicate StaysReleased(core: Core, b: RouteBinding) {
    Fenced(core, b) && (Recorded(core, b) || Superseded(core, b))
  }

  /** A refusal is a mismatch, and not stale, when the session of `b` is the active or the retired one. */
  ghost predicate IsMismatch(core: Core, b: RouteBinding) {
    if core.active.Some? && b.Matches(core.active.value.lease.reference) then b.IsValid()
    else core.retired.Some? && core.retired.value.SameSession(b)
  }

  /** The call of this ticket is not ended by the step. */
  predicate Spares(l: Label, reap: Reap) {
    l != ReapSucceeded(reap) && l != ReapFailed(reap)
  }

  lemma ReleaseOutcome(core: Core, b: RouteBinding)
    requires CoreInv(core)
    ensures var (after, section) := core.ReleaseV3First(b);
            && ((section.Done? ==> section.reply.error.None?) <==> AcceptsRelease(core, b))
            && (AcceptsRelease(core, b) ==> StaysReleased(after, b))
            && (!AcceptsRelease(core, b) ==>
                  after == core && section.reply.error == Some(if IsMismatch(core, b) then HoldMismatch else StaleGeneration))
            && HeldBinding(after) == (if HeldBinding(core) == Some(b) && AcceptsRelease(core, b) then None else HeldBinding(core))
            && (section.MustReap? ==> after.Serves(section.reference) && !after.active.value.lease.appConnected)
            && (section.MustReap? <==>
                  && AcceptsRelease(core, b) && core.retired != Some(b)
                  && core.active.Some? && !core.active.value.lease.appConnected)
            && (section.Done? ==>
                  section.reply.status == (if section.reply.error.Some? then core.Status()
                                           else if core.retired == Some(b) then Idle else Running))
  {
    ReleaseAcceptedExactlyWhen(core, b);
    if AcceptsRelease(core, b) {
      AcceptedReleaseFences(core, b);
    }
  }

  lemma StatusOutcome(core: Core, b: RouteBinding)
    requires CoreInv(core)
    ensures var (after, reply) := core.StatusV3(b);
            var recovers := core.active.Some? && core.active.value.lease.recoveryRequired;
            && HeldBinding(after) == HeldBinding(core) && after.retired == core.retired
            && (core.active.Some? <==> after.active.Some?)
            && (core.active.Some? ==>
                  && after.active.value.lease.CurrentAuthority() == core.active.value.lease.CurrentAuthority()
                  && after.active.value.lease.recoveryRequired == recovers)
            && (reply.error.None? && reply.status == RouteHeld <==> HeldBinding(core) == Some(b) && !recovers)
            && (reply.error.None? && reply.status == RouteHeld ==> after.active.Some? && after.active.value.lease.heartbeatSeen)
            && (reply.error.None? && reply.status != RouteHeld <==> Recorded(core, b))
            && (Recorded(after, b) <==> Recorded(core, b))
            && (reply.error.None? && reply.status == Idle <==> core.retired == Some(b))
            && (reply.error == Some(Unavailable) <==> HeldBinding(core) == Some(b) && recovers)
            && (reply.error.Some? ==> after == core && reply.status == core.Status())
            && (reply.error.Some? && reply.error != Some(Unavailable) ==>
                  reply.error == Some(if IsMismatch(core, b) then HoldMismatch else StaleGeneration))
  {
  }

  /** A session still served is the one it was, its claim at most moved forward. */
  lemma SameSession(states: seq<System>, labels: seq<Label>, i: nat, j: nat, generation: nat)
    requires IsRun(states, labels) && i <= j < |states| && Alive(states[i].core, generation)
    ensures Alive(states[j].core, generation) ==> LeadsTo(LeaseAt(states, i), LeaseAt(states, j))
  {
    SessionOutcome(states, labels, i, j, generation);
  }

  lemma FencedIsNotHeld(core: Core, b: RouteBinding)
    requires CoreInv(core)
    ensures StaysReleased(core, b) ==> HeldBinding(core) != Some(b)
  {
    if Fenced(core, b) {
      FencedHoldIsRefused(core, b);
    }
  }

  lemma {:induction false} ReleaseStays(states: seq<System>, labels: seq<Label>, i: nat, j: nat, b: RouteBinding)
    requires IsRun(states, labels) && i <= j < |states| && StaysReleased(states[i].core, b)
    ensures StaysReleased(states[j].core, b) && HeldBinding(states[j].core) != Some(b)
  {
    RunInv(states, labels, j);
    FenceStays(states, labels, i, j, b);
    if Superseded(states[i].core, b) {
      SupersededForGood(states, labels, i, j, b);
    } else {
      ReleaseRetriesStayPositive(states, labels, i, j, b);
    }
    FencedIsNotHeld(states[j].core, b);
  }

  lemma {:induction false} FenceStays(states: seq<System>, labels: seq<Label>, i: nat, j: nat, b: RouteBinding)
    requires IsRun(states, labels) && i <= j < |states| && Fenced(states[i].core, b)
    ensures Fenced(states[j].core, b)
  {
    if i < j {
      FenceStays(states, labels, i, j - 1, b);
      RunInv(states, labels, j - 1);
      assert StepAt(states, labels, j - 1);
      FenceSurvivesSection(states[j - 1], labels[j - 1], b);
    }
  }

  lemma TicketsStay(s: System, l: Label, reap: Reap)
    requires reap in s.reaps && Spares(l, reap)
    ensures reap in Next(s, l).reaps
  {
  }

  class TunnelBrokerCoordinator {
    var nextGeneration: nat
    var active: SessionLeaseState?
    var childRunning: bool
    var retired: Option<RouteBinding>
    // the calls between their two sections
    var reaps: set<Reap>
    var nextReap: nat
    ghost var states: seq<System>
    ghost var labels: seq<Label>

    function View(): Core
      reads this, active
    {
      Core(nextGeneration,
           if active == null then None else Some(Session(active.View(), childRunning)),
           retired)
    }

    function Whole(): System
      reads this, active
    {
      System(View(), reaps, nextReap)
    }

    /** The recorded run has reached the present state. */
    ghost predicate Valid()
      reads this, active
    {
      && IsRun(states, labels) && states[|states| - 1] == Whole()
      && (active != null ==> active.Valid())
    }

    /** One section, and nothing else, has happened since. */
    ghost predicate Took(before: seq<System>, l: Label)
      requires before != []
      reads this
    {
      |labels| == |before| && labels[|labels| - 1] == l
      && states == before + [Next(before[|before| - 1], l)]
    }

    constructor ()
      ensures Valid() && Whole() == INITIAL_SYSTEM && active == null
    {
      nextGeneration, active, childRunning, retired := 1, null, false, None;
      reaps, nextReap := {}, 0;
      states, labels := [INITIAL_SYSTEM], [];
    }

    /** Append the section that led here. */
    ghost method Note(l: Label)
      requires IsRun(states, labels) && Enabled(states[|states| - 1], l) && Next(states[|states| - 1], l) == Whole()
      modifies this`states, this`labels
      ensures Valid() && Took(old(states), l) && Advances(old(states)[|old(states)| - 1].core, View())
    {
      var before := states[|states| - 1];
      RunInv(states, labels, |states| - 1);
      SectionAdvances(before, l);
      ExtendedIsRun(states, labels, l);
      states, labels := states + [Next(before, l)], labels + [l];
    }

    method CurrentState() returns (status: BrokerStatus)
      ensures status == View().Status()
      ensures status == (if active == null then Idle else if active.Authority().Holds? then RouteHeld else Running)
    {
      if active == null {
        return Idle;
      }
      var held := active.routeLeaseId.Some? || active.routeBinding.Some?;
      return if held then RouteHeld else Running;
    }

    method Classify(b: RouteBinding) returns (m: RetiredMatch)
      ensures m == View().Classify(b)
    {
      if retired.None? {
        return Unrelated;
      }
      if retired.value == b {
        return Exact;
      }
      return if retired.value.SameSession(b) then SameSessionMismatch else Unrelated;
    }

    /** Forget the session, keeping the tuple it released as the tombstone. */
    method ClearActive()
      requires active != null
      modifies this`active, this`retired
      ensures View() == old(View()).Cleared()
      ensures active == null
    {
      if active.releasedRouteBinding.Some? {
        retired := active.releasedRouteBinding;
      }
      active := null;
    }

    // ----- sections -----

    /** A session starts only beside no other, under a generation that no session ever had. */
    method Start(conn: ConnectionId, sidecarInstanceId: string, launch: Launch) returns (reply: Reply)
      requires Valid()
      modifies this
      ensures Valid() && Took(old(states), StartCall(conn, sidecarInstanceId, launch))
      ensures active == old(active) || fresh(active)
      ensures reply.error.None? <==> old(active) == null && old(nextGeneration) <= INT64_MAX && launch.Launched?
      ensures reply.error.None? ==>
                && active != null && childRunning && active.Authority() == Unclaimed
                && active.appConnectionId == conn && active.appConnected
                && active.reference == TunnelReference(BROKER_PROTOCOL_VERSION, old(nextGeneration), sidecarInstanceId)
                && forall k | 0 <= k < |old(states)| :: !Alive(old(states)[k].core, active.reference.generation)
      ensures reply.error.Some? ==> active == old(active)
      ensures reply.error == Some(AlreadyRunning) <==> old(active) != null
      ensures reply.error == Some(LaunchFailed) <==> old(active) == null && old(nextGeneration) <= INT64_MAX && launch.ChildFailed?
      ensures reply.error in {None, Some(AlreadyRunning), Some(LaunchFailed), Some(Unavailable)}
      ensures reply.status == (if reply.error.None? then Running else old(View()).Status())
      ensures nextGeneration == old(nextGeneration) + (if old(active) == null && old(nextGeneration) <= INT64_MAX then 1 else 0)
      ensures retired == old(retired) && (old(active) != null ==> View() == old(View()))
    {
      if active != null {
        var status := CurrentState();
        Note(StartCall(conn, sidecarInstanceId, launch));
        return Reply(status, Some(AlreadyRunning));
      }
      if nextGeneration > INT64_MAX {
        Note(StartCall(conn, sidecarInstanceId, launch));
        return Reply(Idle, Some(Unavailable));
      }
      var reference := TunnelReference(BROKER_PROTOCOL_VERSION, nextGeneration, sidecarInstanceId);
      GenerationsAreBelow(states, labels);
      nextGeneration := nextGeneration + 1;
      if launch.Launched? {
        active := new SessionLeaseState(reference, conn);
        childRunning := true;
      }
      Note(StartCall(conn, sidecarInstanceId, launch));
      match launch {
        case NoPlan => return Reply(Idle, Some(Unavailable));
        case ChildFailed => return Reply(Idle, Some(LaunchFailed));
        case Launched => return Reply(Running, None);
      }
    }

    /** Stopping begins only for the session's own client, and never over a hold. */
    method StopFirst(reference: TunnelReference, conn: ConnectionId) returns (section: Section)
      requires Valid()
      modifies this`reaps, this`nextReap, this`states, this`labels
      ensures Valid() && Took(old(states), StopFirstSection(reference, conn))
      ensures View() == old(View())
      ensures section.MustReap? <==>
                && reference.IsValid() && View().Serves(reference)
                && active.appConnectionId == conn && !active.Authority().Holds?
      ensures section.MustReap? ==>
                section.reference == reference && reaps == old(reaps) + {Reap(old(nextReap), StopCall, reference)}
      ensures section.Done? ==>
                section.reply.error in {Some(StaleGeneration), Some(OwnershipMismatch), Some(RouteIsHeld)} && reaps == old(reaps)
      ensures section.Done? && section.reply.error == Some(RouteIsHeld) <==>
                && reference.IsValid() && View().Serves(reference)
                && active.appConnectionId == conn && active.Authority().Holds?
      ensures section.Done? && section.reply.error == Some(OwnershipMismatch) <==>
                reference.IsValid() && active != null && active.appConnectionId != conn
      ensures section.Done? ==> section.reply.status == View().Status()
    {
      var status := CurrentState();
      if !reference.IsValid() || active == null {
        section := Done(Reply(status, Some(StaleGeneration)));
      } else if active.appConnectionId != conn {
        section := Done(Reply(status, Some(OwnershipMismatch)));
      } else if reference != active.reference {
        section := Done(Reply(status, Some(StaleGeneration)));
      } else if status == RouteHeld {
        section := Done(Reply(RouteHeld, Some(RouteIsHeld)));
      } else {
        section := MustReap(reference);
        reaps, nextReap := reaps + {Reap(nextReap, StopCall, reference)}, nextReap + 1;
      }
      Note(StopFirstSection(reference, conn));
    }

    /** The second section of a call: the session it saw is forgotten unless someone holds it or, for some calls, a client is back. */
    method FinishReap(reap: Reap) returns (reply: Reply)
      requires Valid() && reap in reaps && ChildGone(View(), reap.reference)
      modifies this`active, this`retired, this`reaps, this`states, this`labels
      ensures Valid() && Took(old(states), ReapSucceeded(reap)) && reaps == old(reaps) - {reap}
      ensures View() == old(View()) || (old(View()).Serves(reap.reference) && View() == old(View()).Cleared())
      ensures View().Serves(reap.reference) ==>
                active.Authority().Holds? || (active.appConnected && !reap.call.StopCall?)
      ensures active == null || active == old(active)
      ensures old(active) != null && old(active.Authority()).Holds? ==> active == old(active)
      ensures reply == Reply(Idle, None)
    {
      ghost var core := View();
      RunInv(states, labels, |states| - 1);
      SecondSectionAdvances(core, nextReap, reap);
      var status := CurrentState();
      match reap.call {
        case StopCall =>
          if active != null && active.reference == reap.reference && status != RouteHeld {
            ClearActive();
          }
        case AppGoneCall =>
          if active != null && active.reference == reap.reference && status != RouteHeld && !active.appConnected {
            ClearActive();
          }
        case LegacyReleaseCall =>
          if active != null && active.reference == reap.reference && status != RouteHeld && !active.appConnected {
            ClearActive();
          }
        case ReleaseV3Call(binding) =>
          if active != null && active.reference == reap.reference && status != RouteHeld && !active.appConnected {
            retired := Some(binding);
            active := null;
          }
      }
      reaps := reaps - {reap};
      Note(ReapSucceeded(reap));
      return Reply(Idle, None);
    }

    method AbandonReap(reap: Reap) returns (reply: Reply)
      requires Valid() && reap in reaps
      modifies this`reaps, this`states, this`labels
      ensures Valid() && Took(old(states), ReapFailed(reap)) && reaps == old(reaps) - {reap}
      ensures View() == old(View()) && reply == Reply(Running, Some(Unavailable))
    {
      reaps := reaps - {reap};
      Note(ReapFailed(reap));
      return Reply(Running, Some(Unavailable));
    }

    /** The session's client is gone for good; an unheld session is to be reaped. */
    method AppGoneFirst(conn: ConnectionId) returns (reference: Option<TunnelReference>)
      requires Valid()
      modifies this`reaps, this`nextReap, this`states, this`labels, active
      ensures Valid() && active == old(active) && Took(old(states), AppGoneFirstSection(conn))
      ensures active != null && active.appConnectionId == conn ==> !active.appConnected
      ensures active != null ==> active.Authority() == old(active.Authority()) && active.reference == old(active.reference)
      ensures active != null && active.appConnectionId != conn ==> active.View() == old(active.View())
      ensures reference.Some? <==> active != null && active.appConnectionId == conn && !active.Authority().Holds?
      ensures reference.Some? ==>
                && View().Serves(reference.value)
                && reaps == old(reaps) + {Reap(old(nextReap), AppGoneCall, reference.value)}
      ensures reference.None? ==> reaps == old(reaps)
    {
      reference := None;
      if active != null && active.appConnectionId == conn {
        active.appConnected := false;
        var status := CurrentState();
        if status != RouteHeld {
          reference := Some(active.reference);
          reaps, nextReap := reaps + {Reap(nextReap, AppGoneCall, active.reference)}, nextReap + 1;
        }
      }
      Note(AppGoneFirstSection(conn));
    }

    /** A reply without error means that this lease id now has the authority over the session. */
    method LegacyHold(b: LegacyBinding) returns (reply: Reply)
      requires Valid()
      modifies this`states, this`labels, active
      ensures Valid() && active == old(active) && Took(old(states), LegacyHoldCall(b))
      ensures reply.error.None? ==>
                && reply.status == RouteHeld && active != null && active.reference == b.reference
                && active.Authority() == Holds(Legacy(b.routeLeaseId))
      ensures reply.error.Some? ==> View() == old(View()) && reply.status == View().Status()
      ensures reply.error.None? <==>
                && active != null && b.IsValid() && b.reference == active.reference
                && old(active.Authority()) in {Unclaimed, Holds(Legacy(b.routeLeaseId))}
      ensures reply.error == Some(StaleGeneration) <==> active == null || !b.IsValid() || b.reference != active.reference
      ensures reply.error in {None, Some(StaleGeneration), Some(HoldMismatch)}
    {
      if active == null {
        Note(LegacyHoldCall(b));
        return Reply(Idle, Some(StaleGeneration));
      }
      var error := active.Hold(b);
      Note(LegacyHoldCall(b));
      if error.Some? {
        var status := CurrentState();
        return Reply(status, error);
      }
      return Reply(RouteHeld, None);
    }

    method LegacyReleaseFirst(b: LegacyBinding) returns (section: Section)
      requires Valid()
      modifies this`reaps, this`nextReap, this`states, this`labels, active
      ensures Valid() && active == old(active) && Took(old(states), LegacyReleaseFirstSection(b))
      ensures !(section.Done? && section.reply.error.Some?) <==>
                && active != null && b.IsValid() && b.reference == active.reference
                && old(active.Authority()) in {Holds(Legacy(b.routeLeaseId)), HasReleased(Legacy(b.routeLeaseId))}
      ensures section.Done? && section.reply.error.Some? ==>
                && View() == old(View()) && reaps == old(reaps) && section.reply.status == View().Status()
                && section.reply.error == Some(if active == null || !b.IsValid() || b.reference != active.reference
                                               then StaleGeneration else HoldMismatch)
      ensures section.Done? && section.reply.error.None? ==> section.reply.status == Running
      ensures !(section.Done? && section.reply.error.Some?) ==>
                && active != null && active.reference == b.reference
                && active.Authority() == HasReleased(Legacy(b.routeLeaseId))
      ensures section.MustReap? <==> !(section.Done? && section.reply.error.Some?) && !active.appConnected
      ensures section.MustReap? ==>
                && section.reference == b.reference
                && reaps == old(reaps) + {Reap(old(nextReap), LegacyReleaseCall, b.reference)}
    {
      if active == null {
        section := Done(Reply(Idle, Some(StaleGeneration)));
      } else {
        var error := active.Release(b);
        if error.Some? {
          var status := CurrentState();
          section := Done(Reply(status, error));
        } else if active.appConnected {
          section := Done(Reply(Running, None));
        } else {
          section := MustReap(active.reference);
          reaps, nextReap := reaps + {Reap(nextReap, LegacyReleaseCall, active.reference)}, nextReap + 1;
        }
      }
      Note(LegacyReleaseFirstSection(b));
    }

    /** A reply without error means that the broker now holds exactly this tuple, which was not fenced. */
    method HoldV3(b: RouteBinding) returns (reply: Reply)
      requires Valid()
      modifies this`states, this`labels, active
      ensures Valid() && active == old(active) && Took(old(states), HoldV3Call(b))
      ensures reply.error.None? ==>
                && reply.status == RouteHeld && HeldBinding(View()) == Some(b) && !old(Fenced(View(), b))
                && !active.recoveryRequired
      ensures reply.error.Some? ==> View() == old(View()) && reply.status == View().Status()
      ensures reply.error.None? <==> old(GrantsHold(View(), b))
      ensures reply.error == Some(Unavailable) <==> old(HeldBinding(View())) == Some(b) && old(active.recoveryRequired)
      ensures reply.error == Some(StaleGeneration) <==> active == null || !b.IsValid() || !b.Matches(active.reference)
      ensures reply.error in {None, Some(StaleGeneration), Some(HoldMismatch), Some(Unavailable)}
      ensures reply.error.None? ==> active.heartbeatSeen
    {
      RunInv(states, labels, |states| - 1);
      if Fenced(View(), b) {
        FencedHoldIsRefused(View(), b);
      }
      if active == null {
        Note(HoldV3Call(b));
        return Reply(Idle, Some(StaleGeneration));
      }
      var error := active.HoldV3(b);
      Note(HoldV3Call(b));
      if error.Some? {
        var status := CurrentState();
        return Reply(status, error);
      }
      return Reply(RouteHeld, None);
    }

    /** Accepted, the release is on record and its tuple fenced; refused, nothing changes. */
    method ReleaseV3First(b: RouteBinding) returns (section: Section)
      requires Valid()
      modifies this`reaps, this`nextReap, this`states, this`labels, active
      ensures Valid() && active == old(active) && Took(old(states), ReleaseV3FirstSection(b))
      ensures (section.Done? ==> section.reply.error.None?) <==> old(AcceptsRelease(View(), b))
      ensures old(AcceptsRelease(View(), b)) ==> StaysReleased(View(), b)
      ensures !old(AcceptsRelease(View(), b)) ==>
                && View() == old(View()) && section.reply.status == View().Status()
                && section.reply.error == Some(if old(IsMismatch(View(), b)) then HoldMismatch else StaleGeneration)
      ensures section.Done? && section.reply.error.None? ==>
                section.reply.status == (if old(retired) == Some(b) then Idle else Running)
      ensures section.MustReap? <==>
                old(AcceptsRelease(View(), b)) && old(retired) != Some(b) && active != null && !old(active.appConnected)
      ensures HeldBinding(View()) == if old(HeldBinding(View())) == Some(b) && old(AcceptsRelease(View(), b)) then None
                                     else old(HeldBinding(View()))
      ensures section.MustReap? ==>
                && View().Serves(section.reference) && !active.appConnected
                && reaps == old(reaps) + {Reap(old(nextReap), ReleaseV3Call(b), section.reference)}
    {
      hide AcceptsRelease, StaysReleased, HeldBinding, IsMismatch, Core.ReleaseV3First, CoreInv;
      RunInv(states, labels, |states| - 1);
      ReleaseOutcome(View(), b);
      section := ReleaseV3Section(b);
    }

    /** The section itself. */
    method ReleaseV3Section(b: RouteBinding) returns (section: Section)
      requires Valid()
      modifies this`reaps, this`nextReap, this`states, this`labels, active
      ensures Valid() && active == old(active) && Took(old(states), ReleaseV3FirstSection(b))
      ensures (View(), section) == old(View()).ReleaseV3First(b)
      ensures section.MustReap? ==> reaps == old(reaps) + {Reap(old(nextReap), ReleaseV3Call(b), section.reference)}
    {
      var retiredMatch := Classify(b);
      var absent := if retiredMatch == SameSessionMismatch then HoldMismatch else StaleGeneration;
      var status := CurrentState();
      if retiredMatch == Exact {
        section := Done(Reply(Idle, None));
      } else if active == null {
        section := Done(Reply(Idle, Some(absent)));
      } else if !b.Matches(active.reference) {
        section := Done(Reply(status, Some(absent)));
      } else {
        var error := active.ReleaseV3(b);
        if error.Some? {
          section := Done(Reply(status, error));
        } else if active.appConnected {
          section := Done(Reply(Running, None));
        } else {
          section := MustReap(active.reference);
          reaps, nextReap := reaps + {Reap(nextReap, ReleaseV3Call(b), active.reference)}, nextReap + 1;
        }
      }
      Note(ReleaseV3FirstSection(b));
    }

    /** A positive status says that the tuple is held, or that its release is on record. */
    method StatusV3(b: RouteBinding) returns (reply: Reply)
      requires Valid()
      modifies this`states, this`labels, active
      ensures Valid() && active == old(active) && Took(old(states), StatusV3Call(b))
      ensures HeldBinding(View()) == old(HeldBinding(View())) && retired == old(retired)
      ensures reply.error.None? && reply.status == RouteHeld <==> HeldBinding(View()) == Some(b) && !active.recoveryRequired
      ensures reply.error.None? && reply.status != RouteHeld <==> Recorded(View(), b)
      ensures reply.error.None? && reply.status == Idle <==> retired == Some(b)
      ensures reply.error == Some(Unavailable) <==> HeldBinding(View()) == Some(b) && active.recoveryRequired
      ensures reply.error.Some? ==>
                && View() == old(View()) && reply.status == View().Status()
                && (reply.error != Some(Unavailable) ==>
                      reply.error == Some(if IsMismatch(View(), b) then HoldMismatch else StaleGeneration))
      ensures reply.error.None? && reply.status == RouteHeld ==> active.heartbeatSeen
      ensures active != null ==> active.Authority() == old(active.Authority()) && active.recoveryRequired == old(active.recoveryRequired)
    {
      hide HeldBinding, Recorded, IsMismatch, Core.StatusV3, CoreInv;
      RunInv(states, labels, |states| - 1);
      StatusOutcome(View(), b);
      reply := StatusV3Section(b);
    }

    /** The section itself. */
    method StatusV3Section(b: RouteBinding) returns (reply: Reply)
      requires Valid()
      modifies this`states, this`labels, active
      ensures Valid() && active == old(active) && Took(old(states), StatusV3Call(b))
      ensures (View(), reply) == old(View()).StatusV3(b)
    {
      var retiredMatch := Classify(b);
      var absent := if retiredMatch == SameSessionMismatch then HoldMismatch else StaleGeneration;
      var status := CurrentState();
      if retiredMatch == Exact {
        reply := Reply(Idle, None);
      } else if active == null {
        reply := Reply(Idle, Some(absent));
      } else if !b.Matches(active.reference) {
        reply := Reply(status, Some(absent));
      } else {
        var error := active.StatusV3(b);
        reply := Reply(status, error);
      }
      Note(StatusV3Call(b));
    }

    /** A held session outlives its child and asks for recovery; an unheld one goes, its release on record. */
    method ChildExited(reference: TunnelReference)
      requires Valid() && reference.generation < nextGeneration && ChildGone(View(), reference)
      modifies this`active, this`retired, this`states, this`labels, active
      ensures Valid() && Took(old(states), ChildExitedCallback(reference))
      ensures old(View()).Serves(reference) && old(active.Authority()).Holds? ==>
                active == old(active) && active.Authority() == old(active.Authority()) && active.recoveryRequired
      ensures old(View()).Serves(reference) && !old(active.Authority()).Holds? ==>
                active == null && View() == old(View()).Cleared()
      ensures !old(View()).Serves(reference) ==> View() == old(View())
      ensures active == null || active == old(active)
    {
      if active != null && reference == active.reference {
        var status := CurrentState();
        if status != RouteHeld {
          ClearActive();
        } else {
          active.recoveryRequired := true;
        }
      }
      Note(ChildExitedCallback(reference));
    }

    /** Takes no authority away; a hold that was heard of and has gone silent asks for recovery. */
    method HeartbeatWatchdogTick(expired: bool)
      requires Valid()
      modifies this`states, this`labels, active
      ensures Valid() && active == old(active) && Took(old(states), Watchdog(expired))
      ensures active != null ==> active.Authority() == old(active.Authority())
      ensures active != null ==>
                (active.recoveryRequired <==>
                   old(active.recoveryRequired) || (active.Authority().Holds? && old(active.heartbeatSeen) && expired))
    {
      if active != null {
        var _ := active.MarkHeartbeatExpired(expired);
      }
      Note(Watchdog(expired));
    }

    /** The operating system's part: the session's child exits. */
    method ChildDies()
      requires Valid() && active != null
      modifies this`childRunning, this`states, this`labels
      ensures Valid() && Took(old(states), Label.ChildDies) && !childRunning
      ensures View() == old(View()).(active := Some(Session(active.View(), false)))
    {
      childRunning := false;
      Note(Label.ChildDies);
    }

    // ----- calls that give up the lock -----

    /** Run the section that a label names. */
    method Perform(l: Label)
      requires Valid() && Enabled(Whole(), l)
      modifies this, active
      ensures Valid() && Took(old(states), l)
      ensures active == null || active == old(active) || fresh(active)
    {
      match l {
        case StartCall(conn, sidecar, launch) => var _ := Start(conn, sidecar, launch);
        case StopFirstSection(reference, conn) => var _ := StopFirst(reference, conn);
        case AppGoneFirstSection(conn) => var _ := AppGoneFirst(conn);
        case LegacyHoldCall(legacy) => var _ := LegacyHold(legacy);
        case LegacyReleaseFirstSection(legacy) => var _ := LegacyReleaseFirst(legacy);
        case HoldV3Call(binding) => var _ := HoldV3(binding);
        case ReleaseV3FirstSection(binding) => var _ := ReleaseV3First(binding);
        case StatusV3Call(binding) => var _ := StatusV3(binding);
        case ReapSucceeded(reap) => var _ := FinishReap(reap);
        case ReapFailed(reap) => var _ := AbandonReap(reap);
        case ChildDies => ChildDies();
        case ChildExitedCallback(reference) => ChildExited(reference);
        case Watchdog(expired) => HeartbeatWatchdogTick(expired);
      }
    }

    /** Any sections of other calls, while the call of `mine` waits for its child. */
    method Interfere(mine: Reap)
      requires Valid() && mine in reaps
      modifies this, active
      ensures Valid() && mine in reaps && old(states) <= states
      ensures active == null || active == old(active) || fresh(active)
    {
      var steps: nat := *;
      while steps > 0
        invariant Valid() && mine in reaps && old(states) <= states
        invariant active == null || active == old(active) || fresh(active)
      {
        var l: Label := *;
        if Spares(l, mine) && Enabled(Whole(), l) {
          TicketsStay(Whole(), l, mine);
          Perform(l);
        }
        steps := steps - 1;
      }
    }

    /** Reap the child of a call's session, and run the second section once it is gone. */
    method ReapAndFinish(mine: Reap) returns (reply: Reply)
      requires Valid() && mine in reaps
      modifies this, active
      ensures Valid() && old(states) <= states
      ensures active == null || active == old(active) || fresh(active)
      ensures reply in {Reply(Idle, None), Reply(Running, Some(Unavailable))}
      ensures reply.error.None? && View().Serves(mine.reference) ==>
                active.Authority().Holds? || (active.appConnected && !mine.call.StopCall?)
    {
      Interfere(mine);
      var reaped: bool := *;
      if !reaped {
        reply := AbandonReap(mine);
        return;
      }
      if active != null && active.reference == mine.reference {
        ChildDies();
      }
      reply := FinishReap(mine);
    }

    /** An idle reply means that the session is gone, or that a hold came while its child was reaped. */
    method Stop(reference: TunnelReference, conn: ConnectionId) returns (reply: Reply)
      requires Valid()
      modifies this, active
      ensures Valid() && old(states) <= states
      ensures reply.error.None? ==> !View().Serves(reference) || active.Authority().Holds?
      ensures reply.error.None? || reply.error == Some(Unavailable) <==>
                && reference.IsValid() && old(View()).Serves(reference)
                && old(active).appConnectionId == conn && !old(active.Authority()).Holds?
      ensures !(reply.error.None? || reply.error == Some(Unavailable)) ==>
                && View() == old(View()) && reply.status == View().Status()
                && reply.error in {Some(StaleGeneration), Some(OwnershipMismatch), Some(RouteIsHeld)}
      ensures reply.error == Some(RouteIsHeld) <==>
                && reference.IsValid() && old(View()).Serves(reference)
                && old(active).appConnectionId == conn && old(active.Authority()).Holds?
      ensures reply.error == Some(OwnershipMismatch) <==>
                reference.IsValid() && old(active) != null && old(active).appConnectionId != conn
      ensures reply.error.None? ==> reply.status == Idle
    {
      var ticket := nextReap;
      var section := StopFirst(reference, conn);
      if section.Done? {
        return section.reply;
      }
      reply := ReapAndFinish(Reap(ticket, StopCall, reference));
    }

    /** The client's session is without it for good, and gone if nobody held it and its child was reaped. */
    method AppInvalidated(conn: ConnectionId) returns (reaped: Option<Reply>)
      requires Valid()
      modifies this, active
      ensures Valid() && old(states) <= states
      ensures old(active) != null && old(active).appConnectionId == conn && View().Serves(old(active).reference) ==>
                !active.appConnected
      ensures reaped.Some? <==> old(active) != null && old(active).appConnectionId == conn && !old(active.Authority()).Holds?
      ensures reaped.Some? && reaped.value.error.None? && View().Serves(old(active).reference) ==> active.Authority().Holds?
    {
      ghost var first := |states|;
      var ticket := nextReap;
      var reference := AppGoneFirst(conn);
      if reference.Some? {
        var reply := ReapAndFinish(Reap(ticket, AppGoneCall, reference.value));
        SameSession(states, labels, first, |states| - 1, reference.value.generation);
        return Some(reply);
      }
      return None;
    }

    /** Unless refused, the lease id has given up the session's authority for good. */
    method Release(b: LegacyBinding) returns (reply: Reply)
      requires Valid()
      modifies this, active
      ensures Valid() && old(states) <= states
      ensures reply.error in {None, Some(Unavailable)} <==>
                && old(active) != null && b.IsValid() && b.reference == old(active).reference
                && old(active.Authority()) in {Holds(Legacy(b.routeLeaseId)), HasReleased(Legacy(b.routeLeaseId))}
      ensures reply.error in {None, Some(Unavailable)} && View().Serves(b.reference) ==>
                active.Authority() == HasReleased(Legacy(b.routeLeaseId))
      ensures reply.error !in {None, Some(Unavailable)} ==>
                && View() == old(View()) && reply.status == View().Status()
                && reply.error == Some(if active == null || !b.IsValid() || b.reference != active.reference
                                       then StaleGeneration else HoldMismatch)
      ensures reply.error.None? ==> reply.status == (if old(active) != null && old(active.appConnected) then Running else Idle)
      ensures reply == Reply(Idle, None) && old(active) != null && !old(active.appConnected) ==> !View().Serves(b.reference)
    {
      ghost var first := |states|;
      var ticket := nextReap;
      var section := LegacyReleaseFirst(b);
      if section.Done? {
        return section.reply;
      }
      reply := ReapAndFinish(Reap(ticket, LegacyReleaseCall, section.reference));
      SameSession(states, labels, first, |states| - 1, b.reference.generation);
    }

    /**
     Unless refused, the tuple is fenced and its release stays answered, whether or not the child
     could be reaped; a refused release changes nothing.
     */
    method ReleaseV3(b: RouteBinding) returns (reply: Reply)
      requires Valid()
      modifies this, active
      ensures Valid() && old(states) <= states
      ensures reply.error in {None, Some(Unavailable)} <==> old(AcceptsRelease(View(), b))
      ensures old(AcceptsRelease(View(), b)) ==> StaysReleased(View(), b) && HeldBinding(View()) != Some(b)
      ensures !old(AcceptsRelease(View(), b)) ==>
                && View() == old(View()) && reply.status == View().Status()
                && reply.error == Some(if old(IsMismatch(View(), b)) then HoldMismatch else StaleGeneration)
      ensures reply.error.None? ==>
                reply.status == (if old(retired) != Some(b) && old(active) != null && old(active.appConnected) then Running else Idle)
    {
      ghost var first := |states|;
      var ticket := nextReap;
      var section := ReleaseV3First(b);
      if section.Done? {
        RunInv(states, labels, |states| - 1);
        FencedIsNotHeld(View(), b);
        return section.reply;
      }
      reply := ReapAndFinish(Reap(ticket, ReleaseV3Call(b), section.reference));
      ReleaseStays(states, labels, first, |states| - 1, b);
    }
  }
}
