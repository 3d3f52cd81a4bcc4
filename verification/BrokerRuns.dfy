/** What holds over every run of the broker: any interleaving of sections, from a fresh process. */
module BrokerRuns {
  import opened Wrappers
  import opened RouteBindings
  import opened SessionLease
  import opened Broker

  ghost predicate IsRun(states: seq<System>, labels: seq<Label>) {
    && |states| == |labels| + 1
    && states[0] == INITIAL_SYSTEM
    && forall i | 0 <= i < |labels| :: StepAt(states, labels, i)
  }

  ghost predicate StepAt(states: seq<System>, labels: seq<Label>, i: nat)
    requires i < |labels| < |states|
  {
    Enabled(states[i], labels[i]) && states[i + 1] == Next(states[i], labels[i])
  }

  lemma {:induction false} RunInv(states: seq<System>, labels: seq<Label>, i: nat)
    requires IsRun(states, labels) && i < |states|
    ensures Inv(states[i])
  {
    if i > 0 {
      RunInv(states, labels, i - 1);
      assert StepAt(states, labels, i - 1);
      NextKeepsInv(states[i - 1], labels[i - 1]);
    }
  }

  lemma ExtendedIsRun(states: seq<System>, labels: seq<Label>, l: Label)
    requires IsRun(states, labels) && Enabled(states[|states| - 1], l)
    ensures IsRun(states + [Next(states[|states| - 1], l)], labels + [l])
  {
    var longer, more := states + [Next(states[|states| - 1], l)], labels + [l];
    forall i | 0 <= i < |more|
      ensures StepAt(longer, more, i)
    {
      if i < |labels| {
        assert StepAt(states, labels, i);
      }
    }
  }

  /** No session, past or present, has a generation that is still to be given out. */
  lemma GenerationsAreBelow(states: seq<System>, labels: seq<Label>)
    requires IsRun(states, labels)
    ensures forall k, g: nat | 0 <= k < |states| && Alive(states[k].core, g) :: g < states[|states| - 1].core.nextGeneration
  {
    forall k, g: nat | 0 <= k < |states| && Alive(states[k].core, g)
      ensures g < states[|states| - 1].core.nextGeneration
    {
      RunInv(states, labels, k);
      SessionOutcome(states, labels, k, |states| - 1, g);
      RunInv(states, labels, |states| - 1);
    }
  }

  ghost function LeaseAt(states: seq<System>, i: nat): Lease
    requires i < |states| && states[i].core.active.Some?
  {
    states[i].core.active.value.lease
  }

  ghost predicate Alive(core: Core, generation: nat) {
    core.active.Some? && core.active.value.lease.reference.generation == generation
  }

  ghost predicate Ended(core: Core, generation: nat) {
    generation < core.nextGeneration && !Alive(core, generation)
  }

  /** A generation names one session for good: alive with the same lease moved forward, or over. */
  lemma {:induction false} SessionOutcome(states: seq<System>, labels: seq<Label>, i: nat, j: nat, generation: nat)
    requires IsRun(states, labels) && i <= j < |states|
    requires Alive(states[i].core, generation)
    ensures || (Alive(states[j].core, generation) && LeadsTo(LeaseAt(states, i), LeaseAt(states, j)))
            || Ended(states[j].core, generation)
  {
    RunInv(states, labels, i);
    if i < j {
      SessionOutcome(states, labels, i, j - 1, generation);
      RunInv(states, labels, j - 1);
      assert StepAt(states, labels, j - 1);
      SectionAdvances(states[j - 1], labels[j - 1]);
      if Alive(states[j - 1].core, generation) && Alive(states[j].core, generation) {
        LeadsToTransitive(LeaseAt(states, i), LeaseAt(states, j - 1), LeaseAt(states, j));
      }
    }
  }

  lemma {:induction false} EndedForGood(states: seq<System>, labels: seq<Label>, i: nat, j: nat, generation: nat)
    requires IsRun(states, labels) && i <= j < |states|
    requires Ended(states[i].core, generation)
    ensures Ended(states[j].core, generation)
  {
    if i < j {
      EndedForGood(states, labels, i, j - 1, generation);
      RunInv(states, labels, j - 1);
      assert StepAt(states, labels, j - 1);
      SectionAdvances(states[j - 1], labels[j - 1]);
    }
  }

  /** Between two moments of one generation there is one session, never interrupted. */
  lemma OneSessionPerGeneration(states: seq<System>, labels: seq<Label>, i: nat, k: nat, j: nat, generation: nat)
    requires IsRun(states, labels) && i <= k <= j < |states|
    requires Alive(states[i].core, generation) && Alive(states[j].core, generation)
    ensures Alive(states[k].core, generation)
    ensures LeadsTo(LeaseAt(states, i), LeaseAt(states, k))
    ensures LeadsTo(LeaseAt(states, k), LeaseAt(states, j))
  {
    SessionOutcome(states, labels, i, k, generation);
    if Ended(states[k].core, generation) {
      EndedForGood(states, labels, k, j, generation);
    } else {
      SessionOutcome(states, labels, k, j, generation);
    }
  }

  /** No section forgets a session that records a hold, or whose child still runs. */
  lemma HeldSessionsAreKept(states: seq<System>, labels: seq<Label>, i: nat)
    requires IsRun(states, labels) && i < |labels|
    requires states[i].core.active.Some? && states[i + 1].core.active.None?
    ensures !LeaseAt(states, i).HasRouteHold()
    ensures !states[i].core.active.value.childRunning
  {
    RunInv(states, labels, i);
    assert StepAt(states, labels, i);
    SectionAdvances(states[i], labels[i]);
  }

  lemma {:induction false} TicketOrigin(states: seq<System>, labels: seq<Label>, j: nat, reap: Reap) returns (i: nat)
    requires IsRun(states, labels) && j < |states| && reap in states[j].reaps
    ensures i < j && reap !in states[i].reaps && states[i].core.Serves(reap.reference)
    ensures forall k | i < k <= j :: reap in states[k].reaps
  {
    RunInv(states, labels, j - 1);
    assert StepAt(states, labels, j - 1);
    if reap in states[j - 1].reaps {
      i := TicketOrigin(states, labels, j - 1, reap);
    } else {
      i := j - 1;
      NewTicket(states[j - 1], labels[j - 1], reap);
    }
  }

  /**
   A second section that clears a session clears the very session its first section saw, which
   was never replaced in between, and whose child has exited.
   */
  lemma SecondSectionClearsWhatItSaw(states: seq<System>, labels: seq<Label>, j: nat, reap: Reap)
    returns (i: nat)
    requires IsRun(states, labels) && j < |labels| && labels[j] == ReapSucceeded(reap)
    requires states[j].core.active.Some? && states[j + 1].core.active.None?
    ensures i < j && reap !in states[i].reaps && reap in states[i + 1].reaps && states[i].core.active.Some?
    ensures forall k | i <= k <= j ::
              states[k].core.Serves(reap.reference) && LeadsTo(LeaseAt(states, i), LeaseAt(states, k))
    ensures !states[j].core.active.value.childRunning && !LeaseAt(states, j).HasRouteHold()
    ensures states[j + 1].core == states[j].core.Cleared()
  {
    assert StepAt(states, labels, j);
    i := TicketOrigin(states, labels, j, reap);
    RunInv(states, labels, j);
    SecondSectionAdvances(states[j].core, states[j].nextReap, reap);
    HeldSessionsAreKept(states, labels, j);
    forall k | i <= k <= j
      ensures states[k].core.Serves(reap.reference) && LeadsTo(LeaseAt(states, i), LeaseAt(states, k))
    {
      OneSessionPerGeneration(states, labels, i, k, j, reap.reference.generation);
    }
  }

  // ----- one authority per session -----

  /**
   Over any run a session has at most one claim: what it holds or has released never changes to
   another claim, legacy and v3 never mix, and a released session never holds again.
   */
  lemma OneClaimPerSession(states: seq<System>, labels: seq<Label>, i: nat, j: nat, generation: nat)
    requires IsRun(states, labels) && i <= j < |states|
    requires Alive(states[i].core, generation) && Alive(states[j].core, generation)
    requires !LeaseAt(states, i).CurrentAuthority().Unclaimed?
    ensures !LeaseAt(states, j).CurrentAuthority().Unclaimed?
    ensures LeaseAt(states, j).CurrentAuthority().claim == LeaseAt(states, i).CurrentAuthority().claim
    ensures LeaseAt(states, i).CurrentAuthority().HasReleased? ==> !LeaseAt(states, j).HasRouteHold()
    ensures LeaseAt(states, i).CurrentAuthority().HasReleased? ==> LeaseAt(states, j).CurrentAuthority().HasReleased?
  {
    OneSessionPerGeneration(states, labels, i, j, j, generation);
  }

  /** Once the exit of a held session's child is noticed, it keeps that hold and the flag until released. */
  lemma NoticedExitSticks(states: seq<System>, labels: seq<Label>, i: nat, j: nat, reference: TunnelReference)
    requires IsRun(states, labels) && i < j < |states| && labels[i] == ChildExitedCallback(reference)
    requires states[i].core.Serves(reference) && LeaseAt(states, i).HasRouteHold()
    ensures Alive(states[j].core, reference.generation) || Ended(states[j].core, reference.generation)
    ensures Alive(states[j].core, reference.generation) && LeaseAt(states, j).HasRouteHold() ==>
              && LeaseAt(states, j).recoveryRequired
              && LeaseAt(states, j).CurrentAuthority() == LeaseAt(states, i).CurrentAuthority()
  {
    RunInv(states, labels, i);
    assert StepAt(states, labels, i);
    SessionOutcome(states, labels, i + 1, j, reference.generation);
  }

  // ----- release retries -----

  /** The v3 release of `b` is on record: in its own session, or as the tombstone. */
  predicate Recorded(core: Core, b: RouteBinding) {
    || core.retired == Some(b)
    || (core.active.Some? && core.active.value.lease.releasedRouteBinding == Some(b))
  }

  ghost predicate Superseded(core: Core, b: RouteBinding) {
    core.retired.Some? && b.brokerGeneration < core.retired.value.brokerGeneration
  }

  /** While recorded, status succeeds and release fails at most because the child was not reaped. */
  lemma RecordedAnswersPositively(core: Core, b: RouteBinding)
    requires CoreInv(core) && Recorded(core, b)
    ensures core.StatusV3(b).1.error.None?
    ensures core.ReleaseV3First(b).1.Done? ==> core.ReleaseV3First(b).1.reply.error.None?
  {
  }

  lemma {:induction false} SupersededForGood(states: seq<System>, labels: seq<Label>, i: nat, j: nat, b: RouteBinding)
    requires IsRun(states, labels) && i <= j < |states| && Superseded(states[i].core, b)
    ensures Superseded(states[j].core, b)
  {
    if i < j {
      SupersededForGood(states, labels, i, j - 1, b);
      RunInv(states, labels, j - 1);
      assert StepAt(states, labels, j - 1);
      SectionAdvances(states[j - 1], labels[j - 1]);
      RunInv(states, labels, j);
    }
  }

  lemma RecordSurvivesSection(s: System, l: Label, b: RouteBinding)
    requires Inv(s) && Enabled(s, l) && Recorded(s.core, b)
    ensures Recorded(Next(s, l).core, b) || Superseded(Next(s, l).core, b)
  {
    SectionAdvances(s, l);
    if s.core.active.Some? && s.core.active.value.lease.releasedRouteBinding == Some(b) {
      assert s.core.active.value.lease.CurrentAuthority() == HasReleased(V3(b));
    }
  }

  /**
   Once a v3 release is recorded, every later status and release of that tuple answers
   positively, through stops, disconnects, child exits and new sessions, until the tombstone of
   a later session has replaced it.
   */
  lemma {:induction false} ReleaseRetriesStayPositive(
      states: seq<System>, labels: seq<Label>, i: nat, j: nat, b: RouteBinding)
    requires IsRun(states, labels) && i <= j < |states| && Recorded(states[i].core, b)
    ensures || Superseded(states[j].core, b)
            || (&& Recorded(states[j].core, b)
                && states[j].core.StatusV3(b).1.error.None?
                && (states[j].core.ReleaseV3First(b).1.Done? ==>
                      states[j].core.ReleaseV3First(b).1.reply.error.None?))
  {
    RunInv(states, labels, j);
    if i < j {
      ReleaseRetriesStayPositive(states, labels, i, j - 1, b);
      RunInv(states, labels, j - 1);
      if Superseded(states[j - 1].core, b) {
        SupersededForGood(states, labels, j - 1, j, b);
      } else {
        assert StepAt(states, labels, j - 1);
        RecordSurvivesSection(states[j - 1], labels[j - 1], b);
      }
    }
    if Recorded(states[j].core, b) {
      RecordedAnswersPositively(states[j].core, b);
    }
  }

  // ----- the fence that an accepted release leaves behind, and the release that never succeeds -----

  /** No hold of `b` can be recorded any more. */
  ghost predicate Fenced(core: Core, b: RouteBinding) {
    && b.brokerGeneration < core.nextGeneration
    && (core.active.Some? && b.Matches(core.active.value.lease.reference) ==>
          core.active.value.lease.releasedRouteBinding.Some?)
  }

  ghost function HeldBinding(core: Core): Option<RouteBinding> {
    if core.active.Some? then core.active.value.lease.routeBinding else None
  }

  lemma FenceSurvivesSection(s: System, l: Label, b: RouteBinding)
    requires Inv(s) && Enabled(s, l) && Fenced(s.core, b)
    ensures Fenced(Next(s, l).core, b)
  {
    SectionAdvances(s, l);
    if s.core.active.Some? && b.Matches(s.core.active.value.lease.reference) {
      assert s.core.active.value.lease.CurrentAuthority().HasReleased?;
    }
  }

  lemma FencedHoldIsRefused(core: Core, b: RouteBinding)
    requires CoreInv(core) && Fenced(core, b)
    ensures core.HoldV3(b).0 == core
    ensures core.HoldV3(b).1.error in {Some(StaleGeneration), Some(HoldMismatch)}
    ensures HeldBinding(core) != Some(b)
  {
  }

  /** The first section of a release that is not refused fences its tuple, held or not. */
  lemma AcceptedReleaseFences(core: Core, b: RouteBinding)
    requires CoreInv(core)
    requires core.ReleaseV3First(b).1.Done? ==> core.ReleaseV3First(b).1.reply.error.None?
    ensures Fenced(core.ReleaseV3First(b).0, b)
    ensures HeldBinding(core.ReleaseV3First(b).0) == (if HeldBinding(core) == Some(b) then None else HeldBinding(core))
  {
  }

  /** The tombstone of `b`, or a session of `b` that nobody else has or had the authority over. */
  ghost predicate AcceptsRelease(core: Core, b: RouteBinding) {
    || core.retired == Some(b)
    || (&& core.active.Some? && core.active.value.lease.IsOwn(b)
        && core.active.value.lease.CurrentAuthority() in {Unclaimed, Holds(V3(b)), HasReleased(V3(b))})
  }

  /** Exactly which releases are accepted. */
  lemma ReleaseAcceptedExactlyWhen(core: Core, b: RouteBinding)
    requires CoreInv(core)
    ensures (core.ReleaseV3First(b).1.Done? ==> core.ReleaseV3First(b).1.reply.error.None?) <==> AcceptsRelease(core, b)
  {
  }

  /** The session of `b` was started and no longer accepts its release, nor does the tombstone. */
  ghost predicate RefusesForGood(core: Core, b: RouteBinding) {
    b.brokerGeneration < core.nextGeneration && !AcceptsRelease(core, b)
  }

  lemma RefusalSurvivesSection(s: System, l: Label, b: RouteBinding)
    requires Inv(s) && Enabled(s, l) && RefusesForGood(s.core, b)
    ensures RefusesForGood(Next(s, l).core, b)
  {
    hide Next, Enabled, RouteBinding.IsValid;
    SectionAdvances(s, l);
  }

  lemma RefusalChangesNothing(core: Core, b: RouteBinding)
    requires CoreInv(core) && !AcceptsRelease(core, b)
    ensures core.ReleaseV3First(b).0 == core && core.ReleaseV3First(b).1.Done?
    ensures core.ReleaseV3First(b).1.reply.error in {Some(StaleGeneration), Some(HoldMismatch)}
  {
  }

  /**
   A release refused once its session was started is refused for good: a hold that never arrived,
   followed by the end of its session or by another claim on it, leaves a release nobody can complete.
   */
  lemma {:induction false} RefusedReleaseNeverSucceeds(
      states: seq<System>, labels: seq<Label>, i: nat, j: nat, b: RouteBinding)
    requires IsRun(states, labels) && i <= j < |states| && RefusesForGood(states[i].core, b)
    ensures RefusesForGood(states[j].core, b)
    ensures states[j].core.ReleaseV3First(b).0 == states[j].core
    ensures states[j].core.ReleaseV3First(b).1.Done?
    ensures states[j].core.ReleaseV3First(b).1.reply.error in {Some(StaleGeneration), Some(HoldMismatch)}
  {
    hide AcceptsRelease, Next, Enabled;
    RunInv(states, labels, j);
    if i < j {
      RefusedReleaseNeverSucceeds(states, labels, i, j - 1, b);
      RunInv(states, labels, j - 1);
      assert StepAt(states, labels, j - 1);
      RefusalSurvivesSection(states[j - 1], labels[j - 1], b);
    }
    RefusalChangesNothing(states[j].core, b);
  }

  /** Once its session was started, a release is refused from here on exactly when it is refused now. */
  lemma RefusedForGoodExactlyWhen(states: seq<System>, labels: seq<Label>, i: nat, b: RouteBinding)
    requires IsRun(states, labels) && i < |states| && b.brokerGeneration < states[i].core.nextGeneration
    ensures (forall j | i <= j < |states| :: !AcceptsRelease(states[j].core, b)) <==> !AcceptsRelease(states[i].core, b)
  {
    hide AcceptsRelease, IsRun;
    if !AcceptsRelease(states[i].core, b) {
      forall j | i <= j < |states|
        ensures !AcceptsRelease(states[j].core, b)
      {
        RefusedReleaseNeverSucceeds(states, labels, i, j, b);
      }
    }
  }

  /** Before its session was started nothing is decided: some continuation starts it and accepts the release. */
  lemma {:induction false} UnstartedReleaseMaySucceed(states: seq<System>, labels: seq<Label>, app: ConnectionId, b: RouteBinding)
    returns (more: seq<System>, also: seq<Label>)
    requires IsRun(states, labels) && states[|states| - 1].core.active.None?
    requires b.IsValid() && states[|states| - 1].core.nextGeneration <= b.brokerGeneration
    ensures IsRun(more, also) && states <= more && labels <= also && AcceptsRelease(more[|more| - 1].core, b)
    decreases b.brokerGeneration - states[|states| - 1].core.nextGeneration
  {
    hide IsValidIdentifier;
    var core := states[|states| - 1].core;
    if core.nextGeneration == b.brokerGeneration {
      more, also := Grown(states, labels, StartCall(app, b.sidecarInstanceId, Launched));
    } else {
      more, also := Grown(states, labels, StartCall(app, b.sidecarInstanceId, NoPlan));
      more, also := UnstartedReleaseMaySucceed(more, also, app, b);
    }
  }

  /** The broker holds `b`, or has its release on record. */
  ghost predicate Claims(core: Core, b: RouteBinding) {
    HeldBinding(core) == Some(b) || Recorded(core, b)
  }

  lemma ClaimSurvivesSection(s: System, l: Label, b: RouteBinding)
    requires Inv(s) && Enabled(s, l) && Claims(s.core, b)
    ensures Claims(Next(s, l).core, b) || Superseded(Next(s, l).core, b)
  {
    hide Next, Enabled, RouteBinding.IsValid;
    SectionAdvances(s, l);
  }

  lemma ClaimedIsAccepted(core: Core, b: RouteBinding)
    requires CoreInv(core)
    ensures Claims(core, b) ==> AcceptsRelease(core, b)
    ensures Superseded(core, b) ==> !AcceptsRelease(core, b)
  {
  }

  /** Once a tuple was held or released, its release is refused only after a later session's has replaced it. */
  lemma {:induction false} ClaimedReleaseIsRefusedExactlyWhen(
      states: seq<System>, labels: seq<Label>, i: nat, j: nat, b: RouteBinding)
    requires IsRun(states, labels) && i <= j < |states| && Claims(states[i].core, b)
    ensures Claims(states[j].core, b) || Superseded(states[j].core, b)
    ensures !AcceptsRelease(states[j].core, b) <==> Superseded(states[j].core, b)
  {
    hide Claims, Superseded, AcceptsRelease, Next, Enabled;
    RunInv(states, labels, j);
    if i < j {
      ClaimedReleaseIsRefusedExactlyWhen(states, labels, i, j - 1, b);
      if Superseded(states[j - 1].core, b) {
        SupersededForGood(states, labels, j - 1, j, b);
      } else {
        RunInv(states, labels, j - 1);
        assert StepAt(states, labels, j - 1);
        ClaimSurvivesSection(states[j - 1], labels[j - 1], b);
      }
    }
    ClaimedIsAccepted(states[j].core, b);
  }

  /**
   The only ways for an accepted release to become refused: the session nobody had claimed ends or
   is claimed by another, or the tombstone is replaced by a later one.
   */
  lemma AcceptanceIsLostExactlyWhen(s: System, l: Label, b: RouteBinding)
    requires Inv(s) && Enabled(s, l) && AcceptsRelease(s.core, b)
    ensures var after := Next(s, l).core;
            !AcceptsRelease(after, b) <==>
              || Superseded(after, b)
              || (&& !Claims(s.core, b)
                  && (after.active.Some? ==> after.active.value.lease.CurrentAuthority() !in
                                               {Unclaimed, Holds(V3(b)), HasReleased(V3(b))}))
  {
    hide Next, Enabled, RouteBinding.IsValid;
    SectionAdvances(s, l);
  }

  // ----- what an idle reply to stop does not say -----

  /** A hold that comes while the child is being reaped keeps the session, and stop answers idle all the same. */
  lemma IdleStopMayLeaveAHold(b: RouteBinding, app: ConnectionId) returns (states: seq<System>, labels: seq<Label>)
    requires b.IsValid() && b.brokerGeneration == 1
    ensures IsRun(states, labels) && |labels| == 5 && |states| == 6 && labels[4].ReapSucceeded?
    ensures labels[1] == StopFirstSection(labels[4].reap.reference, app) && labels[4].reap.call == StopCall
    ensures states[5].core.Serves(labels[4].reap.reference) && HeldBinding(states[5].core) == Some(b)
  {
    hide IsRun;
    var reference := TunnelReference(BROKER_PROTOCOL_VERSION, 1, b.sidecarInstanceId);
    var reap := Reap(0, StopCall, reference);
    states, labels := FreshRun();
    states, labels := Grown(states, labels, StartCall(app, b.sidecarInstanceId, Launched));
    states, labels := Grown(states, labels, StopFirstSection(reference, app));
    states, labels := Grown(states, labels, HoldV3Call(b));
    states, labels := Grown(states, labels, ChildDies);
    states, labels := Grown(states, labels, ReapSucceeded(reap));
  }

  lemma FreshRun() returns (states: seq<System>, labels: seq<Label>)
    ensures IsRun(states, labels) && states == [INITIAL_SYSTEM] && labels == []
  {
    states, labels := [INITIAL_SYSTEM], [];
  }

  lemma Grown(states: seq<System>, labels: seq<Label>, l: Label) returns (more: seq<System>, also: seq<Label>)
    requires IsRun(states, labels) && Enabled(states[|states| - 1], l)
    ensures IsRun(more, also) && more == states + [Next(states[|states| - 1], l)] && also == labels + [l]
  {
    ExtendedIsRun(states, labels, l);
    more, also := states + [Next(states[|states| - 1], l)], labels + [l];
  }
}
