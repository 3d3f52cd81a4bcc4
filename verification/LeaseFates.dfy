/**
 What can become of a lease that its process cannot finish: runs that lead there through the
 helper's own steps, how long it lasts, and which leases are safe from it.
 */
module LeaseFates {
  import opened Wrappers
  import opened RouteBindings
  import opened RouteJournal
  import opened SessionLease
  import opened Interlock
  import opened InterlockRuns
  import opened HelperOutcomes
  import Broker
  import BrokerRuns

  // ----- a release that the broker refuses for good -----

  /** No answer that grants the release of `b` is there or can still come. */
  ghost predicate NoGrant(w: World, b: RouteBinding) {
    && w.know.releasedAck != Some(b)
    && (forall q | q in w.replies && q.kind == ReleaseRequest && q.binding == b :: w.replies[q].error.Some?)
    && (forall id | id in w.reaping :: w.reaping[id].binding != b)
  }

  /** The lease of `b` is on record, the broker refuses its release for good, and no hold of it is asked for any more. */
  ghost predicate IsStranded(w: World, b: RouteBinding) {
    && OnDisk(w, b) && w.disk.journal.state != Released
    && w.journal.Some? && w.journal.value.owner == w.disk.journal.owner
    && BrokerRuns.RefusesForGood(w.broker.core, b)
    && w.know.begun.None? && w.know.refused.None?
    && (w.waiting.Some? ==> w.waiting.value.kind != HoldRequest)
    && NoGrant(w, b)
  }

  lemma StrandedIsClean(w: World, b: RouteBinding)
    requires Inv(w) && IsStranded(w, b)
    ensures HeldTuple(w).None? && w.added == {}
  {
  }

  lemma StrandedMove(w: World, move: Broker.Label, b: RouteBinding)
    requires Broker.Inv(w.broker) && IsStranded(w, b) && Enabled(w, BrokerMoves(move))
    ensures IsStranded(Next(w, BrokerMoves(move)), b)
  {
    hide Broker.Next, Broker.Enabled, BrokerRuns.RefusesForGood, Journal.IsValid;
    BrokerRuns.RefusalSurvivesSection(w.broker, move, b);
    BrokerLeavesHelper(w, move);
  }

  lemma StrandedDelivery(w: World, q: Request, b: RouteBinding)
    requires Broker.Inv(w.broker) && IsStranded(w, b) && Enabled(w, Deliver(q))
    ensures IsStranded(Next(w, Deliver(q)), b)
  {
    hide Broker.Next, Broker.Inv, BrokerRuns.RefusesForGood, Delivered, NoGrant;
    BrokerRuns.RefusalSurvivesSection(w.broker, BrokerCall(q), b);
    DeliveryLeavesHelper(w, q);
    DeliveryMovesBroker(w, q);
    DeliveryGrantsNothing(w, q, b);
  }

  lemma DeliveryMovesBroker(w: World, q: Request)
    ensures Delivered(w, q).broker == Broker.Next(w.broker, BrokerCall(q))
  {
    hide Broker.Next;
  }

  lemma DeliveryGrantsNothing(w: World, q: Request, b: RouteBinding)
    requires Broker.Inv(w.broker) && BrokerRuns.RefusesForGood(w.broker.core, b) && NoGrant(w, b)
    ensures NoGrant(Delivered(w, q), b)
  {
    hide Broker.Next, BrokerRuns.AcceptsRelease, Broker.Core.ReleaseV3First, Broker.Core.HoldV3, Broker.Core.StatusV3;
    BrokerRuns.RefusalChangesNothing(w.broker.core, b);
  }

  /** Nothing that would take the lease forward or back is allowed in such a state. */
  lemma StrandedBlocks(w: World, l: Label, b: RouteBinding)
    requires Inv(w) && IsStranded(w, b) && Enabled(w, l)
    ensures !l.Unlink? && !l.AddRoute? && l != Send(HoldRequest)
  {
    hide Broker.Inv, Broker.Enabled, Safe, RequestsInv, TransportInv, LeaseInv, Journal.IsValid;
    StrandedIsClean(w, b);
  }

  lemma StrandedReceive(w: World, b: RouteBinding)
    requires IsStranded(w, b) && Enabled(w, Receive)
    ensures IsStranded(Next(w, Receive), b)
  {
    hide Journal.IsValid, BrokerRuns.RefusesForGood;
  }

  /** The helper's other steps, and losses and foreign routes, leave the broker and its answers alone. */
  lemma OtherStepsLeaveAnswers(w: World, l: Label)
    requires Enabled(w, l) && !l.BrokerMoves? && !l.Deliver? && !l.Receive?
    ensures Next(w, l).broker == w.broker && Next(w, l).replies == w.replies && Next(w, l).reaping == w.reaping
    ensures Next(w, l).know.releasedAck == w.know.releasedAck || Next(w, l).know.releasedAck.None?
  {
    hide Enabled, Delivered, BrokerMoved;
    match l {
      case Lose(_) =>
      case ForeignAdd(_) =>
      case ForeignRemove(_) =>
      case Crash =>
      case Send(_) =>
      case GiveUp =>
      case Write(_, _, _) =>
      case Unlink(_, _) =>
      case AddRoute(_, _) =>
      case DeleteRoute(_, _) =>
      case SeeAbsent(_) =>
      case Remember(_, _, _, _) =>
    }
  }

  lemma StrandedOtherStep(w: World, l: Label, b: RouteBinding)
    requires IsStranded(w, b) && Enabled(w, l) && !l.BrokerMoves? && !l.Deliver? && !l.Receive?
    requires !l.Unlink? && !l.AddRoute? && l != Send(HoldRequest)
    ensures IsStranded(Next(w, l), b)
  {
    hide Journal.IsValid, Journal.Names, BrokerRuns.RefusesForGood, NoGrant, Broker.Next, Broker.Enabled;
    OtherStepsLeaveAnswers(w, l);
    GrantStaysAway(w, Next(w, l), b);
  }

  lemma GrantStaysAway(w: World, w': World, b: RouteBinding)
    requires NoGrant(w, b) && w'.replies == w.replies && w'.reaping == w.reaping
    requires w'.know.releasedAck == w.know.releasedAck || w'.know.releasedAck.None?
    ensures NoGrant(w', b)
  {
  }

  lemma StrandedStep(w: World, l: Label, b: RouteBinding)
    requires Inv(w) && IsStranded(w, b) && Enabled(w, l)
    ensures IsStranded(Next(w, l), b)
  {
    hide Next, Enabled, Safe, RequestsInv, TransportInv, KnowledgeInv, WaitingInv, LeaseInv, IsStranded;
    StrandedBlocks(w, l, b);
    if l.BrokerMoves? {
      StrandedMove(w, l.move, b);
    } else if l.Deliver? {
      StrandedDelivery(w, l.request, b);
    } else if l.Receive? {
      StrandedReceive(w, b);
    } else {
      StrandedOtherStep(w, l, b);
    }
  }

  /**
   A stranded lease stays: over every continuation, restarts included, its record is never removed
   nor marked Released, no process is without it, and nothing is held or added meanwhile.
   */
  lemma {:induction false} StrandedForGood(run: Run, i: nat, j: nat, b: RouteBinding)
    requires IsRun(run) && i <= j < |run.states| && IsStranded(run.states[i], b)
    ensures IsStranded(run.states[j], b)
    ensures HeldTuple(run.states[j]).None? && run.states[j].added == {}
    ensures forall k | i <= k < j :: !run.labels[k].Unlink? && !run.labels[k].AddRoute? && run.labels[k] != Send(HoldRequest)
  {
    hide Inv, RecordsInv, IsStranded, Next, Enabled;
    RunInv(run, j);
    if i < j {
      StrandedForGood(run, i, j - 1, b);
      RunInv(run, j - 1);
      assert StepAt(run, j - 1);
      StrandedStep(run.states[j - 1], run.labels[j - 1], b);
      StrandedBlocks(run.states[j - 1], run.labels[j - 1], b);
    }
    StrandedIsClean(run.states[j], b);
  }

  // ----- what a refusal says -----

  ghost predicate SaysRefused(w: World, q: Request) {
    q.kind == ReleaseRequest && q in w.replies && AnswerOf(ReleaseRequest, w.replies[q]) == AnsweredRejected
  }

  lemma RefusalDelivery(w: World, request: Request, q: Request)
    requires Broker.Inv(w.broker) && SaysRefused(Delivered(w, request), q)
    ensures SaysRefused(w, q) || (request == q && !BrokerRuns.AcceptsRelease(w.broker.core, q.binding))
  {
    hide Broker.Next, BrokerRuns.AcceptsRelease, Broker.Core.HoldV3, Broker.Core.StatusV3;
    BrokerRuns.ReleaseAcceptedExactlyWhen(w.broker.core, q.binding);
  }

  lemma RefusalStep(w: World, l: Label, q: Request)
    requires Inv(w) && Enabled(w, l) && SaysRefused(Next(w, l), q)
    ensures SaysRefused(w, q) || (l == Deliver(q) && !BrokerRuns.AcceptsRelease(w.broker.core, q.binding))
  {
    hide Safe, RequestsInv, TransportInv, KnowledgeInv, WaitingInv, LeaseInv, Broker.Next, Delivered, BrokerRuns.AcceptsRelease;
    if l.Deliver? {
      RefusalDelivery(w, l.request, q);
    } else if !l.BrokerMoves? && !l.Receive? {
      OtherStepsLeaveAnswers(w, l);
    }
  }

  lemma {:induction false} RefusalPersists(run: Run, i: nat, j: nat, b: RouteBinding)
    requires IsRun(run) && i <= j < |run.states| && BrokerRuns.RefusesForGood(run.states[i].broker.core, b)
    ensures BrokerRuns.RefusesForGood(run.states[j].broker.core, b)
  {
    hide Enabled, BrokerRuns.RefusesForGood, Broker.Next, Delivered;
    if i < j {
      RefusalPersists(run, i, j - 1, b);
      RunInv(run, j - 1);
      assert StepAt(run, j - 1);
      StepKeepsRefusal(run.states[j - 1], run.labels[j - 1], b);
    }
  }

  lemma StepKeepsRefusal(w: World, l: Label, b: RouteBinding)
    requires Broker.Inv(w.broker) && Enabled(w, l) && BrokerRuns.RefusesForGood(w.broker.core, b)
    ensures BrokerRuns.RefusesForGood(Next(w, l).broker.core, b)
  {
    hide BrokerRuns.RefusesForGood, Broker.Next, Delivered;
    if l.BrokerMoves? {
      BrokerRuns.RefusalSurvivesSection(w.broker, l.move, b);
    } else if l.Deliver? {
      BrokerRuns.RefusalSurvivesSection(w.broker, BrokerCall(l.request), b);
      DeliveryMovesBroker(w, l.request);
    } else if !l.Receive? {
      OtherStepsLeaveAnswers(w, l);
    }
  }

  /**
   A refused release was refused by the broker's exact condition, and unless its session was yet to
   be started then, the lease's release is refused for good.
   */
  lemma {:induction false} RefusedAnswersAreTrue(run: Run, i: nat, q: Request) returns (k: nat)
    requires IsRun(run) && i < |run.states| && SaysRefused(run.states[i], q)
    ensures k < i && run.labels[k] == Deliver(q) && !BrokerRuns.AcceptsRelease(run.states[k].broker.core, q.binding)
    ensures || run.states[k].broker.core.nextGeneration <= q.binding.brokerGeneration
            || BrokerRuns.RefusesForGood(run.states[i].broker.core, q.binding)
  {
    hide Enabled, Next, Inv, SaysRefused, BrokerRuns.AcceptsRelease;
    NothingSaidAtFirst(run, q);
    if !SaysRefused(run.states[i - 1], q) {
      k := i - 1;
      RunInv(run, k);
      assert StepAt(run, k);
      RefusalStep(run.states[k], run.labels[k], q);
    } else {
      k := RefusedAnswersAreTrue(run, i - 1, q);
    }
    if q.binding.brokerGeneration < run.states[k].broker.core.nextGeneration {
      RefusalPersists(run, k, i, q.binding);
    }
  }

  lemma NothingSaidAtFirst(run: Run, q: Request)
    requires IsRun(run)
    ensures !SaysRefused(run.states[0], q)
  {
  }

  // ----- and a lease whose release is never refused -----

  /** No later session has a v3 claim, and no later tombstone has come. */
  ghost predicate NotOvertaken(core: Broker.Core, b: RouteBinding) {
    && (core.active.Some? && b.brokerGeneration < core.active.value.lease.reference.generation ==>
          core.active.value.lease.routeBinding.None? && core.active.value.lease.releasedRouteBinding.None?)
    && !BrokerRuns.Superseded(core, b)
  }

  /** Only the helper's own requests make and release v3 claims. */
  lemma OtherMovesClaimNothing(s: Broker.System, move: Broker.Label)
    requires !move.HoldV3Call? && !move.ReleaseV3FirstSection? && !move.StatusV3Call?
    ensures var after := Broker.Next(s, move).core.active;
            s.core.active.Some? && after.Some? ==>
              && after.value.lease.routeBinding == s.core.active.value.lease.routeBinding
              && after.value.lease.releasedRouteBinding == s.core.active.value.lease.releasedRouteBinding
  {
  }

  lemma MoveOvertakesNothing(s: Broker.System, move: Broker.Label, b: RouteBinding)
    requires Broker.Inv(s) && Broker.Enabled(s, move) && NotOvertaken(s.core, b)
    requires !move.HoldV3Call? && !move.ReleaseV3FirstSection? && !move.StatusV3Call?
    ensures NotOvertaken(Broker.Next(s, move).core, b)
  {
    hide Broker.Next, Broker.Enabled, RouteBinding.IsValid;
    Broker.SectionAdvances(s, move);
    OtherMovesClaimNothing(s, move);
  }

  /** A request for another tuple than the one on disk cannot claim a session started since. */
  lemma DeliveryOvertakesNothing(w: World, q: Request, b: RouteBinding)
    requires Broker.Inv(w.broker) && RequestsInv(w) && q in w.inFlight && OnDisk(w, b) && NotOvertaken(w.broker.core, b)
    ensures NotOvertaken(Broker.Next(w.broker, BrokerCall(q)).core, b)
  {
  }

  lemma StepOvertakesNothing(w: World, l: Label, b: RouteBinding)
    requires Inv(w) && Enabled(w, l) && OnDisk(w, b)
    requires NotOvertaken(w.broker.core, b) && BrokerRuns.Claims(w.broker.core, b)
    ensures NotOvertaken(Next(w, l).broker.core, b) && BrokerRuns.Claims(Next(w, l).broker.core, b)
  {
    hide Broker.Next, Delivered, Safe, RequestsInv, TransportInv, KnowledgeInv, WaitingInv, LeaseInv, Journal.IsValid;
    if l.BrokerMoves? {
      MoveOvertakesNothing(w.broker, l.move, b);
      BrokerRuns.ClaimSurvivesSection(w.broker, l.move, b);
    } else if l.Deliver? {
      DeliveryOvertakesNothing(w, l.request, b);
      DeliveryMovesBroker(w, l.request);
      BrokerRuns.ClaimSurvivesSection(w.broker, BrokerCall(l.request), b);
    } else if !l.Receive? {
      OtherStepsLeaveAnswers(w, l);
    }
  }

  lemma ClaimIsNotOvertaken(core: Broker.Core, b: RouteBinding)
    requires Broker.CoreInv(core) && core.active.Some?
    requires core.active.value.lease.CurrentAuthority() in {Holds(V3(b)), HasReleased(V3(b))}
    ensures NotOvertaken(core, b) && BrokerRuns.Claims(core, b)
  {
  }

  /**
   Once the broker has held the lease or taken its release, it accepts the release at every later
   moment at which the record is still on disk: such a lease is never stranded, whatever is lost,
   whoever ends the session and however many sessions follow.
   */
  lemma {:induction false} ClaimedLeaseStaysReleasable(run: Run, i: nat, j: nat, b: RouteBinding)
    requires IsRun(run) && i <= j < |run.states| && run.states[i].broker.core.active.Some?
    requires run.states[i].broker.core.active.value.lease.CurrentAuthority() in {Holds(V3(b)), HasReleased(V3(b))}
    requires forall k | i <= k <= j :: OnDisk(run.states[k], b)
    ensures BrokerRuns.AcceptsRelease(run.states[j].broker.core, b) && !IsStranded(run.states[j], b)
    ensures NotOvertaken(run.states[j].broker.core, b) && BrokerRuns.Claims(run.states[j].broker.core, b)
  {
    hide Next, Enabled, NotOvertaken, BrokerRuns.Claims, BrokerRuns.AcceptsRelease, Safe, RequestsInv, TransportInv,
      KnowledgeInv, WaitingInv, LeaseInv, NoGrant, OnDisk;
    RunInv(run, j);
    if i < j {
      ClaimedLeaseStaysReleasable(run, i, j - 1, b);
      RunInv(run, j - 1);
      assert StepAt(run, j - 1);
      StepOvertakesNothing(run.states[j - 1], run.labels[j - 1], b);
    } else {
      ClaimIsNotOvertaken(run.states[j].broker.core, b);
    }
    BrokerRuns.ClaimedIsAccepted(run.states[j].broker.core, b);
  }

  // ----- runs that lead there, by the helper's own steps -----

  /** A first start of everything: an empty store and table beside a fresh broker. */
  function Blank(): World {
    World(Absent, None, None, None, {}, false, NOTHING_KNOWN, None, multiset{}, {},
          Broker.INITIAL_SYSTEM, {}, map[], map[], 0)
  }

  lemma BlankRun() returns (run: Run)
    ensures IsRun(run) && Last(run) == Blank()
  {
    run := Run([Blank()], []);
  }

  lemma Step(run: Run, l: Label, w: World) returns (longer: Run)
    requires IsRun(run) && Enabled(Last(run), l) && Next(Last(run), l) == w
    ensures IsRun(longer) && Last(longer) == w
  {
    ExtendedIsRun(run, l);
    longer := Extended(run, l);
  }

  /** The first session of a broker, for the tuples of `b`. */
  function FirstSession(b: RouteBinding, app: ConnectionId): Broker.System {
    Broker.System(
      Broker.Core(2, Some(Broker.Session(NewLease(TunnelReference(BROKER_PROTOCOL_VERSION, 1, b.sidecarInstanceId), app), true)), None),
      {}, 0)
  }

  /** From `w`, a client has registered and its begin has written HoldPending, but the hold request was lost. */
  function LostHold(w: World, owner: LeaseOwner, client: ConnectionId): World {
    var pending := Some(NewJournal(owner));
    w.(disk := Record(pending.value), cached := pending, journal := pending, activeConnection := Some(client),
       registered := {client}, recoveryOnly := true, know := NOTHING_KNOWN, waiting := None, nextRequest := w.nextRequest + 1)
  }

  /** No lease, no client and nothing under way. */
  predicate IsAtRest(w: World) {
    && w.disk == Absent && w.journal.None? && w.activeConnection.None? && w.registered == {} && !w.recoveryOnly
    && w.know == NOTHING_KNOWN && w.waiting.None? && w.inFlight == {}
  }

  lemma BegunRun(before: Run, w: World, owner: LeaseOwner, client: ConnectionId) returns (run: Run)
    requires IsRun(before) && Last(before) == w && IsAtRest(w) && owner.IsValid()
    ensures IsRun(run) && Last(run) ==
              LostHold(w, owner, client).(
                recoveryOnly := false, know := NOTHING_KNOWN.(begun := Some(owner.reference)), nextRequest := w.nextRequest)
  {
    hide IsRun, LeaseOwner.IsValid, Journal.IsValid;
    NewJournalIsValid(owner);
    var pending, now := NewJournal(owner), w.(registered := {client});
    run := Step(before, Remember(None, None, {client}, false), now);
    now := now.(disk := Record(pending), cached := Some(pending));
    run := Step(run, Write(pending, true, true), now);
    now := now.(journal := Some(pending), activeConnection := Some(client), know := NOTHING_KNOWN.(begun := Some(owner.reference)));
    run := Step(run, Remember(Some(pending), Some(client), {client}, false), now);
  }

  lemma LostHoldRun(before: Run, w: World, owner: LeaseOwner, client: ConnectionId) returns (run: Run)
    requires IsRun(before) && Last(before) == w && IsAtRest(w) && owner.IsValid()
    ensures IsRun(run) && Last(run) == LostHold(w, owner, client)
  {
    hide IsRun, LeaseOwner.IsValid, Journal.IsValid;
    NewJournalIsValid(owner);
    run := BegunRun(before, w, owner, client);
    var q, lost := Request(w.nextRequest, HoldRequest, owner.reference), LostHold(w, owner, client);
    var now := lost.(recoveryOnly := false, inFlight := {q}, waiting := Some(q));
    run := Step(run, Send(HoldRequest), now);
    now := now.(inFlight := {});
    run := Step(run, Lose(q), now);
    now := now.(waiting := None);
    run := Step(run, GiveUp, now);
    run := Step(run, Remember(now.journal, Some(client), {client}, true), lost);
  }

  ghost predicate IsFirstOwner(owner: LeaseOwner) {
    owner.IsValid() && owner.reference.brokerGeneration == 1
  }

  function AfterLostHold(owner: LeaseOwner, app: ConnectionId, client: ConnectionId): World {
    LostHold(Blank().(broker := FirstSession(owner.reference, app)), owner, client)
  }

  lemma FirstLostHoldRun(owner: LeaseOwner, app: ConnectionId, client: ConnectionId) returns (run: Run)
    requires IsFirstOwner(owner)
    ensures IsRun(run) && Last(run) == AfterLostHold(owner, app, client)
  {
    hide IsRun, LeaseOwner.IsValid;
    run := BlankRun();
    var w := Blank().(broker := FirstSession(owner.reference, app));
    run := Step(run, BrokerMoves(Broker.StartCall(app, owner.reference.sidecarInstanceId, Broker.Launched)), w);
    run := LostHoldRun(run, w, owner, client);
  }

  /** A lost hold request, followed by a legacy hold, strands the lease while its session lives. */
  lemma ClaimedSessionStrands(owner: LeaseOwner, app: ConnectionId, client: ConnectionId) returns (run: Run)
    requires IsFirstOwner(owner)
    ensures IsRun(run) && IsStranded(Last(run), owner.reference)
    ensures BrokerRuns.Alive(Last(run).broker.core, owner.reference.brokerGeneration) && Last(run).table == multiset{}
  {
    hide IsRun, Journal.IsValid;
    NewJournalIsValid(owner);
    run := FirstLostHoldRun(owner, app, client);
    var b := owner.reference;
    var legacy := LegacyBinding(TunnelReference(BROKER_PROTOCOL_VERSION, 1, b.sidecarInstanceId), b.routeLeaseId);
    var system := FirstSession(b, app);
    system := system.(core := system.core.WithLease(system.core.active.value.lease.(routeLeaseId := Some(b.routeLeaseId))));
    run := Step(run, BrokerMoves(Broker.LegacyHoldCall(legacy)), AfterLostHold(owner, app, client).(broker := system));
  }

  /** A lost hold request, followed by the end of its session, strands the lease. */
  lemma StrandedIsReachable(owner: LeaseOwner, app: ConnectionId, client: ConnectionId) returns (run: Run)
    requires IsFirstOwner(owner)
    ensures IsRun(run) && IsStranded(Last(run), owner.reference)
  {
    hide IsRun, Journal.IsValid;
    NewJournalIsValid(owner);
    run := FirstLostHoldRun(owner, app, client);
    var reference := TunnelReference(BROKER_PROTOCOL_VERSION, 1, owner.reference.sidecarInstanceId);
    var system, reap := FirstSession(owner.reference, app), Broker.Reap(0, Broker.StopCall, reference);
    var w := AfterLostHold(owner, app, client);
    system := system.(reaps := {reap}, nextReap := 1);
    w := w.(broker := system);
    run := Step(run, BrokerMoves(Broker.StopFirstSection(reference, app)), w);
    system := system.(core := system.core.(active := Some(system.core.active.value.(childRunning := false))));
    w := w.(broker := system);
    run := Step(run, BrokerMoves(Broker.ChildDies), w);
    system := Broker.System(Broker.Core(2, None, None), {}, 1);
    w := w.(broker := system);
    run := Step(run, BrokerMoves(Broker.ReapSucceeded(reap)), w);
  }

  /** The client then recovers: RetirementPending is written and the release under way. */
  function AfterReleaseSent(owner: LeaseOwner, app: ConnectionId, client: ConnectionId, retirement: Journal): World {
    var q := Request(1, ReleaseRequest, owner.reference);
    AfterLostHold(owner, app, client).(
      disk := Record(retirement), cached := Some(retirement), journal := Some(retirement),
      inFlight := {q}, nextRequest := 2, waiting := Some(q))
  }

  lemma RetirementRun(owner: LeaseOwner, app: ConnectionId, client: ConnectionId) returns (run: Run, retirement: Journal)
    requires IsFirstOwner(owner)
    ensures retirement.IsValid() && retirement.state == RetirementPending && retirement.owner == owner.Recorded()
    ensures IsRun(run) && Last(run) == AfterReleaseSent(owner, app, client, retirement)
  {
    hide IsRun, Journal.IsValid, LeaseOwner.IsValid;
    NewJournalIsValid(owner);
    var pending, b := NewJournal(owner), owner.reference;
    TransitionedExactlyWhen(pending, RetirementPending, b);
    retirement := pending.Transitioned(RetirementPending, b).value;
    run := FirstLostHoldRun(owner, app, client);
    var w := AfterLostHold(owner, app, client).(disk := Record(retirement), cached := Some(retirement));
    run := Step(run, Write(retirement, true, true), w);
    w := w.(journal := Some(retirement));
    run := Step(run, Remember(Some(retirement), Some(client), {client}, true), w);
    run := Step(run, Send(ReleaseRequest), AfterReleaseSent(owner, app, client, retirement));
  }

  /** The process died between writing Released and removing it, and has started again. */
  function AfterCrash(owner: LeaseOwner, app: ConnectionId, released: Journal): World {
    Blank().(disk := Record(released), cached := Some(released), journal := Some(released),
             broker := FirstReleased(owner, app), nextRequest := 2,
             replies := map[Request(1, ReleaseRequest, owner.reference) := Broker.Reply(Broker.Running, None)])
  }

  lemma ReleasedRun(owner: LeaseOwner, app: ConnectionId, client: ConnectionId) returns (run: Run, released: Journal)
    requires IsFirstOwner(owner)
    ensures IsRun(run) && Last(run) == AfterCrash(owner, app, released)
    ensures released.IsValid() && released.state == Released && released.owner == owner.Recorded()
  {
    hide IsRun, Journal.IsValid, LeaseOwner.IsValid;
    NewJournalIsValid(owner);
    var b, retirement := owner.reference, NewJournal(owner);
    run, retirement := RetirementRun(owner, app, client);
    TransitionedExactlyWhen(retirement, Released, b);
    released := retirement.Transitioned(Released, b).value;
    NamesNothingWhenRetired(retirement);
    var w, q := AfterReleaseSent(owner, app, client, retirement), Request(1, ReleaseRequest, b);
    DeliveredRelease(owner, app, w, q);
    w := w.(inFlight := {}, broker := FirstReleased(owner, app), replies := map[q := Broker.Reply(Broker.Running, None)]);
    run := Step(run, Deliver(q), w);
    w := w.(waiting := None, know := NOTHING_KNOWN.(releasedAck := Some(b)));
    run := Step(run, Receive, w);
    w := w.(disk := Record(released), cached := Some(released));
    run := Step(run, Write(released, true, true), w);
    run := Step(run, Crash, AfterCrash(owner, app, released));
  }

  /** The process started again removes the Released record, and nothing is left of the lease. */
  function AfterRetirement(owner: LeaseOwner, app: ConnectionId): World {
    AfterCrash(owner, app, NewJournal(owner)).(disk := Absent, cached := None, journal := None)
  }

  lemma RetiredRun(owner: LeaseOwner, app: ConnectionId, client: ConnectionId) returns (run: Run)
    requires IsFirstOwner(owner)
    ensures IsRun(run) && Last(run) == AfterRetirement(owner, app)
  {
    hide IsRun, Journal.IsValid, LeaseOwner.IsValid;
    var released;
    run, released := ReleasedRun(owner, app, client);
    var w := AfterCrash(owner, app, released);
    w := w.(activeConnection := Some(RECOVERY_CONNECTION), registered := {RECOVERY_CONNECTION});
    run := Step(run, Remember(Some(released), Some(RECOVERY_CONNECTION), {RECOVERY_CONNECTION}, false), w);
    w := w.(disk := Absent, cached := None);
    run := Step(run, Unlink(true, true), w);
    w := w.(journal := None, activeConnection := None);
    run := Step(run, Remember(None, None, {RECOVERY_CONNECTION}, false), w);
    run := Step(run, Remember(None, None, {}, false), AfterRetirement(owner, app));
  }

  /**
   A session gives its route authority once: the second lease of a session whose first was released
   is stranded when its hold request is lost.
   */
  lemma SecondLeaseStrands(owner: LeaseOwner, second: LeaseOwner, app: ConnectionId, client: ConnectionId) returns (run: Run)
    requires IsFirstOwner(owner) && IsFirstOwner(second) && second.reference != owner.reference
    requires second.reference.sidecarInstanceId == owner.reference.sidecarInstanceId
    ensures IsRun(run) && IsStranded(Last(run), second.reference)
    ensures BrokerRuns.Alive(Last(run).broker.core, second.reference.brokerGeneration) && Last(run).table == multiset{}
  {
    hide IsRun, Journal.IsValid;
    run := RetiredRun(owner, app, client);
    run := LostHoldRun(run, AfterRetirement(owner, app), second, client);
  }

  function FirstReleased(owner: LeaseOwner, app: ConnectionId): Broker.System {
    var system := FirstSession(owner.reference, app);
    system.(core := system.core.WithLease(system.core.active.value.lease.(releasedRouteBinding := Some(owner.reference))))
  }

  lemma NamesNothingWhenRetired(j: Journal)
    requires j.IsValid() && j.state in {RetirementPending, Released}
    ensures j.NamesNothing()
  {
  }

  /** The session that never saw the hold accepts the release. */
  lemma DeliveredRelease(owner: LeaseOwner, app: ConnectionId, w: World, q: Request)
    requires IsFirstOwner(owner) && w.broker == FirstSession(owner.reference, app)
    requires q.kind == ReleaseRequest && q.binding == owner.reference
    ensures Delivered(w, q) == w.(inFlight := w.inFlight - {q}, broker := FirstReleased(owner, app),
                                  replies := w.replies[q := Broker.Reply(Broker.Running, None)])
  {
  }

  /**
   Not every lease can be retired by the process that has it: the retirement at start may unlink
   the Released record by a call that reports failure. Another start clears it.
   */
  lemma StuckIsReachable(owner: LeaseOwner, app: ConnectionId, client: ConnectionId) returns (run: Run)
    requires IsFirstOwner(owner)
    ensures IsRun(run) && IsStuck(Last(run)) && Last(run).journal.value.owner == owner.Recorded()
    ensures Restarted(Last(run)).journal.None? && !Restarted(Last(run)).recoveryOnly
  {
    hide IsRun, Journal.IsValid, LeaseOwner.IsValid;
    var released;
    run, released := ReleasedRun(owner, app, client);
    var w := AfterCrash(owner, app, released);
    w := w.(activeConnection := Some(RECOVERY_CONNECTION), registered := {RECOVERY_CONNECTION});
    run := Step(run, Remember(Some(released), Some(RECOVERY_CONNECTION), {RECOVERY_CONNECTION}, false), w);
    w := w.(disk := Absent);
    run := Step(run, Unlink(true, false), w);
    w := w.(recoveryOnly := true);
    run := Step(run, Remember(Some(released), Some(RECOVERY_CONNECTION), {RECOVERY_CONNECTION}, true), w);
    w := w.(registered := {});
    run := Step(run, Remember(Some(released), Some(RECOVERY_CONNECTION), {}, true), w);
    w := w.(activeConnection := None);
    run := Step(run, Remember(Some(released), None, {}, true), w);
  }

  /**
   A record on disk need not be a lease in memory: the first write of a registered client's begin
   may land and report failure, and the process then has nothing that a client could recover.
   */
  lemma UnclaimedRecordIsReachable(owner: LeaseOwner, client: ConnectionId) returns (run: Run)
    requires owner.IsValid()
    ensures IsRun(run) && Last(run).disk == Record(NewJournal(owner)) && Last(run).journal.None?
    ensures Last(run).registered == {client} && forall o, connectionId :: !Owns(Last(run), o, connectionId)
    ensures Quiet(Last(run)) && Restarted(Last(run)).journal == Some(NewJournal(owner))
  {
    hide IsRun, Journal.IsValid, LeaseOwner.IsValid;
    NewJournalIsValid(owner);
    run := BlankRun();
    var w := Blank().(registered := {client});
    run := Step(run, Remember(None, None, {client}, false), w);
    w := w.(disk := Record(NewJournal(owner)));
    run := Step(run, Write(NewJournal(owner), true, false), w);
  }
}
