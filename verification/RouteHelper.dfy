/**
 The v3 route-helper coordinator. Its fields and methods are those of the source; everything it
 talks to (the durable store, the route table, the broker behind a transport) is the `world`.
 Each interaction is one atomic step of module Interlock, surrounded by any number of steps of
 the environment, and is appended to the ghost `run`. Since `run` stays a run of the interlock,
 every theorem about runs holds at every moment of every method, whatever fails and wherever the
 process dies.
 */
module RouteHelper {
  import opened Wrappers
  import opened RouteBindings
  import opened RouteNetworks
  import opened RouteJournal
  import opened Interlock
  import opened InterlockRuns
  import opened HelperOutcomes

  class RouteHelperV3Coordinator {
    var journal: Option<Journal>
    var activeConnectionId: Option<ConnectionId>
    var registeredConnectionIds: set<ConnectionId>
    var recoveryOnly: bool
    var world: World
    ghost var run: Run
    ghost var mishaps: Mishaps
    // what the broker's answers to this process's requests were
    ghost var answers: seq<Answer>

    /** The recorded run has reached the present state. */
    ghost predicate Synced()
      reads this
    {
      && IsRun(run) && Last(run) == world
      && world.journal == journal && world.activeConnection == activeConnectionId
      && world.registered == registeredConnectionIds && world.recoveryOnly == recoveryOnly
    }

    ghost predicate Valid()
      reads this
    {
      Synced() && Settled(world)
    }

    // ----- starting -----

    /** A process starts over whatever a run has left behind when it was cut off at any moment. */
    constructor (left: World, ghost history: Run, ghost moment: nat)
      requires IsRun(history) && moment < |history.states| && history.states[moment] == left
      ensures Valid() && world == Restarted(left)
      ensures run == Extended(Prefix(history, moment), Crash)
    {
      var w := Restarted(left);
      world := w;
      journal, activeConnectionId, registeredConnectionIds, recoveryOnly :=
        w.journal, w.activeConnection, w.registered, w.recoveryOnly;
      run := Extended(Prefix(history, moment), Crash);
      mishaps := Mishaps(0, 0, 0, 0, 0);
      answers := [];
      new;
      PrefixIsRun(history, moment);
      ExtendedIsRun(Prefix(history, moment), Crash);
      RunInv(run, |run.states| - 1);
    }

    // ----- steps -----

    /** Take a step that does not touch the coordinator's own fields. */
    method Take(l: Label)
      requires Synced() && Enabled(world, l)
      requires !l.Remember? && !l.Crash?
      modifies this`world, this`run
      ensures Synced() && world == Next(old(world), l) && run == Extended(old(run), l)
    {
      ExtendedIsRun(run, l);
      run := Extended(run, l);
      OnlyRememberingChangesFields(world, l);
      world := Next(world, l);
    }

    /** Anything the environment may do meanwhile: broker sections, deliveries, losses, other people's routes. */
    method Interfere()
      requires Synced()
      modifies this`world, this`run, this`mishaps
      ensures Synced() && SameHelper(old(world), world)
      ensures OnlyOutsiders(old(world), world, old(mishaps), mishaps)
    {
      hide IsRun, Next, Enabled, IsClearFor, Conflicts, Extended;
      var steps: nat := *;
      while steps > 0
        invariant Synced() && SameHelper(old(world), world)
        invariant OnlyOutsiders(old(world), world, old(mishaps), mishaps)
      {
        var l: Label := *;
        ghost var w := world;
        if IsEnvironment(l) && Enabled(world, l) {
          EnvironmentLeavesHelper(w, l);
          OutsiderStep(w, l);
          Take(l);
          mishaps := mishaps.(meddling := mishaps.meddling + (if l.ForeignAdd? || l.ForeignRemove? then 1 else 0),
                              overlaps := mishaps.overlaps + (if IntrudesOn(w, l) then 1 else 0));
        }
        steps := steps - 1;
      }
    }

    /** Assign the coordinator's fields, under the lock. */
    method Assign(newJournal: Option<Journal>, newActive: Option<ConnectionId>,
                  newRegistered: set<ConnectionId>, newRecoveryOnly: bool)
      requires Synced() && world.waiting.None? && MayRemember(world, newJournal)
      requires recoveryOnly && !newRecoveryOnly ==> journal.Some? && newJournal.None?
      modifies this`journal, this`activeConnectionId, this`registeredConnectionIds, this`recoveryOnly
      modifies this`world, this`run
      ensures Synced()
      ensures journal == newJournal && activeConnectionId == newActive
      ensures registeredConnectionIds == newRegistered && recoveryOnly == newRecoveryOnly
      ensures world == old(world).(journal := newJournal, activeConnection := newActive, registered := newRegistered,
                                   recoveryOnly := newRecoveryOnly, know := KnownAfter(old(world).know, old(journal), newJournal))
    {
      var l := Remember(newJournal, newActive, newRegistered, newRecoveryOnly);
      ExtendedIsRun(run, l);
      run := Extended(run, l);
      world := Next(world, l);
      journal, activeConnectionId := newJournal, newActive;
      registeredConnectionIds, recoveryOnly := newRegistered, newRecoveryOnly;
    }

    // ----- the durable store -----

    /** The atomic write; a reported failure may still have landed. */
    method Persist(record: Journal) returns (ok: bool)
      requires Synced() && world.waiting.None?
      requires record.IsValid() ==> MayWrite(world, record)
      modifies this`world, this`run, this`mishaps
      ensures Synced() && world.waiting.None? && world.know == old(world.know)
      ensures ok ==> record.IsValid() && world.disk == Record(record) && world.cached == Some(record)
      ensures !ok ==> world.cached == old(world.cached)
      ensures !ok ==> world.disk == old(world.disk) || (world.disk == Record(record) && record.IsValid())
      ensures Stored(old(world), world, old(mishaps), mishaps, ok || !record.IsValid())
    {
      hide IsRun, Journal.IsValid, MayWrite;
      if !record.IsValid() {
        return false;
      }
      Interfere();
      SameHelperMayWrite(old(world), world, record);
      var landed: bool := *;
      ok := *;
      ok := ok && landed;
      Take(Write(record, landed, ok));
      if !ok {
        mishaps := mishaps.(faults := mishaps.faults + 1, storeFaults := mishaps.storeFaults + 1);
      }
    }

    /** The guarded unlink; a reported failure may still have removed the file. */
    method RemoveRecord(reference: RouteBinding) returns (ok: bool)
      requires Synced() && world.waiting.None?
      requires IsRemovable(world, reference) ==> MayUnlink(world)
      modifies this`world, this`run, this`mishaps
      ensures Synced() && world.waiting.None?
      ensures world.know == old(world.know) || world.know == old(world.know).(heldAck := None)
      ensures ok ==> world.disk == Absent && world.cached == None
      ensures !ok ==> world.cached == old(world.cached) && world.disk in {old(world.disk), Absent}
      ensures ok ==>
                && old(world.cached).Some? && old(world.cached).value.owner.reference == reference
                && old(world.disk) == Record(old(world.cached).value)
      ensures !IsRemovable(old(world), reference) ==> !ok && run == old(run) && world == old(world)
      ensures Stored(old(world), world, old(mishaps), mishaps, ok || !IsRemovable(old(world), reference))
    {
      hide IsRun;
      if world.cached.None? || world.cached.value.owner.reference != reference {
        return false;
      }
      if world.disk != Record(world.cached.value) {
        return false;
      }
      Interfere();
      var gone: bool := *;
      ok := *;
      ok := ok && gone;
      Take(Unlink(gone, ok));
      if !ok {
        mishaps := mishaps.(faults := mishaps.faults + 1, storeFaults := mishaps.storeFaults + 1);
      }
    }

    // ----- the route table -----

    /** One truthful look at the table, or none. */
    method InspectAll(cidrs: seq<RouteNetwork>, interfaceName: string, trusted: seq<string>)
      returns (inspections: Option<seq<RouteInspection>>)
      requires Synced()
      modifies this`world, this`run, this`mishaps
      ensures Synced() && SameHelper(old(world), world)
      ensures inspections.Some? ==>
                && |inspections.value| == |cidrs|
                && forall i | 0 <= i < |cidrs| ::
                     inspections.value[i] == Inspect(world.table, cidrs[i], interfaceName, trusted)
      ensures Calm(old(world), world, old(mishaps), mishaps, inspections.Some?)
    {
      hide IsRun;
      Interfere();
      var fails: bool := *;
      if fails {
        mishaps := mishaps.(faults := mishaps.faults + 1);
        return None;
      }
      var table := world.table;
      return Some(seq(|cidrs|, i requires 0 <= i < |cidrs| => Inspect(table, cidrs[i], interfaceName, trusted)));
    }

    /** Look at one CIDR of the current lease; not finding its route is worth remembering. */
    method InspectOwn(cidr: RouteNetwork) returns (inspection: Option<RouteInspection>)
      requires Synced() && journal.Some? && cidr.prefix > 0
      modifies this`world, this`run, this`mishaps
      ensures Synced()
      ensures SameHelper(old(world).(know := world.know), world)
      ensures world.know == old(world.know).(absent := world.know.absent)
      ensures old(world.know.absent) <= world.know.absent
      ensures inspection.Some? ==> inspection.value == InspectionFor(world.table, journal.value.owner, cidr)
      ensures inspection.Some? && !inspection.value.ownedExact ==> cidr in world.know.absent
      ensures Calm(old(world), world, old(mishaps), mishaps, inspection.Some?)
    {
      hide IsRun;
      var owner := journal.value.owner;
      var all := InspectAll([cidr], owner.interfaceName, owner.activeMihomoTunInterfaces);
      if all.None? {
        return None;
      }
      if !all.value[0].ownedExact {
        NotOwnedMeansAbsent(world.table, owner, cidr);
        Take(SeeAbsent(cidr));
      }
      return Some(all.value[0]);
    }

    method AddRoute(cidr: RouteNetwork) returns (ok: bool)
      requires Synced() && world.waiting.None? && MayAdd(world, cidr)
      modifies this`world, this`run, this`mishaps
      ensures Synced()
      ensures SameHelper(old(world).(know := world.know), world)
      ensures world.know == old(world.know).(absent := world.know.absent)
      ensures old(world.know.absent) - {cidr} <= world.know.absent
      ensures ok ==> Added(old(world), world, old(mishaps), mishaps, journal.value.owner, cidr)
      ensures Counted(old(mishaps), mishaps, ok)
    {
      hide IsRun, Journal.IsValid;
      Interfere();
      var took: bool := *;
      ok := *;
      ok := ok && took;
      ghost var table, owner := world.table, journal.value.owner;
      OwnRouteStays(owner, cidr);
      Take(Label.AddRoute(cidr, took));
      if owner.Route(cidr) !in table && AreDisjoint(owner.privateCidrs) && cidr in owner.privateCidrs {
        AddingKeepsClear(table, owner, cidr);
      }
      if !ok {
        mishaps := mishaps.(faults := mishaps.faults + 1);
      }
    }

    method DeleteRoute(cidr: RouteNetwork) returns (ok: bool)
      requires Synced() && world.waiting.None? && Marked(world, cidr)
      modifies this`world, this`run, this`mishaps
      ensures Synced() && SameHelper(old(world), world)
      ensures ok ==> Deleted(old(world), world, old(mishaps), mishaps, journal.value.owner, cidr)
      ensures Counted(old(mishaps), mishaps, ok)
    {
      hide IsRun, Journal.IsValid, Deleted, KeepsClear, Conflicts;
      Interfere();
      var took: bool := *;
      ok := *;
      ok := ok && took;
      ghost var w := world;
      Take(Label.DeleteRoute(cidr, took));
      if ok {
        DeletedBesideOutsiders(old(world), w, world, old(mishaps), mishaps, cidr);
      }
      if !ok {
        mishaps := mishaps.(faults := mishaps.faults + 1);
      }
    }

    // ----- the broker -----

    method Ask(kind: RequestKind) returns (answer: Answer)
      requires Synced() && world.waiting.None? && journal.Some? && MaySend(world, kind, journal.value)
      modifies this`world, this`run, this`mishaps, this`answers
      ensures Synced() && world.waiting.None?
      ensures world.disk == old(world.disk) && world.cached == old(world.cached)
      ensures world.know.absent == old(world.know.absent)
      ensures IsAnswer(run, Request(old(world.nextRequest), kind, journal.value.owner.reference), answer)
      ensures kind == StatusRequest ==> world.know == old(world.know)
      ensures kind == HoldRequest && answer == AnsweredHeld ==>
                world.know.heldAck == Some(journal.value.owner.reference)
      ensures kind == HoldRequest && answer == AnsweredRejected ==>
                world.know.refused == Some(journal.value.owner.reference)
      ensures kind == ReleaseRequest && answer == AnsweredReleased ==>
                world.know.releasedAck == Some(journal.value.owner.reference)
      ensures kind == ReleaseRequest ==>
                world.know.releasedAck in {old(world.know.releasedAck), Some(journal.value.owner.reference)}
      ensures kind == HoldRequest ==> answer in {AnsweredHeld, AnsweredRejected, AnsweredAmbiguous}
      ensures kind == ReleaseRequest ==> answer in {AnsweredReleased, AnsweredRejected, AnsweredAmbiguous}
      ensures OnlyOutsiders(old(world), world, old(mishaps),
                            mishaps.(faults := old(mishaps.faults), refusals := old(mishaps.refusals)))
      ensures mishaps.faults == old(mishaps.faults) && mishaps.refusals == old(mishaps.refusals) <==>
                answer == (if kind == ReleaseRequest then AnsweredReleased else AnsweredHeld)
      ensures answers == old(answers) + [answer]
      ensures mishaps.faults >= old(mishaps.faults) && mishaps.refusals >= old(mishaps.refusals)
    {
      hide IsRun;
      Take(Send(kind));
      answer := Await(kind);
    }

    /** Wait for the answer, and give up at some point. */
    method Await(kind: RequestKind) returns (answer: Answer)
      requires Synced() && journal.Some? && world.waiting.Some?
      requires world.waiting.value.kind == kind && world.waiting.value.binding == journal.value.owner.reference
      modifies this`world, this`run, this`mishaps, this`answers
      ensures Synced() && world.waiting.None?
      ensures world.disk == old(world.disk) && world.cached == old(world.cached)
      ensures world.know in {old(world.know), Learned(old(world.know), old(world.waiting).value, answer)}
      ensures IsAnswer(run, old(world.waiting).value, answer)
      ensures answer.AnsweredAmbiguous? || world.know == Learned(old(world.know), old(world.waiting).value, answer)
      ensures kind == StatusRequest ==> world.know == old(world.know)
      ensures kind == HoldRequest ==> answer in {AnsweredHeld, AnsweredRejected, AnsweredAmbiguous}
      ensures kind == ReleaseRequest ==> answer in {AnsweredReleased, AnsweredRejected, AnsweredAmbiguous}
      ensures OnlyOutsiders(old(world), world, old(mishaps),
                            mishaps.(faults := old(mishaps.faults), refusals := old(mishaps.refusals)))
      ensures mishaps.faults == old(mishaps.faults) && mishaps.refusals == old(mishaps.refusals) <==>
                answer == (if kind == ReleaseRequest then AnsweredReleased else AnsweredHeld)
      ensures answers == old(answers) + [answer]
      ensures mishaps.faults >= old(mishaps.faults) && mishaps.refusals >= old(mishaps.refusals)
    {
      hide IsRun, KeepsClear, Conflicts, IsAnswer, Extended;
      var q := world.waiting.value;
      Interfere();
      var arrives: bool := *;
      if arrives && q in world.replies {
        answer := AnswerOf(kind, world.replies[q]);
        AnsweredBy(run, Receive, q, answer);
        Take(Receive);
        if answer != (if kind == ReleaseRequest then AnsweredReleased else AnsweredHeld) {
          mishaps := mishaps.(refusals := mishaps.refusals + 1);
        }
      } else {
        AnsweredBy(run, GiveUp, q, AnsweredAmbiguous);
        Take(GiveUp);
        mishaps := mishaps.(faults := mishaps.faults + 1);
        answer := AnsweredAmbiguous;
      }
      answers := answers + [answer];
    }

    // ----- retiring a lease -----

    /** Enter recovery-only with `m` as the lease in memory. */
    method Fail(m: Journal, error: ErrorCode) returns (reply: HelperReply)
      requires Synced() && world.waiting.None? && journal.Some? && journal.value.owner == m.owner
      modifies this`journal, this`recoveryOnly, this`activeConnectionId, this`registeredConnectionIds
      modifies this`world, this`run
      ensures Synced() && world == old(world).(journal := Some(m), recoveryOnly := true)
      ensures journal == Some(m) && recoveryOnly
      ensures activeConnectionId == old(activeConnectionId) && registeredConnectionIds == old(registeredConnectionIds)
      ensures reply == ReplyFor(m, Some(error))
    {
      hide IsRun;
      Assign(Some(m), activeConnectionId, registeredConnectionIds, true);
      reply := ReplyFor(m, Some(error));
    }

    /** Write the next record of the lease and remember it, whether or not the write is known to have landed. */
    method Advance(next: Journal, error: ErrorCode) returns (failed: Option<HelperReply>)
      requires Synced() && world.waiting.None? && journal.Some? && next.IsValid() && MayWrite(world, next)
      modifies this`journal, this`recoveryOnly, this`activeConnectionId, this`registeredConnectionIds
      modifies this`world, this`run, this`mishaps
      ensures Synced() && world.waiting.None? && journal == Some(next)
      ensures SameOffice(old(world), world) && world.know == old(world.know)
      ensures failed.None? ==> world.disk == Record(next) && world.cached == Some(next) && recoveryOnly == old(recoveryOnly)
      ensures failed.Some? ==> failed == Some(ReplyFor(next, Some(error))) && recoveryOnly
      ensures failed.Some? ==> world.cached == old(world.cached) && world.disk in {old(world.disk), Record(next)}
      ensures Stored(old(world), world, old(mishaps), mishaps, failed.None?)
    {
      hide IsRun;
      var ok := Persist(next);
      if !ok {
        var reply := Fail(next, error);
        return Some(reply);
      }
      Assign(Some(next), activeConnectionId, registeredConnectionIds, recoveryOnly);
      return None;
    }

    /** Delete a marked route and look again. */
    method DeleteAndLook(cidr: RouteNetwork) returns (ok: bool)
      requires Synced() && world.waiting.None? && Marked(world, cidr)
      requires cidr.prefix > 0 && cidr in journal.value.owner.privateCidrs
      modifies this`world, this`run, this`mishaps
      ensures Synced()
      ensures SameHelper(old(world).(know := world.know), world)
      ensures world.know == old(world.know).(absent := world.know.absent)
      ensures old(world.know.absent) <= world.know.absent
      ensures ok ==> cidr in world.know.absent
      ensures Tallied(old(mishaps), mishaps) && mishaps.storeFaults == old(mishaps.storeFaults)
      ensures TableAfter(old(world), world, old(mishaps), mishaps, journal.value.owner, cidr, ok)
    {
      hide IsRun;
      ok := DeleteRoute(cidr);
      if ok {
        var postflight := InspectOwn(cidr);
        ok := postflight.Some? && !postflight.value.ownedExact && !postflight.value.foreignConflict;
        OwnRouteStays(journal.value.owner, cidr);
        ClearInspection(world.table, journal.value.owner, cidr);
        if ok && mishaps.meddling == old(mishaps.meddling) {
          GoneWasClear(old(world.table), journal.value.owner, cidr);
        }
      }
    }

    /** Mark the route on disk, delete it, and look again. */
    method DeleteMarked(mutable: Journal, cidr: RouteNetwork) returns (failed: Option<HelperReply>)
      requires Synced() && world.waiting.None? && journal == Some(mutable)
      requires Consistent(world, mutable) && mutable.state in {Held, Applied} && mutable.Names(cidr)
      requires mutable.pendingCidr in {None, Some(cidr)} || mutable.pendingCidr.value in mutable.appliedCidrs
      modifies this`journal, this`recoveryOnly, this`activeConnectionId, this`registeredConnectionIds
      modifies this`world, this`run, this`mishaps
      ensures Synced() && world.waiting.None?
      ensures journal == Some(mutable.(pendingCidr := Some(cidr))) && Consistent(world, journal.value)
      ensures SameOffice(old(world), world)
      ensures failed.None? ==> recoveryOnly == old(recoveryOnly) && cidr in world.know.absent
      ensures failed.None? ==> mishaps.storeFaults == old(mishaps.storeFaults)
      ensures failed.Some? ==> recoveryOnly && ReportsRollback(failed.value, journal.value, old(mishaps), mishaps)
      ensures Tallied(old(mishaps), mishaps)
      ensures TableAfter(old(world), world, old(mishaps), mishaps, mutable.owner, cidr, failed.None?)
    {
      hide IsRun, TableAfter;
      var marked := mutable.(pendingCidr := Some(cidr));
      MarkedIsValid(mutable, cidr);
      failed := Advance(marked, JournalWriteFailed);
      if failed.Some? {
        NothingDeleted(old(world), world, old(mishaps), mishaps, mutable.owner, cidr);
      } else {
        ghost var w, m := world, mishaps;
        var ok := DeleteAndLook(cidr);
        ghost var deleted := world;
        if !ok {
          var reply := Fail(marked, RollbackFailed);
          failed := Some(reply);
        }
        MarkedAndDeleted(old(world), w, deleted, world, old(mishaps), m, mishaps, cidr, ok);
      }
    }

    /** Make sure that the route of a named CIDR is gone. */
    method EnsureAbsent(mutable: Journal, cidr: RouteNetwork) returns (failed: Option<HelperReply>)
      requires Synced() && world.waiting.None? && journal == Some(mutable)
      requires Consistent(world, mutable) && mutable.state in {Held, Applied} && mutable.Names(cidr)
      requires mutable.pendingCidr in {None, Some(cidr)} || mutable.pendingCidr.value in mutable.appliedCidrs
      modifies this`journal, this`recoveryOnly, this`activeConnectionId, this`registeredConnectionIds
      modifies this`world, this`run, this`mishaps
      ensures Synced() && world.waiting.None?
      ensures journal in {Some(mutable), Some(mutable.(pendingCidr := Some(cidr)))} && Consistent(world, journal.value)
      ensures SameOffice(old(world), world)
      ensures failed.None? ==> recoveryOnly == old(recoveryOnly) && cidr in world.know.absent
      ensures failed.None? ==> mishaps.storeFaults == old(mishaps.storeFaults)
      ensures failed.Some? ==> recoveryOnly && ReportsRollback(failed.value, journal.value, old(mishaps), mishaps)
      ensures Tallied(old(mishaps), mishaps)
      ensures TableAfter(old(world), world, old(mishaps), mishaps, mutable.owner, cidr, failed.None?)
    {
      hide IsRun, Journal.IsValid;
      NamedIsValid(mutable, cidr);
      var inspection := InspectOwn(cidr);
      ClearInspection(world.table, mutable.owner, cidr);
      if inspection.None? || inspection.value.foreignConflict {
        var reply := Fail(mutable, RollbackFailed);
        return Some(reply);
      }
      if inspection.value.ownedExact {
        failed := DeleteMarked(mutable, cidr);
      } else {
        failed := None;
      }
    }

    /** Drop a CIDR that was seen absent from the record. */
    method ForgetCidr(current: Journal, cidr: RouteNetwork) returns (failed: Option<HelperReply>)
      requires Synced() && world.waiting.None? && journal == Some(current)
      requires Consistent(world, current) && current.state in {Held, Applied} && current.Names(cidr)
      requires current.pendingCidr in {None, Some(cidr)} || current.pendingCidr.value in current.appliedCidrs
      requires cidr in world.know.absent
      modifies this`journal, this`recoveryOnly, this`activeConnectionId, this`registeredConnectionIds
      modifies this`world, this`run, this`mishaps
      ensures Synced() && world.waiting.None?
      ensures journal == Some(Dropped(current, cidr)) && Consistent(world, journal.value)
      ensures SameOffice(old(world), world)
      ensures failed.None? ==> recoveryOnly == old(recoveryOnly)
      ensures failed.None? ==> mishaps.storeFaults == old(mishaps.storeFaults)
      ensures failed.Some? ==> recoveryOnly && ReportsRollback(failed.value, journal.value, old(mishaps), mishaps)
      ensures Stored(old(world), world, old(mishaps), mishaps, failed.None?)
    {
      hide IsRun;
      DroppedIsValid(current, cidr);
      failed := Advance(Dropped(current, cidr), JournalWriteFailed);
    }

    /** One turn of the deletion loop. */
    method RetireCidr(mutable: Journal, cidr: RouteNetwork) returns (failed: Option<HelperReply>)
      requires Synced() && world.waiting.None? && journal == Some(mutable)
      requires Consistent(world, mutable) && mutable.state in {Held, Applied} && mutable.Names(cidr)
      requires mutable.pendingCidr in {None, Some(cidr)} || mutable.pendingCidr.value in mutable.appliedCidrs
      modifies this`journal, this`recoveryOnly, this`activeConnectionId, this`registeredConnectionIds
      modifies this`world, this`run, this`mishaps
      ensures Synced() && world.waiting.None? && journal.Some? && Consistent(world, journal.value)
      ensures SameOffice(old(world), world)
      ensures failed.None? ==> journal == Some(Dropped(mutable, cidr)) && recoveryOnly == old(recoveryOnly)
      ensures journal.value.state == mutable.state
      ensures failed.None? ==> mishaps.storeFaults == old(mishaps.storeFaults)
      ensures failed.Some? ==> recoveryOnly && ReportsRollback(failed.value, journal.value, old(mishaps), mishaps)
      ensures Tallied(old(mishaps), mishaps)
      ensures TableRetired(old(world), world, old(mishaps), mishaps, mutable.owner, [cidr], failed.None?)
    {
      hide IsRun, Journal.IsValid;
      failed := EnsureAbsent(mutable, cidr);
      if failed.None? {
        ghost var w, m := world, mishaps;
        failed := ForgetCidr(journal.value, cidr);
        OneRouteRetired(old(world), w, world, old(mishaps), m, mishaps, mutable.owner, cidr, failed.None?);
      }
    }

    /** The deletion loop: newest route first, and nothing is forgotten that was not seen gone. */
    method RetireRoutes(current: Journal) returns (failed: Option<HelperReply>)
      requires Synced() && world.waiting.None? && journal == Some(current)
      requires Consistent(world, current) && current.state != Released
      modifies this`journal, this`recoveryOnly, this`activeConnectionId, this`registeredConnectionIds
      modifies this`world, this`run, this`mishaps
      ensures Synced() && world.waiting.None? && journal.Some? && Consistent(world, journal.value)
      ensures SameOffice(old(world), world)
      ensures failed.None? ==> journal == Some(current.(pendingCidr := None, appliedCidrs := [])) && recoveryOnly == old(recoveryOnly)
      ensures failed.Some? ==> journal.value.state in {Held, Applied}
      ensures failed.None? ==> mishaps.storeFaults == old(mishaps.storeFaults)
      ensures failed.Some? ==> recoveryOnly && ReportsRollback(failed.value, journal.value, old(mishaps), mishaps)
      ensures Tallied(old(mishaps), mishaps)
      ensures TableRetired(old(world), world, old(mishaps), mishaps, current.owner, OwnedCidrs(current), failed.None?)
    {
      hide IsRun, Consistent, OwnedCidrs, Remaining, TableRetired, Dropped, HasNoDuplicates, AreDisjoint;
      var owned := OwnedCidrs(current);
      NothingRetired(world, mishaps, current);
      var index, mutable := |owned|, current;
      while index > 0
        invariant 0 <= index <= |owned|
        invariant Synced() && world.waiting.None? && journal == Some(mutable) && Consistent(world, mutable)
        invariant SameOffice(old(world), world) && recoveryOnly == old(recoveryOnly)
        invariant IsTrimmed(current, mutable)
        invariant Remaining(current, owned, mutable, index)
        invariant Tallied(old(mishaps), mishaps) && mishaps.storeFaults == old(mishaps.storeFaults)
        invariant TableRetired(old(world), world, old(mishaps), mishaps, current.owner, owned[index..], true)
      {
        var cidr := owned[index - 1];
        RemainingStep(current, mutable, index);
        DroppedIsTrimmed(current, mutable, cidr);
        ghost var w, m := world, mishaps;
        failed := RetireCidr(mutable, cidr);
        AnotherRouteRetired(old(world), w, world, old(mishaps), m, mishaps, current.owner, cidr, owned[index..], failed.None?);
        if failed.Some? {
          StoppedRetiring(old(world), world, old(mishaps), mishaps, current.owner, [cidr] + owned[index..], owned);
          return;
        }
        assert owned[index - 1..] == [cidr] + owned[index..];
        mutable := journal.value;
        index := index - 1;
      }
      NothingRemains(current, mutable);
      assert owned[0..] == owned;
      failed := None;
    }

    /** Forget a lease whose record is gone. */
    method Forget(last: Journal) returns (reply: HelperReply)
      requires Synced() && world.waiting.None? && journal.Some? && world.disk == Absent
      modifies this`journal, this`recoveryOnly, this`activeConnectionId, this`registeredConnectionIds
      modifies this`world, this`run
      ensures Synced() && world.waiting.None? && IsRetired(old(world), world) && Quiet(world)
      ensures world.table == old(world.table)
      ensures reply == ReplyFor(last, None)
    {
      Assign(None, None, registeredConnectionIds, false);
      NoRecordMeansClean(run, |run.states| - 1);
      reply := ReplyFor(last, None);
    }

    /** Record the acknowledged release, remove the record, forget the lease. */
    method RecordRelease(retirement: Journal) returns (reply: HelperReply)
      requires Synced() && world.waiting.None? && journal == Some(retirement) && retirement.state == RetirementPending
      requires Consistent(world, retirement) && world.know.releasedAck == Some(retirement.owner.reference)
      modifies this`journal, this`recoveryOnly, this`activeConnectionId, this`registeredConnectionIds
      modifies this`world, this`run, this`mishaps
      ensures Synced() && world.waiting.None? && Tallied(old(mishaps), mishaps)
      ensures Finished(old(world), world, old(mishaps), mishaps, reply)
      ensures reply.error.Some? ==> journal == Some(retirement) && reply.error == Some(JournalWriteFailed)
    {
      hide IsRun;
      var released := retirement.Transitioned(Released, retirement.owner.reference);
      TransitionedExactlyWhen(retirement, Released, retirement.owner.reference);
      var ok := Persist(released.value);
      if ok {
        ok := RemoveRecord(retirement.owner.reference);
      }
      if ok {
        reply := Forget(released.value);
      } else {
        reply := Fail(retirement, JournalWriteFailed);
      }
    }

    /** Ask for the release of a lease whose routes are gone, and finish. */
    method Release(retirement: Journal) returns (reply: HelperReply)
      requires Synced() && world.waiting.None? && journal == Some(retirement) && retirement.state == RetirementPending
      requires Consistent(world, retirement)
      modifies this`journal, this`recoveryOnly, this`activeConnectionId, this`registeredConnectionIds
      modifies this`world, this`run, this`mishaps, this`answers
      ensures Synced() && world.waiting.None? && Tallied(old(mishaps), mishaps)
      ensures Finished(old(world), world, old(mishaps), mishaps, reply)
    {
      hide IsRun, Journal.IsValid;
      var answer := Ask(ReleaseRequest);
      if answer == AnsweredReleased {
        ghost var w, m := world, mishaps;
        reply := RecordRelease(retirement);
      } else {
        reply := Fail(retirement, ReleaseFailed);
      }
    }

    /** Write RetirementPending unless it is written already, then release. */
    method EnterRetirement(mutable: Journal) returns (reply: HelperReply)
      requires Synced() && world.waiting.None? && journal == Some(mutable) && mutable.state != Released
      requires Consistent(world, mutable) && mutable.NamesNothing()
      modifies this`journal, this`recoveryOnly, this`activeConnectionId, this`registeredConnectionIds
      modifies this`world, this`run, this`mishaps, this`answers
      ensures Synced() && world.waiting.None? && Tallied(old(mishaps), mishaps)
      ensures Finished(old(world), world, old(mishaps), mishaps, reply)
    {
      hide IsRun;
      var retirement := mutable;
      if mutable.state != RetirementPending {
        var transitioned := mutable.Transitioned(RetirementPending, mutable.owner.reference);
        TransitionedExactlyWhen(mutable, RetirementPending, mutable.owner.reference);
        var ok := Persist(transitioned.value);
        if !ok {
          reply := Fail(mutable, JournalWriteFailed);
          return;
        }
        retirement := transitioned.value;
      }
      Assign(Some(retirement), activeConnectionId, registeredConnectionIds, recoveryOnly);
      reply := Release(retirement);
    }

    /** The acknowledged release is on record already: only the record is left to remove. */
    method RemoveReleased(current: Journal) returns (reply: HelperReply)
      requires Synced() && world.waiting.None? && journal == Some(current) && current.state == Released
      requires Consistent(world, current)
      modifies this`journal, this`recoveryOnly, this`activeConnectionId, this`registeredConnectionIds
      modifies this`world, this`run, this`mishaps
      ensures Synced() && world.waiting.None? && Tallied(old(mishaps), mishaps)
      ensures RetirementOutcome(old(world), world, old(mishaps), mishaps, reply)
    {
      hide IsRun;
      OwnedIsNamed(current);
      var ok := RemoveRecord(current.owner.reference);
      if ok {
        reply := Forget(current);
      } else {
        reply := Fail(current, JournalWriteFailed);
      }
    }

    method RetireLocked(reference: RouteBinding, connectionId: ConnectionId) returns (reply: HelperReply)
      requires Synced() && world.waiting.None? && (journal.Some? ==> Consistent(world, journal.value))
      modifies this`journal, this`recoveryOnly, this`activeConnectionId, this`registeredConnectionIds
      modifies this`world, this`run, this`mishaps, this`answers
      ensures Synced() && world.waiting.None? && Tallied(old(mishaps), mishaps)
      ensures AdmitsRetirement(old(world), reference, connectionId) ==>
                RetirementOutcome(old(world), world, old(mishaps), mishaps, reply)
      ensures !AdmitsRetirement(old(world), reference, connectionId) ==>
                && run == old(run) && mishaps == old(mishaps)
                && reply == (if journal.None? then IDLE else OWNERSHIP_FAILURE)
      ensures old(journal).Some? && old(journal).value.state == Released ==> answers == old(answers)
    {
      hide IsRun, Journal.IsValid;
      if journal.None? || activeConnectionId != Some(connectionId) || journal.value.owner.reference != reference {
        return if journal.None? then IDLE else OWNERSHIP_FAILURE;
      }
      var current := journal.value;
      if current.state == Released {
        reply := RemoveReleased(current);
        return;
      }
      var failed := RetireRoutes(current);
      if failed.Some? {
        return failed.value;
      }
      reply := EnterRetirement(journal.value);
    }

    // ----- connections -----

    method Register(connectionId: ConnectionId) returns (admitted: bool)
      requires Valid()
      modifies this`journal, this`recoveryOnly, this`activeConnectionId, this`registeredConnectionIds
      modifies this`world, this`run
      ensures Valid() && journal == old(journal) && activeConnectionId == old(activeConnectionId)
      ensures recoveryOnly == old(recoveryOnly)
      ensures admitted <==> old(registeredConnectionIds) == {}
      ensures registeredConnectionIds == if admitted then {connectionId} else old(registeredConnectionIds)
    {
      hide IsRun, Journal.IsValid;
      admitted := registeredConnectionIds == {};
      if admitted {
        Assign(journal, activeConnectionId, {connectionId}, recoveryOnly);
      }
    }

    method Discover(connectionId: ConnectionId) returns (reply: HelperReply)
      requires Valid()
      ensures reply == IDLE <==> connectionId in registeredConnectionIds && !recoveryOnly && journal.None?
      ensures FailsClosed(reply, RecoveryRequired) <==> connectionId in registeredConnectionIds && !recoveryOnly && journal.Some?
      ensures reply == OWNERSHIP_FAILURE <==> connectionId !in registeredConnectionIds
      ensures reply == RECOVERY_ONLY <==> connectionId in registeredConnectionIds && recoveryOnly
    {
      if connectionId !in registeredConnectionIds {
        return OWNERSHIP_FAILURE;
      }
      if recoveryOnly {
        return RECOVERY_ONLY;
      }
      if journal.Some? || activeConnectionId.Some? {
        return HelperReply(FailedClosed, Some(RecoveryRequired), None, 0);
      }
      return IDLE;
    }

    method Invalidate(connectionId: ConnectionId) returns (reply: HelperReply)
      requires Valid()
      modifies this`journal, this`recoveryOnly, this`activeConnectionId, this`registeredConnectionIds
      modifies this`world, this`run, this`mishaps, this`answers
      ensures Valid() && registeredConnectionIds == old(registeredConnectionIds) - {connectionId}
      ensures connectionId in old(registeredConnectionIds) && old(journal).Some? && old(activeConnectionId) == Some(connectionId) ==>
                RetirementOutcome(old(world).(registered := registeredConnectionIds), world, old(mishaps), mishaps, reply)
      ensures !(connectionId in old(registeredConnectionIds) && old(journal).Some? && old(activeConnectionId) == Some(connectionId)) ==>
                && world == old(world).(registered := registeredConnectionIds, know := world.know) && mishaps == old(mishaps)
                && reply == (if connectionId in old(registeredConnectionIds) then IDLE else OWNERSHIP_FAILURE)
    {
      hide IsRun, Journal.IsValid;
      if connectionId !in registeredConnectionIds {
        return OWNERSHIP_FAILURE;
      }
      Assign(journal, activeConnectionId, registeredConnectionIds - {connectionId}, recoveryOnly);
      if journal.None? || activeConnectionId != Some(connectionId) {
        return IDLE;
      }
      reply := RetireLocked(journal.value.owner.reference, connectionId);
    }

    // ----- retiring calls -----

    method Rollback(reference: RouteBinding, connectionId: ConnectionId) returns (reply: HelperReply)
      requires Valid()
      modifies this`journal, this`recoveryOnly, this`activeConnectionId, this`registeredConnectionIds
      modifies this`world, this`run, this`mishaps, this`answers
      ensures Valid() && Tallied(old(mishaps), mishaps)
      ensures AdmitsRetirement(old(world), reference, connectionId) ==>
                RetirementOutcome(old(world), world, old(mishaps), mishaps, reply)
      ensures !AdmitsRetirement(old(world), reference, connectionId) ==>
                && run == old(run) && mishaps == old(mishaps)
                && reply == (if journal.None? then IDLE else OWNERSHIP_FAILURE)
    {
      hide IsRun, Journal.IsValid;
      reply := RetireLocked(reference, connectionId);
    }

    /**
     Whatever happened before, the one registered client that presents the exact owner of the
     lease in memory is admitted, also when the lease belonged to a connection that is gone.
     */
    method Recover(owner: LeaseOwner, connectionId: ConnectionId) returns (reply: HelperReply)
      requires Valid()
      modifies this`journal, this`recoveryOnly, this`activeConnectionId, this`registeredConnectionIds
      modifies this`world, this`run, this`mishaps, this`answers
      ensures Valid() && Tallied(old(mishaps), mishaps)
      ensures Owns(old(world), owner, connectionId) ==>
                RetirementOutcome(old(world).(activeConnection := Some(connectionId)), world, old(mishaps), mishaps, reply)
      ensures !Owns(old(world), owner, connectionId) ==>
                run == old(run) && mishaps == old(mishaps) && reply == OWNERSHIP_FAILURE
    {
      hide IsRun, Journal.IsValid;
      if connectionId !in registeredConnectionIds || journal.None? || journal.value.owner != owner.Recorded()
         || journal.value.owner.reference != owner.reference {
        return OWNERSHIP_FAILURE;
      }
      if activeConnectionId != Some(connectionId) {
        if !recoveryOnly && activeConnectionId.Some? {
          return OWNERSHIP_FAILURE;
        }
        Assign(journal, Some(connectionId), registeredConnectionIds, recoveryOnly);
      }
      reply := RetireLocked(owner.reference, connectionId);
    }

    /** The retirement that a starting process attempts before it listens. */
    method ReconcileStartup() returns (reply: HelperReply)
      requires Valid() && registeredConnectionIds == {} && activeConnectionId.None?
      modifies this`journal, this`recoveryOnly, this`activeConnectionId, this`registeredConnectionIds
      modifies this`world, this`run, this`mishaps, this`answers
      ensures Valid() && Tallied(old(mishaps), mishaps)
      ensures registeredConnectionIds == {} && activeConnectionId.None?
      ensures old(journal).None? ==> run == old(run) && reply == (if recoveryOnly then RECOVERY_ONLY else IDLE)
      ensures old(journal).Some? ==>
                RetirementOutcome(old(world), world, old(mishaps), mishaps, reply)
    {
      hide IsRun, Journal.IsValid;
      if journal.None? {
        return if recoveryOnly then RECOVERY_ONLY else IDLE;
      }
      Assign(journal, Some(RECOVERY_CONNECTION), registeredConnectionIds + {RECOVERY_CONNECTION}, recoveryOnly);
      reply := RetireLocked(journal.value.owner.reference, RECOVERY_CONNECTION);
      Assign(journal, activeConnectionId, registeredConnectionIds - {RECOVERY_CONNECTION}, recoveryOnly);
      if reply.state != JournalReply(Released) || reply.error.Some? {
        Assign(journal, None, registeredConnectionIds, true);
      }
    }

    method HeartbeatWatchdogTick(deadlinePassed: bool) returns (reply: Option<HelperReply>)
      requires Valid()
      modifies this`journal, this`recoveryOnly, this`activeConnectionId, this`registeredConnectionIds
      modifies this`world, this`run, this`mishaps, this`answers
      ensures Valid() && Tallied(old(mishaps), mishaps)
      ensures reply.None? ==> run == old(run)
      ensures reply.Some? <==>
                deadlinePassed && old(activeConnectionId).Some? && old(journal).Some?
                && old(journal).value.state in {HoldPending, Held, Applied}
      ensures reply.Some? ==> RetirementOutcome(old(world), world, old(mishaps), mishaps, reply.value)
    {
      hide IsRun, Journal.IsValid;
      if journal.None? || journal.value.state in {RetirementPending, Released} || activeConnectionId.None? || !deadlinePassed {
        return None;
      }
      var result := RetireLocked(journal.value.owner.reference, activeConnectionId.value);
      if result.state != JournalReply(Released) || result.error.Some? {
        Assign(journal, activeConnectionId, registeredConnectionIds, true);
      }
      return Some(result);
    }

    // ----- taking a lease -----

    /** The hold is acknowledged: record it. */
    method RecordHold(pending: Journal) returns (reply: HelperReply)
      requires Synced() && world.waiting.None? && journal == Some(pending) && world.disk == Record(pending)
      requires pending.IsValid() && pending.state == HoldPending && !recoveryOnly
      modifies this`journal, this`recoveryOnly, this`activeConnectionId, this`registeredConnectionIds
      modifies this`world, this`run, this`mishaps
      ensures Synced() && world.waiting.None? && SameOffice(old(world), world)
      ensures Consistent(world, journal.value) && Describes(reply, journal.value, reply.error)
      ensures reply.error.None? ==>
                !recoveryOnly && journal.value.state == Held && journal.value.NamesNothing() && IsOnRecord(world)
      ensures reply.error.Some? ==> reply.error == Some(JournalWriteFailed) && recoveryOnly && journal == Some(pending)
      ensures Stored(old(world), world, old(mishaps), mishaps, reply.error.None?)
    {
      hide IsRun;
      var held := pending.Transitioned(Held, pending.owner.reference);
      TransitionedExactlyWhen(pending, Held, pending.owner.reference);
      var ok := Persist(held.value);
      if !ok {
        reply := Fail(pending, JournalWriteFailed);
      } else {
        Assign(held, activeConnectionId, registeredConnectionIds, recoveryOnly);
        reply := ReplyFor(held.value, None);
      }
    }

    /** The hold is refused for good: take the record back. */
    method WithdrawHold(pending: Journal) returns (reply: HelperReply)
      requires Synced() && world.waiting.None? && journal == Some(pending) && world.disk == Record(pending)
      requires world.cached == Some(pending) && !recoveryOnly
      requires pending.IsValid() && pending.state == HoldPending && world.know.refused == Some(pending.owner.reference)
      modifies this`journal, this`recoveryOnly, this`activeConnectionId, this`registeredConnectionIds
      modifies this`world, this`run, this`mishaps
      ensures Synced() && world.waiting.None? && registeredConnectionIds == old(registeredConnectionIds)
      ensures journal.None? <==> mishaps.storeFaults == old(mishaps.storeFaults)
      ensures if journal.None? then FailsClosed(reply, BrokerProtocolFailure) else Describes(reply, pending, Some(JournalWriteFailed))
      ensures mishaps.refusals == old(mishaps.refusals) && Tallied(old(mishaps), mishaps)
      ensures journal.None? ==> activeConnectionId.None? && world.disk == Absent && !recoveryOnly
      ensures journal.Some? ==>
                journal == Some(pending) && recoveryOnly && Consistent(world, pending) && activeConnectionId == old(activeConnectionId)
      ensures mishaps.meddling == old(mishaps.meddling) ==> world.table == old(world.table)
    {
      hide IsRun;
      var ok := RemoveRecord(pending.owner.reference);
      if !ok {
        reply := Fail(pending, JournalWriteFailed);
      } else {
        Assign(None, None, registeredConnectionIds, false);
        reply := HelperReply(FailedClosed, Some(BrokerProtocolFailure), None, 0);
      }
    }

    /** With the HoldPending record on disk and in memory, ask the broker. */
    method RequestHold(pending: Journal) returns (reply: HelperReply)
      requires Synced() && world.waiting.None? && journal == Some(pending) && world.disk == Record(pending)
      requires world.cached == Some(pending) && !recoveryOnly && activeConnectionId.Some?
      requires pending.IsValid() && pending.state == HoldPending && world.know.begun == Some(pending.owner.reference)
      modifies this`journal, this`recoveryOnly, this`activeConnectionId, this`registeredConnectionIds
      modifies this`world, this`run, this`mishaps, this`answers
      ensures Synced() && Tallied(old(mishaps), mishaps)
      ensures registeredConnectionIds == old(registeredConnectionIds)
      ensures |answers| == |old(answers)| + 1 && old(answers) <= answers
      ensures Begun(world, pending.owner, old(activeConnectionId).value, reply,
                    answers[|old(answers)|], mishaps.storeFaults == old(mishaps.storeFaults))
      ensures Undisturbed(old(mishaps), mishaps) ==> reply.error.None?
      ensures mishaps.meddling == old(mishaps.meddling) ==> world.table == old(world.table)
    {
      hide IsRun, Journal.IsValid;
      var answer := Ask(HoldRequest);
      if answer == AnsweredHeld {
        reply := RecordHold(pending);
      } else if answer == AnsweredRejected {
        reply := WithdrawHold(pending);
      } else {
        reply := Fail(pending, BrokerProtocolFailure);
      }
    }

    /** With the CIDRs found available, write HoldPending, take up the lease and ask for its hold. */
    method StartLease(owner: LeaseOwner, connectionId: ConnectionId) returns (reply: HelperReply)
      requires Valid() && journal.None? && !recoveryOnly && owner.IsValid() && connectionId in registeredConnectionIds
      modifies this`journal, this`recoveryOnly, this`activeConnectionId, this`registeredConnectionIds
      modifies this`world, this`run, this`mishaps, this`answers
      ensures Valid() && Tallied(old(mishaps), mishaps) && registeredConnectionIds == old(registeredConnectionIds)
      ensures if answers == old(answers)
              then journal.None? && !recoveryOnly && mishaps.storeFaults > old(mishaps.storeFaults) && FailsClosed(reply, JournalWriteFailed)
              else && |answers| == |old(answers)| + 1 && old(answers) <= answers
                   && Begun(world, owner.Recorded(), connectionId, reply,
                            answers[|old(answers)|], mishaps.storeFaults == old(mishaps.storeFaults))
      ensures reply.error != Some(RouteConflict) && (reply.error.None? ==> HeldTuple(world) == Some(owner.reference))
      ensures Undisturbed(old(mishaps), mishaps) ==> reply.error.None?
      ensures mishaps.meddling == old(mishaps.meddling) ==> world.table == old(world.table)
    {
      hide IsRun, Journal.IsValid, LeaseOwner.IsValid;
      var pending := NewJournal(owner);
      NewJournalIsValid(owner);
      var ok := Persist(pending);
      if !ok {
        return HelperReply(FailedClosed, Some(JournalWriteFailed), None, 0);
      }
      Assign(Some(pending), Some(connectionId), registeredConnectionIds, recoveryOnly);
      reply := RequestHold(pending);
      AcknowledgedIsHeld(run);
    }

    method Begin(owner: LeaseOwner, connectionId: ConnectionId) returns (reply: HelperReply)
      requires Valid()
      modifies this`journal, this`recoveryOnly, this`activeConnectionId, this`registeredConnectionIds
      modifies this`world, this`run, this`mishaps, this`answers
      ensures Valid() && Tallied(old(mishaps), mishaps) && registeredConnectionIds == old(registeredConnectionIds)
      ensures !MayBegin(old(world), owner, connectionId) ==> run == old(run) && reply == OWNERSHIP_FAILURE
      ensures MayBegin(old(world), owner, connectionId) ==>
                if answers == old(answers)
                then && journal.None? && !recoveryOnly
                     && FailsClosed(reply, if mishaps.storeFaults > old(mishaps.storeFaults) then JournalWriteFailed else RouteConflict)
                else && |answers| == |old(answers)| + 1 && old(answers) <= answers
                     && Begun(world, owner.Recorded(), connectionId, reply,
                              answers[|old(answers)|], mishaps.storeFaults == old(mishaps.storeFaults))
      ensures reply.error.None? ==> HeldTuple(world) == Some(owner.reference)
      ensures reply.error == Some(RouteConflict) ==> journal.None? && world.disk == old(world.disk)
      ensures MayBegin(old(world), owner, connectionId)
              && mishaps.faults == old(mishaps.faults) && mishaps.meddling == old(mishaps.meddling) ==>
                (reply.error == Some(RouteConflict) <==> !IsAvailable(old(world.table), owner.Recorded()))
      ensures MayBegin(old(world), owner, connectionId) && mishaps == old(mishaps) ==>
                IsAvailable(old(world.table), owner.Recorded()) ==> reply.error.None?
      ensures mishaps.meddling == old(mishaps.meddling) ==> world.table == old(world.table)
      ensures mishaps.meddling == old(mishaps.meddling) && reply.error.None? ==> IsAvailable(world.table, owner.Recorded())
    {
      hide IsRun, Journal.IsValid, LeaseOwner.IsValid;
      if connectionId !in registeredConnectionIds || recoveryOnly || journal.Some? || activeConnectionId.Some? || !owner.IsValid() {
        return OWNERSHIP_FAILURE;
      }
      var inspections := InspectAll(owner.privateCidrs, owner.interfaceName, owner.activeMihomoTunInterfaces);
      if inspections.None? || exists i | 0 <= i < |owner.privateCidrs| :: !inspections.value[i].IsAvailable() {
        return HelperReply(FailedClosed, Some(RouteConflict), None, 0);
      }
      reply := StartLease(owner, connectionId);
    }

    // ----- adding routes -----

    /** Add a marked route and look at it. */
    method AddAndLook(cidr: RouteNetwork) returns (ok: bool)
      requires Synced() && world.waiting.None? && MayAdd(world, cidr)
      requires cidr.prefix > 0 && cidr in journal.value.owner.privateCidrs && AreDisjoint(journal.value.owner.privateCidrs)
      modifies this`world, this`run, this`mishaps
      ensures Synced()
      ensures SameHelper(old(world).(know := world.know), world)
      ensures world.know == old(world.know).(absent := world.know.absent)
      ensures Tallied(old(mishaps), mishaps)
      ensures RoutesAdded(old(world), world, old(mishaps), mishaps, journal.value.owner, [cidr], ok)
    {
      hide IsRun, Journal.IsValid;
      ghost var owner := journal.value.owner;
      ok := AddRoute(cidr);
      if ok {
        var postflight := InspectOwn(cidr);
        ok := postflight.Some? && postflight.value.ownedExact && !postflight.value.foreignConflict;
        ClearInspection(world.table, owner, cidr);
        assert RoutesOf(owner, [cidr]) == multiset{owner.Route(cidr)} + RoutesOf(owner, []);
      }
    }

    /** Mark one route of the lease on disk, add it and look at it. */
    method AddMarked(current: Journal, cidr: RouteNetwork) returns (failed: Option<HelperReply>)
      requires Synced() && world.waiting.None? && IsApplying(world, current) && cidr in current.owner.privateCidrs
      requires journal == Some(current)
      modifies this`journal, this`recoveryOnly, this`activeConnectionId, this`registeredConnectionIds
      modifies this`world, this`run, this`mishaps
      ensures Synced() && world.waiting.None? && SameOffice(old(world), world) && Tallied(old(mishaps), mishaps)
      ensures failed.None? ==> journal == Some(current) && world.disk == Record(current.(pendingCidr := Some(cidr)))
      ensures failed.None? ==> !recoveryOnly
      ensures failed.Some? ==> recoveryOnly && ReportsApply(failed.value, journal.value) && Consistent(world, journal.value)
      ensures RoutesAdded(old(world), world, old(mishaps), mishaps, current.owner, [cidr], failed.None?)
    {
      hide IsRun, JournalOwner.IsValid;
      var marked := current.(pendingCidr := Some(cidr));
      MarkedIsValid(current, cidr);
      NamedIsValid(marked, cidr);
      OwnerIsDisjoint(current);
      var ok := Persist(marked);
      if ok {
        ok := AddAndLook(cidr);
      }
      if !ok {
        var reply := Fail(marked, RouteApplyFailed);
        return Some(reply);
      }
      return None;
    }

    /** One turn of apply's loop. */
    method ApplyCidr(current: Journal, cidr: RouteNetwork) returns (failed: Option<HelperReply>)
      requires Synced() && world.waiting.None? && IsApplying(world, current) && cidr in current.owner.privateCidrs
      requires journal == Some(current) && cidr !in current.appliedCidrs
      requires |current.appliedCidrs| < |current.owner.privateCidrs|
      modifies this`journal, this`recoveryOnly, this`activeConnectionId, this`registeredConnectionIds
      modifies this`world, this`run, this`mishaps
      ensures Synced() && world.waiting.None? && SameOffice(old(world), world) && Tallied(old(mishaps), mishaps)
      ensures failed.None? ==>
                && journal == Some(current.(appliedCidrs := current.appliedCidrs + [cidr]))
                && IsApplying(world, journal.value)
      ensures failed.Some? ==> recoveryOnly && ReportsApply(failed.value, journal.value) && Consistent(world, journal.value)
      ensures RoutesAdded(old(world), world, old(mishaps), mishaps, current.owner, [cidr], failed.None?)
    {
      hide IsRun, JournalOwner.IsValid;
      failed := AddMarked(current, cidr);
      if failed.None? {
        var next := current.(appliedCidrs := current.appliedCidrs + [cidr]);
        AppendedIsValid(current, cidr);
        failed := Advance(next, JournalWriteFailed);
      }
    }

    /** Apply's loop over the lease's CIDRs. */
    method ApplyRoutes(lease: Journal) returns (failed: Option<HelperReply>)
      requires Synced() && world.waiting.None? && journal == Some(lease) && IsApplying(world, lease) && lease.appliedCidrs == []
      modifies this`journal, this`recoveryOnly, this`activeConnectionId, this`registeredConnectionIds
      modifies this`world, this`run, this`mishaps
      ensures Synced() && world.waiting.None? && SameOffice(old(world), world) && Tallied(old(mishaps), mishaps)
      ensures failed.None? ==>
                journal == Some(lease.(appliedCidrs := lease.owner.privateCidrs)) && IsApplying(world, journal.value)
      ensures failed.Some? ==> recoveryOnly && ReportsApply(failed.value, journal.value) && Consistent(world, journal.value)
      ensures LeaseAdded(old(world), world, old(mishaps), mishaps, lease.owner, lease.owner.privateCidrs, failed.None?)
    {
      hide IsRun, Journal.IsValid, LeaseAdded, RoutesAdded, HasNoDuplicates, AreDisjoint;
      ghost var owner := lease.owner;
      OwnerIsDisjoint(lease);
      NoRouteAdded(world, mishaps, owner);
      var current := lease;
      for index := 0 to |lease.owner.privateCidrs|
        invariant Synced() && world.waiting.None? && SameOffice(old(world), world) && Tallied(old(mishaps), mishaps)
        invariant journal == Some(current) && IsApplying(world, current)
        invariant current == lease.(appliedCidrs := owner.privateCidrs[..index])
        invariant LeaseAdded(old(world), world, old(mishaps), mishaps, owner, owner.privateCidrs[..index], true)
      {
        var cidr := lease.owner.privateCidrs[index];
        NextCidr(lease, index);
        if cidr !in current.appliedCidrs {
          ghost var w, m := world, mishaps;
          failed := ApplyCidr(current, cidr);
          AnotherRouteAdded(old(world), w, world, old(mishaps), m, mishaps, owner, index, failed.None?);
          if failed.Some? {
            return;
          }
          current := journal.value;
        }
      }
      assert owner.privateCidrs[..|owner.privateCidrs|] == owner.privateCidrs;
      failed := None;
    }

    method Apply(reference: RouteBinding, connectionId: ConnectionId) returns (reply: HelperReply)
      requires Valid()
      modifies this`journal, this`recoveryOnly, this`activeConnectionId, this`registeredConnectionIds
      modifies this`world, this`run, this`mishaps
      ensures Valid() && Tallied(old(mishaps), mishaps)
      ensures registeredConnectionIds == old(registeredConnectionIds) && activeConnectionId == old(activeConnectionId)
      ensures !MayApply(old(world), reference, connectionId) ==>
                && run == old(run) && mishaps == old(mishaps)
                && reply == (if Leads(old(world), reference, connectionId) then RECOVERY_ONLY else OWNERSHIP_FAILURE)
      ensures MayApply(old(world), reference, connectionId) ==>
                && journal.Some? && journal.value.owner == old(journal).value.owner
                && (reply.error.None? ==>
                      && IsOnRecord(world) && !recoveryOnly && HeldTuple(world) == Some(reference)
                      && journal.value.state == Applied && journal.value.pendingCidr.None?
                      && journal.value.appliedCidrs == journal.value.owner.privateCidrs)
                && (reply.error.Some? ==> recoveryOnly && ReportsApply(reply, journal.value))
                && Describes(reply, journal.value, reply.error)
      ensures MayApply(old(world), reference, connectionId) && old(journal).value.state == Applied ==> run == old(run)
      ensures MayApply(old(world), reference, connectionId) && old(journal).value.state == Held ==>
                LeaseAdded(old(world), world, old(mishaps), mishaps, old(journal).value.owner,
                           old(journal).value.owner.privateCidrs, reply.error.None?)
    {
      hide IsRun, Journal.IsValid;
      if connectionId !in registeredConnectionIds || activeConnectionId != Some(connectionId) || journal.None?
         || journal.value.owner.reference != reference || journal.value.state !in {Held, Applied} {
        return OWNERSHIP_FAILURE;
      }
      if recoveryOnly {
        return RECOVERY_ONLY;
      }
      if journal.value.state == Applied {
        AcknowledgedIsHeld(run);
        return ReplyFor(journal.value, None);
      }
      var failed := ApplyRoutes(journal.value);
      if failed.Some? {
        return failed.value;
      }
      reply := RecordApplied(journal.value);
      AcknowledgedIsHeld(run);
    }

    /** All routes are in: record it. */
    method RecordApplied(current: Journal) returns (reply: HelperReply)
      requires Synced() && world.waiting.None? && journal == Some(current) && IsApplying(world, current)
      modifies this`journal, this`recoveryOnly, this`activeConnectionId, this`registeredConnectionIds
      modifies this`world, this`run, this`mishaps
      ensures Synced() && world.waiting.None? && SameOffice(old(world), world)
      ensures Consistent(world, journal.value) && Describes(reply, journal.value, reply.error)
      ensures reply.error.None? ==>
                && !recoveryOnly && IsOnRecord(world) && journal.value.state == Applied
                && journal.value.pendingCidr.None? && journal.value.appliedCidrs == current.appliedCidrs
      ensures reply.error.Some? ==> recoveryOnly && ReportsApply(reply, journal.value)
      ensures Stored(old(world), world, old(mishaps), mishaps, reply.error.None?)
    {
      hide IsRun;
      var applied := current.Transitioned(Applied, current.owner.reference);
      TransitionedExactlyWhen(current, Applied, current.owner.reference);
      var ok := Persist(applied.value);
      if !ok {
        reply := Fail(current, JournalWriteFailed);
      } else {
        Assign(applied, activeConnectionId, registeredConnectionIds, recoveryOnly);
        reply := ReplyFor(applied.value, None);
      }
    }

    /** A lease taken and applied without a mishap adds its routes, and nothing conflicts with them. */
    method BeginApply(owner: LeaseOwner, connectionId: ConnectionId)
      requires Valid() && MayBegin(world, owner, connectionId) && IsAvailable(world.table, owner.Recorded())
      modifies this`journal, this`recoveryOnly, this`activeConnectionId, this`registeredConnectionIds
      modifies this`world, this`run, this`mishaps, this`answers
      ensures Valid() && Tallied(old(mishaps), mishaps) && registeredConnectionIds == old(registeredConnectionIds)
      ensures mishaps == old(mishaps) ==>
                && AdmitsRetirement(world, owner.reference, connectionId) && journal.value.owner == owner.Recorded()
                && !IsStuck(world) && OwnedCidrs(journal.value) == owner.privateCidrs
                && IsClear(world.table, owner.Recorded(), owner.privateCidrs)
                && world.table == old(world.table) + RoutesOf(owner.Recorded(), owner.privateCidrs)
    {
      hide IsRun, Journal.IsValid, LeaseOwner.IsValid, IsAvailable, IsClearFor, Settled, Consistent, RoutesOf;
      NewJournalIsValid(owner);
      var reply := Begin(owner, connectionId);
      reply := Apply(owner.reference, connectionId);
    }

    /** A lease taken, applied and rolled back without a mishap leaves the route table as it was. */
    method BeginApplyRollback(owner: LeaseOwner, connectionId: ConnectionId)
      requires Valid() && MayBegin(world, owner, connectionId) && IsAvailable(world.table, owner.Recorded())
      modifies this`journal, this`recoveryOnly, this`activeConnectionId, this`registeredConnectionIds
      modifies this`world, this`run, this`mishaps, this`answers
      ensures Valid()
      ensures mishaps == old(mishaps) ==> world.table == old(world.table) && IsRetired(old(world), world) && Quiet(world)
    {
      hide IsRun, Journal.IsValid, LeaseOwner.IsValid, IsAvailable, IsClearFor, Settled, Consistent, RoutesOf, Describes,
        OwnedCidrs, IsStuck, Quiet;
      BeginApply(owner, connectionId);
      var _ := Rollback(owner.reference, connectionId);
    }

    // ----- status -----

    method StatusWithBroker(current: Journal) returns (reply: HelperReply)
      requires Valid() && journal == Some(current) && !recoveryOnly
      modifies this`journal, this`recoveryOnly, this`activeConnectionId, this`registeredConnectionIds
      modifies this`world, this`run, this`mishaps, this`answers
      ensures Valid() && SameOffice(old(world), world) && journal == old(journal) && world.disk == old(world.disk)
      ensures Describes(reply, current, if recoveryOnly then Some(BrokerStatusFailed) else None)
      ensures Polled(old(answers), answers, current.state, recoveryOnly)
      ensures current.state == Released ==> run == old(run)
      ensures mishaps.faults == old(mishaps.faults) && mishaps.refusals == old(mishaps.refusals) ==> !recoveryOnly
      ensures mishaps.meddling == old(mishaps.meddling) ==> world.table == old(world.table)
    {
      hide IsRun, Journal.IsValid;
      if current.state == Released {
        return ReplyFor(current, None);
      }
      var answer := Ask(StatusRequest);
      if answer != AnsweredHeld {
        reply := Fail(current, BrokerStatusFailed);
      } else {
        reply := ReplyFor(current, None);
      }
    }

    method Heartbeat(reference: RouteBinding, connectionId: ConnectionId) returns (reply: HelperReply)
      requires Valid()
      modifies this`journal, this`recoveryOnly, this`activeConnectionId, this`registeredConnectionIds
      modifies this`world, this`run, this`mishaps, this`answers
      ensures Valid() && journal == old(journal) && world.disk == old(world.disk)
      ensures !AdmitsRetirement(old(world), reference, connectionId) || connectionId !in old(registeredConnectionIds) ==>
                run == old(run) && reply == OWNERSHIP_FAILURE
      ensures AdmitsRetirement(old(world), reference, connectionId) && connectionId in old(registeredConnectionIds) ==>
                if old(recoveryOnly) then run == old(run) && reply == RECOVERY_ONLY
                else && Describes(reply, journal.value, if recoveryOnly then Some(BrokerStatusFailed) else None)
                     && Polled(old(answers), answers, journal.value.state, recoveryOnly)
      ensures mishaps.faults == old(mishaps.faults) && mishaps.refusals == old(mishaps.refusals) ==>
                recoveryOnly == old(recoveryOnly)
      ensures mishaps.meddling == old(mishaps.meddling) ==> world.table == old(world.table)
    {
      hide IsRun, Journal.IsValid;
      if connectionId !in registeredConnectionIds || activeConnectionId != Some(connectionId) || journal.None?
         || journal.value.owner.reference != reference {
        return OWNERSHIP_FAILURE;
      }
      if recoveryOnly {
        return RECOVERY_ONLY;
      }
      reply := StatusWithBroker(journal.value);
    }

    method Status(reference: RouteBinding, connectionId: ConnectionId) returns (reply: HelperReply)
      requires Valid()
      modifies this`journal, this`recoveryOnly, this`activeConnectionId, this`registeredConnectionIds
      modifies this`world, this`run, this`mishaps, this`answers
      ensures Valid() && journal == old(journal) && world.disk == old(world.disk)
      ensures var admitted := connectionId in old(registeredConnectionIds) && old(journal).Some?
                              && old(journal).value.owner.reference == reference;
              if !admitted then run == old(run) && reply == OWNERSHIP_FAILURE
              else if old(recoveryOnly) then run == old(run) && reply == RECOVERY_ONLY
              else && Describes(reply, journal.value, if recoveryOnly then Some(BrokerStatusFailed) else None)
                   && Polled(old(answers), answers, journal.value.state, recoveryOnly)
      ensures mishaps.faults == old(mishaps.faults) && mishaps.refusals == old(mishaps.refusals) ==>
                recoveryOnly == old(recoveryOnly)
      ensures mishaps.meddling == old(mishaps.meddling) ==> world.table == old(world.table)
    {
      hide IsRun, Journal.IsValid;
      if connectionId !in registeredConnectionIds || journal.None? || journal.value.owner.reference != reference {
        return OWNERSHIP_FAILURE;
      }
      if recoveryOnly {
        return RECOVERY_ONLY;
      }
      reply := StatusWithBroker(journal.value);
    }
  }
}
