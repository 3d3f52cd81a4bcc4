/** The interlock over whole runs: safety at every moment, and who may ever add a route. */
module InterlockRuns {
  import opened Wrappers
  import opened RouteBindings
  import opened RouteNetworks
  import opened RouteJournal
  import opened Interlock
  import opened InterlockSafety
  import Broker

  datatype Run = Run(states: seq<World>, labels: seq<Label>)

  /** A freshly started helper beside a fresh broker: any table, and any valid record left on disk. */
  ghost predicate IsInitial(w: World) {
    && w.broker == Broker.INITIAL_SYSTEM
    && w.added == {} && w.inFlight == {} && w.reaping == map[] && w.replies == map[]
    && (w.disk.Record? ==> w.disk.journal.IsValid())
    && w == Restarted(w)
  }

  ghost predicate IsRun(run: Run) {
    && |run.states| == |run.labels| + 1
    && IsInitial(run.states[0])
    && forall i | 0 <= i < |run.labels| :: StepAt(run, i)
  }

  ghost predicate StepAt(run: Run, i: nat)
    requires i < |run.labels| < |run.states|
  {
    Enabled(run.states[i], run.labels[i]) && run.states[i + 1] == Next(run.states[i], run.labels[i])
  }

  ghost function Last(run: Run): World
    requires run.states != []
  {
    run.states[|run.states| - 1]
  }

  ghost function Extended(run: Run, l: Label): Run
    requires run.states != [] && Enabled(Last(run), l)
  {
    Run(run.states + [Next(Last(run), l)], run.labels + [l])
  }

  lemma ExtendedIsRun(run: Run, l: Label)
    requires IsRun(run) && Enabled(Last(run), l)
    ensures IsRun(Extended(run, l))
  {
    var longer := Extended(run, l);
    forall i | 0 <= i < |longer.labels|
      ensures StepAt(longer, i)
    {
      if i < |run.labels| {
        assert StepAt(run, i);
      }
    }
  }

  /** The run up to a moment. */
  ghost function Prefix(run: Run, n: nat): Run
    requires n < |run.states| == |run.labels| + 1
  {
    Run(run.states[..n + 1], run.labels[..n])
  }

  /** A run may be cut off after any step; whatever was reached there is a state to crash in. */
  lemma PrefixIsRun(run: Run, n: nat)
    requires IsRun(run) && n < |run.states|
    ensures IsRun(Prefix(run, n)) && Last(Prefix(run, n)) == run.states[n]
  {
    forall i | 0 <= i < n
      ensures StepAt(Prefix(run, n), i)
    {
      assert StepAt(run, i);
    }
  }

  lemma InitialInv(w: World)
    requires IsInitial(w)
    ensures Inv(w) && RecordsInv(w)
  {
    if w.disk.Record? {
      ValidIsTidy(w.disk.journal);
    }
  }

  lemma StepKeepsRecords(w: World, l: Label)
    requires RecordsInv(w) && Enabled(w, l)
    ensures RecordsInv(Next(w, l))
  {
    if IsEnvironment(l) {
      EnvironmentLeavesHelper(w, l);
    }
  }

  lemma {:induction false} RunInv(run: Run, i: nat)
    requires IsRun(run) && i < |run.states|
    ensures Inv(run.states[i]) && RecordsInv(run.states[i])
  {
    if i == 0 {
      InitialInv(run.states[0]);
    } else {
      RunInv(run, i - 1);
      assert StepAt(run, i - 1);
      StepKeepsInv(run.states[i - 1], run.labels[i - 1]);
      StepKeepsRecords(run.states[i - 1], run.labels[i - 1]);
    }
  }

  /**
   At every moment of every run, each route the helper added that is still in the table is named
   by the durable record as applied or pending, and the broker holds exactly that record's tuple.
   */
  lemma EveryRouteIsCovered(run: Run, i: nat, e: RouteEntry)
    requires IsRun(run) && i < |run.states| && e in run.states[i].added
    ensures e in run.states[i].table
    ensures run.states[i].disk.Record?
    ensures run.states[i].disk.journal.Names(e.network) && e == run.states[i].disk.journal.owner.Route(e.network)
    ensures HeldTuple(run.states[i]) == Some(run.states[i].disk.journal.owner.reference)
  {
    RunInv(run, i);
  }

  /** At every moment of every run, a v3 tuple held by the broker has a durable record of that tuple. */
  lemma NoHoldIsOrphaned(run: Run, i: nat)
    requires IsRun(run) && i < |run.states| && HeldTuple(run.states[i]).Some?
    ensures run.states[i].disk.Record?
    ensures HeldTuple(run.states[i]) == Some(run.states[i].disk.journal.owner.reference)
  {
    RunInv(run, i);
  }

  /** Without a record on disk there is no route, no hold, and no request that could bring one. */
  lemma NoRecordMeansClean(run: Run, i: nat)
    requires IsRun(run) && i < |run.states| && !run.states[i].disk.Record?
    ensures Quiet(run.states[i])
  {
    RunInv(run, i);
  }

  // ----- who may add a route -----

  /** This process has begun the lease it works on: it may ask for the hold, awaits it, or has it. */
  ghost predicate OwnLease(w: World) {
    || w.know.begun.Some?
    || (w.waiting.Some? && w.waiting.value.kind == HoldRequest)
    || w.know.heldAck.Some?
  }

  /** From `b` to `j` one process worked on one lease, which it began at `b`. */
  ghost predicate BegunAt(run: Run, b: nat, j: nat)
    requires IsRun(run) && j < |run.states|
  {
    && b < j && run.labels[b].Remember?
    && run.states[b].journal.None? && run.states[j].journal.Some?
    && (forall m | b < m <= j ::
          && run.states[m].journal.Some?
          && run.states[m].journal.value.owner == run.states[j].journal.value.owner)
    && (forall m | b <= m < j :: run.labels[m] != Crash)
  }

  /** A process without a lease knows nothing and waits for nothing. */
  ghost predicate NoLeaseNoClaims(w: World) {
    w.journal.None? ==> w.know == NOTHING_KNOWN && w.waiting.None?
  }

  lemma RunNoLeaseNoClaims(run: Run, i: nat)
    requires IsRun(run) && i < |run.states|
    ensures NoLeaseNoClaims(run.states[i])
  {
    RunInv(run, i);
  }

  lemma OwnLeaseStep(w: World, l: Label)
    requires NoLeaseNoClaims(w) && Enabled(w, l) && OwnLease(Next(w, l))
    ensures l != Crash && Next(w, l).journal.Some?
    ensures w.journal.None? ==> l.Remember?
    ensures w.journal.Some? ==> OwnLease(w) && w.journal.value.owner == Next(w, l).journal.value.owner
  {
    if IsEnvironment(l) {
      EnvironmentLeavesHelper(w, l);
    }
  }

  lemma {:induction false} LeaseWasBegunHere(run: Run, j: nat) returns (b: nat)
    requires IsRun(run) && j < |run.states| && OwnLease(run.states[j])
    ensures BegunAt(run, b, j)
  {
    assert j > 0;
    RunNoLeaseNoClaims(run, j - 1);
    assert StepAt(run, j - 1);
    OwnLeaseStep(run.states[j - 1], run.labels[j - 1]);
    if run.states[j - 1].journal.None? {
      b := j - 1;
    } else {
      b := LeaseWasBegunHere(run, j - 1);
    }
  }

  /** The broker's answer received at step `k` acknowledged the hold of `tuple`. */
  ghost predicate AcknowledgesHold(w: World, l: Label, tuple: RouteBinding) {
    && l == Receive
    && w.waiting.Some? && w.waiting.value in w.replies
    && w.waiting.value.kind == HoldRequest
    && w.waiting.value.binding == tuple
    && AnswerOf(HoldRequest, w.replies[w.waiting.value]) == AnsweredHeld
  }

  lemma AcknowledgementStep(w: World, l: Label, tuple: RouteBinding)
    requires NoLeaseNoClaims(w) && Enabled(w, l)
    requires Next(w, l).know.heldAck == Some(tuple)
    ensures w.journal.Some?
    ensures w.know.heldAck == Some(tuple) || AcknowledgesHold(w, l, tuple)
  {
    if IsEnvironment(l) {
      EnvironmentLeavesHelper(w, l);
    }
  }

  lemma BegunEarlier(run: Run, b: nat, j: nat)
    requires IsRun(run) && j < |run.states| && BegunAt(run, b, j) && b < j - 1
    ensures BegunAt(run, b, j - 1)
  {
    var owner := run.states[j].journal.value.owner;
    assert run.states[j - 1].journal.value.owner == owner;
    forall m | b < m <= j - 1
      ensures run.states[m].journal.Some? && run.states[m].journal.value.owner == owner
    {
    }
  }

  lemma {:induction false} HoldWasAcknowledged(run: Run, b: nat, j: nat, tuple: RouteBinding) returns (k: nat)
    requires IsRun(run) && j < |run.states| && BegunAt(run, b, j)
    requires run.states[j].know.heldAck == Some(tuple)
    ensures b < k < j && AcknowledgesHold(run.states[k], run.labels[k], tuple)
  {
    RunNoLeaseNoClaims(run, j - 1);
    assert StepAt(run, j - 1);
    AcknowledgementStep(run.states[j - 1], run.labels[j - 1], tuple);
    if run.states[j - 1].know.heldAck == Some(tuple) {
      assert b != j - 1;
      BegunEarlier(run, b, j);
      k := HoldWasAcknowledged(run, b, j - 1, tuple);
    } else {
      k := j - 1;
    }
  }

  /**
   A route is added only by the process that began the lease, after that process received the
   broker's acknowledgement of the exact tuple, with the durable record in state Held and marked
   for that route, and while the broker still holds the tuple.
   */
  lemma RoutesAreAddedUnderAuthority(run: Run, j: nat) returns (b: nat, k: nat)
    requires IsRun(run) && j < |run.labels| && run.labels[j].AddRoute?
    ensures var w := run.states[j];
            && w.disk.Record? && w.disk.journal.state == Held
            && w.disk.journal.pendingCidr == Some(run.labels[j].cidr)
            && !w.recoveryOnly
            && HeldTuple(w) == Some(w.disk.journal.owner.reference)
            && BegunAt(run, b, j) && b < k < j
            && AcknowledgesHold(run.states[k], run.labels[k], w.disk.journal.owner.reference)
  {
    RunInv(run, j);
    assert StepAt(run, j);
    b := LeaseWasBegunHere(run, j);
    k := HoldWasAcknowledged(run, b, j, run.states[j].disk.journal.owner.reference);
  }

  lemma {:induction false} RecoveryPersists(run: Run, i: nat, j: nat)
    requires IsRun(run) && i <= j < |run.states| && run.states[i].recoveryOnly
    requires forall m | i < m <= j :: run.states[m].journal.Some?
    requires forall m | i <= m < j :: run.labels[m] != Crash
    ensures run.states[j].recoveryOnly
  {
    if i < j {
      RecoveryPersists(run, i, j - 1);
      assert StepAt(run, j - 1);
      FlagStep(run.states[j - 1], run.labels[j - 1]);
    }
  }

  lemma FlagStep(w: World, l: Label)
    requires Enabled(w, l) && w.recoveryOnly && l != Crash && Next(w, l).journal.Some?
    ensures Next(w, l).recoveryOnly
  {
    if IsEnvironment(l) {
      EnvironmentLeavesHelper(w, l);
    }
  }

  /**
   Recovery is sticky: after a lease has entered recovery-only, or was loaded from disk by a
   restarted process, no route is added until that lease has been retired from memory.
   */
  lemma RecoveryIsSticky(run: Run, i: nat, j: nat) returns (m: nat)
    requires IsRun(run) && i < j < |run.labels| && run.labels[j].AddRoute?
    requires run.states[i].recoveryOnly || i == 0 || run.labels[i - 1] == Crash
    requires run.states[i].journal.Some?
    ensures i < m < j && run.states[m].journal.None?
  {
    var k;
    m, k := RoutesAreAddedUnderAuthority(run, j);
    if m < i && run.states[i].recoveryOnly {
      RecoveryPersists(run, i, j);
    }
  }

  /** A store found corrupt at start blocks every store, route and broker action, of that process and every later one. */
  lemma {:induction false} CorruptStoreBlocks(run: Run, i: nat, j: nat)
    requires IsRun(run) && i <= j < |run.states|
    requires run.states[i].disk.Garbage? && run.states[i] == Restarted(run.states[i])
    ensures run.states[j].disk.Garbage? && run.states[j].journal.None? && run.states[j].recoveryOnly
    ensures run.states[j].waiting.None? && run.states[j].nextRequest == run.states[i].nextRequest
    ensures forall m | i <= m < j ::
              var l := run.labels[m];
              !l.Send? && !l.Write? && !l.Unlink? && !l.AddRoute? && !l.DeleteRoute?
  {
    if i < j {
      CorruptStoreBlocks(run, i, j - 1);
      assert StepAt(run, j - 1);
      BlockedStep(run.states[j - 1], run.labels[j - 1]);
    }
  }

  lemma BlockedStep(w: World, l: Label)
    requires Enabled(w, l)
    requires w.disk.Garbage? && w.journal.None? && w.recoveryOnly && w.waiting.None?
    ensures !l.Send? && !l.Write? && !l.Unlink? && !l.AddRoute? && !l.DeleteRoute?
    ensures var w' := Next(w, l);
            && w'.disk == w.disk && w'.journal.None? && w'.recoveryOnly && w'.waiting.None?
            && w'.nextRequest == w.nextRequest
  {
    if IsEnvironment(l) {
      EnvironmentLeavesHelper(w, l);
    }
  }

  // ----- what a status answer says -----

  /** The broker's section for `q`, run in `w`, found the tuple of `q` held. */
  ghost predicate FoundHeld(w: World, l: Label, q: Request) {
    l == Deliver(q) && HeldTuple(w) == Some(q.binding)
  }

  ghost predicate SaysHeld(w: World, q: Request) {
    q.kind == StatusRequest && q in w.replies && AnswerOf(StatusRequest, w.replies[q]) == AnsweredHeld
  }

  lemma StatusStep(w: World, l: Label, q: Request)
    requires Inv(w) && Enabled(w, l) && SaysHeld(Next(w, l), q)
    ensures SaysHeld(w, q) || FoundHeld(w, l, q)
  {
    hide Broker.Inv, Safe, RequestsInv, KnowledgeInv, WaitingInv, LeaseInv;
    if l.Deliver? {
      StatusDelivery(w, l.request, q);
    }
  }

  lemma StatusDelivery(w: World, request: Request, q: Request)
    requires Broker.Inv(w.broker) && SaysHeld(Delivered(w, request), q)
    ensures SaysHeld(w, q) || (request == q && HeldTuple(w) == Some(q.binding))
  {
  }

  /** A status answer "held" was true when the broker gave it. */
  lemma {:induction false} StatusAnswersAreTrue(run: Run, i: nat, q: Request) returns (k: nat)
    requires IsRun(run) && i < |run.states| && SaysHeld(run.states[i], q)
    ensures k < i && FoundHeld(run.states[k], run.labels[k], q)
  {
    RunInv(run, i - 1);
    assert StepAt(run, i - 1);
    StatusStep(run.states[i - 1], run.labels[i - 1], q);
    if SaysHeld(run.states[i - 1], q) {
      k := StatusAnswersAreTrue(run, i - 1, q);
    } else {
      k := i - 1;
    }
  }
}
