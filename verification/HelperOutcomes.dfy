/**
 What the route helper's coordinator promises of each call: its replies, the state it leaves
 between calls, what its steps do to the route table, and what may go wrong meanwhile.
 */
module HelperOutcomes {
  import opened Wrappers
  import opened RouteBindings
  import opened RouteNetworks
  import opened RouteJournal
  import opened Interlock
  import opened InterlockRuns
  import Broker
  import BrokerRuns

  const RECOVERY_CONNECTION: ConnectionId := 8

  datatype ReplyState = IdleReply | JournalReply(state: JournalState) | RecoveryOnlyReply | FailedClosed

  datatype ErrorCode =
    | RouteConflict
    | JournalWriteFailed
    | RouteApplyFailed
    | RollbackFailed
    | ReleaseFailed
    | RecoveryRequired
    | OwnershipMismatch
    | BrokerProtocolFailure
    | BrokerStatusFailed

  datatype HelperReply = HelperReply(
    state: ReplyState, error: Option<ErrorCode>, reference: Option<RouteBinding>, transition: nat)

  const IDLE := HelperReply(IdleReply, None, None, 0)

  const RECOVERY_ONLY := HelperReply(RecoveryOnlyReply, None, None, 0)

  const OWNERSHIP_FAILURE := HelperReply(FailedClosed, Some(OwnershipMismatch), None, 0)

  function ReplyFor(j: Journal, error: Option<ErrorCode>): HelperReply {
    HelperReply(JournalReply(j.state), error, Some(j.owner.reference), j.transition)
  }

  /** The reply tells of this record: its state, its tuple and its transition number. */
  ghost predicate Describes(reply: HelperReply, j: Journal, error: Option<ErrorCode>) {
    && reply.state == JournalReply(j.state) && reply.error == error
    && reply.reference == Some(j.owner.reference) && reply.transition == j.transition
  }

  /** A reply that tells of no lease. */
  ghost predicate FailsClosed(reply: HelperReply, error: ErrorCode) {
    reply.state == FailedClosed && reply.error == Some(error) && reply.reference.None? && reply.transition == 0
  }

  /** What has gone wrong so far, as far as a caller's promise depends on it. */
  datatype Mishaps = Mishaps(
    faults: nat,      // failed store and route commands, failed inspections, lost answers
    refusals: nat,    // answers of the broker other than the one asked for
    overlaps: nat,    // foreign routes that appeared over a CIDR of the current lease
    meddling: nat,    // foreign changes of the route table of any kind
    storeFaults: nat) // of the faults, the failed writes and unlinks

  // ----- the coordinator between calls -----

  /** Memory agrees with the store about the lease, up to what has been seen absent. */
  ghost predicate Consistent(w: World, m: Journal) {
    && m.IsValid()
    && (w.disk.Record? ==>
          && w.disk.journal.owner == m.owner
          && (w.disk.journal.state in {RetirementPending, Released} ==> m.NamesNothing())
          && forall cidr | w.disk.journal.Names(cidr) :: m.Names(cidr) || cidr in w.know.absent)
    && (m.state == RetirementPending ==>
          || w.know.releasedAck == Some(m.owner.reference)
          || (w.disk.Record? && w.disk.journal.state == RetirementPending))
    && (m.state == Released ==> w.cached == Some(m) && w.disk in {Absent, Record(m)})
  }

  /** An undisturbed lease held for a live connection. */
  ghost predicate Working(w: World, m: Journal) {
    && w.activeConnection.Some? && w.activeConnection.value in w.registered
    && w.know.heldAck == Some(m.owner.reference)
    && m.pendingCidr.None?
    && match m.state
       case Held => m.appliedCidrs == []
       case Applied => m.appliedCidrs == m.owner.privateCidrs
       case _ => false
  }

  ghost predicate Settled(w: World) {
    && w.waiting.None?
    && (forall a, b | a in w.registered && b in w.registered :: a == b)
    && (w.journal.None? ==> w.activeConnection.None?)
    && (w.journal.Some? ==> Consistent(w, w.journal.value))
    && (w.journal.Some? && !w.recoveryOnly ==>
          && w.disk == Record(w.journal.value) && w.cached == Some(w.journal.value)
          && (w.activeConnection.Some? ==> Working(w, w.journal.value)))
  }

  // ----- tables without foreign overlap -----

  /** No row of the table conflicts with the CIDR, except one own route for it. */
  ghost predicate IsClearFor(table: multiset<RouteEntry>, owner: JournalOwner, cidr: RouteNetwork) {
    forall e | e in table && RouteConflicts(cidr, e, owner.activeMihomoTunInterfaces) ::
      e == owner.Route(cidr) && table[e] == 1
  }

  ghost predicate IsClear(table: multiset<RouteEntry>, owner: JournalOwner, cidrs: seq<RouteNetwork>) {
    forall cidr | cidr in cidrs :: IsClearFor(table, owner, cidr)
  }

  ghost predicate KeepsClear(table: multiset<RouteEntry>, table': multiset<RouteEntry>, owner: JournalOwner) {
    forall cidr | cidr in owner.privateCidrs && IsClearFor(table, owner, cidr) :: IsClearFor(table', owner, cidr)
  }

  ghost predicate IsAvailable(table: multiset<RouteEntry>, owner: JournalOwner) {
    forall cidr | cidr in owner.privateCidrs ::
      Inspect(table, cidr, owner.interfaceName, owner.activeMihomoTunInterfaces).IsAvailable()
  }

  ghost predicate IntrudesOn(w: World, l: Label) {
    l.ForeignAdd? && w.journal.Some? && Conflicts(w.journal.value.owner, l.entry)
  }

  /** The bookkeeping of interference: what may have changed in the table, and what was counted. */
  ghost predicate OnlyOutsiders(w: World, w': World, before: Mishaps, after: Mishaps) {
    && after.faults == before.faults && after.refusals == before.refusals && after.storeFaults == before.storeFaults
    && before.meddling <= after.meddling && before.overlaps <= after.overlaps
    && (after.meddling == before.meddling ==> after.overlaps == before.overlaps && w'.table == w.table)
    && (after.overlaps == before.overlaps && w.journal.Some? ==> KeepsClear(w.table, w'.table, w.journal.value.owner))
    && (after.overlaps == before.overlaps && w.journal.Some? ==>
          forall e | e in w'.table && e !in w.table :: !Conflicts(w.journal.value.owner, e))
  }

  ghost predicate Conflicts(owner: JournalOwner, e: RouteEntry) {
    exists cidr | cidr in owner.privateCidrs :: RouteConflicts(cidr, e, owner.activeMihomoTunInterfaces)
  }

  /** The store unlinks only the record it last wrote or read, unchanged on disk. */
  predicate IsRemovable(w: World, reference: RouteBinding) {
    w.cached.Some? && w.cached.value.owner.reference == reference && w.disk == Record(w.cached.value)
  }

  /** An action that leaves the table to the environment; when it does not go well, a fault is counted. */
  ghost predicate Calm(w: World, w': World, before: Mishaps, after: Mishaps, well: bool) {
    OnlyOutsiders(w, w', before, if well then after else after.(faults := before.faults))
    && (if well then after.faults == before.faults else before.faults < after.faults)
  }

  /** The same of a write or an unlink. */
  ghost predicate Stored(w: World, w': World, before: Mishaps, after: Mishaps, well: bool) {
    OnlyOutsiders(w, w', before, if well then after else after.(faults := before.faults, storeFaults := before.storeFaults))
    && (if well then after.faults == before.faults && after.storeFaults == before.storeFaults
        else before.faults < after.faults && before.storeFaults < after.storeFaults)
  }

  lemma SameHelperMayWrite(w: World, w': World, record: Journal)
    requires SameHelper(w, w')
    ensures MayWrite(w', record) == MayWrite(w, record)
  {
    hide Journal.Names;
  }

  ghost predicate Counted(before: Mishaps, after: Mishaps, well: bool) {
    && before.meddling <= after.meddling && before.overlaps <= after.overlaps
    && (after.meddling == before.meddling ==> after.overlaps == before.overlaps)
    && after.refusals == before.refusals && after.storeFaults == before.storeFaults
    && (if well then after.faults == before.faults else before.faults < after.faults)
  }

  /** The route went in, beside whatever the environment did. */
  ghost predicate Added(w: World, w': World, before: Mishaps, after: Mishaps, owner: JournalOwner, cidr: RouteNetwork) {
    && owner.Route(cidr) in w'.table
    && (after.meddling == before.meddling ==> w'.table == w.table + multiset{owner.Route(cidr)})
    && (after.overlaps == before.overlaps && owner.Route(cidr) !in w.table
        && AreDisjoint(owner.privateCidrs) && cidr in owner.privateCidrs && cidr.prefix > 0 ==>
          KeepsClear(w.table, w'.table, owner))
    && (after.overlaps == before.overlaps ==>
          forall e | e in w'.table && e !in w.table && e != owner.Route(cidr) :: !Conflicts(owner, e))
  }

  /** One such route went out, beside whatever the environment did. */
  ghost predicate Deleted(w: World, w': World, before: Mishaps, after: Mishaps, owner: JournalOwner, cidr: RouteNetwork) {
    && (after.meddling == before.meddling ==> w'.table == w.table - multiset{owner.Route(cidr)})
    && (after.overlaps == before.overlaps && cidr in owner.privateCidrs && cidr.prefix > 0 ==>
          KeepsClear(w.table, w'.table, owner) && (IsClearFor(w.table, owner, cidr) ==> owner.Route(cidr) !in w'.table))
    && (after.overlaps == before.overlaps ==>
          forall e | e in w'.table && e !in w.table :: !Conflicts(owner, e))
  }

  function InspectionFor(table: multiset<RouteEntry>, owner: JournalOwner, cidr: RouteNetwork): RouteInspection {
    Inspect(table, cidr, owner.interfaceName, owner.activeMihomoTunInterfaces)
  }

  lemma OwnRouteConflicts(owner: JournalOwner, cidr: RouteNetwork)
    requires cidr.prefix > 0
    ensures RouteConflicts(cidr, owner.Route(cidr), owner.activeMihomoTunInterfaces)
    ensures IsOwnRoute(cidr, owner.Route(cidr), owner.interfaceName)
  {
  }

  lemma AddingKeepsClear(table: multiset<RouteEntry>, owner: JournalOwner, cidr: RouteNetwork)
    requires AreDisjoint(owner.privateCidrs) && cidr in owner.privateCidrs
    requires owner.Route(cidr) !in table
    ensures KeepsClear(table, table + multiset{owner.Route(cidr)}, owner)
  {
    var table' := table + multiset{owner.Route(cidr)};
    forall c, e | c in owner.privateCidrs && IsClearFor(table, owner, c)
                  && e in table' && RouteConflicts(c, e, owner.activeMihomoTunInterfaces)
      ensures e == owner.Route(c) && table'[e] == 1
    {
      if e == owner.Route(cidr) {
        OnlyOverlapsItself(owner.privateCidrs, c, cidr);
      }
    }
  }

  lemma OwnRouteStays(owner: JournalOwner, cidr: RouteNetwork)
    ensures cidr in owner.privateCidrs && cidr.prefix > 0 ==> Conflicts(owner, owner.Route(cidr))
  {
    if cidr.prefix > 0 {
      OwnRouteConflicts(owner, cidr);
    }
  }

  lemma OnlyOverlapsItself(cidrs: seq<RouteNetwork>, a: RouteNetwork, b: RouteNetwork)
    requires AreDisjoint(cidrs) && a in cidrs && b in cidrs && Overlaps(a, b)
    ensures a == b
  {
    var i :| 0 <= i < |cidrs| && cidrs[i] == a;
    var j :| 0 <= j < |cidrs| && cidrs[j] == b;
    OverlapsSymmetric(a, b);
  }

  lemma DeletingKeepsClear(table: multiset<RouteEntry>, owner: JournalOwner, cidr: RouteNetwork)
    requires cidr.prefix > 0
    ensures KeepsClear(table, table - multiset{owner.Route(cidr)}, owner)
    ensures IsClearFor(table, owner, cidr) ==> owner.Route(cidr) !in table - multiset{owner.Route(cidr)}
  {
    OwnRouteConflicts(owner, cidr);
    var table' := table - multiset{owner.Route(cidr)};
    assert forall e | e in table' :: e in table;
  }

  /** The environment's part of the table, then the route out of it. */
  lemma DeletedBesideOutsiders(w: World, w1: World, w2: World, before: Mishaps, after: Mishaps, cidr: RouteNetwork)
    requires w.journal.Some? && OnlyOutsiders(w, w1, before, after)
    requires w2.table == w1.table - multiset{w.journal.value.owner.Route(cidr)}
    ensures Deleted(w, w2, before, after, w.journal.value.owner, cidr)
  {
    hide IsClearFor, Conflicts;
    if cidr.prefix > 0 {
      DeletingKeepsClear(w1.table, w.journal.value.owner, cidr);
    }
  }

  lemma NotOwnedMeansAbsent(table: multiset<RouteEntry>, owner: JournalOwner, cidr: RouteNetwork)
    requires cidr.prefix > 0 && !InspectionFor(table, owner, cidr).ownedExact
    ensures owner.Route(cidr) !in table
  {
    OwnRouteConflicts(owner, cidr);
  }

  lemma OutsiderStep(w: World, l: Label)
    requires Enabled(w, l) && IsEnvironment(l)
    ensures !l.ForeignAdd? && !l.ForeignRemove? ==> Next(w, l).table == w.table
    ensures !IntrudesOn(w, l) && w.journal.Some? ==> KeepsClear(w.table, Next(w, l).table, w.journal.value.owner)
    ensures !IntrudesOn(w, l) && w.journal.Some? ==>
              forall e | e in Next(w, l).table && e !in w.table :: !Conflicts(w.journal.value.owner, e)
  {
    hide Broker.Next, Broker.Enabled, RouteConflicts;
  }

  ghost predicate Tallied(before: Mishaps, after: Mishaps) {
    && before.faults <= after.faults && before.refusals <= after.refusals
    && before.overlaps <= after.overlaps && before.meddling <= after.meddling && before.storeFaults <= after.storeFaults
    && (after.faults == before.faults ==> after.storeFaults == before.storeFaults)
    && (after.meddling == before.meddling ==> after.overlaps == before.overlaps)
  }

  /** Nothing failed and no foreign route came over the lease's CIDRs. */
  ghost predicate Undisturbed(before: Mishaps, after: Mishaps) {
    after.faults == before.faults && after.refusals == before.refusals && after.overlaps == before.overlaps
  }

  /** Same lease, same connections, same acknowledgements. */
  ghost predicate SameOffice(w: World, w': World) {
    && w'.activeConnection == w.activeConnection && w'.registered == w.registered
    && w'.know.releasedAck == w.know.releasedAck && w'.know.heldAck == w.know.heldAck
    && w.journal.Some? && w'.journal.Some? && w'.journal.value.owner == w.journal.value.owner
  }

  /** What retiring one route does to the table: it alone goes, and undisturbed it goes exactly from a clear table. */
  ghost predicate TableAfter(w: World, w': World, before: Mishaps, after: Mishaps,
                             owner: JournalOwner, cidr: RouteNetwork, done: bool) {
    && (Undisturbed(before, after) && IsClearFor(w.table, owner, cidr) ==> done)
    && (done && after.overlaps == before.overlaps ==> KeepsClear(w.table, w'.table, owner))
    && (done && after.meddling == before.meddling ==>
          IsClearFor(w.table, owner, cidr) && w'.table == w.table - multiset{owner.Route(cidr)})
  }

  /** The mark is written, and then the route deleted, or not. */
  lemma MarkedAndDeleted(w: World, w1: World, w2: World, w': World, m: Mishaps, m1: Mishaps, m2: Mishaps,
                         cidr: RouteNetwork, done: bool)
    requires w.journal.Some? && Stored(w, w1, m, m1, true) && Tallied(m1, m2) && cidr in w.journal.value.owner.privateCidrs
    requires TableAfter(w1, w2, m1, m2, w.journal.value.owner, cidr, done) && w'.table == w2.table
    ensures TableAfter(w, w', m, m2, w.journal.value.owner, cidr, done)
  {
    hide IsClearFor, Conflicts;
  }

  lemma NothingDeleted(w: World, w': World, m: Mishaps, m': Mishaps, owner: JournalOwner, cidr: RouteNetwork)
    requires m.faults < m'.faults
    ensures TableAfter(w, w', m, m', owner, cidr, false)
  {
  }

  lemma ClearInspection(table: multiset<RouteEntry>, owner: JournalOwner, cidr: RouteNetwork)
    requires cidr.prefix > 0
    ensures IsClearFor(table, owner, cidr) ==>
              InspectionFor(table, owner, cidr) == RouteInspection(owner.Route(cidr) in table, false)
    ensures InspectionFor(table, owner, cidr).IsAvailable() ==>
              IsClearFor(table, owner, cidr) && owner.Route(cidr) !in table
  {
    OwnRouteConflicts(owner, cidr);
  }

  /** Nothing conflicts once one own route is out: it was the only row that did. */
  lemma GoneWasClear(table: multiset<RouteEntry>, owner: JournalOwner, cidr: RouteNetwork)
    requires InspectionFor(table - multiset{owner.Route(cidr)}, owner, cidr).IsAvailable()
    ensures IsClearFor(table, owner, cidr)
  {
    forall e | e in table && RouteConflicts(cidr, e, owner.activeMihomoTunInterfaces)
      ensures e == owner.Route(cidr) && table[e] == 1
    {
      assert e !in table - multiset{owner.Route(cidr)};
    }
  }

  // ----- the records that the deletion loop writes -----

  function Without<T(==)>(s: seq<T>, x: T): seq<T> {
    if s == [] then []
    else if s[0] == x then Without(s[1..], x)
    else [s[0]] + Without(s[1..], x)
  }

  lemma {:induction false} WithoutContains<T>(s: seq<T>, x: T)
    ensures if x in s then |Without(s, x)| < |s| else |Without(s, x)| == |s|
    ensures forall y :: y in Without(s, x) <==> y in s && y != x
    ensures HasNoDuplicates(s) ==> HasNoDuplicates(Without(s, x))
  {
    if s != [] {
      WithoutContains(s[1..], x);
      if HasNoDuplicates(s) {
        assert s[0] !in s[1..];
        var rest := Without(s[1..], x);
        assert s[0] !in rest;
      }
    }
  }

  /** The record once the route of `cidr` is known to be gone. */
  function Dropped(m: Journal, cidr: RouteNetwork): Journal {
    m.(pendingCidr := None, appliedCidrs := Without(m.appliedCidrs, cidr))
  }

  lemma NamedIsValid(m: Journal, cidr: RouteNetwork)
    requires m.IsValid() && m.Names(cidr)
    ensures IsValidCidr(cidr) && cidr in m.owner.privateCidrs && cidr.prefix > 0
  {
  }

  lemma MarkedIsValid(m: Journal, cidr: RouteNetwork)
    requires m.IsValid() && m.state in {Held, Applied} && cidr in m.owner.privateCidrs
    ensures m.(pendingCidr := Some(cidr)).IsValid()
  {
  }

  lemma DroppedIsValid(m: Journal, cidr: RouteNetwork)
    requires m.IsValid() && m.state in {Held, Applied}
    ensures Dropped(m, cidr).IsValid()
    ensures forall c :: Dropped(m, cidr).Names(c) <==> c in m.appliedCidrs && c != cidr
  {
    WithoutContains(m.appliedCidrs, cidr);
  }

  /** The routes that the record admits may be in the table, newest last. */
  function OwnedCidrs(m: Journal): seq<RouteNetwork> {
    if m.pendingCidr.Some? && m.pendingCidr.value !in m.appliedCidrs then m.appliedCidrs + [m.pendingCidr.value]
    else m.appliedCidrs
  }

  lemma OwnedIsNamed(m: Journal)
    requires m.IsValid()
    ensures HasNoDuplicates(OwnedCidrs(m))
    ensures forall cidr :: m.Names(cidr) <==> cidr in OwnedCidrs(m)
    ensures OwnedCidrs(m) != [] ==> m.state in {Held, Applied}
    ensures OwnedCidrs(m) == [] ==> m == m.(pendingCidr := None, appliedCidrs := [])
  {
  }

  /** With `index` routes to go, the loop's record names exactly these. */
  ghost predicate Remaining(current: Journal, owned: seq<RouteNetwork>, mutable: Journal, index: nat)
    requires index <= |owned|
  {
    if index == |owned| then mutable == current
    else
      && mutable.pendingCidr.None? && |mutable.appliedCidrs| <= index
      && (forall cidr :: cidr in mutable.appliedCidrs <==> cidr in owned[..index])
  }

  ghost function RoutesOf(owner: JournalOwner, cidrs: seq<RouteNetwork>): multiset<RouteEntry> {
    if cidrs == [] then multiset{} else multiset{owner.Route(cidrs[0])} + RoutesOf(owner, cidrs[1..])
  }

  ghost predicate TableRetired(w: World, w': World, before: Mishaps, after: Mishaps,
                               owner: JournalOwner, cidrs: seq<RouteNetwork>, done: bool) {
    && (Undisturbed(before, after) && IsClear(w.table, owner, cidrs) ==> done)
    && (done && after.overlaps == before.overlaps ==> KeepsClear(w.table, w'.table, owner))
    && (done && after.meddling == before.meddling ==>
          IsClear(w.table, owner, cidrs) && w'.table == w.table - RoutesOf(owner, cidrs))
  }

  /** A retirement that stopped on some of the routes stopped on all of them. */
  lemma StoppedRetiring(w: World, w': World, m: Mishaps, m': Mishaps, owner: JournalOwner,
                        some: seq<RouteNetwork>, all: seq<RouteNetwork>)
    requires TableRetired(w, w', m, m', owner, some, false) && forall cidr | cidr in some :: cidr in all
    ensures TableRetired(w, w', m, m', owner, all, false)
  {
  }

  /** The same record but for the routes it names. */
  ghost predicate IsTrimmed(current: Journal, mutable: Journal) {
    mutable == current.(pendingCidr := mutable.pendingCidr, appliedCidrs := mutable.appliedCidrs)
  }

  lemma DroppedIsTrimmed(current: Journal, mutable: Journal, cidr: RouteNetwork)
    requires IsTrimmed(current, mutable)
    ensures IsTrimmed(current, Dropped(mutable, cidr))
  {
  }

  /** Where the deletion loop starts. */
  lemma NothingRetired(w: World, m: Mishaps, current: Journal)
    requires Consistent(w, current)
    ensures var owned := OwnedCidrs(current);
            && HasNoDuplicates(owned) && Remaining(current, owned, current, |owned|)
            && (owned != [] ==> current.state in {Held, Applied})
            && AreDisjoint(current.owner.privateCidrs) && (forall cidr | cidr in owned :: cidr in current.owner.privateCidrs)
            && Tallied(m, m) && TableRetired(w, w, m, m, current.owner, owned[|owned|..], true)
  {
    OwnedIsNamed(current);
  }

  lemma RemainingStep(current: Journal, mutable: Journal, index: nat)
    requires HasNoDuplicates(OwnedCidrs(current)) && 0 < index <= |OwnedCidrs(current)|
    requires Remaining(current, OwnedCidrs(current), mutable, index)
    ensures var cidr := OwnedCidrs(current)[index - 1];
            && mutable.Names(cidr) && cidr !in OwnedCidrs(current)[index..]
            && (mutable.pendingCidr in {None, Some(cidr)} || mutable.pendingCidr.value in mutable.appliedCidrs)
            && Remaining(current, OwnedCidrs(current), Dropped(mutable, cidr), index - 1)
  {
    var owned := OwnedCidrs(current);
    assert owned[..index] == owned[..index - 1] + [owned[index - 1]];
    WithoutContains(mutable.appliedCidrs, owned[index - 1]);
  }

  lemma NothingRemains(current: Journal, mutable: Journal)
    requires Remaining(current, OwnedCidrs(current), mutable, 0)
    requires IsTrimmed(current, mutable)
    ensures mutable == current.(pendingCidr := None, appliedCidrs := [])
  {
  }

  lemma OneRouteRetired(w: World, w1: World, w2: World, m: Mishaps, m1: Mishaps, m2: Mishaps,
                        owner: JournalOwner, cidr: RouteNetwork, done: bool)
    requires Tallied(m, m1) && TableAfter(w, w1, m, m1, owner, cidr, true)
    requires w1.journal.Some? && w1.journal.value.owner == owner && Stored(w1, w2, m1, m2, done)
    ensures Tallied(m, m2) && TableRetired(w, w2, m, m2, owner, [cidr], done)
  {
    assert RoutesOf(owner, [cidr]) == multiset{owner.Route(cidr)} + RoutesOf(owner, []);
  }

  lemma AnotherRouteRetired(w: World, w1: World, w2: World, m: Mishaps, m1: Mishaps, m2: Mishaps,
                            owner: JournalOwner, cidr: RouteNetwork, rest: seq<RouteNetwork>, done: bool)
    requires Tallied(m, m1) && TableRetired(w, w1, m, m1, owner, rest, true)
    requires Tallied(m1, m2) && TableRetired(w1, w2, m1, m2, owner, [cidr], done)
    requires AreDisjoint(owner.privateCidrs) && cidr in owner.privateCidrs && cidr !in rest
    requires forall c | c in rest :: c in owner.privateCidrs
    ensures Tallied(m, m2) && TableRetired(w, w2, m, m2, owner, [cidr] + rest, done)
  {
    hide IsClearFor, RoutesOf;
    RoutesOfPrepended(owner, cidr, []);
    RoutesOfPrepended(owner, cidr, rest);
    assert [cidr] + [] == [cidr];
    NoRoutesOfNone(owner);
    if m1.meddling == m.meddling {
      ClearBefore(w.table, owner, rest, cidr);
    }
  }

  /** Taking out routes of other CIDRs does not clear the table for this one. */
  lemma ClearBefore(table: multiset<RouteEntry>, owner: JournalOwner, rest: seq<RouteNetwork>, cidr: RouteNetwork)
    requires AreDisjoint(owner.privateCidrs) && cidr in owner.privateCidrs && cidr !in rest
    requires forall c | c in rest :: c in owner.privateCidrs
    ensures IsClearFor(table - RoutesOf(owner, rest), owner, cidr) ==> IsClearFor(table, owner, cidr)
  {
    forall e | e in table && RouteConflicts(cidr, e, owner.activeMihomoTunInterfaces)
      ensures e !in RoutesOf(owner, rest)
    {
      RoutesOfContains(owner, rest, e);
      if e in RoutesOf(owner, rest) {
        OnlyOverlapsItself(owner.privateCidrs, cidr, e.network);
      }
    }
  }

  lemma RoutesOfPrepended(owner: JournalOwner, cidr: RouteNetwork, rest: seq<RouteNetwork>)
    ensures RoutesOf(owner, [cidr] + rest) == multiset{owner.Route(cidr)} + RoutesOf(owner, rest)
  {
  }

  lemma NoRoutesOfNone(owner: JournalOwner)
    ensures RoutesOf(owner, []) == multiset{}
  {
  }

  /** The lease is over: nothing remembered, nothing on disk, no connection served, no recovery needed. */
  ghost predicate IsRetired(w: World, w': World) {
    && w'.journal.None? && w'.activeConnection.None? && !w'.recoveryOnly && w'.disk == Absent
    && w'.registered == w.registered
  }

  ghost predicate Concluded(w: World, w': World, reply: HelperReply) {
    && w.journal.Some?
    && (reply.error.None? ==>
          && reply.state == JournalReply(Released) && reply.reference == Some(w.journal.value.owner.reference)
          && reply.transition == w.journal.value.transition + StepsToReleased(w.journal.value.state)
          && IsRetired(w, w') && Quiet(w'))
    && (reply.error.Some? ==>
          && w'.recoveryOnly && w'.journal.Some? && w'.journal.value.owner == w.journal.value.owner
          && w'.activeConnection == w.activeConnection && w'.registered == w.registered
          && Consistent(w', w'.journal.value) && Describes(reply, w'.journal.value, reply.error))
  }

  /** How many numbered transitions a lease still has before it when it is to be retired. */
  function StepsToReleased(state: JournalState): nat {
    match state
    case Released => 0
    case RetirementPending => 1
    case _ => 2
  }

  /** How every attempt to retire ends: it says so and is over, or the lease is kept for another attempt. */
  ghost predicate Finished(w: World, w': World, before: Mishaps, after: Mishaps, reply: HelperReply) {
    && Concluded(w, w', reply)
    && (Undisturbed(before, after) ==> reply.error.None?)
    && (after.meddling == before.meddling ==> w'.table == w.table)
    && (reply.error.Some? ==> reply.error == Some(if after.storeFaults > before.storeFaults then JournalWriteFailed else ReleaseFailed))
    && (reply.error == Some(ReleaseFailed) ==> w'.journal.value.state == RetirementPending)
  }

  /** Retirement is asked for by the active connection, with the exact tuple. */
  ghost predicate AdmitsRetirement(w: World, reference: RouteBinding, connectionId: ConnectionId) {
    w.journal.Some? && w.activeConnection == Some(connectionId) && w.journal.value.owner.reference == reference
  }

  /** A process that loaded a Released record and lost its file to an unlink it was told had failed. */
  ghost predicate IsStuck(w: World) {
    w.journal.Some? && w.journal.value.state == Released && w.disk == Absent
  }

  /** The table is clear for the CIDRs that the record in memory names. */
  ghost predicate IsNamedClear(w: World) {
    w.journal.Some? && IsClear(w.table, w.journal.value.owner, OwnedCidrs(w.journal.value))
  }

  /**
   Undisturbed, with an unmeddled table, retirement completes exactly when the process is not stuck
   and the table is clear for the CIDRs that the record names; it then takes out exactly their
   routes. Foreign changes beside the lease's CIDRs do not keep it from completing. An attempt that
   fails says what failed: the store, the broker's release, or else the routes.
   */
  ghost predicate RetirementOutcome(w: World, w': World, before: Mishaps, after: Mishaps, reply: HelperReply) {
    && Concluded(w, w', reply)
    && (IsStuck(w) ==> reply.error == Some(JournalWriteFailed) && IsStuck(w'))
    && (reply.error.Some? && !IsStuck(w) ==>
          reply.error == Some(if after.storeFaults > before.storeFaults then JournalWriteFailed
                              else if w'.journal.value.state == RetirementPending then ReleaseFailed else RollbackFailed))
    && (Undisturbed(before, after) && IsNamedClear(w) && !IsStuck(w) ==> reply.error.None?)
    && (reply.error.None? && after.meddling == before.meddling ==>
          IsNamedClear(w) && w'.table == w.table - RoutesOf(w.journal.value.owner, OwnedCidrs(w.journal.value)))
  }

  /** A failed deletion tells of the record in memory, and whether the store or the routes failed. */
  ghost predicate ReportsRollback(reply: HelperReply, m: Journal, before: Mishaps, after: Mishaps) {
    Describes(reply, m, Some(if after.storeFaults > before.storeFaults then JournalWriteFailed else RollbackFailed))
  }

  /** A failed apply tells of the record in memory, and whether a marked route or the record after it failed. */
  ghost predicate ReportsApply(reply: HelperReply, m: Journal) {
    Describes(reply, m, Some(if m.pendingCidr.Some? then RouteApplyFailed else JournalWriteFailed))
  }

  /**
   The answer that ended the wait for `q`: what the broker's reply says when it was received, and
   ambiguous when the wait was given up.
   */
  ghost predicate IsAnswer(run: Run, q: Request, answer: Answer) {
    && 0 < |run.labels| < |run.states|
    && var last := |run.labels| - 1;
       && run.states[last].waiting == Some(q)
       && (|| (run.labels[last] == GiveUp && answer == AnsweredAmbiguous)
           || (run.labels[last] == Receive && q in run.states[last].replies
               && answer == AnswerOf(q.kind, run.states[last].replies[q])))
  }

  lemma AnsweredBy(before: Run, l: Label, q: Request, answer: Answer)
    requires IsRun(before) && Enabled(Last(before), l) && Last(before).waiting == Some(q)
    requires || (l == GiveUp && answer == AnsweredAmbiguous)
             || (l == Receive && q in Last(before).replies && answer == AnswerOf(q.kind, Last(before).replies[q]))
    ensures IsAnswer(Extended(before, l), q, answer)
  {
    hide Enabled, Next, AnswerOf;
  }

  /** A status call asks the broker once, unless the release is on record, and goes into recovery exactly when it is not held. */
  ghost predicate Polled(before: seq<Answer>, after: seq<Answer>, state: JournalState, recoveryOnly: bool) {
    if state == Released then after == before && !recoveryOnly
    else |after| == |before| + 1 && before <= after && (recoveryOnly <==> after[|before|] != AnsweredHeld)
  }

  /**
   What the broker's answers to a hold mean: held and acknowledged, not held and not going to be by
   this request, or held with a recovery due.
   */
  lemma HoldAnswerMeans(core: Broker.Core, b: RouteBinding)
    requires Broker.CoreInv(core)
    ensures var (after, reply) := core.HoldV3(b);
            var answer := AnswerOf(HoldRequest, reply);
            && answer in {AnsweredHeld, AnsweredRejected, AnsweredAmbiguous}
            && (answer == AnsweredRejected <==> BrokerRuns.HeldBinding(after) != Some(b))
            && (answer == AnsweredHeld <==>
                  BrokerRuns.HeldBinding(after) == Some(b) && !after.active.value.lease.recoveryRequired)
            && (answer != AnsweredHeld ==> after == core)
  {
  }

  /** A release is answered released exactly when it is accepted, unless the child is yet to be reaped. */
  lemma ReleaseAnswerMeans(core: Broker.Core, b: RouteBinding)
    requires Broker.CoreInv(core)
    ensures var section := core.ReleaseV3First(b).1;
            section.Done? ==>
              && AnswerOf(ReleaseRequest, section.reply) in {AnsweredReleased, AnsweredRejected}
              && (AnswerOf(ReleaseRequest, section.reply) == AnsweredReleased <==> BrokerRuns.AcceptsRelease(core, b))
  {
  }

  /** A status is answered held exactly for the tuple that is held with no recovery due, and gives no other answer for it. */
  lemma StatusAnswerMeans(core: Broker.Core, b: RouteBinding)
    requires Broker.CoreInv(core)
    ensures var answer := AnswerOf(StatusRequest, core.StatusV3(b).1);
            && (answer == AnsweredHeld <==>
                  BrokerRuns.HeldBinding(core) == Some(b) && !core.active.value.lease.recoveryRequired)
            && (answer in {AnsweredIdle, AnsweredRunning} <==> BrokerRuns.Recorded(core, b))
            && (answer == AnsweredIdle <==> core.retired == Some(b))
  {
  }

  /** Store, memory and the store's cache agree on the lease's record. */
  ghost predicate IsOnRecord(w: World) {
    w.journal.Some? && w.disk == Record(w.journal.value) && w.cached == Some(w.journal.value)
  }

  /**
   How begin ends once its record is written, by the broker's answer and whether every store command
   went well: held and on record, refused and forgotten, or kept for recovery.
   */
  ghost predicate Begun(w: World, owner: JournalOwner, connectionId: ConnectionId, reply: HelperReply, answer: Answer, stored: bool) {
    && w.waiting.None? && answer in {AnsweredHeld, AnsweredRejected, AnsweredAmbiguous}
    && (answer == AnsweredHeld && stored ==>
          && IsOnRecord(w) && w.journal.value.owner == owner && w.journal.value.state == Held && w.journal.value.NamesNothing()
          && !w.recoveryOnly && w.know.heldAck == Some(owner.reference) && w.activeConnection == Some(connectionId)
          && Consistent(w, w.journal.value) && Describes(reply, w.journal.value, None))
    && (answer == AnsweredRejected && stored ==>
          && w.journal.None? && w.disk == Absent && w.activeConnection.None? && !w.recoveryOnly
          && FailsClosed(reply, BrokerProtocolFailure))
    && (answer == AnsweredAmbiguous || !stored ==>
          && w.journal.Some? && w.journal.value.owner == owner && w.journal.value.state == HoldPending
          && w.recoveryOnly && w.activeConnection == Some(connectionId) && Consistent(w, w.journal.value)
          && Describes(reply, w.journal.value, Some(if stored then BrokerProtocolFailure else JournalWriteFailed)))
  }

  ghost predicate MayBegin(w: World, owner: LeaseOwner, connectionId: ConnectionId) {
    connectionId in w.registered && !w.recoveryOnly && w.journal.None? && owner.IsValid()
  }

  /** While its record says so, an acknowledged hold is a hold. */
  lemma AcknowledgedIsHeld(run: Run)
    requires IsRun(run)
    ensures var w := Last(run);
            w.know.heldAck.Some? && w.disk.Record? && w.disk.journal.state in {HoldPending, Held, Applied} ==>
              HeldTuple(w) == w.know.heldAck
  {
    RunInv(run, |run.states| - 1);
  }

  /** What adding routes does to the table: they alone come, and where they were available they do come. */
  ghost predicate RoutesAdded(w: World, w': World, before: Mishaps, after: Mishaps,
                              owner: JournalOwner, cidrs: seq<RouteNetwork>, done: bool) {
    && (done && after.meddling == before.meddling ==> w'.table == w.table + RoutesOf(owner, cidrs))
    && (after == before && IsClear(w.table, owner, owner.privateCidrs)
        && (forall cidr | cidr in cidrs :: owner.Route(cidr) !in w.table) ==>
          done && IsClear(w'.table, owner, owner.privateCidrs))
  }

  /** The state at the top of apply's loop: a held lease whose record is on disk with nothing pending. */
  ghost predicate IsApplying(w: World, current: Journal) {
    && current.IsValid() && current.state == Held && current.pendingCidr.None?
    && w.disk == Record(current) && !w.recoveryOnly && w.know.heldAck == Some(current.owner.reference)
  }

  lemma OwnerIsDisjoint(m: Journal)
    requires m.IsValid()
    ensures AreDisjoint(m.owner.privateCidrs) && HasNoDuplicates(m.owner.privateCidrs)
  {
  }

  lemma NextCidr(m: Journal, i: nat)
    requires m.IsValid() && i < |m.owner.privateCidrs|
    ensures var cidrs := m.owner.privateCidrs;
            && cidrs[i] in cidrs && cidrs[i] !in cidrs[..i] && cidrs[i].prefix > 0
            && cidrs[..i + 1] == cidrs[..i] + [cidrs[i]] && |cidrs[..i]| < |cidrs|
  {
    assert IsValidCidr(m.owner.privateCidrs[i]);
  }

  lemma AppendedIsValid(m: Journal, cidr: RouteNetwork)
    requires m.IsValid() && m.state == Held && m.pendingCidr.None?
    requires cidr in m.owner.privateCidrs && cidr !in m.appliedCidrs && |m.appliedCidrs| < |m.owner.privateCidrs|
    ensures m.(appliedCidrs := m.appliedCidrs + [cidr]).IsValid()
  {
  }

  lemma {:induction false} RoutesOfAppended(owner: JournalOwner, cidrs: seq<RouteNetwork>, cidr: RouteNetwork)
    ensures RoutesOf(owner, cidrs + [cidr]) == RoutesOf(owner, cidrs) + multiset{owner.Route(cidr)}
    ensures RoutesOf(owner, [cidr]) == multiset{owner.Route(cidr)}
  {
    hide RoutesOf;
    NoRoutesOfNone(owner);
    RoutesOfPrepended(owner, cidr, []);
    assert [cidr] + [] == [cidr];
    if cidrs == [] {
      assert cidrs + [cidr] == [cidr];
    } else {
      RoutesOfAppended(owner, cidrs[1..], cidr);
      RoutesOfPrepended(owner, cidrs[0], cidrs[1..]);
      RoutesOfPrepended(owner, cidrs[0], cidrs[1..] + [cidr]);
      assert [cidrs[0]] + cidrs[1..] == cidrs && [cidrs[0]] + (cidrs[1..] + [cidr]) == cidrs + [cidr];
    }
  }

  lemma {:induction false} RoutesOfContains(owner: JournalOwner, cidrs: seq<RouteNetwork>, e: RouteEntry)
    ensures e in RoutesOf(owner, cidrs) <==> e == owner.Route(e.network) && e.network in cidrs
  {
    if cidrs != [] {
      RoutesOfContains(owner, cidrs[1..], e);
    }
  }

  /** One more route beside those added so far. */
  lemma AnotherRouteAdded(w: World, w1: World, w2: World, m: Mishaps, m1: Mishaps, m2: Mishaps,
                          owner: JournalOwner, i: nat, done: bool)
    requires i < |owner.privateCidrs| && HasNoDuplicates(owner.privateCidrs) && owner.privateCidrs[i].prefix > 0
    requires Tallied(m, m1) && Tallied(m1, m2)
    requires LeaseAdded(w, w1, m, m1, owner, owner.privateCidrs[..i], true)
    requires RoutesAdded(w1, w2, m1, m2, owner, [owner.privateCidrs[i]], done)
    ensures LeaseAdded(w, w2, m, m2, owner, if done then owner.privateCidrs[..i + 1] else owner.privateCidrs, done)
  {
    var cidr := owner.privateCidrs[i];
    assert owner.privateCidrs[..i + 1] == owner.privateCidrs[..i] + [cidr];
    RoutesOfAppended(owner, owner.privateCidrs[..i], cidr);
    RoutesOfContains(owner, owner.privateCidrs[..i], owner.Route(cidr));
    if m2 == m && IsAvailable(w.table, owner) {
      AvailableIsClear(w.table, owner, cidr);
      assert owner.Route(cidr) !in w1.table;
      assert m1 == m;
    }
  }

  ghost predicate LeaseAdded(w: World, w': World, before: Mishaps, after: Mishaps,
                             owner: JournalOwner, cidrs: seq<RouteNetwork>, done: bool) {
    && (done && after.meddling == before.meddling ==> w'.table == w.table + RoutesOf(owner, cidrs))
    && (after == before && IsAvailable(w.table, owner) ==> done && IsClear(w'.table, owner, owner.privateCidrs))
  }

  lemma NoRouteAdded(w: World, m: Mishaps, owner: JournalOwner)
    ensures LeaseAdded(w, w, m, m, owner, owner.privateCidrs[..0], true)
  {
  }

  lemma AvailableIsClear(table: multiset<RouteEntry>, owner: JournalOwner, cidr: RouteNetwork)
    requires IsAvailable(table, owner) && cidr in owner.privateCidrs
    ensures IsClear(table, owner, owner.privateCidrs)
    ensures cidr.prefix > 0 ==> owner.Route(cidr) !in table
  {
    if cidr.prefix > 0 {
      NotOwnedMeansAbsent(table, owner, cidr);
    }
  }

  ghost predicate Leads(w: World, reference: RouteBinding, connectionId: ConnectionId) {
    && connectionId in w.registered && w.activeConnection == Some(connectionId)
    && w.journal.Some? && w.journal.value.owner.reference == reference && w.journal.value.state in {Held, Applied}
  }

  ghost predicate MayApply(w: World, reference: RouteBinding, connectionId: ConnectionId) {
    Leads(w, reference, connectionId) && !w.recoveryOnly
  }

  ghost predicate Owns(w: World, owner: LeaseOwner, connectionId: ConnectionId) {
    connectionId in w.registered && w.journal.Some? && w.journal.value.owner.AsOwner() == owner
  }
}
