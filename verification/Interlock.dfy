/**
 The route helper, the tunnel broker, the transport between them, the durable store and the
 system route table as one labelled transition system. Helper steps are the atomic actions of
 its code, each allowed only by what the helper itself knows; every other step is the
 environment's. A request may be delivered late or lost, a reply may be lost, a write or unlink
 may report failure and still have landed, a route command may fail and still have taken effect,
 and the helper may die between any two steps while the broker lives on.
 */
module Interlock {
  import opened Wrappers
  import opened RouteBindings
  import opened RouteNetworks
  import opened RouteJournal
  import opened SessionLease
  import Broker
  import BrokerRuns

  datatype Disk = Absent | Record(journal: Journal) | Garbage

  datatype RequestKind = HoldRequest | ReleaseRequest | StatusRequest

  datatype Request = Request(id: nat, kind: RequestKind, binding: RouteBinding)

  /** What the helper makes of the broker's answer. */
  datatype Answer = AnsweredHeld | AnsweredReleased | AnsweredIdle | AnsweredRunning | AnsweredRejected | AnsweredAmbiguous

  /** What the running helper process has learned; lost when it dies. */
  datatype Knowledge = Knowledge(
    begun: Option<RouteBinding>,
    heldAck: Option<RouteBinding>,
    refused: Option<RouteBinding>,
    releasedAck: Option<RouteBinding>,
    absent: set<RouteNetwork>)

  const NOTHING_KNOWN := Knowledge(None, None, None, None, {})

  datatype World = World(
    // the durable store
    disk: Disk,
    // the helper process: the store's cached record, the coordinator's fields, what it has learned
    cached: Option<Journal>,
    journal: Option<Journal>,
    activeConnection: Option<ConnectionId>,
    registered: set<ConnectionId>,
    recoveryOnly: bool,
    know: Knowledge,
    waiting: Option<Request>,
    // the route table, and which of its rows the helper added
    table: multiset<RouteEntry>,
    added: set<RouteEntry>,
    // the broker and the transport
    broker: Broker.System,
    inFlight: set<Request>,
    reaping: map<nat, Request>,
    replies: map<Request, Broker.Reply>,
    nextRequest: nat)

  datatype Label =
    // environment
    | BrokerMoves(move: Broker.Label)
    | Deliver(request: Request)
    | Lose(request: Request)
    | ForeignAdd(entry: RouteEntry)
    | ForeignRemove(entry: RouteEntry)
    | Crash
    // helper
    | Send(kind: RequestKind)
    | Receive
    | GiveUp
    | Write(record: Journal, landed: bool, ok: bool)
    | Unlink(gone: bool, ok: bool)
    | AddRoute(cidr: RouteNetwork, took: bool)
    | DeleteRoute(cidr: RouteNetwork, took: bool)
    | SeeAbsent(cidr: RouteNetwork)
    | Remember(journal: Option<Journal>, activeConnection: Option<ConnectionId>,
               registered: set<ConnectionId>, recoveryOnly: bool)

  // ----- the broker's answers -----

  /** Error codes that prove the broker did not do what was asked. */
  predicate IsRejection(error: ErrorCode) {
    !error.Unavailable? && !error.AlreadyRunning?
  }

  function AnswerOf(kind: RequestKind, reply: Broker.Reply): Answer {
    if reply.error.Some? then
      if kind != StatusRequest && IsRejection(reply.error.value) then AnsweredRejected else AnsweredAmbiguous
    else match kind
      case HoldRequest => if reply.status.RouteHeld? then AnsweredHeld else AnsweredRejected
      case ReleaseRequest => if reply.status.RouteHeld? then AnsweredRejected else AnsweredReleased
      case StatusRequest =>
        match reply.status
        case Idle => AnsweredIdle
        case Running => AnsweredRunning
        case RouteHeld => AnsweredHeld
  }

  function HeldTuple(w: World): Option<RouteBinding> {
    if w.broker.core.active.Some? then w.broker.core.active.value.lease.routeBinding else None
  }

  // ----- steps -----

  function BrokerCall(q: Request): Broker.Label {
    match q.kind
    case HoldRequest => Broker.HoldV3Call(q.binding)
    case ReleaseRequest => Broker.ReleaseV3FirstSection(q.binding)
    case StatusRequest => Broker.StatusV3Call(q.binding)
  }

  /** The broker runs its section for `q`; a release that must reap answers later. */
  function Delivered(w: World, q: Request): World {
    var core := w.broker.core;
    var w' := w.(inFlight := w.inFlight - {q}, broker := Broker.Next(w.broker, BrokerCall(q)));
    match q.kind
    case HoldRequest => w'.(replies := w.replies[q := core.HoldV3(q.binding).1])
    case StatusRequest => w'.(replies := w.replies[q := core.StatusV3(q.binding).1])
    case ReleaseRequest =>
      var section := core.ReleaseV3First(q.binding).1;
      if section.Done? then w'.(replies := w.replies[q := section.reply])
      else w'.(reaping := w.reaping[w.broker.nextReap := q])
  }

  function BrokerMoved(w: World, move: Broker.Label): World {
    var w' := w.(broker := Broker.Next(w.broker, move));
    if move.ReapSucceeded? && move.reap.id in w.reaping then
      w'.(replies := w.replies[w.reaping[move.reap.id] := Broker.Reply(Broker.Idle, None)])
    else if move.ReapFailed? && move.reap.id in w.reaping then
      w'.(replies := w.replies[w.reaping[move.reap.id] := Broker.Reply(Broker.Running, Some(Unavailable))])
    else w'
  }

  function WithoutRoute(w: World, e: RouteEntry): World {
    var table := w.table - multiset{e};
    w.(table := table, added := if e in table then w.added else w.added - {e})
  }

  function Restarted(w: World): World {
    var loaded := if w.disk.Record? then Some(w.disk.journal) else None;
    w.(cached := loaded, journal := loaded, activeConnection := None, registered := {},
       recoveryOnly := w.disk.Garbage?, know := NOTHING_KNOWN, waiting := None)
  }

  function Learned(know: Knowledge, q: Request, answer: Answer): Knowledge {
    match answer
    case AnsweredHeld => if q.kind == HoldRequest then know.(heldAck := Some(q.binding)) else know
    case AnsweredRejected => if q.kind == HoldRequest then know.(refused := Some(q.binding)) else know
    case AnsweredReleased => know.(releasedAck := Some(q.binding))
    case _ => know
  }

  /** A lease begun or forgotten starts its knowledge anew. */
  function KnownAfter(know: Knowledge, before: Option<Journal>, after: Option<Journal>): Knowledge {
    if after.None? then NOTHING_KNOWN
    else if before.None? then NOTHING_KNOWN.(begun := Some(after.value.owner.reference))
    else know
  }

  predicate Enabled(w: World, l: Label) {
    match l
    case BrokerMoves(move) =>
      && !move.HoldV3Call? && !move.ReleaseV3FirstSection? && !move.StatusV3Call?
      && Broker.Enabled(w.broker, move)
    case Deliver(request) => request in w.inFlight
    case Lose(request) => request in w.inFlight
    case ForeignAdd(_) => true
    case ForeignRemove(_) => true
    case Crash => true
    case Send(kind) => w.waiting.None? && w.journal.Some? && MaySend(w, kind, w.journal.value)
    case Receive => w.waiting.Some? && w.waiting.value in w.replies
    case GiveUp => w.waiting.Some?
    case Write(record, landed, ok) => w.waiting.None? && (ok ==> landed) && record.IsValid() && MayWrite(w, record)
    case Unlink(gone, ok) => w.waiting.None? && (ok ==> gone) && MayUnlink(w)
    case AddRoute(cidr, took) => w.waiting.None? && MayAdd(w, cidr)
    case DeleteRoute(cidr, took) => w.waiting.None? && Marked(w, cidr)
    case SeeAbsent(cidr) => w.journal.Some? && w.journal.value.owner.Route(cidr) !in w.table
    case Remember(journal, activeConnection, registered, recoveryOnly) =>
      && w.waiting.None?
      && (w.recoveryOnly && !recoveryOnly ==> w.journal.Some? && journal.None?)
      && MayRemember(w, journal)
  }

  /** Ask for a hold once, for a lease begun here; ask for a release once nothing can be left. */
  predicate MaySend(w: World, kind: RequestKind, journal: Journal) {
    match kind
    case HoldRequest =>
      && !w.recoveryOnly && w.disk == Record(journal) && journal.state == HoldPending
      && w.know.begun == Some(journal.owner.reference)
    case ReleaseRequest =>
      || w.know.releasedAck == Some(journal.owner.reference)
      || (w.disk.Record? && w.disk.journal.owner == journal.owner && w.disk.journal.state == RetirementPending)
    case StatusRequest => true
  }

  /** Drop a CIDR from the record only after seeing it absent; record Released only once acknowledged. */
  predicate MayWrite(w: World, record: Journal) {
    if w.journal.None? then
      !w.recoveryOnly && record.state == HoldPending
    else
      && record.owner == w.journal.value.owner
      && (record.state == Released ==> w.know.releasedAck == Some(record.owner.reference))
      && (w.disk.Record? ==>
            && (w.disk.journal.state in {RetirementPending, Released} ==> record.state in {RetirementPending, Released})
            && forall cidr | cidr in w.disk.journal.owner.privateCidrs ::
                 w.disk.journal.Names(cidr) ==> record.Names(cidr) || cidr in w.know.absent)
  }

  predicate MayUnlink(w: World) {
    && w.journal.Some? && w.disk.Record? && w.disk.journal.owner == w.journal.value.owner
    && (w.disk.journal.state == Released
        || (w.disk.journal.state == HoldPending && w.know.refused == Some(w.disk.journal.owner.reference)))
  }

  /** Add a route only under a hold acknowledged to this process, with the route's mark on disk. */
  predicate MayAdd(w: World, cidr: RouteNetwork) {
    && !w.recoveryOnly && w.journal.Some? && w.disk.Record? && w.disk.journal.owner == w.journal.value.owner
    && w.disk.journal.state == Held && w.disk.journal.pendingCidr == Some(cidr)
    && w.know.heldAck == Some(w.disk.journal.owner.reference)
  }

  predicate Marked(w: World, cidr: RouteNetwork) {
    && w.journal.Some? && w.disk.Record? && w.disk.journal.owner == w.journal.value.owner
    && w.disk.journal.pendingCidr == Some(cidr)
  }

  predicate MayRemember(w: World, journal: Option<Journal>) {
    match (w.journal, journal)
    case (None, None) => true
    case (None, Some(j)) => w.disk == Record(j) && j.state == HoldPending
    case (Some(_), None) => w.disk == Absent
    case (Some(m), Some(j)) => j.owner == m.owner
  }

  function Next(w: World, l: Label): World
    requires Enabled(w, l)
  {
    match l
    case BrokerMoves(move) => BrokerMoved(w, move)
    case Deliver(request) => Delivered(w, request)
    case Lose(request) => w.(inFlight := w.inFlight - {request})
    case ForeignAdd(entry) => w.(table := w.table + multiset{entry})
    case ForeignRemove(entry) => WithoutRoute(w, entry)
    case Crash => Restarted(w)
    case Send(kind) =>
      var q := Request(w.nextRequest, kind, w.journal.value.owner.reference);
      w.(inFlight := w.inFlight + {q}, nextRequest := w.nextRequest + 1, waiting := Some(q),
         know := if kind == StatusRequest then w.know else w.know.(begun := None, refused := None))
    case Receive =>
      var q := w.waiting.value;
      w.(waiting := None, know := Learned(w.know, q, AnswerOf(q.kind, w.replies[q])))
    case GiveUp => w.(waiting := None)
    case Write(record, landed, ok) =>
      w.(disk := if landed then Record(record) else w.disk, cached := if ok then Some(record) else w.cached)
    case Unlink(gone, ok) =>
      w.(disk := if gone then Absent else w.disk, cached := if ok then None else w.cached,
         know := w.know.(heldAck := None))
    case AddRoute(cidr, took) =>
      var e := w.disk.journal.owner.Route(cidr);
      if took then
        w.(table := w.table + multiset{e}, added := w.added + {e},
           know := w.know.(absent := w.know.absent - {cidr}))
      else w
    case DeleteRoute(cidr, took) =>
      if took then WithoutRoute(w, w.disk.journal.owner.Route(cidr)) else w
    case SeeAbsent(cidr) => w.(know := w.know.(absent := w.know.absent + {cidr}))
    case Remember(journal, activeConnection, registered, recoveryOnly) =>
      w.(journal := journal, activeConnection := activeConnection, registered := registered,
         recoveryOnly := recoveryOnly,
         know := KnownAfter(w.know, w.journal, journal))
  }

  predicate IsEnvironment(l: Label) {
    l.BrokerMoves? || l.Deliver? || l.Lose? || l.ForeignAdd? || l.ForeignRemove?
  }

  /** The helper process and the store, which only the helper changes. */
  ghost predicate SameHelper(w: World, w': World) {
    && w'.disk == w.disk && w'.cached == w.cached && w'.journal == w.journal
    && w'.activeConnection == w.activeConnection && w'.registered == w.registered
    && w'.recoveryOnly == w.recoveryOnly && w'.know == w.know && w'.waiting == w.waiting
    && w'.nextRequest == w.nextRequest
  }

  lemma DeliveryLeavesHelper(w: World, q: Request)
    ensures SameHelper(w, Delivered(w, q)) && Delivered(w, q).added == w.added
  {
    var moved := Broker.Next(w.broker, BrokerCall(q));
    assert SameHelper(w, w.(inFlight := w.inFlight - {q}, broker := moved));
  }

  lemma BrokerLeavesHelper(w: World, move: Broker.Label)
    ensures SameHelper(w, BrokerMoved(w, move)) && BrokerMoved(w, move).added == w.added
  {
    var moved := Broker.Next(w.broker, move);
    assert SameHelper(w, w.(broker := moved));
  }

  lemma EnvironmentLeavesHelper(w: World, l: Label)
    requires Enabled(w, l) && IsEnvironment(l)
    ensures SameHelper(w, Next(w, l)) && Next(w, l).added <= w.added
  {
    match l {
      case BrokerMoves(move) => BrokerLeavesHelper(w, move);
      case Deliver(request) => DeliveryLeavesHelper(w, request);
      case _ =>
    }
  }

  lemma OnlyRememberingChangesFields(w: World, l: Label)
    requires Enabled(w, l) && !l.Remember? && !l.Crash?
    ensures var w' := Next(w, l);
            && w'.journal == w.journal && w'.activeConnection == w.activeConnection
            && w'.registered == w.registered && w'.recoveryOnly == w.recoveryOnly
  {
    if IsEnvironment(l) {
      EnvironmentLeavesHelper(w, l);
    }
  }

  // ----- what every state of every run satisfies -----

  ghost predicate Fenced(w: World, b: RouteBinding) {
    BrokerRuns.Fenced(w.broker.core, b)
  }

  ghost predicate OnDisk(w: World, b: RouteBinding) {
    w.disk.Record? && w.disk.journal.owner.reference == b
  }

  /** Every helper route in the table is named by the durable record, under the broker's hold of its tuple. */
  ghost predicate RoutesAreCovered(w: World) {
    forall e | e in w.added ::
      && e in w.table
      && w.disk.Record?
      && e == w.disk.journal.owner.Route(e.network)
      && w.disk.journal.Names(e.network)
      && HeldTuple(w) == Some(w.disk.journal.owner.reference)
  }

  /** Whatever v3 tuple the broker holds, a durable record of that tuple exists. */
  ghost predicate HoldIsOnDisk(w: World) {
    HeldTuple(w).Some? ==> OnDisk(w, HeldTuple(w).value)
  }

  ghost predicate Safe(w: World) {
    RoutesAreCovered(w) && HoldIsOnDisk(w)
  }

  /** Nothing is held, added, or on its way for the tuple on disk. */
  ghost predicate Quiet(w: World) {
    && HeldTuple(w).None?
    && w.added == {}
    && forall q | q in w.inFlight && q.kind != StatusRequest :: Fenced(w, q.binding)
  }

  ghost predicate TupleIsQuiet(w: World, b: RouteBinding) {
    && HeldTuple(w) != Some(b)
    && forall q | q in w.inFlight && q.kind != StatusRequest && q.binding == b :: Fenced(w, b)
  }

  ghost predicate RequestsInv(w: World) {
    && (forall q | q in w.inFlight :: q.id < w.nextRequest)
    && (forall q | q in w.inFlight && q.kind == HoldRequest :: Fenced(w, q.binding) || OnDisk(w, q.binding))
    && (forall q | q in w.inFlight && q.kind == ReleaseRequest ::
          Fenced(w, q.binding) || (OnDisk(w, q.binding) && w.disk.journal.state == RetirementPending))
  }

  ghost predicate ReplyInv(w: World, q: Request, reply: Broker.Reply) {
    && (q.kind == HoldRequest && reply.error.None? ==> HeldTuple(w) == Some(q.binding) || Fenced(w, q.binding))
    && (q.kind == ReleaseRequest && reply.error.None? ==> Fenced(w, q.binding))
  }

  ghost predicate TransportInv(w: World) {
    && (forall q | q in w.replies :: q.id < w.nextRequest && q !in w.inFlight && ReplyInv(w, q, w.replies[q]))
    && (forall id | id in w.reaping ::
          id < w.broker.nextReap && w.reaping[id].id < w.nextRequest && w.reaping[id] !in w.inFlight
          && w.reaping[id].kind == ReleaseRequest && Fenced(w, w.reaping[id].binding))
  }

  ghost predicate KnowledgeInv(w: World) {
    && (w.journal.None? ==> w.know == NOTHING_KNOWN)
    && (w.know.begun.Some? ==> w.know.heldAck.None? && Quiet(w))
    && (w.know.releasedAck.Some? ==> Fenced(w, w.know.releasedAck.value))
    && (w.know.refused.Some? ==> TupleIsQuiet(w, w.know.refused.value))
    && (w.know.heldAck.Some? ==>
          && OnDisk(w, w.know.heldAck.value)
          && (w.disk.journal.state in {HoldPending, Held, Applied} ==> HeldTuple(w) == w.know.heldAck))
    && (w.journal.Some? ==> forall cidr | cidr in w.know.absent :: w.journal.value.owner.Route(cidr) !in w.added)
  }

  /** While the helper waits for a hold, its record says HoldPending and this is the only live request. */
  ghost predicate WaitingInv(w: World) {
    && (w.waiting.Some? ==> w.journal.Some?)
    && (w.waiting.Some? && w.waiting.value.kind == HoldRequest ==> AwaitsHold(w, w.waiting.value))
  }

  ghost predicate AwaitsHold(w: World, q: Request) {
    && OnDisk(w, q.binding) && w.disk.journal.state == HoldPending
    && w.know.heldAck.None?
    && (forall r | r in w.inFlight && r.kind != StatusRequest && r.binding == q.binding && r != q :: Fenced(w, q.binding))
    && (q in w.replies && w.replies[q].error.None? ==> HeldTuple(w) == Some(q.binding))
    && (q in w.replies && AnswerOf(q.kind, w.replies[q]) == AnsweredRejected ==> TupleIsQuiet(w, q.binding))
  }

  ghost predicate LeaseInv(w: World) {
    && (w.journal.None? ==> Quiet(w))
    && (w.journal.Some? && w.disk.Record? ==> w.disk.journal.owner == w.journal.value.owner)
    && (w.journal.Some? ==> !w.disk.Garbage?)
    && (w.disk.Record? ==> w.disk.journal.IsTidy())
    && (w.disk.Record? && w.disk.journal.state == Released ==> TupleIsQuiet(w, w.disk.journal.owner.reference))
  }

  /** Only valid records reach the disk and the coordinator's memory. */
  ghost predicate RecordsInv(w: World) {
    && (w.disk.Record? ==> w.disk.journal.IsValid())
    && (w.journal.Some? ==> w.journal.value.owner.IsValid())
  }

  ghost predicate Inv(w: World) {
    && Broker.Inv(w.broker)
    && Safe(w)
    && RequestsInv(w)
    && TransportInv(w)
    && KnowledgeInv(w)
    && WaitingInv(w)
    && LeaseInv(w)
  }
}
