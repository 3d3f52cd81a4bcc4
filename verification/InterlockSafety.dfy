/**
 Safety of the interlock over every run: each step keeps the invariant, so no helper route is
 ever in the table without its durable record and the broker's hold, and no hold is orphaned.
 */
module InterlockSafety {
  import opened Wrappers
  import opened RouteBindings
  import opened RouteNetworks
  import opened RouteJournal
  import opened SessionLease
  import opened Interlock
  import Broker
  import BrokerRuns

  // ----- the broker's part -----

  lemma FencesSurvive(s: Broker.System, move: Broker.Label)
    requires Broker.Inv(s) && Broker.Enabled(s, move)
    ensures forall b | BrokerRuns.Fenced(s.core, b) :: BrokerRuns.Fenced(Broker.Next(s, move).core, b)
  {
    forall b | BrokerRuns.Fenced(s.core, b)
      ensures BrokerRuns.Fenced(Broker.Next(s, move).core, b)
    {
      BrokerRuns.FenceSurvivesSection(s, move, b);
    }
  }

  /** Only the helper's own v3 calls change which tuple is held. */
  lemma OtherMovesKeepTheHold(s: Broker.System, move: Broker.Label)
    requires Broker.Inv(s) && Broker.Enabled(s, move)
    requires !move.HoldV3Call? && !move.ReleaseV3FirstSection? && !move.StatusV3Call?
    ensures BrokerRuns.HeldBinding(Broker.Next(s, move).core) == BrokerRuns.HeldBinding(s.core)
  {
    Broker.SectionAdvances(s, move);
    match move {
      case LegacyHoldCall(b) =>
        if s.core.active.Some? {
          RefusalsChangeNothing(s.core.active.value.lease, b, RouteBinding(0, 0, 0, "", "", ""));
        }
      case ReapSucceeded(reap) =>
        Broker.SecondSectionAdvances(s.core, s.nextReap, reap);
      case _ =>
    }
  }

  ghost predicate Follows(s: Broker.System, s': Broker.System) {
    && Broker.Inv(s')
    && s.nextReap <= s'.nextReap
    && forall b | BrokerRuns.Fenced(s.core, b) :: BrokerRuns.Fenced(s'.core, b)
  }

  /** The broker may move on its own as long as the hold stays. */
  lemma BrokerChangeKeepsInv(w: World, s': Broker.System)
    requires Inv(w) && Follows(w.broker, s')
    requires BrokerRuns.HeldBinding(s'.core) == BrokerRuns.HeldBinding(w.broker.core)
    ensures Inv(w.(broker := s'))
  {
    var w' := w.(broker := s');
    assert HeldTuple(w') == HeldTuple(w);
    assert forall b | Fenced(w, b) :: Fenced(w', b);
    assert Safe(w');
    assert RequestsInv(w');
    assert TransportInv(w');
    assert WaitingInv(w');
    assert LeaseInv(w');
    assert KnowledgeInv(w');
  }

  lemma ReplyKeepsTransport(w: World, q: Request, reply: Broker.Reply)
    requires TransportInv(w) && q.id < w.nextRequest && q !in w.inFlight && ReplyInv(w, q, reply)
    ensures TransportInv(w.(replies := w.replies[q := reply]))
  {
    hide BrokerRuns.Fenced;
  }

  lemma ReplyKeepsInv(w: World, q: Request, reply: Broker.Reply)
    requires Inv(w) && q.id < w.nextRequest && q !in w.inFlight && ReplyInv(w, q, reply)
    requires q.kind == HoldRequest && w.waiting == Some(q) ==>
               && (reply.error.None? ==> HeldTuple(w) == Some(q.binding))
               && (AnswerOf(q.kind, reply) == AnsweredRejected ==> TupleIsQuiet(w, q.binding))
    ensures Inv(w.(replies := w.replies[q := reply]))
  {
    hide Broker.Inv, BrokerRuns.Fenced, AnswerOf, Journal.IsTidy, Journal.Names, TransportInv;
    var w' := w.(replies := w.replies[q := reply]);
    ReplyKeepsTransport(w, q, reply);
    assert Safe(w') && RequestsInv(w');
    assert WaitingInv(w');
    assert KnowledgeInv(w') && LeaseInv(w');
  }

  lemma BrokerMoveKeepsInv(w: World, move: Broker.Label)
    requires Inv(w) && Enabled(w, BrokerMoves(move))
    ensures Inv(Next(w, BrokerMoves(move)))
  {
    Broker.NextKeepsInv(w.broker, move);
    FencesSurvive(w.broker, move);
    OtherMovesKeepTheHold(w.broker, move);
    var w' := w.(broker := Broker.Next(w.broker, move));
    BrokerChangeKeepsInv(w, w'.broker);
    if move.ReapSucceeded? && move.reap.id in w.reaping {
      ReplyKeepsInv(w', w.reaping[move.reap.id], Broker.Reply(Broker.Idle, None));
    } else if move.ReapFailed? && move.reap.id in w.reaping {
      ReplyKeepsInv(w', w.reaping[move.reap.id], Broker.Reply(Broker.Running, Some(Unavailable)));
    }
  }

  // ----- delivering the helper's requests -----

  lemma LossKeepsInv(w: World, q: Request)
    requires Inv(w)
    ensures Inv(w.(inFlight := w.inFlight - {q}))
  {
    var w' := w.(inFlight := w.inFlight - {q});
    assert Safe(w') && RequestsInv(w');
    assert TransportInv(w');
    assert WaitingInv(w');
    assert KnowledgeInv(w') && LeaseInv(w');
  }

  lemma StatusDeliveryKeepsInv(w: World, q: Request)
    requires Inv(w) && q in w.inFlight && q.kind == StatusRequest
    ensures Inv(Next(w, Deliver(q)))
  {
    var move := BrokerCall(q);
    Broker.NextKeepsInv(w.broker, move);
    FencesSurvive(w.broker, move);
    LossKeepsInv(w, q);
    var w1 := w.(inFlight := w.inFlight - {q});
    BrokerChangeKeepsInv(w1, Broker.Next(w.broker, move));
    var w2 := w1.(broker := Broker.Next(w.broker, move));
    ReplyKeepsInv(w2, q, w.broker.core.StatusV3(q.binding).1);
  }

  /** A hold that is refused changes nothing; the tuple it names is then quiet if it was waited for. */
  lemma RefusedHoldKeepsInv(w: World, q: Request)
    requires Inv(w) && q in w.inFlight && q.kind == HoldRequest
    requires w.broker.core.HoldV3(q.binding).1.error.Some?
    ensures Inv(Next(w, Deliver(q)))
  {
    var core := w.broker.core;
    assert core.HoldV3(q.binding).0 == core;
    assert Broker.Next(w.broker, BrokerCall(q)) == w.broker;
    LossKeepsInv(w, q);
    ReplyKeepsInv(w.(inFlight := w.inFlight - {q}), q, core.HoldV3(q.binding).1);
  }

  /** The broker comes to hold the tuple on disk. */
  lemma GrantKeepsInv(w: World, s': Broker.System, b: RouteBinding)
    requires Inv(w) && Follows(w.broker, s')
    requires HeldTuple(w) in {None, Some(b)} && BrokerRuns.HeldBinding(s'.core) == Some(b)
    requires OnDisk(w, b) && w.journal.Some? && w.know.begun.None?
    requires w.know.refused != Some(b) && w.disk.journal.state != Released
    requires w.waiting.Some? && w.waiting.value.kind == HoldRequest && w.waiting.value in w.replies ==>
               w.waiting.value.binding != b || HeldTuple(w) == Some(b)
    ensures Inv(w.(broker := s'))
  {
    var w' := w.(broker := s');
    assert HeldTuple(w') == Some(b);
    assert forall c | Fenced(w, c) :: Fenced(w', c);
    assert Safe(w');
    assert RequestsInv(w');
    assert TransportInv(w');
    assert KnowledgeInv(w');
    assert WaitingInv(w');
    assert LeaseInv(w');
  }

  lemma GrantedHoldKeepsInv(w: World, q: Request)
    requires Inv(w) && q in w.inFlight && q.kind == HoldRequest
    requires w.broker.core.HoldV3(q.binding).1.error.None?
    ensures Inv(Next(w, Deliver(q)))
  {
    var core := w.broker.core;
    if Fenced(w, q.binding) {
      BrokerRuns.FencedHoldIsRefused(core, q.binding);
    }
    var move := BrokerCall(q);
    Broker.NextKeepsInv(w.broker, move);
    FencesSurvive(w.broker, move);
    LossKeepsInv(w, q);
    var w1 := w.(inFlight := w.inFlight - {q});
    GrantKeepsInv(w1, Broker.Next(w.broker, move), q.binding);
    ReplyKeepsInv(w1.(broker := Broker.Next(w.broker, move)), q, core.HoldV3(q.binding).1);
  }

  lemma ReapingKeepsInv(w: World, id: nat, q: Request)
    requires Inv(w) && id < w.broker.nextReap
    requires q.id < w.nextRequest && q !in w.inFlight && q.kind == ReleaseRequest && Fenced(w, q.binding)
    ensures Inv(w.(reaping := w.reaping[id := q]))
  {
    var w' := w.(reaping := w.reaping[id := q]);
    assert TransportInv(w');
    assert WaitingInv(w') && KnowledgeInv(w') && LeaseInv(w');
  }

  /** The broker drops the hold on a tuple that names no route any more. */
  lemma DroppedHoldKeepsInv(w: World, s': Broker.System, b: RouteBinding)
    requires Inv(w) && Follows(w.broker, s')
    requires HeldTuple(w) == Some(b) && BrokerRuns.HeldBinding(s'.core).None? && BrokerRuns.Fenced(s'.core, b)
    requires OnDisk(w, b) && w.disk.journal.state == RetirementPending
    ensures Inv(w.(broker := s'))
  {
    var w' := w.(broker := s');
    assert HeldTuple(w').None? && w.added == {};
    assert forall c | Fenced(w, c) :: Fenced(w', c);
    assert Safe(w') && RequestsInv(w');
    assert TransportInv(w');
    assert KnowledgeInv(w');
    assert WaitingInv(w');
    assert LeaseInv(w');
  }

  lemma ReleaseSectionKeepsInv(w: World, b: RouteBinding)
    requires Inv(w)
    requires Fenced(w, b) || (OnDisk(w, b) && w.disk.journal.state == RetirementPending)
    ensures Inv(w.(broker := Broker.Next(w.broker, Broker.ReleaseV3FirstSection(b))))
  {
    hide Safe, KnowledgeInv, LeaseInv;
    var move := Broker.ReleaseV3FirstSection(b);
    Broker.NextKeepsInv(w.broker, move);
    FencesSurvive(w.broker, move);
    var section := w.broker.core.ReleaseV3First(b).1;
    if section.Done? && section.reply.error.Some? {
    } else {
      BrokerRuns.AcceptedReleaseFences(w.broker.core, b);
      if HeldTuple(w) == Some(b) {
        if Fenced(w, b) {
          BrokerRuns.FencedHoldIsRefused(w.broker.core, b);
        }
        DroppedHoldKeepsInv(w, Broker.Next(w.broker, move), b);
      } else {
        BrokerChangeKeepsInv(w, Broker.Next(w.broker, move));
      }
    }
  }

  /** An accepted release finds the record at RetirementPending, hence no route, or a fenced tuple. */
  lemma ReleaseDeliveryKeepsInv(w: World, q: Request)
    requires Inv(w) && q in w.inFlight && q.kind == ReleaseRequest
    ensures Inv(Next(w, Deliver(q)))
  {
    LossKeepsInv(w, q);
    var w1 := w.(inFlight := w.inFlight - {q});
    ReleaseSectionKeepsInv(w1, q.binding);
    var w2 := w1.(broker := Broker.Next(w.broker, BrokerCall(q)));
    var section := w.broker.core.ReleaseV3First(q.binding).1;
    if section.MustReap? || section.reply.error.None? {
      BrokerRuns.AcceptedReleaseFences(w.broker.core, q.binding);
    }
    if section.Done? {
      ReplyKeepsInv(w2, q, section.reply);
    } else {
      ReapingKeepsInv(w2, w.broker.nextReap, q);
    }
  }

  lemma DeliveryKeepsInv(w: World, q: Request)
    requires Inv(w) && q in w.inFlight
    ensures Inv(Next(w, Deliver(q)))
  {
    match q.kind {
      case HoldRequest =>
        if w.broker.core.HoldV3(q.binding).1.error.Some? {
          RefusedHoldKeepsInv(w, q);
        } else {
          GrantedHoldKeepsInv(w, q);
        }
      case ReleaseRequest => ReleaseDeliveryKeepsInv(w, q);
      case StatusRequest => StatusDeliveryKeepsInv(w, q);
    }
  }

  // ----- the route table -----

  lemma ForeignRouteKeepsInv(w: World, e: RouteEntry)
    requires Inv(w)
    ensures Inv(w.(table := w.table + multiset{e}))
  {
    var w' := w.(table := w.table + multiset{e});
    assert Safe(w') && RequestsInv(w');
    assert WaitingInv(w') && KnowledgeInv(w') && LeaseInv(w');
  }

  lemma RemovalKeepsInv(w: World, e: RouteEntry)
    requires Inv(w)
    ensures Inv(WithoutRoute(w, e))
  {
    var w' := WithoutRoute(w, e);
    assert w'.added <= w.added;
    assert Safe(w') && RequestsInv(w');
    assert TransportInv(w');
    assert WaitingInv(w') && KnowledgeInv(w') && LeaseInv(w');
  }

  /** A route goes in only under its mark on disk and the acknowledged, still recorded hold. */
  lemma AddKeepsInv(w: World, cidr: RouteNetwork, took: bool)
    requires Inv(w) && Enabled(w, AddRoute(cidr, took))
    ensures Inv(Next(w, AddRoute(cidr, took)))
  {
    var w' := Next(w, AddRoute(cidr, took));
    assert HeldTuple(w) == Some(w.disk.journal.owner.reference);
    assert Safe(w') && RequestsInv(w');
    assert TransportInv(w') && WaitingInv(w');
    assert KnowledgeInv(w') && LeaseInv(w');
  }

  // ----- the helper's store, messages and memory -----

  lemma CrashKeepsInv(w: World)
    requires Inv(w)
    ensures Inv(Next(w, Crash))
  {
    var w' := Next(w, Crash);
    assert Safe(w') && RequestsInv(w');
    assert TransportInv(w') && WaitingInv(w');
    assert LeaseInv(w') && KnowledgeInv(w');
  }

  lemma FirstWriteKeepsInv(w: World, record: Journal, landed: bool, ok: bool)
    requires Inv(w) && Enabled(w, Write(record, landed, ok)) && w.journal.None?
    ensures Inv(Next(w, Write(record, landed, ok)))
  {
    var w' := Next(w, Write(record, landed, ok));
    ValidIsTidy(record);
    assert Safe(w') && RequestsInv(w');
    assert TransportInv(w') && WaitingInv(w');
    assert LeaseInv(w');
    assert KnowledgeInv(w');
  }

  lemma LaterWriteKeepsInv(w: World, record: Journal, landed: bool, ok: bool)
    requires Inv(w) && Enabled(w, Write(record, landed, ok)) && w.journal.Some?
    ensures Inv(Next(w, Write(record, landed, ok)))
  {
    hide Safe, Journal.IsValid;
    var w' := Next(w, Write(record, landed, ok));
    LaterWriteKeepsSafe(w, record, landed, ok);
    ValidIsTidy(record);
    assert RequestsInv(w') && TransportInv(w') && WaitingInv(w');
    assert LeaseInv(w');
  }

  lemma LaterWriteKeepsSafe(w: World, record: Journal, landed: bool, ok: bool)
    requires Inv(w) && Enabled(w, Write(record, landed, ok)) && w.journal.Some?
    ensures Safe(Next(w, Write(record, landed, ok))) && KnowledgeInv(Next(w, Write(record, landed, ok)))
  {
    hide Broker.Inv, RequestsInv, TransportInv, WaitingInv, BrokerRuns.Fenced;
    forall e | e in w.added
      ensures landed ==> record.Names(e.network)
    {
      assert e.network in w.disk.journal.owner.privateCidrs;
    }
  }

  lemma UnlinkKeepsInv(w: World, gone: bool, ok: bool)
    requires Inv(w) && Enabled(w, Unlink(gone, ok))
    ensures Inv(Next(w, Unlink(gone, ok)))
  {
    hide Broker.Inv, BrokerRuns.Fenced, AnswerOf, Journal.IsTidy;
    var w' := Next(w, Unlink(gone, ok));
    assert Safe(w') && RequestsInv(w');
    assert TransportInv(w') && WaitingInv(w');
    assert LeaseInv(w') && KnowledgeInv(w');
  }

  lemma SendKeepsInv(w: World, kind: RequestKind)
    requires Inv(w) && Enabled(w, Send(kind))
    ensures Inv(Next(w, Send(kind)))
  {
    hide Broker.Inv, BrokerRuns.Fenced, AnswerOf, Journal.IsTidy, Journal.Names, WaitingInv;
    var w' := Next(w, Send(kind));
    SendKeepsKnowledge(w, kind);
    assert Safe(w') && RequestsInv(w');
    assert TransportInv(w');
    assert LeaseInv(w');
  }

  lemma SendKeepsKnowledge(w: World, kind: RequestKind)
    requires Inv(w) && Enabled(w, Send(kind))
    ensures WaitingInv(Next(w, Send(kind))) && KnowledgeInv(Next(w, Send(kind)))
  {
    hide Broker.Inv, Safe, BrokerRuns.Fenced;
  }

  lemma ReceiveKeepsInv(w: World)
    requires Inv(w) && Enabled(w, Receive)
    ensures Inv(Next(w, Receive))
  {
    hide Broker.Inv, KnowledgeInv, AnswerOf, BrokerRuns.Fenced;
    var w' := Next(w, Receive);
    ReceiveKeepsKnowledge(w);
    assert Safe(w') && RequestsInv(w');
    assert TransportInv(w') && WaitingInv(w') && LeaseInv(w');
  }

  lemma ReceiveKeepsKnowledge(w: World)
    requires Inv(w) && Enabled(w, Receive)
    ensures KnowledgeInv(Next(w, Receive))
  {
    hide Broker.Inv, Safe, RequestsInv, LeaseInv, BrokerRuns.Fenced, Journal.IsTidy, Journal.Names;
  }

  lemma GiveUpKeepsInv(w: World)
    requires Inv(w) && Enabled(w, GiveUp)
    ensures Inv(Next(w, GiveUp))
  {
    hide Broker.Inv, BrokerRuns.Fenced, AnswerOf, Journal.IsTidy, Journal.Names;
    var w' := Next(w, GiveUp);
    assert Safe(w') && RequestsInv(w');
    assert TransportInv(w') && WaitingInv(w') && LeaseInv(w');
    assert KnowledgeInv(w');
  }

  lemma SightingKeepsInv(w: World, cidr: RouteNetwork)
    requires Inv(w) && Enabled(w, SeeAbsent(cidr))
    ensures Inv(Next(w, SeeAbsent(cidr)))
  {
    hide Broker.Inv, BrokerRuns.Fenced, AnswerOf, Journal.IsTidy, Journal.Names;
    var w' := Next(w, SeeAbsent(cidr));
    assert Safe(w') && RequestsInv(w');
    assert TransportInv(w') && WaitingInv(w') && LeaseInv(w');
    assert KnowledgeInv(w');
  }

  lemma RememberKeepsInv(w: World, l: Label)
    requires Inv(w) && l.Remember? && Enabled(w, l)
    ensures Inv(Next(w, l))
  {
    hide Broker.Inv, BrokerRuns.Fenced, Journal.IsTidy, Journal.Names, AnswerOf;
    var w' := Next(w, l);
    assert Safe(w') && RequestsInv(w');
    assert TransportInv(w') && WaitingInv(w');
    assert LeaseInv(w');
    assert KnowledgeInv(w');
  }

  lemma StepKeepsInv(w: World, l: Label)
    requires Inv(w) && Enabled(w, l)
    ensures Inv(Next(w, l))
  {
    hide Broker.Inv, Broker.Next, Broker.Enabled, Safe, RequestsInv, TransportInv, KnowledgeInv, WaitingInv, LeaseInv;
    match l {
      case BrokerMoves(move) => BrokerMoveKeepsInv(w, move);
      case Deliver(request) => DeliveryKeepsInv(w, request);
      case Lose(request) => LossKeepsInv(w, request);
      case ForeignAdd(entry) => ForeignRouteKeepsInv(w, entry);
      case ForeignRemove(entry) => RemovalKeepsInv(w, entry);
      case Crash => CrashKeepsInv(w);
      case Send(kind) => SendKeepsInv(w, kind);
      case Receive => ReceiveKeepsInv(w);
      case GiveUp => GiveUpKeepsInv(w);
      case Write(record, landed, ok) =>
        if w.journal.None? {
          FirstWriteKeepsInv(w, record, landed, ok);
        } else {
          LaterWriteKeepsInv(w, record, landed, ok);
        }
      case Unlink(gone, ok) => UnlinkKeepsInv(w, gone, ok);
      case AddRoute(cidr, took) => AddKeepsInv(w, cidr, took);
      case DeleteRoute(cidr, took) => RemovalKeepsInv(w, w.disk.journal.owner.Route(cidr));
      case SeeAbsent(cidr) => SightingKeepsInv(w, cidr);
      case Remember(_, _, _, _) => RememberKeepsInv(w, l);
    }
  }
}
