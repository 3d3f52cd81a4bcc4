/**
 The durable record of one v3 route lease and its macro transitions. A private CIDR is the
 network it denotes: the helper accepts only the canonical spelling of each network.
 */
module RouteJournal {
  import opened Wrappers
  import opened RouteBindings
  import opened RouteNetworks
  import Texts

  const MTU: nat := 1420
  const MAX_MIHOMO_INTERFACES := 1
  const MAX_PRIVATE_CIDRS := 64
  const UINT64_MAX: nat := 0xffff_ffff_ffff_ffff

  predicate IsValidUtunInterface(s: string) {
    && 5 <= |s| <= 15
    && s[..4] == "utun"
    && (forall i | 4 <= i < |s| :: '0' <= s[i] <= '9')
    && (|s| == 5 || s[4] != '0')
  }

  /** The accepted names are the numbered tunnel interfaces, each under its one name. */
  lemma UtunNamesAreNumbered(s: string)
    ensures IsValidUtunInterface(s) <==> |s| <= 15 && exists n: nat :: s == "utun" + Texts.Spelled(n, 10)
  {
    if IsValidUtunInterface(s) {
      Texts.SpelledOfPlain(s[4..], 10);
      assert s == s[..4] + s[4..];
    }
    if n: nat :| |s| <= 15 && s == "utun" + Texts.Spelled(n, 10) {
      DecimalIsPlain(n, s[4..]);
    }
  }

  lemma DecimalIsPlain(n: nat, digits: string)
    requires digits == Texts.Spelled(n, 10)
    ensures digits != "" && (forall i | 0 <= i < |digits| :: '0' <= digits[i] <= '9') && (|digits| == 1 || digits[0] != '0')
  {
    hide Texts.Spelled, Texts.NumberOf;
    Texts.NumberOfSpelled(n, 10);
    assert Texts.AllDigits(digits, 10);
    assert forall i | 0 <= i < |digits| :: Texts.IsDigit(digits[i], 10);
  }

  predicate HasNoDuplicates<T(==)>(s: seq<T>) {
    forall i, j | 0 <= i < j < |s| :: s[i] != s[j]
  }

  /** What a client hands over in begin and recover. */
  datatype LeaseOwner = LeaseOwner(
    reference: RouteBinding, sidecarInstanceId: string, interfaceName: string, tunnelOperationId: string,
    mtu: nat, profileRevision: nat, hasIPv4: bool, hasIPv6: bool,
    activeMihomoTunInterfaces: seq<string>, privateCidrs: seq<RouteNetwork>)
  {
    predicate IsValid() {
      && reference.IsValid()
      && sidecarInstanceId == reference.sidecarInstanceId
      && IsValidUtunInterface(interfaceName)
      && tunnelOperationId == reference.operationId + ".prepare"
      && mtu == MTU
      && 0 < profileRevision <= INT64_MAX
      && |activeMihomoTunInterfaces| <= MAX_MIHOMO_INTERFACES
      && (forall name | name in activeMihomoTunInterfaces :: IsValidUtunInterface(name))
      && interfaceName !in activeMihomoTunInterfaces
      && 0 < |privateCidrs| <= MAX_PRIVATE_CIDRS
      && HasNoDuplicates(privateCidrs)
      && (forall cidr | cidr in privateCidrs :: IsValidCidr(cidr) && (if cidr.ipv4 then hasIPv4 else hasIPv6))
      && AreDisjoint(privateCidrs)
    }

    function Recorded(): JournalOwner {
      JournalOwner(reference.(sidecarInstanceId := sidecarInstanceId), interfaceName, tunnelOperationId,
                   mtu, profileRevision, hasIPv4, hasIPv6, activeMihomoTunInterfaces, privateCidrs)
    }
  }

  /** The owner as the journal keeps it: the reference's sidecar and the owner's are one field. */
  datatype JournalOwner = JournalOwner(
    reference: RouteBinding, interfaceName: string, tunnelOperationId: string,
    mtu: nat, profileRevision: nat, hasIPv4: bool, hasIPv6: bool,
    activeMihomoTunInterfaces: seq<string>, privateCidrs: seq<RouteNetwork>)
  {
    function AsOwner(): LeaseOwner {
      LeaseOwner(reference, reference.sidecarInstanceId, interfaceName, tunnelOperationId, mtu,
                 profileRevision, hasIPv4, hasIPv6, activeMihomoTunInterfaces, privateCidrs)
    }

    predicate IsValid() {
      AsOwner().IsValid()
    }

    function Route(cidr: RouteNetwork): RouteEntry {
      RouteEntry(cidr, interfaceName)
    }
  }

  datatype JournalState = HoldPending | Held | Applied | RetirementPending | Released

  datatype Journal = Journal(
    version: nat, state: JournalState, transition: nat, owner: JournalOwner,
    pendingCidr: Option<RouteNetwork>, appliedCidrs: seq<RouteNetwork>)
  {
    predicate IsValid() {
      && version == HELPER_PROTOCOL_VERSION
      && 0 < transition
      && owner.IsValid()
      && HasNoDuplicates(appliedCidrs)
      && |appliedCidrs| <= |owner.privateCidrs|
      && (forall cidr | cidr in appliedCidrs :: IsValidCidr(cidr) && cidr in owner.privateCidrs)
      && (pendingCidr.Some? ==>
            && IsValidCidr(pendingCidr.value) && pendingCidr.value in owner.privateCidrs
            && (state == Held || state == Applied || pendingCidr.value !in appliedCidrs))
      && match state
         case HoldPending => transition == 1 && NamesNothing()
         case Held => transition == 2
         case Applied => transition == 3
         case RetirementPending => 2 <= transition <= 4 && NamesNothing()
         case Released => 3 <= transition <= 5 && NamesNothing()
    }

    predicate NamesNothing() {
      pendingCidr.None? && appliedCidrs == []
    }

    /** The record admits that the route of `cidr` may be in the table. */
    predicate Names(cidr: RouteNetwork) {
      cidr in appliedCidrs || pendingCidr == Some(cidr)
    }

    /** The part of validity that the interlock rests on. */
    predicate IsTidy() {
      && (state in {HoldPending, RetirementPending, Released} ==> NamesNothing())
      && (forall cidr | cidr in appliedCidrs :: cidr in owner.privateCidrs)
      && (pendingCidr.Some? ==> pendingCidr.value in owner.privateCidrs)
    }

    /** The next macro state, or None where the source throws. */
    function Transitioned(next: JournalState, reference: RouteBinding): Option<Journal> {
      if !IsValid() || !reference.IsValid() || reference != owner.reference then None
      else if transition >= UINT64_MAX || !IsValidTransition(state, next) || state == Released then None
      else
        var cleared := next == RetirementPending || next == Released;
        var result := Journal(version, next, transition + 1, owner,
                              if cleared then None else pendingCidr,
                              if cleared then [] else appliedCidrs);
        if result.IsValid() then Some(result) else None
    }
  }

  predicate IsValidTransition(current: JournalState, next: JournalState) {
    match (current, next)
    case (HoldPending, Held) => true
    case (HoldPending, RetirementPending) => true
    case (Held, Applied) => true
    case (Held, RetirementPending) => true
    case (Applied, RetirementPending) => true
    case (RetirementPending, Released) => true
    case _ => false
  }

  function NewJournal(owner: LeaseOwner): Journal {
    Journal(HELPER_PROTOCOL_VERSION, HoldPending, 1, owner.Recorded(), None, [])
  }

  lemma NewJournalIsValid(owner: LeaseOwner)
    requires owner.IsValid()
    ensures NewJournal(owner).IsValid()
    ensures NewJournal(owner).owner.reference == owner.reference
    ensures NewJournal(owner).owner.AsOwner() == owner
  {
    assert owner.Recorded().AsOwner() == owner;
  }

  lemma ValidIsTidy(j: Journal)
    requires j.IsValid()
    ensures j.IsTidy()
  {
  }

  /**
   A macro step succeeds exactly when the record is valid, the exact tuple is presented and the
   step is one of the six allowed; it then yields a valid record of the same owner whose number
   is one more. No step leaves Released.
   */
  lemma TransitionedExactlyWhen(j: Journal, next: JournalState, reference: RouteBinding)
    ensures j.Transitioned(next, reference).Some?
            <==> && j.IsValid() && reference == j.owner.reference
                 && (j.state, next) in {(HoldPending, Held), (HoldPending, RetirementPending), (Held, Applied),
                                        (Held, RetirementPending), (Applied, RetirementPending), (RetirementPending, Released)}
    ensures j.Transitioned(next, reference).Some? ==>
              var k := j.Transitioned(next, reference).value;
              && k.IsValid() && k.state == next && k.owner == j.owner && k.transition == j.transition + 1
              && (if next in {RetirementPending, Released} then k.NamesNothing()
                  else k.pendingCidr == j.pendingCidr && k.appliedCidrs == j.appliedCidrs)
    ensures j.state == Released ==> j.Transitioned(next, reference).None?
  {
    if j.IsValid() {
      assert j.owner.AsOwner().reference == j.owner.reference;
    }
  }

  /** Any chain of macro steps from a new lease is at most four long and ends in Released. */
  lemma {:induction false} TransitionNumbersStates(chain: seq<Journal>, i: nat)
    requires |chain| > 0 && chain[0].IsValid() && chain[0].state == HoldPending
    requires forall k | 0 <= k < |chain| - 1 ::
               chain[k].Transitioned(chain[k + 1].state, chain[k].owner.reference) == Some(chain[k + 1])
    requires i < |chain|
    ensures chain[i].IsValid() && chain[i].owner == chain[0].owner && chain[i].transition == i + 1
    ensures i <= 4 && (chain[i].state == Released ==> i == |chain| - 1)
  {
    if i > 0 {
      TransitionNumbersStates(chain, i - 1);
      var j := chain[i - 1];
      assert j.Transitioned(chain[i].state, j.owner.reference) == Some(chain[i]);
      TransitionedExactlyWhen(j, chain[i].state, j.owner.reference);
    }
    if i < |chain| - 1 {
      assert chain[i].Transitioned(chain[i + 1].state, chain[i].owner.reference) == Some(chain[i + 1]);
    }
  }
}
