/**
 The identities exchanged between the application, the route helper and the tunnel broker.
 A route binding is the complete ownership tuple of one v3 route lease: the helper calls it
 a lease reference, the broker a route binding, and both compare all six fields.
 */
module RouteBindings {
  const HELPER_PROTOCOL_VERSION: nat := 3
  const BROKER_PROTOCOL_VERSION: nat := 1
  const INT64_MAX: nat := 0x7fff_ffff_ffff_ffff

  type ConnectionId = nat

  predicate IsIdentifierByte(c: char) {
    '0' <= c <= '9' || 'A' <= c <= 'Z' || 'a' <= c <= 'z' || c == '-' || c == '.' || c == '_'
  }

  predicate IsValidIdentifier(s: string) {
    8 <= |s| <= 64 && forall i | 0 <= i < |s| :: IsIdentifierByte(s[i])
  }

  predicate IsValidGeneration(generation: nat) {
    0 < generation <= INT64_MAX
  }

  datatype TunnelReference = TunnelReference(
    protocolVersion: nat, generation: nat, sidecarInstanceId: string)
  {
    predicate IsValid() {
      && protocolVersion == BROKER_PROTOCOL_VERSION
      && IsValidGeneration(generation)
      && IsValidIdentifier(sidecarInstanceId)
    }
  }

  datatype LegacyBinding = LegacyBinding(reference: TunnelReference, routeLeaseId: string) {
    predicate IsValid() {
      reference.IsValid() && IsValidIdentifier(routeLeaseId)
    }
  }

  datatype RouteBinding = RouteBinding(
    protocolVersion: nat, brokerProtocolVersion: nat, brokerGeneration: nat,
    sidecarInstanceId: string, routeLeaseId: string, operationId: string)
  {
    predicate IsValid() {
      && protocolVersion == HELPER_PROTOCOL_VERSION
      && brokerProtocolVersion == BROKER_PROTOCOL_VERSION
      && IsValidGeneration(brokerGeneration)
      && IsValidIdentifier(sidecarInstanceId)
      && IsValidIdentifier(routeLeaseId)
      && IsValidIdentifier(operationId)
    }

    predicate Matches(reference: TunnelReference) {
      && brokerProtocolVersion == reference.protocolVersion
      && brokerGeneration == reference.generation
      && sidecarInstanceId == reference.sidecarInstanceId
    }

    predicate SameSession(other: RouteBinding) {
      && brokerProtocolVersion == other.brokerProtocolVersion
      && brokerGeneration == other.brokerGeneration
      && sidecarInstanceId == other.sidecarInstanceId
    }
  }
}
