/** The local AS's interface table as the extenders see it: a read-only
    snapshot mapping each interface id to its state and the topology
    information about its remote side. */
module IfState {
  import opened Common

  /** Interface identifiers; 0 is the "no interface" sentinel. */
  type IFID = u64

  datatype State = Inactive | Active | Expired | Revoked

  datatype LinkType = Unset | Core | Parent | Child | Peer

  /** What the topology says about the remote end of a link. */
  datatype TopoInfo = TopoInfo(ia: IA, remoteIFID: IFID, mtu: int, linkType: LinkType)

  datatype Interface = Interface(state: State, topoInfo: TopoInfo)

  /** `ifstate.Interfaces`: `Get` is map lookup, `All` is the whole map. */
  type Interfaces = map<IFID, Interface>

  /** `intfActive`: the interface exists and is active. */
  predicate IntfActive(intfs: Interfaces, ifid: IFID)
  {
    ifid in intfs && intfs[ifid].state == Active
  }

  /** `createPeerMap`: the set of interfaces whose link type is peering. */
  method CreatePeerMap(intfs: Interfaces) returns (peers: set<IFID>)
    ensures forall ifid :: ifid in peers <==> ifid in intfs && intfs[ifid].topoInfo.linkType == Peer
  {
    peers := {};
    var rest := intfs.Keys;
    while rest != {}
      invariant rest <= intfs.Keys
      invariant forall ifid :: ifid in peers <==> ifid in intfs && ifid !in rest && intfs[ifid].topoInfo.linkType == Peer
      decreases |rest|
    {
      var ifid :| ifid in rest;
      if intfs[ifid].topoInfo.linkType == Peer {
        peers := peers + {ifid};
      }
      rest := rest - {ifid};
    }
  }
}
