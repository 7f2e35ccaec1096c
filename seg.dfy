/** The path-segment container the extenders write into: hop fields, hop and
    peer entries, AS entries, and the segment itself. Signing and validation
    belong to the container and are modelled as functions it is given. */
module Seg {
  import opened Common

  /** A hop field as stored in an AS entry (`seg.HopField`). */
  datatype HopField = HopField(expTime: u8, consIngress: u16, consEgress: u16, mac: seq<byte>)

  /** The AS's own hop on the path, with the MTU of its ingress link. */
  datatype HopEntry = HopEntry(ingressMTU: int, hopField: HopField)

  /** A hop over a peering link that is not on the primary path. */
  datatype PeerEntry = PeerEntry(peerMTU: int, peer: IA, peerInterface: u16, hopField: HopField)

  /** One AS's contribution to a segment. `next` is the zero address on the
      terminal entry. */
  datatype ASEntry = ASEntry(local: IA, next: IA, hopEntry: HopEntry, peerEntries: seq<PeerEntry>, mtu: int)

  /** The segment's info field: its creation time and the segment identifier
      that seeds the MAC chain. */
  datatype Info = Info(timestamp: int, segmentID: bv16)

  /** The two checks `PathSegment.Validate` can be asked for. */
  datatype ValidationMode = ValidateSegment | ValidateBeacon

  /** An error reported by the container or by the signer; its content is the
      collaborator's own. */
  datatype SegError = SegError(code: nat)

  /** Signs an AS entry before the container appends it, given the segment's
      info and its entries so far. */
  type Signer = (Info, seq<ASEntry>, ASEntry) -> Outcome<SegError>

  /** The container's structural validation of a segment. */
  type Validator = (Info, seq<ASEntry>, ValidationMode) -> Outcome<SegError>

  /** A path segment under construction; it grows only at its tail. */
  class PathSegment {
    const info: Info
    const validator: Validator
    var asEntries: seq<ASEntry>

    constructor (info: Info, validator: Validator, asEntries: seq<ASEntry>)
      ensures this.info == info && this.validator == validator && this.asEntries == asEntries
    {
      this.info := info;
      this.validator := validator;
      this.asEntries := asEntries;
    }

    /** The index of the last entry, -1 when the segment is empty. */
    function MaxIdx(): int
      reads this
    {
      |asEntries| - 1
    }

    /** Signs `entry` and appends it; a signing error leaves the segment as it was. */
    method AddASEntry(entry: ASEntry, signer: Signer) returns (err: Outcome<SegError>)
      modifies this
      ensures err == signer(info, old(asEntries), entry)
      ensures asEntries == if err.Pass? then old(asEntries) + [entry] else old(asEntries)
    {
      err := signer(info, asEntries, entry);
      if err.Pass? {
        asEntries := asEntries + [entry];
      }
    }

    /** Runs the container's validation of the requested kind. */
    function Validate(mode: ValidationMode): Outcome<SegError>
      reads this
    {
      validator(info, asEntries, mode)
    }
  }
}
