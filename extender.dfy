/** The beacon segment extenders: each appends one authenticated AS entry to a
    path segment. `LegacyExtender` chains every hop's MAC to the packed
    previous hop field; `DefaultExtender` chains it through the 16-bit value
    beta, the segment identifier XOR-folded with the leading two MAC bytes of
    every entry already in the segment. The MAC, the MAC input layout,
    hop-field packing and time conversion are the extender's collaborators
    and appear here as the functions it is configured with. */
module Beaconing {
  import opened Common
  import opened Seg
  import opened IfState

  /** Why wrapping context was added to an error (`serrors.WrapStr`). */
  datatype WrapContext = InvalidRemoteIngress | CheckingRemoteIngressMtu | CheckingRemoteIngress | CreatingHopEntry

  datatype Error =
    | MtuNotSet
    | IngressOnlyZeroInFirstHop
    | IngressZeroInFirstHop
    | IngressAndEgressZero
    | InterfaceNotFound
    | InterfaceNotActive
    | RemoteIfidNotSet
    | RemoteIAWildcard
    | Wrapped(context: WrapContext, cause: Error)
    | Segment(segError: SegError)

  /** The remote side of a link: remote AS, remote interface and link MTU. */
  datatype RemoteInfo = RemoteInfo(ia: IA, ifid: IFID, mtu: u16)

  /** What the zero interface resolves to. */
  const NoRemote: RemoteInfo := RemoteInfo(ZeroIA, 0, 0)

  // ---------------------------------------------------------------------------
  // Checks shared by both extenders

  /** The configuration and segment-shape checks every `Extend` makes first,
      in the order it makes them. */
  function ShapeError(mtu: u16, firstHop: bool, ingress: IFID, egress: IFID): (r: Option<Error>)
    ensures r == None <==> mtu != 0 && (ingress == 0 <==> firstHop) && (ingress != 0 || egress != 0)
    ensures mtu == 0 ==> r == Some(MtuNotSet)
    ensures mtu != 0 && ingress == 0 && !firstHop ==> r == Some(IngressOnlyZeroInFirstHop)
    ensures mtu != 0 && ingress != 0 && firstHop ==> r == Some(IngressZeroInFirstHop)
    ensures mtu != 0 && ingress == 0 && egress == 0 && firstHop ==> r == Some(IngressAndEgressZero)
  {
    if mtu == 0 then Some(MtuNotSet)
    else if ingress == 0 && !firstHop then Some(IngressOnlyZeroInFirstHop)
    else if ingress != 0 && firstHop then Some(IngressZeroInFirstHop)
    else if ingress == 0 && egress == 0 then Some(IngressAndEgressZero)
    else None
  }

  /** The validation requested after appending: the whole segment when the
      entry terminates it, the beacon otherwise. */
  function ModeFor(egress: IFID): ValidationMode
  {
    if egress == 0 then ValidateSegment else ValidateBeacon
  }

  function Lift(o: Outcome<SegError>): (r: Outcome<Error>)
    ensures r.Pass? <==> o.Pass?
    ensures o.Fail? ==> r == Fail(Segment(o.error))
  {
    match o
    case Pass => Pass
    case Fail(e) => Fail(Segment(e))
  }

  /** The tail of `Extend` shared by both extenders: sign and append the
      entry that was built, then run the validation `ModeFor(egress)` and
      return its verdict unchanged. Gives the error and the new entries. */
  function Finish(built: Result<ASEntry, Error>, signer: Signer, validator: Validator, info: Info,
                  entries: seq<ASEntry>, egress: IFID): (r: (Outcome<Error>, seq<ASEntry>))
    ensures built.Err? ==> r == (Fail(built.error), entries)
    ensures r.1 == entries || (built.Ok? && r.1 == entries + [built.value])
    ensures r.1 != entries <==> built.Ok? && signer(info, entries, built.value).Pass?
    ensures built.Ok? && signer(info, entries, built.value).Fail? ==>
              r.0 == Fail(Segment(signer(info, entries, built.value).error))
    ensures r.1 != entries ==> r.0 == Lift(validator(info, r.1, ModeFor(egress)))
  {
    match built
    case Err(e) => (Fail(e), entries)
    case Ok(entry) =>
      match signer(info, entries, entry)
      case Fail(e) => (Fail(Segment(e)), entries)
      case Pass =>
        var extended := entries + [entry];
        (Lift(validator(info, extended, ModeFor(egress))), extended)
  }

  // ---------------------------------------------------------------------------
  // Interface resolution

  /** `LegacyExtender.remoteInfo`: the zero interface resolves to zeros; any
      other must exist, be active, have its remote interface set and a
      remote address that is not a wildcard. */
  function LegacyRemoteInfo(intfs: Interfaces, ifid: IFID): (r: Result<RemoteInfo, Error>)
    ensures ifid == 0 ==> r == Ok(NoRemote)
    ensures ifid != 0 ==>
      (r.Ok? <==> IntfActive(intfs, ifid) && intfs[ifid].topoInfo.remoteIFID != 0
                  && !intfs[ifid].topoInfo.ia.IsWildcard())
    ensures ifid != 0 && ifid !in intfs ==> r == Err(InterfaceNotFound)
    ensures ifid != 0 && ifid in intfs && intfs[ifid].state != Active ==> r == Err(InterfaceNotActive)
    ensures ifid != 0 && r.Ok? ==>
      var t := intfs[ifid].topoInfo; r.value == RemoteInfo(t.ia, t.remoteIFID, ToU16(t.mtu))
  {
    if ifid == 0 then Ok(NoRemote)
    else if ifid !in intfs then Err(InterfaceNotFound)
    else if intfs[ifid].state != Active then Err(InterfaceNotActive)
    else
      var t := intfs[ifid].topoInfo;
      if t.remoteIFID == 0 then Err(RemoteIfidNotSet)
      else if t.ia.IsWildcard() then Err(RemoteIAWildcard)
      else Ok(RemoteInfo(t.ia, t.remoteIFID, ToU16(t.mtu)))
  }

  /** `DefaultExtender.remoteInfo`: as the legacy one, but the interface's
      state is not looked at. */
  function DefaultRemoteInfo(intfs: Interfaces, ifid: IFID): (r: Result<RemoteInfo, Error>)
    ensures ifid == 0 ==> r == Ok(NoRemote)
    ensures ifid != 0 ==>
      (r.Ok? <==> ifid in intfs && intfs[ifid].topoInfo.remoteIFID != 0
                  && !intfs[ifid].topoInfo.ia.IsWildcard())
    ensures ifid != 0 && ifid !in intfs ==> r == Err(InterfaceNotFound)
    ensures ifid != 0 && r.Ok? ==>
      var t := intfs[ifid].topoInfo; r.value == RemoteInfo(t.ia, t.remoteIFID, ToU16(t.mtu))
  {
    if ifid == 0 then Ok(NoRemote)
    else if ifid !in intfs then Err(InterfaceNotFound)
    else
      var t := intfs[ifid].topoInfo;
      if t.remoteIFID == 0 then Err(RemoteIfidNotSet)
      else if t.ia.IsWildcard() then Err(RemoteIAWildcard)
      else Ok(RemoteInfo(t.ia, t.remoteIFID, ToU16(t.mtu)))
  }

  /** `DefaultExtender.remoteIA`: checks existence and the wildcard address
      only; the remote interface id is not looked at. */
  function DefaultRemoteIA(intfs: Interfaces, ifid: IFID): (r: Result<IA, Error>)
    ensures ifid == 0 ==> r == Ok(ZeroIA)
    ensures ifid != 0 ==> (r.Ok? <==> ifid in intfs && !intfs[ifid].topoInfo.ia.IsWildcard())
    ensures ifid != 0 && ifid !in intfs ==> r == Err(InterfaceNotFound)
    ensures ifid != 0 && r.Ok? ==> r.value == intfs[ifid].topoInfo.ia
  {
    if ifid == 0 then Ok(ZeroIA)
    else if ifid !in intfs then Err(InterfaceNotFound)
    else if intfs[ifid].topoInfo.ia.IsWildcard() then Err(RemoteIAWildcard)
    else Ok(intfs[ifid].topoInfo.ia)
  }

  /** `DefaultExtender.remoteMTU`: only checks that the interface exists. */
  function DefaultRemoteMTU(intfs: Interfaces, ifid: IFID): (r: Result<u16, Error>)
    ensures ifid == 0 ==> r == Ok(0)
    ensures ifid != 0 ==> (r.Ok? <==> ifid in intfs)
    ensures ifid != 0 && ifid !in intfs ==> r == Err(InterfaceNotFound)
    ensures ifid != 0 && r.Ok? ==> r.value == ToU16(intfs[ifid].topoInfo.mtu)
  {
    if ifid == 0 then Ok(0)
    else if ifid !in intfs then Err(InterfaceNotFound)
    else Ok(ToU16(intfs[ifid].topoInfo.mtu))
  }

  /** The legacy resolution is the default one restricted to active
      interfaces, and whatever `remoteInfo` resolves, `remoteIA` and
      `remoteMTU` resolve to the same address and MTU. */
  lemma RemoteInfoVariants(intfs: Interfaces, ifid: IFID)
    ensures LegacyRemoteInfo(intfs, ifid) ==
      if ifid != 0 && ifid in intfs && intfs[ifid].state != Active then Err(InterfaceNotActive)
      else DefaultRemoteInfo(intfs, ifid)
    ensures DefaultRemoteInfo(intfs, ifid).Ok? ==>
      DefaultRemoteIA(intfs, ifid) == Ok(DefaultRemoteInfo(intfs, ifid).value.ia) &&
      DefaultRemoteMTU(intfs, ifid) == Ok(DefaultRemoteInfo(intfs, ifid).value.mtu)
    ensures ifid != 0 && LegacyRemoteInfo(intfs, ifid).Ok? ==> IntfActive(intfs, ifid)
  {
  }

  /** `min` over expiration times. */
  function Min(a: u8, b: u8): (r: u8)
    ensures r <= a && r <= b
    ensures r == a || r == b
  {
    if a > b then b else a
  }

  // ---------------------------------------------------------------------------
  // The chain value beta of the default scheme

  /** The MAC bytes `mac[0]` and `mac[1]` read as a big-endian 16-bit value. */
  function BigEndian16(mac: seq<byte>): bv16
    requires |mac| >= 2
  {
    (mac[0] as bv16 << 8) | mac[1] as bv16
  }

  /** Every entry carries at least the two MAC bytes beta folds in. */
  predicate BetaReady(entries: seq<ASEntry>)
  {
    forall i :: 0 <= i < |entries| ==> |entries[i].hopEntry.hopField.mac| >= 2
  }

  function Sigma(e: ASEntry): bv16
    requires |e.hopEntry.hopField.mac| >= 2
  {
    BigEndian16(e.hopEntry.hopField.mac)
  }

  /** Exclusive or of two 16-bit values. */
  function Xor(a: bv16, b: bv16): bv16
  {
    a ^ b
  }

  lemma XorSwap(a: bv16, b: bv16, c: bv16)
    ensures Xor(Xor(a, b), c) == Xor(Xor(a, c), b)
  {
  }

  lemma XorRebase(a: bv16, b: bv16, c: bv16)
    ensures Xor(a, c) == Xor(Xor(a, b), Xor(b, c))
    ensures Xor(Xor(a, b), c) == Xor(a, Xor(b, c))
  {
  }

  lemma XorChanges(a: bv16, b: bv16, c: bv16)
    requires b != c
    ensures Xor(Xor(a, b), c) != a
  {
  }

  /** `acc` XOR-folded with the leading MAC bytes of `entries`, in order. */
  function Beta(acc: bv16, entries: seq<ASEntry>): bv16
    requires BetaReady(entries)
    decreases |entries|
  {
    if entries == [] then acc else Beta(Xor(acc, Sigma(entries[0])), entries[1..])
  }

  /** Folding commutes with the starting value. */
  lemma {:induction false} BetaShift(acc: bv16, d: bv16, entries: seq<ASEntry>)
    requires BetaReady(entries)
    ensures Beta(Xor(acc, d), entries) == Xor(Beta(acc, entries), d)
    decreases |entries|
  {
    if entries != [] {
      XorSwap(acc, d, Sigma(entries[0]));
      BetaShift(Xor(acc, Sigma(entries[0])), d, entries[1..]);
    }
  }

  /** Appending an entry folds its leading two MAC bytes into beta. */
  lemma {:induction false} BetaAppend(acc: bv16, entries: seq<ASEntry>, e: ASEntry)
    requires BetaReady(entries) && |e.hopEntry.hopField.mac| >= 2
    ensures BetaReady(entries + [e])
    ensures Beta(acc, entries + [e]) == Xor(Beta(acc, entries), Sigma(e))
    decreases |entries|
  {
    if entries == [] {
      assert [e][1..] == [];
    } else {
      assert (entries + [e])[1..] == entries[1..] + [e];
      BetaAppend(Xor(acc, Sigma(entries[0])), entries[1..], e);
    }
  }

  /** Replacing one entry changes beta by exactly the XOR of the old and the
      new leading MAC bytes. */
  lemma {:induction false} BetaReplace(acc: bv16, entries: seq<ASEntry>, k: nat, e: ASEntry)
    requires BetaReady(entries) && k < |entries| && |e.hopEntry.hopField.mac| >= 2
    ensures BetaReady(entries[k := e])
    ensures Beta(acc, entries[k := e]) == Xor(Xor(Beta(acc, entries), Sigma(entries[k])), Sigma(e))
    decreases |entries|
  {
    var t := entries[k := e];
    if k == 0 {
      assert t[1..] == entries[1..];
      var s0, se := Sigma(entries[0]), Sigma(e);
      XorRebase(acc, s0, se);
      BetaShift(Xor(acc, s0), Xor(s0, se), entries[1..]);
      XorRebase(Beta(acc, entries), s0, se);
    } else {
      assert t[1..] == entries[1..][k - 1 := e];
      BetaReplace(Xor(acc, Sigma(entries[0])), entries[1..], k - 1, e);
    }
  }

  /** Tamper evidence of the chain: changing the leading MAC bytes of any
      entry changes beta, and with it every later hop's MAC input. */
  lemma BetaDetectsTamper(acc: bv16, entries: seq<ASEntry>, k: nat, e: ASEntry)
    requires BetaReady(entries) && k < |entries| && |e.hopEntry.hopField.mac| >= 2
    requires Sigma(e) != Sigma(entries[k])
    ensures BetaReady(entries[k := e])
    ensures Beta(acc, entries[k := e]) != Beta(acc, entries)
  {
    BetaReplace(acc, entries, k, e);
    XorChanges(Beta(acc, entries), Sigma(entries[k]), Sigma(e));
  }

  /** `extractBeta`: the segment identifier folded with every entry. */
  method ExtractBeta(pseg: PathSegment) returns (beta: bv16)
    requires BetaReady(pseg.asEntries)
    ensures beta == Beta(pseg.info.segmentID, pseg.asEntries)
  {
    beta := pseg.info.segmentID;
    var i := 0;
    while i < |pseg.asEntries|
      invariant 0 <= i <= |pseg.asEntries|
      invariant Beta(beta, pseg.asEntries[i..]) == Beta(pseg.info.segmentID, pseg.asEntries)
    {
      assert pseg.asEntries[i..][1..] == pseg.asEntries[i + 1..];
      var sigma := BigEndian16(pseg.asEntries[i].hopEntry.hopField.mac);
      beta := Xor(beta, sigma);
      i := i + 1;
    }
  }

  // ---------------------------------------------------------------------------
  // Legacy extender

  /** The hop field of the old on-wire format (`spath.HopField`). */
  datatype SpathHopField = SpathHopField(consIngress: IFID, consEgress: IFID, expTime: u8, mac: seq<byte>)

  /** `spath.HopField.Pack` writes eight bytes, the first being the flags. */
  type PackedHopField = s: seq<byte> | |s| == 8 witness [0, 0, 0, 0, 0, 0, 0, 0]

  /** The collaborators of the legacy extender. `calcMac` is
      `spath.HopField.CalcMac` with the configured hash, given the seconds of
      the segment timestamp and the previous-hop material (absent on the
      first hop). */
  datatype LegacyCrypto = LegacyCrypto(
    calcMac: (SpathHopField, u32, Option<seq<byte>>) -> seq<byte>,
    pack: SpathHopField -> PackedHopField,
    timeToSecs: int -> u32)

  const ZeroMac: seq<byte> := [0, 0, 0, 0, 0, 0]

  /** Go's `copy(dst, src)` into a fresh value: the first min(|dst|, |src|)
      bytes come from `src`, the rest of `dst` is kept. */
  function CopyInto(dst: seq<byte>, src: seq<byte>): (r: seq<byte>)
    ensures |r| == |dst|
  {
    if |src| >= |dst| then src[..|dst|] else src + dst[|src|..]
  }

  /** Byte by byte, `CopyInto` takes `src` where it reaches and keeps `dst`
      beyond it. */
  lemma CopyIntoBytes(dst: seq<byte>, src: seq<byte>)
    ensures var r := CopyInto(dst, src);
            forall i :: 0 <= i < |r| ==> r[i] == if i < |src| then src[i] else dst[i]
  {
  }

  /** The previous-hop material of the legacy MAC: the packed previous hop
      field with its leading flags byte dropped. */
  function PrevMaterial(prev: Option<PackedHopField>): (r: Option<seq<byte>>)
    ensures r.None? <==> prev.None?
    ensures prev.Some? ==> |r.value| == 7 && prev.value == prev.value[..1] + r.value
  {
    match prev
    case None => None
    case Some(p) => Some(p[1..])
  }

  /** Two sequences related index by index stay so when an element pair
      is put in front of each. */
  lemma ConsAligned<A, B>(a: A, as_: seq<A>, b: B, bs: seq<B>, rel: (A, B) -> bool)
    requires rel(a, b) && |as_| == |bs|
    requires forall k :: 0 <= k < |as_| ==> rel(as_[k], bs[k])
    ensures forall k :: 0 <= k < |as_| + 1 ==> rel(([a] + as_)[k], ([b] + bs)[k])
  {
    forall k | 0 <= k < |as_| + 1
      ensures rel(([a] + as_)[k], ([b] + bs)[k])
    {
      if k > 0 {
        assert ([a] + as_)[k] == as_[k - 1] && ([b] + bs)[k] == bs[k - 1];
      }
    }
  }

  /** Every stored hop field the legacy extender packs has its three MAC bytes. */
  predicate LegacyReady(entries: seq<ASEntry>)
  {
    |entries| > 0 ==> |entries[|entries| - 1].hopEntry.hopField.mac| >= 3
  }

  datatype LegacyExtender = LegacyExtender(
    ia: IA, signer: Signer, crypto: LegacyCrypto, intfs: Interfaces,
    mtu: u16, maxExpTime: u8, task: string)
  {
    /** `packHopField`: a stored hop field packed with the first three MAC bytes. */
    function PackHopField(hop: HopField): PackedHopField
      requires |hop.mac| >= 3
    {
      crypto.pack(SpathHopField(hop.consIngress, hop.consEgress, hop.expTime, hop.mac[..3]))
    }

    /** `createHopF`: a hop field over the full interface ids whose six MAC bytes
        start with the MAC of the seconds of `ts` and the previous-hop material. */
    function CreateHopF(ingress: IFID, egress: IFID, prev: Option<PackedHopField>, ts: int): (r: SpathHopField)
      ensures r.consIngress == ingress && r.consEgress == egress && r.expTime == maxExpTime && |r.mac| == 6
    {
      var hop := SpathHopField(ingress, egress, maxExpTime, ZeroMac);
      var mac := crypto.calcMac(hop, crypto.timeToSecs(ts), PrevMaterial(prev));
      hop.(mac := CopyInto(ZeroMac, mac))
    }

    /** The six MAC bytes of a legacy hop field start with the MAC computed
        over the zero-MAC hop field, the seconds of `ts` and the
        previous-hop material, padded with zeros. */
    lemma CreateHopFMac(ingress: IFID, egress: IFID, prev: Option<PackedHopField>, ts: int)
      ensures var m := crypto.calcMac(SpathHopField(ingress, egress, maxExpTime, ZeroMac),
                                      crypto.timeToSecs(ts), PrevMaterial(prev));
              var r := CreateHopF(ingress, egress, prev, ts);
              forall i :: 0 <= i < 6 ==> r.mac[i] == if i < |m| then m[i] else 0
    {
      var m := crypto.calcMac(SpathHopField(ingress, egress, maxExpTime, ZeroMac),
                              crypto.timeToSecs(ts), PrevMaterial(prev));
      CopyIntoBytes(ZeroMac, m);
    }

    /** The stored form of a legacy hop field: interface ids cut to 16 bits. */
    static function Stored(h: SpathHopField): (r: HopField)
      ensures r.consIngress == ToU16(h.consIngress) && r.consEgress == ToU16(h.consEgress)
      ensures r.expTime == h.expTime && r.mac == h.mac
    {
      HopField(h.expTime, ToU16(h.consIngress), ToU16(h.consEgress), h.mac)
    }

    /** `createHopEntry`: fails when the ingress interface does not resolve. */
    function CreateHopEntry(ingress: IFID, egress: IFID, prev: Option<PackedHopField>, ts: int): (r: Result<HopEntry, Error>)
      ensures r.Err? <==> LegacyRemoteInfo(intfs, ingress).Err?
      ensures r.Err? ==> r.error == Wrapped(InvalidRemoteIngress, LegacyRemoteInfo(intfs, ingress).error)
      ensures r.Ok? ==> r.value.ingressMTU == LegacyRemoteInfo(intfs, ingress).value.mtu as int
      ensures r.Ok? ==> r.value.hopField == Stored(CreateHopF(ingress, egress, prev, ts))
      ensures r.Ok? ==> |r.value.hopField.mac| == 6
    {
      match LegacyRemoteInfo(intfs, ingress)
      case Err(e) => Err(Wrapped(InvalidRemoteIngress, e))
      case Ok(remote) => Ok(HopEntry(remote.mtu as int, Stored(CreateHopF(ingress, egress, prev, ts))))
    }

    /** The peer entry for one peering interface, if it resolves. */
    function CreatePeerEntry(ifid: IFID, egress: IFID, prev: Option<PackedHopField>, ts: int): (r: Option<PeerEntry>)
      ensures r.Some? <==> LegacyRemoteInfo(intfs, ifid).Ok?
      ensures r.Some? ==>
        var remote := LegacyRemoteInfo(intfs, ifid).value;
        r.value.peer == remote.ia && r.value.peerInterface == ToU16(remote.ifid) &&
        r.value.peerMTU == remote.mtu as int &&
        r.value.hopField == Stored(CreateHopF(ifid, egress, prev, ts))
    {
      match LegacyRemoteInfo(intfs, ifid)
      case Err(_) => None
      case Ok(remote) =>
        Some(PeerEntry(remote.mtu as int, remote.ia, ToU16(remote.ifid), Stored(CreateHopF(ifid, egress, prev, ts))))
    }

    /** The peer entries `createPeerEntries` produces. */
    function PeerEntries(egress: IFID, peers: seq<IFID>, prev: Option<PackedHopField>, ts: int): seq<PeerEntry>
      decreases |peers|
    {
      if peers == [] then []
      else
        PeerHead(peers[0], egress, prev, ts) + PeerEntries(egress, peers[1..], prev, ts)
    }

    /** The entry of one peer as a sequence: empty when it does not resolve. */
    function PeerHead(ifid: IFID, egress: IFID, prev: Option<PackedHopField>, ts: int): seq<PeerEntry>
    {
      match CreatePeerEntry(ifid, egress, prev, ts)
      case None => []
      case Some(p) => [p]
    }

    /** `createPeerEntries`: one entry per resolvable peer, in request order;
        a peer that does not resolve is skipped and never an error. */
    method CreatePeerEntries(egress: IFID, peers: seq<IFID>, prev: Option<PackedHopField>, ts: int)
      returns (peerEntries: seq<PeerEntry>)
      ensures peerEntries == PeerEntries(egress, peers, prev, ts)
    {
      peerEntries := [];
      var i := 0;
      while i < |peers|
        invariant 0 <= i <= |peers|
        invariant peerEntries + PeerEntries(egress, peers[i..], prev, ts) == PeerEntries(egress, peers, prev, ts)
      {
        PeerEntriesStep(egress, peers, i, prev, ts, peerEntries);
        var remote := LegacyRemoteInfo(intfs, peers[i]);
        if remote.Err? {
          i := i + 1;
          continue;
        }
        var hopF := CreateHopF(peers[i], egress, prev, ts);
        var peer := PeerEntry(remote.value.mtu as int, remote.value.ia, ToU16(remote.value.ifid), Stored(hopF));
        peerEntries := peerEntries + [peer];
        i := i + 1;
      }
    }

    /** One turn of the `createPeerEntries` loop: a peer that does not
        resolve adds nothing, one that does adds its entry. */
    lemma PeerEntriesStep(egress: IFID, peers: seq<IFID>, i: nat, prev: Option<PackedHopField>, ts: int,
                          acc: seq<PeerEntry>)
      requires i < |peers|
      ensures var remote := LegacyRemoteInfo(intfs, peers[i]);
              acc + PeerEntries(egress, peers[i..], prev, ts) ==
              (if remote.Err? then acc
               else acc + [PeerEntry(remote.value.mtu as int, remote.value.ia, ToU16(remote.value.ifid),
                                     Stored(CreateHopF(peers[i], egress, prev, ts)))]) +
              PeerEntries(egress, peers[i + 1..], prev, ts)
    {
      PeerEntriesUnfold(egress, peers, i, prev, ts, acc);
      PeerHeadIs(peers[i], egress, prev, ts);
      var rest := PeerEntries(egress, peers[i + 1..], prev, ts);
      if LegacyRemoteInfo(intfs, peers[i]).Err? {
        assert acc + PeerHead(peers[i], egress, prev, ts) == acc;
      }
    }

    lemma PeerEntriesUnfold(egress: IFID, peers: seq<IFID>, i: nat, prev: Option<PackedHopField>, ts: int,
                            acc: seq<PeerEntry>)
      requires i < |peers|
      ensures acc + PeerEntries(egress, peers[i..], prev, ts) ==
              acc + PeerHead(peers[i], egress, prev, ts) + PeerEntries(egress, peers[i + 1..], prev, ts)
    {
      assert peers[i..][1..] == peers[i + 1..];
      assert peers[i..][0] == peers[i];
    }

    lemma PeerHeadIs(ifid: IFID, egress: IFID, prev: Option<PackedHopField>, ts: int)
      ensures var remote := LegacyRemoteInfo(intfs, ifid);
              PeerHead(ifid, egress, prev, ts) ==
              if remote.Err? then []
              else [PeerEntry(remote.value.mtu as int, remote.value.ia, ToU16(remote.value.ifid),
                              Stored(CreateHopF(ifid, egress, prev, ts)))]
    {
    }

    /** The entry `Extend` appends, or the error it stops with before signing. */
    function BuildEntry(info: Info, entries: seq<ASEntry>, ingress: IFID, egress: IFID, peers: seq<IFID>): (r: Result<ASEntry, Error>)
      requires ShapeError(mtu, |entries| == 0, ingress, egress).None? ==> LegacyReady(entries)
      ensures ShapeError(mtu, |entries| == 0, ingress, egress).Some? ==>
                r == Err(ShapeError(mtu, |entries| == 0, ingress, egress).value)
      ensures r.Ok? <==> ShapeError(mtu, |entries| == 0, ingress, egress).None?
                         && LegacyRemoteInfo(intfs, ingress).Ok? && LegacyRemoteInfo(intfs, egress).Ok?
      ensures ShapeError(mtu, |entries| == 0, ingress, egress).None? && LegacyRemoteInfo(intfs, ingress).Err? ==>
                r == Err(Wrapped(InvalidRemoteIngress, LegacyRemoteInfo(intfs, ingress).error))
      ensures ShapeError(mtu, |entries| == 0, ingress, egress).None? && LegacyRemoteInfo(intfs, ingress).Ok? &&
              LegacyRemoteInfo(intfs, egress).Err? ==>
                r == Err(LegacyRemoteInfo(intfs, egress).error)
      ensures r.Ok? ==>
        r.value.local == ia && r.value.mtu == mtu as int &&
        r.value.next == (if egress == 0 then ZeroIA else intfs[egress].topoInfo.ia) &&
        r.value.hopEntry.ingressMTU == LegacyRemoteInfo(intfs, ingress).value.mtu as int &&
        r.value.hopEntry.hopField.consIngress == ToU16(ingress) &&
        r.value.hopEntry.hopField.consEgress == ToU16(egress) &&
        r.value.hopEntry.hopField.expTime == maxExpTime &&
        |r.value.hopEntry.hopField.mac| == 6 &&
        |r.value.peerEntries| <= |peers|
    {
      var firstHop := |entries| == 0;
      match ShapeError(mtu, firstHop, ingress, egress)
      case Some(e) => Err(e)
      case None =>
        var prev := if firstHop then None else Some(PackHopField(entries[|entries| - 1].hopEntry.hopField));
        match CreateHopEntry(ingress, egress, prev, info.timestamp)
        case Err(e) => Err(e)
        case Ok(hop) =>
          var peerEntries := PeerEntries(egress, peers, Some(PackHopField(hop.hopField)), info.timestamp);
          PeerEntriesBound(egress, peers, Some(PackHopField(hop.hopField)), info.timestamp);
          match LegacyRemoteInfo(intfs, egress)
          case Err(e) => Err(e)
          case Ok(next) => Ok(ASEntry(ia, next.ia, hop, peerEntries, mtu as int))
    }

    /** `Extend`: appends one entry carrying a legacy hop field and requests
        segment validation when `egress` is 0, beacon validation otherwise. */
    method Extend(pseg: PathSegment, ingress: IFID, egress: IFID, peers: seq<IFID>) returns (err: Outcome<Error>)
      requires ShapeError(mtu, |pseg.asEntries| == 0, ingress, egress).None? ==> LegacyReady(pseg.asEntries)
      modifies pseg
      ensures (err, pseg.asEntries) ==
        Finish(BuildEntry(pseg.info, old(pseg.asEntries), ingress, egress, peers),
               signer, pseg.validator, pseg.info, old(pseg.asEntries), egress)
    {
      if mtu == 0 {
        return Fail(MtuNotSet);
      }
      var firstHop := pseg.MaxIdx() < 0;
      if ingress == 0 && !firstHop {
        return Fail(IngressOnlyZeroInFirstHop);
      }
      if ingress != 0 && firstHop {
        return Fail(IngressZeroInFirstHop);
      }
      if ingress == 0 && egress == 0 {
        return Fail(IngressAndEgressZero);
      }
      var prev: Option<PackedHopField> := None;
      if !firstHop {
        prev := Some(PackHopField(pseg.asEntries[pseg.MaxIdx()].hopEntry.hopField));
      }
      var hopEntry := CreateHopEntry(ingress, egress, prev, pseg.info.timestamp);
      if hopEntry.Err? {
        return Fail(hopEntry.error);
      }
      var peerEntries := CreatePeerEntries(egress, peers, Some(PackHopField(hopEntry.value.hopField)), pseg.info.timestamp);
      var next := LegacyRemoteInfo(intfs, egress);
      if next.Err? {
        return Fail(next.error);
      }
      var asEntry := ASEntry(ia, next.value.ia, hopEntry.value, peerEntries, mtu as int);
      var addErr := pseg.AddASEntry(asEntry, signer);
      if addErr.Fail? {
        return Fail(Segment(addErr.error));
      }
      if egress == 0 {
        err := Lift(pseg.Validate(ValidateSegment));
      } else {
        err := Lift(pseg.Validate(ValidateBeacon));
      }
    }

    /** Peer skipping: the peer entries are those of the resolvable peers,
        one each, in request order. */
    lemma {:induction false} PeerEntriesSkipping(egress: IFID, peers: seq<IFID>, prev: Option<PackedHopField>, ts: int)
      ensures var r := PeerEntries(egress, peers, prev, ts);
              var kept := ResolvablePeers(peers);
              |r| == |kept| &&
              forall k :: 0 <= k < |r| ==> Some(r[k]) == CreatePeerEntry(kept[k], egress, prev, ts)
      decreases |peers|
    {
      if peers != [] {
        PeerEntriesSkipping(egress, peers[1..], prev, ts);
        var rest := PeerEntries(egress, peers[1..], prev, ts);
        var keptRest := ResolvablePeers(peers[1..]);
        var head := PeerHead(peers[0], egress, prev, ts);
        assert PeerEntries(egress, peers, prev, ts) == head + rest;
        if CreatePeerEntry(peers[0], egress, prev, ts).None? {
          assert head == [];
          assert head + rest == rest;
          assert ResolvablePeers(peers) == keptRest;
        } else {
          var p := CreatePeerEntry(peers[0], egress, prev, ts).value;
          assert head == [p];
          var kept := [peers[0]] + keptRest;
          assert ResolvablePeers(peers) == kept;
          var rel := (e: PeerEntry, ifid: IFID) => Some(e) == CreatePeerEntry(ifid, egress, prev, ts);
          assert forall k :: 0 <= k < |rest| ==> rel(rest[k], keptRest[k]);
          ConsAligned(p, rest, peers[0], keptRest, rel);
          assert forall k :: 0 <= k < |rest| + 1 ==> rel(([p] + rest)[k], kept[k]);
        }
      }
    }


    /** The requested peers whose interface resolves, in request order. */
    function ResolvablePeers(peers: seq<IFID>): (r: seq<IFID>)
      ensures forall k :: 0 <= k < |r| ==> r[k] in peers && LegacyRemoteInfo(intfs, r[k]).Ok?
      decreases |peers|
    {
      if peers == [] then []
      else if LegacyRemoteInfo(intfs, peers[0]).Ok? then [peers[0]] + ResolvablePeers(peers[1..])
      else ResolvablePeers(peers[1..])
    }

    lemma {:induction false} PeerEntriesBound(egress: IFID, peers: seq<IFID>, prev: Option<PackedHopField>, ts: int)
      ensures |PeerEntries(egress, peers, prev, ts)| <= |peers|
      decreases |peers|
    {
      if peers != [] {
        PeerEntriesBound(egress, peers[1..], prev, ts);
      }
    }

    /** The legacy chain: the new hop's MAC is computed over the packed last
        hop field of the segment (flags dropped), or over no previous
        material on the first hop; nothing else of the segment enters it. */
    lemma LegacyChain(info: Info, entries: seq<ASEntry>, ingress: IFID, egress: IFID, peers: seq<IFID>)
      requires ShapeError(mtu, |entries| == 0, ingress, egress).None? ==> LegacyReady(entries)
      requires BuildEntry(info, entries, ingress, egress, peers).Ok?
      ensures var prev := if |entries| == 0 then None
                          else Some(PackHopField(entries[|entries| - 1].hopEntry.hopField));
              BuildEntry(info, entries, ingress, egress, peers).value.hopEntry.hopField ==
                Stored(CreateHopF(ingress, egress, prev, info.timestamp))
    {
    }

    /** The legacy peer chain: the peer entries are built over the packed NEW
        hop field, one for each resolvable peer in request order, each chained
        to that packed hop field. */
    lemma LegacyPeerChain(info: Info, entries: seq<ASEntry>, ingress: IFID, egress: IFID, peers: seq<IFID>)
      requires ShapeError(mtu, |entries| == 0, ingress, egress).None? ==> LegacyReady(entries)
      requires BuildEntry(info, entries, ingress, egress, peers).Ok?
      ensures var e := BuildEntry(info, entries, ingress, egress, peers).value;
              var prev := Some(PackHopField(e.hopEntry.hopField));
              var kept := ResolvablePeers(peers);
              e.peerEntries == PeerEntries(egress, peers, prev, info.timestamp) &&
              |e.peerEntries| == |kept| &&
              forall k :: 0 <= k < |kept| ==>
                Some(e.peerEntries[k]) == CreatePeerEntry(kept[k], egress, prev, info.timestamp)
    {
      var e := BuildEntry(info, entries, ingress, egress, peers).value;
      PeerEntriesSkipping(egress, peers, Some(PackHopField(e.hopEntry.hopField)), info.timestamp);
    }
  }

  // ---------------------------------------------------------------------------
  // Default extender

  /** A full MAC long enough for its first six bytes to be taken. */
  type FullMac = s: seq<byte> | |s| >= 6 witness [0, 0, 0, 0, 0, 0]

  /** The collaborators of the default extender: `path.MACInput` (beta,
      seconds, expiration, ingress, egress), the configured MAC written with
      that input and summed, and time conversion. */
  datatype DefaultCrypto = DefaultCrypto(
    macInput: (bv16, u32, u8, u16, u16) -> seq<byte>,
    mac: seq<byte> -> FullMac,
    timeToSecs: int -> u32)

  datatype DefaultExtender = DefaultExtender(
    ia: IA, signer: Signer, crypto: DefaultCrypto, intfs: Interfaces,
    mtu: u16, maxExpTime: u8, task: string)
  {
    /** `createHopF`: the hop field with the first six bytes of the MAC over
        the MAC input of (beta, seconds of `ts`, expiration, ingress, egress). */
    function CreateHopF(ingress: u16, egress: u16, ts: int, beta: bv16): (r: HopField)
      ensures r.consIngress == ingress && r.consEgress == egress && r.expTime == maxExpTime
      ensures |r.mac| == 6
      ensures r.mac == crypto.mac(crypto.macInput(beta, crypto.timeToSecs(ts), maxExpTime, ingress, egress))[..6]
    {
      var expTime := maxExpTime;
      var input := crypto.macInput(beta, crypto.timeToSecs(ts), expTime, ingress, egress);
      var fullMac := crypto.mac(input);
      HopField(expTime, ingress, egress, fullMac[..6])
    }

    /** `createHopEntry`: fails only when the ingress interface is unknown. */
    function CreateHopEntry(ingress: IFID, egress: IFID, ts: int, beta: bv16): (r: Result<HopEntry, Error>)
      ensures r.Err? <==> DefaultRemoteMTU(intfs, ingress).Err?
      ensures r.Err? ==> r.error == Wrapped(CheckingRemoteIngressMtu, DefaultRemoteMTU(intfs, ingress).error)
      ensures r.Ok? ==> r.value == HopEntry(DefaultRemoteMTU(intfs, ingress).value as int,
                                            CreateHopF(ToU16(ingress), ToU16(egress), ts, beta))
    {
      match DefaultRemoteMTU(intfs, ingress)
      case Err(e) => Err(Wrapped(CheckingRemoteIngressMtu, e))
      case Ok(remoteMtu) => Ok(HopEntry(remoteMtu as int, CreateHopF(ToU16(ingress), ToU16(egress), ts, beta)))
    }

    /** `createPeerEntry`: fails when the peering interface does not resolve. */
    function CreatePeerEntry(ifid: IFID, egress: IFID, ts: int, beta: bv16): (r: Result<PeerEntry, Error>)
      ensures r.Ok? <==> DefaultRemoteInfo(intfs, ifid).Ok?
      ensures r.Err? ==> r.error == Wrapped(CheckingRemoteIngress, DefaultRemoteInfo(intfs, ifid).error)
      ensures r.Ok? ==>
        var remote := DefaultRemoteInfo(intfs, ifid).value;
        r.value == PeerEntry(remote.mtu as int, remote.ia, ToU16(remote.ifid), CreateHopF(ToU16(ifid), ToU16(egress), ts, beta))
    {
      match DefaultRemoteInfo(intfs, ifid)
      case Err(e) => Err(Wrapped(CheckingRemoteIngress, e))
      case Ok(remote) =>
        Ok(PeerEntry(remote.mtu as int, remote.ia, ToU16(remote.ifid), CreateHopF(ToU16(ifid), ToU16(egress), ts, beta)))
    }

    /** The peer entries `createPeerEntries` produces. */
    function PeerEntries(egress: IFID, peers: seq<IFID>, ts: int, beta: bv16): seq<PeerEntry>
      decreases |peers|
    {
      if peers == [] then []
      else
        PeerHead(peers[0], egress, ts, beta) + PeerEntries(egress, peers[1..], ts, beta)
    }

    /** The entry of one peer as a sequence: empty when `createPeerEntry` fails. */
    function PeerHead(ifid: IFID, egress: IFID, ts: int, beta: bv16): seq<PeerEntry>
    {
      match CreatePeerEntry(ifid, egress, ts, beta)
      case Err(_) => []
      case Ok(p) => [p]
    }

    lemma DefaultPeerEntriesStep(egress: IFID, peers: seq<IFID>, i: nat, ts: int, beta: bv16, acc: seq<PeerEntry>)
      requires i < |peers|
      ensures var entry := CreatePeerEntry(peers[i], egress, ts, beta);
              acc + PeerEntries(egress, peers[i..], ts, beta) ==
              (if entry.Err? then acc else acc + [entry.value]) + PeerEntries(egress, peers[i + 1..], ts, beta)
    {
      assert peers[i..][1..] == peers[i + 1..];
      assert peers[i..][0] == peers[i];
      var rest := PeerEntries(egress, peers[i + 1..], ts, beta);
      assert PeerEntries(egress, peers[i..], ts, beta) == PeerHead(peers[i], egress, ts, beta) + rest;
      match CreatePeerEntry(peers[i], egress, ts, beta)
      case Err(_) =>
        assert PeerHead(peers[i], egress, ts, beta) + rest == rest;
      case Ok(p) =>
        assert acc + ([p] + rest) == acc + [p] + rest;
    }

    /** `createPeerEntries`: one entry per peer that `createPeerEntry` accepts,
        in request order; the others are skipped and never an error. */
    method CreatePeerEntries(egress: IFID, peers: seq<IFID>, ts: int, beta: bv16)
      returns (peerEntries: seq<PeerEntry>)
      ensures peerEntries == PeerEntries(egress, peers, ts, beta)
    {
      peerEntries := [];
      var i := 0;
      while i < |peers|
        invariant 0 <= i <= |peers|
        invariant peerEntries + PeerEntries(egress, peers[i..], ts, beta) == PeerEntries(egress, peers, ts, beta)
      {
        DefaultPeerEntriesStep(egress, peers, i, ts, beta, peerEntries);
        var peerEntry := CreatePeerEntry(peers[i], egress, ts, beta);
        if peerEntry.Err? {
          i := i + 1;
          continue;
        }
        peerEntries := peerEntries + [peerEntry.value];
        i := i + 1;
      }
    }

    /** The requested peers whose interface resolves, in request order. */
    function ResolvablePeers(peers: seq<IFID>): (r: seq<IFID>)
      ensures forall k :: 0 <= k < |r| ==> r[k] in peers && DefaultRemoteInfo(intfs, r[k]).Ok?
      decreases |peers|
    {
      if peers == [] then []
      else if DefaultRemoteInfo(intfs, peers[0]).Ok? then [peers[0]] + ResolvablePeers(peers[1..])
      else ResolvablePeers(peers[1..])
    }

    /** Peer skipping: the peer entries are those of the resolvable peers,
        one each, in request order. */
    lemma {:induction false} PeerEntriesSkipping(egress: IFID, peers: seq<IFID>, ts: int, beta: bv16)
      ensures var r := PeerEntries(egress, peers, ts, beta);
              var kept := ResolvablePeers(peers);
              |r| == |kept| && |r| <= |peers| &&
              forall k :: 0 <= k < |r| ==> Ok(r[k]) == CreatePeerEntry(kept[k], egress, ts, beta)
      decreases |peers|
    {
      if peers != [] {
        PeerEntriesSkipping(egress, peers[1..], ts, beta);
        var rest := PeerEntries(egress, peers[1..], ts, beta);
        var keptRest := ResolvablePeers(peers[1..]);
        var head := PeerHead(peers[0], egress, ts, beta);
        assert PeerEntries(egress, peers, ts, beta) == head + rest;
        if CreatePeerEntry(peers[0], egress, ts, beta).Err? {
          assert head == [];
          assert head + rest == rest;
          assert ResolvablePeers(peers) == keptRest;
        } else {
          var p := CreatePeerEntry(peers[0], egress, ts, beta).value;
          assert head == [p];
          var kept := [peers[0]] + keptRest;
          assert ResolvablePeers(peers) == kept;
          var rel := (e: PeerEntry, ifid: IFID) => Ok(e) == CreatePeerEntry(ifid, egress, ts, beta);
          assert forall k :: 0 <= k < |rest| ==> rel(rest[k], keptRest[k]);
          ConsAligned(p, rest, peers[0], keptRest, rel);
          assert forall k :: 0 <= k < |rest| + 1 ==> rel(([p] + rest)[k], kept[k]);
        }
      }
    }

    /** The entry `Extend` appends, or the error it stops with before signing. */
    function BuildEntry(info: Info, entries: seq<ASEntry>, ingress: IFID, egress: IFID, peers: seq<IFID>): (r: Result<ASEntry, Error>)
      requires ShapeError(mtu, |entries| == 0, ingress, egress).None? ==> BetaReady(entries)
      ensures ShapeError(mtu, |entries| == 0, ingress, egress).Some? ==>
                r == Err(ShapeError(mtu, |entries| == 0, ingress, egress).value)
      ensures r.Ok? <==> ShapeError(mtu, |entries| == 0, ingress, egress).None?
                         && DefaultRemoteMTU(intfs, ingress).Ok? && DefaultRemoteIA(intfs, egress).Ok?
      ensures ShapeError(mtu, |entries| == 0, ingress, egress).None? && DefaultRemoteMTU(intfs, ingress).Err? ==>
                r == Err(Wrapped(CreatingHopEntry, Wrapped(CheckingRemoteIngressMtu, DefaultRemoteMTU(intfs, ingress).error)))
      ensures ShapeError(mtu, |entries| == 0, ingress, egress).None? && DefaultRemoteMTU(intfs, ingress).Ok? &&
              DefaultRemoteIA(intfs, egress).Err? ==>
                r == Err(DefaultRemoteIA(intfs, egress).error)
      ensures r.Ok? ==>
        r.value.local == ia && r.value.mtu == mtu as int &&
        r.value.next == (if egress == 0 then ZeroIA else intfs[egress].topoInfo.ia) &&
        r.value.hopEntry.ingressMTU == DefaultRemoteMTU(intfs, ingress).value as int &&
        r.value.hopEntry.hopField ==
          CreateHopF(ToU16(ingress), ToU16(egress), info.timestamp, Beta(info.segmentID, entries))
    {
      var firstHop := |entries| == 0;
      match ShapeError(mtu, firstHop, ingress, egress)
      case Some(e) => Err(e)
      case None =>
        var ts := info.timestamp;
        var beta := Beta(info.segmentID, entries);
        match CreateHopEntry(ingress, egress, ts, beta)
        case Err(e) => Err(Wrapped(CreatingHopEntry, e))
        case Ok(hop) =>
          var peerBeta := Xor(beta, BigEndian16(hop.hopField.mac));
          var peerEntries := PeerEntries(egress, peers, ts, peerBeta);
          match DefaultRemoteIA(intfs, egress)
          case Err(e) => Err(e)
          case Ok(next) => Ok(ASEntry(ia, next, hop, peerEntries, mtu as int))
    }

    /** `Extend`: appends one entry whose MACs are chained through beta and
        requests segment validation when `egress` is 0, beacon validation
        otherwise. */
    method Extend(pseg: PathSegment, ingress: IFID, egress: IFID, peers: seq<IFID>) returns (err: Outcome<Error>)
      requires ShapeError(mtu, |pseg.asEntries| == 0, ingress, egress).None? ==> BetaReady(pseg.asEntries)
      modifies pseg
      ensures (err, pseg.asEntries) ==
        Finish(BuildEntry(pseg.info, old(pseg.asEntries), ingress, egress, peers),
               signer, pseg.validator, pseg.info, old(pseg.asEntries), egress)
    {
      if mtu == 0 {
        return Fail(MtuNotSet);
      }
      var firstHop := pseg.MaxIdx() < 0;
      if ingress == 0 && !firstHop {
        return Fail(IngressOnlyZeroInFirstHop);
      }
      if ingress != 0 && firstHop {
        return Fail(IngressZeroInFirstHop);
      }
      if ingress == 0 && egress == 0 {
        return Fail(IngressAndEgressZero);
      }
      var ts := pseg.info.timestamp;
      var beta := ExtractBeta(pseg);
      var hopEntry := CreateHopEntry(ingress, egress, ts, beta);
      if hopEntry.Err? {
        return Fail(Wrapped(CreatingHopEntry, hopEntry.error));
      }
      var beta2 := ExtractBeta(pseg);
      var peerBeta := Xor(beta2, BigEndian16(hopEntry.value.hopField.mac));
      var peerEntries := CreatePeerEntries(egress, peers, ts, peerBeta);
      var next := DefaultRemoteIA(intfs, egress);
      if next.Err? {
        return Fail(next.error);
      }
      var asEntry := ASEntry(ia, next.value, hopEntry.value, peerEntries, mtu as int);
      var addErr := pseg.AddASEntry(asEntry, signer);
      if addErr.Fail? {
        return Fail(Segment(addErr.error));
      }
      if egress == 0 {
        err := Lift(pseg.Validate(ValidateSegment));
      } else {
        err := Lift(pseg.Validate(ValidateBeacon));
      }
    }

    /** Peer MACs use the beta of the segment with the new entry appended:
        the peer entries of a built entry are those computed with
        `Beta(segment ++ [entry])`. */
    lemma PeerBetaIsNextBeta(info: Info, entries: seq<ASEntry>, ingress: IFID, egress: IFID, peers: seq<IFID>)
      requires ShapeError(mtu, |entries| == 0, ingress, egress).None? ==> BetaReady(entries)
      requires BuildEntry(info, entries, ingress, egress, peers).Ok?
      ensures var e := BuildEntry(info, entries, ingress, egress, peers).value;
              BetaReady(entries + [e]) &&
              e.peerEntries == PeerEntries(egress, peers, info.timestamp, Beta(info.segmentID, entries + [e]))
    {
      var e := BuildEntry(info, entries, ingress, egress, peers).value;
      BetaAppend(info.segmentID, entries, e);
    }

    /** The segment enters the default hop field only through beta: two
        segments of the same emptiness, timestamp and beta get the same
        hop entry and peer entries. */
    lemma HopDependsOnlyOnBeta(info1: Info, entries1: seq<ASEntry>, info2: Info, entries2: seq<ASEntry>,
                               ingress: IFID, egress: IFID, peers: seq<IFID>)
      requires BetaReady(entries1) && BetaReady(entries2)
      requires (|entries1| == 0 <==> |entries2| == 0) && info1.timestamp == info2.timestamp
      requires Beta(info1.segmentID, entries1) == Beta(info2.segmentID, entries2)
      ensures BuildEntry(info1, entries1, ingress, egress, peers) == BuildEntry(info2, entries2, ingress, egress, peers)
    {
    }
  }
}
