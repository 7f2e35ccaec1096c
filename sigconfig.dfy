/** The SIG section of the gateway configuration and its `Validate`, which
    checks the required fields in a fixed order and only then fills the
    optional ones with their defaults. */
module SigConfig {
  import opened Common

  const DefaultCtrlPort: u16 := 30256
  const DefaultEncapPort: u16 := 30056
  const DefaultTunName: string := "sig"
  const DefaultTunRTableId: int := 11

  // ---------------------------------------------------------------------------
  // IP addresses as Go's `net.IP` sees them

  /** The twelve-byte prefix of an IPv4 address held in sixteen bytes. */
  const V4InV6Prefix: seq<byte> := [0, 0, 0, 0, 0, 0, 0, 0, 0, 0, 0xff, 0xff]
  const IPv4Zero: seq<byte> := V4InV6Prefix + [0, 0, 0, 0]
  const IPv6Unspecified: seq<byte> := [0, 0, 0, 0, 0, 0, 0, 0, 0, 0, 0, 0, 0, 0, 0, 0]

  /** `net.IP.Equal`: equal bytes at equal length, and a four-byte address
      equals its sixteen-byte IPv4-in-IPv6 form. */
  function IPEqual(ip: seq<byte>, x: seq<byte>): bool
  {
    if |ip| == |x| then ip == x
    else if |ip| == 4 && |x| == 16 then x[..12] == V4InV6Prefix && x[12..] == ip
    else if |ip| == 16 && |x| == 4 then ip[..12] == V4InV6Prefix && ip[12..] == x
    else false
  }

  /** `net.IP.IsUnspecified`: equal to 0.0.0.0 or to ::. */
  predicate IsUnspecified(ip: seq<byte>)
  {
    IPEqual(ip, IPv4Zero) || IPEqual(ip, IPv6Unspecified)
  }

  /** Exactly three byte strings are unspecified; an absent (empty) address
      is not one of them. */
  lemma UnspecifiedAddresses(ip: seq<byte>)
    ensures IsUnspecified(ip) <==> ip == [0, 0, 0, 0] || ip == IPv4Zero || ip == IPv6Unspecified
    ensures !IsUnspecified([])
  {
    if |ip| == 4 && IPEqual(ip, IPv4Zero) {
      assert ip == IPv4Zero[12..];
    }
    if ip == [0, 0, 0, 0] {
      assert IPv4Zero[..12] == V4InV6Prefix && IPv4Zero[12..] == ip;
    }
  }

  // ---------------------------------------------------------------------------
  // The configuration as a value

  /** The fields of `SigConf`. Addresses are their bytes, empty when unset;
      ports are 16-bit. */
  datatype SigValues = SigValues(
    id: string, sigConfig: string, ia: IA, ip: seq<byte>,
    ctrlPort: u16, encapPort: u16, tun: string, tunRTableId: int,
    srcIP4: seq<byte>, srcIP6: seq<byte>, dispatcherBypass: string)

  datatype ConfError = IdNotSet | SigConfigNotSet | IANotSet | IAWildcard | IPNotSet

  /** The required-field checks of `Validate` as written: the IP check only
      rejects an unspecified address. */
  function CheckAsWritten(v: SigValues): (r: Option<ConfError>)
    ensures r.None? <==> v.id != "" && v.sigConfig != "" && !v.ia.IsWildcard() && !IsUnspecified(v.ip)
  {
    if v.id == "" then Some(IdNotSet)
    else if v.sigConfig == "" then Some(SigConfigNotSet)
    else if v.ia.IsZero() then Some(IANotSet)
    else if v.ia.IsWildcard() then Some(IAWildcard)
    else if IsUnspecified(v.ip) then Some(IPNotSet)
    else None
  }

  /** The required-field checks, in order, with the IP check also rejecting
      an address that was never set. */
  function Check(v: SigValues): (r: Option<ConfError>)
    ensures v.id == "" ==> r == Some(IdNotSet)
    ensures v.id != "" && v.sigConfig == "" ==> r == Some(SigConfigNotSet)
    ensures v.id != "" && v.sigConfig != "" && v.ia.IsZero() ==> r == Some(IANotSet)
    ensures v.id != "" && v.sigConfig != "" && !v.ia.IsZero() && v.ia.IsWildcard() ==> r == Some(IAWildcard)
    ensures v.id != "" && v.sigConfig != "" && !v.ia.IsWildcard() && (v.ip == [] || IsUnspecified(v.ip)) ==>
              r == Some(IPNotSet)
    ensures r.None? <==> v.id != "" && v.sigConfig != "" && !v.ia.IsWildcard() && v.ip != [] && !IsUnspecified(v.ip)
  {
    if v.id == "" then Some(IdNotSet)
    else if v.sigConfig == "" then Some(SigConfigNotSet)
    else if v.ia.IsZero() then Some(IANotSet)
    else if v.ia.IsWildcard() then Some(IAWildcard)
    else if v.ip == [] || IsUnspecified(v.ip) then Some(IPNotSet)
    else None
  }

  /** The defaulting half of `Validate`: each optional field that is zero or
      empty takes its default, every other field keeps its value. */
  function WithDefaults(v: SigValues): (r: SigValues)
    ensures r.ctrlPort == (if v.ctrlPort == 0 then DefaultCtrlPort else v.ctrlPort)
    ensures r.encapPort == (if v.encapPort == 0 then DefaultEncapPort else v.encapPort)
    ensures r.tun == (if v.tun == "" then DefaultTunName else v.tun)
    ensures r.tunRTableId == (if v.tunRTableId == 0 then DefaultTunRTableId else v.tunRTableId)
    ensures r.(ctrlPort := v.ctrlPort, encapPort := v.encapPort, tun := v.tun, tunRTableId := v.tunRTableId) == v
  {
    v.(ctrlPort := if v.ctrlPort == 0 then DefaultCtrlPort else v.ctrlPort,
       encapPort := if v.encapPort == 0 then DefaultEncapPort else v.encapPort,
       tun := if v.tun == "" then DefaultTunName else v.tun,
       tunRTableId := if v.tunRTableId == 0 then DefaultTunRTableId else v.tunRTableId)
  }

  /** After defaulting every optional field is set, defaulting again changes
      nothing, and the required-field checks see the same values. */
  lemma DefaultsSettle(v: SigValues)
    ensures var d := WithDefaults(v);
            d.ctrlPort != 0 && d.encapPort != 0 && d.tun != "" && d.tunRTableId != 0 &&
            WithDefaults(d) == d && Check(d) == Check(v)
  {
  }

  /** A second `Validate` after a successful one passes and changes
      nothing. */
  lemma ValidateIdempotent(v: SigValues)
    requires Check(v).None?
    ensures Check(WithDefaults(v)).None? && WithDefaults(WithDefaults(v)) == WithDefaults(v)
  {
    DefaultsSettle(v);
  }

  /** The as-written check lets a configuration without an IP through. */
  lemma UnsetIPAcceptedAsWritten()
    ensures var v := SigValues("sig1", "sig.json", IA(1, 0xff00_0000_0110), [], 0, 0, "", 0, [], [], "");
            CheckAsWritten(v).None? && Check(v) == Some(IPNotSet)
  {
    UnspecifiedAddresses([]);
  }

  /** The two checks differ on the empty address only. */
  lemma CheckCorrectsOnlyEmptyIP(v: SigValues)
    ensures v.ip != [] ==> Check(v) == CheckAsWritten(v)
  {
  }

  // ---------------------------------------------------------------------------
  // The configuration object

  class SigConf {
    var id: string
    var sigConfig: string
    var ia: IA
    var ip: seq<byte>
    var ctrlPort: u16
    var encapPort: u16
    var tun: string
    var tunRTableId: int
    var srcIP4: seq<byte>
    var srcIP6: seq<byte>
    var dispatcherBypass: string

    constructor(v: SigValues)
      ensures Values() == v
    {
      id, sigConfig, ia, ip := v.id, v.sigConfig, v.ia, v.ip;
      ctrlPort, encapPort, tun, tunRTableId := v.ctrlPort, v.encapPort, v.tun, v.tunRTableId;
      srcIP4, srcIP6, dispatcherBypass := v.srcIP4, v.srcIP6, v.dispatcherBypass;
    }

    function Values(): SigValues
      reads this
    {
      SigValues(id, sigConfig, ia, ip, ctrlPort, encapPort, tun, tunRTableId, srcIP4, srcIP6, dispatcherBypass)
    }

    /** `Validate`: the first failing required-field check is returned and
        nothing is written; when all pass, the optional fields are
        defaulted in place. */
    method Validate() returns (err: Option<ConfError>)
      modifies this
      ensures err == Check(old(Values()))
      ensures Values() == if err.None? then WithDefaults(old(Values())) else old(Values())
    {
      if id == "" {
        return Some(IdNotSet);
      }
      if sigConfig == "" {
        return Some(SigConfigNotSet);
      }
      if ia.IsZero() {
        return Some(IANotSet);
      }
      if ia.IsWildcard() {
        return Some(IAWildcard);
      }
      if ip == [] || IsUnspecified(ip) {
        return Some(IPNotSet);
      }
      if ctrlPort == 0 {
        ctrlPort := DefaultCtrlPort;
      }
      if encapPort == 0 {
        encapPort := DefaultEncapPort;
      }
      if tun == "" {
        tun := DefaultTunName;
      }
      if tunRTableId == 0 {
        tunRTableId := DefaultTunRTableId;
      }
      return None;
    }
  }
}
