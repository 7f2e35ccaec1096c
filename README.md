# Beacon extension, path filtering, configuration defaults and topology diffing

A Dafny model of five pieces of a SCION implementation:

- **Beacon extension** (`go/cs/beaconing/extender.go`). A control service extends the path segment of a beacon by one AS entry. The entry holds a hop field whose MAC is chained to the hops before it, plus one peer entry per usable peering link. There are two extenders:
  - the legacy one chains each MAC to the packed previous hop field;
  - the default one chains it through a 16-bit value *beta*, the segment identifier XOR-folded with the first two MAC bytes of every entry already in the segment.
- **Application path helpers** (`pkg/appnet/path_selection.go`):
  - de-duplication of paths by fingerprint, keeping the latest-expiring one;
  - the demo exclusion filter;
  - the first-best selection loops.
- **Configuration defaulting**. `SigConf.Validate` of the SCION IP gateway checks its required fields in order and only then fills in defaults (`go/sig/internal/sigconfig/conf.go`). The `InitDefaults` methods of the logging configuration fill unset fields (`go/lib/log/config.go`).
- **Topology comparison** of the AD manager web application (`web_scion/ad_manager/views.py`). `_get_changes` lists how a stored topology and a topology reported by an AD differ. `compare_remote_topology` turns that list into a status.

The files are:

- `common.dfy`: shared values, namely the ISD-AS address, fixed-width integers, `Option`, `Result` and `Outcome`.
- `seg.dfy`: the path-segment container, a class whose entry list grows in place.
- `ifstate.dfy`: the interface table.
- `extender.dfy`: both extenders.
- `path_selection.dfy`, `sigconfig.dfy`, `logconfig.dfy` and `topology_changes.dfy`: the other four pieces.

Code that changes state in place is modelled as methods with loops or on classes. Each method is proved equal to a specification function, and the promised properties are lemmas about those functions. The source's methods of that kind are:

- `PathSegment.AddASEntry` and both `Extend`s;
- the `createPeerEntries` loops and `extractBeta`;
- `createPeerMap`;
- the loops of `filterDuplicates`, `demoFilterPaths` and the selection functions;
- `SigConf.Validate` and the `InitDefaults` methods;
- the nested loops of `_get_changes`.

The extenders' collaborators are parameters of the extender values:

- the MAC and `path.MACInput`;
- `spath.HopField.CalcMac` and `Pack`;
- `util.TimeToSecs`;
- the signer and the container's validation.

The extenders are modelled as datatypes because their fields never change. They are proved for every choice of the collaborators.

Only the legacy `remoteInfo` (extender.go:191-209, the state test at line 202) rejects an inactive interface. The default extender's `remoteInfo`, `remoteIA` and `remoteMTU` (extender.go:367-410) do not, and `remoteMTU` checks only that the interface exists. The model follows the code (`Beaconing.RemoteInfoVariants`).

## Model

| member | source | states |
|---|---|---|
| Common.ToU16 | go/cs/beaconing/extender.go:212 | Go's `uint16(x)`: the result is congruent to `x` modulo 2^16 and equals `x` when it already fits |
| Seg.PathSegment.AddASEntry | go/cs/beaconing/extender.go:117 | the signer's verdict is returned; the entry is appended exactly when signing passes, otherwise the segment is unchanged |
| Beaconing.ShapeError | go/cs/beaconing/extender.go:72-84 | the checks pass iff the MTU is set, ingress is zero exactly on the first hop and not both interfaces are zero; the first failing check decides the error: MTU, then ingress on a later hop, then ingress on the first hop, then both zero |
| Beaconing.Finish | go/cs/beaconing/extender.go:117-123 | a build error is returned with the segment unchanged; a signing error is returned with the segment unchanged; otherwise exactly the built entry is appended and the verdict of `ValidateSegment` (egress 0) or `ValidateBeacon` is returned unchanged |
| Beaconing.LegacyRemoteInfo | go/cs/beaconing/extender.go:191-213 | interface 0 resolves to zeros; any other resolves iff it exists, is active (`IfState.IntfActive`, modelling `intfActive` at extender.go:443-446: the interface exists and its state is Active), has its remote interface set and a non-wildcard remote address; a missing interface and an inactive one give their own errors; on success the remote address, remote interface and MTU (cut to 16 bits) of the topology entry |
| Beaconing.DefaultRemoteInfo | go/cs/beaconing/extender.go:394-412 | as the legacy resolution but without looking at the interface state |
| Beaconing.DefaultRemoteIA | go/cs/beaconing/extender.go:367-380 | interface 0 gives the zero address; any other resolves iff it exists and its remote address is not a wildcard, and the remote interface id is not checked |
| Beaconing.DefaultRemoteMTU | go/cs/beaconing/extender.go:382-392 | interface 0 gives 0; any other resolves iff it exists, to its MTU cut to 16 bits |
| Beaconing.RemoteInfoVariants | go/cs/beaconing/extender.go:191-213 | the legacy resolution is the default one except that an existing inactive interface is rejected; whatever the default `remoteInfo` resolves, `remoteIA` and `remoteMTU` resolve to the same address and MTU |
| Beaconing.Min | go/cs/beaconing/extender.go:448-453 | the result is one of the two arguments and no larger than either |
| Beaconing.BetaShift | go/cs/beaconing/extender.go:434-441 | XOR-folding the MAC bytes commutes with an XOR of the starting value |
| Beaconing.BetaAppend | go/cs/beaconing/extender.go:434-441 | beta of the segment with an entry appended is beta of the segment XOR the entry's first two MAC bytes read big-endian |
| Beaconing.BetaReplace | go/cs/beaconing/extender.go:434-441 | replacing any one entry changes beta by exactly the XOR of its old and new leading MAC bytes |
| Beaconing.BetaDetectsTamper | go/cs/beaconing/extender.go:434-441 | changing the leading MAC bytes of any entry changes beta |
| Beaconing.ExtractBeta | go/cs/beaconing/extender.go:434-441 | the loop returns the segment identifier XOR-folded with the big-endian first two MAC bytes of every entry, in order |
| Beaconing.CopyInto | go/cs/beaconing/extender.go:231 | Go's `copy` into a fresh value keeps the destination's length |
| Beaconing.CopyIntoBytes | go/cs/beaconing/extender.go:231 | each byte comes from the source where the source reaches and is the destination's beyond it |
| Beaconing.PrevMaterial | go/cs/beaconing/extender.go:226-229 | no material without a previous hop; otherwise the seven packed bytes after the flags byte |
| Beaconing.LegacyExtender.CreateHopF | go/cs/beaconing/extender.go:217-233 | the hop field carries the full ingress and egress ids, the configured expiration and a six-byte MAC |
| Beaconing.LegacyExtender.CreateHopFMac | go/cs/beaconing/extender.go:220-231 | the six MAC bytes are the MAC over the zero-MAC hop field, the seconds of the timestamp and the previous-hop material, cut or zero-padded to six |
| Beaconing.LegacyExtender.CreateHopEntry | go/cs/beaconing/extender.go:168-189 | fails iff the ingress interface does not resolve, with that error wrapped as an invalid remote ingress; otherwise the ingress MTU is the remote MTU and the hop field is the stored form of `createHopF` |
| Beaconing.LegacyExtender.CreatePeerEntry | go/cs/beaconing/extender.go:142-162 | a peer gives an entry iff its interface resolves; the entry carries the remote address, remote interface, remote MTU and the hop field over the peer interface and egress |
| Beaconing.LegacyExtender.CreatePeerEntries | go/cs/beaconing/extender.go:136-166 | the loop returns, never failing, the in-order concatenation of the entries of the peers that resolve |
| Beaconing.LegacyExtender.PeerEntriesSkipping | go/cs/beaconing/extender.go:139-165 | the peer entries correspond one to one, in order, to the requested peers that resolve, each being that peer's entry |
| Beaconing.LegacyExtender.ResolvablePeers | go/cs/beaconing/extender.go:140-146 | every kept peer was requested and resolves |
| Beaconing.LegacyExtender.PeerEntriesBound | go/cs/beaconing/extender.go:139-165 | there are at most as many peer entries as requested peers |
| Beaconing.LegacyExtender.BuildEntry | go/cs/beaconing/extender.go:72-109 | a failed shape check is the error; otherwise an entry is built iff both the ingress and the egress interface resolve; an unresolved ingress gives its error wrapped as an invalid remote ingress, and an unresolved egress after a resolved ingress gives the egress error unwrapped; the entry has the local address, the configured MTU, the egress' remote address (zero for egress 0), the remote MTU of the ingress, a hop field over the 16-bit ingress and egress with the configured expiration and six MAC bytes, and at most one peer entry per peer |
| Beaconing.LegacyExtender.LegacyChain | go/cs/beaconing/extender.go:85-95 | the new hop field is computed over the packed last hop field of the segment, or over no previous material on the first hop; packing is `LegacyExtender.PackHopField`, modelling `packHopField` at extender.go:126-134: the stored hop field's ids, expiry and first three MAC bytes, packed by the collaborator |
| Beaconing.LegacyExtender.LegacyPeerChain | go/cs/beaconing/extender.go:94-95 | the peer entries of a built entry are computed over the packed new hop field: one per resolvable peer, in request order, each that peer's entry chained to the new hop field, packed by `LegacyExtender.PackHopField` |
| Beaconing.LegacyExtender.Extend | go/cs/beaconing/extender.go:69-124 | the returned error and the new entries of the segment are those of `Finish` applied to `BuildEntry`: errors in the source's order, nothing appended on any error before signing, one entry appended on success and the validation mode chosen by egress |
| Beaconing.DefaultExtender.CreateHopF | go/cs/beaconing/extender.go:414-432 | the hop field carries ingress, egress, the configured expiration and the first six bytes of the MAC over the MAC input of beta, the seconds of the timestamp, the expiration, ingress and egress |
| Beaconing.DefaultExtender.CreateHopEntry | go/cs/beaconing/extender.go:325-343 | fails iff the ingress interface is unknown, with the error wrapped; otherwise the hop entry has the remote MTU and `createHopF` over the 16-bit ids |
| Beaconing.DefaultExtender.CreatePeerEntry | go/cs/beaconing/extender.go:345-365 | succeeds iff the peer interface resolves, otherwise wraps the resolution error; the entry carries the remote address, interface, MTU and the hop field over the peer interface and egress |
| Beaconing.DefaultExtender.CreatePeerEntries | go/cs/beaconing/extender.go:310-323 | the loop returns, never failing, the in-order entries of the peers whose `createPeerEntry` succeeds |
| Beaconing.DefaultExtender.ResolvablePeers | go/cs/beaconing/extender.go:314-319 | every kept peer was requested and resolves |
| Beaconing.DefaultExtender.PeerEntriesSkipping | go/cs/beaconing/extender.go:313-322 | the peer entries correspond one to one, in order, to the requested peers that resolve, each being that peer's successful entry, and there are at most as many as requested peers |
| Beaconing.DefaultExtender.BuildEntry | go/cs/beaconing/extender.go:259-293 | a failed shape check is the error; otherwise an entry is built iff the ingress MTU and the egress address resolve; an unresolved ingress MTU gives its error wrapped as checking the remote ingress MTU inside creating the hop entry, and an unresolved egress after a resolved ingress gives the egress error unwrapped; the entry has the local address, the configured MTU, the egress' remote address (zero for egress 0), the ingress' remote MTU and the hop field computed with beta of the segment |
| Beaconing.DefaultExtender.Extend | go/cs/beaconing/extender.go:256-308 | the returned error and the new entries of the segment are those of `Finish` applied to `BuildEntry`, as for the legacy extender |
| Beaconing.DefaultExtender.PeerBetaIsNextBeta | go/cs/beaconing/extender.go:274-279 | the peer entries of a built entry are computed with beta of the segment with that entry appended |
| Beaconing.DefaultExtender.HopDependsOnlyOnBeta | go/cs/beaconing/extender.go:272-279 | two segments of the same emptiness, timestamp and beta get the same entry: the segment enters the MACs only through beta |
| IfState.CreatePeerMap | go/cs/beaconing/extender.go:457-465 | the set holds exactly the interfaces whose link type is peering |
| AppNet.Chosen | pkg/appnet/path_selection.go:132-139 | after each prefix every fingerprint seen maps to an index of the prefix carrying that fingerprint |
| AppNet.ChoosePaths | pkg/appnet/path_selection.go:132-139 | the first loop builds the fingerprint map of the whole input |
| AppNet.ChosenIndices | pkg/appnet/path_selection.go:142-145 | the second loop collects exactly the chosen indices, whatever order it visits the map in |
| AppNet.KeptOrder | pkg/appnet/path_selection.go:147-151 | the kept indices below `n`, strictly ascending, each of them present |
| AppNet.KeepInOrder | pkg/appnet/path_selection.go:146-152 | the third loop returns the paths of the kept indices in input order |
| AppNet.FilterDuplicates | pkg/appnet/path_selection.go:130-153 | the result is the paths at the chosen indices, in input order |
| AppNet.ChosenIsLatest | pkg/appnet/path_selection.go:136-137 | the chosen path of a fingerprint expires no earlier than any path with that fingerprint, and on equal expiry it is the earliest such |
| AppNet.DeduplicatedProperties | pkg/appnet/path_selection.go:130-153 | the result is an in-order subsequence of the input; no two kept paths share a fingerprint; every fingerprint of the input is kept; each kept path has the latest expiry of its fingerprint, the earliest on ties |
| AppNet.InterfaceSet | pkg/appnet/path_selection.go:312-318 | the set of (AS, interface) pairs holds exactly the interfaces of the path |
| AppNet.PathInterfaceSet | pkg/appnet/path_selection.go:312-318 | the loop builds that set |
| AppNet.ContainsAllInterfaces | pkg/appnet/path_selection.go:302-310 | true iff every interface of the list is on the path, so true for the empty list |
| AppNet.FirstMatchingRule | pkg/appnet/path_selection.go:287-293 | the rule loop with its early exit reports exclusion iff some rule is wholly on the path |
| AppNet.DemoFilterPaths | pkg/appnet/path_selection.go:284-298 | the loop returns the paths that match no exclusion rule, in input order |
| AppNet.DemoFilteredAppend | pkg/appnet/path_selection.go:284-298 | filtering distributes over concatenation, so the kept paths keep their relative order |
| AppNet.DemoFilteredCounts | pkg/appnet/path_selection.go:284-298 | an excluded path never survives, and every other path survives as often as it occurs |
| AppNet.DemoRulesExamples | pkg/appnet/path_selection.go:273-282 | the slow links of the bandwidth AS exclude a path on their own; a latency link is excluded together with a lossy link; a path only through the latency AS is never excluded |
| AppNet.SelectShortestPath | pkg/appnet/path_selection.go:186-192 | on a non-empty list, the selected path has the fewest interfaces, and every path before it has strictly more |
| AppNet.SelectLargestMTUPath | pkg/appnet/path_selection.go:202-208 | on a non-empty list, the selected path has the largest MTU, and every path before it has a strictly smaller one |
| SigConfig.UnspecifiedAddresses | go/sig/internal/sigconfig/conf.go:147 | `net.IP.IsUnspecified` holds exactly for 0.0.0.0 in four or sixteen bytes and for ::, and not for an absent address |
| SigConfig.CheckAsWritten | go/sig/internal/sigconfig/conf.go:135-149 | the checks of `Validate` as written pass iff ID and SIGConfig are set, the IA is not a wildcard and the IP is not unspecified |
| SigConfig.Check | go/sig/internal/sigconfig/conf.go:135-149 | the first failing check in the order ID, SIGConfig, IA zero, IA wildcard, IP is the error; the checks pass iff all fields are set and the IP is present and specified |
| SigConfig.WithDefaults | go/sig/internal/sigconfig/conf.go:150-161 | a zero control port becomes 30256, a zero encapsulation port 30056, an empty TUN name "sig", a zero routing table 11; set values and every other field are kept |
| SigConfig.DefaultsSettle | go/sig/internal/sigconfig/conf.go:150-161 | after defaulting the four optional fields are set; defaulting again changes nothing; the required checks see the same values |
| SigConfig.ValidateIdempotent | go/sig/internal/sigconfig/conf.go:134-162 | after a successful `Validate` a second one passes and changes nothing |
| SigConfig.UnsetIPAcceptedAsWritten | go/sig/internal/sigconfig/conf.go:147-149 | as written, a configuration without an IP passes, while the corrected check rejects it |
| SigConfig.CheckCorrectsOnlyEmptyIP | go/sig/internal/sigconfig/conf.go:147-149 | the corrected check differs from the written one only on an absent IP |
| SigConfig.SigConf.Validate | go/sig/internal/sigconfig/conf.go:134-163 | returns the first failing check (with the corrected IP check, see ## Findings) and writes nothing; when all pass, fills the defaults in place and returns no error |
| LogConfig.FileDefaults | go/lib/log/config.go:189-206 | an empty level becomes "debug", size 0 becomes 50, max age 0 becomes 7, max backups 0 becomes 10, an absent flush interval becomes 5; set fields, the path and the compression flag are kept |
| LogConfig.FileDefaultsSettle | go/lib/log/config.go:189-206 | afterwards every defaultable field is set; a fully set configuration is left alone; defaulting is idempotent |
| LogConfig.ConsoleDefaultsSettle | go/lib/log/config.go:216-220 | the console level is set afterwards and defaulting it is idempotent |
| LogConfig.FileConfig.InitDefaults | go/lib/log/config.go:189-206 | the fields after the call are the defaulted values of the fields before it |
| LogConfig.ConsoleConfig.InitDefaults | go/lib/log/config.go:216-220 | an empty level becomes "crit", any other is kept |
| LogConfig.Config.InitDefaults | go/lib/log/config.go:52-55 | the file defaulting and the console defaulting, and nothing else |
| AdManager.SortByNameSorted | web_scion/ad_manager/views.py:139-145 | the servers sorted by name are in non-decreasing name order |
| AdManager.SortByNamePermutes | web_scion/ad_manager/views.py:139-145 | sorting only reorders the servers |
| AdManager.SortByNameMap | web_scion/ad_manager/views.py:139-145 | the order of the sort depends only on the names, never on the servers |
| AdManager.SortByNameStable | web_scion/ad_manager/views.py:139-145 | the sort is stable: for every name, the servers with that name keep their input order |
| AdManager.ChangedKeys | web_scion/ad_manager/views.py:126-129 | the key loop emits one message per differing key, in the order ADID, ISDID, Core |
| AdManager.ServerPairChanges | web_scion/ad_manager/views.py:153-173 | the field loop of one server pair, with its `continue`, emits the pair's address message and then its neighbour-field messages, in field-list order, the latter with the corrected labels (see ## Findings) |
| AdManager.ServerTypeChanges | web_scion/ad_manager/views.py:141-173 | for one server type: one count message when the numbers differ, otherwise the messages of each sorted pair in turn, with the corrected neighbour labels (see ## Findings) |
| AdManager.GetChanges | web_scion/ad_manager/views.py:123-174 | the key messages, then the messages of each server type in turn, with the corrected neighbour labels (see ## Findings) |
| AdManager.CompareStatus | web_scion/ad_manager/views.py:183-195 | FAIL iff there is no remote topology; otherwise OK iff the topologies agree on every compared field, and CHANGED iff the change list is non-empty |
| AdManager.KeyChangesEmpty | web_scion/ad_manager/views.py:126-129 | no key message iff the three keys agree |
| AdManager.KeysAgreeIff | web_scion/ad_manager/views.py:126-129 | no key message iff every top-level key agrees |
| AdManager.KeyRank | web_scion/ad_manager/views.py:126 | each key has one position in the comparison order |
| AdManager.EdgeRouterFields | web_scion/ad_manager/views.py:132-138 | edge routers compare `Addr`, then `Interface` with NeighborAD, NeighborISD and NeighborType |
| AdManager.NestedChangesEmpty | web_scion/ad_manager/views.py:164-173 | no neighbour message iff the compared nested fields agree |
| AdManager.FieldsChangesEmpty | web_scion/ad_manager/views.py:155-173 | a server pair gives no message iff the pair agrees on its compared fields: the address, plus the three neighbour fields for edge routers |
| AdManager.PairChangesEmpty | web_scion/ad_manager/views.py:153-173 | the pairs give no message iff every sorted pair agrees on its compared fields |
| AdManager.TypeChangesEmpty | web_scion/ad_manager/views.py:141-173 | a server type gives no message iff both sides have as many servers and the sorted pairs agree |
| AdManager.ChangesEmptyIff | web_scion/ad_manager/views.py:123-174 | the change list is empty iff the topologies agree on the keys and on every compared field of every sorted server pair |
| AdManager.SortedViews | web_scion/ad_manager/views.py:139-147 | servers with the same names and compared fields sort to pairwise equal compared fields |
| AdManager.TypeChangesByView | web_scion/ad_manager/views.py:141-173 | the messages of a server type depend only on the names and compared fields of its servers |
| AdManager.ChangesSeeOnlyCompared | web_scion/ad_manager/views.py:123-174 | topologies with the same keys, names and compared fields give the same change list, so fields that are not compared never produce messages |
| AdManager.KeysShape | web_scion/ad_manager/views.py:126-129 | at most three key messages, strictly in key order, one for a key iff it differs |
| AdManager.TypeChangesShape | web_scion/ad_manager/views.py:148-173 | all messages of a server type are about it; different counts give exactly the count message; equal counts give only field messages |
| AdManager.KeyMessagesFirst | web_scion/ad_manager/views.py:124-140 | the change list starts with the key messages in key order; no later message is a key message; a key message appears iff that key differs |
| AdManager.MessagesPerServerType | web_scion/ad_manager/views.py:148-152 | the messages about a server type are exactly those of its own pass; different counts give the count message and no field message; the count message appears iff the counts differ |
| AdManager.PairAddrMessage | web_scion/ad_manager/views.py:156-159 | a pair gives an address message iff the addresses differ, with the stored address as local and the remote one as remote |
| AdManager.AddrMessages | web_scion/ad_manager/views.py:153-160 | an address message appears iff the stored and remote servers at some sorted position have those two different addresses |
| AdManager.PairNestedMessage | web_scion/ad_manager/views.py:161-173 | a pair gives a neighbour message iff it is an edge-router pair whose values of that field differ, labelled with the stored value as local |
| AdManager.NestedMessages | web_scion/ad_manager/views.py:164-173 | a nested message appears iff the field is compared and its stored and remote values, labelled as such, differ |
| AdManager.NeighborMessages | web_scion/ad_manager/views.py:153-173 | a neighbour message appears iff, for edge routers only, the stored and remote servers at some sorted position hold those two different values, the stored one labelled local |
| AdManager.AsWrittenSwapsLabels | web_scion/ad_manager/views.py:168-173 | as written, each neighbour message equals the corrected one computed with the two servers exchanged |
| AdManager.AsWrittenMislabelsExample | web_scion/ad_manager/views.py:168-173 | a stored neighbour AD of 1 against a remote one of 2 is reported as written with local 2 and remote 1, and when corrected with local 1 and remote 2 |

## Left out

- StaticInfo: the static-info extension is built and then thrown away, so it has no effect on the segment.
- Logging: the debug messages for skipped peers are not modelled.
- Collaborators: the MAC hash, `CalcMac`, `MACInput`, `Pack`, `TimeToSecs`, the signer and the container's validation are function parameters. Their own implementations, and the container `go/lib/ctrl/seg`, are not part of this model.
- `MaxExpTime`: it is called as a function in the source and is a fixed configured value here.
- Go slice bounds: the extenders slice the MAC bytes they read (`MAC[:2]`, `MAC[:3]`) and would panic on shorter MACs. That demand is the `BetaReady`/`LegacyReady` requires of `Extend`, `BuildEntry` and `ExtractBeta`. The default `createHopF` takes `fullMAC[:6]` (extender.go:430) and would panic on a shorter MAC result; the model's MAC collaborator returns the type `FullMac` of at least six bytes.
- Dropped error path: the `createPeerEntries` error result is always nil in the source, so the model's peer-entry methods return no error.
- Error values: errors are datatype constructors; their message texts and key-value context are not modelled.
- `ifstate.Interfaces`: modelled as a read-only map snapshot, and its concurrency is not modelled.
- Address predicates: `IA.IsZero` and `IA.IsWildcard` are modelled as both parts zero and some part zero. The `go/lib/addr` package is not part of this model.
- Float metrics: the logistic metrics of the selection functions and the map-order dispatch of `pathSelection` are not modelled.
- Interactive and network helpers: `ChoosePathInteractive`, `QueryPaths` and `SetDefaultPath` (stdin and network) are not modelled.
- Selection on an empty list: the loops of `selectShortestPath` and `selectLargestMTUPath` require a non-empty list, because on an empty one the source reads a nil path.
- Path fingerprints: taken as a given string field, not computed from the interfaces. Expiry times are integers compared with `<`.
- `Configure` methods: the interactive methods of both configurations are not modelled, and neither are the sample writers. The log `Configure` stores the max-backups answer in `MaxAge`. That is outside this model, so it is noted here and not listed as a finding.
- `SigConf.InitDefaults` and the gateway `Config`: `SigConf.InitDefaults` is empty and the gateway `Config` only delegates to its parts, so neither is modelled.
- `net.IP`: modelled as its bytes, empty when unset. Only `Equal` and `IsUnspecified` are modelled.
- Django request handling and the other views: `compare_remote_topology` is modelled only in its status decision. The remote topology is `None` when it cannot be fetched. An empty remote dictionary, which Python also treats as false, is not distinguished from that case.
- Topologies: reduced to the three keys, the four server groups and a bag of other fields.
  - Server names are integers, so a name `int()` cannot parse is not covered.
  - A missing key, which raises `KeyError` in Python, cannot be represented.
  - Dictionary iteration order is assumed to be insertion order, which Python guarantees from version 3.7. It fixes the order of `element_fields`: path, certificate and beacon servers, then edge routers.
  - Servers whose names `int()` maps to the same integer (such as "1" and "01") are one name here; `SortByNameStable` keeps them in their input order.
- SigConf.Validate: rejects an unset IP with the IP error, unlike conf.go:147-149, which lets it through; the as-written check is `CheckAsWritten` (see ## Findings).
- ServerPairChanges: reports the neighbour-field messages with the corrected labels (stored value as local), not the swapped labels of views.py:168-173; the as-written labelling is `NestedChangesAsWritten`, related by `AsWrittenSwapsLabels`.
- ServerTypeChanges: built on `ServerPairChanges`, so its neighbour-field messages carry the corrected labels, not those `_get_changes` prints.
- GetChanges: its change list carries the corrected neighbour labels, not the swapped ones `_get_changes` returns.
- Messages: modelled as structured values that hold what the text shows: the key, the server type, the field, and the local and remote values.

## Findings

| source | as written | input that shows it | evidently intended | confidence | as-written member | corrected member |
|---|---|---|---|---|---|---|
| go/sig/internal/sigconfig/conf.go:147-149 | the required IP is checked only with `IsUnspecified`, which is false for an unset (nil) address | id "sig1", sig_config "sig.json", IA 1-ff00:0:110, no IP: every check passes | an unset IP is rejected with "ip must be set" | high on the `net.IP` semantics, not executed | SigConfig.CheckAsWritten, SigConfig.UnsetIPAcceptedAsWritten | SigConfig.Check, SigConfig.SigConf.Validate, SigConfig.CheckCorrectsOnlyEmptyIP |
| web_scion/ad_manager/views.py:168-173 | the neighbour-field message passes the remote value where "Local:" is printed and the stored value where "remote:" is printed, unlike the address message at line 157-159 | an edge router stored with NeighborAD 1 and reported with NeighborAD 2 gives "Local: 2, remote: 1" | the stored value is printed as local, as for `Addr` | high, not executed | AdManager.NestedChangesAsWritten, AdManager.AsWrittenSwapsLabels, AdManager.AsWrittenMislabelsExample | AdManager.NestedChanges, AdManager.NeighborMessages, AdManager.PairNestedMessage, AdManager.NestedMessages, AdManager.ServerPairChanges, AdManager.ServerTypeChanges, AdManager.GetChanges |
