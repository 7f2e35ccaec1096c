/** The AD manager's comparison of the topology it stores with the one an AD
    reports: `_get_changes` lists what differs, and the status of
    `compare_remote_topology` says whether anything does. Topologies are
    reduced to the keys the comparison reads plus a bag of other fields;
    the messages are kept as structured values rather than text. */
module AdManager {
  import opened Common

  // ---------------------------------------------------------------------------
  // Topologies

  /** The top-level keys compared first, in their order. */
  datatype TopKey = ADID | ISDID | Core

  const TopKeys: seq<TopKey> := [ADID, ISDID, Core]

  /** The server groups, in the order their field lists are declared. */
  datatype ServerType = PathServers | CertificateServers | BeaconServers | EdgeRouters

  const ServerTypes: seq<ServerType> := [PathServers, CertificateServers, BeaconServers, EdgeRouters]

  /** The fields of an edge router's interface that are compared. */
  datatype NestedField = NeighborAD | NeighborISD | NeighborType

  /** An entry of a server type's field list: the flat `Addr` key, or a
      nested dictionary with the fields compared inside it. */
  datatype FieldKey = Addr | Interface(nested: seq<NestedField>)

  /** A value of one of the other fields, or of a nested field. */
  datatype Value = Int(i: int) | Str(s: string)

  datatype RouterInterface = RouterInterface(neighborAD: int, neighborISD: int, neighborType: string, other: map<string, Value>)

  datatype Element = Element(addr: string, intf: RouterInterface, other: map<string, Value>)

  /** A server under its name, the name read as an integer. */
  type Named<T> = (int, T)

  datatype Topology = Topology(
    adid: int, isdid: int, core: int,
    pathServers: seq<Named<Element>>, certificateServers: seq<Named<Element>>,
    beaconServers: seq<Named<Element>>, edgeRouters: seq<Named<Element>>,
    other: map<string, Value>)

  function Key(t: Topology, k: TopKey): int
  {
    match k
    case ADID => t.adid
    case ISDID => t.isdid
    case Core => t.core
  }

  /** The servers of one type, in dictionary order. */
  function Servers(t: Topology, st: ServerType): seq<Named<Element>>
  {
    match st
    case PathServers => t.pathServers
    case CertificateServers => t.certificateServers
    case BeaconServers => t.beaconServers
    case EdgeRouters => t.edgeRouters
  }

  /** The field list of each server type: `Addr` for all, and for edge
      routers also the three neighbour fields of `Interface`. */
  function ElementFields(st: ServerType): seq<FieldKey>
  {
    if st == EdgeRouters then [Addr, Interface([NeighborAD, NeighborISD, NeighborType])] else [Addr]
  }

  function NestedValue(intf: RouterInterface, f: NestedField): Value
  {
    match f
    case NeighborAD => Int(intf.neighborAD)
    case NeighborISD => Int(intf.neighborISD)
    case NeighborType => Str(intf.neighborType)
  }

  // ---------------------------------------------------------------------------
  // Sorting by name

  predicate SortedByName<T>(s: seq<Named<T>>)
  {
    forall i, j :: 0 <= i < j < |s| ==> s[i].0 <= s[j].0
  }

  /** `x` placed after every element whose name is not larger. */
  function InsertByName<T>(sorted: seq<Named<T>>, x: Named<T>): (r: seq<Named<T>>)
    ensures |r| == |sorted| + 1
    decreases |sorted|
  {
    if sorted == [] then [x]
    else if x.0 < sorted[0].0 then [x] + sorted
    else [sorted[0]] + InsertByName(sorted[1..], x)
  }

  /** `sorted(items, key=name)`: a stable sort by name. */
  function SortByName<T>(items: seq<Named<T>>): (r: seq<Named<T>>)
    ensures |r| == |items|
    decreases |items|
  {
    if items == [] then []
    else InsertByName(SortByName(items[..|items| - 1]), items[|items| - 1])
  }

  lemma {:induction false} InsertByNameBound<T>(sorted: seq<Named<T>>, x: Named<T>, lo: int)
    requires lo <= x.0 && forall i :: 0 <= i < |sorted| ==> lo <= sorted[i].0
    ensures forall i :: 0 <= i < |InsertByName(sorted, x)| ==> lo <= InsertByName(sorted, x)[i].0
    decreases |sorted|
  {
    var r := InsertByName(sorted, x);
    if sorted == [] {
      assert r == [x];
    } else if x.0 < sorted[0].0 {
      assert r == [x] + sorted;
      forall i | 0 <= i < |r| ensures lo <= r[i].0 {
        if i > 0 {
          assert r[i] == sorted[i - 1];
        }
      }
    } else {
      var tail := sorted[1..];
      forall i | 0 <= i < |tail| ensures lo <= tail[i].0 {
        assert tail[i] == sorted[i + 1];
      }
      InsertByNameBound(tail, x, lo);
      var rest := InsertByName(tail, x);
      assert r == [sorted[0]] + rest;
      forall i | 0 <= i < |r| ensures lo <= r[i].0 {
        if i > 0 {
          assert r[i] == rest[i - 1];
          assert lo <= rest[i - 1].0;
        } else {
          assert r[0] == sorted[0];
        }
      }
    }
  }

  lemma {:induction false} InsertByNameSorted<T>(sorted: seq<Named<T>>, x: Named<T>)
    requires SortedByName(sorted)
    ensures SortedByName(InsertByName(sorted, x))
    decreases |sorted|
  {
    if sorted != [] && sorted[0].0 <= x.0 {
      var tail := sorted[1..];
      assert SortedByName(tail) by {
        forall i, j | 0 <= i < j < |tail| ensures tail[i].0 <= tail[j].0 {
          assert tail[i] == sorted[i + 1] && tail[j] == sorted[j + 1];
        }
      }
      assert forall i :: 0 <= i < |tail| ==> sorted[0].0 <= tail[i].0 by {
        forall i | 0 <= i < |tail| ensures sorted[0].0 <= tail[i].0 {
          assert tail[i] == sorted[i + 1];
        }
      }
      InsertByNameSorted(tail, x);
      InsertByNameBound(tail, x, sorted[0].0);
      var rest := InsertByName(tail, x);
      var r := [sorted[0]] + rest;
      assert InsertByName(sorted, x) == r;
      forall i, j | 0 <= i < j < |r| ensures r[i].0 <= r[j].0 {
        assert r[j] == rest[j - 1];
        if i > 0 {
          assert r[i] == rest[i - 1];
        }
      }
    } else if sorted != [] {
      var r := [x] + sorted;
      assert InsertByName(sorted, x) == r;
      forall i, j | 0 <= i < j < |r| ensures r[i].0 <= r[j].0 {
        assert r[j] == sorted[j - 1];
        if i > 0 {
          assert r[i] == sorted[i - 1];
        }
      }
    }
  }

  /** The result of the sort is ordered by name. */
  lemma {:induction false} SortByNameSorted<T>(items: seq<Named<T>>)
    ensures SortedByName(SortByName(items))
    decreases |items|
  {
    if items != [] {
      var n := |items| - 1;
      SortByNameSorted(items[..n]);
      InsertByNameSorted(SortByName(items[..n]), items[n]);
    }
  }

  lemma {:induction false} InsertByNamePermutes<T>(sorted: seq<Named<T>>, x: Named<T>)
    ensures multiset(InsertByName(sorted, x)) == multiset(sorted) + multiset{x}
    decreases |sorted|
  {
    if sorted != [] && sorted[0].0 <= x.0 {
      InsertByNamePermutes(sorted[1..], x);
      assert sorted == [sorted[0]] + sorted[1..];
    }
  }

  /** Sorting by name only reorders the items. */
  lemma {:induction false} SortByNamePermutes<T>(items: seq<Named<T>>)
    ensures multiset(SortByName(items)) == multiset(items)
    decreases |items|
  {
    if items != [] {
      var n := |items| - 1;
      SortByNamePermutes(items[..n]);
      InsertByNamePermutes(SortByName(items[..n]), items[n]);
      assert items == items[..n] + [items[n]];
    }
  }

  /** The items named `k`, in their order. */
  function WithName<T>(s: seq<Named<T>>, k: int): seq<Named<T>>
    decreases |s|
  {
    if s == [] then [] else OwnName(s[0], k) + WithName(s[1..], k)
  }

  /** `[x]` when `x` is named `k`, else nothing. */
  function OwnName<T>(x: Named<T>, k: int): seq<Named<T>>
  {
    if x.0 == k then [x] else []
  }

  lemma {:induction false} WithNameAppend<T>(a: seq<Named<T>>, b: seq<Named<T>>, k: int)
    ensures WithName(a + b, k) == WithName(a, k) + WithName(b, k)
    decreases |a|
  {
    if a != [] {
      assert (a + b)[1..] == a[1..] + b;
      WithNameAppend(a[1..], b, k);
    } else {
      assert a + b == b;
    }
  }

  lemma {:induction false} WithNameAbove<T>(s: seq<Named<T>>, k: int)
    requires forall i :: 0 <= i < |s| ==> k < s[i].0
    ensures WithName(s, k) == []
    decreases |s|
  {
    if s != [] {
      assert forall i :: 0 <= i < |s[1..]| ==> s[1..][i] == s[i + 1];
      WithNameAbove(s[1..], k);
    }
  }

  lemma WithNameCons<T>(x: Named<T>, s: seq<Named<T>>, k: int)
    ensures WithName([x] + s, k) == OwnName(x, k) + WithName(s, k)
  {
    assert ([x] + s)[1..] == s;
  }

  lemma SortedTail<T>(sorted: seq<Named<T>>)
    requires SortedByName(sorted) && sorted != []
    ensures SortedByName(sorted[1..])
  {
    var tail := sorted[1..];
    forall i, j | 0 <= i < j < |tail| ensures tail[i].0 <= tail[j].0 {
      assert tail[i] == sorted[i + 1] && tail[j] == sorted[j + 1];
    }
  }

  /** Inserting in front of larger names: `x` is the only item named `x.0`. */
  lemma InsertInFront<T>(sorted: seq<Named<T>>, x: Named<T>, k: int)
    requires SortedByName(sorted) && sorted != [] && x.0 < sorted[0].0
    ensures WithName([x] + sorted, k) == WithName(sorted, k) + OwnName(x, k)
  {
    WithNameCons(x, sorted, k);
    if x.0 == k {
      assert forall i :: 0 <= i < |sorted| ==> k < sorted[i].0;
      WithNameAbove(sorted, k);
    } else {
      assert OwnName(x, k) == [];
    }
  }

  lemma {:induction false} InsertByNameStable<T>(sorted: seq<Named<T>>, x: Named<T>, k: int)
    requires SortedByName(sorted)
    ensures WithName(InsertByName(sorted, x), k) == WithName(sorted, k) + OwnName(x, k)
    decreases |sorted|
  {
    if sorted == [] {
      WithNameCons(x, [], k);
      assert [x] + [] == [x];
    } else if x.0 < sorted[0].0 {
      InsertInFront(sorted, x, k);
    } else {
      var tail := sorted[1..];
      SortedTail(sorted);
      InsertByNameStable(tail, x, k);
      WithNameCons(sorted[0], InsertByName(tail, x), k);
      WithNameCons(sorted[0], tail, k);
      assert sorted == [sorted[0]] + tail;
    }
  }

  /** The sort is stable: for every name, the items with that name appear in
      the sorted list in their input order. */
  lemma {:induction false} SortByNameStable<T>(items: seq<Named<T>>, k: int)
    ensures WithName(SortByName(items), k) == WithName(items, k)
    decreases |items|
  {
    if items != [] {
      var n := |items| - 1;
      SortByNameStable(items[..n], k);
      SortByNameSorted(items[..n]);
      InsertByNameStable(SortByName(items[..n]), items[n], k);
      assert items == items[..n] + [items[n]];
      WithNameAppend(items[..n], [items[n]], k);
      WithNameCons(items[n], [], k);
      assert [items[n]] + [] == [items[n]];
    }
  }

  /** The servers of a sorted item list, without their names. */
  function Elements<T>(items: seq<Named<T>>): (r: seq<T>)
    ensures |r| == |items|
  {
    seq(|items|, i requires 0 <= i < |items| => items[i].1)
  }

  /** The servers of one type of a topology as the comparison pairs them. */
  function SortedServers(t: Topology, st: ServerType): seq<Element>
  {
    Elements(SortByName(Servers(t, st)))
  }

  // ---------------------------------------------------------------------------
  // The changes

  /** One change message. `local` is the value printed after "Local:", the
      stored topology's; `remote` the one printed after "remote:". */
  datatype Change =
    | KeyDiffers(key: TopKey)
    | CountDiffers(serverType: ServerType)
    | AddrDiffers(serverType: ServerType, localAddr: string, remoteAddr: string)
    | NestedDiffers(field: NestedField, serverType: ServerType, local: Value, remote: Value)

  function KeyChanges(current: Topology, remote: Topology, n: nat): seq<Change>
    requires n <= |TopKeys|
  {
    if n == 0 then []
    else
      var key := TopKeys[n - 1];
      KeyChanges(current, remote, n - 1) + (if Key(remote, key) != Key(current, key) then [KeyDiffers(key)] else [])
  }

  /** The messages for the first `n` nested fields of a pair of servers. */
  function NestedChanges(st: ServerType, rs: Element, cs: Element, fields: seq<NestedField>, n: nat): seq<Change>
    requires n <= |fields|
  {
    if n == 0 then []
    else
      var f := fields[n - 1];
      var remoteValue := NestedValue(rs.intf, f);
      var currentValue := NestedValue(cs.intf, f);
      NestedChanges(st, rs, cs, fields, n - 1) +
        (if remoteValue != currentValue then [NestedDiffers(f, st, currentValue, remoteValue)] else [])
  }

  function FieldChanges(st: ServerType, rs: Element, cs: Element, key: FieldKey): seq<Change>
  {
    match key
    case Addr => if rs.addr != cs.addr then [AddrDiffers(st, cs.addr, rs.addr)] else []
    case Interface(nested) => NestedChanges(st, rs, cs, nested, |nested|)
  }

  /** The messages for the first `n` entries of the field list. */
  function FieldsChanges(st: ServerType, rs: Element, cs: Element, n: nat): seq<Change>
    requires n <= |ElementFields(st)|
  {
    if n == 0 then []
    else FieldsChanges(st, rs, cs, n - 1) + FieldChanges(st, rs, cs, ElementFields(st)[n - 1])
  }

  /** The messages for the first `n` pairs of servers. */
  function PairChanges(st: ServerType, remoteServers: seq<Element>, currentServers: seq<Element>, n: nat): seq<Change>
    requires n <= |remoteServers| == |currentServers|
  {
    if n == 0 then []
    else
      PairChanges(st, remoteServers, currentServers, n - 1) +
        FieldsChanges(st, remoteServers[n - 1], currentServers[n - 1], |ElementFields(st)|)
  }

  /** The messages for one server type: a single count message when the
      numbers differ, otherwise the field messages of each pair. */
  function TypeChanges(current: Topology, remote: Topology, st: ServerType): seq<Change>
  {
    var remoteServers := SortedServers(remote, st);
    var currentServers := SortedServers(current, st);
    if |remoteServers| != |currentServers| then [CountDiffers(st)]
    else PairChanges(st, remoteServers, currentServers, |remoteServers|)
  }

  function TypesChanges(current: Topology, remote: Topology, n: nat): seq<Change>
    requires n <= |ServerTypes|
  {
    if n == 0 then [] else TypesChanges(current, remote, n - 1) + TypeChanges(current, remote, ServerTypes[n - 1])
  }

  /** The change list of `_get_changes`, with the corrected neighbour labels
      (see `NestedChangesAsWritten`). */
  function Changes(current: Topology, remote: Topology): seq<Change>
  {
    KeyChanges(current, remote, |TopKeys|) + TypesChanges(current, remote, |ServerTypes|)
  }

  /** `_get_changes`: the top-level keys first, then each server type in
      turn. */
  method GetChanges(current: Topology, remote: Topology) returns (changes: seq<Change>)
    ensures changes == Changes(current, remote)
  {
    changes := ChangedKeys(current, remote);
    for s := 0 to |ServerTypes|
      invariant changes == KeyChanges(current, remote, |TopKeys|) + TypesChanges(current, remote, s)
    {
      var typeChanges := ServerTypeChanges(current, remote, ServerTypes[s]);
      TypesStep(current, remote, s, KeyChanges(current, remote, |TopKeys|));
      changes := changes + typeChanges;
    }
  }

  lemma TypesStep(current: Topology, remote: Topology, s: nat, keys: seq<Change>)
    requires s < |ServerTypes|
    ensures keys + TypesChanges(current, remote, s + 1) ==
            keys + TypesChanges(current, remote, s) + TypeChanges(current, remote, ServerTypes[s])
  {
  }

  /** The key loop of `_get_changes`. */
  method ChangedKeys(current: Topology, remote: Topology) returns (changes: seq<Change>)
    ensures changes == KeyChanges(current, remote, |TopKeys|)
  {
    changes := [];
    for i := 0 to |TopKeys|
      invariant changes == KeyChanges(current, remote, i)
    {
      var key := TopKeys[i];
      if Key(remote, key) != Key(current, key) {
        changes := changes + [KeyDiffers(key)];
      }
    }
  }

  /** One pass of the server-type loop of `_get_changes`: the messages it
      appends for `serverType`. */
  method ServerTypeChanges(current: Topology, remote: Topology, serverType: ServerType) returns (changes: seq<Change>)
    ensures changes == TypeChanges(current, remote, serverType)
  {
    var remoteServers := Elements(SortByName(Servers(remote, serverType)));
    var currentServers := Elements(SortByName(Servers(current, serverType)));
    if |remoteServers| != |currentServers| {
      return [CountDiffers(serverType)];
    }
    changes := [];
    for p := 0 to |remoteServers|
      invariant changes == PairChanges(serverType, remoteServers, currentServers, p)
    {
      var pairChanges := ServerPairChanges(serverType, remoteServers[p], currentServers[p]);
      PairStep(serverType, remoteServers, currentServers, p);
      changes := changes + pairChanges;
    }
  }

  lemma PairStep(st: ServerType, remoteServers: seq<Element>, currentServers: seq<Element>, p: nat)
    requires p < |remoteServers| == |currentServers|
    ensures PairChanges(st, remoteServers, currentServers, p + 1) ==
            PairChanges(st, remoteServers, currentServers, p) +
            FieldsChanges(st, remoteServers[p], currentServers[p], |ElementFields(st)|)
  {
  }

  /** One pass of the pairwise loop of `_get_changes`: the messages it
      appends for the remote server `rs` and the stored server `cs`. */
  method ServerPairChanges(serverType: ServerType, rs: Element, cs: Element) returns (changes: seq<Change>)
    ensures changes == FieldsChanges(serverType, rs, cs, |ElementFields(serverType)|)
  {
    changes := [];
    var currentFields := ElementFields(serverType);
    for f := 0 to |currentFields|
      invariant changes == FieldsChanges(serverType, rs, cs, f)
    {
      var key := currentFields[f];
      if key.Addr? && rs.addr != cs.addr {
        changes := changes + [AddrDiffers(serverType, cs.addr, rs.addr)];
        continue;
      }
      if key.Interface? {
        ghost var before := changes;
        for n := 0 to |key.nested|
          invariant changes == before + NestedChanges(serverType, rs, cs, key.nested, n)
        {
          var field := key.nested[n];
          var remoteValue := NestedValue(rs.intf, field);
          var currentValue := NestedValue(cs.intf, field);
          if remoteValue != currentValue {
            changes := changes + [NestedDiffers(field, serverType, currentValue, remoteValue)];
          }
        }
      }
    }
  }

  // ---------------------------------------------------------------------------
  // The status of `compare_remote_topology`

  /** The statuses FAIL, CHANGED and OK. */
  datatype Status = Failed | Changed | OK

  /** `compare_remote_topology`: FAIL when no remote topology could be
      fetched, otherwise CHANGED exactly when the two topologies disagree on
      a compared field. */
  function CompareStatus(current: Topology, remote: Option<Topology>): (r: Status)
    ensures r == Failed <==> remote.None?
    ensures remote.Some? ==> (r == OK <==> Agree(current, remote.value))
    ensures remote.Some? ==> (r == Changed <==> Changes(current, remote.value) != [])
  {
    match remote
    case None => Failed
    case Some(t) =>
      ChangesEmptyIff(current, t);
      if Changes(current, t) != [] then Changed else OK
  }

  // ---------------------------------------------------------------------------
  // What is compared

  /** The fields of a server of type `st` the comparison reads. */
  datatype View = View(addr: string, neighbor: Option<(int, int, string)>)

  function ViewOf(st: ServerType, e: Element): View
  {
    View(e.addr, if st == EdgeRouters then Some((e.intf.neighborAD, e.intf.neighborISD, e.intf.neighborType)) else None)
  }

  /** The sorted servers of one type pair up with equal compared fields. */
  predicate TypeAgrees(current: Topology, remote: Topology, st: ServerType)
  {
    var cs := SortedServers(current, st);
    var rs := SortedServers(remote, st);
    |cs| == |rs| && forall j :: 0 <= j < |cs| ==> ViewOf(st, cs[j]) == ViewOf(st, rs[j])
  }

  /** Two topologies agree on every field the comparison reads. */
  predicate Agree(current: Topology, remote: Topology)
  {
    (forall k: TopKey :: Key(current, k) == Key(remote, k)) &&
    forall st: ServerType :: TypeAgrees(current, remote, st)
  }

  lemma {:induction false} KeyChangesEmpty(current: Topology, remote: Topology, n: nat)
    requires n <= |TopKeys|
    ensures KeyChanges(current, remote, n) == [] <==>
            forall j :: 0 <= j < n ==> Key(current, TopKeys[j]) == Key(remote, TopKeys[j])
    decreases n
  {
    if n > 0 {
      KeyChangesEmpty(current, remote, n - 1);
    }
  }

  lemma {:induction false} NestedChangesEmpty(st: ServerType, rs: Element, cs: Element, fields: seq<NestedField>, n: nat)
    requires n <= |fields|
    ensures NestedChanges(st, rs, cs, fields, n) == [] <==>
            forall j :: 0 <= j < n ==> NestedValue(rs.intf, fields[j]) == NestedValue(cs.intf, fields[j])
    decreases n
  {
    if n > 0 {
      NestedChangesEmpty(st, rs, cs, fields, n - 1);
    }
  }

  /** The edge-router field list: `Addr`, then the nested neighbour
      fields. */
  lemma EdgeRouterFields(rs: Element, cs: Element)
    ensures FieldsChanges(EdgeRouters, rs, cs, |ElementFields(EdgeRouters)|) ==
            FieldChanges(EdgeRouters, rs, cs, Addr) +
            NestedChanges(EdgeRouters, rs, cs, [NeighborAD, NeighborISD, NeighborType], 3)
  {
    var st := EdgeRouters;
    assert FieldsChanges(st, rs, cs, 1) == FieldChanges(st, rs, cs, Addr);
    assert ElementFields(st)[1] == Interface([NeighborAD, NeighborISD, NeighborType]);
  }

  /** A pair of servers yields no message exactly when their compared
      fields agree. */
  lemma FieldsChangesEmpty(st: ServerType, rs: Element, cs: Element)
    ensures FieldsChanges(st, rs, cs, |ElementFields(st)|) == [] <==> ViewOf(st, rs) == ViewOf(st, cs)
  {
    if st == EdgeRouters {
      var nested := [NeighborAD, NeighborISD, NeighborType];
      EdgeRouterFields(rs, cs);
      NestedChangesEmpty(st, rs, cs, nested, 3);
      if ViewOf(st, rs) != ViewOf(st, cs) && rs.addr == cs.addr {
        assert NestedValue(rs.intf, nested[0]) != NestedValue(cs.intf, nested[0]) ||
               NestedValue(rs.intf, nested[1]) != NestedValue(cs.intf, nested[1]) ||
               NestedValue(rs.intf, nested[2]) != NestedValue(cs.intf, nested[2]);
      }
    } else {
      assert FieldsChanges(st, rs, cs, 1) == FieldChanges(st, rs, cs, Addr);
    }
  }

  /** The first `n` pairs of servers agree on their compared fields. */
  predicate PairsAgree(st: ServerType, remoteServers: seq<Element>, currentServers: seq<Element>, n: nat)
    requires n <= |remoteServers| == |currentServers|
  {
    forall j :: 0 <= j < n ==> ViewOf(st, remoteServers[j]) == ViewOf(st, currentServers[j])
  }

  lemma PairsAgreeStep(st: ServerType, remoteServers: seq<Element>, currentServers: seq<Element>, n: nat)
    requires 0 < n <= |remoteServers| == |currentServers|
    ensures PairsAgree(st, remoteServers, currentServers, n) <==>
            PairsAgree(st, remoteServers, currentServers, n - 1) &&
            ViewOf(st, remoteServers[n - 1]) == ViewOf(st, currentServers[n - 1])
  {
  }

  lemma {:induction false} PairChangesEmpty(st: ServerType, remoteServers: seq<Element>, currentServers: seq<Element>, n: nat)
    requires n <= |remoteServers| == |currentServers|
    ensures PairChanges(st, remoteServers, currentServers, n) == [] <==> PairsAgree(st, remoteServers, currentServers, n)
    decreases n
  {
    if n > 0 {
      PairChangesEmpty(st, remoteServers, currentServers, n - 1);
      FieldsChangesEmpty(st, remoteServers[n - 1], currentServers[n - 1]);
      PairsAgreeStep(st, remoteServers, currentServers, n);
      var a := PairChanges(st, remoteServers, currentServers, n - 1);
      var b := FieldsChanges(st, remoteServers[n - 1], currentServers[n - 1], |ElementFields(st)|);
      assert PairChanges(st, remoteServers, currentServers, n) == a + b;
      assert a + b == [] <==> a == [] && b == [] by {
        assert |a + b| == |a| + |b|;
      }
    }
  }

  lemma TypeChangesEmpty(current: Topology, remote: Topology, st: ServerType)
    ensures TypeChanges(current, remote, st) == [] <==> TypeAgrees(current, remote, st)
  {
    var rs := SortedServers(remote, st);
    var cs := SortedServers(current, st);
    if |rs| == |cs| {
      assert TypeChanges(current, remote, st) == PairChanges(st, rs, cs, |rs|);
      PairChangesEmpty(st, rs, cs, |rs|);
      assert PairsAgree(st, rs, cs, |rs|) <==> TypeAgrees(current, remote, st);
    } else {
      assert TypeChanges(current, remote, st) == [CountDiffers(st)];
    }
  }

  /** The server-type loop runs over the four types in their fixed order. */
  lemma TypesUnrolled(current: Topology, remote: Topology)
    ensures TypesChanges(current, remote, |ServerTypes|) ==
            TypeChanges(current, remote, PathServers) + TypeChanges(current, remote, CertificateServers) +
            TypeChanges(current, remote, BeaconServers) + TypeChanges(current, remote, EdgeRouters)
  {
    var p := TypeChanges(current, remote, PathServers);
    var c := TypeChanges(current, remote, CertificateServers);
    var b := TypeChanges(current, remote, BeaconServers);
    var e := TypeChanges(current, remote, EdgeRouters);
    assert TypesChanges(current, remote, 1) == p by {
      assert TypesChanges(current, remote, 1) == TypesChanges(current, remote, 0) + p;
    }
    assert TypesChanges(current, remote, 2) == p + c;
    assert TypesChanges(current, remote, 3) == p + c + b;
    assert TypesChanges(current, remote, 4) == p + c + b + e;
  }

  /** `_get_changes` is empty exactly when the topologies agree on the keys
      and on the compared fields of every pair of sorted servers. */
  lemma ChangesEmptyIff(current: Topology, remote: Topology)
    ensures Changes(current, remote) == [] <==> Agree(current, remote)
  {
    ChangesParts(current, remote);
    KeysAgreeIff(current, remote);
    AgreeParts(current, remote);
    TypeChangesEmpty(current, remote, PathServers);
    TypeChangesEmpty(current, remote, CertificateServers);
    TypeChangesEmpty(current, remote, BeaconServers);
    TypeChangesEmpty(current, remote, EdgeRouters);
  }

  lemma ChangesParts(current: Topology, remote: Topology)
    ensures Changes(current, remote) == [] <==>
            KeyChanges(current, remote, |TopKeys|) == [] &&
            TypeChanges(current, remote, PathServers) == [] && TypeChanges(current, remote, CertificateServers) == [] &&
            TypeChanges(current, remote, BeaconServers) == [] && TypeChanges(current, remote, EdgeRouters) == []
  {
    var kc := KeyChanges(current, remote, |TopKeys|);
    var p := TypeChanges(current, remote, PathServers);
    var c := TypeChanges(current, remote, CertificateServers);
    var b := TypeChanges(current, remote, BeaconServers);
    var e := TypeChanges(current, remote, EdgeRouters);
    TypesUnrolled(current, remote);
    assert Changes(current, remote) == kc + (p + c + b + e);
    assert |kc + (p + c + b + e)| == |kc| + |p| + |c| + |b| + |e|;
  }

  lemma KeysAgreeIff(current: Topology, remote: Topology)
    ensures KeyChanges(current, remote, |TopKeys|) == [] <==> forall k: TopKey :: Key(current, k) == Key(remote, k)
  {
    KeyChangesEmpty(current, remote, |TopKeys|);
    if forall j :: 0 <= j < |TopKeys| ==> Key(current, TopKeys[j]) == Key(remote, TopKeys[j]) {
      forall k: TopKey ensures Key(current, k) == Key(remote, k) {
        assert TopKeys[KeyRank(k)] == k;
      }
    }
  }

  lemma AgreeParts(current: Topology, remote: Topology)
    ensures Agree(current, remote) <==>
            (forall k: TopKey :: Key(current, k) == Key(remote, k)) &&
            TypeAgrees(current, remote, PathServers) && TypeAgrees(current, remote, CertificateServers) &&
            TypeAgrees(current, remote, BeaconServers) && TypeAgrees(current, remote, EdgeRouters)
  {
    if TypeAgrees(current, remote, PathServers) && TypeAgrees(current, remote, CertificateServers) &&
       TypeAgrees(current, remote, BeaconServers) && TypeAgrees(current, remote, EdgeRouters) {
      forall st: ServerType ensures TypeAgrees(current, remote, st) {
      }
    }
  }

  // ---------------------------------------------------------------------------
  // Fields that are not compared

  /** The items with each server replaced by `f` of it. */
  function MapValues<A, B>(items: seq<Named<A>>, f: A -> B): (r: seq<Named<B>>)
    ensures |r| == |items| && forall i :: 0 <= i < |r| ==> r[i] == (items[i].0, f(items[i].1))
  {
    seq(|items|, i requires 0 <= i < |items| => (items[i].0, f(items[i].1)))
  }

  lemma {:induction false} InsertByNameMap<A, B>(sorted: seq<Named<A>>, x: Named<A>, f: A -> B)
    ensures InsertByName(MapValues(sorted, f), (x.0, f(x.1))) == MapValues(InsertByName(sorted, x), f)
    decreases |sorted|
  {
    if sorted != [] && sorted[0].0 <= x.0 {
      InsertByNameMap(sorted[1..], x, f);
      assert MapValues(sorted, f)[1..] == MapValues(sorted[1..], f);
    }
  }

  /** Sorting by name does not look at the servers. */
  lemma {:induction false} SortByNameMap<A, B>(items: seq<Named<A>>, f: A -> B)
    ensures SortByName(MapValues(items, f)) == MapValues(SortByName(items), f)
    decreases |items|
  {
    if items != [] {
      var n := |items| - 1;
      SortByNameMap(items[..n], f);
      assert MapValues(items, f)[..n] == MapValues(items[..n], f);
      InsertByNameMap(SortByName(items[..n]), items[n], f);
    }
  }

  /** The names and compared fields of the servers of one type, in
      dictionary order. */
  function Views(t: Topology, st: ServerType): seq<Named<View>>
  {
    MapValues(Servers(t, st), e => ViewOf(st, e))
  }

  /** Two topologies that carry the same keys, names and compared fields. */
  predicate SameView(t1: Topology, t2: Topology)
  {
    (forall k: TopKey :: Key(t1, k) == Key(t2, k)) &&
    forall st: ServerType :: Views(t1, st) == Views(t2, st)
  }

  lemma SortedViews(t1: Topology, t2: Topology, st: ServerType)
    requires Views(t1, st) == Views(t2, st)
    ensures |SortedServers(t1, st)| == |SortedServers(t2, st)|
    ensures forall j :: 0 <= j < |SortedServers(t1, st)| ==>
              ViewOf(st, SortedServers(t1, st)[j]) == ViewOf(st, SortedServers(t2, st)[j])
  {
    var f := e => ViewOf(st, e);
    SortByNameMap(Servers(t1, st), f);
    SortByNameMap(Servers(t2, st), f);
    var m1 := MapValues(SortByName(Servers(t1, st)), f);
    var m2 := MapValues(SortByName(Servers(t2, st)), f);
    assert m1 == m2;
    forall j | 0 <= j < |SortedServers(t1, st)|
      ensures ViewOf(st, SortedServers(t1, st)[j]) == ViewOf(st, SortedServers(t2, st)[j])
    {
      assert m1[j].1 == m2[j].1;
    }
  }

  lemma {:induction false} NestedChangesByView(st: ServerType, rs1: Element, cs1: Element, rs2: Element, cs2: Element,
                                               fields: seq<NestedField>, n: nat)
    requires n <= |fields|
    requires forall f :: NestedValue(rs1.intf, f) == NestedValue(rs2.intf, f) && NestedValue(cs1.intf, f) == NestedValue(cs2.intf, f)
    ensures NestedChanges(st, rs1, cs1, fields, n) == NestedChanges(st, rs2, cs2, fields, n)
    decreases n
  {
    if n > 0 {
      NestedChangesByView(st, rs1, cs1, rs2, cs2, fields, n - 1);
    }
  }

  lemma FieldsChangesByView(st: ServerType, rs1: Element, cs1: Element, rs2: Element, cs2: Element)
    requires ViewOf(st, rs1) == ViewOf(st, rs2) && ViewOf(st, cs1) == ViewOf(st, cs2)
    ensures FieldsChanges(st, rs1, cs1, |ElementFields(st)|) == FieldsChanges(st, rs2, cs2, |ElementFields(st)|)
  {
    if st == EdgeRouters {
      EdgeRouterFields(rs1, cs1);
      EdgeRouterFields(rs2, cs2);
      NestedChangesByView(st, rs1, cs1, rs2, cs2, [NeighborAD, NeighborISD, NeighborType], 3);
    } else {
      assert FieldsChanges(st, rs1, cs1, 1) == FieldChanges(st, rs1, cs1, Addr);
      assert FieldsChanges(st, rs2, cs2, 1) == FieldChanges(st, rs2, cs2, Addr);
    }
  }

  lemma {:induction false} PairChangesByView(st: ServerType, rss1: seq<Element>, css1: seq<Element>,
                                             rss2: seq<Element>, css2: seq<Element>, n: nat)
    requires n <= |rss1| == |css1| && |rss1| == |rss2| == |css2|
    requires forall j :: 0 <= j < |rss1| ==> ViewOf(st, rss1[j]) == ViewOf(st, rss2[j])
    requires forall j :: 0 <= j < |css1| ==> ViewOf(st, css1[j]) == ViewOf(st, css2[j])
    ensures PairChanges(st, rss1, css1, n) == PairChanges(st, rss2, css2, n)
    decreases n
  {
    if n > 0 {
      PairChangesByView(st, rss1, css1, rss2, css2, n - 1);
      FieldsChangesByView(st, rss1[n - 1], css1[n - 1], rss2[n - 1], css2[n - 1]);
    }
  }

  lemma {:induction false} KeyChangesByKeys(c1: Topology, r1: Topology, c2: Topology, r2: Topology, n: nat)
    requires n <= |TopKeys|
    requires SameView(c1, c2) && SameView(r1, r2)
    ensures KeyChanges(c1, r1, n) == KeyChanges(c2, r2, n)
    decreases n
  {
    if n > 0 {
      KeyChangesByKeys(c1, r1, c2, r2, n - 1);
    }
  }

  lemma TypeChangesByView(c1: Topology, r1: Topology, c2: Topology, r2: Topology, st: ServerType)
    requires Views(c1, st) == Views(c2, st) && Views(r1, st) == Views(r2, st)
    ensures TypeChanges(c1, r1, st) == TypeChanges(c2, r2, st)
  {
    SortedViews(c1, c2, st);
    SortedViews(r1, r2, st);
    var rss1, css1 := SortedServers(r1, st), SortedServers(c1, st);
    if |rss1| == |css1| {
      PairChangesByView(st, rss1, css1, SortedServers(r2, st), SortedServers(c2, st), |rss1|);
    }
  }

  /** Fields that are not compared never produce messages: topologies with
      the same keys, server names and compared fields give the same
      changes. */
  lemma ChangesSeeOnlyCompared(c1: Topology, r1: Topology, c2: Topology, r2: Topology)
    requires SameView(c1, c2) && SameView(r1, r2)
    ensures Changes(c1, r1) == Changes(c2, r2)
  {
    KeyChangesByKeys(c1, r1, c2, r2, |TopKeys|);
    TypesUnrolled(c1, r1);
    TypesUnrolled(c2, r2);
    TypeChangesByView(c1, r1, c2, r2, PathServers);
    TypeChangesByView(c1, r1, c2, r2, CertificateServers);
    TypeChangesByView(c1, r1, c2, r2, BeaconServers);
    TypeChangesByView(c1, r1, c2, r2, EdgeRouters);
  }

  // ---------------------------------------------------------------------------
  // Which messages appear, and in what order

  /** A message about server type `st`. */
  predicate About(ch: Change, st: ServerType)
  {
    !ch.KeyDiffers? && ch.serverType == st
  }

  /** Every message is an address or neighbour message about `st`. */
  predicate FieldMessages(chs: seq<Change>, st: ServerType)
  {
    forall i :: 0 <= i < |chs| ==> (chs[i].AddrDiffers? || chs[i].NestedDiffers?) && chs[i].serverType == st
  }

  /** Every message is about `st`. */
  predicate AllAbout(chs: seq<Change>, st: ServerType)
  {
    forall i :: 0 <= i < |chs| ==> About(chs[i], st)
  }

  /** No message is about a top-level key. */
  predicate NoKeyMessage(chs: seq<Change>)
  {
    forall i :: 0 <= i < |chs| ==> !chs[i].KeyDiffers?
  }

  lemma FieldMessagesAppend(a: seq<Change>, b: seq<Change>, st: ServerType)
    requires FieldMessages(a, st) && FieldMessages(b, st)
    ensures FieldMessages(a + b, st)
  {
    forall i | 0 <= i < |a + b|
      ensures ((a + b)[i].AddrDiffers? || (a + b)[i].NestedDiffers?) && (a + b)[i].serverType == st
    {
      if i < |a| {
        assert (a + b)[i] == a[i];
      } else {
        assert (a + b)[i] == b[i - |a|];
      }
    }
  }

  lemma NoKeyMessageAppend(a: seq<Change>, b: seq<Change>)
    requires NoKeyMessage(a) && NoKeyMessage(b)
    ensures NoKeyMessage(a + b)
  {
    forall i | 0 <= i < |a + b|
      ensures !(a + b)[i].KeyDiffers?
    {
      if i < |a| {
        assert (a + b)[i] == a[i];
      } else {
        assert (a + b)[i] == b[i - |a|];
      }
    }
  }

  /** The messages about `st`, in order. */
  function MessagesAbout(chs: seq<Change>, st: ServerType): seq<Change>
    decreases |chs|
  {
    if chs == [] then []
    else (if About(chs[0], st) then [chs[0]] else []) + MessagesAbout(chs[1..], st)
  }

  lemma {:induction false} MessagesAboutAppend(a: seq<Change>, b: seq<Change>, st: ServerType)
    ensures MessagesAbout(a + b, st) == MessagesAbout(a, st) + MessagesAbout(b, st)
    decreases |a|
  {
    if a == [] {
      assert a + b == b;
    } else {
      MessagesAboutAppend(a[1..], b, st);
      var h := if About(a[0], st) then [a[0]] else [];
      assert (a + b)[0] == a[0];
      assert (a + b)[1..] == a[1..] + b;
      calc {
        MessagesAbout(a + b, st);
        h + MessagesAbout(a[1..] + b, st);
        h + (MessagesAbout(a[1..], st) + MessagesAbout(b, st));
        (h + MessagesAbout(a[1..], st)) + MessagesAbout(b, st);
        MessagesAbout(a, st) + MessagesAbout(b, st);
      }
    }
  }

  lemma {:induction false} MessagesAboutUniform(chs: seq<Change>, st: ServerType)
    ensures AllAbout(chs, st) ==> MessagesAbout(chs, st) == chs
    ensures (forall i :: 0 <= i < |chs| ==> !About(chs[i], st)) ==> MessagesAbout(chs, st) == []
    decreases |chs|
  {
    if chs != [] {
      MessagesAboutUniform(chs[1..], st);
      if AllAbout(chs, st) {
        assert About(chs[0], st);
        assert AllAbout(chs[1..], st) by {
          forall i | 0 <= i < |chs[1..]|
            ensures About(chs[1..][i], st)
          {
            assert chs[1..][i] == chs[i + 1];
          }
        }
      }
    }
  }

  lemma {:induction false} MessagesAboutHas(chs: seq<Change>, st: ServerType, i: nat)
    requires i < |chs| && About(chs[i], st)
    ensures chs[i] in MessagesAbout(chs, st)
    decreases i
  {
    if i > 0 {
      MessagesAboutHas(chs[1..], st, i - 1);
    }
  }

  lemma {:induction false} MessagesAboutIn(chs: seq<Change>, st: ServerType, x: Change)
    requires x in MessagesAbout(chs, st)
    ensures x in chs
    decreases |chs|
  {
    if chs != [] && x != chs[0] {
      MessagesAboutIn(chs[1..], st, x);
    }
  }

  lemma {:induction false} NestedChangesShape(st: ServerType, rs: Element, cs: Element, fields: seq<NestedField>, n: nat)
    requires n <= |fields|
    ensures FieldMessages(NestedChanges(st, rs, cs, fields, n), st)
    decreases n
  {
    if n > 0 {
      NestedChangesShape(st, rs, cs, fields, n - 1);
      var f := fields[n - 1];
      var last := if NestedValue(rs.intf, f) != NestedValue(cs.intf, f)
                  then [NestedDiffers(f, st, NestedValue(cs.intf, f), NestedValue(rs.intf, f))] else [];
      FieldMessagesAppend(NestedChanges(st, rs, cs, fields, n - 1), last, st);
    }
  }

  lemma {:induction false} NestedChangesNoAddr(st: ServerType, rs: Element, cs: Element, fields: seq<NestedField>, n: nat,
                                               localAddr: string, remoteAddr: string)
    requires n <= |fields|
    ensures AddrDiffers(st, localAddr, remoteAddr) !in NestedChanges(st, rs, cs, fields, n)
    decreases n
  {
    if n > 0 {
      NestedChangesNoAddr(st, rs, cs, fields, n - 1, localAddr, remoteAddr);
    }
  }

  lemma {:induction false} FieldsChangesShape(st: ServerType, rs: Element, cs: Element, n: nat)
    requires n <= |ElementFields(st)|
    ensures FieldMessages(FieldsChanges(st, rs, cs, n), st)
    decreases n
  {
    if n > 0 {
      FieldsChangesShape(st, rs, cs, n - 1);
      var key := ElementFields(st)[n - 1];
      if key.Interface? {
        NestedChangesShape(st, rs, cs, key.nested, |key.nested|);
      }
      FieldMessagesAppend(FieldsChanges(st, rs, cs, n - 1), FieldChanges(st, rs, cs, key), st);
    }
  }

  lemma {:induction false} PairChangesShape(st: ServerType, remoteServers: seq<Element>, currentServers: seq<Element>, n: nat)
    requires n <= |remoteServers| == |currentServers|
    ensures FieldMessages(PairChanges(st, remoteServers, currentServers, n), st)
    decreases n
  {
    if n > 0 {
      PairChangesShape(st, remoteServers, currentServers, n - 1);
      var fc := FieldsChanges(st, remoteServers[n - 1], currentServers[n - 1], |ElementFields(st)|);
      FieldsChangesShape(st, remoteServers[n - 1], currentServers[n - 1], |ElementFields(st)|);
      FieldMessagesAppend(PairChanges(st, remoteServers, currentServers, n - 1), fc, st);
    }
  }

  /** Different numbers of servers give the one count message and nothing
      else; equal numbers give only field messages. All are about `st`. */
  lemma TypeChangesShape(current: Topology, remote: Topology, st: ServerType)
    ensures AllAbout(TypeChanges(current, remote, st), st)
    ensures NoKeyMessage(TypeChanges(current, remote, st))
    ensures |SortedServers(current, st)| != |SortedServers(remote, st)| ==>
              TypeChanges(current, remote, st) == [CountDiffers(st)]
    ensures |SortedServers(current, st)| == |SortedServers(remote, st)| ==>
              FieldMessages(TypeChanges(current, remote, st), st)
  {
    var rs := SortedServers(remote, st);
    var cs := SortedServers(current, st);
    var chs := TypeChanges(current, remote, st);
    if |rs| == |cs| {
      assert chs == PairChanges(st, rs, cs, |rs|);
      PairChangesShape(st, rs, cs, |rs|);
    } else {
      assert chs == [CountDiffers(st)];
    }
  }

  /** The message for one top-level key. */
  function KeyMessage(current: Topology, remote: Topology, k: TopKey): seq<Change>
  {
    if Key(remote, k) != Key(current, k) then [KeyDiffers(k)] else []
  }

  /** The key loop runs over ADID, ISDID and Core in that order. */
  lemma KeysUnrolled(current: Topology, remote: Topology)
    ensures KeyChanges(current, remote, |TopKeys|) ==
            KeyMessage(current, remote, ADID) + KeyMessage(current, remote, ISDID) + KeyMessage(current, remote, Core)
  {
    var a, i, c := KeyMessage(current, remote, ADID), KeyMessage(current, remote, ISDID), KeyMessage(current, remote, Core);
    assert KeyChanges(current, remote, 1) == a by {
      assert KeyChanges(current, remote, 1) == KeyChanges(current, remote, 0) + a;
    }
    assert KeyChanges(current, remote, 2) == a + i;
    assert KeyChanges(current, remote, 3) == a + i + c;
  }

  lemma KeysShape(current: Topology, remote: Topology)
    ensures var chs := KeyChanges(current, remote, |TopKeys|);
            |chs| <= |TopKeys| &&
            (forall i :: 0 <= i < |chs| ==> chs[i].KeyDiffers?) &&
            (forall i, j :: 0 <= i < j < |chs| ==> KeyRank(chs[i].key) < KeyRank(chs[j].key)) &&
            (forall k: TopKey :: KeyDiffers(k) in chs <==> Key(current, k) != Key(remote, k))
  {
    KeysUnrolled(current, remote);
  }

  /** The position of a key in the order the keys are compared. */
  function KeyRank(k: TopKey): (r: nat)
    ensures r < |TopKeys| && TopKeys[r] == k
    ensures forall j :: 0 <= j < |TopKeys| && TopKeys[j] == k ==> j == r
  {
    match k
    case ADID => 0
    case ISDID => 1
    case Core => 2
  }

  lemma TypesAboutOnly(current: Topology, remote: Topology)
    ensures NoKeyMessage(TypesChanges(current, remote, |ServerTypes|))
  {
    var p := TypeChanges(current, remote, PathServers);
    var c := TypeChanges(current, remote, CertificateServers);
    var b := TypeChanges(current, remote, BeaconServers);
    var e := TypeChanges(current, remote, EdgeRouters);
    TypesUnrolled(current, remote);
    TypeChangesShape(current, remote, PathServers);
    TypeChangesShape(current, remote, CertificateServers);
    TypeChangesShape(current, remote, BeaconServers);
    TypeChangesShape(current, remote, EdgeRouters);
    NoKeyMessageAppend(p, c);
    NoKeyMessageAppend(p + c, b);
    NoKeyMessageAppend(p + c + b, e);
  }

  /** One message per differing top-level key, ADID before ISDID before
      Core, and all of them before any server message. */
  lemma KeyMessagesFirst(current: Topology, remote: Topology)
    ensures var chs := Changes(current, remote);
            var nk := |KeyChanges(current, remote, |TopKeys|)|;
            nk <= |TopKeys| && nk <= |chs| &&
            (forall i :: 0 <= i < nk ==> chs[i].KeyDiffers?) &&
            (forall i :: nk <= i < |chs| ==> !chs[i].KeyDiffers?) &&
            (forall i, j :: 0 <= i < j < nk ==> KeyRank(chs[i].key) < KeyRank(chs[j].key)) &&
            (forall k: TopKey :: KeyDiffers(k) in chs <==> Key(current, k) != Key(remote, k))
  {
    var kc := KeyChanges(current, remote, |TopKeys|);
    var tc := TypesChanges(current, remote, |ServerTypes|);
    assert Changes(current, remote) == kc + tc;
    KeysShape(current, remote);
    TypesAboutOnly(current, remote);
    KeysBeforeServers(kc, tc);
  }

  lemma KeysBeforeServers(kc: seq<Change>, tc: seq<Change>)
    requires forall i :: 0 <= i < |kc| ==> kc[i].KeyDiffers?
    requires NoKeyMessage(tc)
    ensures forall i :: 0 <= i < |kc| ==> (kc + tc)[i] == kc[i]
    ensures forall i :: |kc| <= i < |kc + tc| ==> !(kc + tc)[i].KeyDiffers?
    ensures forall k: TopKey :: KeyDiffers(k) in kc + tc <==> KeyDiffers(k) in kc
  {
    forall i | |kc| <= i < |kc + tc|
      ensures !(kc + tc)[i].KeyDiffers?
    {
      assert (kc + tc)[i] == tc[i - |kc|];
    }
  }


  /** The messages about a server type are exactly those of its own pass:
      one count message when the numbers of servers differ and then no
      field message; otherwise none. */
  lemma MessagesPerServerType(current: Topology, remote: Topology, st: ServerType)
    ensures MessagesAbout(Changes(current, remote), st) == TypeChanges(current, remote, st)
    ensures |SortedServers(current, st)| != |SortedServers(remote, st)| ==>
              MessagesAbout(Changes(current, remote), st) == [CountDiffers(st)]
    ensures CountDiffers(st) in Changes(current, remote) <==>
              |SortedServers(current, st)| != |SortedServers(remote, st)|
  {
    MessagesAboutChanges(current, remote, st);
    TypeChangesShape(current, remote, st);
    var chs := Changes(current, remote);
    if CountDiffers(st) in chs {
      var i :| 0 <= i < |chs| && chs[i] == CountDiffers(st);
      MessagesAboutHas(chs, st, i);
      if |SortedServers(current, st)| == |SortedServers(remote, st)| {
        assert false;
      }
    }
    if |SortedServers(current, st)| != |SortedServers(remote, st)| {
      assert CountDiffers(st) in MessagesAbout(chs, st);
      MessagesAboutIn(chs, st, CountDiffers(st));
    }
  }

  lemma MessagesAboutChanges(current: Topology, remote: Topology, st: ServerType)
    ensures MessagesAbout(Changes(current, remote), st) == TypeChanges(current, remote, st)
  {
    var kc := KeyChanges(current, remote, |TopKeys|);
    var p := TypeChanges(current, remote, PathServers);
    var c := TypeChanges(current, remote, CertificateServers);
    var b := TypeChanges(current, remote, BeaconServers);
    var e := TypeChanges(current, remote, EdgeRouters);
    TypesUnrolled(current, remote);
    assert Changes(current, remote) == kc + (p + c + b + e);
    MessagesAboutKeys(current, remote, st);
    MessagesAboutType(current, remote, PathServers, st);
    MessagesAboutType(current, remote, CertificateServers, st);
    MessagesAboutType(current, remote, BeaconServers, st);
    MessagesAboutType(current, remote, EdgeRouters, st);
    MessagesAboutPick(kc, p, c, b, e, st);
  }

  /** Of the key messages and the four server-type passes, only the pass of
      `st` has messages about `st`. */
  lemma MessagesAboutPick(kc: seq<Change>, p: seq<Change>, c: seq<Change>, b: seq<Change>, e: seq<Change>, st: ServerType)
    requires MessagesAbout(kc, st) == []
    requires MessagesAbout(p, st) == if st == PathServers then p else []
    requires MessagesAbout(c, st) == if st == CertificateServers then c else []
    requires MessagesAbout(b, st) == if st == BeaconServers then b else []
    requires MessagesAbout(e, st) == if st == EdgeRouters then e else []
    ensures MessagesAbout(kc + (p + c + b + e), st) ==
            match st
            case PathServers => p
            case CertificateServers => c
            case BeaconServers => b
            case EdgeRouters => e
  {
    MessagesAboutFive(kc, p, c, b, e, st);
    var mk, mp, mc, mb, me := MessagesAbout(kc, st), MessagesAbout(p, st), MessagesAbout(c, st),
                              MessagesAbout(b, st), MessagesAbout(e, st);
    match st
    case PathServers =>
      assert mk + mp + mc + mb + me == p;
    case CertificateServers =>
      assert mk + mp + mc + mb + me == c;
    case BeaconServers =>
      assert mk + mp + mc + mb + me == b;
    case EdgeRouters =>
      assert mk + mp + mc + mb + me == e;
  }

  lemma MessagesAboutFive(kc: seq<Change>, p: seq<Change>, c: seq<Change>, b: seq<Change>, e: seq<Change>, st: ServerType)
    ensures MessagesAbout(kc + (p + c + b + e), st) ==
            MessagesAbout(kc, st) + MessagesAbout(p, st) + MessagesAbout(c, st) + MessagesAbout(b, st) + MessagesAbout(e, st)
  {
    MessagesAboutAppend(kc, p + c + b + e, st);
    MessagesAboutAppend(p + c + b, e, st);
    MessagesAboutAppend(p + c, b, st);
    MessagesAboutAppend(p, c, st);
  }

  lemma MessagesAboutType(current: Topology, remote: Topology, other: ServerType, st: ServerType)
    ensures MessagesAbout(TypeChanges(current, remote, other), st) ==
            if other == st then TypeChanges(current, remote, st) else []
  {
    var tc := TypeChanges(current, remote, other);
    TypeChangesShape(current, remote, other);
    MessagesAboutUniform(tc, st);
    if other != st {
      assert forall i :: 0 <= i < |tc| ==> !About(tc[i], st);
    }
  }

  lemma MessagesAboutKeys(current: Topology, remote: Topology, st: ServerType)
    ensures MessagesAbout(KeyChanges(current, remote, |TopKeys|), st) == []
  {
    var kc := KeyChanges(current, remote, |TopKeys|);
    KeysShape(current, remote);
    MessagesAboutUniform(kc, st);
  }

  // ---------------------------------------------------------------------------
  // Pairing and the labels of the values

  /** The address message of one pair of servers. */
  lemma PairAddrMessage(st: ServerType, rs: Element, cs: Element, localAddr: string, remoteAddr: string)
    ensures AddrDiffers(st, localAddr, remoteAddr) in FieldsChanges(st, rs, cs, |ElementFields(st)|) <==>
            localAddr == cs.addr && remoteAddr == rs.addr && localAddr != remoteAddr
  {
    if st == EdgeRouters {
      EdgeRouterFields(rs, cs);
      var nc := NestedChanges(st, rs, cs, [NeighborAD, NeighborISD, NeighborType], 3);
      NestedChangesShape(st, rs, cs, [NeighborAD, NeighborISD, NeighborType], 3);
      NestedChangesNoAddr(st, rs, cs, [NeighborAD, NeighborISD, NeighborType], 3, localAddr, remoteAddr);
    } else {
      assert FieldsChanges(st, rs, cs, 1) == FieldChanges(st, rs, cs, Addr);
    }
  }

  /** The neighbour messages of one pair of servers. */
  lemma PairNestedMessage(st: ServerType, rs: Element, cs: Element, f: NestedField, local: Value, remote: Value)
    ensures NestedDiffers(f, st, local, remote) in FieldsChanges(st, rs, cs, |ElementFields(st)|) <==>
            st == EdgeRouters && local == NestedValue(cs.intf, f) && remote == NestedValue(rs.intf, f) && local != remote
  {
    if st == EdgeRouters {
      var nested := [NeighborAD, NeighborISD, NeighborType];
      EdgeRouterFields(rs, cs);
      NestedMessages(st, rs, cs, nested, 3, f, local, remote);
      assert nested[..3] == nested;
      assert f == NeighborAD || f == NeighborISD || f == NeighborType;
    } else {
      assert FieldsChanges(st, rs, cs, 1) == FieldChanges(st, rs, cs, Addr);
    }
  }

  /** An address message names the stored server's address as local and the
      remote one's as remote, for servers at the same sorted position. */
  lemma {:induction false} AddrMessages(st: ServerType, remoteServers: seq<Element>, currentServers: seq<Element>,
                                        n: nat, localAddr: string, remoteAddr: string)
    requires n <= |remoteServers| == |currentServers|
    ensures AddrDiffers(st, localAddr, remoteAddr) in PairChanges(st, remoteServers, currentServers, n) <==>
            localAddr != remoteAddr &&
            exists j :: 0 <= j < n && currentServers[j].addr == localAddr && remoteServers[j].addr == remoteAddr
    decreases n
  {
    if n > 0 {
      var x := AddrDiffers(st, localAddr, remoteAddr);
      AddrMessages(st, remoteServers, currentServers, n - 1, localAddr, remoteAddr);
      PairAddrMessage(st, remoteServers[n - 1], currentServers[n - 1], localAddr, remoteAddr);
      var a := PairChanges(st, remoteServers, currentServers, n - 1);
      var b := FieldsChanges(st, remoteServers[n - 1], currentServers[n - 1], |ElementFields(st)|);
      assert PairChanges(st, remoteServers, currentServers, n) == a + b;
      assert x in a + b <==> x in a || x in b;
      if x in b {
        assert currentServers[n - 1].addr == localAddr && remoteServers[n - 1].addr == remoteAddr;
      }
      if localAddr != remoteAddr &&
         exists j :: 0 <= j < n && currentServers[j].addr == localAddr && remoteServers[j].addr == remoteAddr {
        var j :| 0 <= j < n && currentServers[j].addr == localAddr && remoteServers[j].addr == remoteAddr;
        if j < n - 1 {
          assert x in a;
        } else {
          assert x in b;
        }
      }
    }
  }

  lemma {:induction false} NestedMessages(st: ServerType, rs: Element, cs: Element, fields: seq<NestedField>, n: nat,
                                          f: NestedField, local: Value, remote: Value)
    requires n <= |fields|
    ensures NestedDiffers(f, st, local, remote) in NestedChanges(st, rs, cs, fields, n) <==>
            f in fields[..n] && local == NestedValue(cs.intf, f) && remote == NestedValue(rs.intf, f) && local != remote
    decreases n
  {
    if n > 0 {
      NestedMessages(st, rs, cs, fields, n - 1, f, local, remote);
      assert fields[..n] == fields[..n - 1] + [fields[n - 1]];
    }
  }

  /** The stored and the remote server at sorted position `j` hold `local`
      and `remote` in the nested field `f`. */
  predicate NeighborAt(remoteServers: seq<Element>, currentServers: seq<Element>, j: nat,
                       f: NestedField, local: Value, remote: Value)
    requires j < |remoteServers| == |currentServers|
  {
    NestedValue(currentServers[j].intf, f) == local && NestedValue(remoteServers[j].intf, f) == remote
  }

  /** A neighbour message names the stored server's value as local and the
      remote one's as remote, and only edge routers get one. */
  lemma {:induction false} NeighborMessages(st: ServerType, remoteServers: seq<Element>, currentServers: seq<Element>,
                                            n: nat, f: NestedField, local: Value, remote: Value)
    requires n <= |remoteServers| == |currentServers|
    ensures NestedDiffers(f, st, local, remote) in PairChanges(st, remoteServers, currentServers, n) <==>
            st == EdgeRouters && local != remote &&
            exists j :: 0 <= j < n && NeighborAt(remoteServers, currentServers, j, f, local, remote)
    decreases n
  {
    if n > 0 {
      var x := NestedDiffers(f, st, local, remote);
      NeighborMessages(st, remoteServers, currentServers, n - 1, f, local, remote);
      PairNestedMessage(st, remoteServers[n - 1], currentServers[n - 1], f, local, remote);
      var a := PairChanges(st, remoteServers, currentServers, n - 1);
      var b := FieldsChanges(st, remoteServers[n - 1], currentServers[n - 1], |ElementFields(st)|);
      assert PairChanges(st, remoteServers, currentServers, n) == a + b;
      assert x in a + b <==> x in a || x in b;
      if x in b {
        assert NeighborAt(remoteServers, currentServers, n - 1, f, local, remote);
      }
      if st == EdgeRouters && local != remote &&
         exists j :: 0 <= j < n && NeighborAt(remoteServers, currentServers, j, f, local, remote) {
        var j :| 0 <= j < n && NeighborAt(remoteServers, currentServers, j, f, local, remote);
        if j < n - 1 {
          assert x in a;
        } else {
          assert x in b;
        }
      }
    }
  }

  /** The nested-field messages as written: the remote value is passed
      where the local one is printed and the other way round. */
  function NestedChangesAsWritten(st: ServerType, rs: Element, cs: Element, fields: seq<NestedField>, n: nat): seq<Change>
    requires n <= |fields|
  {
    if n == 0 then []
    else
      var f := fields[n - 1];
      var remoteValue := NestedValue(rs.intf, f);
      var currentValue := NestedValue(cs.intf, f);
      NestedChangesAsWritten(st, rs, cs, fields, n - 1) +
        (if remoteValue != currentValue then [NestedDiffers(f, st, remoteValue, currentValue)] else [])
  }

  /** As written, each neighbour message is the one the corrected
      comparison would give with the two servers exchanged. */
  lemma {:induction false} AsWrittenSwapsLabels(st: ServerType, rs: Element, cs: Element, fields: seq<NestedField>, n: nat)
    requires n <= |fields|
    ensures NestedChangesAsWritten(st, rs, cs, fields, n) == NestedChanges(st, cs, rs, fields, n)
    decreases n
  {
    if n > 0 {
      AsWrittenSwapsLabels(st, rs, cs, fields, n - 1);
    }
  }

  /** An edge router whose stored neighbour AD is 1 and whose remote one is
      2 is reported as written with "Local: 2, remote: 1". */
  lemma AsWrittenMislabelsExample()
    ensures var intf1 := RouterInterface(1, 1, "PARENT", map[]);
            var intf2 := RouterInterface(2, 1, "PARENT", map[]);
            var cs := Element("10.0.0.1", intf1, map[]);
            var rs := Element("10.0.0.1", intf2, map[]);
            NestedChangesAsWritten(EdgeRouters, rs, cs, [NeighborAD], 1) ==
              [NestedDiffers(NeighborAD, EdgeRouters, Int(2), Int(1))] &&
            NestedChanges(EdgeRouters, rs, cs, [NeighborAD], 1) ==
              [NestedDiffers(NeighborAD, EdgeRouters, Int(1), Int(2))]
  {
  }
}
