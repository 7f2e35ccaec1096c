/** Path de-duplication, the demo exclusion filter and the first-best path
    selection loops of the application network helpers. A path is reduced to
    what these operations look at: its interfaces, its fingerprint (a hash of
    the interface list, taken here as given), its expiry and its MTU. */
module AppNet {
  import opened Common

  /** One hop of a path: the AS and the interface id in it. */
  datatype PathInterface = PathInterface(ia: IA, id: u64)

  /** Expiry times are instants on one clock; `Before` is strict `<`. */
  datatype Path = Path(interfaces: seq<PathInterface>, fingerprint: string, expiry: int, mtu: u16)

  // ---------------------------------------------------------------------------
  // filterDuplicates

  /** The `chosenPath` map after the first `n` iterations of the first loop:
      for each fingerprint, the index of the path with the latest expiry, a
      later path replacing an earlier one only when it expires strictly
      later. */
  function Chosen(paths: seq<Path>, n: nat): (m: map<string, nat>)
    requires n <= |paths|
    ensures forall fp {:trigger m[fp]} :: fp in m ==> m[fp] < n && paths[m[fp]].fingerprint == fp
    ensures forall i :: 0 <= i < n ==> paths[i].fingerprint in m
    decreases n
  {
    if n == 0 then map[]
    else
      var m := Chosen(paths, n - 1);
      var fp := paths[n - 1].fingerprint;
      if fp !in m || paths[m[fp]].expiry < paths[n - 1].expiry then m[fp := n - 1] else m
  }

  /** The indices below `n` that are in `kept`, ascending. */
  function KeptOrder(kept: set<nat>, n: nat): (r: seq<nat>)
    ensures forall k :: 0 <= k < |r| ==> r[k] < n && r[k] in kept
    ensures forall k, l :: 0 <= k < l < |r| ==> r[k] < r[l]
    ensures forall i :: 0 <= i < n && i in kept ==> i in r
    decreases n
  {
    if n == 0 then []
    else KeptOrder(kept, n - 1) + (if n - 1 in kept then [n - 1] else [])
  }

  /** The paths at the given indices, in that order. */
  function Pick(paths: seq<Path>, idx: seq<nat>): (r: seq<Path>)
    requires forall k :: 0 <= k < |idx| ==> idx[k] < |paths|
    ensures |r| == |idx| && forall k :: 0 <= k < |r| ==> r[k] == paths[idx[k]]
  {
    seq(|idx|, k requires 0 <= k < |idx| => paths[idx[k]])
  }

  /** The input positions `filterDuplicates` keeps, in input order. */
  function DedupIndices(paths: seq<Path>): (r: seq<nat>)
    ensures forall k :: 0 <= k < |r| ==> r[k] < |paths|
  {
    KeptOrder(Chosen(paths, |paths|).Values, |paths|)
  }

  /** What `filterDuplicates` returns. */
  function Deduplicated(paths: seq<Path>): seq<Path>
  {
    Pick(paths, DedupIndices(paths))
  }

  /** `filterDuplicates`: choose one index per fingerprint, collect the chosen
      indices, then keep the paths at those indices in input order. */
  method FilterDuplicates(paths: seq<Path>) returns (filtered: seq<Path>)
    ensures filtered == Deduplicated(paths)
  {
    var chosenPath := ChoosePaths(paths);
    var kept := ChosenIndices(chosenPath);
    filtered := KeepInOrder(paths, kept);
  }

  /** The first loop of `filterDuplicates`. */
  method ChoosePaths(paths: seq<Path>) returns (chosenPath: map<string, nat>)
    ensures chosenPath == Chosen(paths, |paths|)
  {
    chosenPath := map[];
    for i := 0 to |paths|
      invariant chosenPath == Chosen(paths, i)
    {
      var fingerprint := paths[i].fingerprint;
      if fingerprint !in chosenPath || paths[chosenPath[fingerprint]].expiry < paths[i].expiry {
        chosenPath := chosenPath[fingerprint := i];
      }
    }
  }

  /** The second loop of `filterDuplicates`: the set of chosen indices. */
  method ChosenIndices(chosenPath: map<string, nat>) returns (kept: set<nat>)
    ensures kept == chosenPath.Values
  {
    kept := {};
    var rest := chosenPath.Keys;
    while rest != {}
      invariant rest <= chosenPath.Keys
      invariant forall fp :: fp in chosenPath && fp !in rest ==> chosenPath[fp] in kept
      invariant forall p :: p in kept ==> p in chosenPath.Values
      decreases |rest|
    {
      var fp :| fp in rest;
      kept := kept + {chosenPath[fp]};
      rest := rest - {fp};
    }
  }

  /** The third loop of `filterDuplicates`: the paths whose index is kept,
      in input order. */
  method KeepInOrder(paths: seq<Path>, kept: set<nat>) returns (filtered: seq<Path>)
    ensures filtered == Pick(paths, KeptOrder(kept, |paths|))
  {
    filtered := [];
    for i := 0 to |paths|
      invariant filtered == Pick(paths, KeptOrder(kept, i))
    {
      PickStep(paths, kept, i);
      if i in kept {
        filtered := filtered + [paths[i]];
      }
    }
  }

  lemma PickStep(paths: seq<Path>, kept: set<nat>, i: nat)
    requires i < |paths|
    ensures Pick(paths, KeptOrder(kept, i + 1)) ==
            Pick(paths, KeptOrder(kept, i)) + (if i in kept then [paths[i]] else [])
  {
    if i in kept {
      assert KeptOrder(kept, i + 1) == KeptOrder(kept, i) + [i];
    } else {
      assert KeptOrder(kept, i + 1) == KeptOrder(kept, i);
    }
  }

  /** The chosen index of a fingerprint holds a latest expiry among the
      paths with that fingerprint, and among those with that same expiry it
      is the earliest. */
  lemma {:induction false} ChosenIsLatest(paths: seq<Path>, n: nat, i: nat)
    requires i < n <= |paths|
    ensures var c := Chosen(paths, n)[paths[i].fingerprint];
            paths[i].expiry <= paths[c].expiry && (paths[i].expiry == paths[c].expiry ==> c <= i)
    decreases n
  {
    if i < n - 1 {
      ChosenIsLatest(paths, n - 1, i);
    }
  }

  /** `filterDuplicates` keeps an in-order subsequence of its input, exactly
      one path per fingerprint, and for every fingerprint the one kept has
      the latest expiry, the earliest such on ties. */
  lemma DeduplicatedProperties(paths: seq<Path>)
    ensures var idx := DedupIndices(paths);
            var r := Deduplicated(paths);
            |r| == |idx| && (forall k :: 0 <= k < |r| ==> r[k] == paths[idx[k]]) &&
            (forall k, l :: 0 <= k < l < |idx| ==> idx[k] < idx[l]) &&
            (forall k, l :: 0 <= k < l < |r| ==> r[k].fingerprint != r[l].fingerprint) &&
            (forall i :: 0 <= i < |paths| ==> exists k :: 0 <= k < |r| && r[k].fingerprint == paths[i].fingerprint) &&
            (forall i, k :: 0 <= i < |paths| && 0 <= k < |r| && paths[i].fingerprint == r[k].fingerprint ==>
               paths[i].expiry <= r[k].expiry && (paths[i].expiry == r[k].expiry ==> idx[k] <= i))
  {
    var m := Chosen(paths, |paths|);
    var idx := DedupIndices(paths);
    var r := Deduplicated(paths);
    forall i | 0 <= i < |paths|
      ensures var c := m[paths[i].fingerprint];
              paths[i].expiry <= paths[c].expiry && (paths[i].expiry == paths[c].expiry ==> c <= i)
    {
      ChosenIsLatest(paths, |paths|, i);
    }
    // Every kept index is the chosen index of its own fingerprint.
    forall k | 0 <= k < |idx|
      ensures m[paths[idx[k]].fingerprint] == idx[k]
    {
      var fp :| fp in m && m[fp] == idx[k];
      assert paths[idx[k]].fingerprint == fp;
    }
    forall i | 0 <= i < |paths|
      ensures exists k :: 0 <= k < |r| && r[k].fingerprint == paths[i].fingerprint
    {
      var c := m[paths[i].fingerprint];
      assert c in m.Values;
      assert c in idx;
      var k :| 0 <= k < |idx| && idx[k] == c;
      assert r[k].fingerprint == paths[i].fingerprint;
    }
  }

  // ---------------------------------------------------------------------------
  // Interface sets and the demo exclusion rules

  /** The (AS, interface) pairs a path traverses. */
  function InterfaceSet(path: Path): (s: set<PathInterface>)
    ensures forall x :: x in s <==> x in path.interfaces
  {
    set x | x in path.interfaces
  }

  /** `pathInterfaceSet`. */
  method PathInterfaceSet(path: Path) returns (s: set<PathInterface>)
    ensures s == InterfaceSet(path)
  {
    s := {};
    for k := 0 to |path.interfaces|
      invariant forall x :: x in s <==> x in path.interfaces[..k]
    {
      s := s + {path.interfaces[k]};
    }
    assert path.interfaces[..|path.interfaces|] == path.interfaces;
  }

  /** Every interface of the rule is traversed by the path. */
  predicate ContainsAll(path: Path, rule: seq<PathInterface>)
  {
    forall x :: x in rule ==> x in InterfaceSet(path)
  }

  /** `containsAllInterfaces`: stops at the first interface of the list the
      path does not traverse; an empty list is always contained. */
  method ContainsAllInterfaces(path: Path, ifaceList: seq<PathInterface>) returns (b: bool)
    ensures b <==> forall x :: x in ifaceList ==> x in path.interfaces
    ensures ifaceList == [] ==> b
  {
    var ifaceSet := PathInterfaceSet(path);
    for k := 0 to |ifaceList|
      invariant forall j :: 0 <= j < k ==> ifaceList[j] in path.interfaces
    {
      if ifaceList[k] !in ifaceSet {
        return false;
      }
    }
    return true;
  }

  /** The three demo ASes of ISD 17: `ffaa:0:1110`, `ffaa:0:1111`,
      `ffaa:0:1112`. */
  const AsLat: IA := IA(17, 0xffaa_0000_1110)
  const AsLoss: IA := IA(17, 0xffaa_0000_1111)
  const AsBW: IA := IA(17, 0xffaa_0000_1112)

  /** A path is excluded when it traverses every interface of one rule: the
      two slow links of the bandwidth AS on their own, and each of the
      latency AS's links 1 to 3 together with the lossy AS's link 4 or 5. */
  const ExclusionRules: seq<seq<PathInterface>> := [
    [PathInterface(AsBW, 4)],
    [PathInterface(AsBW, 5)],
    [PathInterface(AsLat, 1), PathInterface(AsLoss, 4)],
    [PathInterface(AsLat, 1), PathInterface(AsLoss, 5)],
    [PathInterface(AsLat, 2), PathInterface(AsLoss, 4)],
    [PathInterface(AsLat, 2), PathInterface(AsLoss, 5)],
    [PathInterface(AsLat, 3), PathInterface(AsLoss, 4)],
    [PathInterface(AsLat, 3), PathInterface(AsLoss, 5)]
  ]

  /** The path traverses every interface of at least one of the rules. */
  predicate MatchesAnyRule(path: Path, rules: seq<seq<PathInterface>>)
  {
    exists k :: 0 <= k < |rules| && ContainsAll(path, rules[k])
  }

  predicate Excluded(path: Path)
  {
    MatchesAnyRule(path, ExclusionRules)
  }

  /** The inner loop of `demoFilterPaths`: try the rules in order and stop
      at the first the path matches. */
  method FirstMatchingRule(path: Path, rules: seq<seq<PathInterface>>) returns (excluded: bool)
    ensures excluded == MatchesAnyRule(path, rules)
  {
    excluded := false;
    for r := 0 to |rules|
      invariant !excluded ==> forall j :: 0 <= j < r ==> !ContainsAll(path, rules[j])
      invariant excluded ==> MatchesAnyRule(path, rules)
    {
      var matches := ContainsAllInterfaces(path, rules[r]);
      if matches {
        excluded := true;
        break;
      }
    }
  }

  /** The paths matching no exclusion rule, in input order. */
  function DemoFiltered(paths: seq<Path>): seq<Path>
    decreases |paths|
  {
    if paths == [] then []
    else (if Excluded(paths[0]) then [] else [paths[0]]) + DemoFiltered(paths[1..])
  }

  /** `demoFilterPaths`: for each path, look for a matching rule and stop at
      the first; keep the path when there is none. */
  method DemoFilterPaths(paths: seq<Path>) returns (filtered: seq<Path>)
    ensures filtered == DemoFiltered(paths)
  {
    filtered := [];
    for i := 0 to |paths|
      invariant filtered + DemoFiltered(paths[i..]) == DemoFiltered(paths)
    {
      DemoFilteredStep(paths, i);
      var p := paths[i];
      var excluded := FirstMatchingRule(p, ExclusionRules);
      if !excluded {
        filtered := filtered + [p];
      }
    }
  }

  /** One step of the filtering loop: the path at `i` is kept or dropped,
      then the rest is filtered. */
  lemma DemoFilteredStep(paths: seq<Path>, i: nat)
    requires i < |paths|
    ensures DemoFiltered(paths[i..]) ==
              (if Excluded(paths[i]) then [] else [paths[i]]) + DemoFiltered(paths[i + 1..])
  {
    assert paths[i..][1..] == paths[i + 1..];
  }

  /** Filtering distributes over concatenation, so the relative order of
      the kept paths is that of the input. */
  lemma {:induction false} DemoFilteredAppend(a: seq<Path>, b: seq<Path>)
    ensures DemoFiltered(a + b) == DemoFiltered(a) + DemoFiltered(b)
    decreases |a|
  {
    if a == [] {
      assert a + b == b;
    } else {
      assert (a + b)[0] == a[0];
      assert (a + b)[1..] == a[1..] + b;
      DemoFilteredAppend(a[1..], b);
    }
  }

  /** Exactly the paths that match no rule are kept, each as often as it
      occurs in the input. */
  lemma {:induction false} DemoFilteredCounts(paths: seq<Path>, p: Path)
    ensures multiset(DemoFiltered(paths))[p] == if Excluded(p) then 0 else multiset(paths)[p]
    decreases |paths|
  {
    if paths != [] {
      assert paths == [paths[0]] + paths[1..];
      DemoFilteredCounts(paths[1..], p);
    }
  }

  /** The bandwidth rules exclude a path on their own; a latency link is
      excluded only together with one of the lossy links. */
  lemma DemoRulesExamples(path: Path)
    ensures PathInterface(AsBW, 4) in path.interfaces ==> Excluded(path)
    ensures (PathInterface(AsLat, 2) in path.interfaces && PathInterface(AsLoss, 5) in path.interfaces) ==> Excluded(path)
    ensures (forall x :: x in path.interfaces ==> x.ia == AsLat) ==> !Excluded(path)
  {
    if PathInterface(AsBW, 4) in path.interfaces {
      assert ContainsAll(path, ExclusionRules[0]);
    }
    if PathInterface(AsLat, 2) in path.interfaces && PathInterface(AsLoss, 5) in path.interfaces {
      assert ContainsAll(path, ExclusionRules[5]);
    }
    if forall x :: x in path.interfaces ==> x.ia == AsLat {
      forall k | 0 <= k < |ExclusionRules|
        ensures !ContainsAll(path, ExclusionRules[k])
      {
        var x := ExclusionRules[k][|ExclusionRules[k]| - 1];
        assert x.ia != AsLat && x in ExclusionRules[k];
      }
    }
  }

  // ---------------------------------------------------------------------------
  // First-best selection

  /** The selection loop of `selectShortestPath`: a later path replaces the
      current one only when it has strictly fewer interfaces, so the first
      path of minimum length wins. The input must be non-empty: on an empty
      list the metric would read the length of a nil path. */
  method SelectShortestPath(paths: seq<Path>) returns (selectedPath: Path)
    requires |paths| > 0
    ensures forall j :: 0 <= j < |paths| ==> |selectedPath.interfaces| <= |paths[j].interfaces|
    ensures exists k :: 0 <= k < |paths| && paths[k] == selectedPath &&
                        forall j :: 0 <= j < k ==> |paths[j].interfaces| > |selectedPath.interfaces|
  {
    var selected: Option<Path> := None;
    ghost var at := 0;
    for i := 0 to |paths|
      invariant selected.None? <==> i == 0
      invariant selected.Some? ==> at < i && paths[at] == selected.value
      invariant selected.Some? ==> forall j :: 0 <= j < i ==> |selected.value.interfaces| <= |paths[j].interfaces|
      invariant selected.Some? ==> forall j :: 0 <= j < at ==> |paths[j].interfaces| > |selected.value.interfaces|
    {
      if selected.None? || |paths[i].interfaces| < |selected.value.interfaces| {
        selected := Some(paths[i]);
        at := i;
      }
    }
    selectedPath := selected.value;
  }

  /** The selection loop of `selectLargestMTUPath`: a later path replaces
      the current one only when its MTU is strictly larger, so the first
      path of maximum MTU wins. The input must be non-empty, as above. */
  method SelectLargestMTUPath(paths: seq<Path>) returns (selectedPath: Path)
    requires |paths| > 0
    ensures forall j :: 0 <= j < |paths| ==> paths[j].mtu <= selectedPath.mtu
    ensures exists k :: 0 <= k < |paths| && paths[k] == selectedPath &&
                        forall j :: 0 <= j < k ==> paths[j].mtu < selectedPath.mtu
  {
    var selected: Option<Path> := None;
    ghost var at := 0;
    for i := 0 to |paths|
      invariant selected.None? <==> i == 0
      invariant selected.Some? ==> at < i && paths[at] == selected.value
      invariant selected.Some? ==> forall j :: 0 <= j < i ==> paths[j].mtu <= selected.value.mtu
      invariant selected.Some? ==> forall j :: 0 <= j < at ==> paths[j].mtu < selected.value.mtu
    {
      if selected.None? || paths[i].mtu > selected.value.mtu {
        selected := Some(paths[i]);
        at := i;
      }
    }
    selectedPath := selected.value;
  }
}
